/** The parts of `URL(fileURLWithPath:)` the models use, for absolute paths:
    `lastPathComponent`, `deletingLastPathComponent().path` and `pathExtension`. */
module Paths {

  /** Index of the last `c` in `s`, or -1. */
  function LastIndexOf(s: string, c: char): (r: int)
    ensures -1 <= r < |s|
    ensures r >= 0 ==> s[r] == c
    ensures forall k :: r < k < |s| ==> s[k] != c
    decreases |s|
  {
    if s == [] then -1 else if s[|s| - 1] == c then |s| - 1 else LastIndexOf(s[..|s| - 1], c)
  }

  /** A file URL ignores trailing slashes, except that the root stays "/". */
  function StripTrailingSlashes(path: string): (r: string)
    ensures |r| <= |path| && r == path[..|r|]
    ensures |r| > 1 ==> r[|r| - 1] != '/'
    decreases |path|
  {
    if |path| > 1 && path[|path| - 1] == '/' then StripTrailingSlashes(path[..|path| - 1]) else path
  }

  /** `lastPathComponent`: the text after the last slash ("/" for the root). */
  function LastPathComponent(path: string): (r: string)
    ensures r != "/" ==> forall k :: 0 <= k < |r| ==> r[k] != '/'
  {
    var p := StripTrailingSlashes(path);
    if p == "/" then "/" else p[LastIndexOf(p, '/') + 1..]
  }

  /** `deletingLastPathComponent().path`: the text before the last slash, "/" when that
      slash is the first character, and "" for a path without a slash. */
  function DeletingLastPathComponent(path: string): string {
    var p := StripTrailingSlashes(path);
    var k := LastIndexOf(p, '/');
    if k > 0 then p[..k] else if k == 0 then "/" else ""
  }

  /** `pathExtension`: the extension of the last component. */
  function PathExtension(path: string): (r: string)
    ensures r == Extension(LastPathComponent(path))
  {
    Extension(LastPathComponent(path))
  }

  /** The extension of a file name: the text after its last dot, or "" when it has no
      dot or only a leading one. */
  function Extension(c: string): (r: string)
    ensures forall k :: 0 <= k < |r| ==> r[k] != '.'
    ensures (exists k :: 0 < k < |c| && c[k] == '.') ==> |r| + 1 < |c| && c[|c| - |r| - 1..] == "." + r
    ensures (forall k :: 0 < k < |c| ==> c[k] != '.') ==> r == ""
  {
    var k := LastIndexOf(c, '.');
    if k <= 0 then "" else
      assert c[k..] == "." + c[k + 1..];
      c[k + 1..]
  }

  /** A file name that ends in ".sh", after at least one other character, has the
      extension "sh". */
  lemma ShellNameExtension(c: string)
    requires |c| > 3 && c[|c| - 3..] == ".sh"
    ensures Extension(c) == "sh"
  {
    var r := Extension(c);
    assert c[|c| - 3] == '.' && c[|c| - 2] == 's' && c[|c| - 1] == 'h';
    var d := |c| - |r| - 1;
    assert 0 < d && c[d..] == "." + r;
    assert c[d] == '.';
    assert d <= |c| - 3 by {
      assert c[|c| - 2] != '.' && c[|c| - 1] != '.';
    }
    assert d >= |c| - 3;
    assert r == c[|c| - 2..];
  }

  /** So does every path whose last component is such a name. */
  lemma ShellScriptExtension(path: string)
    requires var c := LastPathComponent(path); |c| > 3 && c[|c| - 3..] == ".sh"
    ensures PathExtension(path) == "sh"
  {
    ShellNameExtension(LastPathComponent(path));
  }

  /** Splitting a file path below the root into directory and name loses nothing:
      joining them with a slash gives the path back. */
  lemma {:induction false} DirectoryAndNameRebuildPath(path: string)
    requires |path| > 1 && path[|path| - 1] != '/' && LastIndexOf(path, '/') > 0
    ensures DeletingLastPathComponent(path) + "/" + LastPathComponent(path) == path
  {
    var k := LastIndexOf(path, '/');
    assert StripTrailingSlashes(path) == path;
    assert path == path[..k] + "/" + path[k + 1..];
  }

  /** A file directly under the root has "/" as its directory. */
  lemma {:induction false} FileUnderRoot(path: string)
    requires |path| > 1 && path[|path| - 1] != '/' && LastIndexOf(path, '/') == 0
    ensures DeletingLastPathComponent(path) == "/" && "/" + LastPathComponent(path) == path
  {
    assert StripTrailingSlashes(path) == path;
  }
}
