/** A discovered shell script (ScriptletRunner/Models/Script.swift). */
module Scripts {
  import opened Base
  import opened Paths
  import opened Arguments

  datatype Script = Script(
    id: Uuid,
    path: string,
    name: string,
    description: string,
    usage: Option<string>,
    arguments: seq<ScriptArgument>,
    customLabel: Option<string>,
    lastRun: Option<Timestamp>)

  /** The initialiser with its defaults; `id` is the freshly drawn `UUID()`. A missing
      name is the file name of the path; `lastRun` starts unset. */
  function NewScript(
    id: Uuid,
    path: string,
    name: Option<string> := None,
    description: string := "",
    usage: Option<string> := None,
    arguments: seq<ScriptArgument> := [],
    customLabel: Option<string> := None): (s: Script)
    ensures s.id == id && s.path == path
    ensures s.name == if name.Some? then name.value else LastPathComponent(path)
    ensures s.description == description && s.usage == usage
    ensures s.arguments == arguments && s.customLabel == customLabel
    ensures s.lastRun.None?
  {
    Script(id, path, name.GetOr(LastPathComponent(path)), description, usage, arguments,
           customLabel, None)
  }

  /** `displayName`: the custom label when one is set, otherwise the name. */
  function DisplayName(s: Script): (r: string)
    ensures s.customLabel.Some? ==> r == s.customLabel.value
    ensures s.customLabel.None? ==> r == s.name
  {
    s.customLabel.GetOr(s.name)
  }

  /** `directory`: the folder holding the script, its working directory when run. */
  function Directory(s: Script): string {
    DeletingLastPathComponent(s.path)
  }

  /** A script named after its file, in a folder below the root, is found again by
      joining its directory and its name. */
  lemma DirectoryAndNameLocateScript(id: Uuid, path: string)
    requires |path| > 1 && path[|path| - 1] != '/' && LastIndexOf(path, '/') > 0
    ensures Directory(NewScript(id, path)) + "/" + NewScript(id, path).name == path
  {
    DirectoryAndNameRebuildPath(path);
  }

  /** `==` and `hash(into:)` look only at the identifier. */
  predicate SameScript(a: Script, b: Script) {
    a.id == b.id
  }

  /** Two scripts are the same script exactly when their ids agree, whatever their
      other fields; a script is the same as itself edited. */
  lemma SameScriptIsIdentity(a: Script, b: Script, newLabel: Option<string>)
    ensures SameScript(a, a.(customLabel := newLabel, description := b.description))
    ensures SameScript(a, b) <==> a.id == b.id
  {
  }

  /** Script `k` is the first one at `path`. */
  predicate FirstAtPath(scripts: seq<Script>, path: string, k: int) {
    0 <= k < |scripts| && scripts[k].path == path && forall j :: 0 <= j < k ==> scripts[j].path != path
  }

  /** `scripts.first(where: { $0.path == path })`. */
  function FindByPath(scripts: seq<Script>, path: string): Option<Script> {
    if scripts == [] then None
    else if scripts[0].path == path then Some(scripts[0])
    else FindByPath(scripts[1..], path)
  }

  /** The search finds nothing exactly when no script has the path, and otherwise the
      first script that has it. */
  lemma {:induction false} FindByPathFindsFirst(scripts: seq<Script>, path: string)
    ensures FindByPath(scripts, path).None? <==> forall k :: 0 <= k < |scripts| ==> scripts[k].path != path
    ensures FindByPath(scripts, path).Some? ==>
              exists k :: FirstAtPath(scripts, path, k) && scripts[k] == FindByPath(scripts, path).value
  {
    if scripts != [] && scripts[0].path != path {
      var r := FindByPath(scripts[1..], path);
      FindByPathFindsFirst(scripts[1..], path);
      forall k | 0 < k < |scripts|
        ensures scripts[k] == scripts[1..][k - 1]
      {
      }
      if r.Some? {
        var k :| FirstAtPath(scripts[1..], path, k) && scripts[1..][k] == r.value;
        assert FirstAtPath(scripts, path, k + 1) by {
          forall j | 0 <= j < k + 1 ensures scripts[j].path != path {
            if j > 0 { assert scripts[j] == scripts[1..][j - 1]; }
          }
        }
      }
    } else if scripts != [] {
      assert FirstAtPath(scripts, path, 0);
    }
  }
}
