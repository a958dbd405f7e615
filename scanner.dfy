/** Finding the scripts of the scan locations (ScriptletRunner/Services/ScriptScanner.swift).
    The file system is given as facts: which folders exist, what the directory
    enumerator lists in each, and for each file whether it is executable, the text of
    its first bytes and its whole text. */
module ScriptScanner {
  import opened Base
  import opened Text
  import opened Paths
  import opened Scripts
  import opened Locations
  import opened ScriptParser

  /** One item the directory enumerator can list. `relative` holds the path components
      below the scanned folder; `leading` is the first 64 bytes decoded as UTF-8, None
      when the file cannot be opened or read or those bytes are not UTF-8; `content` is
      the whole file as the parser reads it. */
  datatype Entry = Entry(
    path: string,
    relative: seq<string>,
    isExecutable: bool,
    leading: Option<string>,
    content: Option<string>)

  /** The folders that exist, and what the enumerator lists for each folder it can open. */
  datatype Disk = Disk(existing: set<string>, listings: map<string, seq<Entry>>)

  // ----- isShellScript -----

  /** The interpreter lines that mark an executable file as a shell script. */
  const Shebangs: seq<string> := [
    "#!/bin/bash", "#!/bin/sh", "#!/usr/bin/env bash", "#!/usr/bin/env sh",
    "#!/bin/zsh", "#!/usr/bin/env zsh"]

  /** `isShellScript`. */
  function IsShellScript(e: Entry): bool {
    if PathExtension(e.path) == "sh" then true
    else if !e.isExecutable then false
    else match e.leading
      case None => false
      case Some(header) =>
        HasPrefix(header, "#!/bin/bash") || HasPrefix(header, "#!/bin/sh")
        || HasPrefix(header, "#!/usr/bin/env bash") || HasPrefix(header, "#!/usr/bin/env sh")
        || HasPrefix(header, "#!/bin/zsh") || HasPrefix(header, "#!/usr/bin/env zsh")
  }

  /** The leading text starts with one of the listed interpreter lines. */
  predicate HasShebang(header: string) {
    exists k :: 0 <= k < |Shebangs| && HasPrefix(header, Shebangs[k])
  }

  /** A `.sh` file is a script whatever its permissions and contents; any other file is
      one exactly when it is executable and its first bytes read as UTF-8 text starting
      with one of the interpreter lines. */
  lemma ShellScriptRules(e: Entry)
    ensures PathExtension(e.path) == "sh" ==>
              forall x: bool, h: Option<string> :: IsShellScript(e.(isExecutable := x, leading := h))
    ensures PathExtension(e.path) != "sh" ==>
              (IsShellScript(e) <==> e.isExecutable && e.leading.Some? && HasShebang(e.leading.value))
  {
    if PathExtension(e.path) != "sh" && e.isExecutable && e.leading.Some? {
      ShebangCases(e.leading.value);
    }
  }

  /** `HasShebang` is the six prefix tests `IsShellScript` makes. */
  lemma ShebangCases(h: string)
    ensures HasShebang(h) <==>
              HasPrefix(h, "#!/bin/bash") || HasPrefix(h, "#!/bin/sh")
              || HasPrefix(h, "#!/usr/bin/env bash") || HasPrefix(h, "#!/usr/bin/env sh")
              || HasPrefix(h, "#!/bin/zsh") || HasPrefix(h, "#!/usr/bin/env zsh")
  {
    if HasShebang(h) {
      var k :| 0 <= k < |Shebangs| && HasPrefix(h, Shebangs[k]);
      assert k == 0 || k == 1 || k == 2 || k == 3 || k == 4 || k == 5;
    } else {
      assert !HasPrefix(h, Shebangs[0]) && !HasPrefix(h, Shebangs[1]) && !HasPrefix(h, Shebangs[2]);
      assert !HasPrefix(h, Shebangs[3]) && !HasPrefix(h, Shebangs[4]) && !HasPrefix(h, Shebangs[5]);
    }
  }

  /** A file named "<name>.sh" is a shell script whatever its permissions and contents. */
  lemma ShNamedFileIsScript(e: Entry)
    requires var c := LastPathComponent(e.path); |c| > 3 && c[|c| - 3..] == ".sh"
    ensures IsShellScript(e)
  {
    ShellScriptExtension(e.path);
  }

  /** The test is on prefixes only: options after the interpreter are accepted, and so
      is an interpreter whose name merely starts like one of the six. */
  lemma ShebangIsPrefixTest()
    ensures HasShebang("#!/bin/bash -e\n") && HasShebang("#!/bin/shiny")
  {
    assert HasPrefix("#!/bin/bash -e\n", Shebangs[0]);
    assert HasPrefix("#!/bin/shiny", Shebangs[1]);
  }

  /** Another interpreter is not accepted. */
  lemma OtherInterpreterRejected()
    ensures !HasShebang("#!/usr/bin/python3")
  {
    var python := "#!/usr/bin/python3";
    assert python[..|Shebangs[0]|][3] != Shebangs[0][3] && python[..|Shebangs[1]|][3] != Shebangs[1][3];
    assert |Shebangs[2]| > |python| && python[..|Shebangs[3]|][11] != Shebangs[3][11];
    assert python[..|Shebangs[4]|][3] != Shebangs[4][3] && python[..|Shebangs[5]|][11] != Shebangs[5][11];
  }

  // ----- The directory enumerator -----

  /** Hidden: the item or one of the folders above it (below the scanned folder) has a
      name starting with a dot. */
  predicate Hidden(e: Entry) {
    exists k :: 0 <= k < |e.relative| && e.relative[k] != [] && e.relative[k][0] == '.'
  }

  /** Inside a subfolder of the scanned folder. */
  predicate Nested(e: Entry) {
    |e.relative| > 1
  }

  /** What `enumerator(at:options:)` yields with `.skipsHiddenFiles`, and with
      `.skipsSubdirectoryDescendants` when the scan is not recursive: the listing in its
      order, without hidden items and, unless recursive, without nested ones. */
  function Enumerated(listing: seq<Entry>, recursive: bool): (r: seq<Entry>)
    decreases |listing|
  {
    if listing == [] then []
    else
      var rest := Enumerated(listing[1..], recursive);
      if !Hidden(listing[0]) && (recursive || !Nested(listing[0])) then [listing[0]] + rest
      else rest
  }

  lemma {:induction false} EnumeratedSkips(listing: seq<Entry>, recursive: bool, e: Entry)
    ensures e in Enumerated(listing, recursive) <==> e in listing && !Hidden(e) && (recursive || !Nested(e))
    decreases |listing|
  {
    if listing != [] {
      EnumeratedSkips(listing[1..], recursive, e);
      assert listing == [listing[0]] + listing[1..];
    }
  }

  // ----- scanDirectory -----

  /** The UUIDs the parse of the file at `path` draws: `draw(path, 0)` for the script,
      then `draw(path, k + 1)` for its k-th argument. */
  function ArgumentIds(draw: (string, nat) -> Uuid, path: string): nat -> Uuid {
    (k: nat) => draw(path, k + 1)
  }

  /** `parser.parse(scriptPath:)` on a listed file. */
  function ParseEntry(e: Entry, draw: (string, nat) -> Uuid): (r: Script)
    ensures r.path == e.path && r.id == draw(e.path, 0)
  {
    ParsedScript(draw(e.path, 0), e.path, e.content, ArgumentIds(draw, e.path))
  }

  /** The parse of each listed file. */
  function Parser(draw: (string, nat) -> Uuid): Entry -> Script {
    e => ParseEntry(e, draw)
  }

  /** The scripts of the items in order: one parse per item `isScript` accepts. */
  function ScriptsOf(entries: seq<Entry>, isScript: Entry -> bool, parse: Entry -> Script): (r: seq<Script>)
    ensures |r| <= |entries|
    decreases |entries|
  {
    if entries == [] then []
    else
      var last := entries[|entries| - 1];
      ScriptsOf(entries[..|entries| - 1], isScript, parse) + (if isScript(last) then [parse(last)] else [])
  }

  /** A script comes from exactly the items that are accepted. */
  lemma {:induction false} ScriptsOfParsesAccepted(
    entries: seq<Entry>, isScript: Entry -> bool, parse: Entry -> Script, sc: Script)
    ensures sc in ScriptsOf(entries, isScript, parse) <==>
            exists e :: e in entries && isScript(e) && sc == parse(e)
    decreases |entries|
  {
    if entries != [] {
      var init := entries[..|entries| - 1];
      var last := entries[|entries| - 1];
      ScriptsOfParsesAccepted(init, isScript, parse, sc);
      assert entries == init + [last];
      if sc in ScriptsOf(entries, isScript, parse) && !(sc in ScriptsOf(init, isScript, parse)) {
        assert isScript(last) && sc == parse(last);
      }
    }
  }

  lemma ScriptsOfStep(entries: seq<Entry>, i: nat, isScript: Entry -> bool, parse: Entry -> Script)
    requires i < |entries|
    ensures ScriptsOf(entries[..i + 1], isScript, parse)
            == ScriptsOf(entries[..i], isScript, parse) + (if isScript(entries[i]) then [parse(entries[i])] else [])
  {
    assert entries[..i + 1][..i] == entries[..i];
  }

  /** The scripts of a folder; an enumerator that cannot be created yields none. */
  function FolderScripts(listing: Option<seq<Entry>>, recursive: bool, draw: (string, nat) -> Uuid): seq<Script> {
    match listing
    case None => []
    case Some(items) => ScriptsOf(Enumerated(items, recursive), IsShellScript, Parser(draw))
  }

  /** `scanDirectory(at:recursive:)`: the enumeration loop. */
  method ScanDirectory(listing: Option<seq<Entry>>, recursive: bool, draw: (string, nat) -> Uuid)
    returns (scripts: seq<Script>)
    ensures scripts == FolderScripts(listing, recursive, draw)
  {
    scripts := [];
    if listing.None? {
      return;
    }
    var items := Enumerated(listing.value, recursive);
    var i := 0;
    while i < |items|
      invariant i <= |items|
      invariant scripts == ScriptsOf(items[..i], IsShellScript, Parser(draw))
    {
      var fileUrl := items[i];
      ScriptsOfStep(items, i, IsShellScript, Parser(draw));
      if IsShellScript(fileUrl) {
        var script := Parser(draw)(fileUrl);
        scripts := scripts + [script];
      }
      i := i + 1;
    }
    assert items[..i] == items;
  }

  /** `scan(directory:recursive:)`, recursive unless told otherwise. */
  method ScanFolder(listing: Option<seq<Entry>>, draw: (string, nat) -> Uuid, recursive: bool := true)
    returns (scripts: seq<Script>)
    ensures scripts == FolderScripts(listing, recursive, draw)
  {
    scripts := ScanDirectory(listing, recursive, draw);
  }

  // ----- scan -----

  /** `location.isEnabled && location.exists`. */
  predicate Active(l: ScanLocation, disk: Disk) {
    l.isEnabled && l.path in disk.existing
  }

  /** What the enumerator lists for a folder, None when it cannot be created. */
  function Listing(disk: Disk, path: string): Option<seq<Entry>> {
    if path in disk.listings then Some(disk.listings[path]) else None
  }

  /** The scripts one location contributes. */
  function LocationScripts(l: ScanLocation, disk: Disk, draw: (string, nat) -> Uuid): seq<Script> {
    if Active(l, disk) then FolderScripts(Listing(disk, l.path), l.recursive, draw) else []
  }

  /** What every location contributes. */
  function Contributions(disk: Disk, draw: (string, nat) -> Uuid): ScanLocation -> seq<Script> {
    l => LocationScripts(l, disk, draw)
  }

  /** The contributions of the locations, location after location. */
  function Gathered(locations: seq<ScanLocation>, found: ScanLocation -> seq<Script>): seq<Script>
    decreases |locations|
  {
    if locations == [] then []
    else
      var n := |locations| - 1;
      Gathered(locations[..n], found) + found(locations[n])
  }

  /** The scripts of the locations before sorting. */
  function Collected(locations: seq<ScanLocation>, disk: Disk, draw: (string, nat) -> Uuid): seq<Script> {
    Gathered(locations, Contributions(disk, draw))
  }

  lemma GatheredStep(locations: seq<ScanLocation>, i: nat, found: ScanLocation -> seq<Script>)
    requires i < |locations|
    ensures Gathered(locations[..i + 1], found) == Gathered(locations[..i], found) + found(locations[i])
  {
    assert locations[..i + 1][..i] == locations[..i];
  }

  /** A gathered script comes from some location's contribution, and every contribution
      is gathered. */
  lemma {:induction false} GatheredFromLocations(
    locations: seq<ScanLocation>, found: ScanLocation -> seq<Script>, sc: Script)
    ensures sc in Gathered(locations, found) <==> exists l :: l in locations && sc in found(l)
    decreases |locations|
  {
    if locations != [] {
      var n := |locations| - 1;
      GatheredFromLocations(locations[..n], found, sc);
      assert locations == locations[..n] + [locations[n]];
    }
  }

  /** Gathering over two lists of locations is gathering over each in turn. */
  lemma {:induction false} GatheredAppend(x: seq<ScanLocation>, y: seq<ScanLocation>, found: ScanLocation -> seq<Script>)
    ensures Gathered(x + y, found) == Gathered(x, found) + Gathered(y, found)
    decreases |y|
  {
    if y == [] {
      assert x + y == x;
    } else {
      var n := |y| - 1;
      GatheredAppend(x, y[..n], found);
      assert (x + y)[..|x + y| - 1] == x + y[..n];
      assert (x + y)[|x + y| - 1] == y[n];
    }
  }

  /** Disabled and missing locations are skipped: an inactive location can be added
      anywhere without changing what is collected. */
  lemma InactiveLocationsContributeNothing(
    locations: seq<ScanLocation>, disk: Disk, draw: (string, nat) -> Uuid, l: ScanLocation, i: nat)
    requires i <= |locations| && !Active(l, disk)
    ensures Collected(locations[..i] + [l] + locations[i..], disk, draw) == Collected(locations, disk, draw)
  {
    var found := Contributions(disk, draw);
    var pre, post := locations[..i], locations[i..];
    GatheredAppend(pre + [l], post, found);
    GatheredAppend(pre, [l], found);
    GatheredAppend(pre, post, found);
    assert [l][..0] == [];
    assert found(l) == [];
    assert pre + post == locations;
  }

  /** The order of the sort: `localizedCaseInsensitiveCompare == .orderedAscending`, with
      ASCII case folding and code point order standing for the locale's rules. */
  predicate NameBefore(a: Script, b: Script) {
    LexLess(Lower(a.name), Lower(b.name))
  }

  /** What `sorted(by:)` demands of its predicate: a strict weak order, asymmetric and
      with "does not come before" transitive. */
  ghost predicate StrictWeakOrder(less: (Script, Script) -> bool) {
    (forall a, b :: less(a, b) ==> !less(b, a))
    && (forall a, b, c :: !less(b, a) && !less(c, b) ==> !less(c, a))
  }

  lemma NameBeforeIsStrictWeakOrder()
    ensures StrictWeakOrder(NameBefore)
  {
    forall a, b | NameBefore(a, b)
      ensures !NameBefore(b, a)
    {
      if NameBefore(b, a) {
        LexLessTransitive(Lower(a.name), Lower(b.name), Lower(a.name));
        LexLessIrreflexive(Lower(a.name));
      }
    }
    forall a, b, c | !NameBefore(b, a) && !NameBefore(c, b)
      ensures !NameBefore(c, a)
    {
      if NameBefore(c, a) {
        LexLessTotal(Lower(b.name), Lower(c.name));
        if LexLess(Lower(b.name), Lower(c.name)) {
          LexLessTransitive(Lower(b.name), Lower(c.name), Lower(a.name));
        }
      }
    }
  }

  /** No script comes after one it sorts before. */
  predicate SortedBy(s: seq<Script>, less: (Script, Script) -> bool) {
    forall i, j :: 0 <= i < j < |s| ==> !less(s[j], s[i])
  }

  /** Insertion of `x` ahead of the first script that does not sort before it. */
  function InsertBy(x: Script, s: seq<Script>, less: (Script, Script) -> bool): (r: seq<Script>)
    ensures multiset(r) == multiset(s) + multiset{x}
    decreases |s|
  {
    if s == [] || !less(s[0], x) then [x] + s
    else
      assert s == [s[0]] + s[1..];
      [s[0]] + InsertBy(x, s[1..], less)
  }

  /** `sorted(by:)`, as an insertion sort. */
  function SortBy(s: seq<Script>, less: (Script, Script) -> bool): (r: seq<Script>)
    ensures multiset(r) == multiset(s)
    decreases |s|
  {
    if s == [] then []
    else
      assert s == [s[0]] + s[1..];
      InsertBy(s[0], SortBy(s[1..], less), less)
  }

  lemma {:induction false} InsertKeepsSorted(x: Script, s: seq<Script>, less: (Script, Script) -> bool)
    requires StrictWeakOrder(less) && SortedBy(s, less)
    ensures SortedBy(InsertBy(x, s, less), less)
    decreases |s|
  {
    if s == [] {
    } else if !less(s[0], x) {
      forall j | 0 <= j < |s|
        ensures !less(s[j], x)
      {
        if j > 0 {
          assert !less(s[j], s[0]);
        }
      }
      PrependKeepsSorted(x, s, less);
    } else {
      var t := InsertBy(x, s[1..], less);
      InsertKeepsSorted(x, s[1..], less);
      InsertedFollowHead(x, s, less);
      PrependKeepsSorted(s[0], t, less);
    }
  }

  /** A script that no later one sorts before can go first. */
  lemma PrependKeepsSorted(x: Script, s: seq<Script>, less: (Script, Script) -> bool)
    requires SortedBy(s, less) && forall j :: 0 <= j < |s| ==> !less(s[j], x)
    ensures SortedBy([x] + s, less)
  {
    var r := [x] + s;
    forall i, j | 0 <= i < j < |r|
      ensures !less(r[j], r[i])
    {
      assert r[j] == s[j - 1];
      if i > 0 {
        assert r[i] == s[i - 1];
      }
    }
  }

  /** Inserting behind the head keeps everything after it from sorting before it. */
  lemma InsertedFollowHead(x: Script, s: seq<Script>, less: (Script, Script) -> bool)
    requires StrictWeakOrder(less) && SortedBy(s, less) && s != [] && less(s[0], x)
    ensures forall j :: 0 <= j < |InsertBy(x, s[1..], less)| ==> !less(InsertBy(x, s[1..], less)[j], s[0])
  {
    var t := InsertBy(x, s[1..], less);
    forall j | 0 <= j < |t|
      ensures !less(t[j], s[0])
    {
      assert t[j] in multiset(t);
      if t[j] != x {
        assert t[j] in multiset(s[1..]);
        var k :| 0 <= k < |s[1..]| && s[1..][k] == t[j];
        assert s[k + 1] == t[j];
      }
    }
  }

  /** The sort orders the scripts and keeps each of them, as often as it was found. */
  lemma {:induction false} SortBySorts(s: seq<Script>, less: (Script, Script) -> bool)
    requires StrictWeakOrder(less)
    ensures SortedBy(SortBy(s, less), less) && multiset(SortBy(s, less)) == multiset(s)
    decreases |s|
  {
    if s != [] {
      SortBySorts(s[1..], less);
      InsertKeepsSorted(s[0], SortBy(s[1..], less), less);
    }
  }

  /** The scripts `scan(locations:)` returns. */
  function Scanned(locations: seq<ScanLocation>, disk: Disk, draw: (string, nat) -> Uuid): seq<Script> {
    SortBy(Collected(locations, disk, draw), NameBefore)
  }

  /** `scan(locations:)`: the loop over the active locations, then the sort. */
  method Scan(locations: seq<ScanLocation>, disk: Disk, draw: (string, nat) -> Uuid)
    returns (result: seq<Script>)
    ensures result == Scanned(locations, disk, draw)
  {
    var scripts: seq<Script> := [];
    for i := 0 to |locations|
      invariant scripts == Collected(locations[..i], disk, draw)
    {
      var location := locations[i];
      GatheredStep(locations, i, Contributions(disk, draw));
      if location.isEnabled && location.path in disk.existing {
        var found := ScanDirectory(Listing(disk, location.path), location.recursive, draw);
        scripts := scripts + found;
      }
    }
    assert locations[..|locations|] == locations;
    result := SortBy(scripts, NameBefore);
  }

  /** A script is collected exactly when it is the parse of a shell script the enumerator
      lists in an enabled, existing location. */
  lemma CollectedFindsShellScripts(locations: seq<ScanLocation>, disk: Disk, draw: (string, nat) -> Uuid, sc: Script)
    ensures sc in Collected(locations, disk, draw) <==>
            exists l, e :: l in locations && Active(l, disk) && l.path in disk.listings
                           && e in Enumerated(disk.listings[l.path], l.recursive)
                           && IsShellScript(e) && sc == Parser(draw)(e)
  {
    GatheredFromLocations(locations, Contributions(disk, draw), sc);
    forall l | l in locations
      ensures sc in LocationScripts(l, disk, draw) <==>
              Active(l, disk) && l.path in disk.listings
              && exists e :: e in Enumerated(disk.listings[l.path], l.recursive) && IsShellScript(e) && sc == Parser(draw)(e)
    {
      if Active(l, disk) && l.path in disk.listings {
        ScriptsOfParsesAccepted(Enumerated(disk.listings[l.path], l.recursive), IsShellScript, Parser(draw), sc);
      }
    }
  }

  /** What a scan finds: sorted by name, and a script is there exactly when it is the
      parse of a shell script the enumerator lists in an enabled, existing location. */
  lemma ScanFindsShellScripts(locations: seq<ScanLocation>, disk: Disk, draw: (string, nat) -> Uuid, sc: Script)
    ensures SortedBy(Scanned(locations, disk, draw), NameBefore)
    ensures sc in Scanned(locations, disk, draw) <==>
            exists l, e :: l in locations && Active(l, disk) && l.path in disk.listings
                           && e in Enumerated(disk.listings[l.path], l.recursive)
                           && IsShellScript(e) && sc == Parser(draw)(e)
  {
    var c := Collected(locations, disk, draw);
    NameBeforeIsStrictWeakOrder();
    SortBySorts(c, NameBefore);
    assert sc in Scanned(locations, disk, draw) <==> sc in c by {
      assert sc in multiset(Scanned(locations, disk, draw)) <==> sc in multiset(c);
    }
    CollectedFindsShellScripts(locations, disk, draw, sc);
  }
}
