/** The main window's state (ScriptletRunner/Views/ContentView.swift): the scripts and
    chains it holds, the selections and the rules that keep them consistent, and the
    saving and deleting of chains. */
module Content {
  import opened Base
  import opened Arguments
  import opened Scripts
  import opened Chains
  import opened Locations
  import opened Collections
  import opened Settings
  import ScriptScanner

  /** `SidebarSection`. */
  datatype SidebarSection = ScriptsSection | ChainsSection {
    function RawValue(): string {
      match this
      case ScriptsSection => "Scripts"
      case ChainsSection => "Chains"
    }
  }

  function ChainHasId(id: Uuid): ScriptChain -> bool {
    (c: ScriptChain) => c.id == id
  }

  function ChainLacksId(id: Uuid): ScriptChain -> bool {
    (c: ScriptChain) => c.id != id
  }

  /** The editor's `isNew`: no stored chain has the chain's id. */
  predicate IsNew(chains: seq<ScriptChain>, chain: ScriptChain) {
    !ContainsWhere(chains, ChainHasId(chain.id))
  }

  /** The chain list after `saveChain`: the first chain with the id is replaced,
      or the chain is appended when there is none. */
  function Upserted(chains: seq<ScriptChain>, chain: ScriptChain): seq<ScriptChain> {
    match FirstIndex(chains, ChainHasId(chain.id))
    case Some(i) => chains[i := chain]
    case None => chains + [chain]
  }

  /** Saving an existing chain replaces it in place, leaving the length and every other
      position alone; saving a new one appends it. Either way it is then stored and no
      longer new. */
  lemma UpsertReplacesOrAppends(chains: seq<ScriptChain>, chain: ScriptChain)
    ensures !IsNew(chains, chain) ==>
              exists i :: 0 <= i < |chains| && chains[i].id == chain.id
                          && (forall j :: 0 <= j < i ==> chains[j].id != chain.id)
                          && Upserted(chains, chain) == chains[i := chain]
    ensures IsNew(chains, chain) ==> Upserted(chains, chain) == chains + [chain]
    ensures chain in Upserted(chains, chain) && !IsNew(Upserted(chains, chain), chain)
  {
    var r := Upserted(chains, chain);
    match FirstIndex(chains, ChainHasId(chain.id))
    case Some(i) =>
      assert r[i] == chain;
    case None =>
      assert r[|chains|] == chain;
  }

  /** Saving the same chain twice is saving it once. */
  lemma UpsertIsIdempotent(chains: seq<ScriptChain>, chain: ScriptChain)
    ensures Upserted(Upserted(chains, chain), chain) == Upserted(chains, chain)
  {
    var p := ChainHasId(chain.id);
    var r := Upserted(chains, chain);
    var i := match FirstIndex(chains, p) case Some(i) => i case None => |chains|;
    assert r[i] == chain;
    assert forall j :: 0 <= j < i ==> r[j] == chains[j];
    assert p(r[i]);
    match FirstIndex(r, p)
    case None =>
      assert false;
    case Some(k) =>
      assert !(k < i) && !(i < k);
  }

  /** The chain list after `deleteChain`. */
  function WithoutChain(chains: seq<ScriptChain>, id: Uuid): seq<ScriptChain> {
    Filter(chains, ChainLacksId(id))
  }

  /** Deleting removes every chain with the id and keeps the others in order. */
  lemma DeleteRemovesEveryCopy(chains: seq<ScriptChain>, chain: ScriptChain)
    ensures forall c :: c in WithoutChain(chains, chain.id) <==> c in chains && c.id != chain.id
    ensures Subsequence(WithoutChain(chains, chain.id), chains)
    ensures IsNew(WithoutChain(chains, chain.id), chain)
  {
    FilterIsSubsequence(chains, ChainLacksId(chain.id));
    forall c: ScriptChain ensures c in WithoutChain(chains, chain.id) <==> c in chains && c.id != chain.id {
      FilterKeeps(chains, ChainLacksId(chain.id), c);
    }
    var r := WithoutChain(chains, chain.id);
    forall j | 0 <= j < |r| ensures r[j].id != chain.id {
      assert r[j] in r;
    }
  }

  /** Deleting a chain after saving it leaves what deleting it alone leaves. */
  lemma DeleteUndoesSave(chains: seq<ScriptChain>, chain: ScriptChain)
    ensures WithoutChain(Upserted(chains, chain), chain.id) == WithoutChain(chains, chain.id)
  {
    var keep := ChainLacksId(chain.id);
    match FirstIndex(chains, ChainHasId(chain.id))
    case None =>
      FilterAppend(chains, [chain], keep);
    case Some(i) =>
      var a, b := chains[..i], chains[i + 1..];
      assert chains == a + [chains[i]] + b;
      assert chains[i := chain] == a + [chain] + b;
      FilterAppend(a + [chains[i]], b, keep);
      FilterAppend(a, [chains[i]], keep);
      FilterAppend(a + [chain], b, keep);
      FilterAppend(a, [chain], keep);
  }

  /** Whether `onChange(of: selectedScript)` fires: the selection changed under the
      scripts' id-based equality. */
  predicate SelectionChanged(before: Option<Script>, after: Option<Script>) {
    before.None? != after.None? || (before.Some? && after.Some? && !SameScript(before.value, after.value))
  }

  /** The argument values after selecting `after`: on a change, the selected script's
      argument definitions, or none; otherwise whatever was being edited. */
  function ArgumentsAfterSelect(before: Option<Script>, after: Option<Script>, arguments: seq<ScriptArgument>)
    : seq<ScriptArgument>
  {
    if !SelectionChanged(before, after) then arguments
    else if after.Some? then after.value.arguments
    else []
  }

  /** Selecting another script loads its arguments and deselecting empties them;
      re-selecting the same script keeps the edits. */
  lemma SelectionLoadsArguments(before: Option<Script>, after: Option<Script>, arguments: seq<ScriptArgument>)
    ensures after.Some? && (before.None? || before.value.id != after.value.id) ==>
              ArgumentsAfterSelect(before, after, arguments) == after.value.arguments
    ensures after.None? && before.Some? ==> ArgumentsAfterSelect(before, after, arguments) == []
    ensures after.Some? && before.Some? && before.value.id == after.value.id ==>
              ArgumentsAfterSelect(before, after, arguments) == arguments
    ensures after.None? && (before.None? ==> arguments == []) ==> ArgumentsAfterSelect(before, after, arguments) == []
  {
  }

  /** The name a new chain starts with. */
  const NewChainName: string := "New Chain"

  /** The window's state. Storage (`@AppStorage`) is held decoded: `storedChains` stands
      for `savedChainsData`, `scanLocations` for `scanLocationsData`. */
  class ContentView {
    var scanLocations: seq<ScanLocation>
    var appearanceModeRaw: string
    var storedChains: seq<ScriptChain>
    var scripts: seq<Script>
    var chains: seq<ScriptChain>
    var selectedSection: SidebarSection
    var selectedScript: Option<Script>
    var selectedChain: Option<ScriptChain>
    var selectedArguments: seq<ScriptArgument>
    var showingChainEditor: bool
    var editingChain: Option<ScriptChain>

    /** Argument values exist only for a selected script. */
    predicate Valid()
      reads this
    {
      selectedScript.None? ==> selectedArguments == []
    }

    /** The `@State` defaults, over the given storage. */
    constructor(scanLocations: seq<ScanLocation>, appearanceModeRaw: string, storedChains: seq<ScriptChain>)
      ensures Valid()
      ensures this.scanLocations == scanLocations && this.appearanceModeRaw == appearanceModeRaw
      ensures this.storedChains == storedChains
      ensures scripts == [] && chains == [] && selectedSection == ScriptsSection
      ensures selectedScript.None? && selectedChain.None? && selectedArguments == []
      ensures !showingChainEditor && editingChain.None?
    {
      this.scanLocations := scanLocations;
      this.appearanceModeRaw := appearanceModeRaw;
      this.storedChains := storedChains;
      scripts := [];
      chains := [];
      selectedSection := ScriptsSection;
      selectedScript := None;
      selectedChain := None;
      selectedArguments := [];
      showingChainEditor := false;
      editingChain := None;
    }

    /** `appearanceMode`: an unknown stored value reads as the system mode. */
    function Appearance(): AppearanceMode
      reads this
    {
      StoredMode(appearanceModeRaw)
    }

    /** The settings sheet's appearance binding: the mode is stored by raw value and
        reads back as itself. */
    method SetAppearance(mode: AppearanceMode)
      requires Valid()
      modifies this
      ensures Valid() && Appearance() == mode
      ensures appearanceModeRaw == mode.RawValue()
      ensures unchanged(this`scanLocations, this`storedChains, this`scripts, this`chains)
      ensures unchanged(this`selectedSection, this`selectedScript, this`selectedChain, this`selectedArguments)
      ensures unchanged(this`showingChainEditor, this`editingChain)
    {
      appearanceModeRaw := mode.RawValue();
      StoredModeFallsBackToSystem(mode, appearanceModeRaw);
    }

    /** `refreshScripts`: the scanner's result over the stored locations; the filesystem
        is given as `disk` and the UUID source as `draw`. */
    method RefreshScripts(disk: ScriptScanner.Disk, draw: (string, nat) -> Uuid)
      requires Valid()
      modifies this`scripts
      ensures Valid() && scripts == ScriptScanner.Scanned(scanLocations, disk, draw)
    {
      scripts := ScriptScanner.Scan(scanLocations, disk, draw);
    }

    /** The settings sheet's location binding, then `onChange(of: scanLocationsData)`. */
    method UpdateLocations(newLocations: seq<ScanLocation>, disk: ScriptScanner.Disk, draw: (string, nat) -> Uuid)
      requires Valid()
      modifies this`scanLocations, this`scripts
      ensures Valid() && scanLocations == newLocations
      ensures scripts == ScriptScanner.Scanned(newLocations, disk, draw)
    {
      scanLocations := newLocations;
      RefreshScripts(disk, draw);
    }

    /** `loadChains`: the decoded store, or no chains when decoding fails (`None`). */
    method LoadChains(decoded: Option<seq<ScriptChain>>)
      requires Valid()
      modifies this`chains
      ensures Valid() && chains == decoded.GetOr([])
    {
      chains := decoded.GetOr([]);
    }

    /** `createNewChain`: the editor opens on a fresh, empty chain. */
    method CreateNewChain(id: Uuid, now: Timestamp)
      requires Valid()
      modifies this`editingChain, this`showingChainEditor
      ensures Valid() && editingChain == Some(NewChain(id, NewChainName, now)) && showingChainEditor
    {
      editingChain := Some(NewChain(id, NewChainName, now));
      showingChainEditor := true;
    }

    /** The detail view's `onEdit`: the editor opens on the chain. */
    method EditChain(chain: ScriptChain)
      requires Valid()
      modifies this`editingChain, this`showingChainEditor
      ensures Valid() && editingChain == Some(chain) && showingChainEditor
    {
      editingChain := Some(chain);
      showingChainEditor := true;
    }

    /** Saving in the chain editor: its binding first writes the edited chain to
        `editingChain`, then `saveChain`, the editor's `onSave`, upserts it by id, stores
        and selects it, and `dismiss()` closes the sheet. */
    method SaveChain(chain: ScriptChain)
      requires Valid()
      modifies this`chains, this`storedChains, this`selectedChain, this`editingChain, this`showingChainEditor
      ensures Valid() && chains == Upserted(old(chains), chain)
      ensures storedChains == chains && selectedChain == Some(chain)
      ensures editingChain == Some(chain) && !showingChainEditor
      ensures !IsNew(chains, chain)
    {
      editingChain := Some(chain);
      var index := FirstIndex(chains, ChainHasId(chain.id));
      if index.Some? {
        chains := chains[index.value := chain];
      } else {
        chains := chains + [chain];
      }
      UpsertReplacesOrAppends(old(chains), chain);
      storedChains := chains;
      selectedChain := Some(chain);
      showingChainEditor := false;
    }

    /** `deleteChain`, the detail view's `onDelete`. */
    method DeleteChain(chain: ScriptChain)
      requires Valid()
      modifies this`chains, this`storedChains, this`selectedChain
      ensures Valid() && chains == WithoutChain(old(chains), chain.id)
      ensures storedChains == chains && selectedChain.None?
    {
      chains := Filter(chains, ChainLacksId(chain.id));
      storedChains := chains;
      selectedChain := None;
    }

    /** A new value of `selectedScript`, with its `onChange` handler. */
    method SelectScript(newScript: Option<Script>)
      requires Valid()
      modifies this`selectedScript, this`selectedArguments
      ensures Valid() && selectedScript == newScript
      ensures selectedArguments == ArgumentsAfterSelect(old(selectedScript), newScript, old(selectedArguments))
    {
      var changed := SelectionChanged(selectedScript, newScript);
      selectedScript := newScript;
      if changed {
        if newScript.Some? {
          selectedArguments := newScript.value.arguments;
        } else {
          selectedArguments := [];
        }
      }
    }

    /** A new value of `selectedSection`, with its `onChange` handler: switching
        sections clears both selections, and clearing the script selection in turn
        empties the argument values. */
    method SelectSection(section: SidebarSection)
      requires Valid()
      modifies this`selectedSection, this`selectedScript, this`selectedChain, this`selectedArguments
      ensures Valid() && selectedSection == section
      ensures section != old(selectedSection) ==>
                selectedScript.None? && selectedChain.None? && selectedArguments == []
      ensures section == old(selectedSection) ==>
                selectedScript == old(selectedScript) && selectedChain == old(selectedChain)
                && selectedArguments == old(selectedArguments)
    {
      if section != selectedSection {
        selectedSection := section;
        SelectScript(None);
        selectedChain := None;
      }
    }
  }
}
