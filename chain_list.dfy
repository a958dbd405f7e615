/** The sidebar list of chains (ScriptletRunner/Views/ChainListView.swift): the search
    filter and swipe-to-delete, which works on positions in the filtered list. */
module ChainList {
  import opened Base
  import opened Text
  import opened Chains
  import opened Collections

  predicate ChainMatches(c: ScriptChain, search: string) {
    ContainsIgnoringCase(c.name, search) || ContainsIgnoringCase(c.description, search)
  }

  function MatchesSearch(search: string): ScriptChain -> bool {
    c => ChainMatches(c, search)
  }

  /** `filteredChains`. */
  function FilteredChains(chains: seq<ScriptChain>, search: string): (r: seq<ScriptChain>)
    ensures |r| <= |chains|
  {
    if search == [] then chains else Filter(chains, MatchesSearch(search))
  }

  /** An empty search lists every chain in order; otherwise the list holds, in their
      order, exactly the chains whose name or description contains the text. */
  lemma FilteredChainsAreMatches(chains: seq<ScriptChain>, search: string)
    ensures search == [] ==> FilteredChains(chains, search) == chains
    ensures Subsequence(FilteredChains(chains, search), chains)
    ensures search != [] ==>
              forall c :: c in FilteredChains(chains, search) <==> c in chains && ChainMatches(c, search)
  {
    if search == [] {
      SubsequenceOfItself(chains);
    } else {
      FilterIsSubsequence(chains, MatchesSearch(search));
      forall c: ScriptChain ensures c in FilteredChains(chains, search) <==> c in chains && ChainMatches(c, search) {
        FilterKeeps(chains, MatchesSearch(search), c);
      }
    }
  }

  /** The ids of the chains shown at the swiped positions (`chainsToDelete`). */
  function DoomedIds(shown: seq<ScriptChain>, offsets: set<nat>): set<Uuid>
    requires forall i :: i in offsets ==> i < |shown|
  {
    set i | i in offsets :: shown[i].id
  }

  function Survives(doomed: set<Uuid>): ScriptChain -> bool {
    (c: ScriptChain) => c.id !in doomed
  }

  /** The full list after `removeAll` of every chain sharing an id with a deleted one. */
  function RemainingChains(chains: seq<ScriptChain>, shown: seq<ScriptChain>, offsets: set<nat>): seq<ScriptChain>
    requires forall i :: i in offsets ==> i < |shown|
  {
    Filter(chains, Survives(DoomedIds(shown, offsets)))
  }

  /** The selection after the deletion: cleared exactly when its id was deleted. */
  function SelectionAfter(selected: Option<ScriptChain>, shown: seq<ScriptChain>, offsets: set<nat>)
    : Option<ScriptChain>
    requires forall i :: i in offsets ==> i < |shown|
  {
    if selected.Some? && selected.value.id in DoomedIds(shown, offsets) then None else selected
  }

  /** The chains at the swiped positions and every chain with one of their ids are
      gone; all the others stay, in their order. */
  lemma DeletionRemovesSwiped(chains: seq<ScriptChain>, shown: seq<ScriptChain>, offsets: set<nat>)
    requires forall i :: i in offsets ==> i < |shown|
    ensures forall i :: i in offsets ==> shown[i] !in RemainingChains(chains, shown, offsets)
    ensures forall c :: c in RemainingChains(chains, shown, offsets) <==>
              c in chains && forall i :: i in offsets ==> shown[i].id != c.id
    ensures Subsequence(RemainingChains(chains, shown, offsets), chains)
  {
    var doomed := DoomedIds(shown, offsets);
    FilterIsSubsequence(chains, Survives(doomed));
    forall c: ScriptChain ensures c in RemainingChains(chains, shown, offsets) <==> c in chains && c.id !in doomed {
      FilterKeeps(chains, Survives(doomed), c);
    }
    forall i | i in offsets ensures shown[i] !in RemainingChains(chains, shown, offsets) {
      assert shown[i].id in doomed;
    }
    forall c: ScriptChain ensures c.id !in doomed <==> forall i :: i in offsets ==> shown[i].id != c.id {
      if c.id in doomed {
        var i :| i in offsets && shown[i].id == c.id;
      }
    }
  }

  /** The selection is cleared exactly when the selected chain shares an id with a
      deleted one. */
  lemma SelectionClearedOnlyWhenDeleted(selected: Option<ScriptChain>, shown: seq<ScriptChain>, offsets: set<nat>)
    requires forall i :: i in offsets ==> i < |shown|
    ensures SelectionAfter(selected, shown, offsets).None? <==>
              selected.None? || exists i :: i in offsets && shown[i].id == selected.value.id
    ensures SelectionAfter(selected, shown, offsets).Some? ==> SelectionAfter(selected, shown, offsets) == selected
  {
    if selected.Some? && selected.value.id in DoomedIds(shown, offsets) {
      var i :| i in offsets && shown[i].id == selected.value.id;
    }
  }

  /** The list's state: the chains it is bound to, the bound selection and its own
      search text. */
  class ChainListView {
    var chains: seq<ScriptChain>
    var selectedChain: Option<ScriptChain>
    var searchText: string

    constructor(chains: seq<ScriptChain>, selectedChain: Option<ScriptChain>)
      ensures this.chains == chains && this.selectedChain == selectedChain && searchText == ""
    {
      this.chains := chains;
      this.selectedChain := selectedChain;
      searchText := "";
    }

    /** The rows shown. */
    function Shown(): seq<ScriptChain>
      reads this
    {
      FilteredChains(chains, searchText)
    }

    /** `deleteChains(at:)`: the offsets are positions in the shown rows. */
    method DeleteChains(offsets: set<nat>)
      requires forall i :: i in offsets ==> i < |Shown()|
      modifies this
      ensures chains == RemainingChains(old(chains), old(Shown()), offsets)
      ensures selectedChain == SelectionAfter(old(selectedChain), old(Shown()), offsets)
      ensures searchText == old(searchText)
    {
      var shown := Shown();
      var doomed := DoomedIds(shown, offsets);
      chains := Filter(chains, Survives(doomed));
      if selectedChain.Some? && selectedChain.value.id in doomed {
        selectedChain := None;
      }
    }
  }
}
