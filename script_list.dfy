/** The sidebar list of scripts (ScriptletRunner/Views/ScriptListView.swift): the search
    filter and each row's icon. The script picker of the chain editor filters the same way. */
module ScriptList {
  import opened Text
  import opened Scripts
  import opened Collections

  /** The search test: the name or the description contains the text, ignoring case. */
  predicate ScriptMatches(s: Script, search: string) {
    ContainsIgnoringCase(s.name, search) || ContainsIgnoringCase(s.description, search)
  }

  function MatchesSearch(search: string): Script -> bool {
    s => ScriptMatches(s, search)
  }

  /** `filteredScripts`: everything for an empty search, otherwise the matching scripts. */
  function FilteredScripts(scripts: seq<Script>, search: string): (r: seq<Script>)
    ensures |r| <= |scripts|
  {
    if search == [] then scripts else Filter(scripts, MatchesSearch(search))
  }

  /** An empty search shows every script in order; otherwise the list shows, in their
      order, exactly the scripts whose name or description contains the text. */
  lemma FilteredScriptsAreMatches(scripts: seq<Script>, search: string)
    ensures search == [] ==> FilteredScripts(scripts, search) == scripts
    ensures Subsequence(FilteredScripts(scripts, search), scripts)
    ensures search != [] ==>
              forall s :: s in FilteredScripts(scripts, search) <==> s in scripts && ScriptMatches(s, search)
  {
    if search == [] {
      SubsequenceOfItself(scripts);
    } else {
      FilterIsSubsequence(scripts, MatchesSearch(search));
      forall s ensures s in FilteredScripts(scripts, search) <==> s in scripts && ScriptMatches(s, search) {
        FilterKeeps(scripts, MatchesSearch(search), s);
      }
    }
  }

  /** Matching ignores case: a search in capitals finds what it finds in small letters. */
  lemma SearchIgnoresCase(scripts: seq<Script>, search: string)
    ensures FilteredScripts(scripts, Lower(search)) == FilteredScripts(scripts, search)
  {
    assert Lower(Lower(search)) == Lower(search);
    if search != [] {
      FilterSameTest(scripts, MatchesSearch(Lower(search)), MatchesSearch(search));
    }
  }

  /** The fallback symbol of a row without an icon of its own. */
  const DefaultIcon: string := "doc.text"

  /** The row icon: the symbol recorded for the script's path, else the document symbol. */
  function RowIcon(icons: map<string, string>, s: Script): (r: string)
    ensures s.path in icons ==> r == icons[s.path]
    ensures s.path !in icons ==> r == DefaultIcon
  {
    if s.path in icons then icons[s.path] else DefaultIcon
  }
}
