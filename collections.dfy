/** The Swift collection operations the views apply to their lists: `firstIndex(where:)`,
    `contains(where:)`, `filter`/`removeAll(where:)`, `remove(atOffsets:)` and
    `move(fromOffsets:toOffset:)`, on sequences. */
module Collections {
  import opened Base

  /** `firstIndex(where:)`: the first position whose element passes `p`. */
  function FirstIndex<T>(s: seq<T>, p: T -> bool): (r: Option<nat>)
    ensures r.Some? ==> r.value < |s| && p(s[r.value]) && forall j :: 0 <= j < r.value ==> !p(s[j])
    ensures r.None? ==> forall j :: 0 <= j < |s| ==> !p(s[j])
    decreases |s|
  {
    if s == [] then None
    else if p(s[0]) then Some(0)
    else
      match FirstIndex(s[1..], p)
      case None =>
        assert forall j :: 0 < j < |s| ==> s[j] == s[1..][j - 1];
        None
      case Some(i) =>
        assert forall j :: 0 < j <= i ==> s[j] == s[1..][j - 1];
        Some(i + 1)
  }

  /** `contains(where:)`. */
  predicate ContainsWhere<T>(s: seq<T>, p: T -> bool) {
    exists j :: 0 <= j < |s| && p(s[j])
  }

  /** Writing through a binding that first looks its element up (`firstIndex(where:)`,
      then `s[index]`): the first element passing `p` is replaced by `f` of itself, and
      without one the write is lost (the `.constant` binding). */
  function UpdateFirst<T>(s: seq<T>, p: T -> bool, f: T -> T): seq<T> {
    match FirstIndex(s, p)
    case None => s
    case Some(i) => s[i := f(s[i])]
  }

  /** Only the first match changes; with no match nothing does. */
  lemma UpdateFirstChangesFirstMatch<T>(s: seq<T>, p: T -> bool, f: T -> T)
    ensures |UpdateFirst(s, p, f)| == |s|
    ensures !ContainsWhere(s, p) ==> UpdateFirst(s, p, f) == s
    ensures forall i :: 0 <= i < |s| && p(s[i]) && (forall j :: 0 <= j < i ==> !p(s[j])) ==>
              UpdateFirst(s, p, f)[i] == f(s[i])
              && forall j :: 0 <= j < |s| && j != i ==> UpdateFirst(s, p, f)[j] == s[j]
  {
    match FirstIndex(s, p)
    case None =>
    case Some(i) =>
      forall i' | 0 <= i' < |s| && p(s[i']) && (forall j :: 0 <= j < i' ==> !p(s[j]))
        ensures i' == i
      {
        assert !(i' < i) && !(i < i');
      }
  }

  /** `remove(at:)`. */
  function RemoveAt<T>(s: seq<T>, i: nat): (r: seq<T>)
    requires i < |s|
  {
    s[..i] + s[i + 1..]
  }

  /** Removing at `i` drops exactly that element: the ones before keep their
      positions, the ones after move down by one. */
  lemma RemoveAtDropsOnlyIt<T>(s: seq<T>, i: nat)
    requires i < |s|
    ensures |RemoveAt(s, i)| == |s| - 1
    ensures forall k :: 0 <= k < i ==> RemoveAt(s, i)[k] == s[k]
    ensures forall k :: i <= k < |s| - 1 ==> RemoveAt(s, i)[k] == s[k + 1]
    ensures multiset(RemoveAt(s, i)) + multiset{s[i]} == multiset(s)
  {
    assert s == s[..i] + [s[i]] + s[i + 1..];
  }

  // ----- filter -----

  /** `filter(keep)`; `removeAll(where:)` is the filter on the negated test. */
  function Filter<T>(s: seq<T>, keep: T -> bool): (r: seq<T>)
    ensures |r| <= |s|
    decreases |s|
  {
    if s == [] then [] else (if keep(s[0]) then [s[0]] else []) + Filter(s[1..], keep)
  }

  /** An element survives exactly when it passes the test. */
  lemma {:induction false} FilterKeeps<T>(s: seq<T>, keep: T -> bool, x: T)
    ensures x in Filter(s, keep) <==> x in s && keep(x)
    decreases |s|
  {
    if s != [] {
      FilterKeeps(s[1..], keep, x);
      assert s == [s[0]] + s[1..];
    }
  }

  /** `a` is `b` with some elements left out, the rest in their order. */
  predicate Subsequence<T(==)>(a: seq<T>, b: seq<T>)
    decreases |b|
  {
    if a == [] then true
    else if b == [] then false
    else if a[0] == b[0] then Subsequence(a[1..], b[1..])
    else Subsequence(a, b[1..])
  }

  /** The survivors keep their order. */
  lemma {:induction false} FilterIsSubsequence<T>(s: seq<T>, keep: T -> bool)
    ensures Subsequence(Filter(s, keep), s)
    decreases |s|
  {
    if s != [] {
      var rest := Filter(s[1..], keep);
      FilterIsSubsequence(s[1..], keep);
      if keep(s[0]) {
        assert Filter(s, keep) == [s[0]] + rest;
      } else {
        assert Filter(s, keep) == rest;
        if rest != [] && rest[0] == s[0] {
          FilterKeeps(s[1..], keep, s[0]);
          assert false;
        }
      }
    }
  }

  /** Filtering distributes over concatenation. */
  lemma {:induction false} FilterAppend<T>(a: seq<T>, b: seq<T>, keep: T -> bool)
    ensures Filter(a + b, keep) == Filter(a, keep) + Filter(b, keep)
    decreases |a|
  {
    if a != [] {
      FilterAppend(a[1..], b, keep);
      assert (a + b)[1..] == a[1..] + b;
    } else {
      assert a + b == b;
    }
  }

  /** Two tests that agree on every element filter alike. */
  lemma {:induction false} FilterSameTest<T>(s: seq<T>, keep: T -> bool, keep': T -> bool)
    requires forall k :: 0 <= k < |s| ==> keep(s[k]) == keep'(s[k])
    ensures Filter(s, keep) == Filter(s, keep')
    decreases |s|
  {
    if s != [] {
      FilterSameTest(s[1..], keep, keep');
    }
  }

  lemma {:induction false} SubsequenceOfItself<T>(s: seq<T>)
    ensures Subsequence(s, s)
    decreases |s|
  {
    if s != [] {
      SubsequenceOfItself(s[1..]);
    }
  }

  /** When every element passes, nothing is removed. */
  lemma {:induction false} FilterKeepsAll<T>(s: seq<T>, keep: T -> bool)
    requires forall k :: 0 <= k < |s| ==> keep(s[k])
    ensures Filter(s, keep) == s
    decreases |s|
  {
    if s != [] {
      FilterKeepsAll(s[1..], keep);
      assert [s[0]] + s[1..] == s;
    }
  }

  // ----- Positions -----

  /** The elements at the positions `keep` accepts, in order. */
  function Pick<T>(s: seq<T>, keep: nat -> bool): (r: seq<T>)
    ensures |r| <= |s|
    decreases |s|
  {
    if s == [] then []
    else Pick(s[..|s| - 1], keep) + (if keep(|s| - 1) then [s[|s| - 1]] else [])
  }

  /** The positions below `n` that `keep` accepts, ascending. */
  function Positions(n: nat, keep: nat -> bool): (r: seq<nat>)
    ensures forall k :: 0 <= k < |r| ==> r[k] < n
    decreases n
  {
    if n == 0 then [] else Positions(n - 1, keep) + (if keep(n - 1) then [n - 1] else [])
  }

  /** `Positions` lists exactly the accepted positions below `n`, strictly ascending. */
  lemma {:induction false} PositionsAreAccepted(n: nat, keep: nat -> bool)
    ensures forall i: nat :: i in Positions(n, keep) <==> i < n && keep(i)
    ensures forall j, k :: 0 <= j < k < |Positions(n, keep)| ==> Positions(n, keep)[j] < Positions(n, keep)[k]
    decreases n
  {
    if n > 0 {
      PositionsAreAccepted(n - 1, keep);
    }
  }

  /** `Pick` takes the elements at those positions, in that order. */
  lemma {:induction false} PickTakesPositions<T>(s: seq<T>, keep: nat -> bool)
    ensures |Pick(s, keep)| == |Positions(|s|, keep)|
    ensures forall k :: 0 <= k < |Pick(s, keep)| ==> Pick(s, keep)[k] == s[Positions(|s|, keep)[k]]
    decreases |s|
  {
    if s != [] {
      var n := |s| - 1;
      PickTakesPositions(s[..n], keep);
      assert forall k :: 0 <= k < |Pick(s[..n], keep)| ==> Pick(s[..n], keep)[k] == s[Positions(n, keep)[k]];
    }
  }

  /** Three position tests that between them accept every position exactly once split
      the elements without losing or duplicating any. */
  lemma {:induction false} PickPartition<T>(s: seq<T>, p: nat -> bool, q: nat -> bool, r: nat -> bool)
    requires forall i: nat :: i < |s| ==> (p(i) || q(i) || r(i))
    requires forall i: nat :: i < |s| ==> !(p(i) && q(i)) && !(p(i) && r(i)) && !(q(i) && r(i))
    ensures multiset(Pick(s, p)) + multiset(Pick(s, q)) + multiset(Pick(s, r)) == multiset(s)
    decreases |s|
  {
    if s != [] {
      var n := |s| - 1;
      var t := s[..n];
      PickPartition(t, p, q, r);
      PickLast(s, p);
      PickLast(s, q);
      PickLast(s, r);
      MultisetOfSnoc(s);
    }
  }

  lemma MultisetOfSnoc<T>(s: seq<T>)
    requires s != []
    ensures multiset(s) == multiset(s[..|s| - 1]) + multiset{s[|s| - 1]}
  {
    assert s == s[..|s| - 1] + [s[|s| - 1]];
  }

  lemma PickLast<T>(s: seq<T>, keep: nat -> bool)
    requires s != []
    ensures multiset(Pick(s, keep))
            == multiset(Pick(s[..|s| - 1], keep)) + (if keep(|s| - 1) then multiset{s[|s| - 1]} else multiset{})
  {
  }

  function Outside(offsets: set<nat>): nat -> bool {
    i => i !in offsets
  }

  function Inside(offsets: set<nat>): nat -> bool {
    i => i in offsets
  }

  /** `remove(atOffsets:)`: the elements at the other positions, in order. */
  function RemoveOffsets<T>(s: seq<T>, offsets: set<nat>): seq<T>
    requires forall i :: i in offsets ==> i < |s|
  {
    Pick(s, Outside(offsets))
  }

  /** The elements `remove(atOffsets:)` keeps are exactly those at positions not
      given, in their order. */
  lemma RemoveOffsetsKeepsOthers<T>(s: seq<T>, offsets: set<nat>)
    requires forall i :: i in offsets ==> i < |s|
    ensures var kept := Positions(|s|, Outside(offsets));
            |RemoveOffsets(s, offsets)| == |kept|
            && (forall k :: 0 <= k < |kept| ==> RemoveOffsets(s, offsets)[k] == s[kept[k]])
            && (forall i: nat :: i in kept <==> i < |s| && i !in offsets)
            && (forall j, k :: 0 <= j < k < |kept| ==> kept[j] < kept[k])
  {
    PickTakesPositions(s, Outside(offsets));
    PositionsAreAccepted(|s|, Outside(offsets));
  }

  function StaysBefore(source: set<nat>, destination: nat): nat -> bool {
    i => i !in source && i < destination
  }

  function StaysAfter(source: set<nat>, destination: nat): nat -> bool {
    i => i !in source && i >= destination
  }

  /** `move(fromOffsets:toOffset:)`: the elements at `source`, in their order, are moved
      to stand just before the element that was at `destination`, or at the end when
      `destination` is the length. */
  function MoveOffsets<T>(s: seq<T>, source: set<nat>, destination: nat): seq<T>
    requires destination <= |s| && forall i :: i in source ==> i < |s|
  {
    Pick(s, StaysBefore(source, destination)) + Pick(s, Inside(source))
    + Pick(s, StaysAfter(source, destination))
  }

  /** Moving reorders the elements and loses or duplicates none. */
  lemma MoveOffsetsPermutes<T>(s: seq<T>, source: set<nat>, destination: nat)
    requires destination <= |s| && forall i :: i in source ==> i < |s|
    ensures multiset(MoveOffsets(s, source, destination)) == multiset(s)
    ensures |MoveOffsets(s, source, destination)| == |s|
  {
    PickPartition(s, StaysBefore(source, destination), Inside(source), StaysAfter(source, destination));
    assert |multiset(MoveOffsets(s, source, destination))| == |multiset(s)|;
  }
}
