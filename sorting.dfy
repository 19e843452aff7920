/**
 * `sort_unstable` on integers, as the puzzles use it: the result is the
 * input's elements in ascending order. The in-place algorithm belongs to
 * the standard library; only its result is modelled.
 */
module Sorting {

  /** Every element is at most its successor. */
  predicate Ascending(s: seq<int>)
  {
    forall i :: 0 < i < |s| ==> s[i - 1] <= s[i]
  }

  /** Ascending order compares every pair, not only neighbours. */
  lemma {:induction false} AscendingPairs(s: seq<int>, i: nat, j: nat)
    requires Ascending(s) && i <= j < |s|
    ensures s[i] <= s[j]
    decreases j - i
  {
    if i < j {
      AscendingPairs(s, i, j - 1);
    }
  }

  function Insert(x: int, s: seq<int>): (r: seq<int>)
    requires Ascending(s)
    ensures Ascending(r) && multiset(r) == multiset(s) + multiset{x}
    ensures |r| == |s| + 1 && (r[0] == x || (s != [] && r[0] == s[0]))
  {
    if s == [] then [x]
    else if x <= s[0] then [x] + s
    else
      var tail := Insert(x, s[1..]);
      assert s == [s[0]] + s[1..];
      [s[0]] + tail
  }

  function Sort(s: seq<int>): (r: seq<int>)
    ensures Ascending(r) && multiset(r) == multiset(s) && |r| == |s|
  {
    if s == [] then []
    else
      assert s == [s[0]] + s[1..];
      Insert(s[0], Sort(s[1..]))
  }

  /** Rearranging keeps the elements, so a sorted rearrangement still holds every input element. */
  lemma SortKeepsElements(s: seq<int>, x: int)
    ensures x in Sort(s) <==> x in s
  {
    assert x in Sort(s) <==> x in multiset(Sort(s));
    assert x in s <==> x in multiset(s);
  }
}
