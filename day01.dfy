/**
 * Day 1: groups of calorie counts separated by blank lines. Part 1 is the
 * largest group sum; part 2 sorts the sums in descending order and adds
 * the first three.
 */
module Day01 {
  import opened Wrappers
  import opened Text
  import opened Sorting

  /** The numbers of one block, a line each; None when a line is no number (the `unwrap` panic). */
  function ParseGroup(lines: seq<string>): (r: Option<seq<nat>>)
    ensures r.Some? <==> forall i :: 0 <= i < |lines| ==> ParseNat(lines[i]).Some?
    ensures r.Some? ==> |r.value| == |lines| && forall i :: 0 <= i < |lines| ==> Some(r.value[i]) == ParseNat(lines[i])
  {
    if lines == [] then Some([])
    else
      var head, tail := ParseNat(lines[0]), ParseGroup(lines[1..]);
      var later := lines[1..];
      assert forall i :: 0 <= i < |later| ==> later[i] == lines[i + 1];
      if head.None? then None else if tail.None? then None else Some([head.value] + tail.value)
  }

  /** The input split on blank lines, each block into its lines. */
  function BlockLines(input: string): (r: seq<seq<string>>)
    ensures |r| == |SplitBlocks(input)| >= 1
    ensures forall k :: 0 <= k < |r| ==> r[k] == Lines(SplitBlocks(input)[k])
  {
    var blocks := SplitBlocks(input);
    seq(|blocks|, k requires 0 <= k < |blocks| => Lines(blocks[k]))
  }

  /** `parse`: every block read line by line; None when some line is no number. */
  function Parse(input: string): (r: Option<seq<seq<nat>>>)
    ensures r.Some? <==> forall k :: 0 <= k < |BlockLines(input)| ==> ParseGroup(BlockLines(input)[k]).Some?
    ensures r.Some? ==> |r.value| == |BlockLines(input)|
    ensures r.Some? ==> forall k :: 0 <= k < |r.value| ==> Some(r.value[k]) == ParseGroup(BlockLines(input)[k])
  {
    ParseGroups(BlockLines(input))
  }

  function ParseGroups(blocks: seq<seq<string>>): (r: Option<seq<seq<nat>>>)
    ensures r.Some? <==> forall k :: 0 <= k < |blocks| ==> ParseGroup(blocks[k]).Some?
    ensures r.Some? ==> |r.value| == |blocks| && forall k :: 0 <= k < |blocks| ==> Some(r.value[k]) == ParseGroup(blocks[k])
  {
    if blocks == [] then Some([])
    else
      var head, tail := ParseGroup(blocks[0]), ParseGroups(blocks[1..]);
      var later := blocks[1..];
      assert forall k :: 0 <= k < |later| ==> later[k] == blocks[k + 1];
      if head.None? then None else if tail.None? then None else Some([head.value] + tail.value)
  }

  /** The sum of a group. */
  function Total(v: seq<int>): int
  {
    if v == [] then 0 else v[0] + Total(v[1..])
  }

  lemma {:induction false} TotalNat(v: seq<nat>)
    ensures Total(v) >= 0
  {
    if v != [] {
      TotalNat(v[1..]);
    }
  }

  /** The sum of every group, in input order. */
  function Sums(groups: seq<seq<nat>>): (r: seq<int>)
    ensures |r| == |groups| && forall k :: 0 <= k < |groups| ==> r[k] == Total(groups[k])
  {
    seq(|groups|, k requires 0 <= k < |groups| => Total(groups[k]))
  }

  // ------------------------------------------------------------ part one

  /** The largest element; None (the `unwrap` panic) for no elements. */
  function Largest(s: seq<int>): (r: Option<int>)
    ensures r.None? <==> s == []
    ensures r.Some? ==> r.value in s && forall k :: 0 <= k < |s| ==> s[k] <= r.value
  {
    if s == [] then None
    else
      var rest := Largest(s[1..]);
      if rest.None? || s[0] >= rest.value then Some(s[0]) else rest
  }

  /** `part1`: the largest group sum. */
  function Part1(groups: seq<seq<nat>>): (r: Option<int>)
    ensures r.None? <==> groups == []
    ensures r.Some? ==> (exists k :: 0 <= k < |groups| && r.value == Total(groups[k]))
                        && forall k :: 0 <= k < |groups| ==> Total(groups[k]) <= r.value
  {
    Largest(Sums(groups))
  }

  // ------------------------------------------------------------ part two

  function Reverse(s: seq<int>): (r: seq<int>)
    ensures |r| == |s| && forall k :: 0 <= k < |s| ==> r[k] == s[|s| - 1 - k]
  {
    if s == [] then [] else Reverse(s[1..]) + [s[0]]
  }

  lemma {:induction false} ReverseElements(s: seq<int>)
    ensures multiset(Reverse(s)) == multiset(s)
  {
    if s != [] {
      ReverseElements(s[1..]);
      assert s == [s[0]] + s[1..];
    }
  }

  /** Every element is at least every later one, not only its successor. */
  predicate Descending(s: seq<int>)
  {
    forall i, j :: 0 <= i <= j < |s| ==> s[i] >= s[j]
  }

  /** `sort_by(|a, b| b.cmp(a))`: the sums, largest first. */
  function SortDescending(s: seq<int>): (r: seq<int>)
    ensures Descending(r) && multiset(r) == multiset(s) && |r| == |s|
  {
    var up := Sort(s);
    ReverseElements(up);
    ReverseAscending(up);
    Reverse(up)
  }

  lemma ReverseAscending(s: seq<int>)
    requires Ascending(s)
    ensures Descending(Reverse(s))
  {
    var r := Reverse(s);
    forall i, j | 0 <= i <= j < |r|
      ensures r[i] >= r[j]
    {
      AscendingPairs(s, |s| - 1 - j, |s| - 1 - i);
    }
  }

  /** `part2`: the sum of the first three of the sums sorted largest first; never below part 1. */
  function Part2(groups: seq<seq<nat>>): (r: int)
    ensures groups != [] ==> r >= Part1(groups).value
  {
    var sorted := SortDescending(Sums(groups));
    TopAtLeastLargest(groups);
    Total(sorted[..Min(3, |sorted|)])
  }

  /** The groups part 2 adds up are the three largest: no group left out beats one taken. */
  lemma TopThree(groups: seq<seq<nat>>)
    ensures var sorted := SortDescending(Sums(groups));
      multiset(sorted) == multiset(Sums(groups)) && |sorted[..Min(3, |sorted|)]| == Min(3, |groups|)
      && forall i, j :: 0 <= j < Min(3, |sorted|) <= i < |sorted| ==> sorted[i] <= sorted[j]
  {
  }

  /** The head of the descending sums is the largest sum, so the top three add up to at least it. */
  lemma {:induction false} TopAtLeastLargest(groups: seq<seq<nat>>)
    ensures var sorted := SortDescending(Sums(groups));
      groups != [] ==> Total(sorted[..Min(3, |sorted|)]) >= Part1(groups).value
  {
    if groups == [] {
      return;
    }
    var sums := Sums(groups);
    var sorted := SortDescending(sums);
    var top := sorted[..Min(3, |sorted|)];
    var best := Part1(groups).value;
    var k :| 0 <= k < |groups| && best == Total(groups[k]);
    assert best in multiset(sums);
    assert best in sorted;
    assert sorted[0] >= best;
    forall i | 0 <= i < |sums|
      ensures sums[i] >= 0
    {
      TotalNat(groups[i]);
    }
    assert forall i :: 0 <= i < |sorted| ==> sorted[i] >= 0 by {
      forall i | 0 <= i < |sorted|
        ensures sorted[i] >= 0
      {
        assert sorted[i] in multiset(sums);
      }
    }
    TotalRest(top);
  }

  /** The sum of non-negative numbers is at least the first of them. */
  lemma {:induction false} TotalRest(v: seq<int>)
    requires v != [] && forall i :: 0 <= i < |v| ==> v[i] >= 0
    ensures Total(v) >= v[0]
  {
    var rest := v[1..];
    if rest != [] {
      TotalRest(rest);
    }
  }
}
