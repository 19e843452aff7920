/**
 * Day 3: rucksacks of items, one line each, an item's priority 1..26 for
 * 'a'..'z' and 27..52 for 'A'..'Z'. Part 1 finds the item both halves of a
 * rucksack share, part 2 the item each group of three rucksacks shares,
 * and both add up the priorities.
 */
module Day03 {
  import opened Wrappers
  import opened Text

  /** The range of `u8`, the type items are stored in. */
  type Byte = x: int | 0 <= x < 256

  /** `char_to_priority`; None is the panic on any other character. */
  function Priority(c: char): (r: Option<Byte>)
    ensures r.Some? <==> 'a' <= c <= 'z' || 'A' <= c <= 'Z'
    ensures 'a' <= c <= 'z' ==> r == Some(c as int - 'a' as int + 1)
    ensures 'A' <= c <= 'Z' ==> r == Some(c as int - 'A' as int + 27)
  {
    if 'a' <= c <= 'z' then Some(c as int - 96)
    else if 'A' <= c <= 'Z' then Some(c as int - 38)
    else None
  }

  /** Distinct letters have distinct priorities, all in 1..52. */
  lemma PriorityInjective(c: char, d: char)
    requires Priority(c).Some? && Priority(d).Some?
    ensures 1 <= Priority(c).value <= 52
    ensures Priority(c) == Priority(d) ==> c == d
  {
  }

  function ParseLine(line: string): (r: Option<seq<Byte>>)
    ensures r.Some? <==> forall i :: 0 <= i < |line| ==> Priority(line[i]).Some?
    ensures r.Some? ==> |r.value| == |line| && forall i :: 0 <= i < |line| ==> Some(r.value[i]) == Priority(line[i])
  {
    if forall i :: 0 <= i < |line| ==> Priority(line[i]).Some? then
      Some(seq(|line|, i requires 0 <= i < |line| && Priority(line[i]).Some? => Priority(line[i]).value))
    else None
  }

  /** `parse`: every line as its items' priorities. */
  function Parse(input: string): (r: Option<seq<seq<Byte>>>)
    ensures r.Some? <==> forall i :: 0 <= i < |Lines(input)| ==> ParseLine(Lines(input)[i]).Some?
    ensures r.Some? ==> |r.value| == |Lines(input)|
    ensures r.Some? ==> forall i :: 0 <= i < |r.value| ==> Some(r.value[i]) == ParseLine(Lines(input)[i])
  {
    var lines := Lines(input);
    if forall i :: 0 <= i < |lines| ==> ParseLine(lines[i]).Some? then
      Some(seq(|lines|, i requires 0 <= i < |lines| && ParseLine(lines[i]).Some? => ParseLine(lines[i]).value))
    else None
  }

  // ------------------------------------------------------------ the common item

  /** `e` is in every one of the slices. */
  predicate InAll(slices: seq<seq<Byte>>, e: Byte)
  {
    forall k :: 0 <= k < |slices| ==> e in slices[k]
  }

  /** The first item of `s` found in every slice. */
  function FirstIn(s: seq<Byte>, slices: seq<seq<Byte>>): (r: Option<Byte>)
    ensures r.Some? ==> r.value in s && InAll(slices, r.value)
    ensures r.None? <==> forall i :: 0 <= i < |s| ==> !InAll(slices, s[i])
  {
    if s == [] then None
    else if InAll(slices, s[0]) then Some(s[0])
    else FirstIn(s[1..], slices)
  }

  /**
   * What `find_duplicate` returns: the first item of the last slice that
   * every slice holds; None (the final panic) when there is none.
   */
  function Common(slices: seq<seq<Byte>>): (r: Option<Byte>)
    ensures r.Some? ==> InAll(slices, r.value)
    ensures r.None? <==> slices == [] || forall e :: !InAll(slices, e)
  {
    if slices == [] then None
    else
      assert forall e :: InAll(slices, e) ==> e in slices[|slices| - 1];
      FirstIn(slices[|slices| - 1], slices)
  }

  /** How many of the slices hold `e`. */
  function CountIn(slices: seq<seq<Byte>>, e: Byte): (n: nat)
    ensures n <= |slices|
    ensures n == |slices| <==> InAll(slices, e)
  {
    if slices == [] then 0
    else
      var front := slices[..|slices| - 1];
      assert forall k :: 0 <= k < |front| ==> front[k] == slices[k];
      CountIn(front, e) + if e in slices[|slices| - 1] then 1 else 0
  }

  /** The slices up to `k + 1` are those up to `k` and slice `k`. */
  lemma CountNext(slices: seq<seq<Byte>>, k: nat, e: Byte)
    requires k < |slices|
    ensures CountIn(slices[..k + 1], e) == CountIn(slices[..k], e) + if e in slices[k] then 1 else 0
  {
    assert slices[..k + 1][..k] == slices[..k];
  }

  /**
   * `find_duplicate`: a running count per item of the slices holding it,
   * each slice counted once per item, returning the first item whose count
   * reaches the number of slices. The count is a `u8`, so there are fewer
   * than 256 slices.
   */
  method FindDuplicate(slices: seq<seq<Byte>>) returns (r: Option<Byte>)
    requires |slices| < 256
    ensures r == Common(slices)
  {
    var total := new nat[256](_ => 0);
    for k := 0 to |slices|
      invariant forall e: Byte :: total[e] == CountIn(slices[..k], e)
      invariant k == |slices| > 0 ==> forall e :: !InAll(slices, e)
    {
      r := CountSlice(slices, k, total);
      if r.Some? {
        return;
      }
    }
    r := None;
  }

  /** The inner loop of `find_duplicate` over slice `k`, with `seen` marking its items already counted. */
  method CountSlice(slices: seq<seq<Byte>>, k: nat, total: array<nat>) returns (r: Option<Byte>)
    requires total.Length == 256 && k < |slices|
    requires forall e: Byte :: total[e] == CountIn(slices[..k], e)
    modifies total
    ensures r.None? ==> forall e: Byte :: total[e] == CountIn(slices[..k + 1], e)
    ensures r.None? ==> k + 1 < |slices| || forall e :: !InAll(slices, e)
    ensures r.Some? ==> k + 1 == |slices| && r == Common(slices)
  {
    var slice := slices[k];
    var seen := new bool[256](_ => false);
    assert slices[..k + 1][..k] == slices[..k] && slices[..k + 1][k] == slice;
    for j := 0 to |slice|
      invariant forall e: Byte :: seen[e] <==> e in slice[..j]
      invariant forall e: Byte :: total[e] == CountIn(slices[..k], e) + if e in slice[..j] then 1 else 0
      invariant k + 1 == |slices| ==> forall i :: 0 <= i < j ==> !InAll(slices, slice[i])
    {
      var el := slice[j];
      assert slice[..j + 1] == slice[..j] + [el];
      if seen[el] {
        continue;
      }
      seen[el] := true;
      total[el] := total[el] + 1;
      CountNext(slices, k, el);
      if total[el] == |slices| {
        assert slices[..k + 1] == slices;
        FirstAt(slice, slices, j);
        return Some(el);
      }
    }
    assert slice[..|slice|] == slice;
    forall e: Byte
      ensures total[e] == CountIn(slices[..k + 1], e)
    {
      CountNext(slices, k, e);
    }
    if k + 1 == |slices| {
      assert slices[..k + 1] == slices;
      assert FirstIn(slice, slices).None?;
    }
    r := None;
  }

  /** An item of `s` in every slice, with none before it, is the first such item. */
  lemma {:induction false} FirstAt(s: seq<Byte>, slices: seq<seq<Byte>>, j: nat)
    requires j < |s| && InAll(slices, s[j]) && forall i :: 0 <= i < j ==> !InAll(slices, s[i])
    ensures FirstIn(s, slices) == Some(s[j])
  {
    if j > 0 {
      FirstAt(s[1..], slices, j - 1);
    }
  }

  // ------------------------------------------------------------ the parts

  /** The two compartments of a rucksack, as `split_at(len / 2)` cuts it. */
  function Halves(v: seq<Byte>): (r: seq<seq<Byte>>)
    ensures |r| == 2 && r[0] + r[1] == v && |r[1]| - |r[0]| in {0, 1}
  {
    [v[..|v| / 2], v[|v| / 2..]]
  }

  /** `chunks(n)`: consecutive groups of `n`, the last one possibly shorter. */
  function Chunks<T>(s: seq<T>, n: nat): (r: seq<seq<T>>)
    requires n > 0
    ensures forall i :: 0 <= i < |r| ==> 0 < |r[i]| <= n
    ensures forall i :: 0 <= i < |r| - 1 ==> |r[i]| == n
    decreases |s|
  {
    if s == [] then []
    else if |s| <= n then [s]
    else [s[..n]] + Chunks(s[n..], n)
  }

  function Flatten<T>(groups: seq<seq<T>>): seq<T>
  {
    if groups == [] then [] else groups[0] + Flatten(groups[1..])
  }

  /** The chunks of a sequence are its items in order. */
  lemma {:induction false} ChunksFlatten<T>(s: seq<T>, n: nat)
    requires n > 0
    ensures Flatten(Chunks(s, n)) == s
    decreases |s|
  {
    if |s| > n {
      ChunksFlatten(s[n..], n);
      assert ([s[..n]] + Chunks(s[n..], n))[1..] == Chunks(s[n..], n);
      assert s == s[..n] + s[n..];
    } else if s != [] {
      assert [s][1..] == [];
    }
  }

  /** The sum of the common items of the groups; None when some group has none. */
  function CommonTotal(groups: seq<seq<seq<Byte>>>): (r: Option<nat>)
    ensures r.Some? <==> forall i :: 0 <= i < |groups| ==> Common(groups[i]).Some?
  {
    if groups == [] then Some(0)
    else
      var head, tail := Common(groups[0]), CommonTotal(groups[1..]);
      var later := groups[1..];
      assert forall i :: 0 <= i < |later| ==> later[i] == groups[i + 1];
      if head.None? || tail.None? then None else Some(head.value + tail.value)
  }

  /** The loop of both parts: `find_duplicate` on every group, summed. */
  method SumCommon(groups: seq<seq<seq<Byte>>>) returns (r: Option<nat>)
    requires forall i :: 0 <= i < |groups| ==> |groups[i]| < 256
    ensures r == CommonTotal(groups)
  {
    var sum: nat := 0;
    var i := |groups|;
    while i > 0
      invariant 0 <= i <= |groups|
      invariant CommonTotal(groups[i..]).Some? && sum == CommonTotal(groups[i..]).value
    {
      i := i - 1;
      var item := FindDuplicate(groups[i]);
      if item.None? {
        NoneSpreads(groups, i);
        return None;
      }
      assert groups[i..][1..] == groups[i + 1..];
      sum := sum + item.value;
    }
    assert groups[0..] == groups;
    r := Some(sum);
  }

  /** A group without a common item leaves the whole total undefined. */
  lemma NoneSpreads(groups: seq<seq<seq<Byte>>>, i: nat)
    requires i < |groups| && Common(groups[i]).None?
    ensures CommonTotal(groups).None?
  {
  }

  /** `part1`: the item both halves of each rucksack hold, summed. */
  method Part1(rucksacks: seq<seq<Byte>>) returns (r: Option<nat>)
    ensures r == CommonTotal(seq(|rucksacks|, i requires 0 <= i < |rucksacks| => Halves(rucksacks[i])))
  {
    r := SumCommon(seq(|rucksacks|, i requires 0 <= i < |rucksacks| => Halves(rucksacks[i])));
  }

  /** `part2`: the item each group of three rucksacks holds, summed. */
  method Part2(rucksacks: seq<seq<Byte>>) returns (r: Option<nat>)
    ensures r == CommonTotal(Chunks(rucksacks, 3))
  {
    r := SumCommon(Chunks(rucksacks, 3));
  }
}
