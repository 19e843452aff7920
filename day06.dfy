/**
 * Day 6: the start-of-packet and start-of-message markers of a datastream,
 * the position just after the first window of 4 (part 1) or 14 (part 2)
 * characters that are all different.
 */
module Day06 {
  import opened Wrappers

  /** No two positions hold the same character. */
  predicate Distinct(s: seq<char>)
  {
    forall i, j :: 0 <= i < j < |s| ==> s[i] != s[j]
  }

  /** `all_different`: every pair `i < j` compared, false at the first repeat. */
  method AllDifferent(slice: seq<char>) returns (r: bool)
    requires |slice| >= 1
    ensures r <==> Distinct(slice)
  {
    for i := 0 to |slice| - 1
      invariant forall p, q :: 0 <= p < i && p < q < |slice| ==> slice[p] != slice[q]
    {
      for j := i + 1 to |slice|
        invariant forall q :: i < q < j ==> slice[i] != slice[q]
      {
        if slice[i] == slice[j] {
          return false;
        }
      }
    }
    return true;
  }

  /** The characters of a sequence. */
  function Chars(s: seq<char>): set<char>
  {
    set c | c in s
  }

  /** An independent reading of distinctness: the characters form a set as large as the sequence. */
  lemma {:induction false} DistinctCard(s: seq<char>)
    ensures Distinct(s) <==> |Chars(s)| == |s|
  {
    if s != [] {
      var rest := s[1..];
      DistinctCard(rest);
      DistinctCons(s);
      CharsCons(s);
      if s[0] in rest {
        CardAtMost(rest);
      }
    }
  }

  lemma DistinctCons(s: seq<char>)
    requires s != []
    ensures Distinct(s) <==> s[0] !in s[1..] && Distinct(s[1..])
  {
    var rest := s[1..];
    if s[0] in rest {
      var q :| 0 <= q < |rest| && rest[q] == s[0];
      assert s[0] == s[q + 1];
    }
    if Distinct(s) {
      forall i, j | 0 <= i < j < |rest|
        ensures rest[i] != rest[j]
      {
        assert s[i + 1] != s[j + 1];
      }
    }
    if s[0] !in rest && Distinct(rest) {
      forall i, j | 0 <= i < j < |s|
        ensures s[i] != s[j]
      {
        assert s[j] == rest[j - 1];
        if i > 0 {
          assert s[i] == rest[i - 1];
        }
      }
    }
  }

  lemma CharsCons(s: seq<char>)
    requires s != []
    ensures Chars(s) == Chars(s[1..]) + {s[0]}
  {
    assert s == [s[0]] + s[1..];
  }

  /** A sequence has no more distinct characters than positions. */
  lemma {:induction false} CardAtMost(s: seq<char>)
    ensures |Chars(s)| <= |s|
  {
    if s != [] {
      CardAtMost(s[1..]);
      CharsCons(s);
    }
  }

  /** The window of `m` characters ending before position `p`. */
  function Window(bytes: seq<char>, m: nat, p: nat): seq<char>
    requires m <= p <= |bytes|
  {
    bytes[p - m..p]
  }

  /**
   * `find_marker` from window `idx` on: the end of the first all-distinct
   * window of length `m`; None (the `unwrap` panic) when there is none.
   */
  function FindMarkerFrom(bytes: seq<char>, m: nat, idx: nat): (r: Option<nat>)
    requires m > 0
    ensures r.Some? ==> m + idx <= r.value <= |bytes| && Distinct(Window(bytes, m, r.value))
    ensures r.Some? ==> forall p :: m + idx <= p < r.value ==> !Distinct(Window(bytes, m, p))
    ensures r.None? ==> forall p :: m + idx <= p <= |bytes| ==> !Distinct(Window(bytes, m, p))
    decreases |bytes| - idx
  {
    if idx + m > |bytes| then None
    else if Distinct(bytes[idx..idx + m]) then Some(idx + m)
    else FindMarkerFrom(bytes, m, idx + 1)
  }

  /** `find_marker`: windows of length 0 are the `windows` panic, so `m` is positive. */
  function FindMarker(bytes: seq<char>, m: nat): (r: Option<nat>)
    requires m > 0
    ensures r.Some? ==> m <= r.value <= |bytes| && Distinct(Window(bytes, m, r.value))
    ensures r.Some? ==> forall p :: m <= p < r.value ==> !Distinct(Window(bytes, m, p))
    ensures r.None? <==> forall p :: m <= p <= |bytes| ==> !Distinct(Window(bytes, m, p))
  {
    FindMarkerFrom(bytes, m, 0)
  }

  /** part1: the end of the first window of four distinct characters. */
  function Part1(input: string): (r: Option<nat>)
    ensures r.Some? ==> 4 <= r.value <= |input| && Distinct(Window(input, 4, r.value))
    ensures r.Some? ==> forall p :: 4 <= p < r.value ==> !Distinct(Window(input, 4, p))
    ensures r.None? <==> forall p :: 4 <= p <= |input| ==> !Distinct(Window(input, 4, p))
  {
    FindMarker(input, 4)
  }

  /** part2: the end of the first window of fourteen distinct characters. */
  function Part2(input: string): (r: Option<nat>)
    ensures r.Some? ==> 14 <= r.value <= |input| && Distinct(Window(input, 14, r.value))
    ensures r.Some? ==> forall p :: 14 <= p < r.value ==> !Distinct(Window(input, 14, p))
    ensures r.None? <==> forall p :: 14 <= p <= |input| ==> !Distinct(Window(input, 14, p))
  {
    FindMarker(input, 14)
  }
}
