/**
 * Day 4: pairs of section ranges, one pair "a-b,c-d" a line. Part 1 counts
 * the pairs where one range contains the other, part 2 the pairs that
 * overlap at all.
 */
module Day04 {
  import opened Wrappers
  import opened Text

  /** The sections `lo ..= hi`. */
  type Range = (nat, nat)

  /** `to_range`: the first two '-'-separated parts as numbers; None is the `expect`/`unwrap` panic. */
  function ParseRange(s: string): Option<Range>
  {
    var parts := Split(s, '-');
    if |parts| < 2 then None
    else
      match (ParseNat(parts[0]), ParseNat(parts[1]))
      case (Some(lo), Some(hi)) => Some((lo, hi))
      case _ => None
  }

  /** `to_ranges`: the first two ','-separated parts as ranges; any further parts are ignored. */
  function ParsePair(line: string): Option<(Range, Range)>
  {
    var parts := Split(line, ',');
    if |parts| < 2 then None
    else
      match (ParseRange(parts[0]), ParseRange(parts[1]))
      case (Some(a), Some(b)) => Some((a, b))
      case _ => None
  }

  /** A pair written back as "a-b,c-d". */
  function FormatPair(p: (Range, Range)): string
  {
    Decimal(p.0.0) + "-" + Decimal(p.0.1) + "," + Decimal(p.1.0) + "-" + Decimal(p.1.1)
  }

  /** Decimal digits contain no separator. */
  lemma DecimalFree(n: nat, sep: char)
    requires !IsDigit(sep)
    ensures sep !in Decimal(n)
  {
  }

  lemma ParseRangeFormat(r: Range)
    ensures ParseRange(Decimal(r.0) + "-" + Decimal(r.1)) == Some(r)
  {
    var s := Decimal(r.0) + "-" + Decimal(r.1);
    DecimalFree(r.0, '-');
    DecimalFree(r.1, '-');
    SplitAround(Decimal(r.0), Decimal(r.1), '-');
    ParseNatFormat(r.0);
    ParseNatFormat(r.1);
  }

  /** A line "a-b,c-d" reads back as the pair it was written from. */
  lemma ParsePairFormat(p: (Range, Range))
    ensures ParsePair(FormatPair(p)) == Some(p)
  {
    var left := Decimal(p.0.0) + "-" + Decimal(p.0.1);
    var right := Decimal(p.1.0) + "-" + Decimal(p.1.1);
    assert FormatPair(p) == left + "," + right;
    DecimalFree(p.0.0, ',');
    DecimalFree(p.0.1, ',');
    DecimalFree(p.1.0, ',');
    DecimalFree(p.1.1, ',');
    SplitAround(left, right, ',');
    ParseRangeFormat(p.0);
    ParseRangeFormat(p.1);
  }

  /** Splitting two separator-free words joined by the separator gives them both back. */
  lemma SplitAround(a: string, b: string, sep: char)
    requires sep !in a && sep !in b
    ensures Split(a + [sep] + b, sep) == [a, b]
  {
    assert JoinWith([a, b], sep) == a + [sep] + b by {
      assert [a, b][1..] == [b];
    }
    JoinSplit([a, b], sep);
  }

  /** `parse`: one pair a line; None when some line is malformed. */
  function Parse(input: string): (r: Option<seq<(Range, Range)>>)
    ensures r.Some? <==> forall i :: 0 <= i < |Lines(input)| ==> ParsePair(Lines(input)[i]).Some?
    ensures r.Some? ==> |r.value| == |Lines(input)|
    ensures r.Some? ==> forall i :: 0 <= i < |r.value| ==> Some(r.value[i]) == ParsePair(Lines(input)[i])
  {
    var lines := Lines(input);
    if forall i :: 0 <= i < |lines| ==> ParsePair(lines[i]).Some? then
      Some(seq(|lines|, i requires 0 <= i < |lines| && ParsePair(lines[i]).Some? => ParsePair(lines[i]).value))
    else None
  }

  // ------------------------------------------------------------ the predicates

  /** `ranges_overlap_fully`. */
  predicate OverlapFully(p: (Range, Range))
  {
    var ((a, b), (c, d)) := p;
    (a <= c && d <= b) || (c <= a && b <= d)
  }

  /** `ranges_overlap`. */
  predicate Overlap(p: (Range, Range))
  {
    var ((a, b), (c, d)) := p;
    (a <= c && c <= b) || (c <= a && a <= d)
  }

  predicate WellFormed(r: Range)
  {
    r.0 <= r.1
  }

  predicate Within(x: int, r: Range)
  {
    r.0 <= x <= r.1
  }

  /** Every section of `inner` is also one of `outer`. */
  ghost predicate Contains(outer: Range, inner: Range)
  {
    forall x :: Within(x, inner) ==> Within(x, outer)
  }

  function Swap(p: (Range, Range)): (Range, Range)
  {
    (p.1, p.0)
  }

  /** For ranges that are not empty, full overlap is one range containing the other. */
  lemma OverlapFullyMeans(p: (Range, Range))
    requires WellFormed(p.0) && WellFormed(p.1)
    ensures OverlapFully(p) <==> Contains(p.0, p.1) || Contains(p.1, p.0)
  {
    var ((a, b), (c, d)) := p;
    if Contains(p.0, p.1) {
      assert Within(c, p.1) && Within(d, p.1);
    }
    if Contains(p.1, p.0) {
      assert Within(a, p.0) && Within(b, p.0);
    }
  }

  /** Overlap is sharing a section, for ranges that are not empty. */
  lemma OverlapMeans(p: (Range, Range))
    requires WellFormed(p.0) && WellFormed(p.1)
    ensures Overlap(p) <==> exists x :: Within(x, p.0) && Within(x, p.1)
  {
    var ((a, b), (c, d)) := p;
    if Overlap(p) {
      if a <= c && c <= b {
        assert Within(c, p.0) && Within(c, p.1);
      } else {
        assert Within(a, p.0) && Within(a, p.1);
      }
    }
  }

  /** Neither predicate depends on the order of the pair. */
  lemma Symmetric(p: (Range, Range))
    ensures OverlapFully(Swap(p)) == OverlapFully(p)
    ensures Overlap(Swap(p)) == Overlap(p)
  {
  }

  /** A range containing another overlaps it, when the ranges are not empty. */
  lemma FullyImpliesOverlap(p: (Range, Range))
    requires WellFormed(p.0) && WellFormed(p.1)
    ensures OverlapFully(p) ==> Overlap(p)
  {
  }

  // ------------------------------------------------------------ the parts

  /** The number of pairs satisfying `keep`, as `filter(..).count()` tallies them. */
  function CountIf(pairs: seq<(Range, Range)>, keep: ((Range, Range)) -> bool): (n: nat)
    ensures n <= |pairs|
    ensures n == 0 <==> forall i :: 0 <= i < |pairs| ==> !keep(pairs[i])
    ensures n == |pairs| <==> forall i :: 0 <= i < |pairs| ==> keep(pairs[i])
  {
    if pairs == [] then 0
    else
      var later := pairs[1..];
      assert forall i :: 0 <= i < |later| ==> later[i] == pairs[i + 1];
      (if keep(pairs[0]) then 1 else 0) + CountIf(later, keep)
  }

  /** part1: how many pairs have one range containing the other; all or none exactly when every or no pair does. */
  function Part1(pairs: seq<(Range, Range)>): (n: nat)
    ensures n <= |pairs|
    ensures n == 0 <==> forall i :: 0 <= i < |pairs| ==> !OverlapFully(pairs[i])
    ensures n == |pairs| <==> forall i :: 0 <= i < |pairs| ==> OverlapFully(pairs[i])
  {
    CountIf(pairs, OverlapFully)
  }

  /** part2: how many pairs overlap; all or none exactly when every or no pair does. */
  function Part2(pairs: seq<(Range, Range)>): (n: nat)
    ensures n <= |pairs|
    ensures n == 0 <==> forall i :: 0 <= i < |pairs| ==> !Overlap(pairs[i])
    ensures n == |pairs| <==> forall i :: 0 <= i < |pairs| ==> Overlap(pairs[i])
  {
    CountIf(pairs, Overlap)
  }

  lemma {:induction false} CountIfMonotone(pairs: seq<(Range, Range)>, p: ((Range, Range)) -> bool, q: ((Range, Range)) -> bool)
    requires forall i :: 0 <= i < |pairs| ==> p(pairs[i]) ==> q(pairs[i])
    ensures CountIf(pairs, p) <= CountIf(pairs, q)
  {
    if pairs != [] {
      var later := pairs[1..];
      assert forall i :: 0 <= i < |later| ==> later[i] == pairs[i + 1];
      CountIfMonotone(later, p, q);
    }
  }

  /** With well-formed ranges, every fully overlapping pair also overlaps: part 1 never exceeds part 2. */
  lemma Part1AtMostPart2(pairs: seq<(Range, Range)>)
    requires forall i :: 0 <= i < |pairs| ==> WellFormed(pairs[i].0) && WellFormed(pairs[i].1)
    ensures Part1(pairs) <= Part2(pairs)
  {
    forall i | 0 <= i < |pairs|
      ensures OverlapFully(pairs[i]) ==> Overlap(pairs[i])
    {
      FullyImpliesOverlap(pairs[i]);
    }
    CountIfMonotone(pairs, OverlapFully, Overlap);
  }

  /** The sample's six pairs: two contain one another, four overlap. */
  lemma Sample()
    ensures var pairs := [((2, 4), (6, 8)), ((2, 3), (4, 5)), ((5, 7), (7, 9)), ((2, 8), (3, 7)), ((6, 6), (4, 6)), ((2, 6), (4, 8))];
      Part1(pairs) == 2 && Part2(pairs) == 4
  {
  }
}
