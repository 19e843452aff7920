/**
 * Day 15: sensors on a grid, each covering the diamond of squares no farther
 * (in Manhattan distance) than the beacon it reports. Part 1 counts the
 * covered squares of one row by merging the row's covered intervals.
 */
module Day15 {
  import opened Wrappers
  import opened Text

  type Point = (int, int)

  /** A sensor's position and radius. */
  type Sensor = (Point, nat)

  /** A closed interval of x positions. */
  type Range = (int, int)

  const RowToCheck: int := 2000000

  function Distance(a: Point, b: Point): nat
  {
    AbsDiff(a.0, b.0) + AbsDiff(a.1, b.1)
  }

  /** Some sensor reaches `p`. */
  predicate Covered(sensors: seq<Sensor>, p: Point)
  {
    exists i :: 0 <= i < |sensors| && Distance(sensors[i].0, p) <= sensors[i].1
  }

  predicate InRange(r: Range, x: int)
  {
    r.0 <= x <= r.1
  }

  /** `collapse_ranges`: two intervals that meet become the interval spanning both. */
  function CollapseRanges(a: Range, b: Range): (r: Option<Range>)
    ensures r.Some? <==> a.0 <= b.1 && b.0 <= a.1
    ensures r.Some? ==> r.value.0 == Min(a.0, b.0) && r.value.1 == Max(a.1, b.1)
    ensures r.Some? ==> forall x :: InRange(r.value, x) <==> InRange(a, x) || InRange(b, x)
  {
    if a.0 <= b.1 && b.0 <= a.1 then Some((Min(a.0, b.0), Max(a.1, b.1))) else None
  }

  // ------------------------------------------------------------ the row's intervals

  /** The interval a sensor covers in `row`, if it reaches that row. */
  function RowRange(s: Sensor, row: int): (r: Option<Range>)
    ensures r.Some? <==> AbsDiff(s.0.1, row) <= s.1
    ensures r.Some? ==> forall x :: InRange(r.value, x) <==> Distance(s.0, (x, row)) <= s.1
  {
    var yDiff := AbsDiff(s.0.1, row);
    if yDiff > s.1 then None
    else
      var remaining := s.1 - yDiff;
      Some((s.0.0 - remaining, s.0.0 + remaining))
  }

  /** The intervals `num_covered_positions_in_row` pushes, in sensor order. */
  function RowRanges(sensors: seq<Sensor>, row: int): (rs: seq<Range>)
    ensures forall i :: 0 <= i < |rs| ==> rs[i].0 <= rs[i].1
  {
    if sensors == [] then []
    else
      var front := RowRanges(sensors[..|sensors| - 1], row);
      match RowRange(sensors[|sensors| - 1], row)
      case None => front
      case Some(r) => front + [r]
  }

  /** The squares covered by the intervals. */
  function Positions(rs: seq<Range>): set<int>
  {
    if rs == [] then {}
    else Positions(rs[..|rs| - 1]) + Interval(rs[|rs| - 1])
  }

  function Interval(r: Range): (s: set<int>)
    ensures forall x :: x in s <==> InRange(r, x)
    decreases r.1 - r.0
  {
    if r.1 < r.0 then {} else Interval((r.0, r.1 - 1)) + {r.1}
  }

  lemma {:induction false} PositionsMembers(rs: seq<Range>, x: int)
    ensures x in Positions(rs) <==> exists i :: 0 <= i < |rs| && InRange(rs[i], x)
  {
    if rs != [] {
      var front := rs[..|rs| - 1];
      PositionsMembers(front, x);
      if x in Positions(front) {
        var i :| 0 <= i < |front| && InRange(front[i], x);
        assert rs[i] == front[i];
      }
      if exists i :: 0 <= i < |rs| && InRange(rs[i], x) {
        var i :| 0 <= i < |rs| && InRange(rs[i], x);
        if i < |front| {
          assert front[i] == rs[i];
        }
      }
    }
  }

  /** The row's intervals cover exactly the squares of the row some sensor reaches. */
  lemma {:induction false} RowRangesCover(sensors: seq<Sensor>, row: int, x: int)
    ensures x in Positions(RowRanges(sensors, row)) <==> Covered(sensors, (x, row))
  {
    if sensors != [] {
      var front := sensors[..|sensors| - 1];
      var last := sensors[|sensors| - 1];
      RowRangesCover(front, row, x);
      if Covered(front, (x, row)) {
        var i :| 0 <= i < |front| && Distance(front[i].0, (x, row)) <= front[i].1;
        assert sensors[i] == front[i];
      }
      if Covered(sensors, (x, row)) {
        var i :| 0 <= i < |sensors| && Distance(sensors[i].0, (x, row)) <= sensors[i].1;
        if i < |front| {
          assert front[i] == sensors[i];
        }
      }
    }
  }

  // ------------------------------------------------------------ sorting

  /** The derived order on `(i32, i32)` that `sort_unstable` uses. */
  predicate LexLe(a: Range, b: Range)
  {
    a.0 < b.0 || (a.0 == b.0 && a.1 <= b.1)
  }

  predicate SortedLex(rs: seq<Range>)
  {
    forall i :: 0 < i < |rs| ==> LexLe(rs[i - 1], rs[i])
  }

  function InsertRange(r: Range, rs: seq<Range>): (out: seq<Range>)
    requires SortedLex(rs)
    ensures SortedLex(out) && multiset(out) == multiset(rs) + multiset{r}
    ensures out[0] == r || (rs != [] && out[0] == rs[0])
  {
    if rs == [] then [r]
    else if LexLe(r, rs[0]) then [r] + rs
    else
      var tail := InsertRange(r, rs[1..]);
      assert rs == [rs[0]] + rs[1..];
      [rs[0]] + tail
  }

  /** `sort_unstable` as a value: a sorted rearrangement. */
  function SortRanges(rs: seq<Range>): (out: seq<Range>)
    ensures SortedLex(out) && multiset(out) == multiset(rs)
  {
    if rs == [] then []
    else
      assert rs == [rs[0]] + rs[1..];
      InsertRange(rs[0], SortRanges(rs[1..]))
  }

  /** Rearranging intervals covers the same squares. */
  lemma PositionsPermutation(rs: seq<Range>, qs: seq<Range>)
    requires multiset(rs) == multiset(qs)
    ensures Positions(rs) == Positions(qs)
  {
    forall x
      ensures x in Positions(rs) <==> x in Positions(qs)
    {
      PositionsMembers(rs, x);
      PositionsMembers(qs, x);
      if exists i :: 0 <= i < |rs| && InRange(rs[i], x) {
        var i :| 0 <= i < |rs| && InRange(rs[i], x);
        assert rs[i] in multiset(qs);
        var j :| 0 <= j < |qs| && qs[j] == rs[i];
      }
      if exists j :: 0 <= j < |qs| && InRange(qs[j], x) {
        var j :| 0 <= j < |qs| && InRange(qs[j], x);
        assert qs[j] in multiset(rs);
        var i :| 0 <= i < |rs| && rs[i] == qs[j];
      }
    }
  }

  // ------------------------------------------------------------ merging

  /** One turn of the merge loop: widen the last interval, or append. */
  function MergeInto(acc: seq<Range>, r: Range): seq<Range>
  {
    if acc != [] && CollapseRanges(acc[|acc| - 1], r).Some? then
      acc[..|acc| - 1] + [CollapseRanges(acc[|acc| - 1], r).value]
    else acc + [r]
  }

  /** The collapsed intervals of the loop over `rs`. */
  function MergeAll(rs: seq<Range>): (out: seq<Range>)
    ensures rs == [] <==> out == []
  {
    if rs == [] then [] else MergeInto(MergeAll(rs[..|rs| - 1]), rs[|rs| - 1])
  }

  /** Non-empty intervals, each ending before the next begins. */
  predicate Separated(rs: seq<Range>)
  {
    (forall i :: 0 <= i < |rs| ==> rs[i].0 <= rs[i].1) &&
    (forall i, j :: 0 <= i < j < |rs| ==> rs[i].1 < rs[j].0)
  }

  predicate StartsSorted(rs: seq<Range>)
  {
    forall i, j :: 0 <= i < j < |rs| ==> rs[i].0 <= rs[j].0
  }

  lemma {:induction false} SortedStarts(rs: seq<Range>)
    requires SortedLex(rs)
    ensures StartsSorted(rs)
  {
    if rs != [] {
      var front := rs[..|rs| - 1];
      assert SortedLex(front) by {
        assert forall i :: 0 <= i < |front| ==> front[i] == rs[i];
      }
      SortedStarts(front);
      var n := |rs| - 1;
      forall i, j | 0 <= i < j < |rs|
        ensures rs[i].0 <= rs[j].0
      {
        assert front[i] == rs[i];
        if j < n {
          assert front[j] == rs[j];
        } else if i < n - 1 {
          assert front[n - 1] == rs[n - 1];
          assert LexLe(rs[n - 1], rs[n]);
        } else {
          assert LexLe(rs[n - 1], rs[n]);
        }
      }
    }
  }

  /** One turn of the merge loop keeps the intervals separated. */
  lemma MergeIntoSeparated(acc: seq<Range>, r: Range)
    requires Separated(acc) && r.0 <= r.1 && (acc != [] ==> acc[|acc| - 1].0 <= r.0)
    ensures var out := MergeInto(acc, r); Separated(out) && out[|out| - 1].0 <= r.0
  {
    if acc != [] && CollapseRanges(acc[|acc| - 1], r).Some? {
      var out := acc[..|acc| - 1] + [CollapseRanges(acc[|acc| - 1], r).value];
      assert forall i :: 0 <= i < |acc| - 1 ==> out[i] == acc[i];
      assert out[|out| - 1].0 == acc[|acc| - 1].0;
    } else {
      var out := acc + [r];
      assert forall i :: 0 <= i < |acc| ==> out[i] == acc[i];
    }
  }

  /**
   * Merging non-empty intervals sorted by start gives separated intervals,
   * the last of which starts no later than the last input.
   */
  lemma {:induction false} MergeAllSeparated(rs: seq<Range>)
    requires StartsSorted(rs) && forall i :: 0 <= i < |rs| ==> rs[i].0 <= rs[i].1
    ensures Separated(MergeAll(rs))
    ensures rs != [] ==> MergeAll(rs)[|MergeAll(rs)| - 1].0 <= rs[|rs| - 1].0
  {
    if rs != [] {
      var front, r := rs[..|rs| - 1], rs[|rs| - 1];
      assert StartsSorted(front) && forall i :: 0 <= i < |front| ==> front[i].0 <= front[i].1 by {
        assert forall i :: 0 <= i < |front| ==> front[i] == rs[i];
      }
      MergeAllSeparated(front);
      if front != [] {
        assert rs[|rs| - 2] == front[|front| - 1];
      }
      MergeIntoSeparated(MergeAll(front), r);
    }
  }

  lemma IntervalUnion(a: Range, b: Range)
    requires CollapseRanges(a, b).Some?
    ensures Interval(CollapseRanges(a, b).value) == Interval(a) + Interval(b)
  {
    var m := CollapseRanges(a, b).value;
    forall x
      ensures x in Interval(m) <==> x in Interval(a) + Interval(b)
    {
      assert InRange(m, x) <==> InRange(a, x) || InRange(b, x);
    }
  }

  /** Merging covers the same squares. */
  lemma {:induction false} MergeAllPositions(rs: seq<Range>)
    ensures Positions(MergeAll(rs)) == Positions(rs)
  {
    if rs != [] {
      var front, r := rs[..|rs| - 1], rs[|rs| - 1];
      MergeAllPositions(front);
      var acc := MergeAll(front);
      if acc != [] && CollapseRanges(acc[|acc| - 1], r).Some? {
        var last := acc[|acc| - 1];
        var merged := CollapseRanges(last, r).value;
        var out := acc[..|acc| - 1] + [merged];
        assert out[..|out| - 1] == acc[..|acc| - 1];
        assert acc[..|acc| - 1] == acc[..|acc| - 1];
        assert Positions(acc) == Positions(acc[..|acc| - 1]) + Interval(last);
        IntervalUnion(last, r);
      } else {
        var out := acc + [r];
        assert out[..|out| - 1] == acc;
      }
    }
  }

  // ------------------------------------------------------------ counting

  /** The source's sum: `high - low` per interval. */
  function WidthSum(rs: seq<Range>): int
  {
    if rs == [] then 0 else WidthSum(rs[..|rs| - 1]) + (rs[|rs| - 1].1 - rs[|rs| - 1].0)
  }

  /** The number of squares each interval holds, summed. */
  function LengthSum(rs: seq<Range>): int
  {
    if rs == [] then 0 else LengthSum(rs[..|rs| - 1]) + (rs[|rs| - 1].1 - rs[|rs| - 1].0 + 1)
  }

  lemma {:induction false} WidthIsLengthLess(rs: seq<Range>)
    ensures WidthSum(rs) == LengthSum(rs) - |rs|
  {
    if rs != [] {
      WidthIsLengthLess(rs[..|rs| - 1]);
    }
  }

  lemma {:induction false} IntervalSize(r: Range)
    requires r.0 <= r.1 + 1
    ensures |Interval(r)| == r.1 - r.0 + 1
    decreases r.1 - r.0
  {
    if r.0 <= r.1 {
      var shorter := (r.0, r.1 - 1);
      IntervalSize(shorter);
      assert r.1 !in Interval(shorter);
    }
  }

  /** Separated intervals hold as many squares as their lengths add up to. */
  lemma {:induction false} SeparatedSize(rs: seq<Range>)
    requires Separated(rs)
    ensures |Positions(rs)| == LengthSum(rs)
    ensures rs != [] ==> forall x :: x in Positions(rs) ==> x <= rs[|rs| - 1].1
  {
    if rs != [] {
      var front, r := rs[..|rs| - 1], rs[|rs| - 1];
      SeparatedSize(front);
      IntervalSize(r);
      if front != [] {
        assert front[|front| - 1] == rs[|rs| - 2];
      }
      forall x | x in Positions(front)
        ensures x !in Interval(r)
      {
      }
      assert Positions(front) * Interval(r) == {};
    }
  }

  // ------------------------------------------------------------ the methods

  /** The first loop of `num_covered_positions_in_row`. */
  method CollectRanges(sensors: seq<Sensor>, row: int) returns (ranges: seq<Range>)
    ensures ranges == RowRanges(sensors, row)
  {
    ranges := [];
    for i := 0 to |sensors|
      invariant ranges == RowRanges(sensors[..i], row)
    {
      assert sensors[..i + 1][..i] == sensors[..i];
      var sensor, radius := sensors[i].0, sensors[i].1;
      var yDiff := AbsDiff(sensor.1, row);
      if yDiff > radius {
        continue;
      }
      var remaining := radius - yDiff;
      ranges := ranges + [(sensor.0 - remaining, sensor.0 + remaining)];
    }
    assert sensors[..|sensors|] == sensors;
  }

  /** The merge loop: a stack of collapsed intervals, its top widened or a new one pushed. */
  method CollapseAll(ranges: seq<Range>) returns (collapsed: seq<Range>)
    ensures collapsed == MergeAll(ranges)
  {
    collapsed := [];
    for i := 0 to |ranges|
      invariant collapsed == MergeAll(ranges[..i])
    {
      var range := ranges[i];
      assert ranges[..i + 1][..i] == ranges[..i];
      if collapsed != [] {
        var newRange := CollapseRanges(collapsed[|collapsed| - 1], range);
        if newRange.Some? {
          collapsed := collapsed[..|collapsed| - 1];
          collapsed := collapsed + [newRange.value];
          continue;
        }
      }
      collapsed := collapsed + [range];
    }
    assert ranges[..|ranges|] == ranges;
  }

  /** What `num_covered_positions_in_row` returns. */
  function RowCountAsWritten(sensors: seq<Sensor>, row: int): int
  {
    WidthSum(MergeAll(SortRanges(RowRanges(sensors, row))))
  }

  /** `num_covered_positions_in_row` */
  method NumCoveredPositionsInRow(sensors: seq<Sensor>, row: int) returns (r: int)
    ensures r == RowCountAsWritten(sensors, row)
  {
    var ranges := CollectRanges(sensors, row);
    var sorted := SortRanges(ranges);
    var collapsed := CollapseAll(sorted);
    r := WidthSum(collapsed);
  }

  /**
   * part1: the as-written count for row 2000000, which is the number of
   * covered squares of that row less one per merged interval.
   */
  function Part1(sensors: seq<Sensor>): (r: int)
    ensures r == |CoveredRow(sensors, RowToCheck)| - |MergeAll(SortRanges(RowRanges(sensors, RowToCheck)))|
  {
    RowCountIsCovered(sensors, RowToCheck);
    AsWrittenUndercounts(sensors, RowToCheck);
    RowCountAsWritten(sensors, RowToCheck)
  }

  /** The covered squares of `row`. */
  ghost function CoveredRow(sensors: seq<Sensor>, row: int): (s: set<int>)
    ensures forall x :: x in s <==> Covered(sensors, (x, row))
  {
    var s := Positions(RowRanges(sensors, row));
    assert forall x :: x in s <==> Covered(sensors, (x, row)) by {
      forall x
        ensures x in s <==> Covered(sensors, (x, row))
      {
        RowRangesCover(sensors, row, x);
      }
    }
    s
  }

  /** The number of covered squares of the row: each merged interval counted with both ends. */
  function RowCount(sensors: seq<Sensor>, row: int): int
  {
    LengthSum(MergeAll(SortRanges(RowRanges(sensors, row))))
  }

  lemma SortedRowRanges(sensors: seq<Sensor>, row: int)
    ensures var sorted := SortRanges(RowRanges(sensors, row));
      StartsSorted(sorted) && (forall i :: 0 <= i < |sorted| ==> sorted[i].0 <= sorted[i].1) &&
      Positions(sorted) == Positions(RowRanges(sensors, row))
  {
    var rs := RowRanges(sensors, row);
    var sorted := SortRanges(rs);
    SortedStarts(sorted);
    PositionsPermutation(sorted, rs);
    forall i | 0 <= i < |sorted|
      ensures sorted[i].0 <= sorted[i].1
    {
      assert sorted[i] in multiset(rs);
    }
  }

  /** Counting both ends of each merged interval gives exactly the covered squares of the row. */
  lemma RowCountIsCovered(sensors: seq<Sensor>, row: int)
    ensures RowCount(sensors, row) == |CoveredRow(sensors, row)|
  {
    var sorted := SortRanges(RowRanges(sensors, row));
    SortedRowRanges(sensors, row);
    MergeAllSeparated(sorted);
    MergeAllPositions(sorted);
    SeparatedSize(MergeAll(sorted));
  }

  /**
   * Summing `high - low` counts one square fewer per merged interval than
   * are covered; on a row where each interval holds one beacon that is the
   * number of squares where a beacon cannot be.
   */
  lemma AsWrittenUndercounts(sensors: seq<Sensor>, row: int)
    ensures RowCountAsWritten(sensors, row) == RowCount(sensors, row) - |MergeAll(SortRanges(RowRanges(sensors, row)))|
  {
    WidthIsLengthLess(MergeAll(SortRanges(RowRanges(sensors, row))));
  }

  // ------------------------------------------------------------ check_point

  /** `check_point`: true when no sensor reaches the point, answered at the first sensor that does. */
  method CheckPoint(sensors: seq<Sensor>, point: Point) returns (r: bool)
    ensures r <==> !Covered(sensors, point)
  {
    for i := 0 to |sensors|
      invariant forall j :: 0 <= j < i ==> Distance(sensors[j].0, point) > sensors[j].1
    {
      var distance := AbsDiff(sensors[i].0.0, point.0) + AbsDiff(sensors[i].0.1, point.1);
      if distance <= sensors[i].1 {
        return false;
      }
    }
    return true;
  }

  // ------------------------------------------------------------ parsing

  /** The text after the first '=' in a word. */
  function AfterEquals(w: string): (r: Option<string>)
    ensures r.Some? <==> '=' in w
  {
    if w == [] then None
    else if w[0] == '=' then Some(w[1..])
    else AfterEquals(w[1..])
  }

  /** `extract_num` on one word: after '=', one trailing ',' or ':' dropped, then `i32` parsing. */
  function ExtractNum(w: string): Option<int>
  {
    match AfterEquals(w)
    case None => None
    case Some(part) =>
      var num := if part != [] && (part[|part| - 1] == ',' || part[|part| - 1] == ':') then part[..|part| - 1] else part;
      ParseInt(num)
  }

  /** One line: the sensor position and its distance to its beacon; `None` is a panic. */
  function ParseSensor(line: string): Option<Sensor>
  {
    var words := Split(line, ' ');
    if |words| < 10 then None
    else
      match (ExtractNum(words[2]), ExtractNum(words[3]), ExtractNum(words[8]), ExtractNum(words[9]))
      case (Some(sx), Some(sy), Some(bx), Some(bY)) => Some(((sx, sy), Distance((sx, sy), (bx, bY))))
      case _ => None
  }

  /** `parse`: `None` exactly when some line panics; otherwise one sensor per line. */
  function Parse(input: string): (r: Option<seq<Sensor>>)
    ensures r.Some? <==> forall i :: 0 <= i < |Lines(input)| ==> ParseSensor(Lines(input)[i]).Some?
    ensures r.Some? ==>
      |r.value| == |Lines(input)| && forall i :: 0 <= i < |r.value| ==> Some(r.value[i]) == ParseSensor(Lines(input)[i])
  {
    ParseLinesEach(ParseSensor, Lines(input));
    ParseLines(ParseSensor, Lines(input))
  }

  /** `lines().map(parse).collect()` into an `Option`: the first failing line makes it `None`. */
  function ParseLines(parse: string -> Option<Sensor>, lines: seq<string>): (r: Option<seq<Sensor>>)
    ensures r.Some? ==> |r.value| == |lines|
  {
    if lines == [] then Some([])
    else
      match (ParseLines(parse, lines[..|lines| - 1]), parse(lines[|lines| - 1]))
      case (Some(ss), Some(s)) => Some(ss + [s])
      case _ => None
  }

  /** Every line parses exactly when the lines parse, and then line `i` gives sensor `i`. */
  lemma {:induction false} ParseLinesEach(parse: string -> Option<Sensor>, lines: seq<string>)
    ensures ParseLines(parse, lines).Some? <==> forall i :: 0 <= i < |lines| ==> parse(lines[i]).Some?
    ensures ParseLines(parse, lines).Some? ==>
      forall i :: 0 <= i < |lines| ==> Some(ParseLines(parse, lines).value[i]) == parse(lines[i])
  {
    if lines != [] {
      var front := lines[..|lines| - 1];
      ParseLinesEach(parse, front);
      assert forall i :: 0 <= i < |front| ==> front[i] == lines[i];
    }
  }

  /** The words of a report line. */
  function ReportWords(s: Point, b: Point): seq<string>
  {
    ["Sensor", "at", Field('x', s.0, ","), Field('y', s.1, ":"),
     "closest", "beacon", "is", "at", Field('x', b.0, ","), Field('y', b.1, "")]
  }

  /** A numbered word of a report line, such as `x=-2,`. */
  function Field(name: char, x: int, suffix: string): string
  {
    [name, '='] + FormatInt(x) + suffix
  }

  lemma FormatIntPlain(x: int)
    ensures ' ' !in FormatInt(x) && '=' !in FormatInt(x)
    ensures FormatInt(x) != [] && FormatInt(x)[|FormatInt(x)| - 1] != ',' && FormatInt(x)[|FormatInt(x)| - 1] != ':'
  {
    var t := if x < 0 then Decimal(-x) else Decimal(x);
    assert AllDigits(t);
    assert FormatInt(x) == t || FormatInt(x) == "-" + t;
    assert forall i :: 0 <= i < |t| ==> t[i] != ' ' && t[i] != '=';
  }

  lemma AfterEqualsPrefix(prefix: char, rest: string)
    requires prefix != '='
    ensures AfterEquals([prefix, '='] + rest) == Some(rest)
  {
    var w := [prefix, '='] + rest;
    assert w[1..] == ['='] + rest;
    assert w[1..][1..] == rest;
  }

  lemma StripSuffix(t: string, suffix: string)
    requires t != [] && t[|t| - 1] != ',' && t[|t| - 1] != ':'
    requires suffix == "" || suffix == "," || suffix == ":"
    ensures var part := t + suffix;
      (if part != [] && (part[|part| - 1] == ',' || part[|part| - 1] == ':') then part[..|part| - 1] else part) == t
  {
    if suffix != "" {
      assert (t + suffix)[..|t + suffix| - 1] == t;
    } else {
      assert t + suffix == t;
    }
  }

  lemma ExtractNumFormat(prefix: char, x: int, suffix: string)
    requires prefix != '=' && (suffix == "" || suffix == "," || suffix == ":")
    ensures ExtractNum(Field(prefix, x, suffix)) == Some(x)
  {
    FormatIntPlain(x);
    assert [prefix, '='] + FormatInt(x) + suffix == [prefix, '='] + (FormatInt(x) + suffix);
    AfterEqualsPrefix(prefix, FormatInt(x) + suffix);
    StripSuffix(FormatInt(x), suffix);
    ParseIntFormat(x);
  }

  /** A report line written out reads back as its sensor with the distance to its beacon as radius. */
  lemma ParseReport(s: Point, b: Point)
    ensures ParseSensor(JoinWith(ReportWords(s, b), ' ')) == Some((s, Distance(s, b)))
  {
    var words := ReportWords(s, b);
    ReportSpaceFree(s, b);
    JoinSplit(words, ' ');
    ReportNumbers(s, b);
  }

  /** No word of a report line holds a space. */
  lemma ReportSpaceFree(s: Point, b: Point)
    ensures forall i :: 0 <= i < |ReportWords(s, b)| ==> ' ' !in ReportWords(s, b)[i]
  {
    FieldSpaceFree('x', s.0, ",");
    FieldSpaceFree('y', s.1, ":");
    FieldSpaceFree('x', b.0, ",");
    FieldSpaceFree('y', b.1, "");
  }

  lemma FieldSpaceFree(name: char, x: int, suffix: string)
    requires name != ' ' && ' ' !in suffix
    ensures ' ' !in Field(name, x, suffix)
  {
    FormatIntPlain(x);
  }

  /** The four numbered words of a report line read back as the coordinates written into them. */
  lemma ReportNumbers(s: Point, b: Point)
    ensures var words := ReportWords(s, b);
      |words| == 10 && ExtractNum(words[2]) == Some(s.0) && ExtractNum(words[3]) == Some(s.1) &&
      ExtractNum(words[8]) == Some(b.0) && ExtractNum(words[9]) == Some(b.1)
  {
    var words := ReportWords(s, b);
    assert words[2] == Field('x', s.0, ",") && words[3] == Field('y', s.1, ":");
    assert words[8] == Field('x', b.0, ",") && words[9] == Field('y', b.1, "");
    ExtractNumFormat('x', s.0, ",");
    ExtractNumFormat('y', s.1, ":");
    ExtractNumFormat('x', b.0, ",");
    ExtractNumFormat('y', b.1, "");
  }
}
