/**
 * Day 14, Regolith Reservoir: rock paths drawn from "x,y -> x,y -> ..."
 * lines fill a cave, and grains of sand fall one at a time from (500, 0).
 * A grain moves down, else down-left, else down-right, each only into an
 * empty cell, and rests when all three are blocked. Part one counts the
 * grains that rest before one falls below the lowest rock; part two adds a
 * floor two rows below the lowest rock and counts grains until the source
 * itself is filled.
 *
 * The source keeps the path of the previous grain on a stack and starts the
 * next grain from the last cell of that path; the model proves this lands
 * every grain where a grain dropped afresh from (500, 0) would.
 */
module Day14 {
  import opened Wrappers
  import opened Text

  /** A cell as (x, y); y grows downwards. */
  type Pos = (int, int)

  const Source: Pos := (500, 0)

  // ---------------------------------------------------------------- parsing

  /** One "x,y" coordinate pair. */
  function ParsePoint(part: string): (r: Option<Pos>)
  {
    match SplitOnce(part, ',')
    case None => None
    case Some((a, b)) =>
      match (ParseInt(a), ParseInt(b))
      case (Some(x), Some(y)) => Some((x, y))
      case _ => None
  }

  /** A coordinate pair is two integers around the first comma. */
  lemma ParsePointParts(part: string)
    ensures ParsePoint(part).Some? ==>
      exists a, b :: part == a + "," + b && ',' !in a && ParseInt(a) == Some(ParsePoint(part).value.0) && ParseInt(b) == Some(ParsePoint(part).value.1)
  {
  }

  /** A line's points, or None where a part is not a coordinate pair (the source's "Bad coordinates"). */
  function ParsePath(line: string): Option<seq<Pos>>
  {
    AllPoints(SplitOn(line, " -> "))
  }

  function AllPoints(parts: seq<string>): (r: Option<seq<Pos>>)
  {
    if parts == [] then Some([])
    else
      var head, tail := ParsePoint(parts[0]), AllPoints(parts[1..]);
      if head.None? then None
      else if tail.None? then None
      else Some([head.value] + tail.value)
  }

  /** Every part is read as a point, in order, and a path fails exactly when one of its parts does. */
  lemma {:induction false} AllPointsParts(parts: seq<string>)
    ensures AllPoints(parts).Some? ==>
      |AllPoints(parts).value| == |parts| && forall i :: 0 <= i < |parts| ==> ParsePoint(parts[i]) == Some(AllPoints(parts).value[i])
    ensures AllPoints(parts).None? <==> exists i :: 0 <= i < |parts| && ParsePoint(parts[i]).None?
  {
    if parts != [] {
      var later := parts[1..];
      AllPointsParts(later);
      var head, tail := ParsePoint(parts[0]), AllPoints(later);
      if head.Some? && tail.Some? {
        var all := [head.value] + tail.value;
        assert AllPoints(parts) == Some(all);
        forall i | 0 <= i < |parts|
          ensures ParsePoint(parts[i]) == Some(all[i])
        {
          if i > 0 {
            assert parts[i] == later[i - 1];
          }
        }
      } else if head.None? {
        assert AllPoints(parts) == None;
      } else {
        assert AllPoints(parts) == None;
        var j :| 0 <= j < |later| && ParsePoint(later[j]).None?;
        assert parts[j + 1] == later[j];
      }
    }
  }

  /** The cells of the box spanned by two corners; a segment when they share a row or column. */
  ghost function Box(a: Pos, b: Pos): set<Pos>
  {
    set x, y | Min(a.0, b.0) <= x <= Max(a.0, b.0) && Min(a.1, b.1) <= y <= Max(a.1, b.1) :: (x, y)
  }

  /** A segment covers both its ends and is the same drawn either way. */
  lemma BoxEnds(a: Pos, b: Pos)
    ensures a in Box(a, b) && b in Box(a, b) && Box(a, b) == Box(b, a)
  {
    assert Min(a.0, b.0) <= a.0 <= Max(a.0, b.0) && Min(a.1, b.1) <= a.1 <= Max(a.1, b.1);
    assert Min(a.0, b.0) <= b.0 <= Max(a.0, b.0) && Min(a.1, b.1) <= b.1 <= Max(a.1, b.1);
  }

  /** The rock of a path: the segments between consecutive points. */
  ghost function PathRocks(path: seq<Pos>): set<Pos>
  {
    if |path| < 2 then {} else Box(path[0], path[1]) + PathRocks(path[1..])
  }

  /** `max_y` after a path: raised by both ends of every segment; a lone point changes nothing. */
  function PathMax(path: seq<Pos>, m: int): (r: int)
    ensures r >= m
    ensures |path| >= 2 ==> forall i :: 0 <= i < |path| ==> r >= path[i].1
    ensures r == m || exists i :: 0 <= i < |path| && r == path[i].1
  {
    if |path| < 2 then m
    else
      var r := PathMax(path[1..], Max(Max(m, path[0].1), path[1].1));
      assert forall i :: 1 <= i < |path| ==> path[i] == path[1..][i - 1];
      r
  }

  /** The cave and `max_y` after the remaining lines, or None where a line is malformed. */
  ghost function Scan(lines: seq<string>, cave: set<Pos>, m: int): Option<(set<Pos>, int)>
  {
    if lines == [] then Some((cave, m))
    else match ParsePath(lines[0])
      case None => None
      case Some(path) => Scan(lines[1..], cave + PathRocks(path), PathMax(path, m))
  }

  /** A line already drawn changes nothing when drawn again. */
  lemma RedrawNothing(path: seq<Pos>, cave: set<Pos>, m: int)
    requires PathRocks(path) <= cave && PathMax(path, m) == m
    ensures cave + PathRocks(path) == cave
  {
  }

  /**
   * Skipping a repeated line gives the cave of the input with the repeat
   * left in: the scan of `lines` from a state that already holds `line`
   * equals the scan of `[line] + lines`.
   */
  lemma RepeatedLine(line: string, lines: seq<string>, cave: set<Pos>, m: int)
    requires ParsePath(line).Some? && PathRocks(ParsePath(line).value) <= cave
    requires PathMax(ParsePath(line).value, m) == m
    ensures Scan([line] + lines, cave, m) == Scan(lines, cave, m)
  {
    var path := ParsePath(line).value;
    assert ([line] + lines)[0] == line && ([line] + lines)[1..] == lines;
    assert Scan([line] + lines, cave, m) == Scan(lines, cave + PathRocks(path), PathMax(path, m));
    assert cave + PathRocks(path) == cave;
  }

  /** A path's maximum only depends on the running maximum through `Max`. */
  lemma {:induction false} PathMaxMono(path: seq<Pos>, m: int, m': int)
    requires m <= m' && PathMax(path, m) <= m'
    ensures PathMax(path, m') == m'
    decreases |path|
  {
    if |path| >= 2 {
      PathMaxMono(path[1..], Max(Max(m, path[0].1), path[1].1), Max(Max(m', path[0].1), path[1].1));
    }
  }

  /** A path fully drawn stays drawn as the rock and the maximum grow. */
  ghost predicate Drawn(path: seq<Pos>, cave: set<Pos>, m: int)
  {
    PathMax(path, m) == m && forall i :: 0 <= i < |path| - 1 ==> BoxIn(path[i], path[i + 1], cave)
  }

  ghost predicate BoxIn(a: Pos, b: Pos, cave: set<Pos>)
  {
    Box(a, b) <= cave
  }

  lemma {:induction false} DrawnRocks(path: seq<Pos>, cave: set<Pos>, m: int)
    requires forall i :: 0 <= i < |path| - 1 ==> BoxIn(path[i], path[i + 1], cave)
    ensures PathRocks(path) <= cave
    decreases |path|
  {
    if |path| >= 2 {
      var t := path[1..];
      assert forall i :: 0 <= i < |t| ==> t[i] == path[i + 1];
      DrawnRocks(t, cave, m);
      assert BoxIn(path[0], path[1], cave);
    }
  }

  lemma {:induction false} PathRocksBoxes(path: seq<Pos>, i: nat)
    requires i < |path| - 1
    ensures Box(path[i], path[i + 1]) <= PathRocks(path)
    decreases i
  {
    if i > 0 {
      PathRocksBoxes(path[1..], i - 1);
    }
  }

  /** `(x1.min(x2)..=x1.max(x2))` by `(y1.min(y2)..=y1.max(y2))`, inserted cell by cell. */
  method InsertBox(cave: set<Pos>, a: Pos, b: Pos) returns (cave': set<Pos>)
    ensures cave' == cave + Box(a, b)
  {
    var x0, x1 := Min(a.0, b.0), Max(a.0, b.0);
    var y0, y1 := Min(a.1, b.1), Max(a.1, b.1);
    cave' := cave;
    for x := x0 to x1 + 1
      invariant cave' == cave + (set x', y | x0 <= x' < x && y0 <= y <= y1 :: (x', y))
    {
      for y := y0 to y1 + 1
        invariant cave' == cave + (set x', y' | x0 <= x' < x && y0 <= y' <= y1 :: (x', y'))
                              + (set y' | y0 <= y' < y :: (x, y'))
      {
        cave' := cave' + {(x, y)};
      }
      assert (set x', y' | x0 <= x' < x + 1 && y0 <= y' <= y1 :: (x', y')) ==
             (set x', y' | x0 <= x' < x && y0 <= y' <= y1 :: (x', y')) + (set y' | y0 <= y' < y1 + 1 :: (x, y'));
    }
  }

  // ---------------------------------------------------------------- falling

  /** The first empty cell of down, down-left, down-right, or None when all three are blocked. */
  function Next(cave: set<Pos>, p: Pos): (r: Option<Pos>)
    ensures r.Some? ==> r.value !in cave && r.value.1 == p.1 + 1 && -1 <= r.value.0 - p.0 <= 1
    ensures r.None? <==> (p.0, p.1 + 1) in cave && (p.0 - 1, p.1 + 1) in cave && (p.0 + 1, p.1 + 1) in cave
  {
    if (p.0, p.1 + 1) !in cave then Some((p.0, p.1 + 1))
    else if (p.0 - 1, p.1 + 1) !in cave then Some((p.0 - 1, p.1 + 1))
    else if (p.0 + 1, p.1 + 1) !in cave then Some((p.0 + 1, p.1 + 1))
    else None
  }

  datatype Landing = Abyss | Rest(c: Pos)

  /**
   * Where a grain falling from `p` ends. Without a floor it is lost once it
   * passes below `maxY`; with a floor at `maxY + 2` it rests on the row above.
   */
  function Drop(cave: set<Pos>, p: Pos, maxY: int, floor: bool): Landing
    requires p.1 <= maxY
    decreases maxY - p.1
  {
    match Next(cave, p)
    case None => Rest(p)
    case Some(q) =>
      if floor && q.1 + 1 == maxY + 2 then Rest(q)
      else if !floor && q.1 > maxY then Abyss
      else Drop(cave, q, maxY, floor)
  }

  /**
   * A grain rests where all three cells below are blocked (or on the floor),
   * never above where it started, within the cone below its start, and on
   * an empty cell unless it never moved.
   */
  lemma {:induction false} DropRest(cave: set<Pos>, p: Pos, maxY: int, floor: bool)
    requires p.1 <= maxY && Drop(cave, p, maxY, floor).Rest?
    ensures var c := Drop(cave, p, maxY, floor).c;
      (Next(cave, c).None? && c.1 <= maxY) || (floor && c.1 == maxY + 1)
    ensures var c := Drop(cave, p, maxY, floor).c;
      p.1 <= c.1 && p.0 - (c.1 - p.1) <= c.0 <= p.0 + (c.1 - p.1) && (c == p || c !in cave)
    ensures !floor ==> Drop(cave, p, maxY, floor).c.1 <= maxY
    decreases maxY - p.1
  {
    match Next(cave, p)
    case None =>
    case Some(q) =>
      if floor && q.1 + 1 == maxY + 2 {
      } else {
        DropRest(cave, q, maxY, floor);
      }
  }

  /** The lowest row sand can rest on: the last rock row, or the row above the floor. */
  function Top(maxY: int, floor: bool): int
  {
    if floor then maxY + 1 else maxY
  }

  /** The cone below the source down to `top`. Every resting grain lies in it. */
  ghost function Cone(top: int): set<Pos>
  {
    set y, x | 0 <= y <= top && 500 - y <= x <= 500 + y :: (x, y)
  }

  lemma RestInCone(cave: set<Pos>, maxY: int, floor: bool)
    requires 0 <= maxY && Drop(cave, Source, maxY, floor).Rest?
    ensures Drop(cave, Source, maxY, floor).c in Cone(Top(maxY, floor))
  {
    DropRest(cave, Source, maxY, floor);
  }

  /** Filling one more cell of the cone leaves fewer empty cone cells. */
  lemma Shrinks(cone: set<Pos>, cave: set<Pos>, c: Pos)
    requires c in cone && c !in cave
    ensures |cone - (cave + {c})| < |cone - cave|
  {
    var empty := cone - cave;
    assert cone - (cave + {c}) == empty - {c};
    assert empty == (empty - {c}) + {c};
  }

  /** With a floor no grain is lost. */
  lemma {:induction false} FloorLands(cave: set<Pos>, p: Pos, maxY: int)
    requires p.1 <= maxY
    ensures Drop(cave, p, maxY, true).Rest?
    decreases maxY - p.1
  {
    match Next(cave, p)
    case None =>
    case Some(q) =>
      if q.1 + 1 != maxY + 2 {
        FloorLands(cave, q, maxY);
      }
  }

  datatype Outcome = Outcome(count: nat, cave: set<Pos>)

  /**
   * Grains dropped from the source until one is lost (no floor) or the
   * source is filled (floor): how many rested and the cave afterwards. None
   * where the source never stops: without a floor, once sand reaches the
   * source every later grain rests on it again.
   */
  ghost function Pour(cave: set<Pos>, maxY: int, floor: bool): Option<Outcome>
    requires 0 <= maxY
    decreases |Cone(Top(maxY, floor)) - cave|
  {
    match Drop(cave, Source, maxY, floor)
    case Abyss => Some(Outcome(0, cave))
    case Rest(c) =>
      if floor && c.1 == 0 then Some(Outcome(1, cave + {c}))
      else if c in cave then None
      else
        RestInCone(cave, maxY, floor);
        Shrinks(Cone(Top(maxY, floor)), cave, c);
        Then(1, Pour(cave + {c}, maxY, floor))
  }

  /** The rounds that end the pouring: a lost grain, the source filled, or a grain resting on sand. */
  lemma PourEnds(cave: set<Pos>, maxY: int, floor: bool)
    requires 0 <= maxY
    ensures Drop(cave, Source, maxY, floor) == Abyss ==> Pour(cave, maxY, floor) == Some(Outcome(0, cave))
    ensures var d := Drop(cave, Source, maxY, floor);
      d.Rest? && floor && d.c.1 == 0 ==> Pour(cave, maxY, floor) == Some(Outcome(1, cave + {d.c}))
    ensures var d := Drop(cave, Source, maxY, floor);
      d.Rest? && !(floor && d.c.1 == 0) && d.c in cave ==> Pour(cave, maxY, floor).None?
  {
  }

  /** One more grain resting at a new cell adds one to the count. */
  lemma PourStep(cave: set<Pos>, c: Pos, maxY: int, floor: bool)
    requires 0 <= maxY && Drop(cave, Source, maxY, floor) == Rest(c) && c !in cave && !(floor && c.1 == 0)
    ensures forall n: nat :: Then(n, Pour(cave, maxY, floor)) == Then(n + 1, Pour(cave + {c}, maxY, floor))
  {
  }

  /** `n` more grains before an outcome. */
  function Then(n: nat, o: Option<Outcome>): Option<Outcome>
  {
    if o.None? then None else Some(Outcome(o.value.count + n, o.value.cave))
  }

  /** With a floor the pouring always ends, and it ends with the source filled. */
  lemma {:induction false} FloorEnds(cave: set<Pos>, maxY: int)
    requires 0 <= maxY
    ensures Pour(cave, maxY, true).Some? && Source in Pour(cave, maxY, true).value.cave
    decreases |Cone(Top(maxY, true)) - cave|
  {
    FloorLands(cave, Source, maxY);
    var c := Drop(cave, Source, maxY, true).c;
    DropRest(cave, Source, maxY, true);
    if c.1 == 0 {
      assert c == Source;
    } else {
      RestInCone(cave, maxY, true);
      Shrinks(Cone(Top(maxY, true)), cave, c);
      FloorEnds(cave + {c}, maxY);
    }
  }

  /** Without a floor, the pouring that ends stops at the first grain that is lost. */
  lemma {:induction false} AbyssEnds(cave: set<Pos>, maxY: int)
    requires 0 <= maxY && Pour(cave, maxY, false).Some?
    ensures Drop(Pour(cave, maxY, false).value.cave, Source, maxY, false) == Abyss
    decreases |Cone(Top(maxY, false)) - cave|
  {
    match Drop(cave, Source, maxY, false)
    case Abyss =>
    case Rest(c) =>
      RestInCone(cave, maxY, false);
      Shrinks(Cone(Top(maxY, false)), cave, c);
      AbyssEnds(cave + {c}, maxY);
  }

  /**
   * Each resting grain is inserted and counted once: the count is the
   * number of new sand cells, all within the cone, plus one when the floor
   * run ends on a source cell that was already rock.
   */
  lemma {:induction false} PourCount(cave: set<Pos>, maxY: int, floor: bool)
    requires 0 <= maxY && Pour(cave, maxY, floor).Some?
    ensures var o := Pour(cave, maxY, floor).value;
      cave <= o.cave && o.cave - cave <= Cone(Top(maxY, floor)) &&
      o.count == |o.cave - cave| + (if floor && Source in cave then 1 else 0)
    decreases |Cone(Top(maxY, floor)) - cave|
  {
    var o := Pour(cave, maxY, floor).value;
    if floor {
      FloorLands(cave, Source, maxY);
    }
    match Drop(cave, Source, maxY, floor)
    case Abyss =>
      assert o.cave - cave == {};
    case Rest(c) =>
      RestInCone(cave, maxY, floor);
      DropRest(cave, Source, maxY, floor);
      if floor && c.1 == 0 {
        SourceFilled(cave, maxY, c);
      } else {
        Shrinks(Cone(Top(maxY, floor)), cave, c);
        PourCount(cave + {c}, maxY, floor);
        var o' := Pour(cave + {c}, maxY, floor).value;
        assert o == Outcome(o'.count + 1, o'.cave);
        CountStep(cave, c, o'.cave, Cone(Top(maxY, floor)));
      }
  }

  /** The floor run whose grain rests at height 0 has filled the source and stops there. */
  lemma SourceFilled(cave: set<Pos>, maxY: int, c: Pos)
    requires 0 <= maxY && Drop(cave, Source, maxY, true) == Rest(c) && c.1 == 0
    requires Source.0 - (c.1 - Source.1) <= c.0 <= Source.0 + (c.1 - Source.1)
    ensures var o := Pour(cave, maxY, true).value;
      cave <= o.cave && o.cave - cave <= Cone(Top(maxY, true)) &&
      o.count == |o.cave - cave| + (if Source in cave then 1 else 0)
  {
    assert c == Source;
    RestInCone(cave, maxY, true);
    var o := Pour(cave, maxY, true).value;
    assert o == Outcome(1, cave + {c});
    if Source in cave {
      assert o.cave - cave == {};
    } else {
      assert o.cave - cave == {c};
    }
  }

  /** The count bookkeeping of one resting grain at a new cell `c`. */
  lemma CountStep(cave: set<Pos>, c: Pos, final: set<Pos>, cone: set<Pos>)
    requires c !in cave && c in cone && cave + {c} <= final && final - (cave + {c}) <= cone
    ensures cave <= final && final - cave <= cone && |final - cave| == |final - (cave + {c})| + 1
  {
    assert final - cave == (final - (cave + {c})) + {c};
    assert c !in final - (cave + {c});
  }

  // ---------------------------------------------------------- saved paths

  /** Each cell of the saved path is where the grain moved from the cell after it (the stack's front is the latest). */
  predicate Chain(cave: set<Pos>, s: seq<Pos>)
  {
    forall i :: 0 <= i < |s| - 1 ==> Next(cave, s[i + 1]) == Some(s[i])
  }

  /** The saved path starts at the source. */
  predicate Rooted(s: seq<Pos>)
  {
    s != [] ==> s[|s| - 1] == Source
  }

  predicate Above(s: seq<Pos>, maxY: int)
  {
    forall i :: 0 <= i < |s| ==> s[i].1 <= maxY
  }

  /** Rows fall by one along a chain. */
  lemma {:induction false} ChainDepth(cave: set<Pos>, s: seq<Pos>, i: nat)
    requires Chain(cave, s) && i < |s|
    ensures s[i].1 == s[0].1 - i
    decreases i
  {
    if i > 0 {
      ChainDepth(cave, s, i - 1);
    }
  }

  /**
   * Resuming at the latest cell of the saved path lands where a grain
   * dropped from the source lands.
   */
  lemma {:induction false} Resume(cave: set<Pos>, s: seq<Pos>, maxY: int, floor: bool)
    requires s != [] && Chain(cave, s) && Rooted(s) && Above(s, maxY) && 0 <= maxY
    ensures Drop(cave, Source, maxY, floor) == Drop(cave, s[0], maxY, floor)
    decreases |s|
  {
    if |s| > 1 {
      var t := s[1..];
      assert forall i :: 0 <= i < |t| ==> t[i] == s[i + 1];
      Resume(cave, t, maxY, floor);
      assert Next(cave, t[0]) == Some(s[0]);
    }
  }

  /**
   * After a grain rests at `c`, just past the saved path, the rest of the
   * path is still the way a grain falls: `c` lies below all of it.
   */
  lemma ChainAfterRest(cave: set<Pos>, c: Pos, s: seq<Pos>)
    requires Chain(cave, [c] + s)
    ensures Chain(cave + {c}, s)
  {
    var t := [c] + s;
    forall i | 0 <= i < |s| - 1
      ensures Next(cave + {c}, s[i + 1]) == Some(s[i])
    {
      assert t[i + 1] == s[i] && t[i + 2] == s[i + 1];
      ChainDepth(cave, t, i + 2);
      assert Next(cave, s[i + 1]) == Some(s[i]);
    }
  }

  // ----------------------------------------------------------------- cave

  class Cave {
    var cells: set<Pos>
    var maxY: int

    /** `Day14::default()`. */
    constructor ()
      ensures cells == {} && maxY == 0
    {
      cells := {};
      maxY := 0;
    }

    /**
     * `parse`: every line's segments drawn into the cave, repeated lines
     * skipped; false where a line is malformed, when the source panics.
     */
    method Parse(input: string) returns (ok: bool)
      modifies this
      ensures ok <==> Scan(Lines(input), {}, 0).Some?
      ensures ok ==> (cells, maxY) == Scan(Lines(input), {}, 0).value
      ensures !ok ==> cells == old(cells) && maxY == old(maxY)
    {
      var cave, m;
      ok, cave, m := ScanLines(Lines(input));
      if ok {
        cells, maxY := cave, m;
      }
    }

    /** Grains poured with or without the floor; `r` counts them, None where the source never stops. */
    method Fill(floor: bool) returns (r: Option<nat>)
      requires 0 <= maxY
      modifies this
      ensures maxY == old(maxY)
      ensures var o := Pour(old(cells), old(maxY), floor);
        (r.Some? <==> o.Some?) && (o.Some? ==> r.value == o.value.count && cells == o.value.cave)
    {
      ghost var cave0 := cells;
      var n := 0;
      var stack: seq<Pos> := [];
      while true
        invariant maxY == old(maxY) && 0 <= maxY
        invariant Chain(cells, stack) && Rooted(stack) && Above(stack, maxY)
        invariant Pour(cave0, maxY, floor) == Then(n, Pour(cells, maxY, floor))
        decreases |Cone(Top(maxY, floor)) - cells|
      {
        var landing, stack' := Round(stack, floor);
        PourEnds(cells, maxY, floor);
        match landing
        case Abyss =>
          return Some(n);
        case Rest(c) =>
          if floor && c.1 == 0 {
            cells := cells + {c};
            n := n + 1;
            return Some(n);
          }
          if c in cells {
            return None;
          }
          RestInCone(cells, maxY, floor);
          Shrinks(Cone(Top(maxY, floor)), cells, c);
          PourStep(cells, c, maxY, floor);
          ChainAfterRest(cells, c, stack');
          cells := cells + {c};
          n := n + 1;
          stack := stack';
      }
    }

    /** One grain, resumed from the last cell the previous grain passed (or from the source). */
    method Round(stack: seq<Pos>, floor: bool) returns (landing: Landing, stack': seq<Pos>)
      requires 0 <= maxY && Chain(cells, stack) && Rooted(stack) && Above(stack, maxY)
      ensures landing == Drop(cells, Source, maxY, floor)
      ensures landing.Rest? ==> Chain(cells, [landing.c] + stack') && Rooted([landing.c] + stack') && Above(stack', maxY)
    {
      var p := if stack == [] then Source else stack[0];
      var rest := if stack == [] then [] else stack[1..];
      assert [p] + rest == (if stack == [] then [Source] else stack);
      assert forall i :: 0 <= i < |rest| ==> rest[i] == stack[i + 1];
      Resume(cells, [p] + rest, maxY, floor);
      landing, stack' := Fall(p, rest, floor);
    }

    /**
     * The inner loop: one grain from `p`, saving each cell it leaves on the
     * front of the stack.
     */
    method Fall(p: Pos, stack0: seq<Pos>, floor: bool) returns (landing: Landing, stack: seq<Pos>)
      requires p.1 <= maxY && Chain(cells, [p] + stack0) && Rooted([p] + stack0) && Above(stack0, maxY)
      ensures landing == Drop(cells, p, maxY, floor)
      ensures landing.Rest? ==> Chain(cells, [landing.c] + stack) && Rooted([landing.c] + stack) && Above(stack, maxY)
    {
      var (x, y) := p;
      stack := stack0;
      while true
        invariant y <= maxY && Chain(cells, [(x, y)] + stack) && Rooted([(x, y)] + stack) && Above(stack, maxY)
        invariant Drop(cells, p, maxY, floor) == Drop(cells, (x, y), maxY, floor)
        decreases maxY - y
      {
        ghost var here := (x, y);
        if (x, y + 1) !in cells {
          stack := [(x, y)] + stack;
          y := y + 1;
        } else if (x - 1, y + 1) !in cells {
          stack := [(x, y)] + stack;
          x := x - 1;
          y := y + 1;
        } else if (x + 1, y + 1) !in cells {
          stack := [(x, y)] + stack;
          x := x + 1;
          y := y + 1;
        } else {
          return Rest((x, y)), stack;
        }
        assert Next(cells, here) == Some((x, y));
        if !floor && y > maxY {
          return Abyss, stack;
        }
        if floor && y + 1 == maxY + 2 {
          return Rest((x, y)), stack;
        }
      }
    }
  }

  /** The segment loop of one line: every `windows(2)` box inserted and `max_y` raised. */
  method DrawPath(path: seq<Pos>, cave: set<Pos>, m: int) returns (cave': set<Pos>, m': int)
    ensures cave' == cave + PathRocks(path) && m' == PathMax(path, m)
    ensures Drawn(path, cave', m')
  {
    cave', m' := cave, m;
    if |path| < 2 {
      return;
    }
    for i := 0 to |path| - 1
      invariant cave + PathRocks(path) == cave' + PathRocks(path[i..])
      invariant PathMax(path, m) == PathMax(path[i..], m')
    {
      assert path[i..][1..] == path[i + 1..];
      m' := Max(Max(m', path[i].1), path[i + 1].1);
      cave' := InsertBox(cave', path[i], path[i + 1]);
    }
    assert |path[|path| - 1..]| == 1;
    PathMaxMono(path, m, m');
    forall i | 0 <= i < |path| - 1
      ensures BoxIn(path[i], path[i + 1], cave')
    {
      PathRocksBoxes(path, i);
    }
  }

  lemma ScanFrom(lines: seq<string>, i: nat, cave: set<Pos>, m: int)
    requires i < |lines|
    ensures Scan(lines[i..], cave, m) == Scan([lines[i]] + lines[i + 1..], cave, m)
  {
    assert lines[i..] == [lines[i]] + lines[i + 1..];
  }

  lemma ScanDone(lines: seq<string>, cave: set<Pos>, m: int)
    ensures Scan(lines[|lines|..], cave, m) == Some((cave, m))
  {
    assert lines[|lines|..] == [];
  }

  /** The loop of `parse`, over the input's lines. */
  method ScanLines(lines: seq<string>) returns (ok: bool, cave: set<Pos>, m: int)
    ensures ok <==> Scan(lines, {}, 0).Some?
    ensures ok ==> (cave, m) == Scan(lines, {}, 0).value
  {
    cave, m := {}, 0;
    var seenLines: set<string> := {};
    for i := 0 to |lines|
      invariant Scan(lines, {}, 0) == Scan(lines[i..], cave, m)
      invariant SeenDrawn(seenLines, cave, m)
    {
      ScanFrom(lines, i, cave, m);
      var drawn;
      drawn, cave, m, seenLines := AddLine(lines[i], lines[i + 1..], cave, m, seenLines);
      if !drawn {
        return false, cave, m;
      }
    }
    ScanDone(lines, cave, m);
    ok := true;
  }

  /**
   * One line of `parse`: skipped when already seen, drawn otherwise; false
   * where it is malformed.
   */
  method AddLine(line: string, ghost rest: seq<string>, cave: set<Pos>, m: int, seen: set<string>)
    returns (ok: bool, cave': set<Pos>, m': int, seen': set<string>)
    requires SeenDrawn(seen, cave, m)
    ensures ok <==> ParsePath(line).Some?
    ensures !ok ==> Scan([line] + rest, cave, m).None?
    ensures ok ==> Scan([line] + rest, cave, m) == Scan(rest, cave', m') && SeenDrawn(seen', cave', m')
  {
    if line in seen {
      DrawnRocks(ParsePath(line).value, cave, m);
      RepeatedLine(line, rest, cave, m);
      return true, cave, m, seen;
    }
    var instructions := ParsePath(line);
    if instructions.None? {
      ScanFails(line, rest, cave, m);
      return false, cave, m, seen;
    }
    var path := instructions.value;
    assert ([line] + rest)[0] == line && ([line] + rest)[1..] == rest;
    cave', m' := DrawPath(path, cave, m);
    KeepAllDrawn(seen, cave, m, cave', m');
    seen' := seen + {line};
    ok := true;
  }

  /** Every line seen so far is drawn. */
  ghost predicate SeenDrawn(seen: set<string>, cave: set<Pos>, m: int)
  {
    forall l :: l in seen ==> ParsePath(l).Some? && Drawn(ParsePath(l).value, cave, m)
  }

  lemma KeepAllDrawn(seen: set<string>, cave: set<Pos>, m: int, cave': set<Pos>, m': int)
    requires SeenDrawn(seen, cave, m) && cave <= cave' && m <= m'
    ensures SeenDrawn(seen, cave', m')
  {
    forall l | l in seen
      ensures ParsePath(l).Some? && Drawn(ParsePath(l).value, cave', m')
    {
      KeepDrawn(ParsePath(l).value, cave, m, cave', m');
    }
  }

  lemma ScanFails(line: string, lines: seq<string>, cave: set<Pos>, m: int)
    requires ParsePath(line).None?
    ensures Scan([line] + lines, cave, m).None?
  {
    assert ([line] + lines)[0] == line;
  }

  lemma KeepDrawn(path: seq<Pos>, cave: set<Pos>, m: int, cave': set<Pos>, m': int)
    requires Drawn(path, cave, m) && cave <= cave' && m <= m'
    ensures Drawn(path, cave', m')
  {
    PathMaxMono(path, m, m');
  }
}
