/**
 * Day 12, Hill Climbing Algorithm: a height map of letters with a start
 * square 'S' (height 'a') and a target square 'E' (height 'z'). Part one is
 * the length of a shortest walk from the start to the target that climbs at
 * most one unit per step; part two is the length of a shortest such walk
 * that ends at the target and starts on any square of height 'a', found by
 * searching backwards from the target.
 *
 * Both parts are the same breadth-first search: a queue of (distance,
 * square) pairs, a `visited` grid marked when a square is expanded, and the
 * four neighbours pushed with distance + 1. The search is proved to answer
 * with the length of a real walk, to answer with a shortest one, and to
 * report "unreachable" only when no walk reaches a goal square.
 */
module Day12 {
  import opened Wrappers
  import opened Text

  /** A square as (row, column). */
  type Pos = (int, int)

  /** A queue entry: the distance walked so far and the square reached. */
  type Entry = (nat, Pos)

  datatype Hill = Hill(heights: seq<seq<int>>, start: Pos, target: Pos)

  // ---------------------------------------------------------------- parsing

  /** The height stored for a character: 'S' counts as 'a', 'E' as 'z'. */
  function Height(c: char): (h: int)
    ensures c == 'S' ==> h == 'a' as int
    ensures c == 'E' ==> h == 'z' as int
    ensures c != 'S' && c != 'E' ==> h == c as int
  {
    match c
    case 'S' => 'a' as int
    case 'E' => 'z' as int
    case _ => c as int
  }

  /** Some line is longer than the first, so writing its tail overruns the map. */
  predicate TooLong(lines: seq<string>)
  {
    |lines| > 0 && exists y :: 0 <= y < |lines| && |lines[y]| > |lines[0]|
  }

  /**
   * The map is as wide as the first line and as high as the input; a
   * square holds its character's height, and squares past the end of a
   * shorter line hold 0.
   */
  predicate Heights(lines: seq<string>, g: seq<seq<int>>)
    requires |lines| > 0
  {
    |g| == |lines| && forall y :: 0 <= y < |g| ==> |g[y]| == |lines[0]| && RowOf(lines, y, g[y])
  }

  /** Row `y` of the map: the heights of line `y`, padded with 0. */
  predicate RowOf(lines: seq<string>, y: int, row: seq<int>)
    requires 0 <= y < |lines|
  {
    forall x :: 0 <= x < |row| ==> row[x] == (if x < |lines[y]| then Height(lines[y][x]) else 0)
  }

  /** Reading order: row by row, left to right. */
  predicate Before(a: Pos, b: Pos)
  {
    a.0 < b.0 || (a.0 == b.0 && a.1 < b.1)
  }

  predicate IsMark(lines: seq<string>, ch: char, q: Pos)
  {
    0 <= q.0 < |lines| && 0 <= q.1 < |lines[q.0]| && lines[q.0][q.1] == ch
  }

  /**
   * `p` is the last `ch` read before `bound`, or (0, 0) when there is none:
   * each occurrence overwrites the recorded position, which starts at its
   * default.
   */
  ghost predicate LastBefore(lines: seq<string>, ch: char, p: Pos, bound: Pos)
  {
    (IsMark(lines, ch, p) && Before(p, bound) &&
     forall q :: IsMark(lines, ch, q) && Before(q, bound) ==> q == p || Before(q, p)) ||
    (p == (0, 0) && forall q :: IsMark(lines, ch, q) ==> !Before(q, bound))
  }

  /** `p` is the last `ch` of the whole input, or (0, 0). */
  ghost predicate LastMark(lines: seq<string>, ch: char, p: Pos)
  {
    LastBefore(lines, ch, p, (|lines|, 0))
  }

  lemma MarkStep(lines: seq<string>, ch: char, p: Pos, y: int, x: int)
    requires 0 <= y < |lines| && 0 <= x < |lines[y]|
    requires LastBefore(lines, ch, p, (y, x))
    ensures lines[y][x] == ch ==> LastBefore(lines, ch, (y, x), (y, x + 1))
    ensures lines[y][x] != ch ==> LastBefore(lines, ch, p, (y, x + 1))
  {
    if lines[y][x] == ch {
      assert IsMark(lines, ch, (y, x));
    } else {
      forall q | IsMark(lines, ch, q) && Before(q, (y, x + 1))
        ensures Before(q, (y, x))
      {
        assert q != (y, x);
      }
    }
  }

  /** Past the end of a row nothing more of that row is read. */
  lemma RowDone(lines: seq<string>, ch: char, p: Pos, y: int)
    requires 0 <= y < |lines| && LastBefore(lines, ch, p, (y, |lines[y]|))
    ensures LastBefore(lines, ch, p, (y + 1, 0))
  {
    forall q | IsMark(lines, ch, q)
      ensures Before(q, (y + 1, 0)) <==> Before(q, (y, |lines[y]|))
    {
    }
  }

  /** The inner loop of `parse`: row `y` written into a row of zeros, or false where it overruns. */
  method ReadRow(lines: seq<string>, y: nat, zeros: seq<int>, start: Pos, target: Pos)
    returns (ok: bool, row: seq<int>, start': Pos, target': Pos)
    requires y < |lines| && forall i :: 0 <= i < |zeros| ==> zeros[i] == 0
    requires LastBefore(lines, 'S', start, (y, 0)) && LastBefore(lines, 'E', target, (y, 0))
    ensures ok <==> |lines[y]| <= |zeros|
    ensures ok ==> |row| == |zeros|
    ensures ok ==> RowOf(lines, y, row)
    ensures ok ==> LastBefore(lines, 'S', start', (y + 1, 0)) && LastBefore(lines, 'E', target', (y + 1, 0))
  {
    var line := lines[y];
    var width := |zeros|;
    row, start', target' := zeros, start, target;
    for x := 0 to |line|
      invariant |row| == width && x <= width
      invariant forall i :: 0 <= i < x && i < width ==> row[i] == Height(line[i])
      invariant forall i :: x <= i < width ==> row[i] == 0
      invariant LastBefore(lines, 'S', start', (y, x)) && LastBefore(lines, 'E', target', (y, x))
    {
      if x >= width {
        return false, row, start', target';
      }
      MarkStep(lines, 'S', start', y, x);
      MarkStep(lines, 'E', target', y, x);
      match line[x]
      case 'S' =>
        row := row[x := 'a' as int];
        start' := (y, x);
      case 'E' =>
        row := row[x := 'z' as int];
        target' := (y, x);
      case _ =>
        row := row[x := line[x] as int];
    }
    RowDone(lines, 'S', start', y);
    RowDone(lines, 'E', target', y);
    ok := true;
  }

  /** The first `y` rows are read, each no longer than `width`; the rest are still zeros. */
  ghost predicate Filled(lines: seq<string>, rows: seq<seq<int>>, y: nat, width: nat)
  {
    |rows| == |lines| && y <= |lines| &&
    (forall j :: 0 <= j < |lines| ==> |rows[j]| == width) &&
    (forall j :: 0 <= j < y ==> |lines[j]| <= width && RowOf(lines, j, rows[j])) &&
    (forall j, x :: y <= j < |lines| && 0 <= x < width ==> rows[j][x] == 0)
  }

  lemma FilledStep(lines: seq<string>, rows: seq<seq<int>>, y: nat, width: nat, row: seq<int>)
    requires Filled(lines, rows, y, width) && y < |lines|
    requires |row| == width && |lines[y]| <= width && RowOf(lines, y, row)
    ensures Filled(lines, rows[y := row], y + 1, width)
  {
  }

  lemma FilledAll(lines: seq<string>, rows: seq<seq<int>>)
    requires |lines| > 0 && Filled(lines, rows, |lines|, |lines[0]|)
    ensures Heights(lines, rows) && Rect(rows)
  {
  }

  /**
   * `parse`: None where the source panics: an empty input (it has no first
   * line) or a line longer than the first (it writes past the end of a row).
   */
  method Parse(input: string) returns (r: Option<Hill>)
    ensures r.None? <==> Lines(input) == [] || TooLong(Lines(input))
    ensures r.Some? ==> Heights(Lines(input), r.value.heights) && Rect(r.value.heights)
    ensures r.Some? ==> LastMark(Lines(input), 'S', r.value.start) && LastMark(Lines(input), 'E', r.value.target)
  {
    var lines := Lines(input);
    if |lines| == 0 {
      return None;
    }
    var width := |lines[0]|;
    var rows: seq<seq<int>> := seq(|lines|, _ => seq(width, _ => 0));
    var start: Pos := (0, 0);
    var target: Pos := (0, 0);
    for y := 0 to |lines|
      invariant Filled(lines, rows, y, width)
      invariant LastBefore(lines, 'S', start, (y, 0)) && LastBefore(lines, 'E', target, (y, 0))
    {
      var ok, row;
      ok, row, start, target := ReadRow(lines, y, rows[y], start, target);
      if !ok {
        assert |lines[y]| > |lines[0]|;
        return None;
      }
      FilledStep(lines, rows, y, width, row);
      rows := rows[y := row];
    }
    FilledAll(lines, rows);
    r := Some(Hill(rows, start, target));
  }

  // ------------------------------------------------------------ the search

  /** Every row as long as the first, and at least one row. */
  predicate Rect(g: seq<seq<int>>)
  {
    |g| >= 1 && forall y :: 0 <= y < |g| ==> |g[y]| == |g[0]|
  }

  predicate InBounds(g: seq<seq<int>>, p: Pos)
  {
    0 <= p.0 < |g| && 0 <= p.1 < |g[p.0]|
  }

  function At(g: seq<seq<int>>, p: Pos): int
    requires InBounds(g, p)
  {
    g[p.0][p.1]
  }

  /** The four neighbours in the order the source tries them: up, down, left, right. */
  function Neighbour(p: Pos, k: nat): (n: Pos)
    requires k < 4
    ensures Adjacent(p, n)
  {
    match k
    case 0 => (p.0 - 1, p.1)
    case 1 => (p.0 + 1, p.1)
    case 2 => (p.0, p.1 - 1)
    case _ => (p.0, p.1 + 1)
  }

  predicate Adjacent(p: Pos, q: Pos)
  {
    (p.0 == q.0 && (q.1 == p.1 - 1 || q.1 == p.1 + 1)) ||
    (p.1 == q.1 && (q.0 == p.0 - 1 || q.0 == p.0 + 1))
  }

  /** Part one's rule: a neighbour of height `h` is at most one above `cur`. */
  predicate Climbable(h: int, cur: int)
  {
    h <= cur || h == cur + 1
  }

  /** Part two's rule, walking backwards: a neighbour at most one below `cur`. */
  predicate Descendable(h: int, cur: int)
  {
    h >= cur || h + 1 == cur
  }

  predicate Rule(backwards: bool, h: int, cur: int)
  {
    if backwards then Descendable(h, cur) else Climbable(h, cur)
  }

  /** One move of the search from `p` to the in-bounds neighbour `q`. */
  predicate Step(g: seq<seq<int>>, backwards: bool, p: Pos, q: Pos)
  {
    InBounds(g, p) && InBounds(g, q) && Adjacent(p, q) && Rule(backwards, At(g, q), At(g, p))
  }

  predicate Walk(g: seq<seq<int>>, backwards: bool, w: seq<Pos>)
  {
    |w| >= 1 && forall i :: 0 < i < |w| ==> Step(g, backwards, w[i - 1], w[i])
  }

  /** A walk that starts at `source`; its length is |w| - 1 moves. */
  predicate Reaches(g: seq<seq<int>>, backwards: bool, source: Pos, w: seq<Pos>)
  {
    Walk(g, backwards, w) && w[0] == source
  }

  /** Part one starts at 'S', part two at 'E'. */
  function Source(hill: Hill, backwards: bool): Pos
  {
    if backwards then hill.target else hill.start
  }

  /** Part one stops at 'E'; part two at any square of height 'a' (which includes 'S'). */
  predicate Goal(hill: Hill, backwards: bool, p: Pos)
  {
    if backwards then InBounds(hill.heights, p) && At(hill.heights, p) == 'a' as int
    else p == hill.target
  }

  /** No walk from the source reaches a goal in fewer than `n` moves. */
  ghost predicate NoShorter(hill: Hill, b: bool, n: int)
  {
    forall w :: Reaches(hill.heights, b, Source(hill, b), w) && Goal(hill, b, w[|w| - 1]) ==> n <= |w| - 1
  }

  /** No walk from the source reaches a goal at all. */
  ghost predicate Unreachable(hill: Hill, b: bool)
  {
    forall w :: Reaches(hill.heights, b, Source(hill, b), w) ==> !Goal(hill, b, w[|w| - 1])
  }

  /** The two rules are each other's converse. */
  lemma StepConverse(g: seq<seq<int>>, p: Pos, q: Pos)
    ensures Step(g, true, p, q) <==> Step(g, false, q, p)
  {
  }

  function Reverse(w: seq<Pos>): (r: seq<Pos>)
    ensures |r| == |w| && forall i :: 0 <= i < |w| ==> r[i] == w[|w| - 1 - i]
  {
    if w == [] then [] else Reverse(w[1..]) + [w[0]]
  }

  /**
   * A backwards walk read in reverse is a climbing walk, and conversely;
   * so part two measures climbing walks that end at 'E'.
   */
  lemma ReverseWalk(g: seq<seq<int>>, w: seq<Pos>)
    ensures Walk(g, true, w) <==> Walk(g, false, Reverse(w))
  {
    var r := Reverse(w);
    if Walk(g, true, w) {
      forall i | 0 < i < |r|
        ensures Step(g, false, r[i - 1], r[i])
      {
        var j := |w| - i;
        assert r[i - 1] == w[j] && r[i] == w[j - 1];
        StepConverse(g, w[j - 1], w[j]);
      }
    }
    if Walk(g, false, r) {
      forall i | 0 < i < |w|
        ensures Step(g, true, w[i - 1], w[i])
      {
        var j := |w| - i;
        assert r[j - 1] == w[i] && r[j] == w[i - 1];
        StepConverse(g, w[i - 1], w[i]);
      }
    }
  }

  /** Part one moves between in-bounds neighbours at most one unit higher. */
  lemma ClimbLimit(g: seq<seq<int>>, w: seq<Pos>, i: nat)
    requires Walk(g, false, w) && 0 < i < |w|
    ensures InBounds(g, w[i]) && Adjacent(w[i - 1], w[i]) && At(g, w[i]) <= At(g, w[i - 1]) + 1
  {
  }

  // ------------------------------------------------------ search invariant

  /** Distances along the queue never fall and span at most one. */
  ghost predicate Layered(q: seq<Entry>)
  {
    forall i, j :: 0 <= i < j < |q| ==> q[i].0 <= q[j].0 <= q[i].0 + 1
  }

  /** Every queue entry (d, c) comes with a walk of d moves from the source to c. */
  ghost predicate Witnessed(g: seq<seq<int>>, b: bool, source: Pos, q: seq<Entry>, paths: seq<seq<Pos>>)
  {
    |paths| == |q| &&
    forall i :: 0 <= i < |q| ==>
      Reaches(g, b, source, paths[i]) && |paths[i]| == q[i].0 + 1 && paths[i][|paths[i]| - 1] == q[i].1
  }

  /** `c` is queued with a distance at most `bound`. */
  ghost predicate Queued(q: seq<Entry>, c: Pos, bound: int)
  {
    exists i :: 0 <= i < |q| && q[i].1 == c && q[i].0 <= bound
  }

  /** The distance recorded for an expanded square is the least length of any walk to it. */
  ghost predicate Settled(g: seq<seq<int>>, b: bool, source: Pos, seen: set<Pos>, dist: map<Pos, nat>)
  {
    dist.Keys == seen &&
    forall w, j :: Reaches(g, b, source, w) && 0 <= j < |w| && w[j] in seen ==> dist[w[j]] <= j
  }

  /** The index of the first square of `w` that is not in `seen`, or |w|. */
  ghost function FirstOut(w: seq<Pos>, seen: set<Pos>): (j: nat)
    ensures j <= |w| && (forall i :: 0 <= i < j ==> w[i] in seen) && (j < |w| ==> w[j] !in seen)
  {
    if w == [] then 0
    else if w[0] !in seen then 0
    else 1 + FirstOut(w[1..], seen)
  }

  /**
   * Along every walk from the source, the first square not yet expanded is
   * queued with a distance at most its index on the walk.
   */
  ghost predicate Frontier(g: seq<seq<int>>, b: bool, source: Pos, seen: set<Pos>, q: seq<Entry>)
  {
    forall w :: Reaches(g, b, source, w) && FirstOut(w, seen) < |w| ==>
      Queued(q, w[FirstOut(w, seen)], FirstOut(w, seen))
  }

  /** Each move out of an expanded square leads to an expanded square or to the queue. */
  ghost predicate Closed(g: seq<seq<int>>, b: bool, seen: set<Pos>, dist: map<Pos, nat>, q: seq<Entry>)
  {
    dist.Keys == seen &&
    forall p, c :: p in seen && Step(g, b, p, c) ==> c in seen || Queued(q, c, dist[p] + 1)
  }

  ghost predicate NoGoalSeen(hill: Hill, b: bool, seen: set<Pos>)
  {
    forall p :: p in seen ==> !Goal(hill, b, p)
  }

  /** Only the source can be outside the map; neighbours are checked first. */
  ghost predicate InGrid(g: seq<seq<int>>, source: Pos, q: seq<Entry>)
  {
    forall i :: 0 <= i < |q| ==> InBounds(g, q[i].1) || q[i].1 == source
  }

  ghost predicate Inv(hill: Hill, b: bool, seen: set<Pos>, dist: map<Pos, nat>, q: seq<Entry>, paths: seq<seq<Pos>>)
  {
    var g := hill.heights;
    var source := Source(hill, b);
    Layered(q) && Witnessed(g, b, source, q, paths) && Settled(g, b, source, seen, dist) &&
    Frontier(g, b, source, seen, q) && Closed(g, b, seen, dist, q) && NoGoalSeen(hill, b, seen) &&
    InGrid(g, source, q)
  }

  lemma InvInit(hill: Hill, b: bool)
    ensures Inv(hill, b, {}, map[], [(0, Source(hill, b))], [[Source(hill, b)]])
  {
    var source := Source(hill, b);
    var q: seq<Entry> := [(0, source)];
    forall w | Reaches(hill.heights, b, source, w) && FirstOut(w, {}) < |w|
      ensures Queued(q, w[FirstOut(w, {})], FirstOut(w, {}))
    {
      assert q[0].1 == w[0];
    }
  }

  /** A prefix of a walk is a walk. */
  lemma PrefixReaches(g: seq<seq<int>>, b: bool, source: Pos, w: seq<Pos>, j: nat)
    requires Reaches(g, b, source, w) && j < |w|
    ensures Reaches(g, b, source, w[..j + 1])
  {
    var pre := w[..j + 1];
    forall i | 0 < i < |pre|
      ensures Step(g, b, pre[i - 1], pre[i])
    {
      assert pre[i - 1] == w[i - 1] && pre[i] == w[i];
    }
  }

  /** An entry of `q` other than its first survives into `q[1..] + extra`. */
  lemma QueuedShift(q: seq<Entry>, extra: seq<Entry>, c: Pos, bound: int, i: nat)
    requires 0 < i < |q| && q[i].1 == c && q[i].0 <= bound
    ensures Queued(q[1..] + extra, c, bound)
  {
    assert (q[1..] + extra)[i - 1] == q[i];
  }

  lemma QueuedAppend(q: seq<Entry>, extra: seq<Entry>, c: Pos, bound: int)
    requires Queued(extra, c, bound)
    ensures Queued(q + extra, c, bound)
  {
    var i :| 0 <= i < |extra| && extra[i].1 == c && extra[i].0 <= bound;
    assert (q + extra)[|q| + i] == extra[i];
  }

  /** A queued square whose first entry is not the head of the queue survives a pop. */
  lemma QueuedPop(q: seq<Entry>, extra: seq<Entry>, c: Pos, bound: int)
    requires Queued(q, c, bound) && q[0].1 != c
    ensures Queued(q[1..] + extra, c, bound)
  {
    var i :| 0 <= i < |q| && q[i].1 == c && q[i].0 <= bound;
    QueuedShift(q, extra, c, bound, i);
  }

  /**
   * The frontier survives once the head of the queue is expanded (or found
   * already expanded), provided the new state is closed and settled.
   */
  lemma FrontierKept(hill: Hill, b: bool, seen: set<Pos>, q: seq<Entry>,
                     seen': set<Pos>, dist': map<Pos, nat>, extra: seq<Entry>)
    requires |q| >= 1 && q[0].1 in seen' && seen <= seen'
    requires Frontier(hill.heights, b, Source(hill, b), seen, q)
    requires Closed(hill.heights, b, seen', dist', q[1..] + extra)
    requires Settled(hill.heights, b, Source(hill, b), seen', dist')
    ensures Frontier(hill.heights, b, Source(hill, b), seen', q[1..] + extra)
  {
    var g, source, q' := hill.heights, Source(hill, b), q[1..] + extra;
    forall w | Reaches(g, b, source, w) && FirstOut(w, seen') < |w|
      ensures Queued(q', w[FirstOut(w, seen')], FirstOut(w, seen'))
    {
      var j := FirstOut(w, seen');
      if j == 0 {
        assert FirstOut(w, seen) == 0;
        QueuedPop(q, extra, w[0], 0);
      } else {
        var prev := w[j - 1];
        assert Step(g, b, prev, w[j]);
        assert dist'[prev] <= j - 1;
        var i :| 0 <= i < |q'| && q'[i].1 == w[j] && q'[i].0 <= dist'[prev] + 1;
        assert q'[i].0 <= j;
      }
    }
  }

  /** Popping an already expanded square keeps the invariant. */
  lemma PopSeen(hill: Hill, b: bool, seen: set<Pos>, dist: map<Pos, nat>, q: seq<Entry>, paths: seq<seq<Pos>>)
    requires Inv(hill, b, seen, dist, q, paths) && |q| >= 1 && q[0].1 in seen
    ensures Inv(hill, b, seen, dist, q[1..], paths[1..])
  {
    var g, source, q' := hill.heights, Source(hill, b), q[1..];
    assert q' == q[1..] + [];
    forall a, c | a in seen && Step(g, b, a, c)
      ensures c in seen || Queued(q', c, dist[a] + 1)
    {
      if c !in seen {
        QueuedPop(q, [], c, dist[a] + 1);
      }
    }
    FrontierKept(hill, b, seen, q, seen, dist, []);
    TailKept(hill.heights, b, source, q, paths);
  }

  /** Dropping the head of the queue keeps its layers, walks and grid positions. */
  lemma TailKept(g: seq<seq<int>>, b: bool, source: Pos, q: seq<Entry>, paths: seq<seq<Pos>>)
    requires |q| >= 1 && Layered(q) && Witnessed(g, b, source, q, paths) && InGrid(g, source, q)
    ensures Layered(q[1..]) && Witnessed(g, b, source, q[1..], paths[1..]) && InGrid(g, source, q[1..])
  {
    var q', paths' := q[1..], paths[1..];
    forall i | 0 <= i < |q'|
      ensures q'[i] == q[i + 1] && paths'[i] == paths[i + 1]
    {
    }
  }

  /** The newly expanded square's distance is least: an earlier frontier square bounds it. */
  lemma SettleHead(hill: Hill, b: bool, seen: set<Pos>, dist: map<Pos, nat>, q: seq<Entry>)
    requires |q| >= 1 && q[0].1 !in seen && Layered(q)
    requires Settled(hill.heights, b, Source(hill, b), seen, dist)
    requires Frontier(hill.heights, b, Source(hill, b), seen, q)
    ensures Settled(hill.heights, b, Source(hill, b), seen + {q[0].1}, dist[q[0].1 := q[0].0])
  {
    var g, source := hill.heights, Source(hill, b);
    var (d, p) := q[0];
    var seen', dist' := seen + {p}, dist[p := d];
    forall w, j | Reaches(g, b, source, w) && 0 <= j < |w| && w[j] in seen'
      ensures dist'[w[j]] <= j
    {
      if w[j] == p {
        var pre := w[..j + 1];
        PrefixReaches(g, b, source, w, j);
        var k := FirstOut(pre, seen);
        assert pre[j] == p;
        assert k <= j;
        var i :| 0 <= i < |q| && q[i].1 == pre[k] && q[i].0 <= k;
        assert q[0].0 <= q[i].0;
      }
    }
  }

  /** The entries that expanding `p` at distance `d` pushes, neighbours 0 to k - 1. */
  function Candidates(g: seq<seq<int>>, b: bool, p: Pos, d: nat, k: nat): seq<Entry>
    requires InBounds(g, p) && k <= 4
  {
    if k == 0 then []
    else
      var n := Neighbour(p, k - 1);
      Candidates(g, b, p, d, k - 1) +
      (if InBounds(g, n) && Rule(b, At(g, n), At(g, p)) then [(d + 1, n)] else [])
  }

  /** Every pushed entry is one move on, at distance d + 1. */
  lemma {:induction false} CandidatesSound(g: seq<seq<int>>, b: bool, p: Pos, d: nat, k: nat)
    requires InBounds(g, p) && k <= 4
    ensures forall i :: 0 <= i < |Candidates(g, b, p, d, k)| ==>
      Candidates(g, b, p, d, k)[i].0 == d + 1 && Step(g, b, p, Candidates(g, b, p, d, k)[i].1)
  {
    if k > 0 {
      CandidatesSound(g, b, p, d, k - 1);
    }
  }

  /** Every move out of `p` among neighbours 0 to k - 1 is pushed. */
  lemma {:induction false} CandidatesComplete(g: seq<seq<int>>, b: bool, p: Pos, d: nat, k: nat, j: nat)
    requires InBounds(g, p) && j < k <= 4 && Step(g, b, p, Neighbour(p, j))
    ensures Queued(Candidates(g, b, p, d, k), Neighbour(p, j), d + 1)
  {
    var prev := Candidates(g, b, p, d, k - 1);
    var all := Candidates(g, b, p, d, k);
    if j == k - 1 {
      assert all[|prev|] == (d + 1, Neighbour(p, j));
    } else {
      CandidatesComplete(g, b, p, d, k - 1, j);
      var i :| 0 <= i < |prev| && prev[i].1 == Neighbour(p, j) && prev[i].0 <= d + 1;
      assert all[i] == prev[i];
    }
  }

  lemma AllMovesPushed(g: seq<seq<int>>, b: bool, p: Pos, d: nat, c: Pos)
    requires Step(g, b, p, c)
    ensures Queued(Candidates(g, b, p, d, 4), c, d + 1)
  {
    var j: nat := if c == Neighbour(p, 0) then 0 else if c == Neighbour(p, 1) then 1
                  else if c == Neighbour(p, 2) then 2 else 3;
    CandidatesComplete(g, b, p, d, 4, j);
  }

  /** Each pushed entry's walk: the head's walk extended by the pushed square. */
  ghost function Extended(path: seq<Pos>, pushed: seq<Entry>): (r: seq<seq<Pos>>)
    ensures |r| == |pushed| && forall i :: 0 <= i < |pushed| ==> r[i] == path + [pushed[i].1]
  {
    seq(|pushed|, i requires 0 <= i < |pushed| => path + [pushed[i].1])
  }

  /** All of `pushed` is one move on from `p`, at distance d + 1. */
  ghost predicate PushedFrom(g: seq<seq<int>>, b: bool, p: Pos, d: nat, pushed: seq<Entry>)
  {
    forall i :: 0 <= i < |pushed| ==> pushed[i].0 == d + 1 && Step(g, b, p, pushed[i].1)
  }

  lemma LayeredPush(q: seq<Entry>, pushed: seq<Entry>)
    requires |q| >= 1 && Layered(q) && forall i :: 0 <= i < |pushed| ==> pushed[i].0 == q[0].0 + 1
    ensures Layered(q[1..] + pushed)
  {
    var q' := q[1..] + pushed;
    forall i, j | 0 <= i < j < |q'|
      ensures q'[i].0 <= q'[j].0 <= q'[i].0 + 1
    {
      if j < |q| - 1 {
        assert q'[i] == q[i + 1] && q'[j] == q[j + 1];
      } else if i < |q| - 1 {
        assert q'[i] == q[i + 1] && q'[j] == pushed[j - |q| + 1];
        assert q[0].0 <= q[i + 1].0 <= q[0].0 + 1;
      } else {
        assert q'[i] == pushed[i - |q| + 1] && q'[j] == pushed[j - |q| + 1];
      }
    }
  }

  lemma WitnessedPush(g: seq<seq<int>>, b: bool, source: Pos, q: seq<Entry>, paths: seq<seq<Pos>>, pushed: seq<Entry>)
    requires |q| >= 1 && Witnessed(g, b, source, q, paths) && PushedFrom(g, b, q[0].1, q[0].0, pushed)
    ensures Witnessed(g, b, source, q[1..] + pushed, paths[1..] + Extended(paths[0], pushed))
  {
    var q', paths' := q[1..] + pushed, paths[1..] + Extended(paths[0], pushed);
    forall i | 0 <= i < |q'|
      ensures Reaches(g, b, source, paths'[i]) && |paths'[i]| == q'[i].0 + 1 && paths'[i][|paths'[i]| - 1] == q'[i].1
    {
      if i < |q| - 1 {
        assert q'[i] == q[i + 1] && paths'[i] == paths[i + 1];
      } else {
        var k := i - |q| + 1;
        assert q'[i] == pushed[k] && paths'[i] == paths[0] + [pushed[k].1];
        var w := paths'[i];
        forall m | 0 < m < |w|
          ensures Step(g, b, w[m - 1], w[m])
        {
          if m < |w| - 1 {
            assert w[m - 1] == paths[0][m - 1] && w[m] == paths[0][m];
          }
        }
      }
    }
  }

  lemma InGridPush(g: seq<seq<int>>, b: bool, source: Pos, q: seq<Entry>, pushed: seq<Entry>)
    requires |q| >= 1 && InGrid(g, source, q) && PushedFrom(g, b, q[0].1, q[0].0, pushed)
    ensures InGrid(g, source, q[1..] + pushed)
  {
    var q' := q[1..] + pushed;
    forall i | 0 <= i < |q'|
      ensures InBounds(g, q'[i].1) || q'[i].1 == source
    {
      if i < |q| - 1 {
        assert q'[i] == q[i + 1];
      } else {
        assert q'[i] == pushed[i - |q| + 1];
      }
    }
  }

  lemma ClosedPush(g: seq<seq<int>>, b: bool, seen: set<Pos>, dist: map<Pos, nat>, q: seq<Entry>)
    requires |q| >= 1 && InBounds(g, q[0].1) && Closed(g, b, seen, dist, q)
    ensures var (d, p) := q[0];
      Closed(g, b, seen + {p}, dist[p := d], q[1..] + Candidates(g, b, p, d, 4))
  {
    var (d, p) := q[0];
    var pushed := Candidates(g, b, p, d, 4);
    var seen', dist', q' := seen + {p}, dist[p := d], q[1..] + pushed;
    forall a, c | a in seen' && Step(g, b, a, c)
      ensures c in seen' || Queued(q', c, dist'[a] + 1)
    {
      if a == p {
        AllMovesPushed(g, b, p, d, c);
        QueuedAppend(q[1..], pushed, c, d + 1);
      } else if c !in seen' {
        assert c in seen || Queued(q, c, dist[a] + 1);
        QueuedPop(q, pushed, c, dist[a] + 1);
      }
    }
  }

  /** Expanding a square not yet expanded keeps the invariant. */
  lemma PopNew(hill: Hill, b: bool, seen: set<Pos>, dist: map<Pos, nat>, q: seq<Entry>, paths: seq<seq<Pos>>)
    requires Inv(hill, b, seen, dist, q, paths) && |q| >= 1 && q[0].1 !in seen
    requires InBounds(hill.heights, q[0].1) && !Goal(hill, b, q[0].1)
    ensures var pushed := Candidates(hill.heights, b, q[0].1, q[0].0, 4);
      Inv(hill, b, seen + {q[0].1}, dist[q[0].1 := q[0].0], q[1..] + pushed, paths[1..] + Extended(paths[0], pushed))
  {
    var g, source := hill.heights, Source(hill, b);
    var (d, p) := q[0];
    var pushed := Candidates(g, b, p, d, 4);
    CandidatesSound(g, b, p, d, 4);
    assert PushedFrom(g, b, p, d, pushed);
    LayeredPush(q, pushed);
    WitnessedPush(g, b, source, q, paths, pushed);
    InGridPush(g, b, source, q, pushed);
    ClosedPush(g, b, seen, dist, q);
    SettleHead(hill, b, seen, dist, q);
    FrontierKept(hill, b, seen, q, seen + {p}, dist[p := d], pushed);
  }

  // ---------------------------------------------------------------- answers

  /** The head of the queue is a goal: its distance is that of a shortest walk to any goal. */
  lemma GoalFirst(hill: Hill, b: bool, seen: set<Pos>, dist: map<Pos, nat>, q: seq<Entry>, paths: seq<seq<Pos>>)
    requires Inv(hill, b, seen, dist, q, paths) && |q| >= 1 && Goal(hill, b, q[0].1)
    ensures NoShorter(hill, b, q[0].0)
  {
    forall w | Reaches(hill.heights, b, Source(hill, b), w) && Goal(hill, b, w[|w| - 1])
      ensures q[0].0 <= |w| - 1
    {
      var j := FirstOut(w, seen);
      assert w[|w| - 1] !in seen;
      var i :| 0 <= i < |q| && q[i].1 == w[j] && q[i].0 <= j;
      assert q[0].0 <= q[i].0;
    }
  }

  /** An empty queue: every walk from the source stays among expanded squares, none a goal. */
  lemma Exhausted(hill: Hill, b: bool, seen: set<Pos>, dist: map<Pos, nat>, paths: seq<seq<Pos>>)
    requires Inv(hill, b, seen, dist, [], paths)
    ensures Unreachable(hill, b)
  {
    forall w | Reaches(hill.heights, b, Source(hill, b), w)
      ensures !Goal(hill, b, w[|w| - 1])
    {
      assert FirstOut(w, seen) == |w|;
      assert w[|w| - 1] in seen;
    }
  }

  /** A walk from a square outside the map cannot move, so only a goal source is reachable. */
  lemma Stuck(hill: Hill, b: bool)
    requires !InBounds(hill.heights, Source(hill, b)) && !Goal(hill, b, Source(hill, b))
    ensures Unreachable(hill, b)
  {
    forall w | Reaches(hill.heights, b, Source(hill, b), w)
      ensures !Goal(hill, b, w[|w| - 1])
    {
      assert |w| == 1 || Step(hill.heights, b, w[0], w[1]);
    }
  }

  ghost function Cells(g: seq<seq<int>>): set<Pos>
  {
    set y, x | 0 <= y < |g| && 0 <= x < |g[y]| :: (y, x)
  }

  ghost predicate Mirrors(visited: array2<bool>, seen: set<Pos>)
    reads visited
  {
    forall y, x :: 0 <= y < visited.Length0 && 0 <= x < visited.Length1 ==> (visited[y, x] <==> (y, x) in seen)
  }

  /** `visited[y][x] = true`. */
  method Mark(visited: array2<bool>, y: int, x: int, ghost seen: set<Pos>)
    requires 0 <= y < visited.Length0 && 0 <= x < visited.Length1 && Mirrors(visited, seen)
    modifies visited
    ensures Mirrors(visited, seen + {(y, x)})
  {
    visited[y, x] := true;
  }

  /** The neighbour loop of one expansion: the entries it pushes, in order. */
  method Expand(g: seq<seq<int>>, b: bool, p: Pos, d: nat) returns (pushed: seq<Entry>)
    requires InBounds(g, p)
    ensures pushed == Candidates(g, b, p, d, 4)
  {
    var (y, x) := p;
    var current := g[y][x];
    pushed := [];
    for k := 0 to 4
      invariant pushed == Candidates(g, b, p, d, k)
    {
      var (ny, nx) := Neighbour(p, k);
      if ny < 0 || nx < 0 {
        continue;
      }
      var valid := ny < |g| && nx < |g[ny]| && (if b then g[ny][nx] >= current || g[ny][nx] + 1 == current
                                                 else g[ny][nx] <= current || g[ny][nx] == current + 1);
      if valid {
        pushed := pushed + [(d + 1, (ny, nx))];
      }
    }
  }

  /**
   * One turn of the loop after the goal and bounds checks: skip the head if
   * it was expanded already, otherwise mark it and push its moves.
   */
  method Visit(hill: Hill, b: bool, visited: array2<bool>, queue: seq<Entry>,
               ghost seen: set<Pos>, ghost dist: map<Pos, nat>, ghost paths: seq<seq<Pos>>)
    returns (queue': seq<Entry>, ghost seen': set<Pos>, ghost dist': map<Pos, nat>, ghost paths': seq<seq<Pos>>)
    requires Rect(hill.heights) && visited.Length0 == |hill.heights| && visited.Length1 == |hill.heights[0]|
    requires queue != [] && InBounds(hill.heights, queue[0].1) && !Goal(hill, b, queue[0].1)
    requires Mirrors(visited, seen) && seen <= Cells(hill.heights) && Inv(hill, b, seen, dist, queue, paths)
    modifies visited
    ensures Mirrors(visited, seen') && seen' <= Cells(hill.heights) && Inv(hill, b, seen', dist', queue', paths')
    ensures (seen' == seen && |queue'| < |queue|) || |Cells(hill.heights) - seen'| < |Cells(hill.heights) - seen|
  {
    var (d, pos) := queue[0];
    if visited[pos.0, pos.1] {
      PopSeen(hill, b, seen, dist, queue, paths);
      return queue[1..], seen, dist, paths[1..];
    }
    Mark(visited, pos.0, pos.1, seen);
    var pushed := Expand(hill.heights, b, pos, d);
    PopNew(hill, b, seen, dist, queue, paths);
    var g := hill.heights;
    assert pos in Cells(g) - seen;
    assert Cells(g) - (seen + {pos}) < Cells(g) - seen;
    queue', paths' := queue[1..] + pushed, paths[1..] + Extended(paths[0], pushed);
    seen', dist' := seen + {pos}, dist[pos := d];
  }

  /**
   * part1 (backwards = false) and part2 (backwards = true). A result is the
   * length of a walk from the source to a goal square and no walk to a goal
   * is shorter; None (where the source panics) means no walk reaches a goal.
   */
  method Search(hill: Hill, b: bool) returns (r: Option<nat>, ghost path: seq<Pos>)
    requires Rect(hill.heights)
    ensures r.Some? ==> Reaches(hill.heights, b, Source(hill, b), path) && |path| == r.value + 1 &&
                        Goal(hill, b, path[|path| - 1])
    ensures r.Some? ==> NoShorter(hill, b, r.value)
    ensures r.None? ==> Unreachable(hill, b)
  {
    var g := hill.heights;
    var source := Source(hill, b);
    var queue: seq<Entry> := [(0, source)];
    ghost var paths: seq<seq<Pos>> := [[source]];
    var visited := new bool[|g|, |g[0]|]((_, _) => false);
    InvInit(hill, b);
    r, path := Drain(hill, b, visited, queue, {}, map[], paths);
  }

  /** The loop of the search, from a queue and an expanded set that keep the invariant. */
  method Drain(hill: Hill, b: bool, visited: array2<bool>, queue0: seq<Entry>,
               ghost seen0: set<Pos>, ghost dist0: map<Pos, nat>, ghost paths0: seq<seq<Pos>>)
    returns (r: Option<nat>, ghost path: seq<Pos>)
    requires Rect(hill.heights) && visited.Length0 == |hill.heights| && visited.Length1 == |hill.heights[0]|
    requires Mirrors(visited, seen0) && seen0 <= Cells(hill.heights) && Inv(hill, b, seen0, dist0, queue0, paths0)
    modifies visited
    ensures r.Some? ==> Reaches(hill.heights, b, Source(hill, b), path) && |path| == r.value + 1 &&
                        Goal(hill, b, path[|path| - 1])
    ensures r.Some? ==> NoShorter(hill, b, r.value)
    ensures r.None? ==> Unreachable(hill, b)
  {
    var g := hill.heights;
    var queue := queue0;
    ghost var seen, dist, paths := seen0, dist0, paths0;
    while queue != []
      invariant Mirrors(visited, seen) && seen <= Cells(g)
      invariant Inv(hill, b, seen, dist, queue, paths)
      decreases |Cells(g) - seen|, |queue|
    {
      var (d, pos) := queue[0];
      if Goal(hill, b, pos) {
        GoalFirst(hill, b, seen, dist, queue, paths);
        return Some(d), paths[0];
      }
      if !InBounds(g, pos) {
        Stuck(hill, b);
        return None, [];
      }
      queue, seen, dist, paths := Visit(hill, b, visited, queue, seen, dist, paths);
    }
    Exhausted(hill, b, seen, dist, paths);
    return None, [];
  }
}
