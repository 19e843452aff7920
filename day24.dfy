/**
 * Day 24: a valley walled in by '#', with blizzards '>', '<', 'v' and '^'
 * that move one cell a minute and wrap around inside the walls. The
 * expedition moves or waits each minute and must never share a cell with
 * a blizzard. Part 1 is the earliest arrival at the exit; part 2 goes to
 * the exit, back to the entrance and to the exit again.
 *
 * Interior cells have row 1 ..= colLength and column 1 ..= rowLength; the
 * entrance is (0, 1) and the exit (colLength + 1, rowLength).
 */
module Day24 {
  import opened Wrappers
  import opened Text

  /** (row, column). */
  type Coord = (int, int)

  /**
   * A blizzard by where it starts along its row or column and its offset:
   * -1 for '>' and 'v', 1 for '<' and '^'.
   */
  datatype Blizzard = Blizzard(start: nat, offset: int)

  /** `Day24`: the interior's width and height and the blizzards of every row and column. */
  datatype Valley = Valley(rowLength: nat, colLength: nat, rows: seq<seq<Blizzard>>, cols: seq<seq<Blizzard>>)

  // ------------------------------------------------------------ parsing

  /** The horizontal blizzards among the first `n` characters of a line, left to right. */
  function RowOf(line: string, n: nat): seq<Blizzard>
    requires n <= |line|
  {
    if n == 0 then []
    else RowOf(line, n - 1) + (if line[n - 1] == '>' then [Blizzard(n - 1, -1)]
                               else if line[n - 1] == '<' then [Blizzard(n - 1, 1)] else [])
  }

  /** The vertical blizzard, if any, that line `y` holds in column `x`. */
  function CellOf(line: string, x: nat, y: nat): seq<Blizzard>
  {
    if x < |line| && line[x] == 'v' then [Blizzard(y, -1)]
    else if x < |line| && line[x] == '^' then [Blizzard(y, 1)] else []
  }

  /** The vertical blizzards of column `x` among the first `n` lines, top to bottom. */
  function ColOf(lines: seq<string>, x: nat, n: nat): seq<Blizzard>
    requires n <= |lines|
  {
    if n == 0 then [] else ColOf(lines, x, n - 1) + CellOf(lines[n - 1], x, n - 1)
  }

  /** A row list holds one blizzard for each '>' (offset -1) or '<' (offset 1) of the line, and nothing else. */
  lemma {:induction false} RowOfMeaning(line: string, n: nat, b: Blizzard)
    requires n <= |line|
    ensures b in RowOf(line, n) <==>
      b.start < n && ((line[b.start] == '>' && b.offset == -1) || (line[b.start] == '<' && b.offset == 1))
  {
    if n > 0 {
      RowOfMeaning(line, n - 1, b);
    }
  }

  /** A column list holds one blizzard for each 'v' (offset -1) or '^' (offset 1) in that column, and nothing else. */
  lemma {:induction false} ColOfMeaning(lines: seq<string>, x: nat, n: nat, b: Blizzard)
    requires n <= |lines|
    ensures b in ColOf(lines, x, n) <==>
      b.start < n && x < |lines[b.start]|
      && ((lines[b.start][x] == 'v' && b.offset == -1) || (lines[b.start][x] == '^' && b.offset == 1))
  {
    if n > 0 {
      ColOfMeaning(lines, x, n - 1, b);
    }
  }

  /** The input has a top row and a bottom row, and no vertical blizzard right of the first line's end. */
  predicate Shaped(lines: seq<string>)
  {
    |lines| >= 2 && |lines[0]| >= 2
    && forall y, x :: 0 <= y < |lines| && 0 <= x < |lines[y]| && lines[y][x] in "v^" ==> x < |lines[0]|
  }

  /**
   * `parse`: sizes from the line count and the first line, then every
   * blizzard pushed onto its row's or its column's list. None is a panic:
   * fewer than two lines or a first line shorter than two characters
   * (the subtraction underflows), or a vertical blizzard in a column the
   * first line does not reach (the `get_mut(x).unwrap()`).
   */
  method Parse(input: string) returns (r: Option<Valley>)
    ensures r.None? <==> !Shaped(Lines(input))
    ensures r.Some? ==> var lines := Lines(input);
      r.value.rowLength == |lines[0]| - 2 && r.value.colLength == |lines| - 2
      && |r.value.rows| == |lines| && (forall y :: 0 <= y < |lines| ==> r.value.rows[y] == RowOf(lines[y], |lines[y]|))
      && |r.value.cols| == |lines[0]| && forall x :: 0 <= x < |lines[0]| ==> r.value.cols[x] == ColOf(lines, x, |lines|)
  {
    var lines := Lines(input);
    if |lines| < 2 || |lines[0]| < 2 {
      return None;
    }
    var rows: seq<seq<Blizzard>> := [];
    var cols: seq<seq<Blizzard>> := seq(|lines[0]|, _ => []);
    for y := 0 to |lines|
      invariant |rows| == y && |cols| == |lines[0]|
      invariant forall j :: 0 <= j < y ==> rows[j] == RowOf(lines[j], |lines[j]|)
      invariant forall c :: 0 <= c < |cols| ==> cols[c] == ColOf(lines, c, y)
      invariant forall j, c :: 0 <= j < y && 0 <= c < |lines[j]| && lines[j][c] in "v^" ==> c < |lines[0]|
    {
      var row, ok;
      row, cols, ok := ScanLine(lines, y, cols);
      if !ok {
        return None;
      }
      rows := rows + [row];
    }
    r := Some(Valley(|lines[0]| - 2, |lines| - 2, rows, cols));
  }

  /**
   * The inner loop of `parse` over line `y`: its horizontal blizzards as the
   * row list, its vertical ones pushed onto their columns' lists; `ok` is
   * false where a vertical blizzard has no column list.
   */
  method ScanLine(lines: seq<string>, y: nat, cols: seq<seq<Blizzard>>) returns (row: seq<Blizzard>, cols': seq<seq<Blizzard>>, ok: bool)
    requires y < |lines| && |lines| > 0 && |cols| == |lines[0]|
    requires forall c :: 0 <= c < |cols| ==> cols[c] == ColOf(lines, c, y)
    ensures ok <==> forall c :: 0 <= c < |lines[y]| && lines[y][c] in "v^" ==> c < |lines[0]|
    ensures ok ==> row == RowOf(lines[y], |lines[y]|) && |cols'| == |cols|
    ensures ok ==> forall c :: 0 <= c < |cols'| ==> cols'[c] == ColOf(lines, c, y + 1)
  {
    var line := lines[y];
    row, cols' := [], cols;
    for x := 0 to |line|
      invariant |cols'| == |lines[0]|
      invariant row == RowOf(line, x)
      invariant forall c :: 0 <= c < |cols'| ==> cols'[c] == ColOf(lines, c, y) + (if c < x then CellOf(line, c, y) else [])
      invariant forall c :: 0 <= c < x && line[c] in "v^" ==> c < |lines[0]|
    {
      var ch := line[x];
      if ch == '>' {
        row := row + [Blizzard(x, -1)];
      } else if ch == '<' {
        row := row + [Blizzard(x, 1)];
      } else if ch == 'v' || ch == '^' {
        if x >= |cols'| {
          return row, cols', false;
        }
        cols' := cols'[x := cols'[x] + [Blizzard(y, if ch == 'v' then -1 else 1)]];
      }
    }
    forall c | 0 <= c < |cols'|
      ensures cols'[c] == ColOf(lines, c, y + 1)
    {
      if c >= |line| {
        assert CellOf(line, c, y) == [];
      }
    }
    ok := true;
  }

  // ------------------------------------------------------------ blizzards

  /** Blizzard `b` is on coordinate `a` of its row or column at `time`, in an interior of `len` cells. */
  predicate Hit(a: int, b: Blizzard, time: nat, len: nat)
    requires len > 0
  {
    (a - 1 + b.offset * time) % len == b.start - 1
  }

  predicate RowPart(v: Valley, c: Coord, time: nat)
    requires v.rowLength > 0
  {
    0 <= c.0 < |v.rows| && exists i :: 0 <= i < |v.rows[c.0]| && Hit(c.1, v.rows[c.0][i], time, v.rowLength)
  }

  predicate ColPart(v: Valley, c: Coord, time: nat)
    requires v.colLength > 0
  {
    0 <= c.1 < |v.cols| && exists i :: 0 <= i < |v.cols[c.1]| && Hit(c.0, v.cols[c.1][i], time, v.colLength)
  }

  /**
   * `is_blizzard_at`: some blizzard of the cell's row or of its column is
   * there at `time`. A row or column outside the lists has none.
   */
  predicate IsBlizzardAt(v: Valley, c: Coord, time: nat)
    requires v.rowLength > 0 && v.colLength > 0
  {
    RowPart(v, c, time) || ColPart(v, c, time)
  }

  lemma MulPos(d: int, len: nat)
    requires d >= 1 && len > 0
    ensures d * len >= len
  {
    var e := d - 1;
    assert d * len == e * len + len;
    assert e * len >= 0;
  }

  lemma ModUnique(x: int, q: int, r: int, len: nat)
    requires len > 0 && 0 <= r < len && x == q * len + r
    ensures x % len == r
  {
    var q0, r0 := x / len, x % len;
    assert x == q0 * len + r0;
    var d := q - q0;
    assert d * len == r0 - r;
    if d >= 1 {
      MulPos(d, len);
    } else if d <= -1 {
      MulPos(-d, len);
    }
  }

  lemma ModShift(x: int, len: nat)
    requires len > 0
    ensures (x + len) % len == x % len && (x - len) % len == x % len
  {
    var q, r := x / len, x % len;
    assert x == q * len + r;
    assert x + len == (q + 1) * len + r;
    assert x - len == (q - 1) * len + r;
    ModUnique(x + len, q + 1, r, len);
    ModUnique(x - len, q - 1, r, len);
  }

  /** A blizzard comes back to the same place after as many minutes as its line has cells. */
  lemma HitPeriodic(a: int, b: Blizzard, time: nat, len: nat)
    requires len > 0 && b.offset in {-1, 1}
    ensures Hit(a, b, time + len, len) == Hit(a, b, time, len)
  {
    var x := a - 1 + b.offset * time;
    assert a - 1 + b.offset * (time + len) == x + b.offset * len;
    ModShift(x, len);
  }

  /** The row part repeats every `rowLength` minutes and the column part every `colLength` minutes. */
  lemma Periodic(v: Valley, c: Coord, time: nat)
    requires v.rowLength > 0 && v.colLength > 0
    requires forall y, i :: 0 <= y < |v.rows| && 0 <= i < |v.rows[y]| ==> v.rows[y][i].offset in {-1, 1}
    requires forall x, i :: 0 <= x < |v.cols| && 0 <= i < |v.cols[x]| ==> v.cols[x][i].offset in {-1, 1}
    ensures RowPart(v, c, time + v.rowLength) == RowPart(v, c, time)
    ensures ColPart(v, c, time + v.colLength) == ColPart(v, c, time)
  {
    if 0 <= c.0 < |v.rows| {
      forall i | 0 <= i < |v.rows[c.0]|
        ensures Hit(c.1, v.rows[c.0][i], time + v.rowLength, v.rowLength) == Hit(c.1, v.rows[c.0][i], time, v.rowLength)
      {
        HitPeriodic(c.1, v.rows[c.0][i], time, v.rowLength);
      }
    }
    if 0 <= c.1 < |v.cols| {
      forall i | 0 <= i < |v.cols[c.1]|
        ensures Hit(c.0, v.cols[c.1][i], time + v.colLength, v.colLength) == Hit(c.0, v.cols[c.1][i], time, v.colLength)
      {
        HitPeriodic(c.0, v.cols[c.1][i], time, v.colLength);
      }
    }
  }

  /**
   * Where the offset sends a blizzard: on an interior coordinate `a`, a
   * blizzard starting at interior coordinate `b.start` is there at `time`
   * exactly when `a` is `b.start` moved by `-offset * time`, wrapped into
   * 1 ..= len. Offset -1 ('>' and 'v') moves right or down.
   */
  lemma HitMeans(a: int, b: Blizzard, time: nat, len: nat)
    requires len > 0 && 1 <= a <= len && 1 <= b.start <= len
    ensures Hit(a, b, time, len) <==> a == (b.start - 1 - b.offset * time) % len + 1
  {
    var m := b.offset * time;
    var x := a - 1 + m;
    var y := b.start - 1 - m;
    if Hit(a, b, time, len) {
      var q := x / len;
      assert x == q * len + (b.start - 1);
      assert y == (-q) * len + (a - 1);
      ModUnique(y, -q, a - 1, len);
    }
    if a == y % len + 1 {
      var p := y / len;
      assert y == p * len + (a - 1);
      assert x == (-p) * len + (b.start - 1);
      ModUnique(x, -p, b.start - 1, len);
    }
  }


  // ------------------------------------------------------------ the walk

  predicate Interior(v: Valley, p: Coord)
  {
    0 < p.0 <= v.colLength && 0 < p.1 <= v.rowLength
  }

  /** A blizzard really occupies the cell: only interior cells ever hold one. */
  predicate Blocked(v: Valley, p: Coord, time: nat)
    requires v.rowLength > 0 && v.colLength > 0
  {
    Interior(v, p) && IsBlizzardAt(v, p, time)
  }

  /** Wait, down, up, right, left: the five moves in the order they are tried. */
  function Move(p: Coord, k: nat): Coord
    requires k < 5
  {
    if k == 0 then p
    else if k == 1 then (p.0 + 1, p.1)
    else if k == 2 then (p.0 - 1, p.1)
    else if k == 3 then (p.0, p.1 + 1)
    else (p.0, p.1 - 1)
  }

  /** One of the five moves reaches `target`. */
  predicate Adjacent(q: Coord, target: Coord)
  {
    exists k :: 0 <= k < 5 && Move(q, k) == target
  }

  /** A cell the walk may be on at `time`, other than the target: the start or an interior cell, free of blizzards. */
  predicate Allowed(v: Valley, start: Coord, target: Coord, p: Coord, time: nat)
    requires v.rowLength > 0 && v.colLength > 0
  {
    p != target && (p == start || Interior(v, p)) && !Blocked(v, p, time)
  }

  /** The blizzard test `shortest_path` writes: `is_blizzard_at` on the start cell as well. */
  predicate AllowedAsWritten(v: Valley, start: Coord, target: Coord, p: Coord, time: nat)
    requires v.rowLength > 0 && v.colLength > 0
    ensures p != start ==> (AllowedAsWritten(v, start, target, p, time) <==> Allowed(v, start, target, p, time))
  {
    p != target && (p == start || Interior(v, p)) && !IsBlizzardAt(v, p, time)
  }

  /**
   * A valley one cell wide and two high, with a 'v' in the lower interior
   * row: at minute 2 it is back in that row, yet the formula, applied to
   * the entrance (0, 1), says it is at the entrance, and waiting there is
   * refused.
   */
  lemma StartFlagged()
    ensures var v := Valley(1, 2, [[], [], [], []], [[], [Blizzard(2, -1)], []]);
      IsBlizzardAt(v, (0, 1), 2) && !AllowedAsWritten(v, (0, 1), (3, 1), (0, 1), 2)
      && Allowed(v, (0, 1), (3, 1), (0, 1), 2)
      && HitAt(v, 1, 2) == (2, 1)
  {
    var v := Valley(1, 2, [[], [], [], []], [[], [Blizzard(2, -1)], []]);
    assert Hit(0, v.cols[1][0], 2, 2);
  }

  /** Where column 1's first vertical blizzard is at `time`. */
  function HitAt(v: Valley, x: nat, time: nat): Coord
    requires v.colLength > 0 && x < |v.cols| && v.cols[x] != []
  {
    var b := v.cols[x][0];
    ((b.start - 1 - b.offset * time) % v.colLength + 1, x)
  }

  /** One minute of the walk: from `q` by one of the five moves onto an allowed cell `p`. */
  predicate Step(v: Valley, start: Coord, target: Coord, q: Coord, p: Coord, time: nat)
    requires v.rowLength > 0 && v.colLength > 0
  {
    (exists k :: 0 <= k < 5 && p == Move(q, k)) && Allowed(v, start, target, p, time)
  }

  /** `w[i]` is where the walk that leaves `start` at `t0` is at minute `t0 + i`. */
  ghost predicate IsWalk(v: Valley, start: Coord, target: Coord, t0: nat, w: seq<Coord>)
    requires v.rowLength > 0 && v.colLength > 0
  {
    |w| >= 1 && w[0] == start
    && forall i :: 1 <= i < |w| ==> Step(v, start, target, w[i - 1], w[i], t0 + i)
  }

  /** Some walk is on `p` at `time`. */
  ghost predicate Reachable(v: Valley, start: Coord, target: Coord, t0: nat, time: nat, p: Coord)
    requires v.rowLength > 0 && v.colLength > 0
  {
    t0 <= time && exists w :: IsWalk(v, start, target, t0, w) && |w| == time - t0 + 1 && w[|w| - 1] == p
  }

  lemma ReachStart(v: Valley, start: Coord, target: Coord, t0: nat)
    requires v.rowLength > 0 && v.colLength > 0
    ensures Reachable(v, start, target, t0, t0, start)
  {
    assert IsWalk(v, start, target, t0, [start]);
  }

  /** At the starting minute the walk is at the start. */
  lemma ReachAtStart(v: Valley, start: Coord, target: Coord, t0: nat, p: Coord)
    requires v.rowLength > 0 && v.colLength > 0 && Reachable(v, start, target, t0, t0, p)
    ensures p == start
  {
  }

  /** A walk extends by one allowed move. */
  lemma ReachStep(v: Valley, start: Coord, target: Coord, t0: nat, time: nat, q: Coord, k: nat)
    requires v.rowLength > 0 && v.colLength > 0 && k < 5
    requires Reachable(v, start, target, t0, time, q) && Allowed(v, start, target, Move(q, k), time + 1)
    ensures Reachable(v, start, target, t0, time + 1, Move(q, k))
  {
    var w :| IsWalk(v, start, target, t0, w) && |w| == time - t0 + 1 && w[|w| - 1] == q;
    var w2 := w + [Move(q, k)];
    assert Step(v, start, target, w2[|w2| - 2], w2[|w2| - 1], t0 + |w|);
    assert IsWalk(v, start, target, t0, w2);
  }

  /** A walk after its first minute came by one allowed move from where it was a minute before. */
  lemma ReachBack(v: Valley, start: Coord, target: Coord, t0: nat, time: nat, p: Coord)
    requires v.rowLength > 0 && v.colLength > 0 && time > t0
    requires Reachable(v, start, target, t0, time, p)
    ensures exists q, k ::
      (0 <= k < 5 && Reachable(v, start, target, t0, time - 1, q) && p == Move(q, k) && Allowed(v, start, target, p, time))
  {
    var w :| IsWalk(v, start, target, t0, w) && |w| == time - t0 + 1 && w[|w| - 1] == p;
    var w1 := w[..|w| - 1];
    assert IsWalk(v, start, target, t0, w1);
    assert Step(v, start, target, w[|w| - 2], p, t0 + (|w| - 1));
    var k :| 0 <= k < 5 && p == Move(w[|w| - 2], k);
    assert Reachable(v, start, target, t0, time - 1, w[|w| - 2]);
  }

  /** The walk can reach `target` at `time`. */
  ghost predicate Arrives(v: Valley, start: Coord, target: Coord, t0: nat, time: nat)
    requires v.rowLength > 0 && v.colLength > 0
  {
    time > t0 && exists q: Coord :: Reachable(v, start, target, t0, time - 1, q) && Adjacent(q, target)
  }

  /** `time` is the earliest arrival. */
  ghost predicate Earliest(v: Valley, start: Coord, target: Coord, t0: nat, time: nat)
    requires v.rowLength > 0 && v.colLength > 0
  {
    Arrives(v, start, target, t0, time) && forall a :: Arrives(v, start, target, t0, a) ==> time <= a
  }

  // ------------------------------------------------------------ the search

  /** A heap entry: minute, position and distance to the target. */
  datatype Entry = Entry(time: nat, pos: Coord, dist: nat)

  /** The heap's order: earlier minutes first, then shorter distances. */
  predicate Before(e: Entry, f: Entry)
  {
    e.time < f.time || (e.time == f.time && e.dist < f.dist)
  }

  /** The entry the heap pops: none comes before it. */
  method PopIndex(queue: seq<Entry>) returns (i: nat)
    requires queue != []
    ensures i < |queue| && forall j :: 0 <= j < |queue| ==> !Before(queue[j], queue[i])
  {
    i := 0;
    for j := 1 to |queue|
      invariant i < j && forall p :: 0 <= p < j ==> !Before(queue[p], queue[i])
    {
      if Before(queue[j], queue[i]) {
        i := j;
      }
    }
  }

  function Dist(p: Coord, target: Coord): nat
  {
    AbsDiff(p.0, target.0) + AbsDiff(p.1, target.1)
  }

  /** The entries one expansion pushes, for the first `k` moves. */
  function Pushes(v: Valley, start: Coord, target: Coord, e: Entry, k: nat): (r: seq<Entry>)
    requires v.rowLength > 0 && v.colLength > 0 && k <= 5
    ensures |r| <= k
  {
    if k == 0 then []
    else
      var p := Move(e.pos, k - 1);
      Pushes(v, start, target, e, k - 1)
      + if Allowed(v, start, target, p, e.time + 1) then [Entry(e.time + 1, p, Dist(p, target))] else []
  }

  /** Every pushed entry is an allowed move, one minute later. */
  lemma {:induction false} PushesSound(v: Valley, start: Coord, target: Coord, e: Entry, k: nat, j: nat)
    requires v.rowLength > 0 && v.colLength > 0 && k <= 5 && j < |Pushes(v, start, target, e, k)|
    ensures var x := Pushes(v, start, target, e, k)[j];
      x.time == e.time + 1
      && exists m :: 0 <= m < k && x.pos == Move(e.pos, m) && Allowed(v, start, target, x.pos, e.time + 1)
  {
    var prefix := Pushes(v, start, target, e, k - 1);
    if j < |prefix| {
      PushesSound(v, start, target, e, k - 1, j);
      assert Pushes(v, start, target, e, k)[j] == prefix[j];
    }
  }

  /** Every allowed move is pushed: `j` is where. */
  lemma {:induction false} PushesComplete(v: Valley, start: Coord, target: Coord, e: Entry, k: nat, m: nat) returns (j: nat)
    requires v.rowLength > 0 && v.colLength > 0 && m < k <= 5
    requires Allowed(v, start, target, Move(e.pos, m), e.time + 1)
    ensures var r := Pushes(v, start, target, e, k);
      j < |r| && r[j].time == e.time + 1 && r[j].pos == Move(e.pos, m)
  {
    var prefix := Pushes(v, start, target, e, k - 1);
    var p := Move(e.pos, k - 1);
    var r := prefix + if Allowed(v, start, target, p, e.time + 1) then [Entry(e.time + 1, p, Dist(p, target))] else [];
    assert r == Pushes(v, start, target, e, k);
    if m == k - 1 {
      j := |prefix|;
    } else {
      j := PushesComplete(v, start, target, e, k - 1, m);
      assert r[j] == prefix[j];
    }
  }

  /**
   * The `for (dy, dx)` loop of `shortest_path` on one popped entry: true
   * when a move reaches the target, else the entries it pushed.
   */
  method Expand(v: Valley, start: Coord, target: Coord, e: Entry) returns (found: bool, pushed: seq<Entry>)
    requires v.rowLength > 0 && v.colLength > 0
    ensures found <==> Adjacent(e.pos, target)
    ensures !found ==> pushed == Pushes(v, start, target, e, 5)
  {
    pushed := [];
    for k := 0 to 5
      invariant pushed == Pushes(v, start, target, e, k)
      invariant forall m :: 0 <= m < k ==> Move(e.pos, m) != target
    {
      var p := Move(e.pos, k);
      if p == target {
        return true, pushed;
      }
      if p != start && (p.0 <= 0 || p.0 > v.colLength || p.1 <= 0 || p.1 > v.rowLength) {
        continue;
      }
      if !Blocked(v, p, e.time + 1) {
        pushed := pushed + [Entry(e.time + 1, p, Dist(p, target))];
      }
    }
    found := false;
  }

  /** Some queue entry or some visited key stands for (`time`, `p`). */
  ghost predicate Covered(queue: seq<Entry>, visited: set<(nat, Coord)>, time: nat, p: Coord)
  {
    (time, p) in visited || exists i :: 0 <= i < |queue| && queue[i].time == time && queue[i].pos == p
  }

  /** Every entry of the queue is reachable. */
  ghost predicate AllReachable(v: Valley, start: Coord, target: Coord, t0: nat, queue: seq<Entry>)
    requires v.rowLength > 0 && v.colLength > 0
  {
    forall i :: 0 <= i < |queue| ==> Reachable(v, start, target, t0, queue[i].time, queue[i].pos)
  }

  lemma AllReachableAppend(v: Valley, start: Coord, target: Coord, t0: nat, a: seq<Entry>, b: seq<Entry>)
    requires v.rowLength > 0 && v.colLength > 0
    requires AllReachable(v, start, target, t0, a) && AllReachable(v, start, target, t0, b)
    ensures AllReachable(v, start, target, t0, a + b)
  {
    var c := a + b;
    forall j | 0 <= j < |c|
      ensures Reachable(v, start, target, t0, c[j].time, c[j].pos)
    {
      if j < |a| {
        assert c[j] == a[j];
      } else {
        assert c[j] == b[j - |a|];
      }
    }
  }

  /**
   * What the search keeps true: every entry and every expanded cell is
   * reachable, no expanded cell is next to the target, every allowed move
   * from an expanded cell is queued or expanded, and so is the start.
   */
  ghost predicate SearchInv(v: Valley, start: Coord, target: Coord, t0: nat, queue: seq<Entry>, visited: set<(nat, Coord)>)
    requires v.rowLength > 0 && v.colLength > 0
  {
    AllReachable(v, start, target, t0, queue)
    && VisitedSafe(v, start, target, t0, visited)
    && Closed(v, start, target, queue, visited)
    && Covered(queue, visited, t0, start)
  }

  /** Every expanded cell is reachable and not next to the target. */
  ghost predicate VisitedSafe(v: Valley, start: Coord, target: Coord, t0: nat, visited: set<(nat, Coord)>)
    requires v.rowLength > 0 && v.colLength > 0
  {
    forall key :: key in visited ==> Reachable(v, start, target, t0, key.0, key.1) && !Adjacent(key.1, target)
  }

  /** Every allowed move from an expanded cell is queued or expanded. */
  ghost predicate Closed(v: Valley, start: Coord, target: Coord, queue: seq<Entry>, visited: set<(nat, Coord)>)
    requires v.rowLength > 0 && v.colLength > 0
  {
    forall key, k :: key in visited && 0 <= k < 5 && Allowed(v, start, target, Move(key.1, k), key.0 + 1) ==>
      Covered(queue, visited, key.0 + 1, Move(key.1, k))
  }

  /** Expanding `e` and pushing its moves keeps every move from an expanded cell covered. */
  lemma ExpandClosed(v: Valley, start: Coord, target: Coord, queue: seq<Entry>, visited: set<(nat, Coord)>, e: Entry)
    requires v.rowLength > 0 && v.colLength > 0
    requires Closed(v, start, target, queue, visited)
    ensures Closed(v, start, target, queue + Pushes(v, start, target, e, 5), visited + {(e.time, e.pos)})
  {
    var key := (e.time, e.pos);
    var next := Pushes(v, start, target, e, 5);
    var grown := queue + next;
    var seen := visited + {key};
    forall x, k | x in seen && 0 <= k < 5 && Allowed(v, start, target, Move(x.1, k), x.0 + 1)
      ensures Covered(grown, seen, x.0 + 1, Move(x.1, k))
    {
      if x in visited {
        GrowCovered(queue, visited, next, key, x.0 + 1, Move(x.1, k));
      } else {
        var j := PushesComplete(v, start, target, e, 5, k);
        assert grown[|queue| + j] == next[j];
      }
    }
  }

  /** Dropping an entry whose cell was already expanded keeps the invariant. */
  lemma DropKeepsInv(v: Valley, start: Coord, target: Coord, t0: nat, queue: seq<Entry>, visited: set<(nat, Coord)>, i: nat)
    requires v.rowLength > 0 && v.colLength > 0
    requires i < |queue| && (queue[i].time, queue[i].pos) in visited
    requires SearchInv(v, start, target, t0, queue, visited)
    ensures SearchInv(v, start, target, t0, queue[..i] + queue[i + 1..], visited)
  {
    var rest := queue[..i] + queue[i + 1..];
    forall time: nat, p: Coord | Covered(queue, visited, time, p)
      ensures Covered(rest, visited, time, p)
    {
      if (time, p) !in visited {
        var j :| 0 <= j < |queue| && queue[j].time == time && queue[j].pos == p;
        if j < i {
          assert rest[j] == queue[j];
        } else {
          assert rest[j - 1] == queue[j];
        }
      }
    }
  }

  /** The moves pushed from a reachable entry are reachable. */
  lemma PushedReachable(v: Valley, start: Coord, target: Coord, t0: nat, e: Entry)
    requires v.rowLength > 0 && v.colLength > 0
    requires Reachable(v, start, target, t0, e.time, e.pos)
    ensures AllReachable(v, start, target, t0, Pushes(v, start, target, e, 5))
  {
    var next := Pushes(v, start, target, e, 5);
    forall j | 0 <= j < |next|
      ensures Reachable(v, start, target, t0, next[j].time, next[j].pos)
    {
      PushesSound(v, start, target, e, 5, j);
      var m :| 0 <= m < 5 && next[j].pos == Move(e.pos, m) && Allowed(v, start, target, next[j].pos, e.time + 1);
      ReachStep(v, start, target, t0, e.time, e.pos, m);
    }
  }

  /** Whatever was covered stays covered when entries are pushed and a key is added. */
  lemma GrowCovered(queue: seq<Entry>, visited: set<(nat, Coord)>, next: seq<Entry>, key: (nat, Coord), time: nat, p: Coord)
    requires Covered(queue, visited, time, p)
    ensures Covered(queue + next, visited + {key}, time, p)
  {
    if (time, p) !in visited {
      var j :| 0 <= j < |queue| && queue[j].time == time && queue[j].pos == p;
      assert (queue + next)[j] == queue[j];
    }
  }

  /** Expanding a reachable entry that is not next to the target, and pushing its moves, keeps the invariant. */
  lemma ExpandKeepsInv(v: Valley, start: Coord, target: Coord, t0: nat, queue: seq<Entry>, visited: set<(nat, Coord)>, i: nat)
    requires v.rowLength > 0 && v.colLength > 0
    requires i < |queue| && !Adjacent(queue[i].pos, target)
    requires SearchInv(v, start, target, t0, queue, visited)
    ensures var e := queue[i];
      SearchInv(v, start, target, t0, queue[..i] + queue[i + 1..] + Pushes(v, start, target, e, 5), visited + {(e.time, e.pos)})
  {
    var e := queue[i];
    var key := (e.time, e.pos);
    var next := Pushes(v, start, target, e, 5);
    var grown := queue + next;
    var seen := visited + {key};
    PushedReachable(v, start, target, t0, e);
    AllReachableAppend(v, start, target, t0, queue, next);
    assert VisitedSafe(v, start, target, t0, seen);
    ExpandClosed(v, start, target, queue, visited, e);
    GrowCovered(queue, visited, next, key, t0, start);
    assert SearchInv(v, start, target, t0, grown, seen);
    DropKeepsInv(v, start, target, t0, grown, seen, i);
    assert grown[..i] + grown[i + 1..] == queue[..i] + queue[i + 1..] + next;
  }

  /** Every cell reachable before the earliest queued minute has been expanded. */
  lemma {:induction false} BelowExpanded(v: Valley, start: Coord, target: Coord, t0: nat, queue: seq<Entry>,
                                         visited: set<(nat, Coord)>, bound: nat, time: nat, p: Coord)
    requires v.rowLength > 0 && v.colLength > 0
    requires SearchInv(v, start, target, t0, queue, visited)
    requires forall j :: 0 <= j < |queue| ==> bound <= queue[j].time
    requires time < bound && Reachable(v, start, target, t0, time, p)
    ensures (time, p) in visited
    decreases time
  {
    if time > t0 {
      ReachBack(v, start, target, t0, time, p);
      var q: Coord, k: nat :| 0 <= k < 5 && Reachable(v, start, target, t0, time - 1, q)
        && p == Move(q, k) && Allowed(v, start, target, p, time);
      BelowExpanded(v, start, target, t0, queue, visited, bound, time - 1, q);
      assert Covered(queue, visited, time - 1 + 1, Move(q, k));
    } else {
      ReachAtStart(v, start, target, t0, p);
      assert Covered(queue, visited, t0, start);
    }
  }

  /** No arrival comes before one more than the earliest queued minute. */
  lemma NoEarlier(v: Valley, start: Coord, target: Coord, t0: nat, queue: seq<Entry>,
                  visited: set<(nat, Coord)>, bound: nat, a: nat)
    requires v.rowLength > 0 && v.colLength > 0
    requires SearchInv(v, start, target, t0, queue, visited)
    requires forall j :: 0 <= j < |queue| ==> bound <= queue[j].time
    requires Arrives(v, start, target, t0, a)
    ensures bound + 1 <= a
  {
    var q: Coord :| Reachable(v, start, target, t0, a - 1, q) && Adjacent(q, target);
    if a - 1 < bound {
      BelowExpanded(v, start, target, t0, queue, visited, bound, a - 1, q);
    }
  }

  /** How `shortest_path` ends: the arrival minute, the final panic, or the step bound spent. */
  datatype Outcome = Found(time: nat) | NoPath | OutOfSteps

  /**
   * `shortest_path`: pop the earliest entry, skip it if its cell was
   * expanded at that minute, return one minute later if a move reaches the
   * target, else push every allowed move for the next minute. The source
   * loops until it finds the target; `steps` bounds the pops here.
   */
  method ShortestPath(v: Valley, start: Coord, target: Coord, t0: nat, steps: nat) returns (r: Outcome)
    requires v.rowLength > 0 && v.colLength > 0
    ensures r.Found? ==> Earliest(v, start, target, t0, r.time)
    ensures r.NoPath? ==> forall a :: !Arrives(v, start, target, t0, a)
  {
    var queue := [Entry(t0, start, 0)];
    var visited: set<(nat, Coord)> := {};
    var fuel := steps;
    ReachStart(v, start, target, t0);
    assert Covered(queue, visited, t0, start) by {
      assert queue[0].time == t0 && queue[0].pos == start;
    }
    while queue != []
      invariant SearchInv(v, start, target, t0, queue, visited)
      decreases fuel
    {
      if fuel == 0 {
        return OutOfSteps;
      }
      fuel := fuel - 1;
      var i := PopIndex(queue);
      var e := queue[i];
      if (e.time, e.pos) in visited {
        DropKeepsInv(v, start, target, t0, queue, visited, i);
        queue := queue[..i] + queue[i + 1..];
        continue;
      }
      var found, pushed := Expand(v, start, target, e);
      if found {
        forall a | Arrives(v, start, target, t0, a)
          ensures e.time + 1 <= a
        {
          NoEarlier(v, start, target, t0, queue, visited, e.time, a);
        }
        assert Reachable(v, start, target, t0, e.time + 1 - 1, e.pos);
        return Found(e.time + 1);
      }
      ExpandKeepsInv(v, start, target, t0, queue, visited, i);
      queue := queue[..i] + queue[i + 1..] + pushed;
      visited := visited + {(e.time, e.pos)};
    }
    forall a | Arrives(v, start, target, t0, a)
      ensures false
    {
      NoEarlier(v, start, target, t0, queue, visited, a, a);
    }
    return NoPath;
  }

  function Entrance(v: Valley): Coord { (0, 1) }
  function Exit(v: Valley): Coord { (v.colLength + 1, v.rowLength) }

  /** `part1`: the earliest arrival at the exit, leaving at minute 0. */
  method Part1(v: Valley, steps: nat) returns (r: Outcome)
    requires v.rowLength > 0 && v.colLength > 0
    ensures r.Found? ==> Earliest(v, Entrance(v), Exit(v), 0, r.time)
    ensures r.NoPath? ==> forall a :: !Arrives(v, Entrance(v), Exit(v), 0, a)
  {
    r := ShortestPath(v, Entrance(v), Exit(v), 0, steps);
  }

  /**
   * `part2`: to the exit, back to the entrance leaving when the first leg
   * arrived, and to the exit again; each leg the earliest possible.
   */
  method Part2(v: Valley, steps: nat) returns (r: Outcome, ghost legs: seq<nat>)
    requires v.rowLength > 0 && v.colLength > 0
    ensures r.Found? ==>
      (|legs| == 3 && legs[2] == r.time
       && Earliest(v, Entrance(v), Exit(v), 0, legs[0])
       && Earliest(v, Exit(v), Entrance(v), legs[0], legs[1])
       && Earliest(v, Entrance(v), Exit(v), legs[1], legs[2]))
  {
    legs := [];
    var a := ShortestPath(v, Entrance(v), Exit(v), 0, steps);
    if !a.Found? {
      return a, legs;
    }
    var b := ShortestPath(v, Exit(v), Entrance(v), a.time, steps);
    if !b.Found? {
      return b, legs;
    }
    r := ShortestPath(v, Entrance(v), Exit(v), b.time, steps);
    legs := [a.time, b.time] + if r.Found? then [r.time] else [];
  }
}
