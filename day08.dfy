/**
 * Day 08: a forest of tree heights (digit characters). Part 1 counts the
 * trees visible from some edge: strictly taller than every tree between it
 * and that edge. Part 2 finds the best scenic score: the product of the four
 * viewing distances, each counting trees up to and including the first one
 * at least as tall.
 */
module Day08 {
  import opened Wrappers

  type Grid = seq<seq<char>>

  /** The running maximum starts below every digit. */
  const Floor: char := '.'

  predicate Rectangular(g: Grid)
  {
    forall y :: 0 <= y < |g| ==> |g[y]| == |g[0]|
  }

  function Width(g: Grid): nat
  {
    if g == [] then 0 else |g[0]|
  }

  function Column(g: Grid, x: nat): (c: seq<char>)
    requires Rectangular(g) && x < Width(g)
    ensures |c| == |g| && forall y :: 0 <= y < |g| ==> c[y] == g[y][x]
  {
    seq(|g|, y requires 0 <= y < |g| => g[y][x])
  }

  // ------------------------------------------------------------ visibility

  /** Tree `i` is taller than the floor and than every tree before it. */
  predicate VisibleFromStart(line: seq<char>, i: nat)
    requires i < |line|
  {
    line[i] > Floor && forall j :: 0 <= j < i ==> line[j] < line[i]
  }

  /** Tree `i` is taller than the floor and than every tree after it. */
  predicate VisibleFromEnd(line: seq<char>, i: nat)
    requires i < |line|
  {
    line[i] > Floor && forall j :: i < j < |line| ==> line[j] < line[i]
  }

  function VisibleInLine(line: seq<char>): set<nat>
  {
    set i | 0 <= i < |line| && (VisibleFromStart(line, i) || VisibleFromEnd(line, i))
  }

  /** The trees visible from the left or right edge of their row or the top or bottom edge of their column. */
  function Visible(g: Grid): set<(nat, nat)>
    requires Rectangular(g)
  {
    set y, x | 0 <= y < |g| && 0 <= x < Width(g) &&
      (x in VisibleInLine(g[y]) || y in VisibleInLine(Column(g, x))) :: (x, y)
  }

  /** The highest of the floor and the trees of `s`. */
  function RunningMax(s: seq<char>): (m: char)
    ensures m >= Floor && forall j :: 0 <= j < |s| ==> s[j] <= m
    ensures m == Floor || exists j :: 0 <= j < |s| && s[j] == m
  {
    if s == [] then Floor
    else
      var m := RunningMax(s[..|s| - 1]);
      var last := s[|s| - 1];
      if last > m then last else m
  }

  /** The trees among the first `n` that are visible from the start. */
  function SeenFromStart(line: seq<char>, n: nat): set<nat>
    requires n <= |line|
  {
    set i | 0 <= i < n && VisibleFromStart(line, i)
  }

  /** The trees from index `n` on that are visible from the end. */
  function SeenFromEnd(line: seq<char>, n: nat): set<nat>
    requires n <= |line|
  {
    set i | n <= i < |line| && VisibleFromEnd(line, i)
  }

  /**
   * `part1`'s inner loop, the same for rows and columns: two indices walk the
   * whole line from both ends at once, each keeping the running maximum of
   * what it passed, and stop after the backward index has reached 0.
   */
  method ScanBothEnds(line: seq<char>) returns (vis: set<nat>)
    requires |line| >= 1
    ensures vis == VisibleInLine(line)
  {
    var maxL, maxR := Floor, Floor;
    var xl, xr := 0, |line| - 1;
    vis := {};
    assert line[..0] == [];
    while true
      invariant 0 <= xl < |line| && xl + xr == |line| - 1
      invariant Scanned(line, xl, xr, maxL, maxR, vis)
      decreases xr
    {
      ScanStep(line, xl, xr, maxL, maxR, vis);
      vis, maxL := Sight(line, xl, maxL, vis);
      vis, maxR := Sight(line, xr, maxR, vis);
      if xr == 0 {
        break;
      }
      xl := xl + 1;
      xr := xr - 1;
    }
  }

  /** The state of the two-pointer scan before the pointers `xl` and `xr` look. */
  predicate Scanned(line: seq<char>, xl: nat, xr: nat, maxL: char, maxR: char, vis: set<nat>)
    requires xl < |line| && xr < |line|
  {
    maxL == RunningMax(line[..xl]) && maxR == SuffixMax(line, xr + 1)
    && vis == SeenFromStart(line, xl) + SeenFromEnd(line, xr + 1)
  }

  /** Both pointers look: the scan moves on, or ends with every visible tree once `xr` is 0. */
  lemma ScanStep(line: seq<char>, xl: nat, xr: nat, maxL: char, maxR: char, vis: set<nat>)
    requires xl < |line| && xl + xr == |line| - 1 && Scanned(line, xl, xr, maxL, maxR, vis)
    ensures var vis' := vis + (if line[xl] > maxL then {xl} else {}) + (if line[xr] > maxR then {xr} else {});
      var maxL' := if line[xl] > maxL then line[xl] else maxL;
      var maxR' := if line[xr] > maxR then line[xr] else maxR;
      (xr > 0 ==> Scanned(line, xl + 1, xr - 1, maxL', maxR', vis'))
      && (xr == 0 ==> vis' == VisibleInLine(line))
  {
    StartStep(line, xl);
    EndStep(line, xr);
    SeenStep(line, xl, xr);
    if xr == 0 {
      SeenAll(line);
    }
  }

  /** One pointer's step: tree `i` is recorded, and becomes the new maximum, when it is taller than `max`. */
  method Sight(line: seq<char>, i: nat, max: char, vis: set<nat>) returns (vis': set<nat>, max': char)
    requires i < |line|
    ensures vis' == vis + (if line[i] > max then {i} else {})
    ensures max' == if line[i] > max then line[i] else max
  {
    vis', max' := vis, max;
    if line[i] > max {
      vis' := vis' + {i};
      max' := line[i];
    }
  }

  lemma SeenStep(line: seq<char>, xl: nat, xr: nat)
    requires xl < |line| && xr < |line|
    ensures SeenFromStart(line, xl + 1) == SeenFromStart(line, xl) + if VisibleFromStart(line, xl) then {xl} else {}
    ensures SeenFromEnd(line, xr) == SeenFromEnd(line, xr + 1) + if VisibleFromEnd(line, xr) then {xr} else {}
    ensures SeenFromStart(line, xl + 1) + SeenFromEnd(line, xr) ==
      SeenFromStart(line, xl) + SeenFromEnd(line, xr + 1) + (if VisibleFromStart(line, xl) then {xl} else {}) + (if VisibleFromEnd(line, xr) then {xr} else {})
  {
  }

  lemma SeenAll(line: seq<char>)
    ensures SeenFromStart(line, |line|) + SeenFromEnd(line, 0) == VisibleInLine(line)
  {
  }

  function Reverse(s: seq<char>): (r: seq<char>)
    ensures |r| == |s| && forall i :: 0 <= i < |s| ==> r[i] == s[|s| - 1 - i]
  {
    if s == [] then [] else Reverse(s[1..]) + [s[0]]
  }

  /** One forward step: tree `i` beats the running maximum exactly when it is visible from the start. */
  lemma StartStep(line: seq<char>, i: nat)
    requires i < |line|
    ensures line[i] > RunningMax(line[..i]) <==> VisibleFromStart(line, i)
    ensures RunningMax(line[..i + 1]) == if line[i] > RunningMax(line[..i]) then line[i] else RunningMax(line[..i])
  {
    assert line[..i + 1][..i] == line[..i];
    var m := RunningMax(line[..i]);
    if line[i] <= m && m != Floor {
      var j :| 0 <= j < i && line[..i][j] == m;
      assert line[j] >= line[i];
    }
  }

  /** The highest of the floor and the trees from index `n` on: the backward pointer's running maximum. */
  function SuffixMax(line: seq<char>, n: nat): (m: char)
    requires n <= |line|
    ensures m >= Floor && forall j :: n <= j < |line| ==> line[j] <= m
    ensures m == Floor || exists j :: n <= j < |line| && line[j] == m
    decreases |line| - n
  {
    if n == |line| then Floor
    else
      var m := SuffixMax(line, n + 1);
      if line[n] > m then line[n] else m
  }

  /** One backward step: tree `i` beats the maximum of the trees after it exactly when it is visible from the end. */
  lemma EndStep(line: seq<char>, i: nat)
    requires i < |line|
    ensures line[i] > SuffixMax(line, i + 1) <==> VisibleFromEnd(line, i)
    ensures SuffixMax(line, i) == if line[i] > SuffixMax(line, i + 1) then line[i] else SuffixMax(line, i + 1)
  {
    var m := SuffixMax(line, i + 1);
    if line[i] <= m && m != Floor {
      var j :| i + 1 <= j < |line| && line[j] == m;
    }
  }

  // ------------------------------------------------------------ part 1

  /**
   * `part1` as written: the column pass takes its columns from the number of
   * rows and its column length from the length of row 0. Every index panics
   * (`None`) unless the grid is square; an empty row panics on `len() - 1`.
   */
  function CountAsWritten(g: Grid): Option<nat>
    requires Rectangular(g)
  {
    if g == [] then Some(0)
    else if Width(g) == 0 || Width(g) != |g| then None
    else Some(|Visible(g)|)
  }

  /** The intended count: the column pass over the columns of the grid, whatever its shape. */
  function Count(g: Grid): Option<nat>
    requires Rectangular(g)
  {
    if g != [] && Width(g) == 0 then None else Some(|Visible(g)|)
  }

  /** The trees of the first `n` rows that are visible along their row. */
  function RowTrees(g: Grid, n: nat): set<(nat, nat)>
    requires Rectangular(g) && n <= |g|
  {
    set y, x | 0 <= y < n && 0 <= x < Width(g) && x in VisibleInLine(g[y]) :: (x, y)
  }

  /** The trees of the first `n` columns that are visible along their column. */
  function ColumnTrees(g: Grid, n: nat): set<(nat, nat)>
    requires Rectangular(g) && n <= Width(g)
  {
    set y, x | 0 <= y < |g| && 0 <= x < n && y in VisibleInLine(Column(g, x)) :: (x, y)
  }

  lemma RowTreesStep(g: Grid, y: nat)
    requires Rectangular(g) && y < |g|
    ensures RowTrees(g, y + 1) == RowTrees(g, y) + set x | x in VisibleInLine(g[y]) :: (x, y)
  {
    assert |g[y]| == Width(g);
  }

  lemma ColumnTreesStep(g: Grid, x: nat)
    requires Rectangular(g) && x < Width(g)
    ensures ColumnTrees(g, x + 1) == ColumnTrees(g, x) + set y | y in VisibleInLine(Column(g, x)) :: (x, y)
  {
  }

  lemma VisibleSplit(g: Grid)
    requires Rectangular(g)
    ensures Visible(g) == RowTrees(g, |g|) + ColumnTrees(g, Width(g))
  {
  }

  /**
   * The one-row forest `12` has both trees visible, but `part1` as written
   * indexes row 1 of it and panics.
   */
  lemma NonSquarePanics()
    ensures CountAsWritten(["12"]) == None
    ensures Count(["12"]) == Some(2)
  {
    var g := ["12"];
    assert VisibleFromStart(g[0], 0) && VisibleFromStart(g[0], 1);
    assert VisibleInLine(g[0]) == {0, 1};
    VisibleSplit(g);
    assert Visible(g) == {(0, 0), (1, 0)};
  }

  /** The row pass, shared by both versions: every row is scanned from both ends. */
  method RowPass(g: Grid) returns (r: Option<set<(nat, nat)>>)
    requires Rectangular(g)
    ensures r.None? <==> g != [] && Width(g) == 0
    ensures r.Some? ==> r.value == RowTrees(g, |g|)
  {
    var trees: set<(nat, nat)> := {};
    for y := 0 to |g|
      invariant y > 0 ==> Width(g) > 0
      invariant trees == RowTrees(g, y)
    {
      assert |g[y]| == |g[0]|;
      if |g[y]| == 0 {
        return None;
      }
      var vis := ScanBothEnds(g[y]);
      RowTreesStep(g, y);
      trees := trees + set x | x in vis :: (x, y);
    }
    r := Some(trees);
  }

  /** `part1` as written: `x in 0..self.0.len()`, `y_b = self.0[0].len() - 1`. */
  method Part1AsWritten(g: Grid) returns (r: Option<nat>)
    requires Rectangular(g)
    ensures r == CountAsWritten(g)
  {
    var rows := RowPass(g);
    if rows.None? {
      return None;
    }
    var columns := ColumnPassAsWritten(g);
    if columns.None? {
      return None;
    }
    VisibleSplit(g);
    r := Some(|rows.value + columns.value|);
  }

  /**
   * The column pass as written: it panics on every grid that is not square,
   * at the first column whose top or bottom index is out of range.
   */
  method ColumnPassAsWritten(g: Grid) returns (r: Option<set<(nat, nat)>>)
    requires Rectangular(g)
    ensures r.None? <==> g != [] && Width(g) != |g|
    ensures r.Some? ==> r.value == ColumnTrees(g, Width(g))
  {
    var trees: set<(nat, nat)> := {};
    for x := 0 to |g|
      invariant x <= Width(g) && (x > 0 ==> Width(g) <= |g|)
      invariant trees == ColumnTrees(g, x)
    {
      // `self.0[y_t][x]` with `y_t == 0`, then `self.0[y_b][x]` with `y_b == self.0[0].len() - 1`
      if x >= |g[0]| || |g[0]| - 1 >= |g| {
        return None;
      }
      var vis := ScanBothEnds(Column(g, x));
      ColumnTreesStep(g, x);
      trees := trees + set y | y in vis :: (x, y);
    }
    if g != [] && Width(g) != |g| {
      // only a wider grid gets here, and its first column already panicked
      return None;
    }
    r := Some(trees);
  }

  /** `part1` corrected: columns range over the width and run down the height. */
  method Part1(g: Grid) returns (r: Option<nat>)
    requires Rectangular(g)
    ensures r == Count(g)
  {
    var rows := RowPass(g);
    if rows.None? {
      return None;
    }
    var columns := ColumnPass(g);
    VisibleSplit(g);
    r := Some(|rows.value + columns|);
  }

  /** The corrected column pass: every column is scanned from both ends. */
  method ColumnPass(g: Grid) returns (r: set<(nat, nat)>)
    requires Rectangular(g)
    ensures r == ColumnTrees(g, Width(g))
  {
    r := {};
    for x := 0 to Width(g)
      invariant r == ColumnTrees(g, x)
    {
      var vis := ScanBothEnds(Column(g, x));
      ColumnTreesStep(g, x);
      r := r + set y | y in vis :: (x, y);
    }
  }

  // ------------------------------------------------------------ part 2

  /**
   * How far a tree of height `h` sees along `s` (the trees in order of
   * distance): every tree up to and including the first one at least as tall.
   */
  function ViewDistance(s: seq<char>, h: char): (d: nat)
    ensures d <= |s| && (d == 0 <==> s == [])
    ensures forall j :: 0 <= j < d - 1 ==> s[j] < h
    ensures d == |s| || s[d - 1] >= h
  {
    if s == [] then 0
    else if s[0] >= h then 1
    else 1 + ViewDistance(s[1..], h)
  }

  /** The three properties of `ViewDistance` fix it: no other count has them. */
  lemma ViewDistanceUnique(s: seq<char>, h: char, d: nat)
    requires d <= |s| && (d == 0 <==> s == [])
    requires forall j :: 0 <= j < d - 1 ==> s[j] < h
    requires d == |s| || s[d - 1] >= h
    ensures ViewDistance(s, h) == d
  {
    var v := ViewDistance(s, h);

  }

  /** The viewing distance of tree (`x`, `y`) towards the left edge. */
  function LeftView(g: Grid, x: nat, y: nat): nat
    requires Rectangular(g) && y < |g| && x < Width(g)
  {
    ViewDistance(Reverse(g[y][..x]), g[y][x])
  }

  /** The viewing distance of tree (`x`, `y`) towards the right edge. */
  function RightView(g: Grid, x: nat, y: nat): nat
    requires Rectangular(g) && y < |g| && x < Width(g)
  {
    ViewDistance(g[y][x + 1..], g[y][x])
  }

  /** The viewing distance of tree (`x`, `y`) towards the top edge. */
  function UpView(g: Grid, x: nat, y: nat): nat
    requires Rectangular(g) && y < |g| && x < Width(g)
  {
    ViewDistance(Reverse(Column(g, x)[..y]), g[y][x])
  }

  /** The viewing distance of tree (`x`, `y`) towards the bottom edge. */
  function DownView(g: Grid, x: nat, y: nat): nat
    requires Rectangular(g) && y < |g| && x < Width(g)
  {
    ViewDistance(Column(g, x)[y + 1..], g[y][x])
  }

  /** The scenic score: the product of the viewing distances left, right, up and down. */
  function Score(g: Grid, x: nat, y: nat): nat
    requires Rectangular(g) && y < |g| && x < Width(g)
  {
    Mul(Mul(Mul(LeftView(g, x, y), RightView(g, x, y)), UpView(g, x, y)), DownView(g, x, y))
  }

  function Mul(a: nat, b: nat): nat
  {
    a * b
  }

  /** A tree on the edge sees nothing in one direction, so its score is 0. */
  lemma EdgeScoresZero(g: Grid, x: nat, y: nat)
    requires Rectangular(g) && y < |g| && x < Width(g)
    requires x == 0 || y == 0 || x == Width(g) - 1 || y == |g| - 1
    ensures Score(g, x, y) == 0
  {
    assert |g[y]| == Width(g);
    ScoreZero(g, x, y);
  }

  /** A score is 0 exactly when the tree sees nothing in some direction. */
  lemma ScoreZero(g: Grid, x: nat, y: nat)
    requires Rectangular(g) && y < |g| && x < Width(g)
    ensures Score(g, x, y) == 0 <==>
      LeftView(g, x, y) == 0 || RightView(g, x, y) == 0 || UpView(g, x, y) == 0 || DownView(g, x, y) == 0
  {
    var l, r, u, d := LeftView(g, x, y), RightView(g, x, y), UpView(g, x, y), DownView(g, x, y);
    MulZero(l, r);
    MulZero(Mul(l, r), u);
    MulZero(Mul(Mul(l, r), u), d);
  }

  lemma MulZero(a: nat, b: nat)
    ensures Mul(a, b) == 0 <==> a == 0 || b == 0
  {
  }

  /** `scenic_distance`: four walks outwards from the tree, returning 0 as soon as one of them saw nothing. */
  method ScenicDistance(g: Grid, x: nat, y: nat) returns (score: nat)
    requires Rectangular(g) && y < |g| && x < Width(g)
    ensures score == Score(g, x, y)
  {
    var width := |g[0]|;
    var tree := g[y][x];
    assert |g[y]| == width;
    ScoreZero(g, x, y);
    var left := LookLeft(g[y], x, tree);
    if left == 0 {
      return 0;
    }
    var right := LookRight(g[y], x, tree);
    if right == 0 {
      return 0;
    }
    var col := Column(g, x);
    var top := LookLeft(col, y, tree);
    if top == 0 {
      return 0;
    }
    var bottom := LookRight(col, y, tree);
    score := Mul(Mul(Mul(left, right), top), bottom);
  }

  /** The walk towards index 0 of `line`, from just before `i`. */
  method LookLeft(line: seq<char>, i: nat, tree: char) returns (count: nat)
    requires i < |line|
    ensures count == ViewDistance(Reverse(line[..i]), tree)
  {
    count := 0;
    var k: int := i - 1;
    while k >= 0
      invariant -1 <= k < i && count == i - 1 - k
      invariant forall j :: k < j < i ==> line[j] < tree
    {
      count := count + 1;
      if line[k] >= tree {
        break;
      }
      k := k - 1;
    }
    ghost var s := Reverse(line[..i]);
    assert forall j :: 0 <= j < |s| ==> s[j] == line[i - 1 - j];
    ViewDistanceUnique(s, tree, count);
  }

  /** The walk towards the end of `line`, from just after `i`. */
  method LookRight(line: seq<char>, i: nat, tree: char) returns (count: nat)
    requires i < |line|
    ensures count == ViewDistance(line[i + 1..], tree)
  {
    count := 0;
    var k := i + 1;
    while k < |line|
      invariant i + 1 <= k <= |line| && count == k - i - 1
      invariant forall j :: i < j < k ==> line[j] < tree
    {
      count := count + 1;
      if line[k] >= tree {
        break;
      }
      k := k + 1;
    }
    ViewDistanceUnique(line[i + 1..], tree, count);
  }

  /** `part2`: the highest scenic score in the forest, 0 for an empty one. */
  method Part2(g: Grid) returns (max: nat)
    requires Rectangular(g)
    ensures forall y, x :: 0 <= y < |g| && 0 <= x < Width(g) ==> Score(g, x, y) <= max
    ensures max == 0 || exists y, x :: 0 <= y < |g| && 0 <= x < Width(g) && Score(g, x, y) == max
  {
    max := 0;
    for y := 0 to |g|
      invariant Bounded(g, y, max) && Attained(g, y, max)
    {
      ghost var before := max;
      max := RowMax(g, y, max);
      RowMaxStep(g, y, before, max);
    }
  }

  /** No score in the first `rows` rows exceeds `max`. */
  ghost predicate Bounded(g: Grid, rows: nat, max: nat)
    requires Rectangular(g) && rows <= |g|
  {
    forall y, x :: 0 <= y < rows && 0 <= x < Width(g) ==> Score(g, x, y) <= max
  }

  /** `max` is 0 or the score of a tree in the first `rows` rows. */
  ghost predicate Attained(g: Grid, rows: nat, max: nat)
    requires Rectangular(g) && rows <= |g|
  {
    max == 0 || exists y, x :: 0 <= y < rows && 0 <= x < Width(g) && Score(g, x, y) == max
  }

  lemma RowMaxStep(g: Grid, y: nat, before: nat, after: nat)
    requires Rectangular(g) && y < |g| && Bounded(g, y, before) && Attained(g, y, before)
    requires before <= after && forall x :: 0 <= x < Width(g) ==> Score(g, x, y) <= after
    requires after == before || exists x :: 0 <= x < Width(g) && Score(g, x, y) == after
    ensures Bounded(g, y + 1, after) && Attained(g, y + 1, after)
  {
    forall y', x | 0 <= y' < y + 1 && 0 <= x < Width(g)
      ensures Score(g, x, y') <= after
    {
      if y' < y {
        assert Score(g, x, y') <= before;
      }
    }
    if after != before {
      var x :| 0 <= x < Width(g) && Score(g, x, y) == after;
      assert 0 <= y < y + 1;
    } else if before != 0 {
      var y', x :| 0 <= y' < y && 0 <= x < Width(g) && Score(g, x, y') == before;
      assert 0 <= y' < y + 1;
    }
  }

  /** The inner loop of `part2`: the running maximum carried along row `y`. */
  method RowMax(g: Grid, y: nat, max: nat) returns (max': nat)
    requires Rectangular(g) && y < |g|
    ensures max <= max' && forall x :: 0 <= x < Width(g) ==> Score(g, x, y) <= max'
    ensures max' == max || exists x :: 0 <= x < Width(g) && Score(g, x, y) == max'
  {
    max' := max;
    for x := 0 to |g[0]|
      invariant max <= max' && forall x' :: 0 <= x' < x ==> Score(g, x', y) <= max'
      invariant max' == max || exists x' :: 0 <= x' < x && Score(g, x', y) == max'
    {
      var score := ScenicDistance(g, x, y);
      if score > max' {
        max' := score;
      }
    }
  }
}
