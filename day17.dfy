/**
 * Day 17: rocks of five shapes fall in turn into a chamber seven columns
 * wide. Each step a jet ('<' or '>') pushes the rock sideways if it can
 * move, then the rock falls one row if it can; when it cannot fall it comes
 * to rest. The answer is the tower's height after `n` rocks, with a cycle
 * skip that jumps over whole repetitions of the tower's top profile.
 */
module Day17 {
  import opened Wrappers

  /** A cell as (row, column); rows count up from 1, columns are 0..6. */
  type Cell = (int, int)

  const Width := 7
  const Pieces := 5

  predicate InBounds(c: Cell)
  {
    c.0 >= 1 && 0 <= c.1 < Width
  }

  predicate AllInBounds(rock: seq<Cell>)
  {
    forall i :: 0 <= i < |rock| ==> InBounds(rock[i])
  }

  /** No cell of the rock is part of the tower. */
  predicate Clear(rock: seq<Cell>, cells: set<Cell>)
  {
    forall i :: 0 <= i < |rock| ==> rock[i] !in cells
  }

  /** The cells of a rock as a set. */
  function CellsOf(rock: seq<Cell>): set<Cell>
  {
    set i | 0 <= i < |rock| :: rock[i]
  }

  // ------------------------------------------------------------ one rock

  /** Rock `piece` with its lowest cells in row `m` and its leftmost in column 2. */
  function Spawn(piece: nat, m: int): (rock: seq<Cell>)
    requires piece < Pieces
    ensures 4 <= |rock| <= 5
  {
    match piece
    case 0 => [(m, 2), (m, 3), (m, 4), (m, 5)]
    case 1 => [(m + 1, 2), (m, 3), (m + 1, 3), (m + 2, 3), (m + 1, 4)]
    case 2 => [(m, 2), (m, 3), (m, 4), (m + 1, 4), (m + 2, 4)]
    case 3 => [(m, 2), (m + 1, 2), (m + 2, 2), (m + 3, 2)]
    case 4 => [(m, 2), (m + 1, 2), (m, 3), (m + 1, 3)]
  }

  /**
   * Every rock spawns with its lowest row at `m` and its leftmost column at
   * 2, inside the chamber; `low` and `left` index cells on those edges.
   */
  lemma SpawnShape(piece: nat, m: int) returns (low: nat, left: nat)
    requires piece < Pieces && m >= 1
    ensures var rock := Spawn(piece, m);
      AllInBounds(rock)
      && (forall i :: 0 <= i < |rock| ==> rock[i].0 >= m && rock[i].1 >= 2)
      && low < |rock| && rock[low].0 == m && left < |rock| && rock[left].1 == 2
  {
    low := if piece == 1 then 1 else 0;
    left := 0;
  }

  /** Every cell moved by `dy` rows and `dx` columns. */
  function Shifted(rock: seq<Cell>, dy: int, dx: int): (r: seq<Cell>)
    ensures |r| == |rock|
    ensures forall i :: 0 <= i < |rock| ==> r[i] == (rock[i].0 + dy, rock[i].1 + dx)
  {
    seq(|rock|, i requires 0 <= i < |rock| => (rock[i].0 + dy, rock[i].1 + dx))
  }

  /** `for pos in rock.iter_mut()`: every cell moved in place. */
  method Shift(rock: seq<Cell>, dy: int, dx: int) returns (r: seq<Cell>)
    ensures r == Shifted(rock, dy, dx)
  {
    r := rock;
    for i := 0 to |r|
      invariant |r| == |rock|
      invariant forall k :: 0 <= k < i ==> r[k] == (rock[k].0 + dy, rock[k].1 + dx)
      invariant forall k :: i <= k < |r| ==> r[k] == rock[k]
    {
      r := r[i := (r[i].0 + dy, r[i].1 + dx)];
    }
  }

  predicate CanJetLeft(rock: seq<Cell>, cells: set<Cell>)
  {
    forall i :: 0 <= i < |rock| ==> rock[i].1 > 0 && (rock[i].0, rock[i].1 - 1) !in cells
  }

  predicate CanJetRight(rock: seq<Cell>, cells: set<Cell>)
  {
    forall i :: 0 <= i < |rock| ==> rock[i].1 < Width - 1 && (rock[i].0, rock[i].1 + 1) !in cells
  }

  predicate CanFall(rock: seq<Cell>, cells: set<Cell>)
  {
    forall i :: 0 <= i < |rock| ==> rock[i].0 > 1 && (rock[i].0 - 1, rock[i].1) !in cells
  }

  /**
   * The jet step: '<' moves the rock left and '>' right when every cell
   * stays in the chamber and off the tower; otherwise, or for any other
   * character, nothing moves.
   */
  function Pushed(rock: seq<Cell>, cells: set<Cell>, jet: char): (r: seq<Cell>)
    ensures |r| == |rock| && forall i :: 0 <= i < |rock| ==> r[i].0 == rock[i].0
    ensures AllInBounds(rock) ==> AllInBounds(r)
    ensures Clear(rock, cells) ==> Clear(r, cells)
    ensures r != rock ==> (jet == '<' && CanJetLeft(rock, cells) && r == Shifted(rock, 0, -1))
                          || (jet == '>' && CanJetRight(rock, cells) && r == Shifted(rock, 0, 1))
  {
    if jet == '<' && CanJetLeft(rock, cells) then Shifted(rock, 0, -1)
    else if jet == '>' && CanJetRight(rock, cells) then Shifted(rock, 0, 1)
    else rock
  }

  /**
   * The rock movement loop: jet, advance the jet index, then fall while it
   * can. Returns the resting rock and the next jet index.
   */
  function Settle(rock: seq<Cell>, cells: set<Cell>, jets: seq<char>, j: nat): (r: (seq<Cell>, nat))
    requires |jets| > 0 && j < |jets| && |rock| > 0
    ensures |r.0| == |rock| && r.1 < |jets|
    ensures AllInBounds(rock) ==> AllInBounds(r.0)
    ensures Clear(rock, cells) ==> Clear(r.0, cells)
    ensures !CanFall(r.0, cells)
    decreases rock[0].0
  {
    var pushed := Pushed(rock, cells, jets[j]);
    var next := (j + 1) % |jets|;
    if CanFall(pushed, cells) then Settle(Shifted(pushed, -1, 0), cells, jets, next)
    else (pushed, next)
  }

  /** The rock movement loop of `play_for_n_rounds`. */
  method Descend(rock: seq<Cell>, cells: set<Cell>, jets: seq<char>, j: nat) returns (r: seq<Cell>, k: nat)
    requires |jets| > 0 && j < |jets| && |rock| > 0
    ensures (r, k) == Settle(rock, cells, jets, j)
  {
    r, k := rock, j;
    while true
      invariant |r| == |rock| && k < |jets|
      invariant Settle(r, cells, jets, k) == Settle(rock, cells, jets, j)
      decreases r[0].0
    {
      var jet := jets[k];
      ghost var before := r;
      if jet == '<' && CanJetLeft(r, cells) {
        r := Shift(r, 0, -1);
      } else if jet == '>' && CanJetRight(r, cells) {
        r := Shift(r, 0, 1);
      }
      assert r == Pushed(before, cells, jet);
      k := (k + 1) % |jets|;
      if !CanFall(r, cells) {
        break;
      }
      r := Shift(r, -1, 0);
    }
  }

  // ------------------------------------------------------------ the tower

  /** The taller of two heights. */
  function Higher(a: nat, b: int): (r: nat)
    ensures r >= a && r >= b && (r == a || r == b)
  {
    if b > a then b else a
  }

  /** `floor[x] = floor[x].max(y)` for one resting cell. */
  function RaiseCell(floor: seq<nat>, c: Cell): (r: seq<nat>)
    requires |floor| == Width && InBounds(c)
    ensures |r| == Width
  {
    floor[c.1 := Higher(floor[c.1], c.0)]
  }

  /** The heights after every cell of a resting rock, in order. */
  function Raise(floor: seq<nat>, rock: seq<Cell>): (r: seq<nat>)
    requires |floor| == Width && AllInBounds(rock)
    ensures |r| == Width && forall c :: 0 <= c < Width ==> r[c] >= floor[c]
  {
    if rock == [] then floor
    else RaiseCell(Raise(floor, rock[..|rock| - 1]), rock[|rock| - 1])
  }

  /** `floor[c]` is the highest tower cell in column `c`, or 0 for an empty column. */
  predicate Heights(floor: seq<nat>, cells: set<Cell>)
  {
    |floor| == Width
    && (forall p :: p in cells && 0 <= p.1 < Width ==> p.0 <= floor[p.1])
    && forall c :: 0 <= c < Width ==> floor[c] == 0 || (floor[c] as int, c) in cells
  }

  lemma RaiseCellHeights(floor: seq<nat>, cells: set<Cell>, c: Cell)
    requires Heights(floor, cells) && InBounds(c)
    ensures Heights(RaiseCell(floor, c), cells + {c})
  {
  }

  lemma {:induction false} RaiseHeights(floor: seq<nat>, cells: set<Cell>, rock: seq<Cell>)
    requires Heights(floor, cells) && AllInBounds(rock)
    ensures Heights(Raise(floor, rock), cells + CellsOf(rock))
  {
    if rock != [] {
      var front, last := rock[..|rock| - 1], rock[|rock| - 1];
      RaiseHeights(floor, cells, front);
      RaiseCellHeights(Raise(floor, front), cells + CellsOf(front), last);
      CellsSnoc(rock);
    }
  }

  lemma CellsSnoc(rock: seq<Cell>)
    requires rock != []
    ensures CellsOf(rock) == CellsOf(rock[..|rock| - 1]) + {rock[|rock| - 1]}
  {
    var front := rock[..|rock| - 1];
    forall c | c in CellsOf(rock)
      ensures c in CellsOf(front) + {rock[|rock| - 1]}
    {
      var i :| 0 <= i < |rock| && rock[i] == c;
      if i < |front| {
        assert front[i] == c;
      }
    }
    forall c | c in CellsOf(front)
      ensures c in CellsOf(rock)
    {
      var i :| 0 <= i < |front| && front[i] == c;
      assert rock[i] == c;
    }
  }

  /**
   * The loop "updating tower": every cell of the resting rock raises its
   * column's height and joins the tower. The heights only grow.
   */
  method Rest(floor: array<nat>, cells: set<Cell>, rock: seq<Cell>) returns (cells': set<Cell>)
    requires floor.Length == Width && AllInBounds(rock)
    modifies floor
    ensures floor[..] == Raise(old(floor[..]), rock)
    ensures cells' == cells + CellsOf(rock)
    ensures forall c :: 0 <= c < Width ==> floor[c] >= old(floor[c])
  {
    cells' := cells;
    ghost var start := floor[..];
    for i := 0 to |rock|
      invariant floor[..] == Raise(start, rock[..i])
      invariant cells' == cells + CellsOf(rock[..i])
    {
      var pos := rock[i];
      assert rock[..i + 1][..i] == rock[..i];
      CellsSnoc(rock[..i + 1]);
      floor[pos.1] := Higher(floor[pos.1], pos.0);
      cells' := cells' + {pos};
    }
    assert rock[..|rock|] == rock;
  }

  /** `floor.iter().max().unwrap()`: the tallest column. */
  function Top(floor: seq<nat>): (r: nat)
    requires |floor| > 0
    ensures r in floor && forall i :: 0 <= i < |floor| ==> floor[i] <= r
  {
    TopOf(floor, |floor|)
  }

  /** The tallest of the first `k` columns. */
  function TopOf(floor: seq<nat>, k: nat): (r: nat)
    requires 0 < k <= |floor|
    ensures (exists i :: 0 <= i < k && floor[i] == r) && forall i :: 0 <= i < k ==> floor[i] <= r
  {
    if k == 1 then floor[0]
    else Higher(TopOf(floor, k - 1), floor[k - 1])
  }

  /** The whole game state between rocks. */
  datatype Tower = Tower(cells: set<Cell>, floor: seq<nat>, piece: nat, jet: nat)

  /** What holds between rocks: indices in range, cells inside the chamber, heights exact. */
  predicate WellBuilt(t: Tower, jets: seq<char>)
  {
    t.piece < Pieces && t.jet < |jets|
    && (forall p :: p in t.cells ==> InBounds(p))
    && Heights(t.floor, t.cells)
  }

  /** The rock of the current piece, spawned above the tower and settled. */
  function Landed(t: Tower, jets: seq<char>): (r: (seq<Cell>, nat))
    requires |jets| > 0 && t.jet < |jets| && t.piece < Pieces && |t.floor| == Width
    ensures AllInBounds(r.0) && r.1 < |jets|
    ensures r == Settle(Spawn(t.piece, Top(t.floor) + 4), t.cells, jets, t.jet)
  {
    var m := Top(t.floor) + 4;
    SpawnInBounds(t.piece, m);
    Settle(Spawn(t.piece, m), t.cells, jets, t.jet)
  }

  lemma SpawnInBounds(piece: nat, m: int)
    requires piece < Pieces && m >= 1
    ensures AllInBounds(Spawn(piece, m))
  {
  }

  /** One round: spawn, move until rest, add to the tower, next piece. */
  function RoundStep(t: Tower, jets: seq<char>): (r: Tower)
    requires |jets| > 0 && t.jet < |jets| && t.piece < Pieces && |t.floor| == Width
    ensures r.jet < |jets| && r.piece < Pieces && |r.floor| == Width
  {
    var (rock, next) := Landed(t, jets);
    Tower(t.cells + CellsOf(rock), Raise(t.floor, rock), (t.piece + 1) % Pieces, next)
  }

  /** The state after `k` rounds played one by one from the empty chamber. */
  function Simulate(jets: seq<char>, k: nat): (r: Tower)
    requires |jets| > 0
    ensures r.jet < |jets| && r.piece < Pieces && |r.floor| == Width
  {
    if k == 0 then Tower({}, seq(Width, _ => 0), 0, 0)
    else RoundStep(Simulate(jets, k - 1), jets)
  }

  /** The tower's height after `k` rounds played one by one. */
  function Height(jets: seq<char>, k: nat): nat
    requires |jets| > 0
  {
    Top(Simulate(jets, k).floor)
  }

  /** A spawned rock is clear of the tower: all its cells are above the tallest column. */
  lemma SpawnClear(t: Tower, jets: seq<char>)
    requires WellBuilt(t, jets)
    ensures Clear(Spawn(t.piece, Top(t.floor) + 4), t.cells)
  {
  }

  /** Every rock comes to rest clear of the tower: rocks never overlap. */
  lemma LandedClear(t: Tower, jets: seq<char>)
    requires |jets| > 0 && WellBuilt(t, jets)
    ensures Clear(Landed(t, jets).0, t.cells)
  {
    SpawnClear(t, jets);
    LandedKeepsClear(t, jets);
  }

  lemma LandedKeepsClear(t: Tower, jets: seq<char>)
    requires |jets| > 0 && t.jet < |jets| && t.piece < Pieces && |t.floor| == Width
    requires Clear(Spawn(t.piece, Top(t.floor) + 4), t.cells)
    ensures Clear(Landed(t, jets).0, t.cells)
  {
  }

  lemma CellsInBounds(rock: seq<Cell>)
    requires AllInBounds(rock)
    ensures forall p :: p in CellsOf(rock) ==> InBounds(p)
  {
  }

  /** Every round keeps the state well built, and no column's height goes down. */
  lemma RoundWellBuilt(t: Tower, jets: seq<char>)
    requires |jets| > 0 && WellBuilt(t, jets)
    ensures WellBuilt(RoundStep(t, jets), jets)
    ensures forall c :: 0 <= c < Width ==> RoundStep(t, jets).floor[c] >= t.floor[c]
  {
    var (rock, next) := Landed(t, jets);
    BuildStep(t, jets, rock, next);
  }

  /** Adding a resting rock inside the chamber, and the next piece and jet, keeps the state well built. */
  lemma BuildStep(t: Tower, jets: seq<char>, rock: seq<Cell>, next: nat)
    requires WellBuilt(t, jets) && AllInBounds(rock) && next < |jets|
    ensures WellBuilt(Tower(t.cells + CellsOf(rock), Raise(t.floor, rock), (t.piece + 1) % Pieces, next), jets)
  {
    RaiseHeights(t.floor, t.cells, rock);
    CellsInBounds(rock);
  }

  /** After any number of rounds the state is well built. */
  lemma {:induction false} SimulateWellBuilt(jets: seq<char>, k: nat)
    requires |jets| > 0
    ensures WellBuilt(Simulate(jets, k), jets)
  {
    if k > 0 {
      var m := k - 1;
      SimulateWellBuilt(jets, m);
      NextWellBuilt(jets, m);
    }
  }

  lemma NextWellBuilt(jets: seq<char>, k: nat)
    requires |jets| > 0 && WellBuilt(Simulate(jets, k), jets)
    ensures WellBuilt(Simulate(jets, k + 1), jets)
    ensures forall c :: 0 <= c < Width ==> Simulate(jets, k).floor[c] <= Simulate(jets, k + 1).floor[c]
  {
    RoundWellBuilt(Simulate(jets, k), jets);
  }

  /** Column heights never decrease from one round to a later one. */
  lemma {:induction false} FloorMonotone(jets: seq<char>, a: nat, b: nat, c: nat)
    requires |jets| > 0 && a <= b && c < Width
    ensures Simulate(jets, a).floor[c] <= Simulate(jets, b).floor[c]
    decreases b - a
  {
    if a < b {
      var next := a + 1;
      FloorStep(jets, a);
      FloorMonotone(jets, next, b, c);
      assert Simulate(jets, a).floor[c] <= Simulate(jets, next).floor[c] <= Simulate(jets, b).floor[c];
    }
  }

  lemma FloorStep(jets: seq<char>, k: nat)
    requires |jets| > 0
    ensures forall c :: 0 <= c < Width ==> Simulate(jets, k).floor[c] <= Simulate(jets, k + 1).floor[c]
  {
    SimulateWellBuilt(jets, k);
    NextWellBuilt(jets, k);
  }

  /** Nor does the tower's height. */
  lemma HeightMonotone(jets: seq<char>, a: nat, b: nat)
    requires |jets| > 0 && a <= b
    ensures Height(jets, a) <= Height(jets, b)
  {
    forall c | 0 <= c < Width
      ensures Simulate(jets, a).floor[c] <= Simulate(jets, b).floor[c]
    {
      FloorMonotone(jets, a, b, c);
    }
    TopMonotone(Simulate(jets, a).floor, Simulate(jets, b).floor);
  }

  lemma TopMonotone(fa: seq<nat>, fb: seq<nat>)
    requires |fa| == |fb| > 0 && forall i :: 0 <= i < |fa| ==> fa[i] <= fb[i]
    ensures Top(fa) <= Top(fb)
  {
    var i :| 0 <= i < |fa| && fa[i] == Top(fa);
  }

  // ------------------------------------------------------------ the cycle skip

  /** The cache value: differences of neighbouring column heights (the sixth entry stays 0). */
  function Profile(floor: seq<nat>): (r: seq<int>)
    requires |floor| == Width
    ensures |r| == 6 && r[5] == 0
    ensures forall i :: 0 <= i < 5 ==> r[i] == floor[i] as int - floor[i + 1] as int
  {
    seq(6, i requires 0 <= i < 6 => if i < 5 then floor[i] as int - floor[i + 1] as int else 0)
  }

  lemma DivBounds(a: nat, len: nat)
    requires len > 0
    ensures a == (a / len) * len + a % len && 0 <= a % len < len
  {
  }

  lemma MulMod(q: nat, len: nat)
    requires len > 0
    ensures (q * len) % len == 0
  {
    ModUnique(q * len, len, q, 0);
  }

  /** The quotient and remainder are the only ones. */
  lemma DivUnique(a: nat, q: nat, len: nat)
    requires len > 0 && q * len <= a < q * len + len
    ensures a / len == q && a % len == a - q * len
  {
    ModUnique(a, len, q, a - q * len);
    DivBounds(a, len);
    var p := a / len;
    assert p * len == q * len;
  }

  /**
   * The round counter after the skip, as written: `round` plus as many whole
   * cycles as fit in the remaining rounds. It can reach `n` itself.
   */
  function SkipAsWritten(n: nat, round: nat, roundOld: nat): (r: nat)
    requires roundOld < round < n
    ensures round <= r <= n && (r - round) % (round - roundOld) == 0
  {
    var len := round - roundOld;
    DivBounds(n - round, len);
    MulMod((n - round) / len, len);
    round + ((n - round) / len) * len
  }

  /**
   * When the remaining rounds are a whole number of cycles, the skip lands
   * on `n`; the round then played ends at `n + 1`, past the loop's only exit
   * `round == n`, and the counter only grows from there.
   */
  lemma SkipOvershoots(n: nat, round: nat, roundOld: nat)
    requires roundOld < round < n && (n - round) % (round - roundOld) == 0
    ensures SkipAsWritten(n, round, roundOld) + 1 == n + 1
  {
    DivBounds(n - round, round - roundOld);
  }

  /** A cycle of 5 found at round 6 with `n` = 11, so 5 rounds left: the skip lands on 11. */
  lemma SkipOvershootsExample()
    ensures SkipAsWritten(11, 6, 1) == 11
  {
  }

  /**
   * The corrected skip: only whole cycles that leave the current round still
   * to be played, so the counter stays below `n`.
   */
  function Skip(n: nat, round: nat, roundOld: nat): (r: nat)
    requires roundOld < round < n
    ensures round <= r < n && (r - round) % (round - roundOld) == 0
  {
    var len := round - roundOld;
    DivBounds(n - round - 1, len);
    MulMod((n - round - 1) / len, len);
    round + ((n - round - 1) / len) * len
  }

  /** Except when it would land on `n`, the corrected skip is the one written. */
  lemma SkipAgrees(n: nat, round: nat, roundOld: nat)
    requires roundOld < round < n && (n - round) % (round - roundOld) != 0
    ensures Skip(n, round, roundOld) == SkipAsWritten(n, round, roundOld)
  {
    var len := round - roundOld;
    var a := n - round;
    var q := a / len;
    DivBounds(a, len);
    DivUnique(a - 1, q, len);
  }

  // ------------------------------------------------------------ the game

  /** The cache key of a state. */
  function KeyOf(t: Tower): (nat, nat)
  {
    (t.piece, t.jet)
  }

  /** Every cache entry records the profile, round and height of an earlier round with that key. */
  ghost predicate CacheSound(cache: map<(nat, nat), (seq<int>, nat, nat)>, jets: seq<char>, round: nat)
    requires |jets| > 0
  {
    forall key :: key in cache ==>
      var (prof, r0, h0) := cache[key];
      r0 < round && KeyOf(Simulate(jets, r0)) == key
      && prof == Profile(Simulate(jets, r0).floor) && h0 == Height(jets, r0)
  }

  /**
   * `play_for_n_rounds`, with the corrected skip. None is the panic of
   * indexing an empty jet pattern. The `n` rounds are the `played` rounds
   * played one by one and the `jump.skipped` rounds skipped, and the result
   * is the height after the rounds played plus the height the skip adds.
   * Without a skip nothing is skipped and the result is the height after
   * `n` rounds; with one, the skip is whole cycles between two rounds in the
   * same state up to the profile (`CycleSkipped`).
   */
  method PlayForRounds(jets: seq<char>, n: nat) returns (r: Option<nat>, ghost played: nat, ghost jump: Jump)
    ensures r.None? <==> n > 0 && jets == []
    ensures r.Some? && n > 0 ==> played + jump.skipped == n && r.value == Height(jets, played) + jump.gain
    ensures r.Some? && n > 0 ==>
      (jump.skipped == 0 && jump.gain == 0) || CycleSkipped(jets, n, jump)
  {
    if jets == [] {
      r := if n == 0 then Some(0) else None;
      played, jump := 0, Jump(0, 0, 0, 0, 0);
    } else {
      var height;
      height, played, jump := Play(jets, n);
      r := Some(height);
    }
  }

  /** The loop of `play_for_n_rounds` once the jet pattern is known not to be empty. */
  method Play(jets: seq<char>, n: nat) returns (height: nat, ghost played: nat, ghost jump: Jump)
    requires |jets| > 0
    ensures played + jump.skipped == n && height == Height(jets, played) + jump.gain
    ensures (jump.skipped == 0 && jump.gain == 0) || CycleSkipped(jets, n, jump)
  {
    var pieceIdx: nat, jetIdx: nat := 0, 0;
    var tower: set<Cell> := {};
    var floor := new nat[Width](_ => 0);
    var cache: map<(nat, nat), (seq<int>, nat, nat)> := map[];
    var bonus: Option<nat> := None;
    var round := 0;
    jump, played := Jump(0, 0, 0, 0, 0), 0;
    assert floor[..] == seq(Width, _ => 0);
    assert Tower(tower, floor[..], pieceIdx, jetIdx) == Simulate(jets, 0);
    LoopStart(jets, n);
    while true
      invariant LoopInv(jets, n, round, played, Tower(tower, floor[..], pieceIdx, jetIdx), cache, bonus, jump)
      decreases n - round
    {
      if round == n {
        break;
      }
      round, tower, pieceIdx, jetIdx, cache, bonus, jump := Round(jets, n, round, floor, tower, pieceIdx, jetIdx, cache, bonus, played, jump);
      played := played + 1;
    }
    var extra := if bonus.Some? then bonus.value else 0;
    LoopEnd(jets, n, played, Tower(tower, floor[..], pieceIdx, jetIdx), cache, bonus, jump, extra);
    height := Top(floor[..]) + extra;
  }

  /** One pass of the loop of `play_for_n_rounds`: the cycle check, then one round played. */
  method Round(jets: seq<char>, n: nat, round: nat, floor: array<nat>, tower: set<Cell>, pieceIdx: nat, jetIdx: nat,
               cache: map<(nat, nat), (seq<int>, nat, nat)>, bonus: Option<nat>, ghost played: nat, ghost jump: Jump)
      returns (round': nat, tower': set<Cell>, pieceIdx': nat, jetIdx': nat,
               cache': map<(nat, nat), (seq<int>, nat, nat)>, bonus': Option<nat>, ghost jump': Jump)
    requires |jets| > 0 && round < n && floor.Length == Width
    requires LoopInv(jets, n, round, played, Tower(tower, floor[..], pieceIdx, jetIdx), cache, bonus, jump)
    modifies floor
    ensures round < round'
    ensures LoopInv(jets, n, round', played + 1, Tower(tower', floor[..], pieceIdx', jetIdx'), cache', bonus', jump')
  {
    var now := Tower(tower, floor[..], pieceIdx, jetIdx);
    var r;
    r, cache', bonus', jump' := CycleStep(jets, n, round, now, cache, bonus, played, jump);
    tower', pieceIdx', jetIdx' := PlayRound(floor, tower, pieceIdx, jetIdx, jets);
    Advance(jets, n, r, played, now, cache', bonus', jump');
    assert Tower(tower', floor[..], pieceIdx', jetIdx') == RoundStep(now, jets);
    round' := r + 1;
  }

  /** The loop invariant holds before the first round. */
  lemma LoopStart(jets: seq<char>, n: nat)
    requires |jets| > 0
    ensures LoopInv(jets, n, 0, 0, Simulate(jets, 0), map[], None, Jump(0, 0, 0, 0, 0))
  {
  }

  /** What the loop invariant gives once all `n` rounds are accounted for. */
  lemma LoopEnd(jets: seq<char>, n: nat, played: nat, now: Tower, cache: map<(nat, nat), (seq<int>, nat, nat)>, bonus: Option<nat>, jump: Jump, extra: nat)
    requires |jets| > 0 && LoopInv(jets, n, n, played, now, cache, bonus, jump)
    requires extra == if bonus.Some? then bonus.value else 0
    ensures played + jump.skipped == n && Top(now.floor) == Height(jets, played) && extra == jump.gain
    ensures (jump.skipped == 0 && jump.gain == 0) || CycleSkipped(jets, n, jump)
  {
  }

  /** The bookkeeping of a skip: the cycle from `r0` to `r1`, repeated `cycles` times over `skipped` rounds, adding `gain`. */
  datatype Jump = Jump(r0: nat, r1: nat, cycles: nat, skipped: nat, gain: nat)

  /**
   * What holds of the loop at every round: the rounds played one by one
   * and those skipped make up `round`, the state is that of the rounds
   * played, and the bonus is the height a skip adds.
   */
  ghost predicate Progress(jets: seq<char>, n: nat, round: nat, played: nat, now: Tower, bonus: Option<nat>, jump: Jump)
    requires |jets| > 0
  {
    round <= n && played + jump.skipped == round && now == Simulate(jets, played)
    && (bonus.None? ==> jump.skipped == 0 && jump.gain == 0)
    && (bonus.Some? ==> bonus.value == jump.gain && CycleSkipped(jets, n, jump))
  }

  /** The loop invariant at the top of a round: until a skip, the cache holds only earlier rounds. */
  ghost predicate LoopInv(jets: seq<char>, n: nat, round: nat, played: nat, now: Tower, cache: map<(nat, nat), (seq<int>, nat, nat)>, bonus: Option<nat>, jump: Jump)
    requires |jets| > 0
  {
    Progress(jets, n, round, played, now, bonus, jump)
    && (bonus.None? ==> CacheSound(cache, jets, round))
    && (bonus.Some? ==> jump.r1 + jump.skipped < round)
  }

  /** The state after the cycle check, before the round is played: the cache holds this round too. */
  ghost predicate Checked(jets: seq<char>, n: nat, round: nat, played: nat, now: Tower, cache: map<(nat, nat), (seq<int>, nat, nat)>, bonus: Option<nat>, jump: Jump)
    requires |jets| > 0
  {
    Progress(jets, n, round, played, now, bonus, jump) && round < n
    && (bonus.None? ==> CacheSound(cache, jets, round + 1))
    && (bonus.Some? ==> jump.r1 + jump.skipped <= round)
  }

  /** Playing the round after the cycle check restores the loop invariant. */
  lemma Advance(jets: seq<char>, n: nat, round: nat, played: nat, now: Tower, cache: map<(nat, nat), (seq<int>, nat, nat)>, bonus: Option<nat>, jump: Jump)
    requires |jets| > 0 && Checked(jets, n, round, played, now, cache, bonus, jump)
    ensures LoopInv(jets, n, round + 1, played + 1, RoundStep(now, jets), cache, bonus, jump)
  {
  }

  /** The cycle check of one round, only while no skip has been made. */
  method CycleStep(jets: seq<char>, n: nat, round: nat, now: Tower, cache: map<(nat, nat), (seq<int>, nat, nat)>, bonus: Option<nat>, ghost played: nat, ghost jump: Jump)
      returns (round': nat, cache': map<(nat, nat), (seq<int>, nat, nat)>, bonus': Option<nat>, ghost jump': Jump)
    requires |jets| > 0 && round < n && LoopInv(jets, n, round, played, now, cache, bonus, jump)
    ensures round <= round' && Checked(jets, n, round', played, now, cache', bonus', jump')
  {
    round', cache', bonus', jump' := round, cache, bonus, jump;
    if bonus.None? {
      assert played == round;
      var found, next, cyclesToSkip, cycleGain, roundOld;
      ghost var cycle;
      cache', found, next, cyclesToSkip, cycleGain, roundOld, cycle := CheckCycle(jets, n, round, now, cache);
      if found {
        jump' := Jump(roundOld, round, cyclesToSkip, next - round, cycleGain);
        round', bonus', cache' := next, Some(cycleGain), cache;
        CheckedBySkip(jets, n, round, next, played, now, cache, roundOld, cyclesToSkip, cycleGain);
      } else {
        CheckedByCache(jets, n, round, played, now, cache', jump);
      }
    } else {
      CheckedBySkipBefore(jets, n, round, played, now, cache, bonus, jump);
    }
  }

  /** A round not yet cached, now cached. */
  lemma CheckedByCache(jets: seq<char>, n: nat, round: nat, played: nat, now: Tower, cache: map<(nat, nat), (seq<int>, nat, nat)>, jump: Jump)
    requires |jets| > 0 && round < n && played == round && now == Simulate(jets, played)
    requires CacheSound(cache, jets, round + 1) && jump.skipped == 0 && jump.gain == 0
    ensures Checked(jets, n, round, played, now, cache, None, jump)
  {
  }

  /** A skip just found, from round `jump.r1`. */
  lemma CheckedBySkip(jets: seq<char>, n: nat, round: nat, next: nat, played: nat, now: Tower, cache: map<(nat, nat), (seq<int>, nat, nat)>, roundOld: nat, cycles: nat, gain: nat)
    requires |jets| > 0 && played == round <= next && now == Simulate(jets, played)
    requires CycleSkipped(jets, n, Jump(roundOld, round, cycles, next - round, gain))
    ensures Checked(jets, n, next, played, now, cache, Some(gain), Jump(roundOld, round, cycles, next - round, gain))
  {
  }

  /** A skip made in an earlier round. */
  lemma CheckedBySkipBefore(jets: seq<char>, n: nat, round: nat, played: nat, now: Tower, cache: map<(nat, nat), (seq<int>, nat, nat)>, bonus: Option<nat>, jump: Jump)
    requires |jets| > 0 && round < n && bonus.Some? && LoopInv(jets, n, round, played, now, cache, bonus, jump)
    ensures Checked(jets, n, round, played, now, cache, bonus, jump)
  {
  }

  /**
   * Rounds `jump.r0 < jump.r1` before `n` share their piece, jet index and
   * profile, and from `jump.r1` on `jump.skipped` rounds, `jump.cycles`
   * repetitions of the rounds between them, are skipped, each adding the
   * height gained from `jump.r0` to `jump.r1`, `jump.gain` in all.
   */
  ghost predicate CycleSkipped(jets: seq<char>, n: nat, jump: Jump)
    requires |jets| > 0
  {
    jump.r0 < jump.r1 < n && KeyOf(Simulate(jets, jump.r0)) == KeyOf(Simulate(jets, jump.r1))
    && Profile(Simulate(jets, jump.r0).floor) == Profile(Simulate(jets, jump.r1).floor)
    && Planned(n, jump.r1, jump.r0, Height(jets, jump.r1), Height(jets, jump.r0), jump.r1 + jump.skipped, jump.cycles, jump.gain)
  }

  /**
   * The cycle detection of `play_for_n_rounds`: the cache is keyed on the
   * piece and jet indices and holds the profile, round and height. If the
   * key is cached with the same profile, skip whole cycles; if it is not
   * cached, cache it.
   */
  method CheckCycle(jets: seq<char>, n: nat, round: nat, now: Tower, cache: map<(nat, nat), (seq<int>, nat, nat)>)
      returns (cache': map<(nat, nat), (seq<int>, nat, nat)>, found: bool, next: nat, cyclesToSkip: nat, gain: nat, roundOld: nat, ghost jump: Jump)
    requires |jets| > 0 && round < n && now == Simulate(jets, round) && CacheSound(cache, jets, round)
    ensures !found ==> CacheSound(cache', jets, round + 1)
    ensures found ==> round <= next && jump == Jump(roundOld, round, cyclesToSkip, next - round, gain) && CycleSkipped(jets, n, jump)
  {
    cache', found, next, cyclesToSkip, gain, roundOld, jump := cache, false, round, 0, 0, 0, Jump(0, 0, 0, 0, 0);
    var key := (now.piece, now.jet);
    var profile := Profile(now.floor);
    var maxHeight := Top(now.floor);
    if key in cache {
      if cache[key].0 == profile {
        found := true;
        next, cyclesToSkip, gain, roundOld, jump := CycleHit(jets, n, round, now, cache);
      } else {
        CacheLater(cache, jets, round);
      }
    } else {
      CacheInsert(cache, jets, round, now);
      cache' := cache[key := (profile, round, maxHeight)];
    }
  }

  /** The skip planned from a cache hit with the same profile. */
  method CycleHit(jets: seq<char>, n: nat, round: nat, now: Tower, cache: map<(nat, nat), (seq<int>, nat, nat)>)
    returns (next: nat, cyclesToSkip: nat, gain: nat, roundOld: nat, ghost jump: Jump)
    requires |jets| > 0 && round < n && now == Simulate(jets, round) && CacheSound(cache, jets, round)
    requires KeyOf(now) in cache && cache[KeyOf(now)].0 == Profile(now.floor)
    ensures round <= next && jump == Jump(roundOld, round, cyclesToSkip, next - round, gain) && CycleSkipped(jets, n, jump)
  {
    var entry := cache[KeyOf(now)];
    CycleFound(cache, jets, round, now);
    roundOld := entry.1;
    next, cyclesToSkip, gain := SkipPlan(n, round, roundOld, Top(now.floor), entry.2);
    SkipSound(cache, jets, n, round, now, next, cyclesToSkip, gain);
    jump := Jump(roundOld, round, cyclesToSkip, next - round, gain);
  }

  /** A cache hit with the same profile is an earlier round in the same state up to the profile. */
  lemma CycleFound(cache: map<(nat, nat), (seq<int>, nat, nat)>, jets: seq<char>, round: nat, now: Tower)
    requires |jets| > 0 && CacheSound(cache, jets, round) && now == Simulate(jets, round)
    requires KeyOf(now) in cache && cache[KeyOf(now)].0 == Profile(now.floor)
    ensures var entry := cache[KeyOf(now)];
      entry.1 < round && KeyOf(Simulate(jets, entry.1)) == KeyOf(now)
      && Profile(Simulate(jets, entry.1).floor) == Profile(now.floor)
      && entry.2 == Height(jets, entry.1) <= Height(jets, round) == Top(now.floor)
  {
    HeightMonotone(jets, cache[KeyOf(now)].1, round);
  }

  /** A skip planned from a cache hit with the same profile skips whole cycles. */
  lemma SkipSound(cache: map<(nat, nat), (seq<int>, nat, nat)>, jets: seq<char>, n: nat, round: nat, now: Tower, next: nat, cycles: nat, gain: nat)
    requires |jets| > 0 && CacheSound(cache, jets, round) && now == Simulate(jets, round) && round < n
    requires KeyOf(now) in cache && cache[KeyOf(now)].0 == Profile(now.floor)
    requires cache[KeyOf(now)].1 < round <= next
    requires Planned(n, round, cache[KeyOf(now)].1, Top(now.floor), cache[KeyOf(now)].2, next, cycles, gain)
    ensures CycleSkipped(jets, n, Jump(cache[KeyOf(now)].1, round, cycles, next - round, gain))
  {
    var entry := cache[KeyOf(now)];
    CycleFound(cache, jets, round, now);
    assert entry.2 == Height(jets, entry.1) && Top(now.floor) == Height(jets, round);
    assert Planned(n, round, entry.1, Height(jets, round), Height(jets, entry.1), round + (next - round), cycles, gain);
    assert KeyOf(Simulate(jets, entry.1)) == KeyOf(Simulate(jets, round));
    assert Profile(Simulate(jets, entry.1).floor) == Profile(Simulate(jets, round).floor);
    var j := Jump(entry.1, round, cycles, next - round, gain);
    assert j.r0 == entry.1 && j.r1 == round && j.cycles == cycles && j.r1 + j.skipped == next && j.gain == gain;
    assert entry.1 < round < n;
    assert Planned(n, j.r1, j.r0, Height(jets, j.r1), Height(jets, j.r0), j.r1 + j.skipped, j.cycles, j.gain);
    assert KeyOf(Simulate(jets, j.r0)) == KeyOf(Simulate(jets, j.r1));
    assert Profile(Simulate(jets, j.r0).floor) == Profile(Simulate(jets, j.r1).floor);
    assert CycleSkipped(jets, n, j);
  }

  /** A cache sound for one round is sound for the next. */
  lemma CacheLater(cache: map<(nat, nat), (seq<int>, nat, nat)>, jets: seq<char>, round: nat)
    requires |jets| > 0 && CacheSound(cache, jets, round)
    ensures CacheSound(cache, jets, round + 1)
  {
  }

  /** Caching the current round keeps the cache sound for the next one. */
  lemma CacheInsert(cache: map<(nat, nat), (seq<int>, nat, nat)>, jets: seq<char>, round: nat, now: Tower)
    requires |jets| > 0 && CacheSound(cache, jets, round) && now == Simulate(jets, round)
    ensures CacheSound(cache[KeyOf(now) := (Profile(now.floor), round, Top(now.floor))], jets, round + 1)
  {
  }

  /**
   * A skip of whole cycles from `round`, each `round - roundOld` rounds long
   * and adding `height - heightOld`, that stops before round `n`.
   */
  predicate Planned(n: nat, round: nat, roundOld: nat, height: nat, heightOld: nat, next: nat, cyclesToSkip: nat, gain: nat)
  {
    roundOld < round && heightOld <= height
    && next == round + Times(cyclesToSkip, round - roundOld) && next < n
    && gain == Times(cyclesToSkip, height - heightOld)
  }

  /** `k` copies of `x` added up. */
  function Times(k: nat, x: nat): nat
  {
    if k == 0 then 0 else x + Times(k - 1, x)
  }

  /** Adding up `k` copies of `x` is multiplying. */
  lemma {:induction false} TimesProduct(k: nat, x: nat)
    ensures Times(k, x) == k * x
  {
    if k > 0 {
      TimesProduct(k - 1, x);
    }
  }

  /**
   * The skip once a cycle from `roundOld` to `round` is found: the round to
   * go on from, the whole cycles skipped and the height they add.
   */
  method SkipPlan(n: nat, round: nat, roundOld: nat, height: nat, heightOld: nat) returns (next: nat, cyclesToSkip: nat, gain: nat)
    requires roundOld < round < n && heightOld <= height
    ensures round <= next && Planned(n, round, roundOld, height, heightOld, next, cyclesToSkip, gain)
  {
    var cycleLength := round - roundOld;
    next := Skip(n, round, roundOld);
    cyclesToSkip := (next - round) / cycleLength;
    var cycleHeight := height - heightOld;
    SkipCycles(n, round, roundOld);
    gain := cyclesToSkip * cycleHeight;
    TimesProduct(cyclesToSkip, cycleLength);
    TimesProduct(cyclesToSkip, cycleHeight);
  }

  /** One round of the loop body after the cycle check: spawn, move until rest, update the tower. */
  method PlayRound(floor: array<nat>, tower: set<Cell>, pieceIdx: nat, jetIdx: nat, jets: seq<char>)
      returns (tower': set<Cell>, pieceIdx': nat, jetIdx': nat)
    requires |jets| > 0 && floor.Length == Width && pieceIdx < Pieces && jetIdx < |jets|
    modifies floor
    ensures Tower(tower', floor[..], pieceIdx', jetIdx') == RoundStep(Tower(tower, old(floor[..]), pieceIdx, jetIdx), jets)
  {
    ghost var before := Tower(tower, floor[..], pieceIdx, jetIdx);
    var m := Top(floor[..]) + 4;
    SpawnInBounds(pieceIdx, m);
    var spawned := Spawn(pieceIdx, m);
    var rock;
    rock, jetIdx' := Descend(spawned, tower, jets, jetIdx);
    LandedFrom(tower, floor[..], pieceIdx, jetIdx, jets, spawned, rock, jetIdx');
    RoundStepOf(before, jets, rock, jetIdx');
    tower' := Rest(floor, tower, rock);
    pieceIdx' := (pieceIdx + 1) % Pieces;
  }

  /** The rock spawned above the tower and settled from there is the round's landed rock. */
  lemma LandedFrom(cells: set<Cell>, floor: seq<nat>, piece: nat, jet: nat, jets: seq<char>,
                    spawned: seq<Cell>, rock: seq<Cell>, next: nat)
    requires |jets| > 0 && jet < |jets| && piece < Pieces && |floor| == Width
    requires spawned == Spawn(piece, Top(floor) + 4) && (rock, next) == Settle(spawned, cells, jets, jet)
    ensures (rock, next) == Landed(Tower(cells, floor, piece, jet), jets)
  {
    var t := Tower(cells, floor, piece, jet);
    assert t.piece == piece && t.floor == floor && t.cells == cells && t.jet == jet;
    var landed := Landed(t, jets);
    assert landed == Settle(spawned, cells, jets, jet);
  }

  /** The round once its rock has landed. */
  lemma RoundStepOf(t: Tower, jets: seq<char>, rock: seq<Cell>, next: nat)
    requires |jets| > 0 && t.jet < |jets| && t.piece < Pieces && |t.floor| == Width
    requires (rock, next) == Landed(t, jets)
    ensures RoundStep(t, jets) == Tower(t.cells + CellsOf(rock), Raise(t.floor, rock), (t.piece + 1) % Pieces, next)
  {
  }

  /** A skip to `Skip(..)` is a positive number of whole cycles. */
  lemma SkipCycles(n: nat, round: nat, roundOld: nat)
    requires roundOld < round < n
    ensures var len := round - roundOld;
      var next := Skip(n, round, roundOld);
      (next - round) / len * len == next - round
  {
    var len := round - roundOld;
    var q := (n - round - 1) / len;
    DivBounds(n - round - 1, len);
    DivUnique(q * len, q, len);
  }

  method Part1(jets: seq<char>) returns (r: Option<nat>)
    ensures r.None? <==> jets == []
  {
    ghost var played, jump;
    r, played, jump := PlayForRounds(jets, 2022);
  }

  method Part2(jets: seq<char>) returns (r: Option<nat>)
    ensures r.None? <==> jets == []
  {
    ghost var played, jump;
    r, played, jump := PlayForRounds(jets, 1000000000000);
  }
}
