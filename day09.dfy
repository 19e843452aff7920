/**
 * Day 9: a rope of knots on the plane. The head moves one square at a time;
 * every other knot follows the one before it; the puzzle counts the squares
 * the last knot visits.
 */
module Day09 {
  import opened Wrappers
  import opened Text

  type Knot = (int, int)

  /** The two knots are on the same or adjacent squares, diagonals included. */
  predicate Touching(a: Knot, b: Knot)
  {
    AbsDiff(a.0, b.0) <= 1 && AbsDiff(a.1, b.1) <= 1
  }

  /** `follow_knot`: a tail that no longer touches the head steps once towards it on each axis. */
  function FollowKnot(head: Knot, tail: Knot): (r: Knot)
    ensures Touching(head, tail) ==> r == tail
    ensures !Touching(head, tail) ==> r == (tail.0 + Sign(head.0 - tail.0), tail.1 + Sign(head.1 - tail.1))
  {
    if AbsDiff(head.0, tail.0) > 1 || AbsDiff(head.1, tail.1) > 1 then
      (tail.0 + Sign(head.0 - tail.0), tail.1 + Sign(head.1 - tail.1))
    else tail
  }

  /** A followed knot moves at most one square on each axis. */
  lemma FollowMovesOnce(head: Knot, tail: Knot)
    ensures Touching(tail, FollowKnot(head, tail))
  {
  }

  /** A tail at most two squares off on each axis touches the head once it has followed. */
  lemma FollowCloses(head: Knot, tail: Knot)
    requires AbsDiff(head.0, tail.0) <= 2 && AbsDiff(head.1, tail.1) <= 2
    ensures Touching(head, FollowKnot(head, tail))
  {
  }

  // ------------------------------------------------------------ commands

  /** `diff!`: `None` is the panic on an unknown direction. */
  function Diff(dir: string): (r: Option<Knot>)
    ensures r.Some? <==> dir in {"U", "D", "L", "R"}
    ensures r.Some? ==> Touching((0, 0), r.value) && AbsDiff(r.value.0, 0) + AbsDiff(r.value.1, 0) == 1
  {
    match dir
    case "U" => Some((0, -1))
    case "D" => Some((0, 1))
    case "L" => Some((-1, 0))
    case "R" => Some((1, 0))
    case _ => None
  }

  /** Index of the first space, if any. */
  function SpaceAt(line: string): (r: Option<nat>)
    ensures r.Some? <==> ' ' in line
    ensures r.Some? ==> r.value < |line| && line[r.value] == ' ' && ' ' !in line[..r.value]
  {
    if line == [] then None
    else if line[0] == ' ' then Some(0)
    else
      match SpaceAt(line[1..])
      case None => None
      case Some(i) =>
        assert line[..i + 1] == [line[0]] + line[1..][..i];
        Some(i + 1)
  }

  /** One line: `split_once(' ')`, a direction and a step count; `None` is a panic. */
  function ParseCommand(line: string): (r: Option<(Knot, nat)>)
    ensures r.Some? <==>
      SpaceAt(line).Some? &&
      Diff(line[..SpaceAt(line).value]).Some? && ParseNat(line[SpaceAt(line).value + 1..]).Some?
    ensures r.Some? ==> Touching((0, 0), r.value.0)
  {
    match SpaceAt(line)
    case None => None
    case Some(i) =>
      match (Diff(line[..i]), ParseNat(line[i + 1..]))
      case (Some(d), Some(n)) => Some((d, n))
      case _ => None
  }

  /** The commands of all lines, or `None` when one of them panics. */
  function Commands(lines: seq<string>): (r: Option<seq<(Knot, nat)>>)
    ensures r.Some? <==> forall i :: 0 <= i < |lines| ==> ParseCommand(lines[i]).Some?
    ensures r.Some? ==> |r.value| == |lines| && forall i :: 0 <= i < |lines| ==> Some(r.value[i]) == ParseCommand(lines[i])
  {
    if lines == [] then Some([])
    else
      match (Commands(lines[..|lines| - 1]), ParseCommand(lines[|lines| - 1]))
      case (Some(cs), Some(c)) => Some(cs + [c])
      case _ => None
  }

  function Repeat(d: Knot, n: nat): (r: seq<Knot>)
    ensures |r| == n
  {
    if n == 0 then [] else Repeat(d, n - 1) + [d]
  }

  lemma {:induction false} RepeatElements(d: Knot, n: nat)
    ensures forall i :: 0 <= i < n ==> Repeat(d, n)[i] == d
  {
    if n > 0 {
      RepeatElements(d, n - 1);
    }
  }

  /** The unit head moves the commands spell out, in order. */
  function Expand(cmds: seq<(Knot, nat)>): seq<Knot>
  {
    if cmds == [] then [] else Expand(cmds[..|cmds| - 1]) + Repeat(cmds[|cmds| - 1].0, cmds[|cmds| - 1].1)
  }

  // ------------------------------------------------------------ the rope

  /** Each knot after `lead` follows the one before it, already moved. */
  function Pull(lead: Knot, rest: seq<Knot>): (r: seq<Knot>)
    ensures |r| == |rest|
    decreases rest
  {
    if rest == [] then []
    else
      var k := FollowKnot(lead, rest[0]);
      [k] + Pull(k, rest[1..])
  }

  /** One step of the head by `d`, the rest of the rope following. */
  function Step(rope: seq<Knot>, d: Knot): (r: seq<Knot>)
    requires |rope| >= 1
    ensures |r| == |rope|
  {
    var head := (rope[0].0 + d.0, rope[0].1 + d.1);
    [head] + Pull(head, rope[1..])
  }

  /** The rope after all the moves. */
  function Final(rope: seq<Knot>, moves: seq<Knot>): (r: seq<Knot>)
    requires |rope| >= 1
    ensures |r| == |rope|
  {
    if moves == [] then rope else Step(Final(rope, moves[..|moves| - 1]), moves[|moves| - 1])
  }

  /** The squares the last knot occupies at the start and after each move. */
  function Tails(rope: seq<Knot>, moves: seq<Knot>): set<Knot>
    requires |rope| >= 1
  {
    var last := Final(rope, moves)[|rope| - 1];
    if moves == [] then {last} else Tails(rope, moves[..|moves| - 1]) + {last}
  }

  /** The tail visits at most one new square per move. */
  lemma {:induction false} TailsBound(rope: seq<Knot>, moves: seq<Knot>)
    requires |rope| >= 1
    ensures 1 <= |Tails(rope, moves)| <= |moves| + 1
  {
    if moves != [] {
      TailsBound(rope, moves[..|moves| - 1]);
    }
  }

  /** Every pair of neighbouring knots touches. */
  predicate Taut(rope: seq<Knot>)
  {
    forall i :: 0 < i < |rope| ==> Touching(rope[i - 1], rope[i])
  }

  /**
   * The rope stays taut: if the lead has moved at most one square on each
   * axis away from a taut position, the knots pulled after it are taut again.
   */
  lemma {:induction false} PullTaut(oldLead: Knot, lead: Knot, rest: seq<Knot>)
    requires Touching(oldLead, lead) && Taut([oldLead] + rest)
    ensures Taut([lead] + Pull(lead, rest))
    decreases rest
  {
    if rest != [] {
      var k := FollowKnot(lead, rest[0]);
      assert ([oldLead] + rest)[1] == rest[0];
      assert Touching(oldLead, rest[0]) by {
        assert Touching(([oldLead] + rest)[0], ([oldLead] + rest)[1]);
      }
      FollowCloses(lead, rest[0]);
      FollowMovesOnce(lead, rest[0]);
      assert Taut([rest[0]] + rest[1..]) by {
        assert [rest[0]] + rest[1..] == ([oldLead] + rest)[1..];
      }
      PullTaut(rest[0], k, rest[1..]);
      var r := [lead] + Pull(lead, rest);
      assert r == [lead] + ([k] + Pull(k, rest[1..]));
      assert r[1..] == [k] + Pull(k, rest[1..]);
    }
  }

  lemma StepTaut(rope: seq<Knot>, d: Knot)
    requires |rope| >= 1 && Taut(rope) && Touching((0, 0), d)
    ensures Taut(Step(rope, d))
  {
    var head := (rope[0].0 + d.0, rope[0].1 + d.1);
    assert rope == [rope[0]] + rope[1..];
    PullTaut(rope[0], head, rope[1..]);
  }

  /** A rope that starts taut is taut after every sequence of unit moves. */
  lemma {:induction false} FinalTaut(rope: seq<Knot>, moves: seq<Knot>)
    requires |rope| >= 1 && Taut(rope)
    requires forall i :: 0 <= i < |moves| ==> Touching((0, 0), moves[i])
    ensures Taut(Final(rope, moves))
  {
    if moves != [] {
      FinalTaut(rope, moves[..|moves| - 1]);
      StepTaut(Final(rope, moves[..|moves| - 1]), moves[|moves| - 1]);
    }
  }

  lemma ExpandUnit(cmds: seq<(Knot, nat)>)
    requires forall i :: 0 <= i < |cmds| ==> Touching((0, 0), cmds[i].0)
    ensures forall i :: 0 <= i < |Expand(cmds)| ==> Touching((0, 0), Expand(cmds)[i])
  {
    if cmds != [] {
      ExpandUnit(cmds[..|cmds| - 1]);
      RepeatElements(cmds[|cmds| - 1].0, cmds[|cmds| - 1].1);
    }
  }

  /** The rope of both parts stays taut whatever the commands. */
  lemma CommandsKeepRopeTaut(lines: seq<string>, n: nat)
    requires Commands(lines).Some? && n >= 1
    ensures Taut(Final(Start(n), Expand(Commands(lines).value)))
  {
    var cmds := Commands(lines).value;
    forall i | 0 <= i < |cmds|
      ensures Touching((0, 0), cmds[i].0)
    {
      assert Some(cmds[i]) == ParseCommand(lines[i]);
    }
    ExpandUnit(cmds);
    FinalTaut(Start(n), Expand(cmds));
  }

  /** `n` knots at the origin. */
  function Start(n: nat): (r: seq<Knot>)
    ensures |r| == n && forall i :: 0 <= i < n ==> r[i] == (0, 0)
  {
    seq(n, _ => (0, 0))
  }

  /** The answer for an `n`-knot rope: the number of squares its last knot visits. */
  function Answer(input: string, n: nat): Option<nat>
    requires n >= 1
  {
    match Commands(Lines(input))
    case None => None
    case Some(cmds) => Some(|Tails(Start(n), Expand(cmds))|)
  }

  // ------------------------------------------------------------ the loops

  lemma CommandsStep(lines: seq<string>, i: nat)
    requires i < |lines| && Commands(lines[..i]).Some? && ParseCommand(lines[i]).Some?
    ensures Commands(lines[..i + 1]) == Some(Commands(lines[..i]).value + [ParseCommand(lines[i]).value])
    ensures Expand(Commands(lines[..i + 1]).value) ==
      Expand(Commands(lines[..i]).value) + Repeat(ParseCommand(lines[i]).value.0, ParseCommand(lines[i]).value.1)
  {
    assert lines[..i + 1][..i] == lines[..i];
    var cs := Commands(lines[..i]).value + [ParseCommand(lines[i]).value];
    assert cs[..|cs| - 1] == Commands(lines[..i]).value;
  }

  lemma MoveStep(rope: seq<Knot>, moves: seq<Knot>, d: Knot)
    requires |rope| >= 1
    ensures Final(rope, moves + [d]) == Step(Final(rope, moves), d)
    ensures Tails(rope, moves + [d]) == Tails(rope, moves) + {Step(Final(rope, moves), d)[|rope| - 1]}
  {
    assert (moves + [d])[..|moves|] == moves;
  }

  lemma StepPair(head: Knot, tail: Knot, d: Knot)
    ensures var h := (head.0 + d.0, head.1 + d.1); Step([head, tail], d) == [h, FollowKnot(h, tail)]
  {
    var h := (head.0 + d.0, head.1 + d.1);
    assert [head, tail][1..] == [tail];
    assert Pull(h, [tail]) == [FollowKnot(h, tail)] + Pull(FollowKnot(h, tail), []);
  }

  /** The inner loop of part1: `steps` unit moves of a two-knot rope. */
  method WalkPair(head: Knot, tail: Knot, tails: set<Knot>, diff: Knot, steps: nat, ghost moves: seq<Knot>)
    returns (head': Knot, tail': Knot, tails': set<Knot>)
    requires [head, tail] == Final(Start(2), moves) && tails == Tails(Start(2), moves)
    ensures [head', tail'] == Final(Start(2), moves + Repeat(diff, steps))
    ensures tails' == Tails(Start(2), moves + Repeat(diff, steps))
  {
    head', tail', tails' := head, tail, tails;
    ghost var done := moves;
    assert moves + Repeat(diff, 0) == moves;
    for j := 0 to steps
      invariant done == moves + Repeat(diff, j)
      invariant [head', tail'] == Final(Start(2), done)
      invariant tails' == Tails(Start(2), done)
    {
      MoveStep(Start(2), done, diff);
      StepPair(head', tail', diff);
      head' := (head'.0 + diff.0, head'.1 + diff.1);
      tail' := FollowKnot(head', tail');
      tails' := tails' + {tail'};
      assert moves + Repeat(diff, j + 1) == done + [diff] by {
        assert Repeat(diff, j + 1) == Repeat(diff, j) + [diff];
      }
      done := done + [diff];
    }
  }

  /** part1: a head and a tail knot, the tail's squares collected in a set. */
  method Part1(input: string) returns (r: Option<nat>)
    ensures r == Answer(input, 2)
  {
    var lines := Lines(input);
    var head: Knot, tail: Knot := (0, 0), (0, 0);
    var tails: set<Knot> := {(0, 0)};
    ghost var cmds: seq<(Knot, nat)> := [];
    assert lines[..0] == [];
    for i := 0 to |lines|
      invariant Commands(lines[..i]) == Some(cmds)
      invariant [head, tail] == Final(Start(2), Expand(cmds))
      invariant tails == Tails(Start(2), Expand(cmds))
    {
      var cmd := ParseCommand(lines[i]);
      if cmd.None? {
        return None;
      }
      head, tail, tails := WalkPair(head, tail, tails, cmd.value.0, cmd.value.1, Expand(cmds));
      CommandsStep(lines, i);
      cmds := cmds + [cmd.value];
    }
    assert lines[..|lines|] == lines;
    r := Some(|tails|);
  }

  // ------------------------------------------------------------ part 2

  const Word: nat := 0x1_0000_0000

  /** part2's key for a square: `x` reinterpreted as `u32` in the high 32 bits of a 64-bit `usize`, `y` in the low ones. */
  function Pack(k: Knot): (r: nat)
    ensures r / Word == k.0 % Word && r % Word == k.1 % Word
  {
    (k.0 % Word) * Word + k.1 % Word
  }

  /** Both coordinates fit in `i32`. */
  predicate InI32(k: Knot)
  {
    -0x8000_0000 <= k.0 < 0x8000_0000 && -0x8000_0000 <= k.1 < 0x8000_0000
  }

  lemma SameResidue(a: int, b: int)
    requires -0x8000_0000 <= a < 0x8000_0000 && -0x8000_0000 <= b < 0x8000_0000
    requires a % Word == b % Word
    ensures a == b
  {
    var qa, qb := a / Word, b / Word;
    assert a == Word * qa + a % Word && b == Word * qb + b % Word;
    assert -1 <= qa <= 0 && -1 <= qb <= 0;
  }

  /** Two `i32` squares with the same key are the same square. */
  lemma PackInjective(a: Knot, b: Knot)
    requires InI32(a) && InI32(b) && Pack(a) == Pack(b)
    ensures a == b
  {
    SameResidue(a.0, b.0);
    SameResidue(a.1, b.1);
  }

  function PackAll(squares: set<Knot>): set<nat>
  {
    set k | k in squares :: Pack(k)
  }

  lemma PackAllAdd(squares: set<Knot>, k: Knot)
    ensures PackAll(squares + {k}) == PackAll(squares) + {Pack(k)}
  {
  }

  /** On `i32` squares, counting keys counts squares. */
  lemma {:induction false} PackAllSize(squares: set<Knot>)
    requires forall k :: k in squares ==> InI32(k)
    ensures |PackAll(squares)| == |squares|
    decreases |squares|
  {
    if squares != {} {
      var k :| k in squares;
      var rest := squares - {k};
      PackAllSize(rest);
      assert PackAll(squares) == PackAll(rest) + {Pack(k)};
      assert Pack(k) !in PackAll(rest) by {
        forall j | j in rest
          ensures Pack(j) != Pack(k)
        {
          if Pack(j) == Pack(k) {
            PackInjective(j, k);
          }
        }
      }
    }
  }

  lemma {:induction false} PullIndex(lead: Knot, rest: seq<Knot>, i: nat)
    requires i < |rest|
    ensures Pull(lead, rest)[i] == FollowKnot(if i == 0 then lead else Pull(lead, rest)[i - 1], rest[i])
    decreases rest
  {
    if i > 0 {
      PullIndex(FollowKnot(lead, rest[0]), rest[1..], i - 1);
    }
  }

  /** Knot `k` of the stepped rope follows knot `k - 1` of it from its old square. */
  lemma StepIndex(rope: seq<Knot>, d: Knot, k: nat)
    requires 1 <= k < |rope|
    ensures Step(rope, d)[k] == FollowKnot(Step(rope, d)[k - 1], rope[k])
  {
    PullIndex((rope[0].0 + d.0, rope[0].1 + d.1), rope[1..], k - 1);
  }

  /** One step of part2: the head moves, then knots 1 to 9 follow in order. */
  method MoveRope(knots: array<Knot>, diff: Knot)
    requires knots.Length == 10
    modifies knots
    ensures knots[..] == Step(old(knots[..]), diff)
  {
    ghost var rope := knots[..];
    ghost var next := Step(rope, diff);
    knots[0] := (knots[0].0 + diff.0, knots[0].1 + diff.1);
    for k := 1 to 10
      invariant knots[..k] == next[..k] && knots[k..] == rope[k..]
    {
      StepIndex(rope, diff, k);
      assert knots[k] == rope[k];
      knots[k] := FollowKnot(knots[k - 1], knots[k]);
      assert knots[..k + 1] == knots[..k] + [knots[k]];
    }
    assert knots[..] == knots[..10];
  }

  /** The inner loop of part2: `steps` unit moves of the ten-knot rope in `knots`. */
  method WalkRope(knots: array<Knot>, positions: set<nat>, diff: Knot, steps: nat, ghost moves: seq<Knot>)
    returns (positions': set<nat>)
    requires knots.Length == 10
    requires knots[..] == Final(Start(10), moves) && positions == PackAll(Tails(Start(10), moves))
    modifies knots
    ensures knots[..] == Final(Start(10), moves + Repeat(diff, steps))
    ensures positions' == PackAll(Tails(Start(10), moves + Repeat(diff, steps)))
  {
    positions' := positions;
    ghost var done := moves;
    assert moves + Repeat(diff, 0) == moves;
    for j := 0 to steps
      invariant done == moves + Repeat(diff, j)
      invariant Walked(knots[..], positions', done)
    {
      positions' := StepRope(knots, positions', diff, done);
      RepeatMore(moves, diff, j);
      done := done + [diff];
    }
  }

  /** One unit move of the rope in `knots`, adding the tail's new square. */
  method StepRope(knots: array<Knot>, positions: set<nat>, diff: Knot, ghost done: seq<Knot>)
    returns (positions': set<nat>)
    requires knots.Length == 10 && Walked(knots[..], positions, done)
    modifies knots
    ensures Walked(knots[..], positions', done + [diff])
  {
    WalkedStep(knots[..], positions, done, diff);
    MoveRope(knots, diff);
    assert knots[9] == knots[..][9];
    positions' := positions + {Pack(knots[9])};
  }

  lemma RepeatMore(moves: seq<Knot>, diff: Knot, j: nat)
    ensures moves + Repeat(diff, j + 1) == moves + Repeat(diff, j) + [diff]
  {
    assert Repeat(diff, j + 1) == Repeat(diff, j) + [diff];
  }

  /** The ten knots are where `done` takes them, and `positions` packs the tail's squares so far. */
  ghost predicate Walked(knots: seq<Knot>, positions: set<nat>, done: seq<Knot>)
  {
    knots == Final(Start(10), done) && positions == PackAll(Tails(Start(10), done))
  }

  /** One more unit move keeps `Walked`. */
  lemma WalkedStep(knots: seq<Knot>, positions: set<nat>, done: seq<Knot>, diff: Knot)
    requires Walked(knots, positions, done)
    ensures Walked(Step(knots, diff), positions + {Pack(Step(knots, diff)[9])}, done + [diff])
  {
    MoveStep(Start(10), done, diff);
    PackAllAdd(Tails(Start(10), done), Step(knots, diff)[9]);
  }

  /** part2: ten knots in an array, the last knot's squares collected as packed keys. */
  method Part2(input: string) returns (r: Option<nat>)
    ensures r == PackedAnswer(input)
  {
    var lines := Lines(input);
    var knots := new Knot[10](_ => (0, 0));
    var positions: set<nat> := {0};
    ghost var cmds: seq<(Knot, nat)> := [];
    assert knots[..] == Start(10);
    assert lines[..0] == [];
    for i := 0 to |lines|
      invariant Commands(lines[..i]) == Some(cmds)
      invariant Walked(knots[..], positions, Expand(cmds))
    {
      var cmd := ParseCommand(lines[i]);
      if cmd.None? {
        return None;
      }
      positions := WalkRope(knots, positions, cmd.value.0, cmd.value.1, Expand(cmds));
      CommandsStep(lines, i);
      cmds := cmds + [cmd.value];
    }
    assert lines[..|lines|] == lines;
    r := Some(|positions|);
  }

  /** What part2 counts: the packed keys of the squares the tenth knot visits. */
  function PackedAnswer(input: string): Option<nat>
  {
    match Commands(Lines(input))
    case None => None
    case Some(cmds) => Some(|PackAll(Tails(Start(10), Expand(cmds)))|)
  }

  /** While the rope stays in `i32` range, part2 counts the squares the tenth knot visits. */
  lemma PackedAnswerCounts(input: string)
    requires Commands(Lines(input)).Some?
    requires forall k :: k in Tails(Start(10), Expand(Commands(Lines(input)).value)) ==> InI32(k)
    ensures PackedAnswer(input) == Answer(input, 10)
  {
    PackAllSize(Tails(Start(10), Expand(Commands(Lines(input)).value)));
  }
}
