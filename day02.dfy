/**
 * Day 2: rock, paper, scissors. Each line holds the opponent's shape
 * (A, B, C) and a second letter (X, Y, Z). Part 1 reads the letter as our
 * shape, part 2 as the outcome we want (lose, draw, win); a round scores
 * our shape (1, 2, 3) plus the outcome (0, 3, 6).
 */
module Day02 {
  import opened Wrappers
  import opened Text

  /** `parse`: the first and third character of every line; None when a line is shorter (the `unwrap` panic). */
  function Parse(input: string): (r: Option<seq<(char, char)>>)
    ensures r.Some? <==> forall i :: 0 <= i < |Lines(input)| ==> |Lines(input)[i]| >= 3
    ensures r.Some? ==> |r.value| == |Lines(input)|
    ensures r.Some? ==> forall i :: 0 <= i < |r.value| ==> r.value[i] == (Lines(input)[i][0], Lines(input)[i][2])
  {
    var lines := Lines(input);
    if forall i :: 0 <= i < |lines| ==> |lines[i]| >= 3 then
      Some(seq(|lines|, i requires 0 <= i < |lines| && |lines[i]| >= 3 => (lines[i][0], lines[i][2])))
    else None
  }

  // ------------------------------------------------------------ the game

  /** The shape a letter names: 0 rock, 1 paper, 2 scissors. */
  function Shape(c: char): Option<nat>
  {
    match c
    case 'A' => Some(0) case 'B' => Some(1) case 'C' => Some(2)
    case 'X' => Some(0) case 'Y' => Some(1) case 'Z' => Some(2)
    case _ => None
  }

  predicate Opponent(c: char) { c in "ABC" }
  predicate Ours(c: char) { c in "XYZ" }

  /** Each shape beats the one before it, cyclically: paper beats rock, scissors paper, rock scissors. */
  function Outcome(theirs: nat, ours: nat): (r: nat)
    requires theirs < 3 && ours < 3
    ensures r in {0, 3, 6}
  {
    if ours == theirs then 3 else if ours == (theirs + 1) % 3 then 6 else 0
  }

  /** The shape that gives `outcome` (0, 3 or 6) against `theirs`. */
  function ShapeFor(theirs: nat, outcome: nat): (r: nat)
    requires theirs < 3 && outcome in {0, 3, 6}
    ensures r < 3 && Outcome(theirs, r) == outcome
  {
    if outcome == 3 then theirs else if outcome == 6 then (theirs + 1) % 3 else (theirs + 2) % 3
  }

  /** The outcome that X, Y and Z ask for in part 2. */
  function Wanted(c: char): Option<nat>
  {
    match c
    case 'X' => Some(0) case 'Y' => Some(3) case 'Z' => Some(6)
    case _ => None
  }

  // ------------------------------------------------------------ the two tables

  /** Part 1's `score_for_round`; None is `unreachable!` for any other pair. */
  function ScoreShape(round: (char, char)): Option<nat>
  {
    match round
    case ('A', 'X') => Some(3 + 1)
    case ('A', 'Y') => Some(6 + 2)
    case ('A', 'Z') => Some(0 + 3)
    case ('B', 'X') => Some(0 + 1)
    case ('B', 'Y') => Some(3 + 2)
    case ('B', 'Z') => Some(6 + 3)
    case ('C', 'X') => Some(6 + 1)
    case ('C', 'Y') => Some(0 + 2)
    case ('C', 'Z') => Some(3 + 3)
    case _ => None
  }

  /** Part 2's `score_for_round`; None is `unreachable!` for any other pair. */
  function ScoreOutcome(round: (char, char)): Option<nat>
  {
    match round
    case ('A', 'X') => Some(0 + 3)
    case ('A', 'Y') => Some(3 + 1)
    case ('A', 'Z') => Some(6 + 2)
    case ('B', 'X') => Some(0 + 1)
    case ('B', 'Y') => Some(3 + 2)
    case ('B', 'Z') => Some(6 + 3)
    case ('C', 'X') => Some(0 + 2)
    case ('C', 'Y') => Some(3 + 3)
    case ('C', 'Z') => Some(6 + 1)
    case _ => None
  }

  /** Part 1's table is our shape's score plus the outcome of the game, and covers exactly the nine pairs. */
  lemma ScoreShapeMeaning(a: char, x: char)
    ensures ScoreShape((a, x)).Some? <==> Opponent(a) && Ours(x)
    ensures Opponent(a) && Ours(x) ==>
      ScoreShape((a, x)) == Some(Shape(x).value + 1 + Outcome(Shape(a).value, Shape(x).value))
  {
  }

  /** Part 2's table scores the shape that brings about the asked outcome, plus that outcome. */
  lemma ScoreOutcomeMeaning(a: char, x: char)
    ensures ScoreOutcome((a, x)).Some? <==> Opponent(a) && Ours(x)
    ensures Opponent(a) && Ours(x) ==>
      ScoreOutcome((a, x)) == Some(ShapeFor(Shape(a).value, Wanted(x).value) + 1 + Wanted(x).value)
  {
  }

  /** Part 2 scores a round as part 1 would score the shape that gives the wanted outcome. */
  lemma ScoresAgree(a: char, x: char)
    requires Opponent(a) && Ours(x)
    ensures var ours := "XYZ"[ShapeFor(Shape(a).value, Wanted(x).value)];
      ScoreOutcome((a, x)) == ScoreShape((a, ours))
  {
  }

  /** Every round scores between 1 and 9. */
  lemma ScoreBounds(round: (char, char))
    ensures ScoreShape(round).Some? ==> 1 <= ScoreShape(round).value <= 9
    ensures ScoreOutcome(round).Some? ==> 1 <= ScoreOutcome(round).value <= 9
  {
  }

  // ------------------------------------------------------------ the parts

  /** The total of the rounds under one table; None when a round is outside it. */
  function Total(rounds: seq<(char, char)>, score: ((char, char)) -> Option<nat>): (r: Option<nat>)
    ensures r.Some? <==> forall i :: 0 <= i < |rounds| ==> score(rounds[i]).Some?
  {
    if rounds == [] then Some(0)
    else
      var head, tail := score(rounds[0]), Total(rounds[1..], score);
      var later := rounds[1..];
      assert forall i :: 0 <= i < |later| ==> later[i] == rounds[i + 1];
      if head.None? || tail.None? then None else Some(head.value + tail.value)
  }

  lemma {:induction false} TotalBounds(rounds: seq<(char, char)>, score: ((char, char)) -> Option<nat>)
    requires forall round :: score(round).Some? ==> 1 <= score(round).value <= 9
    requires Total(rounds, score).Some?
    ensures |rounds| <= Total(rounds, score).value <= 9 * |rounds|
  {
    if rounds != [] {
      TotalBounds(rounds[1..], score);
    }
  }

  /** part1: the total score reading the second column as a shape; `None` on a letter outside the table. */
  function Part1(rounds: seq<(char, char)>): (r: Option<nat>)
    ensures r.Some? <==> forall i :: 0 <= i < |rounds| ==> rounds[i].0 in "ABC" && rounds[i].1 in "XYZ"
  {
    Total(rounds, ScoreShape)
  }

  /** part2: the total score reading the second column as an outcome; `None` on a letter outside the table. */
  function Part2(rounds: seq<(char, char)>): (r: Option<nat>)
    ensures r.Some? <==> forall i :: 0 <= i < |rounds| ==> rounds[i].0 in "ABC" && rounds[i].1 in "XYZ"
  {
    Total(rounds, ScoreOutcome)
  }

  /** Both parts score between one and nine points a round. */
  lemma PartsBounded(rounds: seq<(char, char)>)
    ensures Part1(rounds).Some? ==> |rounds| <= Part1(rounds).value <= 9 * |rounds|
    ensures Part2(rounds).Some? ==> |rounds| <= Part2(rounds).value <= 9 * |rounds|
  {
    forall round
      ensures ScoreShape(round).Some? ==> 1 <= ScoreShape(round).value <= 9
      ensures ScoreOutcome(round).Some? ==> 1 <= ScoreOutcome(round).value <= 9
    {
      ScoreBounds(round);
    }
    if Part1(rounds).Some? {
      TotalBounds(rounds, ScoreShape);
    }
    if Part2(rounds).Some? {
      TotalBounds(rounds, ScoreOutcome);
    }
  }

  /** The sample strategy guide scores 15 under part 1 and 12 under part 2. */
  lemma Sample()
    ensures Part1([('A', 'Y'), ('B', 'X'), ('C', 'Z')]) == Some(15)
    ensures Part2([('A', 'Y'), ('B', 'X'), ('C', 'Z')]) == Some(12)
  {
  }
}
