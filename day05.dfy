/**
 * Day 05: supply stacks. A drawing of crate stacks is parsed into one stack
 * per column, front first (the front is the top), and a list of crane moves
 * is applied, either one crate at a time (part 1) or as a block (part 2).
 * The answer is the string of the crates on top of the stacks.
 */
module Day05 {
  import opened Wrappers
  import opened Text

  /** A stack of crates, top first. */
  type Tower = seq<char>

  type Towers = seq<Tower>

  /** `Move`: 0-based stack indices. */
  datatype Move = Move(count: nat, from: nat, to: nat)

  /** The two cranes: part 1 moves crates singly, part 2 as a block. */
  datatype Crane = OneByOne | Block

  function Reverse(s: seq<char>): (r: seq<char>)
    ensures |r| == |s| && forall i :: 0 <= i < |s| ==> r[i] == s[|s| - 1 - i]
  {
    if s == [] then [] else Reverse(s[1..]) + [s[0]]
  }

  /** The number of crates on all stacks. */
  function Total(ts: Towers): nat
  {
    if ts == [] then 0 else Total(ts[..|ts| - 1]) + |ts[|ts| - 1]|
  }

  // ------------------------------------------------------------ the drawing

  /** The number of 4-character chunks of a line (the last may be shorter). */
  function ChunkCount(line: string): nat
  {
    (|line| + 3) / 4
  }

  /** The crate that a line draws in column `k`, if its chunk starts with '['. */
  function CrateAt(line: string, k: nat): seq<char>
  {
    if 4 * k + 1 < |line| && line[4 * k] == '[' then [line[4 * k + 1]] else []
  }

  /** A last chunk that is a lone '[' has no letter: `chunk[1]` panics there. */
  predicate Broken(line: string)
  {
    |line| % 4 == 1 && line[|line| - 1] == '['
  }

  /** The number of stacks: the most chunks on any line. */
  function StackCount(lines: seq<string>): nat
  {
    if lines == [] then 0 else Max(StackCount(lines[..|lines| - 1]), ChunkCount(lines[|lines| - 1]))
  }

  /** Column `k` of the drawing, top line first. */
  function Column(lines: seq<string>, k: nat): seq<char>
  {
    if lines == [] then [] else Column(lines[..|lines| - 1], k) + CrateAt(lines[|lines| - 1], k)
  }

  /** A chunk at or after the line's last chunk draws nothing. */
  lemma NoCrateBeyond(line: string, k: nat)
    requires k >= ChunkCount(line)
    ensures CrateAt(line, k) == []
  {
  }

  lemma {:induction false} ColumnBeyond(lines: seq<string>, k: nat)
    requires k >= StackCount(lines)
    ensures Column(lines, k) == []
  {
    if lines != [] {
      ColumnBeyond(lines[..|lines| - 1], k);
      NoCrateBeyond(lines[|lines| - 1], k);
    }
  }

  /**
   * `parse_towers`: every line is cut into chunks of four characters; chunk
   * `idx` adds a stack when there are not yet `idx + 1` of them, and a chunk
   * starting with '[' pushes its letter onto the back of stack `idx`.
   */
  method ParseTowers(lines: seq<string>) returns (r: Option<Towers>)
    ensures r.None? <==> exists i :: 0 <= i < |lines| && Broken(lines[i])
    ensures r.Some? ==> |r.value| == StackCount(lines)
    ensures r.Some? ==> forall k :: 0 <= k < |r.value| ==> r.value[k] == Column(lines, k)
  {
    var towers: Towers := [];
    for i := 0 to |lines|
      invariant forall j :: 0 <= j < i ==> !Broken(lines[j])
      invariant |towers| == StackCount(lines[..i])
      invariant forall k :: 0 <= k < |towers| ==> towers[k] == Column(lines[..i], k)
    {
      assert lines[..i + 1][..i] == lines[..i];
      var next := AddChunks(towers, lines[i]);
      if next.None? {
        return None;
      }
      forall k | 0 <= k < |next.value|
        ensures next.value[k] == Column(lines[..i + 1], k)
      {
        if k >= |towers| {
          ColumnBeyond(lines[..i], k);
        }
      }
      towers := next.value;
    }
    assert lines[..|lines|] == lines;
    r := Some(towers);
  }

  /** The loop over one line's chunks. */
  method AddChunks(towers: Towers, line: string) returns (r: Option<Towers>)
    ensures r.None? <==> Broken(line)
    ensures r.Some? ==> |r.value| == Max(|towers|, ChunkCount(line))
    ensures r.Some? ==> forall k :: 0 <= k < |r.value| ==>
      r.value[k] == (if k < |towers| then towers[k] else []) + CrateAt(line, k)
  {
    var ts := towers;
    for idx := 0 to ChunkCount(line)
      invariant |ts| == Max(|towers|, idx)
      invariant Broken(line) ==> 4 * idx < |line|
      invariant forall k :: 0 <= k < |ts| ==>
        ts[k] == (if k < |towers| then towers[k] else []) + (if k < idx then CrateAt(line, k) else [])
    {
      if idx >= |ts| {
        ts := ts + [[]];
      }
      if line[4 * idx] == '[' {
        if 4 * idx + 1 >= |line| {
          return None;
        }
        ts := ts[idx := ts[idx] + [line[4 * idx + 1]]];
      }
    }
    forall k | 0 <= k < |ts|
      ensures ts[k] == (if k < |towers| then towers[k] else []) + CrateAt(line, k)
    {
      if k >= ChunkCount(line) {
        NoCrateBeyond(line, k);
      }
    }
    r := Some(ts);
  }

  // ------------------------------------------------------------ moves

  /** `parse_move`: "move <count> from <from> to <to>", stack numbers 1-based. */
  function ParseMove(line: string): (r: Option<Move>)
    ensures r.Some? ==> |Split(line, ' ')| >= 6
    ensures r.Some? ==> ParseNat(Split(line, ' ')[1]) == Some(r.value.count)
    ensures r.Some? ==> ParseNat(Split(line, ' ')[3]) == Some(r.value.from + 1)
    ensures r.Some? ==> ParseNat(Split(line, ' ')[5]) == Some(r.value.to + 1)
  {
    var words := Split(line, ' ');
    if |words| < 6 then None
    else
      match (ParseNat(words[1]), ParseNat(words[3]), ParseNat(words[5]))
      case (Some(count), Some(from), Some(to)) =>
        // `- 1` on a usize of 0 underflows
        if from == 0 || to == 0 then None else Some(Move(count, from - 1, to - 1))
      case _ => None
  }

  function MoveWords(m: Move): seq<string>
  {
    ["move", Decimal(m.count), "from", Decimal(m.from + 1), "to", Decimal(m.to + 1)]
  }

  lemma DecimalHasNoSpace(n: nat)
    ensures ' ' !in Decimal(n)
  {
    var t := Decimal(n);
    assert forall i :: 0 <= i < |t| ==> IsDigit(t[i]);
  }

  /** A move written out in the puzzle's words parses back to itself. */
  lemma ParseMoveFormat(m: Move)
    ensures ParseMove(JoinWith(MoveWords(m), ' ')) == Some(m)
  {
    var words := MoveWords(m);
    DecimalHasNoSpace(m.count);
    DecimalHasNoSpace(m.from + 1);
    DecimalHasNoSpace(m.to + 1);
    JoinSplit(words, ' ');
    ParseNatFormat(m.count);
    ParseNatFormat(m.from + 1);
    ParseNatFormat(m.to + 1);
  }

  /** All move lines; `None` when one of them panics. */
  function ParseMoves(lines: seq<string>): (r: Option<seq<Move>>)
    ensures r.Some? <==> forall i :: 0 <= i < |lines| ==> ParseMove(lines[i]).Some?
    ensures r.Some? ==> |r.value| == |lines| && forall i :: 0 <= i < |lines| ==> Some(r.value[i]) == ParseMove(lines[i])
  {
    if lines == [] then Some([])
    else
      match (ParseMoves(lines[..|lines| - 1]), ParseMove(lines[|lines| - 1]))
      case (Some(ms), Some(m)) => Some(ms + [m])
      case _ => None
  }

  // ------------------------------------------------------------ the two cranes

  /** One `pop_front` from `from` and `push_front` onto `to`; `None` is a panic. */
  function Step(ts: Towers, from: nat, to: nat): (r: Option<Towers>)
    ensures r.Some? <==> from < |ts| && ts[from] != [] && to < |ts|
  {
    if from >= |ts| || ts[from] == [] || to >= |ts| then None
    else
      var lifted := ts[from := ts[from][1..]];
      Some(lifted[to := [ts[from][0]] + lifted[to]])
  }

  /** `count` single steps, as part 1's inner loop does them. */
  function Singly(ts: Towers, from: nat, to: nat, count: nat): Option<Towers>
    decreases count
  {
    if count == 0 then Some(ts)
    else
      match Step(ts, from, to)
      case None => None
      case Some(next) => Singly(next, from, to, count - 1)
  }

  /**
   * Part 2's move: all `count` crates are popped into a vector, which is
   * reversed and pushed to the front one by one; `None` is a panic.
   */
  function Lift(ts: Towers, m: Move): Option<Towers>
  {
    if m.count == 0 then Some(ts)
    else if m.from >= |ts| || |ts[m.from]| < m.count || m.to >= |ts| then None
    else
      var lifted := ts[m.from := ts[m.from][m.count..]];
      Some(lifted[m.to := ts[m.from][..m.count] + lifted[m.to]])
  }

  function Apply(crane: Crane, ts: Towers, m: Move): Option<Towers>
  {
    match crane
    case OneByOne => Singly(ts, m.from, m.to, m.count)
    case Block => Lift(ts, m)
  }

  /** The moves in order; `None` when one of them panics. */
  function Run(crane: Crane, ts: Towers, moves: seq<Move>): Option<Towers>
    decreases |moves|
  {
    if moves == [] then Some(ts)
    else
      match Apply(crane, ts, moves[0])
      case None => None
      case Some(next) => Run(crane, next, moves[1..])
  }

  /** `towers.iter().map(|tower| tower[0])`: `None` when a stack is empty. */
  function Tops(ts: Towers): (r: Option<string>)
    ensures r.Some? <==> forall i :: 0 <= i < |ts| ==> ts[i] != []
    ensures r.Some? ==> |r.value| == |ts| && forall i :: 0 <= i < |ts| ==> r.value[i] == ts[i][0]
  {
    if ts == [] then Some("")
    else
      match Tops(ts[..|ts| - 1])
      case None => None
      case Some(t) => if ts[|ts| - 1] == [] then None else Some(t + [ts[|ts| - 1][0]])
  }

  function Answer(crane: Crane, ts: Towers, moves: seq<Move>): Option<string>
  {
    match Run(crane, ts, moves)
    case None => None
    case Some(end) => Tops(end)
  }

  // ------------------------------------------------------------ what a move does

  /**
   * Moving singly between two different stacks reverses the lifted crates:
   * the top `count` crates of `from` arrive on `to` in reverse order, and no
   * other stack changes.
   */
  lemma {:induction false} SinglyReverses(ts: Towers, from: nat, to: nat, count: nat)
    requires from < |ts| && to < |ts| && from != to && count <= |ts[from]|
    ensures Singly(ts, from, to, count) ==
      Some(ts[from := ts[from][count..]][to := Reverse(ts[from][..count]) + ts[to]])
    decreases count
  {
    if count > 0 {
      var next := Step(ts, from, to).value;
      SinglyReverses(next, from, to, count - 1);
      var src := ts[from];
      assert next[from] == src[1..];
      assert next[from][count - 1..] == src[count..];
      assert next[from][..count - 1] == src[1..count];
      assert Reverse(src[..count]) == Reverse(src[1..count]) + [src[0]] by {
        assert src[..count][1..] == src[1..count];
      }
      assert Reverse(src[1..count]) + next[to] == Reverse(src[..count]) + ts[to];
      assert next[from := src[count..]][to := Reverse(src[..count]) + ts[to]] ==
        ts[from := src[count..]][to := Reverse(src[..count]) + ts[to]];
    } else {
      ghost var none := ts[from][..0];
      assert none == [] && Reverse(none) == [];
      assert ts[from][0..] == ts[from];
      assert Reverse(none) + ts[to] == ts[to];
      assert ts[from := ts[from][0..]][to := Reverse(none) + ts[to]] == ts;
    }
  }

  /** Moving singly onto the same stack puts every crate back: nothing changes, even for a count beyond its height. */
  lemma {:induction false} SinglyInPlace(ts: Towers, s: nat, count: nat)
    requires s < |ts| && (ts[s] != [] || count == 0)
    ensures Singly(ts, s, s, count) == Some(ts)
    decreases count
  {
    if count > 0 {
      var lifted := ts[s := ts[s][1..]];
      assert [ts[s][0]] + lifted[s] == ts[s];
      assert lifted[s := ts[s]] == ts;
      SinglyInPlace(ts, s, count - 1);
    }
  }

  /** Moving crates as a block keeps their order, and only `from` and `to` change. */
  lemma LiftKeepsOrder(ts: Towers, m: Move)
    requires m.from < |ts| && m.to < |ts| && m.count <= |ts[m.from]|
    ensures Lift(ts, m).Some?
    ensures m.from != m.to ==> Lift(ts, m).value[m.to] == ts[m.from][..m.count] + ts[m.to]
    ensures m.from != m.to ==> Lift(ts, m).value[m.from] == ts[m.from][m.count..]
    ensures m.from == m.to ==> Lift(ts, m).value == ts
    ensures forall k :: 0 <= k < |ts| && k != m.from && k != m.to ==> Lift(ts, m).value[k] == ts[k]
  {
    if m.from == m.to {
      assert ts[m.from][..m.count] + ts[m.from][m.count..] == ts[m.from];
    }
  }

  /** The two cranes fail on the same moves between different stacks. */
  lemma CranesFailAlike(ts: Towers, m: Move)
    requires m.from != m.to
    ensures Singly(ts, m.from, m.to, m.count).Some? <==> Lift(ts, m).Some?
  {
    if m.count > 0 && m.from < |ts| && m.to < |ts| && m.count <= |ts[m.from]| {
      SinglyReverses(ts, m.from, m.to, m.count);
    } else if m.count > 0 {
      SinglyFails(ts, m.from, m.to, m.count);
    }
  }

  /** Lifting more crates than a stack holds, or naming a missing stack, panics. */
  lemma {:induction false} SinglyFails(ts: Towers, from: nat, to: nat, count: nat)
    requires from != to && count > 0 && (from >= |ts| || to >= |ts| || count > |ts[from]|)
    ensures Singly(ts, from, to, count).None?
    decreases count
  {
    if Step(ts, from, to).Some? {
      var next := Step(ts, from, to).value;
      assert |next[from]| == |ts[from]| - 1;
      if count - 1 > 0 {
        SinglyFails(next, from, to, count - 1);
      }
    }
  }

  // ------------------------------------------------------------ conservation

  lemma {:induction false} TotalUpdate(ts: Towers, k: nat, t: Tower)
    requires k < |ts|
    ensures Total(ts[k := t]) + |ts[k]| == Total(ts) + |t|
    decreases |ts|
  {
    var last := |ts| - 1;
    if k < last {
      assert ts[k := t][..last] == ts[..last][k := t];
      TotalUpdate(ts[..last], k, t);
    } else {
      assert ts[k := t][..last] == ts[..last];
    }
  }

  lemma StepKeepsTotal(ts: Towers, from: nat, to: nat)
    requires Step(ts, from, to).Some?
    ensures |Step(ts, from, to).value| == |ts| && Total(Step(ts, from, to).value) == Total(ts)
  {
    var src := ts[from];
    var lifted := ts[from := src[1..]];
    TotalUpdate(ts, from, src[1..]);
    TotalUpdate(lifted, to, [src[0]] + lifted[to]);
  }

  lemma {:induction false} SinglyKeepsTotal(ts: Towers, from: nat, to: nat, count: nat)
    requires Singly(ts, from, to, count).Some?
    ensures |Singly(ts, from, to, count).value| == |ts| && Total(Singly(ts, from, to, count).value) == Total(ts)
    decreases count
  {
    if count > 0 {
      StepKeepsTotal(ts, from, to);
      SinglyKeepsTotal(Step(ts, from, to).value, from, to, count - 1);
    }
  }

  lemma LiftKeepsTotal(ts: Towers, m: Move)
    requires Lift(ts, m).Some?
    ensures |Lift(ts, m).value| == |ts| && Total(Lift(ts, m).value) == Total(ts)
  {
    if m.count > 0 {
      var src := ts[m.from];
      var lifted := ts[m.from := src[m.count..]];
      TotalUpdate(ts, m.from, src[m.count..]);
      TotalUpdate(lifted, m.to, src[..m.count] + lifted[m.to]);
    }
  }

  /** A run of moves, with either crane, neither creates nor loses a crate nor a stack. */
  lemma {:induction false} RunKeepsTotal(crane: Crane, ts: Towers, moves: seq<Move>)
    requires Run(crane, ts, moves).Some?
    ensures |Run(crane, ts, moves).value| == |ts| && Total(Run(crane, ts, moves).value) == Total(ts)
    decreases |moves|
  {
    if moves != [] {
      var m := moves[0];
      match crane {
        case OneByOne => SinglyKeepsTotal(ts, m.from, m.to, m.count);
        case Block => LiftKeepsTotal(ts, m);
      }
      RunKeepsTotal(crane, Apply(crane, ts, m).value, moves[1..]);
    }
  }

  // ------------------------------------------------------------ the parts

  /** Part 1's loop over the moves, popping and pushing one crate at a time. */
  method MoveSingly(start: Towers, moves: seq<Move>) returns (r: Option<Towers>)
    ensures r == Run(OneByOne, start, moves)
  {
    var towers := start;
    for i := 0 to |moves|
      invariant Run(OneByOne, towers, moves[i..]) == Run(OneByOne, start, moves)
    {
      var m := moves[i];
      assert moves[i..][1..] == moves[i + 1..];
      for k := 0 to m.count
        invariant Run(OneByOne, start, moves) ==
          match Singly(towers, m.from, m.to, m.count - k)
          case None => None
          case Some(next) => Run(OneByOne, next, moves[i + 1..])
      {
        if m.from >= |towers| || towers[m.from] == [] || m.to >= |towers| {
          return None;
        }
        var el := towers[m.from][0];
        towers := towers[m.from := towers[m.from][1..]];
        towers := towers[m.to := [el] + towers[m.to]];
      }
    }
    r := Some(towers);
  }

  lemma {:induction false} ReverseReverse(s: seq<char>)
    ensures Reverse(Reverse(s)) == s
  {
    if s != [] {
      ReverseReverse(s[1..]);
      ReverseAppend(Reverse(s[1..]), [s[0]]);
    }
  }

  lemma {:induction false} ReverseAppend(a: seq<char>, b: seq<char>)
    ensures Reverse(a + b) == Reverse(b) + Reverse(a)
  {
    if a != [] {
      assert (a + b)[1..] == a[1..] + b;
      ReverseAppend(a[1..], b);
    } else {
      assert a + b == b;
    }
  }

  /** Part 2's loop over the moves: pop `count` crates into `tmp`, reverse it, push each to the front. */
  method MoveBlocks(start: Towers, moves: seq<Move>) returns (r: Option<Towers>)
    ensures r == Run(Block, start, moves)
  {
    var towers := start;
    for i := 0 to |moves|
      invariant Run(Block, towers, moves[i..]) == Run(Block, start, moves)
    {
      var m := moves[i];
      assert moves[i..][1..] == moves[i + 1..];
      var popped := PopFront(towers, m.from, m.count);
      if popped.None? {
        return None;
      }
      var (lifted, tmp) := popped.value;
      var rev := Reverse(tmp);
      if rev != [] && m.to >= |lifted| {
        return None;
      }
      var pushed := PushFront(lifted, m.to, rev);
      ReverseReverse(tmp);
      if m.count > 0 {
        assert Lift(towers, m) == Some(pushed);
      } else {
        assert tmp == [] && pushed == towers;
      }
      towers := pushed;
    }
    r := Some(towers);
  }

  /** `count` times `tmp.push(towers[from].pop_front().unwrap())`; `None` is a panic. */
  method PopFront(towers: Towers, from: nat, count: nat) returns (r: Option<(Towers, seq<char>)>)
    ensures r.None? <==> count > 0 && (from >= |towers| || |towers[from]| < count)
    ensures r.Some? && count > 0 ==> r.value == (towers[from := towers[from][count..]], towers[from][..count])
    ensures r.Some? && count == 0 ==> r.value == (towers, [])
  {
    var ts := towers;
    var tmp: seq<char> := [];
    for k := 0 to count
      invariant k > 0 ==> from < |towers| && k <= |towers[from]|
      invariant k > 0 ==> ts == towers[from := towers[from][k..]] && tmp == towers[from][..k]
      invariant k == 0 ==> ts == towers && tmp == []
    {
      if from >= |ts| || ts[from] == [] {
        return None;
      }
      tmp := tmp + [ts[from][0]];
      ts := ts[from := ts[from][1..]];
      assert towers[from][k + 1..] == towers[from][k..][1..];
      assert towers[from][..k + 1] == towers[from][..k] + [towers[from][k]];
    }
    r := Some((ts, tmp));
  }

  /** `for el in tmp { towers[to].push_front(el) }`: the pushed crates end up in reverse order on top. */
  method PushFront(towers: Towers, to: nat, items: seq<char>) returns (r: Towers)
    requires items != [] ==> to < |towers|
    ensures items == [] ==> r == towers
    ensures items != [] ==> r == towers[to := Reverse(items) + towers[to]]
  {
    r := towers;
    for j := 0 to |items|
      invariant j == 0 ==> r == towers
      invariant j > 0 ==> r == towers[to := Reverse(items[..j]) + towers[to]]
    {
      assert items[..j + 1] == items[..j] + [items[j]];
      ReverseAppend(items[..j], [items[j]]);
      assert Reverse([items[j]]) == [items[j]];
      if j == 0 {
        assert items[..1] == [items[0]];
      } else {
        assert [items[j]] + (Reverse(items[..j]) + towers[to]) == Reverse(items[..j + 1]) + towers[to];
      }
      r := r[to := [items[j]] + r[to]];
    }
    assert items[..|items|] == items;
  }

  /** `part1`: the top crates after moving singly. */
  method Part1(start: Towers, moves: seq<Move>) returns (r: Option<string>)
    ensures r == Answer(OneByOne, start, moves)
  {
    var end := MoveSingly(start, moves);
    if end.None? {
      return None;
    }
    r := Tops(end.value);
  }

  /** `part2`: the top crates after moving blocks. */
  method Part2(start: Towers, moves: seq<Move>) returns (r: Option<string>)
    ensures r == Answer(Block, start, moves)
  {
    var end := MoveBlocks(start, moves);
    if end.None? {
      return None;
    }
    r := Tops(end.value);
  }

  /** `parse`: the drawing before the first blank line, the moves after it. */
  method Parse(input: string) returns (r: Option<(Towers, seq<Move>)>)
    ensures r.Some? ==> |SplitBlocks(input)| >= 2
    ensures r.Some? ==> ParseMoves(Lines(SplitBlocks(input)[1])) == Some(r.value.1)
    ensures r.Some? ==> var lines := Lines(SplitBlocks(input)[0]);
      |r.value.0| == StackCount(lines) && forall k :: 0 <= k < |r.value.0| ==> r.value.0[k] == Column(lines, k)
    ensures r.None? <==> (|SplitBlocks(input)| < 2 || ParseMoves(Lines(SplitBlocks(input)[1])).None? ||
      exists i :: 0 <= i < |Lines(SplitBlocks(input)[0])| && Broken(Lines(SplitBlocks(input)[0])[i]))
  {
    var blocks := SplitBlocks(input);
    if |blocks| < 2 {
      return None;
    }
    var towers := ParseTowers(Lines(blocks[0]));
    var moves := ParseMoves(Lines(blocks[1]));
    if towers.None? || moves.None? {
      return None;
    }
    r := Some((towers.value, moves.value));
  }

  lemma Stacks3(ts: Towers, a: Tower, b: Tower, c: Tower)
    requires |ts| == 3 && ts[0] == a && ts[1] == b && ts[2] == c
    ensures ts == [a, b, c]
  {
  }

  lemma SinglySample(ts: Towers, m: Move, src: Tower, dst: Tower, other: nat, e: Tower, movedTop: Tower, rest: Tower)
    requires |ts| == 3 && m.from < 3 && m.to < 3 && other < 3 && m.from != m.to && other != m.from && other != m.to
    requires ts[m.from] == movedTop + rest && |movedTop| == m.count && ts[m.to] == dst && ts[other] == e
    ensures Singly(ts, m.from, m.to, m.count).Some?
    ensures var r := Singly(ts, m.from, m.to, m.count).value;
      |r| == 3 && r[m.from] == rest && r[m.to] == Reverse(movedTop) + dst && r[other] == e
  {
    assert ts[m.from][..m.count] == movedTop && ts[m.from][m.count..] == rest;
    SinglyReverses(ts, m.from, m.to, m.count);
  }

  lemma SampleSingly1()
    ensures Singly(["NZ", "DCM", "P"], 1, 0, 1) == Some(["DNZ", "CM", "P"])
  {
    SinglySample(["NZ", "DCM", "P"], Move(1, 1, 0), "DCM", "NZ", 2, "P", "D", "CM");
    assert Reverse("D") == "D";
    Stacks3(Singly(["NZ", "DCM", "P"], 1, 0, 1).value, "DNZ", "CM", "P");
  }

  lemma SampleSingly2()
    ensures Singly(["DNZ", "CM", "P"], 0, 2, 3) == Some(["", "CM", "ZNDP"])
  {
    SinglySample(["DNZ", "CM", "P"], Move(3, 0, 2), "DNZ", "P", 1, "CM", "DNZ", "");
    assert Reverse("DNZ") == "ZND";
    Stacks3(Singly(["DNZ", "CM", "P"], 0, 2, 3).value, "", "CM", "ZNDP");
  }

  lemma SampleSingly3()
    ensures Singly(["", "CM", "ZNDP"], 1, 0, 2) == Some(["MC", "", "ZNDP"])
  {
    SinglySample(["", "CM", "ZNDP"], Move(2, 1, 0), "CM", "", 2, "ZNDP", "CM", "");
    assert Reverse("CM") == "MC";
    Stacks3(Singly(["", "CM", "ZNDP"], 1, 0, 2).value, "MC", "", "ZNDP");
  }

  lemma SampleSingly4()
    ensures Singly(["MC", "", "ZNDP"], 0, 1, 1) == Some(["C", "M", "ZNDP"])
  {
    SinglySample(["MC", "", "ZNDP"], Move(1, 0, 1), "MC", "", 2, "ZNDP", "M", "C");
    assert Reverse("M") == "M";
    Stacks3(Singly(["MC", "", "ZNDP"], 0, 1, 1).value, "C", "M", "ZNDP");
  }

  /** The sample's stacks and moves give "CMZ" with the first crane. */
  lemma SampleSingly()
    ensures Answer(OneByOne, ["NZ", "DCM", "P"], [Move(1, 1, 0), Move(3, 0, 2), Move(2, 1, 0), Move(1, 0, 1)]) == Some("CMZ")
  {
    var moves := [Move(1, 1, 0), Move(3, 0, 2), Move(2, 1, 0), Move(1, 0, 1)];
    SampleSingly1();
    SampleSingly2();
    SampleSingly3();
    SampleSingly4();
    var t4: Towers := ["C", "M", "ZNDP"];
    assert Run(OneByOne, t4, moves[4..]) == Some(t4);
    assert Run(OneByOne, ["MC", "", "ZNDP"], moves[3..]) == Some(t4);
    assert Run(OneByOne, ["", "CM", "ZNDP"], moves[2..]) == Some(t4);
    assert Run(OneByOne, ["DNZ", "CM", "P"], moves[1..]) == Some(t4);
    var top := Tops(t4);
    assert top.Some? && top.value[0] == 'C' && top.value[1] == 'M' && top.value[2] == 'Z';
    assert top.value == "CMZ";
  }

  /** The sample's stacks and moves give "MCD" with the second crane. */
  lemma SampleBlock()
    ensures Answer(Block, ["NZ", "DCM", "P"], [Move(1, 1, 0), Move(3, 0, 2), Move(2, 1, 0), Move(1, 0, 1)]) == Some("MCD")
  {
    var moves := [Move(1, 1, 0), Move(3, 0, 2), Move(2, 1, 0), Move(1, 0, 1)];
    var t0: Towers := ["NZ", "DCM", "P"];
    LiftKeepsOrder(t0, moves[0]);
    var t1 := Lift(t0, moves[0]).value;
    Stacks3(t1, "DNZ", "CM", "P");
    LiftKeepsOrder(t1, moves[1]);
    var t2 := Lift(t1, moves[1]).value;
    Stacks3(t2, "", "CM", "DNZP");
    LiftKeepsOrder(t2, moves[2]);
    var t3 := Lift(t2, moves[2]).value;
    Stacks3(t3, "CM", "", "DNZP");
    LiftKeepsOrder(t3, moves[3]);
    var t4 := Lift(t3, moves[3]).value;
    Stacks3(t4, "M", "C", "DNZP");
    assert Run(Block, t4, moves[4..]) == Some(t4);
    assert Run(Block, t3, moves[3..]) == Some(t4);
    assert Run(Block, t2, moves[2..]) == Some(t4);
    assert Run(Block, t1, moves[1..]) == Some(t4);
    var top := Tops(t4);
    assert top.Some? && top.value[0] == 'M' && top.value[1] == 'C' && top.value[2] == 'D';
    assert top.value == "MCD";
    assert Run(Block, t0, moves) == Some(t4);
  }
}
