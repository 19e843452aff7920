/**
 * Day 22: a walk over a map of open tiles and walls, either wrapping
 * around the flat map (part 1) or folding it into a cube (part 2), ending
 * with the password 1000 * (row + 1) + 4 * (column + 1) + facing.
 */
module Day22 {
  import opened Wrappers
  import opened Text

  datatype Tile = Empty | Wall

  /** (row, column); the source's `i16` range is not modelled. */
  type Coord = (int, int)

  type Board = map<Coord, Tile>

  /** The four directions `walk` ever holds; the turn tables are total on them. */
  predicate IsUnit(d: (int, int))
  {
    d == (0, 1) || d == (1, 0) || d == (0, -1) || d == (-1, 0)
  }

  type Direction = d: (int, int) | IsUnit(d) witness (0, 1)

  /** A command of the path; a walk's step count is unbounded (see the `u8` finding). */
  datatype Command = Walk(steps: nat) | TurnR | TurnL

  function Plus(p: Coord, d: (int, int)): Coord
  {
    (p.0 + d.0, p.1 + d.1)
  }

  function Minus(p: Coord, d: (int, int)): Coord
  {
    (p.0 - d.0, p.1 - d.1)
  }

  // ------------------------------------------------------------ turning

  /** The `TurnR` table: a quarter turn clockwise, rows growing downwards. */
  function TurnRight(d: Direction): (r: Direction)
    ensures r == (d.1, -d.0)
  {
    if d == (0, 1) then (1, 0)
    else if d == (1, 0) then (0, -1)
    else if d == (0, -1) then (-1, 0)
    else (0, 1)
  }

  /** The `TurnL` table: a quarter turn counter-clockwise. */
  function TurnLeft(d: Direction): (r: Direction)
    ensures r == (-d.1, d.0)
  {
    if d == (0, 1) then (-1, 0)
    else if d == (-1, 0) then (0, -1)
    else if d == (0, -1) then (1, 0)
    else (0, 1)
  }

  /** One turn of each kind, in either order, restores the direction; so do four turns of one kind. */
  lemma TurnsRestore(d: Direction)
    ensures TurnLeft(TurnRight(d)) == d && TurnRight(TurnLeft(d)) == d
    ensures TurnRight(TurnRight(TurnRight(TurnRight(d)))) == d
    ensures TurnLeft(TurnLeft(TurnLeft(TurnLeft(d)))) == d
    ensures TurnRight(d) != d && TurnRight(TurnRight(d)) != d && TurnRight(TurnRight(TurnRight(d))) != d
  {
  }

  /** The facing of the password: right, down, left, up. */
  function Facing(d: Direction): (f: nat)
    ensures f < 4
  {
    if d == (0, 1) then 0
    else if d == (1, 0) then 1
    else if d == (0, -1) then 2
    else 3
  }

  /** Facings number the directions in clockwise order. */
  lemma FacingClockwise(d: Direction, e: Direction)
    ensures Facing(TurnRight(d)) == (Facing(d) + 1) % 4
    ensures Facing(TurnLeft(d)) == (Facing(d) + 3) % 4
    ensures Facing(d) == Facing(e) ==> d == e
  {
  }

  /** The password of parts 1 and 2. */
  function Password(pos: Coord, dir: Direction): int
  {
    1000 * (pos.0 + 1) + 4 * (pos.1 + 1) + Facing(dir)
  }

  /** On a map narrower than 249 columns the password determines the row, the column and the facing. */
  lemma PasswordDecodes(pos: Coord, dir: Direction)
    requires 0 <= pos.0 && 0 <= pos.1 < 249
    ensures Password(pos, dir) / 1000 == pos.0 + 1
    ensures (Password(pos, dir) % 1000) / 4 == pos.1 + 1
    ensures Password(pos, dir) % 4 == Facing(dir)
  {
    var p, low := Password(pos, dir), 4 * (pos.1 + 1) + Facing(dir);
    ModUnique(p, 1000, pos.0 + 1, low);
    ModUnique(p, 4, 250 * (pos.0 + 1) + pos.1 + 1, Facing(dir));
  }

  // ------------------------------------------------------------ parsing

  /** No blank line separator "\n\n" in `t`. */
  predicate NoBlank(t: string)
  {
    forall i :: 0 <= i < |t| - 1 ==> !(t[i] == '\n' && t[i + 1] == '\n')
  }

  /** `split_once("\n\n")`: the text before and after the first blank line separator. */
  function SplitAtBlank(s: string): (r: Option<(string, string)>)
    ensures r.None? <==> NoBlank(s)
    ensures r.Some? ==> s == r.value.0 + "\n\n" + r.value.1 && NoBlank(r.value.0 + "\n")
    decreases |s|
  {
    if |s| < 2 then None
    else if s[0] == '\n' && s[1] == '\n' then Some(([], s[2..]))
    else
      match SplitAtBlank(s[1..])
      case None =>
        NoBlankCons(s);
        None
      case Some((a, b)) =>
        BlankAfterFirst(s, a, b);
        Some(([s[0]] + a, b))
  }

  /** No blank line starts at `s[0]` and none later: none in `s`. */
  lemma NoBlankCons(s: string)
    requires |s| >= 2 && !(s[0] == '\n' && s[1] == '\n')
    ensures NoBlank(s) <==> NoBlank(s[1..])
  {
    if NoBlank(s[1..]) {
      forall i | 0 <= i < |s| - 1
        ensures !(s[i] == '\n' && s[i + 1] == '\n')
      {
        if i > 0 {
          assert s[i] == s[1..][i - 1] && s[i + 1] == s[1..][i];
        }
      }
    }
  }

  /** The first blank line of `s[1..]` is the first of `s` when none starts at `s[0]`. */
  lemma BlankAfterFirst(s: string, a: string, b: string)
    requires |s| >= 2 && !(s[0] == '\n' && s[1] == '\n')
    requires s[1..] == a + "\n\n" + b && NoBlank(a + "\n")
    ensures s == [s[0]] + a + "\n\n" + b && NoBlank([s[0]] + a + "\n")
  {
    assert s == [s[0]] + s[1..];
    var t := [s[0]] + a + "\n";
    assert t[1..] == a + "\n";
    forall i | 0 <= i < |t| - 1
      ensures !(t[i] == '\n' && t[i + 1] == '\n')
    {
      if i == 0 {
        assert t[0] == s[0] && t[1] == s[1];
      } else {
        assert t[i] == t[1..][i - 1] && t[i + 1] == t[1..][i];
      }
    }
  }

  predicate IsTileChar(c: char)
  {
    c == '.' || c == '#'
  }

  function TileOf(c: char): Tile
  {
    if c == '#' then Wall else Empty
  }

  /** A cell of the map text that holds a tile. */
  predicate IsCell(lines: seq<string>, p: Coord)
  {
    0 <= p.0 < |lines| && 0 <= p.1 < |lines[p.0]| && IsTileChar(lines[p.0][p.1])
  }

  /** The board: every '.' and '#' of the map at its (line, column), every other character left out. */
  function BoardOf(lines: seq<string>): (b: Board)
    ensures forall p :: p in b <==> IsCell(lines, p)
    ensures forall p :: p in b ==> IsCell(lines, p) && b[p] == TileOf(lines[p.0][p.1])
  {
    map p | p in Cells(lines) :: TileOf(lines[p.0][p.1])
  }

  function Cells(lines: seq<string>): (cells: set<Coord>)
    ensures forall p :: p in cells <==> IsCell(lines, p)
  {
    set r, c | 0 <= r < |lines| && 0 <= c < |lines[r]| && IsTileChar(lines[r][c]) :: (r, c)
  }

  /** The range `0..SIDE_LENGTH * 6` searched for the start. */
  const StartRange: nat := 300

  /** The first column from `i` on, below 300, whose cell in row 0 is on the board. */
  function StartColumn(board: Board, i: nat): (r: Option<nat>)
    ensures r.Some? ==> i <= r.value < StartRange && (0, r.value) in board
    ensures r.Some? ==> forall j :: i <= j < r.value ==> (0, j) !in board
    ensures r.None? <==> forall j :: i <= j < StartRange ==> (0, j) !in board
    decreases StartRange - i
  {
    if i >= StartRange then None
    else if (0, i) in board then Some(i)
    else StartColumn(board, i + 1)
  }

  /** The pending walk flushed before a turn and at the end: nothing when it is 0. */
  function Pending(num: nat): seq<Command>
  {
    if num != 0 then [Walk(num)] else []
  }

  function Prepend(v: seq<Command>, o: Option<seq<Command>>): Option<seq<Command>>
  {
    if o.None? then None else Some(v + o.value)
  }

  lemma PrependTwice(v: seq<Command>, w: seq<Command>, o: Option<seq<Command>>)
    ensures Prepend(v, Prepend(w, o)) == Prepend(v + w, o)
  {
    if o.Some? {
      assert v + (w + o.value) == (v + w) + o.value;
    }
  }

  predicate IsCommandChar(c: char)
  {
    c == 'R' || c == 'L' || IsDigit(c)
  }

  /** Every walk takes a step, and two walks never follow each other. */
  predicate Tidy(cs: seq<Command>)
  {
    (forall i :: 0 <= i < |cs| ==> cs[i].Walk? ==> cs[i].steps > 0) &&
    (forall i :: 0 <= i < |cs| - 1 ==> !(cs[i].Walk? && cs[i + 1].Walk?))
  }

  /**
   * What the command loop produces from the rest `s` of the path with `num`
   * pending; None is the `to_digit(10).unwrap()` panic on any character
   * other than 'R', 'L' and a digit.
   */
  function Scan(s: string, num: nat): (r: Option<seq<Command>>)
    decreases |s|
  {
    if s == [] then Some(Pending(num))
    else if s[0] == 'R' then Prepend(Pending(num) + [TurnR], Scan(s[1..], 0))
    else if s[0] == 'L' then Prepend(Pending(num) + [TurnL], Scan(s[1..], 0))
    else if IsDigit(s[0]) then Scan(s[1..], num * 10 + DigitValue(s[0]))
    else None
  }

  /** The command loop panics exactly on a character other than 'R', 'L' and a digit, and otherwise yields a tidy path. */
  lemma {:induction false} ScanChecks(s: string, num: nat)
    ensures Scan(s, num).None? <==> exists i :: 0 <= i < |s| && !IsCommandChar(s[i])
    ensures Scan(s, num).Some? ==> Tidy(Scan(s, num).value)
    decreases |s|
  {
    if s != [] {
      assert forall i :: 0 < i < |s| ==> s[i] == s[1..][i - 1];
      if s[0] == 'R' || s[0] == 'L' {
        ScanChecks(s[1..], 0);
      } else if IsDigit(s[0]) {
        ScanChecks(s[1..], num * 10 + DigitValue(s[0]));
      }
    }
  }

  /** The command loop with the `num as u8` cast of the source: a walk of `num % 256` steps. */
  function ScanAsWritten(s: string, num: nat): Option<seq<Command>>
    decreases |s|
  {
    if s == [] then Some(if num != 0 then [Walk(num % 256)] else [])
    else if s[0] == 'R' then Prepend((if num != 0 then [Walk(num % 256)] else []) + [TurnR], ScanAsWritten(s[1..], 0))
    else if s[0] == 'L' then Prepend((if num != 0 then [Walk(num % 256)] else []) + [TurnL], ScanAsWritten(s[1..], 0))
    else if IsDigit(s[0]) then ScanAsWritten(s[1..], num * 10 + DigitValue(s[0]))
    else None
  }

  /** As written, "256" walks no step at all and "300R" walks 44 steps. */
  lemma ScanAsWrittenTruncates()
    ensures ScanAsWritten("256", 0) == Some([Walk(0)])
    ensures ScanAsWritten("300R", 0) == Some([Walk(44), TurnR])
    ensures Scan("256", 0) == Some([Walk(256)])
  {
    assert "256"[1..] == "56" && "56"[1..] == "6" && "6"[1..] == "";
    assert "256"[0] == '2' && "56"[0] == '5' && "6"[0] == '6';
    assert ScanAsWritten("6", 25) == Some([Walk(0)]);
    assert ScanAsWritten("56", 2) == Some([Walk(0)]);
    assert "300R"[1..] == "00R" && "00R"[1..] == "0R" && "0R"[1..] == "R" && "R"[1..] == "";
    assert "300R"[0] == '3' && "00R"[0] == '0' && "0R"[0] == '0';
    assert "R"[0] == 'R' && ScanAsWritten("", 0) == Some([]);
    assert ScanAsWritten("R", 300) == Prepend([Walk(44)] + [TurnR], ScanAsWritten("", 0));
    assert [Walk(44)] + [TurnR] + [] == [Walk(44), TurnR];
    assert DigitValue('0') == 0;
    assert ScanAsWritten("0R", 30) == Some([Walk(44), TurnR]);
    assert ScanAsWritten("00R", 3) == Some([Walk(44), TurnR]);
    assert Scan("6", 25) == Some([Walk(256)]);
    assert Scan("56", 2) == Some([Walk(256)]);
  }

  /** The path written back: a walk as its decimal step count, turns as 'R' and 'L'. */
  function Format(cs: seq<Command>): string
  {
    if cs == [] then ""
    else
      (match cs[0]
       case Walk(n) => Decimal(n)
       case TurnR => "R"
       case TurnL => "L") + Format(cs[1..])
  }

  /** The running value of digits `t` read after `num`. */
  function Accumulate(num: nat, t: string): nat
    requires AllDigits(t)
  {
    if t == [] then num else Accumulate(num, t[..|t| - 1]) * 10 + DigitValue(t[|t| - 1])
  }

  lemma {:induction false} AccumulateZero(t: string)
    requires AllDigits(t)
    ensures Accumulate(0, t) == DecimalValue(t)
  {
    if t != [] {
      AccumulateZero(t[..|t| - 1]);
    }
  }

  /** A run of digits only adds to the pending number. */
  lemma {:induction false} ScanDigits(t: string, rest: string, num: nat)
    requires AllDigits(t)
    ensures Scan(t + rest, num) == Scan(rest, Accumulate(num, t))
    decreases |t|
  {
    if t != [] {
      var front, d := t[..|t| - 1], t[|t| - 1];
      assert IsDigit(d) && AllDigits(front);
      assert t + rest == front + ([d] + rest);
      ScanDigits(front, [d] + rest, num);
      assert ([d] + rest)[0] == d && ([d] + rest)[1..] == rest;
      assert Scan([d] + rest, Accumulate(num, front)) == Scan(rest, Accumulate(num, front) * 10 + DigitValue(d));
    } else {
      assert t + rest == rest;
    }
  }

  /** A walk's digits read from the start: the number is pending when the text goes on with `rest`. */
  lemma ScanWalk(n: nat, rest: string)
    ensures Scan(Decimal(n) + rest, 0) == Scan(rest, n)
  {
    var t := Decimal(n);
    ScanDigits(t, rest, 0);
    AccumulateZero(t);
    DecimalRoundTrip(n);
  }

  /** The character written for a turn. */
  function TurnChar(turn: Command): char
  {
    if turn == TurnR then 'R' else 'L'
  }

  /** A turn flushes the pending walk and then comes itself. */
  lemma ScanTurn(turn: Command, rest: string, num: nat)
    requires !turn.Walk?
    ensures Scan([TurnChar(turn)] + rest, num) == Prepend(Pending(num) + [turn], Scan(rest, 0))
  {
    assert ([TurnChar(turn)] + rest)[0] == TurnChar(turn) && ([TurnChar(turn)] + rest)[1..] == rest;
  }

  lemma FormatWalkTurn(n: nat, turn: Command, later: seq<Command>)
    requires !turn.Walk?
    ensures Format([Walk(n), turn] + later) == Decimal(n) + ([TurnChar(turn)] + Format(later))
  {
    var cs := [Walk(n), turn] + later;
    assert cs[1..] == [turn] + later && cs[1..][1..] == later;
  }

  /** A walk followed by a turn is read back as the two commands before the rest of the path. */
  lemma ScanWalkTurn(n: nat, turn: Command, later: seq<Command>)
    requires n != 0 && !turn.Walk? && Scan(Format(later), 0) == Some(later)
    ensures Scan(Format([Walk(n), turn] + later), 0) == Some([Walk(n), turn] + later)
  {
    var rest := [TurnChar(turn)] + Format(later);
    FormatWalkTurn(n, turn, later);
    ScanWalk(n, rest);
    ScanTurn(turn, Format(later), n);
    assert Pending(n) + [turn] + later == [Walk(n), turn] + later;
  }

  /** Parsing undoes writing: a tidy path is read back as itself. */
  lemma {:induction false} ScanFormat(cs: seq<Command>)
    requires Tidy(cs)
    ensures Scan(Format(cs), 0) == Some(cs)
  {
    if cs != [] {
      var rest := cs[1..];
      assert Tidy(rest) by {
        assert forall i :: 0 <= i < |rest| ==> rest[i] == cs[i + 1];
      }
      match cs[0]
      case Walk(n) =>
        assert n != 0;
        if rest == [] {
          assert cs == [Walk(n)];
          ScanWalk(n, []);
          assert Format(cs) == Decimal(n) + [];
        } else {
          var later := rest[1..];
          assert Tidy(later) by {
            assert forall i :: 0 <= i < |later| ==> later[i] == cs[i + 2];
          }
          ScanFormat(later);
          assert rest == [rest[0]] + later;
          assert cs == [Walk(n), rest[0]] + later;
          assert cs[1] == rest[0] && !rest[0].Walk?;
          ScanWalkTurn(n, rest[0], later);
        }
      case _ =>
        ScanFormat(rest);
        assert Format(cs) == [TurnChar(cs[0])] + Format(rest);
        ScanTurn(cs[0], Format(rest), 0);
        assert Pending(0) + [cs[0]] + rest == cs;
    }
  }

  /** The command loop of `parse`, with the pending number flushed before each turn and at the end. */
  method ParseCommands(s: string) returns (r: Option<seq<Command>>)
    ensures r == Scan(s, 0)
  {
    var vec: seq<Command> := [];
    var num: nat := 0;
    assert s[0..] == s;
    if Scan(s, 0).Some? {
      assert [] + Scan(s, 0).value == Scan(s, 0).value;
    }
    for i := 0 to |s|
      invariant Scan(s, 0) == Prepend(vec, Scan(s[i..], num))
    {
      var c := s[i];
      assert s[i..][0] == c && s[i..][1..] == s[i + 1..];
      if c == 'R' || c == 'L' {
        var turn := if c == 'R' then TurnR else TurnL;
        assert Scan(s[i..], num) == Prepend(Pending(num) + [turn], Scan(s[i + 1..], 0));
        PrependTwice(vec, Pending(num) + [turn], Scan(s[i + 1..], 0));
        ghost var flushed := vec + (Pending(num) + [turn]);
        if num != 0 {
          vec := vec + [Walk(num)];
          num := 0;
        }
        assert vec + [turn] == flushed;
        vec := vec + [turn];
      } else if IsDigit(c) {
        assert Scan(s[i..], num) == Scan(s[i + 1..], num * 10 + DigitValue(c));
        num := num * 10 + DigitValue(c);
      } else {
        return None;
      }
    }
    assert s[|s|..] == [];
    assert vec + Pending(num) == if num != 0 then vec + [Walk(num)] else vec;
    if num != 0 {
      vec := vec + [Walk(num)];
    }
    r := Some(vec);
  }

  /** The notes of the puzzle: the board, the start tile and the path. */
  datatype Notes = Notes(board: Board, start: Coord, commands: seq<Command>)

  /**
   * `parse`: the map before the first blank line, the path after it; None
   * is a missing blank line, no tile in row 0 among the first 300 columns,
   * or a bad path character (each an `unwrap` panic).
   */
  method Parse(input: string) returns (r: Option<Notes>)
    ensures r.None? <==>
      SplitAtBlank(input).None? ||
      StartColumn(BoardOf(Lines(SplitAtBlank(input).value.0)), 0).None? ||
      Scan(SplitAtBlank(input).value.1, 0).None?
    ensures r.Some? ==>
      var parts := SplitAtBlank(input).value;
      r.value.board == BoardOf(Lines(parts.0)) &&
      r.value.start == (0, StartColumn(r.value.board, 0).value) &&
      r.value.commands == Scan(parts.1, 0).value
  {
    var parts := SplitAtBlank(input);
    if parts.None? {
      return None;
    }
    var board := BoardOf(Lines(parts.value.0));
    var column := StartColumn(board, 0);
    if column.None? {
      return None;
    }
    var commands := ParseCommands(parts.value.1);
    if commands.None? {
      return None;
    }
    r := Some(Notes(board, (0, column.value), commands.value));
  }

  // ------------------------------------------------------------ walking

  /** What `on_edge` tells `walk`: carry on from a tile in a direction (`Continue`), or stop (`Break`). */
  datatype Flow = Moved(pos: Coord, dir: Direction) | Blocked

  /** The `on_edge` function passed to `walk`: `walk_board`'s flat wrap or `walk_cube`'s fold. */
  datatype Wrap = Flat | Cube

  /** The step back across the map, `side_length` cells against `dir`. */
  function Back(dir: Direction, side: int): (d: (int, int))
    ensures dir == (0, 1) ==> d == (0, -side)
    ensures dir == (1, 0) ==> d == (-side, 0)
    ensures dir == (0, -1) ==> d == (0, side)
    ensures dir == (-1, 0) ==> d == (side, 0)
  {
    (-dir.0 * side, -dir.1 * side)
  }

  /** Exactly one coordinate of `d` is non-zero. */
  predicate Axial(d: (int, int))
  {
    (d.0 == 0) != (d.1 == 0)
  }

  /** `k` lies on the ray from `t` along the axial step `d`, `t` included. */
  predicate Ahead(k: Coord, t: Coord, d: (int, int))
  {
    (d.0 == 0 ==> k.0 == t.0) && (d.1 == 0 ==> k.1 == t.1) &&
    (d.0 > 0 ==> k.0 >= t.0) && (d.0 < 0 ==> k.0 <= t.0) &&
    (d.1 > 0 ==> k.1 >= t.1) && (d.1 < 0 ==> k.1 <= t.1)
  }

  /** The board cells on the ray from `t` along `d`; each step of the wrap loop leaves one of them behind. */
  function AheadKeys(board: Board, t: Coord, d: (int, int)): set<Coord>
  {
    set k | k in board && Ahead(k, t, d)
  }

  lemma AheadShrinks(board: Board, t: Coord, d: (int, int))
    requires Axial(d) && t in board
    ensures AheadKeys(board, Plus(t, d), d) < AheadKeys(board, t, d)
  {
    assert t in AheadKeys(board, t, d);
    assert t !in AheadKeys(board, Plus(t, d), d);
  }

  /** The wrap loop: step along `d` while on the board; the first cell off the board. */
  function FlatScan(board: Board, t: Coord, d: (int, int)): (r: Coord)
    requires Axial(d)
    ensures r !in board && Ahead(r, t, d)
    ensures t !in board ==> r == t
    ensures t in board ==> Minus(r, d) in board && Ahead(Minus(r, d), t, d)
    decreases AheadKeys(board, t, d)
  {
    if t !in board then t
    else
      AheadShrinks(board, t, d);
      FlatScan(board, Plus(t, d), d)
  }

  /**
   * Where `walk_board`'s `on_edge` lands from the off-board cell `pos`: the
   * last board cell reached by jumps of `side` cells against `dir`.
   */
  function FlatWrap(board: Board, side: int, pos: Coord, dir: Direction): (r: Coord)
    requires side > 0
    ensures Plus(pos, Back(dir, side)) !in board ==> r == pos
    ensures Plus(pos, Back(dir, side)) in board ==>
      r in board && Ahead(r, Plus(pos, Back(dir, side)), Back(dir, side)) && Plus(r, Back(dir, side)) !in board
  {
    var d := Back(dir, side);
    Minus(FlatScan(board, Plus(pos, d), d), d)
  }

  /**
   * `walk_board`'s `on_edge`: a wall at the wrapped cell stops the walk, an
   * open tile continues it in the same direction; None is the
   * `unreachable!()` panic when the wrapped cell is off the board.
   */
  function FlatEdge(board: Board, side: int, pos: Coord, dir: Direction): (r: Option<Flow>)
    requires side > 0
    ensures r.None? <==> FlatWrap(board, side, pos, dir) !in board
    ensures r == Some(Blocked) <==> FlatWrap(board, side, pos, dir) in board && board[FlatWrap(board, side, pos, dir)] == Wall
    ensures r.Some? && r.value.Moved? ==>
      r.value == Moved(FlatWrap(board, side, pos, dir), dir) && board[r.value.pos] == Empty
  {
    var q := FlatWrap(board, side, pos, dir);
    if q !in board then None
    else if board[q].Wall? then Some(Blocked)
    else Some(Moved(q, dir))
  }

  /** A wrap of the flat map stays on the row or column it left, on the opposite side of the map. */
  lemma FlatEdgeWraps(board: Board, side: int, pos: Coord, dir: Direction)
    requires side > 0 && pos !in board
    requires FlatEdge(board, side, pos, dir).Some? && FlatEdge(board, side, pos, dir).value.Moved?
    ensures var q := FlatEdge(board, side, pos, dir).value.pos;
      q in board && board[q] == Empty && q != pos &&
      Ahead(q, pos, Back(dir, side)) && Plus(q, Back(dir, side)) !in board
  {
  }

  /** `walk_board`'s `on_edge`: the loop stepping back across the map. */
  method OnBoardEdge(board: Board, side: int, pos: Coord, dir: Direction) returns (r: Option<Flow>)
    requires side > 0
    ensures r == FlatEdge(board, side, pos, dir)
  {
    var d := (-dir.0 * side, -dir.1 * side);
    assert d == Back(dir, side);
    var tmp := (pos.0 + d.0, pos.1 + d.1);
    while tmp in board
      invariant FlatScan(board, tmp, d) == FlatScan(board, Plus(pos, d), d)
      decreases AheadKeys(board, tmp, d)
    {
      AheadShrinks(board, tmp, d);
      tmp := (tmp.0 + d.0, tmp.1 + d.1);
    }
    var q := (tmp.0 - d.0, tmp.1 - d.1);
    if q in board && board[q] == Wall {
      r := Some(Blocked);
    } else if q in board && board[q] == Empty {
      r := Some(Moved(q, dir));
    } else {
      r := None;
    }
  }

  // ------------------------------------------------------------ folding the cube

  /** A point relative to a face's origin: (row, column, depth), depth -1 lying just beyond the face. */
  type Point3 = (int, int, int)

  /** A state of `find_point_on_cube`'s search: a face origin and the target relative to it. */
  type State = (Coord, Point3)

  /**
   * The states the search queues after `s`, in its order: the target
   * rotated onto the face above, below, left and right of the face, each
   * only when that face's origin is on the board.
   */
  function Folds(board: Board, side: int, s: State): seq<State>
  {
    var (o, t) := s;
    var up, down, left, right := (o.0 - side, o.1), (o.0 + side, o.1), (o.0, o.1 - side), (o.0, o.1 + side);
    (if up in board then [(up, (side - t.2 - 1, t.1, t.0))] else []) +
    (if down in board then [(down, (t.2, t.1, side - t.0 - 1))] else []) +
    (if left in board then [(left, (t.0, side - t.2 - 1, t.1))] else []) +
    (if right in board then [(right, (t.0, t.2, side - t.1 - 1))] else [])
  }

  /** The map cell a state's target denotes. */
  function Landing(s: State): Coord
  {
    (s.0.0 + s.1.0, s.0.1 + s.1.1)
  }

  /** The search's answer: the target lies just beyond this face, on a cell of the board. */
  predicate Lands(board: Board, s: State)
  {
    s.1.2 == -1 && Landing(s) in board
  }

  predicate InBox(t: Point3, lo: int, hi: int)
  {
    lo <= t.0 <= hi && lo <= t.1 <= hi && lo <= t.2 <= hi
  }

  /** The states the search can meet: origins on the board or the first one, targets in a box the folds map into itself. */
  predicate InUniverse(board: Board, side: int, lo: int, o0: Coord, s: State)
  {
    (s.0 in board || s.0 == o0) && InBox(s.1, lo, side - 1 - lo)
  }

  function Universe(board: Board, side: int, lo: int, o0: Coord): set<State>
  {
    set o, x, y, z | o in board.Keys + {o0} && lo <= x <= side - 1 - lo && lo <= y <= side - 1 - lo && lo <= z <= side - 1 - lo
      :: (o, (x, y, z))
  }

  lemma InUniverseMember(board: Board, side: int, lo: int, o0: Coord, s: State)
    requires InUniverse(board, side, lo, o0, s)
    ensures s in Universe(board, side, lo, o0)
  {
    var (o, (x, y, z)) := s;
    assert s == (o, (x, y, z));
  }

  lemma FoldsStay(board: Board, side: int, lo: int, o0: Coord, s: State)
    requires InUniverse(board, side, lo, o0, s)
    ensures forall i :: 0 <= i < |Folds(board, side, s)| ==> InUniverse(board, side, lo, o0, Folds(board, side, s)[i])
  {
  }

  /**
   * The search of `find_point_on_cube` from `queue` with `visited` already
   * seen: the landing of the first state popped that lands; None is the
   * final panic.
   */
  function Explore(board: Board, side: int, lo: int, o0: Coord, queue: seq<State>, visited: set<State>): (r: Option<Coord>)
    requires forall i :: 0 <= i < |queue| ==> InUniverse(board, side, lo, o0, queue[i])
    ensures r.Some? ==> r.value in board
    decreases Universe(board, side, lo, o0) - visited, |queue|
  {
    if queue == [] then None
    else
      var s := queue[0];
      if s in visited then Explore(board, side, lo, o0, queue[1..], visited)
      else if Lands(board, s) then Some(Landing(s))
      else
        InUniverseMember(board, side, lo, o0, s);
        FoldsStay(board, side, lo, o0, s);
        Explore(board, side, lo, o0, queue[1..] + Folds(board, side, s), visited + {s})
  }

  /** A chain of folds, each state queued by the one before. */
  predicate FoldPath(board: Board, side: int, path: seq<State>)
  {
    |path| >= 1 && forall i :: 0 <= i < |path| - 1 ==> path[i + 1] in Folds(board, side, path[i])
  }

  /** Folding from `from` can reach `s`. */
  ghost predicate Reaches(board: Board, side: int, from: State, s: State)
  {
    exists path :: FoldPath(board, side, path) && path[0] == from && path[|path| - 1] == s
  }

  lemma ReachesSelf(board: Board, side: int, s: State)
    ensures Reaches(board, side, s, s)
  {
    assert FoldPath(board, side, [s]);
  }

  lemma ReachesFold(board: Board, side: int, from: State, s: State, q: State)
    requires Reaches(board, side, from, s) && q in Folds(board, side, s)
    ensures Reaches(board, side, from, q)
  {
    var path :| FoldPath(board, side, path) && path[0] == from && path[|path| - 1] == s;
    var longer := path + [q];
    assert forall i :: 0 <= i < |path| ==> longer[i] == path[i];
    assert FoldPath(board, side, longer);
  }

  /** Every state queued from reachable states is reachable, so the answer is the landing of a reachable state. */
  lemma {:induction false} ExploreFinds(board: Board, side: int, lo: int, o0: Coord, queue: seq<State>, visited: set<State>, from: State)
    requires forall i :: 0 <= i < |queue| ==> InUniverse(board, side, lo, o0, queue[i])
    requires forall i :: 0 <= i < |queue| ==> Reaches(board, side, from, queue[i])
    ensures Explore(board, side, lo, o0, queue, visited).Some? ==>
      exists s :: Reaches(board, side, from, s) && Lands(board, s) && Landing(s) == Explore(board, side, lo, o0, queue, visited).value
    decreases Universe(board, side, lo, o0) - visited, |queue|
  {
    if queue != [] {
      var s := queue[0];
      if s in visited {
        ExploreFinds(board, side, lo, o0, queue[1..], visited, from);
      } else if !Lands(board, s) {
        InUniverseMember(board, side, lo, o0, s);
        FoldsStay(board, side, lo, o0, s);
        var folds := Folds(board, side, s);
        var next := queue[1..] + folds;
        forall i | 0 <= i < |next|
          ensures Reaches(board, side, from, next[i])
        {
          if i >= |queue| - 1 {
            assert next[i] == folds[i - (|queue| - 1)];
            ReachesFold(board, side, from, s, next[i]);
          }
        }
        ExploreFinds(board, side, lo, o0, next, visited + {s}, from);
      }
    }
  }

  /** Every visited state failed to land, and its folds are visited or queued. */
  predicate Closed(board: Board, side: int, queue: seq<State>, visited: set<State>)
  {
    forall v :: v in visited ==> !Lands(board, v) && forall q :: q in Folds(board, side, v) ==> q in visited || q in queue
  }

  /** Folding a path from a visited state never leaves a set closed under the folds. */
  lemma {:induction false} ClosedReach(board: Board, side: int, visited: set<State>, path: seq<State>)
    requires FoldPath(board, side, path) && path[0] in visited
    requires forall v :: v in visited ==> forall q :: q in Folds(board, side, v) ==> q in visited
    ensures path[|path| - 1] in visited
    decreases |path|
  {
    if |path| > 1 {
      var front := path[..|path| - 1];
      assert forall i :: 0 <= i < |front| ==> front[i] == path[i];
      assert FoldPath(board, side, front);
      ClosedReach(board, side, visited, front);
      assert path[|path| - 1] in Folds(board, side, path[|path| - 2]);
    }
  }

  /** When the search runs dry, no state reachable from the start lands. */
  lemma {:induction false} ExploreComplete(board: Board, side: int, lo: int, o0: Coord, queue: seq<State>, visited: set<State>, from: State)
    requires forall i :: 0 <= i < |queue| ==> InUniverse(board, side, lo, o0, queue[i])
    requires from in visited || from in queue
    requires Closed(board, side, queue, visited)
    ensures Explore(board, side, lo, o0, queue, visited).None? ==>
      forall s :: Reaches(board, side, from, s) ==> !Lands(board, s)
    decreases Universe(board, side, lo, o0) - visited, |queue|
  {
    if queue == [] {
      forall s | Reaches(board, side, from, s)
        ensures !Lands(board, s)
      {
        var path :| FoldPath(board, side, path) && path[0] == from && path[|path| - 1] == s;
        ClosedReach(board, side, visited, path);
      }
    } else {
      var s := queue[0];
      var rest := queue[1..];
      assert forall q :: q in queue ==> q == s || q in rest;
      if s in visited {
        ExploreComplete(board, side, lo, o0, rest, visited, from);
      } else if !Lands(board, s) {
        InUniverseMember(board, side, lo, o0, s);
        FoldsStay(board, side, lo, o0, s);
        var next := rest + Folds(board, side, s);
        assert forall q :: q in rest ==> q in next;
        assert forall q :: q in Folds(board, side, s) ==> q in next;
        ExploreComplete(board, side, lo, o0, next, visited + {s}, from);
      }
    }
  }

  /** The first state: the origin of the face holding `current`, and `target` relative to it at depth 0. */
  function StartState(side: int, current: Coord, target: Coord): State
    requires side > 0
  {
    var o := (current.0 - TRem(current.0, side), current.1 - TRem(current.1, side));
    (o, (target.0 - o.0, target.1 - o.1, 0))
  }

  /** A lower bound of a target box around `t` that the folds map into itself. */
  function Margin(side: int, t: Point3): (lo: int)
    ensures lo <= -1 && InBox(t, lo, side - 1 - lo)
  {
    Min(Min(-1, Min(t.0, side - 1 - t.0)), Min(Min(t.1, side - 1 - t.1), Min(t.2, side - 1 - t.2)))
  }

  /**
   * `find_point_on_cube`: the board cell where the target lands after
   * folding the map around the face holding `current`; None is the
   * "Did not find point around edge" panic, which happens exactly when no
   * chain of folds lands.
   */
  function CubePoint(board: Board, side: int, current: Coord, target: Coord): (r: Option<Coord>)
    requires side > 0
    ensures r.Some? ==> r.value in board
  {
    var s0 := StartState(side, current, target);
    Explore(board, side, Margin(side, s0.1), s0.0, [s0], {})
  }

  /** The search finds a landing of a state reachable by folds, and fails only when none of them lands. */
  lemma CubePointSearch(board: Board, side: int, current: Coord, target: Coord)
    requires side > 0
    ensures CubePoint(board, side, current, target).Some? ==>
      exists s :: Reaches(board, side, StartState(side, current, target), s) && Lands(board, s) &&
        Landing(s) == CubePoint(board, side, current, target).value
    ensures CubePoint(board, side, current, target).None? ==>
      forall s :: Reaches(board, side, StartState(side, current, target), s) ==> !Lands(board, s)
  {
    var s0 := StartState(side, current, target);
    var lo := Margin(side, s0.1);
    ReachesSelf(board, side, s0);
    ExploreFinds(board, side, lo, s0.0, [s0], {}, s0);
    ExploreComplete(board, side, lo, s0.0, [s0], {}, s0);
  }

  /** `find_point_on_cube`: a breadth-first search with a queue and a visited set. */
  method FindPointOnCube(board: Board, side: int, current: Coord, target: Coord) returns (r: Option<Coord>)
    requires side > 0
    ensures r == CubePoint(board, side, current, target)
  {
    var faceOrigin := (current.0 - TRem(current.0, side), current.1 - TRem(current.1, side));
    var relativeTarget := (target.0 - faceOrigin.0, target.1 - faceOrigin.1, 0);
    assert (faceOrigin, relativeTarget) == StartState(side, current, target);
    ghost var lo := Margin(side, relativeTarget);
    var visited: set<State> := {};
    var queue: seq<State> := [(faceOrigin, relativeTarget)];
    ghost var answer := Explore(board, side, lo, faceOrigin, queue, visited);
    assert answer == CubePoint(board, side, current, target);
    while queue != []
      invariant Searching(board, side, lo, faceOrigin, queue, visited, answer)
      decreases Universe(board, side, lo, faceOrigin) - visited, |queue|
    {
      ghost var before := queue;
      var state := queue[0];
      queue := queue[1..];
      if state in visited {
        SearchSkip(board, side, lo, faceOrigin, before, visited, answer);
        continue;
      }
      SearchStep(board, side, lo, faceOrigin, before, visited, answer);
      visited := visited + {state};
      var (o, t) := state;
      if t.2 == -1 && (o.0 + t.0, o.1 + t.1) in board {
        assert Lands(board, state) && Landing(state) == (o.0 + t.0, o.1 + t.1);
        return Some((o.0 + t.0, o.1 + t.1));
      }
      assert !Lands(board, state);
      queue := QueueFolds(board, side, state, queue);
    }
    r := None;
  }

  /** A state popped from the queue that was visited before is skipped. */
  lemma ExploreSkip(board: Board, side: int, lo: int, o0: Coord, queue: seq<State>, visited: set<State>)
    requires queue != [] && queue[0] in visited
    requires forall i :: 0 <= i < |queue| ==> InUniverse(board, side, lo, o0, queue[i])
    ensures forall i :: 0 <= i < |queue| - 1 ==> InUniverse(board, side, lo, o0, queue[1..][i])
    ensures Explore(board, side, lo, o0, queue, visited) == Explore(board, side, lo, o0, queue[1..], visited)
  {
  }

  /** The loop invariant of the search: every queued state is in the universe, and searching on gives `answer`. */
  ghost predicate Searching(board: Board, side: int, lo: int, o0: Coord, queue: seq<State>, visited: set<State>, answer: Option<Coord>)
  {
    (forall i :: 0 <= i < |queue| ==> InUniverse(board, side, lo, o0, queue[i]))
    && Explore(board, side, lo, o0, queue, visited) == answer
  }

  lemma SearchSkip(board: Board, side: int, lo: int, o0: Coord, queue: seq<State>, visited: set<State>, answer: Option<Coord>)
    requires queue != [] && queue[0] in visited && Searching(board, side, lo, o0, queue, visited, answer)
    ensures Searching(board, side, lo, o0, queue[1..], visited, answer)
  {
    ExploreSkip(board, side, lo, o0, queue, visited);
  }

  lemma SearchStep(board: Board, side: int, lo: int, o0: Coord, queue: seq<State>, visited: set<State>, answer: Option<Coord>)
    requires queue != [] && queue[0] !in visited && Searching(board, side, lo, o0, queue, visited, answer)
    ensures queue[0] in Universe(board, side, lo, o0)
    ensures Lands(board, queue[0]) ==> answer == Some(Landing(queue[0]))
    ensures !Lands(board, queue[0]) ==>
      Searching(board, side, lo, o0, queue[1..] + Folds(board, side, queue[0]), visited + {queue[0]}, answer)
  {
    InUniverseMember(board, side, lo, o0, queue[0]);
    ExploreStep(board, side, lo, o0, queue, visited);
  }

  /** One state popped from the queue and not yet visited: the search answers with it or goes on with its folds queued. */
  lemma ExploreStep(board: Board, side: int, lo: int, o0: Coord, queue: seq<State>, visited: set<State>)
    requires queue != [] && queue[0] !in visited
    requires forall i :: 0 <= i < |queue| ==> InUniverse(board, side, lo, o0, queue[i])
    ensures forall i :: 0 <= i < |queue| - 1 + |Folds(board, side, queue[0])| ==>
      InUniverse(board, side, lo, o0, (queue[1..] + Folds(board, side, queue[0]))[i])
    ensures Explore(board, side, lo, o0, queue, visited) ==
      if Lands(board, queue[0]) then Some(Landing(queue[0]))
      else Explore(board, side, lo, o0, queue[1..] + Folds(board, side, queue[0]), visited + {queue[0]})
  {
    FoldsStay(board, side, lo, o0, queue[0]);
  }

  /** The four `push_back`s of the search: the folds of `state` after the queue. */
  method QueueFolds(board: Board, side: int, state: State, queue: seq<State>) returns (r: seq<State>)
    ensures r == queue + Folds(board, side, state)
  {
    var (o, t) := state;
    r := queue;
    if (o.0 - side, o.1) in board {
      r := r + [((o.0 - side, o.1), (side - t.2 - 1, t.1, t.0))];
    }
    if (o.0 + side, o.1) in board {
      r := r + [((o.0 + side, o.1), (t.2, t.1, side - t.0 - 1))];
    }
    if (o.0, o.1 - side) in board {
      r := r + [((o.0, o.1 - side), (t.0, side - t.2 - 1, t.1))];
    }
    if (o.0, o.1 + side) in board {
      r := r + [((o.0, o.1 + side), (t.0, t.2, side - t.1 - 1))];
    }
  }

  /** The directions `walk_cube`'s `on_edge` tries, in its order. */
  const EntryOrder: seq<Direction> := [(0, 1), (0, -1), (1, 0), (-1, 0)]

  /** The first direction of `EntryOrder[k..]` whose cell behind `p` is off the board: the way onto the new face. */
  function EntryFrom(board: Board, p: Coord, k: nat): (r: Option<Direction>)
    requires k <= 4
    ensures r.Some? ==> Minus(p, r.value) !in board
    decreases 4 - k
  {
    if k == 4 then None
    else if Minus(p, EntryOrder[k]) !in board then Some(EntryOrder[k])
    else EntryFrom(board, p, k + 1)
  }

  /** `EntryFrom` picks the first direction of the order whose cell behind is off the board, and fails only when there is none. */
  lemma {:induction false} EntryFromFirst(board: Board, p: Coord, k: nat)
    requires k <= 4
    ensures EntryFrom(board, p, k).Some? ==>
      exists j :: k <= j < 4 && EntryOrder[j] == EntryFrom(board, p, k).value && forall i :: k <= i < j ==> Minus(p, EntryOrder[i]) in board
    ensures EntryFrom(board, p, k).None? <==> forall i :: k <= i < 4 ==> Minus(p, EntryOrder[i]) in board
    decreases 4 - k
  {
    if k < 4 && Minus(p, EntryOrder[k]) in board {
      EntryFromFirst(board, p, k + 1);
    }
  }

  /**
   * `walk_cube`'s `on_edge` for the off-board cell `pos` reached along
   * `dir`: a wall where the fold lands stops the walk; otherwise the walk
   * goes on from there in the first direction leading away from the edge.
   * None is the panic of the search or of the `unwrap` on the directions.
   */
  function CubeEdge(board: Board, side: int, pos: Coord, dir: Direction): (r: Option<Flow>)
    requires side > 0
    ensures r.Some? ==> CubePoint(board, side, Minus(pos, dir), pos).Some?
    ensures r == Some(Blocked) <==>
      CubePoint(board, side, Minus(pos, dir), pos).Some? && board[CubePoint(board, side, Minus(pos, dir), pos).value] == Wall
    ensures r.Some? && r.value.Moved? ==>
      r.value.pos == CubePoint(board, side, Minus(pos, dir), pos).value &&
      board[r.value.pos] == Empty && Minus(r.value.pos, r.value.dir) !in board
  {
    match CubePoint(board, side, Minus(pos, dir), pos)
    case None => None
    case Some(q) =>
      if board[q].Wall? then Some(Blocked)
      else
        match EntryFrom(board, q, 0)
        case None => None
        case Some(e) => Some(Moved(q, e))
  }

  /** `walk_cube`'s `on_edge`. */
  method OnCubeEdge(board: Board, side: int, pos: Coord, dir: Direction) returns (r: Option<Flow>)
    requires side > 0
    ensures r == CubeEdge(board, side, pos, dir)
  {
    var oldPos := (pos.0 - dir.0, pos.1 - dir.1);
    var newPos := FindPointOnCube(board, side, oldPos, pos);
    if newPos.None? {
      return None;
    }
    var p := newPos.value;
    if board[p] == Wall {
      return Some(Blocked);
    }
    var entry := EntryFrom(board, p, 0);
    if entry.None? {
      return None;
    }
    r := Some(Moved(p, entry.value));
  }

  // ------------------------------------------------------------ the walk

  /** The `on_edge` chosen for the walk. */
  function Edge(board: Board, side: int, wrap: Wrap, pos: Coord, dir: Direction): (r: Option<Flow>)
    requires side > 0
    ensures r.Some? && r.value.Moved? ==> r.value.pos in board && board[r.value.pos] == Empty
  {
    match wrap
    case Flat => FlatEdge(board, side, pos, dir)
    case Cube => CubeEdge(board, side, pos, dir)
  }

  /**
   * One step of a `Walk`: onto an open tile, stopped by a wall, and through
   * `on_edge` only when the next cell is off the board; None is a panic
   * there.
   */
  function Step(board: Board, side: int, wrap: Wrap, pos: Coord, dir: Direction): (r: Option<Flow>)
    requires side > 0
    ensures r.Some? && r.value.Moved? ==> r.value.pos in board && board[r.value.pos] == Empty
    ensures r.None? ==> Plus(pos, dir) !in board
  {
    var next := Plus(pos, dir);
    if next in board then (if board[next].Wall? then Some(Blocked) else Some(Moved(next, dir)))
    else Edge(board, side, wrap, next, dir)
  }

  /** `Walk(n)`: up to `n` steps, the walk ending early where a step is blocked. */
  function Advance(board: Board, side: int, wrap: Wrap, pos: Coord, dir: Direction, n: nat): (r: Option<(Coord, Direction)>)
    requires side > 0
    ensures r.Some? && pos in board && board[pos] == Empty ==> r.value.0 in board && board[r.value.0] == Empty
    decreases n
  {
    if n == 0 then Some((pos, dir))
    else
      match Step(board, side, wrap, pos, dir)
      case None => None
      case Some(Blocked) => Some((pos, dir))
      case Some(Moved(p, d)) => Advance(board, side, wrap, p, d, n - 1)
  }

  /** The commands from `pos` facing `dir`: where the path ends and the way it faces; None is a panic. */
  function Run(board: Board, side: int, wrap: Wrap, pos: Coord, dir: Direction, commands: seq<Command>): (r: Option<(Coord, Direction)>)
    requires side > 0
    ensures r.Some? && pos in board && board[pos] == Empty ==> r.value.0 in board && board[r.value.0] == Empty
    decreases |commands|
  {
    if commands == [] then Some((pos, dir))
    else
      match commands[0]
      case TurnR => Run(board, side, wrap, pos, TurnRight(dir), commands[1..])
      case TurnL => Run(board, side, wrap, pos, TurnLeft(dir), commands[1..])
      case Walk(n) =>
        match Advance(board, side, wrap, pos, dir, n)
        case None => None
        case Some((p, d)) => Run(board, side, wrap, p, d, commands[1..])
  }

  /** The rest of the path after the first part. */
  function Then(board: Board, side: int, wrap: Wrap, o: Option<(Coord, Direction)>, commands: seq<Command>): Option<(Coord, Direction)>
    requires side > 0
  {
    if o.None? then None else Run(board, side, wrap, o.value.0, o.value.1, commands)
  }

  /** A path split in two is walked one part after the other. */
  lemma {:induction false} RunAppend(board: Board, side: int, wrap: Wrap, pos: Coord, dir: Direction, a: seq<Command>, b: seq<Command>)
    requires side > 0
    ensures Run(board, side, wrap, pos, dir, a + b) == Then(board, side, wrap, Run(board, side, wrap, pos, dir, a), b)
    decreases |a|
  {
    if a == [] {
      assert a + b == b;
    } else {
      assert (a + b)[0] == a[0] && (a + b)[1..] == a[1..] + b;
      match a[0]
      case TurnR =>
        RunAppend(board, side, wrap, pos, TurnRight(dir), a[1..], b);
      case TurnL =>
        RunAppend(board, side, wrap, pos, TurnLeft(dir), a[1..], b);
      case Walk(n) =>
        var moved := Advance(board, side, wrap, pos, dir, n);
        if moved.Some? {
          RunAppend(board, side, wrap, moved.value.0, moved.value.1, a[1..], b);
        }
    }
  }

  /** Turning right then left, or four times either way, changes nothing about the rest of the walk. */
  lemma TurnsCancel(board: Board, side: int, wrap: Wrap, pos: Coord, dir: Direction, rest: seq<Command>)
    requires side > 0
    ensures Run(board, side, wrap, pos, dir, [TurnR, TurnL] + rest) == Run(board, side, wrap, pos, dir, rest)
    ensures Run(board, side, wrap, pos, dir, [TurnR, TurnR, TurnR, TurnR] + rest) == Run(board, side, wrap, pos, dir, rest)
  {
    TurnsRestore(dir);
    var two := [TurnR, TurnL] + rest;
    assert two[0] == TurnR && two[1..][0] == TurnL && two[1..][1..] == rest;
    var four := [TurnR, TurnR, TurnR, TurnR] + rest;
    var r1, r2, r3 := TurnRight(dir), TurnRight(TurnRight(dir)), TurnRight(TurnRight(TurnRight(dir)));
    assert four[1..] == [TurnR, TurnR, TurnR] + rest && four[1..][1..] == [TurnR, TurnR] + rest;
    assert four[1..][1..][1..] == [TurnR] + rest && four[1..][1..][1..][1..] == rest;
    assert Run(board, side, wrap, pos, r3, [TurnR] + rest) == Run(board, side, wrap, pos, dir, rest);
    assert Run(board, side, wrap, pos, r2, [TurnR, TurnR] + rest) == Run(board, side, wrap, pos, r3, [TurnR] + rest);
    assert Run(board, side, wrap, pos, r1, [TurnR, TurnR, TurnR] + rest) == Run(board, side, wrap, pos, r2, [TurnR, TurnR] + rest);
  }

  /** The `on_edge` of `walk_board` or `walk_cube`, passed to `walk`. */
  method OnEdge(board: Board, side: int, wrap: Wrap, pos: Coord, dir: Direction) returns (r: Option<Flow>)
    requires side > 0
    ensures r == Edge(board, side, wrap, pos, dir)
  {
    match wrap
    case Flat =>
      r := OnBoardEdge(board, side, pos, dir);
    case Cube =>
      r := OnCubeEdge(board, side, pos, dir);
  }

  /** `walk`'s loop for one `Walk(n)`: up to `n` steps, stopped by a wall, through `on_edge` off the board. */
  method WalkSteps(board: Board, side: int, wrap: Wrap, start: Coord, direction: Direction, n: nat)
    returns (r: Option<(Coord, Direction)>)
    requires side > 0
    ensures r == Advance(board, side, wrap, start, direction, n)
  {
    var pos, dir := start, direction;
    var j := 0;
    while j < n
      invariant j <= n
      invariant Advance(board, side, wrap, pos, dir, n - j) == Advance(board, side, wrap, start, direction, n)
    {
      var newPos := (pos.0 + dir.0, pos.1 + dir.1);
      if newPos in board && board[newPos] == Empty {
        pos := newPos;
      } else if newPos in board {
        break;
      } else {
        var flow := OnEdge(board, side, wrap, newPos, dir);
        if flow.None? {
          return None;
        } else if flow.value.Blocked? {
          break;
        }
        pos, dir := flow.value.pos, flow.value.dir;
      }
      j := j + 1;
    }
    r := Some((pos, dir));
  }

  /** `walk`: the commands in turn, the steps of a walk through the board or `on_edge`. */
  method WalkWith(board: Board, side: int, start: Coord, direction: Direction, commands: seq<Command>, wrap: Wrap)
    returns (r: Option<(Coord, Direction)>)
    requires side > 0
    ensures r == Run(board, side, wrap, start, direction, commands)
  {
    var pos, dir := start, direction;
    ghost var goal := Run(board, side, wrap, start, direction, commands);
    assert commands[0..] == commands;
    for i := 0 to |commands|
      invariant Run(board, side, wrap, pos, dir, commands[i..]) == goal
    {
      assert commands[i..][0] == commands[i] && commands[i..][1..] == commands[i + 1..];
      match commands[i]
      case Walk(n) =>
        var walked := WalkSteps(board, side, wrap, pos, dir, n);
        if walked.None? {
          return None;
        }
        pos, dir := walked.value.0, walked.value.1;
      case TurnR =>
        dir := TurnRight(dir);
      case TurnL =>
        dir := TurnLeft(dir);
    }
    assert commands[|commands|..] == [];
    r := Some((pos, dir));
  }

  /** A step off the flat map lands where the wrap loop, run to its end `tmp`, leaves it. */
  lemma FlatStep(board: Board, side: int, pos: Coord, dir: Direction, tmp: Coord)
    requires side > 0 && Plus(pos, dir) !in board
    requires tmp == FlatScan(board, Plus(Plus(pos, dir), Back(dir, side)), Back(dir, side))
    ensures var w := Minus(tmp, Back(dir, side));
      Step(board, side, Flat, pos, dir) == if w !in board then None else if board[w].Wall? then Some(Blocked) else Some(Moved(w, dir))
  {
  }

  /** A step off the cube's net goes through the fold from the cell it leaves. */
  lemma CubeStep(board: Board, side: int, pos: Coord, dir: Direction)
    requires side > 0 && Plus(pos, dir) !in board
    ensures Step(board, side, Cube, pos, dir) == CubeEdge(board, side, Plus(pos, dir), dir)
    ensures Minus(Plus(pos, dir), dir) == pos
  {
  }

  /** `walk_board`: the walk wrapping around the flat map. */
  method WalkBoard(board: Board, side: int, start: Coord, direction: Direction, commands: seq<Command>)
    returns (r: Option<(Coord, Direction)>)
    requires side > 0
    ensures r == Run(board, side, Flat, start, direction, commands)
  {
    r := WalkWith(board, side, start, direction, commands, Flat);
  }

  /** `walk_cube`: the walk over the folded cube. */
  method WalkCube(board: Board, side: int, start: Coord, direction: Direction, commands: seq<Command>)
    returns (r: Option<(Coord, Direction)>)
    requires side > 0
    ensures r == Run(board, side, Cube, start, direction, commands)
  {
    r := WalkWith(board, side, start, direction, commands, Cube);
  }

  /** The wrap loop of `walk_board_`: from `from`, on along `d` while on the board; the first cell off it. */
  method ScanBack(board: Board, from: Coord, d: (int, int)) returns (tmp: Coord)
    requires Axial(d)
    ensures tmp == FlatScan(board, from, d)
  {
    tmp := from;
    while tmp in board
      invariant FlatScan(board, tmp, d) == FlatScan(board, from, d)
      decreases AheadKeys(board, tmp, d)
    {
      AheadShrinks(board, tmp, d);
      tmp := (tmp.0 + d.0, tmp.1 + d.1);
    }
  }

  /** `walk_board_`'s wrap for a step from `pos` off the board: the flat `on_edge` written out. */
  method StepOffFlat(board: Board, side: int, pos: Coord, dir: Direction) returns (r: Option<Flow>)
    requires side > 0 && Plus(pos, dir) !in board
    ensures r == Step(board, side, Flat, pos, dir)
  {
    var newPos := (pos.0 + dir.0, pos.1 + dir.1);
    var d := (-dir.0 * side, -dir.1 * side);
    assert d == Back(dir, side);
    var tmp := ScanBack(board, (newPos.0 + d.0, newPos.1 + d.1), d);
    var wrapped := (tmp.0 - d.0, tmp.1 - d.1);
    FlatStep(board, side, pos, dir, tmp);
    if wrapped in board && board[wrapped] == Wall {
      r := Some(Blocked);
    } else if wrapped in board && board[wrapped] == Empty {
      r := Some(Moved(wrapped, dir));
    } else {
      r := None;
    }
  }

  /** `walk_board_`'s loop for one `Walk(n)`, with the flat `on_edge` written out. */
  method WalkStepsFlat(board: Board, side: int, start: Coord, direction: Direction, n: nat)
    returns (r: Option<(Coord, Direction)>)
    requires side > 0
    ensures r == Advance(board, side, Flat, start, direction, n)
  {
    var pos, dir := start, direction;
    var j := 0;
    while j < n
      invariant j <= n
      invariant Advance(board, side, Flat, pos, dir, n - j) == Advance(board, side, Flat, start, direction, n)
    {
      var newPos := (pos.0 + dir.0, pos.1 + dir.1);
      if newPos in board && board[newPos] == Empty {
        pos := newPos;
      } else if newPos in board {
        break;
      } else {
        var flow := StepOffFlat(board, side, pos, dir);
        if flow.None? {
          return None;
        } else if flow.value.Blocked? {
          break;
        }
        pos := flow.value.pos;
      }
      j := j + 1;
    }
    r := Some((pos, dir));
  }

  /** `walk_board_`: `walk` and the flat `on_edge` written out in one loop nest; it ends where `walk_board` ends. */
  method WalkBoardInline(board: Board, side: int, start: Coord, direction: Direction, commands: seq<Command>)
    returns (r: Option<(Coord, Direction)>)
    requires side > 0
    ensures r == Run(board, side, Flat, start, direction, commands)
  {
    var pos, dir := start, direction;
    ghost var goal := Run(board, side, Flat, start, direction, commands);
    assert commands[0..] == commands;
    for i := 0 to |commands|
      invariant Run(board, side, Flat, pos, dir, commands[i..]) == goal
    {
      assert commands[i..][0] == commands[i] && commands[i..][1..] == commands[i + 1..];
      match commands[i]
      case Walk(n) =>
        var walked := WalkStepsFlat(board, side, pos, dir, n);
        if walked.None? {
          return None;
        }
        pos, dir := walked.value.0, walked.value.1;
      case TurnR =>
        dir := TurnRight(dir);
      case TurnL =>
        dir := TurnLeft(dir);
    }
    assert commands[|commands|..] == [];
    r := Some((pos, dir));
  }

  /** `walk_cube_`'s loop for one `Walk(n)`, with the cube `on_edge` written out. */
  method WalkStepsCube(board: Board, side: int, start: Coord, direction: Direction, n: nat)
    returns (r: Option<(Coord, Direction)>)
    requires side > 0
    ensures r == Advance(board, side, Cube, start, direction, n)
  {
    var pos, dir := start, direction;
    var j := 0;
    while j < n
      invariant j <= n
      invariant Advance(board, side, Cube, pos, dir, n - j) == Advance(board, side, Cube, start, direction, n)
    {
      var newPos := (pos.0 + dir.0, pos.1 + dir.1);
      if newPos in board && board[newPos] == Empty {
        pos := newPos;
      } else if newPos in board {
        break;
      } else {
        CubeStep(board, side, pos, dir);
        var folded := FindPointOnCube(board, side, pos, newPos);
        if folded.None? {
          return None;
        }
        if board[folded.value] == Wall {
          break;
        }
        pos := folded.value;
        var entry := EntryFrom(board, pos, 0);
        if entry.None? {
          return None;
        }
        dir := entry.value;
      }
      j := j + 1;
    }
    r := Some((pos, dir));
  }

  /** `walk_cube_`: `walk` and the cube `on_edge` written out in one loop nest; it ends where `walk_cube` ends. */
  method WalkCubeInline(board: Board, side: int, start: Coord, direction: Direction, commands: seq<Command>)
    returns (r: Option<(Coord, Direction)>)
    requires side > 0
    ensures r == Run(board, side, Cube, start, direction, commands)
  {
    var pos, dir := start, direction;
    ghost var goal := Run(board, side, Cube, start, direction, commands);
    assert commands[0..] == commands;
    for i := 0 to |commands|
      invariant Run(board, side, Cube, pos, dir, commands[i..]) == goal
    {
      assert commands[i..][0] == commands[i] && commands[i..][1..] == commands[i + 1..];
      match commands[i]
      case Walk(n) =>
        var walked := WalkStepsCube(board, side, pos, dir, n);
        if walked.None? {
          return None;
        }
        pos, dir := walked.value.0, walked.value.1;
      case TurnR =>
        dir := TurnRight(dir);
      case TurnL =>
        dir := TurnLeft(dir);
    }
    assert commands[|commands|..] == [];
    r := Some((pos, dir));
  }

  // ------------------------------------------------------------ the parts

  /** The side length of the puzzle input's cube faces. */
  const SideLength: int := 50

  /** `part1`: the password where the flat walk from the start, facing right, ends; None is a panic. */
  method Part1(notes: Notes) returns (r: Option<int>)
    ensures r.Some? <==> Run(notes.board, SideLength, Flat, notes.start, (0, 1), notes.commands).Some?
    ensures r.Some? ==> r.value == Password(Run(notes.board, SideLength, Flat, notes.start, (0, 1), notes.commands).value.0,
                                            Run(notes.board, SideLength, Flat, notes.start, (0, 1), notes.commands).value.1)
  {
    var last := WalkBoard(notes.board, SideLength, notes.start, (0, 1), notes.commands);
    if last.None? {
      return None;
    }
    r := Some(Password(last.value.0, last.value.1));
  }

  /** `part2`: the password where the walk over the cube from the start, facing right, ends; None is a panic. */
  method Part2(notes: Notes) returns (r: Option<int>)
    ensures r.Some? <==> Run(notes.board, SideLength, Cube, notes.start, (0, 1), notes.commands).Some?
    ensures r.Some? ==> r.value == Password(Run(notes.board, SideLength, Cube, notes.start, (0, 1), notes.commands).value.0,
                                            Run(notes.board, SideLength, Cube, notes.start, (0, 1), notes.commands).value.1)
  {
    var last := WalkCube(notes.board, SideLength, notes.start, (0, 1), notes.commands);
    if last.None? {
      return None;
    }
    r := Some(Password(last.value.0, last.value.1));
  }
}
