/**
 * Day 10: a CPU with one register X, starting at 1. `noop` takes one cycle;
 * `addx n` takes two and adds `n` to X only after both. Part 1 sums the
 * signal strengths (cycle times X) during the cycles 20, 60, 100, ...;
 * part 2 draws a 40 by 6 screen whose pixel is lit when the 3-wide sprite
 * centred on X covers the pixel's column in the cycle drawing it.
 */
module Day10 {
  import opened Wrappers
  import opened Text

  datatype Instr = Noop | Addx(n: int)

  const ScreenWidth: nat := 40
  const ScreenSize: nat := 240

  /** `n` fits in `i32`, the type `parse::<i32>` reads into. */
  predicate InI32(n: int)
  {
    -0x8000_0000 <= n < 0x8000_0000
  }

  /**
   * A line is an `addx` exactly when the text after its first space parses
   * as an `i32`; every other line, an out-of-range number included, counts
   * as `noop`.
   */
  function ParseInstr(line: string): Instr
  {
    match SplitOnce(line, ' ')
    case Some((_, num)) =>
      (match ParseInt(num)
       case Some(n) => if InI32(n) then Addx(n) else Noop
       case None => Noop)
    case None => Noop
  }

  /** "noop" and "addx n" read back as written, except that an `n` outside `i32` reads as `noop`. */
  lemma ParseInstrFormat(instr: Instr)
    ensures ParseInstr(if instr.Noop? then "noop" else "addx " + FormatInt(instr.n))
            == (if instr.Addx? && !InI32(instr.n) then Noop else instr)
  {
    if instr.Addx? {
      var line := "addx " + FormatInt(instr.n);
      assert line[4] == ' ' && ' ' !in line[..4];
      SplitOnceAt(line, ' ', 4);
      assert line[5..] == FormatInt(instr.n);
      ParseIntFormat(instr.n);
    } else {
      assert ' ' !in "noop";
    }
  }

  function Parse(input: string): (r: seq<Instr>)
    ensures |r| == |Lines(input)| && forall i :: 0 <= i < |r| ==> r[i] == ParseInstr(Lines(input)[i])
    ensures forall i :: 0 <= i < |r| && r[i].Addx? ==> InI32(r[i].n)
  {
    var lines := Lines(input);
    seq(|lines|, i requires 0 <= i < |lines| => ParseInstr(lines[i]))
  }

  // ------------------------------------------------------------ the reference semantics

  function Duration(instr: Instr): nat
  {
    if instr.Noop? then 1 else 2
  }

  /** X during every cycle of the program, started with X = `x`: `trace[c - 1]` is X during cycle `c`. */
  function Trace(instrs: seq<Instr>, x: int): seq<int>
  {
    if instrs == [] then []
    else
      match instrs[0]
      case Noop => [x] + Trace(instrs[1..], x)
      case Addx(n) => [x, x] + Trace(instrs[1..], x + n)
  }

  /** X after the program: the start value plus every `addx` operand. */
  function Final(instrs: seq<Instr>, x: int): int
  {
    if instrs == [] then x
    else Final(instrs[1..], if instrs[0].Noop? then x else x + instrs[0].n)
  }

  /**
   * An instruction appended to a program runs all its cycles with the X the
   * program ended with: X changes only once every cycle of an `addx` is over.
   */
  lemma {:induction false} TraceAppend(instrs: seq<Instr>, instr: Instr, x: int)
    ensures Trace(instrs + [instr], x) ==
      Trace(instrs, x) + if instr.Noop? then [Final(instrs, x)] else [Final(instrs, x), Final(instrs, x)]
  {
    if instrs != [] {
      var next := if instrs[0].Noop? then x else x + instrs[0].n;
      assert (instrs + [instr])[1..] == instrs[1..] + [instr];
      TraceAppend(instrs[1..], instr, next);
    }
  }

  /** A cycle whose signal strength counts: 20, 60, 100, ... */
  predicate Sampled(cycle: nat)
  {
    cycle % 40 == 20
  }

  /** The sum of `cycle * X` over the sampled cycles of a trace. */
  function Strength(trace: seq<int>): int
  {
    if trace == [] then 0
    else Strength(trace[..|trace| - 1]) + Signal(|trace|, trace[|trace| - 1])
  }

  /** The signal strength that cycle `cycle` adds, with X at `x`. */
  function Signal(cycle: nat, x: int): int
  {
    if Sampled(cycle) then cycle * x else 0
  }

  /** A pixel is lit when the sprite centred on X covers its column. */
  predicate Lit(pixel: nat, x: int)
  {
    AbsDiff(pixel % ScreenWidth, x) <= 1
  }

  /**
   * After `used` cycles, the rest of the program runs on until exactly the
   * 240 cycles of the screen are used.
   */
  predicate FillsFrom(instrs: seq<Instr>, used: nat)
  {
    used == ScreenSize || (instrs != [] && used < ScreenSize && FillsFrom(instrs[1..], used + Duration(instrs[0])))
  }

  lemma FillsStep(instrs: seq<Instr>, i: nat, used: nat)
    requires i < |instrs| && used < ScreenSize
    ensures FillsFrom(instrs[i..], used) == FillsFrom(instrs[i + 1..], used + Duration(instrs[i]))
  {
    assert instrs[i..][1..] == instrs[i + 1..];
  }

  predicate Fills(instrs: seq<Instr>)
  {
    FillsFrom(instrs, 0)
  }

  lemma {:induction false} FilledTrace(instrs: seq<Instr>, used: nat, x: int)
    requires FillsFrom(instrs, used)
    ensures used + |Trace(instrs, x)| >= ScreenSize
  {
    if used != ScreenSize {
      FilledTrace(instrs[1..], used + Duration(instrs[0]), if instrs[0].Noop? then x else x + instrs[0].n);
    }
  }

  // ------------------------------------------------------------ part 1

  /** The X of each cycle one instruction takes, all the X before it. */
  function Cycles(instr: Instr, x: int): (r: seq<int>)
    ensures |r| == Duration(instr) && forall k :: 0 <= k < |r| ==> r[k] == x
  {
    if instr.Noop? then [x] else [x, x]
  }

  /** X once an instruction's cycles are over. */
  function After(instr: Instr, x: int): int
  {
    if instr.Noop? then x else x + instr.n
  }

  /** The first `i` instructions ran through the cycles `done`, leaving X at `register`. */
  ghost predicate Ran(instrs: seq<Instr>, i: nat, done: seq<int>, register: int)
  {
    i <= |instrs| && Trace(instrs, 1) == done + Trace(instrs[i..], register)
  }

  lemma RanStep(instrs: seq<Instr>, i: nat, done: seq<int>, register: int)
    requires Ran(instrs, i, done, register) && i < |instrs|
    ensures Ran(instrs, i + 1, done + Cycles(instrs[i], register), After(instrs[i], register))
  {
    assert instrs[i..][1..] == instrs[i + 1..];
    var rest := Trace(instrs[i + 1..], After(instrs[i], register));
    assert Trace(instrs[i..], register) == Cycles(instrs[i], register) + rest;
    assert done + (Cycles(instrs[i], register) + rest) == (done + Cycles(instrs[i], register)) + rest;
  }

  lemma RanEnd(instrs: seq<Instr>, done: seq<int>, register: int)
    requires Ran(instrs, |instrs|, done, register)
    ensures Trace(instrs, 1) == done
  {
    assert Trace(instrs[|instrs|..], register) == [];
    assert done + [] == done;
  }

  /** The strength of the cycles of one more instruction, the first of them being cycle `|done| + 1`. */
  lemma StrengthStep(done: seq<int>, instr: Instr, x: int)
    ensures Strength(done + Cycles(instr, x)) == Strength(done)
      + Signal(|done| + 1, x) + (if instr.Addx? then Signal(|done| + 2, x) else 0)
  {
    var one := done + [x];
    assert one[..|done|] == done;
    if instr.Addx? {
      assert (one + [x])[..|one|] == one;
      assert done + Cycles(instr, x) == one + [x];
    }
  }

  /**
   * The signal strength one instruction adds in `part1`: that of its first
   * cycle when `(cycle + 20) % 40 == 0`, and that of an `addx`'s second
   * cycle when `(cycle + 21) % 40 == 0`.
   */
  method SignalOf(cycle: nat, register: int, instr: Instr) returns (gain: int)
    requires cycle > 0
    ensures gain == Signal(cycle, register) + if instr.Addx? then Signal(cycle + 1, register) else 0
  {
    SampledAt(cycle);
    gain := 0;
    if cycle > 0 && (cycle + 20) % 40 == 0 {
      gain := gain + cycle * register;
    }
    if instr.Addx? && cycle > 0 && (cycle + 21) % 40 == 0 {
      gain := gain + (cycle + 1) * register;
    }
  }

  /** `part1`: the signal strengths of the sampled cycles, summed instruction by instruction. */
  method Part1(instrs: seq<Instr>) returns (finalValue: int)
    ensures finalValue == Strength(Trace(instrs, 1))
  {
    var cycle := 1;
    var register := 1;
    finalValue := 0;
    ghost var done: seq<int> := [];
    for i := 0 to |instrs|
      invariant cycle == |done| + 1
      invariant Ran(instrs, i, done, register)
      invariant finalValue == Strength(done)
    {
      RanStep(instrs, i, done, register);
      StrengthStep(done, instrs[i], register);
      var gain := SignalOf(cycle, register, instrs[i]);
      finalValue := finalValue + gain;
      done := done + Cycles(instrs[i], register);
      cycle := cycle + Duration(instrs[i]);
      register := After(instrs[i], register);
    }
    RanEnd(instrs, done, register);
  }

  /** The first `|done|` pixels of the screen are drawn with the X of their cycles. */
  ghost predicate Drawn(screen: seq<bool>, done: seq<int>)
  {
    |done| <= |screen| && forall k :: 0 <= k < |done| ==> (screen[k] <==> Lit(k, done[k]))
  }

  /** The pixels one instruction draws, starting in `cycle`, all with the X before it. */
  method Draw(pixels: array<bool>, cycle: nat, register: int, instr: Instr, ghost done: seq<int>)
    requires 1 <= cycle && cycle - 1 + Duration(instr) <= pixels.Length
    requires |done| == cycle - 1 && Drawn(pixels[..], done)
    modifies pixels
    ensures forall k :: 0 <= k < pixels.Length && !(cycle - 1 <= k < cycle - 1 + Duration(instr)) ==> pixels[k] == old(pixels[k])
    ensures forall k :: cycle - 1 <= k < cycle - 1 + Duration(instr) ==> (pixels[k] <==> Lit(k, register))
    ensures Drawn(pixels[..], done + Cycles(instr, register))
  {
    var pixelPos := (cycle - 1) % 40;
    pixels[cycle - 1] := AbsDiff(pixelPos, register) <= 1;
    if instr.Addx? {
      pixels[cycle] := AbsDiff((pixelPos + 1) % 40, register) <= 1;
      NextColumn(cycle);
    }
  }

  /** The source's two tests for a sampled cycle, for the first and the second cycle of an instruction. */
  lemma SampledAt(cycle: nat)
    requires cycle > 0
    ensures (cycle + 20) % 40 == 0 <==> Sampled(cycle)
    ensures (cycle + 21) % 40 == 0 <==> Sampled(cycle + 1)
  {
    var q, r := cycle / 40, cycle % 40;
    assert cycle == 40 * q + r;
    ModUnique(cycle + 20, 40, if r < 20 then q else q + 1, if r < 20 then r + 20 else r - 20);
    ModUnique(cycle + 21, 40, if r < 19 then q else q + 1, if r < 19 then r + 21 else r - 19);
    if r < 39 {
      ModUnique(cycle + 1, 40, q, r + 1);
    } else {
      ModUnique(cycle + 1, 40, q + 1, 0);
    }
  }

  /** The second pixel of an `addx`, `(pixel_pos + 1) % 40`, is the column of the next cycle. */
  lemma NextColumn(cycle: nat)
    requires cycle > 0
    ensures ((cycle - 1) % 40 + 1) % 40 == cycle % 40
  {
    var q, r := (cycle - 1) / 40, (cycle - 1) % 40;
    assert cycle == 40 * q + r + 1;
    if r < 39 {
      ModUnique(cycle, 40, q, r + 1);
      ModUnique(r + 1, 40, 0, r + 1);
    } else {
      ModUnique(cycle, 40, q + 1, 0);
    }
  }

  // ------------------------------------------------------------ part 2

  /** A screen drawn with the X of its first 240 cycles shows the program's trace. */
  lemma DrawnTrace(screen: seq<bool>, instrs: seq<Instr>, i: nat, done: seq<int>, register: int)
    requires Ran(instrs, i, done, register) && Drawn(screen, done) && |screen| == |done| == ScreenSize
    ensures |Trace(instrs, 1)| >= ScreenSize
    ensures forall k :: 0 <= k < ScreenSize ==> (screen[k] <==> Lit(k, Trace(instrs, 1)[k]))
  {
    assert forall k :: 0 <= k < ScreenSize ==> Trace(instrs, 1)[k] == done[k];
  }

  /**
   * `part2`: instructions are read while the cycle is at most 240, and each
   * of their cycles draws one pixel with the X of that cycle. `None` is a
   * panic: the program ends before the screen is full, or an `addx` starts
   * in cycle 240 and would draw a 241st pixel.
   */
  method Part2(instrs: seq<Instr>) returns (r: Option<seq<bool>>)
    ensures r.Some? <==> Fills(instrs)
    ensures r.Some? ==> |r.value| == ScreenSize && |Trace(instrs, 1)| >= ScreenSize
    ensures r.Some? ==> forall k :: 0 <= k < ScreenSize ==> (r.value[k] <==> Lit(k, Trace(instrs, 1)[k]))
  {
    var pixels := new bool[ScreenSize](_ => false);
    var cycle: nat := 1;
    var register := 1;
    var i := 0;
    ghost var done: seq<int> := [];
    while cycle <= ScreenSize
      invariant cycle == |done| + 1 <= ScreenSize + 1
      invariant Ran(instrs, i, done, register)
      invariant Fills(instrs) == FillsFrom(instrs[i..], cycle - 1)
      invariant Drawn(pixels[..], done)
      decreases ScreenSize + 1 - cycle
    {
      if i >= |instrs| {
        return None;
      }
      FillsStep(instrs, i, cycle - 1);
      if instrs[i].Addx? && cycle == ScreenSize {
        return None;
      }
      RanStep(instrs, i, done, register);
      Draw(pixels, cycle, register, instrs[i], done);
      done := done + Cycles(instrs[i], register);
      cycle := cycle + Duration(instrs[i]);
      register := After(instrs[i], register);
      i := i + 1;
    }
    r := Some(pixels[..]);
    DrawnTrace(r.value, instrs, i, done, register);
  }
}
