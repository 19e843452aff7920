/**
 * Day 25: balanced base-five ("SNAFU") numbers. Digits are stored least
 * significant first, each in -2..2, and written '=', '-', '0', '1', '2'.
 */
module Day25 {
  import opened Wrappers

  type Digit = x: int | -2 <= x <= 2

  /** The digits of one number, least significant first. */
  type Snafu = seq<Digit>

  /** The number a digit sequence denotes: d[0] + 5 * d[1] + 25 * d[2] + ... */
  function Value(d: seq<int>): int
  {
    if d == [] then 0 else d[0] + 5 * Value(d[1..])
  }

  // ------------------------------------------------------------ strings

  function DigitOf(c: char): Option<Digit>
  {
    match c
    case '0' => Some(0)
    case '1' => Some(1)
    case '2' => Some(2)
    case '-' => Some(-1)
    case '=' => Some(-2)
    case _ => None
  }

  function CharOf(d: Digit): (c: char)
    ensures DigitOf(c) == Some(d)
  {
    match d
    case 0 => '0'
    case 1 => '1'
    case 2 => '2'
    case -1 => '-'
    case -2 => '='
  }

  predicate IsSnafuChar(c: char)
  {
    c in "012-="
  }

  lemma DigitOfDefined(c: char)
    ensures DigitOf(c).Some? <==> IsSnafuChar(c)
    ensures DigitOf(c).Some? ==> CharOf(DigitOf(c).value) == c
  {
  }

  /** `Snafu::from_str`: `None` is the panic on a character outside "012-=". */
  function FromStr(s: string): (r: Option<Snafu>)
    ensures r.Some? <==> forall i :: 0 <= i < |s| ==> IsSnafuChar(s[i])
    ensures r.Some? ==> |r.value| == |s| && forall i :: 0 <= i < |s| ==> Some(r.value[i]) == DigitOf(s[|s| - 1 - i])
    decreases |s|
  {
    if s == [] then Some([])
    else
      var prefix := s[..|s| - 1];
      assert forall i :: 0 <= i < |prefix| ==> prefix[i] == s[i];
      DigitOfDefined(s[|s| - 1]);
      match DigitOf(s[|s| - 1])
      case None => None
      case Some(d) =>
        var rest := FromStr(prefix);
        if rest.None? then None else Some([d] + rest.value)
  }

  /** `Display for Snafu`: most significant digit first, one character per digit. */
  function Format(d: Snafu): (t: string)
    ensures |t| == |d| && forall i :: 0 <= i < |d| ==> t[i] == CharOf(d[|d| - 1 - i])
  {
    if d == [] then ""
    else
      var rest := d[1..];
      assert forall k :: 0 <= k < |rest| ==> rest[k] == d[k + 1];
      Format(rest) + [CharOf(d[0])]
  }

  /** Formatting what was read gives back the text. */
  lemma {:induction false} FormatFromStr(s: string)
    requires FromStr(s).Some?
    ensures Format(FromStr(s).value) == s
    decreases |s|
  {
    if s != [] {
      var prefix, last := s[..|s| - 1], s[|s| - 1];
      var digit := DigitOf(last).value;
      var rest := FromStr(prefix).value;
      assert FromStr(s).value == [digit] + rest;
      DigitOfDefined(last);
      FormatFromStr(prefix);
      FormatCons(digit, rest);
      assert s == prefix + [last];
    }
  }

  lemma FormatCons(digit: Digit, rest: Snafu)
    ensures Format([digit] + rest) == Format(rest) + [CharOf(digit)]
  {
    assert ([digit] + rest)[1..] == rest;
  }

  /** Reading what was formatted gives back the digits. */
  lemma {:induction false} FromStrFormat(d: Snafu)
    ensures FromStr(Format(d)) == Some(d)
    decreases |d|
  {
    if d != [] {
      var rest := Format(d[1..]);
      assert Format(d) == rest + [CharOf(d[0])];
      FromStrFormat(d[1..]);
      FromStrSnoc(rest, CharOf(d[0]));
      assert d == [d[0]] + d[1..];
    }
  }

  /** Reading a text with one more character appended reads that character as the new lowest digit. */
  lemma FromStrSnoc(p: string, c: char)
    requires DigitOf(c).Some?
    ensures FromStr(p + [c]) == if FromStr(p).None? then None else Some([DigitOf(c).value] + FromStr(p).value)
  {
    var s := p + [c];
    assert s[..|s| - 1] == p && s[|s| - 1] == c;
  }

  // ------------------------------------------------------------ addition

  /** The source's match on one column sum: the digit written and the carry. */
  function Column(value: int): (r: (Digit, int))
    requires -5 <= value <= 5
    ensures r.0 + 5 * r.1 == value && -1 <= r.1 <= 1
  {
    match value
    case 3 => (-2, 1)
    case 4 => (-1, 1)
    case 5 => (0, 1)
    case -3 => (2, -1)
    case -4 => (1, -1)
    case -5 => (0, -1)
    case _ => (value, 0)
  }

  /** `a.0.get(i).unwrap_or(&0)` */
  function Get(a: Snafu, i: nat): Digit
  {
    if i < |a| then a[i] else 0
  }

  /**
   * The digits `add` pushes from column `i` on, given the carry into that
   * column: they denote the remaining digits of both numbers plus the carry.
   */
  function AddFrom(a: Snafu, b: Snafu, i: nat, carry: int): (r: Snafu)
    requires -1 <= carry <= 1
    ensures Value(r) == Value(Drop(a, i)) + Value(Drop(b, i)) + carry
    decreases Max(|a|, |b|) - i
  {
    if i >= Max(|a|, |b|) then
      assert Drop(a, i) == [] && Drop(b, i) == [];
      assert Value([carry]) == carry + 5 * Value([]);
      if carry != 0 then [carry] else []
    else
      var (digit, next) := Column(Get(a, i) + Get(b, i) + carry);
      var rest := AddFrom(a, b, i + 1, next);
      ColumnValue(a, b, i, carry, digit, next, rest);
      [digit] + rest
  }

  /** One column's digit in front of the later columns' digits denotes the columns from `i` on. */
  lemma ColumnValue(a: Snafu, b: Snafu, i: nat, carry: int, digit: Digit, next: int, rest: Snafu)
    requires digit + 5 * next == Get(a, i) + Get(b, i) + carry
    requires Value(rest) == Value(Drop(a, i + 1)) + Value(Drop(b, i + 1)) + next
    ensures Value([digit] + rest) == Value(Drop(a, i)) + Value(Drop(b, i)) + carry
  {
    assert ([digit] + rest)[1..] == rest;
    DropStep(a, i);
    DropStep(b, i);
  }

  /** Digits of `a` from position `i` on. */
  function Drop(a: Snafu, i: nat): Snafu
  {
    if i <= |a| then a[i..] else []
  }

  lemma DropStep(a: Snafu, i: nat)
    ensures Value(Drop(a, i)) == Get(a, i) + 5 * Value(Drop(a, i + 1))
  {
    if i < |a| {
      assert Drop(a, i)[1..] == Drop(a, i + 1);
    }
  }

  /** One digit per column, and at most one more, which is not zero. */
  lemma {:induction false} AddFromShape(a: Snafu, b: Snafu, i: nat, carry: int)
    requires -1 <= carry <= 1 && i <= Max(|a|, |b|)
    ensures var r := AddFrom(a, b, i, carry);
      |r| == Max(|a|, |b|) - i || (|r| == Max(|a|, |b|) - i + 1 && r[|r| - 1] != 0)
    decreases Max(|a|, |b|) - i
  {
    if i < Max(|a|, |b|) {
      var c := Column(Get(a, i) + Get(b, i) + carry);
      AddFromStep(a, b, i, carry);
      AddFromShape(a, b, i + 1, c.1);
    } else {
      AddFromEnd(a, b, carry);
    }
  }

  /** One column of `AddFrom`: its digit, then the columns after it. */
  lemma AddFromStep(a: Snafu, b: Snafu, i: nat, carry: int)
    requires -1 <= carry <= 1 && i < Max(|a|, |b|)
    ensures var c := Column(Get(a, i) + Get(b, i) + carry);
      AddFrom(a, b, i, carry) == [c.0] + AddFrom(a, b, i + 1, c.1)
  {
  }

  /** Past the last column only the carry is left. */
  lemma AddFromEnd(a: Snafu, b: Snafu, carry: int)
    requires -1 <= carry <= 1
    ensures AddFrom(a, b, Max(|a|, |b|), carry) == if carry != 0 then [carry] else []
  {
  }

  /** `Snafu::add`: the column loop with its carry. */
  method Add(a: Snafu, b: Snafu) returns (r: Snafu)
    ensures r == AddFrom(a, b, 0, 0)
    ensures Value(r) == Value(a) + Value(b)
    ensures |r| == Max(|a|, |b|) || (|r| == Max(|a|, |b|) + 1 && r[|r| - 1] != 0)
  {
    r := Columns(a, b);
    AddFacts(a, b);
  }

  /** The column loop of `Snafu::add`, then the last carry as a digit of its own. */
  method Columns(a: Snafu, b: Snafu) returns (r: Snafu)
    ensures r == AddFrom(a, b, 0, 0)
  {
    var values: Snafu := [];
    var carry := 0;
    for i := 0 to Max(|a|, |b|)
      invariant Adding(a, b, values, i, carry)
    {
      var c := Column(Get(a, i) + Get(b, i) + carry);
      AddingStep(a, b, values, i, carry);
      values := values + [c.0];
      carry := c.1;
    }
    AddingEnd(a, b, values, carry);
    if carry != 0 {
      values := values + [carry];
    }
    r := values;
  }

  /** The loop invariant of `Add`: the digits written so far followed by what the remaining columns write make the sum. */
  ghost predicate Adding(a: Snafu, b: Snafu, values: Snafu, i: nat, carry: int)
  {
    -1 <= carry <= 1 && values + AddFrom(a, b, i, carry) == AddFrom(a, b, 0, 0)
  }

  lemma AddingStep(a: Snafu, b: Snafu, values: Snafu, i: nat, carry: int)
    requires Adding(a, b, values, i, carry) && i < Max(|a|, |b|)
    ensures var c := Column(Get(a, i) + Get(b, i) + carry);
      Adding(a, b, values + [c.0], i + 1, c.1)
  {
    var c := Column(Get(a, i) + Get(b, i) + carry);
    AddFromStep(a, b, i, carry);
    assert values + AddFrom(a, b, i, carry) == (values + [c.0]) + AddFrom(a, b, i + 1, c.1);
  }

  lemma AddingEnd(a: Snafu, b: Snafu, values: Snafu, carry: int)
    requires Adding(a, b, values, Max(|a|, |b|), carry)
    ensures (if carry != 0 then values + [carry] else values) == AddFrom(a, b, 0, 0)
  {
    AddFromEnd(a, b, carry);
  }

  /** The sum has the value of the two numbers and at most one digit more than the longer. */
  lemma AddFacts(a: Snafu, b: Snafu)
    ensures Value(AddFrom(a, b, 0, 0)) == Value(a) + Value(b)
    ensures var r := AddFrom(a, b, 0, 0);
      |r| == Max(|a|, |b|) || (|r| == Max(|a|, |b|) + 1 && r[|r| - 1] != 0)
  {
    AddFromShape(a, b, 0, 0);
    assert Drop(a, 0) == a && Drop(b, 0) == b;
  }

  // ------------------------------------------------------------ part 1

  /** Value sum of all numbers. */
  function TotalValue(nums: seq<Snafu>): int
  {
    if nums == [] then 0 else Value(nums[0]) + TotalValue(nums[1..])
  }

  /** `reduce(Snafu::add)`: fold the remaining numbers into `acc` from the left. */
  function FoldAdd(acc: Snafu, rest: seq<Snafu>): Snafu
    decreases |rest|
  {
    if rest == [] then acc else FoldAdd(AddFrom(acc, rest[0], 0, 0), rest[1..])
  }

  lemma {:induction false} FoldAddValue(acc: Snafu, rest: seq<Snafu>)
    ensures Value(FoldAdd(acc, rest)) == Value(acc) + TotalValue(rest)
    decreases |rest|
  {
    if rest != [] {
      AddFacts(acc, rest[0]);
      FoldAddValue(AddFrom(acc, rest[0], 0, 0), rest[1..]);
    }
  }

  /** part1: `None` is the `unwrap` panic on an empty list. */
  method Part1(nums: seq<Snafu>) returns (r: Option<Snafu>)
    ensures r.Some? <==> nums != []
    ensures r.Some? ==> r.value == FoldAdd(nums[0], nums[1..]) && Value(r.value) == TotalValue(nums)
  {
    if nums == [] {
      return None;
    }
    var acc := nums[0];
    for i := 1 to |nums|
      invariant FoldAdd(acc, nums[i..]) == FoldAdd(nums[0], nums[1..])
    {
      assert nums[i..][1..] == nums[i + 1..];
      acc := Add(acc, nums[i]);
    }
    FoldAddValue(nums[0], nums[1..]);
    r := Some(acc);
  }

  /** The sample numbers, as read. */
  function Samples(): seq<Snafu>
  {
    [[2, -1, 0, -1, -2, 1], [1, 1, 1, 2, 1], [-2, 0, -2, 2], [1, 2], [1, 0, -2, 2],
     [1, 1, 1], [2, 1, 0, 0, 2], [2, 1, 1], [-2, 1, -1, -2, 1], [2, 1, -1, 1],
     [2, 1], [-2, 1], [2, 2, 1]]
  }

  lemma SampleReads()
    ensures FromStr("1=-0-2") == Some(Samples()[0])
    ensures FromStr("122") == Some(Samples()[12])
  {
    assert Format(Samples()[0]) == "1=-0-2";
    FromStrFormat(Samples()[0]);
    assert Format(Samples()[12]) == "122";
    FromStrFormat(Samples()[12]);
  }

  /** The expected answer "2=-1=0" reads as 4890. */
  lemma SampleAnswer()
    ensures FromStr("2=-1=0") == Some([0, -2, 1, -1, -2, 2]) && Value([0, -2, 1, -1, -2, 2]) == 4890
  {
    assert Format([0, -2, 1, -1, -2, 2]) == "2=-1=0";
    FromStrFormat([0, -2, 1, -1, -2, 2]);
  }
}
