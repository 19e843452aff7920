/**
 * The string handling the puzzles share: decimal numbers as `str::parse`
 * reads them and `{}` writes them, `str::split` on one character and
 * `str::lines`.
 */
module Text {
  import opened Wrappers

  predicate IsDigit(c: char)
  {
    '0' <= c <= '9'
  }

  function DigitValue(c: char): (d: nat)
    requires IsDigit(c)
    ensures d < 10
  {
    c as int - '0' as int
  }

  function DigitChar(d: nat): (c: char)
    requires d < 10
    ensures IsDigit(c) && DigitValue(c) == d
  {
    ('0' as int + d) as char
  }

  predicate AllDigits(t: string)
  {
    forall i :: 0 <= i < |t| ==> IsDigit(t[i])
  }

  /** The number denoted by a run of decimal digits, read left to right. */
  function DecimalValue(t: string): nat
    requires AllDigits(t)
  {
    if t == [] then 0 else 10 * DecimalValue(t[..|t| - 1]) + DigitValue(t[|t| - 1])
  }

  /** `{}` on an unsigned number: the shortest decimal form. */
  function Decimal(n: nat): (t: string)
    ensures |t| >= 1 && AllDigits(t)
  {
    if n < 10 then [DigitChar(n)] else Decimal(n / 10) + [DigitChar(n % 10)]
  }

  lemma {:induction false} DecimalRoundTrip(n: nat)
    ensures DecimalValue(Decimal(n)) == n
  {
    if n >= 10 {
      var t := Decimal(n);
      assert t[..|t| - 1] == Decimal(n / 10);
      DecimalRoundTrip(n / 10);
    }
  }

  /** A non-empty run of digits. */
  function Digits(t: string): (r: Option<nat>)
    ensures r.Some? <==> t != [] && AllDigits(t)
  {
    if t != [] && AllDigits(t) then Some(DecimalValue(t)) else None
  }

  /** `str::parse` for an unsigned type: an optional '+' and at least one digit. */
  function ParseNat(s: string): (r: Option<nat>)
    ensures r.Some? <==> (Digits(s).Some? || (s != [] && s[0] == '+' && Digits(s[1..]).Some?))
  {
    if s != [] && s[0] == '+' then Digits(s[1..]) else Digits(s)
  }

  /** `str::parse` for a signed type: an optional sign and at least one digit. */
  function ParseInt(s: string): (r: Option<int>)
    ensures r.Some? <==> ParseNat(s).Some? || (s != [] && s[0] == '-' && Digits(s[1..]).Some?)
  {
    if s != [] && s[0] == '-' then
      match Digits(s[1..])
      case Some(v) => Some(0 - v)
      case None => None
    else
      match ParseNat(s)
      case Some(v) => Some(v)
      case None => None
  }

  /** `{}` on a signed number. */
  function FormatInt(x: int): string
  {
    if x < 0 then "-" + Decimal(-x) else Decimal(x)
  }

  lemma ParseNatFormat(n: nat)
    ensures ParseNat(Decimal(n)) == Some(n)
  {
    DecimalRoundTrip(n);
  }

  lemma ParseIntFormat(x: int)
    ensures ParseInt(FormatInt(x)) == Some(x)
  {
    if x < 0 {
      var t := Decimal(-x);
      assert ("-" + t)[0] == '-' && ("-" + t)[1..] == t;
      DecimalRoundTrip(-x);
      assert Digits(t) == Some(-x);
    } else {
      var t := Decimal(x);
      assert IsDigit(t[0]);
      DecimalRoundTrip(x);
      assert ParseNat(t) == Digits(t) == Some(x);
    }
  }

  // ------------------------------------------------------------ splitting

  /** `str::split(sep)` on one character: every separator ends a part. */
  function Split(s: string, sep: char): (parts: seq<string>)
    ensures |parts| >= 1
    ensures forall i :: 0 <= i < |parts| ==> sep !in parts[i]
  {
    if s == [] then [""]
    else
      var rest := Split(s[1..], sep);
      if s[0] == sep then [""] + rest else [[s[0]] + rest[0]] + rest[1..]
  }

  /** The parts written back with the separator between them. */
  function JoinWith(parts: seq<string>, sep: char): string
  {
    if parts == [] then ""
    else if |parts| == 1 then parts[0]
    else parts[0] + [sep] + JoinWith(parts[1..], sep)
  }

  lemma {:induction false} SplitJoin(s: string, sep: char)
    ensures JoinWith(Split(s, sep), sep) == s
  {
    if s != [] {
      var rest := Split(s[1..], sep);
      SplitJoin(s[1..], sep);
      if s[0] == sep {
        assert ([""] + rest)[1..] == rest;
      } else {
        var parts := [[s[0]] + rest[0]] + rest[1..];
        if |rest| > 1 {
          assert parts[1..] == rest[1..];
        }
      }
    }
  }

  lemma {:induction false} JoinSplit(parts: seq<string>, sep: char)
    requires |parts| >= 1 && forall i :: 0 <= i < |parts| ==> sep !in parts[i]
    ensures Split(JoinWith(parts, sep), sep) == parts
    decreases |parts|, |parts[0]|
  {
    var p := parts[0];
    if p == [] {
      if |parts| > 1 {
        JoinSplit(parts[1..], sep);
        assert JoinWith(parts, sep) == [sep] + JoinWith(parts[1..], sep);
        assert [""] + parts[1..] == parts;
      }
    } else {
      var shorter := [p[1..]] + parts[1..];
      assert sep !in p[1..] by {
        assert forall c :: c in p[1..] ==> c in p;
      }
      JoinSplit(shorter, sep);
      var s := JoinWith(parts, sep);
      assert s == [p[0]] + JoinWith(shorter, sep) by {
        if |parts| > 1 {
          assert shorter[1..] == parts[1..];
        }
        assert p == [p[0]] + p[1..];
      }
      assert s[1..] == JoinWith(shorter, sep);
      assert p[0] != sep by {
        assert p[0] in p;
      }
      assert [p[0]] + shorter[0] == p;
      assert shorter[1..] == parts[1..];
      assert parts == [p] + parts[1..];
    }
  }

  /** `str::split(sep)` on a separator string: leftmost occurrences first, each ends a part. */
  function SplitOn(s: string, sep: string): (parts: seq<string>)
    requires |sep| > 0
    ensures |parts| >= 1
    decreases |s|
  {
    if |s| < |sep| then [s]
    else if s[..|sep|] == sep then [""] + SplitOn(s[|sep|..], sep)
    else
      var rest := SplitOn(s[1..], sep);
      [[s[0]] + rest[0]] + rest[1..]
  }

  /** The parts written back with the separator string between them. */
  function JoinOn(parts: seq<string>, sep: string): string
    requires |parts| >= 1
  {
    if |parts| == 1 then parts[0] else parts[0] + sep + JoinOn(parts[1..], sep)
  }

  lemma {:induction false} SplitOnJoin(s: string, sep: string)
    requires |sep| > 0
    ensures JoinOn(SplitOn(s, sep), sep) == s
    decreases |s|
  {
    if |s| < |sep| {
    } else if s[..|sep|] == sep {
      var rest := SplitOn(s[|sep|..], sep);
      SplitOnJoin(s[|sep|..], sep);
      assert SplitOn(s, sep) == [""] + rest;
      assert ([""] + rest)[1..] == rest;
      assert JoinOn([""] + rest, sep) == "" + sep + JoinOn(rest, sep);
      assert s == sep + s[|sep|..];
    } else {
      var rest := SplitOn(s[1..], sep);
      SplitOnJoin(s[1..], sep);
      assert SplitOn(s, sep) == [[s[0]] + rest[0]] + rest[1..];
      JoinOnCons(rest, s[0], sep);
      assert s == [s[0]] + s[1..];
    }
  }

  /** Putting a character in front of the first part puts it in front of the joined text. */
  lemma JoinOnCons(parts: seq<string>, c: char, sep: string)
    requires |parts| >= 1
    ensures JoinOn([[c] + parts[0]] + parts[1..], sep) == [c] + JoinOn(parts, sep)
  {
    var longer := [[c] + parts[0]] + parts[1..];
    assert longer[0] == [c] + parts[0] && longer[1..] == parts[1..];
    if |parts| > 1 {
      assert ([c] + parts[0]) + sep + JoinOn(parts[1..], sep) == [c] + (parts[0] + sep + JoinOn(parts[1..], sep));
    }
  }

  /** `str::split_once(c)`: the text before and after the first `c`. */
  function SplitOnce(s: string, c: char): (r: Option<(string, string)>)
    ensures r.None? <==> c !in s
    ensures r.Some? ==> s == r.value.0 + [c] + r.value.1 && c !in r.value.0
  {
    if s == [] then None
    else if s[0] == c then Some(([], s[1..]))
    else match SplitOnce(s[1..], c)
      case None => None
      case Some((a, b)) => Some(([s[0]] + a, b))
  }

  /** `split_once` cuts at the first `c`: the one at `i` when none comes before it. */
  lemma {:induction false} SplitOnceAt(s: string, c: char, i: nat)
    requires i < |s| && s[i] == c && c !in s[..i]
    ensures SplitOnce(s, c) == Some((s[..i], s[i + 1..]))
  {
    if i > 0 {
      var t := s[1..];
      assert s[0] == s[..i][0] && s[0] != c;
      assert t[..i - 1] == s[..i][1..];
      SplitOnceAt(t, c, i - 1);
      assert SplitOnce(s, c) == Some(([s[0]] + t[..i - 1], t[i..]));
      assert [s[0]] + t[..i - 1] == s[..i] && t[i..] == s[i + 1..];
    }
  }

  /**
   * `str::lines` for '\n' endings: a final newline does not start another
   * line; only the empty text has no lines, and no line holds a newline.
   */
  function Lines(s: string): (ls: seq<string>)
    ensures ls == [] <==> s == []
    ensures forall i :: 0 <= i < |ls| ==> '\n' !in ls[i]
  {
    if s == [] then []
    else if s[|s| - 1] == '\n' then Split(s[..|s| - 1], '\n')
    else Split(s, '\n')
  }

  /** The lines joined by newlines give back the text without its final newline. */
  lemma LinesJoin(s: string)
    requires s != []
    ensures JoinWith(Lines(s), '\n') == if s[|s| - 1] == '\n' then s[..|s| - 1] else s
  {
    if s[|s| - 1] == '\n' {
      SplitJoin(s[..|s| - 1], '\n');
    } else {
      SplitJoin(s, '\n');
    }
  }

  /** `str::split("\n\n")`: the blocks between blank lines, leftmost separator first. */
  function SplitBlocks(s: string): (parts: seq<string>)
    ensures |parts| >= 1
  {
    if |s| < 2 then [s]
    else if s[0] == '\n' && s[1] == '\n' then [""] + SplitBlocks(s[2..])
    else
      var rest := SplitBlocks(s[1..]);
      [[s[0]] + rest[0]] + rest[1..]
  }

  /** Splitting on blank lines is splitting on the two-character separator "\n\n". */
  lemma {:induction false} SplitBlocksOn(s: string)
    ensures SplitBlocks(s) == SplitOn(s, "\n\n")
    decreases |s|
  {
    if |s| >= 2 {
      if s[0] == '\n' && s[1] == '\n' {
        assert s[..2] == "\n\n";
        SplitBlocksOn(s[2..]);
      } else {
        assert s[..2] != "\n\n";
        SplitBlocksOn(s[1..]);
      }
    }
  }

  /** The blocks joined with blank lines give back the text. */
  lemma SplitBlocksJoin(s: string)
    ensures JoinOn(SplitBlocks(s), "\n\n") == s
  {
    SplitBlocksOn(s);
    SplitOnJoin(s, "\n\n");
  }
}
