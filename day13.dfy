/**
 * Day 13: distress-signal packets. A packet is a number or a list of
 * packets; packets are totally preordered by a recursive comparison in
 * which a number met by a list is promoted to a one-element list.
 */
module Day13 {
  import opened Wrappers
  import opened Text

  datatype Packet = Num(n: nat) | List(items: seq<Packet>)

  datatype Ordering = Less | Equal | Greater

  /** Node count, the measure every recursion over packets decreases. */
  function Size(p: Packet): (r: nat)
    ensures r >= 1
  {
    match p
    case Num(_) => 1
    case List(xs) => 1 + SizeSeq(xs)
  }

  function SizeSeq(xs: seq<Packet>): nat
  {
    if xs == [] then 0 else Size(xs[0]) + SizeSeq(xs[1..])
  }

  lemma {:induction false} SizeSeqElement(xs: seq<Packet>, i: nat)
    requires i < |xs|
    ensures Size(xs[i]) <= SizeSeq(xs)
  {
    if i > 0 {
      SizeSeqElement(xs[1..], i - 1);
    }
  }

  lemma {:induction false} SizeSeqAppend(xs: seq<Packet>, x: Packet)
    ensures SizeSeq(xs + [x]) == SizeSeq(xs) + Size(x)
  {
    if xs != [] {
      assert (xs + [x])[1..] == xs[1..] + [x];
      SizeSeqAppend(xs[1..], x);
    }
  }

  function Flip(o: Ordering): Ordering
  {
    match o
    case Less => Greater
    case Equal => Equal
    case Greater => Less
  }

  /** `usize::cmp` / `u32::cmp`. */
  function CmpNat(a: int, b: int): (r: Ordering)
    ensures r == Less <==> a < b
    ensures r == Equal <==> a == b
  {
    if a < b then Less else if a == b then Equal else Greater
  }

  /** `Ord::cmp for Packet`; every packet compares Equal to itself. */
  function Cmp(a: Packet, b: Packet): (r: Ordering)
    ensures a == b ==> r == Equal
    decreases Size(a) + Size(b), 0
  {
    match (a, b)
    case (Num(x), Num(y)) => CmpNat(x, y)
    case (Num(_), List(ys)) => assert SizeSeq([a]) == Size(a); CmpLists([a], ys)
    case (List(xs), Num(_)) => assert SizeSeq([b]) == Size(b); CmpLists(xs, [b])
    case (List(xs), List(ys)) => CmpLists(xs, ys)
  }

  /** The list-versus-list branch: the first unequal position decides, else the lengths. */
  function CmpLists(xs: seq<Packet>, ys: seq<Packet>): (r: Ordering)
    ensures xs == ys ==> r == Equal
    decreases SizeSeq(xs) + SizeSeq(ys), 1
  {
    if xs == [] || ys == [] then CmpNat(|xs|, |ys|)
    else
      var head := Cmp(xs[0], ys[0]);
      if head != Equal then head else CmpLists(xs[1..], ys[1..])
  }

  /** The elements a packet contributes when compared as a list. */
  function AsList(p: Packet): seq<Packet>
  {
    match p
    case Num(_) => [p]
    case List(xs) => xs
  }

  // ------------------------------------------------------------ the comparison as written

  /** `Ord::cmp for Packet`, with its early-return loop over the common prefix. */
  method Compare(a: Packet, b: Packet) returns (r: Ordering)
    ensures r == Cmp(a, b)
    decreases Size(a) + Size(b), 0
  {
    match (a, b)
    case (Num(x), Num(y)) =>
      r := CmpNat(x, y);
    case (Num(_), List(ys)) =>
      assert SizeSeq([a]) == Size(a);
      r := CompareLists([a], ys);
    case (List(xs), Num(_)) =>
      assert SizeSeq([b]) == Size(b);
      r := CompareLists(xs, [b]);
    case (List(xs), List(ys)) =>
      r := CompareLists(xs, ys);
  }

  method CompareLists(xs: seq<Packet>, ys: seq<Packet>) returns (r: Ordering)
    ensures r == CmpLists(xs, ys)
    decreases SizeSeq(xs) + SizeSeq(ys), 1
  {
    var len := Min(|xs|, |ys|);
    for i := 0 to len
      invariant CmpLists(xs[i..], ys[i..]) == CmpLists(xs, ys)
    {
      SizeSeqElement(xs, i);
      SizeSeqElement(ys, i);
      var result := Compare(xs[i], ys[i]);
      assert xs[i..][1..] == xs[i + 1..] && ys[i..][1..] == ys[i + 1..];
      if result != Equal {
        return result;
      }
    }
    return CmpNat(|xs|, |ys|);
  }

  // ------------------------------------------------------------ order properties

  /** Two numbers compare by value. */
  lemma NumbersByValue(x: nat, y: nat)
    ensures Cmp(Num(x), Num(y)) == Less <==> x < y
    ensures Cmp(Num(x), Num(y)) == Equal <==> x == y
  {
  }

  /** Every comparison is the list comparison of the promoted operands. */
  lemma CmpAsLists(a: Packet, b: Packet)
    ensures Cmp(a, b) == CmpLists(AsList(a), AsList(b))
  {
    if a.Num? && b.Num? {
      assert [a][1..] == [] && [b][1..] == [];
    }
  }

  /** A number meets a list as the one-element list holding it, on either side. */
  lemma Promotion(x: nat, b: Packet)
    ensures Cmp(Num(x), b) == Cmp(List([Num(x)]), b)
    ensures Cmp(b, Num(x)) == Cmp(b, List([Num(x)]))
  {
    CmpAsLists(Num(x), b);
    CmpAsLists(List([Num(x)]), b);
    CmpAsLists(b, Num(x));
    CmpAsLists(b, List([Num(x)]));
  }

  /** Swapping the operands reverses the answer. */
  lemma {:induction false} CmpAntisymmetric(a: Packet, b: Packet)
    ensures Cmp(b, a) == Flip(Cmp(a, b))
    decreases Size(a) + Size(b), 0
  {
    CmpAsLists(a, b);
    CmpAsLists(b, a);
    if a.Num? && b.Num? {
    } else {
      assert SizeSeq(AsList(a)) + SizeSeq(AsList(b)) < Size(a) + Size(b) by {
        assert a.Num? ==> SizeSeq(AsList(a)) == Size(a);
        assert b.Num? ==> SizeSeq(AsList(b)) == Size(b);
      }
      ListsAntisymmetric(AsList(a), AsList(b));
    }
  }

  lemma {:induction false} ListsAntisymmetric(xs: seq<Packet>, ys: seq<Packet>)
    ensures CmpLists(ys, xs) == Flip(CmpLists(xs, ys))
    decreases SizeSeq(xs) + SizeSeq(ys), 1
  {
    if xs != [] && ys != [] {
      CmpAntisymmetric(xs[0], ys[0]);
      ListsAntisymmetric(xs[1..], ys[1..]);
    }
  }

  /** The composition laws of a total preorder. */
  predicate Composes(ab: Ordering, bc: Ordering, ac: Ordering)
  {
    (ab == bc ==> ac == ab) && (ab == Equal ==> ac == bc) && (bc == Equal ==> ac == ab)
  }

  lemma {:induction false} CmpTransitive(a: Packet, b: Packet, c: Packet)
    ensures Composes(Cmp(a, b), Cmp(b, c), Cmp(a, c))
    decreases Size(a) + Size(b) + Size(c), 0
  {
    if a.Num? && b.Num? && c.Num? {
    } else {
      CmpAsLists(a, b);
      CmpAsLists(b, c);
      CmpAsLists(a, c);
      assert SizeSeq(AsList(a)) + SizeSeq(AsList(b)) + SizeSeq(AsList(c)) < Size(a) + Size(b) + Size(c) by {
        assert a.Num? ==> SizeSeq(AsList(a)) == Size(a);
        assert b.Num? ==> SizeSeq(AsList(b)) == Size(b);
        assert c.Num? ==> SizeSeq(AsList(c)) == Size(c);
      }
      ListsTransitive(AsList(a), AsList(b), AsList(c));
    }
  }

  lemma {:induction false} ListsTransitive(xs: seq<Packet>, ys: seq<Packet>, zs: seq<Packet>)
    ensures Composes(CmpLists(xs, ys), CmpLists(ys, zs), CmpLists(xs, zs))
    decreases SizeSeq(xs) + SizeSeq(ys) + SizeSeq(zs), 1
  {
    if xs != [] && ys != [] && zs != [] {
      CmpTransitive(xs[0], ys[0], zs[0]);
      ListsTransitive(xs[1..], ys[1..], zs[1..]);
    }
  }

  /** Lexicographic order: the first position where the elements differ decides. */
  lemma {:induction false} FirstDifference(xs: seq<Packet>, ys: seq<Packet>, k: nat)
    requires k < |xs| && k < |ys|
    requires forall i :: 0 <= i < k ==> Cmp(xs[i], ys[i]) == Equal
    requires Cmp(xs[k], ys[k]) != Equal
    ensures CmpLists(xs, ys) == Cmp(xs[k], ys[k])
  {
    if k > 0 {
      assert Cmp(xs[0], ys[0]) == Equal;
      FirstDifference(xs[1..], ys[1..], k - 1);
    }
  }

  /** A proper prefix is smaller. */
  lemma {:induction false} PrefixIsLess(xs: seq<Packet>, ys: seq<Packet>)
    requires |xs| < |ys| && xs == ys[..|xs|]
    ensures CmpLists(xs, ys) == Less
  {
    if xs != [] {
      assert xs[1..] == ys[1..][..|xs| - 1];
      PrefixIsLess(xs[1..], ys[1..]);
    }
  }

  // ------------------------------------------------------------ text

  /** The debug formatter: brackets around comma-separated elements. */
  function Format(p: Packet): (t: string)
    decreases Size(p), 0
  {
    match p
    case Num(n) => Decimal(n)
    case List(xs) => "[" + Join(xs) + "]"
  }

  function Join(xs: seq<Packet>): string
    decreases SizeSeq(xs), 1
  {
    if xs == [] then ""
    else if |xs| == 1 then Format(xs[0])
    else Format(xs[0]) + "," + Join(xs[1..])
  }

  lemma FormatHead(p: Packet)
    ensures |Format(p)| >= 1
    ensures p.Num? ==> forall i :: 0 <= i < |Format(p)| ==> IsDigit(Format(p)[i])
    ensures p.List? ==> Format(p)[0] == '['
  {
  }

  // ------------------------------------------------------------ parsing

  /**
   * The outcome of reading a packet from the front of a character stream,
   * with the characters not consumed. `Panic` is an `unwrap` on an exhausted
   * stream; `Hang` is a list element that consumes nothing and is not
   * followed by ',', after which the loop of `parse_list` repeats forever on
   * the same state.
   */
  datatype Parsed = Ok(packet: Packet, rest: string) | Panic | Hang

  /** Number of leading digits. */
  function DigitCount(s: string): (k: nat)
    ensures k <= |s| && (k == |s| || !IsDigit(s[k]))
    ensures forall i :: 0 <= i < k ==> IsDigit(s[i])
  {
    if s == [] || !IsDigit(s[0]) then 0 else 1 + DigitCount(s[1..])
  }

  /** `parse_num`: digits are accumulated until a non-digit is peeked. */
  function NumFrom(s: string): Parsed
  {
    var k := DigitCount(s);
    if k == |s| then Panic else Ok(Num(DecimalValue(s[..k])), s[k..])
  }

  /** `parse`: a list when the next character is '[', a number otherwise. */
  function ParseFrom(s: string): (r: Parsed)
    ensures r.Ok? ==> |r.rest| <= |s|
    decreases |s|, 0
  {
    if s != [] && s[0] == '[' then ListFrom(s[1..], []) else NumFrom(s)
  }

  /** The loop of `parse_list`, entered with the elements read so far. */
  function ListFrom(s: string, acc: seq<Packet>): (r: Parsed)
    ensures r.Ok? ==> |r.rest| < |s| && r.packet.List?
    decreases |s|, 1
  {
    if s != [] && s[0] == ']' then Ok(List(acc), s[1..])
    else
      var el := ParseFrom(s);
      if !el.Ok? then el
      else
        var next := if el.rest != [] && el.rest[0] == ',' then el.rest[1..] else el.rest;
        if |next| == |s| then Hang else ListFrom(next, acc + [el.packet])
  }

  /**
   * `Packet::from_str`: only a non-empty text parses, its first character
   * decides between a list and a number, and nothing is put back.
   */
  function FromStr(s: string): (r: Parsed)
    ensures r.Ok? ==> s != [] && |r.rest| <= |s| && (r.packet.List? <==> s[0] == '[')
  {
    ParseFrom(s)
  }

  method ParseNum(stream: string) returns (r: Parsed)
    ensures r == NumFrom(stream)
  {
    var num := 0;
    var i := 0;
    while i < |stream| && IsDigit(stream[i])
      invariant i <= DigitCount(stream)
      invariant num == DecimalValue(stream[..i])
      decreases |stream| - i
    {
      assert stream[..i + 1][..i] == stream[..i];
      num := num * 10 + DigitValue(stream[i]);
      i := i + 1;
    }
    if i == |stream| {
      return Panic;
    }
    return Ok(Num(num), stream[i..]);
  }

  method Parse(stream: string) returns (r: Parsed)
    ensures r == ParseFrom(stream)
    decreases |stream|, 1
  {
    if stream != [] && stream[0] == '[' {
      r := ParseList(stream);
    } else {
      r := ParseNum(stream);
    }
  }

  method ParseList(stream: string) returns (r: Parsed)
    requires stream != [] && stream[0] == '['
    ensures r == ListFrom(stream[1..], [])
    decreases |stream|, 0
  {
    var vec: seq<Packet> := [];
    var rest := stream[1..];
    while true
      invariant |rest| < |stream|
      invariant ListFrom(rest, vec) == ListFrom(stream[1..], [])
      decreases |rest|
    {
      if rest != [] && rest[0] == ']' {
        return Ok(List(vec), rest[1..]);
      }
      var el := Parse(rest);
      if !el.Ok? {
        return el;
      }
      var next := el.rest;
      if next != [] && next[0] == ',' {
        next := next[1..];
      }
      if |next| == |rest| {
        return Hang;
      }
      vec := vec + [el.packet];
      rest := next;
    }
  }

  /** Reading a formatted packet gives it back and leaves what followed it. */
  lemma {:induction false} ParseFormat(p: Packet, rest: string)
    requires p.Num? ==> rest != [] && !IsDigit(rest[0])
    ensures ParseFrom(Format(p) + rest) == Ok(p, rest)
    decreases Size(p), 0
  {
    var s := Format(p) + rest;
    match p
    case Num(n) =>
      var t := Decimal(n);
      DigitCountRun(t, rest);
      assert s[..|t|] == t && s[|t|..] == rest;
      DecimalRoundTrip(n);
    case List(xs) =>
      assert s[0] == '[' && s[1..] == Join(xs) + "]" + rest;
      JoinParse(xs, rest, []);
  }

  lemma {:induction false} JoinParse(xs: seq<Packet>, tail: string, acc: seq<Packet>)
    ensures ListFrom(Join(xs) + "]" + tail, acc) == Ok(List(acc + xs), tail)
    decreases SizeSeq(xs), 3
  {
    if xs == [] {
      assert Join(xs) + "]" + tail == "]" + tail;
    } else if |xs| == 1 {
      var after := "]" + tail;
      assert Join(xs) + "]" + tail == Format(xs[0]) + after;
      ElementStep(xs[0], after, acc);
      assert acc + [xs[0]] == acc + xs;
    } else {
      JoinParseMore(xs, tail, acc);
    }
  }

  lemma {:induction false} JoinParseMore(xs: seq<Packet>, tail: string, acc: seq<Packet>)
    requires |xs| > 1
    ensures ListFrom(Join(xs) + "]" + tail, acc) == Ok(List(acc + xs), tail)
    decreases SizeSeq(xs), 2
  {
    var more := Join(xs[1..]) + "]" + tail;
    var after := "," + more;
    assert Join(xs) + "]" + tail == Format(xs[0]) + after;
    ElementStep(xs[0], after, acc);
    assert after[1..] == more;
    JoinParse(xs[1..], tail, acc + [xs[0]]);
    assert acc + [xs[0]] + xs[1..] == acc + xs;
  }

  /** Reading one formatted element inside a list, followed by ',' or ']'. */
  lemma ElementStep(p: Packet, after: string, acc: seq<Packet>)
    requires after != [] && (after[0] == ',' || after[0] == ']')
    ensures ListFrom(Format(p) + after, acc) == ListFrom(if after[0] == ',' then after[1..] else after, acc + [p])
    decreases Size(p), 1
  {
    FormatHead(p);
    ParseFormat(p, after);
    ListStep(Format(p) + after, acc, p, after);
  }

  /** One turn of the `parse_list` loop that reads an element. */
  lemma ListStep(s: string, acc: seq<Packet>, p: Packet, rest: string)
    requires s != [] && s[0] != ']' && ParseFrom(s) == Ok(p, rest) && |rest| < |s|
    ensures ListFrom(s, acc) == ListFrom(if rest != [] && rest[0] == ',' then rest[1..] else rest, acc + [p])
  {
  }

  lemma {:induction false} DigitCountRun(t: string, rest: string)
    requires forall i :: 0 <= i < |t| ==> IsDigit(t[i])
    requires rest != [] && !IsDigit(rest[0])
    ensures DigitCount(t + rest) == |t|
  {
    if t != [] {
      assert (t + rest)[1..] == t[1..] + rest;
      DigitCountRun(t[1..], rest);
    }
  }

  /** A whole packet line reads back as the packet it was formatted from. */
  lemma FromStrFormat(xs: seq<Packet>)
    ensures FromStr(Format(List(xs))) == Ok(List(xs), "")
  {
    assert Format(List(xs)) + "" == Format(List(xs));
    ParseFormat(List(xs), "");
  }

  // ------------------------------------------------------------ part 1

  /** Sum of the 1-based indices of the pairs whose left packet is smaller. */
  function OrderedIndexSum(pairs: seq<(Packet, Packet)>): nat
  {
    if pairs == [] then 0
    else
      var last := pairs[|pairs| - 1];
      OrderedIndexSum(pairs[..|pairs| - 1]) + (if Cmp(last.0, last.1) == Less then |pairs| else 0)
  }

  /** part1 is 0 exactly when no pair is in order. */
  lemma {:induction false} OrderedIndexSumZero(pairs: seq<(Packet, Packet)>)
    ensures OrderedIndexSum(pairs) == 0 <==> forall i :: 0 <= i < |pairs| ==> Cmp(pairs[i].0, pairs[i].1) != Less
  {
    if pairs != [] {
      var init := pairs[..|pairs| - 1];
      OrderedIndexSumZero(init);
      assert forall i :: 0 <= i < |init| ==> init[i] == pairs[i];
    }
  }

  /** 1 + 2 + ... + n. */
  function Triangle(n: nat): nat
  {
    if n == 0 then 0 else Triangle(n - 1) + n
  }

  lemma {:induction false} TriangleClosed(n: nat)
    ensures 2 * Triangle(n) == n * (n + 1)
  {
    if n > 0 {
      TriangleClosed(n - 1);
      assert (n - 1) * n + 2 * n == n * (n + 1);
    }
  }

  /** part1 is at most 1 + 2 + ... + n, reached exactly when every pair is in order. */
  lemma {:induction false} OrderedIndexSumMax(pairs: seq<(Packet, Packet)>)
    ensures OrderedIndexSum(pairs) <= Triangle(|pairs|)
    ensures OrderedIndexSum(pairs) == Triangle(|pairs|) <==> forall i :: 0 <= i < |pairs| ==> Cmp(pairs[i].0, pairs[i].1) == Less
  {
    if pairs != [] {
      var init := pairs[..|pairs| - 1];
      OrderedIndexSumMax(init);
      assert forall i :: 0 <= i < |init| ==> init[i] == pairs[i];
    }
  }

  /** Sample pairs 2, 3 and 7: a number promoted inside a list, and nested empty lists. */
  lemma SampleOrders()
    ensures Cmp(List([List([Num(1)]), List([Num(2), Num(3), Num(4)])]), List([List([Num(1)]), Num(4)])) == Less
    ensures Cmp(List([Num(9)]), List([List([Num(8), Num(7), Num(6)])])) == Greater
    ensures Cmp(List([List([List([])])]), List([List([])])) == Greater
  {
    assert Cmp(Num(2), Num(4)) == Less;
  }

  // ------------------------------------------------------------ part 2

  const Divider1: Packet := List([List([Num(2)])])
  const Divider2: Packet := List([List([Num(6)])])

  lemma DividersOrdered()
    ensures Cmp(Divider1, Divider2) == Less
  {
  }

  /** `flat_map(|(a, b)| [a, b])` */
  function Flatten(pairs: seq<(Packet, Packet)>): (r: seq<Packet>)
    ensures |r| == 2 * |pairs|
    ensures forall i :: 0 <= i < |pairs| ==> r[2 * i] == pairs[i].0 && r[2 * i + 1] == pairs[i].1
  {
    if pairs == [] then [] else [pairs[0].0, pairs[0].1] + Flatten(pairs[1..])
  }

  /**
   * `BTreeSet::insert`, the set kept as its ascending sequence: a packet that
   * compares Equal to one already present is dropped.
   */
  function Insert(tree: seq<Packet>, p: Packet): seq<Packet>
  {
    if tree == [] then [p]
    else
      match Cmp(p, tree[0])
      case Less => [p] + tree
      case Equal => tree
      case Greater => [tree[0]] + Insert(tree[1..], p)
  }

  /** `p` is at most every element of the sorted `tree` it is at most the head of. */
  lemma BelowHead(tree: seq<Packet>, p: Packet)
    requires Sorted(tree) && tree != [] && Cmp(p, tree[0]) != Greater
    ensures forall j :: 0 <= j < |tree| ==> Cmp(p, tree[j]) != Greater
    ensures Cmp(p, tree[0]) == Less ==> forall j :: 0 <= j < |tree| ==> Cmp(p, tree[j]) == Less
  {
    forall j | 0 < j < |tree|
      ensures Cmp(p, tree[j]) != Greater && (Cmp(p, tree[0]) == Less ==> Cmp(p, tree[j]) == Less)
    {
      CmpTransitive(p, tree[0], tree[j]);
    }
  }

  /** A packet at most every element of an ascending sequence can go in front of it. */
  lemma SortedCons(x: Packet, r: seq<Packet>)
    requires Sorted(r) && forall j :: 0 <= j < |r| ==> Cmp(x, r[j]) != Greater
    ensures Sorted([x] + r)
  {
    var t := [x] + r;
    forall i, j | 0 <= i < j < |t|
      ensures Cmp(t[i], t[j]) != Greater
    {
      if i > 0 {
        assert t[i] == r[i - 1] && t[j] == r[j - 1];
      } else {
        assert t[j] == r[j - 1];
      }
    }
  }

  /** The head of an ascending sequence is at most everything after it. */
  lemma HeadBelowTail(s: seq<Packet>)
    requires Sorted(s) && s != []
    ensures forall q :: q in s[1..] ==> Cmp(s[0], q) != Greater
  {
    forall q | q in s[1..]
      ensures Cmp(s[0], q) != Greater
    {
      var k :| 0 <= k < |s[1..]| && s[1..][k] == q;
      assert s[k + 1] == q;
    }
  }

  /**
   * Inserting into the ascending set keeps it ascending; the packet is dropped
   * exactly when a member compares Equal to it, and otherwise added once.
   */
  lemma {:induction false} InsertKeepsOrder(tree: seq<Packet>, p: Packet)
    requires Sorted(tree)
    ensures Sorted(Insert(tree, p))
    ensures forall q :: q in Insert(tree, p) ==> q in tree || q == p
    ensures forall q :: q in tree ==> q in Insert(tree, p)
    ensures (exists q :: q in tree && Cmp(q, p) == Equal) ==> Insert(tree, p) == tree
    ensures (forall q :: q in tree ==> Cmp(q, p) != Equal) ==>
      p in Insert(tree, p) && multiset(Insert(tree, p)) == multiset(tree) + multiset{p}
  {
    if tree != [] {
      var tail := tree[1..];
      assert tree == [tree[0]] + tail;
      CmpAntisymmetric(p, tree[0]);
      match Cmp(p, tree[0])
      case Less =>
        BelowHead(tree, p);
        SortedCons(p, tree);
        forall q | q in tree
          ensures Cmp(q, p) != Equal
        {
          CmpAntisymmetric(p, q);
        }
      case Equal =>
        assert tree[0] in tree;
      case Greater =>
        assert Sorted(tail);
        InsertKeepsOrder(tail, p);
        HeadBelowTail(tree);
        var r := Insert(tail, p);
        forall j | 0 <= j < |r|
          ensures Cmp(tree[0], r[j]) != Greater
        {
          assert r[j] in r;
        }
        SortedCons(tree[0], r);
    }
  }

  /** Put `p` in front of the first element it is not above. */
  function Place(p: Packet, s: seq<Packet>): seq<Packet>
  {
    if s == [] then [p]
    else if Cmp(p, s[0]) == Greater then [s[0]] + Place(p, s[1..])
    else [p] + s
  }

  lemma {:induction false} PlaceKeepsOrder(p: Packet, s: seq<Packet>)
    requires Sorted(s)
    ensures Sorted(Place(p, s)) && multiset(Place(p, s)) == multiset(s) + multiset{p}
  {
    if s != [] {
      var tail := s[1..];
      assert s == [s[0]] + tail;
      if Cmp(p, s[0]) == Greater {
        CmpAntisymmetric(p, s[0]);
        assert Sorted(tail);
        PlaceKeepsOrder(p, tail);
        HeadBelowTail(s);
        var r := Place(p, tail);
        forall j | 0 <= j < |r|
          ensures Cmp(s[0], r[j]) != Greater
        {
          assert r[j] in multiset(r);
        }
        SortedCons(s[0], r);
      } else {
        BelowHead(s, p);
        SortedCons(p, s);
      }
    }
  }

  /**
   * The stable `sort` that `BTreeSet::from_iter` runs first: each packet is
   * placed before the packets it is not above, so packets that compare Equal
   * keep their input order.
   */
  function SortStable(ps: seq<Packet>): seq<Packet>
  {
    if ps == [] then [] else Place(ps[0], SortStable(ps[1..]))
  }

  lemma {:induction false} SortStableSorts(ps: seq<Packet>)
    ensures Sorted(SortStable(ps)) && multiset(SortStable(ps)) == multiset(ps)
  {
    if ps != [] {
      SortStableSorts(ps[1..]);
      PlaceKeepsOrder(ps[0], SortStable(ps[1..]));
      assert ps == [ps[0]] + ps[1..];
    }
  }

  /**
   * The deduplication `from_iter` runs on the sorted packets: of neighbours
   * that are `==` only the last stays, so packets that compare Equal without
   * being `==` all stay.
   */
  function DedupAdjacent(s: seq<Packet>): seq<Packet>
  {
    if |s| <= 1 then s
    else if s[0] == s[1] then DedupAdjacent(s[1..])
    else [s[0]] + DedupAdjacent(s[1..])
  }

  lemma {:induction false} DedupKeepsOrder(s: seq<Packet>)
    requires Sorted(s)
    ensures Sorted(DedupAdjacent(s))
    ensures forall q :: q in DedupAdjacent(s) <==> q in s
    ensures forall i :: 0 <= i < |DedupAdjacent(s)| - 1 ==> DedupAdjacent(s)[i] != DedupAdjacent(s)[i + 1]
  {
    if |s| > 1 {
      var tail := s[1..];
      assert s == [s[0]] + tail;
      assert Sorted(tail);
      DedupKeepsOrder(tail);
      var r := DedupAdjacent(tail);
      if s[0] != s[1] {
        HeadBelowTail(s);
        forall j | 0 <= j < |r|
          ensures Cmp(s[0], r[j]) != Greater
        {
          assert r[j] in r;
        }
        SortedCons(s[0], r);
        assert r[0] == s[1] by {
          assert tail[0] == s[1];
          if |tail| > 1 {
            if tail[0] == tail[1] {
              DedupHead(tail);
            }
          }
        }
      }
    }
  }

  /** The head of a deduplicated sequence is its original head when that starts a run of one. */
  lemma {:induction false} DedupHead(s: seq<Packet>)
    requires |s| > 1 && s[0] == s[1]
    ensures DedupAdjacent(s) != [] && DedupAdjacent(s)[0] == s[0]
    decreases |s|
  {
    var tail := s[1..];
    if |tail| > 1 && tail[0] == tail[1] {
      DedupHead(tail);
    }
  }

  /** `collect` into the set, as `BTreeSet::from_iter` does it: a stable sort, then `==` neighbours removed. */
  function Collect(ps: seq<Packet>): seq<Packet>
  {
    DedupAdjacent(SortStable(ps))
  }

  lemma CollectKeepsOrder(ps: seq<Packet>)
    ensures Sorted(Collect(ps))
    ensures forall q :: q in Collect(ps) <==> q in ps
  {
    SortStableSorts(ps);
    DedupKeepsOrder(SortStable(ps));
    forall q
      ensures q in SortStable(ps) <==> q in ps
    {
      assert q in SortStable(ps) <==> q in multiset(SortStable(ps));
    }
  }

  /** The `try_fold` over the set in order: `None` is either panic of the source. */
  function Scan(sorted: seq<Packet>, idx: nat, acc: Option<nat>): (r: Option<nat>)
    decreases |sorted| - idx
  {
    if idx >= |sorted| then None
    else if sorted[idx] == Divider1 then Scan(sorted, idx + 1, Some(idx + 1))
    else if sorted[idx] == Divider2 then (if acc.Some? then Some(acc.value * (idx + 1)) else None)
    else Scan(sorted, idx + 1, acc)
  }

  /** The scan answers only after meeting divider 2, and divider 1 before it unless already met. */
  lemma {:induction false} ScanNeedsDividers(sorted: seq<Packet>, idx: nat, acc: Option<nat>)
    ensures Scan(sorted, idx, acc).Some? ==>
      idx < |sorted| && Divider2 in sorted[idx..] && (acc.Some? || Divider1 in sorted[idx..])
    decreases |sorted| - idx
  {
    if idx >= |sorted| {
    } else if sorted[idx] == Divider1 {
      ScanNeedsDividers(sorted, idx + 1, Some(idx + 1));
      assert sorted[idx + 1..] == sorted[idx..][1..];
    } else if sorted[idx] != Divider2 {
      ScanNeedsDividers(sorted, idx + 1, acc);
      assert sorted[idx + 1..] == sorted[idx..][1..];
    }
  }

  /** The packets collected into the set, with both dividers inserted. */
  function DividerSet(pairs: seq<(Packet, Packet)>): seq<Packet>
  {
    Insert(Insert(Collect(Flatten(pairs)), Divider1), Divider2)
  }

  /** part2 as written: the positions of the dividers in the set. */
  function Part2AsWritten(pairs: seq<(Packet, Packet)>): (r: Option<nat>)
    ensures r.Some? ==> Divider1 in DividerSet(pairs) && Divider2 in DividerSet(pairs)
  {
    ScanNeedsDividers(DividerSet(pairs), 0, None);
    Scan(DividerSet(pairs), 0, None)
  }

  lemma {:induction false} ScanFinds(sorted: seq<Packet>, idx: nat, acc: Option<nat>, i: nat, j: nat)
    requires idx <= j < |sorted| && i < j
    requires sorted[i] == Divider1 && sorted[j] == Divider2
    requires forall m :: 0 <= m < |sorted| && m != i ==> sorted[m] != Divider1
    requires forall m :: 0 <= m < |sorted| && m != j ==> sorted[m] != Divider2
    requires if i < idx then acc == Some(i + 1) else true
    ensures Scan(sorted, idx, acc) == Some((i + 1) * (j + 1))
    decreases |sorted| - idx
  {
    if idx < j {
      ScanFinds(sorted, idx + 1, if sorted[idx] == Divider1 then Some(idx + 1) else acc, i, j);
    }
  }

  /** Inserting both dividers into an ascending set that holds nothing Equal to them adds each once. */
  lemma InsertDividers(base: seq<Packet>)
    requires Sorted(base)
    requires forall q :: q in base ==> Cmp(q, Divider1) != Equal && Cmp(q, Divider2) != Equal
    ensures Sorted(Insert(Insert(base, Divider1), Divider2))
    ensures multiset(Insert(Insert(base, Divider1), Divider2)) == multiset(base + [Divider1, Divider2])
  {
    InsertKeepsOrder(base, Divider1);
    var withFirst := Insert(base, Divider1);
    DividersOrdered();
    CmpAntisymmetric(Divider1, Divider2);
    forall q | q in withFirst
      ensures Cmp(q, Divider2) != Equal
    {
    }
    InsertKeepsOrder(withFirst, Divider2);
  }

  /** In such a set each divider sits at one place, and nothing else there compares Equal to it. */
  lemma DividerPlaces(base: seq<Packet>, tree: seq<Packet>) returns (i: nat, j: nat)
    requires forall q :: q in base ==> Cmp(q, Divider1) != Equal && Cmp(q, Divider2) != Equal
    requires Sorted(tree) && multiset(tree) == multiset(base + [Divider1, Divider2])
    ensures i < j < |tree| && tree[i] == Divider1 && tree[j] == Divider2
    ensures forall m :: 0 <= m < |tree| && m != i ==> Cmp(tree[m], Divider1) != Equal
    ensures forall m :: 0 <= m < |tree| && m != j ==> Cmp(tree[m], Divider2) != Equal
  {
    assert Divider1 in multiset(tree) && Divider2 in multiset(tree);
    i :| 0 <= i < |tree| && tree[i] == Divider1;
    j :| 0 <= j < |tree| && tree[j] == Divider2;
    DividersOrdered();
    CmpAntisymmetric(Divider1, Divider2);
    OnlyEqual(base, tree, i, Divider1, Divider2);
    OnlyEqual(base, tree, j, Divider2, Divider1);
  }

  /**
   * When no input packet compares Equal to a divider, the set is ascending,
   * holds each divider once, and nothing else in it compares Equal to a divider.
   */
  lemma DividerSetSorted(pairs: seq<(Packet, Packet)>) returns (i: nat, j: nat)
    requires forall q :: q in Flatten(pairs) ==> Cmp(q, Divider1) != Equal && Cmp(q, Divider2) != Equal
    ensures Sorted(DividerSet(pairs)) && i < j < |DividerSet(pairs)|
    ensures DividerSet(pairs)[i] == Divider1 && DividerSet(pairs)[j] == Divider2
    ensures forall m :: 0 <= m < |DividerSet(pairs)| && m != i ==> Cmp(DividerSet(pairs)[m], Divider1) != Equal
    ensures forall m :: 0 <= m < |DividerSet(pairs)| && m != j ==> Cmp(DividerSet(pairs)[m], Divider2) != Equal
  {
    var base := Collect(Flatten(pairs));
    CollectKeepsOrder(Flatten(pairs));
    InsertDividers(base);
    i, j := DividerPlaces(base, DividerSet(pairs));
  }

  /**
   * When no input packet compares Equal to a divider, part2 as written
   * multiplies one plus the number of set members below each divider.
   */
  lemma Part2AsWrittenFinds(pairs: seq<(Packet, Packet)>)
    requires forall q :: q in Flatten(pairs) ==> Cmp(q, Divider1) != Equal && Cmp(q, Divider2) != Equal
    ensures Part2AsWritten(pairs) ==
      Some((1 + CountLess(DividerSet(pairs), Divider1)) * (1 + CountLess(DividerSet(pairs), Divider2)))
  {
    var tree := DividerSet(pairs);
    var i, j := DividerSetSorted(pairs);
    ScanFinds(tree, 0, None, i, j);
    PositionInSorted(tree, i);
    PositionInSorted(tree, j);
  }

  // ------------------------------------------------------------ counting

  /** How many elements of `s` compare Less than `d`. */
  function CountLess(s: seq<Packet>, d: Packet): (r: nat)
    ensures r <= |s|
  {
    if s == [] then 0
    else CountLess(s[..|s| - 1], d) + (if Cmp(s[|s| - 1], d) == Less then 1 else 0)
  }

  lemma {:induction false} CountLessConcat(a: seq<Packet>, b: seq<Packet>, d: Packet)
    ensures CountLess(a + b, d) == CountLess(a, d) + CountLess(b, d)
    decreases |b|
  {
    if b != [] {
      var c := a + b;
      assert c[..|c| - 1] == a + b[..|b| - 1];
      assert c[|c| - 1] == b[|b| - 1];
      CountLessConcat(a, b[..|b| - 1], d);
      assert CountLess(c, d) == CountLess(c[..|c| - 1], d) + (if Cmp(c[|c| - 1], d) == Less then 1 else 0);
    } else {
      assert a + b == a;
    }
  }

  /** Exactly the first `k` elements are below `d`. */
  lemma {:induction false} CountLessExact(s: seq<Packet>, d: Packet, k: nat)
    requires k <= |s|
    requires forall m :: 0 <= m < k ==> Cmp(s[m], d) == Less
    requires forall m :: k <= m < |s| ==> Cmp(s[m], d) != Less
    ensures CountLess(s, d) == k
  {
    if s != [] {
      var init := s[..|s| - 1];
      assert forall m :: 0 <= m < |init| ==> init[m] == s[m];
      if k == |s| {
        CountLessExact(init, d, k - 1);
      } else {
        CountLessExact(init, d, k);
      }
    }
  }

  /** Ascending, with Equal neighbours allowed. */
  ghost predicate Sorted(s: seq<Packet>)
  {
    forall i, j :: 0 <= i < j < |s| ==> Cmp(s[i], s[j]) != Greater
  }

  /** In a sorted sequence, an element no other compares Equal to sits after exactly the elements below it. */
  lemma PositionInSorted(s: seq<Packet>, k: nat)
    requires Sorted(s) && k < |s|
    requires forall m :: 0 <= m < |s| && m != k ==> Cmp(s[m], s[k]) != Equal
    ensures CountLess(s, s[k]) == k
  {
    forall m | k < m < |s|
      ensures Cmp(s[m], s[k]) != Less
    {
      CmpAntisymmetric(s[k], s[m]);
    }
    CountLessExact(s, s[k], k);
  }

  /** Rearranging a sequence does not change how many of its elements are below `d`. */
  lemma {:induction false} CountLessPermutation(s: seq<Packet>, t: seq<Packet>, d: Packet)
    requires multiset(s) == multiset(t)
    ensures CountLess(s, d) == CountLess(t, d)
    decreases |s|
  {
    if s != [] {
      var k := MatchLast(s, t);
      CountLessPermutation(s[..|s| - 1], t[..k] + t[k + 1..], d);
      CountLessRemove(t, k, d);
    }
  }

  /** Where the last element of `s` sits in a rearrangement `t`, and what is left of both. */
  lemma MatchLast(s: seq<Packet>, t: seq<Packet>) returns (k: nat)
    requires s != [] && multiset(s) == multiset(t)
    ensures k < |t| && t[k] == s[|s| - 1]
    ensures multiset(s[..|s| - 1]) == multiset(t[..k] + t[k + 1..])
  {
    var x := s[|s| - 1];
    assert s == s[..|s| - 1] + [x];
    assert x in multiset(t);
    k :| 0 <= k < |t| && t[k] == x;
    MultisetRemove(t, k);
  }

  lemma MultisetRemove(t: seq<Packet>, k: nat)
    requires k < |t|
    ensures multiset(t[..k] + t[k + 1..]) == multiset(t) - multiset{t[k]}
  {
    assert t == t[..k] + [t[k]] + t[k + 1..];
  }

  lemma CountLessRemove(t: seq<Packet>, k: nat, d: Packet)
    requires k < |t|
    ensures CountLess(t, d) == CountLess(t[..k] + t[k + 1..], d) + (if Cmp(t[k], d) == Less then 1 else 0)
  {
    assert t == t[..k] + [t[k]] + t[k + 1..];
    CountLessConcat(t[..k] + [t[k]], t[k + 1..], d);
    CountLessConcat(t[..k], [t[k]], d);
    CountLessConcat(t[..k], t[k + 1..], d);
  }

  lemma TwiceCounted(s: seq<Packet>, i: nat, j: nat)
    requires i < j < |s| && s[i] == s[j]
    ensures multiset(s)[s[i]] >= 2
  {
    assert s == s[..j] + [s[j]] + s[j + 1..];
    assert s[i] in multiset(s[..j]);
  }

  // ------------------------------------------------------------ part 2 as intended

  /**
   * part2 without deduplication: in the ordered list of all packets and both
   * dividers, divider 1 follows the packets below it and divider 2 follows
   * the packets below it and divider 1.
   */
  function Part2(pairs: seq<(Packet, Packet)>): (r: nat)
    ensures r >= 2
  {
    var all := Flatten(pairs);
    (1 + CountLess(all, Divider1)) * (2 + CountLess(all, Divider2))
  }

  /**
   * In every ascending arrangement of all packets and both dividers, the
   * dividers' 1-based positions multiply to `Part2`.
   */
  lemma Part2Positions(pairs: seq<(Packet, Packet)>, sorted: seq<Packet>, i: nat, j: nat)
    requires forall q :: q in Flatten(pairs) ==> Cmp(q, Divider1) != Equal && Cmp(q, Divider2) != Equal
    requires Sorted(sorted) && multiset(sorted) == multiset(Flatten(pairs) + [Divider1, Divider2])
    requires i < |sorted| && j < |sorted| && sorted[i] == Divider1 && sorted[j] == Divider2
    ensures i == CountLess(Flatten(pairs), Divider1) && j == CountLess(Flatten(pairs), Divider2) + 1
    ensures (i + 1) * (j + 1) == Part2(pairs)
  {
    var all := Flatten(pairs);
    DividersOrdered();
    CmpAntisymmetric(Divider1, Divider2);
    DividerPosition(all, sorted, i, Divider1, Divider2);
    DividerPosition(all, sorted, j, Divider2, Divider1);
    CountWithDividers(all);
  }

  /** A divider's index in an ascending arrangement is the number of packets below it, dividers included. */
  lemma DividerPosition(all: seq<Packet>, sorted: seq<Packet>, k: nat, d: Packet, other: Packet)
    requires (d == Divider1 && other == Divider2) || (d == Divider2 && other == Divider1)
    requires forall q :: q in all ==> Cmp(q, d) != Equal
    requires Cmp(other, d) != Equal
    requires Sorted(sorted) && multiset(sorted) == multiset(all + [Divider1, Divider2])
    requires k < |sorted| && sorted[k] == d
    ensures k == CountLess(all + [Divider1, Divider2], d)
  {
    OnlyEqual(all, sorted, k, d, other);
    PositionInSorted(sorted, k);
    CountLessPermutation(sorted, all + [Divider1, Divider2], d);
  }

  lemma CountWithDividers(all: seq<Packet>)
    ensures CountLess(all + [Divider1, Divider2], Divider1) == CountLess(all, Divider1)
    ensures CountLess(all + [Divider1, Divider2], Divider2) == CountLess(all, Divider2) + 1
  {
    DividersOrdered();
    CmpAntisymmetric(Divider1, Divider2);
    CountLessConcat(all, [Divider1, Divider2], Divider1);
    CountLessConcat(all, [Divider1, Divider2], Divider2);
    assert [Divider1, Divider2][..1] == [Divider1];
    assert CountLess([Divider1, Divider2], Divider1) == 0;
    assert CountLess([Divider1, Divider2], Divider2) == 1;
  }

  /** A divider that no input packet compares Equal to is Equal to nothing else in the arrangement. */
  lemma OnlyEqual(all: seq<Packet>, sorted: seq<Packet>, k: nat, d: Packet, other: Packet)
    requires (d == Divider1 && other == Divider2) || (d == Divider2 && other == Divider1)
    requires forall q :: q in all ==> Cmp(q, d) != Equal
    requires Cmp(other, d) != Equal
    requires multiset(sorted) == multiset(all + [Divider1, Divider2])
    requires k < |sorted| && sorted[k] == d
    ensures forall m :: 0 <= m < |sorted| && m != k ==> Cmp(sorted[m], sorted[k]) != Equal
  {
    var full := all + [Divider1, Divider2];
    assert d !in all;
    assert multiset(full)[d] == 1 by {
      assert multiset(full) == multiset(all) + multiset{Divider1} + multiset{Divider2};
    }
    forall m | 0 <= m < |sorted| && m != k
      ensures Cmp(sorted[m], d) != Equal
    {
      assert sorted[m] in multiset(full);
      if sorted[m] == d {
        if m < k { TwiceCounted(sorted, m, k); } else { TwiceCounted(sorted, k, m); }
      }
    }
  }

  /** Removing `==` neighbours from a sequence without any changes nothing. */
  lemma {:induction false} DedupNoop(s: seq<Packet>)
    requires forall i :: 0 <= i < |s| - 1 ==> s[i] != s[i + 1]
    ensures DedupAdjacent(s) == s
  {
    if |s| > 1 {
      var tail := s[1..];
      assert forall i :: 0 <= i < |tail| ==> tail[i] == s[i + 1];
      DedupNoop(tail);
      assert s == [s[0]] + tail;
    }
  }

  /** A sequence without repeats holds each packet at most once. */
  lemma {:induction false} DistinctOnce(s: seq<Packet>, x: Packet)
    requires forall a, b :: 0 <= a < b < |s| ==> s[a] != s[b]
    ensures multiset(s)[x] <= 1
  {
    if s != [] {
      var tail := s[1..];
      assert s == [s[0]] + tail;
      assert multiset(s) == multiset{s[0]} + multiset(tail);
      forall a, b | 0 <= a < b < |tail|
        ensures tail[a] != tail[b]
      {
        assert tail[a] == s[a + 1] && tail[b] == s[b + 1];
      }
      DistinctOnce(tail, x);
      if s[0] == x {
        forall k | 0 <= k < |tail|
          ensures tail[k] != x
        {
          assert tail[k] == s[k + 1];
        }
        assert x !in multiset(tail);
      }
    }
  }

  /** Packets no two of which are `==` all survive the collect into the set. */
  lemma CollectDistinct(all: seq<Packet>)
    requires forall a, b :: 0 <= a < b < |all| ==> all[a] != all[b]
    ensures Sorted(Collect(all)) && multiset(Collect(all)) == multiset(all)
  {
    var sorted := SortStable(all);
    SortStableSorts(all);
    forall i | 0 <= i < |sorted| - 1
      ensures sorted[i] != sorted[i + 1]
    {
      if sorted[i] == sorted[i + 1] {
        TwiceCounted(sorted, i, i + 1);
        DistinctOnce(all, sorted[i]);
      }
    }
    DedupNoop(sorted);
  }

  /**
   * When no two input packets are `==` and none compares Equal to a divider,
   * part2 as written gives the intended `Part2`: the set then loses nothing.
   */
  lemma Part2AsWrittenAgrees(pairs: seq<(Packet, Packet)>)
    requires forall q :: q in Flatten(pairs) ==> Cmp(q, Divider1) != Equal && Cmp(q, Divider2) != Equal
    requires forall a, b :: 0 <= a < b < |Flatten(pairs)| ==> Flatten(pairs)[a] != Flatten(pairs)[b]
    ensures Part2AsWritten(pairs) == Some(Part2(pairs))
  {
    var all := Flatten(pairs);
    CollectDistinct(all);
    CollectKeepsOrder(all);
    InsertDividers(Collect(all));
    Part2AsWrittenFinds(pairs);
    var tree := DividerSet(pairs);
    CountLessPermutation(tree, all + [Divider1, Divider2], Divider1);
    CountLessPermutation(tree, all + [Divider1, Divider2], Divider2);
    CountWithDividers(all);
  }

  /** Two `==` packets below the dividers: the set keeps one of them, the ordered list both. */
  lemma DuplicatesCountedOnce()
    ensures Part2AsWritten([(List([Num(1)]), List([Num(1)]))]) == Some(6)
    ensures Part2([(List([Num(1)]), List([Num(1)]))]) == 12
  {
    var one := List([Num(1)]);
    assert Flatten([(one, one)]) == [one, one];
    assert Cmp(one, one) == Equal;
    assert [one, one][1..] == [one];
    assert SortStable([one]) == [one];
    assert SortStable([one, one]) == [one, one];
    assert DedupAdjacent([one, one]) == DedupAdjacent([one]);
    assert Collect([one, one]) == [one];
    assert Cmp(Divider1, one) == Greater;
    assert Cmp(Divider2, one) == Greater;
    DividersOrdered();
    CmpAntisymmetric(Divider1, Divider2);
    assert Insert([one], Divider1) == [one, Divider1];
    assert [one, Divider1][1..] == [Divider1];
    assert Insert([Divider1], Divider2) == [Divider1, Divider2];
    assert Insert([one, Divider1], Divider2) == [one, Divider1, Divider2];
    assert DividerSet([(one, one)]) == [one, Divider1, Divider2];
    assert Cmp(one, Divider1) == Less && Cmp(one, Divider2) == Less;
    assert CountLess([one, one], Divider1) == 2 && CountLess([one, one], Divider2) == 2;
  }

  /** `[[1]]` and `[1]` compare Equal. */
  lemma NestedOneEqual()
    ensures Cmp(List([List([Num(1)])]), List([Num(1)])) == Equal
  {
    var one := List([Num(1)]);
    assert [Num(1)][1..] == [] && [one][1..] == [];
    assert CmpLists([Num(1)], [Num(1)]) == Equal;
    assert Cmp(one, Num(1)) == Equal;
    assert CmpLists([one], [Num(1)]) == Equal;
  }

  /** `[[1]]` and `[1]` both sort below both dividers. */
  lemma OneBelowDividers(p: Packet)
    requires p == List([Num(1)]) || p == List([List([Num(1)])])
    ensures Cmp(p, Divider1) == Less && Cmp(p, Divider2) == Less
    ensures Cmp(Divider1, p) == Greater && Cmp(Divider2, p) == Greater
  {
    var one := List([Num(1)]);
    assert [Num(1)][1..] == [] && [one][1..] == [];
    assert Cmp(List([Num(2)]), one) == Greater && Cmp(List([Num(2)]), Num(1)) == Greater;
    assert Cmp(List([Num(6)]), one) == Greater && Cmp(List([Num(6)]), Num(1)) == Greater;
    assert Cmp(Divider1, p) == Greater && Cmp(Divider2, p) == Greater;
    CmpAntisymmetric(Divider1, p);
    CmpAntisymmetric(Divider2, p);
  }

  /** The set built from `[[1]]` and `[1]`: both kept, then the dividers. */
  lemma EqualPacketsSet()
    ensures DividerSet([(List([List([Num(1)])]), List([Num(1)]))])
      == [List([List([Num(1)])]), List([Num(1)]), Divider1, Divider2]
  {
    var one := List([Num(1)]);
    var nested := List([one]);
    assert Flatten([(nested, one)]) == [nested, one];
    NestedOneEqual();
    assert [nested, one][1..] == [one];
    assert SortStable([one]) == [one];
    assert SortStable([nested, one]) == [nested, one];
    assert DedupAdjacent([nested, one]) == [nested] + DedupAdjacent([one]);
    assert Collect([nested, one]) == [nested, one];
    OneBelowDividers(one);
    OneBelowDividers(nested);
    DividersOrdered();
    CmpAntisymmetric(Divider1, Divider2);
    assert Insert([one], Divider1) == [one, Divider1];
    assert Insert([nested, one], Divider1) == [nested, one, Divider1];
    assert [nested, one, Divider1][1..] == [one, Divider1];
    assert [one, Divider1][1..] == [Divider1];
    assert Insert([Divider1], Divider2) == [Divider1, Divider2];
    assert Insert([one, Divider1], Divider2) == [one, Divider1, Divider2];
    assert Insert([nested, one, Divider1], Divider2) == [nested, one, Divider1, Divider2];
  }

  /**
   * `[[1]]` and `[1]` compare Equal but are not `==`: the set keeps both, so
   * part2 as written agrees with the ordered list here.
   */
  lemma EqualPacketsBothKept()
    ensures Part2AsWritten([(List([List([Num(1)])]), List([Num(1)]))]) == Some(12)
    ensures Part2([(List([List([Num(1)])]), List([Num(1)]))]) == 12
  {
    var one := List([Num(1)]);
    var nested := List([one]);
    EqualPacketsSet();
    var tree := [nested, one, Divider1, Divider2];
    assert Scan(tree, 3, Some(3)) == Some(12);
    assert Scan(tree, 1, None) == Scan(tree, 2, None) == Some(12);
    assert Flatten([(nested, one)]) == [nested, one];
    OneBelowDividers(one);
    OneBelowDividers(nested);
    assert [nested, one][..1] == [nested];
    assert CountLess([nested, one], Divider1) == 2 && CountLess([nested, one], Divider2) == 2;
  }

  /** A packet comparing Equal to divider 1 keeps divider 1 out of the set, so the scan panics. */
  lemma EqualToDividerPanics()
    ensures Part2AsWritten([(List([Num(2)]), List([Num(3)]))]) == None
  {
    var two, three := List([Num(2)]), List([Num(3)]);
    assert Flatten([(two, three)]) == [two, three];
    assert Cmp(two, three) == Less;
    assert [two, three][1..] == [three];
    assert SortStable([three]) == [three];
    assert SortStable([two, three]) == [two, three];
    assert DedupAdjacent([two, three]) == [two] + DedupAdjacent([three]);
    assert Collect([two, three]) == [two, three];
    assert Cmp(Divider1, two) == Equal;
    assert Cmp(Divider2, two) == Greater && Cmp(Divider2, three) == Greater;
    assert Insert([two, three], Divider1) == [two, three];
    assert Insert([three], Divider2) == [three, Divider2];
    assert Insert([two, three], Divider2) == [two, three, Divider2];
    assert DividerSet([(two, three)]) == [two, three, Divider2];
  }
}
