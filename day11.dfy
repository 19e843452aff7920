/**
 * Day 11: monkeys passing items. In each round every monkey in turn inspects
 * the items in its queue front to back, changes each item's worry level,
 * and throws it to the back of one of two other monkeys' queues depending on
 * a divisibility test. The answer multiplies the two largest inspection counts.
 */
module Day11 {
  import opened Wrappers

  datatype Operation = Add(x: nat) | Multiply(x: nat) | Double | Square

  datatype Test = Test(divisor: nat, monkeyTrue: nat, monkeyFalse: nat)

  datatype Monkey = Monkey(throwCount: nat, items: seq<nat>, operation: Operation, test: Test)

  /**
   * How a worry level is kept in check after the operation: divided by 3
   * (part 1), reduced modulo the product of the divisors (part 2), or, as a
   * reference for part 2, not at all.
   */
  datatype Relief = DivideByThree | Modulo(lcm: nat) | Unchecked

  /** `Operation::apply` */
  function Apply(op: Operation, i: nat): nat
  {
    match op
    case Add(x) => i + x
    case Multiply(x) => i * x
    case Double => i + i
    case Square => i * i
  }

  /** What stays fixed while items move: each monkey's operation and test. */
  type Setup = seq<(Operation, Test)>

  function SetupOf(ms: seq<Monkey>): (r: Setup)
    ensures |r| == |ms|
  {
    seq(|ms|, i requires 0 <= i < |ms| => (ms[i].operation, ms[i].test))
  }

  /** Every divisor is positive and every monkey throws to two existing monkeys other than itself. */
  predicate SetupFits(s: Setup)
  {
    forall i :: 0 <= i < |s| ==>
      s[i].1.divisor > 0 &&
      s[i].1.monkeyTrue < |s| && s[i].1.monkeyFalse < |s| &&
      s[i].1.monkeyTrue != i && s[i].1.monkeyFalse != i
  }

  predicate WellFormed(ms: seq<Monkey>)
  {
    SetupFits(SetupOf(ms))
  }

  /** The product of all divisors, as `Monkeys::new` computes it. */
  function DivisorProduct(s: Setup): (r: nat)
    ensures (forall i :: 0 <= i < |s| ==> s[i].1.divisor > 0) ==> r > 0
  {
    if s == [] then 1 else DivisorProduct(s[..|s| - 1]) * s[|s| - 1].1.divisor
  }

  predicate ReliefFits(relief: Relief)
  {
    relief.Modulo? ==> relief.lcm > 0
  }

  /** The worry level after inspection and relief. */
  function Inspect(op: Operation, relief: Relief, item: nat): nat
    requires ReliefFits(relief)
  {
    var worry := Apply(op, item);
    match relief
    case DivideByThree => worry / 3
    case Modulo(lcm) => worry % lcm
    case Unchecked => worry
  }

  /** The monkey an item of worry `w` goes to. */
  function Receiver(t: Test, w: nat): nat
    requires t.divisor > 0
  {
    if w % t.divisor == 0 then t.monkeyTrue else t.monkeyFalse
  }

  /** What a well-formed troop guarantees of monkey `idx`'s test. */
  lemma TestAt(ms: seq<Monkey>, idx: nat)
    requires WellFormed(ms) && idx < |ms|
    ensures var t := ms[idx].test;
      t.divisor > 0 && t.monkeyTrue < |ms| && t.monkeyFalse < |ms| && t.monkeyTrue != idx && t.monkeyFalse != idx
  {
    assert SetupOf(ms)[idx].1 == ms[idx].test;
  }

  /** Replacing a monkey by one with the same operation and test keeps the setup. */
  lemma UpdateKeepsSetup(ms: seq<Monkey>, j: nat, m: Monkey)
    requires j < |ms| && m.operation == ms[j].operation && m.test == ms[j].test
    ensures SetupOf(ms[j := m]) == SetupOf(ms)
  {
    assert forall i :: 0 <= i < |ms| ==> SetupOf(ms[j := m])[i] == SetupOf(ms)[i];
  }

  /** Monkey `idx` inspects the front item of its queue and throws it. */
  function Throw(ms: seq<Monkey>, idx: nat, relief: Relief): (r: seq<Monkey>)
    requires WellFormed(ms) && idx < |ms| && ms[idx].items != [] && ReliefFits(relief)
    ensures SetupOf(r) == SetupOf(ms)
    ensures r[idx] == ms[idx].(items := ms[idx].items[1..], throwCount := ms[idx].throwCount + 1)
  {
    var m := ms[idx];
    TestAt(ms, idx);
    var item := Inspect(m.operation, relief, m.items[0]);
    var after := ms[idx := m.(items := m.items[1..], throwCount := m.throwCount + 1)];
    var to := Receiver(m.test, item);
    UpdateKeepsSetup(ms, idx, after[idx]);
    UpdateKeepsSetup(after, to, after[to].(items := after[to].items + [item]));
    after[to := after[to].(items := after[to].items + [item])]
  }

  /** Monkey `idx` throws every item in its queue. */
  function Turn(ms: seq<Monkey>, idx: nat, relief: Relief): (r: seq<Monkey>)
    requires WellFormed(ms) && idx < |ms| && ReliefFits(relief)
    ensures SetupOf(r) == SetupOf(ms)
    decreases |ms[idx].items|
  {
    if ms[idx].items == [] then ms else Turn(Throw(ms, idx, relief), idx, relief)
  }

  /** The turns of monkeys `idx`, `idx + 1`, ... of one round. */
  function RoundFrom(ms: seq<Monkey>, idx: nat, relief: Relief): (r: seq<Monkey>)
    requires WellFormed(ms) && idx <= |ms| && ReliefFits(relief)
    ensures SetupOf(r) == SetupOf(ms)
    decreases |ms| - idx
  {
    if idx == |ms| then ms else RoundFrom(Turn(ms, idx, relief), idx + 1, relief)
  }

  function Round(ms: seq<Monkey>, relief: Relief): (r: seq<Monkey>)
    requires WellFormed(ms) && ReliefFits(relief)
    ensures SetupOf(r) == SetupOf(ms)
  {
    RoundFrom(ms, 0, relief)
  }

  function Rounds(ms: seq<Monkey>, n: nat, relief: Relief): (r: seq<Monkey>)
    requires WellFormed(ms) && ReliefFits(relief)
    ensures SetupOf(r) == SetupOf(ms)
  {
    if n == 0 then ms else Round(Rounds(ms, n - 1, relief), relief)
  }

  // ------------------------------------------------------------ conservation

  /** All items held by the monkeys from index `k` on. */
  function ItemsFrom(ms: seq<Monkey>, k: nat): nat
    requires k <= |ms|
    decreases |ms| - k
  {
    if k == |ms| then 0 else |ms[k].items| + ItemsFrom(ms, k + 1)
  }

  function TotalItems(ms: seq<Monkey>): nat
  {
    ItemsFrom(ms, 0)
  }

  /** Changing one monkey's queue changes the total by the change in that queue. */
  lemma {:induction false} ItemsFromUpdate(ms: seq<Monkey>, k: nat, j: nat, m: Monkey)
    requires k <= |ms| && j < |ms|
    ensures ItemsFrom(ms[j := m], k) + (if k <= j then |ms[j].items| else 0) ==
      ItemsFrom(ms, k) + (if k <= j then |m.items| else 0)
    decreases |ms| - k
  {
    if k < |ms| {
      ItemsFromUpdate(ms, k + 1, j, m);
    }
  }

  /** A throw moves one item from one queue to another. */
  lemma ThrowKeepsItems(ms: seq<Monkey>, idx: nat, relief: Relief)
    requires WellFormed(ms) && idx < |ms| && ms[idx].items != [] && ReliefFits(relief)
    ensures TotalItems(Throw(ms, idx, relief)) == TotalItems(ms)
  {
    var m := ms[idx];
    TestAt(ms, idx);
    var item := Inspect(m.operation, relief, m.items[0]);
    var after := ms[idx := m.(items := m.items[1..], throwCount := m.throwCount + 1)];
    var to := Receiver(m.test, item);
    ItemsFromUpdate(ms, 0, idx, after[idx]);
    ItemsFromUpdate(after, 0, to, after[to].(items := after[to].items + [item]));
  }

  lemma {:induction false} TurnKeepsItems(ms: seq<Monkey>, idx: nat, relief: Relief)
    requires WellFormed(ms) && idx < |ms| && ReliefFits(relief)
    ensures TotalItems(Turn(ms, idx, relief)) == TotalItems(ms)
    decreases |ms[idx].items|
  {
    if ms[idx].items != [] {
      ThrowKeepsItems(ms, idx, relief);
      TurnKeepsItems(Throw(ms, idx, relief), idx, relief);
    }
  }

  /** A round neither creates nor drops items. */
  lemma {:induction false} RoundKeepsItems(ms: seq<Monkey>, idx: nat, relief: Relief)
    requires WellFormed(ms) && idx <= |ms| && ReliefFits(relief)
    ensures TotalItems(RoundFrom(ms, idx, relief)) == TotalItems(ms)
    decreases |ms| - idx
  {
    if idx < |ms| {
      TurnKeepsItems(ms, idx, relief);
      RoundKeepsItems(Turn(ms, idx, relief), idx + 1, relief);
    }
  }

  /** A throw counts one inspection for the thrower and leaves the other counts alone. */
  lemma ThrowCounts(ms: seq<Monkey>, idx: nat, relief: Relief)
    requires WellFormed(ms) && idx < |ms| && ms[idx].items != [] && ReliefFits(relief)
    ensures var r := Throw(ms, idx, relief);
      r[idx].throwCount == ms[idx].throwCount + 1 && r[idx].items == ms[idx].items[1..] &&
      forall i :: 0 <= i < |ms| && i != idx ==> r[i].throwCount == ms[i].throwCount
  {
    TestAt(ms, idx);
  }

  /** After its turn a monkey's queue is empty and it has counted every item it held. */
  lemma {:induction false} TurnEmptiesQueue(ms: seq<Monkey>, idx: nat, relief: Relief)
    requires WellFormed(ms) && idx < |ms| && ReliefFits(relief)
    ensures var r := Turn(ms, idx, relief);
      r[idx].items == [] && r[idx].throwCount == ms[idx].throwCount + |ms[idx].items|
    decreases |ms[idx].items|
  {
    if ms[idx].items != [] {
      ThrowCounts(ms, idx, relief);
      TurnEmptiesQueue(Throw(ms, idx, relief), idx, relief);
    }
  }

  // ------------------------------------------------------------ the class

  /** `Monkeys`: the monkeys and the product of their divisors. */
  class Troop {
    var monkeys: seq<Monkey>
    var lcm: nat

    ghost predicate Valid()
      reads this
    {
      WellFormed(monkeys) && lcm == DivisorProduct(SetupOf(monkeys))
    }

    /** `Monkeys::new` */
    constructor (ms: seq<Monkey>)
      requires WellFormed(ms)
      ensures monkeys == ms && Valid()
    {
      monkeys := ms;
      var product := 1;
      for i := 0 to |ms|
        invariant product == DivisorProduct(SetupOf(ms)[..i])
      {
        assert SetupOf(ms)[..i + 1][..i] == SetupOf(ms)[..i];
        product := product * ms[i].test.divisor;
      }
      assert SetupOf(ms)[..|ms|] == SetupOf(ms);
      lcm := product;
    }

    /**
     * The inner loop of both rounds: monkey `idx` pops its front item, counts
     * the inspection, applies its operation and the relief, and pushes the
     * item to the back of the receiver's queue, until its queue is empty.
     */
    method TakeTurn(idx: nat, relief: Relief)
      requires WellFormed(monkeys) && idx < |monkeys| && ReliefFits(relief)
      modifies this
      ensures lcm == old(lcm) && monkeys == Turn(old(monkeys), idx, relief)
    {
      var ms := monkeys;
      while ms[idx].items != []
        invariant SetupOf(ms) == SetupOf(old(monkeys)) && lcm == old(lcm)
        invariant Turn(ms, idx, relief) == Turn(old(monkeys), idx, relief)
        decreases |ms[idx].items|
      {
        ghost var before := ms;
        var m := ms[idx];
        TestAt(ms, idx);
        var item := m.items[0];
        ms := ms[idx := m.(items := m.items[1..], throwCount := m.throwCount + 1)];
        item := Inspect(m.operation, relief, item);
        var receiver := if item % m.test.divisor == 0 then m.test.monkeyTrue else m.test.monkeyFalse;
        ms := ms[receiver := ms[receiver].(items := ms[receiver].items + [item])];
        assert ms == Throw(before, idx, relief);
      }
      monkeys := ms;
    }

    /** `do_round_with_relief` */
    method DoRoundWithRelief()
      requires Valid()
      modifies this
      ensures Valid() && lcm == old(lcm) && monkeys == Round(old(monkeys), DivideByThree)
    {
      for idx := 0 to |monkeys|
        invariant SetupOf(monkeys) == SetupOf(old(monkeys)) && lcm == old(lcm)
        invariant RoundFrom(monkeys, idx, DivideByThree) == Round(old(monkeys), DivideByThree)
      {
        TakeTurn(idx, DivideByThree);
      }
    }

    /** `do_round_without_relief` */
    method DoRoundWithoutRelief()
      requires Valid()
      modifies this
      ensures Valid() && lcm == old(lcm) && monkeys == Round(old(monkeys), Modulo(lcm))
    {
      for idx := 0 to |monkeys|
        invariant SetupOf(monkeys) == SetupOf(old(monkeys)) && lcm == old(lcm)
        invariant RoundFrom(monkeys, idx, Modulo(lcm)) == Round(old(monkeys), Modulo(lcm))
      {
        TakeTurn(idx, Modulo(lcm));
      }
    }
  }

  // ------------------------------------------------------------ modular worry levels

  /** `Operation::apply` respects congruence: reducing first gives the same remainder. */
  lemma ApplyReduces(op: Operation, a: nat, m: nat)
    requires m > 0
    ensures Apply(op, a) % m == Apply(op, a % m) % m
  {
    match op
    case Add(x) =>
      AddReduces(a, m, x);
    case Multiply(x) =>
      MulReduces(a, m, x);
    case Double =>
      AddReduces(a, m, a);
      AddReduces(a, m, a % m);
    case Square =>
      MulReduces(a, m, a);
      MulReduces(a, m, a % m);
      assert a * (a % m) == (a % m) * a;
  }

  lemma ApplyCongruent(op: Operation, a: nat, b: nat, m: nat)
    requires m > 0 && a % m == b % m
    ensures Apply(op, a) % m == Apply(op, b) % m
  {
    ApplyReduces(op, a, m);
    ApplyReduces(op, b, m);
  }

  /** Reducing modulo a multiple of `d` keeps the remainder modulo `d`. */
  lemma ModMultipleKeepsDivisibility(x: nat, lcm: nat, d: nat)
    requires d > 0 && lcm > 0 && lcm % d == 0
    ensures (x % lcm) % d == x % d && x % lcm < lcm
  {
    var k := lcm / d;
    assert lcm == k * d;
    assert x == (x / lcm * k) * d + x % lcm by {
      assert x == x / lcm * lcm + x % lcm;
    }
    ModAddMultiple(x / lcm * k, d, x % lcm);
  }

  /** Every divisor divides the product of all divisors. */
  lemma {:induction false} DivisorDividesProduct(s: Setup, i: nat)
    requires i < |s| && forall j :: 0 <= j < |s| ==> s[j].1.divisor > 0
    ensures DivisorProduct(s) % s[i].1.divisor == 0
  {
    var front := s[..|s| - 1];
    var last := s[|s| - 1].1.divisor;
    var d := s[i].1.divisor;
    if i == |s| - 1 {
      ModAddMultiple(DivisorProduct(front), d, 0);
    } else {
      assert front[i] == s[i];
      assert forall j :: 0 <= j < |front| ==> front[j] == s[j];
      DivisorDividesProduct(front, i);
      var k := DivisorProduct(front) / d;
      assert DivisorProduct(front) == k * d;
      assert DivisorProduct(s) == (k * last) * d by {
        assert DivisorProduct(s) == DivisorProduct(front) * last;
        MulRegroup(k, d, last);
      }
      ModAddMultiple(k * last, d, 0);
    }
  }

  lemma MulRegroup(k: int, d: int, last: int)
    ensures (k * d) * last == (k * last) * d
  {
  }

  /** Two monkeys whose counts agree and whose queues agree item by item modulo `m`. */
  predicate CongruentMonkey(x: Monkey, y: Monkey, m: nat)
    requires m > 0
  {
    x.throwCount == y.throwCount && |x.items| == |y.items| &&
    forall j :: 0 <= j < |x.items| ==> x.items[j] % m == y.items[j] % m
  }

  predicate Congruent(a: seq<Monkey>, b: seq<Monkey>, m: nat)
    requires m > 0
  {
    SetupOf(a) == SetupOf(b) && forall i :: 0 <= i < |a| ==> CongruentMonkey(a[i], b[i], m)
  }

  /** `lcm` is a positive multiple of every divisor. */
  predicate CommonMultiple(s: Setup, lcm: nat)
  {
    lcm > 0 && forall i :: 0 <= i < |s| ==> s[i].1.divisor > 0 && lcm % s[i].1.divisor == 0
  }

  lemma ProductIsCommonMultiple(ms: seq<Monkey>)
    requires WellFormed(ms)
    ensures CommonMultiple(SetupOf(ms), DivisorProduct(SetupOf(ms)))
  {
    forall i | 0 <= i < |ms|
      ensures DivisorProduct(SetupOf(ms)) % SetupOf(ms)[i].1.divisor == 0
    {
      DivisorDividesProduct(SetupOf(ms), i);
    }
  }

  /**
   * A throw on worry levels reduced modulo a common multiple of the divisors
   * goes to the same monkey as the same throw on the unreduced levels.
   */
  lemma ThrowCongruent(a: seq<Monkey>, b: seq<Monkey>, idx: nat, lcm: nat)
    requires WellFormed(a) && idx < |a| && a[idx].items != []
    requires CommonMultiple(SetupOf(a), lcm) && Congruent(a, b, lcm)
    ensures WellFormed(b) && b[idx].items != []
    ensures Congruent(Throw(a, idx, Modulo(lcm)), Throw(b, idx, Unchecked), lcm)
  {
    assert SetupOf(a)[idx] == SetupOf(b)[idx];
    assert CongruentMonkey(a[idx], b[idx], lcm);
    TestAt(a, idx);
    var ma, mb := a[idx], b[idx];
    var d := ma.test.divisor;
    assert SetupOf(a)[idx].1 == ma.test;
    assert lcm % d == 0;
    var wa := Apply(ma.operation, ma.items[0]);
    var wb := Apply(mb.operation, mb.items[0]);
    ApplyCongruent(ma.operation, ma.items[0], mb.items[0], lcm);
    var ia, ib := Inspect(ma.operation, Modulo(lcm), ma.items[0]), Inspect(mb.operation, Unchecked, mb.items[0]);
    assert ia == wa % lcm && ib == wb;
    ModMultipleKeepsDivisibility(wa, lcm, d);
    ModMultipleKeepsDivisibility(wb, lcm, d);
    ModMultipleKeepsDivisibility(wa, lcm, lcm);
    assert ia % lcm == ib % lcm;
    assert ia % d == ib % d;
    var to := Receiver(ma.test, ia);
    assert to == Receiver(mb.test, ib);
    var ra, rb := Throw(a, idx, Modulo(lcm)), Throw(b, idx, Unchecked);
    forall i | 0 <= i < |ra|
      ensures CongruentMonkey(ra[i], rb[i], lcm)
    {
      assert CongruentMonkey(a[i], b[i], lcm);
      if i == to {
        assert ra[i].items == a[i].items + [ia];
        assert rb[i].items == b[i].items + [ib];
      } else if i == idx {
        assert ra[i].items == ma.items[1..];
        assert rb[i].items == mb.items[1..];
      }
    }
  }

  lemma {:induction false} TurnCongruent(a: seq<Monkey>, b: seq<Monkey>, idx: nat, lcm: nat)
    requires WellFormed(a) && idx < |a|
    requires CommonMultiple(SetupOf(a), lcm) && Congruent(a, b, lcm)
    ensures WellFormed(b)
    ensures Congruent(Turn(a, idx, Modulo(lcm)), Turn(b, idx, Unchecked), lcm)
    decreases |a[idx].items|
  {
    assert CongruentMonkey(a[idx], b[idx], lcm);
    if a[idx].items != [] {
      ThrowCongruent(a, b, idx, lcm);
      TurnCongruent(Throw(a, idx, Modulo(lcm)), Throw(b, idx, Unchecked), idx, lcm);
    }
  }

  lemma {:induction false} RoundFromCongruent(a: seq<Monkey>, b: seq<Monkey>, idx: nat, lcm: nat)
    requires WellFormed(a) && idx <= |a|
    requires CommonMultiple(SetupOf(a), lcm) && Congruent(a, b, lcm)
    ensures WellFormed(b)
    ensures Congruent(RoundFrom(a, idx, Modulo(lcm)), RoundFrom(b, idx, Unchecked), lcm)
    decreases |a| - idx
  {
    if idx < |a| {
      TurnCongruent(a, b, idx, lcm);
      RoundFromCongruent(Turn(a, idx, Modulo(lcm)), Turn(b, idx, Unchecked), idx + 1, lcm);
    }
  }

  /**
   * The reason part 2 may reduce modulo the product of the divisors: after
   * any number of rounds the reduced and the unreduced simulation agree on
   * every monkey's throw count (and on where every item is).
   */
  lemma {:induction false} ReducedRoundsAgree(ms: seq<Monkey>, n: nat, lcm: nat)
    requires WellFormed(ms) && CommonMultiple(SetupOf(ms), lcm)
    ensures Congruent(Rounds(ms, n, Modulo(lcm)), Rounds(ms, n, Unchecked), lcm)
  {
    if n > 0 {
      ReducedRoundsAgree(ms, n - 1, lcm);
      RoundFromCongruent(Rounds(ms, n - 1, Modulo(lcm)), Rounds(ms, n - 1, Unchecked), 0, lcm);
    } else {
      assert forall i :: 0 <= i < |ms| ==> CongruentMonkey(ms[i], ms[i], lcm);
    }
  }

  // ------------------------------------------------------------ monkey business

  function Counts(ms: seq<Monkey>): (r: seq<nat>)
    ensures |r| == |ms| && forall i :: 0 <= i < |ms| ==> r[i] == ms[i].throwCount
  {
    if ms == [] then [] else [ms[0].throwCount] + Counts(ms[1..])
  }

  predicate Descending(xs: seq<nat>)
  {
    |xs| < 2 || (xs[0] >= xs[1] && Descending(xs[1..]))
  }

  /** The head of a descending sequence is its largest element. */
  lemma {:induction false} DescendingHead(xs: seq<nat>, k: nat)
    requires Descending(xs) && k < |xs|
    ensures xs[k] <= xs[0]
  {
    if k > 0 {
      DescendingHead(xs[1..], k - 1);
    }
  }

  function InsertDesc(x: nat, xs: seq<nat>): (r: seq<nat>)
    requires Descending(xs)
    ensures Descending(r) && multiset(r) == multiset(xs) + multiset{x}
    ensures |r| == |xs| + 1 && (r[0] == x || (xs != [] && r[0] == xs[0]))
  {
    if xs == [] || x >= xs[0] then [x] + xs
    else
      assert xs == [xs[0]] + xs[1..];
      var rest := InsertDesc(x, xs[1..]);
      assert ([xs[0]] + rest)[1..] == rest;
      [xs[0]] + rest
  }

  /** `sort_unstable_by(|a, b| b.cmp(a))`: the counts, largest first. */
  function SortDesc(xs: seq<nat>): (r: seq<nat>)
    ensures Descending(r) && multiset(r) == multiset(xs)
  {
    if xs == [] then []
    else
      assert xs == [xs[0]] + xs[1..];
      InsertDesc(xs[0], SortDesc(xs[1..]))
  }

  /** The product of the two largest throw counts; a troop of fewer than two monkeys has none. */
  function MonkeyBusiness(ms: seq<Monkey>): Option<nat>
  {
    var sorted := SortDesc(Counts(ms));
    if |sorted| < 2 then None else Some(sorted[0] * sorted[1])
  }

  /**
   * The answer is the count of some monkey `i` that no other monkey exceeds,
   * times the count of a different monkey `j` that no third monkey exceeds.
   */
  lemma MonkeyBusinessIsTopTwo(ms: seq<Monkey>) returns (i: nat, j: nat)
    ensures MonkeyBusiness(ms).None? <==> |ms| < 2
    ensures |ms| >= 2 ==>
      i < |ms| && j < |ms| && i != j &&
      MonkeyBusiness(ms).value == ms[i].throwCount * ms[j].throwCount &&
      (forall k :: 0 <= k < |ms| ==> ms[k].throwCount <= ms[i].throwCount) &&
      (forall k :: 0 <= k < |ms| && k != i ==> ms[k].throwCount <= ms[j].throwCount)
  {
    var c := Counts(ms);
    SortedLength(c);
    i, j := 0, 0;
    if |c| >= 2 {
      i, j := TopTwoIndices(c);
    }
  }

  lemma SortedLength(c: seq<nat>)
    ensures |SortDesc(c)| == |c|
  {
    assert |multiset(SortDesc(c))| == |multiset(c)|;
  }

  /** Every element of a descending sequence is at most its head. */
  lemma BelowHead(sorted: seq<nat>, v: nat)
    requires Descending(sorted) && v in multiset(sorted)
    ensures v <= sorted[0]
  {
    var p :| 0 <= p < |sorted| && sorted[p] == v;
    DescendingHead(sorted, p);
  }

  /** Where the first two elements of the sorted counts come from. */
  lemma TopTwoIndices(c: seq<nat>) returns (i: nat, j: nat)
    requires |c| >= 2
    ensures var sorted := SortDesc(c);
      |sorted| == |c| && i < |c| && j < |c| && i != j && c[i] == sorted[0] && c[j] == sorted[1] &&
      (forall k :: 0 <= k < |c| ==> c[k] <= c[i]) &&
      (forall k :: 0 <= k < |c| && k != i ==> c[k] <= c[j])
  {
    var sorted := SortDesc(c);
    SortedLength(c);
    i := HeadIndex(c, sorted);
    j := SecondIndex(c, sorted, i);
  }

  /** Where the largest count sits. */
  lemma HeadIndex(c: seq<nat>, sorted: seq<nat>) returns (i: nat)
    requires |c| >= 1 && |sorted| == |c| && Descending(sorted) && multiset(sorted) == multiset(c)
    ensures i < |c| && c[i] == sorted[0] && forall k :: 0 <= k < |c| ==> c[k] <= c[i]
  {
    assert sorted[0] in multiset(c);
    i :| 0 <= i < |c| && c[i] == sorted[0];
    forall k | 0 <= k < |c|
      ensures c[k] <= c[i]
    {
      BelowHead(sorted, c[k]);
    }
  }

  /** Where the second largest count sits, once the largest is at `i`. */
  lemma SecondIndex(c: seq<nat>, sorted: seq<nat>, i: nat) returns (j: nat)
    requires |c| >= 2 && |sorted| == |c| && Descending(sorted) && multiset(sorted) == multiset(c)
    requires i < |c| && c[i] == sorted[0]
    ensures j < |c| && j != i && c[j] == sorted[1] && forall k :: 0 <= k < |c| && k != i ==> c[k] <= c[j]
  {
    var rest := sorted[1..];
    assert multiset(rest) == multiset(c) - multiset{c[i]} by {
      assert sorted == [sorted[0]] + rest;
    }
    assert sorted[1] == rest[0];
    j := OtherIndex(c, i, sorted[1]);
    forall k | 0 <= k < |c| && k != i
      ensures c[k] <= c[j]
    {
      MultisetWithout(c, i, k);
      BelowHead(rest, c[k]);
    }
  }


  /** Removing the item at `i` from `c` leaves every other item in the multiset. */
  lemma MultisetWithout(c: seq<nat>, i: nat, k: nat)
    requires i < |c| && k < |c| && k != i
    ensures c[k] in multiset(c) - multiset{c[i]}
  {
    var without := Without(c, i);
    assert without[if k < i then k else k - 1] == c[k];
    assert c[k] in multiset(without);
  }

  /** An item still in the multiset without position `i` sits at some other position. */
  lemma OtherIndex(c: seq<nat>, i: nat, v: nat) returns (j: nat)
    requires i < |c| && v in multiset(c) - multiset{c[i]}
    ensures j < |c| && j != i && c[j] == v
  {
    var without := Without(c, i);
    assert v in multiset(without);
    var p :| 0 <= p < |without| && without[p] == v;
    j := if p < i then p else p + 1;
  }

  /** The counts with position `i` taken out, and the multiset that leaves. */
  lemma Without(c: seq<nat>, i: nat) returns (without: seq<nat>)
    requires i < |c|
    ensures |without| == |c| - 1 && multiset(without) == multiset(c) - multiset{c[i]}
    ensures forall p :: 0 <= p < |without| ==> without[p] == c[if p < i then p else p + 1]
  {
    without := c[..i] + c[i + 1..];
    assert multiset(c) == multiset(c[..i]) + multiset{c[i]} + multiset(c[i + 1..]) by {
      assert c == c[..i] + [c[i]] + c[i + 1..];
    }
  }

  // ------------------------------------------------------------ the two parts

  ghost function Part1Answer(ms: seq<Monkey>): Option<nat>
    requires WellFormed(ms)
  {
    MonkeyBusiness(Rounds(ms, 20, DivideByThree))
  }

  ghost function Part2Answer(ms: seq<Monkey>): Option<nat>
    requires WellFormed(ms)
  {
    MonkeyBusiness(Rounds(ms, 10000, Modulo(DivisorProduct(SetupOf(ms)))))
  }

  /** Part 2's reduction does not change its answer: the unreduced rounds give the same counts. */
  lemma Part2Unreduced(ms: seq<Monkey>)
    requires WellFormed(ms)
    ensures Part2Answer(ms) == MonkeyBusiness(Rounds(ms, 10000, Unchecked))
  {
    var lcm := DivisorProduct(SetupOf(ms));
    ProductIsCommonMultiple(ms);
    ReducedRoundsAgree(ms, 10000, lcm);
    var a, b := Rounds(ms, 10000, Modulo(lcm)), Rounds(ms, 10000, Unchecked);
    assert Counts(a) == Counts(b) by {
      assert forall i :: 0 <= i < |a| ==> CongruentMonkey(a[i], b[i], lcm);
    }
  }

  /** `part1` and `part2` on the troop as parsed. */
  method Part1(troop: Troop) returns (r: Option<nat>)
    requires troop.Valid()
    modifies troop
    ensures r == Part1Answer(old(troop.monkeys))
  {
    ghost var start := troop.monkeys;
    for i := 0 to 20
      invariant troop.Valid() && troop.monkeys == Rounds(start, i, DivideByThree)
    {
      troop.DoRoundWithRelief();
    }
    r := MonkeyBusiness(troop.monkeys);
  }

  method Part2(troop: Troop) returns (r: Option<nat>)
    requires troop.Valid()
    modifies troop
    ensures r == Part2Answer(old(troop.monkeys))
  {
    ghost var start := troop.monkeys;
    ghost var lcm := troop.lcm;
    assert lcm == DivisorProduct(SetupOf(start));
    for i := 0 to 10000
      invariant troop.Valid() && troop.lcm == lcm
      invariant troop.monkeys == Rounds(start, i, Modulo(lcm))
    {
      troop.DoRoundWithoutRelief();
    }
    r := MonkeyBusiness(troop.monkeys);
  }
}
