/**
 * Day 21: the monkeys' expression graph. Each monkey yells a number or
 * combines two other monkeys' numbers; part 1 evaluates `root`, part 2
 * finds the number `humn` must yell so that both operands of `root` agree,
 * by walking down from `root` and inverting one operation per step.
 */
module Day21 {
  import opened Wrappers
  import opened Text

  datatype Op = Add | Sub | Mul | Div

  datatype Monkey = Number(n: int) | Calculation(a: string, b: string, op: Op)

  type Monkeys = map<string, Monkey>

  const Root := "root"
  const Human := "humn"

  /**
   * Every name a calculation refers to is defined and ranked below it. The
   * ranking is a witness that the graph has no cycle, which the recursion of
   * `eval` needs to end.
   */
  ghost predicate WellFormed(m: Monkeys, rank: map<string, nat>)
  {
    forall name :: name in m ==>
      name in rank &&
      (m[name].Calculation? ==>
        m[name].a in m && m[name].b in m &&
        m[name].a in rank && m[name].b in rank &&
        rank[m[name].a] < rank[name] && rank[m[name].b] < rank[name])
  }

  /** One operation on `i64`; `None` is the panic on division by zero. */
  function Apply(op: Op, x: int, y: int): (r: Option<int>)
    ensures r.None? <==> op == Div && y == 0
  {
    match op
    case Add => Some(x + y)
    case Sub => Some(x - y)
    case Mul => Some(x * y)
    case Div => if y == 0 then None else Some(TDiv(x, y))
  }

  /** No monkey divides. */
  ghost predicate NoDivision(m: Monkeys)
  {
    forall name :: name in m && m[name].Calculation? ==> m[name].op != Div
  }

  /**
   * `eval`: operands left then right; `None` if any division on the way
   * divides by zero, so never without a division.
   */
  function Eval(m: Monkeys, ghost rank: map<string, nat>, name: string): (r: Option<int>)
    requires WellFormed(m, rank) && name in m
    ensures NoDivision(m) ==> r.Some?
    decreases rank[name]
  {
    match m[name]
    case Number(n) => Some(n)
    case Calculation(a, b, op) =>
      var x := Eval(m, rank, a);
      var y := Eval(m, rank, b);
      if x.None? || y.None? then None else Apply(op, x.value, y.value)
  }

  /** part1: `root`'s number; `None` without a `root` or on a division by zero. */
  function Part1(m: Monkeys, ghost rank: map<string, nat>): (r: Option<int>)
    requires WellFormed(m, rank)
    ensures r.Some? ==> Root in m
    ensures Root in m && NoDivision(m) ==> r.Some?
  {
    if Root in m then Eval(m, rank, Root) else None
  }

  // ------------------------------------------------------------ tracing humn

  /** `target` can be reached from `curr` along operand links. */
  ghost predicate Reaches(m: Monkeys, rank: map<string, nat>, curr: string, target: string)
    requires WellFormed(m, rank) && curr in m
    decreases rank[curr]
  {
    curr == target ||
    (m[curr].Calculation? && (Reaches(m, rank, m[curr].a, target) || Reaches(m, rank, m[curr].b, target)))
  }

  /** `x` is visited by a walk down from `curr` that stops at `target`. */
  ghost predicate Descends(m: Monkeys, rank: map<string, nat>, curr: string, x: string, target: string)
    requires WellFormed(m, rank) && curr in m
    decreases rank[curr]
  {
    x == curr ||
    (curr != target && m[curr].Calculation? &&
      (Descends(m, rank, m[curr].a, x, target) || Descends(m, rank, m[curr].b, x, target)))
  }

  /** The names `trace_for` inserts when started at `curr`. */
  ghost function Traced(m: Monkeys, rank: map<string, nat>, curr: string, target: string): set<string>
    requires WellFormed(m, rank) && curr in m
    decreases rank[curr]
  {
    if curr == target then {target}
    else
      match m[curr]
      case Number(_) => {}
      case Calculation(a, b, _) =>
        Traced(m, rank, a, target) + Traced(m, rank, b, target) +
        (if Reaches(m, rank, a, target) || Reaches(m, rank, b, target) then {curr} else {})
  }

  /** `trace_for`: reports whether `target` is below `curr` and adds the names on the way to it. */
  method TraceFor(m: Monkeys, ghost rank: map<string, nat>, curr: string, target: string, names: set<string>)
    returns (found: bool, out: set<string>)
    requires WellFormed(m, rank) && curr in m
    ensures found == Reaches(m, rank, curr, target)
    ensures out == names + Traced(m, rank, curr, target)
    decreases rank[curr]
  {
    if curr == target {
      return true, names + {target};
    }
    match m[curr]
    case Number(_) =>
      return false, names;
    case Calculation(a, b, _) =>
      var inA, afterA := TraceFor(m, rank, a, target, names);
      var inB, afterB := TraceFor(m, rank, b, target, afterA);
      out := afterB;
      if inA || inB {
        out := out + {curr};
      }
      found := inA || inB;
  }

  /** The traced names are exactly those on a walk from `curr` from which `target` is reachable. */
  lemma {:induction false} TracedMembers(m: Monkeys, rank: map<string, nat>, curr: string, target: string, x: string)
    requires WellFormed(m, rank) && curr in m
    ensures x in Traced(m, rank, curr, target) <==>
      Descends(m, rank, curr, x, target) && x in m && Reaches(m, rank, x, target)
    decreases rank[curr]
  {
    DescendsDefined(m, rank, curr, x, target);
    if curr != target && m[curr].Calculation? {
      TracedMembers(m, rank, m[curr].a, target, x);
      TracedMembers(m, rank, m[curr].b, target, x);
    }
  }

  lemma {:induction false} DescendsDefined(m: Monkeys, rank: map<string, nat>, curr: string, x: string, target: string)
    requires WellFormed(m, rank) && curr in m
    ensures Descends(m, rank, curr, x, target) ==> x in m
    decreases rank[curr]
  {
    if curr != target && m[curr].Calculation? {
      DescendsDefined(m, rank, m[curr].a, x, target);
      DescendsDefined(m, rank, m[curr].b, x, target);
    }
  }

  lemma {:induction false} DescendsRank(m: Monkeys, rank: map<string, nat>, curr: string, x: string, target: string)
    requires WellFormed(m, rank) && curr in m && Descends(m, rank, curr, x, target)
    ensures x in rank && rank[x] <= rank[curr]
    decreases rank[curr]
  {
    if x != curr {
      var c := m[curr];
      if Descends(m, rank, c.a, x, target) {
        DescendsRank(m, rank, c.a, x, target);
      } else {
        DescendsRank(m, rank, c.b, x, target);
      }
    }
  }

  /** A walk that passes a calculation other than the target goes on into both operands. */
  lemma {:induction false} DescendsStep(m: Monkeys, rank: map<string, nat>, curr: string, x: string, target: string)
    requires WellFormed(m, rank) && curr in m && x in m
    requires Descends(m, rank, curr, x, target) && x != target && m[x].Calculation?
    ensures Descends(m, rank, curr, m[x].a, target) && Descends(m, rank, curr, m[x].b, target)
    decreases rank[curr]
  {
    if x != curr {
      var c := m[curr];
      DescendsDefined(m, rank, c.a, x, target);
      DescendsDefined(m, rank, c.b, x, target);
      if Descends(m, rank, c.a, x, target) {
        DescendsStep(m, rank, c.a, x, target);
      } else {
        DescendsStep(m, rank, c.b, x, target);
      }
    }
  }

  /** Below a traced calculation other than the target, an operand is traced exactly when it reaches the target. */
  lemma TracedOperand(m: Monkeys, rank: map<string, nat>, u: string)
    requires WellFormed(m, rank) && Root in m && u in Traced(m, rank, Root, Human)
    requires u != Human && u in m && m[u].Calculation?
    ensures m[u].a in Traced(m, rank, Root, Human) <==> Reaches(m, rank, m[u].a, Human)
    ensures m[u].b in Traced(m, rank, Root, Human) <==> Reaches(m, rank, m[u].b, Human)
  {
    TracedMembers(m, rank, Root, Human, u);
    DescendsStep(m, rank, Root, u, Human);
    TracedMembers(m, rank, Root, Human, m[u].a);
    TracedMembers(m, rank, Root, Human, m[u].b);
  }

  // ------------------------------------------------------------ part 2

  /** The unknown operand is on the left: solve `unknown op k == value`. */
  function InvertLeft(op: Op, value: int, k: int): Option<int>
  {
    match op
    case Add => Some(value - k)
    case Sub => Some(value + k)
    case Mul => if k == 0 then None else Some(TDiv(value, k))
    case Div => Some(value * k)
  }

  /** The unknown operand is on the right: solve `k op unknown == value`. */
  function InvertRight(op: Op, k: int, value: int): Option<int>
  {
    match op
    case Add => Some(value - k)
    case Sub => Some(k - value)
    case Mul => if k == 0 then None else Some(TDiv(value, k))
    case Div => if value == 0 then None else Some(TDiv(k, value))
  }

  /** The inversion loop: `unknown` must evaluate to `value`; `None` is a panic. */
  function Solve(m: Monkeys, ghost rank: map<string, nat>, traces: set<string>, unknown: string, value: int): Option<int>
    requires WellFormed(m, rank) && unknown in m
    decreases rank[unknown]
  {
    match m[unknown]
    case Number(_) => Some(value)
    case Calculation(lhs, rhs, op) =>
      if lhs in traces then
        match Eval(m, rank, rhs)
        case None => None
        case Some(k) =>
          match InvertLeft(op, value, k)
          case None => None
          case Some(v) => Solve(m, rank, traces, lhs, v)
      else
        match Eval(m, rank, lhs)
        case None => None
        case Some(k) =>
          match InvertRight(op, k, value)
          case None => None
          case Some(v) => Solve(m, rank, traces, rhs, v)
  }

  /** part2 as a value: start on the traced operand of `root` with the other operand's value. */
  ghost function Part2Value(m: Monkeys, rank: map<string, nat>): Option<int>
    requires WellFormed(m, rank)
  {
    if Root !in m || m[Root].Number? then None
    else
      var a, b := m[Root].a, m[Root].b;
      var traces := Traced(m, rank, Root, Human);
      if a in traces then
        match Eval(m, rank, b)
        case None => None
        case Some(v) => Solve(m, rank, traces, a, v)
      else
        match Eval(m, rank, a)
        case None => None
        case Some(v) => Solve(m, rank, traces, b, v)
  }

  /** part2 */
  method Part2(m: Monkeys, ghost rank: map<string, nat>) returns (r: Option<int>)
    requires WellFormed(m, rank)
    ensures r == Part2Value(m, rank)
  {
    if Root !in m || m[Root].Number? {
      return None;
    }
    var a, b := m[Root].a, m[Root].b;
    var found, traces := TraceFor(m, rank, Root, Human, {});
    assert traces == Traced(m, rank, Root, Human);
    var unknown, known := b, a;
    if a in traces {
      unknown, known := a, b;
    }
    var start := Eval(m, rank, known);
    if start.None? {
      return None;
    }
    var value := start.value;
    while true
      invariant unknown in m
      invariant Solve(m, rank, traces, unknown, value) == Part2Value(m, rank)
      decreases rank[unknown]
    {
      match m[unknown]
      case Number(_) =>
        return Some(value);
      case Calculation(lhs, rhs, op) =>
        if lhs in traces {
          var k := Eval(m, rank, rhs);
          if k.None? {
            return None;
          }
          var next := InvertLeft(op, value, k.value);
          if next.None? {
            return None;
          }
          value, unknown := next.value, lhs;
        } else {
          var k := Eval(m, rank, lhs);
          if k.None? {
            return None;
          }
          var next := InvertRight(op, k.value, value);
          if next.None? {
            return None;
          }
          value, unknown := next.value, rhs;
        }
    }
  }

  // ------------------------------------------------------------ part 2 is correct

  /** The map with `humn` yelling `h` instead. */
  function WithHuman(m: Monkeys, ghost rank: map<string, nat>, h: int): (r: Monkeys)
    requires WellFormed(m, rank) && Human in m
    ensures WellFormed(r, rank) && r.Keys == m.Keys && r[Human] == Number(h)
    ensures forall name :: name in m && name != Human ==> r[name] == m[name]
  {
    m[Human := Number(h)]
  }

  /** A monkey whose value does not depend on `humn` yells the same whatever `humn` yells. */
  lemma {:induction false} Unaffected(m: Monkeys, rank: map<string, nat>, h: int, x: string)
    requires WellFormed(m, rank) && Human in m && x in m && !Reaches(m, rank, x, Human)
    ensures Eval(WithHuman(m, rank, h), rank, x) == Eval(m, rank, x)
    decreases rank[x]
  {
    if m[x].Calculation? {
      Unaffected(m, rank, h, m[x].a);
      Unaffected(m, rank, h, m[x].b);
    }
  }

  lemma InvertLeftSolves(op: Op, x: int, k: int, value: int)
    requires Apply(op, x, k) == Some(value)
    requires op == Mul ==> k != 0
    requires op == Div ==> x == k * value
    ensures InvertLeft(op, value, k) == Some(x)
  {
    if op == Mul {
      TDivMul(x, k);
    }
  }

  lemma InvertRightSolves(op: Op, k: int, y: int, value: int)
    requires Apply(op, k, y) == Some(value)
    requires op == Mul ==> k != 0
    requires op == Div ==> k == y * value && k != 0
    ensures InvertRight(op, k, value) == Some(y)
  {
    if op == Mul {
      assert k * y == y * k;
      TDivMul(y, k);
    } else if op == Div {
      TDivMul(y, value);
    }
  }

  /**
   * What part 2 needs of the calculation at `u` when `humn` yells `h`: a
   * multiplication's known operand is not zero, and a division is exact
   * with a non-zero dividend when the unknown is the divisor.
   */
  ghost predicate Invertible(m: Monkeys, rank: map<string, nat>, traces: set<string>, h: int, u: string)
    requires WellFormed(m, rank) && Human in m && u in m && m[u].Calculation?
  {
    var mh := WithHuman(m, rank, h);
    var c := m[u];
    var x, y := Eval(mh, rank, c.a), Eval(mh, rank, c.b);
    x.Some? && y.Some? &&
    (c.op == Mul ==> (if c.a in traces then y.value != 0 else x.value != 0)) &&
    (c.op == Div ==> y.value != 0 && x.value == y.value * TDiv(x.value, y.value) && (c.a !in traces ==> x.value != 0))
  }

  /** The hypotheses under which part 2 is exact: every traced calculation has one traced operand and can be inverted. */
  ghost predicate Solvable(m: Monkeys, rank: map<string, nat>, h: int)
    requires WellFormed(m, rank) && Root in m && Human in m
  {
    var traces := Traced(m, rank, Root, Human);
    m[Human].Number? &&
    forall u :: u in traces && u != Human && u in m && m[u].Calculation? ==>
      !(m[u].a in traces && m[u].b in traces) && (u != Root ==> Invertible(m, rank, traces, h, u))
  }

  /** One turn of the loop at a traced calculation: it moves to the traced operand with that operand's true value. */
  lemma SolveStep(m: Monkeys, rank: map<string, nat>, h: int, u: string, value: int) returns (next: string, v: int)
    requires WellFormed(m, rank) && Root in m && Human in m && Solvable(m, rank, h)
    requires u in m && u != Root && u in Traced(m, rank, Root, Human) && m[u].Calculation?
    requires Eval(WithHuman(m, rank, h), rank, u) == Some(value)
    ensures next in m && next != Root && next in Traced(m, rank, Root, Human) && rank[next] < rank[u]
    ensures Eval(WithHuman(m, rank, h), rank, next) == Some(v)
    ensures Solve(m, rank, Traced(m, rank, Root, Human), u, value) == Solve(m, rank, Traced(m, rank, Root, Human), next, v)
  {
    var traces := Traced(m, rank, Root, Human);
    var mh := WithHuman(m, rank, h);
    TracedMembers(m, rank, Root, Human, u);
    DescendsRank(m, rank, Root, u, Human);
    var c := m[u];
    TracedOperand(m, rank, u);
    assert Invertible(m, rank, traces, h, u);
    var x, y := Eval(mh, rank, c.a).value, Eval(mh, rank, c.b).value;
    if c.a in traces {
      Unaffected(m, rank, h, c.b);
      InvertLeftSolves(c.op, x, y, value);
      next, v := c.a, x;
    } else {
      assert Reaches(m, rank, c.b, Human);
      Unaffected(m, rank, h, c.a);
      InvertRightSolves(c.op, x, y, value);
      next, v := c.b, y;
    }
  }

  /** Started on a traced monkey other than `root` with its true value, the loop ends with what `humn` yells. */
  lemma {:induction false} SolveFinds(m: Monkeys, rank: map<string, nat>, h: int, u: string, value: int)
    requires WellFormed(m, rank) && Root in m && Human in m && Solvable(m, rank, h)
    requires u in m && u != Root && u in Traced(m, rank, Root, Human)
    requires Eval(WithHuman(m, rank, h), rank, u) == Some(value)
    ensures Solve(m, rank, Traced(m, rank, Root, Human), u, value) == Some(h)
    decreases rank[u]
  {
    TracedMembers(m, rank, Root, Human, u);
    if m[u].Calculation? {
      var next, v := SolveStep(m, rank, h, u, value);
      SolveFinds(m, rank, h, next, v);
    }
  }

  /**
   * Part 2 is exact: if `root`'s operands agree when `humn` yells `h`, `humn`
   * is below `root`, and the traced calculations can be inverted one at a
   * time, then part 2 answers `h`.
   */
  lemma Part2Correct(m: Monkeys, rank: map<string, nat>, h: int)
    requires WellFormed(m, rank) && Root in m && Human in m && m[Root].Calculation?
    requires Reaches(m, rank, Root, Human) && Solvable(m, rank, h)
    requires var mh := WithHuman(m, rank, h);
      Eval(mh, rank, m[Root].a).Some? && Eval(mh, rank, m[Root].a) == Eval(mh, rank, m[Root].b)
    ensures Part2Value(m, rank) == Some(h)
  {
    var traces := Traced(m, rank, Root, Human);
    var mh := WithHuman(m, rank, h);
    var a, b := m[Root].a, m[Root].b;
    TracedMembers(m, rank, Root, Human, Root);
    TracedOperand(m, rank, Root);
    var value := Eval(mh, rank, a).value;
    if a in traces {
      Unaffected(m, rank, h, b);
      TracedMembers(m, rank, Root, Human, a);
      DescendsRank(m, rank, Root, a, Human);
      SolveFinds(m, rank, h, a, value);
    } else {
      Unaffected(m, rank, h, a);
      TracedMembers(m, rank, Root, Human, b);
      DescendsRank(m, rank, Root, b, Human);
      SolveFinds(m, rank, h, b, value);
    }
  }

  // ------------------------------------------------------------ parsing

  function OpOf(word: string): Option<Op>
  {
    match word
    case "+" => Some(Add)
    case "-" => Some(Sub)
    case "*" => Some(Mul)
    case "/" => Some(Div)
    case _ => None
  }

  function OpWord(op: Op): (w: string)
    ensures OpOf(w) == Some(op)
  {
    match op
    case Add => "+"
    case Sub => "-"
    case Mul => "*"
    case Div => "/"
  }

  /**
   * One line of `parse`, split on spaces: `name:` then a number, or
   * `name: a op b`. `None` is a panic: no ':' after the name, a missing or
   * empty word, a number that does not parse, an unknown operator. Words
   * after `b` are ignored.
   */
  function ParseLine(line: string): (r: Option<(string, Monkey)>)
    ensures r.Some? ==> r.value.0 + ":" == Split(line, ' ')[0]
  {
    var words := Split(line, ' ');
    var first := words[0];
    if first == [] || first[|first| - 1] != ':' || |words| < 2 || words[1] == [] then None
    else
      var name, a := first[..|first| - 1], words[1];
      if IsDigit(a[0]) then
        match ParseInt(a)
        case None => None
        case Some(n) => Some((name, Number(n)))
      else if |words| < 4 || words[2] == [] then None
      else
        match OpOf(words[2])
        case None => None
        case Some(op) => Some((name, Calculation(a, words[3], op)))
  }

  /** The words of a line that defines `name`. */
  function Words(name: string, monkey: Monkey): seq<string>
  {
    match monkey
    case Number(n) => [name + ":", FormatInt(n)]
    case Calculation(a, b, op) => [name + ":", a, OpWord(op), b]
  }

  function FormatLine(name: string, monkey: Monkey): string
  {
    JoinWith(Words(name, monkey), ' ')
  }

  /** The names and operands a line can carry: no spaces, and an operand name does not start with a digit. */
  predicate Printable(name: string, monkey: Monkey)
  {
    ' ' !in name &&
    match monkey
    case Number(n) => n >= 0
    case Calculation(a, b, _) => a != [] && !IsDigit(a[0]) && ' ' !in a && ' ' !in b
  }

  lemma FormatLineRoundTrip(name: string, monkey: Monkey)
    requires Printable(name, monkey)
    ensures ParseLine(FormatLine(name, monkey)) == Some((name, monkey))
  {
    var words := Words(name, monkey);
    assert ' ' !in name + ":";
    if monkey.Number? {
      assert ' ' !in FormatInt(monkey.n) by {
        assert AllDigits(Decimal(monkey.n));
      }
      ParseIntFormat(monkey.n);
    }
    JoinSplit(words, ' ');
    assert (name + ":")[..|name + ":"| - 1] == name;
  }

  /** `collect` into a map: every line must parse, and a later line for the same name wins. */
  function ParseAll(lines: seq<string>): (r: Option<Monkeys>)
    ensures r.Some? <==> forall i :: 0 <= i < |lines| ==> ParseLine(lines[i]).Some?
    ensures r.Some? ==> r.value.Keys == set i | 0 <= i < |lines| :: ParseLine(lines[i]).value.0
  {
    if lines == [] then Some(map[])
    else
      var last := ParseLine(lines[|lines| - 1]);
      match ParseAll(lines[..|lines| - 1])
      case None => None
      case Some(m) =>
        match last
        case None => None
        case Some(def) => Some(m[def.0 := def.1])
  }

  /** `parse`: every line must parse; the names are those of the lines. */
  function Parse(input: string): (r: Option<Monkeys>)
    ensures r.Some? <==> forall i :: 0 <= i < |Lines(input)| ==> ParseLine(Lines(input)[i]).Some?
    ensures r.Some? ==> r.value.Keys == set i | 0 <= i < |Lines(input)| :: ParseLine(Lines(input)[i]).value.0
  {
    ParseAll(Lines(input))
  }

  /** A line that no later line overrides gives its name's entry. */
  lemma {:induction false} ParseAllLast(lines: seq<string>, j: nat)
    requires ParseAll(lines).Some? && j < |lines|
    requires forall k :: j < k < |lines| ==> ParseLine(lines[k]).value.0 != ParseLine(lines[j]).value.0
    ensures ParseAll(lines).value[ParseLine(lines[j]).value.0] == ParseLine(lines[j]).value.1
  {
    if j < |lines| - 1 {
      var front := lines[..|lines| - 1];
      assert front[j] == lines[j];
      assert forall k :: j < k < |front| ==> front[k] == lines[k];
      ParseAllLast(front, j);
    }
  }
}
