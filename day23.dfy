/**
 * Day 23, Unstable Diffusion: elves on an unbounded grid spread out. In a
 * round every elf with a neighbour proposes a step to the first of north,
 * south, west and east (the list starting at the round's direction) whose
 * three lookout cells are empty; steps proposed by exactly one elf are
 * taken, the others are blocked. Part one runs ten rounds and counts the
 * empty cells of the elves' bounding rectangle; part two counts rounds
 * until one in which nobody moves.
 *
 * The source builds the proposals by walking a hash set and then applies
 * them by walking a hash map; neither order is known, so the model walks
 * both in an arbitrary order and proves the round's result is the same
 * order-free set `Round(elves, dir)`.
 */
module Day23 {
  import opened Wrappers
  import opened Text

  /** A cell as (y, x); y grows southwards. */
  type Coord = (int, int)

  function Add(p: Coord, o: Coord): Coord
  {
    (p.0 + o.0, p.1 + o.1)
  }

  /** The eight surrounding cells, in the source's order. */
  function Neighbours8(p: Coord): seq<Coord>
  {
    var (y, x) := p;
    [(y, x - 1), (y, x + 1), (y - 1, x - 1), (y - 1, x), (y - 1, x + 1), (y + 1, x - 1), (y + 1, x), (y + 1, x + 1)]
  }

  /** The three cells looked at for a direction, the step itself first: 0 north, 1 south, 2 west, 3 east. */
  function Lookouts(d: nat): (r: seq<Coord>)
    requires d < 4
    ensures |r| == 3 && Abs(r[0].0) + Abs(r[0].1) == 1
  {
    match d
    case 0 => [(-1, 0), (-1, -1), (-1, 1)]
    case 1 => [(1, 0), (1, -1), (1, 1)]
    case 2 => [(0, -1), (-1, -1), (1, -1)]
    case 3 => [(0, 1), (-1, 1), (1, 1)]
  }

  /** Some neighbour is an elf, so the elf at `p` proposes at all. */
  predicate Crowded(elves: set<Coord>, p: Coord)
  {
    exists i :: 0 <= i < 8 && Neighbours8(p)[i] in elves
  }

  /** All three lookout cells of direction `d` are empty. */
  predicate Clear(elves: set<Coord>, p: Coord, d: nat)
    requires d < 4
  {
    forall i :: 0 <= i < 3 ==> Add(p, Lookouts(d)[i]) !in elves
  }

  /** The direction tried `offset`-th in a round starting at `dir`. */
  function Turn(dir: nat, offset: nat): (d: nat)
    ensures d < 4
  {
    (dir + offset) % 4
  }

  /** The first clear direction among the tries `offset`, ..., 3; its step. */
  function FirstClear(elves: set<Coord>, p: Coord, dir: nat, offset: nat): Option<Coord>
    requires offset <= 4
    decreases 4 - offset
  {
    if offset == 4 then None
    else if Clear(elves, p, Turn(dir, offset)) then Some(Add(p, Lookouts(Turn(dir, offset))[0]))
    else FirstClear(elves, p, dir, offset + 1)
  }

  /** There is no step exactly when no try from `offset` on is clear. */
  lemma {:induction false} FirstClearNone(elves: set<Coord>, p: Coord, dir: nat, offset: nat)
    requires offset <= 4
    ensures FirstClear(elves, p, dir, offset).None? <==> forall k :: offset <= k < 4 ==> !Clear(elves, p, Turn(dir, k))
    decreases 4 - offset
  {
    if offset < 4 && !Clear(elves, p, Turn(dir, offset)) {
      FirstClearNone(elves, p, dir, offset + 1);
    }
  }

  /** A step is that of the first clear try from `offset` on. */
  lemma {:induction false} FirstClearSome(elves: set<Coord>, p: Coord, dir: nat, offset: nat)
    requires offset <= 4
    ensures var r := FirstClear(elves, p, dir, offset);
      r.Some? ==> exists k :: offset <= k < 4 && Clear(elves, p, Turn(dir, k)) && r.value == Add(p, Lookouts(Turn(dir, k))[0])
                              && forall j :: offset <= j < k ==> !Clear(elves, p, Turn(dir, j))
    decreases 4 - offset
  {
    if offset < 4 {
      if Clear(elves, p, Turn(dir, offset)) {
        assert FirstClear(elves, p, dir, offset) == Some(Add(p, Lookouts(Turn(dir, offset))[0]));
      } else {
        FirstClearSome(elves, p, dir, offset + 1);
      }
    }
  }

  /**
   * The proposal of the elf at `p`: none when it has no neighbour or no
   * clear direction, otherwise one step in the first clear direction.
   */
  function Propose(elves: set<Coord>, p: Coord, dir: nat): Option<Coord>
  {
    if !Crowded(elves, p) then None else FirstClear(elves, p, dir, 0)
  }

  /** Only a crowded elf proposes, and it proposes an empty cell next door. */
  lemma ProposeFree(elves: set<Coord>, p: Coord, dir: nat)
    ensures var r := Propose(elves, p, dir);
      r.Some? ==> Crowded(elves, p) && r.value !in elves && Abs(r.value.0 - p.0) + Abs(r.value.1 - p.1) == 1
  {
    StepFree(elves, p, dir);
  }

  /** The step into the first clear direction leads to an empty cell next door. */
  lemma StepFree(elves: set<Coord>, p: Coord, dir: nat)
    ensures var r := FirstClear(elves, p, dir, 0);
      r.Some? ==> r.value !in elves && Abs(r.value.0 - p.0) + Abs(r.value.1 - p.1) == 1
  {
    var r := FirstClear(elves, p, dir, 0);
    FirstClearSome(elves, p, dir, 0);
    if r.Some? {
      var k :| 0 <= k < 4 && Clear(elves, p, Turn(dir, k)) && r.value == Add(p, Lookouts(Turn(dir, k))[0])
               && forall j :: 0 <= j < k ==> !Clear(elves, p, Turn(dir, j));
      ClearStep(elves, p, Turn(dir, k));
    }
  }

  /** The step into a clear direction is free and next door. */
  lemma ClearStep(elves: set<Coord>, p: Coord, d: nat)
    requires d < 4 && Clear(elves, p, d)
    ensures var t := Add(p, Lookouts(d)[0]); t !in elves && Abs(t.0 - p.0) + Abs(t.1 - p.1) == 1
  {
    assert Add(p, Lookouts(d)[0]) !in elves;
  }

  // ------------------------------------------------------------ the round

  /** Every proposal of the round, by proposing elf. */
  ghost function Wants(elves: set<Coord>, dir: nat): (w: map<Coord, Coord>)
    ensures w.Keys <= elves && w.Values !! elves
  {
    var w := map e | e in elves && Propose(elves, e, dir).Some? :: Propose(elves, e, dir).value;
    forall t | t in w.Values
      ensures t !in elves
    {
      var e :| e in w && w[e] == t;
      ProposeFree(elves, e, dir);
    }
    w
  }

  /** No other elf proposes what `e` proposes. */
  ghost predicate Sole(w: map<Coord, Coord>, e: Coord)
    requires e in w
  {
    forall o :: o in w && o != e ==> w[o] != w[e]
  }

  /** The elves whose proposal nobody else shares; exactly these move. */
  ghost function MoversOf(w: map<Coord, Coord>): set<Coord>
  {
    set e | e in w && Sole(w, e)
  }

  /** Each mover and the cell it moves to. */
  ghost function StepsOf(w: map<Coord, Coord>): (s: map<Coord, Coord>)
    ensures s.Keys == MoversOf(w) && s.Values <= w.Values
  {
    map e | e in MoversOf(w) :: w[e]
  }

  ghost function Movers(elves: set<Coord>, dir: nat): set<Coord>
  {
    MoversOf(Wants(elves, dir))
  }

  /** The elves after one round: the movers taken out and put at their targets. */
  ghost function Round(elves: set<Coord>, dir: nat): set<Coord>
  {
    var w := Wants(elves, dir);
    (elves - MoversOf(w)) + StepsOf(w).Values
  }

  ghost predicate Injective(m: map<Coord, Coord>)
  {
    forall a, b :: a in m && b in m && a != b ==> m[a] != m[b]
  }

  /** Distinct movers go to distinct cells. */
  lemma StepsInjective(w: map<Coord, Coord>)
    ensures Injective(StepsOf(w))
  {
  }

  /** An injective map has as many values as keys. */
  lemma {:induction false} InjectiveValues(m: map<Coord, Coord>)
    requires Injective(m)
    ensures |m.Values| == |m.Keys|
    decreases |m.Keys|
  {
    if m.Keys != {} {
      var k :| k in m.Keys;
      var m' := m - {k};
      assert m'.Keys == m.Keys - {k};
      forall v | v in m.Values - {m[k]}
        ensures v in m'.Values
      {
        var j :| j in m && m[j] == v;
        assert j != k && j in m';
        assert m'[j] == v;
      }
      assert m'.Values == m.Values - {m[k]};
      InjectiveValues(m');
    }
  }

  /** A round keeps the number of elves. */
  lemma RoundKeepsCount(elves: set<Coord>, dir: nat)
    ensures |Round(elves, dir)| == |elves|
  {
    var w := Wants(elves, dir);
    var s := StepsOf(w);
    StepsInjective(w);
    InjectiveValues(s);
    assert (elves - s.Keys) !! s.Values;
    assert |elves - s.Keys| == |elves| - |s.Keys|;
  }

  /** Nobody moves exactly when the round changes nothing: the fixpoint of part two. */
  lemma StillIff(elves: set<Coord>, dir: nat)
    ensures Movers(elves, dir) == {} <==> Round(elves, dir) == elves
  {
    var w := Wants(elves, dir);
    var s := StepsOf(w);
    if Movers(elves, dir) != {} {
      var e :| e in Movers(elves, dir);
      assert s[e] in Round(elves, dir) && s[e] !in elves;
    } else {
      assert s.Values == {};
    }
  }

  /** A cell proposed by two elves or more stays empty. */
  lemma BlockedStaysEmpty(elves: set<Coord>, dir: nat, t: Coord, a: Coord, b: Coord)
    requires a in elves && b in elves && a != b
    requires Propose(elves, a, dir) == Some(t) && Propose(elves, b, dir) == Some(t)
    ensures t !in Round(elves, dir)
  {
    var w := Wants(elves, dir);
    assert a in w && b in w && w[a] == t && w[b] == t;
    assert !Sole(w, a) && !Sole(w, b);
    assert t !in StepsOf(w).Values;
  }

  /** An elf with no neighbour stays where it is. */
  lemma LonelyStays(elves: set<Coord>, dir: nat, e: Coord)
    requires e in elves && !Crowded(elves, e)
    ensures e in Round(elves, dir)
  {
  }
  /** Rounds `0 .. k-1` from `dir`, each starting one direction further. */
  ghost function Iterate(elves: set<Coord>, dir: nat, k: nat): set<Coord>
  {
    if k == 0 then elves else Round(Iterate(elves, dir, k - 1), Turn(dir, k - 1))
  }

  /** Stopping after `a` rounds and resuming at the direction reached is the same as running on. */
  lemma {:induction false} IterateSplit(elves: set<Coord>, dir: nat, a: nat, b: nat)
    ensures Iterate(Iterate(elves, dir, a), Turn(dir, a), b) == Iterate(elves, dir, a + b)
  {
    if b > 0 {
      var x, t := Iterate(elves, dir, a), Turn(dir, a);
      IterateSplit(elves, dir, a, b - 1);
      TurnTwice(dir, a, b - 1);
      var before := Iterate(x, t, b - 1);
      var d := Turn(t, b - 1);
      assert d == Turn(dir, a + b - 1);
      assert before == Iterate(elves, dir, a + b - 1);
      assert Iterate(x, t, b) == Round(before, d);
      assert Iterate(elves, dir, a + b) == Round(before, d);
    }
  }

  /** `(dir + 1) % 4`, the direction of the next round. */
  function NextDir(d: nat, ghost start: nat, ghost k: nat): (r: nat)
    requires d == Turn(start, k)
    ensures r == Turn(start, k + 1)
  {
    TurnTwice(start, k, 1);
    (d + 1) % 4
  }

  lemma TurnTwice(dir: nat, a: nat, b: nat)
    ensures Turn(Turn(dir, a), b) == Turn(dir, a + b)
  {
    var q := (dir + a) / 4;
    assert dir + a == 4 * q + Turn(dir, a);
    assert dir + a + b == 4 * q + (Turn(dir, a) + b);
  }

  /** One more round. */
  lemma IterateNext(elves: set<Coord>, dir: nat, k: nat)
    ensures Iterate(elves, dir, k + 1) == Round(Iterate(elves, dir, k), Turn(dir, k))
  {
  }

  /** Someone moves in round `j` (counted from 0). */
  ghost predicate Moved(elves: set<Coord>, dir: nat, j: nat)
  {
    Movers(Iterate(elves, dir, j), Turn(dir, j)) != {}
  }

  /** Round `k` moves someone exactly when its count of moves is not zero. */
  lemma MovedCount(elves: set<Coord>, dir: nat, k: nat, now: set<Coord>, d: nat, moves: nat)
    requires now == Iterate(elves, dir, k) && d == Turn(dir, k) && moves == |Movers(now, d)|
    ensures Moved(elves, dir, k) <==> moves != 0
  {
  }

  /** Round `k` is the first in which nobody moves. */
  ghost predicate FirstStill(elves: set<Coord>, dir: nat, k: nat)
  {
    AllMoved(elves, dir, k) && !Moved(elves, dir, k)
  }

  /** Someone moves in each of rounds `0 .. k-1`. */
  ghost predicate AllMoved(elves: set<Coord>, dir: nat, k: nat)
  {
    forall j :: 0 <= j < k ==> Moved(elves, dir, j)
  }

  /** One more round in which someone moves extends the run. */
  lemma AllMovedNext(elves: set<Coord>, dir: nat, k: nat)
    requires AllMoved(elves, dir, k) && Moved(elves, dir, k)
    ensures AllMoved(elves, dir, k + 1)
  {
  }

  // ------------------------------------------------------ one round, imperatively

  /** An entry of the proposal table. */
  datatype Proposal = Blocked | ProposedBy(from: Coord)

  /** The table after the elf at `pos` makes proposal `o`: a second proposal of a cell blocks it. */
  function Enter(props: map<Coord, Proposal>, o: Option<Coord>, pos: Coord): map<Coord, Proposal>
  {
    match o
    case None => props
    case Some(t) => if t in props then props[t := Blocked] else props[t := ProposedBy(pos)]
  }

  /**
   * `props` records the proposals of the elves in `done`: a cell is in
   * it exactly when one of them proposes it, `ProposedBy(f)` when `f` is
   * the only one, `Blocked` when two or more do.
   */
  ghost predicate Tallied(w: map<Coord, Coord>, done: set<Coord>, props: map<Coord, Proposal>)
  {
    (forall t :: t in props <==> exists e :: e in done && e in w && w[e] == t)
    && (forall t :: t in props && props[t].ProposedBy? ==>
          props[t].from in done && props[t].from in w && w[props[t].from] == t
          && forall o :: o in done && o in w && o != props[t].from ==> w[o] != t)
    && (forall t :: t in props && props[t].Blocked? ==>
          exists a, b :: a in done && b in done && a in w && b in w && a != b && w[a] == t && w[b] == t)
  }

  /** Entering one more elf's proposal keeps the table faithful. */
  lemma TallyStep(w: map<Coord, Coord>, done: set<Coord>, props: map<Coord, Proposal>, pos: Coord)
    requires Tallied(w, done, props) && pos !in done
    ensures Tallied(w, done + {pos}, Enter(props, if pos in w then Some(w[pos]) else None, pos))
  {
    if pos in w {
      var t := w[pos];
      var props' := Enter(props, Some(t), pos);
      if t in props {
        var e :| e in done && e in w && w[e] == t;
        assert e != pos;
      }
      assert Tallied(w, done + {pos}, props');
    }
  }

  lemma CollectStep(elves: set<Coord>, dir: nat, rest: set<Coord>, props: map<Coord, Proposal>, pos: Coord)
    requires rest <= elves && pos in rest && Tallied(Wants(elves, dir), elves - rest, props)
    ensures Tallied(Wants(elves, dir), elves - (rest - {pos}), Enter(props, Propose(elves, pos, dir), pos))
  {
    var w := Wants(elves, dir);
    WantsAt(elves, dir, pos);
    var done, done' := elves - rest, elves - (rest - {pos});
    assert done' == done + {pos};
    TallyStep(w, done, props, pos);
  }

  lemma WantsAt(elves: set<Coord>, dir: nat, pos: Coord)
    requires pos in elves
    ensures Propose(elves, pos, dir) == if pos in Wants(elves, dir) then Some(Wants(elves, dir)[pos]) else None
  {
  }

  /** The moves a finished table prescribes: target to the elf moving there. */
  ghost function Moves(props: map<Coord, Proposal>): map<Coord, Coord>
  {
    map t | t in props && props[t].ProposedBy? :: props[t].from
  }

  /** A table of everyone's proposals prescribes exactly the round's moves. */
  lemma TallyMoves(w: map<Coord, Coord>, done: set<Coord>, props: map<Coord, Proposal>)
    requires Tallied(w, done, props) && w.Keys <= done
    ensures Moves(props).Values == MoversOf(w) && Moves(props).Keys == StepsOf(w).Values
    ensures |Moves(props).Keys| == |MoversOf(w)|
  {
    TallyMovers(w, done, props);
    TallySteps(w, done, props);
    InjectiveValues(Moves(props));
  }

  /** The movers of a full table are the elves with a proposal nobody else shares. */
  lemma TallyMovers(w: map<Coord, Coord>, done: set<Coord>, props: map<Coord, Proposal>)
    requires Tallied(w, done, props) && w.Keys <= done
    ensures Moves(props).Values == MoversOf(w)
  {
    var m := Moves(props);
    forall e | e in MoversOf(w)
      ensures e in m.Values
    {
      var t := w[e];
      assert t in props && props[t].ProposedBy?;
      assert m[t] == e;
    }
    forall e | e in m.Values
      ensures e in MoversOf(w)
    {
      var t :| t in m && m[t] == e;
      assert Sole(w, e);
    }
  }

  /** The targets of a full table are the cells the movers step to, each taken by one elf. */
  lemma TallySteps(w: map<Coord, Coord>, done: set<Coord>, props: map<Coord, Proposal>)
    requires Tallied(w, done, props) && w.Keys <= done
    requires Moves(props).Values == MoversOf(w)
    ensures Moves(props).Keys == StepsOf(w).Values && Injective(Moves(props))
  {
    var m := Moves(props);
    forall t | t in StepsOf(w).Values
      ensures t in m.Keys
    {
      var e :| e in StepsOf(w) && StepsOf(w)[e] == t;
      assert e in m.Values;
      var t' :| t' in m && m[t'] == e;
      assert t' == w[e];
    }
    forall t | t in m.Keys
      ensures t in StepsOf(w).Values
    {
      assert m[t] in MoversOf(w);
      assert StepsOf(w)[m[t]] == t;
    }
    assert Injective(m);
  }

  /** The first loop of `do_round` for one elf: its proposal, when it makes one, entered in the table. */
  method Offer(elves: set<Coord>, dir: nat, pos: Coord, props: map<Coord, Proposal>) returns (props': map<Coord, Proposal>)
    requires dir < 4
    ensures props' == Enter(props, Propose(elves, pos, dir), pos)
  {
    if !Crowded(elves, pos) {
      return props;
    }
    for offset := 0 to 4
      invariant FirstClear(elves, pos, dir, 0) == FirstClear(elves, pos, dir, offset)
    {
      var d := Turn(dir, offset);
      if Clear(elves, pos, d) {
        var proposed := Add(pos, Lookouts(d)[0]);
        if proposed in props {
          props' := props[proposed := Blocked];
        } else {
          props' := props[proposed := ProposedBy(pos)];
        }
        return;
      }
    }
    props' := props;
  }

  /** The proposal table of a round, elves taken in an arbitrary order. */
  method Collect(elves: set<Coord>, dir: nat) returns (props: map<Coord, Proposal>)
    requires dir < 4
    ensures Tallied(Wants(elves, dir), elves, props)
  {
    ghost var w := Wants(elves, dir);
    props := map[];
    var rest := elves;
    while rest != {}
      invariant rest <= elves && Tallied(w, elves - rest, props)
      decreases |rest|
    {
      var pos :| pos in rest;
      CollectStep(elves, dir, rest, props, pos);
      props := Offer(elves, dir, pos, props);
      rest := rest - {pos};
    }
  }

  /**
   * The second loop of `do_round`: every unblocked entry moves its elf,
   * entries taken in an arbitrary order; the number of moves made.
   */
  method Apply(elves: set<Coord>, props: map<Coord, Proposal>) returns (elves': set<Coord>, moves: nat)
    requires forall t :: t in props ==> t !in elves
    requires forall t :: t in props && props[t].ProposedBy? ==> props[t].from in elves
    ensures elves' == (elves - Moves(props).Values) + Moves(props).Keys
    ensures moves == |Moves(props).Keys|
  {
    elves', moves := elves, 0;
    var todo := props.Keys;
    ghost var made: map<Coord, Coord> := map[];
    while todo != {}
      invariant todo <= props.Keys
      invariant Made(props, todo, made) && made.Keys !! elves
      invariant elves' == (elves - made.Values) + made.Keys
      invariant moves == |made.Keys|
      decreases |todo|
    {
      var to :| to in todo;
      MadeStep(props, todo, made, to);
      if props[to].ProposedBy? {
        var from := props[to].from;
        MoveOne(elves, elves', made, to, from);
        made := made[to := from];
        elves' := (elves' - {from}) + {to};
        moves := moves + 1;
      }
      todo := todo - {to};
    }
    MadeAll(props, made);
  }

  /** `made` holds the moves of exactly the unblocked entries not in `todo`. */
  ghost predicate Made(props: map<Coord, Proposal>, todo: set<Coord>, made: map<Coord, Coord>)
  {
    (forall t :: t in made <==> t in props && t !in todo && props[t].ProposedBy?)
    && forall t :: t in made ==> t in props && made[t] == props[t].from
  }

  lemma MadeStep(props: map<Coord, Proposal>, todo: set<Coord>, made: map<Coord, Coord>, to: Coord)
    requires Made(props, todo, made) && to in todo && to in props
    ensures to !in made
    ensures props[to].ProposedBy? ==> Made(props, todo - {to}, made[to := props[to].from])
    ensures props[to].Blocked? ==> Made(props, todo - {to}, made)
  {
  }

  lemma MadeAll(props: map<Coord, Proposal>, made: map<Coord, Coord>)
    requires Made(props, {}, made)
    ensures made == Moves(props)
  {
  }

  /** One more move keeps the elves equal to the moves made so far applied to the old elves. */
  lemma MoveOne(elves: set<Coord>, now: set<Coord>, made: map<Coord, Coord>, to: Coord, from: Coord)
    requires now == (elves - made.Values) + made.Keys
    requires made.Keys !! elves && to !in made && to !in elves && from in elves
    ensures (now - {from}) + {to} == (elves - made[to := from].Values) + made[to := from].Keys
    ensures |made[to := from].Keys| == |made.Keys| + 1
  {
    FreshKey(made, to, from);
    MoveSets(elves, now, made.Keys, made.Values, to, from);
  }

  /** The set arithmetic of one move: `from` leaves, `to` arrives. */
  lemma MoveSets(elves: set<Coord>, now: set<Coord>, keys: set<Coord>, values: set<Coord>, to: Coord, from: Coord)
    requires now == (elves - values) + keys
    requires keys !! elves && to !in keys && to !in elves && from in elves
    ensures (now - {from}) + {to} == (elves - (values + {from})) + (keys + {to})
    ensures |keys + {to}| == |keys| + 1
  {
  }

  /** Adding a fresh key adds one key and its value. */
  lemma FreshKey(m: map<Coord, Coord>, k: Coord, v: Coord)
    requires k !in m
    ensures m[k := v].Keys == m.Keys + {k} && m[k := v].Values == m.Values + {v}
  {
    var m' := m[k := v];
    forall u | u in m.Values
      ensures u in m'.Values
    {
      var j :| j in m && m[j] == u;
      assert m'[j] == u;
    }
    assert m'[k] == v;
  }

  /** `do_round`: the elves after the round, and how many moved. */
  method DoRound(elves: set<Coord>, dir: nat) returns (elves': set<Coord>, moves: nat)
    requires dir < 4
    ensures elves' == Round(elves, dir)
    ensures moves == |Movers(elves, dir)|
  {
    var props := Collect(elves, dir);
    ghost var w := Wants(elves, dir);
    TallyMoves(w, elves, props);
    elves', moves := Apply(elves, props);
  }

  /** `do_rounds`: `n` rounds, the direction starting at north and turning once per round. */
  method DoRounds(n: nat, elves: set<Coord>) returns (elves': set<Coord>)
    ensures elves' == Iterate(elves, 0, n)
  {
    elves' := elves;
    var dir := 0;
    for i := 0 to n
      invariant dir == Turn(0, i)
      invariant elves' == Iterate(elves, 0, i)
    {
      var moves;
      elves', moves := DoRound(elves', dir);
      IterateNext(elves, 0, i);
      dir := NextDir(dir, 0, i);
    }
  }

  // ------------------------------------------------------ the bounding rectangle

  datatype Bounds = Bounds(minX: int, maxX: int, minY: int, maxY: int)

  predicate Inside(b: Bounds, p: Coord)
  {
    b.minY <= p.0 <= b.maxY && b.minX <= p.1 <= b.maxX
  }

  /** `b` is the smallest rectangle holding every elf: it holds them all and an elf lies on each side. */
  ghost predicate Tight(b: Bounds, elves: set<Coord>)
  {
    (forall p :: p in elves ==> Inside(b, p))
    && (exists p :: p in elves && p.1 == b.minX) && (exists p :: p in elves && p.1 == b.maxX)
    && (exists p :: p in elves && p.0 == b.minY) && (exists p :: p in elves && p.0 == b.maxY)
  }

  /** There is only one smallest rectangle. */
  lemma TightUnique(b: Bounds, c: Bounds, elves: set<Coord>)
    requires Tight(b, elves) && Tight(c, elves)
    ensures b == c
  {
    var p :| p in elves && p.1 == b.minX;
    var q :| q in elves && q.1 == c.minX;
    assert Inside(b, q) && Inside(c, p);
    var p1 :| p1 in elves && p1.1 == b.maxX;
    var q1 :| q1 in elves && q1.1 == c.maxX;
    assert Inside(b, q1) && Inside(c, p1);
    var p2 :| p2 in elves && p2.0 == b.minY;
    var q2 :| q2 in elves && q2.0 == c.minY;
    assert Inside(b, q2) && Inside(c, p2);
    var p3 :| p3 in elves && p3.0 == b.maxY;
    var q3 :| q3 in elves && q3.0 == c.maxY;
    assert Inside(b, q3) && Inside(c, p3);
  }

  /** `get_min_max`: the smallest rectangle, None (the source's panic) when there are no elves. */
  method MinMax(elves: set<Coord>) returns (r: Option<Bounds>)
    ensures r.None? <==> elves == {}
    ensures r.Some? ==> Tight(r.value, elves)
  {
    if elves == {} {
      return None;
    }
    var first :| first in elves;
    var b := Bounds(first.1, first.1, first.0, first.0);
    var rest := elves - {first};
    while rest != {}
      invariant rest <= elves && first !in rest
      invariant Tight(b, elves - rest)
      decreases |rest|
    {
      var p :| p in rest;
      ghost var seen := elves - rest;
      b := Bounds(Min(b.minX, p.1), Max(b.maxX, p.1), Min(b.minY, p.0), Max(b.maxY, p.0));
      assert elves - (rest - {p}) == seen + {p};
      rest := rest - {p};
    }
    assert elves - rest == elves;
    r := Some(b);
  }

  /** The cells of rows `minY ..< y` of the rectangle, built row by row. */
  ghost function Rows(b: Bounds, y: int): set<Coord>
    decreases y - b.minY
  {
    if y <= b.minY then {} else Rows(b, y - 1) + RowPart(b, y - 1, b.maxX + 1)
  }

  /** The cells `minX ..< x` of row `y`, built cell by cell. */
  ghost function RowPart(b: Bounds, y: int, x: int): set<Coord>
    decreases x - b.minX
  {
    if x <= b.minX then {} else RowPart(b, y, x - 1) + {(y, x - 1)}
  }

  /** The width times height of the rectangle, when it is not empty. */
  function Area(b: Bounds): int
  {
    (b.maxX - b.minX + 1) * (b.maxY + 1 - b.minY)
  }

  lemma {:induction false} RowPartHolds(b: Bounds, y: int, x: int, p: Coord)
    ensures p in RowPart(b, y, x) <==> p.0 == y && b.minX <= p.1 < x
    decreases x - b.minX
  {
    if x > b.minX {
      RowPartHolds(b, y, x - 1, p);
    }
  }

  lemma {:induction false} RowsHold(b: Bounds, y: int, p: Coord)
    ensures p in Rows(b, y) <==> b.minY <= p.0 < y && b.minX <= p.1 <= b.maxX
    decreases y - b.minY
  {
    if y > b.minY {
      RowsHold(b, y - 1, p);
      RowPartHolds(b, y - 1, b.maxX + 1, p);
    }
  }

  lemma {:induction false} RowPartSize(b: Bounds, y: int, x: int)
    requires b.minX <= x
    ensures |RowPart(b, y, x)| == x - b.minX
    decreases x - b.minX
  {
    if x > b.minX {
      RowPartSize(b, y, x - 1);
      RowPartHolds(b, y, x - 1, (y, x - 1));
    }
  }

  /** Row `y` shares no cell with the rows above it. */
  lemma RowsApart(b: Bounds, y: int)
    ensures Rows(b, y) !! RowPart(b, y, b.maxX + 1)
  {
    forall p | p in RowPart(b, y, b.maxX + 1)
      ensures p !in Rows(b, y)
    {
      RowPartHolds(b, y, b.maxX + 1, p);
      RowsHold(b, y, p);
    }
  }

  lemma DisjointSize(a: set<Coord>, c: set<Coord>)
    requires a !! c
    ensures |a + c| == |a| + |c|
  {
  }

  lemma MulStep(w: int, n: int, m: int)
    requires m == n + 1
    ensures w * m == w * n + w
  {
  }

  lemma {:induction false} RowsSize(b: Bounds, y: int)
    requires b.minX <= b.maxX + 1 && b.minY <= y
    ensures |Rows(b, y)| == (b.maxX - b.minX + 1) * (y - b.minY)
    decreases y - b.minY
  {
    if y > b.minY {
      RowsSize(b, y - 1);
      RowPartSize(b, y - 1, b.maxX + 1);
      RowsApart(b, y - 1);
      DisjointSize(Rows(b, y - 1), RowPart(b, y - 1, b.maxX + 1));
      assert |Rows(b, y)| == |Rows(b, y - 1)| + (b.maxX - b.minX + 1);
      MulStep(b.maxX - b.minX + 1, y - 1 - b.minY, y - b.minY);
    }
  }

  /**
   * The empty cells of a tight rectangle are its area less the elves:
   * part one's answer needs no scan of the rectangle.
   */
  lemma EmptyCells(b: Bounds, elves: set<Coord>)
    requires Tight(b, elves)
    ensures |Rows(b, b.maxY + 1) - elves| == Area(b) - |elves|
  {
    var p :| p in elves && p.1 == b.minX;
    assert Inside(b, p);
    RowsSize(b, b.maxY + 1);
    InsideRows(b, elves);
    SubsetLeft(Rows(b, b.maxY + 1), elves);
  }

  lemma InsideRows(b: Bounds, elves: set<Coord>)
    requires forall p :: p in elves ==> Inside(b, p)
    ensures elves <= Rows(b, b.maxY + 1)
  {
    forall q | q in elves
      ensures q in Rows(b, b.maxY + 1)
    {
      RowsHold(b, b.maxY + 1, q);
    }
  }

  /** The number of cells of rows `minY ..< y` of the rectangle holding no elf. */
  ghost function EmptyRows(b: Bounds, y: int, elves: set<Coord>): nat
    decreases y - b.minY
  {
    if y <= b.minY then 0 else EmptyRows(b, y - 1, elves) + EmptyRow(b, y - 1, b.maxX + 1, elves)
  }

  /** The number of cells `minX ..< x` of row `y` holding no elf. */
  ghost function EmptyRow(b: Bounds, y: int, x: int, elves: set<Coord>): nat
    decreases x - b.minX
  {
    if x <= b.minX then 0 else EmptyRow(b, y, x - 1, elves) + if (y, x - 1) in elves then 0 else 1
  }

  /** Counting row by row finds the cells of the rectangle that hold no elf. */
  lemma {:induction false} EmptyRowsCount(b: Bounds, y: int, elves: set<Coord>)
    ensures EmptyRows(b, y, elves) == |Rows(b, y) - elves|
    decreases y - b.minY
  {
    if y > b.minY {
      EmptyRowsCount(b, y - 1, elves);
      EmptyRowCount(b, y - 1, b.maxX + 1, elves);
      RowsStep(b, y - 1, elves);
    }
  }

  lemma {:induction false} EmptyRowCount(b: Bounds, y: int, x: int, elves: set<Coord>)
    ensures EmptyRow(b, y, x, elves) == |RowPart(b, y, x) - elves|
    decreases x - b.minX
  {
    if x > b.minX {
      EmptyRowCount(b, y, x - 1, elves);
      RowPartStep(b, y, x - 1, elves);
    }
  }

  lemma SubsetLeft(all: set<Coord>, some: set<Coord>)
    requires some <= all
    ensures |all - some| == |all| - |some|
  {
    assert all == (all - some) + some;
  }

  /** The sum of part one: the cells of the rectangle holding no elf, row by row. */
  method CountEmpty(b: Bounds, elves: set<Coord>) returns (count: nat)
    ensures count == |Rows(b, b.maxY + 1) - elves|
  {
    count := 0;
    var y := b.minY;
    while y <= b.maxY
      invariant b.minY <= y && (y <= b.maxY + 1 || y == b.minY)
      invariant count == EmptyRows(b, y, elves)
      decreases b.maxY - y
    {
      var row := CountRow(b, y, elves);
      count := count + row;
      y := y + 1;
    }
    EmptyRowsCount(b, y, elves);
    RowsPast(b, y);
  }

  /** The inner sum of part one: the cells of row `y` of the rectangle holding no elf. */
  method CountRow(b: Bounds, y: int, elves: set<Coord>) returns (count: nat)
    ensures count == EmptyRow(b, y, b.maxX + 1, elves)
  {
    count := 0;
    var x := b.minX;
    while x <= b.maxX
      invariant b.minX <= x && (x <= b.maxX + 1 || x == b.minX)
      invariant count == EmptyRow(b, y, x, elves)
      decreases b.maxX - x
    {
      if (y, x) !in elves {
        count := count + 1;
      }
      x := x + 1;
    }
    RowPartPast(b, y, x, elves);
  }

  lemma RowPartPast(b: Bounds, y: int, x: int, elves: set<Coord>)
    requires b.minX <= x && (x == b.maxX + 1 || (x == b.minX && b.maxX < b.minX))
    ensures EmptyRow(b, y, x, elves) == EmptyRow(b, y, b.maxX + 1, elves)
  {
  }

  lemma RowPartStep(b: Bounds, y: int, x: int, elves: set<Coord>)
    requires b.minX <= x
    ensures |RowPart(b, y, x + 1) - elves| == |RowPart(b, y, x) - elves| + if (y, x) in elves then 0 else 1
  {
    RowPartHolds(b, y, x, (y, x));
    if (y, x) in elves {
      assert RowPart(b, y, x + 1) - elves == RowPart(b, y, x) - elves;
    } else {
      assert RowPart(b, y, x + 1) - elves == (RowPart(b, y, x) - elves) + {(y, x)};
    }
  }

  lemma RowsPast(b: Bounds, y: int)
    requires b.minY <= y && (y == b.maxY + 1 || (y == b.minY && b.maxY < b.minY))
    ensures Rows(b, y) == Rows(b, b.maxY + 1)
  {
  }

  lemma RowsStep(b: Bounds, y: int, elves: set<Coord>)
    requires b.minY <= y
    ensures |Rows(b, y + 1) - elves| == |Rows(b, y) - elves| + |RowPart(b, y, b.maxX + 1) - elves|
  {
    forall p | p in RowPart(b, y, b.maxX + 1)
      ensures p !in Rows(b, y)
    {
      RowPartHolds(b, y, b.maxX + 1, p);
      RowsHold(b, y, p);
    }
    assert Rows(b, y + 1) - elves == (Rows(b, y) - elves) + (RowPart(b, y, b.maxX + 1) - elves);
    assert (Rows(b, y) - elves) !! (RowPart(b, y, b.maxX + 1) - elves);
  }

  // ------------------------------------------------------ the puzzle

  /** The elves of a scan: `#` at column x of line y is an elf at (y, x). */
  function ParseElves(input: string): (elves: set<Coord>)
    ensures forall y, x :: (y, x) in elves ==> 0 <= y < |Lines(input)| && 0 <= x < |Lines(input)[y]|
  {
    var lines := Lines(input);
    set y, x | 0 <= y < |lines| && 0 <= x < |lines[y]| && lines[y][x] == '#' :: (y, x)
  }

  /** The empty cells of the smallest rectangle holding the elves; None (a panic) when there are none. */
  method EmptyGround(elves: set<Coord>) returns (r: Option<nat>)
    ensures r.None? <==> elves == {}
    ensures r.Some? ==> exists b :: Tight(b, elves) && r.value == Area(b) - |elves|
  {
    var bounds := MinMax(elves);
    if bounds.None? {
      return None;
    }
    var count := CountEmpty(bounds.value, elves);
    EmptyCells(bounds.value, elves);
    r := Some(count);
  }

  /** Part one's number of rounds. */
  const PartOneRounds: nat := 10

  /** `Day23`: the elves, and whether part one has already run ten rounds on them. */
  class Grove {
    var elves: set<Coord>
    var resumed: bool

    constructor ()
      ensures elves == {} && !resumed
    {
      elves := {};
      resumed := false;
    }

    method Parse(input: string)
      modifies this
      ensures elves == ParseElves(input) && resumed == old(resumed)
    {
      elves := ParseElves(input);
    }

    /** Ten rounds, then the empty cells of the smallest rectangle; None where there are no elves. */
    method Part1() returns (r: Option<nat>)
      modifies this
      ensures elves == Iterate(old(elves), 0, PartOneRounds) && resumed
      ensures r.None? <==> elves == {}
      ensures r.Some? ==> exists b :: Tight(b, elves) && r.value == Area(b) - |elves|
    {
      elves := DoRounds(PartOneRounds, elves);
      r := EmptyGround(elves);
      resumed := true;
    }

    /**
     * The number of the first round in which nobody moves, counting on
     * from part one when it ran; None if that takes more than `fuel` rounds.
     */
    method Part2(fuel: nat) returns (r: Option<nat>)
      modifies this
      ensures var start, dir := if old(resumed) then 11 else 1, if old(resumed) then 2 else 0;
        r.Some? ==> exists k: nat :: r.value == start + k && FirstStill(old(elves), dir, k) && elves == Iterate(old(elves), dir, k + 1)
      ensures var dir := if old(resumed) then 2 else 0;
        r.None? ==> AllMoved(old(elves), dir, fuel) && elves == Iterate(old(elves), dir, fuel)
      ensures resumed == old(resumed)
    {
      var n := if resumed then 11 else 1;
      var direction := if resumed then 10 % 4 else 0;
      assert direction == if resumed then 2 else 0;
      ghost var before := elves;
      var rounds;
      elves, r, rounds := Settle(elves, n, direction, fuel);
      if r.Some? {
        assert r.value == n + rounds && FirstStill(before, direction, rounds) && elves == Iterate(before, direction, rounds + 1);
      }
    }
  }

  /**
   * The loop of part two: rounds from direction `dir` until one in which
   * nobody moves, numbered from `start`; None after `fuel` rounds.
   */
  method Settle(elves: set<Coord>, start: nat, dir: nat, fuel: nat) returns (elves': set<Coord>, r: Option<nat>, rounds: nat)
    requires dir < 4
    ensures r.Some? ==> r.value == start + rounds && FirstStill(elves, dir, rounds) && elves' == Iterate(elves, dir, rounds + 1)
    ensures r.None? ==> rounds == fuel && AllMoved(elves, dir, fuel) && elves' == Iterate(elves, dir, fuel)
  {
    var n, direction, k := start, dir, 0;
    elves' := elves;
    while k < fuel
      invariant k <= fuel && n == start + k && direction == Turn(dir, k)
      invariant elves' == Iterate(elves, dir, k)
      invariant AllMoved(elves, dir, k)
      decreases fuel - k
    {
      var moves;
      ghost var now := elves';
      elves', moves := DoRound(elves', direction);
      IterateNext(elves, dir, k);
      MovedCount(elves, dir, k, now, direction, moves);
      if moves == 0 {
        return elves', Some(n), k;
      }
      AllMovedNext(elves, dir, k);
      direction := NextDir(direction, dir, k);
      n := n + 1;
      k := k + 1;
    }
    r, rounds := None, k;
  }

  /** Moves happen in round `j` of the resumed run exactly when in round `a + j` of the whole run. */
  lemma MovedResumed(elves: set<Coord>, a: nat, j: nat)
    ensures Moved(Iterate(elves, 0, a), Turn(0, a), j) <==> Moved(elves, 0, a + j)
  {
    IterateSplit(elves, 0, a, j);
    TurnTwice(0, a, j);
  }

  /** `MovedResumed`, indexed by the round of the whole run. */
  lemma MovedResumedAt(elves: set<Coord>, a: nat, j: nat)
    requires a <= j
    ensures Moved(Iterate(elves, 0, a), Turn(0, a), j - a) <==> Moved(elves, 0, j)
  {
    IterateSplitAt(elves, 0, a, j);
    TurnTwiceAt(0, a, j);
  }

  lemma TurnTwiceAt(dir: nat, a: nat, j: nat)
    requires a <= j
    ensures Turn(Turn(dir, a), j - a) == Turn(dir, j)
  {
    var q := (dir + a) / 4;
    assert dir + a == 4 * q + Turn(dir, a);
    assert dir + j == 4 * q + (Turn(dir, a) + (j - a));
  }

  lemma IterateSplitAt(elves: set<Coord>, dir: nat, a: nat, j: nat)
    requires a <= j
    ensures Iterate(Iterate(elves, dir, a), Turn(dir, a), j - a) == Iterate(elves, dir, j)
  {
    var b := j - a;
    IterateSplit(elves, dir, a, b);
    assert a + b == j;
  }

  /**
   * Part two after part one counts the same rounds as part two alone,
   * provided somebody moved in each of part one's rounds: resuming after
   * `a` rounds at direction `Turn(0, a)` continues the same sequence.
   */
  lemma Resumed(elves: set<Coord>, a: nat, k: nat)
    requires AllMoved(elves, 0, a)
    ensures FirstStill(Iterate(elves, 0, a), Turn(0, a), k) <==> FirstStill(elves, 0, a + k)
  {
    if FirstStill(Iterate(elves, 0, a), Turn(0, a), k) {
      ResumedForward(elves, a, k);
    }
    if FirstStill(elves, 0, a + k) {
      ResumedBackward(elves, a, k);
    }
  }

  /** A first still round of the resumed run is one of the whole run. */
  lemma ResumedForward(elves: set<Coord>, a: nat, k: nat)
    requires AllMoved(elves, 0, a) && FirstStill(Iterate(elves, 0, a), Turn(0, a), k)
    ensures FirstStill(elves, 0, a + k)
  {
    forall j | a <= j < a + k
      ensures Moved(elves, 0, j)
    {
      MovedResumedAt(elves, a, j);
    }
    MovedResumed(elves, a, k);
  }

  /** A first still round of the whole run, after `a` rounds, is one of the resumed run. */
  lemma ResumedBackward(elves: set<Coord>, a: nat, k: nat)
    requires FirstStill(elves, 0, a + k)
    ensures FirstStill(Iterate(elves, 0, a), Turn(0, a), k)
  {
    forall j | 0 <= j < k
      ensures Moved(Iterate(elves, 0, a), Turn(0, a), j)
    {
      MovedResumed(elves, a, j);
    }
    MovedResumed(elves, a, k);
  }
}
