/**
 * Day 19: choosing the order in which to build ore, clay, obsidian and
 * geode robots so that as many geodes as possible are open at the end.
 *
 * The search pops states from a priority queue ordered by earliest minute,
 * then most geodes; the queue is a sequence here and "pop" takes its
 * maximum under that order.
 */
module Day19 {
  import opened Wrappers

  const OreKind := 0
  const ClayKind := 1
  const ObsidianKind := 2
  const GeodeKind := 3

  /** A fixed array of four counters, one per resource kind. */
  type Quad = s: seq<nat> | |s| == 4 witness [0, 0, 0, 0]

  /** The costs printed on one blueprint. */
  datatype Blueprint = Blueprint(
    oreCost: nat,
    clayCost: nat,
    obsidianCost: (nat, nat),  // (ore, clay)
    geodeCost: (nat, nat))     // (ore, obsidian)

  /** The source's `BlueprintResult`: stock, robots, and the robot under construction. */
  datatype State = State(resources: Quad, robots: Quad, building: Quad)

  /** The start of every search: one ore robot and nothing else. */
  const Start: State := State([0, 0, 0, 0], [1, 0, 0, 0], [0, 0, 0, 0])

  // ---------------------------------------------------------------- costs

  /** The ore robot's cost is not part of the maximum. */
  function MaxOreCost(b: Blueprint): (r: nat)
    ensures r >= b.clayCost && r >= b.obsidianCost.0 && r >= b.geodeCost.0
    ensures r == b.clayCost || r == b.obsidianCost.0 || r == b.geodeCost.0
  {
    Max(Max(b.clayCost, b.obsidianCost.0), b.geodeCost.0)
  }

  function MaxClayCost(b: Blueprint): nat
  {
    b.obsidianCost.1
  }

  function MaxObsidianCost(b: Blueprint): nat
  {
    b.geodeCost.1
  }

  /** What a robot of kind `kind` costs, as a 4-vector over resource kinds. */
  function Cost(b: Blueprint, kind: nat): Quad
    requires kind < 4
  {
    if kind == OreKind then [b.oreCost, 0, 0, 0]
    else if kind == ClayKind then [b.clayCost, 0, 0, 0]
    else if kind == ObsidianKind then [b.obsidianCost.0, b.obsidianCost.1, 0, 0]
    else [b.geodeCost.0, 0, b.geodeCost.1, 0]
  }

  /** The cap on robots of `kind`: no recipe needs more of that resource per minute. */
  function Cap(b: Blueprint, kind: nat): nat
    requires kind < 3
  {
    if kind == OreKind then MaxOreCost(b)
    else if kind == ClayKind then MaxClayCost(b)
    else MaxObsidianCost(b)
  }

  /** Every cap covers what one robot of kind `kind` costs in that resource. */
  lemma CapCoversCosts(b: Blueprint, res: nat, kind: nat)
    requires res < 3 && kind < 4 && (res != OreKind || kind != OreKind)
    ensures Cost(b, kind)[res] <= Cap(b, res)
  {
  }

  /** For the first sample blueprint the ore cap (3) is below the ore robot's own cost (4). */
  lemma OreRobotCostExcluded()
    ensures MaxOreCost(Blueprint(4, 2, (3, 14), (2, 7))) == 3
    ensures MaxClayCost(Blueprint(4, 2, (3, 14), (2, 7))) == 14
    ensures MaxObsidianCost(Blueprint(4, 2, (3, 14), (2, 7))) == 7
  {
  }

  predicate Affordable(stock: Quad, cost: Quad)
  {
    forall i :: 0 <= i < 4 ==> cost[i] <= stock[i]
  }

  function Unit(kind: nat): Quad
    requires kind < 4
  {
    seq(4, i => if i == kind then 1 else 0)
  }

  /** Reference definition of "start building a robot of `kind` from `t`". */
  function Build(b: Blueprint, t: State, kind: nat): State
    requires kind < 4 && Affordable(t.resources, Cost(b, kind))
  {
    State(seq(4, i requires 0 <= i < 4 => t.resources[i] - Cost(b, kind)[i]), t.robots, Unit(kind))
  }

  // --------------------------------------------------------- one minute

  function AddQuad(a: Quad, c: Quad): Quad
  {
    [a[0] + c[0], a[1] + c[1], a[2] + c[2], a[3] + c[3]]
  }

  /** Production, then completion of the pending robot, then nothing under construction. */
  function Tick(s: State): State
  {
    State(AddQuad(s.resources, s.robots), AddQuad(s.robots, s.building), [0, 0, 0, 0])
  }

  /** The two in-place `for i in 0..4` loops and the reset of the building array. */
  method Produce(s: State) returns (t: State)
    ensures t == Tick(s)
    ensures forall i :: 0 <= i < 4 ==>
      t.resources[i] == s.resources[i] + s.robots[i] && t.robots[i] == s.robots[i] + s.building[i]
    ensures t.building == [0, 0, 0, 0]
  {
    var resources: seq<nat> := s.resources;
    for i := 0 to 4
      invariant |resources| == 4
      invariant forall j :: 0 <= j < i ==> resources[j] == s.resources[j] + s.robots[j]
      invariant forall j :: i <= j < 4 ==> resources[j] == s.resources[j]
    {
      resources := resources[i := resources[i] + s.robots[i]];
    }
    var robots: seq<nat> := s.robots;
    for i := 0 to 4
      invariant |robots| == 4
      invariant forall j :: 0 <= j < i ==> robots[j] == s.robots[j] + s.building[j]
      invariant forall j :: i <= j < 4 ==> robots[j] == s.robots[j]
    {
      robots := robots[i := robots[i] + s.building[i]];
    }
    t := State(resources, robots, [0, 0, 0, 0]);
  }

  // --------------------------------------------------------- successors

  /** A queue element: minute, geodes (sort key), geode robots (sort key), state. */
  datatype Entry = Entry(time: nat, geode: nat, geodeRobots: nat, state: State)

  /** The geode rule: affordable now, but not with the stock of the previous minute. */
  predicate GeodeShortcut(b: Blueprint, s: State)
  {
    Affordable(Tick(s).resources, Cost(b, GeodeKind)) && !Affordable(s.resources, Cost(b, GeodeKind))
  }

  /** Common guard of the ore, clay and obsidian rules, stated with the reference definitions. */
  predicate Worthwhile(b: Blueprint, maxTime: nat, time: nat, s: State, kind: nat)
    requires kind < 3 && time < maxTime
  {
    var t := Tick(s);
    var left := maxTime - time;
    t.robots[kind] < Cap(b, kind)
    && Cap(b, kind) * left > t.resources[kind] + t.robots[kind] * left
    && Affordable(t.resources, Cost(b, kind))
    && !Affordable(s.resources, Cost(b, kind))
  }

  /** After an obsidian robot the remaining ore still pays one geode robot per remaining minute. */
  predicate ObsidianShortcut(b: Blueprint, maxTime: nat, time: nat, s: State)
    requires time < maxTime
  {
    Worthwhile(b, maxTime, time, s, ObsidianKind)
    && Tick(s).resources[OreKind] - b.obsidianCost.0 >= (maxTime - time) * b.geodeCost.0
  }

  /** The geode branch: `[entry]` when it fires, `[]` otherwise. */
  function GeodeBranch(b: Blueprint, time: nat, gr: nat, s: State): seq<Entry>
  {
    var prev, t := s.resources, Tick(s);
    var ore, clay, obsidian, geode := t.resources[0], t.resources[1], t.resources[2], t.resources[3];
    if ore >= b.geodeCost.0 && obsidian >= b.geodeCost.1
       && (prev[0] < b.geodeCost.0 || prev[2] < b.geodeCost.1)
    then
      [Entry(time + 1, geode, gr,
        State([ore - b.geodeCost.0, clay, obsidian - b.geodeCost.1, geode], t.robots, [0, 0, 0, 1]))]
    else []
  }

  function ObsidianBranch(b: Blueprint, maxTime: nat, time: nat, gr: nat, s: State): seq<Entry>
    requires time < maxTime
  {
    var prev, t, left := s.resources, Tick(s), maxTime - time;
    var ore, clay, obsidian, geode := t.resources[0], t.resources[1], t.resources[2], t.resources[3];
    var obsidianRobots := t.robots[2];
    var maxObsidianDemand := MaxObsidianCost(b) * left;
    var obsidianSupply := obsidian + obsidianRobots * left;
    if obsidianRobots < MaxObsidianCost(b)
       && maxObsidianDemand > obsidianSupply
       && ore >= b.obsidianCost.0 && clay >= b.obsidianCost.1
       && (prev[0] < b.obsidianCost.0 || prev[1] < b.obsidianCost.1)
    then
      [Entry(time + 1, geode, gr,
        State([ore - b.obsidianCost.0, clay - b.obsidianCost.1, obsidian, geode], t.robots, [0, 0, 1, 0]))]
    else []
  }

  function ClayBranch(b: Blueprint, maxTime: nat, time: nat, gr: nat, s: State): seq<Entry>
    requires time < maxTime
  {
    var prev, t, left := s.resources, Tick(s), maxTime - time;
    var ore, clay, obsidian, geode := t.resources[0], t.resources[1], t.resources[2], t.resources[3];
    var clayRobots := t.robots[1];
    var maxClayDemand := MaxClayCost(b) * left;
    var claySupply := clay + clayRobots * left;
    if clayRobots < MaxClayCost(b)
       && maxClayDemand > claySupply
       && ore >= b.clayCost && prev[0] < b.clayCost
    then
      [Entry(time + 1, geode, gr, State([ore - b.clayCost, clay, obsidian, geode], t.robots, [0, 1, 0, 0]))]
    else []
  }

  function OreBranch(b: Blueprint, maxTime: nat, time: nat, gr: nat, s: State): seq<Entry>
    requires time < maxTime
  {
    var prev, t, left := s.resources, Tick(s), maxTime - time;
    var ore, clay, obsidian, geode := t.resources[0], t.resources[1], t.resources[2], t.resources[3];
    var oreRobots := t.robots[0];
    var maxOreDemand := MaxOreCost(b) * left;
    var oreSupply := ore + oreRobots * left;
    if oreRobots < MaxOreCost(b)
       && maxOreDemand > oreSupply
       && ore >= b.oreCost && prev[0] < b.oreCost
    then
      [Entry(time + 1, geode, gr, State([ore - b.oreCost, clay, obsidian, geode], t.robots, [1, 0, 0, 0]))]
    else []
  }

  /** The entry for waiting a minute. */
  function Idle(time: nat, gr: nat, s: State): Entry
  {
    Entry(time + 1, Tick(s).resources[GeodeKind], gr, Tick(s))
  }

  /**
   * The entries pushed after popping `s` at minute `time < maxTime`, in
   * push order; each `continue` of the source cuts the list short.
   */
  function Successors(b: Blueprint, maxTime: nat, time: nat, gr: nat, s: State): (r: seq<Entry>)
    requires time < maxTime
    ensures 1 <= |r| <= 4
    ensures forall e :: e in r ==>
      e.time == time + 1 && e.geodeRobots == gr && e.geode == e.state.resources[GeodeKind]
  {
    var geodeBranch := GeodeBranch(b, time, gr, s);
    var obsidianBranch := ObsidianBranch(b, maxTime, time, gr, s);
    if geodeBranch != [] then geodeBranch
    else if obsidianBranch != [] && obsidianBranch[0].state.resources[OreKind] >= (maxTime - time) * b.geodeCost.0 then
      obsidianBranch
    else
      obsidianBranch + ClayBranch(b, maxTime, time, gr, s) + OreBranch(b, maxTime, time, gr, s) + [Idle(time, gr, s)]
  }

  /** `e` builds a robot of `kind` and every pruning guard for that kind held. */
  ghost predicate BuildsKind(b: Blueprint, maxTime: nat, time: nat, gr: nat, s: State, e: Entry, kind: nat)
    requires time < maxTime && kind < 4
  {
    Affordable(Tick(s).resources, Cost(b, kind))
    && e == Entry(time + 1, Tick(s).resources[GeodeKind], gr, Build(b, Tick(s), kind))
    && !Affordable(s.resources, Cost(b, kind))
    && (kind < 3 ==> Worthwhile(b, maxTime, time, s, kind))
  }

  lemma GeodeBranchBuilds(b: Blueprint, maxTime: nat, time: nat, gr: nat, s: State)
    requires time < maxTime
    ensures GeodeBranch(b, time, gr, s) != [] <==> GeodeShortcut(b, s)
    ensures forall e :: e in GeodeBranch(b, time, gr, s) ==> BuildsKind(b, maxTime, time, gr, s, e, GeodeKind)
  {
    var t := Tick(s);
    if GeodeShortcut(b, s) {
      assert Build(b, t, GeodeKind).resources == [t.resources[0] - b.geodeCost.0, t.resources[1], t.resources[2] - b.geodeCost.1, t.resources[3]];
      assert Unit(GeodeKind) == [0, 0, 0, 1];
    }
  }

  lemma ObsidianBranchBuilds(b: Blueprint, maxTime: nat, time: nat, gr: nat, s: State)
    requires time < maxTime
    ensures ObsidianBranch(b, maxTime, time, gr, s) != [] <==> Worthwhile(b, maxTime, time, s, ObsidianKind)
    ensures forall e :: e in ObsidianBranch(b, maxTime, time, gr, s) ==> BuildsKind(b, maxTime, time, gr, s, e, ObsidianKind)
  {
    var t := Tick(s);
    if Worthwhile(b, maxTime, time, s, ObsidianKind) {
      assert Build(b, t, ObsidianKind).resources == [t.resources[0] - b.obsidianCost.0, t.resources[1] - b.obsidianCost.1, t.resources[2], t.resources[3]];
      assert Unit(ObsidianKind) == [0, 0, 1, 0];
    }
  }

  lemma ClayBranchBuilds(b: Blueprint, maxTime: nat, time: nat, gr: nat, s: State)
    requires time < maxTime
    ensures ClayBranch(b, maxTime, time, gr, s) != [] <==> Worthwhile(b, maxTime, time, s, ClayKind)
    ensures forall e :: e in ClayBranch(b, maxTime, time, gr, s) ==> BuildsKind(b, maxTime, time, gr, s, e, ClayKind)
  {
    var t := Tick(s);
    if Worthwhile(b, maxTime, time, s, ClayKind) {
      assert Build(b, t, ClayKind).resources == [t.resources[0] - b.clayCost, t.resources[1], t.resources[2], t.resources[3]];
      assert Unit(ClayKind) == [0, 1, 0, 0];
    }
  }

  lemma OreBranchBuilds(b: Blueprint, maxTime: nat, time: nat, gr: nat, s: State)
    requires time < maxTime
    ensures OreBranch(b, maxTime, time, gr, s) != [] <==> Worthwhile(b, maxTime, time, s, OreKind)
    ensures forall e :: e in OreBranch(b, maxTime, time, gr, s) ==> BuildsKind(b, maxTime, time, gr, s, e, OreKind)
  {
    var t := Tick(s);
    if Worthwhile(b, maxTime, time, s, OreKind) {
      assert Build(b, t, OreKind).resources == [t.resources[0] - b.oreCost, t.resources[1], t.resources[2], t.resources[3]];
      assert Unit(OreKind) == [1, 0, 0, 0];
    }
  }

  /**
   * Every successor either waits, or starts exactly one robot whose cost is
   * taken from the post-production stock without going below zero; the
   * robot kind was not affordable a minute earlier, and for ore, clay and
   * obsidian the cap and the demand-over-supply guard hold.
   */
  lemma SuccessorIsIdleOrBuild(b: Blueprint, maxTime: nat, time: nat, gr: nat, s: State, e: Entry)
    requires time < maxTime && e in Successors(b, maxTime, time, gr, s)
    ensures e == Idle(time, gr, s) || exists kind :: 0 <= kind < 4 && BuildsKind(b, maxTime, time, gr, s, e, kind)
  {
    GeodeBranchBuilds(b, maxTime, time, gr, s);
    ObsidianBranchBuilds(b, maxTime, time, gr, s);
    ClayBranchBuilds(b, maxTime, time, gr, s);
    OreBranchBuilds(b, maxTime, time, gr, s);
  }

  /** A newly affordable geode robot is the only successor. */
  lemma GeodeShortcutOnly(b: Blueprint, maxTime: nat, time: nat, gr: nat, s: State)
    requires time < maxTime && GeodeShortcut(b, s)
    ensures Successors(b, maxTime, time, gr, s) == [Entry(time + 1, Tick(s).resources[GeodeKind], gr, Build(b, Tick(s), GeodeKind))]
  {
    GeodeBranchBuilds(b, maxTime, time, gr, s);
  }

  /** When the obsidian rule fires and its ore test passes, the obsidian robot is the only successor. */
  lemma ObsidianShortcutOnly(b: Blueprint, maxTime: nat, time: nat, gr: nat, s: State)
    requires time < maxTime && !GeodeShortcut(b, s) && ObsidianShortcut(b, maxTime, time, s)
    ensures Successors(b, maxTime, time, gr, s) == [Entry(time + 1, Tick(s).resources[GeodeKind], gr, Build(b, Tick(s), ObsidianKind))]
  {
    GeodeBranchBuilds(b, maxTime, time, gr, s);
    ObsidianBranchBuilds(b, maxTime, time, gr, s);
  }

  /** Waiting is among the successors exactly when neither shortcut fires. */
  lemma IdleIffNoShortcut(b: Blueprint, maxTime: nat, time: nat, gr: nat, s: State)
    requires time < maxTime
    ensures Idle(time, gr, s) in Successors(b, maxTime, time, gr, s)
      <==> !GeodeShortcut(b, s) && !ObsidianShortcut(b, maxTime, time, s)
  {
    GeodeBranchBuilds(b, maxTime, time, gr, s);
    ObsidianBranchBuilds(b, maxTime, time, gr, s);
    if GeodeShortcut(b, s) {
      GeodeShortcutOnly(b, maxTime, time, gr, s);
      assert Idle(time, gr, s).state.building != Unit(GeodeKind);
    } else if ObsidianShortcut(b, maxTime, time, s) {
      ObsidianShortcutOnly(b, maxTime, time, gr, s);
      assert Idle(time, gr, s).state.building != Unit(ObsidianKind);
    } else {
      var r := Successors(b, maxTime, time, gr, s);
      assert r[|r| - 1] == Idle(time, gr, s);
    }
  }

  /** Every successor's stock and robots are those of a legal move. */
  lemma SuccessorKeepsRobots(b: Blueprint, maxTime: nat, time: nat, gr: nat, s: State, e: Entry)
    requires time < maxTime && e in Successors(b, maxTime, time, gr, s)
    ensures e.state.robots == Tick(s).robots
    ensures forall i :: 0 <= i < 4 ==> e.state.resources[i] <= Tick(s).resources[i]
    ensures AtMostOneBuild(e.state.building)
  {
    SuccessorIsIdleOrBuild(b, maxTime, time, gr, s, e);
  }

  /** At most one entry of `building` is non-zero, and that one is 1. */
  predicate AtMostOneBuild(building: Quad)
  {
    building == [0, 0, 0, 0] || exists k :: 0 <= k < 4 && building == Unit(k)
  }

  // ------------------------------------------------------- reachability

  /** `run[i]` is a state at minute `i`, and each state is one of the successor states of the previous. */
  ghost predicate IsRun(b: Blueprint, start: State, maxTime: nat, run: seq<State>)
  {
    1 <= |run| <= maxTime + 1 && run[0] == start
    && forall i :: 0 <= i < |run| - 1 ==> run[i + 1] in NextStates(b, maxTime, i, run[i])
  }

  /** `s` is reachable from `start` in exactly `t` minutes through the successor rules. */
  ghost predicate Reachable(b: Blueprint, start: State, maxTime: nat, t: nat, s: State)
  {
    exists run :: IsRun(b, start, maxTime, run) && |run| == t + 1 && run[t] == s
  }

  /** The states of the successors of `p`. */
  function NextStates(b: Blueprint, maxTime: nat, time: nat, p: State): set<State>
    requires time < maxTime
  {
    set e | e in Successors(b, maxTime, time, 0, p) :: e.state
  }

  lemma ReachableStep(b: Blueprint, start: State, maxTime: nat, t: nat, p: State, e: Entry)
    requires t < maxTime && Reachable(b, start, maxTime, t, p) && e in Successors(b, maxTime, t, 0, p)
    ensures Reachable(b, start, maxTime, t + 1, e.state)
  {
    var run :| IsRun(b, start, maxTime, run) && |run| == t + 1 && run[t] == p;
    var longer := run + [e.state];
    assert e.state in NextStates(b, maxTime, t, p);
    forall i | 0 <= i < |longer| - 1
      ensures longer[i + 1] in NextStates(b, maxTime, i, longer[i])
    {
      if i < t {
        assert longer[i + 1] == run[i + 1] && longer[i] == run[i];
      }
    }
    assert IsRun(b, start, maxTime, longer);
  }

  /** Some state reachable in `minutes` minutes holds `geodes` geodes. */
  ghost predicate Achievable(b: Blueprint, minutes: nat, geodes: nat)
  {
    exists s :: Reachable(b, Start, minutes, minutes, s) && s.resources[GeodeKind] == geodes
  }

  // --------------------------------------------------------- queue order

  /** The heap's order: `Reverse(time)`, then geodes, then geode robots, then the state's fields. */
  function Key(e: Entry): seq<int>
  {
    [-(e.time as int), e.geode, e.geodeRobots] + e.state.resources + e.state.robots + e.state.building
  }

  /** Lexicographic `<=` on equal-length integer sequences. */
  predicate LexLe(a: seq<int>, c: seq<int>)
    requires |a| == |c|
  {
    |a| == 0 || a[0] < c[0] || (a[0] == c[0] && LexLe(a[1..], c[1..]))
  }

  lemma {:induction false} LexLeTotal(a: seq<int>, c: seq<int>)
    requires |a| == |c|
    ensures LexLe(a, c) || LexLe(c, a)
  {
    if |a| > 0 && a[0] == c[0] {
      LexLeTotal(a[1..], c[1..]);
    }
  }

  lemma {:induction false} LexLeTrans(a: seq<int>, c: seq<int>, d: seq<int>)
    requires |a| == |c| == |d| && LexLe(a, c) && LexLe(c, d)
    ensures LexLe(a, d)
  {
    if |a| > 0 && a[0] == c[0] && c[0] == d[0] {
      LexLeTrans(a[1..], c[1..], d[1..]);
    }
  }

  /** Entries at the same minute are ordered by geodes first. */
  lemma KeyOrdersGeodes(e: Entry, f: Entry)
    requires e.time == f.time && LexLe(Key(e), Key(f))
    ensures e.geode <= f.geode
  {
    var a, c := Key(e), Key(f);
    assert a[1..][0] == e.geode && c[1..][0] == f.geode;
  }

  /** Finds the entry the max-heap would pop. */
  method MaxIndex(q: seq<Entry>) returns (i: nat)
    requires q != []
    ensures i < |q|
    ensures forall j :: 0 <= j < |q| ==> LexLe(Key(q[j]), Key(q[i]))
  {
    i := 0;
    var k := 1;
    LexLeTotal(Key(q[0]), Key(q[0]));
    while k < |q|
      invariant 1 <= k <= |q| && i < k
      invariant forall j :: 0 <= j < k ==> LexLe(Key(q[j]), Key(q[i]))
    {
      if !LexLe(Key(q[k]), Key(q[i])) {
        LexLeTotal(Key(q[k]), Key(q[i]));
        LexLeTotal(Key(q[k]), Key(q[k]));
        forall j | 0 <= j < k
          ensures LexLe(Key(q[j]), Key(q[k]))
        {
          LexLeTrans(Key(q[j]), Key(q[i]), Key(q[k]));
        }
        i := k;
      }
      k := k + 1;
    }
  }

  // ------------------------------------------------------------- measure

  function Pow5(n: nat): (r: nat)
    ensures r >= 1
  {
    if n == 0 then 1 else 5 * Pow5(n - 1)
  }

  /** Each entry weighs 5^(minutes left): an expansion replaces one by at most four lighter ones. */
  function Weight(q: seq<Entry>, maxTime: nat): nat
  {
    if q == [] then 0
    else Weight(q[..|q| - 1], maxTime) + (if q[|q| - 1].time <= maxTime then Pow5(maxTime - q[|q| - 1].time) else 0)
  }

  lemma {:induction false} WeightAppend(a: seq<Entry>, c: seq<Entry>, maxTime: nat)
    ensures Weight(a + c, maxTime) == Weight(a, maxTime) + Weight(c, maxTime)
  {
    if c != [] {
      assert (a + c)[..|a + c| - 1] == a + c[..|c| - 1];
      WeightAppend(a, c[..|c| - 1], maxTime);
    } else {
      assert a + c == a;
    }
  }

  lemma {:induction false} WeightUniform(q: seq<Entry>, maxTime: nat, time: nat)
    requires time <= maxTime && forall e :: e in q ==> e.time == time
    ensures Weight(q, maxTime) == |q| * Pow5(maxTime - time)
  {
    if q != [] {
      assert forall e :: e in q[..|q| - 1] ==> e in q;
      WeightUniform(q[..|q| - 1], maxTime, time);
    }
  }

  lemma WeightRemove(q: seq<Entry>, i: nat, maxTime: nat)
    requires i < |q|
    ensures Weight(q, maxTime) == Weight(q[..i] + q[i + 1..], maxTime) + Weight([q[i]], maxTime)
  {
    assert q == q[..i] + [q[i]] + q[i + 1..];
    WeightAppend(q[..i] + [q[i]], q[i + 1..], maxTime);
    WeightAppend(q[..i], [q[i]], maxTime);
    WeightAppend(q[..i], q[i + 1..], maxTime);
  }

  // -------------------------------------------------------------- search

  /** Replacing an entry by its successors makes the queue lighter. */
  lemma ExpansionLighter(rest: seq<Entry>, maxTime: nat, e: Entry, next: seq<Entry>)
    requires e.time < maxTime && |next| <= 4 && forall x :: x in next ==> x.time == e.time + 1
    ensures Weight(rest + next, maxTime) < Weight(rest, maxTime) + Weight([e], maxTime)
  {
    WeightUniform(next, maxTime, e.time + 1);
    WeightAppend(rest, next, maxTime);
    var d := maxTime - (e.time + 1);
    var w := Pow5(d);
    assert Pow5(d + 1) == 5 * w;
    AtMostFour(|next|, w);
    assert Weight([e], maxTime) == Pow5(d + 1) by {
      assert [e][..0] == [];
    }
  }

  lemma AtMostFour(n: nat, w: nat)
    requires n <= 4 && w >= 1
    ensures n * w < 5 * w
  {
  }

  /** What the search loop keeps true of its queue and of every entry pushed so far. */
  ghost predicate SearchInv(b: Blueprint, start: State, maxTime: nat, queue: seq<Entry>, generated: set<Entry>)
  {
    var first := Entry(0, 0, 0, start);
    (forall e :: e in queue ==> e in generated)
    && (forall e :: e in generated ==> e.time <= maxTime && e.geodeRobots == 0)
    && (forall e :: e in generated ==> Reachable(b, start, maxTime, e.time, e.state))
    && (forall e :: e in generated && e.time == maxTime ==> e in queue)
    && (forall e :: e in generated && e.time == maxTime ==> e.geode == e.state.resources[GeodeKind] || e == first)
    && (maxTime == 0 ==> generated == {first})
  }

  /** Popping an entry from before the last minute keeps the invariant. */
  lemma PopKeepsInv(b: Blueprint, start: State, maxTime: nat, queue: seq<Entry>, generated: set<Entry>, i: nat)
    requires i < |queue| && queue[i].time != maxTime && SearchInv(b, start, maxTime, queue, generated)
    ensures SearchInv(b, start, maxTime, queue[..i] + queue[i + 1..], generated)
  {
    var rest := queue[..i] + queue[i + 1..];
    forall e | e in generated && e.time == maxTime
      ensures e in rest
    {
      var j :| 0 <= j < |queue| && queue[j] == e;
      if j < i {
        assert rest[j] == e;
      } else {
        assert rest[j - 1] == e;
      }
    }
  }

  /** Pushing the successors of an expanded entry keeps the invariant. */
  lemma PushKeepsInv(b: Blueprint, start: State, maxTime: nat, queue: seq<Entry>, generated: set<Entry>, e: Entry)
    requires SearchInv(b, start, maxTime, queue, generated)
    requires e in generated && e.time < maxTime
    ensures SearchInv(b, start, maxTime, queue + Successors(b, maxTime, e.time, e.geodeRobots, e.state),
      generated + set x | x in Successors(b, maxTime, e.time, e.geodeRobots, e.state))
  {
    var next := Successors(b, maxTime, e.time, e.geodeRobots, e.state);
    forall x | x in next
      ensures Reachable(b, start, maxTime, x.time, x.state)
    {
      ReachableStep(b, start, maxTime, e.time, e.state, x);
    }
  }

  /** The first entry popped at the last minute has the most geodes of all entries pushed for it. */
  lemma PoppedFinalIsBest(b: Blueprint, start: State, maxTime: nat, queue: seq<Entry>, generated: set<Entry>, i: nat)
    requires i < |queue| && queue[i].time == maxTime && SearchInv(b, start, maxTime, queue, generated)
    requires forall j :: 0 <= j < |queue| ==> LexLe(Key(queue[j]), Key(queue[i]))
    ensures forall g :: g in generated && g.time == maxTime ==>
      g.state.resources[GeodeKind] <= queue[i].state.resources[GeodeKind]
  {
    var e := queue[i];
    forall g | g in generated && g.time == maxTime
      ensures g.state.resources[GeodeKind] <= e.state.resources[GeodeKind]
    {
      var j :| 0 <= j < |queue| && queue[j] == g;
      KeyOrdersGeodes(g, e);
    }
  }

  /** Every successor of `f` has been pushed. */
  ghost predicate Expanded(b: Blueprint, maxTime: nat, f: Entry, generated: set<Entry>)
    requires f.time < maxTime
  {
    forall x :: x in Successors(b, maxTime, f.time, f.geodeRobots, f.state) ==> x in generated
  }

  /** Some pushed entry from before the last minute with state `v` had all its successors pushed. */
  ghost predicate StateExpanded(b: Blueprint, maxTime: nat, v: State, generated: set<Entry>)
  {
    exists f :: f in generated && f.state == v && f.time < maxTime && Expanded(b, maxTime, f, generated)
  }

  /**
   * Closure of the pushed entries under expansion, up to the `visited`
   * check: each entry from before the last minute shares its state with
   * a pushed entry whose successors were all pushed.
   */
  ghost predicate Closed(b: Blueprint, maxTime: nat, generated: set<Entry>)
  {
    forall e :: e in generated && e.time < maxTime ==> StateExpanded(b, maxTime, e.state, generated)
  }

  /** What the loop keeps true of `visited`: each visited state was expanded, and each pending entry is queued or visited. */
  ghost predicate VisitedInv(b: Blueprint, maxTime: nat, queue: seq<Entry>, generated: set<Entry>, visited: set<State>)
  {
    (forall v :: v in visited ==> StateExpanded(b, maxTime, v, generated))
    && (forall e :: e in generated && e.time < maxTime ==> e in queue || e.state in visited)
  }

  /** An entry other than the popped one is still in the queue after the pop. */
  lemma StillQueued(queue: seq<Entry>, i: nat, g: Entry)
    requires i < |queue| && g in queue && g != queue[i]
    ensures g in queue[..i] + queue[i + 1..]
  {
    var j :| 0 <= j < |queue| && queue[j] == g;
    var rest := queue[..i] + queue[i + 1..];
    if j < i {
      assert rest[j] == g;
    } else {
      assert rest[j - 1] == g;
    }
  }

  /** Skipping a popped entry whose state was visited keeps `VisitedInv`. */
  lemma SkipKeepsVisited(b: Blueprint, maxTime: nat, queue: seq<Entry>, generated: set<Entry>, visited: set<State>, i: nat)
    requires i < |queue| && queue[i].state in visited && VisitedInv(b, maxTime, queue, generated, visited)
    ensures VisitedInv(b, maxTime, queue[..i] + queue[i + 1..], generated, visited)
  {
    forall g | g in generated && g.time < maxTime && g.state !in visited
      ensures g in queue[..i] + queue[i + 1..]
    {
      StillQueued(queue, i, g);
    }
  }

  /** Expanding a popped entry and marking its state visited keeps `VisitedInv`. */
  lemma ExpandKeepsVisited(b: Blueprint, maxTime: nat, queue: seq<Entry>, generated: set<Entry>, visited: set<State>,
                           i: nat, next: seq<Entry>)
    requires i < |queue| && queue[i] in generated && queue[i].time < maxTime
    requires next == Successors(b, maxTime, queue[i].time, queue[i].geodeRobots, queue[i].state)
    requires VisitedInv(b, maxTime, queue, generated, visited)
    ensures VisitedInv(b, maxTime, queue[..i] + queue[i + 1..] + next, generated + (set x | x in next),
      visited + {queue[i].state})
  {
    var e := queue[i];
    var generated' := generated + (set x | x in next);
    var queue' := queue[..i] + queue[i + 1..] + next;
    var visited' := visited + {e.state};
    forall v | v in visited'
      ensures StateExpanded(b, maxTime, v, generated')
    {
      if v == e.state {
        assert Expanded(b, maxTime, e, generated');
      } else {
        var f :| f in generated && f.state == v && f.time < maxTime && Expanded(b, maxTime, f, generated);
        assert Expanded(b, maxTime, f, generated');
      }
    }
    forall g | g in generated' && g.time < maxTime && g.state !in visited'
      ensures g in queue'
    {
      if g !in generated {
        assert g in next;
      } else {
        StillQueued(queue, i, g);
      }
    }
  }

  /** Once nothing from before the last minute is queued, the pushed entries are closed. */
  lemma VisitedClosed(b: Blueprint, maxTime: nat, queue: seq<Entry>, generated: set<Entry>, visited: set<State>)
    requires VisitedInv(b, maxTime, queue, generated, visited)
    requires forall e :: e in queue ==> e.time >= maxTime
    ensures Closed(b, maxTime, generated)
  {
    forall e | e in generated && e.time < maxTime
      ensures StateExpanded(b, maxTime, e.state, generated)
    {
      assert e !in queue;
    }
  }

  /** The heap's order puts earlier minutes first. */
  lemma KeyOrdersTime(f: Entry, e: Entry)
    requires LexLe(Key(f), Key(e))
    ensures f.time >= e.time
  {
    var a, c := Key(f), Key(e);
    assert a[0] == -(f.time as int) && c[0] == -(e.time as int);
  }

  /** The entry the heap pops at the last minute leaves only last-minute entries queued. */
  lemma OnlyFinalQueued(queue: seq<Entry>, i: nat, maxTime: nat)
    requires i < |queue| && queue[i].time == maxTime
    requires forall j :: 0 <= j < |queue| ==> LexLe(Key(queue[j]), Key(queue[i]))
    ensures forall e :: e in queue ==> e.time >= maxTime
  {
    forall e | e in queue
      ensures e.time >= maxTime
    {
      var j :| 0 <= j < |queue| && queue[j] == e;
      KeyOrdersTime(e, queue[i]);
    }
  }

  /**
   * The source's `search`. `None` is the `unreachable!()` after the queue
   * runs dry. `generated` is every entry ever pushed: it holds the start,
   * it is closed under expansion up to the `visited` check, and every entry
   * in it is reachable; the returned state has the most geodes among its
   * last-minute entries.
   */
  method Search(b: Blueprint, start: State, maxTime: nat) returns (best: Option<State>, ghost generated: set<Entry>)
    ensures Entry(0, 0, 0, start) in generated && Closed(b, maxTime, generated)
    ensures forall e :: e in generated ==> e.time <= maxTime && Reachable(b, start, maxTime, e.time, e.state)
    ensures best.Some? ==> Reachable(b, start, maxTime, maxTime, best.value)
    ensures best.Some? ==> forall e | e in generated && e.time == maxTime ::
      e.state.resources[GeodeKind] <= best.value.resources[GeodeKind]
  {
    var queue: seq<Entry> := [Entry(0, 0, 0, start)];
    var visited: set<State> := {};
    generated := {Entry(0, 0, 0, start)};
    assert IsRun(b, start, maxTime, [start]);
    while queue != []
      invariant Entry(0, 0, 0, start) in generated
      invariant SearchInv(b, start, maxTime, queue, generated)
      invariant VisitedInv(b, maxTime, queue, generated, visited)
      decreases Weight(queue, maxTime)
    {
      var i := MaxIndex(queue);
      var e := queue[i];
      if e.time == maxTime {
        PoppedFinalIsBest(b, start, maxTime, queue, generated, i);
        OnlyFinalQueued(queue, i, maxTime);
        VisitedClosed(b, maxTime, queue, generated, visited);
        return Some(e.state), generated;
      }
      WeightRemove(queue, i, maxTime);
      PopKeepsInv(b, start, maxTime, queue, generated, i);
      if e.state in visited {
        SkipKeepsVisited(b, maxTime, queue, generated, visited, i);
        queue := queue[..i] + queue[i + 1..];
        continue;
      }
      var next := Successors(b, maxTime, e.time, e.geodeRobots, e.state);
      ExpandKeepsVisited(b, maxTime, queue, generated, visited, i, next);
      visited := visited + {e.state};
      queue := queue[..i] + queue[i + 1..];
      ExpansionLighter(queue, maxTime, e, next);
      PushKeepsInv(b, start, maxTime, queue, generated, e);
      queue := queue + next;
      generated := generated + set x | x in next;
    }
    VisitedClosed(b, maxTime, queue, generated, visited);
    return None, generated;
  }

  // ------------------------------------------------------------- scoring

  /** Sum over blueprints of (1-based index) × geodes. */
  function QualitySum(geodes: seq<nat>): nat
  {
    if geodes == [] then 0 else QualitySum(geodes[..|geodes| - 1]) + |geodes| * geodes[|geodes| - 1]
  }

  function Product(s: seq<nat>): nat
  {
    if s == [] then 1 else Product(s[..|s| - 1]) * s[|s| - 1]
  }

  lemma QualitySumAppend(geodes: seq<nat>, g: nat)
    ensures QualitySum(geodes + [g]) == QualitySum(geodes) + (|geodes| + 1) * g
  {
    assert (geodes + [g])[..|geodes|] == geodes;
  }

  lemma ProductAppend(geodes: seq<nat>, g: nat)
    ensures Product(geodes + [g]) == Product(geodes) * g
  {
    assert (geodes + [g])[..|geodes|] == geodes;
  }

  /**
   * What one finished search establishes for a blueprint: the pushed entries
   * start at the first minute, are closed under expansion and reachable, and
   * none of their last-minute entries beats `geodes`, which some run achieves.
   */
  ghost predicate Explored(b: Blueprint, minutes: nat, generated: set<Entry>, geodes: nat)
  {
    && Entry(0, 0, 0, Start) in generated && Closed(b, minutes, generated)
    && (forall e :: e in generated ==> e.time <= minutes && Reachable(b, Start, minutes, e.time, e.state))
    && (forall e | e in generated && e.time == minutes :: e.state.resources[GeodeKind] <= geodes)
    && Achievable(b, minutes, geodes)
  }

  /** A search's outcome for the next blueprint extends the per-blueprint record. */
  lemma ExploredAppend(blueprints: seq<Blueprint>, geodes: seq<nat>, explored: seq<set<Entry>>, minutes: nat,
                       s: State, generated: set<Entry>)
    requires |geodes| < |blueprints| && |explored| == |geodes|
    requires forall i :: 0 <= i < |geodes| ==> Explored(blueprints[i], minutes, explored[i], geodes[i])
    requires Entry(0, 0, 0, Start) in generated && Closed(blueprints[|geodes|], minutes, generated)
    requires forall e :: e in generated ==> e.time <= minutes && Reachable(blueprints[|geodes|], Start, minutes, e.time, e.state)
    requires Reachable(blueprints[|geodes|], Start, minutes, minutes, s)
    requires forall e | e in generated && e.time == minutes :: e.state.resources[GeodeKind] <= s.resources[GeodeKind]
    ensures forall i :: 0 <= i <= |geodes| ==>
      Explored(blueprints[i], minutes, (explored + [generated])[i], (geodes + [s.resources[GeodeKind]])[i])
  {
    var all := geodes + [s.resources[GeodeKind]];
    var sets := explored + [generated];
    forall i | 0 <= i <= |geodes|
      ensures Explored(blueprints[i], minutes, sets[i], all[i])
    {
      if i < |geodes| {
        assert all[i] == geodes[i] && sets[i] == explored[i];
      } else {
        assert Achievable(blueprints[i], minutes, all[i]);
      }
    }
  }

  /** part1: 24 minutes per blueprint, the quality levels summed. `None` when a search panics. */
  method Part1(blueprints: seq<Blueprint>) returns (total: Option<nat>, geodes: seq<nat>, ghost explored: seq<set<Entry>>)
    ensures total.Some? ==> |geodes| == |blueprints| && total.value == QualitySum(geodes)
    ensures total.Some? ==> (|explored| == |geodes| &&
      forall i :: 0 <= i < |geodes| ==> Explored(blueprints[i], 24, explored[i], geodes[i]))
  {
    var minutes: nat := 24;
    var sum := 0;
    geodes, explored := [], [];
    for idx := 0 to |blueprints|
      invariant |geodes| == idx && |explored| == idx && sum == QualitySum(geodes)
      invariant forall i :: 0 <= i < idx ==> Explored(blueprints[i], minutes, explored[i], geodes[i])
    {
      var result, generated := Search(blueprints[idx], Start, minutes);
      if result.None? {
        return None, geodes, explored;
      }
      var g := result.value.resources[GeodeKind];
      ExploredAppend(blueprints, geodes, explored, minutes, result.value, generated);
      QualitySumAppend(geodes, g);
      sum := sum + (idx + 1) * g;
      geodes, explored := geodes + [g], explored + [generated];
    }
    total := Some(sum);
  }

  /** part2: 32 minutes for the first three blueprints, the geode counts multiplied. */
  method Part2(blueprints: seq<Blueprint>) returns (total: Option<nat>, geodes: seq<nat>, ghost explored: seq<set<Entry>>)
    ensures total.Some? ==> |geodes| == Min(3, |blueprints|) && total.value == Product(geodes)
    ensures total.Some? ==> (|explored| == |geodes| &&
      forall i :: 0 <= i < |geodes| ==> Explored(blueprints[i], 32, explored[i], geodes[i]))
  {
    var minutes: nat := 32;
    var product := 1;
    geodes, explored := [], [];
    for idx := 0 to Min(3, |blueprints|)
      invariant |geodes| == idx && |explored| == idx && product == Product(geodes)
      invariant forall i :: 0 <= i < idx ==> Explored(blueprints[i], minutes, explored[i], geodes[i])
    {
      var result, generated := Search(blueprints[idx], Start, minutes);
      if result.None? {
        return None, geodes, explored;
      }
      var g := result.value.resources[GeodeKind];
      ExploredAppend(blueprints, geodes, explored, minutes, result.value, generated);
      ProductAppend(geodes, g);
      product := product * g;
      geodes, explored := geodes + [g], explored + [generated];
    }
    total := Some(product);
  }

  /** From the start of the first sample blueprint nothing is affordable: waiting is the only move. */
  lemma SampleFirstMinute()
    ensures Successors(Blueprint(4, 2, (3, 14), (2, 7)), 24, 0, 0, Start) == [Idle(0, 0, Start)]
  {
  }
}
