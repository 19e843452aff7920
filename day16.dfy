/**
 * Day 16: a network of valves joined by tunnels, each valve with a flow
 * rate. Walking a tunnel takes a minute and so does opening a valve; an
 * open valve releases its flow rate every remaining minute. The shortest
 * tunnel distances between the relevant valves are found by breadth-first
 * search, and a memoised knapsack over the positive-flow valves gives the
 * most pressure that can be released in 30 minutes (part 1), or by two
 * walkers in 26 minutes each, the second taking the valves the first
 * left over (part 2).
 */
module Day16 {
  import opened Wrappers

  datatype Valve = Valve(name: string, flow: nat, tunnels: seq<string>)

  /** The parsed valves, by name. */
  type Valves = map<string, Valve>

  /**
   * The distance table, keyed by (from, to). The source nests two maps;
   * a missing outer or inner key panics alike, so one map on pairs has the
   * same lookups.
   */
  type Distances = map<(string, string), nat>

  /** Where both walkers start. */
  const Start: string := "AA"

  // ------------------------------------------------------------ walks

  /** `b` is one of the tunnels leading out of valve `a`. */
  predicate Linked(valves: Valves, a: string, b: string)
  {
    a in valves && b in valves[a].tunnels
  }

  /** `w` is a walk through the tunnels starting at `from`; it takes `|w| - 1` minutes. */
  predicate IsWalk(valves: Valves, from: string, w: seq<string>)
    decreases |w|
  {
    if |w| <= 1 then w == [from]
    else IsWalk(valves, from, w[..|w| - 1]) && Linked(valves, w[|w| - 2], w[|w| - 1])
  }

  ghost predicate Reachable(valves: Valves, from: string, to: string)
  {
    exists w :: IsWalk(valves, from, w) && w[|w| - 1] == to
  }

  /** The minutes a walk takes. */
  function Minutes(w: seq<string>): int
  {
    |w| - 1
  }

  /** No walk from `from` reaches `v` in fewer than `d` minutes. */
  ghost predicate AtLeast(valves: Valves, from: string, v: string, d: nat)
  {
    forall w {:trigger Minutes(w)} :: IsWalk(valves, from, w) && w[|w| - 1] == v ==> d <= Minutes(w)
  }

  /** `d` is the length of a shortest walk from `from` to `to`. */
  ghost predicate Shortest(valves: Valves, from: string, to: string, d: nat)
  {
    (exists w :: IsWalk(valves, from, w) && |w| == d + 1 && w[|w| - 1] == to)
    && AtLeast(valves, from, to, d)
  }

  /** Every tunnel leads to a valve of the map. */
  predicate Closed(valves: Valves)
  {
    forall a, b :: a in valves && b in valves[a].tunnels ==> b in valves
  }

  lemma WalkExtend(valves: Valves, from: string, w: seq<string>, t: string)
    requires IsWalk(valves, from, w) && Linked(valves, w[|w| - 1], t)
    ensures IsWalk(valves, from, w + [t])
  {
    assert (w + [t])[..|w|] == w;
  }

  lemma WalkPrefix(valves: Valves, from: string, w: seq<string>)
    requires IsWalk(valves, from, w) && |w| >= 2
    ensures IsWalk(valves, from, w[..|w| - 1])
    ensures Linked(valves, w[|w| - 2], w[|w| - 1])
  {
  }

  lemma WalkStart(valves: Valves, from: string, w: seq<string>)
    requires IsWalk(valves, from, w)
    ensures |w| >= 1 && w[0] == from
    decreases |w|
  {
    if |w| > 1 {
      WalkStart(valves, from, w[..|w| - 1]);
    }
  }

  // ------------------------------------------------------------ breadth-first search

  /** What `shortest_distance` ends with; `Broken` is the panic on a tunnel to a missing valve. */
  datatype Search = Reached(steps: nat) | Unreachable | Broken

  type Entry = (nat, string)

  /** Levels in the queue never decrease and span at most one. */
  predicate Layered(queue: seq<Entry>)
  {
    Sorted(queue) && forall i :: 0 <= i < |queue| ==> queue[i].0 <= queue[0].0 + 1
  }

  /** Levels never decrease along the queue. */
  predicate Sorted(queue: seq<Entry>)
  {
    |queue| <= 1 || (queue[0].0 <= queue[1].0 && Sorted(queue[1..]))
  }

  /** The front of a sorted queue has the lowest level. */
  lemma {:induction false} SortedFront(queue: seq<Entry>, i: nat)
    requires Sorted(queue) && i < |queue|
    ensures queue[0].0 <= queue[i].0
  {
    if i > 0 {
      SortedFront(queue[1..], i - 1);
    }
  }

  /** Appending an entry no lower than every level keeps a queue sorted. */
  lemma {:induction false} SortedSnoc(queue: seq<Entry>, e: Entry)
    requires Sorted(queue) && forall i :: 0 <= i < |queue| ==> queue[i].0 <= e.0
    ensures Sorted(queue + [e])
  {
    if |queue| >= 1 {
      assert (queue + [e])[1..] == queue[1..] + [e];
      SortedSnoc(queue[1..], e);
    }
  }

  /** Some queue entry for `t` has level at most `bound`. */
  predicate HasEntry(queue: seq<Entry>, t: string, bound: nat)
  {
    exists i :: 0 <= i < |queue| && queue[i].1 == t && queue[i].0 <= bound
  }

  /** `w` is a walk to the entry's valve taking the entry's level in minutes. */
  ghost predicate Tracks(valves: Valves, from: string, e: Entry, w: seq<string>)
  {
    IsWalk(valves, from, w) && |w| == e.0 + 1 && w[|w| - 1] == e.1
  }

  /** Each queue entry comes with a walk of its level's length to its valve. */
  ghost predicate Traced(valves: Valves, from: string, queue: seq<Entry>, paths: seq<seq<string>>)
  {
    |paths| == |queue| && forall i :: 0 <= i < |queue| ==> Tracks(valves, from, queue[i], paths[i])
  }

  /**
   * The search's frontier: `level` holds the level each visited valve was
   * popped at, which no walk beats, and every unvisited tunnel of a visited
   * valve waits in the queue one level further on.
   */
  ghost predicate Frontier(valves: Valves, from: string, queue: seq<Entry>, visited: set<string>, level: map<string, nat>)
  {
    level.Keys == visited && visited <= valves.Keys && Layered(queue)
    && (from in visited || HasEntry(queue, from, 0))
    && Waiting(valves, queue, visited, level)
    && Settled(valves, from, visited, level)
  }

  /** Every unvisited tunnel of a visited valve waits in the queue at most one level past that valve's. */
  predicate Waiting(valves: Valves, queue: seq<Entry>, visited: set<string>, level: map<string, nat>)
    requires level.Keys == visited && visited <= valves.Keys
  {
    forall v, t :: v in visited && t in valves[v].tunnels && t !in visited ==> HasEntry(queue, t, level[v] + 1)
  }

  /** No walk reaches a visited valve in fewer minutes than the level it was popped at. */
  ghost predicate Settled(valves: Valves, from: string, visited: set<string>, level: map<string, nat>)
    requires level.Keys == visited
  {
    forall v :: v in visited ==> AtLeast(valves, from, v, level[v])
  }

  /** How many queue entries name a valve already visited. */
  function Stale(queue: seq<Entry>, visited: set<string>): nat
  {
    if queue == [] then 0 else (if queue[0].1 in visited then 1 else 0) + Stale(queue[1..], visited)
  }

  lemma {:induction false} StaleAppend(queue: seq<Entry>, more: seq<Entry>, visited: set<string>)
    requires forall i :: 0 <= i < |more| ==> more[i].1 !in visited
    ensures Stale(queue + more, visited) == Stale(queue, visited)
    decreases |queue|, |more|
  {
    if queue == [] {
      if more != [] {
        assert ([] + more)[1..] == [] + more[1..];
        StaleAppend([], more[1..], visited);
      }
    } else {
      assert (queue + more)[1..] == queue[1..] + more;
      StaleAppend(queue[1..], more, visited);
    }
  }

  lemma SplitAt(q: seq<Entry>, n: nat)
    requires n <= |q|
    ensures q == q[..n] + q[n..]
  {
  }

  lemma EntryBound(queue: seq<Entry>, t: string, bound: nat)
    requires Layered(queue) && HasEntry(queue, t, bound)
    ensures queue != [] && queue[0].0 <= bound
  {
    var i :| 0 <= i < |queue| && queue[i].1 == t && queue[i].0 <= bound;
    SortedFront(queue, i);
  }

  lemma HasEntryKept(queue: seq<Entry>, more: seq<Entry>, t: string, bound: nat)
    requires HasEntry(queue, t, bound) && queue[0].1 != t
    ensures HasEntry(queue[1..] + more, t, bound)
  {
    var i :| 0 <= i < |queue| && queue[i].1 == t && queue[i].0 <= bound;
    assert (queue[1..] + more)[i - 1] == queue[i];
  }

  lemma HasEntryPushed(rest: seq<Entry>, more: seq<Entry>, t: string, bound: nat)
    requires HasEntry(more, t, bound)
    ensures HasEntry(rest + more, t, bound)
  {
    var i :| 0 <= i < |more| && more[i].1 == t && more[i].0 <= bound;
    assert (rest + more)[|rest| + i] == more[i];
  }

  /**
   * The heart of the search's correctness: a walk to a valve not yet
   * visited is no shorter than the front entry's level.
   */
  lemma {:induction false} FrontBound(valves: Valves, from: string, queue: seq<Entry>, visited: set<string>,
                                      level: map<string, nat>, w: seq<string>)
    requires Frontier(valves, from, queue, visited, level)
    requires IsWalk(valves, from, w) && w[|w| - 1] !in visited
    ensures queue != [] && queue[0].0 <= |w| - 1
    decreases |w|
  {
    if |w| == 1 {
      EntryBound(queue, from, 0);
    } else {
      WalkPrefix(valves, from, w);
      var u := w[|w| - 2];
      if u in visited {
        assert Waiting(valves, queue, visited, level) && Settled(valves, from, visited, level);
        assert AtLeast(valves, from, u, level[u]);
        assert level[u] <= Minutes(w[..|w| - 1]);
        EntryBound(queue, w[|w| - 1], level[u] + 1);
      } else {
        FrontBound(valves, from, queue, visited, level, w[..|w| - 1]);
      }
    }
  }

  /** Appending entries one level past the front keeps the queue layered. */
  lemma {:induction false} LayeredNext(queue: seq<Entry>, more: seq<Entry>)
    requires Layered(queue) && queue != []
    requires forall i :: 0 <= i < |more| ==> more[i].0 == queue[0].0 + 1
    ensures Layered(queue[1..] + more)
    decreases |more|
  {
    if more == [] {
      assert queue[1..] + more == queue[1..];
      if |queue| > 1 {
        forall i | 0 <= i < |queue| - 1
          ensures queue[1..][i].0 <= queue[1].0 + 1
        {
          SortedFront(queue, 1);
          assert queue[1..][i] == queue[i + 1];
        }
      }
    } else {
      var front := more[..|more| - 1];
      LayeredNext(queue, front);
      var next := queue[1..] + front;
      assert queue[1..] + more == next + [more[|more| - 1]];
      SortedSnoc(next, more[|more| - 1]);
      var longer := next + [more[|more| - 1]];
      assert longer[0].0 >= queue[0].0 by {
        if |queue| > 1 {
          assert longer[0] == queue[1];
          SortedFront(queue, 1);
        } else {
          assert longer[0] == more[0];
        }
      }
      forall i | 0 <= i < |longer|
        ensures longer[i].0 <= longer[0].0 + 1
      {
        if i < |next| {
          assert longer[i] == next[i];
          if i < |queue| - 1 {
            assert next[i] == queue[i + 1];
          } else {
            assert next[i] == more[i - (|queue| - 1)];
          }
        }
      }
    }
  }

  /** Every unvisited tunnel of a visited valve still waits in the queue after a pop. */
  lemma WaitingKept(valves: Valves, queue: seq<Entry>, visited: set<string>, level: map<string, nat>, more: seq<Entry>)
    requires queue != [] && queue[0].1 in valves && level.Keys == visited && visited <= valves.Keys
    requires Waiting(valves, queue, visited, level)
    requires forall t :: t in valves[queue[0].1].tunnels && t !in visited ==> HasEntry(more, t, queue[0].0 + 1)
    ensures Waiting(valves, queue[1..] + more, visited + {queue[0].1},
                    if queue[0].1 in visited then level else level[queue[0].1 := queue[0].0])
  {
    var pos, f := queue[0].1, queue[0].0;
    var level' := if pos in visited then level else level[pos := f];
    forall v, t | v in visited + {pos} && t in valves[v].tunnels && t !in visited + {pos}
      ensures HasEntry(queue[1..] + more, t, level'[v] + 1)
    {
      if v == pos && pos !in visited {
        HasEntryPushed(queue[1..], more, t, f + 1);
      } else {
        HasEntryKept(queue, more, t, level[v] + 1);
      }
    }
  }

  /** A valve popped for the first time is settled at the front entry's level. */
  lemma SettledKept(valves: Valves, from: string, queue: seq<Entry>, visited: set<string>, level: map<string, nat>)
    requires Frontier(valves, from, queue, visited, level)
    requires queue != []
    ensures Settled(valves, from, visited + {queue[0].1},
                    if queue[0].1 in visited then level else level[queue[0].1 := queue[0].0])
  {
    var pos, f := queue[0].1, queue[0].0;
    if pos !in visited {
      forall w | IsWalk(valves, from, w) && w[|w| - 1] == pos
        ensures f <= Minutes(w)
      {
        FrontBound(valves, from, queue, visited, level, w);
      }
      var level' := level[pos := f];
      forall v | v in visited + {pos}
        ensures AtLeast(valves, from, v, level'[v])
      {
        if v != pos {
          assert level'[v] == level[v];
        }
      }
    }
  }

  /**
   * Popping the front entry and pushing `more`, one entry one level on for
   * each unvisited tunnel of the popped valve, keeps the frontier.
   */
  lemma PopKeeps(valves: Valves, from: string, queue: seq<Entry>, visited: set<string>, level: map<string, nat>,
                 more: seq<Entry>)
    requires Frontier(valves, from, queue, visited, level)
    requires queue != [] && queue[0].1 in valves
    requires forall i :: 0 <= i < |more| ==> more[i].0 == queue[0].0 + 1
    requires forall t :: t in valves[queue[0].1].tunnels && t !in visited ==> HasEntry(more, t, queue[0].0 + 1)
    ensures Frontier(valves, from, queue[1..] + more, visited + {queue[0].1},
                     if queue[0].1 in visited then level else level[queue[0].1 := queue[0].0])
  {
    var pos := queue[0].1;
    LayeredNext(queue, more);
    if from !in visited + {pos} {
      HasEntryKept(queue, more, from, 0);
    }
    WaitingKept(valves, queue, visited, level, more);
    SettledKept(valves, from, queue, visited, level);
  }

  /**
   * The inner loop of `shortest_distance`: push every tunnel of the popped
   * valve that is not yet visited, one level past the popped entry; `walk`
   * is the popped entry's walk, which each push extends by one tunnel.
   */
  method Enqueue(valves: Valves, from: string, queue: seq<Entry>, ghost paths: seq<seq<string>>,
                 tunnels: seq<string>, visited: set<string>, d: nat, ghost walk: seq<string>)
    returns (queue': seq<Entry>, ghost paths': seq<seq<string>>)
    requires Traced(valves, from, queue, paths)
    requires IsWalk(valves, from, walk) && |walk| == d && walk[|walk| - 1] in valves
    requires tunnels == valves[walk[|walk| - 1]].tunnels
    ensures Traced(valves, from, queue', paths')
    ensures |queue| <= |queue'| && queue'[..|queue|] == queue
    ensures forall i :: |queue| <= i < |queue'| ==> queue'[i].0 == d && queue'[i].1 !in visited
    ensures forall t :: t in tunnels && t !in visited ==> HasEntry(queue'[|queue|..], t, d)
  {
    queue', paths' := queue, paths;
    for k := 0 to |tunnels|
      invariant Traced(valves, from, queue', paths')
      invariant |queue| <= |queue'| && queue'[..|queue|] == queue
      invariant forall i :: |queue| <= i < |queue'| ==> queue'[i].0 == d && queue'[i].1 !in visited
      invariant forall j :: 0 <= j < k && tunnels[j] !in visited ==> HasEntry(queue'[|queue|..], tunnels[j], d)
    {
      var tunnel := tunnels[k];
      if tunnel !in visited {
        assert Linked(valves, walk[|walk| - 1], tunnel);
        WalkExtend(valves, from, walk, tunnel);
        ghost var before := queue';
        queue' := queue' + [(d, tunnel)];
        paths' := paths' + [walk + [tunnel]];
        assert queue'[|queue|..] == before[|queue|..] + [(d, tunnel)];
        forall j | 0 <= j < k && tunnels[j] !in visited
          ensures HasEntry(queue'[|queue|..], tunnels[j], d)
        {
          HasEntryPushed([], before[|queue|..], tunnels[j], d);
          var i :| 0 <= i < |before[|queue|..]| && before[|queue|..][i].1 == tunnels[j] && before[|queue|..][i].0 <= d;
          assert queue'[|queue|..][i] == before[|queue|..][i];
        }
        assert queue'[|queue|..][|queue'| - 1 - |queue|] == (d, tunnel);
      }
    }
  }

  lemma TracedTail(valves: Valves, from: string, queue: seq<Entry>, paths: seq<seq<string>>)
    requires Traced(valves, from, queue, paths) && queue != []
    ensures Traced(valves, from, queue[1..], paths[1..])
  {
    forall i | 0 <= i < |queue| - 1
      ensures Tracks(valves, from, queue[1..][i], paths[1..][i])
    {
      assert queue[1..][i] == queue[i + 1] && paths[1..][i] == paths[i + 1];
    }
  }

  /**
   * One round of `shortest_distance` past the two early exits: pop the
   * front entry, push its valve's unvisited tunnels and mark it visited.
   * Either a new valve is visited or one stale entry leaves the queue.
   */
  method Expand(valves: Valves, from: string, queue: seq<Entry>, visited: set<string>,
                ghost level: map<string, nat>, ghost paths: seq<seq<string>>)
    returns (queue': seq<Entry>, visited': set<string>, ghost level': map<string, nat>, ghost paths': seq<seq<string>>)
    requires Frontier(valves, from, queue, visited, level) && Traced(valves, from, queue, paths)
    requires queue != [] && queue[0].1 in valves
    ensures Frontier(valves, from, queue', visited', level') && Traced(valves, from, queue', paths')
    ensures visited' == visited + {queue[0].1}
    ensures |valves.Keys - visited'| < |valves.Keys - visited|
            || (visited' == visited && Stale(queue', visited') < Stale(queue, visited))
  {
    var (distance, pos) := queue[0];
    ghost var walk := paths[0];
    var rest := queue[1..];
    TracedTail(valves, from, queue, paths);
    queue', paths' := Enqueue(valves, from, rest, paths[1..], valves[pos].tunnels, visited, distance + 1, walk);
    ghost var more := queue'[|rest|..];
    SplitAt(queue', |rest|);
    PopKeeps(valves, from, queue, visited, level, more);
    StaleAppend(rest, more, visited);
    if pos !in visited {
      assert valves.Keys - visited == (valves.Keys - (visited + {pos})) + {pos};
    }
    level' := if pos in visited then level else level[pos := distance];
    visited' := visited + {pos};
  }

  /** The first time a valve is popped, its entry's level is its shortest distance. */
  lemma FoundShortest(valves: Valves, from: string, queue: seq<Entry>, visited: set<string>,
                      level: map<string, nat>, paths: seq<seq<string>>)
    requires Frontier(valves, from, queue, visited, level) && Traced(valves, from, queue, paths)
    requires queue != [] && queue[0].1 !in visited
    ensures Shortest(valves, from, queue[0].1, queue[0].0)
  {
    assert Tracks(valves, from, queue[0], paths[0]);
    forall w | IsWalk(valves, from, w) && w[|w| - 1] == queue[0].1
      ensures queue[0].0 <= Minutes(w)
    {
      FrontBound(valves, from, queue, visited, level, w);
    }
  }

  /** A popped name that is no valve was reached through a tunnel to nowhere, or is `from` itself. */
  lemma FoundBroken(valves: Valves, from: string, queue: seq<Entry>, paths: seq<seq<string>>)
    requires Traced(valves, from, queue, paths)
    requires queue != [] && queue[0].1 !in valves
    ensures !(from in valves && Closed(valves))
  {
    var walk := paths[0];
    assert Tracks(valves, from, queue[0], walk);
    if |walk| >= 2 {
      WalkPrefix(valves, from, walk);
    }
  }

  /** When the queue runs dry, no walk reaches a valve that was never visited. */
  lemma DrainedUnreachable(valves: Valves, from: string, visited: set<string>, level: map<string, nat>, to: string)
    requires Frontier(valves, from, [], visited, level) && to !in visited
    ensures !Reachable(valves, from, to)
  {
    forall w | IsWalk(valves, from, w) && w[|w| - 1] == to
      ensures false
    {
      FrontBound(valves, from, [], visited, level, w);
    }
  }

  /**
   * `shortest_distance`: breadth-first search from `from`, a valve marked
   * visited when it is popped and a tunnel pushed when it is not yet
   * visited, so a valve may sit in the queue more than once. The result
   * is the length of a shortest walk; Unreachable when the queue empties.
   */
  method ShortestDistance(valves: Valves, from: string, to: string) returns (r: Search)
    ensures r.Reached? ==> Shortest(valves, from, to, r.steps)
    ensures r.Unreachable? ==> !Reachable(valves, from, to)
    ensures r.Broken? ==> !(from in valves && Closed(valves))
  {
    var queue: seq<Entry> := [(0, from)];
    var visited: set<string> := {};
    ghost var paths: seq<seq<string>> := [[from]];
    ghost var level: map<string, nat> := map[];
    assert HasEntry(queue, from, 0) by { assert queue[0] == (0, from); }
    while queue != []
      invariant Frontier(valves, from, queue, visited, level)
      invariant Traced(valves, from, queue, paths)
      invariant to !in visited
      decreases |valves.Keys - visited|, Stale(queue, visited)
    {
      var (distance, pos) := queue[0];
      if pos == to {
        FoundShortest(valves, from, queue, visited, level, paths);
        return Reached(distance);
      }
      if pos !in valves {
        FoundBroken(valves, from, queue, paths);
        return Broken;
      }
      queue, visited, level, paths := Expand(valves, from, queue, visited, level, paths);
    }
    DrainedUnreachable(valves, from, visited, level, to);
    return Unreachable;
  }

  /** A valve is zero minutes from itself, so `shortest_distance(v, v)` is Some(0). */
  lemma ShortestSelf(valves: Valves, v: string, d: nat)
    requires Shortest(valves, v, v, d)
    ensures d == 0
  {
    assert IsWalk(valves, v, [v]) && Minutes([v]) == 0;
  }

  /** The shortest distance is unique. */
  lemma ShortestUnique(valves: Valves, from: string, to: string, d: nat, e: nat)
    requires Shortest(valves, from, to, d) && Shortest(valves, from, to, e)
    ensures d == e
  {
    var w :| IsWalk(valves, from, w) && |w| == d + 1 && w[|w| - 1] == to;
    var u :| IsWalk(valves, from, u) && |u| == e + 1 && u[|u| - 1] == to;
    assert e <= Minutes(w) && d <= Minutes(u);
  }

  // ------------------------------------------------------------ the distance table

  /** The pairs `shortest_distances` measures: one end is AA, or both valves release pressure. */
  predicate Eligible(valves: Valves, a: string, b: string)
    requires a in valves && b in valves
  {
    a == Start || b == Start || (valves[a].flow > 0 && valves[b].flow > 0)
  }

  /** `order` lists every valve name once: the iteration order of the valve map. */
  predicate IsOrder(valves: Valves, order: seq<string>)
  {
    (forall i, j :: 0 <= i < j < |order| ==> order[i] != order[j])
    && Covers(valves, order)
  }

  /** `order` lists valve names and every valve is in it. */
  predicate Covers(valves: Valves, order: seq<string>)
  {
    (forall i :: 0 <= i < |order| ==> order[i] in valves)
    && (forall n :: n in valves ==> n in order)
  }

  /**
   * What the table holds for the pair of `a` listed before `b`: entries in
   * both directions, equal, exactly when the pair is eligible and `b` can
   * be reached from `a`, holding the shortest distance from `a` to `b`.
   */
  ghost predicate Recorded(valves: Valves, dist: Distances, a: string, b: string)
    requires a in valves && b in valves
  {
    ((a, b) in dist <==> Eligible(valves, a, b) && Reachable(valves, a, b))
    && ((b, a) in dist <==> (a, b) in dist)
    && ((a, b) in dist ==> dist[(a, b)] == dist[(b, a)] && Shortest(valves, a, b, dist[(a, b)]))
  }

  /** Neither direction of the pair is in the table yet. */
  predicate Absent(dist: Distances, a: string, b: string)
  {
    (a, b) !in dist && (b, a) !in dist
  }

  /** Pair `(i, j)` comes before `(i0, j0)` in the order the two loops visit pairs. */
  predicate Done(i: nat, j: nat, i0: nat, j0: nat)
  {
    i < i0 || (i == i0 && j < j0)
  }

  /** Pair `(i, j)` of the order, recorded when it is done and absent otherwise. */
  ghost predicate PairState(valves: Valves, order: seq<string>, dist: Distances, i: nat, j: nat, done: bool)
    requires Covers(valves, order) && i < j < |order|
  {
    if done then Recorded(valves, dist, order[i], order[j]) else Absent(dist, order[i], order[j])
  }

  /** Pair `(i, j)` in the state the loops leave it in once they reach pair `(i0, j0)`. */
  ghost predicate PairAt(valves: Valves, order: seq<string>, dist: Distances, i: nat, j: nat, i0: nat, j0: nat)
    requires Covers(valves, order) && i < j < |order|
  {
    PairState(valves, order, dist, i, j, Done(i, j, i0, j0))
  }

  /** Every key of the table pairs two different valves. */
  predicate KeysValid(valves: Valves, dist: Distances)
  {
    forall k :: k in dist ==> k.0 in valves && k.1 in valves && k.0 != k.1
  }

  /** The state of the table once the pairs before `(i0, j0)` (in loop order) are done. */
  ghost predicate TableUpTo(valves: Valves, order: seq<string>, dist: Distances, i0: nat, j0: nat)
    requires Covers(valves, order)
  {
    KeysValid(valves, dist)
    && forall i, j :: 0 <= i < j < |order| ==> PairAt(valves, order, dist, i, j, i0, j0)
  }

  /** A pair's state depends on its two keys only. */
  lemma PairFrame(valves: Valves, order: seq<string>, before: Distances, after: Distances, i: nat, j: nat, done: bool)
    requires Covers(valves, order) && i < j < |order|
    requires PairState(valves, order, before, i, j, done)
    requires (order[i], order[j]) in after <==> (order[i], order[j]) in before
    requires (order[j], order[i]) in after <==> (order[j], order[i]) in before
    requires (order[i], order[j]) in before ==> after[(order[i], order[j])] == before[(order[i], order[j])]
    requires (order[j], order[i]) in before ==> after[(order[j], order[i])] == before[(order[j], order[i])]
    ensures PairState(valves, order, after, i, j, done)
  {
  }

  /** Pairs `(idx, j)` with `j <= idx` do not exist, so a row starts where the last one ended. */
  lemma TableRowStart(valves: Valves, order: seq<string>, dist: Distances, idx: nat)
    requires Covers(valves, order) && TableUpTo(valves, order, dist, idx, 0)
    ensures TableUpTo(valves, order, dist, idx, idx + 1)
  {
    var j1 := idx + 1;
    forall i, j | 0 <= i < j < |order|
      ensures PairAt(valves, order, dist, i, j, idx, j1)
    {
      assert PairAt(valves, order, dist, i, j, idx, 0);
      assert Done(i, j, idx, j1) == Done(i, j, idx, 0);
    }
  }

  lemma TableNextRow(valves: Valves, order: seq<string>, dist: Distances, idx: nat)
    requires Covers(valves, order) && TableUpTo(valves, order, dist, idx, |order|)
    ensures TableUpTo(valves, order, dist, idx + 1, 0)
  {
    var i1 := idx + 1;
    forall i, j | 0 <= i < j < |order|
      ensures PairAt(valves, order, dist, i, j, i1, 0)
    {
      assert PairAt(valves, order, dist, i, j, idx, |order|);
      assert Done(i, j, i1, 0) == Done(i, j, idx, |order|);
    }
  }

  lemma TableDone(valves: Valves, order: seq<string>, dist: Distances)
    requires Covers(valves, order) && TableUpTo(valves, order, dist, |order|, 0)
    ensures forall i, j :: 0 <= i < j < |order| ==> Recorded(valves, dist, order[i], order[j])
  {
    forall i, j | 0 <= i < j < |order|
      ensures Recorded(valves, dist, order[i], order[j])
    {
      assert PairAt(valves, order, dist, i, j, |order|, 0);
    }
  }

  /** A pair that is not eligible, or not connected, stays out of the table. */
  lemma SkipPair(valves: Valves, order: seq<string>, dist: Distances, i0: nat, j0: nat)
    requires Covers(valves, order) && i0 < j0 < |order| && TableUpTo(valves, order, dist, i0, j0)
    requires !(Eligible(valves, order[i0], order[j0]) && Reachable(valves, order[i0], order[j0]))
    ensures TableUpTo(valves, order, dist, i0, j0 + 1)
  {
    var j1 := j0 + 1;
    forall i, j | 0 <= i < j < |order|
      ensures PairAt(valves, order, dist, i, j, i0, j1)
    {
      assert PairAt(valves, order, dist, i, j, i0, j0);
      if (i, j) != (i0, j0) {
        assert Done(i, j, i0, j1) == Done(i, j, i0, j0);
      }
    }
  }

  /** Storing the distance of pair `(i0, j0)` both ways leaves every other pair as it was. */
  lemma AddPair(valves: Valves, order: seq<string>, before: Distances, after: Distances, i0: nat, j0: nat, d: nat)
    requires IsOrder(valves, order) && i0 < j0 < |order| && TableUpTo(valves, order, before, i0, j0)
    requires Eligible(valves, order[i0], order[j0]) && Shortest(valves, order[i0], order[j0], d)
    requires after == before[(order[i0], order[j0]) := d][(order[j0], order[i0]) := d]
    ensures TableUpTo(valves, order, after, i0, j0 + 1)
  {
    assert KeysValid(valves, after);
    PairsAfter(valves, order, before, after, i0, j0, d, j0 + 1);
  }

  /** Every pair is in its final state for `(i0, j1)` once `(i0, j0)` is stored. */
  lemma PairsAfter(valves: Valves, order: seq<string>, before: Distances, after: Distances, i0: nat, j0: nat, d: nat,
                   j1: nat)
    requires IsOrder(valves, order) && i0 < j0 < |order| && j1 == j0 + 1
    requires forall i, j :: 0 <= i < j < |order| ==> PairAt(valves, order, before, i, j, i0, j0)
    requires Eligible(valves, order[i0], order[j0]) && Shortest(valves, order[i0], order[j0], d)
    requires after == before[(order[i0], order[j0]) := d][(order[j0], order[i0]) := d]
    ensures forall i, j :: 0 <= i < j < |order| ==> PairAt(valves, order, after, i, j, i0, j1)
  {
    var a, b := order[i0], order[j0];
    assert Reachable(valves, a, b);
    forall i, j | 0 <= i < j < |order|
      ensures PairAt(valves, order, after, i, j, i0, j1)
    {
      if (i, j) == (i0, j0) {
        assert Recorded(valves, after, a, b);
      } else {
        assert PairAt(valves, order, before, i, j, i0, j0);
        OtherPair(valves, order, before, after, i0, j0, d, i, j);
      }
    }
  }

  /** A pair other than `(i0, j0)` keeps its state when `(i0, j0)` is stored. */
  lemma OtherPair(valves: Valves, order: seq<string>, before: Distances, after: Distances, i0: nat, j0: nat, d: nat,
                  i: nat, j: nat)
    requires IsOrder(valves, order) && i0 < j0 < |order| && i < j < |order| && (i, j) != (i0, j0)
    requires PairAt(valves, order, before, i, j, i0, j0)
    requires after == before[(order[i0], order[j0]) := d][(order[j0], order[i0]) := d]
    ensures PairAt(valves, order, after, i, j, i0, j0 + 1)
  {
    assert order[i] != order[i0] || order[j] != order[j0];
    assert order[i] != order[j0] || order[j] != order[i0];
    assert Done(i, j, i0, j0 + 1) == Done(i, j, i0, j0);
    PairFrame(valves, order, before, after, i, j, Done(i, j, i0, j0));
  }

  /**
   * The body of the inner loop of `shortest_distances` for pair
   * `(idx, j)`: measure it when it is eligible and store a distance found.
   */
  method MeasurePair(valves: Valves, order: seq<string>, dist: Distances, idx: nat, j: nat) returns (r: Option<Distances>)
    requires IsOrder(valves, order) && idx < j < |order| && TableUpTo(valves, order, dist, idx, j)
    ensures r.None? ==> !Closed(valves)
    ensures r.Some? ==> TableUpTo(valves, order, r.value, idx, j + 1)
  {
    var from, to := order[idx], order[j];
    if !Eligible(valves, from, to) {
      SkipPair(valves, order, dist, idx, j);
      return Some(dist);
    }
    var found := ShortestDistance(valves, from, to);
    match found {
      case Broken =>
        return None;
      case Unreachable =>
        SkipPair(valves, order, dist, idx, j);
        return Some(dist);
      case Reached(d) =>
        var after := dist[(from, to) := d][(to, from) := d];
        AddPair(valves, order, dist, after, idx, j, d);
        return Some(after);
    }
  }

  /**
   * `shortest_distances`: for each pair of valves, the earlier one in
   * iteration order first, the breadth-first distance stored both ways
   * when the pair is eligible and connected. None is the panic of the
   * search on a tunnel to a missing valve.
   */
  method ShortestDistances(valves: Valves, order: seq<string>) returns (r: Option<Distances>)
    requires IsOrder(valves, order)
    ensures r.None? ==> !Closed(valves)
    ensures r.Some? ==> forall k :: k in r.value ==> k.0 in valves && k.1 in valves && k.0 != k.1
    ensures r.Some? ==> forall i, j :: 0 <= i < j < |order| ==> Recorded(valves, r.value, order[i], order[j])
  {
    var dist: Distances := map[];
    for idx := 0 to |order|
      invariant TableUpTo(valves, order, dist, idx, 0)
    {
      TableRowStart(valves, order, dist, idx);
      for j := idx + 1 to |order|
        invariant TableUpTo(valves, order, dist, idx, j)
      {
        var next := MeasurePair(valves, order, dist, idx, j);
        if next.None? {
          return None;
        }
        dist := next.value;
      }
      TableNextRow(valves, order, dist, idx);
    }
    TableDone(valves, order, dist);
    return Some(dist);
  }

  // ---------------------------------------------------------------------
  // Choosing valves: the search of `knapsack` and `knapsack_with_path`.

  /** Pressure a valve of rate `flow` releases when it stays open for `minutes`. */
  function Reward(flow: nat, minutes: nat): nat
  {
    flow * minutes
  }

  /**
   * The pressure released by opening the valves of `plan`, starting at
   * `pos` with `time` minutes left: walk to each valve along its tabled
   * distance and spend a minute opening it. A plan lists its valves LAST
   * FIRST, the way `knapsack_with_path` builds it (it pushes a valve after
   * the plan of the rest). None when a distance is missing or a valve
   * cannot be opened while time is left.
   */
  function Release(valves: Valves, dist: Distances, pos: string, time: nat, plan: seq<string>): Option<nat>
    decreases |plan|
  {
    if plan == [] then Some(0)
    else
      var name := plan[|plan| - 1];
      if name !in valves || (pos, name) !in dist || dist[(pos, name)] + 1 >= time then None
      else
        var left := time - dist[(pos, name)] - 1;
        match Release(valves, dist, name, left, plan[..|plan| - 1])
        case None => None
        case Some(rest) => Some(rest + Reward(valves[name].flow, left))
  }

  /** Every valve of `plan` is in `valves`, none is in `chosen` and none repeats. */
  predicate Fresh(valves: Valves, chosen: set<string>, plan: seq<string>)
    decreases |plan|
  {
    plan == []
    || (var name := plan[|plan| - 1];
        name in valves && name !in chosen && Fresh(valves, chosen + {name}, plan[..|plan| - 1]))
  }

  /** `v` is released by some plan and no plan releases more. */
  ghost predicate Optimal(valves: Valves, dist: Distances, pos: string, chosen: set<string>, time: nat, v: nat)
  {
    (exists plan :: Fresh(valves, chosen, plan) && Release(valves, dist, pos, time, plan) == Some(v))
    && (forall plan :: Fresh(valves, chosen, plan) && Release(valves, dist, pos, time, plan).Some?
          ==> Release(valves, dist, pos, time, plan).value <= v)
  }

  lemma Shrinks(valves: Valves, chosen: set<string>, name: string)
    requires name in valves && name !in chosen
    ensures |valves.Keys - (chosen + {name})| < |valves.Keys - chosen|
  {
    assert valves.Keys - chosen == (valves.Keys - (chosen + {name})) + {name};
  }

  /**
   * The value `knapsack` computes at `pos` with `chosen` already open and
   * `time` minutes left, the valves tried in the iteration order `order`.
   * None is the panic on a missing distance.
   */
  function Best(valves: Valves, order: seq<string>, dist: Distances, pos: string, chosen: set<string>, time: nat)
    : Option<nat>
    requires Covers(valves, order)
    decreases |valves.Keys - chosen|, 1, 0
  {
    BestFrom(valves, order, dist, pos, chosen, time, 0, 0)
  }

  /** The maximum of `acc` and the candidates of `order[i..]`. */
  function BestFrom(valves: Valves, order: seq<string>, dist: Distances, pos: string, chosen: set<string>, time: nat,
                    i: nat, acc: nat): (r: Option<nat>)
    requires Covers(valves, order) && i <= |order|
    decreases |valves.Keys - chosen|, 0, |order| - i
    ensures r.Some? ==> r.value >= acc
  {
    if i == |order| then Some(acc)
    else
      var name := order[i];
      if name in chosen then BestFrom(valves, order, dist, pos, chosen, time, i + 1, acc)
      else if (pos, name) !in dist then None
      else if dist[(pos, name)] + 1 >= time then BestFrom(valves, order, dist, pos, chosen, time, i + 1, acc)
      else
        var left := time - dist[(pos, name)] - 1;
        Shrinks(valves, chosen, name);
        match Best(valves, order, dist, name, chosen + {name}, left)
        case None => None
        case Some(rest) =>
          BestFrom(valves, order, dist, pos, chosen, time, i + 1, Max(acc, rest + Reward(valves[name].flow, left)))
  }

  /** A valve already open, or too far, is not a candidate. */
  lemma BestFromSkip(valves: Valves, order: seq<string>, dist: Distances, pos: string, chosen: set<string>,
                     time: nat, i: nat, acc: nat)
    requires Covers(valves, order) && i < |order|
    requires order[i] in chosen || ((pos, order[i]) in dist && dist[(pos, order[i])] + 1 >= time)
    ensures BestFrom(valves, order, dist, pos, chosen, time, i, acc)
      == BestFrom(valves, order, dist, pos, chosen, time, i + 1, acc)
  {
  }

  /** A candidate raises the maximum to its reward plus the best of the rest. */
  lemma BestFromTake(valves: Valves, order: seq<string>, dist: Distances, pos: string, chosen: set<string>,
                     time: nat, i: nat, acc: nat, left: nat, rest: nat)
    requires Covers(valves, order) && i < |order| && order[i] !in chosen && (pos, order[i]) in dist
    requires left > 0 && left + dist[(pos, order[i])] + 1 == time
    requires Best(valves, order, dist, order[i], chosen + {order[i]}, left) == Some(rest)
    ensures BestFrom(valves, order, dist, pos, chosen, time, i, acc)
      == BestFrom(valves, order, dist, pos, chosen, time, i + 1, Max(acc, rest + Reward(valves[order[i]].flow, left)))
  {
    assert time - dist[(pos, order[i])] - 1 == left;
  }

  /** Opening `name` next, with `left` minutes then left, is worth at most `v`. */
  ghost predicate Beats(valves: Valves, order: seq<string>, dist: Distances, name: string, chosen: set<string>,
                        left: nat, v: nat)
    requires Covers(valves, order) && name in valves
  {
    Best(valves, order, dist, name, chosen + {name}, left).Some?
    && Best(valves, order, dist, name, chosen + {name}, left).value + Reward(valves[name].flow, left) <= v
  }

  /** A valve `order[j]` not yet open is a candidate the maximum covers. */
  lemma {:induction false} BestFromCovers(valves: Valves, order: seq<string>, dist: Distances, pos: string,
                                          chosen: set<string>, time: nat, i: nat, acc: nat, j: nat)
    requires Covers(valves, order) && i <= j < |order| && order[j] !in chosen
    requires BestFrom(valves, order, dist, pos, chosen, time, i, acc).Some?
    ensures (pos, order[j]) in dist
    ensures dist[(pos, order[j])] + 1 < time ==>
      Beats(valves, order, dist, order[j], chosen, time - dist[(pos, order[j])] - 1,
            BestFrom(valves, order, dist, pos, chosen, time, i, acc).value)
    decreases |order| - i
  {
    var name := order[i];
    if i < j && (name in chosen || dist[(pos, name)] + 1 >= time) {
      BestFromCovers(valves, order, dist, pos, chosen, time, i + 1, acc, j);
    } else if i < j {
      var left := time - dist[(pos, name)] - 1;
      var rest := Best(valves, order, dist, name, chosen + {name}, left).value;
      BestFromCovers(valves, order, dist, pos, chosen, time, i + 1, Max(acc, rest + Reward(valves[name].flow, left)), j);
    }
  }

  /** No plan releases more than `knapsack` computes. */
  lemma {:induction false} BestBeatsRelease(valves: Valves, order: seq<string>, dist: Distances, pos: string,
                                            chosen: set<string>, time: nat, plan: seq<string>)
    requires Covers(valves, order) && Best(valves, order, dist, pos, chosen, time).Some?
    requires Fresh(valves, chosen, plan) && Release(valves, dist, pos, time, plan).Some?
    ensures Release(valves, dist, pos, time, plan).value <= Best(valves, order, dist, pos, chosen, time).value
    decreases |plan|
  {
    if plan != [] {
      var name := plan[|plan| - 1];
      var j :| 0 <= j < |order| && order[j] == name;
      BestFromCovers(valves, order, dist, pos, chosen, time, 0, 0, j);
      var left := time - dist[(pos, name)] - 1;
      BestBeatsRelease(valves, order, dist, name, chosen + {name}, left, plan[..|plan| - 1]);
    }
  }

  /** A total with the plan that releases it (last valve first). */
  datatype Plan = Plan(total: nat, path: seq<string>)

  /** The result of `knapsack_with_path`: the last best candidate in iteration order. */
  function BestPath(valves: Valves, order: seq<string>, dist: Distances, pos: string, chosen: set<string>,
                    time: nat): Option<Plan>
    requires Covers(valves, order)
    decreases |valves.Keys - chosen|, 1, 0
  {
    PathFrom(valves, order, dist, pos, chosen, time, 0, Plan(0, []))
  }

  function PathFrom(valves: Valves, order: seq<string>, dist: Distances, pos: string, chosen: set<string>,
                    time: nat, i: nat, acc: Plan): Option<Plan>
    requires Covers(valves, order) && i <= |order|
    decreases |valves.Keys - chosen|, 0, |order| - i
  {
    if i == |order| then Some(acc)
    else
      var name := order[i];
      if name in chosen then PathFrom(valves, order, dist, pos, chosen, time, i + 1, acc)
      else if (pos, name) !in dist then None
      else if dist[(pos, name)] + 1 >= time then PathFrom(valves, order, dist, pos, chosen, time, i + 1, acc)
      else
        var left := time - dist[(pos, name)] - 1;
        Shrinks(valves, chosen, name);
        match BestPath(valves, order, dist, name, chosen + {name}, left)
        case None => None
        case Some(rest) =>
          var total := rest.total + Reward(valves[name].flow, left);
          PathFrom(valves, order, dist, pos, chosen, time, i + 1,
                   if total >= acc.total then Plan(total, rest.path + [name]) else acc)
  }

  /** A valve already open, or too far, is not a candidate for the plan either. */
  lemma PathFromSkip(valves: Valves, order: seq<string>, dist: Distances, pos: string, chosen: set<string>,
                     time: nat, i: nat, acc: Plan)
    requires Covers(valves, order) && i < |order|
    requires order[i] in chosen || ((pos, order[i]) in dist && dist[(pos, order[i])] + 1 >= time)
    ensures PathFrom(valves, order, dist, pos, chosen, time, i, acc)
      == PathFrom(valves, order, dist, pos, chosen, time, i + 1, acc)
  {
  }

  /** A candidate whose total is at least the best so far replaces it. */
  lemma PathFromTake(valves: Valves, order: seq<string>, dist: Distances, pos: string, chosen: set<string>,
                     time: nat, i: nat, acc: Plan, left: nat, rest: Plan)
    requires Covers(valves, order) && i < |order| && order[i] !in chosen && (pos, order[i]) in dist
    requires left > 0 && left + dist[(pos, order[i])] + 1 == time
    requires BestPath(valves, order, dist, order[i], chosen + {order[i]}, left) == Some(rest)
    ensures var total := rest.total + Reward(valves[order[i]].flow, left);
      PathFrom(valves, order, dist, pos, chosen, time, i, acc)
      == PathFrom(valves, order, dist, pos, chosen, time, i + 1,
                  if total >= acc.total then Plan(total, rest.path + [order[i]]) else acc)
  {
    assert time - dist[(pos, order[i])] - 1 == left;
  }

  /** Opening `name` first, then following `plan`, releases the reward of `name` on top. */
  lemma ReleaseFirst(valves: Valves, dist: Distances, pos: string, chosen: set<string>, time: nat, name: string,
                     left: nat, plan: seq<string>, total: nat)
    requires name in valves && name !in chosen && (pos, name) in dist
    requires left > 0 && left + dist[(pos, name)] + 1 == time
    requires Fresh(valves, chosen + {name}, plan) && Release(valves, dist, name, left, plan) == Some(total)
    ensures Fresh(valves, chosen, plan + [name])
    ensures Release(valves, dist, pos, time, plan + [name]) == Some(total + Reward(valves[name].flow, left))
  {
    var longer := plan + [name];
    assert longer[..|longer| - 1] == plan;
    assert time - dist[(pos, name)] - 1 == left;
  }

  /** `knapsack_with_path` panics exactly when `knapsack` does, and finds the same total. */
  lemma {:induction false} PathTotal(valves: Valves, order: seq<string>, dist: Distances, pos: string,
                                     chosen: set<string>, time: nat)
    requires Covers(valves, order)
    ensures BestPath(valves, order, dist, pos, chosen, time).Some? <==> Best(valves, order, dist, pos, chosen, time).Some?
    ensures BestPath(valves, order, dist, pos, chosen, time).Some? ==>
      BestPath(valves, order, dist, pos, chosen, time).value.total == Best(valves, order, dist, pos, chosen, time).value
    decreases |valves.Keys - chosen|, 1, 0
  {
    PathFromTotal(valves, order, dist, pos, chosen, time, 0, Plan(0, []));
  }

  lemma {:induction false} PathFromTotal(valves: Valves, order: seq<string>, dist: Distances, pos: string,
                                         chosen: set<string>, time: nat, i: nat, acc: Plan)
    requires Covers(valves, order) && i <= |order|
    ensures PathFrom(valves, order, dist, pos, chosen, time, i, acc).Some?
      <==> BestFrom(valves, order, dist, pos, chosen, time, i, acc.total).Some?
    ensures PathFrom(valves, order, dist, pos, chosen, time, i, acc).Some? ==>
      PathFrom(valves, order, dist, pos, chosen, time, i, acc).value.total
      == BestFrom(valves, order, dist, pos, chosen, time, i, acc.total).value
    decreases |valves.Keys - chosen|, 0, |order| - i
  {
    if i < |order| {
      var name := order[i];
      if name in chosen || ((pos, name) in dist && dist[(pos, name)] + 1 >= time) {
        PathFromTotal(valves, order, dist, pos, chosen, time, i + 1, acc);
      } else if (pos, name) in dist {
        var left := time - dist[(pos, name)] - 1;
        Shrinks(valves, chosen, name);
        PathTotal(valves, order, dist, name, chosen + {name}, left);
        var sub := BestPath(valves, order, dist, name, chosen + {name}, left);
        if sub.Some? {
          var total := sub.value.total + Reward(valves[name].flow, left);
          var next := if total >= acc.total then Plan(total, sub.value.path + [name]) else acc;
          assert next.total == Max(acc.total, total);
          PathFromTotal(valves, order, dist, pos, chosen, time, i + 1, next);
        }
      }
    }
  }

  /** `plan` is a fresh plan that releases its total. */
  predicate Realises(valves: Valves, dist: Distances, pos: string, chosen: set<string>, time: nat, plan: Plan)
  {
    Fresh(valves, chosen, plan.path) && Release(valves, dist, pos, time, plan.path) == Some(plan.total)
  }

  /** The plan `knapsack_with_path` returns releases its total. */
  lemma {:induction false} PathReleases(valves: Valves, order: seq<string>, dist: Distances, pos: string,
                                        chosen: set<string>, time: nat, plan: Plan)
    requires Covers(valves, order) && BestPath(valves, order, dist, pos, chosen, time) == Some(plan)
    ensures Realises(valves, dist, pos, chosen, time, plan)
    decreases |valves.Keys - chosen|, 1, 0
  {
    PathFromReleases(valves, order, dist, pos, chosen, time, 0, Plan(0, []), plan);
  }

  lemma {:induction false} PathFromReleases(valves: Valves, order: seq<string>, dist: Distances, pos: string,
                                            chosen: set<string>, time: nat, i: nat, acc: Plan, plan: Plan)
    requires Covers(valves, order) && i <= |order|
    requires PathFrom(valves, order, dist, pos, chosen, time, i, acc) == Some(plan)
    requires Realises(valves, dist, pos, chosen, time, acc)
    ensures Realises(valves, dist, pos, chosen, time, plan)
    decreases |valves.Keys - chosen|, 0, |order| - i
  {
    if i < |order| {
      var name := order[i];
      if name in chosen || dist[(pos, name)] + 1 >= time {
        PathFromSkip(valves, order, dist, pos, chosen, time, i, acc);
        PathFromReleases(valves, order, dist, pos, chosen, time, i + 1, acc, plan);
      } else {
        var next := TakeReleases(valves, order, dist, pos, chosen, time, i, acc);
        PathFromReleases(valves, order, dist, pos, chosen, time, i + 1, next, plan);
      }
    }
  }

  /** Weighing a reachable closed valve keeps the best plan so far one that releases its total. */
  lemma {:induction false} TakeReleases(valves: Valves, order: seq<string>, dist: Distances, pos: string,
                                        chosen: set<string>, time: nat, i: nat, acc: Plan) returns (next: Plan)
    requires Covers(valves, order) && i < |order| && order[i] !in chosen
    requires (pos, order[i]) in dist && dist[(pos, order[i])] + 1 < time
    requires PathFrom(valves, order, dist, pos, chosen, time, i, acc).Some?
    requires Realises(valves, dist, pos, chosen, time, acc)
    ensures PathFrom(valves, order, dist, pos, chosen, time, i, acc) == PathFrom(valves, order, dist, pos, chosen, time, i + 1, next)
    ensures Realises(valves, dist, pos, chosen, time, next)
    decreases |valves.Keys - chosen|, 0, |order| - i - 1
  {
    var name := order[i];
    var left := time - dist[(pos, name)] - 1;
    Shrinks(valves, chosen, name);
    var sub := BestPath(valves, order, dist, name, chosen + {name}, left).value;
    PathReleases(valves, order, dist, name, chosen + {name}, left, sub);
    PathFromTake(valves, order, dist, pos, chosen, time, i, acc, left, sub);
    var total := sub.total + Reward(valves[name].flow, left);
    if total >= acc.total {
      ReleaseFirst(valves, dist, pos, chosen, time, name, left, sub.path, sub.total);
      next := Plan(total, sub.path + [name]);
    } else {
      next := acc;
    }
    assert next == if total >= acc.total then Plan(total, sub.path + [name]) else acc;
  }

  /** What `knapsack` computes is the most any fresh plan releases. */
  lemma BestOptimal(valves: Valves, order: seq<string>, dist: Distances, pos: string, chosen: set<string>, time: nat)
    requires Covers(valves, order) && Best(valves, order, dist, pos, chosen, time).Some?
    ensures Optimal(valves, dist, pos, chosen, time, Best(valves, order, dist, pos, chosen, time).value)
  {
    PathTotal(valves, order, dist, pos, chosen, time);
    var best := BestPath(valves, order, dist, pos, chosen, time).value;
    PathReleases(valves, order, dist, pos, chosen, time, best);
    assert Fresh(valves, chosen, best.path) && Release(valves, dist, pos, time, best.path).Some?;
    forall other | Fresh(valves, chosen, other) && Release(valves, dist, pos, time, other).Some?
      ensures Release(valves, dist, pos, time, other).value <= Best(valves, order, dist, pos, chosen, time).value
    {
      BestBeatsRelease(valves, order, dist, pos, chosen, time, other);
    }
  }

  /**
   * The table has a distance from `pos` and from every valve to every other
   * valve, and `pos` is not a valve still to open (`distances[pos][pos]` is
   * never tabled).
   */
  ghost predicate Complete(valves: Valves, dist: Distances, pos: string, chosen: set<string>)
  {
    (pos in valves ==> pos in chosen)
    && forall a, b :: (a == pos || a in valves) && b in valves && a != b ==> (a, b) in dist
  }

  /** With a complete table the search does not panic. */
  lemma {:induction false} BestDefined(valves: Valves, order: seq<string>, dist: Distances, pos: string,
                                       chosen: set<string>, time: nat)
    requires Covers(valves, order) && Complete(valves, dist, pos, chosen)
    ensures Best(valves, order, dist, pos, chosen, time).Some?
    decreases |valves.Keys - chosen|, 1, 0, 0
  {
    BestFromDefined(valves, order, dist, pos, chosen, time, 0, 0);
  }

  lemma {:induction false} BestFromDefined(valves: Valves, order: seq<string>, dist: Distances, pos: string,
                                           chosen: set<string>, time: nat, i: nat, acc: nat)
    requires Covers(valves, order) && i <= |order| && Complete(valves, dist, pos, chosen)
    ensures BestFrom(valves, order, dist, pos, chosen, time, i, acc).Some?
    decreases |valves.Keys - chosen|, 0, |order| - i, 1
  {
    if i < |order| {
      var name := order[i];
      if name in chosen {
        BestFromSkip(valves, order, dist, pos, chosen, time, i, acc);
        BestFromDefined(valves, order, dist, pos, chosen, time, i + 1, acc);
      } else {
        assert (pos, name) in dist;
        if dist[(pos, name)] + 1 >= time {
          BestFromSkip(valves, order, dist, pos, chosen, time, i, acc);
          BestFromDefined(valves, order, dist, pos, chosen, time, i + 1, acc);
        } else {
          TakeDefined(valves, order, dist, pos, chosen, time, i, acc);
        }
      }
    }
  }

  /** The step of `BestFromDefined` that opens the closed valve `order[i]`, reachable in time. */
  lemma {:induction false} TakeDefined(valves: Valves, order: seq<string>, dist: Distances, pos: string,
                                       chosen: set<string>, time: nat, i: nat, acc: nat)
    requires Covers(valves, order) && i < |order| && Complete(valves, dist, pos, chosen)
    requires order[i] !in chosen && (pos, order[i]) in dist && dist[(pos, order[i])] + 1 < time
    ensures BestFrom(valves, order, dist, pos, chosen, time, i, acc).Some?
    decreases |valves.Keys - chosen|, 0, |order| - i, 0
  {
    var name := order[i];
    var left := time - dist[(pos, name)] - 1;
    Shrinks(valves, chosen, name);
    CompleteNext(valves, dist, pos, chosen, name);
    BestDefined(valves, order, dist, name, chosen + {name}, left);
    var rest := Best(valves, order, dist, name, chosen + {name}, left).value;
    BestFromTake(valves, order, dist, pos, chosen, time, i, acc, left, rest);
    BestFromDefined(valves, order, dist, pos, chosen, time, i + 1, Max(acc, rest + Reward(valves[name].flow, left)));
  }

  /** Moving to a closed valve and opening it keeps the table complete. */
  lemma CompleteNext(valves: Valves, dist: Distances, pos: string, chosen: set<string>, name: string)
    requires Complete(valves, dist, pos, chosen) && name in valves && name !in chosen
    ensures Complete(valves, dist, name, chosen + {name})
  {
  }

  /** The memo table of one `knapsack` run, keyed like the source by position, time left and open valves. */
  class TotalCache {
    var entries: map<(string, nat, set<string>), nat>

    constructor ()
      ensures entries == map[]
    {
      entries := map[];
    }

    /** Every stored value is the search's value for its key. */
    ghost predicate Sound(valves: Valves, order: seq<string>, dist: Distances)
      requires Covers(valves, order)
      reads this
    {
      forall k :: k in entries ==> Best(valves, order, dist, k.0, k.2, k.1) == Some(entries[k])
    }

    /** `knapsack`: answer from the table, or try every closed valve in order and store the maximum. */
    method Knapsack(valves: Valves, order: seq<string>, dist: Distances, pos: string, chosen: set<string>, time: nat)
      returns (r: Option<nat>)
      requires Covers(valves, order) && Sound(valves, order, dist)
      modifies this
      ensures Sound(valves, order, dist)
      ensures r == Best(valves, order, dist, pos, chosen, time)
      decreases |valves.Keys - chosen|
    {
      if (pos, time, chosen) in entries {
        return Some(entries[(pos, time, chosen)]);
      }
      var acc: nat := 0;
      for i := 0 to |order|
        invariant Sound(valves, order, dist)
        invariant BestFrom(valves, order, dist, pos, chosen, time, i, acc) == Best(valves, order, dist, pos, chosen, time)
      {
        var name := order[i];
        if name in chosen {
          continue;
        }
        if (pos, name) !in dist {
          return None;
        }
        var d := dist[(pos, name)];
        if d + 1 >= time {
          continue;
        }
        var left := time - d - 1;
        Shrinks(valves, chosen, name);
        var rest := Knapsack(valves, order, dist, name, chosen + {name}, left);
        if rest.None? {
          return None;
        }
        acc := Max(acc, rest.value + Reward(valves[name].flow, left));
      }
      entries := entries[(pos, time, chosen) := acc];
      return Some(acc);
    }
  }

  /** The memo table of one `knapsack_with_path` run. */
  class PathCache {
    var entries: map<(string, nat, set<string>), Plan>

    constructor ()
      ensures entries == map[]
    {
      entries := map[];
    }

    ghost predicate Sound(valves: Valves, order: seq<string>, dist: Distances)
      requires Covers(valves, order)
      reads this
    {
      forall k :: k in entries ==> BestPath(valves, order, dist, k.0, k.2, k.1) == Some(entries[k])
    }

    /** `knapsack_with_path`: like `knapsack`, keeping the last best candidate's plan. */
    method KnapsackWithPath(valves: Valves, order: seq<string>, dist: Distances, pos: string, chosen: set<string>,
                            time: nat) returns (r: Option<Plan>)
      requires Covers(valves, order) && Sound(valves, order, dist)
      modifies this
      ensures Sound(valves, order, dist)
      ensures r == BestPath(valves, order, dist, pos, chosen, time)
      decreases |valves.Keys - chosen|
    {
      if (pos, time, chosen) in entries {
        return Some(entries[(pos, time, chosen)]);
      }
      var acc := Plan(0, []);
      for i := 0 to |order|
        invariant Sound(valves, order, dist)
        invariant PathFrom(valves, order, dist, pos, chosen, time, i, acc) == BestPath(valves, order, dist, pos, chosen, time)
      {
        var name := order[i];
        if name in chosen {
          PathFromSkip(valves, order, dist, pos, chosen, time, i, acc);
          continue;
        }
        if (pos, name) !in dist {
          return None;
        }
        var d := dist[(pos, name)];
        if d + 1 >= time {
          PathFromSkip(valves, order, dist, pos, chosen, time, i, acc);
          continue;
        }
        var left := time - d - 1;
        Shrinks(valves, chosen, name);
        var rest := KnapsackWithPath(valves, order, dist, name, chosen + {name}, left);
        if rest.None? {
          return None;
        }
        PathFromTake(valves, order, dist, pos, chosen, time, i, acc, left, rest.value);
        var total := rest.value.total + Reward(valves[name].flow, left);
        acc := if total >= acc.total then Plan(total, rest.value.path + [name]) else acc;
      }
      entries := entries[(pos, time, chosen) := acc];
      return Some(acc);
    }
  }

  // ---------------------------------------------------------------------
  // The two parts.

  /** The valves worth opening: those with a positive flow rate. */
  function Useful(valves: Valves): Valves
  {
    map n | n in valves && valves[n].flow > 0 :: valves[n]
  }

  /** The valves of `valves` that are not on `path`. */
  function Without(valves: Valves, path: seq<string>): Valves
  {
    map n | n in valves && n !in path :: valves[n]
  }

  /** The names of `order` that are in `keys`, in the order of `order`. */
  function Keep(order: seq<string>, keys: set<string>): (r: seq<string>)
    ensures forall n :: n in r <==> n in order && n in keys
  {
    if order == [] then []
    else (if order[0] in keys then [order[0]] else []) + Keep(order[1..], keys)
  }

  /** The names on a plan. */
  function Names(plan: seq<string>): set<string>
  {
    set n | n in plan
  }

  /**
   * Part 1: the most pressure released in 30 minutes from `AA`, opening
   * only valves with a positive flow. `order` is the iteration order of
   * the valve map; the filtered map keeps it. None is a panic on a missing
   * distance, which a complete table rules out.
   */
  method Part1(valves: Valves, dist: Distances, order: seq<string>) returns (r: Option<nat>)
    requires Covers(valves, order)
    ensures r == Best(Useful(valves), Keep(order, Useful(valves).Keys), dist, Start, {}, 30)
    ensures r.Some? ==> Optimal(Useful(valves), dist, Start, {}, 30, r.value)
    ensures r.None? ==> !Complete(Useful(valves), dist, Start, {})
  {
    var useful := Useful(valves);
    var keep := Keep(order, useful.Keys);
    var cache := new TotalCache();
    r := cache.Knapsack(useful, keep, dist, Start, {}, 30);
    if r.Some? {
      BestOptimal(useful, keep, dist, Start, {}, 30);
    } else if Complete(useful, dist, Start, {}) {
      BestDefined(useful, keep, dist, Start, {}, 30);
    }
  }

  /** Part 2 as a value: the best plan of one searcher, then the best of the rest for the other. */
  function Part2Value(valves: Valves, dist: Distances, order: seq<string>): Option<nat>
    requires Covers(valves, order)
  {
    Shared(Useful(valves), Keep(order, Useful(valves).Keys), dist)
  }

  /** The greedy split over the valves `useful`, iterated in `keep`. */
  function Shared(useful: Valves, keep: seq<string>, dist: Distances): Option<nat>
    requires Covers(useful, keep)
  {
    match BestPath(useful, keep, dist, Start, {}, 26)
    case None => None
    case Some(first) =>
      var rest := Without(useful, first.path);
      match Best(rest, Keep(keep, rest.Keys), dist, Start, {}, 26)
      case None => None
      case Some(second) => Some(first.total + second)
  }

  /** How `Shared` comes out, by the outcome of the two searches. */
  lemma SharedCases(useful: Valves, keep: seq<string>, dist: Distances, first: Option<Plan>, second: Option<nat>)
    requires Covers(useful, keep) && first == BestPath(useful, keep, dist, Start, {}, 26)
    requires first.Some? ==>
      var rest := Without(useful, first.value.path);
      second == Best(rest, Keep(keep, rest.Keys), dist, Start, {}, 26)
    ensures first.None? ==> Shared(useful, keep, dist).None?
    ensures first.Some? && second.None? ==> Shared(useful, keep, dist).None?
    ensures first.Some? && second.Some? ==> Shared(useful, keep, dist) == Some(first.value.total + second.value)
  {
  }

  /** Two plans with no valve in common, both within `time`, release `total` together. */
  ghost predicate TwoPlans(valves: Valves, dist: Distances, time: nat, total: nat)
  {
    exists mine, theirs ::
      Fresh(valves, {}, mine) && Fresh(valves, Names(mine), theirs)
      && Release(valves, dist, Start, time, mine).Some? && Release(valves, dist, Start, time, theirs).Some?
      && total == Release(valves, dist, Start, time, mine).value + Release(valves, dist, Start, time, theirs).value
  }

  /**
   * The greedy split of part 2: a plan releasing the most on its own,
   * then the most the remaining valves release.
   */
  ghost predicate Greedy(valves: Valves, dist: Distances, time: nat, total: nat)
  {
    exists mine ::
      Fresh(valves, {}, mine) && Release(valves, dist, Start, time, mine).Some?
      && Optimal(valves, dist, Start, {}, time, Release(valves, dist, Start, time, mine).value)
      && Release(valves, dist, Start, time, mine).value <= total
      && Optimal(Without(valves, mine), dist, Start, {}, time, total - Release(valves, dist, Start, time, mine).value)
  }

  /**
   * Part 2: two searchers with 26 minutes each, the first taking the best
   * plan and the second the best of the valves left over.
   */
  method Part2(valves: Valves, dist: Distances, order: seq<string>) returns (r: Option<nat>)
    requires Covers(valves, order)
    ensures r == Part2Value(valves, dist, order)
    ensures r.Some? ==> Greedy(Useful(valves), dist, 26, r.value)
  {
    var useful := Useful(valves);
    var keep := Keep(order, useful.Keys);
    assert Part2Value(valves, dist, order) == Shared(useful, keep, dist);
    var paths := new PathCache();
    var first := paths.KnapsackWithPath(useful, keep, dist, Start, {}, 26);
    if first.None? {
      SharedCases(useful, keep, dist, first, None);
      return None;
    }
    var rest := Without(useful, first.value.path);
    var restOrder := Keep(keep, rest.Keys);
    var totals := new TotalCache();
    var second := totals.Knapsack(rest, restOrder, dist, Start, {}, 26);
    SharedCases(useful, keep, dist, first, second);
    if second.None? {
      return None;
    }
    r := Some(first.value.total + second.value);
    GreedyFound(useful, keep, dist, first.value, second.value);
  }

  /** The plans part 2 finds make up the greedy split. */
  lemma GreedyFound(useful: Valves, keep: seq<string>, dist: Distances, first: Plan, second: nat)
    requires Covers(useful, keep) && BestPath(useful, keep, dist, Start, {}, 26) == Some(first)
    requires var rest := Without(useful, first.path);
      Best(rest, Keep(keep, rest.Keys), dist, Start, {}, 26) == Some(second)
    ensures Greedy(useful, dist, 26, first.total + second)
  {
    var rest := Without(useful, first.path);
    PathTotal(useful, keep, dist, Start, {}, 26);
    PathReleases(useful, keep, dist, Start, {}, 26, first);
    BestOptimal(useful, keep, dist, Start, {}, 26);
    BestOptimal(rest, Keep(keep, rest.Keys), dist, Start, {}, 26);
    GreedyWitness(useful, dist, 26, first.path, first.total + second);
  }

  lemma GreedyWitness(valves: Valves, dist: Distances, time: nat, mine: seq<string>, total: nat)
    requires Fresh(valves, {}, mine) && Release(valves, dist, Start, time, mine).Some?
    requires Optimal(valves, dist, Start, {}, time, Release(valves, dist, Start, time, mine).value)
    requires Release(valves, dist, Start, time, mine).value <= total
    requires Optimal(Without(valves, mine), dist, Start, {}, time, total - Release(valves, dist, Start, time, mine).value)
    ensures Greedy(valves, dist, time, total)
  {
  }

  /** A fresh plan of a sub-map avoiding `avoid` is a fresh plan of the whole map that avoids it too. */
  lemma {:induction false} FreshLift(sub: Valves, valves: Valves, chosen: set<string>, avoid: set<string>,
                                     plan: seq<string>)
    requires forall n :: n in sub ==> n in valves && n !in avoid
    requires Fresh(sub, chosen, plan)
    ensures Fresh(valves, chosen + avoid, plan)
    decreases |plan|
  {
    if plan != [] {
      var name := plan[|plan| - 1];
      FreshLift(sub, valves, chosen + {name}, avoid, plan[..|plan| - 1]);
      assert chosen + {name} + avoid == chosen + avoid + {name};
    }
  }

  /** A sub-map with the same flows releases the same along a plan of its own valves. */
  lemma {:induction false} ReleaseSub(sub: Valves, valves: Valves, dist: Distances, pos: string, time: nat,
                                      chosen: set<string>, plan: seq<string>)
    requires forall n :: n in sub ==> n in valves && sub[n] == valves[n]
    requires Fresh(sub, chosen, plan)
    ensures Release(sub, dist, pos, time, plan) == Release(valves, dist, pos, time, plan)
    decreases |plan|
  {
    if plan != [] {
      var name := plan[|plan| - 1];
      if (pos, name) in dist && dist[(pos, name)] + 1 < time {
        ReleaseSub(sub, valves, dist, name, time - dist[(pos, name)] - 1, chosen + {name}, plan[..|plan| - 1]);
      }
    }
  }

  /** The greedy answer of part 2 is what two disjoint plans release together. */
  lemma GreedySplits(valves: Valves, dist: Distances, time: nat, total: nat)
    requires Greedy(valves, dist, time, total)
    ensures TwoPlans(valves, dist, time, total)
  {
    var mine :| Fresh(valves, {}, mine) && Release(valves, dist, Start, time, mine).Some?
      && Optimal(valves, dist, Start, {}, time, Release(valves, dist, Start, time, mine).value)
      && Release(valves, dist, Start, time, mine).value <= total
      && Optimal(Without(valves, mine), dist, Start, {}, time, total - Release(valves, dist, Start, time, mine).value);
    var rest := Without(valves, mine);
    var theirs :| Fresh(rest, {}, theirs)
      && Release(rest, dist, Start, time, theirs) == Some(total - Release(valves, dist, Start, time, mine).value);
    FreshLift(rest, valves, {}, Names(mine), theirs);
    assert {} + Names(mine) == Names(mine);
    ReleaseSub(rest, valves, dist, Start, time, {}, theirs);
  }
}
