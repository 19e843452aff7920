/**
 * The transposition of a two-dimensional structure: an iterator over the
 * inner iterators that yields, on each step, the next item of every one of
 * them, in outer order. An inner iterator is modelled by the sequence of
 * items it has still to give; a `Some(x)` is an iterator of one item and a
 * `None` one of none.
 */
module Transpose {
  import opened Wrappers

  // ------------------------------------------------------------ specification

  /** No inner sequence is exhausted. */
  predicate AllLive<T>(its: seq<seq<T>>)
  {
    forall i :: 0 <= i < |its| ==> its[i] != []
  }

  /** The first item of every inner sequence. */
  function Heads<T>(its: seq<seq<T>>): (r: seq<T>)
    requires AllLive(its)
    ensures |r| == |its| && forall i :: 0 <= i < |its| ==> r[i] == its[i][0]
  {
    seq(|its|, i requires 0 <= i < |its| && AllLive(its) => its[i][0])
  }

  /** The position of the first exhausted inner sequence, or `|its|` when there is none. */
  function FirstEmpty<T>(its: seq<seq<T>>): (r: nat)
    ensures r <= |its| && forall p :: 0 <= p < r ==> its[p] != []
    ensures r < |its| ==> its[r] == []
    ensures r == |its| <==> AllLive(its)
  {
    if its == [] then 0
    else if its[0] == [] then 0
    else
      var rest := its[1..];
      assert forall p :: 0 <= p < |rest| ==> rest[p] == its[p + 1];
      1 + FirstEmpty(rest)
  }

  /** The inner sequences with the first `j` of them advanced by one item. */
  function Advanced<T>(its: seq<seq<T>>, j: nat): (r: seq<seq<T>>)
    requires j <= |its| && forall p :: 0 <= p < j ==> its[p] != []
    ensures |r| == |its|
    ensures forall p :: 0 <= p < j ==> r[p] == its[p][1..]
    ensures forall p :: j <= p < |its| ==> r[p] == its[p]
  {
    seq(|its|, p requires 0 <= p < |its| => if p < j then its[p][1..] else its[p])
  }

  /** The length of the shortest inner sequence. */
  function MinLen<T>(its: seq<seq<T>>): (r: nat)
    requires its != []
    ensures forall i :: 0 <= i < |its| ==> r <= |its[i]|
    ensures exists i :: 0 <= i < |its| && r == |its[i]|
  {
    if |its| == 1 then |its[0]|
    else
      var rest := its[1..];
      assert forall p :: 0 <= p < |rest| ==> rest[p] == its[p + 1];
      var m := MinLen(rest);
      var i :| 0 <= i < |rest| && m == |rest[i]|;
      assert m == |its[i + 1]|;
      if |its[0]| <= m then |its[0]| else m
  }

  /** Every inner sequence with its first `m` items taken. */
  function Dropped<T>(its: seq<seq<T>>, m: nat): (r: seq<seq<T>>)
    requires forall i :: 0 <= i < |its| ==> m <= |its[i]|
    ensures |r| == |its| && forall i :: 0 <= i < |its| ==> r[i] == its[i][m..]
  {
    seq(|its|, i requires 0 <= i < |its| && m <= |its[i]| => its[i][m..])
  }

  /**
   * The transposition as a matrix: row `k` holds item `k` of every inner
   * sequence, and there are as many rows as the shortest inner sequence
   * has items.
   */
  function Transposition<T>(its: seq<seq<T>>): (r: seq<seq<T>>)
    requires its != []
    ensures |r| == MinLen(its)
    ensures forall k :: 0 <= k < |r| ==> |r[k]| == |its|
    ensures forall k, i :: 0 <= k < |r| && 0 <= i < |its| ==> r[k][i] == its[i][k]
  {
    seq(MinLen(its), k requires 0 <= k < MinLen(its) => seq(|its|, i requires 0 <= i < |its| => its[i][k]))
  }

  /** All inner sequences of the same positive length `n`. */
  predicate Rectangular<T>(its: seq<seq<T>>, n: nat)
  {
    n > 0 && forall i :: 0 <= i < |its| ==> |its[i]| == n
  }

  /** Transposing a non-empty rectangle twice gives it back. */
  lemma TransposeTwice<T>(its: seq<seq<T>>, n: nat)
    requires its != [] && Rectangular(its, n)
    ensures Transposition(Transposition(its)) == its
  {
    var t := Transposition(its);
    assert Rectangular(t, |its|);
    var tt := Transposition(t);
    assert |tt| == |its|;
    forall i | 0 <= i < |its|
      ensures tt[i] == its[i]
    {
      assert |tt[i]| == |t| == n;
    }
  }

  /** While every inner sequence has an item left, that many rows more follow. */
  lemma DroppedLive<T>(its: seq<seq<T>>, m: nat)
    requires its != [] && m <= MinLen(its)
    ensures AllLive(Dropped(its, m)) <==> m < MinLen(its)
  {
    var i :| 0 <= i < |its| && MinLen(its) == |its[i]|;
    if m == MinLen(its) {
      assert Dropped(its, m)[i] == [];
    }
  }

  /** One step of the iterator on the dropped sequences yields the next row and drops one more item. */
  lemma DroppedStep<T>(its: seq<seq<T>>, m: nat)
    requires its != [] && m < MinLen(its)
    ensures AllLive(Dropped(its, m))
    ensures Heads(Dropped(its, m)) == Transposition(its)[m]
    ensures Advanced(Dropped(its, m), |its|) == Dropped(its, m + 1)
  {
    assert forall i :: 0 <= i < |its| ==> m < |its[i]|;
    DroppedAdvance(its, m);
    var d := Dropped(its, m);
    var h := Heads(d);
    var row := Transposition(its)[m];
    forall i | 0 <= i < |its|
      ensures h[i] == row[i]
    {
      assert d[i] == its[i][m..];
    }
  }

  lemma DroppedAdvance<T>(its: seq<seq<T>>, m: nat)
    requires forall i :: 0 <= i < |its| ==> m < |its[i]|
    ensures AllLive(Dropped(its, m))
    ensures Advanced(Dropped(its, m), |its|) == Dropped(its, m + 1)
  {
    var d := Dropped(its, m);
    assert forall i :: 0 <= i < |its| ==> d[i] != [];
    var a := Advanced(d, |its|);
    var e := Dropped(its, m + 1);
    forall i | 0 <= i < |its|
      ensures a[i] == e[i]
    {
      assert d[i] == its[i][m..];
    }
  }

  // ------------------------------------------------------------ the iterator

  /** `Transposed`: the inner iterators, each as what it has still to give. */
  class Transposed<T> {
    var iters: seq<seq<T>>

    /** `transpose`: every inner collection turned into its iterator. */
    constructor(outer: seq<seq<T>>)
      ensures iters == outer
    {
      iters := outer;
    }

    /**
     * `next`: the next item of every inner iterator, in order. At the first
     * exhausted one the step stops with None, the iterators before it
     * already advanced. With no inner iterators at all it yields an empty
     * row, every time.
     */
    method Next() returns (r: Option<seq<T>>)
      modifies this
      ensures AllLive(old(iters)) ==> r == Some(Heads(old(iters))) && iters == Advanced(old(iters), |old(iters)|)
      ensures !AllLive(old(iters)) ==> r.None? && iters == Advanced(old(iters), FirstEmpty(old(iters)))
    {
      var items: seq<T> := [];
      for i := 0 to |iters|
        invariant |iters| == |old(iters)|
        invariant forall p :: 0 <= p < i ==> old(iters)[p] != []
        invariant iters == Advanced(old(iters), i)
        invariant |items| == i && forall p :: 0 <= p < i ==> items[p] == old(iters)[p][0]
      {
        if iters[i] == [] {
          assert FirstEmpty(old(iters)) == i by {
            FirstEmptyAt(old(iters), i);
          }
          return None;
        }
        items := items + [iters[i][0]];
        iters := iters[i := iters[i][1..]];
      }
      assert items == Heads(old(iters));
      r := Some(items);
    }

    /**
     * `collect_with`: every row, through `collector`, until the first step
     * that yields None. Without inner iterators the source never stops, so
     * there is at least one.
     */
    method CollectWith<U>(collector: seq<T> -> U) returns (out: seq<U>)
      requires iters != []
      modifies this
      ensures var rows := Transposition(old(iters));
        |out| == |rows| && forall k :: 0 <= k < |rows| ==> out[k] == collector(rows[k])
      ensures var rest := Dropped(old(iters), MinLen(old(iters)));
        iters == Advanced(rest, FirstEmpty(rest))
    {
      ghost var start := iters;
      ghost var rows := Transposition(start);
      var m := 0;
      out := [];
      assert iters == Dropped(start, 0);
      while true
        invariant m <= MinLen(start) && iters == Dropped(start, m)
        invariant |out| == m && forall k :: 0 <= k < m ==> out[k] == collector(rows[k])
        decreases MinLen(start) - m
      {
        DroppedLive(start, m);
        var row := Next();
        if row.None? {
          return;
        }
        DroppedStep(start, m);
        out := out + [collector(row.value)];
        m := m + 1;
      }
    }

    /** `collect_all`: every row, as a sequence. */
    method CollectAll() returns (out: seq<seq<T>>)
      requires iters != []
      modifies this
      ensures out == Transposition(old(iters))
      ensures var rest := Dropped(old(iters), MinLen(old(iters)));
        iters == Advanced(rest, FirstEmpty(rest))
    {
      out := CollectWith(row => row);
    }
  }

  /** If `i` is the first exhausted position, `FirstEmpty` finds it. */
  lemma {:induction false} FirstEmptyAt<T>(its: seq<seq<T>>, i: nat)
    requires i < |its| && its[i] == [] && forall p :: 0 <= p < i ==> its[p] != []
    ensures FirstEmpty(its) == i
  {
    if i > 0 {
      FirstEmptyAt(its[1..], i - 1);
    }
  }

  // ------------------------------------------------------------ options

  /** An Option as an iterator: one item or none. */
  function Items<T>(o: Option<T>): (r: seq<T>)
    ensures |r| <= 1 && (r == [] <==> o.None?)
    ensures o.Some? ==> r == [o.value]
  {
    if o.Some? then [o.value] else []
  }

  /**
   * `collect_inner().next()` on a sequence of Options: Some of all the
   * values when every entry is Some, None as soon as one is None.
   */
  method TransposeOptions<T>(opts: seq<Option<T>>) returns (r: Option<seq<T>>)
    ensures r.Some? <==> forall i :: 0 <= i < |opts| ==> opts[i].Some?
    ensures r.Some? ==> |r.value| == |opts| && forall i :: 0 <= i < |opts| ==> Some(r.value[i]) == opts[i]
  {
    var its := seq(|opts|, i requires 0 <= i < |opts| => Items(opts[i]));
    forall i | 0 <= i < |opts|
      ensures (its[i] != []) == opts[i].Some?
    {
      assert its[i] == Items(opts[i]);
    }
    var t := new Transposed(its);
    r := t.Next();
  }

  /** The values of the Some entries, in order, as `flatten` keeps them. */
  function Values<T>(opts: seq<Option<T>>): (r: seq<T>)
    ensures |r| <= |opts|
  {
    if opts == [] then []
    else Items(opts[0]) + Values(opts[1..])
  }

  /** The source's `collect_with` example: flattening each row of two rows of Options. */
  lemma CollectWithExample()
    ensures var rows := Transposition([[Some(1), None, Some(2)], [Some(3), Some(4), None]]);
      |rows| == 3 && Values(rows[0]) == [1, 3] && Values(rows[1]) == [4] && Values(rows[2]) == [2]
  {
    var its := [[Some(1), None, Some(2)], [Some(3), Some(4), None]];
    assert |its[0]| == 3 && |its[1]| == 3;
    assert MinLen(its) == 3;
    var rows := Transposition(its);
    assert rows[0] == [Some(1), Some(3)] by {
      assert rows[0][0] == its[0][0] && rows[0][1] == its[1][0];
    }
    assert rows[1] == [None, Some(4)] by {
      assert rows[1][0] == its[0][1] && rows[1][1] == its[1][1];
    }
    assert rows[2] == [Some(2), None] by {
      assert rows[2][0] == its[0][2] && rows[2][1] == its[1][2];
    }
    assert Values(rows[0]) == [1, 3] by {
      assert Values([Some(3)]) == [3] + Values([]);
    }
    assert Values(rows[1]) == [4] by {
      assert Values([Some(4)]) == [4] + Values([]);
    }
    assert Values(rows[2]) == [2] by {
      assert Values<int>([None]) == [] + Values<int>([]);
    }
  }
}
