/**
 * Day 20: mixing an encrypted file. Every number, in its original order, moves
 * forward around the circular list by its own value; the numbers are tracked
 * by identity (here: their index in the input), so equal values do not mix up.
 * The answer sums the numbers 1000, 2000 and 3000 places after the zero.
 */
module Day20 {
  import opened Wrappers
  import Text

  const DecryptionKey: nat := 811589153

  function Identity(n: nat): (r: seq<nat>)
    ensures |r| == n && forall i :: 0 <= i < n ==> r[i] == i
  {
    if n == 0 then [] else Identity(n - 1) + [n - 1]
  }

  /** `ref_vec`: an arrangement of the identities `0 .. n - 1`. */
  predicate IsArrangement(ref: seq<nat>, n: nat)
  {
    |ref| == n && multiset(ref) == multiset(Identity(n))
  }

  lemma ArrangementHolds(ref: seq<nat>, n: nat, id: nat)
    requires IsArrangement(ref, n) && id < n
    ensures id in ref
  {
    assert Identity(n)[id] == id;
    assert id in multiset(Identity(n));
  }

  lemma ArrangementBounded(ref: seq<nat>, n: nat, k: nat)
    requires IsArrangement(ref, n) && k < n
    ensures ref[k] < n
  {
    assert ref[k] in multiset(Identity(n));
    var j :| 0 <= j < n && Identity(n)[j] == ref[k];
  }

  /** `position(|r| ptr::eq(num, r))`: the first place holding `id`. */
  function IndexOf(ref: seq<nat>, id: nat): (r: nat)
    requires id in ref
    ensures r < |ref| && ref[r] == id && id !in ref[..r]
  {
    if ref[0] == id then 0
    else
      assert ref == [ref[0]] + ref[1..];
      var r := IndexOf(ref[1..], id);
      assert ref[..r + 1] == [ref[0]] + ref[1..][..r];
      r + 1
  }

  /** The place a number moves to: `(idx + step) % len`, with `step` the move's `rem_euclid(len - 1)`. */
  function Target(idx: nat, step: nat, len: nat): (r: nat)
    requires len >= 2
    ensures r < len
  {
    (idx + step) % len
  }

  /** `s[lo..=hi].rotate_left(1)` */
  function RotateLeftOf(s: seq<nat>, lo: nat, hi: nat): (r: seq<nat>)
    requires lo <= hi < |s|
    ensures |r| == |s| && multiset(r) == multiset(s)
  {
    assert s == s[..lo] + [s[lo]] + s[lo + 1..hi + 1] + s[hi + 1..];
    s[..lo] + s[lo + 1..hi + 1] + [s[lo]] + s[hi + 1..]
  }

  /** `s[lo..=hi].rotate_right(1)` */
  function RotateRightOf(s: seq<nat>, lo: nat, hi: nat): (r: seq<nat>)
    requires lo <= hi < |s|
    ensures |r| == |s| && multiset(r) == multiset(s)
  {
    assert s == s[..lo] + s[lo..hi] + [s[hi]] + s[hi + 1..];
    s[..lo] + [s[hi]] + s[lo..hi] + s[hi + 1..]
  }

  /** One move of the element at `idx` to `newIdx`, as the two rotations do it. */
  function Rotated(ref: seq<nat>, idx: nat, newIdx: nat): (r: seq<nat>)
    requires idx < |ref| && newIdx < |ref|
    ensures |r| == |ref| && multiset(r) == multiset(ref)
  {
    if idx == newIdx then ref
    else if newIdx > idx then RotateLeftOf(ref, idx, newIdx)
    else RotateRightOf(ref, newIdx + 1, idx)
  }

  /**
   * How far each number moves: its value times the factor, reduced with
   * `rem_euclid(len - 1)`.
   */
  function Steps(moves: seq<int>): (r: seq<nat>)
    requires |moves| >= 2
    ensures |r| == |moves| && forall i :: 0 <= i < |moves| ==> r[i] == moves[i] % (|moves| - 1)
  {
    seq(|moves|, i requires 0 <= i < |moves| => moves[i] % (|moves| - 1))
  }

  lemma StepOf(nums: seq<int>, factor: int, id: nat)
    requires |nums| >= 2 && id < |nums|
    ensures Steps(Scaled(nums, factor))[id] == (nums[id] * factor) % (|nums| - 1)
  {
    var scaled := Scaled(nums, factor);
    assert scaled[id] == nums[id] * factor;
  }

  /** Number `id` moves `steps[id]` places on. */
  function MoveNumber(ref: seq<nat>, steps: seq<nat>, id: nat): (r: seq<nat>)
    requires |steps| >= 2 && IsArrangement(ref, |steps|) && id < |steps|
    ensures IsArrangement(r, |steps|)
  {
    ArrangementHolds(ref, |steps|, id);
    var idx := IndexOf(ref, id);
    Rotated(ref, idx, Target(idx, steps[id], |steps|))
  }

  lemma MoveNumberAt(ref: seq<nat>, steps: seq<nat>, id: nat, idx: nat)
    requires |steps| >= 2 && IsArrangement(ref, |steps|) && id < |steps|
    requires id in ref && idx == IndexOf(ref, id)
    ensures MoveNumber(ref, steps, id) == Rotated(ref, idx, Target(idx, steps[id], |steps|))
  {
  }

  /** The moves of numbers `id`, `id + 1`, ... of one round of mixing. */
  function MixFrom(ref: seq<nat>, steps: seq<nat>, id: nat): (r: seq<nat>)
    requires |steps| >= 2 && IsArrangement(ref, |steps|) && id <= |steps|
    ensures IsArrangement(r, |steps|)
    decreases |steps| - id
  {
    if id == |steps| then ref else MixFrom(MoveNumber(ref, steps, id), steps, id + 1)
  }

  /** `rounds` rounds of mixing, starting from the input order. */
  function Mix(steps: seq<nat>, rounds: nat): (r: seq<nat>)
    requires |steps| >= 2
    ensures IsArrangement(r, |steps|)
  {
    if rounds == 0 then Identity(|steps|) else MixFrom(Mix(steps, rounds - 1), steps, 0)
  }

  /** The numbers, each multiplied by `key`. */
  function Scaled(nums: seq<int>, key: int): (r: seq<int>)
    ensures |r| == |nums| && forall i :: 0 <= i < |nums| ==> r[i] == nums[i] * key
  {
    if nums == [] then [] else [nums[0] * key] + Scaled(nums[1..], key)
  }

  // ------------------------------------------------------------ what a move means

  /** The list with the element at `idx` taken out. */
  function Without(s: seq<nat>, idx: nat): (r: seq<nat>)
    requires idx < |s|
    ensures |r| == |s| - 1
  {
    s[..idx] + s[idx + 1..]
  }

  /** The list with `x` inserted so that it sits at `q`. */
  function InsertAt(s: seq<nat>, q: nat, x: nat): (r: seq<nat>)
    requires q <= |s|
    ensures |r| == |s| + 1 && r[q] == x
  {
    s[..q] + [x] + s[q..]
  }

  /**
   * The puzzle's meaning of a move: take the number out of the circle and put
   * it back `num` places further on, counted in the circle of the other
   * `len - 1` numbers. The two rotations do exactly that, placing the number
   * at a position `q` that is congruent to `idx + num` modulo `len - 1`.
   */
  lemma RotatedReinserts(ref: seq<nat>, idx: nat, num: int) returns (q: nat)
    requires |ref| >= 2 && idx < |ref|
    ensures q < |ref| && q % (|ref| - 1) == (idx + num) % (|ref| - 1)
    ensures Rotated(ref, idx, Target(idx, num % (|ref| - 1), |ref|)) == InsertAt(Without(ref, idx), q, ref[idx])
  {
    var forward: bool;
    q, forward := ReinsertPlace(|ref|, idx, num);
    if forward {
      ReinsertForward(ref, idx, q);
    } else {
      ReinsertBackward(ref, idx, q);
    }
  }

  /** The arithmetic of a move: where the number lands, and which way it went. */
  lemma ReinsertPlace(len: nat, idx: nat, num: int) returns (q: nat, forward: bool)
    requires len >= 2 && idx < len
    ensures q < len && q % (len - 1) == (idx + num) % (len - 1)
    ensures forward ==> idx <= q && Target(idx, num % (len - 1), len) == q
    ensures !forward ==> 1 <= q <= idx && Target(idx, num % (len - 1), len) == q - 1
  {
    var step := num % (len - 1);
    AddReduces(num, len - 1, idx);
    assert (idx + num) % (len - 1) == (idx + step) % (len - 1);
    forward := idx + step < len;
    if forward {
      q := idx + step;
      ModUnique(idx + step, len, 0, idx + step);
    } else {
      q := idx + step - (len - 1);
      ModUnique(idx + step, len, 1, q - 1);
      ModAddMultiple(1, len - 1, q);
    }
  }

  /** Moving right to `q` is reinserting at `q`. */
  lemma ReinsertForward(ref: seq<nat>, idx: nat, q: nat)
    requires idx <= q < |ref|
    ensures Rotated(ref, idx, q) == InsertAt(Without(ref, idx), q, ref[idx])
  {
    var w := Without(ref, idx);
    if q == idx {
      assert ref == ref[..idx] + [ref[idx]] + ref[idx + 1..];
      assert w[..q] == ref[..idx];
      assert w[q..] == ref[idx + 1..];
    } else {
      assert w[..q] == ref[..idx] + ref[idx + 1..q + 1];
      assert w[q..] == ref[q + 1..];
    }
  }

  /** Moving left to just after `q - 1` is reinserting at `q`. */
  lemma ReinsertBackward(ref: seq<nat>, idx: nat, q: nat)
    requires 1 <= q <= idx < |ref|
    ensures Rotated(ref, idx, q - 1) == InsertAt(Without(ref, idx), q, ref[idx])
  {
    var w := Without(ref, idx);
    assert w[..q] == ref[..q];
    assert w[q..] == ref[q..idx] + ref[idx + 1..];
  }

  /** A number that moves lands at `newIdx` when moving right and just after it when moving left. */
  lemma RotatedLands(ref: seq<nat>, idx: nat, newIdx: nat)
    requires idx < |ref| && newIdx < |ref|
    ensures var r := Rotated(ref, idx, newIdx);
      r[if newIdx >= idx then newIdx else newIdx + 1] == ref[idx] &&
      forall j :: 0 <= j < |ref| && (j < Min(idx, newIdx) || j > Max(idx, newIdx)) ==> r[j] == ref[j]
  {
  }

  // ------------------------------------------------------------ the decryption key

  /** Reducing the factor modulo `len - 1` keeps every move's remainder. */
  lemma FactorReduces(num: int, key: int, m: nat)
    requires m > 0
    ensures (num * (key % m)) % m == (num * key) % m
  {
    MulReduces(key, m, num);
    assert num * (key % m) == (key % m) * num;
    assert num * key == key * num;
  }

  /**
   * Mixing with the factor `key % (len - 1)`, as part 2 does, is mixing the
   * numbers multiplied by the full decryption key: every number moves the
   * same number of places.
   */
  lemma MixFactor(nums: seq<int>, key: int)
    requires |nums| >= 2
    ensures Steps(Scaled(nums, key % (|nums| - 1))) == Steps(Scaled(nums, key))
  {
    var m := |nums| - 1;
    var reduced, full := Scaled(nums, key % m), Scaled(nums, key);
    forall i | 0 <= i < |nums|
      ensures reduced[i] % m == full[i] % m
    {
      FactorReduces(nums[i], key, m);
    }
    assert Steps(reduced) == Steps(full);
  }

  // ------------------------------------------------------------ grove coordinates

  /** `self.1`: the index of the last zero in the input, or 0 when there is none. */
  function ZeroId(nums: seq<int>): (r: nat)
    ensures (r < |nums| && nums[r] == 0 && forall j :: r < j < |nums| ==> nums[j] != 0) ||
      (r == 0 && forall j :: 0 <= j < |nums| ==> nums[j] != 0)
  {
    if nums == [] then 0
    else if nums[|nums| - 1] == 0 then |nums| - 1
    else ZeroId(nums[..|nums| - 1])
  }

  /** The sum of the numbers 1000, 2000 and 3000 places after the zero in the mixed list. */
  function GroveSum(ref: seq<nat>, nums: seq<int>): int
    requires |nums| >= 2 && IsArrangement(ref, |nums|)
  {
    var zero := ZeroId(nums);
    ArrangementHolds(ref, |nums|, zero);
    var z := IndexOf(ref, zero);
    var len := |nums|;
    ArrangementBounded(ref, len, (z + 1000) % len);
    ArrangementBounded(ref, len, (z + 2000) % len);
    ArrangementBounded(ref, len, (z + 3000) % len);
    nums[ref[(z + 1000) % len]] + nums[ref[(z + 2000) % len]] + nums[ref[(z + 3000) % len]]
  }

  lemma GroveSumScaled(ref: seq<nat>, nums: seq<int>, key: int)
    requires |nums| >= 2 && IsArrangement(ref, |nums|) && key != 0
    ensures GroveSum(ref, Scaled(nums, key)) == key * GroveSum(ref, nums)
  {
    var s := Scaled(nums, key);
    forall j | 0 <= j < |nums|
      ensures s[j] == 0 <==> nums[j] == 0
    {
      NonZeroProduct(nums[j], key);
    }
    ZeroIdSame(nums, s);
    var len := |nums|;
    ArrangementHolds(ref, len, ZeroId(nums));
    var z := IndexOf(ref, ZeroId(nums));
    ArrangementBounded(ref, len, (z + 1000) % len);
    ArrangementBounded(ref, len, (z + 2000) % len);
    ArrangementBounded(ref, len, (z + 3000) % len);
    var x, y, w := ref[(z + 1000) % len], ref[(z + 2000) % len], ref[(z + 3000) % len];
    assert GroveSum(ref, nums) == nums[x] + nums[y] + nums[w];
    assert GroveSum(ref, s) == s[x] + s[y] + s[w];
    assert s[x] == nums[x] * key && s[y] == nums[y] * key && s[w] == nums[w] * key;
    Distribute(nums[x], nums[y], nums[w], key);
  }

  lemma NonZeroProduct(a: int, key: int)
    requires key != 0
    ensures a * key == 0 <==> a == 0
  {
    if a != 0 {
      assert Abs(a * key) == Abs(a) * Abs(key) by { AbsMul(a, key); }
      AtLeastOnce(Abs(a), Abs(key));
    }
  }

  lemma Distribute(a: int, b: int, c: int, key: int)
    ensures a * key + b * key + c * key == key * (a + b + c)
  {
  }

  lemma {:induction false} ZeroIdSame(a: seq<int>, b: seq<int>)
    requires |a| == |b| && forall j :: 0 <= j < |a| ==> (a[j] == 0 <==> b[j] == 0)
    ensures ZeroId(a) == ZeroId(b)
  {
    if a != [] {
      ZeroIdSame(a[..|a| - 1], b[..|b| - 1]);
    }
  }

  ghost function Part1Answer(nums: seq<int>): int
    requires |nums| >= 2
  {
    GroveSum(Mix(Steps(Scaled(nums, 1)), 1), nums)
  }

  ghost function Part2Answer(nums: seq<int>): int
    requires |nums| >= 2
  {
    DecryptionKey * GroveSum(Mix(Steps(Scaled(nums, DecryptionKey % (|nums| - 1))), 10), nums)
  }

  /** Part 2 is the grove sum of ten mixes of the numbers multiplied by the decryption key. */
  lemma Part2IsKeyed(nums: seq<int>)
    requires |nums| >= 2
    ensures Part2Answer(nums) == GroveSum(Mix(Steps(Scaled(nums, DecryptionKey)), 10), Scaled(nums, DecryptionKey))
  {
    MixFactor(nums, DecryptionKey);
    GroveSumScaled(Mix(Steps(Scaled(nums, DecryptionKey)), 10), nums, DecryptionKey);
  }

  // ------------------------------------------------------------ in place

  /** `ref_vec[lo..=hi].rotate_left(1)` */
  method RotateLeft(a: array<nat>, lo: nat, hi: nat)
    requires lo <= hi < a.Length
    modifies a
    ensures a[..] == RotateLeftOf(old(a[..]), lo, hi)
  {
    ghost var o := a[..];
    var first := a[lo];
    for k := lo to hi
      invariant forall j :: 0 <= j < lo ==> a[j] == o[j]
      invariant forall j :: lo <= j < k ==> a[j] == o[j + 1]
      invariant forall j :: k <= j < a.Length ==> a[j] == o[j]
    {
      a[k] := a[k + 1];
    }
    a[hi] := first;
    RotateLeftPointwise(o, a[..], lo, hi);
  }

  lemma RotateLeftPointwise(o: seq<nat>, r: seq<nat>, lo: nat, hi: nat)
    requires lo <= hi < |o| == |r|
    requires forall j :: 0 <= j < lo ==> r[j] == o[j]
    requires forall j :: lo <= j < hi ==> r[j] == o[j + 1]
    requires r[hi] == o[lo]
    requires forall j :: hi < j < |o| ==> r[j] == o[j]
    ensures r == RotateLeftOf(o, lo, hi)
  {
    var t := RotateLeftOf(o, lo, hi);
    forall j | 0 <= j < |o|
      ensures r[j] == t[j]
    {
      if lo <= j < hi {
        assert t[j] == o[lo + 1..hi + 1][j - lo];
      }
    }
  }

  /** `ref_vec[lo..=hi].rotate_right(1)` */
  method RotateRight(a: array<nat>, lo: nat, hi: nat)
    requires lo <= hi < a.Length
    modifies a
    ensures a[..] == RotateRightOf(old(a[..]), lo, hi)
  {
    ghost var o := a[..];
    var last := a[hi];
    var k := hi;
    while k > lo
      invariant lo <= k <= hi
      invariant forall j :: 0 <= j <= k ==> a[j] == o[j]
      invariant forall j :: k < j <= hi ==> a[j] == o[j - 1]
      invariant forall j :: hi < j < a.Length ==> a[j] == o[j]
    {
      a[k] := a[k - 1];
      k := k - 1;
    }
    a[lo] := last;
    RotateRightPointwise(o, a[..], lo, hi);
  }

  lemma RotateRightPointwise(o: seq<nat>, r: seq<nat>, lo: nat, hi: nat)
    requires lo <= hi < |o| == |r|
    requires forall j :: 0 <= j < lo ==> r[j] == o[j]
    requires r[lo] == o[hi]
    requires forall j :: lo < j <= hi ==> r[j] == o[j - 1]
    requires forall j :: hi < j < |o| ==> r[j] == o[j]
    ensures r == RotateRightOf(o, lo, hi)
  {
    var t := RotateRightOf(o, lo, hi);
    forall j | 0 <= j < |o|
      ensures r[j] == t[j]
    {
      if lo < j <= hi {
        assert t[j] == o[lo..hi][j - lo - 1];
      }
    }
  }

  /** `ref_vec.iter().position(|r| ptr::eq(num, *r)).unwrap()` */
  method Position(a: array<nat>, id: nat) returns (idx: nat)
    requires id in a[..]
    ensures idx == IndexOf(a[..], id)
  {
    idx := 0;
    while a[idx] != id
      invariant idx < a.Length && id in a[idx..]
      invariant forall j :: 0 <= j < idx ==> a[j] != id
      decreases a.Length - idx
    {
      assert a[idx..] == [a[idx]] + a[idx + 1..];
      idx := idx + 1;
    }
    IndexOfUnique(a[..], id, idx);
  }

  lemma {:induction false} IndexOfUnique(s: seq<nat>, id: nat, k: nat)
    requires k < |s| && s[k] == id && forall j :: 0 <= j < k ==> s[j] != id
    ensures k == IndexOf(s, id)
  {
    if k > 0 {
      assert s[0] != id;
      assert s[1..][k - 1] == id;
      IndexOfUnique(s[1..], id, k - 1);
    }
  }

  /** `shuffle`: the identities of the numbers in their order after `rounds` mixes. */
  method Shuffle(nums: seq<int>, factor: int, rounds: nat) returns (r: seq<nat>)
    requires |nums| >= 2
    ensures r == Mix(Steps(Scaled(nums, factor)), rounds)
  {
    var refs := new nat[|nums|](i => i);
    assert refs[..] == Identity(|nums|);
    for round := 0 to rounds
      invariant refs[..] == Mix(Steps(Scaled(nums, factor)), round)
    {
      MixRound(refs, nums, factor);
    }
    r := refs[..];
  }

  /** One round of `shuffle`: every number, in input order, is found and moved. */
  method MixRound(refs: array<nat>, nums: seq<int>, factor: int)
    requires |nums| >= 2 && IsArrangement(refs[..], |nums|)
    modifies refs
    ensures refs[..] == MixFrom(old(refs[..]), Steps(Scaled(nums, factor)), 0)
  {
    ghost var steps := Steps(Scaled(nums, factor));
    for id := 0 to |nums|
      invariant IsArrangement(refs[..], |nums|)
      invariant MixFrom(refs[..], steps, id) == MixFrom(old(refs[..]), steps, 0)
    {
      MoveOne(refs, nums, factor, id);
    }
  }

  /** The body of the round's loop: number `id` is found and moved `num.rem_euclid(len - 1)` on. */
  method MoveOne(refs: array<nat>, nums: seq<int>, factor: int, id: nat)
    requires |nums| >= 2 && IsArrangement(refs[..], |nums|) && id < |nums|
    modifies refs
    ensures refs[..] == MoveNumber(old(refs[..]), Steps(Scaled(nums, factor)), id)
  {
    var len := |nums|;
    ghost var steps := Steps(Scaled(nums, factor));
    ArrangementHolds(refs[..], len, id);
    var idx := Position(refs, id);
    var num := nums[id] * factor;
    var step := num % (len - 1);
    StepOf(nums, factor, id);
    var newIdx := (idx + step) % len;
    assert newIdx == Target(idx, steps[id], len);
    MoveNumberAt(refs[..], steps, id, idx);
    if newIdx > idx {
      RotateLeft(refs, idx, newIdx);
    } else if newIdx < idx {
      RotateRight(refs, newIdx + 1, idx);
    }
  }

  // ------------------------------------------------------------ parsing and the parts

  /** `parse`: one number per line; a line that does not parse fails the whole input. */
  function ParseNumbers(lines: seq<string>): (r: Option<seq<int>>)
    ensures r.Some? <==> forall i :: 0 <= i < |lines| ==> Text.ParseInt(lines[i]).Some?
    ensures r.Some? ==>
      |r.value| == |lines| && forall i :: 0 <= i < |lines| ==> Some(r.value[i]) == Text.ParseInt(lines[i])
  {
    if lines == [] then Some([])
    else
      match (Text.ParseInt(lines[0]), ParseNumbers(lines[1..]))
      case (Some(v), Some(rest)) =>
        assert forall i :: 1 <= i < |lines| ==> lines[i] == lines[1..][i - 1];
        Some([v] + rest)
      case _ =>
        assert forall i :: 1 <= i < |lines| ==> lines[i] == lines[1..][i - 1];
        None
  }

  /** `parse`: `None` exactly when some line is not a number; otherwise each line's number. */
  function Parse(input: string): (r: Option<seq<int>>)
    ensures r.Some? <==> forall i :: 0 <= i < |Text.Lines(input)| ==> Text.ParseInt(Text.Lines(input)[i]).Some?
    ensures r.Some? ==>
      |r.value| == |Text.Lines(input)| && forall i :: 0 <= i < |r.value| ==> Some(r.value[i]) == Text.ParseInt(Text.Lines(input)[i])
  {
    ParseNumbers(Text.Lines(input))
  }

  method Part1(nums: seq<int>) returns (r: int)
    requires |nums| >= 2
    ensures r == Part1Answer(nums)
  {
    var refs := Shuffle(nums, 1, 1);
    r := GroveSum(refs, nums);
  }

  method Part2(nums: seq<int>) returns (r: int)
    requires |nums| >= 2
    ensures r == Part2Answer(nums)
  {
    var refs := Shuffle(nums, DecryptionKey % (|nums| - 1), 10);
    r := DecryptionKey * GroveSum(refs, nums);
  }
}
