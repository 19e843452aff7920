/**
 * Day 07: a terminal session of `cd` and `ls` commands and their output.
 * A stack of the directories entered is kept; `ls` resets the current
 * directory's size, and every file line adds its size to each directory on
 * the stack. Part 1 sums the sizes below 100000; part 2 picks the smallest
 * directory whose removal leaves 30000000 of the 70000000 free.
 */
module Day07 {
  import opened Wrappers
  import opened Text
  import opened Sorting

  const DiskSize: nat := 70000000
  const NeededSpace: nat := 30000000
  const SmallFile: nat := 100000

  /** The directory stack, innermost last, and the size recorded per directory path. */
  datatype Shell = Shell(cwds: seq<string>, sizes: map<string, nat>)

  // ------------------------------------------------------------ one line

  function StripPrefix(s: string, prefix: string): (r: Option<string>)
    ensures r.Some? <==> |prefix| <= |s| && s[..|prefix|] == prefix
    ensures r.Some? ==> prefix + r.value == s
  {
    if |prefix| <= |s| && s[..|prefix|] == prefix then Some(s[|prefix|..]) else None
  }

  predicate StartsWith(s: string, prefix: string)
  {
    |prefix| <= |s| && s[..|prefix|] == prefix
  }

  /** `[parent, dir].join("/")`. */
  function JoinPath(parent: string, dir: string): (p: string)
    ensures |p| == |parent| + 1 + |dir|
  {
    parent + "/" + dir
  }

  /** The innermost directory, or "" when the stack is empty (`unwrap_or`). */
  function Current(cwds: seq<string>): string
  {
    if cwds == [] then "" else cwds[|cwds| - 1]
  }

  /**
   * `*dir_map.get_mut(dir_name).unwrap() += size` for every directory on the
   * stack, outermost first; `None` is the panic on a directory never listed.
   */
  function AddAll(sizes: map<string, nat>, dirs: seq<string>, size: nat): Option<map<string, nat>>
  {
    if dirs == [] then Some(sizes)
    else if dirs[0] !in sizes then None
    else AddAll(sizes[dirs[0] := sizes[dirs[0]] + size], dirs[1..], size)
  }

  /**
   * One line of the session. `None` is a panic: `ls` with no directory
   * entered, a file line whose first word is not a number, or a file inside a
   * directory never listed.
   */
  function Step(sh: Shell, entry: string): Option<Shell>
  {
    match StripPrefix(entry, "$ cd ")
    case Some(dir) =>
      if dir == ".." then Some(sh.(cwds := if sh.cwds == [] then [] else sh.cwds[..|sh.cwds| - 1]))
      else Some(sh.(cwds := sh.cwds + [JoinPath(Current(sh.cwds), dir)]))
    case None =>
      if entry == "$ ls" then
        if sh.cwds == [] then None else Some(sh.(sizes := sh.sizes[Current(sh.cwds) := 0]))
      else if StartsWith(entry, "dir") then Some(sh)
      else
        match ParseNat(Split(entry, ' ')[0])
        case None => None
        case Some(size) =>
          match AddAll(sh.sizes, sh.cwds, size)
          case None => None
          case Some(m) => Some(sh.(sizes := m))
  }

  /** The whole session from state `sh`. */
  function Run(sh: Shell, entries: seq<string>): Option<Shell>
    decreases |entries|
  {
    if entries == [] then Some(sh)
    else
      match Step(sh, entries[0])
      case None => None
      case Some(next) => Run(next, entries[1..])
  }

  /** The directory sizes a session ends with, started with no directory entered. */
  function SizesOf(entries: seq<string>): Option<map<string, nat>>
  {
    match Run(Shell([], map[]), entries)
    case Some(sh) => Some(sh.sizes)
    case None => None
  }

  // ------------------------------------------------------------ what a line does

  /** Each directory on the stack is a longer path than the one it was entered from. */
  predicate Nested(cwds: seq<string>)
  {
    forall i :: 0 < i < |cwds| ==> |cwds[i - 1]| < |cwds[i]|
  }

  lemma {:induction false} NestedDistinct(cwds: seq<string>, i: nat, j: nat)
    requires Nested(cwds) && i < j < |cwds|
    ensures |cwds[i]| < |cwds[j]| && cwds[i] != cwds[j]
    decreases j - i
  {
    if i + 1 < j {
      NestedDistinct(cwds, i, j - 1);
    }
  }

  /** `cd` into a directory pushes its path, `cd ..` pops, and the stack stays nested. */
  lemma StepNested(sh: Shell, entry: string)
    requires Nested(sh.cwds)
    ensures Step(sh, entry).Some? ==> Nested(Step(sh, entry).value.cwds)
  {
  }

  lemma {:induction false} RunNested(sh: Shell, entries: seq<string>)
    requires Nested(sh.cwds)
    ensures Run(sh, entries).Some? ==> Nested(Run(sh, entries).value.cwds)
    decreases |entries|
  {
    if entries != [] {
      StepNested(sh, entries[0]);
      if Step(sh, entries[0]).Some? {
        RunNested(Step(sh, entries[0]).value, entries[1..]);
      }
    }
  }

  /**
   * A file line adds its size exactly once to every directory on the stack
   * and leaves every other directory alone; it panics exactly when one of the
   * stack's directories was never listed.
   */
  lemma {:induction false} AddAllOnce(sizes: map<string, nat>, dirs: seq<string>, size: nat)
    requires forall i, j :: 0 <= i < j < |dirs| ==> dirs[i] != dirs[j]
    ensures AddAll(sizes, dirs, size).Some? <==> forall i :: 0 <= i < |dirs| ==> dirs[i] in sizes
    ensures AddAll(sizes, dirs, size).Some? ==>
      var m := AddAll(sizes, dirs, size).value;
      m.Keys == sizes.Keys && forall d :: d in sizes ==> m[d] == sizes[d] + if d in dirs then size else 0
  {
    if dirs != [] && dirs[0] in sizes {
      var next := sizes[dirs[0] := sizes[dirs[0]] + size];
      AddAllOnce(next, dirs[1..], size);
      assert dirs[0] !in dirs[1..] by {
        forall i | 0 <= i < |dirs[1..]|
          ensures dirs[1..][i] != dirs[0]
        {
          assert dirs[1..][i] == dirs[i + 1];
        }
      }
      forall d | d in dirs
        ensures d == dirs[0] || d in dirs[1..]
      {
        var i :| 0 <= i < |dirs| && dirs[i] == d;
        if i > 0 {
          assert dirs[1..][i - 1] == d;
        }
      }
      forall i | 0 <= i < |dirs|
        ensures dirs[i] in next <==> dirs[i] in sizes
      {
      }
    }
  }

  /** A file line in a nested stack: the same, with distinctness coming from the nesting. */
  lemma FileLineAdds(sh: Shell, entry: string, size: nat)
    requires Nested(sh.cwds)
    requires StripPrefix(entry, "$ cd ").None? && entry != "$ ls" && !StartsWith(entry, "dir")
    requires ParseNat(Split(entry, ' ')[0]) == Some(size)
    ensures Step(sh, entry).Some? <==> forall i :: 0 <= i < |sh.cwds| ==> sh.cwds[i] in sh.sizes
    ensures Step(sh, entry).Some? ==>
      var after := Step(sh, entry).value;
      after.cwds == sh.cwds && after.sizes.Keys == sh.sizes.Keys &&
      forall d :: d in sh.sizes ==> after.sizes[d] == sh.sizes[d] + if d in sh.cwds then size else 0
  {
    forall i, j | 0 <= i < j < |sh.cwds|
      ensures sh.cwds[i] != sh.cwds[j]
    {
      NestedDistinct(sh.cwds, i, j);
    }
    AddAllOnce(sh.sizes, sh.cwds, size);
  }

  /** `ls` sets the current directory's size to 0 and touches nothing else. */
  lemma ListResets(sh: Shell)
    requires sh.cwds != []
    ensures Step(sh, "$ ls") == Some(Shell(sh.cwds, sh.sizes[sh.cwds[|sh.cwds| - 1] := 0]))
  {
    assert StripPrefix("$ ls", "$ cd ").None?;
  }

  /** A `dir` line changes nothing. */
  lemma DirLineIgnored(sh: Shell, name: string)
    ensures Step(sh, "dir " + name) == Some(sh)
  {
    var entry := "dir " + name;
    assert entry[..3] == "dir";
    assert entry[3] == ' ';
    assert StripPrefix(entry, "$ cd ").None? by {
      if |entry| >= 5 {
        assert entry[..5][0] == 'd';
      }
    }
  }

  /** `cd x` pushes the path of `x` inside the current directory; `cd ..` pops it again. */
  lemma ChangeDirectory(sh: Shell, dir: string)
    requires dir != ".."
    ensures Step(sh, "$ cd " + dir) == Some(sh.(cwds := sh.cwds + [JoinPath(Current(sh.cwds), dir)]))
    ensures Step(Step(sh, "$ cd " + dir).value, "$ cd ..") == Some(sh)
  {
    assert ("$ cd " + dir)[..5] == "$ cd ";
    assert ("$ cd " + dir)[5..] == dir;
    assert ("$ cd ..")[..5] == "$ cd ";
    var pushed := sh.cwds + [JoinPath(Current(sh.cwds), dir)];
    assert pushed[..|pushed| - 1] == sh.cwds;
  }

  // ------------------------------------------------------------ the session loop

  /** The inner loop over `cwds`. */
  method AddSize(dirMap: map<string, nat>, cwds: seq<string>, size: nat) returns (r: Option<map<string, nat>>)
    ensures r == AddAll(dirMap, cwds, size)
  {
    var m: map<string, nat> := dirMap;
    for j := 0 to |cwds|
      invariant AddAll(dirMap, cwds, size) == AddAll(m, cwds[j..], size)
    {
      assert cwds[j..][1..] == cwds[j + 1..];
      if cwds[j] !in m {
        return None;
      }
      m := m[cwds[j] := m[cwds[j]] + size];
    }
    r := Some(m);
  }

  /** `part1`'s loop over the session, with `cwds` and `dir_map` updated in place. */
  method Session(entries: seq<string>) returns (r: Option<map<string, nat>>)
    ensures r == SizesOf(entries)
  {
    var dirMap: map<string, nat> := map[];
    var cwds: seq<string> := [];
    for i := 0 to |entries|
      invariant Run(Shell([], map[]), entries) == Run(Shell(cwds, dirMap), entries[i..])
    {
      assert entries[i..][1..] == entries[i + 1..];
      var entry := entries[i];
      var dir := StripPrefix(entry, "$ cd ");
      if dir.Some? {
        if dir.value == ".." {
          if cwds != [] {
            cwds := cwds[..|cwds| - 1];
          }
        } else {
          var newDir := JoinPath(Current(cwds), dir.value);
          cwds := cwds + [newDir];
        }
      } else if entry == "$ ls" {
        if cwds == [] {
          return None;
        }
        dirMap := dirMap[cwds[|cwds| - 1] := 0];
      } else if !StartsWith(entry, "dir") {
        var size := ParseNat(Split(entry, ' ')[0]);
        if size.None? {
          return None;
        }
        var added := AddSize(dirMap, cwds, size.value);
        if added.None? {
          return None;
        }
        dirMap := added.value;
      }
    }
    r := Some(dirMap);
  }

  // ------------------------------------------------------------ part 1

  /** `vals` lists the values of `m`, one per key, under the distinct `keys`. */
  predicate Listing(m: map<string, nat>, keys: seq<string>, vals: seq<int>)
  {
    |keys| == |vals| &&
    (forall i :: 0 <= i < |keys| ==> keys[i] in m && vals[i] == m[keys[i]]) &&
    (forall k :: k in m ==> k in keys) &&
    (forall i, j :: 0 <= i < j < |keys| ==> keys[i] != keys[j])
  }

  /** `dir_map.into_values().collect()`, in whatever order the map yields its entries. */
  method Values(m: map<string, nat>) returns (vals: seq<int>, ghost keys: seq<string>)
    ensures Listing(m, keys, vals)
  {
    var rest := m.Keys;
    vals, keys := [], [];
    while rest != {}
      invariant rest <= m.Keys && |keys| == |vals|
      invariant forall i :: 0 <= i < |keys| ==> keys[i] in m && keys[i] !in rest && vals[i] == m[keys[i]]
      invariant forall k :: k in m ==> k in rest || k in keys
      invariant forall i, j :: 0 <= i < j < |keys| ==> keys[i] != keys[j]
      decreases |rest|
    {
      var k :| k in rest;
      keys := keys + [k];
      vals := vals + [m[k]];
      rest := rest - {k};
    }
  }

  /** The sum of the sizes below `SmallFile`, in any order. */
  function SumBelow(s: seq<int>): int
  {
    if s == [] then 0 else (if s[0] < SmallFile then s[0] else 0) + SumBelow(s[1..])
  }

  /** `take_while(|v| v < SMALL_FILE).sum()`. */
  function TakeWhileSum(s: seq<int>): int
  {
    if s == [] || s[0] >= SmallFile then 0 else s[0] + TakeWhileSum(s[1..])
  }

  /** On ascending sizes, the prefix below the bound holds every size below it. */
  lemma {:induction false} TakeWhileIsSumBelow(s: seq<int>)
    requires Ascending(s)
    ensures TakeWhileSum(s) == SumBelow(s)
  {
    if s != [] {
      assert Ascending(s[1..]) by {
        forall i | 0 < i < |s[1..]|
          ensures s[1..][i - 1] <= s[1..][i]
        {
          assert s[1..][i - 1] == s[i] && s[1..][i] == s[i + 1];
        }
      }
      TakeWhileIsSumBelow(s[1..]);
      if s[0] >= SmallFile && |s| > 1 {
        assert s[1..][0] == s[1] >= s[0];
      }
    }
  }

  lemma {:induction false} SumBelowInsert(x: int, s: seq<int>)
    requires Ascending(s)
    ensures SumBelow(Insert(x, s)) == (if x < SmallFile then x else 0) + SumBelow(s)
  {
    if s != [] && x > s[0] {
      assert Ascending(s[1..]) by {
        forall i | 0 < i < |s[1..]|
          ensures s[1..][i - 1] <= s[1..][i]
        {
          assert s[1..][i - 1] == s[i] && s[1..][i] == s[i + 1];
        }
      }
      SumBelowInsert(x, s[1..]);
      assert ([s[0]] + Insert(x, s[1..]))[1..] == Insert(x, s[1..]);
    } else {
      assert ([x] + s)[1..] == s;
    }
  }

  /** Sorting does not change which sizes are below the bound. */
  lemma {:induction false} SumBelowSort(s: seq<int>)
    ensures SumBelow(Sort(s)) == SumBelow(s)
  {
    if s != [] {
      SumBelowSort(s[1..]);
      SumBelowInsert(s[0], Sort(s[1..]));
    }
  }

  /**
   * `part1`: the sizes are collected, sorted ascending and kept (`self.1`),
   * and the answer is the sum of every size below 100000.
   */
  method Part1(entries: seq<string>) returns (r: Option<int>, sorted: seq<int>, ghost keys: seq<string>)
    ensures r.Some? <==> SizesOf(entries).Some?
    ensures r.Some? ==> exists vals :: (Listing(SizesOf(entries).value, keys, vals) &&
      Ascending(sorted) && multiset(sorted) == multiset(vals) && r.value == SumBelow(vals))
  {
    var dirMap := Session(entries);
    sorted, keys := [], [];
    if dirMap.None? {
      return None, sorted, keys;
    }
    var vals;
    vals, keys := Values(dirMap.value);
    sorted := Sort(vals);
    TakeWhileIsSumBelow(sorted);
    SumBelowSort(vals);
    r := Some(TakeWhileSum(sorted));
  }

  // ------------------------------------------------------------ part 2

  /**
   * `part2` on the sorted sizes: the largest is the used space, and the
   * first size at least `needed_size` is returned. `None` is a panic: no
   * size at all, or a `usize` subtraction below zero (more used than the
   * disk holds, or already enough free space).
   */
  method Part2(sorted: seq<int>) returns (r: Option<int>)
    requires Ascending(sorted) && forall i :: 0 <= i < |sorted| ==> sorted[i] >= 0
    ensures r.Some? <==> sorted != [] && DiskSize - NeededSpace <= sorted[|sorted| - 1] <= DiskSize
    ensures r.Some? ==> r.value in sorted && DiskSize - sorted[|sorted| - 1] + r.value >= NeededSpace
    ensures r.Some? ==> forall x :: x in sorted && DiskSize - sorted[|sorted| - 1] + x >= NeededSpace ==> r.value <= x
  {
    if sorted == [] {
      return None;
    }
    var used := sorted[|sorted| - 1];
    if used > DiskSize {
      return None;
    }
    var freeSize := DiskSize - used;
    if freeSize > NeededSpace {
      return None;
    }
    var neededSize := NeededSpace - freeSize;
    for i := 0 to |sorted|
      invariant forall j :: 0 <= j < i ==> sorted[j] < neededSize
    {
      if sorted[i] >= neededSize {
        forall x | x in sorted && x >= neededSize
          ensures sorted[i] <= x
        {
          var j :| 0 <= j < |sorted| && sorted[j] == x;
          if j >= i {
            AscendingPairs(sorted, i, j);
          }
        }
        return Some(sorted[i]);
      }
    }
    // the largest size always frees enough: `unreachable!()`
    assert false;
  }
}
