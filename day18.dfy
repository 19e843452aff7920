/**
 * Day 18: a lava droplet made of unit cubes. Part 1 counts the cube faces
 * not covered by another cube; part 2 counts only the faces the steam
 * reaches, by a flood fill of the air around the droplet inside its
 * bounding box padded by one.
 */
module Day18 {
  import opened Wrappers
  import opened Text

  datatype Cube = Cube(x: int, y: int, z: int)

  /** The droplet: its cubes and the corners of its bounding box. */
  datatype Droplet = Droplet(lava: set<Cube>, lo: Cube, hi: Cube)

  // ------------------------------------------------------------ parsing

  /** A coordinate is an `i8`: anything `str::parse::<i8>` refuses panics in `unwrap`. */
  function ParseCoord(s: string): (r: Option<int>)
    ensures r.Some? ==> -128 <= r.value <= 127 && ParseInt(s) == Some(r.value)
  {
    match ParseInt(s)
    case Some(n) => if -128 <= n <= 127 then Some(n) else None
    case None => None
  }

  /** `x,y,z`: the first three comma-separated parts; a missing or malformed one panics. */
  function ParseCube(line: string): Option<Cube>
  {
    var parts := Split(line, ',');
    if |parts| < 3 then None
    else
      match (ParseCoord(parts[0]), ParseCoord(parts[1]), ParseCoord(parts[2]))
      case (Some(x), Some(y), Some(z)) => Some(Cube(x, y, z))
      case _ => None
  }

  predicate IsI8(n: int)
  {
    -128 <= n <= 127
  }

  function FormatCube(c: Cube): string
  {
    FormatInt(c.x) + "," + FormatInt(c.y) + "," + FormatInt(c.z)
  }

  lemma NoComma(n: int)
    ensures ',' !in FormatInt(n)
  {
    var d := Decimal(if n < 0 then -n else n);
    assert forall i :: 0 <= i < |d| ==> IsDigit(d[i]);
    if n < 0 {
      assert FormatInt(n) == "-" + d;
      assert forall i :: 0 <= i < |FormatInt(n)| ==> FormatInt(n)[i] != ',' by {
        forall i | 0 <= i < |FormatInt(n)|
          ensures FormatInt(n)[i] != ','
        {
          if i > 0 {
            assert FormatInt(n)[i] == d[i - 1];
          }
        }
      }
    }
  }

  /** A cube written as `x,y,z` reads back as itself. */
  lemma ParseCubeFormat(c: Cube)
    requires IsI8(c.x) && IsI8(c.y) && IsI8(c.z)
    ensures ParseCube(FormatCube(c)) == Some(c)
  {
    var parts := [FormatInt(c.x), FormatInt(c.y), FormatInt(c.z)];
    NoComma(c.x);
    NoComma(c.y);
    NoComma(c.z);
    assert parts[1..][1..] == [FormatInt(c.z)];
    assert JoinWith(parts[1..], ',') == FormatInt(c.y) + [','] + FormatInt(c.z);
    assert JoinWith(parts, ',') == FormatCube(c);
    JoinSplit(parts, ',');
    ParseIntFormat(c.x);
    ParseIntFormat(c.y);
    ParseIntFormat(c.z);
  }

  /** Every line parsed, in order; `None` when one of them panics. */
  function AllCubes(lines: seq<string>): (r: Option<seq<Cube>>)
    ensures r.Some? <==> forall i :: 0 <= i < |lines| ==> ParseCube(lines[i]).Some?
    ensures r.Some? ==> |r.value| == |lines| && forall i :: 0 <= i < |lines| ==> Some(r.value[i]) == ParseCube(lines[i])
  {
    if lines == [] then Some([])
    else
      var init := lines[..|lines| - 1];
      match (AllCubes(init), ParseCube(lines[|lines| - 1]))
      case (Some(cs), Some(c)) => Some(cs + [c])
      case (None, _) =>
        var i :| 0 <= i < |init| && !ParseCube(init[i]).Some?;
        assert lines[i] == init[i];
        None
      case (_, None) => None
  }

  function Coord(c: Cube, axis: nat): int
  {
    if axis == 0 then c.x else if axis == 1 then c.y else c.z
  }

  /** `v` is the smallest `axis` coordinate among `cubes`. */
  predicate IsLowest(cubes: seq<Cube>, axis: nat, v: int)
  {
    (forall j :: 0 <= j < |cubes| ==> v <= Coord(cubes[j], axis)) &&
    exists j :: 0 <= j < |cubes| && Coord(cubes[j], axis) == v
  }

  /** `v` is the largest `axis` coordinate among `cubes`. */
  predicate IsHighest(cubes: seq<Cube>, axis: nat, v: int)
  {
    (forall j :: 0 <= j < |cubes| ==> Coord(cubes[j], axis) <= v) &&
    exists j :: 0 <= j < |cubes| && Coord(cubes[j], axis) == v
  }

  /** The bounding box of `cubes`, tight on every side. */
  predicate IsBox(cubes: seq<Cube>, lo: Cube, hi: Cube)
  {
    IsLowest(cubes, 0, lo.x) && IsLowest(cubes, 1, lo.y) && IsLowest(cubes, 2, lo.z) &&
    IsHighest(cubes, 0, hi.x) && IsHighest(cubes, 1, hi.y) && IsHighest(cubes, 2, hi.z)
  }

  /** `min = Some(min.unwrap_or(v).min(v))`: the running minimum after one more cube. */
  lemma LowestStep(cubes: seq<Cube>, axis: nat, m: Option<int>, c: Cube)
    requires m.None? <==> cubes == []
    requires m.Some? ==> IsLowest(cubes, axis, m.value)
    ensures IsLowest(cubes + [c], axis, Min(if m.Some? then m.value else Coord(c, axis), Coord(c, axis)))
  {
    var all := cubes + [c];
    var v := Min(if m.Some? then m.value else Coord(c, axis), Coord(c, axis));
    assert all[|cubes|] == c;
    if v != Coord(c, axis) {
      var j :| 0 <= j < |cubes| && Coord(cubes[j], axis) == m.value;
      assert all[j] == cubes[j];
    }
  }

  /** `max = Some(max.unwrap_or(v).max(v))`: the running maximum after one more cube. */
  lemma HighestStep(cubes: seq<Cube>, axis: nat, m: Option<int>, c: Cube)
    requires m.None? <==> cubes == []
    requires m.Some? ==> IsHighest(cubes, axis, m.value)
    ensures IsHighest(cubes + [c], axis, Max(if m.Some? then m.value else Coord(c, axis), Coord(c, axis)))
  {
    var all := cubes + [c];
    var v := Max(if m.Some? then m.value else Coord(c, axis), Coord(c, axis));
    assert all[|cubes|] == c;
    if v != Coord(c, axis) {
      var j :| 0 <= j < |cubes| && Coord(cubes[j], axis) == m.value;
      assert all[j] == cubes[j];
    }
  }

  /** `cubes` are the first lines, parsed. */
  predicate ParsedPrefix(lines: seq<string>, cubes: seq<Cube>)
  {
    |cubes| <= |lines| && forall j :: 0 <= j < |cubes| ==> Some(cubes[j]) == ParseCube(lines[j])
  }

  lemma ParsedAppend(lines: seq<string>, cubes: seq<Cube>, c: Cube)
    requires ParsedPrefix(lines, cubes) && |cubes| < |lines| && ParseCube(lines[|cubes|]) == Some(c)
    ensures ParsedPrefix(lines, cubes + [c])
  {
  }

  lemma ParsedAll(lines: seq<string>, cubes: seq<Cube>)
    requires ParsedPrefix(lines, cubes) && |cubes| == |lines|
    ensures AllCubes(lines) == Some(cubes)
  {
    var r := AllCubes(lines);
    assert r.value == cubes;
  }

  /** The distinct cubes: the set `collect` builds. */
  function Elements(cubes: seq<Cube>): set<Cube>
  {
    set c | c in cubes
  }

  lemma ElementsAppend(cubes: seq<Cube>, c: Cube)
    ensures Elements(cubes + [c]) == Elements(cubes) + {c}
  {
  }

  /** The six running extremes `parse` keeps are those of the cubes read so far. */
  predicate Tracks(cubes: seq<Cube>, minX: Option<int>, maxX: Option<int>, minY: Option<int>, maxY: Option<int>,
                   minZ: Option<int>, maxZ: Option<int>)
  {
    (minX.None? <==> cubes == []) &&
    maxX.None? == minX.None? && minY.None? == minX.None? && maxY.None? == minX.None? &&
    minZ.None? == minX.None? && maxZ.None? == minX.None? &&
    (minX.Some? ==> IsLowest(cubes, 0, minX.value) && IsLowest(cubes, 1, minY.value) && IsLowest(cubes, 2, minZ.value)) &&
    (minX.Some? ==> IsHighest(cubes, 0, maxX.value) && IsHighest(cubes, 1, maxY.value) && IsHighest(cubes, 2, maxZ.value))
  }

  function Lower(m: Option<int>, v: int): Option<int>
  {
    Some(Min(if m.Some? then m.value else v, v))
  }

  function Upper(m: Option<int>, v: int): Option<int>
  {
    Some(Max(if m.Some? then m.value else v, v))
  }

  lemma TracksStep(cubes: seq<Cube>, minX: Option<int>, maxX: Option<int>, minY: Option<int>, maxY: Option<int>,
                   minZ: Option<int>, maxZ: Option<int>, c: Cube)
    requires Tracks(cubes, minX, maxX, minY, maxY, minZ, maxZ)
    ensures Tracks(cubes + [c], Lower(minX, c.x), Upper(maxX, c.x), Lower(minY, c.y), Upper(maxY, c.y),
                   Lower(minZ, c.z), Upper(maxZ, c.z))
  {
    LowestStep(cubes, 0, minX, c);
    LowestStep(cubes, 1, minY, c);
    LowestStep(cubes, 2, minZ, c);
    HighestStep(cubes, 0, maxX, c);
    HighestStep(cubes, 1, maxY, c);
    HighestStep(cubes, 2, maxZ, c);
  }

  /** The six updates of one line inside `parse`'s closure. */
  method Widen(ghost cubes: seq<Cube>, minX: Option<int>, maxX: Option<int>, minY: Option<int>, maxY: Option<int>,
               minZ: Option<int>, maxZ: Option<int>, c: Cube)
    returns (minX': Option<int>, maxX': Option<int>, minY': Option<int>, maxY': Option<int>, minZ': Option<int>, maxZ': Option<int>)
    requires Tracks(cubes, minX, maxX, minY, maxY, minZ, maxZ)
    ensures Tracks(cubes + [c], minX', maxX', minY', maxY', minZ', maxZ')
  {
    minX' := Extend(minX, c.x, true);
    maxX' := Extend(maxX, c.x, false);
    minY' := Extend(minY, c.y, true);
    maxY' := Extend(maxY, c.y, false);
    minZ' := Extend(minZ, c.z, true);
    maxZ' := Extend(maxZ, c.z, false);
    TracksStep(cubes, minX, maxX, minY, maxY, minZ, maxZ, c);
  }

  /** The six running extremes of one axis pair, updated as `parse` does per cube. */
  method Extend(m: Option<int>, v: int, lower: bool) returns (m': Option<int>)
    ensures m' == if lower then Lower(m, v) else Upper(m, v)
  {
    var current := if m.Some? then m.value else v;
    m' := Some(if lower then Min(current, v) else Max(current, v));
  }

  /**
   * `parse`: every line becomes a cube, and the smallest and largest of each
   * coordinate are tracked on the way. `None` is a panic: a bad line, or no
   * line at all (`unwrap` on the still empty minimum).
   */
  method Parse(input: string) returns (r: Option<Droplet>)
    ensures r.Some? <==> Lines(input) != [] && AllCubes(Lines(input)).Some?
    ensures r.Some? ==> r.value.lava == Elements(AllCubes(Lines(input)).value)
    ensures r.Some? ==> IsBox(AllCubes(Lines(input)).value, r.value.lo, r.value.hi)
  {
    var lines := Lines(input);
    var minX, maxX, minY, maxY, minZ, maxZ: Option<int> := None, None, None, None, None, None;
    var lava: set<Cube> := {};
    ghost var cubes: seq<Cube> := [];
    for i := 0 to |lines|
      invariant |cubes| == i && ParsedPrefix(lines, cubes)
      invariant lava == Elements(cubes)
      invariant Tracks(cubes, minX, maxX, minY, maxY, minZ, maxZ)
    {
      var cube := ParseCube(lines[i]);
      if cube.None? {
        assert !AllCubes(lines).Some?;
        return None;
      }
      var c := cube.value;
      minX, maxX, minY, maxY, minZ, maxZ := Widen(cubes, minX, maxX, minY, maxY, minZ, maxZ, c);
      ElementsAppend(cubes, c);
      ParsedAppend(lines, cubes, c);
      lava := lava + {c};
      cubes := cubes + [c];
    }
    ParsedAll(lines, cubes);
    if minX.None? {
      return None;
    }
    r := Some(Droplet(lava, Cube(minX.value, minY.value, minZ.value), Cube(maxX.value, maxY.value, maxZ.value)));
  }

  // ------------------------------------------------------------ part 1

  /** The six axis neighbours, in the order the source lists them: +x, -x, +y, -y, +z, -z. */
  function Neighbour(c: Cube, d: nat): Cube
  {
    match d
    case 0 => Cube(c.x + 1, c.y, c.z)
    case 1 => Cube(c.x - 1, c.y, c.z)
    case 2 => Cube(c.x, c.y + 1, c.z)
    case 3 => Cube(c.x, c.y - 1, c.z)
    case 4 => Cube(c.x, c.y, c.z + 1)
    case _ => Cube(c.x, c.y, c.z - 1)
  }

  /** The direction back: +x and -x, +y and -y, +z and -z swap. */
  function Opposite(d: nat): nat
  {
    if d % 2 == 0 then d + 1 else d - 1
  }

  lemma OppositeBack(c: Cube, d: nat)
    requires d < 6
    ensures Opposite(d) < 6 && Opposite(Opposite(d)) == d && Neighbour(Neighbour(c, d), Opposite(d)) == c
  {
  }

  /** The uncovered faces of the cubes `s`: a face is a cube and the direction its neighbour lies in. */
  function FacesOf(lava: set<Cube>, s: set<Cube>): set<(Cube, nat)>
  {
    set c, d | c in s && 0 <= d < 6 && Neighbour(c, d) !in lava :: (c, d)
  }

  /** The uncovered faces of cube `c` towards the first `k` directions. */
  function FreeFaces(lava: set<Cube>, c: Cube, k: nat): set<(Cube, nat)>
  {
    set d | 0 <= d < k && d < 6 && Neighbour(c, d) !in lava :: (c, d)
  }

  /** The surface area of the droplet. */
  function Surface(lava: set<Cube>): set<(Cube, nat)>
  {
    FacesOf(lava, lava)
  }

  lemma FreeFacesStep(lava: set<Cube>, c: Cube, k: nat)
    requires k < 6
    ensures FreeFaces(lava, c, k + 1) == FreeFaces(lava, c, k) + if Neighbour(c, k) !in lava then {(c, k)} else {}
    ensures (c, k) !in FreeFaces(lava, c, k)
  {
  }

  lemma FacesOfStep(lava: set<Cube>, s: set<Cube>, c: Cube)
    requires c !in s
    ensures FacesOf(lava, s + {c}) == FacesOf(lava, s) + FreeFaces(lava, c, 6)
    ensures FacesOf(lava, s) !! FreeFaces(lava, c, 6)
  {
  }

  /** The six `!self.0.contains(..) as usize` terms of one cube. */
  method FreeSides(lava: set<Cube>, c: Cube) returns (n: nat)
    ensures n == |FreeFaces(lava, c, 6)|
  {
    n := 0;
    for d := 0 to 6
      invariant n == |FreeFaces(lava, c, d)|
    {
      FreeFacesStep(lava, c, d);
      if Neighbour(c, d) !in lava {
        n := n + 1;
      }
    }
  }

  /** `part1`: every cube adds its faces whose neighbour is not lava. */
  method Part1(lava: set<Cube>) returns (total: nat)
    ensures total == |Surface(lava)|
  {
    total := 0;
    var rest := lava;
    ghost var counted: set<(Cube, nat)> := {};
    while rest != {}
      invariant rest <= lava
      invariant counted == FacesOf(lava, lava - rest) && total == |counted|
      decreases |rest|
    {
      var c :| c in rest;
      var n := FreeSides(lava, c);
      FacesOfStep(lava, lava - rest, c);
      assert lava - (rest - {c}) == (lava - rest) + {c};
      counted := counted + FreeFaces(lava, c, 6);
      total := total + n;
      rest := rest - {c};
    }
    assert lava - rest == lava;
  }

  /** No cube shows more than its six faces. */
  lemma {:induction false} SurfaceAtMostSix(lava: set<Cube>, s: set<Cube>)
    ensures |FacesOf(lava, s)| <= 6 * |s|
    decreases |s|
  {
    if s != {} {
      var c :| c in s;
      FacesOfStep(lava, s - {c}, c);
      assert s - {c} + {c} == s;
      SurfaceAtMostSix(lava, s - {c});
      FreeFacesAtMostSix(lava, c, 6);
    }
  }

  lemma {:induction false} FreeFacesAtMostSix(lava: set<Cube>, c: Cube, k: nat)
    requires k <= 6
    ensures |FreeFaces(lava, c, k)| <= k
  {
    if k > 0 {
      FreeFacesStep(lava, c, k - 1);
      FreeFacesAtMostSix(lava, c, k - 1);
    }
  }

  /** A lone cube shows all six faces. */
  lemma LoneCube(c: Cube)
    ensures |Surface({c})| == 6
  {
    var all := {(c, 0), (c, 1), (c, 2), (c, 3), (c, 4), (c, 5)};
    assert Surface({c}) == all by {
      forall d | 0 <= d < 6
        ensures Neighbour(c, d) != c
      {
      }
    }
    assert |all| == 6;
  }

  // ------------------------------------------------------------ part 2

  /** `is_safe`: within the bounding box padded by one on every side. */
  predicate IsSafe(lo: Cube, hi: Cube, c: Cube)
  {
    lo.x - 1 <= c.x <= hi.x + 1 && lo.y - 1 <= c.y <= hi.y + 1 && lo.z - 1 <= c.z <= hi.z + 1
  }

  /** Every cell `is_safe` accepts. */
  function Padded(lo: Cube, hi: Cube): set<Cube>
  {
    set x, y, z | lo.x - 1 <= x <= hi.x + 1 && lo.y - 1 <= y <= hi.y + 1 && lo.z - 1 <= z <= hi.z + 1 :: Cube(x, y, z)
  }

  lemma InPadded(lo: Cube, hi: Cube, c: Cube)
    ensures c in Padded(lo, hi) <==> IsSafe(lo, hi, c)
  {
    if IsSafe(lo, hi, c) {
      assert c == Cube(c.x, c.y, c.z);
    }
  }

  /** Every lava cube lies inside the box. */
  predicate Encloses(lo: Cube, hi: Cube, lava: set<Cube>)
  {
    forall c :: c in lava ==> lo.x <= c.x <= hi.x && lo.y <= c.y <= hi.y && lo.z <= c.z <= hi.z
  }

  /** The corner the steam starts from, just outside the box. */
  function Start(lo: Cube): Cube
  {
    Cube(lo.x - 1, lo.y - 1, lo.z - 1)
  }

  /** The faces counted from the air cells `air`: towards a lava neighbour that `is_safe` accepts. */
  function Contacts(lava: set<Cube>, lo: Cube, hi: Cube, air: set<Cube>): set<(Cube, nat)>
  {
    set a, d | a in air && 0 <= d < 6 && IsSafe(lo, hi, Neighbour(a, d)) && Neighbour(a, d) in lava :: (a, d)
  }

  /** The faces counted from air cell `a` towards the first `k` directions. */
  function ContactsOf(lava: set<Cube>, lo: Cube, hi: Cube, a: Cube, k: nat): set<(Cube, nat)>
  {
    set d | 0 <= d < k && d < 6 && IsSafe(lo, hi, Neighbour(a, d)) && Neighbour(a, d) in lava :: (a, d)
  }

  lemma ContactsOfStep(lava: set<Cube>, lo: Cube, hi: Cube, a: Cube, d: nat)
    requires d < 6
    ensures ContactsOf(lava, lo, hi, a, d + 1) ==
      ContactsOf(lava, lo, hi, a, d) + if IsSafe(lo, hi, Neighbour(a, d)) && Neighbour(a, d) in lava then {(a, d)} else {}
    ensures (a, d) !in ContactsOf(lava, lo, hi, a, d)
  {
  }

  /** No air neighbour of a cell in `air` that `is_safe` accepts is missing from `air` or `pending`. */
  predicate ClosedBut(lava: set<Cube>, lo: Cube, hi: Cube, air: set<Cube>, pending: seq<Cube>)
  {
    forall a, d :: a in air && 0 <= d < 6 && IsSafe(lo, hi, Neighbour(a, d)) && Neighbour(a, d) !in lava ==>
      Neighbour(a, d) in air || Neighbour(a, d) in pending
  }

  /** Safe air cells only. */
  predicate SafeAir(lava: set<Cube>, lo: Cube, hi: Cube, cells: seq<Cube>)
  {
    forall i :: 0 <= i < |cells| ==> IsSafe(lo, hi, cells[i]) && cells[i] !in lava
  }

  /**
   * One expanded cell: every neighbour `is_safe` accepts is either lava,
   * and counted, or pushed onto the stack.
   */
  method Expand(lava: set<Cube>, lo: Cube, hi: Cube, a: Cube, queue: seq<Cube>) returns (queue': seq<Cube>, n: nat)
    requires SafeAir(lava, lo, hi, queue)
    ensures |queue'| >= |queue| && queue'[..|queue|] == queue
    ensures SafeAir(lava, lo, hi, queue')
    ensures forall d :: 0 <= d < 6 && IsSafe(lo, hi, Neighbour(a, d)) && Neighbour(a, d) !in lava ==> Neighbour(a, d) in queue'
    ensures n == |ContactsOf(lava, lo, hi, a, 6)|
  {
    queue' := queue;
    n := 0;
    for d := 0 to 6
      invariant |queue'| >= |queue| && queue'[..|queue|] == queue
      invariant SafeAir(lava, lo, hi, queue')
      invariant forall d' :: 0 <= d' < d && IsSafe(lo, hi, Neighbour(a, d')) && Neighbour(a, d') !in lava ==> Neighbour(a, d') in queue'
      invariant n == |ContactsOf(lava, lo, hi, a, d)|
    {
      var neighbour := Neighbour(a, d);
      ContactsOfStep(lava, lo, hi, a, d);
      if IsSafe(lo, hi, neighbour) {
        if neighbour in lava {
          n := n + 1;
        } else {
          assert queue' + [neighbour] == queue'[..|queue'|] + [neighbour];
          queue' := queue' + [neighbour];
          assert queue'[..|queue|] == queue;
        }
      }
    }
  }

  lemma ContactsStep(lava: set<Cube>, lo: Cube, hi: Cube, air: set<Cube>, a: Cube)
    requires a !in air
    ensures Contacts(lava, lo, hi, air + {a}) == Contacts(lava, lo, hi, air) + ContactsOf(lava, lo, hi, a, 6)
    ensures Contacts(lava, lo, hi, air) !! ContactsOf(lava, lo, hi, a, 6)
  {
  }

  /**
   * `part2`: a depth-first flood fill from the corner `Start(lo)`. A popped
   * cell already visited is skipped; otherwise it is expanded. On return the
   * visited air is closed under safe air steps, so it holds every cell the
   * steam can reach, and the result counts its faces against lava.
   */
  method Part2(d: Droplet) returns (total: nat, visited: set<Cube>)
    requires d.lava != {} && Encloses(d.lo, d.hi, d.lava)
    ensures Start(d.lo) in visited && visited <= Padded(d.lo, d.hi) && visited !! d.lava
    ensures ClosedBut(d.lava, d.lo, d.hi, visited, [])
    ensures total == |Contacts(d.lava, d.lo, d.hi, visited)|
  {
    var lava, lo, hi := d.lava, d.lo, d.hi;
    total := 0;
    visited := {};
    var queue := [Start(lo)];
    assert Start(lo) !in lava;
    assert IsSafe(lo, hi, Start(lo)) by {
      var c :| c in lava;
    }
    ghost var counted: set<(Cube, nat)> := {};
    while queue != []
      invariant Flood(lava, lo, hi, visited, queue, counted) && total == |counted|
      decreases |Padded(lo, hi) - visited|, |queue|
    {
      var a := queue[|queue| - 1];
      var rest := queue[..|queue| - 1];
      PopSafe(lava, lo, hi, queue);
      queue := rest;
      if a in visited {
        FloodSkip(lava, lo, hi, visited, rest, a, counted);
        continue;
      }
      PaddedShrinks(lo, hi, visited, a);
      var n;
      queue, n := Expand(lava, lo, hi, a, rest);
      FloodVisit(lava, lo, hi, visited, rest, a, queue, counted);
      visited := visited + {a};
      counted := counted + ContactsOf(lava, lo, hi, a, 6);
      total := total + n;
    }
  }

  /**
   * What the flood fill keeps: the stack holds safe air, the visited cells
   * are safe air, the start is visited or stacked, every air neighbour of a
   * visited cell is visited or stacked, and the faces counted are those of
   * the visited cells.
   */
  ghost predicate Flood(lava: set<Cube>, lo: Cube, hi: Cube, visited: set<Cube>, queue: seq<Cube>, counted: set<(Cube, nat)>)
  {
    SafeAir(lava, lo, hi, queue) && visited <= Padded(lo, hi) && visited !! lava &&
    (Start(lo) in visited || Start(lo) in queue) &&
    ClosedBut(lava, lo, hi, visited, queue) && counted == Contacts(lava, lo, hi, visited)
  }

  /** A popped cell already visited is dropped. */
  lemma FloodSkip(lava: set<Cube>, lo: Cube, hi: Cube, visited: set<Cube>, rest: seq<Cube>, a: Cube, counted: set<(Cube, nat)>)
    requires Flood(lava, lo, hi, visited, rest + [a], counted) && a in visited
    ensures Flood(lava, lo, hi, visited, rest, counted)
  {
    PopSafe(lava, lo, hi, rest + [a]);
    assert (rest + [a])[..|rest|] == rest;
    ClosedSkip(lava, lo, hi, visited, rest, a);
    if Start(lo) !in visited {
      assert Start(lo) in rest + [a];
    }
  }

  /** A popped cell not yet visited is visited, its air neighbours stacked and its lava faces counted. */
  lemma FloodVisit(lava: set<Cube>, lo: Cube, hi: Cube, visited: set<Cube>, rest: seq<Cube>, a: Cube, queue: seq<Cube>,
                   counted: set<(Cube, nat)>)
    requires Flood(lava, lo, hi, visited, rest + [a], counted) && a !in visited
    requires |queue| >= |rest| && queue[..|rest|] == rest && SafeAir(lava, lo, hi, queue)
    requires forall d :: 0 <= d < 6 && IsSafe(lo, hi, Neighbour(a, d)) && Neighbour(a, d) !in lava ==> Neighbour(a, d) in queue
    ensures Flood(lava, lo, hi, visited + {a}, queue, counted + ContactsOf(lava, lo, hi, a, 6))
    ensures |counted + ContactsOf(lava, lo, hi, a, 6)| == |counted| + |ContactsOf(lava, lo, hi, a, 6)|
  {
    var k := |rest|;
    assert (rest + [a])[k] == a;
    assert IsSafe(lo, hi, a) && a !in lava;
    InPadded(lo, hi, a);
    ContactsStep(lava, lo, hi, visited, a);
    ClosedExpand(lava, lo, hi, visited, rest, a, queue);
    if Start(lo) !in visited && Start(lo) != a {
      assert Start(lo) in rest + [a];
      var j :| 0 <= j < |rest + [a]| && (rest + [a])[j] == Start(lo);
      assert j < k && rest[j] == Start(lo) && queue[j] == rest[j];
    }
  }

  /** Popping the last cell of a queue of safe air leaves safe air. */
  lemma PopSafe(lava: set<Cube>, lo: Cube, hi: Cube, queue: seq<Cube>)
    requires queue != [] && SafeAir(lava, lo, hi, queue)
    ensures queue == queue[..|queue| - 1] + [queue[|queue| - 1]]
    ensures SafeAir(lava, lo, hi, queue[..|queue| - 1])
  {
    var rest := queue[..|queue| - 1];
    forall i | 0 <= i < |rest|
      ensures IsSafe(lo, hi, rest[i]) && rest[i] !in lava
    {
      assert rest[i] == queue[i];
    }
  }

  lemma PaddedShrinks(lo: Cube, hi: Cube, visited: set<Cube>, a: Cube)
    requires IsSafe(lo, hi, a) && a !in visited
    ensures |Padded(lo, hi) - (visited + {a})| < |Padded(lo, hi) - visited|
  {
    InPadded(lo, hi, a);
    assert Padded(lo, hi) - (visited + {a}) == (Padded(lo, hi) - visited) - {a};
  }

  /** A popped cell already visited leaves the closure intact. */
  lemma ClosedSkip(lava: set<Cube>, lo: Cube, hi: Cube, visited: set<Cube>, rest: seq<Cube>, a: Cube)
    requires ClosedBut(lava, lo, hi, visited, rest + [a]) && a in visited
    ensures ClosedBut(lava, lo, hi, visited, rest)
  {
    forall b, d | b in visited && 0 <= d < 6 && IsSafe(lo, hi, Neighbour(b, d)) && Neighbour(b, d) !in lava
      ensures Neighbour(b, d) in visited || Neighbour(b, d) in rest
    {
      if Neighbour(b, d) !in visited {
        assert Neighbour(b, d) in rest + [a];
      }
    }
  }

  /** An expanded cell's air neighbours are all pending, so adding it keeps the closure. */
  lemma ClosedExpand(lava: set<Cube>, lo: Cube, hi: Cube, visited: set<Cube>, rest: seq<Cube>, a: Cube, queue: seq<Cube>)
    requires ClosedBut(lava, lo, hi, visited, rest + [a])
    requires |queue| >= |rest| && queue[..|rest|] == rest
    requires forall d :: 0 <= d < 6 && IsSafe(lo, hi, Neighbour(a, d)) && Neighbour(a, d) !in lava ==> Neighbour(a, d) in queue
    ensures ClosedBut(lava, lo, hi, visited + {a}, queue)
  {
    forall b, d | b in visited + {a} && 0 <= d < 6 && IsSafe(lo, hi, Neighbour(b, d)) && Neighbour(b, d) !in lava
      ensures Neighbour(b, d) in visited + {a} || Neighbour(b, d) in queue
    {
      if b != a && Neighbour(b, d) !in visited {
        assert Neighbour(b, d) in rest + [a];
        if Neighbour(b, d) in rest {
          var i :| 0 <= i < |rest| && rest[i] == Neighbour(b, d);
          assert queue[i] == rest[i];
        }
      }
    }
  }

  // ------------------------------------------------------------ part 2 against part 1

  /** A face seen from the air side, turned into the same face seen from the lava side. */
  function Flip(f: (Cube, nat)): (Cube, nat)
  {
    (Neighbour(f.0, f.1), Opposite(f.1))
  }

  /**
   * Every face part 2 counts is a face part 1 counts, seen from the other
   * side, so the exterior surface is at most the whole surface.
   */
  lemma ExteriorAtMostSurface(lava: set<Cube>, lo: Cube, hi: Cube, air: set<Cube>)
    requires air !! lava
    ensures |Contacts(lava, lo, hi, air)| <= |Surface(lava)|
  {
    var contacts := Contacts(lava, lo, hi, air);
    var flipped := set f | f in contacts :: Flip(f);
    forall f | f in contacts
      ensures Flip(f) in Surface(lava)
    {
      OppositeBack(f.0, f.1);
    }
    assert flipped <= Surface(lava);
    FlipCard(contacts);
    SubsetCard(flipped, Surface(lava));
  }

  lemma {:induction false} FlipCard(s: set<(Cube, nat)>)
    requires forall f :: f in s ==> f.1 < 6
    ensures |set f | f in s :: Flip(f)| == |s|
    decreases |s|
  {
    if s != {} {
      var f :| f in s;
      var s' := s - {f};
      FlipCard(s');
      var img := set g | g in s :: Flip(g);
      var img' := set g | g in s' :: Flip(g);
      assert img == img' + {Flip(f)};
      forall g | g in s'
        ensures Flip(g) != Flip(f)
      {
        OppositeBack(g.0, g.1);
        OppositeBack(f.0, f.1);
      }
    }
  }

  lemma {:induction false} SubsetCard<T>(a: set<T>, b: set<T>)
    requires a <= b
    ensures |a| <= |b|
    decreases |a|
  {
    if a != {} {
      var x :| x in a;
      SubsetCard(a - {x}, b - {x});
    }
  }
}
