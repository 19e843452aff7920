# Advent of Code 2022 solutions, modelled in Dafny

This project models the puzzle solutions of the Rust repository
`herrmanno/aoc-2022`. It has one module per day (`Day01` … `Day25`) and one for
the shared iterator adaptor `src/common/transpose.rs` (`Transpose`). Each day
has the same shape as the source. An input parser turns the puzzle text into
the day's data. Then `part1` and `part2` compute the two answers. Three small
shared modules stand in for library behaviour the days rely on:

- `Wrappers` holds `Option`.
- `Text` covers splitting on a separator, `str::lines`, and decimal digits and numbers.
- `Sorting` holds an insertion sort for the source's `sort`/`sort_unstable` calls. Only the result is modelled, sorted and a permutation.

Pure code is modelled as functions, each with lemmas about it. Code that
changes state step by step is modelled as methods: the day 11 monkeys, the
day 14 cave, the day 16 caches, the day 23 grove and the transposing
iterator are classes, and array code keeps its arrays (day 3 counts, day 9
knots, day 12 visited grid, day 20 ring). Each method is proved against a
specification function. A source `panic!`, `unwrap` or `expect` on a bad
value becomes `None` or an error constructor wherever that is practical.
Where the model needs a precondition instead, the line under "## Left out"
says so.

Day 19 ("Not Enough Minerals") gets the deepest model:

- The blueprint costs and robot caps (`MaxOreCost`, `MaxClayCost`, `MaxObsidianCost`).
- The production step: `Produce` loops over the four kinds and is proved equal to `Tick`.
- The successor rules of `Successors`, in the source's push order: build a geode robot and nothing else when affordable; build obsidian, with the ore shortcut; then clay, ore and waiting.
- The search over a binary heap, `Search`. Entries are ordered by the source's key: time, then geodes, then geode robots. The search also keeps a visited set of states, without their time.

`Search` is proved to return a state that some run reaches at the last minute.
At the same time it returns the set of pushed entries, which contains the
start and is closed under expansion up to the visited check. No last-minute
entry in that set beats the returned state. `Part1` and `Part2` combine the
per-blueprint results as the quality-level sum and the product of the first
three.

Facts about the day 19 search (`src/days/day19.rs`) that the model keeps:

- States are popped from a `BinaryHeap` in key order, and the search returns the first state popped at the last minute (day19.rs:131-138).
- Nothing is pruned against a bound or a running best: the only cut is the visited check and the supply-versus-demand tests on which robots to build (day19.rs:141-143, 181-235).
- The ore-robot cap is the largest ore cost of the clay, obsidian and geode robots; the ore robot's own cost is not among them (day19.rs:30-35, `OreRobotCostExcluded`).
- The visited set holds states without their minute (day19.rs:134, 141-143).
- The third heap key is always 0: it starts at 0 and every push copies `geode_robots` from the popped entry (day19.rs:130-136, 177-238).

In the other days, the model follows the code where a comment or function
name suggests something else:

- Day 15's row count sums `high - low` over the merged intervals (`RowCountAsWritten`). That is one fewer per interval than the squares the module comment calls covered (`RowCount`). On a row where each interval holds one beacon, it is the number of squares where no beacon can be, which is the puzzle's question and the test's 26.
- Day 16's part 2 is the source's greedy two-pass split.

## Model

| member | source | states |
|---|---|---|
| `Day01.Parse` | src/days/day01.rs:17-22 | None exactly when a line of some blank-line block is not a number; otherwise one vector per block with each line's number |
| `Day01.ParseGroup` | src/days/day01.rs:20 | one block: None exactly when some line is not a number, else the numbers line by line |
| `Day01.Sums` | src/days/day01.rs:29-33 | one sum per group, in input order |
| `Day01.Largest` | src/days/day01.rs:25 | `max().unwrap()`: None exactly on no elements; otherwise an element that no element exceeds |
| `Day01.Part1` | src/days/day01.rs:24-26 | None exactly on no groups (the panic); otherwise the sum of some group, and no group sums more |
| `Day01.SortDescending` | src/days/day01.rs:34 | the sums largest first, a permutation of them |
| `Day01.TopThree` | src/days/day01.rs:28-36 | part 2 takes min(3, groups) sums and every sum left out is at most every sum taken |
| `Day01.TopAtLeastLargest` | src/days/day01.rs:24-36 | on a non-empty input the head of the descending sums is the largest sum, so the first three add up to at least part 1 |
| `Day01.Part2` | src/days/day01.rs:28-36 | on a non-empty input part 2 is at least part 1 |
| `Day02.Parse` | src/days/day02.rs:16-21 | None exactly when a line has fewer than three characters; otherwise its first and third characters |
| `Day02.ScoreShapeMeaning` | src/days/day02.rs:24-37 | part 1's table is defined exactly on A-C by X-Z and equals our shape's score plus the outcome of the game |
| `Day02.ScoreOutcomeMeaning` | src/days/day02.rs:42-55 | part 2's table is defined on the same nine pairs and scores the shape that brings about the wanted outcome, plus that outcome |
| `Day02.ShapeFor` | src/days/day02.rs:42-55 | the shape it returns gives the asked outcome against the opponent's shape |
| `Day02.ScoresAgree` | src/days/day02.rs:24-55 | part 2's score of a round is part 1's score of the shape chosen for the wanted outcome |
| `Day02.ScoreBounds` | src/days/day02.rs:24-55 | every defined round scores between 1 and 9 under either table |
| `Day02.Total` | src/days/day02.rs:38 | the sum is defined exactly when every round is in the table (`unreachable!()` otherwise) |
| `Day02.PartsBounded` | src/days/day02.rs:23-57 | both parts score between one and nine points a round |
| `Day02.Part1` | src/days/day02.rs:23-39 | part 1 is defined exactly when every round reads A-C against X-Z (`unreachable!()` otherwise) |
| `Day02.Part2` | src/days/day02.rs:41-57 | part 2 is defined on exactly the same rounds as part 1 |
| `Day02.Sample` | src/days/day02.rs:69-81 | the test's guide scores 15 under part 1 and 12 under part 2 |
| `Day03.Priority` | src/days/day03.rs:41-48 | defined exactly on ASCII letters: a-z give 1-26, A-Z give 27-52; None is the panic |
| `Day03.PriorityInjective` | src/days/day03.rs:41-48 | priorities are in 1..52 and distinct letters get distinct priorities |
| `Day03.Parse` | src/days/day03.rs:50-53 | None exactly when some line holds a non-letter; otherwise each line's priorities |
| `Day03.Common` | src/days/day03.rs:15-34 | an item every slice holds; None (the final panic) exactly when there are no slices or no common item |
| `Day03.FindDuplicate` | src/days/day03.rs:15-34 | the per-item counts over fewer than 256 slices, each slice counted once per item, return `Common` |
| `Day03.CountSlice` | src/days/day03.rs:19-30 | after slice k each item's total is the number of slices so far that hold it; a hit only at the last slice, and then it is `Common` |
| `Day03.CountIn` | src/days/day03.rs:26-27 | a count reaches the number of slices exactly when every slice holds the item |
| `Day03.Halves` | src/days/day03.rs:59 | `split_at(len / 2)`: two parts that concatenate back, the second at most one longer |
| `Day03.ChunksFlatten` | src/days/day03.rs:69 | `chunks(3)` loses and reorders nothing |
| `Day03.SumCommon` | src/days/day03.rs:56-72 | the loop over the groups equals the sum of their common items, None when one has none |
| `Day03.NoneSpreads` | src/days/day03.rs:56-72 | one group without a common item makes the whole answer the panic |
| `Day03.Part1` | src/days/day03.rs:56-64 | the common item of each rucksack's two halves, summed |
| `Day03.Part2` | src/days/day03.rs:66-72 | the common item of each group of three rucksacks, summed |
| `Day04.Parse` | src/days/day04.rs:18-30 | None exactly when some line does not read as a pair; otherwise one pair per line |
| `Day04.ParsePairFormat` | src/days/day04.rs:19-27 | a line written as "a-b,c-d" reads back as that pair |
| `Day04.SplitAround` | src/days/day04.rs:20 | splitting two separator-free words joined by the separator gives both back |
| `Day04.OverlapFullyMeans` | src/days/day04.rs:33-36 | for non-empty ranges, the test holds exactly when one range contains every section of the other |
| `Day04.OverlapMeans` | src/days/day04.rs:41-44 | for non-empty ranges, the test holds exactly when the ranges share a section |
| `Day04.Symmetric` | src/days/day04.rs:33-44 | neither test depends on the order of the pair |
| `Day04.FullyImpliesOverlap` | src/days/day04.rs:33-44 | full containment implies overlap for non-empty ranges |
| `Day04.CountIf` | src/days/day04.rs:37 | `filter(..).count()` is at most the number of pairs, 0 exactly when no pair passes, and the number of pairs exactly when every pair passes |
| `Day04.Part1` | src/days/day04.rs:32-38 | the count of pairs where one range contains the other: 0 exactly when no pair does, all pairs exactly when every pair does |
| `Day04.Part2` | src/days/day04.rs:40-46 | the count of overlapping pairs: 0 exactly when no pair overlaps, all pairs exactly when every pair does |
| `Day04.Part1AtMostPart2` | src/days/day04.rs:32-46 | with non-empty ranges part 1 never exceeds part 2 |
| `Day04.Sample` | src/days/day04.rs:60-73 | the test's six pairs give 2 and 4 |
| `Day05.ParseTowers` | src/days/day05.rs:31-45 | None exactly when a line ends in a lone '[' (the `chunk[1]` panic); otherwise as many stacks as the widest line has chunks, stack k holding column k's letters top first |
| `Day05.AddChunks` | src/days/day05.rs:35-42 | one line's chunks widen the stack list to its chunk count and append each bracketed letter to the back of its stack |
| `Day05.ParseMove` | src/days/day05.rs:51-58 | a move holds the numbers in words 1, 3 and 5, the stack numbers made 0-based; the unwrap and `- 1` panics are None |
| `Day05.ParseMoveFormat` | src/days/day05.rs:51-58 | a move written as "move c from f to t" parses back to itself |
| `Day05.ParseMoves` | src/days/day05.rs:47-49 | None exactly when some move line does not parse; otherwise one move per line |
| `Day05.Parse` | src/days/day05.rs:60-67 | the drawing is the block before the first blank line and the moves the block after it; None exactly on a missing block or a panic in either parser |
| `Day05.Step` | src/days/day05.rs:74-75 | one pop and push is defined exactly when the source stack exists and is non-empty and the target exists |
| `Day05.SinglyReverses` | src/days/day05.rs:72-77 | moving singly between two stacks puts the top `count` crates of `from` on `to` in reverse order and changes no other stack |
| `Day05.SinglyInPlace` | src/days/day05.rs:72-77 | moving singly onto the same stack changes nothing, even beyond its height |
| `Day05.SinglyFails` | src/days/day05.rs:74 | lifting more crates than a stack holds, or naming a missing stack, panics |
| `Day05.LiftKeepsOrder` | src/days/day05.rs:84-93 | a block move keeps the lifted crates' order on top of `to` and changes only `from` and `to` |
| `Day05.CranesFailAlike` | src/days/day05.rs:70-96 | between different stacks both cranes panic on the same moves |
| `Day05.RunKeepsTotal` | src/days/day05.rs:70-96 | a run of moves with either crane keeps the number of stacks and of crates |
| `Day05.MoveSingly` | src/days/day05.rs:71-77 | the loop of part 1 computes the one-crate-at-a-time run |
| `Day05.PopFront` | src/days/day05.rs:86-88 | None exactly when `count` crates cannot be popped; otherwise the rest of the stack and the popped crates top first |
| `Day05.PushFront` | src/days/day05.rs:89-92 | pushing the reversed `tmp` one crate at a time puts `tmp` on top in its original order |
| `Day05.MoveBlocks` | src/days/day05.rs:83-93 | the loop of part 2 computes the block run |
| `Day05.Part1` | src/days/day05.rs:70-80 | the top crates after moving singly, None on a panic or an empty stack at the end |
| `Day05.Part2` | src/days/day05.rs:82-96 | the top crates after moving blocks, None on a panic or an empty stack at the end |
| `Day05.Tops` | src/days/day05.rs:79 | None exactly when some stack is empty; otherwise each stack's top crate |
| `Day05.SampleSingly` | src/days/day05.rs:114-119 | the test's stacks and moves give "CMZ" with the first crane |
| `Day05.SampleBlock` | src/days/day05.rs:121-126 | the test's stacks and moves give "MCD" with the second crane |
| `Day06.AllDifferent` | src/days/day06.rs:16-26 | the pairwise loop returns true exactly when the window has no repeated character |
| `Day06.DistinctCard` | src/days/day06.rs:16-26 | no repeat exactly when the window's characters form a set as large as the window |
| `Day06.FindMarkerFrom` | src/days/day06.rs:30-40 | from window `idx` on, the end of the first all-distinct window; None only when no later window is |
| `Day06.FindMarker` | src/days/day06.rs:28-41 | the end of the first window of length m with no repeat, every earlier window having one; None (the `unwrap` panic) exactly when none exists |
| `Day06.Part1` | src/days/day06.rs:52-54 | the end of the first window of four distinct characters, every earlier window holding a repeat; None (the panic) exactly when there is none |
| `Day06.Part2` | src/days/day06.rs:56-58 | the same for windows of fourteen characters |
| `Day07.StripPrefix` | src/days/day07.rs:30 | defined exactly when the prefix starts the line, and then prefix plus rest is the line |
| `Day07.StepNested` | src/days/day07.rs:30-36 | `cd x` pushes the path of x inside the current directory and `cd ..` pops, so every path on the stack extends the one below it |
| `Day07.RunNested` | src/days/day07.rs:29-45 | the whole session keeps the directory stack nested |
| `Day07.NestedDistinct` | src/days/day07.rs:41-43 | the paths on a nested stack are pairwise distinct, so a file's size is added once per directory |
| `Day07.AddAllOnce` | src/days/day07.rs:40-43 | a file line adds its size exactly once to every directory on the stack and to nothing else; it panics exactly when one of them was never listed |
| `Day07.FileLineAdds` | src/days/day07.rs:39-44 | the same for a file line stepped in a nested session |
| `Day07.ListResets` | src/days/day07.rs:37-38 | `$ ls` sets the current directory's size to 0 and changes nothing else |
| `Day07.DirLineIgnored` | src/days/day07.rs:39 | a `dir` line changes nothing |
| `Day07.ChangeDirectory` | src/days/day07.rs:30-36 | `cd x` then `cd ..` returns to the same shell state |
| `Day07.AddSize` | src/days/day07.rs:41-43 | the inner loop over `cwds` computes the functional update |
| `Day07.Session` | src/days/day07.rs:27-45 | the in-place loop over the entries computes the size map of the session, None on any of its panics |
| `Day07.Values` | src/days/day07.rs:48 | the values are those of the map's entries, in some order of its keys |
| `Day07.TakeWhileIsSumBelow` | src/days/day07.rs:53 | on ascending sizes, `take_while(< 100000).sum()` is the sum of every size below 100000 |
| `Day07.SumBelowSort` | src/days/day07.rs:49-53 | sorting does not change the sum of the small sizes |
| `Day07.Part1` | src/days/day07.rs:26-54 | defined exactly when the session is; the kept vector is the directory sizes sorted ascending and the answer the sum of those below 100000 |
| `Day07.Part2` | src/days/day07.rs:56-71 | defined exactly when sizes exist and neither subtraction underflows; the answer is a directory size that frees enough space and no smaller one does |
| `Sorting.Sort` | src/days/day07.rs:49 | ascending and a permutation of the input |
| `Sorting.Insert` | src/days/day07.rs:49 | inserting into an ascending sequence keeps it ascending and adds exactly the one element |
| `Sorting.SortKeepsElements` | src/days/day07.rs:49 | a sorted rearrangement holds exactly the input's elements |
| `Day08.ScanBothEnds` | src/days/day08.rs:34-55 | the two-pointer scan of a line records exactly the trees taller than every tree before them or every tree after them |
| `Day08.Sight` | src/days/day08.rs:40-47 | one pointer records tree i and takes its height as the new maximum exactly when it is taller than the maximum so far |
| `Day08.StartStep` | src/days/day08.rs:40-43 | a tree beats the forward running maximum exactly when it is visible from the start of its line |
| `Day08.EndStep` | src/days/day08.rs:44-47 | a tree beats the maximum of the trees after it exactly when it is visible from the end of its line |
| `Day08.RunningMax` | src/days/day08.rs:34-43 | the running maximum is the highest of the floor '.' and the trees passed, and is attained |
| `Day08.VisibleSplit` | src/days/day08.rs:29-85 | the visible trees are those visible along their row together with those visible along their column |
| `Day08.RowPass` | src/days/day08.rs:33-56 | the row pass panics exactly on an empty row (the `len() - 1` underflow) and otherwise records every tree visible along its row |
| `Day08.ColumnPassAsWritten` | src/days/day08.rs:59-82 | the column pass as written panics exactly on a grid that is not square, and otherwise records every tree visible along its column |
| `Day08.Part1AsWritten` | src/days/day08.rs:29-85 | `part1` as written counts the visible trees of square grids and panics on every other non-empty grid |
| `Day08.NonSquarePanics` | src/days/day08.rs:59-63 | the one-row forest "12" has two visible trees, but `part1` as written panics on it |
| `Day08.ColumnPass` | src/days/day08.rs:59-82 | the corrected column pass (columns over the width, rows over the height) records every tree visible along its column |
| `Day08.Part1` | src/days/day08.rs:29-85 | corrected `part1`: the number of trees visible from some edge; None only for an empty row |
| `Day08.ViewDistance` | src/days/day08.rs:139-151 | the count of trees seen is positive unless there are none, passes only lower trees and stops at the first tree at least as tall |
| `Day08.ViewDistanceUnique` | src/days/day08.rs:139-151 | those three properties determine the count |
| `Day08.LookLeft` | src/days/day08.rs:139-151 | the walk towards index 0 counts the view along the reversed part of the line before the tree |
| `Day08.LookRight` | src/days/day08.rs:157-169 | the walk towards the end counts the view along the part of the line after the tree |
| `Day08.ScenicDistance` | src/days/day08.rs:134-206 | the four walks with their early returns compute the product of the four view distances |
| `Day08.ScoreZero` | src/days/day08.rs:153-205 | a score is 0 exactly when the tree sees nothing in some direction, which is why the early returns are sound |
| `Day08.EdgeScoresZero` | src/days/day08.rs:134-206 | every tree on the edge scores 0 |
| `Day08.RowMax` | src/days/day08.rs:210-212 | the inner loop keeps a running maximum that bounds every score in the row and is a score or the previous maximum |
| `Day08.Part2` | src/days/day08.rs:132-216 | the highest scenic score: no tree scores more, and the answer is 0 or attained by some tree |
| `Day09.FollowKnot` | src/days/day09.rs:20-29 | a tail touching the head stays; otherwise it steps once towards the head on each axis |
| `Day09.FollowMovesOnce` | src/days/day09.rs:22-29 | a followed knot moves at most one square on each axis |
| `Day09.FollowCloses` | src/days/day09.rs:22-29 | a tail at most two squares off on each axis touches the head after following |
| `Day09.Diff` | src/days/day09.rs:62-72 | defined exactly on U, D, L and R (the panic otherwise), each a unit move along one axis |
| `Day09.ParseCommand` | src/days/day09.rs:88-93 | a line reads as a unit direction and a step count, None on the `split_once`, `parse` or direction panics |
| `Day09.Commands` | src/days/day09.rs:87-93 | None exactly when some line panics; otherwise one command per line |
| `Day09.TailsBound` | src/days/day09.rs:85-105 | the tail visits at least the origin and at most one new square per unit move |
| `Day09.PullTaut` | src/days/day09.rs:126-134 | after the lead moves at most one square from a taut rope, the knots pulled behind it are taut again |
| `Day09.FinalTaut` | src/days/day09.rs:120-140 | a rope that starts taut stays taut under any sequence of unit moves |
| `Day09.CommandsKeepRopeTaut` | src/days/day09.rs:112-141 | the rope of either part stays taut whatever the commands |
| `Day09.MoveStep` | src/days/day09.rs:95-102 | one more unit move steps the final rope and adds the new tail square to the visited set |
| `Day09.WalkPair` | src/days/day09.rs:95-102 | the inner loop of part 1 leaves head and tail where `steps` unit moves put them and the visited set extended by those moves |
| `Day09.Part1` | src/days/day09.rs:82-106 | the number of squares the tail of a two-knot rope visits, None on a panic |
| `Day09.Pack` | src/days/day09.rs:136-139 | the key holds x as a 32-bit word in its high half and y in its low half |
| `Day09.PackInjective` | src/days/day09.rs:136-139 | two squares in `i32` range with the same key are the same square |
| `Day09.PackAllSize` | src/days/day09.rs:136-143 | on `i32` squares, counting keys counts squares |
| `Day09.StepIndex` | src/days/day09.rs:126-134 | knot k of the stepped rope follows knot k-1 of it from its old square |
| `Day09.MoveRope` | src/days/day09.rs:121-134 | the head moves and knots 1 to 9 follow in order, in place on the array |
| `Day09.StepRope` | src/days/day09.rs:120-140 | one unit move of the in-place rope keeps the positions set equal to the packed tail squares of the moves so far |
| `Day09.WalkedStep` | src/days/day09.rs:120-140 | the same for the specification: one more move steps the rope and adds the packed tail square |
| `Day09.WalkRope` | src/days/day09.rs:120-140 | the inner loop of part 2 leaves the rope and the key set as the moves so far determine them |
| `Day09.Part2` | src/days/day09.rs:108-144 | the number of packed keys of the squares the tenth knot visits |
| `Day09.PackedAnswerCounts` | src/days/day09.rs:136-143 | while the rope stays in `i32` range, part 2 counts the squares the tenth knot visits |
| `Day10.Parse` | src/days/day10.rs:51-54 | one instruction per line: an `addx` exactly when the text after the first space parses as an `i32` (`parse::<i32>().ok()`), else `noop`, so every `addx` operand is in `i32` range |
| `Day10.ParseInstrFormat` | src/days/day10.rs:52-54 | "noop" and "addx n" read back as the instruction they were written from when `n` fits in `i32`; an `n` outside that range, such as 2147483648, reads as `noop` |
| `Day10.TraceAppend` | src/days/day10.rs:60-68 | an appended instruction runs all its cycles with the X the program ended with, so X changes only after an `addx`'s second cycle |
| `Day10.SampledAt` | src/days/day10.rs:56-63 | the tests `(cycle + 20) % 40 == 0` and `(cycle + 21) % 40 == 0` pick the sampled cycles 20, 60, 100, ... for an instruction's first and second cycle |
| `Day10.SignalOf` | src/days/day10.rs:56-63 | what one instruction adds is the signal of its first cycle plus, for an `addx`, that of its second, both with the X before it |
| `Day10.StrengthStep` | src/days/day10.rs:51-69 | the strength of an extended trace grows by the signals of the new instruction's cycles |
| `Day10.Part1` | src/days/day10.rs:46-72 | the loop's total is the sum of cycle times X over the sampled cycles of the program's trace |
| `Day10.NextColumn` | src/days/day10.rs:88 | `(pixel_pos + 1) % 40` is the column of the next cycle |
| `Day10.Draw` | src/days/day10.rs:86-94 | one instruction lights exactly the pixels of its cycles that the sprite at X covers and leaves every other pixel alone |
| `Day10.DrawnTrace` | src/days/day10.rs:80-95 | a screen drawn with X of the first 240 cycles shows the program's trace pixel by pixel |
| `Day10.Part2` | src/days/day10.rs:74-98 | defined exactly when the program's cycles reach exactly 240 or more without an `addx` starting in cycle 240; then pixel k is lit exactly when the sprite covers it in cycle k + 1 |
| `Day11.DivisorProduct` | src/days/day11.rs:28-32 | the product of the divisors, positive when every divisor is |
| `Day11.Throw` | src/days/day11.rs:42-54 | a throw takes the front item of the thrower's queue and counts one inspection, and keeps every monkey's operation and test |
| `Day11.ThrowKeepsItems` | src/days/day11.rs:42-54 | a throw moves one item from one queue to another |
| `Day11.ThrowCounts` | src/days/day11.rs:43 | a throw counts one inspection for the thrower and leaves the other counts alone |
| `Day11.TurnEmptiesQueue` | src/days/day11.rs:42-55 | after its turn a monkey's queue is empty and its count has grown by the items it held |
| `Day11.RoundKeepsItems` | src/days/day11.rs:40-57 | a round neither creates nor drops items |
| `Day11.Troop.TakeTurn` | src/days/day11.rs:42-55 | the `while let pop_front` loop, in place on the troop, ends in the functional turn and leaves `lcm` alone |
| `Day11.Troop.DoRoundWithRelief` | src/days/day11.rs:40-57 | one round with worry divided by 3, in place, equal to the functional round |
| `Day11.Troop.DoRoundWithoutRelief` | src/days/day11.rs:59-77 | one round with worry reduced modulo `lcm`, in place, equal to the functional round |
| `Day11.ApplyReduces` | src/days/day11.rs:95-102 | every operation respects congruence: reducing the input first gives the same remainder |
| `Day11.ModMultipleKeepsDivisibility` | src/days/day11.rs:66-68 | reducing modulo a multiple of a divisor keeps the remainder modulo that divisor |
| `Day11.DivisorDividesProduct` | src/days/day11.rs:29-30 | every divisor divides the product of all divisors, prime or not |
| `Day11.ThrowCongruent` | src/days/day11.rs:62-74 | a throw on levels reduced modulo a common multiple of the divisors goes to the same monkey as on the unreduced levels |
| `Day11.ReducedRoundsAgree` | src/days/day11.rs:59-77 | after any number of rounds the reduced and the unreduced simulation agree on every throw count and item position |
| `Day11.Part2Unreduced` | src/days/day11.rs:202-212 | part 2's reduction does not change its answer |
| `Day11.SortDesc` | src/days/day11.rs:196 | the counts largest first, a permutation of them |
| `Day11.MonkeyBusinessIsTopTwo` | src/days/day11.rs:194-199 | None (the index panic) exactly for fewer than two monkeys; otherwise the count of a monkey no other exceeds times the count of a different monkey no third one exceeds |
| `Day11.TopTwoIndices` | src/days/day11.rs:194-199 | the first two sorted counts come from two different monkeys, the largest and the largest of the rest |
| `Day11.Part1` | src/days/day11.rs:190-200 | twenty rounds with relief, then the monkey business of the counts |
| `Day11.Part2` | src/days/day11.rs:202-212 | ten thousand rounds reduced modulo the divisor product, then the monkey business |
| `Day12.Height` | src/days/day12.rs:36-48 | 'S' is stored as 'a', 'E' as 'z' and every other character as itself |
| `Day12.ReadRow` | src/days/day12.rs:35-49 | the inner loop writes row y into a row of zeros exactly when the line is no longer than the first, and tracks the last 'S' and 'E' |
| `Day12.Parse` | src/days/day12.rs:30-53 | None exactly on an empty input or a line longer than the first (the panics); otherwise a rectangular height map of the lines, with the last 'S' and 'E' as start and target |
| `Day12.Neighbour` | src/days/day12.rs:74 | the four candidates, up, down, left, right, are adjacent to the square |
| `Day12.StepConverse` | src/days/day12.rs:83-128 | part 2's rule is the converse of part 1's |
| `Day12.ReverseWalk` | src/days/day12.rs:95-138 | a walk under part 2's rule read backwards is a walk under part 1's rule, and conversely |
| `Day12.ClimbLimit` | src/days/day12.rs:75-84 | part 1 moves between in-bounds neighbours at most one unit higher |
| `Day12.CandidatesSound` | src/days/day12.rs:74-89 | every pushed entry is one allowed move on, at distance d + 1 |
| `Day12.CandidatesComplete` | src/days/day12.rs:74-89 | every allowed move out of the square is pushed |
| `Day12.Expand` | src/days/day12.rs:72-89 | the neighbour loop pushes exactly the candidate entries, in the source's order |
| `Day12.Visit` | src/days/day12.rs:66-89 | skipping an expanded square or marking and expanding a new one keeps the search invariant and makes progress |
| `Day12.GoalFirst` | src/days/day12.rs:61-64 | when the head of the queue is a goal, no walk to a goal is shorter than its distance |
| `Day12.Exhausted` | src/days/day12.rs:61-92 | an empty queue means no walk from the source reaches a goal |
| `Day12.Stuck` | src/days/day12.rs:56-59 | from a source outside the map nothing moves, so only a goal source counts |
| `Day12.Drain` | src/days/day12.rs:61-90 | the loop from any invariant-keeping queue returns a shortest goal distance, or None when no goal is reachable |
| `Day12.Search` | src/days/day12.rs:55-138 | part 1 (climbing from 'S' to 'E') and part 2 (descending from 'E' to an 'a'): a result is the length of a real walk and no goal walk is shorter; None (the `unreachable!()`) exactly proves no goal is reachable |
| `Day13.CmpNat` | src/days/day13.rs:56 | `u32::cmp`: Less exactly when smaller, Equal exactly when equal |
| `Day13.Compare` | src/days/day13.rs:53-72 | the method with its early-return loop over the common prefix computes the packet order |
| `Day13.CompareLists` | src/days/day13.rs:59-69 | the loop over the common prefix, then the lengths, computes the list order |
| `Day13.NumbersByValue` | src/days/day13.rs:56 | two numbers compare by value |
| `Day13.Promotion` | src/days/day13.rs:57-58 | a number meets a list as the one-element list holding it, on either side |
| `Day13.CmpAsLists` | src/days/day13.rs:55-70 | every comparison is the list comparison of the promoted operands |
| `Day13.Cmp` | src/days/day13.rs:53-72 | the `Ord` order of packets: every packet compares Equal to itself (its other laws are the lemmas below) |
| `Day13.CmpLists` | src/days/day13.rs:59-69 | the list branch of the order: a list compares Equal to itself |
| `Day13.CmpAntisymmetric` | src/days/day13.rs:53-72 | swapping the operands reverses the answer |
| `Day13.CmpTransitive` | src/days/day13.rs:53-72 | the order is transitive, Equal included, so it is a total preorder as `Ord` requires |
| `Day13.FirstDifference` | src/days/day13.rs:61-66 | the first position where the elements differ decides |
| `Day13.PrefixIsLess` | src/days/day13.rs:68 | a proper prefix is smaller |
| `Day13.ListFrom` | src/days/day13.rs:86-98 | the `parse_list` loop consumes input and yields a list |
| `Day13.ParseNum` | src/days/day13.rs:103-111 | the digit loop reads the leading digits as a number; running out of input is the `unwrap` panic |
| `Day13.Parse` | src/days/day13.rs:75-81 | the recursive-descent method computes the parse function, including its panic and non-terminating outcomes |
| `Day13.ParseList` | src/days/day13.rs:83-101 | `parse_list` after the '[' computes the list parse |
| `Day13.ParseFormat` | src/days/day13.rs:75-111 | reading a formatted packet gives it back and leaves what followed it |
| `Day13.FromStr` | src/days/day13.rs:113-121 | only a non-empty line parses; its first character is '[' exactly when the result is a list, and nothing consumed is put back |
| `Day13.FromStrFormat` | src/days/day13.rs:117-120 | a packet line reads back as the packet it was formatted from |
| `Day13.OrderedIndexSumZero` | src/days/day13.rs:138-144 | part 1 is 0 exactly when no pair is in order |
| `Day13.OrderedIndexSumMax` | src/days/day13.rs:138-144 | part 1 is at most 1 + 2 + ... + n, reached exactly when every pair is in order |
| `Day13.SampleOrders` | src/days/day13.rs:191-207 | the test's pairs 2, 3 and 7 compare Less, Greater and Greater |
| `Day13.DividersOrdered` | src/days/day13.rs:147-148 | divider 1 is below divider 2 |
| `Day13.Flatten` | src/days/day13.rs:154 | `flat_map(|(a, b)| [a, b])`: twice as long, pair i at positions 2i and 2i + 1 |
| `Day13.InsertKeepsOrder` | src/days/day13.rs:156-157 | `BTreeSet::insert` on the ascending set keeps it ascending, drops the packet exactly when a member compares Equal to it, adds nothing else and loses nothing |
| `Day13.PlaceKeepsOrder` | src/days/day13.rs:150-155 | one step of the stable sort: placing a packet in an ascending sequence keeps it ascending and adds exactly that packet |
| `Day13.SortStableSorts` | src/days/day13.rs:150-155 | the stable sort `BTreeSet::from_iter` starts with yields an ascending permutation of the packets |
| `Day13.DedupKeepsOrder` | src/days/day13.rs:150-155 | removing `==` neighbours keeps the sequence ascending, keeps every packet that occurs, and leaves no two `==` neighbours |
| `Day13.DedupHead` | src/days/day13.rs:150-155 | a first packet that is not `==` to its neighbour survives the deduplication in front |
| `Day13.CollectKeepsOrder` | src/days/day13.rs:150-155 | the collected set is ascending and holds exactly the input packets, Equal ones that are not `==` included |
| `Day13.DedupNoop` | src/days/day13.rs:150-155 | a sequence with no `==` neighbours is left unchanged by the deduplication |
| `Day13.CollectDistinct` | src/days/day13.rs:150-155 | when no two input packets are `==`, the collected set is an ascending permutation of them: nothing is lost |
| `Day13.InsertDividers` | src/days/day13.rs:156-157 | inserting both dividers into an ascending set with nothing Equal to them keeps it ascending and adds each exactly once |
| `Day13.DividerPlaces` | src/days/day13.rs:156-171 | in such a set divider 1 sits before divider 2, and no other member compares Equal to either |
| `Day13.DividerSetSorted` | src/days/day13.rs:150-158 | when no input packet compares Equal to a divider, the set with the dividers inserted is ascending, holds divider 1 before divider 2, and nothing else in it compares Equal to a divider |
| `Day13.ScanNeedsDividers` | src/days/day13.rs:161-176 | the `try_fold` answers only after meeting divider 2, with divider 1 met before it; otherwise it is one of the panics |
| `Day13.ScanFinds` | src/days/day13.rs:161-176 | the `try_fold` returns the product of the dividers' 1-based positions when divider 1 comes first |
| `Day13.Part2AsWritten` | src/days/day13.rs:146-182 | part 2 as written: an answer means both dividers are in the set (None is the panic or the `unreachable!()`) |
| `Day13.Part2AsWrittenFinds` | src/days/day13.rs:146-182 | when no input packet compares Equal to a divider, part 2 as written multiplies one plus the set members below each divider |
| `Day13.Part2AsWrittenAgrees` | src/days/day13.rs:146-182 | when no two input packets are `==` and none compares Equal to a divider, part 2 as written equals the count over all packets (`Part2`) |
| `Day13.DuplicatesCountedOnce` | src/days/day13.rs:150-158 | the packet `[1]` twice: the set keeps one copy (6) where the ordered list of all packets gives 12 |
| `Day13.NestedOneEqual` | src/days/day13.rs:53-72 | `[[1]]` and `[1]` compare Equal although they are not `==` |
| `Day13.OneBelowDividers` | src/days/day13.rs:53-72 | `[1]` and `[[1]]` are below both dividers |
| `Day13.EqualPacketsSet` | src/days/day13.rs:150-158 | from `[[1]]` and `[1]` the set keeps both, in input order, then the two dividers |
| `Day13.EqualPacketsBothKept` | src/days/day13.rs:146-182 | with `[[1]]` and `[1]` part 2 as written gives 12, as the ordered list does |
| `Day13.EqualToDividerPanics` | src/days/day13.rs:156-171 | a packet `[2]`, Equal to divider 1 but not `==` to it, keeps divider 1 out of the set, so the scan panics |
| `Day13.Part2` | src/days/day13.rs:146-182 | part 2 counted over every packet: at least 2, and (with `Part2Positions`) the product of the dividers' places in any ascending arrangement |
| `Day13.Part2Positions` | src/days/day13.rs:146-182 | in every ascending arrangement of all packets and both dividers, the dividers' 1-based positions multiply to the corrected part 2 |
| `Day13.CountLessPermutation` | src/days/day13.rs:150-158 | how many packets are below a divider does not depend on their order |
| `Day14.AllPointsParts` | src/days/day14.rs:36-43 | every " -> " part is read as a point in order, and a line fails exactly when one of its parts does (the `expect` panic) |
| `Day14.BoxEnds` | src/days/day14.rs:50-54 | a segment covers both its ends and is the same drawn either way |
| `Day14.InsertBox` | src/days/day14.rs:50-54 | the two nested range loops insert exactly the segment's box |
| `Day14.PathMax` | src/days/day14.rs:45-48 | `max_y` after a line is raised by both ends of every segment and is attained; a lone point changes nothing |
| `Day14.DrawPath` | src/days/day14.rs:45-58 | the `windows(2)` loop draws every segment of the line and raises `max_y` accordingly |
| `Day14.RepeatedLine` | src/days/day14.rs:30-34 | skipping a repeated line gives the same cave as drawing it again |
| `Day14.AddLine` | src/days/day14.rs:29-58 | one line is skipped when seen, drawn otherwise, and fails exactly when it is malformed |
| `Day14.ScanLines` | src/days/day14.rs:29-59 | the loop over the lines succeeds exactly when every line parses and yields the cave of the whole input |
| `Day14.Cave.Parse` | src/days/day14.rs:25-62 | fills the cave and `max_y` with the scan of the input, or fails, changing nothing, where the source panics |
| `Day14.Next` | src/days/day14.rs:72-83 | the first empty cell of down, down-left, down-right, or None exactly when all three are blocked |
| `Day14.DropRest` | src/days/day14.rs:71-93 | a grain rests where all three cells below are blocked or on the floor, never above its start and within the cone below it |
| `Day14.FloorLands` | src/days/day14.rs:106-133 | with a floor no grain is lost |
| `Day14.Cave.Fall` | src/days/day14.rs:71-93 | the inner loop lands where the fall function does and leaves the path it took on the stack |
| `Day14.Resume` | src/days/day14.rs:70 | resuming at the latest cell of the saved path lands where a grain dropped from the source lands |
| `Day14.ChainAfterRest` | src/days/day14.rs:84-87 | after a grain rests just past the saved path, the rest of the path is still the way a grain falls |
| `Day14.Cave.Round` | src/days/day14.rs:69-94 | one grain resumed from the stack lands where a grain from the source would |
| `Day14.PourStep` | src/days/day14.rs:84-87 | one more grain resting at a new cell adds one to the count |
| `Day14.FloorEnds` | src/days/day14.rs:99-137 | with a floor the pouring always ends, with the source filled |
| `Day14.AbyssEnds` | src/days/day14.rs:64-97 | without a floor, pouring that ends stops at the first grain lost below `max_y` |
| `Day14.PourCount` | src/days/day14.rs:64-137 | every resting grain is inserted and counted once: the count is the number of new sand cells, all within the cone, plus one when the floor run ends on a source that was rock |
| `Day14.SourceFilled` | src/days/day14.rs:118-123 | the floor run whose grain rests at height 0 has filled the source and stops there |
| `Day14.Cave.Fill` | src/days/day14.rs:64-137 | part 1 (without floor) and part 2 (with floor): the count and the cave are those of the pouring; None exactly where the source never stops |
| `Day15.CollapseRanges` | src/days/day15.rs:40-46 | two intervals collapse exactly when they overlap or touch end to end, into the interval from the smaller start to the larger end, covering exactly the squares of either |
| `Day15.RowRange` | src/days/day15.rs:117-127 | a sensor yields an interval for the row exactly when the row is within its radius, and that interval holds exactly the row's squares within the radius |
| `Day15.RowRangesCover` | src/days/day15.rs:117-127 | the row's intervals cover a square exactly when some sensor reaches it |
| `Day15.CollectRanges` | src/days/day15.rs:116-127 | the first loop pushes every reaching sensor's interval, in sensor order |
| `Day15.SortRanges` | src/days/day15.rs:129 | `sort_unstable` gives a lexicographically sorted permutation of the intervals |
| `Day15.PositionsPermutation` | src/days/day15.rs:129 | sorting does not change the covered squares |
| `Day15.MergeAllSeparated` | src/days/day15.rs:131-144 | merging start-sorted non-empty intervals leaves pairwise separated intervals |
| `Day15.MergeAllPositions` | src/days/day15.rs:131-144 | merging does not change the covered squares |
| `Day15.CollapseAll` | src/days/day15.rs:131-144 | the stack loop, widening the top or pushing, computes the merged intervals |
| `Day15.SeparatedSize` | src/days/day15.rs:146-149 | separated intervals hold exactly as many squares as their lengths add up to |
| `Day15.NumCoveredPositionsInRow` | src/days/day15.rs:115-150 | the method is the sum of `high - low` over the merged sorted intervals of the row |
| `Day15.CoveredRow` | src/days/day15.rs:6-10 | the set of squares of a row that some sensor reaches |
| `Day15.RowCountIsCovered` | src/days/day15.rs:6-10 | counting each merged interval with both ends gives exactly the number of covered squares of the row |
| `Day15.Part1` | src/days/day15.rs:115-219 | part 1 on row 2000000 is the number of covered squares of that row less one per merged interval |
| `Day15.AsWrittenUndercounts` | src/days/day15.rs:146-149 | the as-written sum is the covered count less one per merged interval |
| `Day15.CheckPoint` | src/days/day15.rs:174-183 | the point is free exactly when no sensor reaches it |
| `Day15.ExtractNumFormat` | src/days/day15.rs:191-202 | `extract_num` reads back any integer written after `x=`/`y=`, with or without a trailing `,` or `:` |
| `Day15.ParseReport` | src/days/day15.rs:190-215 | a report line written out parses to its sensor with the Manhattan distance to its beacon as radius |
| `Day15.ReportNumbers` | src/days/day15.rs:204-212 | the four numbered words of a report line read back as the coordinates written into them |
| `Day15.Parse` | src/days/day15.rs:190-215 | None exactly when some line is not a sensor report; otherwise one sensor per line, line i giving sensor i |
| `Day15.ParseLines` | src/days/day15.rs:203-214 | a collected result has one sensor per line |
| `Day15.ParseLinesEach` | src/days/day15.rs:203-214 | collecting succeeds exactly when every line parses, and then line i gives entry i |
| `Day16.ShortestDistance` | src/days/day16.rs:213-233 | the breadth-first search returns the length of a shortest tunnel walk to `to`; no result means no walk reaches `to`; the `unwrap` panic happens only when a tunnel leads to a missing valve or `from` is missing |
| `Day16.Expand` | src/days/day16.rs:219-231 | one pop keeps the queue layered, every unvisited tunnel of a visited valve waiting, and every visited valve settled at its shortest distance |
| `Day16.Enqueue` | src/days/day16.rs:224-228 | the inner loop appends one entry, a level past the popped one, for each tunnel not yet visited, and nothing else |
| `Day16.FrontBound` | src/days/day16.rs:219-231 | a walk to a valve not yet visited is no shorter than the front entry's level |
| `Day16.FoundShortest` | src/days/day16.rs:220-222 | the first time the target is popped its level is its shortest distance |
| `Day16.DrainedUnreachable` | src/days/day16.rs:232 | an empty queue means no walk reaches an unvisited valve |
| `Day16.ShortestSelf` | src/days/day16.rs:219-222 | a valve is zero minutes from itself |
| `Day16.ShortestUnique` | src/days/day16.rs:213-233 | the shortest distance is unique |
| `Day16.MeasurePair` | src/days/day16.rs:242-257 | an eligible pair (one end is `AA` or both flows are positive) is measured and, when connected, stored both ways; other pairs are left out |
| `Day16.ShortestDistances` | src/days/day16.rs:237-262 | every pair of distinct valves, taken in key iteration order, is recorded exactly when eligible and connected, both ways, with its shortest distance; keys are only distinct valves |
| `Day16.BestBeatsRelease` | src/days/day16.rs:118-162 | no plan of fresh valves releases more than `knapsack` computes |
| `Day16.BestOptimal` | src/days/day16.rs:118-162 | what `knapsack` computes is released by some fresh plan and no fresh plan releases more |
| `Day16.BestDefined` | src/days/day16.rs:135 | with a complete distance table the `expect("Foo")` never fires |
| `Day16.TakeDefined` | src/days/day16.rs:138-155 | opening a closed valve reachable in time keeps the search panic-free |
| `Day16.PathTotal` | src/days/day16.rs:164-211 | `knapsack_with_path` panics exactly when `knapsack` does and finds the same total |
| `Day16.PathReleases` | src/days/day16.rs:164-211 | the path `knapsack_with_path` returns (last valve first) releases its total |
| `Day16.TakeReleases` | src/days/day16.rs:185-205 | weighing a reachable closed valve keeps the best candidate so far one whose path releases its total |
| `Day16.TotalCache.Knapsack` | src/days/day16.rs:118-162 | the memoised method returns the fold `Best` and keeps every cache entry equal to `Best` of its key |
| `Day16.PathCache.KnapsackWithPath` | src/days/day16.rs:164-211 | the memoised method returns `BestPath` and keeps every cache entry equal to it |
| `Day16.Keep` | src/days/day16.rs:63-68 | a filtered map's keys, in the parent's iteration order, are exactly the kept names |
| `Day16.Part1` | src/days/day16.rs:61-79 | the most pressure any plan of positive-flow valves releases in 30 minutes from `AA`; a panic only with an incomplete table |
| `Day16.SharedCases` | src/days/day16.rs:81-115 | part 2 panics when either search does and is otherwise the sum of the two totals |
| `Day16.Part2` | src/days/day16.rs:81-115 | the sum of the best 26-minute plan and the best plan over the valves it leaves, i.e. the greedy split |
| `Day16.GreedySplits` | src/days/day16.rs:81-115 | the greedy part 2 answer is what two disjoint plans release together |
| `Day17.SpawnShape` | src/days/day17.rs:87-105 | each of the five rocks spawns with its lowest row at `m = max_height + 4` and its leftmost column at 2, inside the chamber |
| `Day17.Shift` | src/days/day17.rs:120-126 | the `iter_mut` loops move every cell by the same offset |
| `Day17.Pushed` | src/days/day17.rs:110-128 | a jet moves the rock one column only when it is `<` or `>` and every cell stays in the chamber and off the tower; rows never change |
| `Day17.Settle` | src/days/day17.rs:108-144 | the movement loop ends with a rock in the chamber, clear of the tower, that cannot fall, and a jet index inside the pattern |
| `Day17.Descend` | src/days/day17.rs:108-144 | the movement loop computes `Settle` |
| `Day17.Rest` | src/days/day17.rs:147-150 | the `floor` array is raised by every cell of the resting rock, the tower gains exactly its cells, and no height goes down |
| `Day17.RaiseHeights` | src/days/day17.rs:147-150 | after the update every column's `floor` value is the highest tower cell of that column |
| `Day17.Top` | src/days/day17.rs:58 | `floor.iter().max().unwrap()` is a column height no smaller than any other |
| `Day17.LandedClear` | src/days/day17.rs:86-144 | every rock comes to rest clear of the tower: rocks never overlap |
| `Day17.SimulateWellBuilt` | src/days/day17.rs:53-156 | after any number of rounds the tower lies in the chamber and `floor` holds each column's height |
| `Day17.FloorMonotone` | src/days/day17.rs:147-150 | column heights never decrease from one round to a later one |
| `Day17.HeightMonotone` | src/days/day17.rs:158 | nor does the tower's height |
| `Day17.Profile` | src/days/day17.rs:63-69 | the cache value holds the five neighbouring height differences, the sixth entry staying 0 |
| `Day17.SkipAsWritten` | src/days/day17.rs:73-78 | the skip as written adds whole cycles and can land the counter on `n` itself |
| `Day17.SkipOvershoots` | src/days/day17.rs:73-78 | when the remaining rounds are whole cycles the skip lands on `n`, the round then played ends at `n + 1` and the loop's only exit `round == n` is passed |
| `Day17.SkipOvershootsExample` | src/days/day17.rs:73-78 | a cycle of 5 found at round 6 with `n` = 11, so 5 rounds left, skips to round 11 |
| `Day17.Skip` | src/days/day17.rs:73-78 | the corrected skip adds whole cycles and stays below `n` |
| `Day17.SkipAgrees` | src/days/day17.rs:73-78 | unless it would land on `n`, the corrected skip equals the skip as written |
| `Day17.CheckCycle` | src/days/day17.rs:60-84 | a key not cached is cached with a sound entry; a hit with the same profile plans a skip of whole cycles that lands on the same state up to the profile |
| `Day17.CycleHit` | src/days/day17.rs:71-80 | a cache hit with the same profile plans a skip of whole cycles |
| `Day17.SkipSound` | src/days/day17.rs:72-79 | the planned skip jumps over whole cycles from the cached round |
| `Day17.CacheInsert` | src/days/day17.rs:81-83 | caching the current round keeps every cache entry a record of a real earlier round |
| `Day17.TimesProduct` | src/days/day17.rs:79 | the bonus `cycles_to_skip * cycle_height` is the sum of that many cycle heights |
| `Day17.PlayRound` | src/days/day17.rs:86-155 | one round of the loop body is `RoundStep` of the tower state |
| `Day17.Round` | src/days/day17.rs:53-156 | one pass of the loop keeps the loop invariant and strictly advances the counter |
| `Day17.Play` | src/days/day17.rs:53-158 | the played rounds plus the skipped ones are `n`, the height is that of the played rounds plus the bonus, and any bonus comes from a skip of whole cycles |
| `Day17.PlayForRounds` | src/days/day17.rs:40-159 | the panic on an empty jet pattern is the only failure; otherwise the result is the simulated height of the rounds actually played plus the height of the whole cycles skipped |
| `Day17.Part1` | src/days/day17.rs:29-31 | 2022 rounds; fails exactly on an empty input |
| `Day17.Part2` | src/days/day17.rs:33-35 | 1000000000000 rounds; fails exactly on an empty input |
| `Day18.ParseCoord` | src/days/day18.rs:33 | a coordinate parses only when it is a decimal integer within the `i8` range; anything else is the `unwrap` panic |
| `Day18.ParseCubeFormat` | src/days/day18.rs:33-36 | a cube written as `x,y,z` reads back as itself |
| `Day18.AllCubes` | src/days/day18.rs:30-47 | every line is parsed, in order, and the whole parse fails exactly when one line does |
| `Day18.LowestStep` | src/days/day18.rs:38-42 | `Some(min.unwrap_or(v).min(v))` is the running minimum of a coordinate after one more cube |
| `Day18.HighestStep` | src/days/day18.rs:39-43 | `Some(max.unwrap_or(v).max(v))` is the running maximum of a coordinate after one more cube |
| `Day18.Widen` | src/days/day18.rs:38-43 | the six updates of one line keep all six extremes exact for the cubes read so far |
| `Day18.Parse` | src/days/day18.rs:22-53 | parsing succeeds exactly when there is a line and every line is a cube; the droplet is the set of the cubes and the bounds are the exact extremes of each coordinate |
| `Day18.FreeSides` | src/days/day18.rs:58-63 | the six `as usize` terms count exactly the faces of a cube whose neighbour is not lava |
| `Day18.Part1` | src/days/day18.rs:55-66 | the total is the number of cube faces not shared with another cube |
| `Day18.SurfaceAtMostSix` | src/days/day18.rs:55-66 | no cube shows more than six faces |
| `Day18.LoneCube` | src/days/day18.rs:55-66 | a lone cube shows all six faces |
| `Day18.InPadded` | src/days/day18.rs:70-74 | `is_safe` accepts exactly the cells of the bounding box widened by one on every side |
| `Day18.Expand` | src/days/day18.rs:87-104 | every safe neighbour of an expanded cell is either lava, and counted once, or pushed onto the stack |
| `Day18.Part2` | src/days/day18.rs:68-108 | the flood fill visits the start corner and only safe air, its visited set contains every cell the steam can reach, and the total is the number of lava faces touching visited air |
| `Day18.ClosedExpand` | src/days/day18.rs:82-105 | after each expansion every safe air neighbour of a visited cell is visited or waiting on the stack |
| `Day18.ExteriorAtMostSurface` | src/days/day18.rs:55-108 | the exterior surface of part 2 is at most the whole surface of part 1 |
| `Day19.MaxOreCost` | src/days/day19.rs:30-35 | the ore cap is the largest of the clay, obsidian-ore and geode-ore costs and is one of them |
| `Day19.CapCoversCosts` | src/days/day19.rs:30-43 | every cap covers what any robot costs in that resource, apart from the ore robot's own ore |
| `Day19.OreRobotCostExcluded` | src/days/day19.rs:30-43 | for the first sample blueprint the caps are 3 ore, 14 clay and 7 obsidian: the ore cap is below the ore robot's cost of 4 |
| `Day19.Produce` | src/days/day19.rs:150-158 | the two in-place `for i in 0..4` loops add each robot's output and finish the robots being built, and the building array is reset |
| `Day19.Successors` | src/days/day19.rs:160-238 | an expansion pushes between one and four entries, each one minute later, carrying the pre-build geode count and the popped entry's geode-robot key |
| `Day19.GeodeBranchBuilds` | src/days/day19.rs:163-179 | the geode block pushes exactly when a geode robot just became affordable, and what it pushes starts one geode robot |
| `Day19.ObsidianBranchBuilds` | src/days/day19.rs:181-206 | the obsidian block pushes exactly when the cap, the demand test, affordability and newness hold, and what it pushes starts one obsidian robot |
| `Day19.ClayBranchBuilds` | src/days/day19.rs:208-221 | the clay block pushes exactly under its cap, demand, affordability and newness tests, starting one clay robot |
| `Day19.OreBranchBuilds` | src/days/day19.rs:223-236 | the ore block pushes exactly under its cap, demand, affordability and newness tests, starting one ore robot |
| `Day19.SuccessorIsIdleOrBuild` | src/days/day19.rs:160-238 | every successor waits or starts exactly one robot of a kind that just became affordable, paid from the stock after production |
| `Day19.GeodeShortcutOnly` | src/days/day19.rs:177-178 | a newly affordable geode robot is the only successor (`continue`) |
| `Day19.ObsidianShortcutOnly` | src/days/day19.rs:200-205 | when the obsidian robot is built and enough ore is left for a geode robot every remaining minute, it is the only successor |
| `Day19.IdleIffNoShortcut` | src/days/day19.rs:238 | waiting is pushed exactly when neither `continue` fires |
| `Day19.SuccessorKeepsRobots` | src/days/day19.rs:160-238 | every successor has the robots after production, no more of any resource than after production, and at most one robot building |
| `Day19.KeyOrdersGeodes` | src/days/day19.rs:130-136 | at the same minute the heap pops more geodes first |
| `Day19.KeyOrdersTime` | src/days/day19.rs:130-136 | `Reverse(time)` makes the heap pop earlier minutes first |
| `Day19.MaxIndex` | src/days/day19.rs:136 | `pop` takes an entry whose key is largest in the lexicographic order of the heap tuple |
| `Day19.ExpansionLighter` | src/days/day19.rs:136-239 | replacing a popped entry by its at most four successors makes the queue strictly lighter in a weight of 5 to the power of the minutes left, so the loop ends |
| `Day19.PoppedFinalIsBest` | src/days/day19.rs:136-139 | the first entry popped at the last minute has the most geodes of all entries pushed for that minute |
| `Day19.OnlyFinalQueued` | src/days/day19.rs:136-139 | when the heap pops a last-minute entry, every entry left in the queue is at the last minute |
| `Day19.ExpandKeepsVisited` | src/days/day19.rs:141-238 | expanding a popped entry and marking its state visited keeps every visited state expanded and every earlier pushed entry queued or visited |
| `Day19.SkipKeepsVisited` | src/days/day19.rs:141-143 | skipping a popped entry whose state was visited keeps that invariant |
| `Day19.VisitedClosed` | src/days/day19.rs:136-143 | once only last-minute entries are queued, every pushed entry before the last minute has a state some pushed entry expanded |
| `Day19.Search` | src/days/day19.rs:125-242 | the pushed entries hold the start, are closed under expansion up to the `visited` check and are all reachable; the returned state is reachable at `max_time` and has at least as many geodes as any pushed last-minute entry |
| `Day19.ExploredAppend` | src/days/day19.rs:93-100 | a search outcome for the next blueprint extends the per-blueprint record |
| `Day19.QualitySumAppend` | src/days/day19.rs:99 | one more blueprint adds its index plus one times its geodes |
| `Day19.ProductAppend` | src/days/day19.rs:118 | one more blueprint multiplies in its geodes |
| `Day19.Part1` | src/days/day19.rs:86-103 | the sum of each blueprint's 1-based index times its geode count, each count the best of a closed reachable exploration of 24 minutes |
| `Day19.Part2` | src/days/day19.rs:105-122 | the product of the geode counts of the first three blueprints (fewer when there are fewer), each the best of a closed reachable exploration of 32 minutes |
| `Day19.SampleFirstMinute` | src/days/day19.rs:248-250 | from the start of the first sample blueprint nothing is affordable, so waiting is the only move |
| `Day20.IndexOf` | src/days/day20.rs:74 | `position(ptr::eq)` finds the first, and in an arrangement the only, place holding the number's identity |
| `Day20.Position` | src/days/day20.rs:74 | the scan over the array returns that place |
| `Day20.Steps` | src/days/day20.rs:75-76 | each number moves its scaled value `rem_euclid(len - 1)` places |
| `Day20.Rotated` | src/days/day20.rs:78-86 | a move rearranges the identities without losing or duplicating any |
| `Day20.RotatedReinserts` | src/days/day20.rs:76-86 | the two rotations take the number out of the circle and put it back at a place congruent to `idx + num` modulo `len - 1`, the puzzle's meaning of a move |
| `Day20.ReinsertPlace` | src/days/day20.rs:76-86 | where the number lands and which rotation moves it there |
| `Day20.RotateLeft` | src/days/day20.rs:83 | `rotate_left(1)` on `[lo..=hi]` in place moves the first element of the range to its end and shifts the rest left; nothing outside the range changes |
| `Day20.RotateRight` | src/days/day20.rs:85 | `rotate_right(1)` on `[lo..=hi]` in place moves the last element of the range to its front and shifts the rest right |
| `Day20.MoveOne` | src/days/day20.rs:73-87 | one pass of the inner loop finds number `id` and moves it `Steps` places on |
| `Day20.MixRound` | src/days/day20.rs:73-87 | one round moves every number once, in input order |
| `Day20.Shuffle` | src/days/day20.rs:69-91 | `shuffle` returns the identities in their order after `rounds` mixes of the scaled numbers |
| `Day20.Mix` | src/days/day20.rs:72-88 | mixing keeps an arrangement of all the identities |
| `Day20.MixFactor` | src/days/day20.rs:54 | mixing with the factor `key % (len - 1)` moves every number as far as mixing with the full key does |
| `Day20.GroveSumScaled` | src/days/day20.rs:61-65 | multiplying the grove sum of the unscaled numbers by the key is the grove sum of the scaled numbers |
| `Day20.Part2IsKeyed` | src/days/day20.rs:48-66 | part 2 is the grove sum after ten mixes of the numbers multiplied by the decryption key |
| `Day20.ZeroId` | src/days/day20.rs:21-33 | `self.1` is the index of the last zero of the input, or 0 when there is none |
| `Day20.ParseNumbers` | src/days/day20.rs:21-33 | parsing succeeds exactly when every line is an integer, one number per line |
| `Day20.Parse` | src/days/day20.rs:21-33 | None exactly when some line is not an integer; otherwise one number per line, line i giving number i |
| `Day20.Part1` | src/days/day20.rs:35-46 | the sum of the numbers 1000, 2000 and 3000 places after zero once the numbers are mixed once |
| `Day20.Part2` | src/days/day20.rs:48-66 | the key times the grove sum after ten mixes with the reduced factor |
| `Day21.Apply` | src/days/day21.rs:40-46 | an operation fails exactly on a division by zero; `/` truncates toward zero |
| `Day21.TraceFor` | src/days/day21.rs:136-160 | `trace_for` reports whether `humn` lies below `curr` and adds exactly the names on the way to it |
| `Day21.TracedMembers` | src/days/day21.rs:130-160 | a name is traced exactly when it lies on a walk from `root` from which `humn` is reachable |
| `Day21.TracedOperand` | src/days/day21.rs:68-72 | below a traced calculation, an operand is traced exactly when `humn` lies below it |
| `Day21.Part2` | src/days/day21.rs:60-116 | the inversion loop computes the value of the solving recursion started at the traced operand of `root` |
| `Day21.WithHuman` | src/days/day21.rs:6 | the riddle with `humn` yelling `h`: every other monkey unchanged |
| `Day21.Unaffected` | src/days/day21.rs:68-72 | a monkey not above `humn` yells the same whatever `humn` yells |
| `Day21.InvertLeftSolves` | src/days/day21.rs:77-112 | when the unknown is the left operand, the inverse step gives back the operand that produced the value |
| `Day21.InvertRightSolves` | src/days/day21.rs:77-112 | when the unknown is the right operand, the inverse step gives back the operand that produced the value |
| `Day21.SolveStep` | src/days/day21.rs:74-115 | one turn of the loop moves to the traced operand, carrying that operand's true value |
| `Day21.SolveFinds` | src/days/day21.rs:74-115 | started on a traced monkey with its true value, the loop ends with what `humn` yells |
| `Day21.Part2Correct` | src/days/day21.rs:60-116 | if `root`'s operands agree when `humn` yells `h` and each traced step can be inverted exactly, part 2 answers `h` |
| `Day21.OpWord` | src/days/day21.rs:40-46 | each operator's word reads back as that operator |
| `Day21.ParseLine` | src/days/day21.rs:31-51 | a parsed line's name is the first word less its `:` |
| `Day21.FormatLineRoundTrip` | src/days/day21.rs:27-54 | a monkey written as `name: n` or `name: a op b` reads back as itself |
| `Day21.ParseAll` | src/days/day21.rs:27-54 | collecting succeeds exactly when every line parses, and the map's names are the lines' names |
| `Day21.ParseAllLast` | src/days/day21.rs:53 | a line that no later line overrides gives its name's entry |
| `Day21.Parse` | src/days/day21.rs:27-54 | None exactly when some line does not parse; otherwise the names defined are exactly the lines' names |
| `Day21.Eval` | src/days/day21.rs:119-128 | evaluation always has a value when no definition divides (None is a division by zero) |
| `Day21.Part1` | src/days/day21.rs:56-58 | an answer needs a `root`; with a `root` and no division there is one |
| `Day22.TurnRight` | src/days/day22.rs:197-205 | the `TurnR` table is a quarter turn clockwise with rows growing downwards |
| `Day22.TurnLeft` | src/days/day22.rs:206-214 | the `TurnL` table is a quarter turn counter-clockwise |
| `Day22.TurnsRestore` | src/days/day22.rs:197-214 | a right and a left turn cancel in either order, and four turns of one kind restore the direction |
| `Day22.FacingClockwise` | src/days/day22.rs:132-138 | the facings 0..3 number the directions clockwise and tell them apart |
| `Day22.PasswordDecodes` | src/days/day22.rs:130-138 | on a map narrower than 249 columns the password gives back the row, the column and the facing |
| `Day22.SplitAtBlank` | src/days/day22.rs:67 | `split_once("\n\n")` fails exactly when there is no blank line; otherwise it splits at the first one |
| `Day22.BlankAfterFirst` | src/days/day22.rs:67 | the first blank line of the tail is the first of the text when none starts at its first character |
| `Day22.NoBlankCons` | src/days/day22.rs:67 | no blank line starts at the first character and none later means none in the text |
| `Day22.BoardOf` | src/days/day22.rs:68-80 | the board holds exactly the `.` and `#` characters of the map, each at its row and column with its tile |
| `Day22.StartColumn` | src/days/day22.rs:82-87 | the start is the first column below 300 of row 0 that is on the board; the `unwrap` panics exactly when there is none |
| `Day22.ScanChecks` | src/days/day22.rs:89-115 | the command loop panics exactly on a character other than `R`, `L` and a digit, and otherwise yields walks of positive length split by turns |
| `Day22.ScanAsWrittenTruncates` | src/days/day22.rs:95-111 | as written, `num as u8` turns "256" into a walk of no step and "300R" into a walk of 44; the corrected scan keeps 256 |
| `Day22.ScanFormat` | src/days/day22.rs:89-115 | the corrected scan reads a written path back as itself |
| `Day22.ParseCommands` | src/days/day22.rs:89-115 | the command loop computes the corrected scan |
| `Day22.Parse` | src/days/day22.rs:65-118 | parsing fails exactly on a missing blank line, a row 0 with no tile in the first 300 columns, or a bad path character; otherwise board, start and commands are as above |
| `Day22.FlatScan` | src/days/day22.rs:235-239 | the wrap loop stops on the first cell off the board in jumps of one side, and the cell before it is on the board |
| `Day22.FlatEdge` | src/days/day22.rs:227-247 | the flat `on_edge` stops at a wall, moves onto an open tile keeping the direction, and panics exactly when the wrapped cell is off the board |
| `Day22.FlatEdgeWraps` | src/days/day22.rs:233-241 | a flat wrap stays on the row or column it left, on the other side of the map |
| `Day22.OnBoardEdge` | src/days/day22.rs:227-247 | the loop of `on_edge` computes the flat wrap |
| `Day22.Explore` | src/days/day22.rs:420-453 | a landing the search returns is a board cell |
| `Day22.ExploreFinds` | src/days/day22.rs:420-453 | the search answers with the landing of a state reachable by folds |
| `Day22.ExploreComplete` | src/days/day22.rs:420-453 | when the queue runs dry no state reachable from the start lands |
| `Day22.CubePointSearch` | src/days/day22.rs:409-454 | `find_point_on_cube` returns the landing of a state reachable from the start by folds, and panics only when no such state lands |
| `Day22.FindPointOnCube` | src/days/day22.rs:409-454 | the queue-and-visited-set method computes the search function |
| `Day22.QueueFolds` | src/days/day22.rs:432-450 | the four `push_back`s add the folds onto each existing neighbouring face, in order |
| `Day22.SearchStep` | src/days/day22.rs:420-450 | a popped state not yet visited either lands, and is the answer, or queues its folds |
| `Day22.EntryFromFirst` | src/days/day22.rs:270-273 | the new direction is the first of right, left, down, up whose cell behind is off the board; the `unwrap` panics only when there is none |
| `Day22.CubeEdge` | src/days/day22.rs:258-276 | the cube `on_edge` stops at a wall where the fold lands, and otherwise goes on from there in the first direction leading away from the edge |
| `Day22.Step` | src/days/day22.rs:177-194 | a step moves onto an open tile, stops at a wall, and calls `on_edge` only off the board |
| `Day22.Run` | src/days/day22.rs:171-217 | a walk from an open tile ends on an open tile |
| `Day22.RunAppend` | src/days/day22.rs:173-216 | a path split in two is walked one part after the other |
| `Day22.TurnsCancel` | src/days/day22.rs:197-214 | a right turn then a left, or four right turns, change nothing about the rest of the walk |
| `Day22.WalkSteps` | src/days/day22.rs:176-195 | the loop for one walk command takes up to `n` steps, stopped by a wall |
| `Day22.WalkWith` | src/days/day22.rs:163-218 | `walk` runs the commands in turn |
| `Day22.WalkBoard` | src/days/day22.rs:220-249 | `walk_board` is the walk with the flat wrap |
| `Day22.WalkCube` | src/days/day22.rs:251-278 | `walk_cube` is the walk with the cube wrap |
| `Day22.WalkBoardInline` | src/days/day22.rs:280-345 | `walk_board_`, written out in one loop nest, ends where `walk_board` ends |
| `Day22.WalkCubeInline` | src/days/day22.rs:347-405 | `walk_cube_`, written out in one loop nest, ends where `walk_cube` ends |
| `Day22.Part1` | src/days/day22.rs:120-139 | the password of where the flat walk from the start, facing right, ends; a panic exactly when the walk panics |
| `Day22.Part2` | src/days/day22.rs:141-160 | the password of where the walk over the cube ends; a panic exactly when the walk panics |
| `Day23.Lookouts` | src/days/day23.rs:90-102 | the three cells looked at for a direction, the orthogonal step first |
| `Day23.FirstClearNone` | src/days/day23.rs:119-133 | there is no proposal exactly when no try from `offset` on is clear |
| `Day23.FirstClearSome` | src/days/day23.rs:119-133 | a proposal is the step of the first clear direction among the tries from `offset` on |
| `Day23.ProposeFree` | src/days/day23.rs:118-133 | only an elf with a neighbour proposes, and it proposes an empty cell one orthogonal step away |
| `Day23.StepFree` | src/days/day23.rs:119-133 | the step of the first clear direction is an empty cell one orthogonal step away |
| `Day23.ClearStep` | src/days/day23.rs:90-126 | the first lookout of a clear direction is empty and one orthogonal step away |
| `Day23.Wants` | src/days/day23.rs:113-131 | every proposal comes from an elf and points at an empty cell |
| `Day23.StepsInjective` | src/days/day23.rs:123-125 | with shared proposals blocked, distinct movers go to distinct cells |
| `Day23.RoundKeepsCount` | src/days/day23.rs:133-140 | a round keeps the number of elves |
| `Day23.StillIff` | src/days/day23.rs:57 | nobody moves exactly when the round changes nothing, the fixpoint of part 2 |
| `Day23.BlockedStaysEmpty` | src/days/day23.rs:123-125 | a cell proposed by two elves or more stays empty |
| `Day23.LonelyStays` | src/days/day23.rs:114 | an elf without neighbours stays where it is |
| `Day23.IterateSplit` | src/days/day23.rs:66-72 | stopping after `a` rounds and resuming at the direction reached is the same as running on |
| `Day23.TallyMoves` | src/days/day23.rs:112-140 | a table of everyone's proposals prescribes exactly the round's moves, one per mover |
| `Day23.Offer` | src/days/day23.rs:114-130 | the first loop, for one elf, enters its proposal in the table, marking a shared cell `Blocked` |
| `Day23.Collect` | src/days/day23.rs:112-131 | the first loop, in any iteration order, builds the table of the round's proposals |
| `Day23.Apply` | src/days/day23.rs:133-142 | the second loop moves every unblocked proposer, in any order, and counts the moves |
| `Day23.DoRound` | src/days/day23.rs:74-143 | `do_round` leaves the elves after one round and returns the number of elves that moved |
| `Day23.DoRounds` | src/days/day23.rs:66-72 | `n` rounds starting at north, turning once per round |
| `Day23.MinMax` | src/days/day23.rs:146-158 | `get_min_max` finds the smallest rectangle holding the elves, and panics exactly when there are none |
| `Day23.TightUnique` | src/days/day23.rs:146-158 | the smallest rectangle is unique |
| `Day23.EmptyCells` | src/days/day23.rs:44-50 | the empty cells of the smallest rectangle are its area less the elves |
| `Day23.CountEmpty` | src/days/day23.rs:44-50 | the double sum counts exactly the cells of the rectangle holding no elf |
| `Day23.CountRow` | src/days/day23.rs:46-48 | the inner sum counts the cells of one row holding no elf |
| `Day23.ParseElves` | src/days/day23.rs:22-36 | every elf is a `#` at its line and column |
| `Day23.EmptyGround` | src/days/day23.rs:38-51 | the empty cells of the smallest rectangle holding the elves; a panic exactly when there are none |
| `Day23.Grove.Parse` | src/days/day23.rs:22-36 | the state's elves become those of the scan |
| `Day23.Grove.Part1` | src/days/day23.rs:38-51 | ten rounds from north, the flag set, and the empty ground of the result |
| `Day23.Grove.Part2` | src/days/day23.rs:53-63 | the number of the first still round, counting from 11 at direction 2 after part 1 and from 1 at north otherwise |
| `Day23.Settle` | src/days/day23.rs:57-60 | the loop stops at the first round in which nobody moves, after every earlier round moved someone |
| `Day23.Resumed` | src/days/day23.rs:53-63 | after part 1's ten rounds, provided each moved someone, part 2 counts the same still round as a run from the start |
| `Day23.ResumedForward` | src/days/day23.rs:54-55 | a first still round of the resumed run is one of the whole run |
| `Day23.ResumedBackward` | src/days/day23.rs:54-55 | a first still round of the whole run after `a` rounds is one of the resumed run |
| `Day23.MovedResumedAt` | src/days/day23.rs:54-55 | moves happen in a round of the resumed run exactly when in the same round of the whole run |
| `Day24.RowOfMeaning` | src/days/day24.rs:37-42 | a row list holds one blizzard for each `>` (offset -1) or `<` (offset 1) of its line, and nothing else |
| `Day24.ColOfMeaning` | src/days/day24.rs:43-48 | a column list holds one blizzard for each `v` (offset -1) or `^` (offset 1) in that column, and nothing else |
| `Day24.ScanLine` | src/days/day24.rs:35-51 | the inner loop over one line builds its row list and pushes its vertical blizzards onto their columns' lists, failing exactly where a vertical blizzard has no column list |
| `Day24.Parse` | src/days/day24.rs:28-53 | parsing fails exactly on fewer than two lines, a first line shorter than two characters, or a vertical blizzard past the first line's width; otherwise the sizes and lists are as above |
| `Day24.HitPeriodic` | src/days/day24.rs:126-129 | a blizzard comes back to the same place after as many minutes as its line has interior cells |
| `Day24.Periodic` | src/days/day24.rs:121-145 | the row part of `is_blizzard_at` repeats every `row_length` minutes and the column part every `col_length` minutes |
| `Day24.HitMeans` | src/days/day24.rs:127-128 | on interior cells the `rem_euclid` test holds exactly when the blizzard, moved `-offset * time` places and wrapped into the interior, is on the cell |
| `Day24.StartFlagged` | src/days/day24.rs:109-111 | in a one-wide, two-high valley with a `v`, the formula reports a blizzard on the entrance at minute 2 and the source refuses waiting there, which the corrected rule allows |
| `Day24.AllowedAsWritten` | src/days/day24.rs:101-114 | the move test as written agrees with the corrected `Allowed` on every cell but the start |
| `Day24.ReachStep` | src/days/day24.rs:95-115 | a walk extends by one allowed move |
| `Day24.ReachBack` | src/days/day24.rs:95-115 | a walk after its first minute came by one allowed move |
| `Day24.PopIndex` | src/days/day24.rs:79-83 | the popped entry has the earliest minute, ties broken by the smallest distance, as the reversed `Ord` makes the max-heap do |
| `Day24.PushesSound` | src/days/day24.rs:95-115 | every pushed entry is an allowed move, one minute later |
| `Day24.PushesComplete` | src/days/day24.rs:95-115 | every allowed move is pushed |
| `Day24.Expand` | src/days/day24.rs:95-115 | the move loop returns exactly when a move reaches the target, and otherwise pushes every allowed move |
| `Day24.ExpandClosed` | src/days/day24.rs:90-115 | expanding an entry keeps every move from an expanded cell queued or expanded |
| `Day24.BelowExpanded` | src/days/day24.rs:90-116 | every cell reachable before the earliest queued minute has been expanded |
| `Day24.NoEarlier` | src/days/day24.rs:90-116 | no arrival comes before one more than the earliest queued minute |
| `Day24.ShortestPath` | src/days/day24.rs:69-119 | a returned minute is the earliest arrival at the target; the `Not path found` panic happens only when no walk arrives |
| `Day24.Part1` | src/days/day24.rs:55-57 | the earliest arrival at the exit leaving the entrance at minute 0 |
| `Day24.Part2` | src/days/day24.rs:59-65 | three legs, each the earliest possible and each leaving when the previous one arrived |
| `Day25.DigitOfDefined` | src/days/day25.rs:16-23 | a character is a digit exactly when it is one of `012-=`, and writing the digit gives the character back |
| `Day25.FromStr` | src/days/day25.rs:13-28 | None (the panic) exactly when some character is outside `012-=`; otherwise one digit per character, the last character the lowest digit |
| `Day25.FromStrSnoc` | src/days/day25.rs:13-28 | one more character appended is read as the new lowest digit |
| `Day25.Format` | src/days/day25.rs:76-93 | one character per digit, the highest digit first |
| `Day25.FormatFromStr` | src/days/day25.rs:13-28 | formatting what was read gives back the text |
| `Day25.FromStrFormat` | src/days/day25.rs:75-93 | reading what was formatted gives back the digits |
| `Day25.Column` | src/days/day25.rs:35-64 | the match on a column sum in -5..5 writes a digit in -2..2 and a carry in -1..1 whose value is the sum |
| `Day25.AddFrom` | src/days/day25.rs:30-72 | the digits pushed from column i on, with the carry, denote the two numbers' remaining digits plus the carry |
| `Day25.AddFromShape` | src/days/day25.rs:30-72 | one digit per remaining column, and at most one more, which is not zero |
| `Day25.Columns` | src/days/day25.rs:31-71 | the column loop with the final carry computes the digit-wise sum |
| `Day25.Add` | src/days/day25.rs:30-72 | `Snafu::add` gives a number whose value is the sum of the two values, at most one digit longer than the longer and without a leading zero added |
| `Day25.AddFacts` | src/days/day25.rs:30-72 | the digit-wise sum has the value of the two numbers and at most one digit more than the longer |
| `Day25.FoldAddValue` | src/days/day25.rs:113 | folding the list with `add` adds up the values |
| `Day25.Part1` | src/days/day25.rs:112-114 | `reduce(Snafu::add)` panics exactly on an empty list and otherwise yields a number worth the sum of all the values |
| `Day25.SampleReads` | src/days/day25.rs:125-137 | the first and the last sample lines read as the digits of the sample list |
| `Day25.SampleAnswer` | src/days/day25.rs:143 | the expected answer `2=-1=0` reads as the digits of 4890 |
| `Text.Lines` | src/days/day01.rs:20 | `str::lines`: no lines exactly for the empty text, and no line holds a newline |
| `Text.LinesJoin` | src/days/day01.rs:20 | the lines joined by newlines give back the text without its final newline |
| `Text.ParseNat` | src/days/day01.rs:20 | unsigned `str::parse` succeeds exactly on an optional '+' followed by decimal digits |
| `Text.ParseNatFormat` | src/days/day01.rs:20 | a number written in decimal parses back to itself |
| `Text.ParseInt` | src/days/day20.rs:26 | signed `str::parse` succeeds exactly on what unsigned parsing accepts or a '-' followed by decimal digits |
| `Text.ParseIntFormat` | src/days/day20.rs:26 | an integer written in decimal parses back to itself |
| `Text.SplitOn` | src/days/day01.rs:19 | `str::split` on a separator string gives at least one part |
| `Text.SplitOnJoin` | src/days/day01.rs:19 | the parts joined with the separator give back the text |
| `Text.SplitJoin` | src/days/day18.rs:33 | `str::split` on a character: the parts joined with it give back the text |
| `Text.JoinSplit` | src/days/day18.rs:33 | separator-free parts joined with the separator split back into themselves |
| `Transpose.Heads` | src/common/transpose.rs:93-106 | the row `next` yields holds the first item of every inner sequence, in order |
| `Transpose.FirstEmpty` | src/common/transpose.rs:95-104 | the position of the first exhausted inner iterator, or the count when none is exhausted |
| `Transpose.Transposition` | src/common/transpose.rs:1-10 | row `k` holds item `k` of every inner sequence, and there are as many rows as the shortest inner sequence has items |
| `Transpose.TransposeTwice` | src/common/transpose.rs:1-10 | transposing a non-empty rectangle twice gives it back |
| `Transpose.DroppedLive` | src/common/transpose.rs:93-106 | after `m` rows every inner iterator still has an item exactly when `m` is below the shortest length |
| `Transpose.DroppedStep` | src/common/transpose.rs:93-106 | one more `next` yields row `m` of the transposition and advances every iterator by one |
| `Transpose.Transposed.constructor` | src/common/transpose.rs:27-31 | `transpose` turns every inner collection into its iterator |
| `Transpose.Transposed.Next` | src/common/transpose.rs:93-106 | `next` yields the heads of all inner iterators when none is exhausted, advancing all; otherwise it yields None after advancing those before the first exhausted one |
| `Transpose.Transposed.CollectWith` | src/common/transpose.rs:76-83 | `collect_with` yields every row of the transposition through the collector, leaving the iterators as the final failed `next` leaves them |
| `Transpose.Transposed.CollectAll` | src/common/transpose.rs:57-65 | `collect_all` yields exactly the transposition |
| `Transpose.FirstEmptyAt` | src/common/transpose.rs:95-104 | the first exhausted position is the one `FirstEmpty` finds |
| `Transpose.TransposeOptions` | src/common/transpose.rs:145-157 | `collect_inner().next()` on Options is Some of all the values when every entry is Some, and None as soon as one is None |
| `Transpose.CollectWithExample` | src/common/transpose.rs:167-175 | flattening each row of the two sample rows of Options gives `[1, 3]`, `[4]` and `[2]` |

## Left out

Search results, fuel and preconditions:

- Day19.Search: it is not proved that the queue reaches the last minute. `None` stands for the source's `unreachable!()` after the loop (day19.rs:241) and is not shown to be impossible.
- Day19.Search: the returned state is the best of the explored last-minute entries. It is not proved to be the best over all runs, because the visited set, keyed without the minute, prunes entries that are not shown to be dominated.
- Day19.Part1: a `None` from some search gives `None`, which is not excluded. For each blueprint it states `Explored`, not that the count is the maximum over all runs.
- Day19.Part2: the same as `Day19.Part1`, for the product over the first three blueprints.
- Day17.Part1: states only that it fails exactly on an empty jet pattern. It does not show the height equals the unskipped simulation of 2022 rocks; `PlayForRounds` states what is proved about the loop.
- Day17.Part2: the same as `Day17.Part1`, for 1000000000000 rocks.
- Day16.Part2: the greedy split is not claimed to be the best pair of plans, and the source does not promise that either. `GreedySplits` proves the two plans are disjoint and each is optimal in its turn.
- Day18.Part2: proves the visited set contains every reachable air cell. It does not prove that every visited cell is reachable.
- Day24.ShortestPath: a `steps` fuel bound ends the search with `OutOfSteps`. The source loops forever when no path exists. `Day24.Part1` and `Day24.Part2` pass that fuel on.
- Day24.Part1: requires a valley at least one cell wide and high, as do `Day24.Part2` and `Day24.ShortestPath`. With a zero length, the source's blizzard check can call `rem_euclid(0)`, which panics.
- Day23.Grove.Part2: a `fuel` round bound returns `None` where the source keeps playing rounds. `Day23.Settle` carries the same bound.
- Day21.Part2: requires `WellFormed`, as do `Day21.Eval` and `Day21.Part1`. That excludes a monkey name with no entry, where the source panics on the map index. It also excludes a cyclic definition, where the source recurses without end.
- Day11.Troop.DoRoundWithoutRelief: requires `Valid`. That excludes a zero divisor, where the source's `%` panics, and a receiving index out of range, where the source's index panics. It also excludes a monkey that throws to itself, where the source's `while let pop_front` never ends. The other round and part methods of `Day11` share this requirement.
- Day08.Part1: requires rectangular rows, as do `Day08.Part2` and the scans. The source does not check the shape of the forest.
- Day20.MixRound: requires at least two numbers, as do `Day20.Part1` and `Day20.Part2`. With one number `rem_euclid(0)` panics, and with none the source indexes an empty vector.
- Day03.FindDuplicate: requires fewer than 256 slices, the range of its `u8` counters.
- Transpose.Transposed.CollectWith: requires at least one inner iterator. With none, `next` (transpose.rs:93-106) never meets an exhausted iterator and returns `Some` of an empty row forever, so collecting never stops. `Transpose.Transposed.CollectAll` needs the same requirement.
- The day 16 hash-map iteration order is a parameter (`order`). Filtered maps iterate in their parent's relative order, and that is assumed.
- The day 7 directory listing order is not fixed: `Day07.Part1` takes any order of the map's entries.

Machine integers: every integer is unbounded, so no overflow is modelled. This covers:

- day 1 `u32` calories and their `u32` sums (day01.rs:11, 20, 25), whose `parse` panics on a number that does not fit, where the model reads it;
- day 4 `u32` section ids (day04.rs:9, 20), the same;
- the `usize` parses of day 5 (day05.rs:54-56), day 7 (day07.rs:40) and day 9 (day09.rs:88-90, 115), the same;
- day 9 `i32` coordinates;
- day 10 `i32` `register`, `cycle` and `final_value` (day10.rs:47-49, 77): the model's X, cycle count and signal total do not wrap. The `parse::<i32>().ok()` of an `addx` operand is modelled: a number outside `i32` makes the line a `noop`;
- day 11 `usize` worry levels;
- day 18 `i8` coordinates, including `x + 1` at 127;
- day 19 `u16` counters;
- day 20 and day 21 `i64` values;
- day 22 `u32` step counts and `i16` positions;
- day 13 `u32` numbers, accumulated digit by digit in `parse_num` (day13.rs:104-108);
- day 14, day 15 and day 23 `i32` coordinates, including day 14's `parse::<i32>` of the path points, which rejects values outside that range;
- the day 24 `time as C` cast to `i32` in `is_blizzard_at` (day24.rs:127, 138), which wraps for a time of 2^31 or more.

The `num as u8` truncation of day 22 is the one exception, and it is a Finding.

Input handling:

- `Text.Lines` splits on `\n` and does not strip a trailing `\r`, which `str::lines` does.
- `Day06.FindMarker` works on characters where the source uses `as_bytes()`, so positions differ on non-ASCII input.
- Day17.PlayForRounds: takes the jet pattern as characters where day17.rs:41 uses `as_bytes()`, so the jet count and the jet indices differ on non-ASCII input.
- Day17.Play: the same characters-for-bytes jet sequence as `Day17.PlayForRounds`.
- Day12.Parse: takes the grid width from the first line's character count, where day12.rs:32 uses `str::len`, its byte count; the two differ on non-ASCII input.
- Day24.Parse: takes the valley width from the first line's character count, where day24.rs:30 uses `str::len`, its byte count; the two differ on non-ASCII input.
- Day13.ParseNum: tests for ASCII digits where day13.rs:105 tests `char::is_numeric`. On a non-ASCII numeral such as '٣' the source panics at `to_digit(10).unwrap()` (day13.rs:107); the model reads no digit there, and a list holding it ends in `Hang`. `Day13.NumFrom` is the same function.
- Day13.Parse: inherits `Day13.ParseNum`'s ASCII digit test, as do `Day13.ParseFrom`, `Day13.ListFrom` and `Day13.FromStr`.
- Day21.ParseLine: tests the first character of the definition for an ASCII digit where day21.rs:34 tests `char::is_numeric`. On "x: ٣ + y" the source panics at `parse().unwrap()`; the model reads a calculation.
- The input parsers of day 8, day 11, day 16 and day 19 are not modelled. Their operations take the parsed forest, monkeys, valves or blueprints.
- Day 7 takes the input's lines as split on `'\n'`. A trailing empty line is a listing line the parser rejects, as in the source.
- Day 13's split of the whole input into pairs of lines is not one function. Parsing is modelled per packet line.
- Day 15 part 2 (`intersection_points`, `get_beacon_position_in_area`) computes with `f32` line intersections and is not part of this model.
- The debug printing helpers of the days and the puzzle runner (`main.rs`, `day.rs`, `parser.rs`, benchmarks) are not part of this model.

Sample answers not evaluated. The tests' expected answers are not evaluated on the model, because concrete evaluation over these inputs unrolls beyond what the verifier can do:

- day 1's 24000 and 45000;
- day 3's 157 and 70;
- day 6's markers 11, 10, 26 and 29;
- day 7's 95437 and 24933642;
- day 8's 21 and 8;
- day 9's 13 and 36;
- day 10's 13140 and its screen;
- day 11's 10605 and 2713310158;
- day 12's 31 and 29;
- day 13's 13 and 140 (only the order of three sample pairs is shown);
- day 14's 24 and 93;
- day 15's 26 on row 10;
- day 16's 1651 and 1707;
- day 17's 3068 and 1514285714288;
- day 18's 64 and 58;
- day 19's 33 and 56 · 62;
- day 20's 3 and 1623178306;
- day 21's 152 and 301;
- day 22's two expected positions and facings after a wrap;
- day 23's 110 and 20;
- day 24's 18 and 54;
- day 25's sum of the thirteen sample numbers. Only the expected answer "2=-1=0" is shown to read as 4890.

The day 2, 4 and 5 test answers are proved on their samples (`Day02.Sample`, `Day04.Sample`, `Day05.SampleSingly`, `Day05.SampleBlock`).

## Findings

| source | as written | input that shows it | evidently intended | confidence | as-written member | corrected member |
|---|---|---|---|---|---|---|
| src/days/day08.rs:59-63 | the column pass runs `x` over the number of rows and takes `y_b` from row 0's length, so it indexes out of range on any grid that is not square | the one-row forest "12": two visible trees, but the scan panics | count columns over the row width | not executed | `Day08.NonSquarePanics`, `Day08.Part1AsWritten` | `Day08.Part1` |
| src/days/day13.rs:150-158 | the packets are collected into a `BTreeSet`, which keeps one of two packets that are `==`, so repeated packets shift the divider positions | the packet `[1]` twice, below both dividers: the set gives 6 where the sorted list of all packets gives 12 | count every packet, repeats included | not executed | `Day13.DuplicatesCountedOnce`, `Day13.Part2AsWrittenFinds` | `Day13.Part2Positions` |
| src/days/day13.rs:156-171 | a packet Equal to a divider under `Ord` but not `==` to it keeps the divider out of the set, and the scan for the divider then panics | the packet `[2]` beside divider `[[2]]` | find the divider's position by order | not executed | `Day13.EqualToDividerPanics` | `Day13.Part2Positions` |
| src/days/day17.rs:73-78 | `remaining / len` whole cycles are skipped, which can put `round` on `n`; the rock is still played, `round` becomes `n + 1`, and `round == n` never holds | a cycle of 5 found at round 6 with `n` = 11, so 5 rounds left: the skip lands on round 11 | skip `(remaining - 1) / len` cycles so fewer than `n` rounds are reached | not executed | `Day17.SkipAsWritten`, `Day17.SkipOvershoots`, `Day17.SkipOvershootsExample` | `Day17.Skip`, `Day17.SkipAgrees` |
| src/days/day22.rs:95-111 | the step count is cast with `num as u8`, which keeps `num % 256` | the command "256" walks no step and "300R" walks 44 | keep the full step count | not executed | `Day22.ScanAsWrittenTruncates` | `Day22.ScanFormat` |
| src/days/day24.rs:101-111 | a move onto the start cell is exempt from the bounds test but still goes through `is_blizzard_at`, whose wrap formula can report a vertical blizzard on that border cell: the entrance in legs 1 and 3, the exit in leg 2. The target is never checked, because it returns at day24.rs:97-98 first. Whether the puzzle's answers change is not shown | a one-wide, two-high valley with a `v`: at minute 2 waiting on the entrance is refused | never flag the entrance and the exit | not executed | `Day24.StartFlagged` | `Day24.ShortestPath` |
