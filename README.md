# JLife world manager and random-walk rule, in Dafny

JLife simulates a cellular automaton on an unbounded integer lattice of any
dimension. The world manager holds the set of live cells and a generation
counter. On every tick it computes, from the live set as it stands before
the tick, the cells to be born (`grow`, `growAround`) and the cells to die
(`die`); it then adds the births, removes the deaths and counts one more
generation. The neighbours of a cell are the cells one offset away from it,
for each offset of a configurable neighbourhood. A live cell survives when
its number of live neighbours lies above the lower bound and at most at
the upper bound. A dead cell is born when it lies one offset from a live
cell (the only candidates `grow` looks at) and exactly the upper bound of
its neighbours are live. A
second rule, the random walk, places two walkers in a 12-dimensional
lattice, keeps the history of the positions they have visited, and on each
tick adds to each walker a step that, as the code stands, is always the
zero vector, so the walkers stay where they are.

Files:

- `vectors.dfy` (module `Vectors`): lattice coordinates as `seq<int>`,
  component-wise addition and the zero vector.
- `neighbourhood.dfy` (module `Neighbourhood`): the queries a cell answers,
  namely its live neighbours, its dead neighbours (the "neighbour
  complement") and its live-neighbour count, all against a live set and an
  offset set.
- `rule.dfy` (module `CellularRule`): the threshold rule as functions of
  the pre-tick live set (`Births`, `Deaths`, `Step`, `Iterate`) and the
  lemmas that characterise it.
- `world.dfy` (module `World`): the class `WorldManager` with its fields
  `cells` and `generation`, the editing methods, and `Tick` with the loops
  `Grow`, `GrowAround` and `Die`, each proved against the functions of
  `CellularRule`.
- `scenarios.dfy` (module `GameOfLifeScenarios`): the Game of Life
  configuration of the test suite (lower bound 1, upper bound 3, the eight
  offsets of the x-z plane) and the patterns it runs: a lone cell, the
  blinker, and a block with a boat. Its second module, `DefaultBounds`,
  compares that rule with the one the compiled-in bounds give.
- `world_tests.dfy` (module `GameOfLifeTests`): the test scenarios written
  as methods that drive a `WorldManager` through its own methods.
- `random_walk.dfy` (module `RandomWalkRule`): the class `RandomWalk`.

The world manager's bounds and neighbourhood are parameters of its
constructor. The plain constructor uses the compiled-in bounds 1 and 4.
`WithBounds` sets other bounds, as the test suite's setters do. Nothing
forces the cells and the offsets to share one dimension (offsets of another
dimension than a cell are skipped); `StepKeepsDimension` shows that a tick
keeps a dimension they do share. Nothing requires the zero offset to be
absent either; `CountBounds` shows what its absence buys: a live cell is
then not its own neighbour. `OneHopNeeded` shows that the birth rule is
more than a count: with the single offset `[1]`, the coordinate `[-1]` has
one live neighbour in `{[0]}`, equal to an upper bound of 1, yet it is not
born, because it is not one offset from a live cell.

In a few places the code, its comments and its tests disagree, or the code
does something unexpected; the model follows the code:

- `clear` leaves the generation as it is. The test suite nevertheless
  expects generation 0 after a `clear` on the shared instance.
- The birth rule tests for a live-neighbour count EQUAL to the upper bound,
  not for a count inside the survival range.
- The comment on `tick` (src/server/model/WorldManager.java:73-78) describes
  Conway's rule: born with 3 live neighbours, survive with 2 or 3. The
  compiled-in bounds 1 and 4 (lines 13-14) give another rule: born with
  exactly 4, survive with 2 to 4. `DefaultBounds.DefaultBoundsAreNotConway`
  exhibits the difference: the cell left of the blinker's middle has 3 live
  neighbours and is born under bounds 1 and 3, but not under 1 and 4.
- `generation` is a Java `int`, so `++` wraps from 2^31 - 1 to -2^31.
  `Inc32` models that.
- The random walk's step is always the zero vector, because the line that
  would set one component of the step is commented out. The walkers
  therefore never move.

## Model

| member | source | states |
|---|---|---|
| `World.Inc32` | src/server/model/WorldManager.java:94 | Java's `generation++`: one more below the largest `int`, the smallest `int` after it |
| `World.WorldManager.constructor` | src/server/model/WorldManager.java:13-20 | a new world has bounds 1 and 4, the given neighbourhood, no live cells and generation 0 |
| `World.WorldManager.WithBounds` | tests/server/GameOfLIfeRuleSetTest.java:28-43 | a new world with caller-chosen lower and upper bounds and neighbourhood, no live cells, generation 0 |
| `World.WorldManager.Add` | src/server/model/WorldManager.java:46-48 | the cell becomes live, adding a live cell again changes nothing, and the generation is untouched |
| `World.WorldManager.Remove` | src/server/model/WorldManager.java:54-56 | the cell becomes dead, removing a dead cell changes nothing, and the generation is untouched |
| `World.WorldManager.Clear` | src/server/model/WorldManager.java:61-63 | no cell is live afterwards and the generation is kept |
| `DefaultBounds.DefaultBoundsAreNotConway` | src/server/model/WorldManager.java:13-14 | with the compiled-in bounds 1 and 4 a dead cell with 3 live neighbours is not born, though it is under the bounds 1 and 3 that the comment at lines 73-78 describes |
| `World.WorldManager.GetCells` | src/server/model/WorldManager.java:69-71 | the contents of the live set at the time of the call, read without changing anything |
| `World.WorldManager.GetGeneration` | src/server/model/WorldManager.java:155-157 | the generation counter, read without changing anything |
| `World.WorldManager.GetPopulationSize` | tests/server/GameOfLIfeRuleSetTest.java:53 | the population is the number of live cells |
| `World.WorldManager.GrowAround` | src/server/model/WorldManager.java:117-128 | the loop over a cell's dead neighbours collects exactly those with `upper` live neighbours |
| `World.WorldManager.Grow` | src/server/model/WorldManager.java:103-111 | the loop over the live cells collects exactly the union of the births around each of them |
| `World.WorldManager.Die` | src/server/model/WorldManager.java:133-141 | the loop collects exactly the live cells with at most `lower` or more than `upper` live neighbours |
| `World.WorldManager.Tick` | src/server/model/WorldManager.java:79-98 | the new live set is `Step` of the pre-tick live set (births and deaths both taken from it), and the generation goes up by one with 32-bit wrap-around |
| `Vectors.AddCancel` | src/server/model/WorldManager.java:120 | distinct offsets from one cell give distinct neighbours, in both directions |
| `Vectors.AddZero` | src/server/rulesets/RandomWalk.java:57 | moving a position by the zero vector leaves it where it is |
| `Neighbourhood.ShiftSize` | src/server/model/WorldManager.java:120 | a cell has as many adjacent coordinates as there are offsets |
| `Neighbourhood.Partition` | src/server/model/WorldManager.java:120-122 | live neighbours and neighbour complement are disjoint, together make up the adjacent coordinates, and their sizes add up to the number of offsets |
| `Neighbourhood.CountBounds` | src/server/model/WorldManager.java:136 | the neighbour count is at most the number of offsets and of live cells, and less than the population for a live cell when the zero offset is excluded |
| `Neighbourhood.CountOneMore` | src/server/model/WorldManager.java:122 | one more offset adds one to the neighbour count exactly when it lands on a live cell |
| `Neighbourhood.CountByList` | src/server/model/WorldManager.java:122 | counting offset by offset along a list without repeats gives the neighbour count |
| `CellularRule.BornAmongStep` | src/server/model/WorldManager.java:121-124 | visiting one more dead neighbour adds it to the births exactly when its count equals `upper` |
| `CellularRule.BirthsFromStep` | src/server/model/WorldManager.java:106-108 | visiting one more live cell adds exactly the births around it |
| `CellularRule.SnapshotCommit` | src/server/model/WorldManager.java:80-87 | births are all dead and deaths all live before the tick, the two are disjoint, so adding then removing equals removing then adding |
| `CellularRule.BornIff` | src/server/model/WorldManager.java:103-128 | a dead coordinate is live after a tick if and only if it is one offset from a live cell and has exactly `upper` live neighbours |
| `CellularRule.SurvivesIff` | src/server/model/WorldManager.java:133-141 | a live cell is live after a tick if and only if `lower` < its live-neighbour count <= `upper` |
| `CellularRule.OneHopNeeded` | src/server/model/WorldManager.java:106-107 | with the single offset `[1]` and live set `{[0]}`, the coordinate `[-1]` has one live neighbour, equal to the upper bound 1, yet is not born, because `grow` only visits dead neighbours of live cells |
| `CellularRule.StepWithinOneHop` | src/server/model/WorldManager.java:106-107 | after a tick every live cell was live before or lies one offset from a cell that was |
| `CellularRule.StepKeepsDimension` | src/server/model/WorldManager.java:120 | a tick keeps every cell at the dimension shared by the live set and the offsets |
| `CellularRule.EmptyStep` | src/server/model/WorldManager.java:103-141 | an empty world has no births and no deaths |
| `CellularRule.PowerFixed` | tests/server/GameOfLIfeRuleSetTest.java:140-155 | a fixed point of a step is a fixed point of any number of steps |
| `CellularRule.PowerAlternates` | tests/server/GameOfLIfeRuleSetTest.java:79-102 | two sets a step swaps alternate with period 2 |
| `CellularRule.FixedPointForever` | tests/server/GameOfLIfeRuleSetTest.java:140-155 | a fixed point of the tick stays unchanged after any number of ticks |
| `CellularRule.EmptyForever` | tests/server/GameOfLIfeRuleSetTest.java:49-55 | the empty world stays empty for any number of ticks |
| `CellularRule.OscillatesForever` | tests/server/GameOfLIfeRuleSetTest.java:79-102 | two live sets that tick into each other alternate: the first after an even number of ticks, the second after an odd number |
| `CellularRule.StepFromLocal` | src/server/model/WorldManager.java:103-141 | a set that agrees with the survival rule on each live cell and with the birth rule on each dead neighbour, and holds nothing else, is the next generation |
| `GameOfLifeScenarios.N8Listed` | tests/server/GameOfLIfeRuleSetTest.java:31-43 | the test neighbourhood has eight distinct three-component offsets, none of them zero |
| `GameOfLifeScenarios.NeighbourCountN8` | tests/server/GameOfLIfeRuleSetTest.java:31-43 | under the test neighbourhood a cell's count is the sum over the eight offsets of whether they land on a live cell |
| `GameOfLifeScenarios.Count2Correct` | tests/server/GameOfLIfeRuleSetTest.java:31-43 | for cells of the plane y = 0, the count under the test neighbourhood equals the count of plane neighbours |
| `GameOfLifeScenarios.StepFromCount2` | tests/server/GameOfLIfeRuleSetTest.java:31-43 | the next generation of a pattern in the plane y = 0 is decided by checking the rule at each live point and its eight neighbours |
| `GameOfLifeScenarios.EmbedSetSize` | tests/server/GameOfLIfeRuleSetTest.java:101 | a pattern in the plane has as many cells as it has points |
| `GameOfLifeScenarios.LoneCellDies` | tests/server/GameOfLIfeRuleSetTest.java:58-66 | a lone cell at the origin dies in one tick |
| `GameOfLifeScenarios.BlinkerTurns` | tests/server/GameOfLIfeRuleSetTest.java:69-90 | the vertical line of three cells becomes the horizontal line in one tick, and the horizontal line becomes the vertical one |
| `GameOfLifeScenarios.BlinkerOscillates` | tests/server/GameOfLIfeRuleSetTest.java:79-100 | the blinker is horizontal after an odd number of ticks and vertical after an even number |
| `GameOfLifeScenarios.BlinkerPopulation` | tests/server/GameOfLIfeRuleSetTest.java:101 | the blinker has three cells after any number of ticks |
| `GameOfLifeScenarios.StableCoordinates` | tests/server/GameOfLIfeRuleSetTest.java:114-126 | the block and the boat are nine distinct coordinates |
| `GameOfLifeScenarios.BlockAndBoatIsFixed` | tests/server/GameOfLIfeRuleSetTest.java:106-155 | the block and the boat are a fixed point of a tick, with nine cells |
| `GameOfLifeScenarios.StableForever` | tests/server/GameOfLIfeRuleSetTest.java:140-155 | the block and the boat are unchanged, nine cells, after any number of ticks |
| `GameOfLifeTests.NewWorld` | tests/server/GameOfLIfeRuleSetTest.java:26-46 | the world each test starts from: bounds 1 and 3, the eight-offset neighbourhood, no cells, generation 0 |
| `GameOfLifeTests.TickBasic` | tests/server/GameOfLIfeRuleSetTest.java:49-55 | an empty world reports generation k and population 0 after its k-th tick |
| `GameOfLifeTests.DieInOneTick` | tests/server/GameOfLIfeRuleSetTest.java:58-66 | one cell at generation 0 before the tick; the origin dead, generation 1 and population 0 after it |
| `GameOfLifeTests.SimpleOscillator` | tests/server/GameOfLIfeRuleSetTest.java:69-103 | after n ticks of the world the blinker lies horizontally for odd n and vertically for even n, with population 3 |
| `GameOfLifeTests.BlockAndBoatWorld` | tests/server/GameOfLIfeRuleSetTest.java:114-124 | adding the nine cells to a fresh world gives exactly the block and the boat at generation 0 |
| `GameOfLifeTests.StableStructures` | tests/server/GameOfLIfeRuleSetTest.java:106-156 | the world holds the same nine cells before the ticks and after any number of them |
| `RandomWalkRule.Walker` | src/server/rulesets/RandomWalk.java:38-44 | walker i has 12 components, i*10 + j*2 at each component j divisible by 3 and 0 elsewhere |
| `RandomWalkRule.TwoWalkers` | src/server/rulesets/RandomWalk.java:36 | the constructor places 20 / 10 = 2 walkers, at different positions |
| `RandomWalkRule.TranslateOneMore` | src/server/rulesets/RandomWalk.java:54-59 | moving one more walker adds its moved position to the next positions |
| `RandomWalkRule.TranslateZero` | src/server/rulesets/RandomWalk.java:54-62 | moving every position by the zero vector leaves the set of positions unchanged |
| `RandomWalkRule.RandomWalk.constructor` | src/server/rulesets/RandomWalk.java:28-48 | the nested loops place exactly the two walkers, each of dimension 12, and the history starts empty |
| `RandomWalkRule.RandomWalk.Zero` | src/server/rulesets/RandomWalk.java:65-71 | a fresh array of 12 zeros |
| `RandomWalkRule.RandomWalk.GetRandomVector` | src/server/rulesets/RandomWalk.java:73-86 | for every draw in [0, 2*DIM - 2] the step is the zero vector of dimension 12 |
| `RandomWalkRule.RandomWalk.Tick` | src/server/rulesets/RandomWalk.java:50-63 | the history gains the current positions; the new positions are the old ones moved by the step, hence the old ones |
| `RandomWalkRule.RandomWalk.GetCells` | src/server/rulesets/RandomWalk.java:88-91 | the history set |
| `RandomWalkRule.RandomWalk.GetToAdd` | src/server/rulesets/RandomWalk.java:93-96 | the current positions |
| `RandomWalkRule.RandomWalk.GetToRemove` | src/server/rulesets/RandomWalk.java:98-102 | always the empty set |
| `RandomWalkRule.RandomWalk.Add` | src/server/rulesets/RandomWalk.java:104-107 | leaves the positions and the history unchanged |
| `RandomWalkRule.RandomWalk.Clear` | src/server/rulesets/RandomWalk.java:114-117 | leaves the positions and the history unchanged |
| `RandomWalkRule.RandomWalk.Remove` | src/server/rulesets/RandomWalk.java:119-122 | leaves the positions and the history unchanged |

## Left out

- The tick duration (`tickTime`, src/server/model/WorldManager.java:83-91) is wall-clock time and is not modelled.
- The observer notification after each tick (src/server/model/WorldManager.java:96-97) is not modelled; `Observable` is not part of this model.
- The `run` loop that ticks until the thread is interrupted (src/server/model/WorldManager.java:36-40) is concurrency plumbing; a caller of `Tick` stands in for it.
- The lazily created singleton (src/server/model/WorldManager.java:26-31) is replaced by explicitly constructed `WorldManager` objects, one per scenario.
- `getTickTime` is left out with the tick duration it reports.
- `Cell`, `Vector`, `Vector3` and the neighbourhood configuration are not part of this model. Their behaviour is given by definitions: a coordinate is a `seq<int>` compared by value, `add` is component-wise, and the neighbours of a cell are the coordinates one offset away. Offsets of a different dimension than the cell are skipped rather than raising an error.
- The random draws of `RandomWalk` are parameters. `java.util.Random` is not modelled, because the value drawn never affects the step. Its constructor's write to `WorldManager.dim` is not modelled either.
- Vectors.Add: coordinate components are unbounded integers; Java's `Vector` holds an `int[]`, so a component sum beyond the `int` range wraps there and does not in the model (the neighbour of `[2^31 - 1, 0, 0]` under offset `[1, 0, 0]` is `[2^31, 0, 0]` here, `[-2^31, 0, 0]` in Java).
- World.WorldManager.GetCells: returns the live set as a value. Java's `getCells` returns an unmodifiable view of the live set, which later edits and ticks show through; `RandomWalk.getCells` and `getToAdd` return the rule's own mutable sets. The model does not capture this aliasing.
- `RandomWalk.getNeighbourhood` returns `null` and is not modelled.
- The 130-generation "Die Hard" test is not modelled.
- The console interface, the application bootstrap and the random world generator are not modelled.
