/**
 * The Game of Life scenarios driven through the world manager's methods: each
 * method builds a world with lower bound 1, upper bound 3 and the eight
 * offsets of the x-z plane, edits it, ticks it and reports what a client
 * observes after every tick.
 */
module GameOfLifeTests {
  import opened Vectors
  import opened CellularRule
  import opened World
  import opened GameOfLifeScenarios

  /** A fresh world configured with the Game of Life bounds and neighbourhood. */
  method NewWorld() returns (w: WorldManager)
    ensures fresh(w)
    ensures w.lower == LOWER && w.upper == UPPER && w.offsets == N8
    ensures w.cells == {} && w.generation == 0
  {
    w := new WorldManager.WithBounds(LOWER, UPPER, N8);
  }

  /**
   * An empty world ticked `ticks` times: after the k-th tick (counting
   * from 1) the generation is k and the population 0.
   */
  method TickBasic(ticks: nat) returns (generations: seq<int32>, populations: seq<nat>)
    requires ticks <= INT32_MAX as int
    ensures |generations| == ticks && |populations| == ticks
    ensures forall k :: 0 <= k < ticks ==> generations[k] as int == k + 1
    ensures forall k :: 0 <= k < ticks ==> populations[k] == 0
  {
    var w := NewWorld();
    generations, populations := [], [];
    var i := 0;
    while i < ticks
      invariant 0 <= i <= ticks
      invariant w.cells == {} && w.generation as int == i
      invariant |generations| == i && |populations| == i
      invariant forall k :: 0 <= k < i ==> generations[k] as int == k + 1
      invariant forall k :: 0 <= k < i ==> populations[k] == 0
    {
      EmptyStep(N8, LOWER, UPPER);
      w.Tick();
      var g := w.GetGeneration();
      var p := w.GetPopulationSize();
      generations, populations := generations + [g], populations + [p];
      i := i + 1;
    }
  }

  /** A lone cell at the origin: one cell in generation 0, none in generation 1. */
  method DieInOneTick() returns (generationBefore: int32, populationBefore: nat, cellsAfter: set<Vector>, generationAfter: int32, populationAfter: nat)
    ensures generationBefore == 0 && populationBefore == 1
    ensures [0, 0, 0] !in cellsAfter
    ensures generationAfter == 1 && populationAfter == 0
  {
    var w := NewWorld();
    w.Add([0, 0, 0]);
    generationBefore := w.GetGeneration();
    populationBefore := w.GetPopulationSize();
    LoneCellDies();
    w.Tick();
    cellsAfter := w.GetCells();
    generationAfter := w.GetGeneration();
    populationAfter := w.GetPopulationSize();
  }

  /**
   * The vertical blinker ticked `ticks` times: after an odd number of
   * ticks it lies horizontally, after an even number vertically, with
   * three cells either way.
   */
  method SimpleOscillator(ticks: nat) returns (cells: set<Vector>, population: nat)
    ensures ticks % 2 == 1 ==> cells == BLINKER_TURNED
    ensures ticks % 2 == 0 ==> cells == BLINKER
    ensures population == 3
  {
    var w := NewWorld();
    w.Add([0, 0, -1]);
    w.Add([0, 0, 0]);
    w.Add([0, 0, 1]);
    var i := 0;
    while i < ticks
      invariant 0 <= i <= ticks
      invariant w.cells == Iterate(BLINKER, N8, LOWER, UPPER, i)
    {
      IterateStep(BLINKER, N8, LOWER, UPPER, i);
      w.Tick();
      i := i + 1;
    }
    BlinkerOscillates(ticks);
    BlinkerPopulation(ticks);
    cells := w.GetCells();
    population := w.GetPopulationSize();
  }

  /** A fresh world holding the block and the boat, added cell by cell. */
  method BlockAndBoatWorld() returns (w: WorldManager)
    ensures fresh(w)
    ensures w.lower == LOWER && w.upper == UPPER && w.offsets == N8
    ensures w.cells == BLOCK_AND_BOAT && w.generation == 0
  {
    w := NewWorld();
    w.Add([1, 0, 1]);
    w.Add([2, 0, 1]);
    w.Add([1, 0, 2]);
    w.Add([2, 0, 2]);
    w.Add([5, 0, 1]);
    w.Add([5, 0, 2]);
    w.Add([6, 0, 1]);
    w.Add([6, 0, 3]);
    w.Add([7, 0, 2]);
    BlockAndBoatAdded();
  }

  /**
   * The block and the boat: nine cells before the first tick and the same
   * nine cells after any number of ticks.
   */
  method StableStructures(ticks: nat) returns (before: set<Vector>, populationBefore: nat, after: set<Vector>, populationAfter: nat)
    ensures before == BLOCK_AND_BOAT && populationBefore == 9
    ensures after == BLOCK_AND_BOAT && populationAfter == 9
  {
    var w := BlockAndBoatWorld();
    BlockAndBoatIsFixed();
    before := w.GetCells();
    populationBefore := w.GetPopulationSize();
    var i := 0;
    while i < ticks
      invariant 0 <= i <= ticks
      invariant w.cells == BLOCK_AND_BOAT
    {
      w.Tick();
      i := i + 1;
    }
    after := w.GetCells();
    populationAfter := w.GetPopulationSize();
  }
}
