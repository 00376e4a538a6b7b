/**
 * The world manager: the live set of the world, the generation counter,
 * and the tick that computes the births and the deaths from the live set
 * before the tick and then commits them.
 */
module World {
  import opened Vectors
  import opened Neighbourhood
  import opened CellularRule

  /** Java's 32-bit int. */
  newtype int32 = x: int | -0x8000_0000 <= x < 0x8000_0000

  const INT32_MAX: int32 := 0x7fff_ffff

  /** Java's ++ on an int: one more, wrapping from the largest value to the smallest. */
  function Inc32(x: int32): (r: int32)
    ensures x < INT32_MAX ==> r as int == x as int + 1
    ensures x == INT32_MAX ==> r == -0x8000_0000
  {
    if x == INT32_MAX then -0x8000_0000 else x + 1
  }

  /** The bounds the world manager is compiled with. */
  const LOWER_CELL_BOUND: int := 1
  const UPPER_CELL_BOUND: int := 4

  class WorldManager {
    /** A live cell with at most lower live neighbours dies. */
    const lower: int
    /**
     * A live cell with more than upper live neighbours dies; a dead cell is
     * born when it lies one offset from a live cell and exactly upper of its
     * neighbours are live.
     */
    const upper: int
    /** The neighbourhood of every cell, as offsets from it. */
    const offsets: set<Vector>

    var cells: set<Vector>
    var generation: int32

    /** A world with the compiled-in bounds 1 and 4. */
    constructor (offsets: set<Vector>)
      ensures this.lower == LOWER_CELL_BOUND && this.upper == UPPER_CELL_BOUND && this.offsets == offsets
      ensures cells == {} && generation == 0
    {
      this.lower := LOWER_CELL_BOUND;
      this.upper := UPPER_CELL_BOUND;
      this.offsets := offsets;
      cells := {};
      generation := 0;
    }

    /** A world with the given bounds. */
    constructor WithBounds(lower: int, upper: int, offsets: set<Vector>)
      ensures this.lower == lower && this.upper == upper && this.offsets == offsets
      ensures cells == {} && generation == 0
    {
      this.lower := lower;
      this.upper := upper;
      this.offsets := offsets;
      cells := {};
      generation := 0;
    }

    /** Makes cell live; adding a live cell again changes nothing. */
    method Add(cell: Vector)
      modifies this
      ensures cells == old(cells) + {cell}
      ensures cell in old(cells) ==> cells == old(cells)
      ensures generation == old(generation)
    {
      cells := cells + {cell};
    }

    /** Makes cell dead; removing a dead cell changes nothing. */
    method Remove(cell: Vector)
      modifies this
      ensures cells == old(cells) - {cell}
      ensures cell !in old(cells) ==> cells == old(cells)
      ensures generation == old(generation)
    {
      cells := cells - {cell};
    }

    /** Removes every cell; the generation is kept. */
    method Clear()
      modifies this
      ensures cells == {}
      ensures generation == old(generation)
    {
      cells := {};
    }

    function GetCells(): (r: set<Vector>)
      reads this
      ensures r == cells
    {
      cells
    }

    function GetGeneration(): (r: int32)
      reads this
      ensures r == generation
    {
      generation
    }

    /** The number of live cells. */
    function GetPopulationSize(): (r: nat)
      reads this
      ensures r == |cells|
    {
      |cells|
    }

    /** The births around one live cell: its dead neighbours with exactly upper live neighbours. */
    method GrowAround(cell: Vector) returns (newCells: set<Vector>)
      ensures newCells == BirthsAround(cell, cells, offsets, upper)
    {
      newCells := {};
      var neighboursComplement := NeighboursComplement(cell, cells, offsets);
      var todo := neighboursComplement;
      while todo != {}
        invariant todo <= neighboursComplement
        invariant newCells == BornAmong(neighboursComplement - todo, cells, offsets, upper)
        decreases |todo|
      {
        var d :| d in todo;
        BornAmongStep(neighboursComplement, todo, d, cells, offsets, upper);
        if NeighbourCount(d, cells, offsets) == upper {
          newCells := newCells + {d};
        }
        todo := todo - {d};
      }
    }

    /** The cells to be added: the births around every live cell. */
    method Grow() returns (newCells: set<Vector>)
      ensures newCells == Births(cells, offsets, upper)
    {
      newCells := {};
      var todo := cells;
      while todo != {}
        invariant todo <= cells
        invariant newCells == BirthsFrom(cells - todo, cells, offsets, upper)
        decreases |todo|
      {
        var cell :| cell in todo;
        var around := GrowAround(cell);
        BirthsFromStep(cells - todo, cell, cells, offsets, upper);
        assert cells - todo + {cell} == cells - (todo - {cell});
        newCells := newCells + around;
        todo := todo - {cell};
      }
      assert cells - todo == cells;
    }

    /** The cells to be removed: live cells with at most lower or more than upper live neighbours. */
    method Die() returns (toKill: set<Vector>)
      ensures toKill == Deaths(cells, offsets, lower, upper)
    {
      toKill := {};
      var todo := cells;
      while todo != {}
        invariant todo <= cells
        invariant toKill == DeathsFrom(cells - todo, cells, offsets, lower, upper)
        decreases |todo|
      {
        var cell :| cell in todo;
        var count := NeighbourCount(cell, cells, offsets);
        if count <= lower || count > upper {
          toKill := toKill + {cell};
        }
        todo := todo - {cell};
      }
      assert cells - todo == cells;
    }

    /**
     * One generation: the births and the deaths are both computed from
     * the live set before any change, then the births are added, the
     * deaths removed and the generation counter advanced.
     */
    method Tick()
      modifies this
      ensures cells == Step(old(cells), offsets, lower, upper)
      ensures generation == Inc32(old(generation))
    {
      var toAdd := Grow();
      var toKill := Die();
      cells := cells + toAdd;
      cells := cells - toKill;
      generation := Inc32(generation);
    }
  }
}
