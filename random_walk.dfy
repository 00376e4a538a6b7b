/**
 * The random-walk rule: a few walkers in a 12-dimensional lattice, a
 * history of every position they have visited, and a tick that moves
 * each walker by a random step. The step is always the zero vector,
 * because the write of the step's component is disabled.
 */
module RandomWalkRule {
  import opened Vectors
  import opened Neighbourhood

  const NUMBER_OF_DIMENSIONS: int := 20
  const DIM: nat := 12

  /** The starting position of walker i: i*10 + j*2 at every third component j, 0 elsewhere. */
  function Walker(i: int): (r: Vector)
    ensures |r| == DIM
    ensures forall j :: 0 <= j < DIM ==> r[j] == if j % 3 == 0 then i * 10 + j * 2 else 0
  {
    seq(DIM, j => if j % 3 == 0 then i * 10 + j * 2 else 0)
  }

  /** The walkers the constructor places: walker i for 0 <= i < NUMBER_OF_DIMENSIONS / 10. */
  function Walkers(n: int): set<Vector>
  {
    set i | 0 <= i < n :: Walker(i)
  }

  /** Every position moved by the same vector v (positions of another dimension are dropped). */
  function Translate(s: set<Vector>, v: Vector): set<Vector>
  {
    set c | c in s && |c| == |v| :: Add(c, v)
  }

  /** Moving one more position c of todo by v adds c moved by v. */
  lemma TranslateOneMore(all: set<Vector>, todo: set<Vector>, c: Vector, v: Vector)
    requires c in todo && todo <= all && |c| == |v|
    ensures all - (todo - {c}) == (all - todo) + {c}
    ensures Translate(all - (todo - {c}), v) == Translate(all - todo, v) + {Add(c, v)}
  {
    assert all - (todo - {c}) == (all - todo) + {c};
  }

  /** There are exactly two walkers, at different positions. */
  lemma TwoWalkers()
    ensures Walkers(NUMBER_OF_DIMENSIONS / 10) == {Walker(0), Walker(1)}
    ensures Walker(0) != Walker(1)
    ensures |Walkers(NUMBER_OF_DIMENSIONS / 10)| == 2
  {
    assert Walker(0)[0] == 0 && Walker(1)[0] == 10;
  }

  /** Moving positions of dimension n by the zero vector leaves them where they are. */
  lemma TranslateZero(s: set<Vector>, n: nat)
    requires OfDimension(s, n)
    ensures Translate(s, ZeroVector(n)) == s
  {
    forall c | c in s ensures c in Translate(s, ZeroVector(n)) {
      AddZero(c);
    }
    forall d | d in Translate(s, ZeroVector(n)) ensures d in s {
      var c :| c in s && |c| == n && d == Add(c, ZeroVector(n));
      AddZero(c);
    }
  }

  class RandomWalk {
    /** The positions of the walkers now. */
    var currentCells: set<Vector>
    /** Every position a walker has left. */
    var cells: set<Vector>

    /** Every walker has DIM components. */
    ghost predicate Valid()
      reads this
    {
      OfDimension(currentCells, DIM)
    }

    /** Places walker i at Walker(i), filling its components one by one; the history starts empty. */
    constructor ()
      ensures Valid()
      ensures currentCells == Walkers(NUMBER_OF_DIMENSIONS / 10)
      ensures currentCells == {Walker(0), Walker(1)} && |currentCells| == 2
      ensures cells == {}
    {
      var current: set<Vector> := {};
      var no := NUMBER_OF_DIMENSIONS / 10;
      var i := 0;
      while i < no
        invariant 0 <= i <= no
        invariant current == Walkers(i)
      {
        var pos := new int[DIM];
        var j := 0;
        while j < DIM
          invariant 0 <= j <= DIM
          invariant forall k :: 0 <= k < j ==> pos[k] == Walker(i)[k]
        {
          pos[j] := 0;
          if j % 3 == 0 {
            pos[j] := i * 10 + j * 2;
          }
          j := j + 1;
        }
        assert pos[..] == Walker(i);
        assert Walkers(i + 1) == Walkers(i) + {Walker(i)};
        current := current + {pos[..]};
        i := i + 1;
      }
      cells := {};
      currentCells := current;
      TwoWalkers();
    }

    /** A fresh array of DIM zeros. */
    method Zero() returns (ret: array<int>)
      ensures fresh(ret)
      ensures ret[..] == ZeroVector(DIM)
    {
      ret := new int[DIM];
      var i := 0;
      while i < DIM
        invariant 0 <= i <= DIM
        invariant forall k :: 0 <= k < i ==> ret[k] == 0
      {
        ret[i] := 0;
        i := i + 1;
      }
    }

    /**
     * The step for the draw ran, which lies in [0, 2*DIM - 2]: always the
     * zero vector, whatever was drawn.
     */
    method GetRandomVector(ran: int) returns (v: Vector)
      requires 0 <= ran < DIM * 2 - 1
      ensures v == ZeroVector(DIM)
    {
      var zero := Zero();
      v := zero[..];
    }

    /**
     * Adds every current position to the history and moves each walker by
     * its step; draws[k] is the value drawn for the k-th walker visited.
     * Since every step is the zero vector, the walkers stay where they are:
     * by TranslateZero, the new positions are the old ones moved by the step.
     */
    method Tick(draws: seq<int>)
      requires Valid()
      requires |draws| == |currentCells|
      requires forall k :: 0 <= k < |draws| ==> 0 <= draws[k] < DIM * 2 - 1
      modifies this
      ensures Valid()
      ensures cells == old(cells) + old(currentCells)
      ensures currentCells == Translate(old(currentCells), ZeroVector(DIM))
      ensures currentCells == old(currentCells)
    {
      var current := currentCells;
      assert OfDimension(current, DIM);
      var nextCells: set<Vector> := {};
      var todo := current;
      var k := 0;
      while todo != {}
        invariant todo <= current
        invariant k + |todo| == |current|
        invariant cells == old(cells) + (current - todo)
        invariant nextCells == Translate(current - todo, ZeroVector(DIM))
        decreases |todo|
      {
        var cell :| cell in todo;
        cells := cells + {cell};
        var step := GetRandomVector(draws[k]);
        var nextCell := Vectors.Add(cell, step);
        TranslateOneMore(current, todo, cell, step);
        nextCells := nextCells + {nextCell};
        todo := todo - {cell};
        k := k + 1;
      }
      assert current - todo == current;
      TranslateZero(current, DIM);
      currentCells := nextCells;
    }

    /** The history: every position left so far. */
    function GetCells(): (r: set<Vector>)
      reads this
      ensures r == cells
    {
      cells
    }

    /** The cells the world is to add: the current positions. */
    function GetToAdd(): (r: set<Vector>)
      reads this
      ensures r == currentCells
    {
      currentCells
    }

    /** The cells the world is to remove: none. */
    function GetToRemove(): (r: set<Vector>)
      ensures r == {}
    {
      {}
    }

    /** Adding a cell by hand has no effect on a random walk. */
    method Add(cell: Vector)
      ensures currentCells == old(currentCells) && cells == old(cells)
    {
    }

    /** Removing a cell by hand has no effect on a random walk. */
    method Remove(cell: Vector)
      ensures currentCells == old(currentCells) && cells == old(cells)
    {
    }

    /** Clearing has no effect on a random walk. */
    method Clear()
      ensures currentCells == old(currentCells) && cells == old(cells)
    {
    }
  }
}
