/**
 * The neighbour queries a cell answers against a live set and an offset
 * set: its live neighbours, its dead neighbours ("neighbour complement")
 * and the number of live neighbours. The offsets are the neighbourhood
 * that the cellular rule is configured with.
 */
module Neighbourhood {
  import opened Vectors

  /**
   * The coordinates one offset away from c. Offsets of another dimension
   * than c are skipped; nothing forces cells and offsets to share one
   * dimension, but a tick keeps a dimension they share (StepKeepsDimension).
   */
  function Shift(c: Vector, offsets: set<Vector>): set<Vector>
  {
    set o | o in offsets && |o| == |c| :: Add(c, o)
  }

  /** The live cells adjacent to c. */
  function Neighbours(c: Vector, live: set<Vector>, offsets: set<Vector>): set<Vector>
  {
    Shift(c, offsets) * live
  }

  /** The dead coordinates adjacent to c: the candidates for a birth. */
  function NeighboursComplement(c: Vector, live: set<Vector>, offsets: set<Vector>): set<Vector>
  {
    Shift(c, offsets) - live
  }

  /** The number of live cells adjacent to c. */
  function NeighbourCount(c: Vector, live: set<Vector>, offsets: set<Vector>): nat
  {
    |Neighbours(c, live, offsets)|
  }

  /** All vectors of a set have dimension n. */
  predicate OfDimension(s: set<Vector>, n: nat)
  {
    forall v :: v in s ==> |v| == n
  }

  /** 1 when the offset o from c lands on a live cell, else 0. */
  function LiveAt(c: Vector, live: set<Vector>, o: Vector): nat
  {
    if |o| == |c| && Add(c, o) in live then 1 else 0
  }

  /** The offsets applied to c, one by one, counting those that land on a live cell. */
  function CountLive(c: Vector, live: set<Vector>, os: seq<Vector>): nat
  {
    if os == [] then 0
    else LiveAt(c, live, os[0]) + CountLive(c, live, os[1..])
  }

  /** The elements of a sequence are pairwise distinct. */
  predicate Distinct(os: seq<Vector>)
  {
    forall i, j :: 0 <= i < j < |os| ==> os[i] != os[j]
  }

  /** Each offset of the right dimension gives its own adjacent coordinate. */
  lemma {:induction false} ShiftSize(c: Vector, offsets: set<Vector>)
    requires OfDimension(offsets, |c|)
    ensures |Shift(c, offsets)| == |offsets|
    decreases |offsets|
  {
    if offsets == {} {
      assert Shift(c, offsets) == {};
    } else {
      var o :| o in offsets;
      var rest := offsets - {o};
      ShiftSize(c, rest);
      assert Shift(c, offsets) == Shift(c, rest) + {Add(c, o)};
      if Add(c, o) in Shift(c, rest) {
        var o' :| o' in rest && |o'| == |c| && Add(c, o') == Add(c, o);
        AddCancel(c, o', o);
        assert false;
      }
    }
  }

  /**
   * The live neighbours and the neighbour complement split the adjacent
   * coordinates; as many of them are live as the neighbour count says.
   */
  lemma Partition(c: Vector, live: set<Vector>, offsets: set<Vector>)
    requires OfDimension(offsets, |c|)
    ensures Neighbours(c, live, offsets) !! NeighboursComplement(c, live, offsets)
    ensures Neighbours(c, live, offsets) + NeighboursComplement(c, live, offsets) == Shift(c, offsets)
    ensures NeighbourCount(c, live, offsets) + |NeighboursComplement(c, live, offsets)| == |offsets|
  {
    var n, m := Neighbours(c, live, offsets), NeighboursComplement(c, live, offsets);
    assert n + m == Shift(c, offsets);
    ShiftSize(c, offsets);
  }

  /**
   * A cell never has more live neighbours than there are offsets or live
   * cells, and, when the zero offset is not a neighbour, a live cell is not
   * its own neighbour.
   */
  lemma CountBounds(c: Vector, live: set<Vector>, offsets: set<Vector>)
    requires OfDimension(offsets, |c|)
    ensures NeighbourCount(c, live, offsets) <= |offsets|
    ensures NeighbourCount(c, live, offsets) <= |live|
    ensures c in live && ZeroVector(|c|) !in offsets ==> NeighbourCount(c, live, offsets) < |live|
  {
    Partition(c, live, offsets);
    if c in live && ZeroVector(|c|) !in offsets {
      if c in Neighbours(c, live, offsets) {
        var o :| o in offsets && |o| == |c| && Add(c, o) == c;
        AddZero(c);
        AddCancel(c, o, ZeroVector(|c|));
        assert false;
      }
      assert Neighbours(c, live, offsets) <= live - {c};
      assert |live - {c}| == |live| - 1;
    }
  }

  /** Dropping the first element of a list without repeats leaves a list without repeats. */
  lemma DistinctTail(os: seq<Vector>)
    requires Distinct(os) && os != []
    ensures Distinct(os[1..]) && os[0] !in os[1..]
  {
    var rest := os[1..];
    forall i, j | 0 <= i < j < |rest| ensures rest[i] != rest[j] {
      assert rest[i] == os[i + 1] && rest[j] == os[j + 1];
    }
  }

  /**
   * One more offset o, not yet among the offsets, adds one live neighbour
   * when it lands on a live cell and none otherwise.
   */
  lemma CountOneMore(c: Vector, live: set<Vector>, offsets: set<Vector>, o: Vector)
    requires o !in offsets
    ensures NeighbourCount(c, live, offsets + {o}) == NeighbourCount(c, live, offsets) + LiveAt(c, live, o)
  {
    if |o| == |c| && Add(c, o) in live {
      assert Neighbours(c, live, offsets + {o}) == Neighbours(c, live, offsets) + {Add(c, o)};
      if Add(c, o) in Neighbours(c, live, offsets) {
        var o' :| o' in offsets && |o'| == |c| && Add(c, o') == Add(c, o);
        AddCancel(c, o', o);
        assert false;
      }
    } else {
      assert Neighbours(c, live, offsets + {o}) == Neighbours(c, live, offsets);
    }
  }

  /** Counting along a duplicate-free list of the offsets gives the neighbour count. */
  lemma {:induction false} CountByList(c: Vector, live: set<Vector>, os: seq<Vector>)
    requires Distinct(os)
    ensures NeighbourCount(c, live, set o | o in os) == CountLive(c, live, os)
  {
    if os == [] {
      assert Neighbours(c, live, set o | o in os) == {};
    } else {
      DistinctTail(os);
      CountByList(c, live, os[1..]);
      var tail := set o | o in os[1..];
      assert (set o | o in os) == tail + {os[0]};
      CountOneMore(c, live, tail, os[0]);
    }
  }
}
