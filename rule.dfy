/**
 * The threshold rule of the world manager, as functions of the pre-tick
 * live set: which dead coordinates are born, which live cells die, and
 * the live set of the next generation.
 */
module CellularRule {
  import opened Vectors
  import opened Neighbourhood

  /** The coordinates of src whose live-neighbour count is exactly upper. */
  function BornAmong(src: set<Vector>, live: set<Vector>, offsets: set<Vector>, upper: int): set<Vector>
  {
    set d | d in src && NeighbourCount(d, live, offsets) == upper
  }

  /** The dead neighbours of c whose live-neighbour count is exactly upper. */
  function BirthsAround(c: Vector, live: set<Vector>, offsets: set<Vector>, upper: int): set<Vector>
  {
    BornAmong(NeighboursComplement(c, live, offsets), live, offsets, upper)
  }

  /** The births around the cells of src, counted against the live set. */
  function BirthsFrom(src: set<Vector>, live: set<Vector>, offsets: set<Vector>, upper: int): set<Vector>
  {
    set c, d | c in src && d in BirthsAround(c, live, offsets, upper) :: d
  }

  /** The cells to be added: the births around every live cell. */
  function Births(live: set<Vector>, offsets: set<Vector>, upper: int): set<Vector>
  {
    BirthsFrom(live, live, offsets, upper)
  }

  /** Moving one coordinate d from todo to the visited part of src adds d when it is born. */
  lemma BornAmongStep(src: set<Vector>, todo: set<Vector>, d: Vector, live: set<Vector>, offsets: set<Vector>, upper: int)
    requires d in todo && todo <= src
    ensures BornAmong(src - (todo - {d}), live, offsets, upper)
         == BornAmong(src - todo, live, offsets, upper) + (if NeighbourCount(d, live, offsets) == upper then {d} else {})
  {
    assert src - (todo - {d}) == (src - todo) + {d};
  }

  /** The deaths among the cells of src, counted against the live set. */
  function DeathsFrom(src: set<Vector>, live: set<Vector>, offsets: set<Vector>, lower: int, upper: int): set<Vector>
  {
    set c | c in src && (NeighbourCount(c, live, offsets) <= lower || NeighbourCount(c, live, offsets) > upper)
  }

  /** The cells to be removed: live cells with at most lower or more than upper live neighbours. */
  function Deaths(live: set<Vector>, offsets: set<Vector>, lower: int, upper: int): set<Vector>
  {
    DeathsFrom(live, live, offsets, lower, upper)
  }

  /** The next generation: the births are added first, then the deaths removed. */
  function Step(live: set<Vector>, offsets: set<Vector>, lower: int, upper: int): set<Vector>
  {
    (live + Births(live, offsets, upper)) - Deaths(live, offsets, lower, upper)
  }

  /** The result of applying a one-generation step n times. */
  function Power(step: set<Vector> -> set<Vector>, live: set<Vector>, n: nat): set<Vector>
  {
    if n == 0 then live else step(Power(step, live, n - 1))
  }

  /** The live set after n generations of the threshold rule. */
  function Iterate(live: set<Vector>, offsets: set<Vector>, lower: int, upper: int, n: nat): set<Vector>
  {
    Power(s => Step(s, offsets, lower, upper), live, n)
  }

  /** One more generation is one more step. */
  lemma IterateStep(live: set<Vector>, offsets: set<Vector>, lower: int, upper: int, n: nat)
    ensures Iterate(live, offsets, lower, upper, n + 1) == Step(Iterate(live, offsets, lower, upper, n), offsets, lower, upper)
  {
  }

  /** Visiting one more cell adds the births around it. */
  lemma BirthsFromStep(src: set<Vector>, c: Vector, live: set<Vector>, offsets: set<Vector>, upper: int)
    ensures BirthsFrom(src + {c}, live, offsets, upper)
         == BirthsFrom(src, live, offsets, upper) + BirthsAround(c, live, offsets, upper)
  {
    var a, b := BirthsFrom(src + {c}, live, offsets, upper), BirthsFrom(src, live, offsets, upper);
    forall d | d in BirthsAround(c, live, offsets, upper) ensures d in a {
      assert c in src + {c};
    }
  }

  /** A coordinate within one offset of a live cell. */
  ghost predicate OneHopFrom(d: Vector, live: set<Vector>, offsets: set<Vector>)
  {
    exists c, o :: c in live && o in offsets && |o| == |c| && d == Add(c, o)
  }

  /**
   * The commit order does not matter: the births are all dead before the
   * tick, the deaths all live, so adding then removing is the same as
   * removing then adding.
   */
  lemma SnapshotCommit(live: set<Vector>, offsets: set<Vector>, lower: int, upper: int)
    ensures Births(live, offsets, upper) !! live
    ensures Deaths(live, offsets, lower, upper) <= live
    ensures Births(live, offsets, upper) !! Deaths(live, offsets, lower, upper)
    ensures Step(live, offsets, lower, upper)
         == (live - Deaths(live, offsets, lower, upper)) + Births(live, offsets, upper)
  {
    var b, k := Births(live, offsets, upper), Deaths(live, offsets, lower, upper);
    forall d | d in b ensures d !in live {
      var c :| c in live && d in BirthsAround(c, live, offsets, upper);
    }
  }

  /**
   * A dead coordinate is born exactly when it lies one offset from a live
   * cell and has exactly upper live neighbours.
   */
  lemma BornIff(d: Vector, live: set<Vector>, offsets: set<Vector>, lower: int, upper: int)
    requires d !in live
    ensures d in Step(live, offsets, lower, upper)
        <==> OneHopFrom(d, live, offsets) && NeighbourCount(d, live, offsets) == upper
  {
    SnapshotCommit(live, offsets, lower, upper);
    if d in Step(live, offsets, lower, upper) {
      var c :| c in live && d in BirthsAround(c, live, offsets, upper);
      var o :| o in offsets && |o| == |c| && d == Add(c, o);
    }
    if OneHopFrom(d, live, offsets) && NeighbourCount(d, live, offsets) == upper {
      var c, o :| c in live && o in offsets && |o| == |c| && d == Add(c, o);
      assert d in Shift(c, offsets);
      assert d in BirthsAround(c, live, offsets, upper);
    }
  }

  /**
   * Births are drawn only from the dead neighbours of live cells: with the
   * single offset [1], the coordinate [-1] has one live neighbour in {[0]},
   * as many as the upper bound 1, yet it is not born.
   */
  lemma OneHopNeeded()
    ensures NeighbourCount([-1], {[0]}, {[1]}) == 1
    ensures [-1] !in Step({[0]}, {[1]}, 0, 1)
  {
    assert Add([-1], [1]) == [0];
    assert Shift([-1], {[1]}) == {[0]};
    assert Neighbours([-1], {[0]}, {[1]}) == {[0]};
    assert Add([0], [1]) == [1];
    assert !OneHopFrom([-1], {[0]}, {[1]});
    BornIff([-1], {[0]}, {[1]}, 0, 1);
  }

  /** A live cell survives exactly when lower < its live-neighbour count <= upper. */
  lemma SurvivesIff(c: Vector, live: set<Vector>, offsets: set<Vector>, lower: int, upper: int)
    requires c in live
    ensures c in Step(live, offsets, lower, upper)
        <==> lower < NeighbourCount(c, live, offsets) <= upper
  {
    SnapshotCommit(live, offsets, lower, upper);
  }

  /** Only live cells and coordinates one offset from a live cell can be live after a tick. */
  lemma StepWithinOneHop(d: Vector, live: set<Vector>, offsets: set<Vector>, lower: int, upper: int)
    requires d in Step(live, offsets, lower, upper)
    ensures d in live || OneHopFrom(d, live, offsets)
  {
    if d !in live {
      BornIff(d, live, offsets, lower, upper);
    }
  }

  /** A tick keeps every cell at the dimension shared by the live set and the offsets. */
  lemma StepKeepsDimension(live: set<Vector>, offsets: set<Vector>, lower: int, upper: int, n: nat)
    requires OfDimension(live, n) && OfDimension(offsets, n)
    ensures OfDimension(Step(live, offsets, lower, upper), n)
  {
    forall d | d in Step(live, offsets, lower, upper) ensures |d| == n {
      StepWithinOneHop(d, live, offsets, lower, upper);
    }
  }

  /** The empty world has no births and no deaths. */
  lemma EmptyStep(offsets: set<Vector>, lower: int, upper: int)
    ensures Step({}, offsets, lower, upper) == {}
  {
    assert Births({}, offsets, upper) == {};
  }

  /** A fixed point of a step is a fixed point of any number of steps. */
  lemma {:induction false} PowerFixed(step: set<Vector> -> set<Vector>, live: set<Vector>, n: nat)
    requires step(live) == live
    ensures Power(step, live, n) == live
  {
    if n > 0 {
      PowerFixed(step, live, n - 1);
    }
  }

  /** Two sets that a step swaps alternate under repeated steps. */
  lemma {:induction false} PowerAlternates(step: set<Vector> -> set<Vector>, a: set<Vector>, b: set<Vector>, n: nat)
    requires step(a) == b && step(b) == a
    ensures n % 2 == 0 ==> Power(step, a, n) == a
    ensures n % 2 == 1 ==> Power(step, a, n) == b
  {
    if n > 0 {
      PowerAlternates(step, a, b, n - 1);
    }
  }

  /** A fixed point of Step is unchanged after any number of generations. */
  lemma FixedPointForever(live: set<Vector>, offsets: set<Vector>, lower: int, upper: int, n: nat)
    requires Step(live, offsets, lower, upper) == live
    ensures Iterate(live, offsets, lower, upper, n) == live
  {
    PowerFixed(s => Step(s, offsets, lower, upper), live, n);
  }

  /** The empty world stays empty for any number of generations. */
  lemma EmptyForever(offsets: set<Vector>, lower: int, upper: int, n: nat)
    ensures Iterate({}, offsets, lower, upper, n) == {}
  {
    EmptyStep(offsets, lower, upper);
    FixedPointForever({}, offsets, lower, upper, n);
  }

  /** Two live sets that step into each other alternate with period 2. */
  lemma OscillatesForever(a: set<Vector>, b: set<Vector>, offsets: set<Vector>, lower: int, upper: int, n: nat)
    requires Step(a, offsets, lower, upper) == b
    requires Step(b, offsets, lower, upper) == a
    ensures n % 2 == 0 ==> Iterate(a, offsets, lower, upper, n) == a
    ensures n % 2 == 1 ==> Iterate(a, offsets, lower, upper, n) == b
  {
    PowerAlternates(s => Step(s, offsets, lower, upper), a, b, n);
  }

  /**
   * The next generation is determined cell by cell: if r agrees with the
   * survival rule on every live cell and with the birth rule on every dead
   * neighbour of a live cell, and holds nothing else, then r is the next
   * generation.
   */
  lemma StepFromLocal(live: set<Vector>, offsets: set<Vector>, lower: int, upper: int, r: set<Vector>)
    requires forall c :: c in live ==> (c in r <==> lower < NeighbourCount(c, live, offsets) <= upper)
    requires forall c, d :: c in live && d in NeighboursComplement(c, live, offsets) ==>
               (d in r <==> NeighbourCount(d, live, offsets) == upper)
    requires forall d :: d in r && d !in live ==> exists c :: c in live && d in NeighboursComplement(c, live, offsets)
    ensures Step(live, offsets, lower, upper) == r
  {
    SnapshotCommit(live, offsets, lower, upper);
    forall d ensures d in Step(live, offsets, lower, upper) <==> d in r {
      if d in live {
        SurvivesIff(d, live, offsets, lower, upper);
      } else if d in r {
        var c :| c in live && d in NeighboursComplement(c, live, offsets);
        assert d in BirthsAround(c, live, offsets, upper);
      }
    }
  }
}
