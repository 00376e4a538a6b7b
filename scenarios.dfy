/**
 * The configuration of the Game of Life test suite: lower bound 1, upper
 * bound 3 and the eight offsets of the x-z plane, and the patterns the
 * suite runs under it.
 */
module GameOfLifeScenarios {
  import opened Vectors
  import opened Neighbourhood
  import opened CellularRule

  const LOWER: int := 1
  const UPPER: int := 3

  /** The eight unit and diagonal steps in the x-z plane. */
  const E: Vector := [1, 0, 0]
  const NE: Vector := [1, 0, 1]
  const SE: Vector := [1, 0, -1]
  const W: Vector := [-1, 0, 0]
  const NW: Vector := [-1, 0, 1]
  const SW: Vector := [-1, 0, -1]
  const N: Vector := [0, 0, 1]
  const S: Vector := [0, 0, -1]

  const N8: set<Vector> := {E, NE, SE, W, NW, SW, N, S}

  /** The same offsets, listed once each. */
  const N8_LIST: seq<Vector> := [E, NE, SE, W, NW, SW, N, S]

  lemma N8Listed()
    ensures N8 == set o | o in N8_LIST
    ensures Distinct(N8_LIST)
    ensures OfDimension(N8, 3)
    ensures ZeroVector(3) !in N8
  {
  }

  /** One step of CountLive: the offset at k, then those after it. */
  lemma CountLiveAt(d: Vector, live: set<Vector>, os: seq<Vector>, k: nat)
    requires k < |os|
    ensures CountLive(d, live, os[k..]) == LiveAt(d, live, os[k]) + CountLive(d, live, os[k + 1..])
  {
    assert os[k..][1..] == os[k + 1..];
  }

  lemma CountLiveN8(d: Vector, live: set<Vector>)
    ensures CountLive(d, live, N8_LIST)
         == LiveAt(d, live, E) + LiveAt(d, live, NE) + LiveAt(d, live, SE) + LiveAt(d, live, W)
          + LiveAt(d, live, NW) + LiveAt(d, live, SW) + LiveAt(d, live, N) + LiveAt(d, live, S)
  {
    var os := N8_LIST;
    assert os[0..] == os;
    CountLiveAt(d, live, os, 0);
    CountLiveAt(d, live, os, 1);
    CountLiveAt(d, live, os, 2);
    CountLiveAt(d, live, os, 3);
    CountLiveAt(d, live, os, 4);
    CountLiveAt(d, live, os, 5);
    CountLiveAt(d, live, os, 6);
    CountLiveAt(d, live, os, 7);
    assert os[8..] == [];
  }

  /** Under N8 the neighbour count of a coordinate, offset by offset. */
  lemma NeighbourCountN8(d: Vector, live: set<Vector>)
    ensures NeighbourCount(d, live, N8)
         == LiveAt(d, live, E) + LiveAt(d, live, NE) + LiveAt(d, live, SE) + LiveAt(d, live, W)
          + LiveAt(d, live, NW) + LiveAt(d, live, SW) + LiveAt(d, live, N) + LiveAt(d, live, S)
  {
    N8Listed();
    CountByList(d, live, N8_LIST);
    CountLiveN8(d, live);
  }

  /** A point of the x-z plane, standing for the coordinate [x, 0, z]. */
  type Point = (int, int)

  function Embed(p: Point): Vector
  {
    [p.0, 0, p.1]
  }

  /** The live set holds exactly the embedded points of ps. */
  ghost predicate Represents(live: set<Vector>, ps: set<Point>)
  {
    forall v :: v in live <==> |v| == 3 && v[1] == 0 && (v[0], v[2]) in ps
  }

  /** 1 when the point (x, z) is in ps, else 0. */
  function At(ps: set<Point>, x: int, z: int): nat
  {
    if (x, z) in ps then 1 else 0
  }

  /** The live-neighbour count under N8 of a point of the plane, written out. */
  function Count2(p: Point, ps: set<Point>): nat
  {
    At(ps, p.0 + 1, p.1 + 0) + At(ps, p.0 + 1, p.1 + 1) + At(ps, p.0 + 1, p.1 + -1) + At(ps, p.0 + -1, p.1 + 0)
    + At(ps, p.0 + -1, p.1 + 1) + At(ps, p.0 + -1, p.1 + -1) + At(ps, p.0 + 0, p.1 + 1) + At(ps, p.0 + 0, p.1 + -1)
  }

  /** The points adjacent to p under N8, written out. */
  function Around2(p: Point): set<Point>
  {
    {(p.0 + 1, p.1 + 0), (p.0 + 1, p.1 + 1), (p.0 + 1, p.1 + -1), (p.0 + -1, p.1 + 0),
     (p.0 + -1, p.1 + 1), (p.0 + -1, p.1 + -1), (p.0 + 0, p.1 + 1), (p.0 + 0, p.1 + -1)}
  }

  /** The coordinates of a set of points. */
  function EmbedSet(ps: set<Point>): set<Vector>
  {
    set p | p in ps :: Embed(p)
  }

  lemma RepresentsEmbedSet(ps: set<Point>)
    ensures Represents(EmbedSet(ps), ps)
  {
    forall v ensures v in EmbedSet(ps) <==> |v| == 3 && v[1] == 0 && (v[0], v[2]) in ps {
      if |v| == 3 && v[1] == 0 && (v[0], v[2]) in ps {
        assert v == Embed((v[0], v[2]));
      }
    }
  }

  lemma LiveAtEmbed(p: Point, live: set<Vector>, ps: set<Point>, o: Vector, dx: int, dz: int)
    requires Represents(live, ps)
    requires o == [dx, 0, dz]
    ensures LiveAt(Embed(p), live, o) == At(ps, p.0 + dx, p.1 + dz)
  {
    Add3(Embed(p), dx, 0, dz);
    var v := Add(Embed(p), [dx, 0, dz]);
    assert v in live <==> |v| == 3 && v[1] == 0 && (v[0], v[2]) in ps;
  }

  /** Under N8 the neighbour count of an embedded point is Count2. */
  lemma Count2Correct(p: Point, live: set<Vector>, ps: set<Point>)
    requires Represents(live, ps)
    ensures NeighbourCount(Embed(p), live, N8) == Count2(p, ps)
  {
    NeighbourCountN8(Embed(p), live);
    LiveAtEmbed(p, live, ps, E, 1, 0);
    LiveAtEmbed(p, live, ps, NE, 1, 1);
    LiveAtEmbed(p, live, ps, SE, 1, -1);
    LiveAtEmbed(p, live, ps, W, -1, 0);
    LiveAtEmbed(p, live, ps, NW, -1, 1);
    LiveAtEmbed(p, live, ps, SW, -1, -1);
    LiveAtEmbed(p, live, ps, N, 0, 1);
    LiveAtEmbed(p, live, ps, S, 0, -1);
  }

  /** Under N8 the coordinates adjacent to an embedded point are the embedded Around2. */
  lemma Around2Correct(p: Point)
    ensures forall d :: d in Shift(Embed(p), N8) ==> |d| == 3 && d[1] == 0 && (d[0], d[2]) in Around2(p)
  {
    var d := Embed(p);
    Add3(d, 1, 0, 0);
    Add3(d, 1, 0, 1);
    Add3(d, 1, 0, -1);
    Add3(d, -1, 0, 0);
    Add3(d, -1, 0, 1);
    Add3(d, -1, 0, -1);
    Add3(d, 0, 0, 1);
    Add3(d, 0, 0, -1);
  }

  /** The coordinate of a point adjacent to p is adjacent to the coordinate of p. */
  lemma Around2Complete(p: Point, q: Point)
    requires q in Around2(p)
    ensures Embed(q) in Shift(Embed(p), N8)
  {
    var d := Embed(p);
    Add3(d, 1, 0, 0);
    Add3(d, 1, 0, 1);
    Add3(d, 1, 0, -1);
    Add3(d, -1, 0, 0);
    Add3(d, -1, 0, 1);
    Add3(d, -1, 0, -1);
    Add3(d, 0, 0, 1);
    Add3(d, 0, 0, -1);
  }

  /** A live point p is in rs exactly when the survival rule keeps it. */
  predicate SurvivalAgrees(p: Point, ps: set<Point>, rs: set<Point>)
  {
    p in rs <==> LOWER < Count2(p, ps) <= UPPER
  }

  /** A dead point q is in rs exactly when the birth rule creates it. */
  predicate BirthAgreesAt(q: Point, ps: set<Point>, rs: set<Point>)
  {
    q in ps || (q in rs <==> Count2(q, ps) == UPPER)
  }

  /**
   * The rule agrees with rs at the live point p: p survives into rs as
   * the survival rule says, and each dead point around p is in rs as the
   * birth rule says.
   */
  predicate Agrees(p: Point, ps: set<Point>, rs: set<Point>)
  {
    SurvivalAgrees(p, ps, rs)
    && BirthAgreesAt((p.0 + 1, p.1 + 0), ps, rs) && BirthAgreesAt((p.0 + 1, p.1 + 1), ps, rs)
    && BirthAgreesAt((p.0 + 1, p.1 + -1), ps, rs) && BirthAgreesAt((p.0 + -1, p.1 + 0), ps, rs)
    && BirthAgreesAt((p.0 + -1, p.1 + 1), ps, rs) && BirthAgreesAt((p.0 + -1, p.1 + -1), ps, rs)
    && BirthAgreesAt((p.0 + 0, p.1 + 1), ps, rs) && BirthAgreesAt((p.0 + 0, p.1 + -1), ps, rs)
  }

  lemma AgreesSurvival(p: Point, ps: set<Point>, rs: set<Point>)
    requires Agrees(p, ps, rs)
    ensures SurvivalAgrees(p, ps, rs)
  {
  }

  lemma AgreesAround(p: Point, q: Point, ps: set<Point>, rs: set<Point>)
    requires Agrees(p, ps, rs) && q in Around2(p)
    ensures BirthAgreesAt(q, ps, rs)
  {
  }

  /** The survival rule at one live cell c. */
  lemma SurvivalAt(c: Vector, live: set<Vector>, ps: set<Point>, r: set<Vector>, rs: set<Point>)
    requires Represents(live, ps) && Represents(r, rs)
    requires c in live && SurvivalAgrees((c[0], c[2]), ps, rs)
    ensures c in r <==> LOWER < NeighbourCount(c, live, N8) <= UPPER
  {
    var p := (c[0], c[2]);
    assert c == Embed(p);
    Count2Correct(p, live, ps);
  }

  lemma SurvivalFromCount2(live: set<Vector>, ps: set<Point>, r: set<Vector>, rs: set<Point>)
    requires Represents(live, ps) && Represents(r, rs)
    requires forall p :: p in ps ==> SurvivalAgrees(p, ps, rs)
    ensures forall c :: c in live ==> (c in r <==> LOWER < NeighbourCount(c, live, N8) <= UPPER)
  {
    forall c | c in live ensures c in r <==> LOWER < NeighbourCount(c, live, N8) <= UPPER {
      assert (c[0], c[2]) in ps;
      SurvivalAt(c, live, ps, r, rs);
    }
  }

  /** The birth rule at one dead coordinate d adjacent to the live cell c. */
  lemma BirthAt(c: Vector, d: Vector, live: set<Vector>, ps: set<Point>, r: set<Vector>, rs: set<Point>)
    requires Represents(live, ps) && Represents(r, rs)
    requires c in live && d in NeighboursComplement(c, live, N8)
    requires Agrees((c[0], c[2]), ps, rs)
    ensures d in r <==> NeighbourCount(d, live, N8) == UPPER
  {
    var p := (c[0], c[2]);
    assert c == Embed(p);
    Around2Correct(p);
    var q := (d[0], d[2]);
    assert q in Around2(p);
    assert d == Embed(q);
    Count2Correct(q, live, ps);
    AgreesAround(p, q, ps, rs);
  }

  lemma BirthFromCount2(live: set<Vector>, ps: set<Point>, r: set<Vector>, rs: set<Point>)
    requires Represents(live, ps) && Represents(r, rs)
    requires forall p :: p in ps ==> Agrees(p, ps, rs)
    ensures forall c, d :: c in live && d in NeighboursComplement(c, live, N8) ==>
              (d in r <==> NeighbourCount(d, live, N8) == UPPER)
  {
    forall c, d | c in live && d in NeighboursComplement(c, live, N8)
      ensures d in r <==> NeighbourCount(d, live, N8) == UPPER
    {
      assert (c[0], c[2]) in ps;
      BirthAt(c, d, live, ps, r, rs);
    }
  }

  lemma OriginFromCount2(live: set<Vector>, ps: set<Point>, r: set<Vector>, rs: set<Point>)
    requires Represents(live, ps) && Represents(r, rs)
    requires forall q :: q in rs && q !in ps ==> exists p :: p in ps && q in Around2(p)
    ensures forall d :: d in r && d !in live ==> exists c :: c in live && d in NeighboursComplement(c, live, N8)
  {
    forall d | d in r && d !in live ensures exists c :: c in live && d in NeighboursComplement(c, live, N8) {
      var q := (d[0], d[2]);
      assert d == Embed(q);
      var p :| p in ps && q in Around2(p);
      Around2Complete(p, q);
      assert Embed(p) in live;
    }
  }

  /** Every point listed in qs agrees with the rule. */
  predicate AllAgree(qs: seq<Point>, ps: set<Point>, rs: set<Point>)
  {
    qs == [] || (Agrees(qs[0], ps, rs) && AllAgree(qs[1..], ps, rs))
  }

  lemma {:induction false} AllAgreeMember(qs: seq<Point>, ps: set<Point>, rs: set<Point>, p: Point)
    requires AllAgree(qs, ps, rs) && p in qs
    ensures Agrees(p, ps, rs)
  {
    if qs[0] != p {
      assert p in qs[1..];
      AllAgreeMember(qs[1..], ps, rs, p);
    }
  }

  /**
   * The next generation under the test configuration, decided on points:
   * rs is the next generation of ps when the rule agrees with it at every
   * live point (all listed in qs) and it holds nothing that is neither
   * live nor adjacent to a live point.
   */
  lemma StepFromCount2(qs: seq<Point>, ps: set<Point>, rs: set<Point>)
    requires AllAgree(qs, ps, rs)
    requires forall p :: p in ps ==> p in qs
    requires forall q :: q in rs && q !in ps ==> exists p :: p in ps && q in Around2(p)
    ensures Step(EmbedSet(ps), N8, LOWER, UPPER) == EmbedSet(rs)
  {
    var live, r := EmbedSet(ps), EmbedSet(rs);
    RepresentsEmbedSet(ps);
    RepresentsEmbedSet(rs);
    forall p | p in ps ensures Agrees(p, ps, rs) {
      AllAgreeMember(qs, ps, rs, p);
    }
    forall p | p in ps ensures SurvivalAgrees(p, ps, rs) {
      AgreesSurvival(p, ps, rs);
    }
    SurvivalFromCount2(live, ps, r, rs);
    BirthFromCount2(live, ps, r, rs);
    OriginFromCount2(live, ps, r, rs);
    StepFromLocal(live, N8, LOWER, UPPER, r);
  }

  /** Distinct points have distinct coordinates, so embedding keeps the population. */
  lemma {:induction false} EmbedSetSize(ps: set<Point>)
    ensures |EmbedSet(ps)| == |ps|
    decreases |ps|
  {
    if ps != {} {
      var p :| p in ps;
      var rest := ps - {p};
      EmbedSetSize(rest);
      assert EmbedSet(ps) == EmbedSet(rest) + {Embed(p)};
      forall q | q in rest ensures Embed(q) != Embed(p) {
        assert Embed(q)[0] == q.0 && Embed(q)[2] == q.1;
      }
    }
  }

  const LONE: set<Point> := {(0, 0)}
  const VERTICAL: set<Point> := {(0, -1), (0, 0), (0, 1)}
  const HORIZONTAL: set<Point> := {(-1, 0), (0, 0), (1, 0)}
  /** A 2x2 block and a boat, three columns apart. */
  const STABLE: set<Point> := {(1, 1), (2, 1), (1, 2), (2, 2), (5, 1), (5, 2), (6, 1), (6, 3), (7, 2)}

  /*
   * The counts the scenarios rest on, evaluated on the concrete patterns,
   * one check per lemma. For each pattern the numbered lemmas are first the
   * survival check at each live point, then the birth check at each dead
   * point adjacent to a live one, both in order of z and then x. The At
   * lemmas then gather, for one live point, its survival check and the
   * birth checks of its dead neighbours.
   */

  lemma LoneCount1() ensures SurvivalAgrees((0, 0), LONE, {}) {}
  lemma LoneCount2() ensures BirthAgreesAt((-1, -1), LONE, {}) {}
  lemma LoneCount3() ensures BirthAgreesAt((0, -1), LONE, {}) {}
  lemma LoneCount4() ensures BirthAgreesAt((1, -1), LONE, {}) {}
  lemma LoneCount5() ensures BirthAgreesAt((-1, 0), LONE, {}) {}
  lemma LoneCount6() ensures BirthAgreesAt((1, 0), LONE, {}) {}
  lemma LoneCount7() ensures BirthAgreesAt((-1, 1), LONE, {}) {}
  lemma LoneCount8() ensures BirthAgreesAt((0, 1), LONE, {}) {}
  lemma LoneCount9() ensures BirthAgreesAt((1, 1), LONE, {}) {}

  lemma LoneAt1() ensures Agrees((0, 0), LONE, {}) { LoneCount1(); LoneCount6(); LoneCount9(); LoneCount4(); LoneCount5(); LoneCount7(); LoneCount2(); LoneCount8(); LoneCount3(); }

  lemma LoneAgrees()
    ensures AllAgree([(0, 0)], LONE, {})
  {
    LoneAt1();
  }

  lemma VerticalCount1() ensures SurvivalAgrees((0, -1), VERTICAL, HORIZONTAL) {}
  lemma VerticalCount2() ensures SurvivalAgrees((0, 0), VERTICAL, HORIZONTAL) {}
  lemma VerticalCount3() ensures SurvivalAgrees((0, 1), VERTICAL, HORIZONTAL) {}
  lemma VerticalCount4() ensures BirthAgreesAt((-1, -2), VERTICAL, HORIZONTAL) {}
  lemma VerticalCount5() ensures BirthAgreesAt((0, -2), VERTICAL, HORIZONTAL) {}
  lemma VerticalCount6() ensures BirthAgreesAt((1, -2), VERTICAL, HORIZONTAL) {}
  lemma VerticalCount7() ensures BirthAgreesAt((-1, -1), VERTICAL, HORIZONTAL) {}
  lemma VerticalCount8() ensures BirthAgreesAt((1, -1), VERTICAL, HORIZONTAL) {}
  lemma VerticalCount9() ensures BirthAgreesAt((-1, 0), VERTICAL, HORIZONTAL) {}
  lemma VerticalCount10() ensures BirthAgreesAt((1, 0), VERTICAL, HORIZONTAL) {}
  lemma VerticalCount11() ensures BirthAgreesAt((-1, 1), VERTICAL, HORIZONTAL) {}
  lemma VerticalCount12() ensures BirthAgreesAt((1, 1), VERTICAL, HORIZONTAL) {}
  lemma VerticalCount13() ensures BirthAgreesAt((-1, 2), VERTICAL, HORIZONTAL) {}
  lemma VerticalCount14() ensures BirthAgreesAt((0, 2), VERTICAL, HORIZONTAL) {}
  lemma VerticalCount15() ensures BirthAgreesAt((1, 2), VERTICAL, HORIZONTAL) {}

  lemma VerticalAt1() ensures Agrees((0, -1), VERTICAL, HORIZONTAL) { VerticalCount1(); VerticalCount8(); VerticalCount10(); VerticalCount6(); VerticalCount7(); VerticalCount9(); VerticalCount4(); VerticalCount5(); }
  lemma VerticalAt2() ensures Agrees((0, 0), VERTICAL, HORIZONTAL) { VerticalCount2(); VerticalCount10(); VerticalCount12(); VerticalCount8(); VerticalCount9(); VerticalCount11(); VerticalCount7(); }
  lemma VerticalAt3() ensures Agrees((0, 1), VERTICAL, HORIZONTAL) { VerticalCount3(); VerticalCount12(); VerticalCount15(); VerticalCount10(); VerticalCount11(); VerticalCount13(); VerticalCount9(); VerticalCount14(); }

  lemma VerticalAgrees()
    ensures AllAgree([(0, -1), (0, 0), (0, 1)], VERTICAL, HORIZONTAL)
  {
    VerticalAt1();
    VerticalAt2();
    VerticalAt3();
  }

  lemma HorizontalCount1() ensures SurvivalAgrees((-1, 0), HORIZONTAL, VERTICAL) {}
  lemma HorizontalCount2() ensures SurvivalAgrees((0, 0), HORIZONTAL, VERTICAL) {}
  lemma HorizontalCount3() ensures SurvivalAgrees((1, 0), HORIZONTAL, VERTICAL) {}
  lemma HorizontalCount4() ensures BirthAgreesAt((-2, -1), HORIZONTAL, VERTICAL) {}
  lemma HorizontalCount5() ensures BirthAgreesAt((-1, -1), HORIZONTAL, VERTICAL) {}
  lemma HorizontalCount6() ensures BirthAgreesAt((0, -1), HORIZONTAL, VERTICAL) {}
  lemma HorizontalCount7() ensures BirthAgreesAt((1, -1), HORIZONTAL, VERTICAL) {}
  lemma HorizontalCount8() ensures BirthAgreesAt((2, -1), HORIZONTAL, VERTICAL) {}
  lemma HorizontalCount9() ensures BirthAgreesAt((-2, 0), HORIZONTAL, VERTICAL) {}
  lemma HorizontalCount10() ensures BirthAgreesAt((2, 0), HORIZONTAL, VERTICAL) {}
  lemma HorizontalCount11() ensures BirthAgreesAt((-2, 1), HORIZONTAL, VERTICAL) {}
  lemma HorizontalCount12() ensures BirthAgreesAt((-1, 1), HORIZONTAL, VERTICAL) {}
  lemma HorizontalCount13() ensures BirthAgreesAt((0, 1), HORIZONTAL, VERTICAL) {}
  lemma HorizontalCount14() ensures BirthAgreesAt((1, 1), HORIZONTAL, VERTICAL) {}
  lemma HorizontalCount15() ensures BirthAgreesAt((2, 1), HORIZONTAL, VERTICAL) {}

  lemma HorizontalAt1() ensures Agrees((-1, 0), HORIZONTAL, VERTICAL) { HorizontalCount1(); HorizontalCount13(); HorizontalCount6(); HorizontalCount9(); HorizontalCount11(); HorizontalCount4(); HorizontalCount12(); HorizontalCount5(); }
  lemma HorizontalAt2() ensures Agrees((0, 0), HORIZONTAL, VERTICAL) { HorizontalCount2(); HorizontalCount14(); HorizontalCount7(); HorizontalCount12(); HorizontalCount5(); HorizontalCount13(); HorizontalCount6(); }
  lemma HorizontalAt3() ensures Agrees((1, 0), HORIZONTAL, VERTICAL) { HorizontalCount3(); HorizontalCount10(); HorizontalCount15(); HorizontalCount8(); HorizontalCount13(); HorizontalCount6(); HorizontalCount14(); HorizontalCount7(); }

  lemma HorizontalAgrees()
    ensures AllAgree([(-1, 0), (0, 0), (1, 0)], HORIZONTAL, VERTICAL)
  {
    HorizontalAt1();
    HorizontalAt2();
    HorizontalAt3();
  }

  lemma StableCount1() ensures SurvivalAgrees((1, 1), STABLE, STABLE) {}
  lemma StableCount2() ensures SurvivalAgrees((2, 1), STABLE, STABLE) {}
  lemma StableCount3() ensures SurvivalAgrees((5, 1), STABLE, STABLE) {}
  lemma StableCount4() ensures SurvivalAgrees((6, 1), STABLE, STABLE) {}
  lemma StableCount5() ensures SurvivalAgrees((1, 2), STABLE, STABLE) {}
  lemma StableCount6() ensures SurvivalAgrees((2, 2), STABLE, STABLE) {}
  lemma StableCount7() ensures SurvivalAgrees((5, 2), STABLE, STABLE) {}
  lemma StableCount8() ensures SurvivalAgrees((7, 2), STABLE, STABLE) {}
  lemma StableCount9() ensures SurvivalAgrees((6, 3), STABLE, STABLE) {}
  lemma StableCount10() ensures BirthAgreesAt((0, 0), STABLE, STABLE) {}
  lemma StableCount11() ensures BirthAgreesAt((1, 0), STABLE, STABLE) {}
  lemma StableCount12() ensures BirthAgreesAt((2, 0), STABLE, STABLE) {}
  lemma StableCount13() ensures BirthAgreesAt((3, 0), STABLE, STABLE) {}
  lemma StableCount14() ensures BirthAgreesAt((4, 0), STABLE, STABLE) {}
  lemma StableCount15() ensures BirthAgreesAt((5, 0), STABLE, STABLE) {}
  lemma StableCount16() ensures BirthAgreesAt((6, 0), STABLE, STABLE) {}
  lemma StableCount17() ensures BirthAgreesAt((7, 0), STABLE, STABLE) {}
  lemma StableCount18() ensures BirthAgreesAt((0, 1), STABLE, STABLE) {}
  lemma StableCount19() ensures BirthAgreesAt((3, 1), STABLE, STABLE) {}
  lemma StableCount20() ensures BirthAgreesAt((4, 1), STABLE, STABLE) {}
  lemma StableCount21() ensures BirthAgreesAt((7, 1), STABLE, STABLE) {}
  lemma StableCount22() ensures BirthAgreesAt((8, 1), STABLE, STABLE) {}
  lemma StableCount23() ensures BirthAgreesAt((0, 2), STABLE, STABLE) {}
  lemma StableCount24() ensures BirthAgreesAt((3, 2), STABLE, STABLE) {}
  lemma StableCount25() ensures BirthAgreesAt((4, 2), STABLE, STABLE) {}
  lemma StableCount26() ensures BirthAgreesAt((6, 2), STABLE, STABLE) {}
  lemma StableCount27() ensures BirthAgreesAt((8, 2), STABLE, STABLE) {}
  lemma StableCount28() ensures BirthAgreesAt((0, 3), STABLE, STABLE) {}
  lemma StableCount29() ensures BirthAgreesAt((1, 3), STABLE, STABLE) {}
  lemma StableCount30() ensures BirthAgreesAt((2, 3), STABLE, STABLE) {}
  lemma StableCount31() ensures BirthAgreesAt((3, 3), STABLE, STABLE) {}
  lemma StableCount32() ensures BirthAgreesAt((4, 3), STABLE, STABLE) {}
  lemma StableCount33() ensures BirthAgreesAt((5, 3), STABLE, STABLE) {}
  lemma StableCount34() ensures BirthAgreesAt((7, 3), STABLE, STABLE) {}
  lemma StableCount35() ensures BirthAgreesAt((8, 3), STABLE, STABLE) {}
  lemma StableCount36() ensures BirthAgreesAt((5, 4), STABLE, STABLE) {}
  lemma StableCount37() ensures BirthAgreesAt((6, 4), STABLE, STABLE) {}
  lemma StableCount38() ensures BirthAgreesAt((7, 4), STABLE, STABLE) {}

  lemma StableAt1() ensures Agrees((1, 1), STABLE, STABLE) { StableCount1(); StableCount12(); StableCount18(); StableCount23(); StableCount10(); StableCount11(); }
  lemma StableAt2() ensures Agrees((2, 1), STABLE, STABLE) { StableCount2(); StableCount19(); StableCount24(); StableCount13(); StableCount11(); StableCount12(); }
  lemma StableAt3() ensures Agrees((5, 1), STABLE, STABLE) { StableCount3(); StableCount26(); StableCount16(); StableCount20(); StableCount25(); StableCount14(); StableCount15(); }
  lemma StableAt4() ensures Agrees((6, 1), STABLE, STABLE) { StableCount4(); StableCount21(); StableCount17(); StableCount15(); StableCount26(); StableCount16(); }
  lemma StableAt5() ensures Agrees((1, 2), STABLE, STABLE) { StableCount5(); StableCount30(); StableCount23(); StableCount28(); StableCount18(); StableCount29(); }
  lemma StableAt6() ensures Agrees((2, 2), STABLE, STABLE) { StableCount6(); StableCount24(); StableCount31(); StableCount19(); StableCount29(); StableCount30(); }
  lemma StableAt7() ensures Agrees((5, 2), STABLE, STABLE) { StableCount7(); StableCount26(); StableCount25(); StableCount32(); StableCount20(); StableCount33(); }
  lemma StableAt8() ensures Agrees((7, 2), STABLE, STABLE) { StableCount8(); StableCount27(); StableCount35(); StableCount22(); StableCount26(); StableCount34(); StableCount21(); }
  lemma StableAt9() ensures Agrees((6, 3), STABLE, STABLE) { StableCount9(); StableCount34(); StableCount38(); StableCount33(); StableCount36(); StableCount37(); StableCount26(); }

  /** A point that agrees, in front of a list whose points all agree. */
  lemma AllAgreeCons(p: Point, qs: seq<Point>, ps: set<Point>, rs: set<Point>)
    requires Agrees(p, ps, rs) && AllAgree(qs, ps, rs)
    ensures AllAgree([p] + qs, ps, rs)
  {
    assert ([p] + qs)[1..] == qs;
  }

  /*
   * The live points of the block and the boat agree with the rule, gathered
   * one point at a time from the end of the list, so that each lemma needs
   * the counts around one point only.
   */
  lemma StableAgreesFrom9()
    ensures AllAgree([(6, 3)], STABLE, STABLE)
  {
    StableAt9();
    AllAgreeCons((6, 3), [], STABLE, STABLE);
  }

  lemma StableAgreesFrom8()
    ensures AllAgree([(7, 2), (6, 3)], STABLE, STABLE)
  {
    StableAgreesFrom9();
    StableAt8();
    AllAgreeCons((7, 2), [(6, 3)], STABLE, STABLE);
  }

  lemma StableAgreesFrom7()
    ensures AllAgree([(5, 2), (7, 2), (6, 3)], STABLE, STABLE)
  {
    StableAgreesFrom8();
    StableAt7();
    AllAgreeCons((5, 2), [(7, 2), (6, 3)], STABLE, STABLE);
  }

  lemma StableAgreesFrom6()
    ensures AllAgree([(2, 2), (5, 2), (7, 2), (6, 3)], STABLE, STABLE)
  {
    StableAgreesFrom7();
    StableAt6();
    AllAgreeCons((2, 2), [(5, 2), (7, 2), (6, 3)], STABLE, STABLE);
  }

  lemma StableAgreesFrom5()
    ensures AllAgree([(1, 2), (2, 2), (5, 2), (7, 2), (6, 3)], STABLE, STABLE)
  {
    StableAgreesFrom6();
    StableAt5();
    AllAgreeCons((1, 2), [(2, 2), (5, 2), (7, 2), (6, 3)], STABLE, STABLE);
  }

  lemma StableAgreesFrom4()
    ensures AllAgree([(6, 1), (1, 2), (2, 2), (5, 2), (7, 2), (6, 3)], STABLE, STABLE)
  {
    StableAgreesFrom5();
    StableAt4();
    AllAgreeCons((6, 1), [(1, 2), (2, 2), (5, 2), (7, 2), (6, 3)], STABLE, STABLE);
  }

  lemma StableAgreesFrom3()
    ensures AllAgree([(5, 1), (6, 1), (1, 2), (2, 2), (5, 2), (7, 2), (6, 3)], STABLE, STABLE)
  {
    StableAgreesFrom4();
    StableAt3();
    AllAgreeCons((5, 1), [(6, 1), (1, 2), (2, 2), (5, 2), (7, 2), (6, 3)], STABLE, STABLE);
  }

  lemma StableAgreesFrom2()
    ensures AllAgree([(2, 1), (5, 1), (6, 1), (1, 2), (2, 2), (5, 2), (7, 2), (6, 3)], STABLE, STABLE)
  {
    StableAgreesFrom3();
    StableAt2();
    AllAgreeCons((2, 1), [(5, 1), (6, 1), (1, 2), (2, 2), (5, 2), (7, 2), (6, 3)], STABLE, STABLE);
  }

  lemma StableAgrees()
    ensures AllAgree([(1, 1), (2, 1), (5, 1), (6, 1), (1, 2), (2, 2), (5, 2), (7, 2), (6, 3)], STABLE, STABLE)
  {
    StableAgreesFrom2();
    StableAt1();
    AllAgreeCons((1, 1), [(2, 1), (5, 1), (6, 1), (1, 2), (2, 2), (5, 2), (7, 2), (6, 3)], STABLE, STABLE);
  }

  /** A point set with one point embeds as the one coordinate. */
  lemma EmbedOne(p: Point)
    ensures EmbedSet({p}) == {Embed(p)}
  {
  }

  /** A point set with three points embeds as the three coordinates. */
  lemma EmbedThree(p: Point, q: Point, t: Point)
    ensures EmbedSet({p, q, t}) == {Embed(p), Embed(q), Embed(t)}
  {
  }

  /** A lone cell at the origin dies in one generation. */
  lemma LoneCellDies()
    ensures Step({[0, 0, 0]}, N8, LOWER, UPPER) == {}
  {
    LoneAgrees();
    StepFromCount2([(0, 0)], LONE, {});
    EmbedOne((0, 0));
    assert EmbedSet({}) == {};
  }

  lemma VerticalToHorizontal()
    ensures Step(EmbedSet(VERTICAL), N8, LOWER, UPPER) == EmbedSet(HORIZONTAL)
  {
    VerticalAgrees();
    assert (-1, 0) in Around2((0, 0)) && (1, 0) in Around2((0, 0));
    StepFromCount2([(0, -1), (0, 0), (0, 1)], VERTICAL, HORIZONTAL);
  }

  lemma HorizontalToVertical()
    ensures Step(EmbedSet(HORIZONTAL), N8, LOWER, UPPER) == EmbedSet(VERTICAL)
  {
    HorizontalAgrees();
    assert (0, -1) in Around2((0, 0)) && (0, 1) in Around2((0, 0));
    StepFromCount2([(-1, 0), (0, 0), (1, 0)], HORIZONTAL, VERTICAL);
  }

  lemma VerticalSize()
    ensures |VERTICAL| == 3 && |HORIZONTAL| == 3
  {
  }

  /** The blinker: a vertical line of three cells. */
  const BLINKER: set<Vector> := {[0, 0, -1], [0, 0, 0], [0, 0, 1]}
  /** The blinker after one generation: a horizontal line of three cells. */
  const BLINKER_TURNED: set<Vector> := {[-1, 0, 0], [0, 0, 0], [1, 0, 0]}

  lemma BlinkerCoordinates()
    ensures EmbedSet(VERTICAL) == BLINKER && EmbedSet(HORIZONTAL) == BLINKER_TURNED
    ensures |BLINKER| == 3 && |BLINKER_TURNED| == 3
  {
    EmbedThree((0, -1), (0, 0), (0, 1));
    EmbedThree((-1, 0), (0, 0), (1, 0));
    VerticalSize();
    EmbedSetSize(VERTICAL);
    EmbedSetSize(HORIZONTAL);
  }

  /** The blinker turns horizontal in one generation and back in the next. */
  lemma BlinkerTurns()
    ensures Step(BLINKER, N8, LOWER, UPPER) == BLINKER_TURNED
    ensures Step(BLINKER_TURNED, N8, LOWER, UPPER) == BLINKER
  {
    BlinkerCoordinates();
    VerticalToHorizontal();
    HorizontalToVertical();
  }

  /**
   * The blinker turns on every tick and turns back on the next, so after
   * n ticks it is horizontal when n is odd and vertical when n is even,
   * with three cells either way.
   */
  lemma BlinkerOscillates(n: nat)
    ensures n % 2 == 1 ==> Iterate(BLINKER, N8, LOWER, UPPER, n) == BLINKER_TURNED
    ensures n % 2 == 0 ==> Iterate(BLINKER, N8, LOWER, UPPER, n) == BLINKER
  {
    BlinkerTurns();
    BlinkerCoordinates();
    OscillatesForever(BLINKER, BLINKER_TURNED, N8, LOWER, UPPER, n);
  }

  /** The blinker keeps a population of three on every tick. */
  lemma BlinkerPopulation(n: nat)
    ensures |Iterate(BLINKER, N8, LOWER, UPPER, n)| == 3
  {
    BlinkerOscillates(n);
    BlinkerCoordinates();
    if n % 2 == 0 {
      assert Iterate(BLINKER, N8, LOWER, UPPER, n) == BLINKER;
    } else {
      assert Iterate(BLINKER, N8, LOWER, UPPER, n) == BLINKER_TURNED;
    }
  }

  /** The block and the boat, as the coordinates a client adds one by one. */
  const BLOCK_AND_BOAT: set<Vector> :=
    {[1, 0, 1], [2, 0, 1], [1, 0, 2], [2, 0, 2], [5, 0, 1], [5, 0, 2], [6, 0, 1], [6, 0, 3], [7, 0, 2]}

  /** Adding the nine coordinates one by one to an empty world gives the block and the boat. */
  lemma BlockAndBoatAdded()
    ensures {} + {[1, 0, 1]} + {[2, 0, 1]} + {[1, 0, 2]} + {[2, 0, 2]} + {[5, 0, 1]} + {[5, 0, 2]} + {[6, 0, 1]} + {[6, 0, 3]} + {[7, 0, 2]}
         == BLOCK_AND_BOAT
  {
  }

  /** Embedding distributes over union. */
  lemma EmbedUnion(a: set<Point>, b: set<Point>)
    ensures EmbedSet(a + b) == EmbedSet(a) + EmbedSet(b)
  {
  }

  lemma StableCoordinates()
    ensures EmbedSet(STABLE) == BLOCK_AND_BOAT && |BLOCK_AND_BOAT| == 9
  {
    StableSize();
    EmbedSetSize(STABLE);
    var a, b, c := {(1, 1), (2, 1), (1, 2)}, {(2, 2), (5, 1), (5, 2)}, {(6, 1), (6, 3), (7, 2)};
    assert STABLE == a + b + c;
    EmbedUnion(a + b, c);
    EmbedUnion(a, b);
    EmbedThree((1, 1), (2, 1), (1, 2));
    EmbedThree((2, 2), (5, 1), (5, 2));
    EmbedThree((6, 1), (6, 3), (7, 2));
  }

  lemma StableSize()
    ensures |STABLE| == 9
  {
  }

  lemma StableIsFixed()
    ensures Step(EmbedSet(STABLE), N8, LOWER, UPPER) == EmbedSet(STABLE)
  {
    StableAgrees();
    StepFromCount2([(1, 1), (2, 1), (5, 1), (6, 1), (1, 2), (2, 2), (5, 2), (7, 2), (6, 3)], STABLE, STABLE);
  }

  /** The block and the boat are still lifes: nine cells, unchanged after any number of ticks. */
  lemma StableForever(n: nat)
    ensures Iterate(EmbedSet(STABLE), N8, LOWER, UPPER, n) == EmbedSet(STABLE)
    ensures |Iterate(EmbedSet(STABLE), N8, LOWER, UPPER, n)| == 9
  {
    StableIsFixed();
    FixedPointForever(EmbedSet(STABLE), N8, LOWER, UPPER, n);
    StableSize();
    EmbedSetSize(STABLE);
  }

  /** The block and the boat, written as coordinates, are left unchanged by a tick. */
  lemma BlockAndBoatIsFixed()
    ensures Step(BLOCK_AND_BOAT, N8, LOWER, UPPER) == BLOCK_AND_BOAT
    ensures |BLOCK_AND_BOAT| == 9
  {
    StableIsFixed();
    StableCoordinates();
  }
}

/**
 * The compiled-in bounds of the world manager, lower 1 and upper 4, do not
 * give the rule the comment on its tick describes (born with 3 live
 * neighbours, survive with 2 or 3). Next to the blinker, the cell left of
 * its middle has 3 live neighbours: under the Game of Life bounds it is
 * born, under the compiled-in bounds it is not.
 */
module DefaultBounds {
  import opened Vectors
  import opened Neighbourhood
  import opened CellularRule
  import opened GameOfLifeScenarios
  import World

  /** The point left of the vertical line's middle has three live neighbours in the plane. */
  lemma VerticalLeftCount()
    ensures Count2((-1, 0), VERTICAL) == 3
  {
  }

  /** The cell left of the blinker's middle has three live neighbours. */
  lemma BlinkerLeftCount()
    ensures NeighbourCount([-1, 0, 0], BLINKER, N8) == 3
  {
    RepresentsEmbedSet(VERTICAL);
    Count2Correct((-1, 0), EmbedSet(VERTICAL), VERTICAL);
    VerticalLeftCount();
    BlinkerCoordinates();
  }

  /** Under the compiled-in bounds a dead cell with three live neighbours is not born. */
  lemma DefaultBoundsNoBirth()
    ensures [-1, 0, 0] !in Step(BLINKER, N8, World.LOWER_CELL_BOUND, World.UPPER_CELL_BOUND)
  {
    BlinkerLeftCount();
    assert [-1, 0, 0] !in BLINKER;
    BornIff([-1, 0, 0], BLINKER, N8, World.LOWER_CELL_BOUND, World.UPPER_CELL_BOUND);
  }

  lemma DefaultBoundsAreNotConway()
    ensures NeighbourCount([-1, 0, 0], BLINKER, N8) == 3
    ensures [-1, 0, 0] in Step(BLINKER, N8, LOWER, UPPER)
    ensures [-1, 0, 0] !in Step(BLINKER, N8, World.LOWER_CELL_BOUND, World.UPPER_CELL_BOUND)
  {
    BlinkerLeftCount();
    BlinkerTurns();
    DefaultBoundsNoBirth();
  }
}
