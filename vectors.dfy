/**
 * Lattice coordinates: integer vectors of a fixed dimension, compared
 * structurally and added component by component.
 */
module Vectors {

  /** A coordinate of the lattice; its length is the dimension. */
  type Vector = seq<int>

  /** The component-wise sum of two vectors of the same dimension. */
  function Add(a: Vector, b: Vector): (r: Vector)
    requires |a| == |b|
  {
    seq(|a|, i requires 0 <= i < |a| => a[i] + b[i])
  }

  /** The vector of dimension n whose components are all 0. */
  function ZeroVector(n: nat): (r: Vector)
  {
    seq(n, i => 0)
  }

  /** Adding a fixed vector is injective: distinct offsets land on distinct coordinates. */
  lemma AddCancel(c: Vector, o1: Vector, o2: Vector)
    requires |o1| == |c| && |o2| == |c|
    ensures Add(c, o1) == Add(c, o2) <==> o1 == o2
  {
    if Add(c, o1) == Add(c, o2) {
      forall i | 0 <= i < |c| ensures o1[i] == o2[i] {
        assert Add(c, o1)[i] == Add(c, o2)[i];
      }
    }
  }

  /** The zero vector is a right identity of Add. */
  lemma AddZero(c: Vector)
    ensures Add(c, ZeroVector(|c|)) == c
  {
  }

  /** Adding a 3-component offset to a 3-component coordinate, written out. */
  lemma Add3(c: Vector, x: int, y: int, z: int)
    requires |c| == 3
    ensures Add(c, [x, y, z]) == [c[0] + x, c[1] + y, c[2] + z]
  {
  }
}
