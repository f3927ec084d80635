/**
  The box accessor adapter of the d-dimensional box-intersection package.

  A box is an axis-aligned product of intervals, one per dimension, with a
  stable identifier. The adapter exposes exactly four reads: the lower and
  upper coordinate along a dimension, the identifier, and the dimension of
  the box family. The by-value, pointer and const-pointer adapters all
  forward these reads unchanged, so one box value type stands for all three.
  Coordinates (NT) and identifiers (ID) are exact integers.
 */
module BoxTraits {

  /** The raw box record: lower corners, upper corners, identifier. */
  datatype BoxRep = BoxRep(lo: seq<int>, hi: seq<int>, ident: int)

  /** Every box of a family has one lower and one upper bound per dimension. */
  type Box = b: BoxRep | |b.lo| == |b.hi| witness BoxRep([], [], 0)

  /** The number of dimensions of the box. */
  function Dimension(b: Box): (d: nat)
    ensures d == |b.lo| && d == |b.hi|
  {
    |b.lo|
  }

  /** The caller's invariant: no interval of the box is reversed. */
  predicate WellFormed(b: Box) {
    forall d :: 0 <= d < |b.lo| ==> b.lo[d] <= b.hi[d]
  }

  /** Lower bound of the box along `dim`; never above the upper bound of a well-formed box. */
  function MinCoord(b: Box, dim: int): (r: int)
    requires 0 <= dim < Dimension(b)
    ensures WellFormed(b) ==> r <= b.hi[dim]
  {
    b.lo[dim]
  }

  /** Upper bound of the box along `dim`; never below the lower bound of a well-formed box. */
  function MaxCoord(b: Box, dim: int): (r: int)
    requires 0 <= dim < Dimension(b)
    ensures WellFormed(b) ==> b.lo[dim] <= r
  {
    b.hi[dim]
  }

  /** The box's identifier, the tie-breaker of the ordering. */
  function Id(b: Box): int {
    b.ident
  }

  /**
    The adapter loses nothing: two boxes that agree on the dimension, on
    every coordinate read and on the identifier are the same box.
   */
  lemma AccessorsDetermineBox(a: Box, b: Box)
    requires Dimension(a) == Dimension(b)
    requires forall d :: 0 <= d < Dimension(a) ==> MinCoord(a, d) == MinCoord(b, d)
    requires forall d :: 0 <= d < Dimension(a) ==> MaxCoord(a, d) == MaxCoord(b, d)
    requires Id(a) == Id(b)
    ensures a == b
  {
    assert a.lo == b.lo by {
      forall d | 0 <= d < |a.lo| ensures a.lo[d] == b.lo[d] {
        assert MinCoord(a, d) == MinCoord(b, d);
      }
    }
    assert a.hi == b.hi by {
      forall d | 0 <= d < |a.hi| ensures a.hi[d] == b.hi[d] {
        assert MaxCoord(a, d) == MaxCoord(b, d);
      }
    }
  }
}
