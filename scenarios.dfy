/**
  Concrete boxes on dimension 0: A = [0, 5], B = [5, 10], C = [6, 8]; two
  boxes sharing the lower coordinate 2 that only their identifiers order; a
  pair that shows the grouping of the tie-break; and a box the spanning test
  rejects although it holds the whole half-open range.
 */
module Scenarios {
  import opened BoxTraits
  import opened PredicateTraits
  import PredicateProperties

  const A: Box := BoxRep([0], [5], 1)
  const B: Box := BoxRep([5], [10], 2)
  const C: Box := BoxRep([6], [8], 3)

  const P: Box := BoxRep([2], [4], 1)
  const Q: Box := BoxRep([2], [7], 2)

  /** Half-open: A and B only touch, B holds C, A and C are apart. */
  lemma HalfOpenScenario()
    ensures !DoesIntersect(false, A, B, 0)
    ensures DoesIntersect(false, B, C, 0)
    ensures !DoesIntersect(false, A, C, 0)
  {
  }

  /** Closed: only the touching pair A, B changes, to intersecting. */
  lemma ClosedScenario()
    ensures DoesIntersect(true, A, B, 0)
    ensures DoesIntersect(true, B, C, 0)
    ensures !DoesIntersect(true, A, C, 0)
  {
  }

  const X: Box := BoxRep([1], [3], 2)
  const Y: Box := BoxRep([2], [3], 1)
  const Z: Box := BoxRep([0], [5], 4)

  /**
    Lower coordinates 1 < 2 with identifiers 2 > 1: the sort key puts X
    first, the misgrouped reading of the tie-break would not.
   */
  lemma PrecedenceScenario()
    ensures IsLoLessLo(X, Y, 0)
    ensures !PredicateProperties.MisgroupedLoLessLo(X, Y, 0)
  {
  }

  /**
    Z = [0, 5) holds every point of [0, 4), yet the spanning test built for
    lo = 0, hi = 4 rejects it, because it requires a lower end strictly
    below `lo`: "spans [lo, hi)" holds only in the direction test ==> span.
   */
  lemma SpanningStricterThanHalfOpenRange()
    ensures forall x :: 0 <= x < 4 ==> InExtent(false, x, MinCoord(Z, 0), MaxCoord(Z, 0))
    ensures !SpanningObject(0, 4, 0).Apply(Z)
  {
  }

  /** Equal lower coordinates: the smaller identifier comes first. */
  lemma TieBreakScenario()
    ensures IsLoLessLo(P, Q, 0)
    ensures !IsLoLessLo(Q, P, 0)
  {
  }
}
