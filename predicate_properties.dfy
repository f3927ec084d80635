/**
  What the sweep algorithm relies on from the predicate layer: the sort key
  is a strict total order on boxes with distinct identifiers, intersection is
  symmetric and means "the two extents share a point", and the topology
  decides what happens at shared boundaries.
 */
module PredicateProperties {
  import opened BoxTraits
  import opened PredicateTraits

  // ---------------------------------------------------------------------------
  // The topology switch

  /** Closed differs from half-open exactly when the bound equals the value. */
  lemma HiGreaterClosedVsHalfOpen(hi: int, val: int)
    ensures HiGreater(true, hi, val) <==> HiGreater(false, hi, val) || hi == val
    ensures HiGreater(false, hi, val) ==> HiGreater(true, hi, val)
  {
  }

  // ---------------------------------------------------------------------------
  // The sort key (lower coordinate, then identifier)

  /**
    The tie-break reading the sort key does NOT have: `&&` binds tighter than
    `||`, so the identifier decides only when the lower coordinates are equal.
    Grouping the disjunction first would make the identifier decide always.
   */
  predicate MisgroupedLoLessLo(a: Box, b: Box, dim: int)
    requires 0 <= dim < Dimension(a) && dim < Dimension(b)
  {
    (MinCoord(a, dim) < MinCoord(b, dim) || MinCoord(a, dim) == MinCoord(b, dim)) && Id(a) < Id(b)
  }

  /**
    The sort key and the misgrouped reading disagree exactly on pairs where `a`
    starts strictly lower but does not have the smaller identifier; there the
    sort key puts `a` first.
   */
  lemma IsLoLessLoPrecedence(a: Box, b: Box, dim: int)
    requires 0 <= dim < Dimension(a) && dim < Dimension(b)
    ensures (IsLoLessLo(a, b, dim) != MisgroupedLoLessLo(a, b, dim)) <==>
              MinCoord(a, dim) < MinCoord(b, dim) && Id(b) <= Id(a)
    ensures (IsLoLessLo(a, b, dim) != MisgroupedLoLessLo(a, b, dim)) ==> IsLoLessLo(a, b, dim)
  {
  }

  lemma IsLoLessLoIrreflexive(a: Box, dim: int)
    requires 0 <= dim < Dimension(a)
    ensures !IsLoLessLo(a, a, dim)
  {
  }

  lemma IsLoLessLoAsymmetric(a: Box, b: Box, dim: int)
    requires 0 <= dim < Dimension(a) && dim < Dimension(b)
    ensures IsLoLessLo(a, b, dim) ==> !IsLoLessLo(b, a, dim)
  {
  }

  lemma IsLoLessLoTransitive(a: Box, b: Box, c: Box, dim: int)
    requires 0 <= dim < Dimension(a) && dim < Dimension(b) && dim < Dimension(c)
    requires IsLoLessLo(a, b, dim) && IsLoLessLo(b, c, dim)
    ensures IsLoLessLo(a, c, dim)
  {
  }

  /**
    Boxes with distinct identifiers are always ordered one way or the other,
    never both; two boxes with the same identifier and the same lower
    coordinate are ordered neither way.
   */
  lemma IsLoLessLoTrichotomy(a: Box, b: Box, dim: int)
    requires 0 <= dim < Dimension(a) && dim < Dimension(b)
    ensures Id(a) != Id(b) ==> (IsLoLessLo(a, b, dim) != IsLoLessLo(b, a, dim))
    ensures (IsLoLessLo(a, b, dim) || IsLoLessLo(b, a, dim)) <==>
              (MinCoord(a, dim) != MinCoord(b, dim) || Id(a) != Id(b))
  {
  }

  /** Every box of `boxes` has dimension `dim` and no two share an identifier. */
  ghost predicate SweepSet(boxes: set<Box>, dim: int) {
    && (forall x | x in boxes :: 0 <= dim < Dimension(x))
    && (forall x, y | x in boxes && y in boxes && x != y :: Id(x) != Id(y))
  }

  /** The comparator is a strict total order on a sweep set. */
  ghost predicate StrictTotalOrderOn(c: CompareFunctor, boxes: set<Box>)
    requires forall x | x in boxes :: 0 <= c.dim < Dimension(x)
  {
    && (forall x | x in boxes :: !c.Apply(x, x))
    && (forall x, y | x in boxes && y in boxes :: c.Apply(x, y) ==> !c.Apply(y, x))
    && (forall x, y, z | x in boxes && y in boxes && z in boxes ::
          c.Apply(x, y) && c.Apply(y, z) ==> c.Apply(x, z))
    && (forall x, y | x in boxes && y in boxes && x != y :: c.Apply(x, y) || c.Apply(y, x))
  }

  /** `CompareObject(dim)` is a strict total order on every sweep set. */
  lemma CompareObjectStrictTotalOrder(boxes: set<Box>, dim: int)
    requires SweepSet(boxes, dim)
    ensures StrictTotalOrderOn(CompareObject(dim), boxes)
  {
    var c := CompareObject(dim);
    forall x, y, z | x in boxes && y in boxes && z in boxes && c.Apply(x, y) && c.Apply(y, z)
      ensures c.Apply(x, z)
    {
      IsLoLessLoTransitive(x, y, z, dim);
    }
    forall x, y | x in boxes && y in boxes && x != y
      ensures c.Apply(x, y) || c.Apply(y, x)
    {
      IsLoLessLoTrichotomy(x, y, dim);
    }
  }

  // ---------------------------------------------------------------------------
  // Sequences sorted by the comparator, as the sweep processes them

  /** Every box reaches `dim`, and each box precedes its successor. */
  predicate SortedAlong(s: seq<Box>, dim: int) {
    && (forall i | 0 <= i < |s| :: 0 <= dim < Dimension(s[i]))
    && (forall i | 0 <= i < |s| - 1 :: IsLoLessLo(s[i], s[i + 1], dim))
  }

  /** Sorted by neighbours means sorted by every pair. */
  lemma {:induction false} SortedAlongChain(s: seq<Box>, dim: int)
    requires SortedAlong(s, dim)
    ensures forall i, j | 0 <= i < j < |s| :: IsLoLessLo(s[i], s[j], dim)
  {
    if |s| > 1 {
      var n := |s| - 1;
      var t := s[..n];
      assert forall i | 0 <= i < |t| :: t[i] == s[i];
      assert SortedAlong(t, dim) by {
        forall i | 0 <= i < |t| ensures 0 <= dim < Dimension(t[i]) {
          assert t[i] == s[i];
        }
        forall i | 0 <= i < |t| - 1 ensures IsLoLessLo(t[i], t[i + 1], dim) {
          assert t[i] == s[i] && t[i + 1] == s[i + 1];
        }
      }
      SortedAlongChain(t, dim);
      forall i, j | 0 <= i < j < |s| ensures IsLoLessLo(s[i], s[j], dim) {
        if j < n {
          assert s[i] == t[i] && s[j] == t[j];
        } else if i < n - 1 {
          assert IsLoLessLo(t[i], t[n - 1], dim);
          IsLoLessLoTransitive(s[i], s[n - 1], s[n], dim);
        }
      }
    }
  }

  /** A sorted sequence holds no box twice. */
  lemma SortedAlongDistinct(s: seq<Box>, dim: int)
    requires SortedAlong(s, dim)
    ensures forall i, j | 0 <= i < j < |s| :: s[i] != s[j]
  {
    SortedAlongChain(s, dim);
  }

  /**
    In a sorted sequence the boxes accepted by `LoLessObject(value, dim)`
    form a prefix, so the sweep can split the sequence at one index.
   */
  lemma LoLessHoldsOnPrefix(s: seq<Box>, value: int, dim: int)
    requires SortedAlong(s, dim)
    ensures forall i, j | 0 <= i < j < |s| ::
              LoLessObject(value, dim).Apply(s[j]) ==> LoLessObject(value, dim).Apply(s[i])
  {
    SortedAlongChain(s, dim);
  }

  // ---------------------------------------------------------------------------
  // Intersection

  lemma DoesIntersectSymmetric(closed: bool, a: Box, b: Box, dim: int)
    requires 0 <= dim < Dimension(a) && dim < Dimension(b)
    ensures DoesIntersect(closed, a, b, dim) == DoesIntersect(closed, b, a, dim)
  {
  }

  /**
    For well-formed boxes (non-empty ones under the half-open topology), the
    intersection test holds exactly when the two extents share a point.
   */
  lemma DoesIntersectIffCommonPoint(closed: bool, a: Box, b: Box, dim: int)
    requires 0 <= dim < Dimension(a) && dim < Dimension(b)
    requires WellFormed(a) && WellFormed(b)
    requires !closed ==> MinCoord(a, dim) < MaxCoord(a, dim) && MinCoord(b, dim) < MaxCoord(b, dim)
    ensures DoesIntersect(closed, a, b, dim) <==>
              exists x :: InExtent(closed, x, MinCoord(a, dim), MaxCoord(a, dim)) &&
                          InExtent(closed, x, MinCoord(b, dim), MaxCoord(b, dim))
  {
    var la, ha, lb, hb := MinCoord(a, dim), MaxCoord(a, dim), MinCoord(b, dim), MaxCoord(b, dim);
    if DoesIntersect(closed, a, b, dim) {
      var x := if la <= lb then lb else la;
      assert InExtent(closed, x, la, ha) && InExtent(closed, x, lb, hb);
    }
  }

  /**
    Boxes that touch at one coordinate (the upper end of `a` is the lower end
    of `b`) intersect under the closed topology and not under the half-open one.
   */
  lemma TouchingBoxes(closed: bool, a: Box, b: Box, dim: int)
    requires 0 <= dim < Dimension(a) && dim < Dimension(b)
    requires WellFormed(a) && WellFormed(b)
    requires MaxCoord(a, dim) == MinCoord(b, dim)
    ensures DoesIntersect(closed, a, b, dim) == closed
  {
  }

  /**
    A box meets itself under the closed topology whenever it is not reversed;
    under the half-open topology only when it has positive width.
   */
  lemma SelfIntersection(closed: bool, a: Box, dim: int)
    requires 0 <= dim < Dimension(a)
    ensures DoesIntersect(closed, a, a, dim) <==>
              if closed then MinCoord(a, dim) <= MaxCoord(a, dim)
              else MinCoord(a, dim) < MaxCoord(a, dim)
    ensures closed && WellFormed(a) ==> DoesIntersect(closed, a, a, dim)
  {
  }

  /**
    Under the half-open topology a box of width zero at `x` holds no point,
    yet it intersects every box whose extent has `x` strictly inside; this is
    not point-set overlap.
   */
  lemma ZeroWidthHalfOpen(a: Box, b: Box, dim: int)
    requires 0 <= dim < Dimension(a) && dim < Dimension(b)
    requires MinCoord(a, dim) == MaxCoord(a, dim)
    ensures forall x :: !InExtent(false, x, MinCoord(a, dim), MaxCoord(a, dim))
    ensures DoesIntersect(false, a, b, dim) <==>
              MinCoord(b, dim) < MinCoord(a, dim) < MaxCoord(b, dim)
  {
  }

  /**
    If `b`'s lower point lies in `a`'s extent (with `a` first in sweep order),
    the boxes intersect, provided `b` is well formed and, under the half-open
    topology, has positive width.
   */
  lemma ContainsLoPointImpliesIntersect(closed: bool, a: Box, b: Box, dim: int)
    requires 0 <= dim < Dimension(a) && dim < Dimension(b)
    requires WellFormed(b)
    requires !closed ==> MinCoord(b, dim) < MaxCoord(b, dim)
    requires ContainsLoPoint(closed, a, b, dim)
    ensures DoesIntersect(closed, a, b, dim)
  {
  }

  // ---------------------------------------------------------------------------
  // The unary functors

  /** `LoLessObject` ignores the topology and compares strictly. */
  lemma LoLessObjectStrict(value: int, dim: int, box: Box)
    requires 0 <= dim < Dimension(box)
    ensures MinCoord(box, dim) == value ==> !LoLessObject(value, dim).Apply(box)
  {
  }

  /** The two topologies give different `HiGreaterObject` answers exactly at the bound. */
  lemma HiGreaterObjectTopology(value: int, dim: int, box: Box)
    requires 0 <= dim < Dimension(box)
    ensures (HiGreaterObject(true, value, dim).Apply(box) != HiGreaterObject(false, value, dim).Apply(box))
              <==> MaxCoord(box, dim) == value
  {
  }

  /**
    `SpanningObject` is strict on both sides: a box starting at `lo` or ending
    at `hi` does not span. A spanning box holds every point from `lo` to `hi`
    strictly inside its extent, under either topology.
   */
  lemma SpanningObjectStrict(closed: bool, lo: int, hi: int, dim: int, box: Box)
    requires 0 <= dim < Dimension(box)
    ensures MinCoord(box, dim) == lo ==> !SpanningObject(lo, hi, dim).Apply(box)
    ensures MaxCoord(box, dim) == hi ==> !SpanningObject(lo, hi, dim).Apply(box)
    ensures SpanningObject(lo, hi, dim).Apply(box) ==>
              forall x :: lo <= x <= hi ==>
                InExtent(closed, x, MinCoord(box, dim), MaxCoord(box, dim)) &&
                MinCoord(box, dim) < x
  {
  }
}
