/**
  The predicate layer of the d-dimensional box-intersection package,
  parameterised by the interval topology: `closed` is true for closed
  intervals [lo, hi] and false for half-open intervals [lo, hi).

  `HiGreater` is the one place where the topology changes a result; the
  intersection tests are built on it. The ordering `IsLoLessLo` and the
  functors `LoLessFunctor` and `SpanningFunctor` do not consult the topology.
 */
module PredicateTraits {
  import opened BoxTraits

  /** Point-set meaning of an interval under a topology: does `x` lie in it? */
  predicate InExtent(closed: bool, x: int, lo: int, hi: int) {
    lo <= x && (if closed then x <= hi else x < hi)
  }

  /**
    The topology switch: `>=` when closed, `>` when half-open. Its meaning:
    `val` lies in every interval ending at `hi` that starts at or below `val`.
   */
  function HiGreater(closed: bool, hi: int, val: int): (r: bool)
    ensures forall lo :: lo <= val ==> (r <==> InExtent(closed, val, lo, hi))
  {
    if closed then hi >= val else hi > val
  }

  /**
    The per-dimension sort key: lower coordinate, ties broken by identifier.
    Sorting by it sorts by lower coordinate.
   */
  function IsLoLessLo(a: Box, b: Box, dim: int): (r: bool)
    requires 0 <= dim < Dimension(a) && dim < Dimension(b)
    ensures r ==> MinCoord(a, dim) <= MinCoord(b, dim)
    ensures MinCoord(a, dim) < MinCoord(b, dim) ==> r
  {
    MinCoord(a, dim) < MinCoord(b, dim) ||
    (MinCoord(a, dim) == MinCoord(b, dim) && Id(a) < Id(b))
  }

  /**
    Does the lower end of `a` fall below the upper end of `b` (under the
    topology)? When `b` starts at or below `a`, this is exactly "the lower
    point of `a` lies in `b`'s extent".
   */
  function IsLoLessHi(closed: bool, a: Box, b: Box, dim: int): (r: bool)
    requires 0 <= dim < Dimension(a) && dim < Dimension(b)
    ensures MinCoord(b, dim) <= MinCoord(a, dim) ==>
              (r <==> InExtent(closed, MinCoord(a, dim), MinCoord(b, dim), MaxCoord(b, dim)))
  {
    HiGreater(closed, MaxCoord(b, dim), MinCoord(a, dim))
  }

  /** Do the projections of `a` and `b` on `dim` overlap under the topology? */
  function DoesIntersect(closed: bool, a: Box, b: Box, dim: int): (r: bool)
    requires 0 <= dim < Dimension(a) && dim < Dimension(b)
    ensures r ==> IsLoLessHi(closed, a, b, dim)
  {
    IsLoLessHi(closed, a, b, dim) && IsLoLessHi(closed, b, a, dim)
  }

  /**
    Does `a` precede `b` in the sweep order while `b`'s lower point lies
    inside `a`'s extent?
   */
  function ContainsLoPoint(closed: bool, a: Box, b: Box, dim: int): (r: bool)
    requires 0 <= dim < Dimension(a) && dim < Dimension(b)
    ensures r <==> IsLoLessLo(a, b, dim) &&
                   InExtent(closed, MinCoord(b, dim), MinCoord(a, dim), MaxCoord(a, dim))
  {
    IsLoLessLo(a, b, dim) && IsLoLessHi(closed, b, a, dim)
  }

  // ---------------------------------------------------------------------------
  // Function objects: each captures a dimension and, for three of them, a
  // threshold or a range, and is applied to boxes later.

  /** Binary comparator bound to one dimension. */
  datatype CompareFunctor = CompareFunctor(dim: int) {
    function Apply(a: Box, b: Box): bool
      requires 0 <= dim < Dimension(a) && dim < Dimension(b)
    {
      IsLoLessLo(a, b, dim)
    }
  }

  /** Holds of boxes whose lower end is strictly below `value`. */
  datatype LoLessFunctor = LoLessFunctor(value: int, dim: int) {
    function Apply(box: Box): bool
      requires 0 <= dim < Dimension(box)
    {
      MinCoord(box, dim) < value
    }
  }

  /** Holds of boxes whose upper end is above `value`, under the topology. */
  datatype HiGreaterFunctor = HiGreaterFunctor(closed: bool, value: int, dim: int) {
    function Apply(box: Box): bool
      requires 0 <= dim < Dimension(box)
    {
      HiGreater(closed, MaxCoord(box, dim), value)
    }
  }

  /** Holds of boxes that strictly span the range from `lo` to `hi`. */
  datatype SpanningFunctor = SpanningFunctor(lo: int, hi: int, dim: int) {
    function Apply(box: Box): bool
      requires 0 <= dim < Dimension(box)
    {
      MinCoord(box, dim) < lo && MaxCoord(box, dim) > hi
    }
  }

  /** The comparator the sweep sorts with: exactly the sort key on `dim`. */
  function CompareObject(dim: int): (c: CompareFunctor)
    ensures c.dim == dim
    ensures forall a: Box, b: Box | 0 <= dim < Dimension(a) && dim < Dimension(b) ::
              c.Apply(a, b) == IsLoLessLo(a, b, dim)
  {
    CompareFunctor(dim)
  }

  /** Builds the test "lower end strictly below `value`", whatever the topology. */
  function LoLessObject(value: int, dim: int): (f: LoLessFunctor)
    ensures f.dim == dim
    ensures forall box: Box | 0 <= dim < Dimension(box) ::
              f.Apply(box) <==> MinCoord(box, dim) < value
  {
    LoLessFunctor(value, dim)
  }

  /** Builds the test "upper end above `value`" under the topology. */
  function HiGreaterObject(closed: bool, value: int, dim: int): (f: HiGreaterFunctor)
    ensures f.dim == dim
    ensures forall box: Box | 0 <= dim < Dimension(box) ::
              f.Apply(box) == HiGreater(closed, MaxCoord(box, dim), value)
  {
    HiGreaterFunctor(closed, value, dim)
  }

  /** Builds the test "starts strictly below `lo`, ends strictly above `hi`", whatever the topology. */
  function SpanningObject(lo: int, hi: int, dim: int): (f: SpanningFunctor)
    ensures f.dim == dim
    ensures forall box: Box | 0 <= dim < Dimension(box) ::
              f.Apply(box) <==> MinCoord(box, dim) < lo && MaxCoord(box, dim) > hi
  {
    SpanningFunctor(lo, hi, dim)
  }
}
