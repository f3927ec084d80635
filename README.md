# Box traits and predicates of CGAL's d-dimensional box intersection

This project models the predicate kernel behind CGAL's box-intersection
sweep (`Box_intersection_d/Box_traits_d.h`). A box is an axis-aligned
d-dimensional box with an identifier. The kernel has two layers:

- **Box accessor adapter** (`Box_traits_d`), module `BoxTraits`. It gives the
  lower and upper coordinate along a dimension, the identifier and the
  dimension. The C++ file has three adapters: box by value, `Box_*` and
  `const Box_*`. All three forward these reads unchanged, so the model has a
  single value type, `Box`. It is a `BoxRep(lo, hi, ident)` whose `lo` and
  `hi` have the same length.
- **Predicate layer** (`Predicate_traits_d<BoxTraits, closed>`), module
  `PredicateTraits`. The template's `closed` flag becomes a `bool`
  parameter: `true` means closed intervals, `false` means half-open ones.
  `HiGreater` is the only topology switch. The layer also defines the sort
  key `IsLoLessLo`, the tests `IsLoLessHi`, `DoesIntersect` and
  `ContainsLoPoint`, and the four function objects with their factories.
  The function objects are `Compare`, `Lo_less`, `Hi_greater` and `Spanning`.
  They become the datatypes `CompareFunctor`, `LoLessFunctor`,
  `HiGreaterFunctor` and `SpanningFunctor`, each with an `Apply` member.
  In C++ every nested class belongs to a topology instantiation. Only
  `Hi_greater` reads the flag, so only `HiGreaterFunctor` stores it.

Module `PredicateProperties` proves what the sweep relies on:

- the sort key is a strict total order on boxes with distinct identifiers;
- a sequence sorted on neighbouring pairs is sorted on every pair, so the
  boxes accepted by `LoLessObject` form a prefix of it;
- intersection is symmetric;
- for non-empty extents, intersection means the two extents share a point;
- touching boxes intersect only under the closed topology.

Module `Scenarios` checks concrete boxes on dimension 0.

The coordinate type `NT` and the identifier type `ID` are modelled as
unbounded integers (`int`). A dimension index out of range is a caller
error that the C++ code never checks, so the model makes it a `requires`.

Under the half-open topology a box of width zero along `dim` does not
intersect itself: `hi > lo` fails when `hi == lo`
(`Box_traits_d.h:83,148,151`); `SelfIntersection` states this. Such a box
holds no point, yet it intersects every box that has its coordinate strictly
inside (`ZeroWidthHalfOpen`), so for zero-width boxes the half-open test is
not point-set overlap. `DoesIntersectIffCommonPoint` therefore asks for
positive width under the half-open topology.

The comment on `Spanning` (`Box_traits_d.h:125`) says the test holds exactly
when the box spans `[lo, hi)`. The code at line 127 is stricter: it asks for
`min < lo` and `max > hi`. So a spanning box does hold `[lo, hi)`
(`SpanningObjectStrict`), but a box such as `[0, 5)` holds all of `[0, 4)`
and is still rejected for `lo = 0, hi = 4`
(`SpanningStricterThanHalfOpenRange`). The model follows the code.

`Id` forwards the identifier unchanged (`Box_traits_d.h:44`) and has no
contract of its own; the identifier's role is stated by the ordering lemmas
and by `AccessorsDetermineBox`.

## Model

| member | source | states |
|---|---|---|
| BoxTraits.MinCoord | Packages/Box_intersection_d/include/CGAL/Box_intersection_d/Box_traits_d.h:42 | The lower coordinate along an in-range `dim`; for a well-formed box it is at most the upper coordinate |
| BoxTraits.MaxCoord | Packages/Box_intersection_d/include/CGAL/Box_intersection_d/Box_traits_d.h:43 | The upper coordinate along an in-range `dim`; for a well-formed box it is at least the lower coordinate |
| BoxTraits.Dimension | Packages/Box_intersection_d/include/CGAL/Box_intersection_d/Box_traits_d.h:45 | A box has the same number of lower and upper coordinates, and that number is its dimension |
| BoxTraits.AccessorsDetermineBox | Packages/Box_intersection_d/include/CGAL/Box_intersection_d/Box_traits_d.h:36-46 | Two boxes that agree on dimension, on every coordinate and on identifier are equal: the four reads expose the whole box |
| PredicateTraits.HiGreater | Packages/Box_intersection_d/include/CGAL/Box_intersection_d/Box_traits_d.h:82-86 | `HiGreater(closed, hi, val)` holds exactly when `val` lies in an interval ending at `hi` that starts at or below `val`, with the upper end included only when closed |
| PredicateTraits.IsLoLessLo | Packages/Box_intersection_d/include/CGAL/Box_intersection_d/Box_traits_d.h:142-145 | The sort key agrees with lower coordinates: a strictly smaller lower coordinate comes first, and a box that comes first never has a larger one |
| PredicateTraits.IsLoLessHi | Packages/Box_intersection_d/include/CGAL/Box_intersection_d/Box_traits_d.h:147-149 | When `b` starts at or below `a`, the result is exactly "a's lower point lies in b's extent" under the topology |
| PredicateTraits.DoesIntersect | Packages/Box_intersection_d/include/CGAL/Box_intersection_d/Box_traits_d.h:150-152 | An intersection implies `IsLoLessHi(a, b)`; its full meaning is proved in the lemmas below |
| PredicateTraits.ContainsLoPoint | Packages/Box_intersection_d/include/CGAL/Box_intersection_d/Box_traits_d.h:153-155 | Holds exactly when `a` precedes `b` in the sort order and b's lower point lies in a's extent under the topology |
| PredicateTraits.CompareObject | Packages/Box_intersection_d/include/CGAL/Box_intersection_d/Box_traits_d.h:89-96 | The comparator is bound to `dim` and returns exactly `IsLoLessLo(a, b, dim)` for every pair of boxes |
| PredicateTraits.LoLessObject | Packages/Box_intersection_d/include/CGAL/Box_intersection_d/Box_traits_d.h:99-107 | The test is bound to `dim` and accepts exactly the boxes whose lower coordinate is strictly below `value` |
| PredicateTraits.HiGreaterObject | Packages/Box_intersection_d/include/CGAL/Box_intersection_d/Box_traits_d.h:109-117 | The test is bound to `dim` and accepts exactly the boxes whose upper coordinate passes `HiGreater` against `value` under the topology |
| PredicateTraits.SpanningObject | Packages/Box_intersection_d/include/CGAL/Box_intersection_d/Box_traits_d.h:120-129 | The test is bound to `dim` and accepts exactly the boxes with lower coordinate `< lo` and upper coordinate `> hi` |
| PredicateProperties.HiGreaterClosedVsHalfOpen | Packages/Box_intersection_d/include/CGAL/Box_intersection_d/Box_traits_d.h:82-83 | Closed means half-open or `hi == val`; half-open implies closed |
| PredicateProperties.IsLoLessLoPrecedence | Packages/Box_intersection_d/include/CGAL/Box_intersection_d/Box_traits_d.h:143-144 | With `&&` binding tighter than `\|\|`, the identifier decides only on equal lower coordinates: the sort key and the misgrouped reading `(min(a) < min(b) \|\| min(a) == min(b)) && id(a) < id(b)` disagree exactly when `a` starts strictly lower without the smaller identifier, and then the sort key puts `a` first |
| PredicateProperties.IsLoLessLoIrreflexive | Packages/Box_intersection_d/include/CGAL/Box_intersection_d/Box_traits_d.h:142-145 | No box precedes itself |
| PredicateProperties.IsLoLessLoAsymmetric | Packages/Box_intersection_d/include/CGAL/Box_intersection_d/Box_traits_d.h:142-145 | If `a` precedes `b`, then `b` does not precede `a` |
| PredicateProperties.IsLoLessLoTransitive | Packages/Box_intersection_d/include/CGAL/Box_intersection_d/Box_traits_d.h:142-145 | The sort key is transitive |
| PredicateProperties.IsLoLessLoTrichotomy | Packages/Box_intersection_d/include/CGAL/Box_intersection_d/Box_traits_d.h:142-145 | With distinct identifiers, exactly one of the two orders holds; some order holds iff the lower coordinates or the identifiers differ |
| PredicateProperties.CompareObjectStrictTotalOrder | Packages/Box_intersection_d/include/CGAL/Box_intersection_d/Box_traits_d.h:131 | On any set of boxes with pairwise distinct identifiers, `CompareObject(dim)` is irreflexive, asymmetric, transitive and connected |
| PredicateProperties.SortedAlongChain | Packages/Box_intersection_d/include/CGAL/Box_intersection_d/Box_traits_d.h:88-96 | If every box precedes its successor under the comparator, every box precedes every later box |
| PredicateProperties.SortedAlongDistinct | Packages/Box_intersection_d/include/CGAL/Box_intersection_d/Box_traits_d.h:142-145 | A sequence sorted by the comparator holds no box twice |
| PredicateProperties.LoLessHoldsOnPrefix | Packages/Box_intersection_d/include/CGAL/Box_intersection_d/Box_traits_d.h:133-135 | In a sorted sequence, if `LoLessObject(value, dim)` accepts a box it accepts every earlier box, so the accepted boxes form a prefix |
| PredicateProperties.DoesIntersectSymmetric | Packages/Box_intersection_d/include/CGAL/Box_intersection_d/Box_traits_d.h:150-152 | `DoesIntersect(a, b)` equals `DoesIntersect(b, a)` under either topology |
| PredicateProperties.DoesIntersectIffCommonPoint | Packages/Box_intersection_d/include/CGAL/Box_intersection_d/Box_traits_d.h:147-152 | Take well-formed boxes, with positive width when half-open. They intersect iff some coordinate lies in both extents under the topology |
| PredicateProperties.TouchingBoxes | Packages/Box_intersection_d/include/CGAL/Box_intersection_d/Box_traits_d.h:147-152 | Take well-formed boxes with `max(a) == min(b)`. They intersect when closed and do not intersect when half-open |
| PredicateProperties.SelfIntersection | Packages/Box_intersection_d/include/CGAL/Box_intersection_d/Box_traits_d.h:150-152 | A box intersects itself iff `min <= max` when closed and iff `min < max` when half-open; so under the closed topology every well-formed box intersects itself |
| PredicateProperties.ZeroWidthHalfOpen | Packages/Box_intersection_d/include/CGAL/Box_intersection_d/Box_traits_d.h:147-152 | Half-open: a box of width zero at `x` holds no point, and it intersects `b` iff `min(b) < x < max(b)` |
| PredicateProperties.ContainsLoPointImpliesIntersect | Packages/Box_intersection_d/include/CGAL/Box_intersection_d/Box_traits_d.h:153-155 | If `b` is well formed, with positive width when half-open, and b's lower point lies in `a`, then the boxes intersect |
| PredicateProperties.LoLessObjectStrict | Packages/Box_intersection_d/include/CGAL/Box_intersection_d/Box_traits_d.h:104-106 | A box whose lower coordinate equals `value` is not accepted |
| PredicateProperties.HiGreaterObjectTopology | Packages/Box_intersection_d/include/CGAL/Box_intersection_d/Box_traits_d.h:114-116 | The closed and half-open tests disagree exactly on boxes whose upper coordinate equals `value` |
| PredicateProperties.SpanningObjectStrict | Packages/Box_intersection_d/include/CGAL/Box_intersection_d/Box_traits_d.h:125-128 | A box starting at `lo` or ending at `hi` does not span. A spanning box holds every point from `lo` to `hi`, past its lower end, under either topology |
| Scenarios.HalfOpenScenario | Packages/Box_intersection_d/include/CGAL/Box_intersection_d/Box_traits_d.h:150-152 | Half-open, dimension 0, A=[0,5], B=[5,10], C=[6,8]: A,B do not intersect; B,C do; A,C do not |
| Scenarios.ClosedScenario | Packages/Box_intersection_d/include/CGAL/Box_intersection_d/Box_traits_d.h:150-152 | Closed, same boxes: A,B intersect; B,C intersect; A,C do not |
| Scenarios.PrecedenceScenario | Packages/Box_intersection_d/include/CGAL/Box_intersection_d/Box_traits_d.h:143-144 | Lower coordinates 1 < 2 with identifiers 2 > 1: the sort key puts the first box first, the misgrouped reading does not |
| Scenarios.SpanningStricterThanHalfOpenRange | Packages/Box_intersection_d/include/CGAL/Box_intersection_d/Box_traits_d.h:125-127 | The box `[0, 5)` holds every point of `[0, 4)`, yet `SpanningObject(0, 4, 0)` rejects it: the code's test is stricter than the comment's "spans [lo,hi)" |
| Scenarios.TieBreakScenario | Packages/Box_intersection_d/include/CGAL/Box_intersection_d/Box_traits_d.h:142-145 | Two boxes with lower coordinate 2 and identifiers 1 and 2: the box with identifier 1 comes first, and not the other way round |

## Left out

- The three `Box_traits_d` adapters (value, pointer, const pointer) are one value type. The difference between them is C++ ownership and indirection.
- `dimension()` is a static, family-wide constant in C++. The model reads it from each box (`Dimension(b)`), because there is only one box type.
- The `std::binary_function` / `std::unary_function` bases and the `Bool_t<b>` tag dispatch are C++ mechanics. They become a plain `bool` parameter.
- The `Setting` enumeration (`COMPLETE`, `BIPARTITE`) and the `Topology` enumeration are declared but not read in this file. The `closed` boolean stands in for the topology.
- A floating-point `NT`, with NaN and its partial order, is not modelled. Coordinates are exact, totally ordered integers.
- The sweep algorithm that uses these predicates is not part of this model.
- `Cell_attribute_with_point.h` is not part of this model. It only holds a point with getters and forwards constructors to a base class that is not part of this model.
