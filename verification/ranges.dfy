/** kc.mega.utils.Range: a closed interval of reals that can grow to cover new
    points. A freshly made range is "empty", encoded as [1000, -1000]. */
module Ranges {
  import opened MathUtils

  datatype Range = Range(start: real, end: real)

  /** The bounds of the empty range made by `new Range()`. */
  const EMPTY_START: real := 1000.0
  const EMPTY_END: real := -1000.0

  /** `new Range()`. */
  function Empty(): (r: Range)
    ensures IsEmpty(r)
    ensures forall x: real :: -1000.0 <= x <= 1000.0 ==> Update(r, x) == Range(x, x)
  {
    Range(EMPTY_START, EMPTY_END)
  }

  /** The copy constructor: the copy has the same bounds, and being a value it
      never shares later updates with the original. */
  function Copy(r: Range): (c: Range)
    ensures c.start == r.start && c.end == r.end
  {
    Range(r.start, r.end)
  }

  /** Range.fromUnsorted: the range spanned by two points given in either order. */
  function FromUnsorted(x1: real, x2: real): (r: Range)
    ensures r.start <= r.end
    ensures multiset{r.start, r.end} == multiset{x1, x2}
  {
    if x1 < x2 then Range(x1, x2) else Range(x2, x1)
  }

  function Width(r: Range): real { r.end - r.start }

  /** Range.middle: the point equidistant from both bounds. */
  function Middle(r: Range): (m: real)
    ensures m - r.start == r.end - m
    ensures r.start <= r.end ==> r.start <= m <= r.end
  {
    (r.start + r.end) / 2.0
  }

  /** Range.isEmpty: only the untouched sentinel start counts as empty. */
  predicate IsEmpty(r: Range) {
    r.start > 999.0
  }

  predicate Contains(r: Range, x: real) {
    r.start <= x <= r.end
  }

  /** Range.update: the smallest range covering both `r` and the point `x`. */
  function Update(r: Range, x: real): (u: Range)
    ensures Contains(u, x)
    ensures u.start <= r.start && u.end >= r.end
    ensures u.start == x || u.start == r.start
    ensures u.end == x || u.end == r.end
  {
    Range(Min(x, r.start), Max(x, r.end))
  }

  /** Range.merge: the smallest range covering both ranges. */
  function Merge(a: Range, b: Range): (m: Range)
    ensures m.start <= a.start && m.start <= b.start
    ensures m.end >= a.end && m.end >= b.end
    ensures m.start == a.start || m.start == b.start
    ensures m.end == a.end || m.end == b.end
  {
    Range(Min(a.start, b.start), Max(a.end, b.end))
  }

  lemma MergeCommutative(a: Range, b: Range)
    ensures Merge(a, b) == Merge(b, a)
  {
  }

  lemma MergeAssociative(a: Range, b: Range, c: Range)
    ensures Merge(Merge(a, b), c) == Merge(a, Merge(b, c))
  {
  }

  lemma MergeIdempotent(a: Range)
    ensures Merge(a, a) == a
  {
  }

  /** Merging into the empty range yields the merged range, for any range with
      bounds inside the sentinels. */
  lemma MergeEmptyIdentity(r: Range)
    requires EMPTY_END <= r.end && r.start <= EMPTY_START
    ensures Merge(Empty(), r) == r
  {
  }

  /** Updating with a point is merging with the degenerate range at that point. */
  lemma UpdateIsMergeWithPoint(r: Range, x: real)
    ensures Update(r, x) == Merge(r, Range(x, x))
  {
  }
}
