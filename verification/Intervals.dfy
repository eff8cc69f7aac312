/** Half-open address ranges and the three operations the bus is built on. */
module Intervals {

  function Max(a: nat, b: nat): nat { if a < b then b else a }

  function Min(a: nat, b: nat): nat { if b < a then b else a }

  /** The range `start..end`; it may be written with `end` below `start`, and is then empty. */
  datatype Interval = Interval(start: nat, end: nat) {

    predicate IsEmpty() { !(start < end) }

    predicate Has(v: nat) { start <= v < end }

    function Intersection(other: Interval): Interval {
      Interval(Max(start, other.start), Min(end, other.end))
    }

    predicate ContainsInterval(other: Interval) { Intersection(other) == other }

    predicate Overlaps(other: Interval) { !IsEmpty() && !Intersection(other).IsEmpty() }
  }

  /** An address is in the intersection exactly when it is in both ranges. */
  lemma IntersectionMembers(a: Interval, b: Interval, v: nat)
    ensures a.Intersection(b).Has(v) <==> a.Has(v) && b.Has(v)
  {
  }

  /** Two ranges overlap exactly when some address lies in both. */
  lemma OverlapMeansSharedAddress(a: Interval, b: Interval)
    ensures a.Overlaps(b) <==> exists v: nat :: a.Has(v) && b.Has(v)
    ensures a.Overlaps(b) <==> b.Overlaps(a)
  {
    forall v: nat ensures a.Intersection(b).Has(v) <==> a.Has(v) && b.Has(v) { IntersectionMembers(a, b, v); }
    assert a.Overlaps(b) ==> a.Intersection(b).Has(a.Intersection(b).start);
  }

  /** A range contains a non-empty one exactly when it has all of its addresses. */
  lemma ContainmentMeansAllAddresses(a: Interval, b: Interval)
    requires !b.IsEmpty()
    ensures a.ContainsInterval(b) <==> forall v: nat :: b.Has(v) ==> a.Has(v)
  {
    if forall v: nat :: b.Has(v) ==> a.Has(v) {
      assert b.Has(b.start) && b.Has(b.end - 1);
    }
  }
}
