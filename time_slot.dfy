/** Availability windows of an employee (`src/models/TimeSlot.ts`). Instants are
    whole minutes on a single local time line. */
module TimeSlots {
  import opened Wrappers

  datatype Interval = Interval(start: int, end: int)

  /** A time slot: an interval whose start lies strictly before its end. The
      type carries the constructor's guard, so no slot can violate it. */
  type TimeSlot = s: Interval | s.start < s.end witness Interval(0, 1)

  /** The constructor: it throws unless `start < end`. */
  function Create(start: int, end: int): (r: Result<TimeSlot>)
    ensures r.Ok? <==> start < end
    ensures r.Ok? ==> r.value.start == start && r.value.end == end
    ensures r.Err? ==> r.error == InvalidTimeRange
  {
    if start >= end then Err(InvalidTimeRange) else Ok(Interval(start, end))
  }

  /** The two-sided overlap test the source writes out for slots and for
      appointments alike: `(s1 < e2 && e1 > s2) || (s2 < e1 && e2 > s1)`. */
  predicate Overlap(s1: int, e1: int, s2: int, e2: int) {
    (s1 < e2 && e1 > s2) || (s2 < e1 && e2 > s1)
  }

  /** The second disjunct restates the first: overlap of the open spans. */
  lemma OverlapIsOpenIntersection(s1: int, e1: int, s2: int, e2: int)
    ensures Overlap(s1, e1, s2, e2) <==> s1 < e2 && s2 < e1
    ensures Overlap(s1, e1, s2, e2) <==> Overlap(s2, e2, s1, e1)
  {
  }

  /** `isAvailable(dateTime)`: closed at both ends. */
  predicate IsAvailable(slot: TimeSlot, t: int)
    ensures IsAvailable(slot, t) <==> Covers(slot, t, t)
  {
    slot.start <= t <= slot.end
  }

  /** `hasConflict(other)`. */
  predicate HasConflict(a: TimeSlot, b: TimeSlot)
    ensures HasConflict(a, b) <==> a.start < b.end && b.start < a.end
  {
    Overlap(a.start, a.end, b.start, b.end)
  }

  /** The range `[t, end]` lies inside the slot, end points included: the test
      `Employee.isAvailable` applies to each slot. */
  predicate Covers(slot: TimeSlot, t: int, end: int) {
    slot.start <= t && end <= slot.end
  }

  /** No two stored slots conflict. */
  ghost predicate PairwiseFree(slots: seq<TimeSlot>) {
    forall i, j :: 0 <= i < j < |slots| ==> !HasConflict(slots[i], slots[j])
  }

  lemma HasConflictMeaning(a: TimeSlot, b: TimeSlot)
    ensures HasConflict(a, b) <==> a.start < b.end && b.start < a.end
    ensures HasConflict(a, b) <==> HasConflict(b, a)
  {
  }

  /** Because `start < end`, every slot conflicts with itself. */
  lemma SelfConflict(a: TimeSlot)
    ensures HasConflict(a, a)
  {
  }

  /** Slots that only touch at an end point do not conflict. */
  lemma AbuttingSlotsDoNotConflict(a: TimeSlot, b: TimeSlot)
    requires a.end == b.start
    ensures !HasConflict(a, b) && !HasConflict(b, a)
  {
  }

  lemma IsAvailableAtBothEnds(slot: TimeSlot)
    ensures IsAvailable(slot, slot.start) && IsAvailable(slot, slot.end)
    ensures forall t :: IsAvailable(slot, t) ==> slot.start <= t <= slot.end
  {
  }
}
