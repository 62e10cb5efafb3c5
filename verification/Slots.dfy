/**
 * Fifteen-minute time slots: the discrete stand-in for interval overlap
 * (src/modules/courses/schedule-resource-lock.ts). Instants are integer milliseconds.
 */
module Slots {

  const SLOT_MS: int := 15 * 60 * 1000

  /** The start of the slot that contains instant `t`; rounds towards minus infinity. */
  function SlotStart(t: int): int {
    (t / SLOT_MS) * SLOT_MS
  }

  /** The first slot boundary at or after instant `t`. */
  function SlotEnd(t: int): int {
    -SlotStart(-t)
  }

  /** The slots a booking [startsAt, endsAt) is charged for. */
  predicate IsSlotOf(k: int, startsAt: int, endsAt: int) {
    k % SLOT_MS == 0 && SlotStart(startsAt) <= k < endsAt
  }

  /** The same slots as a finite set. */
  function SlotsOf(startsAt: int, endsAt: int): (slots: set<int>)
    ensures forall k :: k in slots <==> IsSlotOf(k, startsAt, endsAt)
  {
    set k | SlotStart(startsAt) <= k < endsAt && IsSlotOf(k, startsAt, endsAt)
  }

  predicate During(t: int, startsAt: int, endsAt: int) {
    startsAt <= t < endsAt
  }

  /** Two bookings overlap when some instant belongs to both half-open intervals. */
  ghost predicate Overlap(s1: int, e1: int, s2: int, e2: int) {
    exists t :: During(t, s1, e1) && During(t, s2, e2)
  }

  ghost predicate ShareSlot(s1: int, e1: int, s2: int, e2: int) {
    exists k :: IsSlotOf(k, s1, e1) && IsSlotOf(k, s2, e2)
  }

  ghost predicate StrictlyIncreasing(keys: seq<int>) {
    forall i, j :: 0 <= i < j < |keys| ==> keys[i] < keys[j]
  }

  ghost predicate OnGrid(keys: seq<int>, startsAt: int) {
    forall i :: 0 <= i < |keys| ==> keys[i] == SlotStart(startsAt) + i * SLOT_MS
  }

  /** Slot boundaries are multiples of the slot length around their instant. */
  lemma Boundaries(t: int)
    ensures SlotStart(t) % SLOT_MS == 0 && SlotStart(t) <= t < SlotStart(t) + SLOT_MS
    ensures SlotEnd(t) % SLOT_MS == 0 && SlotEnd(t) - SLOT_MS < t <= SlotEnd(t)
    ensures SLOT_MS == 900000
  {
  }

  /** Different boundaries are a whole slot apart. */
  lemma BoundariesAreSpaced(a: int, b: int)
    requires a % SLOT_MS == 0 && b % SLOT_MS == 0 && a < b
    ensures a + SLOT_MS <= b
  {
    var p, q := a / SLOT_MS, b / SLOT_MS;
    assert a == p * SLOT_MS && b == q * SLOT_MS;
    assert p < q;
  }

  lemma GridPointIsSlot(startsAt: int, endsAt: int, i: nat)
    requires SlotStart(startsAt) + i * SLOT_MS < endsAt
    ensures IsSlotOf(SlotStart(startsAt) + i * SLOT_MS, startsAt, endsAt)
  {
    assert (startsAt / SLOT_MS + i) * SLOT_MS == SlotStart(startsAt) + i * SLOT_MS;
  }

  lemma SlotIsGridPoint(startsAt: int, endsAt: int, k: int) returns (i: nat)
    requires IsSlotOf(k, startsAt, endsAt)
    ensures k == SlotStart(startsAt) + i * SLOT_MS
  {
    i := k / SLOT_MS - startsAt / SLOT_MS;
  }

  /** The first boundary at or past `endsAt` that lies on the grid is SlotEnd(endsAt). */
  lemma GridLength(startsAt: int, endsAt: int, n: nat)
    requires SlotStart(startsAt) + (n - 1) * SLOT_MS < endsAt <= SlotStart(startsAt) + n * SLOT_MS
    ensures n * SLOT_MS == SlotEnd(endsAt) - SlotStart(startsAt)
  {
    var q := startsAt / SLOT_MS + n;
    assert (-endsAt) / SLOT_MS == -q;
  }

  /** A run of grid points from the first slot up to the last one below the end is the slot set. */
  lemma GridIsSlotSet(startsAt: int, endsAt: int, keys: seq<int>)
    requires OnGrid(keys, startsAt)
    requires keys != [] ==> keys[|keys| - 1] < endsAt
    requires SlotStart(startsAt) + |keys| * SLOT_MS >= endsAt
    ensures forall k :: k in keys <==> IsSlotOf(k, startsAt, endsAt)
  {
    forall i | 0 <= i < |keys| ensures IsSlotOf(keys[i], startsAt, endsAt) {
      assert keys[i] <= keys[|keys| - 1];
      GridPointIsSlot(startsAt, endsAt, i);
    }
    forall k | IsSlotOf(k, startsAt, endsAt) ensures k in keys {
      var i := SlotIsGridPoint(startsAt, endsAt, k);
      assert keys[i] == k;
    }
  }

  /** The slot of an instant of the booking is one of the booking's slots. */
  lemma OwnSlot(t: int, startsAt: int, endsAt: int)
    requires During(t, startsAt, endsAt)
    ensures IsSlotOf(SlotStart(t), startsAt, endsAt)
  {
    Boundaries(t);
    assert startsAt / SLOT_MS <= t / SLOT_MS;
  }

  /**
   * The slot loop. The keys are exactly the booking's slots in increasing order, there are
   * ceil((endsAt - SlotStart(startsAt)) / SLOT_MS) of them, and they cover the booking.
   */
  method BuildTimeSlotKeys(startsAt: int, endsAt: int) returns (keys: seq<int>)
    ensures StrictlyIncreasing(keys)
    ensures forall k :: k in keys <==> IsSlotOf(k, startsAt, endsAt)
    ensures SlotStart(startsAt) < endsAt ==> |keys| * SLOT_MS == SlotEnd(endsAt) - SlotStart(startsAt)
    ensures endsAt <= SlotStart(startsAt) ==> keys == []
    ensures forall t :: During(t, startsAt, endsAt) ==> SlotStart(t) in keys
  {
    keys := [];
    var slotStartMs := SlotStart(startsAt);
    while slotStartMs < endsAt
      invariant slotStartMs == SlotStart(startsAt) + |keys| * SLOT_MS
      invariant OnGrid(keys, startsAt)
      invariant keys != [] ==> keys[|keys| - 1] < endsAt
      decreases endsAt - slotStartMs
    {
      keys := keys + [slotStartMs];
      slotStartMs := slotStartMs + SLOT_MS;
    }
    GridIsSlotSet(startsAt, endsAt, keys);
    if keys != [] {
      GridLength(startsAt, endsAt, |keys|);
    }
    forall t | During(t, startsAt, endsAt) ensures SlotStart(t) in keys {
      OwnSlot(t, startsAt, endsAt);
    }
  }

  /** Bookings share a slot exactly when each one's first slot starts before the other ends. */
  lemma ShareSlotIff(s1: int, e1: int, s2: int, e2: int)
    requires s1 < e1 && s2 < e2
    ensures ShareSlot(s1, e1, s2, e2) <==> SlotStart(s1) < e2 && SlotStart(s2) < e1
  {
    if SlotStart(s1) < e2 && SlotStart(s2) < e1 {
      var k := if SlotStart(s1) < SlotStart(s2) then SlotStart(s2) else SlotStart(s1);
      assert IsSlotOf(k, s1, e1) && IsSlotOf(k, s2, e2);
    }
  }

  /** No overlap is ever missed, whatever the alignment. */
  lemma OverlapSharesSlot(s1: int, e1: int, s2: int, e2: int)
    requires Overlap(s1, e1, s2, e2)
    ensures ShareSlot(s1, e1, s2, e2)
  {
    var t :| During(t, s1, e1) && During(t, s2, e2);
    OwnSlot(t, s1, e1);
    OwnSlot(t, s2, e2);
  }

  /**
   * When the discrete index is exact: sharing a slot means overlapping precisely when the later
   * start is inside the other booking, which slot-aligned starts guarantee.
   */
  lemma AlignedSharingIsOverlap(s1: int, e1: int, s2: int, e2: int)
    requires s1 < e1 && s2 < e2
    requires s1 % SLOT_MS == 0 && s2 % SLOT_MS == 0
    ensures ShareSlot(s1, e1, s2, e2) <==> Overlap(s1, e1, s2, e2)
  {
    ShareSlotIff(s1, e1, s2, e2);
    var t := if s1 < s2 then s2 else s1;
    if s1 < e2 && s2 < e1 {
      assert During(t, s1, e1) && During(t, s2, e2);
    }
  }

  /**
   * Exactly when the index refuses compatible bookings: one of them ends inside the slot the other starts in,
   * after that slot has begun and no later than the other's start.
   */
  lemma FalseConflictIff(s1: int, e1: int, s2: int, e2: int)
    requires s1 < e1 && s2 < e2
    ensures ShareSlot(s1, e1, s2, e2) && !Overlap(s1, e1, s2, e2)
       <==> SlotStart(s1) < e2 <= s1 || SlotStart(s2) < e1 <= s2
  {
    ShareSlotIff(s1, e1, s2, e2);
    Boundaries(s1);
    Boundaries(s2);
    var later := if s1 < s2 then s2 else s1;
    assert s1 < e2 && s2 < e1 ==> During(later, s1, e1) && During(later, s2, e2);
  }

  /** Off the grid the index refuses some compatible pairs: 00:00-00:05 against 00:10-00:15. */
  lemma UnalignedSharingIsNotOverlap()
    ensures ShareSlot(0, 300000, 600000, 900000) && !Overlap(0, 300000, 600000, 900000)
  {
    assert IsSlotOf(0, 0, 300000) && IsSlotOf(0, 600000, 900000);
  }

  /** Two bookings are charged for the same slots exactly when they agree up to slot boundaries. */
  lemma SameSlotsIff(s1: int, e1: int, s2: int, e2: int)
    requires s1 < e1
    ensures (forall k :: IsSlotOf(k, s1, e1) <==> IsSlotOf(k, s2, e2))
       <==> SlotStart(s1) == SlotStart(s2) && SlotEnd(e1) == SlotEnd(e2)
  {
    if forall k :: IsSlotOf(k, s1, e1) <==> IsSlotOf(k, s2, e2) {
      SlotsDetermineBounds(s1, e1, s2, e2);
    }
    if SlotStart(s1) == SlotStart(s2) && SlotEnd(e1) == SlotEnd(e2) {
      forall k | k % SLOT_MS == 0 ensures k < e1 <==> k < e2 {
        BeforeEnd(k, e1);
        BeforeEnd(k, e2);
      }
    }
  }

  lemma SlotsDetermineBounds(s1: int, e1: int, s2: int, e2: int)
    requires s1 < e1 && forall k :: IsSlotOf(k, s1, e1) <==> IsSlotOf(k, s2, e2)
    ensures SlotStart(s1) == SlotStart(s2) && SlotEnd(e1) == SlotEnd(e2)
  {
    Boundaries(s1);
    FirstAndLast(s1, e1);
    assert IsSlotOf(SlotStart(s1), s2, e2) && IsSlotOf(SlotEnd(e1) - SLOT_MS, s2, e2);
    FirstAndLast(s2, e2);
    BeforeEnd(SlotEnd(e1) - SLOT_MS, e2);
    BeforeEnd(SlotEnd(e2) - SLOT_MS, e1);
    assert IsSlotOf(SlotStart(s2), s1, e1) && IsSlotOf(SlotEnd(e2) - SLOT_MS, s1, e1);
    if SlotEnd(e1) < SlotEnd(e2) {
      BoundariesAreSpaced(SlotEnd(e1), SlotEnd(e2));
    } else if SlotEnd(e2) < SlotEnd(e1) {
      BoundariesAreSpaced(SlotEnd(e2), SlotEnd(e1));
    }
  }

  /** The first and the last slot of a booking that is not empty. */
  lemma FirstAndLast(startsAt: int, endsAt: int)
    requires SlotStart(startsAt) < endsAt
    ensures IsSlotOf(SlotStart(startsAt), startsAt, endsAt) && IsSlotOf(SlotEnd(endsAt) - SLOT_MS, startsAt, endsAt)
    ensures SlotEnd(endsAt) % SLOT_MS == 0
  {
    Boundaries(startsAt);
    Boundaries(endsAt);
    BoundariesAreSpaced(SlotStart(startsAt), SlotEnd(endsAt));
    MultipleBefore(SlotEnd(endsAt));
  }

  lemma MultipleBefore(k: int)
    requires k % SLOT_MS == 0
    ensures (k - SLOT_MS) % SLOT_MS == 0
  {
  }

  /** A boundary lies before an instant exactly when it lies before the boundary that ends the instant's slot. */
  lemma BeforeEnd(k: int, t: int)
    requires k % SLOT_MS == 0
    ensures k < t <==> k < SlotEnd(t)
  {
    Boundaries(t);
    if k < SlotEnd(t) {
      BoundariesAreSpaced(k, SlotEnd(t));
    }
  }
}
