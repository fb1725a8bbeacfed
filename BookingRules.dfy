/** The booking lifecycle: the status transition table of the admin controller,
    the cab-status rule applied when a booking changes status, and the
    double-booking rule of the customer controller, with what follows from them. */
module BookingRules {
  import opened Common
  import opened Enums
  import opened Models

  // ---------------------------------------------------------------------------
  // The transition table (AdminCabController.IsValidStatusTransition)
  // ---------------------------------------------------------------------------

  /** The successor lists of the table, one per status. */
  function Successors(s: CabBookingStatus): seq<CabBookingStatus> {
    match s
    case Pending => [Confirmed, Cancelled]
    case Confirmed => [InProgress, Cancelled]
    case InProgress => [Completed, Cancelled]
    case Completed => []
    case Cancelled => []
  }

  /** Whether an admin may move a booking from `current` to `next`. An allowed
      step strictly raises the status code (so there are no self-loops), no step
      leaves a terminal status, and the allowed steps are exactly: cancel a
      booking that has not ended, or advance it one stage along
      Pending, Confirmed, InProgress, Completed. */
  function IsValidStatusTransition(current: CabBookingStatus, next: CabBookingStatus): (ok: bool)
    ensures ok ==> Code(current) < Code(next)
    ensures ok ==> !IsTerminal(current)
    ensures ok <==> !IsTerminal(current) && (next == Cancelled || Code(next) == Code(current) + 1)
  {
    next in Successors(current)
  }

  /** A status is terminal exactly when the table lists no successor for it. */
  lemma TerminalIffNoSuccessor(s: CabBookingStatus)
    ensures IsTerminal(s) <==> forall n :: !IsValidStatusTransition(s, n)
  {
    if !IsTerminal(s) {
      assert IsValidStatusTransition(s, Cancelled);
    }
  }

  /** A sequence of statuses in which each step is allowed by the table. */
  ghost predicate IsTransitionChain(c: seq<CabBookingStatus>) {
    forall i :: 0 <= i < |c| - 1 ==> IsValidStatusTransition(c[i], c[i + 1])
  }

  lemma PrefixIsChain(c: seq<CabBookingStatus>, n: nat)
    requires IsTransitionChain(c) && n <= |c|
    ensures IsTransitionChain(c[..n])
  {
    var p := c[..n];
    forall i | 0 <= i < |p| - 1 ensures IsValidStatusTransition(p[i], p[i + 1]) {
      assert p[i] == c[i] && p[i + 1] == c[i + 1];
    }
  }

  lemma SuffixIsChain(c: seq<CabBookingStatus>, n: nat)
    requires IsTransitionChain(c) && n <= |c|
    ensures IsTransitionChain(c[n..])
  {
    var t := c[n..];
    forall i | 0 <= i < |t| - 1 ensures IsValidStatusTransition(t[i], t[i + 1]) {
      assert t[i] == c[n + i] && t[i + 1] == c[n + i + 1];
    }
  }

  /** Along a chain the status code rises by at least one per step. */
  lemma {:induction false} ChainAdvances(c: seq<CabBookingStatus>)
    requires |c| > 0 && IsTransitionChain(c)
    ensures Code(c[|c| - 1]) >= Code(c[0]) + |c| - 1
  {
    if |c| > 1 {
      var p := c[..|c| - 1];
      PrefixIsChain(c, |c| - 1);
      ChainAdvances(p);
      assert p[|p| - 1] == c[|c| - 2] && p[0] == c[0];
      assert IsValidStatusTransition(c[|c| - 2], c[|c| - 1]);
    }
  }

  /** Through the table alone a booking changes status at most three times
      (a chain has at most four statuses), and only its last status can be terminal. */
  lemma {:induction false} AtMostThreeStatusChanges(c: seq<CabBookingStatus>)
    requires IsTransitionChain(c)
    ensures |c| <= 4
    ensures forall i :: 0 <= i < |c| - 1 ==> !IsTerminal(c[i])
  {
    if |c| >= 2 {
      var p := c[..|c| - 1];
      PrefixIsChain(c, |c| - 1);
      ChainAdvances(p);
      assert p[|p| - 1] == c[|c| - 2] && p[0] == c[0];
      assert IsValidStatusTransition(c[|c| - 2], c[|c| - 1]);
    }
  }

  // ---------------------------------------------------------------------------
  // Cab-status synchronisation (AdminCabController.UpdateCabStatus)
  // ---------------------------------------------------------------------------

  /** The status a cab has after its booking moved from `oldStatus` to
      `newStatus`: confirming books the cab; cancelling or completing frees it
      only when the booking had held it (Confirmed or InProgress); every other
      change leaves the cab as it was. */
  function CabStatusAfter(cab: CabStatus, newStatus: CabBookingStatus, oldStatus: CabBookingStatus): CabStatus {
    match newStatus
    case Cancelled | Completed =>
      if oldStatus == Confirmed || oldStatus == InProgress then Available else cab
    case Confirmed => Booked
    case _ => cab
  }

  /** The cab status after applying the rule at every step of a chain. */
  function CabStatusAlong(cab: CabStatus, c: seq<CabBookingStatus>): CabStatus
    decreases |c|
  {
    if |c| < 2 then cab else CabStatusAlong(CabStatusAfter(cab, c[1], c[0]), c[1..])
  }

  /** Considering only this booking's own status changes: once it is Confirmed
      or InProgress with its cab Booked, the rule keeps the cab Booked until the
      booking ends and frees it when it ends. */
  lemma {:induction false} HeldCabFreedAtEnd(c: seq<CabBookingStatus>)
    requires |c| > 0 && IsTransitionChain(c)
    requires c[0] == Confirmed || c[0] == InProgress
    ensures CabStatusAlong(Booked, c) == if IsTerminal(c[|c| - 1]) then Available else Booked
  {
    if |c| >= 2 {
      var t := c[1..];
      SuffixIsChain(c, 1);
      assert IsValidStatusTransition(c[0], c[1]);
      if IsTerminal(c[1]) {
        AtMostThreeStatusChanges(c);
        assert |c| == 2;
      } else {
        assert c[1] == InProgress;
        assert t[0] == c[1] && t[|t| - 1] == c[|c| - 1];
        HeldCabFreedAtEnd(t);
      }
    }
  }

  /** Over the whole admin-driven lifecycle of a booking that starts Pending,
      considering only this booking's own status changes:
      if it is never confirmed its cab keeps the status it had; once it is
      confirmed the cab is Booked until the booking ends, and Available after. */
  lemma {:induction false} CabStatusOverLifecycle(cab: CabStatus, c: seq<CabBookingStatus>)
    requires |c| > 0 && IsTransitionChain(c) && c[0] == Pending
    ensures CabStatusAlong(cab, c) ==
      if Confirmed !in c then cab
      else if IsTerminal(c[|c| - 1]) then Available
      else Booked
  {
    if |c| >= 2 {
      assert IsValidStatusTransition(c[0], c[1]);
      if c[1] == Cancelled {
        AtMostThreeStatusChanges(c);
        assert c == [Pending, Cancelled];
      } else {
        assert c[1] == Confirmed;
        var t := c[1..];
        SuffixIsChain(c, 1);
        assert t[0] == c[1] && t[|t| - 1] == c[|c| - 1];
        HeldCabFreedAtEnd(t);
      }
    } else {
      assert c == [Pending];
    }
  }

  // ---------------------------------------------------------------------------
  // The double-booking rule (CabController.Book)
  // ---------------------------------------------------------------------------

  /** A booking that still claims its cab: active and not cancelled. */
  predicate IsLive(b: CabBooking) {
    b.isActive && b.status != Cancelled
  }

  /** The condition of the existing-booking query: `b` is a live booking of cab
      `cabId` whose travel date falls on calendar day `date`. */
  predicate HoldsSlot(b: CabBooking, cabId: int, date: int) {
    b.cabId == Some(cabId) && b.travelDate.date == date && b.status != Cancelled && b.isActive
  }

  /** Whether some booking in the table holds the cab on that day. */
  predicate HasBookingOn(bookings: map<int, CabBooking>, cabId: int, date: int) {
    exists k :: k in bookings && HoldsSlot(bookings[k], cabId, date)
  }

  /** At most one live booking per cab per calendar day. */
  ghost predicate LiveBookingsUnique(bookings: map<int, CabBooking>) {
    forall i, j ::
      i in bookings && j in bookings && i != j &&
      IsLive(bookings[i]) && IsLive(bookings[j]) &&
      bookings[i].cabId.Some? && bookings[i].cabId == bookings[j].cabId
      ==> bookings[i].travelDate.date != bookings[j].travelDate.date
  }

  /** Adding a live booking under a new key keeps the table free of double
      bookings exactly when the existing-booking query finds nothing. */
  lemma AddingBookingKeepsUnique(bookings: map<int, CabBooking>, k: int, b: CabBooking)
    requires LiveBookingsUnique(bookings) && k !in bookings
    requires IsLive(b) && b.cabId.Some?
    ensures LiveBookingsUnique(bookings[k := b]) <==> !HasBookingOn(bookings, b.cabId.value, b.travelDate.date)
  {
    var after := bookings[k := b];
    if HasBookingOn(bookings, b.cabId.value, b.travelDate.date) {
      var j :| j in bookings && HoldsSlot(bookings[j], b.cabId.value, b.travelDate.date);
      assert after[k] == b && after[j] == bookings[j];
      assert !LiveBookingsUnique(after);
    } else {
      forall i, j |
        i in after && j in after && i != j &&
        IsLive(after[i]) && IsLive(after[j]) &&
        after[i].cabId.Some? && after[i].cabId == after[j].cabId
        ensures after[i].travelDate.date != after[j].travelDate.date
      {
        if i == k {
          assert !HoldsSlot(bookings[j], b.cabId.value, b.travelDate.date);
        } else if j == k {
          assert !HoldsSlot(bookings[i], b.cabId.value, b.travelDate.date);
        }
      }
    }
  }

  /** What every status operation does to the bookings table: no booking
      disappears, none changes its cab or travel date, none is reactivated or
      deactivated, and no status code goes down. */
  ghost predicate StatusesAdvance(before: map<int, CabBooking>, after: map<int, CabBooking>) {
    forall k :: k in before ==>
      k in after &&
      after[k].cabId == before[k].cabId &&
      after[k].travelDate == before[k].travelDate &&
      after[k].isActive == before[k].isActive &&
      Code(before[k].status) <= Code(after[k].status)
  }

  /** Completed and Cancelled bookings keep their status. */
  ghost predicate TerminalsKept(before: map<int, CabBooking>, after: map<int, CabBooking>) {
    forall k :: k in before && IsTerminal(before[k].status) ==>
      k in after && after[k].status == before[k].status
  }

  /** Cancelled has the highest code, so a table whose statuses only advance
      never brings a cancelled booking back; with the same keys it keeps the
      one-live-booking-per-cab-per-day rule. */
  lemma AdvancingKeepsUnique(before: map<int, CabBooking>, after: map<int, CabBooking>)
    requires LiveBookingsUnique(before)
    requires StatusesAdvance(before, after) && after.Keys == before.Keys
    ensures LiveBookingsUnique(after)
    ensures forall k :: k in before && before[k].status == Cancelled ==> after[k].status == Cancelled
  {
    forall k | k in before && before[k].status == Cancelled
      ensures after[k].status == Cancelled
    {
      CodeIsInjective(after[k].status, Cancelled);
    }
    forall i, j |
      i in after && j in after && i != j &&
      IsLive(after[i]) && IsLive(after[j]) &&
      after[i].cabId.Some? && after[i].cabId == after[j].cabId
      ensures after[i].travelDate.date != after[j].travelDate.date
    {
      assert i in before && j in before;
      assert IsLive(before[i]) && IsLive(before[j]);
    }
  }
}
