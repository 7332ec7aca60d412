/**
 * What every run of the reservation protocol keeps, with no hypothesis on the rest of the system: one booking per
 * request, bounded retries, and bookings whose items follow each other without a gap.
 */
module RequestSafety {
  import opened Common
  import opened Bookings
  import opened Reservation

  /** The items follow each other without a gap from one instant to another. */
  ghost predicate Tiles(items: seq<Item>, from: Instant, to: Instant) {
    if items == [] then from == to
    else
      var last := items[|items| - 1];
      last.End() == to && Tiles(items[..|items| - 1], from, last.start)
  }

  lemma {:induction false} TilesAreDisjoint(items: seq<Item>, from: Instant, to: Instant)
    requires Tiles(items, from, to)
    ensures from <= to
    ensures forall i :: 0 <= i < |items| ==> from <= items[i].start && items[i].End() <= to
    ensures forall i, j :: 0 <= i < j < |items| ==> items[i].End() <= items[j].start
  {
    if items != [] {
      TilesAreDisjoint(items[..|items| - 1], from, items[|items| - 1].start);
    }
  }

  lemma {:induction false} TilesAddUp(items: seq<Item>, from: Instant, to: Instant)
    requires Tiles(items, from, to)
    ensures to == from + SumDurations(items) * MINUTE_MS
  {
    if items != [] {
      TilesAddUp(items[..|items| - 1], from, items[|items| - 1].start);
    }
  }

  lemma TilesExtend(items: seq<Item>, from: Instant, item: Item)
    requires Tiles(items, from, item.start)
    ensures Tiles(items + [item], from, item.End())
  {
    assert (items + [item])[..|items|] == items;
  }

  lemma {:induction false} TilesIgnoreStaff(items: seq<Item>, from: Instant, to: Instant, k: nat, staff: StaffId)
    requires Tiles(items, from, to) && k < |items|
    ensures Tiles(items[k := items[k].(staff := staff)], from, to)
  {
    var n := |items| - 1;
    var changed := items[k := items[k].(staff := staff)];
    if k < n {
      assert changed[..n] == items[..n][k := items[k].(staff := staff)];
      TilesIgnoreStaff(items[..n], from, items[n].start, k, staff);
    } else {
      assert changed[..n] == items[..n];
    }
  }

  // ----- The invariant ---------------------------------------------------------------------------------------

  /** The plan is back to back up to the cursor, and what is inserted is the plan. */
  ghost predicate PlanOk(id: RequestId, tx: Tx) {
    && Tiles(tx.plan, tx.request.scheduledAt, tx.cursor)
    && (tx.phase.Inserted? ==>
          var booking := tx.phase.booking;
          && booking.items == tx.plan && booking.origin == id && booking.customer == tx.request.Customer()
          && booking.scheduledAt == tx.request.scheduledAt && booking.End() == tx.cursor)
  }

  /** Where a request stands: its plan is in order, its attempts are bounded, its booking is its own. */
  ghost predicate ProgressOk(s: State, id: RequestId, progress: Progress) {
    match progress
    case Waiting(_, attempt) => attempt <= RETRIES
    case Running(tx, attempt) => attempt <= RETRIES && PlanOk(id, tx)
    case Done(b) => b < |s.db.bookings| && s.db.bookings[b].origin == id
    case Failed => true
  }

  /** A committed booking is that of a finished request, and its items fill its interval. */
  ghost predicate BookingOk(s: State, b: nat)
    requires b < |s.db.bookings|
  {
    var booking := s.db.bookings[b];
    && booking.origin in s.requests && s.requests[booking.origin] == Done(b)
    && Tiles(booking.items, booking.scheduledAt, booking.End())
  }

  ghost predicate Consistent(s: State) {
    && (forall b :: 0 <= b < |s.db.bookings| ==> BookingOk(s, b))
    && (forall id :: id in s.requests ==> ProgressOk(s, id, s.requests[id]))
  }

  // ----- One step --------------------------------------------------------------------------------------------

  lemma StaffedIsOk(id: RequestId, tx: Tx, staff: StaffId, duration: nat)
    requires PlanOk(id, tx)
    ensures PlanOk(id, Staffed(tx, staff, duration))
  {
    TilesExtend(tx.plan, tx.request.scheduledAt, Item(staff, tx.cursor, duration));
  }

  /** What one statement makes of a transaction. */
  lemma MoveIsOk(db: Db, tx: Tx, attempt: nat, id: RequestId, step: Step)
    requires PlanOk(id, tx)
    ensures match MoveOf(db, tx, attempt, id, step)
            case Go(next) => PlanOk(id, next)
            case GoLocking(next, _) => PlanOk(id, next) && next.plan == tx.plan && next.cursor == tx.cursor
            case Stop(progress) => progress.Failed? || (progress.Waiting? && (attempt <= RETRIES ==> progress.attempt <= RETRIES))
            case Publish(booking, used) => tx.phase == Inserted(booking, used)
            case NotNow => true
  {
    hide FindOverlap, CustomerConflict, CouponUsable;
    if step.CheckStaff? && tx.phase.HasStaff? {
      StaffedIsOk(id, tx, tx.phase.staff, tx.phase.duration);
    } else if step.Insert? {
      TilesAddUp(tx.plan, tx.request.scheduledAt, tx.cursor);
    }
  }

  /** The request of a running transaction moves on; every other request and every booking stays as it is. */
  lemma MovedOn(s: State, s': State, id: RequestId)
    requires Consistent(s) && InTx(s, id) && s'.db.bookings == s.db.bookings
    requires id in s'.requests && s'.requests == s.requests[id := s'.requests[id]]
    requires ProgressOk(s', id, s'.requests[id]) && !s'.requests[id].Done?
    ensures Consistent(s')
  {
    forall b | 0 <= b < |s'.db.bookings| ensures BookingOk(s', b) {
      assert BookingOk(s, b);
    }
    forall other | other in s'.requests ensures ProgressOk(s', other, s'.requests[other]) {
      assert other in s.requests && ProgressOk(s, other, s.requests[other]);
    }
  }

  lemma CommitIsConsistent(s: State, id: RequestId)
    requires Consistent(s) && InTx(s, id) && s.requests[id].tx.phase.Inserted?
    ensures var phase := s.requests[id].tx.phase;
            Consistent(End(s.(db := Committed(s.db, phase.booking, phase.used)), id, Done(|s.db.bookings|)))
  {
    var n := |s.db.bookings|;
    var phase := s.requests[id].tx.phase;
    var s' := End(s.(db := Committed(s.db, phase.booking, phase.used)), id, Done(n));
    assert ProgressOk(s, id, s.requests[id]);
    assert s'.db.bookings == s.db.bookings + [phase.booking];
    forall b | 0 <= b < |s'.db.bookings| ensures BookingOk(s', b) {
      assert b < n ==> BookingOk(s, b);
    }
    forall other | other in s'.requests ensures ProgressOk(s', other, s'.requests[other]) {
      assert ProgressOk(s, other, s.requests[other]);
    }
  }

  lemma TxStepIsConsistent(s: State, step: Step, id: RequestId, s': State)
    requires Consistent(s) && InTx(s, id) && TxApply(s, step, id) == Some(s')
    ensures Consistent(s')
  {
    hide MoveOf, Consistent, Committed;
    var tx := s.requests[id].tx;
    var attempt := s.requests[id].attempt;
    assert ProgressOk(s, id, s.requests[id]) by { OwnProgress(s, id); }
    MoveIsOk(s.db, tx, attempt, id, step);
    if MoveOf(s.db, tx, attempt, id, step).Publish? {
      CommitIsConsistent(s, id);
    } else {
      MovedOn(s, s', id);
    }
  }

  lemma OwnProgress(s: State, id: RequestId)
    requires Consistent(s) && id in s.requests
    ensures ProgressOk(s, id, s.requests[id])
  {
  }

  /** Writes to committed rows that leave origins, intervals and item times alone. */
  lemma RowsAreConsistent(s: State, bookings: seq<Booking>, s': State)
    requires Consistent(s) && |bookings| == |s.db.bookings| && s'.db.bookings == bookings && s'.requests == s.requests
    requires forall b :: 0 <= b < |bookings| ==>
               && bookings[b].origin == s.db.bookings[b].origin && bookings[b].scheduledAt == s.db.bookings[b].scheduledAt
               && bookings[b].totalDuration == s.db.bookings[b].totalDuration
               && (Tiles(s.db.bookings[b].items, bookings[b].scheduledAt, bookings[b].End()) ==>
                     Tiles(bookings[b].items, bookings[b].scheduledAt, bookings[b].End()))
    ensures Consistent(s')
  {
    forall b | 0 <= b < |bookings| ensures BookingOk(s', b) {
      assert BookingOk(s, b);
    }
    forall id | id in s'.requests ensures ProgressOk(s', id, s'.requests[id]) {
      assert ProgressOk(s, id, s.requests[id]);
    }
  }

  lemma NewRequestIsConsistent(s: State, id: RequestId, progress: Progress)
    requires Consistent(s) && (id in s.requests ==> s.requests[id].Waiting?) && ProgressOk(s, id, progress) && !progress.Done?
    ensures Consistent(s.(requests := s.requests[id := progress]))
  {
    var s' := s.(requests := s.requests[id := progress]);
    forall b | 0 <= b < |s'.db.bookings| ensures BookingOk(s', b) {
      assert BookingOk(s, b);
    }
    forall other | other in s'.requests ensures ProgressOk(s', other, s'.requests[other]) {
      assert other in s.requests ==> ProgressOk(s, other, s.requests[other]);
    }
  }

  lemma StepIsConsistent(s: State, step: Step, s': State)
    requires Consistent(s) && Apply(s, step) == Some(s')
    ensures Consistent(s')
  {
    hide Consistent, FindOverlap;
    if step.ReassignWrite? {
      TilesIgnoreStaffIn(s.db.bookings, step.booking, step.item, step.staff);
      RowsAreConsistent(s, s'.db.bookings, s');
    } else if step.ChangeStatus? || step.ReassignCheck? || step.CreateCoupon? {
      RowsAreConsistent(s, s'.db.bookings, s');
    } else if step.Submit? || step.Begin? {
      if step.Begin? {
        OwnProgress(s, step.id);
      }
      NewRequestIsConsistent(s, step.id, s'.requests[step.id]);
    } else {
      TxStepIsConsistent(s, step, step.id, s');
    }
  }

  lemma TilesIgnoreStaffIn(bookings: seq<Booking>, b: nat, k: nat, staff: StaffId)
    requires IsItem(bookings, b, k)
    ensures var after := WithStaff(bookings, b, k, staff)[b];
            Tiles(bookings[b].items, bookings[b].scheduledAt, bookings[b].End()) ==> Tiles(after.items, after.scheduledAt, after.End())
  {
    if Tiles(bookings[b].items, bookings[b].scheduledAt, bookings[b].End()) {
      TilesIgnoreStaff(bookings[b].items, bookings[b].scheduledAt, bookings[b].End(), k, staff);
    }
  }

  lemma {:induction false} RunIsConsistent(steps: seq<Step>)
    requires Run(INIT, steps).Some?
    ensures Consistent(Run(INIT, steps).value)
  {
    hide Apply;
    if steps != [] {
      var n := |steps| - 1;
      RunIsConsistent(steps[..n]);
      StepIsConsistent(Run(INIT, steps[..n]).value, steps[n], Run(INIT, steps).value);
    }
  }

  // ----- Main results ----------------------------------------------------------------------------------------

  /**
   * In every run, whatever is aborted, retried or reassigned: a request commits at most one booking, exactly when it
   * ends in success, and never starts more than five transactions.
   */
  lemma {:induction false} OneBookingPerRequest(steps: seq<Step>, id: RequestId)
    requires Run(INIT, steps).Some?
    ensures var s := Run(INIT, steps).value;
            && (forall b1, b2 ::
                  && 0 <= b1 < |s.db.bookings| && 0 <= b2 < |s.db.bookings|
                  && s.db.bookings[b1].origin == id && s.db.bookings[b2].origin == id
                  ==> b1 == b2)
            && ((exists b :: 0 <= b < |s.db.bookings| && s.db.bookings[b].origin == id)
                <==> id in s.requests && s.requests[id].Done?)
            && (id in s.requests && s.requests[id].Running? ==> s.requests[id].attempt <= RETRIES)
  {
    hide Apply;
    RunIsConsistent(steps);
    var s := Run(INIT, steps).value;
    forall b | 0 <= b < |s.db.bookings|
      ensures s.db.bookings[b].origin in s.requests && s.requests[s.db.bookings[b].origin] == Done(b)
    {
      assert BookingOk(s, b);
    }
    if id in s.requests {
      assert ProgressOk(s, id, s.requests[id]);
    }
  }

  /** The items of every committed booking fill the booking's own interval without gaps, in every run. */
  lemma {:induction false} BookingsAreBackToBack(steps: seq<Step>, b: nat)
    requires Run(INIT, steps).Some? && b < |Run(INIT, steps).value.db.bookings|
    ensures var booking := Run(INIT, steps).value.db.bookings[b];
            Tiles(booking.items, booking.scheduledAt, booking.End())
  {
    hide Apply;
    RunIsConsistent(steps);
    assert BookingOk(Run(INIT, steps).value, b);
  }
}
