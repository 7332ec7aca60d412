/** No double booking in any interleaving of the reservation protocol, given what the rest of the system is trusted with. */
module ReservationSafety {
  import opened Common
  import opened Bookings
  import opened Reservation
  import opened RequestSafety

  // ----- Hypotheses on a run ---------------------------------------------------------------------------------

  /**
   * What the rest of the system is trusted with: durations the scan margin covers, no status write that turns an
   * inactive booking active again when its time is taken, and no unlocked staff reassignment to somebody who is taken;
   * neither while a transaction holds the staff rows concerned.
   */
  ghost predicate Admissible(s: State, step: Step) {
    AdmissibleWithin(s, step, MAX_DURATION)
  }

  ghost predicate AdmissibleWithin(s: State, step: Step, longest: nat) {
    match step
    case ReadVariant(_, duration, _, _) => duration.Some? ==> duration.value <= longest
    case ChangeStatus(b, to) =>
      b < |s.db.bookings| && IsActive(to) && !IsActive(s.db.bookings[b].status) ==>
        && StaffUnlocked(s, s.db.bookings[b].items)
        && IsVacant(s.db.bookings, b)
    case ReassignWrite(b, k, staff) =>
      IsItem(s.db.bookings, b, k) ==>
        && StaffRow(staff) !in s.locks
        && !IsTaken(Without(s.db.bookings, b, k), s.db.bookings[b].items[k].(staff := staff))
    case _ => true
  }

  ghost predicate StaffUnlocked(s: State, items: seq<Item>) {
    forall k :: 0 <= k < |items| ==> StaffRow(items[k].staff) !in s.locks
  }

  /** No active item is in the way of any item of this booking. */
  ghost predicate IsVacant(bookings: seq<Booking>, b: nat)
    requires b < |bookings|
  {
    forall k :: 0 <= k < |bookings[b].items| ==> !IsTaken(bookings, bookings[b].items[k])
  }

  ghost predicate AdmissibleRun(s: State, steps: seq<Step>) {
    RunWithin(s, steps, MAX_DURATION)
  }

  ghost predicate RunWithin(s: State, steps: seq<Step>, longest: nat) {
    steps != [] ==>
      && RunWithin(s, steps[..|steps| - 1], longest)
      && (var before := Run(s, steps[..|steps| - 1]);
          before.Some? ==> AdmissibleWithin(before.value, steps[|steps| - 1], longest))
  }

  // ----- The invariant ---------------------------------------------------------------------------------------

  ghost predicate BookingsSafe(bookings: seq<Booking>) {
    NoDoubleBooking(bookings) && ShortItems(bookings)
  }

  /** A planned item: its staff row is held by the planner, and no committed active item is in its way. */
  ghost predicate Reserved(s: State, id: RequestId, item: Item) {
    && Owns(s, StaffRow(item.staff), id)
    && item.duration <= MAX_DURATION
    && !IsTaken(s.db.bookings, item)
  }

  ghost predicate PhaseSafe(s: State, id: RequestId, tx: Tx) {
    match tx.phase
    case WantStaff(_, _, duration) => duration <= MAX_DURATION
    case HasStaff(staff, _, duration) => duration <= MAX_DURATION && Owns(s, StaffRow(staff), id)
    case _ => true
  }

  ghost predicate TxSafe(s: State, id: RequestId, tx: Tx) {
    PhaseSafe(s, id, tx) && forall k :: 0 <= k < |tx.plan| ==> Reserved(s, id, tx.plan[k])
  }

  ghost predicate PlansSafe(s: State) {
    forall id :: id in s.requests && s.requests[id].Running? ==> TxSafe(s, id, s.requests[id].tx)
  }

  /** No clash among committed items, and every planned item reserved under lock. */
  ghost predicate Guarded(s: State) {
    BookingsSafe(s.db.bookings) && PlansSafe(s)
  }

  ghost predicate Safe(s: State) {
    Consistent(s) && Guarded(s)
  }

  // ----- Frames ----------------------------------------------------------------------------------------------

  /** Other transactions keep their plans when their locks stay and no new item blocks them. */
  lemma OthersKeepPlans(s: State, s': State, id: RequestId)
    requires PlansSafe(s)
    requires forall other :: other != id && other in s'.requests && s'.requests[other].Running? ==>
               other in s.requests && s.requests[other] == s'.requests[other]
    requires forall row :: row in s.locks && s.locks[row] != id ==> row in s'.locks && s'.locks[row] == s.locks[row]
    requires forall p: Item :: !IsTaken(s.db.bookings, p) && !Owns(s, StaffRow(p.staff), id) ==> !IsTaken(s'.db.bookings, p)
    ensures forall other :: other != id && other in s'.requests && s'.requests[other].Running? ==>
              TxSafe(s', other, s'.requests[other].tx)
  {
    forall other | other != id && other in s'.requests && s'.requests[other].Running?
      ensures TxSafe(s', other, s'.requests[other].tx)
    {
      var tx := s.requests[other].tx;
      assert TxSafe(s, other, tx);
      forall k | 0 <= k < |tx.plan|
        ensures Reserved(s', other, tx.plan[k])
      {
        assert Reserved(s, other, tx.plan[k]);
      }
    }
  }

  lemma EndIsSafe(s: State, id: RequestId, progress: Progress)
    requires Guarded(s) && InTx(s, id)
    requires progress.Failed? || progress.Waiting?
    ensures Guarded(End(s, id, progress))
  {
    OthersKeepPlans(s, End(s, id, progress), id);
  }

  /** The transaction's own plan stays reserved when it takes another lock. */
  lemma OwnPlanStays(s: State, id: RequestId, row: Row, plan: seq<Item>)
    requires Free(s, row, id)
    requires forall k :: 0 <= k < |plan| ==> Reserved(s, id, plan[k])
    ensures forall k :: 0 <= k < |plan| ==> Reserved(s.(locks := s.locks[row := id]), id, plan[k])
  {
    forall k | 0 <= k < |plan| ensures Reserved(s.(locks := s.locks[row := id]), id, plan[k]) {
      assert Reserved(s, id, plan[k]);
    }
  }

  lemma AdvanceIsSafe(s: State, id: RequestId, tx: Tx)
    requires Guarded(s) && InTx(s, id) && TxSafe(s, id, tx)
    ensures Guarded(Advance(s, id, tx))
  {
    var s' := Advance(s, id, tx);
    forall k | 0 <= k < |tx.plan| ensures Reserved(s', id, tx.plan[k]) {
      assert Reserved(s, id, tx.plan[k]);
    }
    OthersKeepPlans(s, s', id);
  }

  lemma LockIsSafe(s: State, id: RequestId, row: Row)
    requires Guarded(s) && InTx(s, id) && Free(s, row, id)
    ensures Guarded(s.(locks := s.locks[row := id]))
  {
    var s' := s.(locks := s.locks[row := id]);
    assert TxSafe(s, id, s.requests[id].tx);
    OwnPlanStays(s, id, row, s.requests[id].tx.plan);
    OthersKeepPlans(s, s', id);
  }

  // ----- The commit ------------------------------------------------------------------------------------------

  lemma CommitKeepsBookingsSafe(bookings: seq<Booking>, booking: Booking)
    requires BookingsSafe(bookings)
    requires Tiles(booking.items, booking.scheduledAt, booking.End())
    requires forall k :: 0 <= k < |booking.items| ==>
               booking.items[k].duration <= MAX_DURATION && !IsTaken(bookings, booking.items[k])
    ensures BookingsSafe(bookings + [booking])
  {
    var n := |bookings|;
    var after := bookings + [booking];
    TilesAreDisjoint(booking.items, booking.scheduledAt, booking.End());
    forall b1, k1, b2, k2 |
      && 0 <= b1 < |after| && 0 <= k1 < |after[b1].items| && IsActive(after[b1].status)
      && 0 <= b2 < |after| && 0 <= k2 < |after[b2].items| && IsActive(after[b2].status)
      && (b1, k1) != (b2, k2)
      ensures !Clash(after[b1].items[k1], after[b2].items[k2])
    {
      if b1 == n && b2 < n {
        assert !InTheWay(bookings, b2, k2, booking.items[k1]);
      } else if b2 == n && b1 < n {
        assert !InTheWay(bookings, b1, k1, booking.items[k2]);
      }
    }
  }

  lemma OthersNotTaken(s: State, id: RequestId, booking: Booking, p: Item)
    requires forall k :: 0 <= k < |booking.items| ==> Owns(s, StaffRow(booking.items[k].staff), id)
    requires !IsTaken(s.db.bookings, p) && !Owns(s, StaffRow(p.staff), id)
    ensures !IsTaken(s.db.bookings + [booking], p)
  {
    forall b: nat, k: nat ensures !InTheWay(s.db.bookings + [booking], b, k, p) {
      assert !InTheWay(s.db.bookings, b, k, p);
    }
  }

  lemma CommitIsSafe(s: State, id: RequestId)
    requires Consistent(s) && Guarded(s) && InTx(s, id) && s.requests[id].tx.phase.Inserted?
    ensures var phase := s.requests[id].tx.phase;
            Guarded(End(s.(db := Committed(s.db, phase.booking, phase.used)), id, Done(|s.db.bookings|)))
  {
    var tx := s.requests[id].tx;
    var booking := tx.phase.booking;
    var s' := End(s.(db := Committed(s.db, booking, tx.phase.used)), id, Done(|s.db.bookings|));
    assert TxSafe(s, id, tx);
    OwnProgress(s, id);
    forall k | 0 <= k < |tx.plan|
      ensures Owns(s, StaffRow(tx.plan[k].staff), id) && tx.plan[k].duration <= MAX_DURATION && !IsTaken(s.db.bookings, tx.plan[k])
    {
      assert Reserved(s, id, tx.plan[k]);
    }
    CommitKeepsBookingsSafe(s.db.bookings, booking);
    assert s'.db.bookings == s.db.bookings + [booking];
    forall p: Item | !IsTaken(s.db.bookings, p) && !Owns(s, StaffRow(p.staff), id) ensures !IsTaken(s'.db.bookings, p) {
      OthersNotTaken(s, id, booking, p);
    }
    OthersKeepPlans(s, s', id);
  }

  // ----- One step --------------------------------------------------------------------------------------------

  /** A free staff member under lock becomes a reserved item of the plan. */
  lemma StaffedIsSafe(s: State, id: RequestId, tx: Tx)
    requires TxSafe(s, id, tx) && tx.phase.HasStaff?
    requires FindOverlap(s.db.bookings, tx.phase.staff, tx.cursor, tx.phase.duration).None? && ShortItems(s.db.bookings)
    ensures TxSafe(s, id, Staffed(tx, tx.phase.staff, tx.phase.duration))
  {
    var item := Item(tx.phase.staff, tx.cursor, tx.phase.duration);
    WindowedScanIsFullScan(s.db.bookings, item);
    assert Reserved(s, id, item);
  }

  /** What a statement makes of a safe transaction is safe, given the lock it asks for. */
  lemma MoveIsSafe(s: State, id: RequestId, tx: Tx, attempt: nat, step: Step)
    requires TxSafe(s, id, tx) && Admissible(s, step) && ShortItems(s.db.bookings)
    ensures match MoveOf(s.db, tx, attempt, id, step)
            case Go(next) => TxSafe(s, id, next)
            case GoLocking(next, row) =>
              next.plan == tx.plan && next.request == tx.request && next.cursor == tx.cursor
              && (Owns(s, row, id) ==> PhaseSafe(s, id, next))
            case Stop(progress) => progress.Failed? || progress.Waiting?
            case Publish(_, _) => tx.phase.Inserted?
            case NotNow => true
  {
    match step
    case CheckStaff(_) =>
      if tx.phase.HasStaff? && FindOverlap(s.db.bookings, tx.phase.staff, tx.cursor, tx.phase.duration).None? {
        StaffedIsSafe(s, id, tx);
      }
    case _ =>
  }

  lemma TxStepIsSafe(s: State, step: Step, id: RequestId, s': State)
    requires Consistent(s) && Guarded(s) && Admissible(s, step) && InTx(s, id)
    requires TxApply(s, step, id) == Some(s')
    ensures Guarded(s')
  {
    var tx := s.requests[id].tx;
    var attempt := s.requests[id].attempt;
    assert TxSafe(s, id, tx);
    MoveIsSafe(s, id, tx, attempt, step);
    match MoveOf(s.db, tx, attempt, id, step)
    case Stop(progress) => EndIsSafe(s, id, progress);
    case Go(next) => AdvanceIsSafe(s, id, next);
    case GoLocking(next, row) =>
      var locked := s.(locks := s.locks[row := id]);
      LockIsSafe(s, id, row);
      assert TxSafe(locked, id, tx);
      MoveIsSafe(locked, id, tx, attempt, step);
      AdvanceIsSafe(locked, id, next);
    case Publish(_, _) => CommitIsSafe(s, id);
    case NotNow =>
  }

  /** Steps that touch neither bookings nor locks nor transactions under way. */
  lemma PlansCarryOver(s: State, s': State)
    requires Guarded(s) && s'.db.bookings == s.db.bookings && s'.locks == s.locks
    requires forall id :: id in s'.requests && s'.requests[id].Running? && !(id in s.requests && s.requests[id] == s'.requests[id]) ==>
               s'.requests[id].tx.plan == [] && s'.requests[id].tx.phase == NextService
    ensures PlansSafe(s')
  {
    forall id | id in s'.requests && s'.requests[id].Running? ensures TxSafe(s', id, s'.requests[id].tx) {
      var tx := s'.requests[id].tx;
      if id in s.requests && s.requests[id] == s'.requests[id] {
        assert TxSafe(s, id, tx);
        forall k | 0 <= k < |tx.plan| ensures Reserved(s', id, tx.plan[k]) {
          assert Reserved(s, id, tx.plan[k]);
        }
      }
    }
  }

  function Revived(bookings: seq<Booking>, b: nat, to: BookingStatus): seq<Booking>
    requires b < |bookings|
  {
    bookings[b := bookings[b].(status := to)]
  }

  /** Making an inactive booking active again keeps the tables free of clashes exactly when its time is vacant. */
  lemma RevivalIsSafeExactly(bookings: seq<Booking>, b: nat, to: BookingStatus)
    requires NoDoubleBooking(bookings) && b < |bookings| && !IsActive(bookings[b].status) && IsActive(to)
    requires Tiles(bookings[b].items, bookings[b].scheduledAt, bookings[b].End())
    ensures NoDoubleBooking(Revived(bookings, b, to)) <==> IsVacant(bookings, b)
  {
    var after := Revived(bookings, b, to);
    var items := bookings[b].items;
    TilesAreDisjoint(items, bookings[b].scheduledAt, bookings[b].End());
    if IsVacant(bookings, b) {
      forall b1, k1, b2, k2 |
        && 0 <= b1 < |after| && 0 <= k1 < |after[b1].items| && IsActive(after[b1].status)
        && 0 <= b2 < |after| && 0 <= k2 < |after[b2].items| && IsActive(after[b2].status)
        && (b1, k1) != (b2, k2)
        ensures !Clash(after[b1].items[k1], after[b2].items[k2])
      {
        if b1 == b && b2 != b {
          assert !InTheWay(bookings, b2, k2, items[k1]);
        } else if b2 == b && b1 != b {
          assert !InTheWay(bookings, b1, k1, items[k2]);
        }
      }
    } else {
      var k :| 0 <= k < |items| && IsTaken(bookings, items[k]);
      var b': nat, k': nat :| InTheWay(bookings, b', k', items[k]);
      assert Clash(after[b].items[k], after[b'].items[k']);
    }
  }

  /** A status write that revives nothing frees time at most. */
  lemma OtherStatusKeepsBookingsSafe(bookings: seq<Booking>, b: nat, to: BookingStatus)
    requires BookingsSafe(bookings) && b < |bookings| && (IsActive(to) ==> IsActive(bookings[b].status))
    ensures BookingsSafe(Revived(bookings, b, to))
  {
  }

  /** What is in the way after a status write was so before, or belongs to the booking that was revived. */
  lemma ChangeStatusKeepsPlans(s: State, b: nat, to: BookingStatus, id: RequestId, item: Item)
    requires b < |s.db.bookings| && Admissible(s, ChangeStatus(b, to)) && Reserved(s, id, item)
    ensures !IsTaken(Revived(s.db.bookings, b, to), item)
  {
    forall b': nat, k': nat ensures !InTheWay(Revived(s.db.bookings, b, to), b', k', item) {
      assert !InTheWay(s.db.bookings, b', k', item);
    }
  }

  lemma ChangeStatusIsSafe(s: State, b: nat, to: BookingStatus, s': State)
    requires Consistent(s) && Guarded(s) && Admissible(s, ChangeStatus(b, to))
    requires Apply(s, ChangeStatus(b, to)) == Some(s')
    ensures Guarded(s')
  {
    assert s'.db.bookings == Revived(s.db.bookings, b, to);
    assert BookingOk(s, b);
    if IsActive(to) && !IsActive(s.db.bookings[b].status) {
      RevivalIsSafeExactly(s.db.bookings, b, to);
    } else {
      OtherStatusKeepsBookingsSafe(s.db.bookings, b, to);
    }
    forall id | id in s.requests && s.requests[id].Running? ensures TxSafe(s', id, s.requests[id].tx) {
      var tx := s.requests[id].tx;
      assert TxSafe(s, id, tx);
      forall k | 0 <= k < |tx.plan| ensures Reserved(s', id, tx.plan[k]) {
        assert Reserved(s, id, tx.plan[k]);
        ChangeStatusKeepsPlans(s, b, to, id, tx.plan[k]);
      }
    }
  }

  lemma ReassignKeepsBookingsSafe(bookings: seq<Booking>, b: nat, k: nat, staff: StaffId)
    requires BookingsSafe(bookings) && IsItem(bookings, b, k)
    requires !IsTaken(Without(bookings, b, k), bookings[b].items[k].(staff := staff))
    ensures BookingsSafe(WithStaff(bookings, b, k, staff))
  {
    var after := WithStaff(bookings, b, k, staff);
    var rest := Without(bookings, b, k);
    var moved := after[b].items[k];
    forall b', k' | 0 <= b' < |after| && 0 <= k' < |after[b'].items| && IsActive(after[b'].status) && (b', k') != (b, k)
      ensures !Clash(moved, after[b'].items[k'])
    {
      var k'' := if b' == b && k' > k then k' - 1 else k';
      assert after[b'].items[k'] == rest[b'].items[k''];
      assert !InTheWay(rest, b', k'', moved);
    }
    forall b1, k1, b2, k2 |
      && 0 <= b1 < |after| && 0 <= k1 < |after[b1].items| && IsActive(after[b1].status)
      && 0 <= b2 < |after| && 0 <= k2 < |after[b2].items| && IsActive(after[b2].status)
      && (b1, k1) != (b2, k2)
      ensures !Clash(after[b1].items[k1], after[b2].items[k2])
    {
      if (b1, k1) != (b, k) && (b2, k2) != (b, k) {
        assert after[b1].items[k1] == bookings[b1].items[k1] && after[b2].items[k2] == bookings[b2].items[k2];
      }
    }
  }

  /** Moving an item of an active booking keeps the tables free of clashes exactly when nobody else has its time. */
  lemma ReassignIsSafeExactly(bookings: seq<Booking>, b: nat, k: nat, staff: StaffId)
    requires BookingsSafe(bookings) && IsItem(bookings, b, k) && IsActive(bookings[b].status)
    ensures BookingsSafe(WithStaff(bookings, b, k, staff))
       <==> !IsTaken(Without(bookings, b, k), bookings[b].items[k].(staff := staff))
  {
    var after := WithStaff(bookings, b, k, staff);
    var rest := Without(bookings, b, k);
    var moved := after[b].items[k];
    if !IsTaken(rest, moved) {
      ReassignKeepsBookingsSafe(bookings, b, k, staff);
    } else {
      var b': nat, k'': nat :| InTheWay(rest, b', k'', moved);
      var k' := if b' == b && k'' >= k then k'' + 1 else k'';
      assert after[b'].items[k'] == rest[b'].items[k''];
      assert Clash(after[b].items[k], after[b'].items[k']);
    }
  }

  lemma ReassignIsSafe(s: State, b: nat, k: nat, staff: StaffId, s': State)
    requires Guarded(s) && Admissible(s, ReassignWrite(b, k, staff))
    requires Apply(s, ReassignWrite(b, k, staff)) == Some(s')
    ensures Guarded(s')
  {
    ReassignKeepsBookingsSafe(s.db.bookings, b, k, staff);
    forall id | id in s.requests && s.requests[id].Running? ensures TxSafe(s', id, s.requests[id].tx) {
      var tx := s.requests[id].tx;
      assert TxSafe(s, id, tx);
      forall i | 0 <= i < |tx.plan| ensures Reserved(s', id, tx.plan[i]) {
        assert Reserved(s, id, tx.plan[i]);
        if b': nat, k': nat :| InTheWay(s'.db.bookings, b', k', tx.plan[i]) {
          assert InTheWay(s.db.bookings, b', k', tx.plan[i]);
        }
      }
    }
  }

  lemma BystanderIsSafe(s: State, step: Step, s': State)
    requires Guarded(s) && Apply(s, step) == Some(s')
    requires step.Submit? || step.Begin? || step.ReassignCheck? || step.CreateCoupon?
    ensures Guarded(s')
  {
    PlansCarryOver(s, s');
  }

  lemma StepIsSafe(s: State, step: Step, s': State)
    requires Safe(s) && Admissible(s, step) && Apply(s, step) == Some(s')
    ensures Safe(s')
  {
    hide Consistent, Guarded, Admissible;
    StepIsConsistent(s, step, s');
    if step.ChangeStatus? {
      ChangeStatusIsSafe(s, step.booking, step.to, s');
    } else if step.ReassignWrite? {
      ReassignIsSafe(s, step.booking, step.item, step.staff, s');
    } else if step.Submit? || step.Begin? || step.ReassignCheck? || step.CreateCoupon? {
      BystanderIsSafe(s, step, s');
    } else {
      TxStepIsSafe(s, step, step.id, s');
    }
  }

  lemma {:induction false} RunIsSafe(steps: seq<Step>)
    requires AdmissibleRun(INIT, steps) && Run(INIT, steps).Some?
    ensures Safe(Run(INIT, steps).value)
  {
    if steps != [] {
      var n := |steps| - 1;
      RunIsSafe(steps[..n]);
      StepIsSafe(Run(INIT, steps[..n]).value, steps[n], Run(INIT, steps).value);
    }
  }

  // ----- Main results ----------------------------------------------------------------------------------------

  /** In every interleaving no staff member ends up with two overlapping items in active bookings. */
  lemma NeverDoubleBooked(steps: seq<Step>)
    requires AdmissibleRun(INIT, steps) && Run(INIT, steps).Some?
    ensures NoDoubleBooking(Run(INIT, steps).value.db.bookings)
  {
    RunIsSafe(steps);
  }
}
