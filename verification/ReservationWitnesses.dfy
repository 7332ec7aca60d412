/** Runs which show that each hypothesis of the double-booking result is needed: without it, the code double-books. */
module ReservationWitnesses {
  import opened Common
  import opened Bookings
  import opened Reservation
  import opened ReservationSafety
  import opened BookingService
  import opened CreationRows

  // ----- Single-service walk-ins -----------------------------------------------------------------------------

  function Start(longest: nat): History {
    History([], [INIT], longest)
  }

  function WalkInBooking(id: RequestId, staff: StaffId, at: Instant, duration: nat): Booking {
    Booking(id, None, at, duration, Confirmed, [Item(staff, at, duration)])
  }

  lemma WalkInCreation(db: Db, id: RequestId, staff: StaffId, at: Instant, duration: nat)
    requires FindOverlap(db.bookings, staff, at, duration).None? && at > 0
    ensures Creation(db, id, WalkIn(at, [Chosen(staff)]), 0, [Lookup(Chosen(staff), Some(duration), true, [])], true, true)
         == Ok((WalkInBooking(id, staff, at, duration), None))
  {
    var lookups := [Lookup(Chosen(staff), Some(duration), true, [])];
    var plan := [Item(staff, at, duration)];
    assert lookups[..0] == [] && plan[..0] == [];
    assert PlanFor(db.bookings, lookups, at) == Ok([] + plan);
  }

  /** A walk-in for one chosen staff member commits when the scan finds nothing. */
  lemma WalkInCommits(h: History, id: RequestId, staff: StaffId, at: Instant, duration: nat) returns (h': History)
    requires h.Valid() && Quiet(h.Last(), id) && at > 0 && duration <= h.longest
    requires FindOverlap(h.Last().db.bookings, staff, at, duration).None?
    ensures h'.Valid() && h'.First() == h.First() && h'.longest == h.longest
    ensures h'.Last() == After(h.Last(), id, WalkInBooking(id, staff, at, duration), None)
  {
    hide FindOverlap, Apply, AdmissibleWithin;
    var s0 := h.Last();
    WalkInCreation(s0.db, id, staff, at, duration);
    var lookups := [Lookup(Chosen(staff), Some(duration), true, [])];
    var walkIn := CreationIsARun(s0, id, WalkIn(at, [Chosen(staff)]), 0, lookups, true, true, h.longest);
    h' := Join(h, walkIn);
  }

  lemma StatusChanges(h: History, b: nat, to: BookingStatus) returns (h': History)
    requires h.Valid() && b < |h.Last().db.bookings| && !IsActive(to)
    ensures h'.Valid() && h'.First() == h.First() && h'.longest == h.longest
    ensures h'.Last() == WithStatus(h.Last(), b, to)
  {
    h' := Extend(h, ChangeStatus(b, to), WithStatus(h.Last(), b, to));
  }

  function WithStatus(s: State, b: nat, to: BookingStatus): State
    requires b < |s.db.bookings|
  {
    s.(db := s.db.(bookings := s.db.bookings[b := s.db.bookings[b].(status := to)]))
  }

  lemma HistoryIsAdmissible(h: History)
    requires h.Valid() && h.First() == INIT && h.longest == MAX_DURATION
    ensures Run(INIT, h.steps) == Some(h.Last()) && AdmissibleRun(INIT, h.steps)
  {
    HistoryIsRun(h, |h.steps|);
    assert h.steps[..|h.steps|] == h.steps;
  }

  /** A last step, admissible or not, after an admissible run, that leaves two items clashing. */
  lemma Finish(h: History, step: Step, next: State, b1: nat, b2: nat) returns (steps: seq<Step>)
    requires h.Valid() && h.First() == INIT && h.longest == MAX_DURATION && Apply(h.Last(), step) == Some(next)
    requires IsItem(next.db.bookings, b1, 0) && IsItem(next.db.bookings, b2, 0) && b1 != b2
    requires IsActive(next.db.bookings[b1].status) && IsActive(next.db.bookings[b2].status)
    requires Clash(next.db.bookings[b1].items[0], next.db.bookings[b2].items[0])
    ensures EndsInDoubleBooking(steps, step)
  {
    HistoryIsAdmissible(h);
    steps := h.steps + [step];
    assert steps[..|h.steps|] == h.steps;
  }

  /** From the empty tables to a double booking, with nothing inadmissible before the named last step. */
  ghost predicate EndsInDoubleBooking(steps: seq<Step>, last: Step) {
    && |steps| > 0 && AdmissibleRun(INIT, steps[..|steps| - 1]) && steps[|steps| - 1] == last
    && Run(INIT, steps).Some? && !NoDoubleBooking(Run(INIT, steps).value.db.bookings)
  }

  // ----- Witnesses -------------------------------------------------------------------------------------------

  const NOON := 12 * HOUR_MS

  /** A run at durations the margin covers that has left these bookings and no lock. */
  ghost predicate Reaches(h: History, bookings: seq<Booking>, ids: set<RequestId>) {
    && h.Valid() && h.First() == INIT && h.longest == MAX_DURATION
    && h.Last().db.bookings == bookings && h.Last().locks == map[] && h.Last().requests.Keys == ids
  }

  lemma AddWalkIn(h: History, bookings: seq<Booking>, ids: set<RequestId>, id: RequestId, staff: StaffId) returns (h': History)
    requires Reaches(h, bookings, ids) && id !in ids
    requires forall b, k :: 0 <= b < |bookings| && 0 <= k < |bookings[b].items| && IsActive(bookings[b].status) ==>
               bookings[b].items[k].staff != staff
    ensures Reaches(h', bookings + [WalkInBooking(id, staff, NOON, 60)], ids + {id})
  {
    ScanSeesSixHours(bookings, Item(staff, NOON, 60));
    h' := WalkInCommits(h, id, staff, NOON, 60);
  }

  lemma CancelledAtNoon() returns (h: History)
    ensures Reaches(h, [WalkInBooking(0, 7, NOON, 60).(status := Cancelled)], {0})
  {
    hide Apply, AdmissibleWithin;
    h := AddWalkIn(Start(MAX_DURATION), [], {}, 0, 7);
    h := StatusChanges(h, 0, Cancelled);
  }

  /**
   * A late deposit settlement revives a cancelled booking whose time has been given away. Everything before that
   * last write is admissible.
   */
  lemma RevivalDoubleBooks()
    ensures exists steps :: EndsInDoubleBooking(steps, ChangeStatus(0, DepositPaid))
  {
    var first := WalkInBooking(0, 7, NOON, 60);
    var h := CancelledAtNoon();
    h := AddWalkIn(h, [first.(status := Cancelled)], {0}, 1, 7);
    var next := WithStatus(h.Last(), 0, DepositPaid);
    assert next.db.bookings == [first.(status := DepositPaid), WalkInBooking(1, 7, NOON, 60)];
    var steps := Finish(h, ChangeStatus(0, DepositPaid), next, 0, 1);
  }

  lemma ReassignmentChecks(h: History, b: nat, staff: StaffId) returns (h': History)
    requires h.Valid() && IsItem(h.Last().db.bookings, b, 0) && IsActive(h.Last().db.bookings[b].status)
    requires forall i: nat, k: nat :: IsItem(h.Last().db.bookings, i, k) ==> h.Last().db.bookings[i].items[k].staff != staff
    ensures h'.Valid() && h'.First() == h.First() && h'.longest == h.longest
    ensures h'.Last() == h.Last().(reassigning := h.Last().reassigning + {(b, 0, staff)})
  {
    var s := h.Last();
    NobodyElse(s.db.bookings, b, staff);
    h' := Extend(h, ReassignCheck(b, 0, staff), s.(reassigning := s.reassigning + {(b, 0, staff)}));
  }

  function Reassigned(s: State, b: nat, staff: StaffId): State
    requires IsItem(s.db.bookings, b, 0)
  {
    s.(db := s.db.(bookings := WithStaff(s.db.bookings, b, 0, staff)), reassigning := s.reassigning - {(b, 0, staff)})
  }

  lemma ReassignmentWrites(h: History, b: nat, staff: StaffId) returns (h': History)
    requires h.Valid() && IsItem(h.Last().db.bookings, b, 0) && (b, 0, staff) in h.Last().reassigning && h.Last().locks == map[]
    requires forall i: nat, k: nat :: IsItem(h.Last().db.bookings, i, k) ==> h.Last().db.bookings[i].items[k].staff != staff
    ensures h'.Valid() && h'.First() == h.First() && h'.longest == h.longest
    ensures h'.Last() == Reassigned(h.Last(), b, staff)
  {
    NobodyElse(h.Last().db.bookings, b, staff);
    h' := Extend(h, ReassignWrite(b, 0, staff), Reassigned(h.Last(), b, staff));
  }

  /** Two bookings, of staff 7 and staff 8, and two reassignments to staff 9 that have both found it free. */
  lemma BothFree() returns (h: History)
    ensures h.Valid() && h.First() == INIT && h.longest == MAX_DURATION && h.Last().locks == map[]
    ensures h.Last().db.bookings == [WalkInBooking(0, 7, NOON, 60), WalkInBooking(1, 8, NOON, 60)]
    ensures h.Last().reassigning >= {(0, 0, 9), (1, 0, 9)}
  {
    h := AddWalkIn(Start(MAX_DURATION), [], {}, 0, 7);
    var bookings := [] + [WalkInBooking(0, 7, NOON, 60)];
    h := AddWalkIn(h, bookings, {0}, 1, 8);
    bookings := bookings + [WalkInBooking(1, 8, NOON, 60)];
    assert forall i: nat, k: nat :: IsItem(bookings, i, k) ==> bookings[i].items[k].staff in {7, 8};
    h := ReassignmentChecks(h, 0, 9);
    h := ReassignmentChecks(h, 1, 9);
  }

  lemma MovedBooking(bookings: seq<Booking>, b: nat, id: RequestId, from: StaffId, to: StaffId)
    requires b < |bookings| && bookings[b] == WalkInBooking(id, from, NOON, 60)
    ensures WithStaff(bookings, b, 0, to) == bookings[b := WalkInBooking(id, to, NOON, 60)]
  {
    assert [Item(from, NOON, 60)][0 := Item(to, NOON, 60)] == [Item(to, NOON, 60)];
  }

  /** Two unlocked reassignments check the same free staff member and both write. Only the second write is inadmissible. */
  lemma RacingReassignmentsDoubleBook()
    ensures exists steps :: EndsInDoubleBooking(steps, ReassignWrite(1, 0, 9))
  {
    var h := BothFree();
    var bookings := h.Last().db.bookings;
    assert forall i: nat, k: nat :: IsItem(bookings, i, k) ==> bookings[i].items[k].staff in {7, 8};
    h := ReassignmentWrites(h, 0, 9);
    MovedBooking(bookings, 0, 0, 7, 9);
    var next := Reassigned(h.Last(), 1, 9);
    MovedBooking(h.Last().db.bookings, 1, 1, 8, 9);
    var steps := Finish(h, ReassignWrite(1, 0, 9), next, 0, 1);
  }

  // ----- Beside a transaction --------------------------------------------------------------------------------

  /** From the empty tables: a write that clashes with nothing, and then the commit of a transaction that planned that time. */
  ghost predicate RacesIntoDoubleBooking(steps: seq<Step>, write: Step, id: RequestId) {
    && |steps| > 1 && AdmissibleRun(INIT, steps[..|steps| - 2])
    && steps[|steps| - 2] == write && steps[|steps| - 1] == Commit(id) && Run(INIT, steps).Some?
    && NoDoubleBooking(Run(INIT, steps[..|steps| - 1]).value.db.bookings)
    && !NoDoubleBooking(Run(INIT, steps).value.db.bookings)
  }

  lemma OneServicePlan(bookings: seq<Booking>, staff: StaffId)
    requires FindOverlap(bookings, staff, NOON, 60).None?
    ensures var lookups := [Lookup(Chosen(staff), Some(60), true, [])];
            PlanFor(bookings, lookups[..1], NOON) == Ok([Item(staff, NOON, 60)])
  {
    var lookups := [Lookup(Chosen(staff), Some(60), true, [])];
    var plan := [Item(staff, NOON, 60)];
    assert lookups[..0] == [] && lookups[..1] == lookups && plan[..0] == [];
    assert PlanFor(bookings, lookups, NOON) == Ok([] + plan);
    assert [] + plan == plan;
  }

  /** The transaction of a walk-in for one chosen staff member, with everything done but its commit. */
  function PlannedTx(staff: StaffId, phase: Phase): Tx {
    Tx(WalkIn(NOON, [Chosen(staff)]), [Item(staff, NOON, 60)], NOON + HOUR_MS, phase)
  }

  lemma OneServicePlanned(id: RequestId, staff: StaffId)
    ensures Planning(WalkIn(NOON, [Chosen(staff)]), [Item(staff, NOON, 60)]) == PlannedTx(staff, AllStaffed)
    ensures NewBooking(id, PlannedTx(staff, ReadyToInsert(None)), false) == WalkInBooking(id, staff, NOON, 60)
  {
    var plan := [Item(staff, NOON, 60)];
    assert plan[..0] == [];
    assert SumDurations(plan) == SumDurations(plan[..0]) + 60;
  }

  lemma WalkInIsPlanned(h: History, id: RequestId, staff: StaffId) returns (h': History)
    requires h.Valid() && Quiet(h.Last(), id) && h.longest == MAX_DURATION
    requires FindOverlap(h.Last().db.bookings, staff, NOON, 60).None?
    ensures h'.Valid() && h'.First() == h.First() && h'.longest == h.longest
    ensures h'.Last().db == h.Last().db && h'.Last().reassigning == h.Last().reassigning && InTx(h'.Last(), id)
    ensures h'.Last().requests[id].tx.phase == Inserted(WalkInBooking(id, staff, NOON, 60), None)
  {
    hide FindOverlap, PlanFor, AdmissibleWithin, Apply;
    var s0 := h.Last();
    OneServicePlan(s0.db.bookings, staff);
    h' := PlanIsARun(s0, id, WalkIn(NOON, [Chosen(staff)]), 0, [Lookup(Chosen(staff), Some(60), true, [])], 1, MAX_DURATION);
    OneServicePlanned(id, staff);
    h' := ChecksAreARun(h', s0, id, PlannedTx(staff, AllStaffed), true);
    h' := Take(h', s0, id, PlannedTx(staff, ReadyToInsert(None)), Insert(id, false));
    h' := Join(h, h');
  }

  lemma CommitsOnTop(s: State, id: RequestId, booking: Booking)
    requires InTx(s, id) && s.requests[id].tx.phase == Inserted(booking, None)
    ensures Apply(s, Commit(id)).Some? && Apply(s, Commit(id)).value.db.bookings == s.db.bookings + [booking]
  {
  }

  lemma OneThenTwo(bookings: seq<Booking>, booking: Booking)
    requires |bookings| == 1 && |bookings[0].items| == 1 && IsActive(bookings[0].status)
    requires |booking.items| == 1 && IsActive(booking.status) && Clash(bookings[0].items[0], booking.items[0])
    ensures NoDoubleBooking(bookings) && !NoDoubleBooking(bookings + [booking])
  {
    var after := bookings + [booking];
    assert Clash(after[0].items[0], after[1].items[0]);
  }

  lemma OneMoreStep(steps: seq<Step>, step: Step)
    ensures Run(INIT, steps + [step]) == if Run(INIT, steps).Some? then Apply(Run(INIT, steps).value, step) else None
  {
    hide Apply;
    assert (steps + [step])[..|steps|] == steps;
  }

  lemma FinishRace(h: History, write: Step, next: State, id: RequestId, booking: Booking) returns (steps: seq<Step>)
    requires h.Valid() && h.First() == INIT && h.longest == MAX_DURATION && Apply(h.Last(), write) == Some(next)
    requires InTx(next, id) && next.requests[id].tx.phase == Inserted(booking, None)
    requires |next.db.bookings| == 1 && |next.db.bookings[0].items| == 1 && IsActive(next.db.bookings[0].status)
    requires |booking.items| == 1 && IsActive(booking.status) && Clash(next.db.bookings[0].items[0], booking.items[0])
    ensures RacesIntoDoubleBooking(steps, write, id)
  {
    CommitsOnTop(next, id, booking);
    OneThenTwo(next.db.bookings, booking);
    HistoryIsAdmissible(h);
    hide Apply, Run, AdmissibleRun, NoDoubleBooking;
    OneMoreStep(h.steps, write);
    OneMoreStep(h.steps + [write], Commit(id));
    steps := h.steps + [write] + [Commit(id)];
    assert steps[..|steps| - 2] == h.steps && steps[..|steps| - 1] == h.steps + [write];
  }

  /** A cancelled booking revived while a transaction that has planned its time is about to commit: its time is still vacant. */
  lemma RevivalRacesACommit() returns (steps: seq<Step>)
    ensures RacesIntoDoubleBooking(steps, ChangeStatus(0, DepositPaid), 1)
  {
    var h := CancelledAtNoon();
    ScanSeesSixHours(h.Last().db.bookings, Item(7, NOON, 60));
    hide FindOverlap, AdmissibleWithin;
    h := WalkInIsPlanned(h, 1, 7);
    var next := WithStatus(h.Last(), 0, DepositPaid);
    assert Apply(h.Last(), ChangeStatus(0, DepositPaid)) == Some(next);
    hide Apply, RacesIntoDoubleBooking;
    steps := FinishRace(h, ChangeStatus(0, DepositPaid), next, 1, WalkInBooking(1, 7, NOON, 60));
  }

  /** A booking of staff 8, and a reassignment that has found staff 7 free. */
  lemma CheckedFree() returns (h: History)
    ensures h.Valid() && h.First() == INIT && h.longest == MAX_DURATION && Quiet(h.Last(), 1)
    ensures h.Last().db.bookings == [WalkInBooking(0, 8, NOON, 60)] && (0, 0, 7) in h.Last().reassigning
  {
    h := AddWalkIn(Start(MAX_DURATION), [], {}, 0, 8);
    hide FindOverlap, Apply, AdmissibleWithin;
    var bookings := h.Last().db.bookings;
    assert bookings == [WalkInBooking(0, 8, NOON, 60)];
    h := ReassignmentChecks(h, 0, 7);
  }

  /** And a transaction that is about to commit a booking of staff 7. */
  lemma FreeWhilePlanned() returns (h: History)
    ensures h.Valid() && h.First() == INIT && h.longest == MAX_DURATION
    ensures h.Last().db.bookings == [WalkInBooking(0, 8, NOON, 60)] && (0, 0, 7) in h.Last().reassigning
    ensures InTx(h.Last(), 1) && h.Last().requests[1].tx.phase == Inserted(WalkInBooking(1, 7, NOON, 60), None)
  {
    h := CheckedFree();
    ScanSeesSixHours(h.Last().db.bookings, Item(7, NOON, 60));
    hide FindOverlap, Apply, AdmissibleWithin;
    h := WalkInIsPlanned(h, 1, 7);
  }

  /** The same for a reassignment that has found the staff member free. */
  lemma ReassignmentRacesACommit() returns (steps: seq<Step>)
    ensures RacesIntoDoubleBooking(steps, ReassignWrite(0, 0, 7), 1)
  {
    hide FindOverlap, AdmissibleWithin;
    var h := FreeWhilePlanned();
    MovedBooking(h.Last().db.bookings, 0, 0, 8, 7);
    var next := Reassigned(h.Last(), 0, 7);
    assert Apply(h.Last(), ReassignWrite(0, 0, 7)) == Some(next);
    hide Apply, RacesIntoDoubleBooking;
    steps := FinishRace(h, ReassignWrite(0, 0, 7), next, 1, WalkInBooking(1, 7, NOON, 60));
  }

  /** A staff member with no item anywhere is not taken, with or without the item that moves. */
  lemma NobodyElse(bookings: seq<Booking>, b: nat, staff: StaffId)
    requires IsItem(bookings, b, 0)
    requires forall i: nat, k: nat :: IsItem(bookings, i, k) ==> bookings[i].items[k].staff != staff
    ensures var moved := bookings[b].items[0].(staff := staff);
            && !IsTaken(Without(bookings, b, 0), moved)
            && FindOverlap(Without(bookings, b, 0), staff, moved.start, moved.duration).None?
  {
    var moved := bookings[b].items[0].(staff := staff);
    var rest := Without(bookings, b, 0);
    forall i, k | 0 <= i < |rest| && 0 <= k < |rest[i].items| ensures rest[i].items[k].staff != staff {
      assert IsItem(bookings, i, if i == b then k + 1 else k);
    }
    ScanSeesSixHours(rest, moved);
  }

  /** Six hours and a millisecond after its start, a service of six hours and one minute is no longer seen. */
  lemma LateIsFree()
    ensures FindOverlap([], 7, NOON, MAX_DURATION + 1).None?
    ensures FindOverlap([WalkInBooking(0, 7, NOON, MAX_DURATION + 1)], 7, NOON + 6 * HOUR_MS + 1, 30).None?
  {
    ScanSeesSixHours([WalkInBooking(0, 7, NOON, MAX_DURATION + 1)], Item(7, NOON + 6 * HOUR_MS + 1, 30));
  }

  /** A staff member is asked for again in the last minute of a service of six hours and one minute. */
  lemma LongServiceIsForgotten() returns (h: History)
    ensures h.Valid() && h.First() == INIT && h.longest == MAX_DURATION + 1
    ensures h.Last().db.bookings
         == [WalkInBooking(0, 7, NOON, MAX_DURATION + 1), WalkInBooking(1, 7, NOON + 6 * HOUR_MS + 1, 30)]
  {
    LateIsFree();
    hide FindOverlap, Apply, AdmissibleWithin;
    h := Start(MAX_DURATION + 1);
    h := WalkInCommits(h, 0, 7, NOON, MAX_DURATION + 1);
    assert h.Last().db.bookings == [WalkInBooking(0, 7, NOON, MAX_DURATION + 1)];
    h := WalkInCommits(h, 1, 7, NOON + 6 * HOUR_MS + 1, 30);
  }

  /**
   * The six-hour margin is exact: a service one minute longer is already invisible to a booking made in its last
   * minute. Nothing else in the run is inadmissible.
   */
  lemma LongServiceDoubleBooks() returns (steps: seq<Step>)
    ensures Run(INIT, steps).Some? && !NoDoubleBooking(Run(INIT, steps).value.db.bookings)
    ensures RunWithin(INIT, steps, MAX_DURATION + 1)
  {
    var h := LongServiceIsForgotten();
    var bookings := h.Last().db.bookings;
    assert Clash(bookings[0].items[0], bookings[1].items[0]);
    steps := h.steps;
    HistoryIsRun(h, |steps|);
    assert steps[..|steps|] == steps;
  }
}
