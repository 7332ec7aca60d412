/**
 * Giving one service of a booking to another staff member: whom the store is offered for it, and the change itself, with
 * no lock and nothing that ties the two together.
 */
module Reassignment {
  import opened Common
  import opened Sorting
  import opened Bookings
  import opened Staffing
  import opened Reservation

  // ----- What the rows say -----------------------------------------------------------------------------------

  predicate IsOther(bookings: seq<Booking>, b: nat, k: nat, c: nat, l: nat) {
    c < |bookings| && l < |bookings[c].items| && IsActive(bookings[c].status) && (c, l) != (b, k)
  }

  /** Apart from the item itself, no item of this staff member is in its way. */
  ghost predicate IsUnbookedBeside(bookings: seq<Booking>, b: nat, k: nat, staff: StaffId)
    requires IsItem(bookings, b, k)
  {
    var item := bookings[b].items[k];
    forall c: nat, l: nat :: IsOther(bookings, b, k, c, l) ==> IsClearOf(bookings[c].items[l], staff, item.start, item.duration)
  }

  /** On the weekly schedule of that date for all of these minutes; a call-in does not count here. */
  ghost predicate IsRostered(r: Roster, staff: StaffId, day: Day, from: int, to: int) {
    exists s :: s in r.schedules && IsScheduled(s, staff, day) && s.start <= from && to <= s.end
  }

  ghost predicate WorksThen(r: Roster, staff: StaffId, item: Item, tzMins: int) {
    exists day, minute :: IsMinuteOf(item.start, tzMins, day, minute)
      && IsRostered(r, staff, day, minute, minute + item.duration) && IsNotOff(r, staff, day, minute, minute + item.duration)
  }

  /** The item has the new staff member, and nothing else changes. */
  ghost predicate IsReassigned(bookings: seq<Booking>, bookings': seq<Booking>, b: nat, k: nat, staff: StaffId)
    requires IsItem(bookings, b, k)
  {
    && |bookings'| == |bookings|
    && (forall c :: 0 <= c < |bookings| && c != b ==> bookings'[c] == bookings[c])
    && bookings'[b] == bookings[b].(items := bookings'[b].items)
    && |bookings'[b].items| == |bookings[b].items|
    && (forall l :: 0 <= l < |bookings[b].items| && l != k ==> bookings'[b].items[l] == bookings[b].items[l])
    && bookings'[b].items[k] == Item(staff, bookings[b].items[k].start, bookings[b].items[k].duration)
  }

  /** The scan that leaves out the item. */
  lemma BesideIs(bookings: seq<Booking>, b: nat, k: nat, staff: StaffId)
    requires IsItem(bookings, b, k)
    ensures var item := bookings[b].items[k];
            FindOverlap(Without(bookings, b, k), staff, item.start, item.duration).None?
            <==> IsUnbookedBeside(bookings, b, k, staff)
  {
    hide FindOverlap, IsClearOf;
    var item := bookings[b].items[k];
    var rest := Without(bookings, b, k);
    ScanIsUnbooked(rest, staff, item.start, item.duration);
    forall c: nat, l: nat | IsOther(bookings, b, k, c, l) && IsUnbooked(rest, staff, item.start, item.duration)
      ensures IsClearOf(bookings[c].items[l], staff, item.start, item.duration)
    {
      var l' := if c == b && l > k then l - 1 else l;
      assert rest[c].items[l'] == bookings[c].items[l];
    }
    forall c, l | 0 <= c < |rest| && 0 <= l < |rest[c].items| && IsActive(rest[c].status) && IsUnbookedBeside(bookings, b, k, staff)
      ensures IsClearOf(rest[c].items[l], staff, item.start, item.duration)
    {
      var l' := if c == b && l >= k then l + 1 else l;
      assert IsOther(bookings, b, k, c, l') && rest[c].items[l] == bookings[c].items[l'];
    }
  }

  // ----- The steps -------------------------------------------------------------------------------------------

  /** The check of a reassignment passes exactly when the booking is not finished and nothing else is in the way. */
  lemma CheckIs(s: State, b: nat, k: nat, staff: StaffId)
    ensures Apply(s, ReassignCheck(b, k, staff)).Some? <==>
              && IsItem(s.db.bookings, b, k)
              && s.db.bookings[b].status != Completed && s.db.bookings[b].status != Cancelled && s.db.bookings[b].status != Rejected
              && IsUnbookedBeside(s.db.bookings, b, k, staff)
  {
    hide FindOverlap, IsUnbookedBeside, Without;
    if IsItem(s.db.bookings, b, k) {
      BesideIs(s.db.bookings, b, k, staff);
    }
  }

  /** Its write, whatever has happened since, changes the staff of that item and nothing else. */
  lemma WriteIs(s: State, b: nat, k: nat, staff: StaffId, s': State)
    requires Apply(s, ReassignWrite(b, k, staff)) == Some(s')
    ensures IsItem(s.db.bookings, b, k) && IsReassigned(s.db.bookings, s'.db.bookings, b, k, staff)
    ensures s'.db == s.db.(bookings := s'.db.bookings) && s'.requests == s.requests && s'.locks == s.locks
  {
  }

  // ----- Whom the store is offered ---------------------------------------------------------------------------

  /** What `findAvailableStaffForSlot` asks about one active staff member. */
  predicate IsListed(r: Roster, bookings: seq<Booking>, b: nat, k: nat, tzMins: int, staff: StaffId)
    requires IsItem(bookings, b, k)
  {
    var item := bookings[b].items[k];
    var day, from := LocalDay(item.start, tzMins), LocalMins(item.start, tzMins);
    var schedule := Find(ScheduleOn(staff, DayOfWeek(day)), r.schedules);
    && schedule.Some? && schedule.value.start <= from && from + item.duration <= schedule.value.end
    && !HasDayOffConflict(r, staff, day, from, from + item.duration)
    && FindOverlap(Without(bookings, b, k), staff, item.start, item.duration).None?
  }

  lemma RosteredIs(r: Roster, staff: StaffId, day: Day, from: int, to: int)
    requires UniqueKeys(r)
    ensures IsRostered(r, staff, day, from, to) <==>
            var schedule := Find(ScheduleOn(staff, DayOfWeek(day)), r.schedules);
            schedule.Some? && schedule.value.start <= from && to <= schedule.value.end
  {
    forall s: Schedule ensures IsScheduled(s, staff, day) <==> ScheduleOn(staff, DayOfWeek(day))(s) {
      WeekdayIs(day, s.dayOfWeek);
    }
    forall s | s in r.schedules && IsScheduled(s, staff, day) ensures Find(ScheduleOn(staff, DayOfWeek(day)), r.schedules) == Some(s) {
      UniqueSchedule(r, staff, day, s);
    }
  }

  lemma ListedIs(r: Roster, bookings: seq<Booking>, b: nat, k: nat, tzMins: int, staff: StaffId)
    requires UniqueKeys(r) && IsItem(bookings, b, k)
    ensures IsListed(r, bookings, b, k, tzMins, staff)
       <==> IsUnbookedBeside(bookings, b, k, staff) && WorksThen(r, staff, bookings[b].items[k], tzMins)
  {
    hide FindOverlap, Without, IsUnbookedBeside, HasDayOffConflict, IsRostered, IsNotOff, LocalDay, LocalMins, UniqueKeys;
    var item := bookings[b].items[k];
    var day, minute := LocalDay(item.start, tzMins), LocalMins(item.start, tzMins);
    BesideIs(bookings, b, k, staff);
    RosteredIs(r, staff, day, minute, minute + item.duration);
    NotOffIs(r, staff, day, minute, minute + item.duration);
    forall d, m ensures IsMinuteOf(item.start, tzMins, d, m) <==> d == day && m == minute {
      LocalTimeIs(item.start, tzMins, d, m);
    }
    assert IsMinuteOf(item.start, tzMins, day, minute);
  }

  /**
   * Whoever is listed for an unfinished booking passes the check of a reassignment on the same tables. Of those who pass
   * it, exactly the ones who are off shift or off duty then are not listed: the check asks for neither.
   */
  lemma ListedExactly(s: State, r: Roster, b: nat, k: nat, tzMins: int, staff: StaffId)
    requires UniqueKeys(r) && IsItem(s.db.bookings, b, k) && IsActive(s.db.bookings[b].status)
    ensures IsListed(r, s.db.bookings, b, k, tzMins, staff)
       <==> Apply(s, ReassignCheck(b, k, staff)).Some? && WorksThen(r, staff, s.db.bookings[b].items[k], tzMins)
  {
    hide IsListed, UniqueKeys, IsUnbookedBeside, WorksThen, Apply;
    ActiveStatuses(s.db.bookings[b].status);
    CheckIs(s, b, k, staff);
    ListedIs(r, s.db.bookings, b, k, tzMins, staff);
  }

  // ----- The service -----------------------------------------------------------------------------------------

  datatype ReassignError = NotFound | Finished | StaffInactive | StaffBusy

  class BookingItemService {
    var db: Db

    constructor (db: Db)
      ensures this.db == db
    {
      this.db := db;
    }

    /** `findAvailableStaffForSlot`: None when there is no such item. */
    method FindAvailableStaffForSlot(r: Roster, b: nat, k: nat, tzMins: int) returns (list: Option<seq<StaffId>>)
      requires UniqueKeys(r)
      ensures list.Some? <==> IsItem(db.bookings, b, k)
      ensures list.Some? ==>
                forall id :: id in list.value <==>
                  && id in r.active
                  && IsUnbookedBeside(db.bookings, b, k, id)
                  && WorksThen(r, id, db.bookings[b].items[k], tzMins)
      ensures list.Some? ==> forall i, j :: 0 <= i < j < |list.value| ==> Precedes(r.active, list.value[i], list.value[j])
    {
      if b >= |db.bookings| || k >= |db.bookings[b].items| {
        return None;
      }
      hide IsListed, UniqueKeys, IsUnbookedBeside, WorksThen, Precedes;
      var available: seq<StaffId> := [];
      for i := 0 to |r.active|
        invariant forall id :: id in available <==> id in r.active[..i] && IsListed(r, db.bookings, b, k, tzMins, id)
        invariant forall j, l :: 0 <= j < l < |available| ==> Precedes(r.active[..i], available[j], available[l])
      {
        var staff := r.active[i];
        PrecedesMore(r.active, i, available);
        var qualifies := Qualifies(r, b, k, tzMins, staff);
        if qualifies {
          available := available + [staff];
        }
      }
      assert r.active[..|r.active|] == r.active;
      AllListed(r, db.bookings, b, k, tzMins);
      list := Some(available);
    }

    /** The queries and tests on one staff member. */
    method Qualifies(r: Roster, b: nat, k: nat, tzMins: int, staff: StaffId) returns (ok: bool)
      requires IsItem(db.bookings, b, k)
      ensures ok == IsListed(r, db.bookings, b, k, tzMins, staff)
    {
      var item := db.bookings[b].items[k];
      var day := LocalDay(item.start, tzMins);
      var localStart := LocalMins(item.start, tzMins);
      var localEnd := localStart + item.duration;
      var schedule := Find(ScheduleOn(staff, DayOfWeek(day)), r.schedules);
      if schedule.None? || HasDayOffConflict(r, staff, day, localStart, localEnd) {
        return false;
      }
      if localStart < schedule.value.start || localEnd > schedule.value.end {
        return false;
      }
      ok := FindOverlap(Without(db.bookings, b, k), staff, item.start, item.duration).None?;
    }

    /** `updateBookingItemStaff`, with nothing between its check and its write. */
    method UpdateBookingItemStaff(b: nat, k: nat, newStaff: StaffId, staffActive: bool) returns (r: Option<ReassignError>)
      modifies this
      ensures r == Some(NotFound) <==>
                b >= |old(db).bookings| || (k >= |old(db).bookings[b].items| && IsActive(old(db).bookings[b].status))
      ensures r == Some(Finished) <==>
                b < |old(db).bookings| && old(db).bookings[b].status in {Completed, Cancelled, Rejected}
      ensures r == Some(StaffInactive) <==>
                IsItem(old(db).bookings, b, k) && IsActive(old(db).bookings[b].status) && !staffActive
      ensures r == None <==>
                && IsItem(old(db).bookings, b, k) && IsActive(old(db).bookings[b].status)
                && staffActive && IsUnbookedBeside(old(db).bookings, b, k, newStaff)
      ensures r.Some? ==> db == old(db)
      ensures r == None ==>
                && IsReassigned(old(db).bookings, db.bookings, b, k, newStaff)
                && db == old(db).(bookings := db.bookings)
    {
      hide FindOverlap, IsUnbookedBeside;
      if b >= |db.bookings| {
        return Some(NotFound);
      }
      var booking := db.bookings[b];
      ActiveStatuses(booking.status);
      if booking.status in {Completed, Cancelled, Rejected} {
        return Some(Finished);
      }
      if k >= |booking.items| {
        return Some(NotFound);
      }
      if !staffActive {
        return Some(StaffInactive);
      }
      var item := booking.items[k];
      BesideIs(db.bookings, b, k, newStaff);
      var overlap := FindOverlap(Without(db.bookings, b, k), newStaff, item.start, item.duration);
      if overlap.Some? {
        return Some(StaffBusy);
      }
      db := db.(bookings := db.bookings[b := booking.(items := booking.items[k := item.(staff := newStaff)])]);
      r := None;
    }
  }

  lemma AllListed(r: Roster, bookings: seq<Booking>, b: nat, k: nat, tzMins: int)
    requires UniqueKeys(r) && IsItem(bookings, b, k)
    ensures forall id :: IsListed(r, bookings, b, k, tzMins, id) <==>
              IsUnbookedBeside(bookings, b, k, id) && WorksThen(r, id, bookings[b].items[k], tzMins)
  {
    hide IsListed, UniqueKeys, IsUnbookedBeside, WorksThen;
    forall id ensures IsListed(r, bookings, b, k, tzMins, id)
                 <==> IsUnbookedBeside(bookings, b, k, id) && WorksThen(r, id, bookings[b].items[k], tzMins) {
      ListedIs(r, bookings, b, k, tzMins, id);
    }
  }

  /** The list so far stays in table order, also with the next staff member. */
  lemma PrecedesMore(active: seq<StaffId>, i: nat, available: seq<StaffId>)
    requires i < |active| && forall id :: id in available ==> id in active[..i]
    requires forall j, l :: 0 <= j < l < |available| ==> Precedes(active[..i], available[j], available[l])
    ensures forall j, l :: 0 <= j < l < |available| ==> Precedes(active[..i + 1], available[j], available[l])
    ensures forall j :: 0 <= j < |available| ==> Precedes(active[..i + 1], available[j], active[i])
  {
    hide Precedes;
    assert active[..i + 1] == active[..i] + [active[i]];
    forall j, l | 0 <= j < l < |available| ensures Precedes(active[..i + 1], available[j], available[l]) {
      PrecedesLonger(active[..i], [active[i]], available[j], available[l]);
    }
    forall j | 0 <= j < |available| ensures Precedes(active[..i + 1], available[j], active[i]) {
      PrecedesLonger(active[..i], [active[i]], available[j], active[i]);
    }
  }
}
