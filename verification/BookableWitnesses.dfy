/**
 * Searches whose offers the booking code refuses, one for each thing the search does not see: work that began on another
 * day, work that starts off the minute, and a call-in that does not state its times.
 */
module BookableWitnesses {
  import opened Common
  import opened Bookings
  import opened Sorting
  import opened Staffing
  import opened Slots
  import opened SlotData
  import opened Bookable

  const STAFF: StaffId := 7

  /** A half-hour service by one staff member, on day 1 of a store that opens for the first hour of the day. */
  function SmallQuery(callIns: seq<CallIn>, schedules: seq<Schedule>, bookings: seq<Booking>): Query {
    Query(Roster([STAFF], schedules, callIns, []), bookings, 0, 1, 0, 60, 30, [SlotService(Some(STAFF), 30)], 1, false, -1)
  }

  lemma OneServiceSlot(q: Query, slot: nat, info: StaffInfo)
    requires q.services == [SlotService(Some(STAFF), 30)] && q.open == 0 && q.close == 60 && q.interval == 30 && !q.isToday
    requires slot == 0 || slot == 30
    requires Info(q, STAFF) == Some(info) && Fits(info, Window(slot, slot + 30))
    requires forall b :: b in q.bookings ==> b.customer.None?
    ensures Offered(BoardOf(q), slot)
  {
    hide Info, Fits;
    var b := BoardOf(q);
    assert q.services[..0] == [];
    assert TotalDuration(q.services) == 30;
    assert Everyone(q.roster, q.services) == [] + [STAFF];
    assert STAFF in b.infos && b.infos[STAFF] == info;
    assert WindowOf(b, slot, 0) == Window(slot, slot + 30);
    assert ServesAt(b, slot, 0, STAFF);
    assert ValidAssignment(b, slot, [STAFF]);
    FilterKeepsNone(CustomerDayBookings(q), q.bookings);
    assert b.customerBusy == [];
    assert StepsApart(0, slot, 30, slot / 30);
    OfferedExactly(b, slot);
  }

  lemma FindOnly<T>(p: T -> bool, x: T)
    ensures Find(p, [x]) == if p(x) then Some(x) else None
    ensures Find(p, []) == None
  {
    assert [x][1..] == [];
  }

  function AllDay(): Schedule {
    Schedule(STAFF, DayOfWeek(1), 0, DAY_MINS, true)
  }

  function NightWork(): Item {
    Item(STAFF, (DAY_MINS - 30) * MINUTE_MS, 60)
  }

  function NightBooking(): Booking {
    Booking(0, None, NightWork().start, 60, Confirmed, [NightWork()])
  }

  lemma NightWorkIsNotToday(q: Query)
    requires q.bookings == [NightBooking()] && q.day == 1 && q.tzMins == 0
    ensures BusyWindows(q, STAFF) == []
  {
    assert q.bookings[..0] == [];
    assert BusyItems(q.bookings) == BusyItems([]) + [NightWork()];
    FilterKeepsNone(DayItemsOf(q, STAFF), BusyItems(q.bookings));
  }

  lemma ScheduleInfo(q: Query)
    requires q.roster == Roster([STAFF], [AllDay()], [], []) && q.day == 1 && q.open == 0 && q.close == 60
    ensures Info(q, STAFF) == Some(StaffInfo(0, 60, BusyWindows(q, STAFF)))
  {
    hide BusyWindows;
    FindOnly(ScheduleOn(STAFF, DayOfWeek(1)), AllDay());
    assert BusyWindows(q, STAFF) + [] == BusyWindows(q, STAFF);
  }

  /** Half an hour of work before midnight and half an hour after: the search of the next day does not see it. */
  lemma WorkAcrossMidnightIsOverlooked() returns (q: Query)
    ensures UniqueKeys(q.roster) && q.interval > 0 && Offered(BoardOf(q), 0)
    ensures FindOverlap(q.bookings, STAFF, AtMinute(q, 0), 30).Some?
  {
    hide Info, BusyWindows, Offered, BoardOf, FindOverlap;
    q := SmallQuery([], [AllDay()], [NightBooking()]);
    NightWorkIsNotToday(q);
    ScheduleInfo(q);
    OneServiceSlot(q, 0, StaffInfo(0, 60, []));
    ScanSeesSixHours(q.bookings, Item(STAFF, AtMinute(q, 0), 30));
    assert InSight(q.bookings, 0, 0, Item(STAFF, AtMinute(q, 0), 30));
  }

  /** Half an hour of work that starts half a minute after midnight. */
  function LateWork(): Item {
    Item(STAFF, DAY_MINS * MINUTE_MS + MINUTE_MS / 2, 30)
  }

  lemma LateWorkIsRoundedDown(q: Query)
    requires q.bookings == [Booking(0, None, LateWork().start, 30, Confirmed, [LateWork()])] && q.day == 1 && q.tzMins == 0
    ensures BusyWindows(q, STAFF) == [Window(0, 30)]
  {
    assert q.bookings[..0] == [];
    assert BusyItems(q.bookings) == BusyItems([]) + [LateWork()];
    FilterKeepsAll(DayItemsOf(q, STAFF), BusyItems(q.bookings));
    assert BusyItems(q.bookings)[..0] == [];
    assert LocalMins(LateWork().start, 0) == 0;
  }

  /** Work that starts off the minute ends off the minute: the search rounds it down and offers the half hour after it. */
  lemma OffMinuteWorkIsMisread() returns (q: Query)
    ensures UniqueKeys(q.roster) && q.interval > 0 && Offered(BoardOf(q), 30)
    ensures FindOverlap(q.bookings, STAFF, AtMinute(q, 30), 30).Some?
  {
    hide Info, BusyWindows, Offered, BoardOf, FindOverlap;
    q := SmallQuery([], [AllDay()], [Booking(0, None, LateWork().start, 30, Confirmed, [LateWork()])]);
    LateWorkIsRoundedDown(q);
    ScheduleInfo(q);
    OneServiceSlot(q, 30, StaffInfo(0, 60, [Window(0, 30)]));
    ScanSeesSixHours(q.bookings, Item(STAFF, AtMinute(q, 30), 30));
    assert InSight(q.bookings, 0, 0, Item(STAFF, AtMinute(q, 30), 30));
  }

  lemma CallInInfo(q: Query)
    requires q.roster == Roster([STAFF], [], [CallIn(STAFF, 1, None, None, CallInAccepted)], []) && q.day == 1
    requires q.open == 0 && q.close == 60 && q.bookings == []
    ensures Info(q, STAFF) == Some(StaffInfo(0, 60, []))
    ensures WorkWindow(q.roster, STAFF, 1).None?
  {
    FindOnly(CallInOn(STAFF, 1), CallIn(STAFF, 1, None, None, CallInAccepted));
    assert BusyWindows(q, STAFF) + [] == [];
  }

  /** A call-in that does not state its times: the search falls back to opening hours, the staff picker refuses. */
  lemma OpenEndedCallInIsRefused() returns (q: Query)
    ensures UniqueKeys(q.roster) && q.interval > 0 && Offered(BoardOf(q), 0)
    ensures forall id :: id !in AvailableStaff(q.roster, q.bookings, AtMinute(q, 0), 30, q.tzMins)
  {
    hide Info, BoardOf, Offered, AvailableStaff, WorkWindow, HasDayOffConflict, FindOverlap;
    q := SmallQuery([CallIn(STAFF, 1, None, None, CallInAccepted)], [], []);
    CallInInfo(q);
    OneServiceSlot(q, 0, StaffInfo(0, 60, []));
    ClockOf(q, 0);
    AvailableStaffIs(q.roster, q.bookings, AtMinute(q, 0), 30, q.tzMins);
  }
}
