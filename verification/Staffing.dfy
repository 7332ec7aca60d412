/** Who works when: weekly schedules, call-ins and days off, and the picker that lists available staff for an interval. */
module Staffing {
  import opened Common
  import opened Bookings
  import opened Sorting

  /** A local calendar date, as days since 1970-01-01. */
  type Day = int

  datatype Schedule = Schedule(staff: StaffId, dayOfWeek: int, start: nat, end: nat, isActive: bool)

  datatype CallInStatus = CallInPending | CallInAccepted | CallInRejected

  datatype CallIn = CallIn(staff: StaffId, day: Day, start: Option<nat>, end: Option<nat>, status: CallInStatus)

  datatype DayOffStatus = DayOffPending | DayOffApproved | DayOffRejected

  /** `hours` is None for a whole day off. */
  datatype DayOff = DayOff(staff: StaffId, day: Day, hours: Option<(nat, nat)>, status: DayOffStatus)

  /** The staff rows of one store that are ACTIVE, and the tables about them. Times are minutes of the local day. */
  datatype Roster = Roster(active: seq<StaffId>, schedules: seq<Schedule>, callIns: seq<CallIn>, dayOffs: seq<DayOff>)

  /** The unique keys of the four tables. */
  ghost predicate UniqueKeys(r: Roster) {
    && Distinct(r.active)
    && (forall i, j :: 0 <= i < j < |r.schedules| ==>
          (r.schedules[i].staff, r.schedules[i].dayOfWeek) != (r.schedules[j].staff, r.schedules[j].dayOfWeek))
    && (forall i, j :: 0 <= i < j < |r.callIns| ==> (r.callIns[i].staff, r.callIns[i].day) != (r.callIns[j].staff, r.callIns[j].day))
    && (forall i, j :: 0 <= i < j < |r.dayOffs| ==> (r.dayOffs[i].staff, r.dayOffs[i].day) != (r.dayOffs[j].staff, r.dayOffs[j].day))
  }

  // ----- Local time ------------------------------------------------------------------------------------------

  function LocalDay(t: Instant, tzMins: int): Day {
    (t + tzMins * MINUTE_MS) / DAY_MS
  }

  function LocalMins(t: Instant, tzMins: int): (m: nat)
    ensures m < 24 * 60
  {
    (t + tzMins * MINUTE_MS) % DAY_MS / MINUTE_MS
  }

  /** 0 is Sunday; day 0 was a Thursday. */
  function DayOfWeek(day: Day): int {
    (day + 4) % 7
  }

  // ----- One staff member at a time --------------------------------------------------------------------------

  function ScheduleOn(staff: StaffId, dayOfWeek: int): Schedule -> bool {
    (s: Schedule) => s.staff == staff && s.dayOfWeek == dayOfWeek && s.isActive
  }

  function CallInOn(staff: StaffId, day: Day): CallIn -> bool {
    (c: CallIn) => c.staff == staff && c.day == day && c.status == CallInAccepted
  }

  function DayOffOn(staff: StaffId, day: Day): DayOff -> bool {
    (d: DayOff) => d.staff == staff && d.day == day && d.status != DayOffRejected
  }

  /** The working window: the weekly schedule, else an accepted call-in that states both its times. */
  function WorkWindow(r: Roster, staff: StaffId, day: Day): Option<(nat, nat)> {
    var schedule := Find(ScheduleOn(staff, DayOfWeek(day)), r.schedules);
    var callIn := Find(CallInOn(staff, day), r.callIns);
    if schedule.Some? then Some((schedule.value.start, schedule.value.end))
    else if callIn.Some? && callIn.value.start.Some? && callIn.value.end.Some? then
      Some((callIn.value.start.value, callIn.value.end.value))
    else None
  }

  predicate DayOffBlocks(d: DayOff, startMins: int, endMins: int) {
    d.hours.None? || Overlaps(startMins, endMins, d.hours.value.0, d.hours.value.1)
  }

  predicate AnyBlocks(dayOffs: seq<DayOff>, startMins: int, endMins: int) {
    exists d :: d in dayOffs && DayOffBlocks(d, startMins, endMins)
  }

  predicate HasDayOffConflict(r: Roster, staff: StaffId, day: Day, startMins: int, endMins: int) {
    AnyBlocks(Filter(DayOffOn(staff, day), r.dayOffs), startMins, endMins)
  }

  /** The one-by-one question: on shift for the whole interval, not off, and not booked. */
  predicate IsAvailable(r: Roster, bookings: seq<Booking>, staff: StaffId, start: Instant, duration: nat, tzMins: int) {
    var day := LocalDay(start, tzMins);
    var startMins := LocalMins(start, tzMins);
    var endMins := startMins + duration;
    var window := WorkWindow(r, staff, day);
    && window.Some? && window.value.0 <= startMins && endMins <= window.value.1
    && !HasDayOffConflict(r, staff, day, startMins, endMins)
    && FindOverlap(bookings, staff, start, duration).None?
  }

  function Available(r: Roster, bookings: seq<Booking>, start: Instant, duration: nat, tzMins: int): StaffId -> bool {
    (staff: StaffId) => IsAvailable(r, bookings, staff, start, duration, tzMins)
  }

  /** Items in the scan window, the figure that balances work between staff. */
  function Workload(bookings: seq<Booking>, start: Instant, duration: nat): StaffId -> nat {
    (staff: StaffId) => |ScanWindow(bookings, staff, start, duration)|
  }

  /** Everyone the one-by-one question keeps, the least busy first. */
  function AvailableStaff(r: Roster, bookings: seq<Booking>, start: Instant, duration: nat, tzMins: int): seq<StaffId> {
    SortByLoad(Workload(bookings, start, duration), Filter(Available(r, bookings, start, duration, tzMins), r.active))
  }

  lemma AvailableStaffIs(r: Roster, bookings: seq<Booking>, start: Instant, duration: nat, tzMins: int)
    ensures var list := AvailableStaff(r, bookings, start, duration, tzMins);
            && (forall id :: id in list <==> id in r.active && IsAvailable(r, bookings, id, start, duration, tzMins))
            && Ascending(Workload(bookings, start, duration), list)
            && (Distinct(r.active) ==> Distinct(list))
  {
    var load := Workload(bookings, start, duration);
    var kept := Filter(Available(r, bookings, start, duration, tzMins), r.active);
    SortKeepsMembers(load, kept);
    SortIsAscending(load, kept);
    if Distinct(r.active) {
      FilterKeepsDistinct(Available(r, bookings, start, duration, tzMins), r.active);
      SortKeepsDistinct(load, kept);
    }
  }

  // ----- What the rows say -----------------------------------------------------------------------------------

  /** The instant lies in this minute of this local date. */
  predicate IsMinuteOf(t: Instant, tzMins: int, day: Day, minute: int) {
    && 0 <= minute < 1440
    && day * 86400000 + minute * 60000 <= t + tzMins * 60000 < day * 86400000 + (minute + 1) * 60000
  }

  /** Every instant lies in exactly one minute of one local date. */
  lemma LocalTimeIs(t: Instant, tzMins: int, day: Day, minute: int)
    ensures IsMinuteOf(t, tzMins, day, minute) <==> day == LocalDay(t, tzMins) && minute == LocalMins(t, tzMins)
  {
    var local := t + tzMins * 60000;
    var inDay := local % DAY_MS;
    assert local == LocalDay(t, tzMins) * DAY_MS + inDay;
    assert inDay == inDay / MINUTE_MS * MINUTE_MS + inDay % MINUTE_MS;
    assert IsMinuteOf(t, tzMins, LocalDay(t, tzMins), LocalMins(t, tzMins));
  }

  /** Sunday is 0. */
  ghost predicate IsWeekday(day: Day, dayOfWeek: int) {
    0 <= dayOfWeek < 7 && exists weeks: int :: IsWeeksAfter(day, dayOfWeek, weeks)
  }

  /** The first Sunday of 1970 was 4 January, day 3. */
  predicate IsWeeksAfter(day: Day, dayOfWeek: int, weeks: int) {
    day == 3 + 7 * weeks + dayOfWeek
  }

  lemma WeekdayIs(day: Day, dayOfWeek: int)
    ensures IsWeekday(day, dayOfWeek) <==> dayOfWeek == DayOfWeek(day)
  {
    var weeks := (day + 4) / 7 - 1;
    assert day + 4 == (day + 4) / 7 * 7 + (day + 4) % 7;
    assert IsWeeksAfter(day, DayOfWeek(day), weeks);
    if IsWeekday(day, dayOfWeek) {
      var n: int :| IsWeeksAfter(day, dayOfWeek, n);
      assert day + 4 == 7 * (n + 1) + dayOfWeek;
    }
  }

  ghost predicate IsScheduled(s: Schedule, staff: StaffId, day: Day) {
    s.staff == staff && s.isActive && IsWeekday(day, s.dayOfWeek)
  }

  predicate IsCalledIn(c: CallIn, staff: StaffId, day: Day) {
    c.staff == staff && c.day == day && c.status == CallInAccepted
  }

  /** A day off counts from the day it is asked for, unless it is refused. */
  predicate IsOff(d: DayOff, staff: StaffId, day: Day) {
    d.staff == staff && d.day == day && (d.status == DayOffPending || d.status == DayOffApproved)
  }

  ghost predicate HasSchedule(r: Roster, staff: StaffId, day: Day) {
    exists s :: s in r.schedules && IsScheduled(s, staff, day)
  }

  /** The weekly schedule covers these minutes, or there is none and an accepted call-in with both times does. */
  ghost predicate IsOnShift(r: Roster, staff: StaffId, day: Day, from: int, to: int) {
    if HasSchedule(r, staff, day) then
      exists s :: s in r.schedules && IsScheduled(s, staff, day) && s.start <= from && to <= s.end
    else
      exists c :: c in r.callIns && IsCalledIn(c, staff, day) && c.start.Some? && c.end.Some?
                  && c.start.value <= from && to <= c.end.value
  }

  /** No day off of that date, whole or partial, touches these minutes. */
  ghost predicate IsNotOff(r: Roster, staff: StaffId, day: Day, from: int, to: int) {
    forall d :: d in r.dayOffs && IsOff(d, staff, day) ==> d.hours.Some? && (to <= d.hours.value.0 || d.hours.value.1 <= from)
  }

  /** Active, on shift, not off, and not booked. */
  ghost predicate CanTake(r: Roster, bookings: seq<Booking>, staff: StaffId, start: Instant, duration: nat, tzMins: int) {
    && staff in r.active && IsUnbooked(bookings, staff, start, duration)
    && exists day, minute :: IsMinuteOf(start, tzMins, day, minute)
         && IsOnShift(r, staff, day, minute, minute + duration) && IsNotOff(r, staff, day, minute, minute + duration)
  }

  lemma UniqueSchedule(r: Roster, staff: StaffId, day: Day, s: Schedule)
    requires UniqueKeys(r) && s in r.schedules && ScheduleOn(staff, DayOfWeek(day))(s)
    ensures Find(ScheduleOn(staff, DayOfWeek(day)), r.schedules) == Some(s)
  {
    var found := Find(ScheduleOn(staff, DayOfWeek(day)), r.schedules);
    var i :| 0 <= i < |r.schedules| && r.schedules[i] == s;
    var j :| 0 <= j < |r.schedules| && r.schedules[j] == found.value;
    assert i == j;
  }

  lemma UniqueCallIn(r: Roster, staff: StaffId, day: Day, c: CallIn)
    requires UniqueKeys(r) && c in r.callIns && CallInOn(staff, day)(c)
    ensures Find(CallInOn(staff, day), r.callIns) == Some(c)
  {
    var found := Find(CallInOn(staff, day), r.callIns);
    var i :| 0 <= i < |r.callIns| && r.callIns[i] == c;
    var j :| 0 <= j < |r.callIns| && r.callIns[j] == found.value;
    assert i == j;
  }

  lemma ShiftIs(r: Roster, staff: StaffId, day: Day, from: int, to: int)
    requires UniqueKeys(r)
    ensures IsOnShift(r, staff, day, from, to) <==>
            var window := WorkWindow(r, staff, day);
            window.Some? && window.value.0 <= from && to <= window.value.1
  {
    forall s: Schedule ensures IsScheduled(s, staff, day) <==> ScheduleOn(staff, DayOfWeek(day))(s) {
      WeekdayIs(day, s.dayOfWeek);
    }
    forall s | s in r.schedules && IsScheduled(s, staff, day) ensures Find(ScheduleOn(staff, DayOfWeek(day)), r.schedules) == Some(s) {
      UniqueSchedule(r, staff, day, s);
    }
    forall c | c in r.callIns && IsCalledIn(c, staff, day) ensures Find(CallInOn(staff, day), r.callIns) == Some(c) {
      UniqueCallIn(r, staff, day, c);
    }
  }

  lemma NotOffIs(r: Roster, staff: StaffId, day: Day, from: int, to: int)
    ensures IsNotOff(r, staff, day, from, to) <==> !HasDayOffConflict(r, staff, day, from, to)
  {
    var rows := Filter(DayOffOn(staff, day), r.dayOffs);
    forall d: DayOff ensures IsOff(d, staff, day) <==> DayOffOn(staff, day)(d) {
    }
    forall d | d in rows ensures DayOffBlocks(d, from, to) <==> !(d.hours.Some? && (to <= d.hours.value.0 || d.hours.value.1 <= from)) {
    }
  }

  lemma AvailableIs(r: Roster, bookings: seq<Booking>, staff: StaffId, start: Instant, duration: nat, tzMins: int)
    requires UniqueKeys(r) && staff in r.active
    ensures IsAvailable(r, bookings, staff, start, duration, tzMins) <==> CanTake(r, bookings, staff, start, duration, tzMins)
  {
    hide WorkWindow, HasDayOffConflict, FindOverlap, IsUnbooked, IsOnShift, IsNotOff, LocalDay, LocalMins, UniqueKeys;
    var day, minute := LocalDay(start, tzMins), LocalMins(start, tzMins);
    ShiftIs(r, staff, day, minute, minute + duration);
    NotOffIs(r, staff, day, minute, minute + duration);
    ScanIsUnbooked(bookings, staff, start, duration);
    forall d, m ensures IsMinuteOf(start, tzMins, d, m) <==> d == day && m == minute {
      LocalTimeIs(start, tzMins, d, m);
    }
    assert IsMinuteOf(start, tzMins, day, minute);
  }

  /** How many of these items are the staff member's and begin between the two instants. */
  function CountIn(items: seq<Item>, staff: StaffId, from: Instant, to: Instant): nat {
    if items == [] then 0
    else
      var x := items[|items| - 1];
      CountIn(items[..|items| - 1], staff, from, to) + (if x.staff == staff && from <= x.start <= to then 1 else 0)
  }

  /** The same over all active bookings. */
  function CountNear(bookings: seq<Booking>, staff: StaffId, from: Instant, to: Instant): nat {
    if bookings == [] then 0
    else
      var last := bookings[|bookings| - 1];
      CountNear(bookings[..|bookings| - 1], staff, from, to) + (if IsActive(last.status) then CountIn(last.items, staff, from, to) else 0)
  }

  lemma {:induction false} CountInIs(p: Item -> bool, items: seq<Item>, staff: StaffId, from: Instant, to: Instant)
    requires forall x :: p(x) <==> x.staff == staff && from <= x.start <= to
    ensures |Filter(p, items)| == CountIn(items, staff, from, to)
  {
    if items != [] {
      CountInIs(p, items[..|items| - 1], staff, from, to);
    }
  }

  lemma {:induction false} CountNearIs(p: Item -> bool, bookings: seq<Booking>, staff: StaffId, from: Instant, to: Instant)
    requires forall x :: p(x) <==> x.staff == staff && from <= x.start <= to
    ensures |Filter(p, BusyItems(bookings))| == CountNear(bookings, staff, from, to)
  {
    hide Filter;
    if bookings == [] {
      FilterKeepsNone(p, BusyItems(bookings));
    } else {
      var n := |bookings| - 1;
      var added := if IsActive(bookings[n].status) then bookings[n].items else [];
      CountNearIs(p, bookings[..n], staff, from, to);
      CountInIs(p, added, staff, from, to);
      FilterAppend(p, BusyItems(bookings[..n]), added);
    }
  }

  /** The workload is the number of active items that begin from six hours before the interval to its end. */
  lemma WorkloadIs(bookings: seq<Booking>, staff: StaffId, start: Instant, duration: nat)
    ensures Workload(bookings, start, duration)(staff)
         == CountNear(bookings, staff, start - 6 * 3600000, start + duration * 60000)
  {
    CountNearIs(InScan(staff, start, duration), bookings, staff, start - 6 * 3600000, start + duration * 60000);
  }

  /** The picker's answer, in terms of the rows: who is in it, once each, and in which order. */
  ghost predicate IsPick(list: seq<StaffId>, r: Roster, bookings: seq<Booking>, start: Instant, duration: nat, tzMins: int) {
    && (forall id :: id in list <==> CanTake(r, bookings, id, start, duration, tzMins))
    && (forall i, j :: 0 <= i < j < |list| ==> list[i] != list[j] && ComesBefore(list[i], list[j], r, bookings, start, duration))
  }

  /** Fewer items near the interval, or as many and an earlier row. */
  ghost predicate ComesBefore(x: StaffId, y: StaffId, r: Roster, bookings: seq<Booking>, start: Instant, duration: nat) {
    var nx := CountNear(bookings, x, start - 6 * 3600000, start + duration * 60000);
    var ny := CountNear(bookings, y, start - 6 * 3600000, start + duration * 60000);
    nx < ny || (nx == ny && Precedes(r.active, x, y))
  }

  /** What the list means: exactly the staff who can take the interval, the least busy first, ties in table order. */
  lemma AvailableStaffMeaning(r: Roster, bookings: seq<Booking>, start: Instant, duration: nat, tzMins: int)
    requires UniqueKeys(r)
    ensures IsPick(AvailableStaff(r, bookings, start, duration, tzMins), r, bookings, start, duration, tzMins)
  {
    hide IsAvailable, CanTake, CountNear, Workload, Precedes, Filter, SortByLoad;
    AvailableStaffIs(r, bookings, start, duration, tzMins);
    var load := Workload(bookings, start, duration);
    var kept := Filter(Available(r, bookings, start, duration, tzMins), r.active);
    var list := AvailableStaff(r, bookings, start, duration, tzMins);
    forall id ensures id in list <==> CanTake(r, bookings, id, start, duration, tzMins) {
      if id in r.active {
        AvailableIs(r, bookings, id, start, duration, tzMins);
      } else {
        OnlyActiveTake(r, bookings, id, start, duration, tzMins);
      }
    }
    forall i, j | 0 <= i < j < |list| ensures ComesBefore(list[i], list[j], r, bookings, start, duration) {
      WorkloadIs(bookings, list[i], start, duration);
      WorkloadIs(bookings, list[j], start, duration);
      if load(list[i]) == load(list[j]) {
        SortIsStable(load, kept, i, j);
        FilterPrecedes(Available(r, bookings, start, duration, tzMins), r.active, list[i], list[j]);
      }
    }
  }

  lemma OnlyActiveTake(r: Roster, bookings: seq<Booking>, id: StaffId, start: Instant, duration: nat, tzMins: int)
    ensures CanTake(r, bookings, id, start, duration, tzMins) ==> id in r.active
  {
  }

  // ----- The batched picker ----------------------------------------------------------------------------------

  // The four batch queries: the rows of all the given staff at once.

  function SchedulesOf(ids: seq<StaffId>, dayOfWeek: int): Schedule -> bool {
    (s: Schedule) => s.staff in ids && s.dayOfWeek == dayOfWeek && s.isActive
  }

  function CallInsOf(ids: seq<StaffId>, day: Day): CallIn -> bool {
    (c: CallIn) => c.staff in ids && c.day == day && c.status == CallInAccepted
  }

  function DayOffsOf(ids: seq<StaffId>, day: Day): DayOff -> bool {
    (d: DayOff) => d.staff in ids && d.day == day && d.status != DayOffRejected
  }

  function ItemsOf(ids: seq<StaffId>, start: Instant, duration: nat): Item -> bool {
    (x: Item) => x.staff in ids && start - OVERLAP_SCAN_MARGIN_MS <= x.start <= start + duration * MINUTE_MS
  }

  function ByStaffDayOff(): DayOff -> nat {
    (d: DayOff) => d.staff
  }

  function ByStaffItem(): Item -> nat {
    (x: Item) => x.staff
  }

  /** What the picker holds in its four maps is, for each staff member, what the one-by-one queries would return. */
  datatype Batch = Batch(schedules: map<StaffId, Schedule>, callIns: map<StaffId, CallIn>,
                         dayOffs: map<StaffId, seq<DayOff>>, busy: map<StaffId, seq<Item>>)

  ghost predicate FaithfulFor(b: Batch, r: Roster, bookings: seq<Booking>, start: Instant, duration: nat, day: Day, id: StaffId) {
    && Find(ScheduleOn(id, DayOfWeek(day)), r.schedules) == (if id in b.schedules then Some(b.schedules[id]) else None)
    && Find(CallInOn(id, day), r.callIns) == (if id in b.callIns then Some(b.callIns[id]) else None)
    && Rows(b.dayOffs, id) == Filter(DayOffOn(id, day), r.dayOffs)
    && Rows(b.busy, id) == ScanWindow(bookings, id, start, duration)
  }

  ghost predicate Faithful(b: Batch, r: Roster, bookings: seq<Booking>, start: Instant, duration: nat, day: Day) {
    forall id {:trigger FaithfulFor(b, r, bookings, start, duration, day, id)} ::
      id in r.active ==> FaithfulFor(b, r, bookings, start, duration, day, id)
  }

  lemma GroupedRowsAreQueries(r: Roster, bookings: seq<Booking>, ids: seq<StaffId>, start: Instant, duration: nat, day: Day, id: StaffId)
    requires id in ids
    ensures Filter(KeyIs(ByStaffDayOff(), id), Filter(DayOffsOf(ids, day), r.dayOffs)) == Filter(DayOffOn(id, day), r.dayOffs)
    ensures Filter(KeyIs(ByStaffItem(), id), Filter(ItemsOf(ids, start, duration), BusyItems(bookings)))
            == ScanWindow(bookings, id, start, duration)
  {
    FilterTwice(KeyIs(ByStaffDayOff(), id), DayOffsOf(ids, day), DayOffOn(id, day), r.dayOffs);
    FilterTwice(KeyIs(ByStaffItem(), id), ItemsOf(ids, start, duration), InScan(id, start, duration), BusyItems(bookings));
  }

  /** Fills a map row by row, a later row replacing an earlier one with the same key. */
  method IndexBy<T(!new)>(rows: seq<T>, key: T -> nat) returns (m: map<nat, T>)
    ensures Indexes(m, rows, key)
  {
    m := map[];
    for i := 0 to |rows|
      invariant forall k :: k in m ==> m[k] in rows[..i] && key(m[k]) == k
      invariant forall j :: 0 <= j < i ==> key(rows[j]) in m
    {
      m := m[key(rows[i]) := rows[i]];
    }
  }

  function ByStaffSchedule(): Schedule -> nat {
    (s: Schedule) => s.staff
  }

  function ByStaffCallIn(): CallIn -> nat {
    (c: CallIn) => c.staff
  }

  ghost predicate Indexes<T(!new)>(m: map<nat, T>, rows: seq<T>, key: T -> nat) {
    && (forall k :: k in m ==> m[k] in rows && key(m[k]) == k)
    && (forall x :: x in rows ==> key(x) in m)
  }

  lemma IndexedRowsAreQueries(r: Roster, ids: seq<StaffId>, day: Day, id: StaffId,
                              schedules: map<StaffId, Schedule>, callIns: map<StaffId, CallIn>)
    requires UniqueKeys(r) && id in ids
    requires Indexes(schedules, Filter(SchedulesOf(ids, DayOfWeek(day)), r.schedules), ByStaffSchedule())
    requires Indexes(callIns, Filter(CallInsOf(ids, day), r.callIns), ByStaffCallIn())
    ensures Find(ScheduleOn(id, DayOfWeek(day)), r.schedules) == if id in schedules then Some(schedules[id]) else None
    ensures Find(CallInOn(id, day), r.callIns) == if id in callIns then Some(callIns[id]) else None
  {
    hide UniqueKeys;
    if id in schedules {
      UniqueSchedule(r, id, day, schedules[id]);
    }
    if id in callIns {
      UniqueCallIn(r, id, day, callIns[id]);
    }
  }

  /** One round of queries for all staff, grouped into maps. */
  method FetchBatch(r: Roster, bookings: seq<Booking>, start: Instant, duration: nat, day: Day) returns (b: Batch)
    requires UniqueKeys(r)
    ensures Faithful(b, r, bookings, start, duration, day)
  {
    var ids := r.active;
    var schedules := IndexBy(Filter(SchedulesOf(ids, DayOfWeek(day)), r.schedules), ByStaffSchedule());
    var callIns := IndexBy(Filter(CallInsOf(ids, day), r.callIns), ByStaffCallIn());
    var dayOffs := GroupBy(Filter(DayOffsOf(ids, day), r.dayOffs), ByStaffDayOff());
    var busy := GroupBy(Filter(ItemsOf(ids, start, duration), BusyItems(bookings)), ByStaffItem());
    b := Batch(schedules, callIns, dayOffs, busy);
    forall id | id in ids ensures FaithfulFor(b, r, bookings, start, duration, day, id) {
      IndexedRowsAreQueries(r, ids, day, id, schedules, callIns);
      GroupedRowsAreQueries(r, bookings, ids, start, duration, day, id);
    }
  }

  /** The tests on one staff member, from the batch, and its workload. */
  method Examine(b: Batch, r: Roster, bookings: seq<Booking>, start: Instant, duration: nat, tzMins: int, id: StaffId)
    returns (ok: bool, load: nat)
    requires Faithful(b, r, bookings, start, duration, LocalDay(start, tzMins)) && id in r.active
    ensures ok == Available(r, bookings, start, duration, tzMins)(id)
    ensures load == Workload(bookings, start, duration)(id)
    ensures UniqueKeys(r) ==> (ok <==> CanTake(r, bookings, id, start, duration, tzMins))
    ensures load == CountNear(bookings, id, start - 6 * 3600000, start + duration * 60000)
  {
    hide CanTake, CountNear, UniqueKeys;
    WorkloadIs(bookings, id, start, duration);
    if UniqueKeys(r) {
      AvailableIs(r, bookings, id, start, duration, tzMins);
    }
    assert FaithfulFor(b, r, bookings, start, duration, LocalDay(start, tzMins), id);
    var localStart := LocalMins(start, tzMins);
    var localEnd := localStart + duration;
    load := |Rows(b.busy, id)|;
    if id !in b.schedules && id !in b.callIns {
      return false, load;
    }
    if AnyBlocks(Rows(b.dayOffs, id), localStart, localEnd) {
      return false, load;
    }
    var from := if id in b.schedules then Some(b.schedules[id].start) else b.callIns[id].start;
    var to := if id in b.schedules then Some(b.schedules[id].end) else b.callIns[id].end;
    if from.None? || to.None? {
      return false, load;
    }
    if localStart < from.value || localEnd > to.value {
      return false, load;
    }
    ok := Find(Blocks(start, duration), Rows(b.busy, id)).None?;
  }

  /** The candidate loop: everyone who qualifies, in table order, with the number of items in the scan window. */
  method CollectCandidates(r: Roster, bookings: seq<Booking>, start: Instant, duration: nat, tzMins: int)
    returns (candidates: seq<(StaffId, nat)>)
    requires UniqueKeys(r)
    ensures Tagged(Workload(bookings, start, duration), candidates,
                   Filter(Available(r, bookings, start, duration, tzMins), r.active))
  {
    var batch := FetchBatch(r, bookings, start, duration, LocalDay(start, tzMins));
    ghost var keep := Available(r, bookings, start, duration, tzMins);
    ghost var load := Workload(bookings, start, duration);
    candidates := [];
    for i := 0 to |r.active|
      invariant Tagged(load, candidates, Filter(keep, r.active[..i]))
    {
      var id := r.active[i];
      TaggedStep(load, keep, candidates, r.active, i);
      var ok, items := Examine(batch, r, bookings, start, duration, tzMins, id);
      if ok {
        candidates := candidates + [(id, items)];
      }
    }
    assert r.active[..|r.active|] == r.active;
  }

  /** Lists the available staff of a store, the least busy first, from one batch of queries. */
  method PickAvailableStaff(r: Roster, bookings: seq<Booking>, start: Instant, duration: nat, tzMins: int)
    returns (list: seq<StaffId>)
    requires UniqueKeys(r)
    ensures list == AvailableStaff(r, bookings, start, duration, tzMins)
    ensures IsPick(list, r, bookings, start, duration, tzMins)
  {
    hide IsPick;
    AvailableStaffMeaning(r, bookings, start, duration, tzMins);
    if |r.active| == 0 {
      list := [];
      assert list == AvailableStaff(r, bookings, start, duration, tzMins);
      return;
    }
    var candidates := CollectCandidates(r, bookings, start, duration, tzMins);
    SortTagged(Workload(bookings, start, duration), candidates, Filter(Available(r, bookings, start, duration, tzMins), r.active));
    var sorted := SortByLoad(Second(), candidates);
    list := seq(|sorted|, i requires 0 <= i < |sorted| => sorted[i].0);
    assert list == AvailableStaff(r, bookings, start, duration, tzMins);
  }
}
