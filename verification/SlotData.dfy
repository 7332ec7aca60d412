/** The tables one slot search reads, and the board they give. */
module SlotData {
  import opened Common
  import opened Bookings
  import opened Staffing
  import opened Slots

  /** Everything the search reads: the tables, the local date, the store's opening hours and the request. */
  datatype Query = Query(
    roster: Roster, bookings: seq<Booking>, tzMins: int, day: Day, open: nat, close: nat, interval: nat,
    services: seq<SlotService>, customer: UserId, isToday: bool, nowMins: int)

  // ----- What is known of one staff member -------------------------------------------------------------------

  function DayStart(q: Query): Instant {
    q.day * DAY_MS - q.tzMins * MINUTE_MS
  }

  predicate InDay(q: Query, t: Instant) {
    DayStart(q) <= t <= DayStart(q) + DAY_MS - 1
  }

  function DayItemsOf(q: Query, staff: StaffId): Item -> bool {
    (x: Item) => x.staff == staff && InDay(q, x.start)
  }

  function ToWindow(q: Query, x: Item): Window {
    var start := LocalMins(x.start, q.tzMins);
    Window(start, start + x.duration)
  }

  function ToWindows(q: Query, items: seq<Item>): (r: seq<Window>)
    ensures |r| == |items| && forall i :: 0 <= i < |r| ==> r[i] == ToWindow(q, items[i])
  {
    if items == [] then [] else ToWindows(q, items[..|items| - 1]) + [ToWindow(q, items[|items| - 1])]
  }

  function BusyWindows(q: Query, staff: StaffId): seq<Window> {
    ToWindows(q, Filter(DayItemsOf(q, staff), BusyItems(q.bookings)))
  }

  function Later(a: int, b: int): int { if a < b then b else a }

  function Earlier(a: int, b: int): int { if a < b then a else b }

  /** The window and busy times derived from one schedule, call-in and day-off row; None when not working. */
  function InfoFrom(q: Query, schedule: Option<Schedule>, callIn: Option<CallIn>, dayOff: Option<DayOff>,
                    existingBusy: seq<Window>): Option<StaffInfo>
  {
    if schedule.None? && callIn.None? then None
    else if dayOff.Some? && dayOff.value.hours.None? then None
    else
      var scheduleStart := if schedule.Some? then Some(schedule.value.start) else None;
      var scheduleEnd := if schedule.Some? then Some(schedule.value.end) else None;
      var callInStart := if callIn.Some? then callIn.value.start else None;
      var callInEnd := if callIn.Some? then callIn.value.end else None;
      var windowStart := Later(q.open, GetOrElse(scheduleStart, GetOrElse(callInStart, q.open)));
      var windowEnd := Earlier(q.close, GetOrElse(scheduleEnd, GetOrElse(callInEnd, q.close)));
      if windowStart >= windowEnd then None
      else
        var partialBusy := if dayOff.Some? then [Window(dayOff.value.hours.value.0, dayOff.value.hours.value.1)] else [];
        Some(StaffInfo(windowStart, windowEnd, existingBusy + partialBusy))
  }

  function Info(q: Query, staff: StaffId): Option<StaffInfo> {
    InfoFrom(q, Find(ScheduleOn(staff, DayOfWeek(q.day)), q.roster.schedules),
             Find(CallInOn(staff, q.day), q.roster.callIns),
             Find(DayOffOn(staff, q.day), q.roster.dayOffs),
             BusyWindows(q, staff))
  }

  function QualifiedFor(roster: Roster, svc: SlotService): seq<StaffId> {
    if svc.staff.Some? then [svc.staff.value] else roster.active
  }

  /** Everyone some requested service may be given to, service by service. */
  function Everyone(roster: Roster, services: seq<SlotService>): seq<StaffId> {
    if services == [] then []
    else Everyone(roster, services[..|services| - 1]) + QualifiedFor(roster, services[|services| - 1])
  }

  function CustomerDayBookings(q: Query): Booking -> bool {
    (b: Booking) => b.customer == Some(q.customer) && IsActive(b.status) && InDay(q, b.scheduledAt)
  }

  function BookingWindow(q: Query, b: Booking): Window {
    var start := LocalMins(b.scheduledAt, q.tzMins);
    Window(start, start + b.totalDuration)
  }

  function BookingWindows(q: Query, bookings: seq<Booking>): (r: seq<Window>)
    ensures |r| == |bookings| && forall i :: 0 <= i < |r| ==> r[i] == BookingWindow(q, bookings[i])
  {
    if bookings == [] then []
    else BookingWindows(q, bookings[..|bookings| - 1]) + [BookingWindow(q, bookings[|bookings| - 1])]
  }

  function Infos(q: Query): map<StaffId, StaffInfo> {
    map staff | staff in Everyone(q.roster, q.services) && Info(q, staff).Some? :: Info(q, staff).value
  }

  function BoardOf(q: Query): Board {
    Board(Infos(q), q.roster.active, q.open, q.close, q.interval, q.services,
          BookingWindows(q, Filter(CustomerDayBookings(q), q.bookings)), q.isToday, q.nowMins)
  }
}
