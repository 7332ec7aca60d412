/**
 * What a slot search answers, in terms of the request and the rows it reads: who can do which service when, which times
 * are offered, and why a search is refused. The board of the search is proved to say the same.
 */
module SlotRows {
  import opened Common
  import opened Bookings
  import opened Sorting
  import opened Text
  import opened Staffing
  import opened Slots
  import opened SlotData

  // ----- The request -----------------------------------------------------------------------------------------

  /** One requested service; `duration` is None when the variant does not exist or is not on sale. */
  datatype Line = Line(staff: Option<StaffId>, duration: Option<nat>)

  /** A request and everything the search may read; `hours` is None on a day the store is closed. */
  datatype Search = Search(
    roster: Roster, bookings: seq<Booking>, tzMins: int, now: Instant, day: Day, hours: Option<(nat, nat)>,
    interval: int, maxAdvanceDays: int, lines: seq<Line>, customer: UserId)

  datatype SlotError = BadInterval | PastDate | TooFarAhead | VariantMissing | NoDuration | StaffMissing

  predicate AllFound(lines: seq<Line>) {
    forall i :: 0 <= i < |lines| ==> lines[i].duration.Some?
  }

  function Details(lines: seq<Line>): (r: seq<SlotService>)
    requires AllFound(lines)
    ensures |r| == |lines| && forall i :: 0 <= i < |r| ==> r[i] == SlotService(lines[i].staff, lines[i].duration.value)
  {
    seq(|lines|, i requires 0 <= i < |lines| => SlotService(lines[i].staff, lines[i].duration.value))
  }

  predicate AllKnown(roster: Roster, services: seq<SlotService>) {
    forall i :: 0 <= i < |services| && services[i].staff.Some? ==> services[i].staff.value in roster.active
  }

  /** Why a search is refused, in the order of the checks. */
  function Refusal(s: Search): Option<SlotError> {
    var today := LocalDay(s.now, s.tzMins);
    if s.interval <= 0 then Some(BadInterval)
    else if s.day < today then Some(PastDate)
    else if s.maxAdvanceDays > 0 && s.day > today + s.maxAdvanceDays then Some(TooFarAhead)
    else if s.hours.None? then None
    else if !AllFound(s.lines) then Some(VariantMissing)
    else if TotalDuration(Details(s.lines)) == 0 then Some(NoDuration)
    else if !AllKnown(s.roster, Details(s.lines)) then Some(StaffMissing)
    else None
  }

  function QueryOf(s: Search): Query
    requires s.hours.Some? && AllFound(s.lines) && s.interval > 0
  {
    var isToday := s.day == LocalDay(s.now, s.tzMins);
    Query(s.roster, s.bookings, s.tzMins, s.day, s.hours.value.0, s.hours.value.1, s.interval, Details(s.lines),
          s.customer, isToday, if isToday then LocalMins(s.now, s.tzMins) else -1)
  }

  // ----- The rows --------------------------------------------------------------------------------------------

  /** The minutes the first n services take. */
  function Minutes(lines: seq<Line>, n: nat): nat
    requires n <= |lines|
  {
    if n == 0 then 0 else Minutes(lines, n - 1) + GetOrElse(lines[n - 1].duration, 0)
  }

  /** Working hours that leave something of the opening hours and cover the minutes from `from` to `to`. */
  predicate Covers(start: int, end: int, open: int, close: int, from: int, to: int) {
    start < end && open < close && start < close && open < end && start <= from && to <= end
  }

  /** The weekly schedule covers these minutes; or, without one, an accepted call-in does, its missing times being the store's. */
  ghost predicate WorksAt(s: Search, staff: StaffId, from: int, to: int)
    requires s.hours.Some?
  {
    var (open, close) := s.hours.value;
    if HasSchedule(s.roster, staff, s.day) then
      exists x :: x in s.roster.schedules && IsScheduled(x, staff, s.day) && Covers(x.start, x.end, open, close, from, to)
    else
      exists c :: c in s.roster.callIns && IsCalledIn(c, staff, s.day)
                  && Covers(GetOrElse(c.start, open), GetOrElse(c.end, close), open, close, from, to)
  }

  /** Something of this length that begins in a minute of the day is clear of the minutes from `from` to `to`. */
  ghost predicate LeavesFree(s: Search, start: Instant, duration: nat, from: int, to: int) {
    forall minute :: IsMinuteOf(start, s.tzMins, s.day, minute) ==> to <= minute || minute + duration <= from
  }

  /** No item of the staff member that begins on this day, in an active booking, touches these minutes. */
  ghost predicate HasNoWork(s: Search, staff: StaffId, from: int, to: int) {
    forall b, k :: 0 <= b < |s.bookings| && 0 <= k < |s.bookings[b].items| && IsActive(s.bookings[b].status)
                   && s.bookings[b].items[k].staff == staff ==>
      LeavesFree(s, s.bookings[b].items[k].start, s.bookings[b].items[k].duration, from, to)
  }

  /**
   * For a visit that begins in this minute, the i-th service, after the ones before it: the staff member asked for, or
   * anyone active, who works then, is not off and has no work.
   */
  ghost predicate CanDo(s: Search, minute: int, i: nat, staff: StaffId)
    requires s.hours.Some? && i < |s.lines|
  {
    var from, to := minute + Minutes(s.lines, i), minute + Minutes(s.lines, i + 1);
    && (if s.lines[i].staff.Some? then staff == s.lines[i].staff.value else staff in s.roster.active)
    && WorksAt(s, staff, from, to) && IsNotOff(s.roster, staff, s.day, from, to) && HasNoWork(s, staff, from, to)
  }

  ghost predicate IsStaffed(s: Search, minute: int, i: nat)
    requires s.hours.Some? && i < |s.lines|
  {
    exists staff :: CanDo(s, minute, i, staff)
  }

  /** No active booking of the customer that begins on this day touches these minutes. */
  ghost predicate CustomerIsFree(s: Search, from: int, to: int) {
    forall b :: 0 <= b < |s.bookings| && s.bookings[b].customer == Some(s.customer) && IsActive(s.bookings[b].status) ==>
      LeavesFree(s, s.bookings[b].scheduledAt, s.bookings[b].totalDuration, from, to)
  }

  /** On the interval grid from opening, done by closing, and in a minute that is not over. */
  ghost predicate IsStartTime(s: Search, minute: nat)
    requires s.hours.Some?
  {
    && (exists k: nat :: IsGridMinute(s.hours.value.0, s.interval, k, minute))
    && minute + Minutes(s.lines, |s.lines|) <= s.hours.value.1
    && IsAhead(s, minute)
  }

  /** The minute is not over. */
  predicate IsAhead(s: Search, minute: nat) {
    s.now < s.day * 86400000 + (minute + 1) * 60000 - s.tzMins * 60000
  }

  predicate IsGridMinute(open: nat, interval: int, k: nat, minute: nat) {
    minute == open + k * interval
  }

  /** A time at which every service has somebody and the customer is free. */
  ghost predicate IsOffer(s: Search, minute: nat)
    requires s.hours.Some?
  {
    && IsStartTime(s, minute)
    && (forall i :: 0 <= i < |s.lines| ==> IsStaffed(s, minute, i))
    && CustomerIsFree(s, minute, minute + Minutes(s.lines, |s.lines|))
  }

  /** How busy a staff member is on the day: the active items that begin on it, and hours off. */
  ghost function Busy(s: Search, staff: StaffId): nat {
    var midnight := s.day * 86400000 - s.tzMins * 60000;
    CountNear(s.bookings, staff, midnight, midnight + 86399999)
    + (if exists d :: d in s.roster.dayOffs && IsOff(d, staff, s.day) then 1 else 0)
  }

  ghost predicate IsLessBusy(s: Search, staff: StaffId, other: StaffId) {
    Busy(s, staff) < Busy(s, other) || (Busy(s, staff) == Busy(s, other) && Precedes(s.roster.active, staff, other))
  }

  /** One line of a slot: somebody who can do it, the least busy of those, and from when to when. */
  ghost predicate IsAssignedAt(s: Search, a: Assignment, minute: nat, i: nat)
    requires s.hours.Some? && i < |s.lines|
  {
    && CanDo(s, minute, i, a.staff)
    && (forall other :: CanDo(s, minute, i, other) ==> a.staff == other || IsLessBusy(s, a.staff, other))
    && a.from == FormatMinutes(minute + Minutes(s.lines, i)) && a.to == FormatMinutes(minute + Minutes(s.lines, i + 1))
  }

  ghost predicate IsSlotAt(s: Search, slot: Slot, minute: nat)
    requires s.hours.Some?
  {
    && slot.startTime == FormatMinutes(minute) && |slot.assignments| == |s.lines|
    && forall i :: 0 <= i < |s.lines| ==> IsAssignedAt(s, slot.assignments[i], minute, i)
  }

  /** The whole answer: one slot for each minute at which the visit can begin, in order. */
  ghost predicate IsAnswer(s: Search, slots: seq<Slot>, mins: seq<nat>)
    requires s.hours.Some?
  {
    && |mins| == |slots| && (forall i, j :: 0 <= i < j < |mins| ==> mins[i] < mins[j])
    && (forall minute: nat :: minute in mins <==> IsOffer(s, minute))
    && forall i :: 0 <= i < |mins| ==> IsSlotAt(s, slots[i], mins[i])
  }

  // ----- Refusals --------------------------------------------------------------------------------------------

  /** The local day is over. */
  predicate IsOver(s: Search, day: Day) {
    (day + 1) * 86400000 - s.tzMins * 60000 <= s.now
  }

  /** The local day has begun. */
  predicate HasBegun(s: Search, day: Day) {
    day * 86400000 - s.tzMins * 60000 <= s.now
  }

  /** Why a request is refused, check by check; a closed day is not refused. */
  ghost predicate IsRefused(s: Search, error: SlotError) {
    if s.interval <= 0 then error == BadInterval
    else if IsOver(s, s.day) then error == PastDate
    else if s.maxAdvanceDays > 0 && !HasBegun(s, s.day - s.maxAdvanceDays) then error == TooFarAhead
    else if s.hours.None? then false
    else if exists i :: 0 <= i < |s.lines| && s.lines[i].duration.None? then error == VariantMissing
    else if forall i :: 0 <= i < |s.lines| ==> s.lines[i].duration == Some(0) then error == NoDuration
    else if exists i :: 0 <= i < |s.lines| && IsStranger(s, s.lines[i].staff) then error == StaffMissing
    else false
  }

  predicate IsStranger(s: Search, staff: Option<StaffId>) {
    staff.Some? && staff.value !in s.roster.active
  }

  // ----- One staff member ------------------------------------------------------------------------------------

  /** Requests that reach the search itself. */
  ghost predicate IsAccepted(s: Search) {
    UniqueKeys(s.roster) && Refusal(s).None? && s.hours.Some?
  }

  lemma UniqueOff(r: Roster, staff: StaffId, day: Day, d: DayOff)
    requires UniqueKeys(r) && d in r.dayOffs && DayOffOn(staff, day)(d)
    ensures Find(DayOffOn(staff, day), r.dayOffs) == Some(d)
  {
    var found := Find(DayOffOn(staff, day), r.dayOffs);
    var i :| 0 <= i < |r.dayOffs| && r.dayOffs[i] == d;
    var j :| 0 <= j < |r.dayOffs| && r.dayOffs[j] == found.value;
    assert i == j;
  }

  /** The rows a staff member's own queries find. */
  lemma QueriesFind(r: Roster, staff: StaffId, day: Day)
    requires UniqueKeys(r)
    ensures var x := Find(ScheduleOn(staff, DayOfWeek(day)), r.schedules);
            && (x.Some? <==> HasSchedule(r, staff, day))
            && (forall y :: y in r.schedules && IsScheduled(y, staff, day) ==> x == Some(y))
            && (x.Some? ==> x.value in r.schedules && IsScheduled(x.value, staff, day))
    ensures var c := Find(CallInOn(staff, day), r.callIns);
            && (forall y :: y in r.callIns && IsCalledIn(y, staff, day) ==> c == Some(y))
            && (c.Some? ==> c.value in r.callIns && IsCalledIn(c.value, staff, day))
    ensures var d := Find(DayOffOn(staff, day), r.dayOffs);
            && (forall y :: y in r.dayOffs && IsOff(y, staff, day) ==> d == Some(y))
            && (d.Some? ==> d.value in r.dayOffs && IsOff(d.value, staff, day))
  {
    forall y: Schedule ensures IsScheduled(y, staff, day) <==> ScheduleOn(staff, DayOfWeek(day))(y) {
      WeekdayIs(day, y.dayOfWeek);
    }
    forall y | y in r.schedules && IsScheduled(y, staff, day) ensures Find(ScheduleOn(staff, DayOfWeek(day)), r.schedules) == Some(y) {
      UniqueSchedule(r, staff, day, y);
    }
    forall y | y in r.callIns && IsCalledIn(y, staff, day) ensures Find(CallInOn(staff, day), r.callIns) == Some(y) {
      UniqueCallIn(r, staff, day, y);
    }
    forall y | y in r.dayOffs && IsOff(y, staff, day) ensures Find(DayOffOn(staff, day), r.dayOffs) == Some(y) {
      UniqueOff(r, staff, day, y);
    }
  }

  lemma DayIs(q: Query, t: Instant, minute: int)
    ensures IsMinuteOf(t, q.tzMins, q.day, minute) <==> InDay(q, t) && minute == LocalMins(t, q.tzMins)
  {
    LocalTimeIs(t, q.tzMins, q.day, minute);
    LocalTimeIs(t, q.tzMins, q.day, LocalMins(t, q.tzMins));
    assert InDay(q, t) <==> LocalDay(t, q.tzMins) == q.day;
  }

  lemma WorkIs(s: Search, q: Query, staff: StaffId, from: int, to: int)
    requires q.bookings == s.bookings && q.tzMins == s.tzMins && q.day == s.day
    ensures HasNoWork(s, staff, from, to) <==> forall w :: w in BusyWindows(q, staff) ==> !Meets(Window(from, to), w)
  {
    var items := Filter(DayItemsOf(q, staff), BusyItems(q.bookings));
    forall x: Item ensures x.staff == staff ==>
        (LeavesFree(s, x.start, x.duration, from, to) <==> (InDay(q, x.start) ==> !Meets(Window(from, to), ToWindow(q, x))))
    {
      forall minute ensures IsMinuteOf(x.start, s.tzMins, s.day, minute) <==> InDay(q, x.start) && minute == LocalMins(x.start, s.tzMins) {
        DayIs(q, x.start, minute);
      }
      assert InDay(q, x.start) ==> IsMinuteOf(x.start, s.tzMins, s.day, LocalMins(x.start, s.tzMins));
    }
    hide LeavesFree, InDay, ToWindow, Meets;
    if HasNoWork(s, staff, from, to) {
      forall w | w in BusyWindows(q, staff) ensures !Meets(Window(from, to), w) {
        var i :| 0 <= i < |items| && w == ToWindow(q, items[i]);
        assert items[i] in BusyItems(q.bookings);
      }
    } else {
      var b, k :| 0 <= b < |s.bookings| && 0 <= k < |s.bookings[b].items| && IsActive(s.bookings[b].status)
                  && s.bookings[b].items[k].staff == staff
                  && !LeavesFree(s, s.bookings[b].items[k].start, s.bookings[b].items[k].duration, from, to);
      var x := s.bookings[b].items[k];
      assert x in BusyItems(q.bookings) && x in items;
      var i :| 0 <= i < |items| && items[i] == x;
      assert BusyWindows(q, staff)[i] == ToWindow(q, x);
    }
  }

  /** The working window of a staff member who is not off all day. */
  lemma HoursAre(s: Search, q: Query, staff: StaffId, from: int, to: int)
    requires UniqueKeys(s.roster) && s.hours == Some((q.open, q.close)) && q.roster == s.roster && q.day == s.day
    requires q.open <= from && to <= q.close
    ensures var schedule := Find(ScheduleOn(staff, DayOfWeek(q.day)), q.roster.schedules);
            var callIn := Find(CallInOn(staff, q.day), q.roster.callIns);
            var info := InfoFrom(q, schedule, callIn, None, []);
            WorksAt(s, staff, from, to) <==> info.Some? && info.value.windowStart <= from && to <= info.value.windowEnd
  {
    QueriesFind(s.roster, staff, s.day);
    hide IsScheduled, IsCalledIn, IsOff, UniqueKeys;
  }

  /** A day off that is not refused: nothing of the day is left, or only its hours are taken. */
  lemma OffIs(s: Search, staff: StaffId, from: int, to: int)
    requires UniqueKeys(s.roster)
    ensures var d := Find(DayOffOn(staff, s.day), s.roster.dayOffs);
            IsNotOff(s.roster, staff, s.day, from, to) <==>
              (d.Some? ==> d.value.hours.Some? && !Meets(Window(from, to), Window(d.value.hours.value.0, d.value.hours.value.1)))
  {
    QueriesFind(s.roster, staff, s.day);
    hide IsOff, UniqueKeys;
  }

  lemma InfoParts(q: Query, schedule: Option<Schedule>, callIn: Option<CallIn>, dayOff: Option<DayOff>, busy: seq<Window>, w: Window)
    ensures var whole, bare := InfoFrom(q, schedule, callIn, dayOff, busy), InfoFrom(q, schedule, callIn, None, []);
            (whole.Some? && Fits(whole.value, w)) <==>
              && bare.Some? && bare.value.windowStart <= w.start && w.end <= bare.value.windowEnd
              && (forall v :: v in busy ==> !Meets(w, v))
              && (dayOff.Some? ==> dayOff.value.hours.Some? && !Meets(w, Window(dayOff.value.hours.value.0, dayOff.value.hours.value.1)))
  {
    hide Meets;
    var whole := InfoFrom(q, schedule, callIn, dayOff, busy);
    if whole.Some? && dayOff.Some? {
      var off := Window(dayOff.value.hours.value.0, dayOff.value.hours.value.1);
      assert whole.value.busy == busy + [off];
      assert off in whole.value.busy;
    } else if whole.Some? {
      assert whole.value.busy == busy + [];
    }
  }

  /** What the search knows of a staff member is what the rows say. */
  lemma InfoIs(s: Search, q: Query, staff: StaffId, from: int, to: int)
    requires UniqueKeys(s.roster) && s.hours == Some((q.open, q.close)) && q.roster == s.roster
    requires q.bookings == s.bookings && q.tzMins == s.tzMins && q.day == s.day
    requires q.open <= from && to <= q.close
    ensures (Info(q, staff).Some? && Fits(Info(q, staff).value, Window(from, to)))
            <==> WorksAt(s, staff, from, to) && IsNotOff(s.roster, staff, s.day, from, to) && HasNoWork(s, staff, from, to)
  {
    WorkIs(s, q, staff, from, to);
    HoursAre(s, q, staff, from, to);
    OffIs(s, staff, from, to);
    hide IsNotOff, WorksAt, HasNoWork, UniqueKeys, BusyWindows, InfoFrom, Fits;
    InfoParts(q, Find(ScheduleOn(staff, DayOfWeek(q.day)), q.roster.schedules), Find(CallInOn(staff, q.day), q.roster.callIns),
              Find(DayOffOn(staff, q.day), q.roster.dayOffs), BusyWindows(q, staff), Window(from, to));
  }

  // ----- The board says the same -----------------------------------------------------------------------------

  /** A query and its board that are those of a request which is not refused. */
  ghost predicate Matches(s: Search, q: Query, b: Board) {
    && s.hours == Some((q.open, q.close)) && q.roster == s.roster && q.bookings == s.bookings && q.tzMins == s.tzMins
    && q.day == s.day && q.customer == s.customer && AllFound(s.lines) && q.services == b.services == Details(s.lines)
    && b.interval == s.interval > 0 && b.active == s.roster.active && b.infos == Infos(q) && (b.open, b.close) == (q.open, q.close)
    && b.customerBusy == BookingWindows(q, Filter(CustomerDayBookings(q), q.bookings))
    && b.isToday == q.isToday && b.nowMins == q.nowMins && UniqueKeys(s.roster)
  }

  lemma {:induction false} MinutesAre(s: Search, n: nat)
    requires AllFound(s.lines) && n <= |s.lines|
    ensures TotalDuration(Details(s.lines)[..n]) == Minutes(s.lines, n)
  {
    if n > 0 {
      MinutesAre(s, n - 1);
      assert Details(s.lines)[..n][..n - 1] == Details(s.lines)[..n - 1];
    }
  }

  lemma {:induction false} MinutesGrow(lines: seq<Line>, i: nat, n: nat)
    requires i <= n <= |lines|
    ensures Minutes(lines, i) <= Minutes(lines, n)
  {
    if i < n {
      MinutesGrow(lines, i, n - 1);
    }
  }

  lemma ServiceWindow(s: Search, q: Query, b: Board, slot: int, i: nat)
    requires Matches(s, q, b) && i < |s.lines|
    ensures WindowOf(b, slot, i) == Window(slot + Minutes(s.lines, i), slot + Minutes(s.lines, i + 1))
  {
    MinutesAre(s, i);
  }

  lemma IsAmongEveryone(roster: Roster, services: seq<SlotService>, i: nat, staff: StaffId)
    requires i < |services| && staff in QualifiedFor(roster, services[i])
    ensures staff in Everyone(roster, services)
  {
    var n := |services| - 1;
    if i < n {
      IsAmongEveryone(roster, services[..n], i, staff);
    }
  }

  /** Someone who may be given the i-th service is on the board with what is known of him. */
  lemma OnBoard(q: Query, i: nat, staff: StaffId)
    requires i < |q.services| && staff in QualifiedFor(q.roster, q.services[i])
    ensures staff in Infos(q) <==> Info(q, staff).Some?
    ensures staff in Infos(q) ==> Infos(q)[staff] == Info(q, staff).value
  {
    hide Info;
    IsAmongEveryone(q.roster, q.services, i, staff);
  }

  lemma QualifiedIs(s: Search, q: Query, b: Board, i: nat, staff: StaffId)
    requires Matches(s, q, b) && i < |s.lines|
    ensures staff in Qualified(b, b.services[i]) <==> staff in QualifiedFor(q.roster, q.services[i])
    ensures staff in Qualified(b, b.services[i]) <==>
            if s.lines[i].staff.Some? then staff == s.lines[i].staff.value else staff in s.roster.active
  {
  }

  lemma BoardServes(s: Search, q: Query, b: Board, slot: int, i: nat, staff: StaffId)
    requires Matches(s, q, b) && i < |s.lines|
    ensures ServesAt(b, slot, i, staff) <==>
            && staff in QualifiedFor(q.roster, q.services[i]) && Info(q, staff).Some?
            && Fits(Info(q, staff).value, Window(slot + Minutes(s.lines, i), slot + Minutes(s.lines, i + 1)))
  {
    ServiceWindow(s, q, b, slot, i);
    QualifiedIs(s, q, b, i, staff);
    if staff in QualifiedFor(q.roster, q.services[i]) {
      OnBoard(q, i, staff);
    }
    assert b.infos == Infos(q) && i < |b.services| && i < |q.services|;
    hide Matches, Minutes, Infos, Info, Fits, WindowOf, Qualified, QualifiedFor;
  }

  /** Who serves on the board is who can do it by the rows. */
  lemma ServesIs(s: Search, q: Query, b: Board, slot: int, i: nat, staff: StaffId)
    requires Matches(s, q, b) && i < |s.lines|
    requires q.open <= slot && slot + Minutes(s.lines, |s.lines|) <= q.close
    ensures ServesAt(b, slot, i, staff) <==> CanDo(s, slot, i, staff)
  {
    hide Matches, Minutes, Info, Fits, ServesAt, Qualified, QualifiedFor, WorksAt, HasNoWork, IsNotOff, UniqueKeys;
    Matched(s, q, b);
    MinutesGrow(s.lines, i + 1, |s.lines|);
    QualifiedIs(s, q, b, i, staff);
    BoardServes(s, q, b, slot, i, staff);
    InfoIs(s, q, staff, slot + Minutes(s.lines, i), slot + Minutes(s.lines, i + 1));
  }

  lemma Matched(s: Search, q: Query, b: Board)
    requires Matches(s, q, b)
    ensures UniqueKeys(s.roster) && s.hours == Some((q.open, q.close)) && q.roster == s.roster
    ensures q.bookings == s.bookings && q.tzMins == s.tzMins && q.day == s.day && |q.services| == |b.services| == |s.lines|
    ensures b.open == q.open && b.interval > 0
  {
  }

  lemma BookingIs(s: Search, q: Query, x: Booking, from: int, to: int)
    requires q.tzMins == s.tzMins && q.day == s.day
    ensures LeavesFree(s, x.scheduledAt, x.totalDuration, from, to)
            <==> (InDay(q, x.scheduledAt) ==> !Meets(Window(from, to), BookingWindow(q, x)))
  {
    forall minute ensures IsMinuteOf(x.scheduledAt, s.tzMins, s.day, minute)
                     <==> InDay(q, x.scheduledAt) && minute == LocalMins(x.scheduledAt, s.tzMins) {
      DayIs(q, x.scheduledAt, minute);
    }
    assert InDay(q, x.scheduledAt) ==> IsMinuteOf(x.scheduledAt, s.tzMins, s.day, LocalMins(x.scheduledAt, s.tzMins));
  }

  lemma BookingsAre(s: Search, q: Query, from: int, to: int)
    requires q.bookings == s.bookings && q.tzMins == s.tzMins && q.day == s.day && q.customer == s.customer
    ensures CustomerIsFree(s, from, to) <==>
            forall w :: w in BookingWindows(q, Filter(CustomerDayBookings(q), q.bookings)) ==> !Meets(Window(from, to), w)
  {
    var bookings := Filter(CustomerDayBookings(q), q.bookings);
    var windows := BookingWindows(q, bookings);
    hide LeavesFree, InDay, BookingWindow, Meets, BookingWindows, Filter;
    forall x: Booking ensures LeavesFree(s, x.scheduledAt, x.totalDuration, from, to)
                <==> (InDay(q, x.scheduledAt) ==> !Meets(Window(from, to), BookingWindow(q, x))) {
      BookingIs(s, q, x, from, to);
    }
    if CustomerIsFree(s, from, to) {
      forall w | w in windows ensures !Meets(Window(from, to), w) {
        var i :| 0 <= i < |bookings| && w == BookingWindow(q, bookings[i]);
        assert bookings[i] in bookings;
      }
    } else {
      var b :| 0 <= b < |s.bookings| && s.bookings[b].customer == Some(s.customer) && IsActive(s.bookings[b].status)
               && !LeavesFree(s, s.bookings[b].scheduledAt, s.bookings[b].totalDuration, from, to);
      assert s.bookings[b] in bookings;
      var i :| 0 <= i < |bookings| && bookings[i] == s.bookings[b];
      assert windows[i] == BookingWindow(q, s.bookings[b]);
    }
  }

  lemma AllMinutes(s: Search, q: Query, b: Board)
    requires Matches(s, q, b)
    ensures TotalDuration(b.services) == Minutes(s.lines, |s.lines|)
  {
    MinutesAre(s, |s.lines|);
    assert Details(s.lines)[..|s.lines|] == Details(s.lines);
  }

  lemma CustomerIs(s: Search, q: Query, b: Board, slot: int)
    requires Matches(s, q, b)
    ensures CustomerClear(b, slot) <==> CustomerIsFree(s, slot, slot + Minutes(s.lines, |s.lines|))
  {
    AllMinutes(s, q, b);
    hide CustomerIsFree, BookingWindows, UniqueKeys, TotalDuration;
    BookingsAre(s, q, slot, slot + Minutes(s.lines, |s.lines|));
  }

  /** Not over yet: of today's minutes those from the present one on, of a later day all. */
  lemma NotOverIs(s: Search, minute: nat)
    requires IsAccepted(s)
    ensures IsAhead(s, minute) <==> !(QueryOf(s).isToday && minute < QueryOf(s).nowMins)
  {
    var today, nowMins := LocalDay(s.now, s.tzMins), LocalMins(s.now, s.tzMins);
    LocalTimeIs(s.now, s.tzMins, today, nowMins);
    if s.day > today {
      assert s.day * 86400000 >= (today + 1) * 86400000;
    }
  }

  lemma GridIs(s: Search, q: Query, b: Board, minute: nat)
    requires Matches(s, q, b)
    requires IsAhead(s, minute) <==> !(q.isToday && minute < q.nowMins)
    ensures OnGrid(b, q.open, minute) <==> IsStartTime(s, minute)
  {
    AllMinutes(s, q, b);
    hide TotalDuration, UniqueKeys, Infos, BookingWindows, Details;
    forall k: nat ensures StepsApart(q.open, minute, s.interval, k) <==> IsGridMinute(q.open, s.interval, k, minute) {
    }
    forall k: nat | IsGridMinute(q.open, s.interval, k, minute) ensures q.open <= minute {
      assert k * s.interval >= 0;
    }
  }

  lemma SomeoneIs(s: Search, q: Query, b: Board, slot: nat, i: nat)
    requires Matches(s, q, b) && i < |s.lines|
    requires q.open <= slot && slot + Minutes(s.lines, |s.lines|) <= q.close
    ensures SomeoneServes(b, slot, i) <==> IsStaffed(s, slot, i)
  {
    hide CanDo, ServesAt, UniqueKeys;
    if SomeoneServes(b, slot, i) {
      var staff :| ServesAt(b, slot, i, staff);
      ServesIs(s, q, b, slot, i, staff);
      assert CanDo(s, slot, i, staff);
    }
    if IsStaffed(s, slot, i) {
      var staff :| CanDo(s, slot, i, staff);
      ServesIs(s, q, b, slot, i, staff);
      assert ServesAt(b, slot, i, staff);
    }
  }

  lemma EveryoneIs(s: Search, q: Query, b: Board, slot: nat)
    requires Matches(s, q, b) && q.open <= slot && slot + Minutes(s.lines, |s.lines|) <= q.close
    ensures (forall i :: 0 <= i < |b.services| ==> SomeoneServes(b, slot, i)) <==>
            (forall i :: 0 <= i < |s.lines| ==> IsStaffed(s, slot, i))
  {
    hide SomeoneServes, IsStaffed, UniqueKeys, Infos, BookingWindows;
    if forall i :: 0 <= i < |b.services| ==> SomeoneServes(b, slot, i) {
      forall i | 0 <= i < |s.lines| ensures IsStaffed(s, slot, i) {
        SomeoneIs(s, q, b, slot, i);
      }
    } else {
      var i :| 0 <= i < |b.services| && !SomeoneServes(b, slot, i);
      SomeoneIs(s, q, b, slot, i);
    }
  }

  /** A time of the grid is bookable on the board exactly when the rows allow it. */
  lemma BookableIs(s: Search, q: Query, b: Board, minute: nat)
    requires Matches(s, q, b)
    requires KnowsTheTime(s, q)
    ensures OnGrid(b, b.open, minute) && HasAssignment(b, minute) && CustomerClear(b, minute) <==> IsOffer(s, minute)
  {
    AllMinutes(s, q, b);
    GridIs(s, q, b, minute);
    CustomerIs(s, q, b, minute);
    EachServed(b, minute);
    if OnGrid(b, q.open, minute) {
      EveryoneIs(s, q, b, minute);
    }
    assert |b.services| == |s.lines| && s.hours == Some((q.open, q.close));
    hide Matches, Minutes, HasAssignment, CustomerClear, CustomerIsFree, SomeoneServes, IsStaffed, OnGrid, IsStartTime;
  }

  lemma BoardMatches(s: Search)
    requires IsAccepted(s)
    ensures Matches(s, QueryOf(s), BoardOf(QueryOf(s)))
  {
    hide UniqueKeys, LocalDay, TotalDuration, AllKnown, Infos, BookingWindows;
  }

  // ----- The answer ------------------------------------------------------------------------------------------

  lemma {:induction false} NoMinutes(lines: seq<Line>, n: nat)
    requires n <= |lines|
    ensures Minutes(lines, n) == 0 <==> forall i :: 0 <= i < n ==> GetOrElse(lines[i].duration, 0) == 0
  {
    if n > 0 {
      NoMinutes(lines, n - 1);
    }
  }

  lemma DaysAre(s: Search, day: Day)
    ensures IsOver(s, day) <==> day < LocalDay(s.now, s.tzMins)
    ensures HasBegun(s, day) <==> day <= LocalDay(s.now, s.tzMins)
  {
    var today := LocalDay(s.now, s.tzMins);
    LocalTimeIs(s.now, s.tzMins, today, LocalMins(s.now, s.tzMins));
    if day < today {
      assert (day + 1) * 86400000 <= today * 86400000;
    } else if day > today {
      assert day * 86400000 >= (today + 1) * 86400000;
    }
  }

  lemma StrangersAre(s: Search)
    requires AllFound(s.lines)
    ensures AllKnown(s.roster, Details(s.lines)) <==> !exists i :: 0 <= i < |s.lines| && IsStranger(s, s.lines[i].staff)
  {
  }

  lemma RefusalIs(s: Search, error: SlotError)
    ensures Refusal(s) == Some(error) <==> IsRefused(s, error)
  {
    DaysAre(s, s.day);
    DaysAre(s, s.day - s.maxAdvanceDays);
    if AllFound(s.lines) {
      MinutesAre(s, |s.lines|);
      assert Details(s.lines)[..|s.lines|] == Details(s.lines);
      NoMinutes(s.lines, |s.lines|);
      StrangersAre(s);
    }
    hide IsOver, HasBegun, LocalDay, Minutes, TotalDuration, AllKnown, IsStranger, Details;
  }

  lemma BusyLength(q: Query, schedule: Option<Schedule>, callIn: Option<CallIn>, dayOff: Option<DayOff>, busy: seq<Window>)
    ensures var info := InfoFrom(q, schedule, callIn, dayOff, busy);
            info.Some? ==> |info.value.busy| == |busy| + (if dayOff.Some? then 1 else 0)
  {
  }

  /** The length of what is known is how busy the rows say. */
  lemma LoadIs(s: Search, q: Query, staff: StaffId)
    requires UniqueKeys(s.roster) && q.roster == s.roster && q.bookings == s.bookings && q.tzMins == s.tzMins && q.day == s.day
    requires Info(q, staff).Some?
    ensures |Info(q, staff).value.busy| == Busy(s, staff)
  {
    hide IsScheduled, IsCalledIn, IsOff, Filter, CountNear, UniqueKeys, InfoFrom, HasSchedule;
    var midnight := s.day * 86400000 - s.tzMins * 60000;
    QueriesFind(s.roster, staff, s.day);
    CountNearIs(DayItemsOf(q, staff), s.bookings, staff, midnight, midnight + 86399999);
    BusyLength(q, Find(ScheduleOn(staff, DayOfWeek(q.day)), q.roster.schedules), Find(CallInOn(staff, q.day), q.roster.callIns),
               Find(DayOffOn(staff, q.day), q.roster.dayOffs), BusyWindows(q, staff));
  }

  lemma PreferredIs(s: Search, q: Query, b: Board, slot: int, i: nat, staff: StaffId, other: StaffId)
    requires Matches(s, q, b) && i < |s.lines| && ServesAt(b, slot, i, staff) && ServesAt(b, slot, i, other)
    requires IsPreferred(b, i, staff, other)
    ensures staff == other || IsLessBusy(s, staff, other)
  {
    hide Matches, Busy, Info, Infos, UniqueKeys, Fits, WindowOf, Precedes;
    Matched(s, q, b);
    QualifiedIs(s, q, b, i, staff);
    QualifiedIs(s, q, b, i, other);
    LoadOnBoard(s, q, b, i, staff);
    LoadOnBoard(s, q, b, i, other);
    ActiveIs(s, q, b, i);
  }

  lemma ActiveIs(s: Search, q: Query, b: Board, i: nat)
    requires Matches(s, q, b) && i < |s.lines|
    ensures Qualified(b, b.services[i]) == if s.lines[i].staff.Some? then [s.lines[i].staff.value] else s.roster.active
  {
  }

  lemma LoadOnBoard(s: Search, q: Query, b: Board, i: nat, staff: StaffId)
    requires Matches(s, q, b) && i < |s.lines| && staff in b.infos && staff in Qualified(b, b.services[i])
    ensures Load(b)(staff) == Busy(s, staff)
  {
    hide Info, Infos, Busy, UniqueKeys;
    QualifiedIs(s, q, b, i, staff);
    OnBoard(q, i, staff);
    LoadIs(s, q, staff);
  }

  lemma SlotIs(s: Search, q: Query, b: Board, slot: Slot, minute: nat)
    requires Matches(s, q, b) && SlotAt(b, minute) == [slot]
    requires q.open <= minute && minute + Minutes(s.lines, |s.lines|) <= q.close
    ensures IsSlotAt(s, slot, minute)
  {
    hide Matches, CanDo, ServesAt, IsPreferred, IsLessBusy, Greedy, Minutes, FormatMinutes;
    Matched(s, q, b);
    GreedyFindsAssignments(b, minute);
    var staff := Greedy(b, minute, |b.services|).value;
    forall i | 0 <= i < |s.lines| ensures IsAssignedAt(s, slot.assignments[i], minute, i) {
      ServiceWindow(s, q, b, minute, i);
      ServesIs(s, q, b, minute, i, staff[i]);
      forall other | CanDo(s, minute, i, other) ensures staff[i] == other || IsLessBusy(s, staff[i], other) {
        ServesIs(s, q, b, minute, i, other);
        AssignedIsPreferred(b, minute, i, other);
        PreferredIs(s, q, b, minute, i, staff[i], other);
      }
    }
  }

  /** The query tells the minutes that are over from those that are not. */
  ghost predicate KnowsTheTime(s: Search, q: Query) {
    forall minute: nat :: IsAhead(s, minute) <==> !(q.isToday && minute < q.nowMins)
  }

  lemma AnswerOnBoard(s: Search, q: Query, b: Board) returns (mins: seq<nat>)
    requires Matches(s, q, b) && KnowsTheTime(s, q)
    ensures s.hours.Some? && b.interval > 0 && IsAnswer(s, OfferedSlots(b), mins)
  {
    hide Matches, OnGrid, HasAssignment, CustomerClear, SlotAt, IsOffer, IsSlotAt, KnowsTheTime, UniqueKeys, SlotsFrom;
    Matched(s, q, b);
    var slots := OfferedSlots(b);
    mins := OfferedFrom(b, b.open);
    forall minute: nat ensures minute in mins <==> IsOffer(s, minute) {
      BookableIs(s, q, b, minute);
    }
    forall i | 0 <= i < |mins| ensures IsSlotAt(s, slots[i], mins[i]) {
      assert mins[i] in mins;
      InHours(s, q, b, mins[i]);
      SlotIs(s, q, b, slots[i], mins[i]);
    }
  }

  /** What the board offers is the answer by the rows. */
  lemma AnswerIs(s: Search) returns (mins: seq<nat>)
    requires IsAccepted(s)
    ensures IsAnswer(s, OfferedSlots(BoardOf(QueryOf(s))), mins)
  {
    BoardMatches(s);
    forall minute: nat ensures IsAhead(s, minute) <==> !(QueryOf(s).isToday && minute < QueryOf(s).nowMins) {
      NotOverIs(s, minute);
    }
    hide Matches, IsAnswer, OfferedSlots, IsAhead, LocalDay, LocalMins, UniqueKeys;
    mins := AnswerOnBoard(s, QueryOf(s), BoardOf(QueryOf(s)));
  }

  lemma InHours(s: Search, q: Query, b: Board, minute: nat)
    requires Matches(s, q, b) && OnGrid(b, b.open, minute)
    ensures q.open <= minute && minute + Minutes(s.lines, |s.lines|) <= q.close
  {
    AllMinutes(s, q, b);
  }
}
