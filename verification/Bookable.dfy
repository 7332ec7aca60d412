/**
 * What becomes of an offered slot when it is booked. The search works in minutes of one local day on rows fetched for
 * that day, the booking code in instants with a six-hour scan; they disagree exactly about work and bookings that began
 * on another local day or off the minute, and about call-ins without times.
 */
module Bookable {
  import opened Common
  import opened Bookings
  import opened Text
  import opened Staffing
  import opened Slots
  import opened SlotData
  import opened SlotRows
  import opened Reservation
  import opened BookingService
  import opened CreationRows

  const DAY_MINS := 24 * 60

  /** Unique keys, opening hours of one day, and the guards that a search has passed. */
  ghost predicate Checked(q: Query) {
    && UniqueKeys(q.roster) && q.interval > 0 && q.close <= DAY_MINS
    && q.services != [] && AllKnown(q.roster, q.services)
    && forall i :: 0 <= i < |q.services| ==> q.services[i].duration >= 1
  }

  /** The instant of a minute of the query's day. */
  function AtMinute(q: Query, mins: int): Instant {
    DayStart(q) + mins * MINUTE_MS
  }

  // ----- Minutes of the day and instants ---------------------------------------------------------------------

  lemma DivideDay(local: int, day: int, rest: int)
    requires local == day * DAY_MS + rest && 0 <= rest < DAY_MS
    ensures local / DAY_MS == day && local % DAY_MS == rest
  {
  }

  lemma ClockOf(q: Query, mins: nat)
    requires mins < DAY_MINS
    ensures LocalDay(AtMinute(q, mins), q.tzMins) == q.day
    ensures LocalMins(AtMinute(q, mins), q.tzMins) == mins
  {
    DivideDay(AtMinute(q, mins) + q.tzMins * MINUTE_MS, q.day, mins * MINUTE_MS);
  }

  /** A whole-minute instant is its local day and its local minute. */
  lemma WholeMinutes(t: Instant, tzMins: int)
    requires t % MINUTE_MS == 0
    ensures t + tzMins * MINUTE_MS == LocalDay(t, tzMins) * DAY_MS + LocalMins(t, tzMins) * MINUTE_MS
  {
    var mins := t / MINUTE_MS + tzMins;
    assert t + tzMins * MINUTE_MS == mins * MINUTE_MS;
    DivideDay(mins * MINUTE_MS, mins / DAY_MINS, mins % DAY_MINS * MINUTE_MS);
  }

  lemma InDayIsLocalDay(q: Query, t: Instant)
    ensures InDay(q, t) <==> LocalDay(t, q.tzMins) == q.day
  {
    var local := t + q.tzMins * MINUTE_MS;
    if InDay(q, t) {
      DivideDay(local, q.day, local - q.day * DAY_MS);
    }
  }

  /** A whole-minute instant of the day is the start of its local minute. */
  lemma MinuteOf(q: Query, t: Instant)
    requires t % MINUTE_MS == 0 && InDay(q, t)
    ensures t == AtMinute(q, LocalMins(t, q.tzMins))
  {
    hide LocalDay, LocalMins;
    WholeMinutes(t, q.tzMins);
    InDayIsLocalDay(q, t);
  }

  /** Within the day the two overlap tests agree. */
  lemma SameOverlap(q: Query, t: Instant, duration: nat, from: nat, to: nat)
    requires t % MINUTE_MS == 0 && InDay(q, t)
    ensures var mins := LocalMins(t, q.tzMins);
            Overlaps(AtMinute(q, from), AtMinute(q, to), t, t + duration * MINUTE_MS) <==> Overlaps(from, to, mins, mins + duration)
  {
    MinuteOf(q, t);
  }

  // ----- What the search does not see ------------------------------------------------------------------------

  /** Begun on another local day, or not on a whole minute: the minute windows of the day do not show it as it is. */
  predicate IsUnseen(q: Query, t: Instant) {
    LocalDay(t, q.tzMins) != q.day || t % MINUTE_MS != 0
  }

  /** Work of a staff member that the six-hour scan finds in the way of a window and the search does not see. */
  predicate UnseenItem(q: Query, staff: StaffId, w: Window, x: Item)
    requires w.start <= w.end
  {
    && x in BusyItems(q.bookings) && InScan(staff, AtMinute(q, w.start), w.end - w.start)(x)
    && Blocks(AtMinute(q, w.start), w.end - w.start)(x) && IsUnseen(q, x.start)
  }

  predicate UnseenWork(q: Query, staff: StaffId, w: Window)
    requires w.start <= w.end
  {
    exists x :: x in BusyItems(q.bookings) && UnseenItem(q, staff, w, x)
  }

  lemma BusyItemIsWindow(q: Query, staff: StaffId, x: Item)
    requires x in BusyItems(q.bookings) && x.staff == staff && InDay(q, x.start)
    ensures ToWindow(q, x) in BusyWindows(q, staff)
  {
    var items := Filter(DayItemsOf(q, staff), BusyItems(q.bookings));
    assert x in items;
    var i :| 0 <= i < |items| && items[i] == x;
    assert ToWindows(q, items)[i] == ToWindow(q, x);
  }

  /** Work that is seen and in the way meets one of the day's windows. */
  lemma SeenItemIsWindow(q: Query, w: Window, x: Item)
    requires 0 <= w.start <= w.end && x in BusyItems(q.bookings) && !IsUnseen(q, x.start)
    requires Overlaps(AtMinute(q, w.start), AtMinute(q, w.end), x.start, x.End())
    ensures ToWindow(q, x) in BusyWindows(q, x.staff) && Meets(w, ToWindow(q, x))
  {
    hide BusyWindows;
    InDayIsLocalDay(q, x.start);
    SameOverlap(q, x.start, x.duration, w.start, w.end);
    BusyItemIsWindow(q, x.staff, x);
  }

  /** Where the day's windows are clear, the six-hour scan reports a clash exactly when there is work that is not seen. */
  lemma ScanAgreesExactly(q: Query, staff: StaffId, w: Window)
    requires 0 <= w.start <= w.end
    requires forall busy :: busy in BusyWindows(q, staff) ==> !Meets(w, busy)
    ensures FindOverlap(q.bookings, staff, AtMinute(q, w.start), w.end - w.start).Some? <==> UnseenWork(q, staff, w)
  {
    hide InDay, LocalMins, BusyWindows, IsUnseen;
    var start := AtMinute(q, w.start);
    var found := FindOverlap(q.bookings, staff, start, w.end - w.start);
    assert AtMinute(q, w.end) == start + (w.end - w.start) * MINUTE_MS;
    if found.Some? {
      if !IsUnseen(q, found.value.start) {
        SeenItemIsWindow(q, w, found.value);
      } else {
        assert UnseenItem(q, staff, w, found.value);
      }
    }
    if x :| x in BusyItems(q.bookings) && UnseenItem(q, staff, w, x) {
      assert x in ScanWindow(q.bookings, staff, start, w.end - w.start);
    }
  }

  /** Working on an accepted call-in that does not state both its times, and without a weekly schedule. */
  predicate OpenEndedCallIn(q: Query, staff: StaffId) {
    var callIn := Find(CallInOn(staff, q.day), q.roster.callIns);
    && Find(ScheduleOn(staff, DayOfWeek(q.day)), q.roster.schedules).None?
    && callIn.Some? && (callIn.value.start.None? || callIn.value.end.None?)
  }

  /** A staff member whom the search finds working has no working window for the picker exactly on such a call-in. */
  lemma WindowAgreesExactly(q: Query, staff: StaffId)
    requires Info(q, staff).Some?
    ensures WorkWindow(q.roster, staff, q.day).None? <==> OpenEndedCallIn(q, staff)
  {
    hide BusyWindows;
  }

  /** Who fits in a window by what the search knows: on shift for the picker too, clear of the day's work, not off. */
  lemma FitsMeaning(q: Query, staff: StaffId, w: Window)
    requires UniqueKeys(q.roster) && Info(q, staff).Some? && Fits(Info(q, staff).value, w)
    ensures var window := WorkWindow(q.roster, staff, q.day);
            window.Some? ==> window.value.0 <= w.start && w.end <= window.value.1
    ensures forall busy :: busy in BusyWindows(q, staff) ==> !Meets(w, busy)
    ensures !HasDayOffConflict(q.roster, staff, q.day, w.start, w.end)
  {
    hide BusyWindows;
    var busy := Info(q, staff).value.busy;
    assert forall x :: x in BusyWindows(q, staff) ==> x in busy;
    forall d | d in Filter(DayOffOn(staff, q.day), q.roster.dayOffs) ensures !DayOffBlocks(d, w.start, w.end) {
      UniqueOff(q.roster, staff, q.day, d);
      assert Window(d.hours.value.0, d.hours.value.1) in busy;
    }
  }

  /** Who fits by what the search knows is available for the booking code, but for the two things it does not see. */
  lemma AvailableExactly(q: Query, staff: StaffId, w: Window)
    requires UniqueKeys(q.roster) && Info(q, staff).Some? && Fits(Info(q, staff).value, w) && 0 <= w.start < w.end <= DAY_MINS
    ensures IsAvailable(q.roster, q.bookings, staff, AtMinute(q, w.start), w.end - w.start, q.tzMins)
            <==> !UnseenWork(q, staff, w) && !OpenEndedCallIn(q, staff)
  {
    hide Info, Fits, HasDayOffConflict, WorkWindow, BusyWindows, FindOverlap, LocalDay, LocalMins, UnseenWork, OpenEndedCallIn;
    FitsMeaning(q, staff, w);
    WindowAgreesExactly(q, staff);
    ScanAgreesExactly(q, staff, w);
    ClockOf(q, w.start);
  }

  lemma SlotEnds(b: Board, slot: nat, i: nat)
    requires i < |b.services|
    ensures slot <= WindowOf(b, slot, i).start && WindowOf(b, slot, i).end <= slot + TotalDuration(b.services)
  {
    var n := |b.services|;
    StartsAreOrdered(b, slot, i, n);
    assert b.services[..n] == b.services;
  }

  /** Who is assigned is active, and fits by what the search knows. */
  lemma AssignedFits(q: Query, slot: nat, staff: seq<StaffId>, i: nat)
    requires Checked(q) && ValidAssignment(BoardOf(q), slot, staff) && i < |q.services|
    ensures |staff| == |q.services| && staff[i] in q.roster.active
    ensures Info(q, staff[i]).Some? && Fits(Info(q, staff[i]).value, WindowOf(BoardOf(q), slot, i))
  {
    hide Info, Fits;
    assert ServesAt(BoardOf(q), slot, i, staff[i]);
  }

  /** A slot of the day, its staff, and what the search has found out about them. */
  ghost predicate IsAssigned(q: Query, slot: nat, staff: seq<StaffId>) {
    Checked(q) && ValidAssignment(BoardOf(q), slot, staff) && slot + TotalDuration(q.services) <= q.close
  }

  /**
   * The staff member whom a slot assigns to a service: free for the booking code exactly when there is no unseen work
   * in the way, and in the staff picker's list exactly when, besides, this is not an open-ended call-in.
   */
  lemma AssignedExactly(q: Query, slot: nat, staff: seq<StaffId>, i: nat)
    requires IsAssigned(q, slot, staff) && i < |q.services|
    ensures |staff| == |q.services|
    ensures var w := WindowOf(BoardOf(q), slot, i);
            var duration := q.services[i].duration;
            && w.start <= w.end
            && (FindOverlap(q.bookings, staff[i], AtMinute(q, w.start), duration).Some? <==> UnseenWork(q, staff[i], w))
            && (staff[i] in AvailableStaff(q.roster, q.bookings, AtMinute(q, w.start), duration, q.tzMins)
                <==> !UnseenWork(q, staff[i], w) && !OpenEndedCallIn(q, staff[i]))
  {
    hide AvailableStaff, Info, Fits, FindOverlap, ValidAssignment, AtMinute, IsAvailable, UnseenWork, OpenEndedCallIn, BusyWindows;
    var w := WindowOf(BoardOf(q), slot, i);
    AssignedFits(q, slot, staff, i);
    SlotEnds(BoardOf(q), slot, i);
    FitsMeaning(q, staff[i], w);
    ScanAgreesExactly(q, staff[i], w);
    AvailableExactly(q, staff[i], w);
    AvailableStaffIs(q.roster, q.bookings, AtMinute(q, w.start), q.services[i].duration, q.tzMins);
  }

  /** Another booking of the customer that the booking code finds in the way and the search does not see. */
  predicate UnseenBooking(q: Query, slot: nat) {
    exists b :: b in q.bookings && UnseenConflict(q, slot, b)
  }

  predicate UnseenConflict(q: Query, slot: nat, b: Booking) {
    && ConflictsWith(b, q.customer, AtMinute(q, slot), AtMinute(q, slot + TotalDuration(q.services)))
    && IsUnseen(q, b.scheduledAt)
  }

  lemma CustomerBookingIsWindow(q: Query, b: Booking)
    requires b in q.bookings && CustomerDayBookings(q)(b)
    ensures BookingWindow(q, b) in BoardOf(q).customerBusy
  {
    var mine := Filter(CustomerDayBookings(q), q.bookings);
    assert b in mine;
    var i :| 0 <= i < |mine| && mine[i] == b;
    assert BookingWindows(q, mine)[i] == BookingWindow(q, b);
  }

  lemma SeenBookingIsWindow(q: Query, slot: nat, b: Booking)
    requires b in q.bookings && !IsUnseen(q, b.scheduledAt)
    requires ConflictsWith(b, q.customer, AtMinute(q, slot), AtMinute(q, slot + TotalDuration(q.services)))
    ensures !CustomerClear(BoardOf(q), slot)
  {
    InDayIsLocalDay(q, b.scheduledAt);
    SameOverlap(q, b.scheduledAt, b.totalDuration, slot, slot + TotalDuration(q.services));
    CustomerBookingIsWindow(q, b);
  }

  /** A slot that survives the customer filter meets the customer-conflict check exactly on bookings that are not seen. */
  lemma CustomerAgreesExactly(q: Query, slot: nat)
    requires CustomerClear(BoardOf(q), slot)
    ensures CustomerConflict(q.bookings, q.customer, AtMinute(q, slot), AtMinute(q, slot + TotalDuration(q.services)))
            <==> UnseenBooking(q, slot)
  {
    hide CustomerClear, IsUnseen, AtMinute, ConflictsWith;
    var start, end := AtMinute(q, slot), AtMinute(q, slot + TotalDuration(q.services));
    forall b | b in q.bookings && ConflictsWith(b, q.customer, start, end) ensures UnseenConflict(q, slot, b) {
      if !IsUnseen(q, b.scheduledAt) {
        SeenBookingIsWindow(q, slot, b);
      }
    }
  }

  // ----- The offered slot, booked ----------------------------------------------------------------------------

  /** The transaction reads, for one service, what the search read: its duration, and the staff chosen or listed. */
  ghost predicate Honours(q: Query, slot: nat, staff: StaffId, i: nat, lookup: Lookup)
    requires i < |q.services|
  {
    && lookup.duration == Some(q.services[i].duration)
    && match lookup.line
       case Chosen(chosen) => chosen == staff && lookup.staffActive
       case AnyStaff => lookup.candidates == AvailableStaff(q.roster, q.bookings, AtMinute(q, StartOf(BoardOf(q), slot, i)),
                                                            q.services[i].duration, q.tzMins)
  }

  /** A service can be booked: with the assigned staff when named, with anyone the picker lists otherwise. */
  predicate CanBeServed(q: Query, slot: nat, staff: StaffId, i: nat, lookup: Lookup)
    requires i < |q.services|
  {
    match lookup.line
    case Chosen(_) => !UnseenWork(q, staff, WindowOf(BoardOf(q), slot, i))
    case AnyStaff => lookup.candidates != []
  }

  lemma {:induction false} FirstFreeExactly(bookings: seq<Booking>, candidates: seq<StaffId>, start: Instant, duration: nat)
    requires forall id :: id in candidates ==> FindOverlap(bookings, id, start, duration).None?
    ensures FirstFree(bookings, candidates, start, duration).Some? <==> candidates != []
  {
  }

  /** The staff picker lists nobody who has an overlapping item. */
  lemma ListedAreFree(q: Query, start: Instant, duration: nat)
    ensures forall id :: id in AvailableStaff(q.roster, q.bookings, start, duration, q.tzMins) ==>
              FindOverlap(q.bookings, id, start, duration).None?
  {
    hide AvailableStaff, FindOverlap;
    AvailableStaffIs(q.roster, q.bookings, start, duration, q.tzMins);
  }

  lemma ServiceExactly(q: Query, slot: nat, staff: seq<StaffId>, i: nat, lookup: Lookup)
    requires IsAssigned(q, slot, staff) && i < |q.services| == |staff| && Honours(q, slot, staff[i], i, lookup)
    ensures var r := StaffFor(q.bookings, lookup, AtMinute(q, StartOf(BoardOf(q), slot, i)));
            && (r.Ok? <==> CanBeServed(q, slot, staff[i], i, lookup))
            && (r.Ok? && lookup.line.Chosen? ==> r.value == staff[i])
    ensures lookup.duration == Some(q.services[i].duration)
  {
    hide AvailableStaff, FindOverlap, IsAssigned, UnseenWork, FirstFree;
    var start := AtMinute(q, StartOf(BoardOf(q), slot, i));
    AssignedExactly(q, slot, staff, i);
    if lookup.line.AnyStaff? {
      ListedAreFree(q, start, q.services[i].duration);
      FirstFreeExactly(q.bookings, lookup.candidates, start, q.services[i].duration);
    }
  }

  ghost predicate AllHonour(q: Query, slot: nat, staff: seq<StaffId>, lookups: seq<Lookup>) {
    && |lookups| == |q.services| == |staff|
    && forall i :: 0 <= i < |lookups| ==> Honours(q, slot, staff[i], i, lookups[i])
  }

  ghost predicate FirstServed(q: Query, slot: nat, staff: seq<StaffId>, lookups: seq<Lookup>, n: nat) {
    && n <= |lookups| == |q.services| == |staff|
    && forall i :: 0 <= i < n ==> CanBeServed(q, slot, staff[i], i, lookups[i])
  }

  lemma NoPlan(q: Query, slot: nat, lookups: seq<Lookup>)
    ensures PlanFor(q.bookings, lookups[..0], AtMinute(q, slot)) == Ok([])
    ensures SumDurations([]) == 0 == TotalDuration(q.services[..0])
  {
  }

  lemma CursorOf(q: Query, slot: nat, plan: seq<Item>, n: nat)
    requires n <= |q.services| && SumDurations(plan) == TotalDuration(q.services[..n])
    ensures Cursor(plan, AtMinute(q, slot)) == AtMinute(q, StartOf(BoardOf(q), slot, n))
  {
  }

  lemma DurationsAddUp(q: Query, plan: seq<Item>, item: Item, n: nat)
    requires n < |q.services| && SumDurations(plan) == TotalDuration(q.services[..n])
    requires item.duration == q.services[n].duration
    ensures SumDurations(plan + [item]) == TotalDuration(q.services[..n + 1])
  {
    assert (plan + [item])[..|plan|] == plan && q.services[..n + 1][..n] == q.services[..n];
  }

  /** The first n services are planned exactly when each of them can be served; the plan is as long as they are. */
  lemma {:induction false} PlanExactly(q: Query, slot: nat, staff: seq<StaffId>, lookups: seq<Lookup>, n: nat)
    requires IsAssigned(q, slot, staff) && AllHonour(q, slot, staff, lookups) && n <= |lookups|
    ensures var plan := PlanFor(q.bookings, lookups[..n], AtMinute(q, slot));
            && (plan.Ok? <==> FirstServed(q, slot, staff, lookups, n))
            && (plan.Ok? ==> |plan.value| == n && SumDurations(plan.value) == TotalDuration(q.services[..n]))
            && (plan.Ok? ==> forall i :: 0 <= i < n && lookups[i].line.Chosen? ==> plan.value[i].staff == staff[i])
  {
    hide IsAssigned, StaffFor, Cursor, Honours, BoardOf, TotalDuration, SumDurations, PlanFor, CanBeServed;
    if n == 0 {
      NoPlan(q, slot, lookups);
    } else {
      PlanExactly(q, slot, staff, lookups, n - 1);
      var start := AtMinute(q, slot);
      var before := PlanFor(q.bookings, lookups[..n - 1], start);
      if before.Err? {
        assert lookups[..n][..n - 1] == lookups[..n - 1];
        ErrorStays(q.bookings, lookups[..n], start, n - 1);
      } else {
        CursorOf(q, slot, before.value, n - 1);
        PlanGrows(q.bookings, lookups, start, n - 1, before.value);
        ServiceExactly(q, slot, staff, n - 1, lookups[n - 1]);
        var chosen := StaffFor(q.bookings, lookups[n - 1], Cursor(before.value, start));
        if chosen.Ok? {
          DurationsAddUp(q, before.value, Item(chosen.value, Cursor(before.value, start), q.services[n - 1].duration), n - 1);
        }
      }
    }
  }

  /** The request that books a slot, and what its transaction reads. */
  ghost predicate BooksSlot(q: Query, slot: nat, staff: seq<StaffId>, db: Db, request: Request, now: Instant, lookups: seq<Lookup>) {
    && db.bookings == q.bookings && request.Create? && request.customer == q.customer
    && request.scheduledAt == AtMinute(q, slot) > now && Answers(lookups, request.services)
    && AllHonour(q, slot, staff, lookups)
  }

  /**
   * An offered slot, later than now, replayed on the same tables. `create` accepts it exactly when every service can be
   * served, no booking of the customer that the search does not see is in the way, and the coupon, if any, is usable.
   * Nothing else that the search promised can fail.
   */
  lemma {:induction false} OfferedSlotExactly(q: Query, slot: nat, staff: seq<StaffId>, db: Db, id: RequestId, request: Request,
                                              now: Instant, lookups: seq<Lookup>, eligible: bool, autoConfirm: bool)
    requires IsAssigned(q, slot, staff) && CustomerClear(BoardOf(q), slot)
    requires BooksSlot(q, slot, staff, db, request, now, lookups)
    ensures Creation(db, id, request, now, lookups, eligible, autoConfirm).Ok? <==>
            && FirstServed(q, slot, staff, lookups, |lookups|)
            && !UnseenBooking(q, slot)
            && CouponFor(db, request, eligible).Ok?
  {
    hide CustomerClear, Honours, ValidAssignment, CustomerConflict, PlanFor, NewBooking, FirstServed, UnseenBooking, CouponFor;
    var n := |lookups|;
    PlanExactly(q, slot, staff, lookups, n);
    assert lookups[..n] == lookups && q.services[..n] == q.services;
    CustomerAgreesExactly(q, slot);
  }

  // ----- Tidy data -------------------------------------------------------------------------------------------

  /** Starts on a whole minute and ends no later than the local midnight that follows. */
  predicate WithinOneDay(q: Query, t: Instant, duration: nat) {
    t % MINUTE_MS == 0 && LocalMins(t, q.tzMins) + duration <= DAY_MINS
  }

  ghost predicate StatesBothTimes(c: CallIn) {
    c.start.Some? && c.end.Some?
  }

  /** Data that leaves nothing unseen: no work or booking crosses midnight or starts off the minute, call-ins state times. */
  ghost predicate Tidy(q: Query) {
    && Checked(q)
    && (forall c :: c in q.roster.callIns && c.day == q.day && c.status == CallInAccepted ==> StatesBothTimes(c))
    && (forall x :: x in BusyItems(q.bookings) ==> WithinOneDay(q, x.start, x.duration))
    && (forall b :: b in q.bookings && IsActive(b.status) && b.customer == Some(q.customer) ==>
          WithinOneDay(q, b.scheduledAt, b.totalDuration))
  }

  /** Something that stays within one day and overlaps an interval of the query's day lies in that day. */
  lemma OverlapIsSameDay(q: Query, t: Instant, duration: nat, from: nat, to: nat)
    requires WithinOneDay(q, t, duration) && from < to <= DAY_MINS
    requires Overlaps(AtMinute(q, from), AtMinute(q, to), t, t + duration * MINUTE_MS)
    ensures InDay(q, t)
  {
    hide LocalDay, LocalMins, InDay;
    WholeMinutes(t, q.tzMins);
    InDayIsLocalDay(q, t);
  }

  lemma TidyWorkIsSeen(q: Query, staff: StaffId, w: Window)
    requires Tidy(q) && 0 <= w.start < w.end <= DAY_MINS
    ensures !UnseenWork(q, staff, w)
  {
    hide InDay, LocalMins, LocalDay;
    forall x | x in BusyItems(q.bookings) ensures !UnseenItem(q, staff, w, x) {
      if UnseenItem(q, staff, w, x) {
        assert AtMinute(q, w.end) == AtMinute(q, w.start) + (w.end - w.start) * MINUTE_MS;
        OverlapIsSameDay(q, x.start, x.duration, w.start, w.end);
        InDayIsLocalDay(q, x.start);
      }
    }
  }

  lemma TidyBookingsAreSeen(q: Query, slot: nat)
    requires Tidy(q) && slot < slot + TotalDuration(q.services) <= q.close
    ensures !UnseenBooking(q, slot)
  {
    hide InDay, LocalMins, LocalDay;
    var end := slot + TotalDuration(q.services);
    forall b | b in q.bookings ensures !UnseenConflict(q, slot, b) {
      if UnseenConflict(q, slot, b) {
        OverlapIsSameDay(q, b.scheduledAt, b.totalDuration, slot, end);
        InDayIsLocalDay(q, b.scheduledAt);
      }
    }
  }

  lemma TidyCallInsAreClosed(q: Query, staff: StaffId)
    requires Tidy(q)
    ensures !OpenEndedCallIn(q, staff)
  {
    hide BusyItems, WithinOneDay;
    var callIn := Find(CallInOn(staff, q.day), q.roster.callIns);
    assert callIn.Some? ==> StatesBothTimes(callIn.value);
  }

  lemma TidyIsServed(q: Query, slot: nat, staff: seq<StaffId>, i: nat, lookup: Lookup)
    requires Tidy(q) && IsAssigned(q, slot, staff) && i < |q.services| == |staff| && Honours(q, slot, staff[i], i, lookup)
    ensures CanBeServed(q, slot, staff[i], i, lookup)
  {
    hide Tidy, AvailableStaff, FindOverlap, UnseenWork, OpenEndedCallIn, ValidAssignment;
    AssignedExactly(q, slot, staff, i);
    SlotEnds(BoardOf(q), slot, i);
    TidyWorkIsSeen(q, staff[i], WindowOf(BoardOf(q), slot, i));
    TidyCallInsAreClosed(q, staff[i]);
  }

  lemma SomeDuration(services: seq<SlotService>)
    requires services != [] && services[|services| - 1].duration >= 1
    ensures TotalDuration(services) >= 1
  {
  }

  lemma TidyIsAccepted(q: Query, slot: nat, staff: seq<StaffId>, db: Db, id: RequestId, request: Request, now: Instant,
                       lookups: seq<Lookup>, eligible: bool, autoConfirm: bool)
    requires Tidy(q) && IsAssigned(q, slot, staff) && CustomerClear(BoardOf(q), slot)
    requires BooksSlot(q, slot, staff, db, request, now, lookups) && CouponFor(db, request, eligible).Ok?
    ensures Creation(db, id, request, now, lookups, eligible, autoConfirm).Ok?
  {
    hide CustomerClear, Honours, IsAssigned, CanBeServed, Creation, CouponFor, UnseenBooking;
    OfferedSlotExactly(q, slot, staff, db, id, request, now, lookups, eligible, autoConfirm);
    SomeDuration(q.services);
    TidySlotEnds(q, slot, staff);
    TidyBookingsAreSeen(q, slot);
    forall i | 0 <= i < |lookups| ensures CanBeServed(q, slot, staff[i], i, lookups[i]) {
      TidyIsServed(q, slot, staff, i, lookups[i]);
    }
  }

  lemma TidySlotEnds(q: Query, slot: nat, staff: seq<StaffId>)
    requires IsAssigned(q, slot, staff)
    ensures slot + TotalDuration(q.services) <= q.close
  {
  }

  /**
   * On tidy data every offered slot strictly later than now is bookable: `create` succeeds, whether the customer names
   * the assigned staff or leaves any service to the staff picker, with any coupon it would accept.
   */
  lemma OfferedSlotIsBookable(q: Query, s: Slot) returns (slot: nat, staff: seq<StaffId>)
    requires Tidy(q) && s in OfferedSlots(BoardOf(q))
    ensures ValidAssignment(BoardOf(q), slot, staff) && s == Slot(FormatMinutes(slot), Assignments(BoardOf(q), slot, staff))
    ensures forall db: Db, id, request, now, lookups, eligible, autoConfirm ::
              BooksSlot(q, slot, staff, db, request, now, lookups) && CouponFor(db, request, eligible).Ok?
              ==> Creation(db, id, request, now, lookups, eligible, autoConfirm).Ok?
  {
    hide Creation, CouponFor, AllHonour, FormatMinutes;
    slot, staff := OfferedSlotsAreValid(BoardOf(q), s);
    forall db: Db, id, request, now, lookups, eligible, autoConfirm |
      BooksSlot(q, slot, staff, db, request, now, lookups) && CouponFor(db, request, eligible).Ok?
      ensures Creation(db, id, request, now, lookups, eligible, autoConfirm).Ok?
    {
      TidyIsAccepted(q, slot, staff, db, id, request, now, lookups, eligible, autoConfirm);
    }
  }
}
