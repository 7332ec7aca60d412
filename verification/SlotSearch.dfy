/** The slot search as it runs: guards, batch queries grouped into maps, and the loops over times, services and staff. */
module SlotSearch {
  import opened Common
  import opened Bookings
  import opened Sorting
  import opened Text
  import opened Staffing
  import opened Slots
  import opened SlotData
  import opened SlotRows

  // ----- Staff infos from the batch --------------------------------------------------------------------------

  datatype DayBatch = DayBatch(schedules: map<StaffId, Schedule>, callIns: map<StaffId, CallIn>,
                               dayOffs: map<StaffId, DayOff>, busy: map<StaffId, seq<Window>>)

  /** What the batch holds for one staff member is what its own queries would return. */
  ghost predicate BatchFor(q: Query, id: StaffId, b: DayBatch) {
    && Find(ScheduleOn(id, DayOfWeek(q.day)), q.roster.schedules) == (if id in b.schedules then Some(b.schedules[id]) else None)
    && Find(CallInOn(id, q.day), q.roster.callIns) == (if id in b.callIns then Some(b.callIns[id]) else None)
    && Find(DayOffOn(id, q.day), q.roster.dayOffs) == (if id in b.dayOffs then Some(b.dayOffs[id]) else None)
    && Rows(b.busy, id) == BusyWindows(q, id)
  }

  lemma IndexedDayOffs(r: Roster, ids: seq<StaffId>, day: Day, id: StaffId, dayOffs: map<StaffId, DayOff>)
    requires UniqueKeys(r) && id in ids
    requires Indexes(dayOffs, Filter(DayOffsOf(ids, day), r.dayOffs), ByStaffDayOff())
    ensures Find(DayOffOn(id, day), r.dayOffs) == if id in dayOffs then Some(dayOffs[id]) else None
  {
    if id in dayOffs {
      UniqueOff(r, id, day, dayOffs[id]);
    }
  }

  function DayItems(q: Query, ids: seq<StaffId>): Item -> bool {
    (x: Item) => x.staff in ids && InDay(q, x.start)
  }

  function WindowsOf(q: Query, rows: seq<Item>, id: StaffId): seq<Window> {
    ToWindows(q, Filter(KeyIs(ByStaffItem(), id), rows))
  }

  lemma WindowsGrow(q: Query, rows: seq<Item>, i: nat, id: StaffId)
    requires i < |rows|
    ensures WindowsOf(q, rows[..i + 1], id)
         == WindowsOf(q, rows[..i], id) + (if rows[i].staff == id then [ToWindow(q, rows[i])] else [])
  {
    FilterStep(KeyIs(ByStaffItem(), id), rows, i);
    var kept := Filter(KeyIs(ByStaffItem(), id), rows[..i]);
    assert (kept + [rows[i]])[..|kept|] == kept;
  }

  lemma WindowsAreBusy(q: Query, ids: seq<StaffId>, id: StaffId)
    requires id in ids
    ensures WindowsOf(q, Filter(DayItems(q, ids), BusyItems(q.bookings)), id) == BusyWindows(q, id)
  {
    FilterTwice(KeyIs(ByStaffItem(), id), DayItems(q, ids), DayItemsOf(q, id), BusyItems(q.bookings));
  }

  /** Collects each staff member's busy windows, in query order. */
  method BusyMap(q: Query, rows: seq<Item>) returns (busy: map<StaffId, seq<Window>>)
    ensures forall id :: Rows(busy, id) == WindowsOf(q, rows, id)
  {
    busy := map[];
    for i := 0 to |rows|
      invariant forall id :: Rows(busy, id) == WindowsOf(q, rows[..i], id)
    {
      ghost var before := busy;
      busy := busy[rows[i].staff := Rows(busy, rows[i].staff) + [ToWindow(q, rows[i])]];
      forall id ensures Rows(busy, id) == WindowsOf(q, rows[..i + 1], id) {
        assert Rows(before, id) == WindowsOf(q, rows[..i], id);
        WindowsGrow(q, rows, i, id);
      }
    }
    assert rows[..|rows|] == rows;
  }

  /** Everyone qualified for some service, once each. */
  method AllStaff(roster: Roster, services: seq<SlotService>) returns (ids: seq<StaffId>)
    ensures forall id :: id in ids <==> id in Everyone(roster, services)
  {
    ids := [];
    for i := 0 to |services|
      invariant forall id :: id in ids <==> id in Everyone(roster, services[..i])
    {
      var qualified := QualifiedFor(roster, services[i]);
      assert services[..i + 1][..i] == services[..i];
      for j := 0 to |qualified|
        invariant forall id :: id in ids <==> id in Everyone(roster, services[..i]) || id in qualified[..j]
      {
        if qualified[j] !in ids {
          ids := ids + [qualified[j]];
        }
      }
    }
    assert services[..|services|] == services;
  }

  /** The working window and busy times of one staff member, or None when not working that day. */
  method InfoOf(q: Query, id: StaffId, b: DayBatch) returns (info: Option<StaffInfo>)
    requires BatchFor(q, id, b)
    ensures info == Info(q, id)
  {
    if id !in b.schedules && id !in b.callIns {
      return None;
    }
    if id in b.dayOffs && b.dayOffs[id].hours.None? {
      return None;
    }
    var from, to := q.open, q.close;
    if id in b.callIns && b.callIns[id].start.Some? {
      from := b.callIns[id].start.value;
    }
    if id in b.callIns && b.callIns[id].end.Some? {
      to := b.callIns[id].end.value;
    }
    if id in b.schedules {
      from, to := b.schedules[id].start, b.schedules[id].end;
    }
    var windowStart := Later(q.open, from);
    var windowEnd := Earlier(q.close, to);
    if windowStart >= windowEnd {
      return None;
    }
    var partialBusy := if id in b.dayOffs then [Window(b.dayOffs[id].hours.value.0, b.dayOffs[id].hours.value.1)] else [];
    info := Some(StaffInfo(windowStart, windowEnd, Rows(b.busy, id) + partialBusy));
  }

  /** One round of queries for everyone. */
  method FetchDay(q: Query, ids: seq<StaffId>) returns (b: DayBatch)
    requires UniqueKeys(q.roster)
    ensures forall id :: id in ids ==> BatchFor(q, id, b)
  {
    var schedules := IndexBy(Filter(SchedulesOf(ids, DayOfWeek(q.day)), q.roster.schedules), ByStaffSchedule());
    var callIns := IndexBy(Filter(CallInsOf(ids, q.day), q.roster.callIns), ByStaffCallIn());
    var dayOffs := IndexBy(Filter(DayOffsOf(ids, q.day), q.roster.dayOffs), ByStaffDayOff());
    var busy := BusyMap(q, Filter(DayItems(q, ids), BusyItems(q.bookings)));
    b := DayBatch(schedules, callIns, dayOffs, busy);
    forall id | id in ids ensures BatchFor(q, id, b) {
      IndexedRowsAreQueries(q.roster, ids, q.day, id, schedules, callIns);
      IndexedDayOffs(q.roster, ids, q.day, id, dayOffs);
      WindowsAreBusy(q, ids, id);
    }
  }

  ghost predicate InfosFor(infos: map<StaffId, StaffInfo>, q: Query, ids: seq<StaffId>) {
    && (forall id :: id in infos ==> id in ids)
    && (forall id :: id in ids ==> Info(q, id) == if id in infos then Some(infos[id]) else None)
  }

  /** One info per staff member; those who do not work that day have none. */
  method StaffInfos(q: Query) returns (infos: map<StaffId, StaffInfo>)
    requires UniqueKeys(q.roster)
    ensures infos == Infos(q)
  {
    hide Info, BatchFor, Everyone;
    var ids := AllStaff(q.roster, q.services);
    var b := FetchDay(q, ids);
    infos := map[];
    for i := 0 to |ids|
      invariant InfosFor(infos, q, ids[..i])
    {
      var info := InfoOf(q, ids[i], b);
      if info.Some? {
        infos := infos[ids[i] := info.value];
      }
    }
    assert ids[..|ids|] == ids;
  }

  // ----- One start time --------------------------------------------------------------------------------------

  /** The windows a staff member already has within this slot. */
  ghost predicate IntraFor(intra: map<StaffId, seq<Window>>, b: Board, slot: int, given: seq<StaffId>)
    requires |given| <= |b.services|
  {
    && (forall staff, w :: w in Rows(intra, staff) ==>
          exists j :: 0 <= j < |given| && given[j] == staff && w == WindowOf(b, slot, j))
    && (forall j :: 0 <= j < |given| ==> WindowOf(b, slot, j) in Rows(intra, given[j]))
  }

  lemma IntraGrows(intra: map<StaffId, seq<Window>>, b: Board, slot: int, given: seq<StaffId>, staff: StaffId)
    requires |given| < |b.services| && IntraFor(intra, b, slot, given)
    ensures IntraFor(intra[staff := Rows(intra, staff) + [WindowOf(b, slot, |given|)]], b, slot, given + [staff])
  {
    var after := intra[staff := Rows(intra, staff) + [WindowOf(b, slot, |given|)]];
    var more := given + [staff];
    forall id, w | w in Rows(after, id)
      ensures exists j :: 0 <= j < |more| && more[j] == id && w == WindowOf(b, slot, j)
    {
      if w in Rows(intra, id) {
        var j :| 0 <= j < |given| && given[j] == id && w == WindowOf(b, slot, j);
        assert more[j] == id;
      } else {
        assert more[|given|] == id;
      }
    }
  }

  /** The candidate loop for one service: the first candidate that is on shift, free, and not already in this slot. */
  method PickStaff(b: Board, slot: int, ghost given: seq<StaffId>, intra: map<StaffId, seq<Window>>, i: nat, svc: Window,
                   candidates: seq<StaffId>) returns (picked: Option<StaffId>)
    requires |given| == i < |b.services| && IntraFor(intra, b, slot, given) && svc == WindowOf(b, slot, i)
    ensures picked == FirstFit(b, slot, given, i, candidates)
  {
    var k := 0;
    while k < |candidates|
      invariant 0 <= k <= |candidates|
      invariant FirstFit(b, slot, given, i, candidates) == FirstFit(b, slot, given, i, candidates[k..])
    {
      var staff := candidates[k];
      if staff in b.infos {
        var info := b.infos[staff];
        var existingOverlap := exists w :: w in info.busy && Meets(svc, w);
        var intraOverlap := exists w :: w in Rows(intra, staff) && Meets(svc, w);
        assert intraOverlap == IntraOverlap(b, slot, given, i, staff);
        if svc.start >= info.windowStart && svc.end <= info.windowEnd && !existingOverlap && !intraOverlap {
          return Some(staff);
        }
      }
      k := k + 1;
    }
    picked := None;
  }

  lemma {:induction false} GreedyStuck(b: Board, slot: int, i: nat, n: nat)
    requires i <= n <= |b.services| && Greedy(b, slot, i).None?
    ensures Greedy(b, slot, n).None?
  {
    hide FirstFit, Candidates;
    if i < n {
      GreedyStuck(b, slot, i, n - 1);
    }
  }

  lemma StartGrows(b: Board, slot: int, i: nat)
    requires i < |b.services|
    ensures StartOf(b, slot, 0) == slot
    ensures StartOf(b, slot, i + 1) == StartOf(b, slot, i) + b.services[i].duration
  {
    assert b.services[..i + 1][..i] == b.services[..i];
  }

  lemma AssignmentsGrow(b: Board, slot: nat, given: seq<StaffId>, staff: StaffId)
    requires |given| < |b.services|
    ensures Assignments(b, slot, given + [staff]) == Assignments(b, slot, given) + [AssignmentAt(b, slot, given + [staff], |given|)]
  {
    hide FormatMinutes;
    var more := given + [staff];
    forall i | 0 <= i < |given| ensures AssignmentAt(b, slot, more, i) == AssignmentAt(b, slot, given, i) {
    }
  }

  lemma NothingGiven(b: Board, slot: nat)
    ensures StartOf(b, slot, 0) == slot && Greedy(b, slot, 0) == Some([])
    ensures IntraFor(map[], b, slot, []) && Assignments(b, slot, []) == []
  {
    hide FormatMinutes;
  }

  ghost predicate SortedFor(b: Board, sorted: seq<seq<StaffId>>) {
    |sorted| == |b.services| && forall i :: 0 <= i < |sorted| ==> sorted[i] == Candidates(b, b.services[i])
  }

  /** For each service, those of its qualified staff who work that day, the least busy first. */
  method SortQualified(b: Board) returns (sorted: seq<seq<StaffId>>)
    ensures SortedFor(b, sorted)
  {
    sorted := seq(|b.services|, i requires 0 <= i < |b.services| => Candidates(b, b.services[i]));
  }

  /** Assigns the services of one start time, one after another, or gives the start time up. */
  method AssignSlot(b: Board, sorted: seq<seq<StaffId>>, slot: nat) returns (r: Option<seq<Assignment>>)
    requires SortedFor(b, sorted)
    ensures var staff := Greedy(b, slot, |b.services|);
            r == if staff.None? then None else Some(Assignments(b, slot, staff.value))
  {
    hide FormatMinutes, FirstFit, Candidates, TotalDuration, IntraFor;
    var currentMins: nat := slot;
    var assignments: seq<Assignment> := [];
    var intra: map<StaffId, seq<Window>> := map[];
    ghost var given: seq<StaffId> := [];
    NothingGiven(b, slot);
    for i := 0 to |b.services|
      invariant |given| == i && Greedy(b, slot, i) == Some(given) && IntraFor(intra, b, slot, given)
      invariant currentMins == StartOf(b, slot, i) && assignments == Assignments(b, slot, given)
    {
      StartGrows(b, slot, i);
      var svcEnd := currentMins + b.services[i].duration;
      var staff := PickStaff(b, slot, given, intra, i, Window(currentMins, svcEnd), sorted[i]);
      if staff.None? {
        GreedyStuck(b, slot, i + 1, |b.services|);
        return None;
      }
      IntraGrows(intra, b, slot, given, staff.value);
      AssignmentsGrow(b, slot, given, staff.value);
      given := given + [staff.value];
      assignments := assignments + [Assignment(staff.value, FormatMinutes(currentMins), FormatMinutes(svcEnd))];
      intra := intra[staff.value := Rows(intra, staff.value) + [Window(currentMins, svcEnd)]];
      currentMins := svcEnd;
    }
    r := Some(assignments);
  }

  /** One start time: passed over when it lies in the past or cannot be staffed. */
  method TryStart(b: Board, sorted: seq<seq<StaffId>>, slotMins: nat) returns (found: seq<Slot>)
    requires SortedFor(b, sorted)
    ensures found == SlotAt(b, slotMins)
  {
    if b.isToday && slotMins < b.nowMins {
      return [];
    }
    var assignments := AssignSlot(b, sorted, slotMins);
    found := if assignments.None? then [] else [Slot(FormatMinutes(slotMins), assignments.value)];
  }

  lemma SlotsStep(b: Board, before: seq<Slot>, from: nat)
    requires b.interval > 0 && from + TotalDuration(b.services) <= b.close
    ensures before + SlotsFrom(b, from) == before + SlotAt(b, from) + SlotsFrom(b, from + b.interval)
  {
  }

  /** The loop over start times, from opening in steps of the interval. */
  method ListSlots(b: Board, totalDuration: nat) returns (slots: seq<Slot>)
    requires b.interval > 0 && totalDuration == TotalDuration(b.services)
    ensures slots == SlotsFrom(b, b.open)
  {
    hide SlotAt, Candidates;
    var sorted := SortQualified(b);
    slots := [];
    var slotMins := b.open;
    while slotMins + totalDuration <= b.close
      invariant SlotsFrom(b, b.open) == slots + SlotsFrom(b, slotMins)
      decreases b.close - slotMins
    {
      SlotsStep(b, slots, slotMins);
      var found := TryStart(b, sorted, slotMins);
      slots := slots + found;
      slotMins := slotMins + b.interval;
    }
  }

  /** The last filter: drop the start times at which the customer is busy elsewhere. */
  method DropCustomerConflicts(b: Board, slots: seq<Slot>, totalDuration: nat) returns (kept: seq<Slot>)
    requires totalDuration == TotalDuration(b.services)
    ensures kept == Filter(KeepsCustomer(b), slots)
  {
    hide ParseTime, Meets, Filter, TotalDuration;
    kept := [];
    for i := 0 to |slots|
      invariant kept == Filter(KeepsCustomer(b), slots[..i])
    {
      FilterStep(KeepsCustomer(b), slots, i);
      var slotStart := ParseTime(slots[i].startTime);
      var conflict := slotStart.Some?
        && exists w :: w in b.customerBusy && Meets(Window(slotStart.value, slotStart.value + totalDuration), w);
      assert KeepsCustomer(b)(slots[i]) <==> !conflict;
      if !conflict {
        kept := kept + [slots[i]];
      }
    }
    assert slots[..|slots|] == slots;
  }

  /** The search over one open day computes what is offered on its board. */
  method SearchDay(q: Query, totalDuration: nat) returns (slots: seq<Slot>)
    requires q.interval > 0 && UniqueKeys(q.roster) && totalDuration == TotalDuration(q.services)
    ensures slots == OfferedSlots(BoardOf(q))
  {
    var infos := StaffInfos(q);
    var customerBusy := BookingWindows(q, Filter(CustomerDayBookings(q), q.bookings));
    var board := Board(infos, q.roster.active, q.open, q.close, q.interval, q.services, customerBusy, q.isToday, q.nowMins);
    slots := ListSlots(board, totalDuration);
    if |customerBusy| != 0 {
      slots := DropCustomerConflicts(board, slots, totalDuration);
    } else {
      FilterKeepsAll(KeepsCustomer(board), slots);
    }
  }

  // ----- The whole request -----------------------------------------------------------------------------------

  /** The variant loop: the first missing variant refuses the request. */
  method ReadDetails(lines: seq<Line>) returns (r: Result<seq<SlotService>, SlotError>)
    ensures r == if AllFound(lines) then Ok(Details(lines)) else Err(VariantMissing)
  {
    var details: seq<SlotService> := [];
    for i := 0 to |lines|
      invariant |details| == i && AllFound(lines[..i])
      invariant forall k :: 0 <= k < i ==> details[k] == SlotService(lines[k].staff, lines[k].duration.value)
    {
      if lines[i].duration.None? {
        return Err(VariantMissing);
      }
      details := details + [SlotService(lines[i].staff, lines[i].duration.value)];
    }
    assert lines[..|lines|] == lines;
    assert details == Details(lines);
    r := Ok(details);
  }

  method SumOf(services: seq<SlotService>) returns (total: nat)
    ensures total == TotalDuration(services)
  {
    total := 0;
    for i := 0 to |services|
      invariant total == TotalDuration(services[..i])
    {
      assert services[..i + 1][..i] == services[..i];
      total := total + services[i].duration;
    }
    assert services[..|services|] == services;
  }

  /** What the request is refused for, or what it is answered, in terms of the rows. */
  lemma AnswerByRows(s: Search)
    requires UniqueKeys(s.roster)
    ensures forall error :: Refusal(s) == Some(error) <==> IsRefused(s, error)
    ensures Refusal(s).None? && s.hours.Some? ==> exists mins :: IsAnswer(s, OfferedSlots(BoardOf(QueryOf(s))), mins)
  {
    hide IsRefused, IsAnswer, UniqueKeys, OfferedSlots;
    forall error ensures Refusal(s) == Some(error) <==> IsRefused(s, error) {
      RefusalIs(s, error);
    }
    if Refusal(s).None? && s.hours.Some? {
      var mins := AnswerIs(s);
    }
  }

  /** `getAvailableSlots`: refused for the first reason that applies, empty when closed, else what the board offers. */
  method GetAvailableSlots(s: Search) returns (r: Result<seq<Slot>, SlotError>)
    requires UniqueKeys(s.roster)
    ensures Refusal(s).Some? ==> r == Err(Refusal(s).value)
    ensures Refusal(s).None? ==> r == Ok(if s.hours.None? then [] else OfferedSlots(BoardOf(QueryOf(s))))
    ensures forall error :: r == Err(error) <==> IsRefused(s, error)
    ensures r.Ok? ==> if s.hours.None? then r.value == [] else exists mins :: IsAnswer(s, r.value, mins)
  {
    AnswerByRows(s);
    hide IsRefused, IsAnswer;
    var today := LocalDay(s.now, s.tzMins);
    if s.interval <= 0 {
      return Err(BadInterval);
    }
    if s.day < today {
      return Err(PastDate);
    }
    if s.maxAdvanceDays > 0 && s.day > today + s.maxAdvanceDays {
      return Err(TooFarAhead);
    }
    if s.hours.None? {
      return Ok([]);
    }
    var details := ReadDetails(s.lines);
    if details.Err? {
      return Err(details.error);
    }
    var totalDuration := SumOf(details.value);
    if totalDuration <= 0 {
      return Err(NoDuration);
    }
    for i := 0 to |details.value|
      invariant AllKnown(s.roster, details.value[..i])
    {
      if details.value[i].staff.Some? && details.value[i].staff.value !in s.roster.active {
        return Err(StaffMissing);
      }
    }
    assert details.value[..|details.value|] == details.value;
    var slots := SearchDay(QueryOf(s), totalDuration);
    r := Ok(slots);
  }
}
