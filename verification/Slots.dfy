/**
 * The slot search over one day's board: which start times have an assignment of staff to back-to-back services.
 * The functions say what is offered; SlotSearch.dfy holds the loops that compute it.
 */
module Slots {
  import opened Common
  import opened Sorting
  import opened Text

  datatype SlotService = SlotService(staff: Option<StaffId>, duration: nat)

  /** Minutes of the local day, half open. */
  datatype Window = Window(start: int, end: int)

  datatype StaffInfo = StaffInfo(windowStart: int, windowEnd: int, busy: seq<Window>)

  /** One day at one store: who works when, the opening hours, the request, and the customer's own bookings. */
  datatype Board = Board(
    infos: map<StaffId, StaffInfo>, active: seq<StaffId>, open: nat, close: nat, interval: nat,
    services: seq<SlotService>, customerBusy: seq<Window>, isToday: bool, nowMins: int)

  // ----- First fit -------------------------------------------------------------------------------------------

  function Qualified(b: Board, svc: SlotService): seq<StaffId> {
    if svc.staff.Some? then [svc.staff.value] else b.active
  }

  function Works(b: Board): StaffId -> bool {
    (staff: StaffId) => staff in b.infos
  }

  function Load(b: Board): StaffId -> nat {
    (staff: StaffId) => if staff in b.infos then |b.infos[staff].busy| else 999
  }

  function Candidates(b: Board, svc: SlotService): seq<StaffId> {
    SortByLoad(Load(b), Filter(Works(b), Qualified(b, svc)))
  }

  function TotalDuration(services: seq<SlotService>): nat {
    if services == [] then 0 else TotalDuration(services[..|services| - 1]) + services[|services| - 1].duration
  }

  /** When the i-th service of a slot starts. */
  function StartOf(b: Board, slot: int, i: nat): int
    requires i <= |b.services|
  {
    slot + TotalDuration(b.services[..i])
  }

  function WindowOf(b: Board, slot: int, i: nat): Window
    requires i < |b.services|
  {
    Window(StartOf(b, slot, i), StartOf(b, slot, i) + b.services[i].duration)
  }

  predicate Meets(v: Window, w: Window) {
    Overlaps(v.start, v.end, w.start, w.end)
  }

  /** Inside the working window and clear of everything already booked or taken off. */
  predicate Fits(info: StaffInfo, w: Window) {
    info.windowStart <= w.start && w.end <= info.windowEnd && forall busy :: busy in info.busy ==> !Meets(w, busy)
  }

  /** The staff member already has an earlier service of this slot that overlaps the i-th. */
  predicate IntraOverlap(b: Board, slot: int, given: seq<StaffId>, i: nat, staff: StaffId)
    requires |given| <= i < |b.services|
  {
    exists j :: 0 <= j < |given| && given[j] == staff && Meets(WindowOf(b, slot, i), WindowOf(b, slot, j))
  }

  predicate CanServe(b: Board, slot: int, given: seq<StaffId>, i: nat, staff: StaffId)
    requires |given| <= i < |b.services|
  {
    && staff in b.infos && Fits(b.infos[staff], WindowOf(b, slot, i))
    && !IntraOverlap(b, slot, given, i, staff)
  }

  function FirstFit(b: Board, slot: int, given: seq<StaffId>, i: nat, candidates: seq<StaffId>): (r: Option<StaffId>)
    requires |given| <= i < |b.services|
    ensures r.Some? ==> r.value in candidates && CanServe(b, slot, given, i, r.value)
    ensures r.None? ==> forall staff :: staff in candidates ==> !CanServe(b, slot, given, i, staff)
  {
    if candidates == [] then None
    else if CanServe(b, slot, given, i, candidates[0]) then Some(candidates[0])
    else FirstFit(b, slot, given, i, candidates[1..])
  }

  /** The greedy assignment of the first n services, each to the first candidate that can serve it. */
  function Greedy(b: Board, slot: int, n: nat): (r: Option<seq<StaffId>>)
    requires n <= |b.services|
    ensures r.Some? ==> |r.value| == n
  {
    if n == 0 then Some([])
    else
      var before := Greedy(b, slot, n - 1);
      if before.None? then None
      else
        var staff := FirstFit(b, slot, before.value, n - 1, Candidates(b, b.services[n - 1]));
        if staff.None? then None else Some(before.value + [staff.value])
  }

  // ----- What is offered -------------------------------------------------------------------------------------

  datatype Assignment = Assignment(staff: StaffId, from: string, to: string)

  datatype Slot = Slot(startTime: string, assignments: seq<Assignment>)

  function AssignmentAt(b: Board, slot: nat, staff: seq<StaffId>, i: nat): Assignment
    requires i < |staff| <= |b.services|
  {
    Assignment(staff[i], FormatMinutes(WindowOf(b, slot, i).start), FormatMinutes(WindowOf(b, slot, i).end))
  }

  function Assignments(b: Board, slot: nat, staff: seq<StaffId>): (r: seq<Assignment>)
    requires |staff| <= |b.services|
    ensures |r| == |staff| && forall i :: 0 <= i < |r| ==> r[i] == AssignmentAt(b, slot, staff, i)
  {
    seq(|staff|, i requires 0 <= i < |staff| => AssignmentAt(b, slot, staff, i))
  }

  function SlotAt(b: Board, slot: nat): seq<Slot> {
    if b.isToday && slot < b.nowMins then []
    else
      var staff := Greedy(b, slot, |b.services|);
      if staff.None? then [] else [Slot(FormatMinutes(slot), Assignments(b, slot, staff.value))]
  }

  /** The slots at from, from + interval, ... that end by closing time. */
  function SlotsFrom(b: Board, from: nat): seq<Slot>
    requires b.interval > 0
    decreases b.close - from
  {
    if from + TotalDuration(b.services) > b.close then []
    else SlotAt(b, from) + SlotsFrom(b, from + b.interval)
  }

  /** The customer has no other booking of the day in the way of a slot. */
  predicate CustomerClear(b: Board, slot: int) {
    forall w :: w in b.customerBusy ==> !Meets(Window(slot, slot + TotalDuration(b.services)), w)
  }

  function KeepsCustomer(b: Board): Slot -> bool {
    (s: Slot) => ParseTime(s.startTime).Some? ==> CustomerClear(b, ParseTime(s.startTime).value)
  }

  function OfferedSlots(b: Board): seq<Slot>
    requires b.interval > 0
  {
    Filter(KeepsCustomer(b), SlotsFrom(b, b.open))
  }

  // ----- First fit is sound and loses nothing ----------------------------------------------------------------

  /** A qualified staff member is free for the i-th service of a slot. */
  predicate ServesAt(b: Board, slot: int, i: nat, staff: StaffId)
    requires i < |b.services|
  {
    && staff in Qualified(b, b.services[i])
    && staff in b.infos && Fits(b.infos[staff], WindowOf(b, slot, i))
  }

  /** The specification of a slot: qualified staff, each free, none in two places at once. */
  ghost predicate ValidAssignment(b: Board, slot: int, staff: seq<StaffId>) {
    && |staff| == |b.services|
    && (forall i :: 0 <= i < |staff| ==> ServesAt(b, slot, i, staff[i]))
    && (forall i, j :: 0 <= i < j < |staff| && staff[i] == staff[j] ==> !Meets(WindowOf(b, slot, j), WindowOf(b, slot, i)))
  }

  ghost predicate HasAssignment(b: Board, slot: int) {
    exists staff :: ValidAssignment(b, slot, staff)
  }

  lemma {:induction false} StartsAreOrdered(b: Board, slot: int, i: nat, j: nat)
    requires i < j <= |b.services|
    ensures StartOf(b, slot, i) + b.services[i].duration <= StartOf(b, slot, j)
  {
    assert b.services[..j][..j - 1] == b.services[..j - 1];
    if i < j - 1 {
      StartsAreOrdered(b, slot, i, j - 1);
    }
  }

  /** Services of one slot never overlap each other, so the greedy choice for one never spoils another. */
  lemma NoIntraOverlap(b: Board, slot: int, given: seq<StaffId>, i: nat, staff: StaffId)
    requires |given| <= i < |b.services|
    ensures !IntraOverlap(b, slot, given, i, staff)
  {
    forall j | 0 <= j < |given| ensures !Meets(WindowOf(b, slot, i), WindowOf(b, slot, j)) {
      StartsAreOrdered(b, slot, j, i);
    }
  }

  lemma CandidatesMeaning(b: Board, svc: SlotService, staff: StaffId)
    ensures staff in Candidates(b, svc) <==> staff in Qualified(b, svc) && staff in b.infos
  {
    SortKeepsMembers(Load(b), Filter(Works(b), Qualified(b, svc)));
  }

  /** Nobody qualified is free for the i-th service. */
  ghost predicate Unserved(b: Board, slot: int, i: nat)
    requires i < |b.services|
  {
    forall staff :: !ServesAt(b, slot, i, staff)
  }

  /** First fit finds someone exactly when a qualified staff member is free, whatever was assigned before. */
  lemma FirstFitIsExact(b: Board, slot: int, given: seq<StaffId>, i: nat)
    requires |given| <= i < |b.services|
    ensures var chosen := FirstFit(b, slot, given, i, Candidates(b, b.services[i]));
            && (chosen.Some? ==> ServesAt(b, slot, i, chosen.value))
            && (chosen.None? ==> Unserved(b, slot, i))
  {
    forall staff ensures staff in Candidates(b, b.services[i]) && CanServe(b, slot, given, i, staff) <==> ServesAt(b, slot, i, staff) {
      NoIntraOverlap(b, slot, given, i, staff);
      CandidatesMeaning(b, b.services[i], staff);
    }
  }

  /** The first services of a slot each have a free, qualified staff member. */
  ghost predicate AllServed(b: Board, slot: int, staff: seq<StaffId>) {
    |staff| <= |b.services| && forall i :: 0 <= i < |staff| ==> ServesAt(b, slot, i, staff[i])
  }

  ghost predicate SomeUnserved(b: Board, slot: int) {
    exists i :: 0 <= i < |b.services| && Unserved(b, slot, i)
  }

  lemma {:induction false} GreedyIsExact(b: Board, slot: int, n: nat)
    requires n <= |b.services|
    ensures Greedy(b, slot, n).Some? ==> AllServed(b, slot, Greedy(b, slot, n).value)
    ensures Greedy(b, slot, n).None? ==> SomeUnserved(b, slot)
  {
    hide FirstFit, Candidates, ServesAt;
    if n > 0 {
      GreedyIsExact(b, slot, n - 1);
      var before := Greedy(b, slot, n - 1);
      if before.Some? {
        FirstFitIsExact(b, slot, before.value, n - 1);
        var chosen := FirstFit(b, slot, before.value, n - 1, Candidates(b, b.services[n - 1]));
        if chosen.Some? {
          OneMoreServed(b, slot, before.value, chosen.value);
        }
      }
    }
  }

  lemma OneMoreServed(b: Board, slot: int, staff: seq<StaffId>, next: StaffId)
    requires AllServed(b, slot, staff) && |staff| < |b.services| && ServesAt(b, slot, |staff|, next)
    ensures AllServed(b, slot, staff + [next])
  {
  }

  lemma UnservedHasNoAssignment(b: Board, slot: int)
    requires SomeUnserved(b, slot)
    ensures !HasAssignment(b, slot)
  {
    var i :| 0 <= i < |b.services| && Unserved(b, slot, i);
    forall staff ensures !ValidAssignment(b, slot, staff) {
      if |staff| == |b.services| {
        assert !ServesAt(b, slot, i, staff[i]);
      }
    }
  }

  /** The greedy search finds an assignment exactly when one exists, and what it finds is one. */
  lemma {:induction false} GreedyFindsAssignments(b: Board, slot: int)
    ensures var found := Greedy(b, slot, |b.services|);
            && (found.Some? <==> HasAssignment(b, slot))
            && (found.Some? ==> ValidAssignment(b, slot, found.value))
  {
    GreedyIsExact(b, slot, |b.services|);
    var found := Greedy(b, slot, |b.services|);
    if found.Some? {
      forall i, j | 0 <= i < j < |b.services| ensures !Meets(WindowOf(b, slot, j), WindowOf(b, slot, i)) {
        StartsAreOrdered(b, slot, i, j);
      }
      assert ValidAssignment(b, slot, found.value);
    } else {
      UnservedHasNoAssignment(b, slot);
    }
  }

  // ----- The offered slots are exactly the bookable times of the grid ----------------------------------------

  ghost predicate StepsApart(from: int, to: int, interval: int, k: nat) {
    to == from + k * interval
  }

  /** A start time of the grid that fits before closing and is not in the past. */
  ghost predicate OnGrid(b: Board, from: nat, slot: nat) {
    && from <= slot && slot + TotalDuration(b.services) <= b.close
    && (exists k: nat :: StepsApart(from, slot, b.interval, k))
    && !(b.isToday && slot < b.nowMins)
  }

  lemma GridStep(b: Board, from: nat, slot: nat)
    requires b.interval > 0 && slot != from
    ensures OnGrid(b, from, slot) <==> OnGrid(b, from + b.interval, slot)
  {
    if OnGrid(b, from, slot) {
      var k: nat :| StepsApart(from, slot, b.interval, k);
      assert k > 0;
      assert k * b.interval == (k - 1) * b.interval + b.interval;
      assert StepsApart(from + b.interval, slot, b.interval, k - 1);
    }
    if OnGrid(b, from + b.interval, slot) {
      var k: nat :| StepsApart(from + b.interval, slot, b.interval, k);
      assert (k + 1) * b.interval == k * b.interval + b.interval;
      assert StepsApart(from, slot, b.interval, k + 1);
    }
  }

  lemma GridHere(b: Board, slot: nat)
    requires b.interval > 0
    ensures !OnGrid(b, slot + b.interval, slot)
  {
  }

  /** Completeness: a grid time with a valid assignment is among the slots. */
  lemma {:induction false} GridTimesAreListed(b: Board, from: nat, slot: nat) returns (s: Slot)
    requires b.interval > 0 && OnGrid(b, from, slot) && HasAssignment(b, slot)
    ensures s in SlotsFrom(b, from) && s.startTime == FormatMinutes(slot)
    decreases b.close - from
  {
    if slot == from {
      GreedyFindsAssignments(b, slot);
      s := SlotAt(b, slot)[0];
    } else {
      GridStep(b, from, slot);
      s := GridTimesAreListed(b, from + b.interval, slot);
    }
  }

  /** Soundness: every slot is a grid time with the greedy assignment, and that assignment is valid. */
  lemma {:induction false} ListedSlotsAreValid(b: Board, from: nat, s: Slot) returns (slot: nat, staff: seq<StaffId>)
    requires b.interval > 0 && s in SlotsFrom(b, from)
    ensures OnGrid(b, from, slot) && ValidAssignment(b, slot, staff)
    ensures s == Slot(FormatMinutes(slot), Assignments(b, slot, staff))
    decreases b.close - from
  {
    hide Greedy, ValidAssignment, Assignments, TotalDuration;
    if s in SlotAt(b, from) {
      slot := from;
      GreedyFindsAssignments(b, slot);
      staff := Greedy(b, slot, |b.services|).value;
      assert StepsApart(from, from, b.interval, 0);
    } else {
      slot, staff := ListedSlotsAreValid(b, from + b.interval, s);
      GridHere(b, from);
      GridStep(b, from, slot);
    }
  }

  /** The start time is offered: some slot of the answer carries it. */
  ghost predicate Offered(b: Board, slot: nat)
    requires b.interval > 0
  {
    exists s :: s in OfferedSlots(b) && s.startTime == FormatMinutes(slot)
  }

  /**
   * A start time is offered exactly when it lies on the interval grid within opening hours and not before now, some
   * valid assignment exists, and the customer is free.
   */
  lemma {:induction false} OfferedExactly(b: Board, slot: nat)
    requires b.interval > 0
    ensures Offered(b, slot) <==> OnGrid(b, b.open, slot) && HasAssignment(b, slot) && CustomerClear(b, slot)
  {
    ParseFormat(slot);
    if OnGrid(b, b.open, slot) && HasAssignment(b, slot) && CustomerClear(b, slot) {
      var s := GridTimesAreListed(b, b.open, slot);
      assert s in OfferedSlots(b);
    }
    if s :| s in OfferedSlots(b) && s.startTime == FormatMinutes(slot) {
      var found, staff := ListedSlotsAreValid(b, b.open, s);
      ParseFormat(found);
    }
  }

  /** What a client is handed: an offered slot, with its start minute and the valid assignment it carries. */
  lemma {:induction false} OfferedSlotsAreValid(b: Board, s: Slot) returns (slot: nat, staff: seq<StaffId>)
    requires b.interval > 0 && s in OfferedSlots(b)
    ensures OnGrid(b, b.open, slot) && ValidAssignment(b, slot, staff) && CustomerClear(b, slot)
    ensures s == Slot(FormatMinutes(slot), Assignments(b, slot, staff))
  {
    slot, staff := ListedSlotsAreValid(b, b.open, s);
    ParseFormat(slot);
  }

  // ----- The answer, slot by slot ----------------------------------------------------------------------------

  ghost predicate SomeoneServes(b: Board, slot: int, i: nat)
    requires i < |b.services|
  {
    exists staff :: ServesAt(b, slot, i, staff)
  }

  /** An assignment exists exactly when every service has somebody by itself. */
  lemma EachServed(b: Board, slot: int)
    ensures HasAssignment(b, slot) <==> forall i :: 0 <= i < |b.services| ==> SomeoneServes(b, slot, i)
  {
    hide ServesAt;
    GreedyFindsAssignments(b, slot);
    GreedyIsExact(b, slot, |b.services|);
    if HasAssignment(b, slot) {
      var staff := Greedy(b, slot, |b.services|).value;
      forall i | 0 <= i < |b.services| ensures SomeoneServes(b, slot, i) {
        assert ServesAt(b, slot, i, staff[i]);
      }
    } else {
      var i :| 0 <= i < |b.services| && Unserved(b, slot, i);
      assert !SomeoneServes(b, slot, i);
    }
  }

  /** Slots in the order of their minutes: all the bookable ones of the grid, each once. */
  ghost predicate Lists(b: Board, from: nat, slots: seq<Slot>, mins: seq<nat>) {
    && |mins| == |slots| && (forall i, j :: 0 <= i < j < |mins| ==> mins[i] < mins[j])
    && (forall i :: 0 <= i < |mins| ==> SlotAt(b, mins[i]) == [slots[i]])
    && (forall m: nat :: m in mins <==> OnGrid(b, from, m) && HasAssignment(b, m) && CustomerClear(b, m))
  }

  lemma {:induction false} OfferedFrom(b: Board, from: nat) returns (mins: seq<nat>)
    requires b.interval > 0
    ensures Lists(b, from, Filter(KeepsCustomer(b), SlotsFrom(b, from)), mins)
    decreases b.close - from
  {
    hide Filter, HasAssignment, CustomerClear, KeepsCustomer, ParseTime, FormatMinutes;
    if from + TotalDuration(b.services) > b.close {
      mins := [];
      FilterKeepsNone(KeepsCustomer(b), []);
    } else {
      var rest := OfferedFrom(b, from + b.interval);
      FilterAppend(KeepsCustomer(b), SlotAt(b, from), SlotsFrom(b, from + b.interval));
      OfferedHere(b, from);
      var kept := Filter(KeepsCustomer(b), SlotAt(b, from));
      mins := (if kept == [] then [] else [from]) + rest;
      ListsMore(b, from, kept, Filter(KeepsCustomer(b), SlotsFrom(b, from + b.interval)), rest);
    }
  }

  lemma OfferedHere(b: Board, slot: nat)
    requires b.interval > 0 && slot + TotalDuration(b.services) <= b.close
    ensures var kept := Filter(KeepsCustomer(b), SlotAt(b, slot));
            if OnGrid(b, slot, slot) && HasAssignment(b, slot) && CustomerClear(b, slot) then kept == SlotAt(b, slot) && |kept| == 1
            else kept == []
  {
    GreedyFindsAssignments(b, slot);
    ParseFormat(slot);
    assert StepsApart(slot, slot, b.interval, 0);
    hide HasAssignment, CustomerClear, Greedy, Assignments, ParseTime, FormatMinutes;
    if SlotAt(b, slot) == [] {
      FilterKeepsNone(KeepsCustomer(b), []);
    } else if CustomerClear(b, slot) {
      FilterKeepsAll(KeepsCustomer(b), SlotAt(b, slot));
    } else {
      FilterKeepsNone(KeepsCustomer(b), SlotAt(b, slot));
    }
  }

  lemma ListsMore(b: Board, from: nat, kept: seq<Slot>, slots: seq<Slot>, rest: seq<nat>)
    requires b.interval > 0 && Lists(b, from + b.interval, slots, rest)
    requires if OnGrid(b, from, from) && HasAssignment(b, from) && CustomerClear(b, from) then kept == SlotAt(b, from) && |kept| == 1
             else kept == []
    ensures Lists(b, from, kept + slots, (if kept == [] then [] else [from]) + rest)
  {
    hide HasAssignment, CustomerClear, SlotAt;
    var mins := (if kept == [] then [] else [from]) + rest;
    forall m | m in rest ensures m > from {
      assert OnGrid(b, from + b.interval, m);
    }
    forall i | 0 <= i < |mins| ensures SlotAt(b, mins[i]) == [(kept + slots)[i]] {
      var k := i - |kept|;
      assert i >= |kept| ==> mins[i] == rest[k] && (kept + slots)[i] == slots[k];
    }
    forall m: nat ensures m in mins <==> OnGrid(b, from, m) && HasAssignment(b, m) && CustomerClear(b, m) {
      GridHere(b, from);
      if m != from {
        GridStep(b, from, m);
        assert m in mins <==> m in rest;
      }
    }
    forall i, j | 0 <= i < j < |mins| ensures mins[i] < mins[j] {
      assert mins[j] == rest[j - |kept|] && mins[j] in rest;
      assert i >= |kept| ==> mins[i] == rest[i - |kept|];
    }
  }

  // ----- Who is assigned -------------------------------------------------------------------------------------

  lemma {:induction false} FirstFitStands(b: Board, slot: int, given: seq<StaffId>, i: nat, candidates: seq<StaffId>) returns (k: nat)
    requires |given| <= i < |b.services| && FirstFit(b, slot, given, i, candidates).Some?
    ensures k < |candidates| && candidates[k] == FirstFit(b, slot, given, i, candidates).value
    ensures forall j :: 0 <= j < k ==> !CanServe(b, slot, given, i, candidates[j])
  {
    hide CanServe;
    if CanServe(b, slot, given, i, candidates[0]) {
      k := 0;
    } else {
      k := FirstFitStands(b, slot, given, i, candidates[1..]);
      k := k + 1;
    }
  }

  lemma {:induction false} GreedyIs(b: Board, slot: int, n: nat, i: nat)
    requires i < n <= |b.services| && Greedy(b, slot, n).Some?
    ensures var staff := Greedy(b, slot, n).value;
            FirstFit(b, slot, staff[..i], i, Candidates(b, b.services[i])) == Some(staff[i])
  {
    hide FirstFit, Candidates;
    var staff := Greedy(b, slot, n).value;
    var before := Greedy(b, slot, n - 1).value;
    assert staff[..n - 1] == before;
    if i < n - 1 {
      GreedyIs(b, slot, n - 1, i);
      assert staff[..i] == before[..i];
    }
  }

  /** The one with the fewest busy times, and among those the first row. */
  ghost predicate IsPreferred(b: Board, i: nat, staff: StaffId, other: StaffId)
    requires i < |b.services|
  {
    || staff == other || Load(b)(staff) < Load(b)(other)
    || (Load(b)(staff) == Load(b)(other) && Precedes(Qualified(b, b.services[i]), staff, other))
  }

  lemma CandidatesInOrder(b: Board, i: nat, k: nat, j: nat)
    requires i < |b.services| && k <= j < |Candidates(b, b.services[i])|
    ensures var candidates := Candidates(b, b.services[i]); IsPreferred(b, i, candidates[k], candidates[j])
  {
    hide Filter, SortByLoad, Precedes;
    var working := Filter(Works(b), Qualified(b, b.services[i]));
    var candidates := Candidates(b, b.services[i]);
    SortIsAscending(Load(b), working);
    if k < j && Load(b)(candidates[k]) == Load(b)(candidates[j]) {
      SortIsStable(Load(b), working, k, j);
      FilterPrecedes(Works(b), Qualified(b, b.services[i]), candidates[k], candidates[j]);
    }
  }

  /** Of all staff who could serve, the assigned one is preferred. */
  lemma AssignedIsPreferred(b: Board, slot: int, i: nat, other: StaffId)
    requires i < |b.services| && Greedy(b, slot, |b.services|).Some? && ServesAt(b, slot, i, other)
    ensures IsPreferred(b, i, Greedy(b, slot, |b.services|).value[i], other)
  {
    var staff := Greedy(b, slot, |b.services|).value;
    var candidates := Candidates(b, b.services[i]);
    GreedyIs(b, slot, |b.services|, i);
    var k := FirstFitStands(b, slot, staff[..i], i, candidates);
    CandidatesMeaning(b, b.services[i], other);
    NoIntraOverlap(b, slot, staff[..i], i, other);
    hide IsPreferred, Candidates, FirstFit, IntraOverlap, Fits;
    var j :| 0 <= j < |candidates| && candidates[j] == other;
    CandidatesInOrder(b, i, k, j);
  }
}
