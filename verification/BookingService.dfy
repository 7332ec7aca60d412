/**
 * Creating one booking with nothing else in flight: the imperative `create` / `createWalkIn`, the function they
 * compute, and the proof that each such execution is a run of the reservation protocol.
 */
module BookingService {
  import opened Common
  import opened Bookings
  import opened Reservation
  import opened ReservationSafety
  import opened CreationRows

  // ----- The methods -----------------------------------------------------------------------------------------

  lemma {:induction false} ErrorStays(bookings: seq<Booking>, lookups: seq<Lookup>, start: Instant, i: nat)
    requires i <= |lookups| && PlanFor(bookings, lookups[..i], start).Err?
    ensures PlanFor(bookings, lookups, start) == PlanFor(bookings, lookups[..i], start)
  {
    hide StaffFor, Cursor;
    if i < |lookups| {
      var n := |lookups| - 1;
      assert lookups[..n][..i] == lookups[..i];
      ErrorStays(bookings, lookups[..n], start, i);
    } else {
      assert lookups[..i] == lookups;
    }
  }

  /** One more service: either the plan grows by one item, or the error is final. */
  lemma PlanGrows(bookings: seq<Booking>, lookups: seq<Lookup>, start: Instant, i: nat, plan: seq<Item>)
    requires i < |lookups| && PlanFor(bookings, lookups[..i], start) == Ok(plan)
    ensures var staff := StaffFor(bookings, lookups[i], Cursor(plan, start));
            PlanFor(bookings, lookups[..i + 1], start)
            == (if staff.Err? then Err(staff.error)
                else Ok(plan + [Item(staff.value, Cursor(plan, start), lookups[i].duration.value)]))
  {
    assert lookups[..i + 1][..i] == lookups[..i];
  }

  /** The cursor moves to the end of the item that starts at it. */
  lemma CursorGrows(plan: seq<Item>, start: Instant, staff: StaffId, duration: nat)
    ensures Cursor(plan + [Item(staff, Cursor(plan, start), duration)], start) == Cursor(plan, start) + duration * MINUTE_MS
  {
    var item := Item(staff, Cursor(plan, start), duration);
    assert (plan + [item])[..|plan|] == plan;
  }

  /** What the request is rejected for, or what it adds, in terms of the rows. */
  lemma CreateByRows(db: Db, id: RequestId, request: Request, now: Instant, lookups: seq<Lookup>, eligible: bool, autoConfirm: bool)
    requires Answers(lookups, request.services)
    ensures var creation := Creation(db, id, request, now, lookups, eligible, autoConfirm);
            && (forall error :: creation == Err(error) <==> IsRejected(db, request, now, lookups, eligible, error))
            && (creation.Ok? ==> IsAdded(db, Committed(db, creation.value.0, creation.value.1), id, request, lookups, autoConfirm))
  {
    hide Creation, IsRejected, IsAdded, Committed;
    forall error ensures Creation(db, id, request, now, lookups, eligible, autoConfirm) == Err(error)
                    <==> IsRejected(db, request, now, lookups, eligible, error) {
      RejectionIs(db, id, request, now, lookups, eligible, autoConfirm, error);
    }
    if Creation(db, id, request, now, lookups, eligible, autoConfirm).Ok? {
      AdditionIs(db, id, request, now, lookups, eligible, autoConfirm);
    }
  }

  class BookingsService {
    var db: Db

    constructor (db: Db)
      ensures this.db == db
    {
      this.db := db;
    }

    /** The candidate loop: lock and test each candidate in turn until one is free. */
    method PickFree(candidates: seq<StaffId>, start: Instant, duration: nat) returns (picked: Option<StaffId>)
      ensures picked == FirstFree(db.bookings, candidates, start, duration)
    {
      picked := None;
      var k := 0;
      while k < |candidates|
        invariant 0 <= k <= |candidates|
        invariant forall j :: 0 <= j < k ==> FindOverlap(db.bookings, candidates[j], start, duration).Some?
        invariant FirstFree(db.bookings, candidates, start, duration) == FirstFree(db.bookings, candidates[k..], start, duration)
      {
        var overlap := FindOverlap(db.bookings, candidates[k], start, duration);
        if overlap.None? {
          return Some(candidates[k]);
        }
        k := k + 1;
      }
    }

    /** The staff member of one service: the chosen one if free, or the first free candidate. */
    method ChooseStaff(lookup: Lookup, currentTime: Instant) returns (r: Result<StaffId, BookingError>)
      ensures r == StaffFor(db.bookings, lookup, currentTime)
    {
      if lookup.duration.None? {
        return Err(VariantMissing);
      }
      var duration := lookup.duration.value;
      match lookup.line {
        case Chosen(staff) =>
          if !lookup.staffActive {
            return Err(StaffInactive);
          }
          var overlap := FindOverlap(db.bookings, staff, currentTime, duration);
          if overlap.Some? {
            return Err(SlotTaken);
          }
          r := Ok(staff);
        case AnyStaff =>
          var picked := PickFree(lookup.candidates, currentTime, duration);
          if picked.None? {
            return Err(NoStaffAvailable);
          }
          r := Ok(picked.value);
      }
    }

    /** The service loop: each service starts where the previous one ends. */
    method PlanItems(lookups: seq<Lookup>, scheduledAt: Instant) returns (r: Result<seq<Item>, BookingError>)
      ensures r == PlanFor(db.bookings, lookups, scheduledAt)
    {
      var currentTime := scheduledAt;
      var itemsData: seq<Item> := [];
      for i := 0 to |lookups|
        invariant PlanFor(db.bookings, lookups[..i], scheduledAt) == Ok(itemsData)
        invariant currentTime == Cursor(itemsData, scheduledAt)
      {
        var staffId := ChooseStaff(lookups[i], currentTime);
        PlanGrows(db.bookings, lookups, scheduledAt, i, itemsData);
        if staffId.Err? {
          ErrorStays(db.bookings, lookups, scheduledAt, i + 1);
          return Err(staffId.error);
        }
        var duration := lookups[i].duration.value;
        CursorGrows(itemsData, scheduledAt, staffId.value, duration);
        itemsData := itemsData + [Item(staffId.value, currentTime, duration)];
        currentTime := currentTime + duration * MINUTE_MS;
      }
      assert lookups[..|lookups|] == lookups;
      r := Ok(itemsData);
    }

    /** Nothing is written before every check has passed. */
    method Create(id: RequestId, request: Request, now: Instant, lookups: seq<Lookup>, eligible: bool, autoConfirm: bool)
      returns (r: Result<nat, BookingError>)
      requires Answers(lookups, request.services)
      modifies this
      ensures var creation := Creation(old(db), id, request, now, lookups, eligible, autoConfirm);
              && (creation.Ok? ==> r == Ok(|old(db).bookings|) && db == Committed(old(db), creation.value.0, creation.value.1))
              && (creation.Err? ==> r == Err(creation.error) && db == old(db))
      ensures forall error :: r == Err(error) <==> IsRejected(old(db), request, now, lookups, eligible, error)
      ensures r.Err? ==> db == old(db)
      ensures r.Ok? ==> r.value == |old(db).bookings| && IsAdded(old(db), db, id, request, lookups, autoConfirm)
    {
      CreateByRows(db, id, request, now, lookups, eligible, autoConfirm);
      hide IsRejected, IsAdded;
      if |request.services| == 0 || request.scheduledAt <= now {
        return Err(BadRequest);
      }
      var plan := PlanItems(lookups, request.scheduledAt);
      if plan.Err? {
        return Err(plan.error);
      }
      var newEnd := Cursor(plan.value, request.scheduledAt);
      var used: Option<Code> := None;
      if request.Create? {
        if CustomerConflict(db.bookings, request.customer, request.scheduledAt, newEnd) {
          return Err(CustomerBusy);
        }
        if request.coupon.Some? {
          var code := request.coupon.value;
          if code !in db.coupons || !eligible || !CouponUsable(db, code, request.customer) {
            return Err(CouponRefused);
          }
          used := Some(code);
        }
      }
      var booking := NewBooking(id, Tx(request, plan.value, newEnd, NextService), autoConfirm);
      r := Ok(|db.bookings|);
      db := Committed(db, booking, used);
    }
  }

  // ----- Each execution is a run of the protocol -------------------------------------------------------------

  /** An admissible run, with durations up to a bound, written out: the state before the first and after every step. */
  datatype History = History(steps: seq<Step>, states: seq<State>, longest: nat) {
    ghost predicate Valid() {
      && |states| == |steps| + 1
      && forall i {:trigger steps[i]} :: 0 <= i < |steps| ==>
           Apply(states[i], steps[i]) == Some(states[i + 1]) && AdmissibleWithin(states[i], steps[i], longest)
    }

    function First(): State {
      if states == [] then INIT else states[0]
    }

    function Last(): State {
      if states == [] then INIT else states[|states| - 1]
    }
  }

  lemma Extend(h: History, step: Step, next: State) returns (h': History)
    requires h.Valid() && Apply(h.Last(), step) == Some(next) && AdmissibleWithin(h.Last(), step, h.longest)
    ensures h'.Valid() && h'.Last() == next && h'.First() == h.First() && h'.longest == h.longest
  {
    hide Apply, AdmissibleWithin;
    h' := History(h.steps + [step], h.states + [next], h.longest);
  }

  lemma Join(first: History, second: History) returns (h: History)
    requires first.Valid() && second.Valid() && first.Last() == second.First() && first.longest == second.longest
    ensures h.Valid() && h.First() == first.First() && h.Last() == second.Last() && h.longest == first.longest
  {
    hide Apply, AdmissibleWithin;
    h := History(first.steps + second.steps, first.states + second.states[1..], first.longest);
    forall i | 0 <= i < |h.steps|
      ensures Apply(h.states[i], h.steps[i]) == Some(h.states[i + 1]) && AdmissibleWithin(h.states[i], h.steps[i], h.longest)
    {
      if i < |first.steps| {
        assert h.steps[i] == first.steps[i] && h.states[i] == first.states[i] && h.states[i + 1] == first.states[i + 1];
      } else {
        var j := i - |first.steps|;
        assert h.steps[i] == second.steps[j] && h.states[i] == second.states[j] && h.states[i + 1] == second.states[j + 1];
      }
    }
  }

  lemma {:induction false} HistoryIsRun(h: History, n: nat)
    requires h.Valid() && n <= |h.steps|
    ensures Run(h.First(), h.steps[..n]) == Some(h.states[n])
    ensures RunWithin(h.First(), h.steps[..n], h.longest)
  {
    hide Apply, AdmissibleWithin;
    if n > 0 {
      HistoryIsRun(h, n - 1);
      assert h.steps[..n][..n - 1] == h.steps[..n - 1];
    }
  }

  predicate DurationsWithin(lookups: seq<Lookup>, longest: nat) {
    forall i :: 0 <= i < |lookups| && lookups[i].duration.Some? ==> lookups[i].duration.value <= longest
  }

  /** Nobody holds a lock and the request is new. */
  predicate Quiet(s0: State, id: RequestId) {
    s0.locks == map[] && id !in s0.requests
  }

  /** Nothing has happened since s0 except to this request, and only it holds locks. */
  ghost predicate Alone(s: State, s0: State, id: RequestId, progress: Progress) {
    && s.db == s0.db && s.reassigning == s0.reassigning
    && s.requests.Keys == s0.requests.Keys + {id} && s.requests[id] == progress
    && (forall other :: other in s0.requests && other != id ==> s.requests[other] == s0.requests[other])
    && (forall row :: row in s.locks ==> s.locks[row] == id)
  }

  /** A run from s0 in which only this request has moved. */
  ghost predicate At(h: History, s0: State, id: RequestId, progress: Progress) {
    h.Valid() && h.First() == s0 && Quiet(s0, id) && Alone(h.Last(), s0, id, progress)
  }

  ghost predicate Underway(h: History, s0: State, id: RequestId, tx: Tx) {
    At(h, s0, id, Running(tx, 0))
  }

  /** One statement of the only transaction: it never waits. */
  lemma Take(h: History, s0: State, id: RequestId, tx: Tx, step: Step) returns (h': History)
    requires Underway(h, s0, id, tx) && IsStatement(step) && step.id == id
    requires step.ReadVariant? && step.duration.Some? ==> step.duration.value <= h.longest
    requires var move := MoveOf(s0.db, tx, 0, id, step); move.Go? || move.GoLocking? || move == Stop(Failed)
    ensures h'.longest == h.longest
    ensures var move := MoveOf(s0.db, tx, 0, id, step);
            At(h', s0, id, if move.Stop? then Failed else Running(move.next, 0))
  {
    var s := h.Last();
    h' := Extend(h, step, Perform(s, id, MoveOf(s0.db, tx, 0, id, step)).value);
  }

  /** Lock one candidate and check it. */
  lemma TryOne(h: History, s0: State, id: RequestId, tx: Tx, staff: StaffId, rest: seq<StaffId>, duration: nat) returns (h': History)
    requires Underway(h, s0, id, tx) && tx.phase == WantStaff(staff, rest, duration)
    ensures h'.longest == h.longest
    ensures At(h', s0, id,
               if FindOverlap(s0.db.bookings, staff, tx.cursor, duration).None? then Running(Staffed(tx, staff, duration), 0)
               else if rest == [] then Failed
               else Running(tx.(phase := WantStaff(rest[0], rest[1..], duration)), 0))
  {
    h' := Take(h, s0, id, tx, LockStaff(id));
    var locked := tx.(phase := HasStaff(staff, rest, duration));
    h' := Take(h', s0, id, locked, CheckStaff(id));
  }

  /** Lock-and-check statements for a list of candidates end at the first free one, or in failure. */
  lemma {:induction false} TryCandidates(h: History, s0: State, id: RequestId, tx: Tx, candidates: seq<StaffId>, duration: nat)
    returns (h': History)
    requires candidates != [] && tx.phase == WantStaff(candidates[0], candidates[1..], duration)
    requires Underway(h, s0, id, tx)
    ensures h'.longest == h.longest
    ensures var free := FirstFree(s0.db.bookings, candidates, tx.cursor, duration);
            At(h', s0, id, if free.None? then Failed else Running(Staffed(tx, free.value, duration), 0))
    decreases |candidates|
  {
    var rest := candidates[1..];
    h' := TryOne(h, s0, id, tx, candidates[0], rest, duration);
    if FindOverlap(s0.db.bookings, candidates[0], tx.cursor, duration).Some? && rest != [] {
      h' := TryCandidates(h', s0, id, tx.(phase := WantStaff(rest[0], rest[1..], duration)), rest, duration);
    }
  }

  function Planning(request: Request, plan: seq<Item>): Tx {
    Tx(request, plan, Cursor(plan, request.scheduledAt), if |plan| < |request.services| then NextService else AllStaffed)
  }

  lemma StaffedIsPlanning(request: Request, plan: seq<Item>, staff: StaffId, duration: nat)
    ensures Staffed(Planning(request, plan), staff, duration)
         == Planning(request, plan + [Item(staff, Cursor(plan, request.scheduledAt), duration)])
  {
    CursorGrows(plan, request.scheduledAt, staff, duration);
  }

  /** Whom the lookup makes the transaction try. */
  function Tried(lookup: Lookup): seq<StaffId> {
    if lookup.duration.None? || (lookup.line.Chosen? && !lookup.staffActive) then []
    else if lookup.line.Chosen? then [lookup.line.staff]
    else lookup.candidates
  }

  lemma StaffForIsFirstFree(bookings: seq<Booking>, lookup: Lookup, start: Instant)
    ensures var staff := StaffFor(bookings, lookup, start);
            && (Tried(lookup) == [] ==> staff.Err?)
            && (Tried(lookup) != [] ==>
                  && lookup.duration.Some?
                  && var free := FirstFree(bookings, Tried(lookup), start, lookup.duration.value);
                     if free.None? then staff.Err? else staff == Ok(free.value))
  {
  }

  /** The statements that plan one more service. */
  lemma ServiceIsARun(h: History, s0: State, id: RequestId, request: Request, plan: seq<Item>, lookup: Lookup)
    returns (h': History)
    requires |plan| < |request.services| && lookup.line == request.services[|plan|]
    requires lookup.duration.Some? ==> lookup.duration.value <= h.longest
    requires Underway(h, s0, id, Planning(request, plan))
    ensures h'.longest == h.longest
    ensures var cursor := Cursor(plan, request.scheduledAt);
            var staff := StaffFor(s0.db.bookings, lookup, cursor);
            At(h', s0, id,
               if staff.Err? then Failed
               else Running(Planning(request, plan + [Item(staff.value, cursor, lookup.duration.value)]), 0))
  {
    hide FindOverlap, CustomerConflict, CouponUsable, FirstFree, Apply;
    var tx := Planning(request, plan);
    h' := Take(h, s0, id, tx, ReadVariant(id, lookup.duration, lookup.staffActive, lookup.candidates));
    StaffForIsFirstFree(s0.db.bookings, lookup, tx.cursor);
    var tried := Tried(lookup);
    if tried != [] {
      var duration := lookup.duration.value;
      var free := FirstFree(s0.db.bookings, tried, tx.cursor, duration);
      h' := TryCandidates(h', s0, id, tx.(phase := WantStaff(tried[0], tried[1..], duration)), tried, duration);
      if free.Some? {
        StaffedIsPlanning(request, plan, free.value, duration);
      }
    }
  }

  /** The statements that plan the first n services. */
  lemma {:induction false} PlanIsARun(s0: State, id: RequestId, request: Request, now: Instant, lookups: seq<Lookup>, n: nat, longest: nat)
    returns (h: History)
    requires Answers(lookups, request.services) && n <= |lookups|
    requires |request.services| > 0 && request.scheduledAt > now && Quiet(s0, id)
    requires DurationsWithin(lookups, longest)
    ensures h.longest == longest
    ensures var plan := PlanFor(s0.db.bookings, lookups[..n], request.scheduledAt);
            && (plan.Ok? ==> |plan.value| == n)
            && At(h, s0, id, if plan.Err? then Failed else Running(Planning(request, plan.value), 0))
  {
    if n == 0 {
      var s1 := s0.(requests := s0.requests[id := Waiting(request, 0)]);
      h := Extend(History([], [s0], longest), Submit(id, request, now), s1);
      h := Extend(h, Begin(id), s1.(requests := s1.requests[id := Running(Planning(request, []), 0)]));
    } else {
      h := PlanIsARun(s0, id, request, now, lookups, n - 1, longest);
      assert lookups[..n][..n - 1] == lookups[..n - 1];
      var before := PlanFor(s0.db.bookings, lookups[..n - 1], request.scheduledAt);
      if before.Ok? {
        h := ServiceIsARun(h, s0, id, request, before.value, lookups[n - 1]);
      }
    }
  }

  /** The lock, check and increment of a coupon. */
  lemma CouponIsARun(h: History, s0: State, id: RequestId, tx: Tx, eligible: bool) returns (h': History)
    requires tx.request.Create? && tx.request.coupon.Some? && tx.phase == WantCoupon(tx.request.coupon.value)
    requires Underway(h, s0, id, tx)
    ensures h'.longest == h.longest
    ensures var used := CouponFor(s0.db, tx.request, eligible);
            At(h', s0, id, if used.Err? then Failed else Running(tx.(phase := ReadyToInsert(used.value)), 0))
  {
    var code := tx.phase.code;
    h' := Take(h, s0, id, tx, LockCoupon(id));
    h' := Take(h', s0, id, tx.(phase := TriedCoupon(code)), CheckCoupon(id, eligible));
    if CouponFor(s0.db, tx.request, eligible).Ok? {
      h' := IncrementIsARun(h', s0, id, tx.(phase := CouponOk(code)));
    }
  }

  lemma IncrementIsARun(h: History, s0: State, id: RequestId, tx: Tx) returns (h': History)
    requires Underway(h, s0, id, tx) && tx.phase.CouponOk?
    ensures h'.longest == h.longest
    ensures At(h', s0, id, Running(tx.(phase := ReadyToInsert(Some(tx.phase.code))), 0))
  {
    h' := Take(h, s0, id, tx, IncrementCoupon(id));
  }

  /** The state once this request has committed. */
  function After(s0: State, id: RequestId, booking: Booking, used: Option<Code>): State {
    s0.(db := Committed(s0.db, booking, used), requests := s0.requests[id := Done(|s0.db.bookings|)])
  }

  lemma CommitIsARun(h: History, s0: State, id: RequestId, tx: Tx) returns (h': History)
    requires Underway(h, s0, id, tx) && tx.phase.Inserted?
    ensures h'.longest == h.longest
    ensures h'.Valid() && h'.First() == s0 && h'.Last() == After(s0, id, tx.phase.booking, tx.phase.used)
  {
    hide FindOverlap, CustomerConflict, CouponUsable, Committed;
    var s := h.Last();
    var next := End(s.(db := Committed(s0.db, tx.phase.booking, tx.phase.used)), id, Done(|s0.db.bookings|));
    h' := Extend(h, Commit(id), next);
    assert next.locks == map[];
    assert next.requests == s0.requests[id := Done(|s0.db.bookings|)];
  }

  lemma AfterCommit(h: History, s0: State, id: RequestId, tx: Tx, autoConfirm: bool) returns (h': History)
    requires Underway(h, s0, id, tx) && tx.phase.ReadyToInsert?
    ensures h'.longest == h.longest
    ensures h'.Valid() && h'.First() == s0
    ensures h'.Last() == After(s0, id, NewBooking(id, tx, autoConfirm), tx.phase.used)
  {
    hide FindOverlap, CustomerConflict, CouponUsable, NewBooking, Apply;
    h' := Take(h, s0, id, tx, Insert(id, autoConfirm));
    h' := CommitIsARun(h', s0, id, tx.(phase := Inserted(NewBooking(id, tx, autoConfirm), tx.phase.used)));
  }

  /**
   * Whatever `create` does alone, the protocol can do: a run from the same state, with no lock held, ends with the
   * tables of `Creation`, no lock held, and the request done; or with the tables untouched and the request failed.
   */
  lemma CreationIsARun(s0: State, id: RequestId, request: Request, now: Instant, lookups: seq<Lookup>,
                       eligible: bool, autoConfirm: bool, longest: nat) returns (h: History)
    requires Answers(lookups, request.services) && Quiet(s0, id) && DurationsWithin(lookups, longest)
    ensures h.longest == longest
    ensures h.Valid() && h.First() == s0 && Run(s0, h.steps) == Some(h.Last())
    ensures var result := Creation(s0.db, id, request, now, lookups, eligible, autoConfirm);
            && (result.Ok? ==> h.Last() == After(s0, id, result.value.0, result.value.1))
            && (result.Err? ==> Alone(h.Last(), s0, id, Failed))
  {
    h := CreationHistory(s0, id, request, now, lookups, eligible, autoConfirm, longest);
    HistoryIsRun(h, |h.steps|);
    assert h.steps[..|h.steps|] == h.steps;
  }

  lemma CreationHistory(s0: State, id: RequestId, request: Request, now: Instant, lookups: seq<Lookup>,
                        eligible: bool, autoConfirm: bool, longest: nat) returns (h: History)
    requires Answers(lookups, request.services) && Quiet(s0, id) && DurationsWithin(lookups, longest)
    ensures h.longest == longest
    ensures h.Valid() && h.First() == s0
    ensures var result := Creation(s0.db, id, request, now, lookups, eligible, autoConfirm);
            && (result.Ok? ==> h.Last() == After(s0, id, result.value.0, result.value.1))
            && (result.Err? ==> Alone(h.Last(), s0, id, Failed))
  {
    if |request.services| == 0 || request.scheduledAt <= now {
      h := Extend(History([], [s0], longest), Submit(id, request, now), s0.(requests := s0.requests[id := Failed]));
      return;
    }
    h := PlanIsARun(s0, id, request, now, lookups, |lookups|, longest);
    assert lookups[..|lookups|] == lookups;
    var plan := PlanFor(s0.db.bookings, lookups, request.scheduledAt);
    if plan.Err? {
      return;
    }
    var tx := Planning(request, plan.value);
    h := ChecksAreARun(h, s0, id, tx, eligible);
    var used := CouponFor(s0.db, request, eligible);
    if !CustomerBusyFor(s0.db, tx) && used.Ok? {
      h := AfterCommit(h, s0, id, tx.(phase := ReadyToInsert(used.value)), autoConfirm);
    }
  }

  predicate CustomerBusyFor(db: Db, tx: Tx) {
    tx.request.Create? && CustomerConflict(db.bookings, tx.request.customer, tx.request.scheduledAt, tx.cursor)
  }

  /** The customer check and the coupon statements after the last service. */
  lemma ChecksAreARun(h: History, s0: State, id: RequestId, tx: Tx, eligible: bool) returns (h': History)
    requires Underway(h, s0, id, tx) && tx.phase.AllStaffed?
    ensures h'.longest == h.longest
    ensures var used := CouponFor(s0.db, tx.request, eligible);
            At(h', s0, id, if CustomerBusyFor(s0.db, tx) || used.Err? then Failed
                           else Running(tx.(phase := ReadyToInsert(used.value)), 0))
  {
    h' := Take(h, s0, id, tx, CheckCustomer(id));
    if !CustomerBusyFor(s0.db, tx) && tx.request.Create? && tx.request.coupon.Some? {
      h' := CouponIsARun(h', s0, id, tx.(phase := WantCoupon(tx.request.coupon.value)), eligible);
    }
  }
}
