/**
 * A locking read of a coupon code that does not exist locks nothing. When creating a coupon is safe, exactly: while no
 * transaction stands between its locking read of that code and the read after it.
 */
module CouponGap {
  import opened Common
  import opened Bookings
  import opened Reservation
  import opened ReservationSafety
  import opened CouponSafety

  // ----- What every run keeps --------------------------------------------------------------------------------

  /** Locked coupon rows exist, and only customers' transactions deal with coupons. */
  ghost predicate Grounded(s: State) {
    && (forall code :: CouponRow(code) in s.locks ==> code in s.db.coupons)
    && (forall id :: id in s.requests && s.requests[id].Running? ==> TxGrounded(s.db, s.requests[id].tx))
  }

  predicate TxGrounded(db: Db, tx: Tx) {
    && (tx.phase.WantCoupon? || tx.phase.TriedCoupon? ==> tx.request.Create?)
    && (tx.phase.CouponOk? ==> tx.request.Create? && tx.phase.code in db.coupons)
  }

  lemma MoveIsGrounded(db: Db, tx: Tx, attempt: nat, id: RequestId, step: Step)
    requires TxGrounded(db, tx)
    ensures match MoveOf(db, tx, attempt, id, step)
            case Go(next) => TxGrounded(db, next)
            case GoLocking(next, row) => TxGrounded(db, next) && (row.CouponRow? ==> row.code in db.coupons)
            case Stop(progress) => !progress.Running?
            case _ => true
  {
    hide FindOverlap, CustomerConflict, CouponUsable;
  }

  lemma TxStepIsGrounded(s: State, step: Step, id: RequestId)
    requires Grounded(s) && InTx(s, id)
    ensures TxApply(s, step, id).Some? ==> Grounded(TxApply(s, step, id).value)
  {
    hide MoveOf;
    MoveIsGrounded(s.db, s.requests[id].tx, s.requests[id].attempt, id, step);
  }

  lemma StepIsGrounded(s: State, step: Step)
    requires Grounded(s)
    ensures Apply(s, step).Some? ==> Grounded(Apply(s, step).value)
  {
    hide FindOverlap, TxApply;
    if !step.Submit? && !step.Begin? && !step.ChangeStatus? && !step.ReassignCheck? && !step.ReassignWrite? && !step.CreateCoupon?
       && InTx(s, step.id) {
      TxStepIsGrounded(s, step, step.id);
    }
  }

  lemma {:induction false} RunIsGrounded(steps: seq<Step>)
    ensures Run(INIT, steps).Some? ==> Grounded(Run(INIT, steps).value)
  {
    hide Apply;
    if steps != [] {
      var n := |steps| - 1;
      RunIsGrounded(steps[..n]);
      if Run(INIT, steps[..n]).Some? {
        StepIsGrounded(Run(INIT, steps[..n]).value, steps[n]);
      }
    }
  }

  // ----- Runs of ordinary transactions -----------------------------------------------------------------------

  /** A statement of a transaction, or its start, with a duration that the scan margin covers. */
  predicate IsOrdinary(step: Step) {
    && (IsStatement(step) || step.Submit? || step.Begin?)
    && (step.ReadVariant? && step.duration.Some? ==> step.duration.value <= MAX_DURATION)
  }

  /** Ordinary steps from one state to another. */
  ghost predicate Leads(from: State, steps: seq<Step>, to: State) {
    Run(from, steps) == Some(to) && forall i :: 0 <= i < |steps| ==> IsOrdinary(steps[i])
  }

  lemma Go(from: State, steps: seq<Step>, to: State, step: Step)
    ensures Leads(from, steps, to) && IsOrdinary(step) && Apply(to, step).Some? ==> Leads(from, steps + [step], Apply(to, step).value)
  {
    hide Apply, IsOrdinary;
    assert (steps + [step])[..|steps|] == steps;
  }

  lemma {:induction false} Chain(from: State, first: seq<Step>, mid: State, second: seq<Step>, to: State)
    ensures Leads(from, first, mid) && Leads(mid, second, to) ==> Leads(from, first + second, to)
  {
    hide Apply, IsOrdinary;
    if Leads(from, first, mid) && Leads(mid, second, to) {
      if second == [] {
        assert first + second == first;
      } else {
        var n := |second| - 1;
        Chain(from, first, mid, second[..n], Run(mid, second[..n]).value);
        assert (first + second)[..|first| + n] == first + second[..n];
      }
    }
  }

  lemma {:induction false} OrdinaryRun(s: State, steps: seq<Step>)
    requires forall i :: 0 <= i < |steps| ==> IsOrdinary(steps[i])
    ensures ApartRun(s, steps) && AdmissibleRun(s, steps)
  {
    hide Run;
    if steps != [] {
      OrdinaryRun(s, steps[..|steps| - 1]);
    }
  }

  /** The statement of a running transaction that a step stands for. */
  function Now(s: State, id: RequestId, step: Step): Option<State>
    requires InTx(s, id)
  {
    Perform(s, id, MoveOf(s.db, s.requests[id].tx, s.requests[id].attempt, id, step))
  }

  lemma Statement(from: State, steps: seq<Step>, to: State, id: RequestId, step: Step)
    requires InTx(to, id) && IsStatement(step) && step.id == id && !step.ReadVariant?
    ensures Leads(from, steps, to) && Now(to, id, step).Some? ==> Leads(from, steps + [step], Now(to, id, step).value)
  {
    hide Run;
    Go(from, steps, to, step);
  }

  // ----- A newcomer ------------------------------------------------------------------------------------------

  /** A request for an hour with one staff member, and everything about it that has to be new. */
  datatype Newcomer = Newcomer(id: RequestId, customer: UserId, staff: StaffId)

  const SOON := HOUR_MS

  ghost predicate IsFresh(s: State, n: Newcomer) {
    && n.id !in s.requests && StaffRow(n.staff) !in s.locks
    && (forall b, k :: 0 <= b < |s.db.bookings| && 0 <= k < |s.db.bookings[b].items| ==>
          s.db.bookings[b].items[k].staff != n.staff)
    && (forall b :: 0 <= b < |s.db.bookings| ==> s.db.bookings[b].customer != Some(n.customer))
  }

  function RequestOf(n: Newcomer, code: Code): Request {
    Create(n.customer, SOON, [Chosen(n.staff)], Some(code))
  }

  /** The newcomer's transaction once its service is staffed. */
  function StaffedTx(n: Newcomer, code: Code, phase: Phase): Tx {
    Tx(RequestOf(n, code), [Item(n.staff, SOON, 60)], SOON + HOUR_MS, phase)
  }

  /** The state with the newcomer at work: it holds its staff row, and everything else is as it was. */
  function Working(s: State, n: Newcomer, tx: Tx): State {
    s.(requests := s.requests[n.id := Running(tx, 0)], locks := s.locks[StaffRow(n.staff) := n.id])
  }

  lemma UpToStaff(s: State, n: Newcomer, code: Code) returns (steps: seq<Step>)
    requires IsFresh(s, n)
    ensures Leads(s, steps, Working(s, n, Tx(RequestOf(n, code), [], SOON, HasStaff(n.staff, [], 60))))
  {
    var id := n.id;
    var tx := Tx(RequestOf(n, code), [], SOON, NextService);
    assert [n.staff][1..] == [];
    var s1 := s.(requests := s.requests[id := Waiting(tx.request, 0)]);
    var s2 := s1.(requests := s1.requests[id := Running(tx, 0)]);
    var s3 := Advance(s2, id, tx.(phase := WantStaff(n.staff, [], 60)));
    var s4 := Advance(s3.(locks := s3.locks[StaffRow(n.staff) := id]), id, tx.(phase := HasStaff(n.staff, [], 60)));
    assert s4.requests == s.requests[id := s4.requests[id]];
    assert Apply(s, Submit(id, tx.request, 0)) == Some(s1) && Apply(s1, Begin(id)) == Some(s2);
    assert Apply(s2, ReadVariant(id, Some(60), true, [])) == Some(s3) && Apply(s3, LockStaff(id)) == Some(s4);
    hide Apply;
    Go(s, [], s, Submit(id, tx.request, 0));
    Go(s, [] + [Submit(id, tx.request, 0)], s1, Begin(id));
    Go(s, [] + [Submit(id, tx.request, 0)] + [Begin(id)], s2, ReadVariant(id, Some(60), true, []));
    steps := [] + [Submit(id, tx.request, 0)] + [Begin(id)] + [ReadVariant(id, Some(60), true, [])];
    Go(s, steps, s3, LockStaff(id));
    steps := steps + [LockStaff(id)];
  }

  lemma NobodyInTheWay(s: State, n: Newcomer)
    requires IsFresh(s, n)
    ensures FindOverlap(s.db.bookings, n.staff, SOON, 60).None?
    ensures forall end :: !CustomerConflict(s.db.bookings, n.customer, SOON, end)
  {
    ScanSeesSixHours(s.db.bookings, Item(n.staff, SOON, 60));
  }

  lemma UpToCoupon(s: State, n: Newcomer, code: Code) returns (steps: seq<Step>)
    requires IsFresh(s, n)
    ensures Leads(s, steps, Working(s, n, StaffedTx(n, code, WantCoupon(code))))
  {
    hide FindOverlap, CustomerConflict, Leads;
    NobodyInTheWay(s, n);
    steps := UpToStaff(s, n, code);
    var s1 := Working(s, n, Tx(RequestOf(n, code), [], SOON, HasStaff(n.staff, [], 60)));
    assert [] + [Item(n.staff, SOON, 60)] == [Item(n.staff, SOON, 60)];
    Statement(s, steps, s1, n.id, CheckStaff(n.id));
    var s2 := Now(s1, n.id, CheckStaff(n.id)).value;
    Statement(s, steps + [CheckStaff(n.id)], s2, n.id, CheckCustomer(n.id));
    var s3 := Now(s2, n.id, CheckCustomer(n.id)).value;
    steps := steps + [CheckStaff(n.id)] + [CheckCustomer(n.id)];
    assert s3.requests == s.requests[n.id := Running(StaffedTx(n, code, WantCoupon(code)), 0)];
  }

  /** A passed check: nothing else changes. */
  function Checked(s: State, id: RequestId, code: Code): State
    requires InTx(s, id)
  {
    Advance(s, id, s.requests[id].tx.(phase := CouponOk(code)))
  }

  lemma CheckPasses(s: State, id: RequestId, code: Code)
    requires InTx(s, id) && s.requests[id].tx.phase == TriedCoupon(code) && s.requests[id].tx.request.Create?
    requires code in s.db.coupons && CouponUsable(s.db, code, s.requests[id].tx.request.customer)
    ensures Leads(s, [CheckCoupon(id, true)], Checked(s, id, code))
  {
    hide CouponUsable;
    Statement(s, [], s, id, CheckCoupon(id, true));
    assert [] + [CheckCoupon(id, true)] == [CheckCoupon(id, true)];
  }

  /** From a passed check to the insertion: this request now holds the coupon row, and nothing else has changed. */
  lemma TakeCoupon(s: State, id: RequestId, code: Code) returns (s': State)
    requires InTx(s, id) && s.requests[id].tx.phase == CouponOk(code) && s.requests[id].tx.request.Create?
    requires Free(s, CouponRow(code), id)
    ensures Leads(s, [IncrementCoupon(id), Insert(id, false)], s')
    ensures s'.db == s.db && s'.locks == s.locks[CouponRow(code) := id] && InTx(s', id)
    ensures s'.requests == s.requests[id := s'.requests[id]]
    ensures var phase := s'.requests[id].tx.phase;
            phase.Inserted? && phase.used == Some(code) && phase.booking.customer.Some?
  {
    var mid := Now(s, id, IncrementCoupon(id)).value;
    s' := Now(mid, id, Insert(id, false)).value;
    Statement(s, [], s, id, IncrementCoupon(id));
    Statement(s, [] + [IncrementCoupon(id)], mid, id, Insert(id, false));
    assert [] + [IncrementCoupon(id)] + [Insert(id, false)] == [IncrementCoupon(id), Insert(id, false)];
  }

  /** The database with one more use of a coupon. */
  ghost predicate OneUseMore(s: State, s': State, code: Code)
    requires code in s.db.coupons
  {
    s'.db.coupons == s.db.coupons[code := s.db.coupons[code].(usedCount := s.db.coupons[code].usedCount + 1)]
  }

  /** Every request but this one stands where it stood. */
  ghost predicate OthersStay(s: State, s': State, id: RequestId) {
    forall other :: other in s.requests && other != id ==> other in s'.requests && s'.requests[other] == s.requests[other]
  }

  /** From a passed check to the commit: the counter goes up by one and only this request's locks go. */
  lemma UseCoupon(s: State, id: RequestId, code: Code) returns (steps: seq<Step>, s': State)
    requires InTx(s, id) && s.requests[id].tx.phase == CouponOk(code) && s.requests[id].tx.request.Create?
    requires code in s.db.coupons && Free(s, CouponRow(code), id)
    ensures Leads(s, steps, s') && OneUseMore(s, s', code) && OthersStay(s, s', id) && s'.locks == Release(s.locks, id)
  {
    var taken := TakeCoupon(s, id, code);
    s' := Now(taken, id, Commit(id)).value;
    steps := [IncrementCoupon(id), Insert(id, false)] + [Commit(id)];
    hide Leads;
    Statement(s, [IncrementCoupon(id), Insert(id, false)], taken, id, Commit(id));
    assert s'.locks == Release(s.locks, id);
  }

  // ----- The gap ---------------------------------------------------------------------------------------------

  /** A customer's transaction has tried to lock a coupon that does not exist. */
  ghost predicate InTheGap(s: State, id: RequestId, code: Code) {
    && InTx(s, id) && s.requests[id].tx.phase == TriedCoupon(code) && s.requests[id].tx.request.Create?
    && code !in s.db.coupons && CouponRow(code) !in s.locks
  }

  function Created(s: State, code: Code, usageLimit: Option<nat>, perUserLimit: Option<nat>): State {
    s.(db := s.db.(coupons := s.db.coupons[code := Coupon(usageLimit, perUserLimit, 0)]))
  }

  /** The newcomer with the coupon row locked and nothing checked yet. */
  function Trying(s: State, n: Newcomer, code: Code): State {
    var working := Working(s, n, StaffedTx(n, code, TriedCoupon(code)));
    working.(locks := working.locks[CouponRow(code) := n.id])
  }

  lemma NewcomerTries(s: State, n: Newcomer, code: Code) returns (steps: seq<Step>)
    requires IsFresh(s, n) && code in s.db.coupons && CouponRow(code) !in s.locks
    ensures Leads(s, steps, Trying(s, n, code))
  {
    hide Leads;
    steps := UpToCoupon(s, n, code);
    var wanting := Working(s, n, StaffedTx(n, code, WantCoupon(code)));
    Statement(s, steps, wanting, n.id, LockCoupon(n.id));
    steps := steps + [LockCoupon(n.id)];
    assert wanting.requests[n.id := Running(StaffedTx(n, code, TriedCoupon(code)), 0)] == Trying(s, n, code).requests;
  }

  /** A newcomer uses a coupon that nobody has locked, from its submission to its commit. */
  lemma NewcomerUses(s: State, n: Newcomer, code: Code) returns (steps: seq<Step>, s': State)
    requires IsFresh(s, n) && code in s.db.coupons && CouponRow(code) !in s.locks && CouponUsable(s.db, code, n.customer)
    ensures Leads(s, steps, s') && OneUseMore(s, s', code) && OthersStay(s, s', n.id) && CouponRow(code) !in s'.locks
  {
    hide CouponUsable, Leads;
    var tried := Trying(s, n, code);
    var ok := Checked(tried, n.id, code);
    var first := NewcomerTries(s, n, code);
    CheckPasses(tried, n.id, code);
    var last;
    last, s' := UseCoupon(ok, n.id, code);
    Chain(s, first, tried, [CheckCoupon(n.id, true)], ok);
    Chain(s, first + [CheckCoupon(n.id, true)], ok, last, s');
    steps := first + [CheckCoupon(n.id, true)] + last;
  }

  /**
   * From any state with a transaction in the gap: a coupon for a single use, created now, is used twice by some
   * continuation of ordinary steps: once by a newcomer, once by the transaction that never locked it.
   */
  lemma GapOverruns(s: State, id: RequestId, code: Code, n: Newcomer) returns (steps: seq<Step>, s': State)
    requires InTheGap(s, id, code) && IsFresh(s, n)
    ensures Leads(Created(s, code, Some(1), None), steps, s') && code in s'.db.coupons
    ensures s'.db.coupons[code].usageLimit == Some(1) && s'.db.coupons[code].usedCount == 2
  {
    hide Leads, Run;
    var created := Created(s, code, Some(1), None);
    var ok := Checked(created, id, code);
    CheckPasses(created, id, code);
    var byNewcomer, once := NewcomerUses(ok, n, code);
    var byOther;
    byOther, s' := UseCoupon(once, id, code);
    Chain(created, [CheckCoupon(id, true)], ok, byNewcomer, once);
    Chain(created, [CheckCoupon(id, true)] + byNewcomer, once, byOther, s');
    steps := [CheckCoupon(id, true)] + byNewcomer + byOther;
  }

  // ----- There is always a newcomer --------------------------------------------------------------------------

  lemma {:induction false} Unused(used: set<nat>) returns (n: nat)
    ensures forall u :: u in used ==> u < n
  {
    n := 0;
    if used != {} {
      var u :| u in used;
      var rest := Unused(used - {u});
      n := if rest > u then rest else u + 1;
      forall v | v in used ensures v < n {
        assert v == u || v in used - {u};
      }
    }
  }

  function StaffOf(items: seq<Item>): set<StaffId> {
    set k | 0 <= k < |items| :: items[k].staff
  }

  function BookedStaff(bookings: seq<Booking>): (r: set<StaffId>)
    ensures forall b, k :: 0 <= b < |bookings| && 0 <= k < |bookings[b].items| ==> bookings[b].items[k].staff in r
  {
    if bookings == [] then {}
    else BookedStaff(bookings[..|bookings| - 1]) + StaffOf(bookings[|bookings| - 1].items)
  }

  lemma SomebodyIsFresh(s: State) returns (n: Newcomer)
    ensures IsFresh(s, n)
  {
    var bookings := s.db.bookings;
    var id := Unused(s.requests.Keys);
    var locked := set row | row in s.locks && row.StaffRow? :: row.staff;
    var booked := BookedStaff(bookings);
    var staff := Unused(booked + locked);
    var customers := set b | 0 <= b < |bookings| && bookings[b].customer.Some? :: bookings[b].customer.value;
    var customer := Unused(customers);
    n := Newcomer(id, customer, staff);
    assert id !in s.requests;
    assert StaffRow(staff) in s.locks ==> staff in locked;
    forall b, k | 0 <= b < |bookings| && 0 <= k < |bookings[b].items| ensures bookings[b].items[k].staff != staff {
      assert bookings[b].items[k].staff in booked;
    }
    forall b | 0 <= b < |bookings| ensures bookings[b].customer != Some(customer) {
      assert bookings[b].customer.Some? ==> bookings[b].customer.value in customers;
    }
  }

  // ----- Exactly when ----------------------------------------------------------------------------------------

  /** One continuation of the creation of a coupon, in which no further coupon appears in a gap, keeps every limit. */
  ghost predicate StaysWithin(s: State, code: Code, usageLimit: Option<nat>, perUserLimit: Option<nat>, more: seq<Step>) {
    var created := Created(s, code, usageLimit, perUserLimit);
    ApartRun(created, more) && Run(created, more).Some? ==>
      var db := Run(created, more).value.db;
      forall c :: c in db.coupons ==> WithinLimits(db, c)
  }

  /** Whatever the limits of the new coupon, and whatever follows. */
  ghost predicate CreationIsSafe(s: State, code: Code) {
    forall usageLimit, perUserLimit, more :: StaysWithin(s, code, usageLimit, perUserLimit, more)
  }

  lemma ApartIsSafe(s: State, code: Code, usageLimit: Option<nat>, perUserLimit: Option<nat>, more: seq<Step>)
    requires CouponsSafe(s) && code !in s.db.coupons && Apart(s, CreateCoupon(code, usageLimit, perUserLimit))
    ensures StaysWithin(s, code, usageLimit, perUserLimit, more)
  {
    hide CouponsSafe, WithinLimits, ApartRun;
    var created := Created(s, code, usageLimit, perUserLimit);
    assert Apply(s, CreateCoupon(code, usageLimit, perUserLimit)) == Some(created);
    StepKeepsCoupons(s, CreateCoupon(code, usageLimit, perUserLimit), created);
    if ApartRun(created, more) && Run(created, more).Some? {
      RunKeepsCoupons(created, more);
      LimitsOf(Run(created, more).value);
    }
  }

  lemma LimitsOf(s: State)
    requires CouponsSafe(s)
    ensures forall c :: c in s.db.coupons ==> WithinLimits(s.db, c)
  {
  }

  lemma GapIsUnsafe(s: State, id: RequestId, code: Code)
    requires InTheGap(s, id, code)
    ensures !CreationIsSafe(s, code)
  {
    hide IsFresh, ApartRun, InTheGap, Run;
    var n := SomebodyIsFresh(s);
    var steps, s' := GapOverruns(s, id, code, n);
    OrdinaryRun(Created(s, code, Some(1), None), steps);
    assert !WithinLimits(s'.db, code);
    assert !StaysWithin(s, code, Some(1), None, steps);
  }

  /**
   * After any run in which coupons were created safely so far: creating a coupon under a new code is safe, for every
   * limit and every continuation, exactly when no transaction stands in the gap of that code.
   */
  lemma {:induction false} CreationIsSafeExactly(steps: seq<Step>, code: Code)
    requires ApartRun(INIT, steps) && Run(INIT, steps).Some? && code !in Run(INIT, steps).value.db.coupons
    ensures CreationIsSafe(Run(INIT, steps).value, code) <==> Apart(Run(INIT, steps).value, CreateCoupon(code, None, None))
  {
    hide Apply, CouponsSafe, StaysWithin;
    var s := Run(INIT, steps).value;
    NoCouponsYet();
    RunKeepsCoupons(INIT, steps);
    RunIsGrounded(steps);
    if Apart(s, CreateCoupon(code, None, None)) {
      forall usageLimit, perUserLimit, more ensures StaysWithin(s, code, usageLimit, perUserLimit, more) {
        ApartIsSafe(s, code, usageLimit, perUserLimit, more);
      }
    } else {
      var id :| id in s.requests && s.requests[id].Running? && s.requests[id].tx.phase == TriedCoupon(code);
      assert TxGrounded(s.db, s.requests[id].tx);
      GapIsUnsafe(s, id, code);
    }
  }

  // ----- From the empty tables -------------------------------------------------------------------------------

  lemma {:induction false} JoinRuns(s: State, first: seq<Step>, second: seq<Step>)
    ensures Run(s, first + second) == if Run(s, first).Some? then Run(Run(s, first).value, second) else None
    ensures AdmissibleRun(s, first) && (Run(s, first).Some? ==> AdmissibleRun(Run(s, first).value, second)) ==>
              AdmissibleRun(s, first + second)
  {
    hide Apply, AdmissibleWithin;
    if second == [] {
      assert first + second == first;
    } else {
      var n := |second| - 1;
      JoinRuns(s, first, second[..n]);
      assert (first + second)[..|first| + n] == first + second[..n];
    }
  }

  /** A transaction gets into the gap. */
  lemma IntoTheGap() returns (steps: seq<Step>, s: State)
    ensures Leads(INIT, steps, s) && InTheGap(s, 0, 5)
  {
    hide Leads;
    var n := Newcomer(0, 100, 7);
    steps := UpToCoupon(INIT, n, 5);
    var wanting := Working(INIT, n, StaffedTx(n, 5, WantCoupon(5)));
    Statement(INIT, steps, wanting, 0, LockCoupon(0));
    steps, s := steps + [LockCoupon(0)], Now(wanting, 0, LockCoupon(0)).value;
  }

  lemma CreationRuns(s: State, id: RequestId, code: Code)
    requires InTheGap(s, id, code)
    ensures Run(s, [CreateCoupon(code, Some(1), None)]) == Some(Created(s, code, Some(1), None))
    ensures AdmissibleRun(s, [CreateCoupon(code, Some(1), None)])
  {
    assert [CreateCoupon(code, Some(1), None)][..0] == [];
  }

  /**
   * From the empty tables: a coupon for a single use is used twice. The run meets every hypothesis of the
   * double-booking result, only not the one about coupons.
   */
  lemma CouponCreatedInTheGap() returns (steps: seq<Step>)
    ensures AdmissibleRun(INIT, steps) && Run(INIT, steps).Some? && 5 in Run(INIT, steps).value.db.coupons
    ensures var coupon := Run(INIT, steps).value.db.coupons[5];
            coupon.usageLimit == Some(1) && coupon.usedCount == 2
  {
    hide AdmissibleRun, Run, Apply, IsFresh, InTheGap;
    var before, gap := IntoTheGap();
    var n := SomebodyIsFresh(gap);
    var after, end := GapOverruns(gap, 0, 5, n);
    OrdinaryRun(INIT, before);
    OrdinaryRun(Created(gap, 5, Some(1), None), after);
    CreationRuns(gap, 0, 5);
    var creation := [CreateCoupon(5, Some(1), None)];
    JoinRuns(INIT, before, creation);
    JoinRuns(INIT, before + creation, after);
    steps := before + creation + after;
  }
}
