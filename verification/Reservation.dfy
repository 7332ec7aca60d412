/**
 * The reservation protocol: any number of booking transactions at read-committed isolation, each of which locks
 * one staff row per service (and one coupon row), scans, and inserts everything at its end.
 *
 * A step is one statement of one transaction, a commit, an abort, or one write of another handler. `Apply` is
 * `None` where the statement would wait for a lock or does not apply.
 */
module Reservation {
  import opened Common
  import opened Bookings

  type RequestId = nat
  type Code = nat

  // ----- Rows ------------------------------------------------------------------------------------------------

  datatype Coupon = Coupon(usageLimit: Option<nat>, perUserLimit: Option<nat>, usedCount: nat)

  datatype Usage = Usage(code: Code, user: UserId, booking: nat)

  /** What committed reads see. A booking's id is its index. */
  datatype Db = Db(bookings: seq<Booking>, coupons: map<Code, Coupon>, usages: seq<Usage>)

  datatype Row = StaffRow(staff: StaffId) | CouponRow(code: Code)

  // ----- Transactions ----------------------------------------------------------------------------------------

  /** One requested service: with a staff member the customer chose, or with anyone who is available. */
  datatype ServiceLine = Chosen(staff: StaffId) | AnyStaff

  datatype Request =
    | Create(customer: UserId, scheduledAt: Instant, services: seq<ServiceLine>, coupon: Option<Code>)
    | WalkIn(scheduledAt: Instant, services: seq<ServiceLine>)
  {
    function Customer(): Option<UserId> {
      if Create? then Some(customer) else None
    }
  }

  datatype Phase =
    | NextService
    | WantStaff(staff: StaffId, rest: seq<StaffId>, duration: nat)
    | HasStaff(staff: StaffId, rest: seq<StaffId>, duration: nat)
    | AllStaffed
    | WantCoupon(code: Code)
    | TriedCoupon(code: Code)
    | CouponOk(code: Code)
    | ReadyToInsert(used: Option<Code>)
    | Inserted(booking: Booking, used: Option<Code>)
  {
    /** The coupon this transaction has found usable, from the check until it commits. */
    function Claim(): Option<Code> {
      match this
      case CouponOk(c) => Some(c)
      case ReadyToInsert(used) => used
      case Inserted(_, used) => used
      case _ => None
    }
  }

  /** `plan` is the item list built so far, `cursor` the start of the next item. */
  datatype Tx = Tx(request: Request, plan: seq<Item>, cursor: Instant, phase: Phase)

  datatype Progress =
    | Waiting(request: Request, attempt: nat)
    | Running(tx: Tx, attempt: nat)
    | Done(booking: nat)
    | Failed

  const RETRIES: nat := 4

  datatype State = State(
    db: Db,
    locks: map<Row, RequestId>,
    requests: map<RequestId, Progress>,
    reassigning: set<(nat, nat, StaffId)>)

  const INIT := State(Db([], map[], []), map[], map[], {})

  // ----- Steps -----------------------------------------------------------------------------------------------

  datatype Step =
    | Submit(id: RequestId, request: Request, now: Instant)
    | Begin(id: RequestId)
      // duration is None when the variant is missing; candidates is whatever order the staff picker returned
    | ReadVariant(id: RequestId, duration: Option<nat>, staffActive: bool, candidates: seq<StaffId>)
    | LockStaff(id: RequestId)
    | CheckStaff(id: RequestId)
    | CheckCustomer(id: RequestId)
    | LockCoupon(id: RequestId)
      // eligible stands for the store, date, activity and minimum-amount conditions
    | CheckCoupon(id: RequestId, eligible: bool)
    | IncrementCoupon(id: RequestId)
    | Insert(id: RequestId, autoConfirm: bool)
    | Commit(id: RequestId)
    | Abort(id: RequestId)
    | Fail(id: RequestId)
    | ChangeStatus(booking: nat, to: BookingStatus)
    | ReassignCheck(booking: nat, item: nat, staff: StaffId)
    | ReassignWrite(booking: nat, item: nat, staff: StaffId)
    | CreateCoupon(code: Code, usageLimit: Option<nat>, perUserLimit: Option<nat>)

  function Release(locks: map<Row, RequestId>, id: RequestId): (r: map<Row, RequestId>)
    ensures forall row :: row in r <==> row in locks && locks[row] != id
    ensures forall row :: row in r ==> r[row] == locks[row]
  {
    map row | row in locks && locks[row] != id :: locks[row]
  }

  predicate Free(s: State, row: Row, id: RequestId) {
    row in s.locks ==> s.locks[row] == id
  }

  predicate Owns(s: State, row: Row, id: RequestId) {
    row in s.locks && s.locks[row] == id
  }

  /** The transaction moves on inside; nothing becomes visible to others. */
  function Advance(s: State, id: RequestId, tx: Tx): State
    requires id in s.requests && s.requests[id].Running?
  {
    s.(requests := s.requests[id := Running(tx, s.requests[id].attempt)])
  }

  /** The transaction ends and its locks go; its uncommitted work goes with it. */
  function End(s: State, id: RequestId, progress: Progress): State {
    s.(requests := s.requests[id := progress], locks := Release(s.locks, id))
  }

  predicate CustomerConflict(bookings: seq<Booking>, customer: UserId, newStart: Instant, newEnd: Instant) {
    exists b: Booking :: b in bookings && ConflictsWith(b, customer, newStart, newEnd)
  }

  predicate ConflictsWith(b: Booking, customer: UserId, newStart: Instant, newEnd: Instant) {
    && b.customer == Some(customer) && IsActive(b.status)
    && newStart - OVERLAP_SCAN_MARGIN_MS <= b.scheduledAt <= newEnd
    && Overlaps(newStart, newEnd, b.scheduledAt, b.End())
  }

  function CountUses(usages: seq<Usage>, code: Code): nat {
    if usages == [] then 0
    else
      CountUses(usages[..|usages| - 1], code) + (if usages[|usages| - 1].code == code then 1 else 0)
  }

  function CountUserUses(usages: seq<Usage>, code: Code, user: UserId): nat {
    if usages == [] then 0
    else
      var last := usages[|usages| - 1];
      CountUserUses(usages[..|usages| - 1], code, user) + (if last.code == code && last.user == user then 1 else 0)
  }

  predicate CouponUsable(db: Db, code: Code, user: UserId)
    requires code in db.coupons
  {
    var coupon := db.coupons[code];
    && (coupon.usageLimit.Some? ==> coupon.usedCount < coupon.usageLimit.value)
    && (coupon.perUserLimit.Some? ==> CountUserUses(db.usages, code, user) < coupon.perUserLimit.value)
  }

  function SumDurations(items: seq<Item>): nat {
    if items == [] then 0 else SumDurations(items[..|items| - 1]) + items[|items| - 1].duration
  }

  function NewBooking(id: RequestId, tx: Tx, autoConfirm: bool): Booking {
    Booking(id, tx.request.Customer(), tx.request.scheduledAt, SumDurations(tx.plan),
            if tx.request.WalkIn? || autoConfirm then Confirmed else Pending, tx.plan)
  }

  /** The steps that are statements of a running transaction. */
  predicate IsStatement(step: Step) {
    || step.ReadVariant? || step.LockStaff? || step.CheckStaff? || step.CheckCustomer? || step.LockCoupon?
    || step.CheckCoupon? || step.IncrementCoupon? || step.Insert? || step.Commit? || step.Abort? || step.Fail?
  }

  predicate InTx(s: State, id: RequestId) {
    id in s.requests && s.requests[id].Running?
  }

  /** What one statement makes its transaction do. */
  datatype Move =
    | NotNow
    | Stop(progress: Progress)
    | Go(next: Tx)
    | GoLocking(next: Tx, row: Row)
    | Publish(booking: Booking, used: Option<Code>)

  function ReadVariantMove(tx: Tx, duration: Option<nat>, staffActive: bool, candidates: seq<StaffId>): Move {
    if |tx.plan| >= |tx.request.services| then NotNow
    else if duration.None? then Stop(Failed)
    else
      var line := tx.request.services[|tx.plan|];
      var tried := if line.Chosen? then [line.staff] else candidates;
      if tried == [] || (line.Chosen? && !staffActive) then Stop(Failed)
      else Go(tx.(phase := WantStaff(tried[0], tried[1..], duration.value)))
  }

  /** The transaction after one more service has been given to a staff member. */
  function Staffed(tx: Tx, staff: StaffId, duration: nat): Tx {
    var item := Item(staff, tx.cursor, duration);
    var plan := tx.plan + [item];
    Tx(tx.request, plan, item.End(), if |plan| < |tx.request.services| then NextService else AllStaffed)
  }

  function CheckStaffMove(db: Db, tx: Tx, staff: StaffId, rest: seq<StaffId>, duration: nat): Move {
    if FindOverlap(db.bookings, staff, tx.cursor, duration).None? then Go(Staffed(tx, staff, duration))
    else if rest == [] then Stop(Failed)
    else Go(tx.(phase := WantStaff(rest[0], rest[1..], duration)))
  }

  function CheckCustomerMove(db: Db, tx: Tx): Move {
    if tx.request.Create? && CustomerConflict(db.bookings, tx.request.customer, tx.request.scheduledAt, tx.cursor) then
      Stop(Failed)
    else if tx.request.Create? && tx.request.coupon.Some? then Go(tx.(phase := WantCoupon(tx.request.coupon.value)))
    else Go(tx.(phase := ReadyToInsert(None)))
  }

  function CheckCouponMove(db: Db, tx: Tx, code: Code, eligible: bool): Move {
    if code !in db.coupons || !eligible || tx.request.WalkIn? || !CouponUsable(db, code, tx.request.customer) then Stop(Failed)
    else Go(tx.(phase := CouponOk(code)))
  }

  /** The statement a step stands for, on what the database shows at that moment, if it is its turn. */
  function MoveOf(db: Db, tx: Tx, attempt: nat, id: RequestId, step: Step): Move {
    match step
    case ReadVariant(_, duration, staffActive, candidates) =>
      if tx.phase.NextService? then ReadVariantMove(tx, duration, staffActive, candidates) else NotNow
    case LockStaff(_) =>
      if tx.phase.WantStaff? then
        GoLocking(tx.(phase := HasStaff(tx.phase.staff, tx.phase.rest, tx.phase.duration)), StaffRow(tx.phase.staff))
      else NotNow
    case CheckStaff(_) =>
      if tx.phase.HasStaff? then CheckStaffMove(db, tx, tx.phase.staff, tx.phase.rest, tx.phase.duration) else NotNow
    case CheckCustomer(_) =>
      if tx.phase.AllStaffed? then CheckCustomerMove(db, tx) else NotNow
    case LockCoupon(_) =>
      if !tx.phase.WantCoupon? then NotNow
      else
        var next := tx.(phase := TriedCoupon(tx.phase.code));
        // a locking read of a missing row locks nothing
        if tx.phase.code in db.coupons then GoLocking(next, CouponRow(tx.phase.code)) else Go(next)
    case CheckCoupon(_, eligible) =>
      if tx.phase.TriedCoupon? then CheckCouponMove(db, tx, tx.phase.code, eligible) else NotNow
    case IncrementCoupon(_) =>
      if tx.phase.CouponOk? then GoLocking(tx.(phase := ReadyToInsert(Some(tx.phase.code))), CouponRow(tx.phase.code))
      else NotNow
    case Insert(_, autoConfirm) =>
      if tx.phase.ReadyToInsert? then Go(tx.(phase := Inserted(NewBooking(id, tx, autoConfirm), tx.phase.used))) else NotNow
    case Commit(_) =>
      if tx.phase.Inserted? then Publish(tx.phase.booking, tx.phase.used) else NotNow
    case Abort(_) => Stop(if attempt < RETRIES then Waiting(tx.request, attempt + 1) else Failed)
    case Fail(_) => Stop(Failed)
    case _ => NotNow
  }

  /** A lock that another transaction holds makes the statement wait. */
  function Perform(s: State, id: RequestId, move: Move): Option<State>
    requires InTx(s, id)
  {
    match move
    case NotNow => None
    case Stop(progress) => Some(End(s, id, progress))
    case Go(next) => Some(Advance(s, id, next))
    case GoLocking(next, row) =>
      if Free(s, row, id) then Some(Advance(s.(locks := s.locks[row := id]), id, next)) else None
    case Publish(booking, used) =>
      Some(End(s.(db := Committed(s.db, booking, used)), id, Done(|s.db.bookings|)))
  }

  function TxApply(s: State, step: Step, id: RequestId): Option<State>
    requires InTx(s, id)
  {
    Perform(s, id, MoveOf(s.db, s.requests[id].tx, s.requests[id].attempt, id, step))
  }

  /** The committed tables once a transaction's rows are published: the booking, the counter and the usage row. */
  function Committed(db: Db, booking: Booking, used: Option<Code>): Db {
    var withBooking := db.(bookings := db.bookings + [booking]);
    if used.None? || used.value !in db.coupons || booking.customer.None? then withBooking
    else
      var coupon := db.coupons[used.value];
      withBooking.(coupons := db.coupons[used.value := coupon.(usedCount := coupon.usedCount + 1)],
                   usages := db.usages + [Usage(used.value, booking.customer.value, |db.bookings|)])
  }

  predicate IsItem(bookings: seq<Booking>, b: nat, k: nat) {
    b < |bookings| && k < |bookings[b].items|
  }

  /** The table without one item: what a scan that excludes that item reads. */
  function Without(bookings: seq<Booking>, b: nat, k: nat): seq<Booking>
    requires IsItem(bookings, b, k)
  {
    bookings[b := bookings[b].(items := bookings[b].items[..k] + bookings[b].items[k + 1..])]
  }

  function WithStaff(bookings: seq<Booking>, b: nat, k: nat, staff: StaffId): seq<Booking>
    requires IsItem(bookings, b, k)
  {
    bookings[b := bookings[b].(items := bookings[b].items[k := bookings[b].items[k].(staff := staff)])]
  }

  function Apply(s: State, step: Step): Option<State> {
    match step
    case Submit(id, request, now) =>
      if id in s.requests then None
      else if |request.services| == 0 || request.scheduledAt <= now then Some(s.(requests := s.requests[id := Failed]))
      else Some(s.(requests := s.requests[id := Waiting(request, 0)]))
    case Begin(id) =>
      if !(id in s.requests && s.requests[id].Waiting?) then None
      else
        var request := s.requests[id].request;
        Some(s.(requests := s.requests[id := Running(Tx(request, [], request.scheduledAt, NextService),
                                                     s.requests[id].attempt)]))
    case ChangeStatus(b, to) =>
      if b >= |s.db.bookings| then None
      else Some(s.(db := s.db.(bookings := s.db.bookings[b := s.db.bookings[b].(status := to)])))
    case ReassignCheck(b, k, staff) =>
      if !IsItem(s.db.bookings, b, k) || !IsActive(s.db.bookings[b].status) then None
      else
        var item := s.db.bookings[b].items[k];
        if FindOverlap(Without(s.db.bookings, b, k), staff, item.start, item.duration).Some? then None
        else Some(s.(reassigning := s.reassigning + {(b, k, staff)}))
    case ReassignWrite(b, k, staff) =>
      if (b, k, staff) !in s.reassigning || !IsItem(s.db.bookings, b, k) then None
      else Some(s.(db := s.db.(bookings := WithStaff(s.db.bookings, b, k, staff)),
                   reassigning := s.reassigning - {(b, k, staff)}))
    case CreateCoupon(code, usageLimit, perUserLimit) =>
      if code in s.db.coupons then None
      else Some(s.(db := s.db.(coupons := s.db.coupons[code := Coupon(usageLimit, perUserLimit, 0)])))
    case _ =>
      if InTx(s, step.id) then TxApply(s, step, step.id) else None
  }

  function Run(s: State, steps: seq<Step>): Option<State> {
    if steps == [] then Some(s)
    else
      var before := Run(s, steps[..|steps| - 1]);
      if before.None? then None else Apply(before.value, steps[|steps| - 1])
  }
}
