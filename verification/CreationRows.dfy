/**
 * What creating one booking does to the tables when nothing else is in flight: as the function that the code computes,
 * and in terms of the rows, field by field. Both say the same.
 */
module CreationRows {
  import opened Common
  import opened Bookings
  import opened Reservation

  /** What the transaction reads about one requested service. */
  datatype Lookup = Lookup(line: ServiceLine, duration: Option<nat>, staffActive: bool, candidates: seq<StaffId>)

  datatype BookingError =
    | BadRequest | VariantMissing | StaffInactive | SlotTaken | NoStaffAvailable | CustomerBusy | CouponRefused

  // ----- The function ----------------------------------------------------------------------------------------

  /** The first candidate without an overlapping item. */
  function FirstFree(bookings: seq<Booking>, candidates: seq<StaffId>, start: Instant, duration: nat): Option<StaffId> {
    if candidates == [] then None
    else if FindOverlap(bookings, candidates[0], start, duration).None? then Some(candidates[0])
    else FirstFree(bookings, candidates[1..], start, duration)
  }

  function StaffFor(bookings: seq<Booking>, lookup: Lookup, start: Instant): Result<StaffId, BookingError> {
    if lookup.duration.None? then Err(VariantMissing)
    else (
      match lookup.line
      case Chosen(staff) =>
        if !lookup.staffActive then Err(StaffInactive)
        else if FindOverlap(bookings, staff, start, lookup.duration.value).Some? then Err(SlotTaken)
        else Ok(staff)
      case AnyStaff =>
        var picked := FirstFree(bookings, lookup.candidates, start, lookup.duration.value);
        if picked.None? then Err(NoStaffAvailable) else Ok(picked.value)
    )
  }

  function Cursor(plan: seq<Item>, start: Instant): Instant {
    start + SumDurations(plan) * MINUTE_MS
  }

  /** One item per service, each starting where the previous one ends. */
  function PlanFor(bookings: seq<Booking>, lookups: seq<Lookup>, start: Instant): Result<seq<Item>, BookingError> {
    if lookups == [] then Ok([])
    else
      var n := |lookups| - 1;
      var before := PlanFor(bookings, lookups[..n], start);
      if before.Err? then before
      else
        var cursor := Cursor(before.value, start);
        var staff := StaffFor(bookings, lookups[n], cursor);
        if staff.Err? then Err(staff.error)
        else Ok(before.value + [Item(staff.value, cursor, lookups[n].duration.value)])
  }

  /** The coupon a booking will use, or why it is refused. */
  function CouponFor(db: Db, request: Request, eligible: bool): Result<Option<Code>, BookingError> {
    if request.WalkIn? || request.coupon.None? then Ok(None)
    else
      var code := request.coupon.value;
      if code !in db.coupons || !eligible || !CouponUsable(db, code, request.customer) then Err(CouponRefused)
      else Ok(Some(code))
  }

  /** What `create` adds to the tables when it runs alone. */
  function Creation(db: Db, id: RequestId, request: Request, now: Instant, lookups: seq<Lookup>,
                    eligible: bool, autoConfirm: bool): Result<(Booking, Option<Code>), BookingError>
  {
    if |request.services| == 0 || request.scheduledAt <= now then Err(BadRequest)
    else
      var plan := PlanFor(db.bookings, lookups, request.scheduledAt);
      if plan.Err? then Err(plan.error)
      else
        var cursor := Cursor(plan.value, request.scheduledAt);
        if request.Create? && CustomerConflict(db.bookings, request.customer, request.scheduledAt, cursor) then
          Err(CustomerBusy)
        else
          var used := CouponFor(db, request, eligible);
          if used.Err? then Err(used.error)
          else Ok((NewBooking(id, Tx(request, plan.value, cursor, NextService), autoConfirm), used.value))
  }

  /** The lookups answer the services of the request, in order. */
  predicate Answers(lookups: seq<Lookup>, services: seq<ServiceLine>) {
    |lookups| == |services| && forall i :: 0 <= i < |services| ==> lookups[i].line == services[i]
  }

  // ----- In terms of the rows --------------------------------------------------------------------------------

  /** The minutes the first n services take. */
  function LookupMinutes(lookups: seq<Lookup>, n: nat): nat
    requires n <= |lookups|
  {
    if n == 0 then 0 else LookupMinutes(lookups, n - 1) + GetOrElse(lookups[n - 1].duration, 0)
  }

  function ServiceStart(scheduledAt: Instant, lookups: seq<Lookup>, n: nat): Instant
    requires n <= |lookups|
  {
    scheduledAt + LookupMinutes(lookups, n) * 60000
  }

  /** The staff member asked for, active and unbooked; or the first candidate who is unbooked. */
  ghost predicate IsServedBy(bookings: seq<Booking>, lookup: Lookup, start: Instant, staff: StaffId) {
    && lookup.duration.Some?
    && match lookup.line
       case Chosen(chosen) => staff == chosen && lookup.staffActive && IsUnbooked(bookings, staff, start, lookup.duration.value)
       case AnyStaff =>
         exists k :: 0 <= k < |lookup.candidates| && IsFirstUnbooked(bookings, lookup.candidates, start, lookup.duration.value, k)
                     && staff == lookup.candidates[k]
  }

  ghost predicate IsFirstUnbooked(bookings: seq<Booking>, candidates: seq<StaffId>, start: Instant, duration: nat, k: nat) {
    && k < |candidates| && IsUnbooked(bookings, candidates[k], start, duration)
    && forall j :: 0 <= j < k ==> !IsUnbooked(bookings, candidates[j], start, duration)
  }

  /** Why a service cannot be served, check by check. */
  ghost predicate FailsWith(bookings: seq<Booking>, lookup: Lookup, start: Instant, error: BookingError) {
    if lookup.duration.None? then error == VariantMissing
    else
      match lookup.line
      case Chosen(chosen) =>
        if !lookup.staffActive then error == StaffInactive
        else error == SlotTaken && !IsUnbooked(bookings, chosen, start, lookup.duration.value)
      case AnyStaff =>
        && error == NoStaffAvailable
        && forall k :: 0 <= k < |lookup.candidates| ==> !IsUnbooked(bookings, lookup.candidates[k], start, lookup.duration.value)
  }

  /** The first service that cannot be served, if there is one, fails with this error. */
  ghost predicate FailsFirst(bookings: seq<Booking>, scheduledAt: Instant, lookups: seq<Lookup>, i: nat, error: BookingError) {
    && i < |lookups| && FailsWith(bookings, lookups[i], ServiceStart(scheduledAt, lookups, i), error)
    && forall j :: 0 <= j < i ==> IsServable(bookings, scheduledAt, lookups, j)
  }

  ghost predicate IsServable(bookings: seq<Booking>, scheduledAt: Instant, lookups: seq<Lookup>, i: nat)
    requires i < |lookups|
  {
    exists staff :: IsServedBy(bookings, lookups[i], ServiceStart(scheduledAt, lookups, i), staff)
  }

  /** No active booking of the customer, begun at most six hours before, runs into the time from `from` to `to`. */
  ghost predicate IsCustomerClear(bookings: seq<Booking>, customer: UserId, from: Instant, to: Instant) {
    forall b :: 0 <= b < |bookings| && bookings[b].customer == Some(customer) && IsActive(bookings[b].status)
                && bookings[b].scheduledAt >= from - 6 * 3600000 ==>
      to <= bookings[b].scheduledAt || bookings[b].scheduledAt + bookings[b].totalDuration * 60000 <= from
  }

  /** The usage rows of a coupon that name this user. */
  function UsesBy(usages: seq<Usage>, code: Code, user: UserId): set<nat> {
    set i: nat | 0 <= i < |usages| && usages[i].code == code && usages[i].user == user
  }

  /** The coupon exists, meets its own conditions, and neither of its limits has been reached. */
  ghost predicate IsCouponOpen(db: Db, code: Code, user: UserId, eligible: bool) {
    && code in db.coupons && eligible
    && (db.coupons[code].usageLimit.Some? ==> db.coupons[code].usedCount < db.coupons[code].usageLimit.value)
    && (db.coupons[code].perUserLimit.Some? ==> |UsesBy(db.usages, code, user)| < db.coupons[code].perUserLimit.value)
  }

  /** Why a request is rejected, check by check; nothing holds of a request that is not. */
  ghost predicate IsRejected(db: Db, request: Request, now: Instant, lookups: seq<Lookup>, eligible: bool, error: BookingError) {
    if |request.services| == 0 || request.scheduledAt <= now then error == BadRequest
    else if exists i :: 0 <= i < |lookups| && !IsServable(db.bookings, request.scheduledAt, lookups, i) then
      exists i: nat :: FailsFirst(db.bookings, request.scheduledAt, lookups, i, error)
    else if request.WalkIn? then false
    else if !IsCustomerClear(db.bookings, request.customer, request.scheduledAt, ServiceStart(request.scheduledAt, lookups, |lookups|))
      then error == CustomerBusy
    else request.coupon.Some? && !IsCouponOpen(db, request.coupon.value, request.customer, eligible) && error == CouponRefused
  }

  /** The row of a request: its fields, and its items back to back, each with somebody who could take it. */
  ghost predicate IsRowOf(b: Booking, bookings: seq<Booking>, id: RequestId, request: Request, lookups: seq<Lookup>,
                          autoConfirm: bool) {
    && b.origin == id && b.scheduledAt == request.scheduledAt
    && b.customer == (if request.Create? then Some(request.customer) else None)
    && b.totalDuration == LookupMinutes(lookups, |lookups|)
    && b.status == (if request.WalkIn? || autoConfirm then Confirmed else Pending)
    && |b.items| == |lookups|
    && forall i :: 0 <= i < |lookups| ==> IsItemOf(b.items[i], bookings, request.scheduledAt, lookups, i)
  }

  ghost predicate IsItemOf(x: Item, bookings: seq<Booking>, scheduledAt: Instant, lookups: seq<Lookup>, i: nat)
    requires i < |lookups|
  {
    && x.start == ServiceStart(scheduledAt, lookups, i) && Some(x.duration) == lookups[i].duration
    && IsServedBy(bookings, lookups[i], x.start, x.staff)
  }

  /** What the request adds to the tables: one row, and with a coupon one use of it. */
  ghost predicate IsAdded(db: Db, db': Db, id: RequestId, request: Request, lookups: seq<Lookup>, autoConfirm: bool) {
    && |db'.bookings| == |db.bookings| + 1 && db'.bookings[..|db.bookings|] == db.bookings
    && IsRowOf(db'.bookings[|db.bookings|], db.bookings, id, request, lookups, autoConfirm)
    && if request.Create? && request.coupon.Some? then
         var code := request.coupon.value;
         && code in db.coupons
         && db'.coupons == db.coupons[code := db.coupons[code].(usedCount := db.coupons[code].usedCount + 1)]
         && db'.usages == db.usages + [Usage(code, request.customer, |db.bookings|)]
       else db'.coupons == db.coupons && db'.usages == db.usages
  }

  // ----- The function says the same --------------------------------------------------------------------------

  lemma {:induction false} FirstFreeIs(bookings: seq<Booking>, candidates: seq<StaffId>, start: Instant, duration: nat)
    ensures var free := FirstFree(bookings, candidates, start, duration);
            if free.None? then forall k :: 0 <= k < |candidates| ==> !IsUnbooked(bookings, candidates[k], start, duration)
            else exists k :: 0 <= k < |candidates| && IsFirstUnbooked(bookings, candidates, start, duration, k)
                             && free.value == candidates[k]
  {
    hide IsUnbooked, FindOverlap;
    if candidates != [] {
      ScanIsUnbooked(bookings, candidates[0], start, duration);
      if FindOverlap(bookings, candidates[0], start, duration).None? {
        assert IsFirstUnbooked(bookings, candidates, start, duration, 0);
      } else {
        FirstFreeIs(bookings, candidates[1..], start, duration);
        var free := FirstFree(bookings, candidates[1..], start, duration);
        if free.Some? {
          var k :| 0 <= k < |candidates[1..]| && IsFirstUnbooked(bookings, candidates[1..], start, duration, k)
                   && free.value == candidates[1..][k];
          assert IsFirstUnbooked(bookings, candidates, start, duration, k + 1);
        }
      }
    }
  }

  lemma StaffForIs(bookings: seq<Booking>, lookup: Lookup, start: Instant)
    ensures var staff := StaffFor(bookings, lookup, start);
            && (staff.Ok? ==> IsServedBy(bookings, lookup, start, staff.value))
            && (staff.Err? ==> FailsWith(bookings, lookup, start, staff.error))
  {
    hide IsUnbooked, FindOverlap;
    if lookup.duration.Some? {
      FirstFreeIs(bookings, lookup.candidates, start, lookup.duration.value);
      if lookup.line.Chosen? {
        ScanIsUnbooked(bookings, lookup.line.staff, start, lookup.duration.value);
      }
    }
  }

  /** A service is served or fails, not both, and for one reason. */
  lemma ServedOrFails(bookings: seq<Booking>, lookup: Lookup, start: Instant, staff: StaffId, error: BookingError, other: BookingError)
    ensures !(IsServedBy(bookings, lookup, start, staff) && FailsWith(bookings, lookup, start, error))
    ensures FailsWith(bookings, lookup, start, error) && FailsWith(bookings, lookup, start, other) ==> error == other
  {
    hide IsUnbooked;
  }

  /** What a plan of the first n services, or the error instead of one, means. */
  ghost predicate PlanSays(bookings: seq<Booking>, lookups: seq<Lookup>, scheduledAt: Instant, n: nat,
                           plan: Result<seq<Item>, BookingError>)
    requires n <= |lookups|
  {
    if plan.Ok? then
      && |plan.value| == n && SumDurations(plan.value) == LookupMinutes(lookups, n)
      && forall i :: 0 <= i < n ==> IsItemOf(plan.value[i], bookings, scheduledAt, lookups, i)
    else exists i :: 0 <= i < n && FailsFirst(bookings, scheduledAt, lookups, i, plan.error)
  }

  lemma OneMoreService(bookings: seq<Booking>, lookups: seq<Lookup>, scheduledAt: Instant, n: nat, plan: seq<Item>, staff: StaffId)
    requires n < |lookups| && PlanSays(bookings, lookups, scheduledAt, n, Ok(plan))
    requires IsServedBy(bookings, lookups[n], ServiceStart(scheduledAt, lookups, n), staff) && lookups[n].duration.Some?
    ensures var item := Item(staff, ServiceStart(scheduledAt, lookups, n), lookups[n].duration.value);
            PlanSays(bookings, lookups, scheduledAt, n + 1, Ok(plan + [item]))
  {
    hide IsServedBy;
    var item := Item(staff, ServiceStart(scheduledAt, lookups, n), lookups[n].duration.value);
    assert (plan + [item])[..n] == plan;
  }

  lemma {:induction false} PlanIs(bookings: seq<Booking>, lookups: seq<Lookup>, scheduledAt: Instant, n: nat)
    requires n <= |lookups|
    ensures PlanSays(bookings, lookups, scheduledAt, n, PlanFor(bookings, lookups[..n], scheduledAt))
  {
    hide IsServedBy, FailsWith, StaffFor, FailsFirst, IsItemOf;
    if n > 0 {
      PlanIs(bookings, lookups, scheduledAt, n - 1);
      assert lookups[..n][..n - 1] == lookups[..n - 1] && lookups[..n][n - 1] == lookups[n - 1];
      var before := PlanFor(bookings, lookups[..n - 1], scheduledAt);
      if before.Ok? {
        var start := ServiceStart(scheduledAt, lookups, n - 1);
        assert Cursor(before.value, scheduledAt) == start;
        var staff := StaffFor(bookings, lookups[n - 1], start);
        StaffForIs(bookings, lookups[n - 1], start);
        hide PlanSays;
        if staff.Ok? {
          ServedHasDuration(bookings, lookups[n - 1], start, staff.value);
          OneMoreService(bookings, lookups, scheduledAt, n - 1, before.value, staff.value);
        } else {
          FirstToFail(bookings, scheduledAt, lookups, before.value, n - 1, staff.error);
        }
      }
    }
  }

  lemma ServedHasDuration(bookings: seq<Booking>, lookup: Lookup, start: Instant, staff: StaffId)
    requires IsServedBy(bookings, lookup, start, staff)
    ensures lookup.duration.Some?
  {
  }

  lemma FirstToFail(bookings: seq<Booking>, scheduledAt: Instant, lookups: seq<Lookup>, plan: seq<Item>, n: nat, error: BookingError)
    requires n < |lookups| && PlanSays(bookings, lookups, scheduledAt, n, Ok(plan))
    requires FailsWith(bookings, lookups[n], ServiceStart(scheduledAt, lookups, n), error)
    ensures PlanSays(bookings, lookups, scheduledAt, n + 1, Err(error))
  {
    hide IsServedBy, FailsWith;
    forall i | 0 <= i < n ensures IsServable(bookings, scheduledAt, lookups, i) {
      assert IsItemOf(plan[i], bookings, scheduledAt, lookups, i);
    }
    assert FailsFirst(bookings, scheduledAt, lookups, n, error);
  }

  lemma CustomerIs(bookings: seq<Booking>, customer: UserId, from: Instant, to: Instant)
    ensures CustomerConflict(bookings, customer, from, to) <==> !IsCustomerClear(bookings, customer, from, to)
  {
    if CustomerConflict(bookings, customer, from, to) {
      var x :| x in bookings && ConflictsWith(x, customer, from, to);
      var b :| 0 <= b < |bookings| && bookings[b] == x;
      assert bookings[b].customer == Some(customer);
    }
    if !IsCustomerClear(bookings, customer, from, to) {
      var b :| 0 <= b < |bookings| && bookings[b].customer == Some(customer) && IsActive(bookings[b].status)
               && bookings[b].scheduledAt >= from - 6 * 3600000
               && !(to <= bookings[b].scheduledAt || bookings[b].scheduledAt + bookings[b].totalDuration * 60000 <= from);
      assert ConflictsWith(bookings[b], customer, from, to);
    }
  }

  lemma {:induction false} UsesAre(usages: seq<Usage>, code: Code, user: UserId)
    ensures CountUserUses(usages, code, user) == |UsesBy(usages, code, user)|
  {
    if usages == [] {
      assert UsesBy(usages, code, user) == {};
    } else {
      UsesAre(usages[..|usages| - 1], code, user);
      LastUse(usages, code, user);
    }
  }

  lemma LastUse(usages: seq<Usage>, code: Code, user: UserId)
    requires usages != []
    ensures var n := |usages| - 1;
            |UsesBy(usages, code, user)|
            == |UsesBy(usages[..n], code, user)| + (if usages[n].code == code && usages[n].user == user then 1 else 0)
  {
    var n := |usages| - 1;
    var before := UsesBy(usages[..n], code, user);
    assert UsesBy(usages, code, user) == if usages[n].code == code && usages[n].user == user then before + {n} else before;
  }

  lemma CouponIs(db: Db, request: Request, eligible: bool)
    ensures CouponFor(db, request, eligible)
         == if request.WalkIn? || request.coupon.None? then Ok(None)
            else if IsCouponOpen(db, request.coupon.value, request.customer, eligible) then Ok(request.coupon)
            else Err(CouponRefused)
  {
    hide CountUserUses, UsesBy;
    if request.Create? && request.coupon.Some? {
      UsesAre(db.usages, request.coupon.value, request.customer);
    }
  }

  lemma NotServable(bookings: seq<Booking>, scheduledAt: Instant, lookups: seq<Lookup>, i: nat, error: BookingError)
    requires FailsFirst(bookings, scheduledAt, lookups, i, error)
    ensures !IsServable(bookings, scheduledAt, lookups, i)
  {
    var start := ServiceStart(scheduledAt, lookups, i);
    hide IsServedBy, FailsWith, ServiceStart;
    if staff :| IsServedBy(bookings, lookups[i], start, staff) {
      ServedOrFails(bookings, lookups[i], start, staff, error, error);
    }
  }

  /** There is one first failure, for one reason. */
  lemma OneFailure(bookings: seq<Booking>, scheduledAt: Instant, lookups: seq<Lookup>, i: nat, error: BookingError, other: BookingError)
    requires FailsFirst(bookings, scheduledAt, lookups, i, error)
    ensures !IsServable(bookings, scheduledAt, lookups, i)
    ensures (exists j: nat :: FailsFirst(bookings, scheduledAt, lookups, j, other)) <==> error == other
  {
    hide IsServedBy, FailsWith, ServiceStart, IsServable;
    NotServable(bookings, scheduledAt, lookups, i, error);
    if j: nat :| FailsFirst(bookings, scheduledAt, lookups, j, other) {
      NotServable(bookings, scheduledAt, lookups, j, other);
      assert !(i < j) && !(j < i);
      ServedOrFails(bookings, lookups[i], ServiceStart(scheduledAt, lookups, i), 0, error, other);
    }
  }

  /** A plan exists exactly when every service can be served. */
  lemma PlanExists(bookings: seq<Booking>, lookups: seq<Lookup>, scheduledAt: Instant, error: BookingError)
    ensures var plan := PlanFor(bookings, lookups, scheduledAt);
            && (plan.Ok? <==> forall i :: 0 <= i < |lookups| ==> IsServable(bookings, scheduledAt, lookups, i))
            && (plan.Err? ==> (plan.error == error <==> exists i: nat :: FailsFirst(bookings, scheduledAt, lookups, i, error)))
  {
    PlanIs(bookings, lookups, scheduledAt, |lookups|);
    assert lookups[..|lookups|] == lookups;
    hide IsServedBy, FailsFirst, PlanFor;
    var plan := PlanFor(bookings, lookups, scheduledAt);
    if plan.Ok? {
      forall i | 0 <= i < |lookups| ensures IsServable(bookings, scheduledAt, lookups, i) {
        assert IsItemOf(plan.value[i], bookings, scheduledAt, lookups, i);
      }
    } else {
      var i :| 0 <= i < |lookups| && FailsFirst(bookings, scheduledAt, lookups, i, plan.error);
      OneFailure(bookings, scheduledAt, lookups, i, plan.error, error);
    }
  }

  lemma RejectionIs(db: Db, id: RequestId, request: Request, now: Instant, lookups: seq<Lookup>, eligible: bool, autoConfirm: bool,
                    error: BookingError)
    ensures Creation(db, id, request, now, lookups, eligible, autoConfirm) == Err(error)
       <==> IsRejected(db, request, now, lookups, eligible, error)
  {
    PlanExists(db.bookings, lookups, request.scheduledAt, error);
    PlanIs(db.bookings, lookups, request.scheduledAt, |lookups|);
    assert lookups[..|lookups|] == lookups;
    CouponIs(db, request, eligible);
    if request.Create? {
      CustomerIs(db.bookings, request.customer, request.scheduledAt, ServiceStart(request.scheduledAt, lookups, |lookups|));
    }
    hide PlanFor, IsServable, FailsFirst, CouponFor, IsCouponOpen, CustomerConflict, IsCustomerClear, IsItemOf,
      SumDurations, LookupMinutes;
  }

  lemma RowIs(bookings: seq<Booking>, id: RequestId, request: Request, lookups: seq<Lookup>, plan: seq<Item>, cursor: Instant,
              autoConfirm: bool)
    requires PlanSays(bookings, lookups, request.scheduledAt, |lookups|, Ok(plan))
    ensures IsRowOf(NewBooking(id, Tx(request, plan, cursor, NextService), autoConfirm), bookings, id, request, lookups, autoConfirm)
  {
    hide IsItemOf, SumDurations, LookupMinutes;
  }

  lemma UseIs(db: Db, booking: Booking, request: Request, eligible: bool)
    requires CouponFor(db, request, eligible).Ok? && booking.customer == request.Customer()
    ensures var db' := Committed(db, booking, CouponFor(db, request, eligible).value);
            && db'.bookings == db.bookings + [booking]
            && if request.Create? && request.coupon.Some? then
                 var code := request.coupon.value;
                 && code in db.coupons
                 && db'.coupons == db.coupons[code := db.coupons[code].(usedCount := db.coupons[code].usedCount + 1)]
                 && db'.usages == db.usages + [Usage(code, request.customer, |db.bookings|)]
               else db'.coupons == db.coupons && db'.usages == db.usages
  {
    hide CouponUsable;
  }

  lemma AdditionIs(db: Db, id: RequestId, request: Request, now: Instant, lookups: seq<Lookup>, eligible: bool, autoConfirm: bool)
    requires Creation(db, id, request, now, lookups, eligible, autoConfirm).Ok?
    ensures var creation := Creation(db, id, request, now, lookups, eligible, autoConfirm).value;
            IsAdded(db, Committed(db, creation.0, creation.1), id, request, lookups, autoConfirm)
  {
    hide PlanFor, CouponFor, CustomerConflict, IsRowOf, NewBooking, Committed, SumDurations, LookupMinutes, PlanSays;
    PlanIs(db.bookings, lookups, request.scheduledAt, |lookups|);
    assert lookups[..|lookups|] == lookups;
    var plan := PlanFor(db.bookings, lookups, request.scheduledAt).value;
    RowIs(db.bookings, id, request, lookups, plan, Cursor(plan, request.scheduledAt), autoConfirm);
    var booking := Creation(db, id, request, now, lookups, eligible, autoConfirm).value.0;
    CustomerOfRow(booking, db.bookings, id, request, lookups, autoConfirm);
    UseIs(db, booking, request, eligible);
  }

  lemma CustomerOfRow(booking: Booking, bookings: seq<Booking>, id: RequestId, request: Request, lookups: seq<Lookup>,
                      autoConfirm: bool)
    requires IsRowOf(booking, bookings, id, request, lookups, autoConfirm)
    ensures booking.customer == request.Customer()
  {
  }
}
