/** Coupon counters under the reservation protocol: usage counts are exact and limits hold in every interleaving. */
module CouponSafety {
  import opened Common
  import opened Bookings
  import opened Reservation

  /**
   * A coupon is not created under a code that an in-flight transaction has already tried to lock: its locking read
   * found no row, so it holds no lock.
   */
  ghost predicate Apart(s: State, step: Step) {
    step.CreateCoupon? ==>
      forall id :: id in s.requests && s.requests[id].Running? ==> s.requests[id].tx.phase != TriedCoupon(step.code)
  }

  ghost predicate ApartRun(s: State, steps: seq<Step>) {
    steps != [] ==>
      && ApartRun(s, steps[..|steps| - 1])
      && (var before := Run(s, steps[..|steps| - 1]); before.Some? ==> Apart(before.value, steps[|steps| - 1]))
  }

  /** The counter is the number of usage rows, and no limit is passed. */
  ghost predicate WithinLimits(db: Db, code: Code)
    requires code in db.coupons
  {
    var coupon := db.coupons[code];
    && coupon.usedCount == CountUses(db.usages, code)
    && (coupon.usageLimit.Some? ==> coupon.usedCount <= coupon.usageLimit.value)
    && (coupon.perUserLimit.Some? ==> forall user :: CountUserUses(db.usages, code, user) <= coupon.perUserLimit.value)
  }

  /** A transaction past its check holds the coupon row, and the coupon is still usable for its customer. */
  ghost predicate ClaimSafe(s: State, id: RequestId, tx: Tx) {
    && (tx.phase.TriedCoupon? && tx.phase.code in s.db.coupons ==> Owns(s, CouponRow(tx.phase.code), id))
    && (tx.phase.Claim().Some? ==>
          var code := tx.phase.Claim().value;
          && code in s.db.coupons && Owns(s, CouponRow(code), id)
          && tx.request.Create? && CouponUsable(s.db, code, tx.request.customer))
    && (tx.phase.Inserted? ==> tx.phase.booking.customer == tx.request.Customer())
  }

  ghost predicate CouponsSafe(s: State) {
    && (forall code :: code in s.db.coupons ==> WithinLimits(s.db, code))
    && (forall i :: 0 <= i < |s.db.usages| ==> s.db.usages[i].code in s.db.coupons)
    && (forall id :: id in s.requests && s.requests[id].Running? ==> ClaimSafe(s, id, s.requests[id].tx))
  }

  lemma {:induction false} NoRowsNoUses(usages: seq<Usage>, code: Code)
    requires forall i :: 0 <= i < |usages| ==> usages[i].code != code
    ensures CountUses(usages, code) == 0
    ensures forall user :: CountUserUses(usages, code, user) == 0
  {
    if usages != [] {
      NoRowsNoUses(usages[..|usages| - 1], code);
    }
  }

  lemma OneMoreUse(usages: seq<Usage>, used: Usage, code: Code)
    ensures CountUses(usages + [used], code) == CountUses(usages, code) + (if code == used.code then 1 else 0)
  {
    assert (usages + [used])[..|usages|] == usages;
  }

  lemma OneMoreUserUse(usages: seq<Usage>, used: Usage, code: Code, user: UserId)
    ensures CountUserUses(usages + [used], code, user)
         == CountUserUses(usages, code, user) + (if code == used.code && user == used.user then 1 else 0)
  {
    assert (usages + [used])[..|usages|] == usages;
  }

  /** The counter goes up with the usage rows, and the limits that allowed the use still hold after it. */
  lemma UsedCouponStaysWithin(db: Db, booking: Booking, code: Code)
    requires code in db.coupons && WithinLimits(db, code)
    requires booking.customer.Some? && CouponUsable(db, code, booking.customer.value)
    ensures code in Committed(db, booking, Some(code)).coupons && WithinLimits(Committed(db, booking, Some(code)), code)
  {
    hide CountUses, CountUserUses;
    var used := Usage(code, booking.customer.value, |db.bookings|);
    var db' := Committed(db, booking, Some(code));
    assert db'.usages == db.usages + [used];
    OneMoreUse(db.usages, used, code);
    forall user | db.coupons[code].perUserLimit.Some?
      ensures CountUserUses(db'.usages, code, user) <= db.coupons[code].perUserLimit.value
    {
      OneMoreUserUse(db.usages, used, code, user);
    }
  }

  /** A coupon that the booking does not use keeps its counter and its counts. */
  lemma OtherCouponStays(db: Db, booking: Booking, used: Option<Code>, code: Code)
    requires code in db.coupons && used != Some(code)
    ensures var db' := Committed(db, booking, used);
            && code in db'.coupons && db'.coupons[code] == db.coupons[code]
            && CountUses(db'.usages, code) == CountUses(db.usages, code)
            && forall user :: CountUserUses(db'.usages, code, user) == CountUserUses(db.usages, code, user)
  {
    hide CountUses, CountUserUses;
    if used.Some? && used.value in db.coupons && booking.customer.Some? {
      var row := Usage(used.value, booking.customer.value, |db.bookings|);
      OneMoreUse(db.usages, row, code);
      forall user ensures CountUserUses(db.usages + [row], code, user) == CountUserUses(db.usages, code, user) {
        OneMoreUserUse(db.usages, row, code, user);
      }
    }
  }

  lemma CommitKeepsLimits(db: Db, booking: Booking, used: Option<Code>, code: Code)
    requires code in db.coupons && WithinLimits(db, code)
    requires used.Some? ==>
               used.value in db.coupons && booking.customer.Some? && CouponUsable(db, used.value, booking.customer.value)
    ensures code in Committed(db, booking, used).coupons && WithinLimits(Committed(db, booking, used), code)
    ensures Some(code) != used ==> forall user :: CouponUsable(db, code, user) ==> CouponUsable(Committed(db, booking, used), code, user)
  {
    hide Committed, CountUses, CountUserUses;
    if used == Some(code) {
      UsedCouponStaysWithin(db, booking, code);
    } else {
      OtherCouponStays(db, booking, used, code);
    }
  }

  /** Claims of the others survive: their coupon rows are locked by them, so the committed coupon is not theirs. */
  lemma OthersKeepClaims(s: State, s': State, id: RequestId)
    requires CouponsSafe(s)
    requires forall other :: other != id && other in s'.requests && s'.requests[other].Running? ==>
               other in s.requests && s.requests[other] == s'.requests[other]
    requires forall row, other :: other != id && Owns(s, row, other) ==> Owns(s', row, other)
    requires s'.db.coupons.Keys == s.db.coupons.Keys
    requires forall code, user :: code in s.db.coupons && !Owns(s, CouponRow(code), id) && CouponUsable(s.db, code, user)
               ==> CouponUsable(s'.db, code, user)
    ensures forall other :: other != id && other in s'.requests && s'.requests[other].Running? ==>
              ClaimSafe(s', other, s'.requests[other].tx)
  {
    forall other | other != id && other in s'.requests && s'.requests[other].Running?
      ensures ClaimSafe(s', other, s'.requests[other].tx)
    {
      assert ClaimSafe(s, other, s.requests[other].tx);
    }
  }

  lemma CommitKeepsCoupons(s: State, id: RequestId)
    requires CouponsSafe(s) && InTx(s, id) && s.requests[id].tx.phase.Inserted?
    ensures var phase := s.requests[id].tx.phase;
            CouponsSafe(End(s.(db := Committed(s.db, phase.booking, phase.used)), id, Done(|s.db.bookings|)))
  {
    var tx := s.requests[id].tx;
    var Inserted(booking, used) := tx.phase;
    assert ClaimSafe(s, id, tx);
    var s' := End(s.(db := Committed(s.db, booking, used)), id, Done(|s.db.bookings|));
    forall code | code in s'.db.coupons
      ensures WithinLimits(s'.db, code)
      ensures Some(code) != used ==> forall user :: CouponUsable(s.db, code, user) ==> CouponUsable(s'.db, code, user)
    {
      CommitKeepsLimits(s.db, booking, used, code);
    }
    OthersKeepClaims(s, s', id);
  }

  lemma MoveKeepsClaim(s: State, id: RequestId, tx: Tx, attempt: nat, step: Step)
    requires ClaimSafe(s, id, tx)
    ensures match MoveOf(s.db, tx, attempt, id, step)
            case Go(next) => ClaimSafe(s, id, next)
            case GoLocking(next, row) => Owns(s, row, id) ==> ClaimSafe(s, id, next)
            case Publish(_, _) => tx.phase.Inserted?
            case _ => true
  {
  }

  lemma EndKeepsCoupons(s: State, id: RequestId, progress: Progress)
    requires CouponsSafe(s) && InTx(s, id) && !progress.Running?
    ensures CouponsSafe(End(s, id, progress))
  {
    var s' := End(s, id, progress);
    LimitsCarryOver(s.db, s'.db);
    OthersKeepClaims(s, s', id);
  }

  lemma LimitsCarryOver(db: Db, db': Db)
    requires db'.coupons == db.coupons && db'.usages == db.usages
    ensures forall code :: code in db.coupons && WithinLimits(db, code) ==> WithinLimits(db', code)
    ensures forall code, user :: code in db.coupons ==> (CouponUsable(db, code, user) <==> CouponUsable(db', code, user))
  {
  }

  lemma LockKeepsCoupons(s: State, id: RequestId, row: Row)
    requires CouponsSafe(s) && InTx(s, id) && Free(s, row, id)
    ensures CouponsSafe(s.(locks := s.locks[row := id]))
  {
    var s' := s.(locks := s.locks[row := id]);
    LimitsCarryOver(s.db, s'.db);
    assert ClaimSafe(s, id, s.requests[id].tx);
    OthersKeepClaims(s, s', id);
  }

  lemma AdvanceKeepsCoupons(s: State, id: RequestId, next: Tx)
    requires CouponsSafe(s) && InTx(s, id) && ClaimSafe(s, id, next)
    ensures CouponsSafe(Advance(s, id, next))
  {
    var s' := Advance(s, id, next);
    LimitsCarryOver(s.db, s'.db);
    OthersKeepClaims(s, s', id);
  }

  lemma TxStepKeepsCoupons(s: State, step: Step, id: RequestId, s': State)
    requires CouponsSafe(s) && InTx(s, id) && TxApply(s, step, id) == Some(s')
    ensures CouponsSafe(s')
  {
    var tx := s.requests[id].tx;
    var attempt := s.requests[id].attempt;
    assert ClaimSafe(s, id, tx);
    MoveKeepsClaim(s, id, tx, attempt, step);
    match MoveOf(s.db, tx, attempt, id, step)
    case Stop(progress) => EndKeepsCoupons(s, id, progress);
    case Go(next) => AdvanceKeepsCoupons(s, id, next);
    case GoLocking(next, row) =>
      var locked := s.(locks := s.locks[row := id]);
      LockKeepsCoupons(s, id, row);
      assert ClaimSafe(locked, id, tx);
      MoveKeepsClaim(locked, id, tx, attempt, step);
      AdvanceKeepsCoupons(locked, id, next);
    case Publish(_, _) => CommitKeepsCoupons(s, id);
    case NotNow =>
  }

  lemma CreateKeepsCoupons(s: State, step: Step, s': State)
    requires CouponsSafe(s) && Apart(s, step) && step.CreateCoupon? && Apply(s, step) == Some(s')
    ensures CouponsSafe(s')
  {
    NoRowsNoUses(s.db.usages, step.code);
    forall code | code in s'.db.coupons ensures WithinLimits(s'.db, code) {
      assert code in s.db.coupons ==> WithinLimits(s.db, code);
    }
    forall id | id in s'.requests && s'.requests[id].Running? ensures ClaimSafe(s', id, s'.requests[id].tx) {
      assert ClaimSafe(s, id, s.requests[id].tx);
    }
  }

  /** Steps that leave coupons, usages, locks and claims alone. */
  lemma BystanderKeepsCoupons(s: State, step: Step, s': State)
    requires CouponsSafe(s) && Apply(s, step) == Some(s')
    requires step.Submit? || step.Begin? || step.ChangeStatus? || step.ReassignCheck? || step.ReassignWrite?
    ensures CouponsSafe(s')
  {
    LimitsCarryOver(s.db, s'.db);
    forall id | id in s'.requests && s'.requests[id].Running? ensures ClaimSafe(s', id, s'.requests[id].tx) {
      assert id in s.requests && s.requests[id] == s'.requests[id] ==> ClaimSafe(s, id, s'.requests[id].tx);
    }
  }

  lemma StepKeepsCoupons(s: State, step: Step, s': State)
    requires CouponsSafe(s) && Apart(s, step) && Apply(s, step) == Some(s')
    ensures CouponsSafe(s')
  {
    if step.CreateCoupon? {
      CreateKeepsCoupons(s, step, s');
    } else if step.Submit? || step.Begin? || step.ChangeStatus? || step.ReassignCheck? || step.ReassignWrite? {
      BystanderKeepsCoupons(s, step, s');
    } else {
      TxStepKeepsCoupons(s, step, step.id, s');
    }
  }

  lemma {:induction false} RunKeepsCoupons(s: State, steps: seq<Step>)
    requires CouponsSafe(s) && ApartRun(s, steps) && Run(s, steps).Some?
    ensures CouponsSafe(Run(s, steps).value)
  {
    hide Apply, CouponsSafe, Apart;
    if steps != [] {
      var n := |steps| - 1;
      RunKeepsCoupons(s, steps[..n]);
      StepKeepsCoupons(Run(s, steps[..n]).value, steps[n], Run(s, steps).value);
    }
  }

  lemma NoCouponsYet()
    ensures CouponsSafe(INIT)
  {
  }

  /** After any interleaving: the counter equals the usage rows, and neither limit is passed. */
  lemma CouponLimitsHold(steps: seq<Step>, code: Code, user: UserId)
    requires ApartRun(INIT, steps) && Run(INIT, steps).Some?
    requires code in Run(INIT, steps).value.db.coupons
    ensures var db := Run(INIT, steps).value.db;
            var coupon := db.coupons[code];
            && coupon.usedCount == CountUses(db.usages, code)
            && (coupon.usageLimit.Some? ==> coupon.usedCount <= coupon.usageLimit.value)
            && (coupon.perUserLimit.Some? ==> CountUserUses(db.usages, code, user) <= coupon.perUserLimit.value)
  {
    NoCouponsYet();
    RunKeepsCoupons(INIT, steps);
    assert WithinLimits(Run(INIT, steps).value.db, code);
  }
}
