/**
 * What the payment handlers make of the rows, written out status by status and amount by amount, apart from the
 * functions by which the ledger decides and writes.
 */
module LedgerRows {
  import opened Common
  import opened Ledger
  import opened LedgerSafety
  import opened SettlementSafety
  import opened Balance

  // ----- What a booking owes ---------------------------------------------------------------------------------

  /** The final price counts when it is positive. */
  predicate IsCharge(a: Account, amount: real) {
    && (a.finalPrice > 0.0 ==> amount == a.finalPrice)
    && (a.finalPrice <= 0.0 ==> amount == a.totalPrice)
  }

  ghost predicate HasPaid(t: Tables, b: nat, kind: Kind) {
    exists payment :: payment in t.payments && payment.booking == b && payment.kind == kind && payment.status == Settled
  }

  /** What a new payment of the booking is for, and of which kind. */
  ghost predicate IsOwed(t: Tables, b: nat, chosen: Kind, kind: Kind, amount: real)
    requires b < |t.accounts|
  {
    var a := t.accounts[b];
    && !HasPaid(t, b, kind)
    && match a.status
       case DepositPending => kind == chosen && if kind.Deposit? then a.deposit == Some(amount) else IsCharge(a, amount)
       case Confirmed => kind.Full? && amount > 0.0 && IsCharge(a, amount)
       case DepositPaid =>
         kind.Full? && amount > 0.0 && IsCharge(a, if a.deposit.Some? then amount + a.deposit.value else amount)
       case _ => false
  }

  ghost predicate IsNotOwed(t: Tables, b: nat, chosen: Kind, error: PayError)
    requires b < |t.accounts|
  {
    var a := t.accounts[b];
    match error
    case NotFound => false
    case NotPayable => a.status != Confirmed && a.status != DepositPending && a.status != DepositPaid
    case AlreadyPaid =>
      || (a.status == DepositPending && HasPaid(t, b, chosen))
      || ((a.status == Confirmed || a.status == DepositPaid) && HasPaid(t, b, Full))
    case NothingLeft =>
      || (a.status == DepositPending && chosen.Deposit? && !HasPaid(t, b, Deposit) && a.deposit.None?)
      || (a.status == Confirmed && !HasPaid(t, b, Full) && exists due :: IsCharge(a, due) && due <= 0.0)
      || (a.status == DepositPaid && !HasPaid(t, b, Full)
          && exists due :: IsCharge(a, due) && due <= if a.deposit.Some? then a.deposit.value else 0.0)
  }

  lemma PaidIs(t: Tables, b: nat, kind: Kind)
    ensures HasSettled(t.payments, b, kind) <==> HasPaid(t, b, kind)
  {
    if HasSettled(t.payments, b, kind) {
      var p :| 0 <= p < |t.payments| && IsPayment(t.payments, p, b, kind, Settled);
      assert t.payments[p] in t.payments;
    }
    if HasPaid(t, b, kind) {
      var payment :| payment in t.payments && payment.booking == b && payment.kind == kind && payment.status == Settled;
      var p :| 0 <= p < |t.payments| && t.payments[p] == payment;
      assert IsPayment(t.payments, p, b, kind, Settled);
    }
  }

  lemma ChargeIs(t: Tables, b: nat, chosen: Kind)
    requires b < |t.accounts|
    ensures forall kind, amount :: Charge(t, b, chosen) == Ok((kind, amount)) <==> IsOwed(t, b, chosen, kind, amount)
    ensures forall error :: Charge(t, b, chosen) == Err(error) <==> IsNotOwed(t, b, chosen, error)
  {
    PaidIs(t, b, Full);
    PaidIs(t, b, Deposit);
    hide HasSettled, HasPaid;
    assert IsCharge(t.accounts[b], Total(t.accounts[b]));
  }

  // ----- What is written -------------------------------------------------------------------------------------

  ghost predicate OthersKept(t: Tables, t': Tables, b: nat) {
    && |t'.accounts| == |t.accounts|
    && forall other :: 0 <= other < |t.accounts| && other != b ==> t'.accounts[other] == t.accounts[other]
  }

  /** This booking has this status now; its other columns and the other bookings are as they were. */
  ghost predicate NowHas(t: Tables, t': Tables, b: nat, status: BookingStatus)
    requires b < |t.accounts|
  {
    OthersKept(t, t', b) && t'.accounts[b] == t.accounts[b].(status := status)
  }

  /** Each payment is as it was, but those of this booking, this kind if any, and this status have the new one. */
  ghost predicate Turned(payments: seq<Payment>, payments': seq<Payment>, b: nat, kind: Option<Kind>, from: PaymentStatus,
                         to: PaymentStatus)
    requires |payments| <= |payments'|
  {
    forall p :: 0 <= p < |payments| ==>
      payments'[p] == if payments[p].booking == b && (kind.None? || payments[p].kind == kind.value) && payments[p].status == from
                      then payments[p].(status := to) else payments[p]
  }

  /** A deposit always leads to DEPOSIT_PAID, a full payment to PAID from the three statuses that can be paid. */
  ghost predicate MovedOn(t: Tables, t': Tables, b: nat, kind: Kind)
    requires b < |t.accounts|
  {
    if kind.Deposit? then NowHas(t, t', b, DepositPaid)
    else if t.accounts[b].status == Confirmed || t.accounts[b].status == DepositPending || t.accounts[b].status == DepositPaid
    then NowHas(t, t', b, Paid)
    else t'.accounts == t.accounts
  }

  ghost predicate IsCashTaken(t: Tables, t': Tables, b: nat, kind: Kind, amount: real)
    requires b < |t.accounts|
  {
    t'.payments == t.payments + [Payment(b, kind, amount, Settled, true)] && MovedOn(t, t', b, kind)
  }

  /** Older open payments of the kind have failed, and there is a new one. */
  ghost predicate IsTransferAdded(t: Tables, t': Tables, b: nat, kind: Kind, amount: real) {
    && t'.accounts == t.accounts
    && |t'.payments| == |t.payments| + 1
    && Turned(t.payments, t'.payments, b, Some(kind), Open, Failed)
    && t'.payments[|t.payments|] == Payment(b, kind, amount, Open, false)
  }

  ghost predicate IsSettled(t: Tables, t': Tables, p: nat)
    requires p < |t.payments| && t.payments[p].booking < |t.accounts|
  {
    t'.payments == t.payments[p := t.payments[p].(status := Settled)] && MovedOn(t, t', t.payments[p].booking, t.payments[p].kind)
  }

  ghost predicate IsFailed(t: Tables, t': Tables, p: nat)
    requires p < |t.payments|
  {
    t' == Tables(t.accounts, t.payments[p := t.payments[p].(status := Failed)])
  }

  /** The customer may call it off: one of the five active statuses, and early enough. */
  predicate MayCancel(a: Account, user: UserId, now: Instant, cancelBeforeHours: nat) {
    && a.customer == Some(user)
    && (a.status == Pending || a.status == Confirmed || a.status == DepositPending || a.status == DepositPaid || a.status == Paid)
    && now + cancelBeforeHours * 3600000 <= a.scheduledAt
  }

  /** The booking is cancelled, and all that was settled of it refunded. */
  ghost predicate IsCancelled(t: Tables, t': Tables, b: nat)
    requires b < |t.accounts|
  {
    && NowHas(t, t', b, Cancelled)
    && |t'.payments| == |t.payments|
    && Turned(t.payments, t'.payments, b, None, Settled, Refunded)
  }

  /** A whole amount, and the least that is no less than the percentage of the charge. */
  ghost predicate IsDeposit(a: Account, depositPercent: nat, deposit: real) {
    exists due :: IsCharge(a, due) && deposit == deposit.Floor as real
      && deposit >= due * depositPercent as real / 100.0 && deposit - 1.0 < due * depositPercent as real / 100.0
  }

  /** A day, six hours, two or one to pay, by whether more than a week, a day, six hours or two are left. */
  predicate IsDeadline(now: Instant, scheduledAt: Instant, deadline: Instant) {
    && scheduledAt > now + 7200000
    && (scheduledAt > now + 604800000 ==> deadline == now + 86400000)
    && (now + 604800000 >= scheduledAt > now + 86400000 ==> deadline == now + 21600000)
    && (now + 86400000 >= scheduledAt > now + 21600000 ==> deadline == now + 7200000)
    && (now + 21600000 >= scheduledAt ==> deadline == now + 3600000)
  }

  /** What a confirmation that has read one row makes of what the row has become. */
  ghost predicate IsConfirmed(had: Account, a: Account, a': Account, now: Instant, depositPercent: nat, configActive: bool) {
    if depositPercent > 0 && configActive && had.scheduledAt > now + 7200000 then
      && a'.deposit.Some? && a'.deadline.Some?
      && a' == a.(status := DepositPending, deposit := a'.deposit, deadline := a'.deadline)
      && IsDeposit(had, depositPercent, a'.deposit.value)
      && IsDeadline(now, had.scheduledAt, a'.deadline.value)
    else a' == a.(status := Confirmed)
  }

  /** Its deposit was to be paid before now, and nobody has; without a customer it is passed over. */
  predicate HasLapsed(a: Account, now: Instant) {
    a.status == DepositPending && a.deadline.Some? && a.deadline.value < now && a.customer != None
  }

  /** A new booking: a walk-in and one at a store that confirms by itself start out confirmed. */
  predicate IsBooked(a: Account, customer: Option<UserId>, scheduledAt: Instant, totalPrice: real, finalPrice: real,
                     autoConfirm: bool) {
    && a.customer == customer && a.scheduledAt == scheduledAt && a.totalPrice == totalPrice && a.finalPrice == finalPrice
    && a.deposit == None && a.deadline == None
    && a.status == match (customer, autoConfirm) { case (None, _) => Confirmed case (_, true) => Confirmed case _ => Pending }
  }

  // ----- The handlers, between whose halves anything may happen ----------------------------------------------

  /** What the rows must say for a handler to go ahead. */
  ghost predicate IsAllowed(t: Tables, request: Request) {
    var b := request.booking;
    && b < |t.accounts|
    && match request
       case Confirm(_, _, _, _) => t.accounts[b].status == Pending
       case Reject(_) => t.accounts[b].status == Pending
       case Complete(_) => t.accounts[b].status == Paid
       case Cancel(_, user, now, cancelBeforeHours) => MayCancel(t.accounts[b], user, now, cancelBeforeHours)
       case PayOnline(_, user, chosen) =>
         && t.accounts[b].customer == Some(user)
         && exists kind, amount :: IsOwed(t, b, GetOrElse(chosen, Deposit), kind, amount)
       case PayAtStore(_, _, chosen) =>
         exists kind, amount :: IsOwed(t, b, GetOrElse(chosen, Full), kind, amount)
  }

  /** Older open payments of the kind give way. */
  ghost predicate GaveWay(t: Tables, t': Tables, b: nat, kind: Kind) {
    && t'.accounts == t.accounts && |t'.payments| == |t.payments|
    && Turned(t.payments, t'.payments, b, Some(kind), Open, Failed)
  }

  /** From t to t': the only write, or the first of two, of a handler that has read `had`. */
  ghost predicate IsWritten(had: Tables, t: Tables, t': Tables, request: Request)
    requires request.booking < |had.accounts| <= |t.accounts|
  {
    var b := request.booking;
    match request
    case Confirm(_, now, depositPercent, configActive) =>
      && t'.payments == t.payments && OthersKept(t, t', b)
      && IsConfirmed(had.accounts[b], t.accounts[b], t'.accounts[b], now, depositPercent, configActive)
    case Reject(_) => t'.payments == t.payments && NowHas(t, t', b, Rejected)
    case Complete(_) => t'.payments == t.payments && NowHas(t, t', b, Completed)
    case Cancel(_, _, _, _) => IsCancelled(t, t', b)
    case PayOnline(_, _, chosen) =>
      exists kind, amount ::
        IsOwed(had, b, GetOrElse(chosen, Deposit), kind, amount) && GaveWay(t, t', b, kind)
    case PayAtStore(_, cash, chosen) =>
      exists kind, amount ::
        && IsOwed(had, b, GetOrElse(chosen, Full), kind, amount)
        && if cash then IsCashTaken(t, t', b, kind, amount) else GaveWay(t, t', b, kind)
  }

  /** The second write of a transfer. */
  ghost predicate IsInserted(had: Tables, t: Tables, t': Tables, request: Request)
    requires request.booking < |had.accounts| && (request.PayOnline? || request.PayAtStore?)
  {
    var b := request.booking;
    var chosen := GetOrElse(request.chosen, if request.PayOnline? then Deposit else Full);
    exists kind, amount ::
      && IsOwed(had, b, chosen, kind, amount)
      && t' == Tables(t.accounts, t.payments + [Payment(b, kind, amount, Open, false)])
  }

  lemma DeadlineIs(now: Instant, scheduledAt: Instant)
    ensures DepositDeadline(now, scheduledAt).Some? <==> scheduledAt > now + 7200000
    ensures forall deadline :: DepositDeadline(now, scheduledAt) == Some(deadline) <==> IsDeadline(now, scheduledAt, deadline)
  {
  }

  lemma DepositIs(a: Account, depositPercent: nat)
    ensures IsDeposit(a, depositPercent, DepositFor(a, depositPercent))
  {
    var due := Total(a);
    assert IsCharge(a, due);
    var units := Ceil(due * depositPercent as real / 100.0);
    assert units as real >= due * depositPercent as real / 100.0;
  }

  lemma ConfirmedIs(had: Account, a: Account, now: Instant, depositPercent: nat, configActive: bool)
    ensures IsConfirmed(had, a, ConfirmedAccount(a, DepositTerms(had, now, depositPercent, configActive)), now, depositPercent,
                        configActive)
  {
    DeadlineIs(now, had.scheduledAt);
    DepositIs(had, depositPercent);
    hide DepositFor, DepositDeadline, IsDeposit, IsDeadline;
  }

  lemma DecisionIs(t: Tables, request: Request)
    ensures Decide(t, request).Some? <==> IsAllowed(t, request)
    ensures Decide(t, request).Some? ==> Decide(t, request).value.booking == request.booking < |t.accounts|
  {
    hide DepositTerms, Charge, IsOwed, IsNotOwed;
    if request.booking < |t.accounts| && (request.PayOnline? || request.PayAtStore?) {
      var chosen := GetOrElse(request.chosen, if request.PayOnline? then Deposit else Full);
      ChargeIs(t, request.booking, chosen);
      var charge := Charge(t, request.booking, chosen);
      assert charge.Ok? ==> charge == Ok((charge.value.0, charge.value.1));
    }
  }

  lemma PaymentIs(had: Tables, t: Tables, b: nat, cash: bool, chosen: Kind)
    requires b < |had.accounts| <= |t.accounts| && DecidePayment(had, b, cash, chosen).Some?
    ensures var intent := DecidePayment(had, b, cash, chosen).value;
            && intent == (if cash then TakeCash(b, intent.kind, intent.amount) else Supersede(b, intent.kind, intent.amount))
            && IsOwed(had, b, chosen, intent.kind, intent.amount)
            && if cash then IsCashTaken(t, Perform(t, intent), b, intent.kind, intent.amount)
               else GaveWay(t, Perform(t, intent), b, intent.kind)
  {
    hide Charge, IsOwed, IsNotOwed;
    ChargeIs(had, b, chosen);
    var charge := Charge(had, b, chosen).value;
    assert Charge(had, b, chosen) == Ok((charge.0, charge.1));
  }

  lemma WriteIs(had: Tables, t: Tables, request: Request)
    requires Decide(had, request).Some? && |had.accounts| <= |t.accounts|
    ensures var intent := Decide(had, request).value;
            && intent.booking == request.booking
            && IsWritten(had, t, Perform(t, intent), request)
            && (Rest(intent).Some? <==> request.PayOnline? || (request.PayAtStore? && !request.cash))
            && (Rest(intent).Some? ==> IsInserted(had, t, Perform(t, Rest(intent).value), request))
  {
    hide DepositTerms, Charge, IsOwed, IsNotOwed, IsConfirmed, ConfirmedAccount, DecidePayment;
    var b := request.booking;
    match request
    case Confirm(_, now, depositPercent, configActive) =>
      ConfirmedIs(had.accounts[b], t.accounts[b], now, depositPercent, configActive);
    case PayOnline(_, _, chosen) => PaymentIs(had, t, b, false, GetOrElse(chosen, Deposit));
    case PayAtStore(_, cash, chosen) => PaymentIs(had, t, b, cash, GetOrElse(chosen, Full));
    case _ =>
  }

  // ----- From the read of a handler to its writes ------------------------------------------------------------

  lemma BookedIs(s: State, customer: Option<UserId>, scheduledAt: Instant, totalPrice: real, finalPrice: real, autoConfirm: bool)
    ensures var s' := Apply(s, Book(customer, scheduledAt, totalPrice, finalPrice, autoConfirm));
            && s'.Some? && |s'.value.t.accounts| == |s.t.accounts| + 1
            && s'.value == s.(t := Tables(s.t.accounts + [s'.value.t.accounts[|s.t.accounts|]], s.t.payments))
            && IsBooked(s'.value.t.accounts[|s.t.accounts|], customer, scheduledAt, totalPrice, finalPrice, autoConfirm)
  {
  }

  /** A handler gets past its read exactly when the rows allow what is asked. */
  lemma ReadIs(s: State, h: nat, request: Request)
    requires h !in s.handlers
    ensures var s' := Apply(s, Read(h, request));
            && (s'.Some? <==> IsAllowed(s.t, request))
            && (s'.Some? ==> s'.value.t == s.t && h in s'.value.handlers
                             && s'.value.handlers[h] == Flight(request, Decide(s.t, request).value))
  {
    hide Decide, IsAllowed;
    DecisionIs(s.t, request);
  }

  lemma {:induction false} FlightStays(s: State, more: seq<Step>, h: nat)
    requires h in s.handlers && Run(s, more).Some? && Write(h) !in more
    ensures var later := Run(s, more).value;
            && h in later.handlers && later.handlers[h] == s.handlers[h] && |s.t.accounts| <= |later.t.accounts|
  {
    hide Decide, Perform, Deliver, CancelPending, IsOpen;
    if more != [] {
      var n := |more| - 1;
      FlightStays(s, more[..n], h);
      assert more[n] in more;
      FlightStaysOne(Run(s, more[..n]).value, more[n], h);
    }
  }

  lemma FlightStaysOne(s: State, step: Step, h: nat)
    requires h in s.handlers && step != Write(h)
    ensures var s' := Apply(s, step);
            s'.Some? ==> h in s'.value.handlers && s'.value.handlers[h] == s.handlers[h] && |s.t.accounts| <= |s'.value.t.accounts|
  {
    hide Decide, ConfirmedAccount, Superseded, RefundedAll, ExpiredAt;
  }

  /**
   * A handler that has read, and whatever has happened since: its write makes of the rows what it decided on the rows it
   * read. Only a transfer has still something to write.
   */
  lemma {:induction false} HandlerWrites(s: State, h: nat, request: Request, more: seq<Step>)
    requires h !in s.handlers && Write(h) !in more
    requires Run(s, [Read(h, request)] + more).Some? && Run(s, [Read(h, request)] + more + [Write(h)]).Some?
    ensures var mid, last := Run(s, [Read(h, request)] + more).value, Run(s, [Read(h, request)] + more + [Write(h)]).value;
            && request.booking < |s.t.accounts| <= |mid.t.accounts| == |last.t.accounts|
            && IsAllowed(s.t, request)
            && IsWritten(s.t, mid.t, last.t, request)
            && (h in last.handlers <==> request.PayOnline? || (request.PayAtStore? && !request.cash))
            && (h in last.handlers ==> last.handlers[h] == Flight(request, Rest(Decide(s.t, request).value).value))
  {
    hide Apply, Decide, IsAllowed, IsWritten, IsInserted, Perform, Rest;
    RunTwo(s, Read(h, request), Write(h));
    RunJoin(s, [Read(h, request)], more);
    RunOne(s, [Read(h, request)] + more, Write(h));
    ReadIs(s, h, request);
    var first, mid := Apply(s, Read(h, request)).value, Run(s, [Read(h, request)] + more).value;
    FlightStays(first, more, h);
    DecisionIs(s.t, request);
    WriteIs(s.t, mid.t, request);
    WriteStepIs(mid, h);
  }

  lemma WriteStepIs(s: State, h: nat)
    requires h in s.handlers && s.handlers[h].intent.booking < |s.t.accounts|
    ensures var s', Flight(request, intent) := Apply(s, Write(h)), s.handlers[h];
            && s'.Some? && s'.value.t == Perform(s.t, intent) && |s'.value.t.accounts| == |s.t.accounts|
            && (h in s'.value.handlers <==> Rest(intent).Some?)
            && (Rest(intent).Some? ==> s'.value.handlers[h] == Flight(request, Rest(intent).value))
  {
  }

  /** The second write of a transfer, again whatever has happened: a new open payment of what was owed at the read. */
  lemma {:induction false} TransferInserts(s: State, h: nat, request: Request, more: seq<Step>, again: seq<Step>)
    requires h !in s.handlers && Write(h) !in more && Write(h) !in again
    requires request.PayOnline? || (request.PayAtStore? && !request.cash)
    requires Run(s, [Read(h, request)] + more).Some? && Run(s, [Read(h, request)] + more + [Write(h)]).Some?
    requires Run(s, [Read(h, request)] + more + [Write(h)] + again).Some?
    ensures var mid := Run(s, [Read(h, request)] + more + [Write(h)] + again).value;
            var last := Run(s, [Read(h, request)] + more + [Write(h)] + again + [Write(h)]);
            && request.booking < |s.t.accounts|
            && last.Some? && IsInserted(s.t, mid.t, last.value.t, request) && h !in last.value.handlers
  {
    hide Apply, Decide, IsAllowed, IsWritten, IsInserted, Perform;
    var steps := [Read(h, request)] + more + [Write(h)];
    HandlerWrites(s, h, request, more);
    RunJoin(s, steps, again);
    RunOne(s, steps + again, Write(h));
    var mid := Run(s, steps + again).value;
    FlightStays(Run(s, steps).value, again, h);
    DecisionIs(s.t, request);
    WriteIs(s.t, mid.t, request);
    WriteStepIs(mid, h);
  }

  // ----- Sweeps ----------------------------------------------------------------------------------------------

  lemma {:induction false} ListStays(s: State, more: seq<Step>, w: nat, b: nat)
    requires w in s.sweeps && Run(s, more).Some? && SweepWrite(w, b) !in more
    ensures var later := Run(s, more).value;
            w in later.sweeps && (b in later.sweeps[w] <==> b in s.sweeps[w]) && |s.t.accounts| <= |later.t.accounts|
  {
    hide Apply;
    if more != [] {
      var n := |more| - 1;
      ListStays(s, more[..n], w, b);
      assert more[n] in more;
      ListStaysOne(Run(s, more[..n]).value, more[n], w, b);
    }
  }

  lemma ListStaysOne(s: State, step: Step, w: nat, b: nat)
    requires w in s.sweeps && step != SweepWrite(w, b)
    ensures var s' := Apply(s, step);
            s'.Some? ==> w in s'.value.sweeps && (b in s'.value.sweeps[w] <==> b in s.sweeps[w])
                         && |s.t.accounts| <= |s'.value.t.accounts|
  {
    hide Decide, ConfirmedAccount, Superseded, RefundedAll, ExpiredAt;
  }

  /**
   * A sweep goes on to write exactly the bookings whose deposit had lapsed at its read, whatever has happened since, and
   * cancels those that are still waiting for it.
   */
  lemma {:induction false} SweepWrites(s: State, w: nat, now: Instant, more: seq<Step>, b: nat)
    requires w !in s.sweeps && SweepWrite(w, b) !in more && Run(s, [SweepRead(w, now)] + more).Some?
    ensures var mid, last := Run(s, [SweepRead(w, now)] + more).value, Run(s, [SweepRead(w, now)] + more + [SweepWrite(w, b)]);
            && (last.Some? <==> b < |s.t.accounts| && HasLapsed(s.t.accounts[b], now))
            && (last.Some? ==>
                  && last.value.t.payments == mid.t.payments
                  && b < |mid.t.accounts|
                  && if mid.t.accounts[b].status == DepositPending then NowHas(mid.t, last.value.t, b, Cancelled)
                     else last.value.t.accounts == mid.t.accounts)
  {
    SweepStepsAre(s, w, now, b);
    hide Apply, HasLapsed;
    RunTwo(s, SweepRead(w, now), SweepWrite(w, b));
    RunJoin(s, [SweepRead(w, now)], more);
    RunOne(s, [SweepRead(w, now)] + more, SweepWrite(w, b));
    var first, mid := Apply(s, SweepRead(w, now)).value, Run(s, [SweepRead(w, now)] + more).value;
    ListStays(first, more, w, b);
    SweepStepsAre(mid, w, now, b);
  }

  lemma SweepStepsAre(s: State, w: nat, now: Instant, b: nat)
    ensures w !in s.sweeps ==>
              var s' := Apply(s, SweepRead(w, now));
              && s'.Some? && s'.value.t == s.t && w in s'.value.sweeps
              && (b in s'.value.sweeps[w] <==> b < |s.t.accounts| && HasLapsed(s.t.accounts[b], now))
    ensures w in s.sweeps ==>
              var s' := Apply(s, SweepWrite(w, b));
              && (s'.Some? <==> b in s.sweeps[w])
              && (s'.Some? && b < |s.t.accounts| ==>
                    && s'.value.t.payments == s.t.payments
                    && if s.t.accounts[b].status == DepositPending then NowHas(s.t, s'.value.t, b, Cancelled)
                       else s'.value.t.accounts == s.t.accounts)
  {
  }

  // ----- Deliveries and the amounts they bring ---------------------------------------------------------------

  /** What a delivery holds or was told, by the amount that it read. */
  predicate Agrees(t: Tables, delivery: Delivery, payment: nat, amount: real) {
    && payment == delivery.payment
    && match delivery
       case Holds(p, enough) => p < |t.payments| && (enough <==> t.payments[p].amount <= amount)
       case Told(p, outcome) =>
         && (outcome.Success? ==> p < |t.payments| && t.payments[p].amount <= amount)
         && (outcome.TooLittle? ==> p < |t.payments| && t.payments[p].amount > amount)
  }

  /** Each delivery has read once, and holds or was told what its amount calls for. */
  ghost predicate ReadOnce(s: State, steps: seq<Step>, d: nat) {
    && (forall p, amount :: WebhookRead(d, p, amount) in steps ==> d in s.deliveries && Agrees(s.t, s.deliveries[d], p, amount))
    && (d in s.deliveries ==> exists p, amount :: WebhookRead(d, p, amount) in steps)
  }

  lemma StepReadsOnce(s: State, steps: seq<Step>, step: Step, s': State, d: nat)
    requires Apply(s, step) == Some(s') && ReadOnce(s, steps, d)
    ensures ReadOnce(s', steps + [step], d)
  {
    StepAges(s, step);
    hide Decide, ConfirmedAccount, Superseded, RefundedAll, ExpiredAt, Perform;
    forall p, amount | WebhookRead(d, p, amount) in steps + [step]
      ensures d in s'.deliveries && Agrees(s'.t, s'.deliveries[d], p, amount)
    {
      if WebhookRead(d, p, amount) in steps {
        assert Agrees(s.t, s.deliveries[d], p, amount);
      }
    }
    if d in s.deliveries {
      var p, amount :| WebhookRead(d, p, amount) in steps;
      assert WebhookRead(d, p, amount) in steps + [step];
    } else if d in s'.deliveries {
      assert step.WebhookRead? && step in steps + [step];
      assert step == WebhookRead(d, step.payment, step.amount);
    }
  }

  lemma NothingRead(d: nat)
    ensures ReadOnce(INIT, [], d)
  {
  }

  lemma {:induction false} RunReadsOnce(steps: seq<Step>, d: nat)
    requires Run(INIT, steps).Some?
    ensures ReadOnce(Run(INIT, steps).value, steps, d)
  {
    hide Apply, ReadOnce;
    if steps != [] {
      var n := |steps| - 1;
      RunReadsOnce(steps[..n], d);
      StepReadsOnce(Run(INIT, steps[..n]).value, steps[..n], steps[n], Run(INIT, steps).value, d);
      assert steps == steps[..n] + [steps[n]];
    } else {
      NothingRead(d);
    }
  }

  /**
   * Over every run: a delivery that was told Success had read an amount that covers the payment, one that was told
   * TooLittle had read less, and neither had read anything else.
   */
  lemma ToldByAmount(steps: seq<Step>, d: nat, p: nat, outcome: Outcome)
    requires Run(INIT, steps).Some? && outcome != Ignored
    requires d in Run(INIT, steps).value.deliveries && Run(INIT, steps).value.deliveries[d] == Told(p, outcome)
    ensures var payments := Run(INIT, steps).value.t.payments;
            && p < |payments|
            && (exists amount :: WebhookRead(d, p, amount) in steps)
            && (forall q, amount :: WebhookRead(d, q, amount) in steps ==>
                  q == p && (outcome == Success <==> amount >= payments[p].amount))
  {
    RunReadsOnce(steps, d);
  }

  lemma {:induction false} DeliveryStays(s: State, more: seq<Step>, d: nat)
    requires d in s.deliveries && Run(s, more).Some? && WebhookWrite(d) !in more
    ensures var later := Run(s, more).value; d in later.deliveries && later.deliveries[d] == s.deliveries[d]
  {
    hide Apply;
    if more != [] {
      var n := |more| - 1;
      DeliveryStays(s, more[..n], d);
      assert more[n] in more;
      DeliveryStaysOne(Run(s, more[..n]).value, more[n], d);
    }
  }

  lemma DeliveryStaysOne(s: State, step: Step, d: nat)
    requires d in s.deliveries && step != WebhookWrite(d)
    ensures var s' := Apply(s, step); s'.Some? ==> d in s'.value.deliveries && s'.value.deliveries[d] == s.deliveries[d]
  {
    hide Decide, ConfirmedAccount, Superseded, RefundedAll, ExpiredAt;
  }

  predicate WaitsFor(payments: seq<Payment>, p: nat) {
    p < |payments| && payments[p].status == Open
  }

  /** The halves of a delivery. */
  lemma DeliveryStepsAre(s: State, d: nat, p: nat, amount: real)
    requires Linked(s.t)
    ensures d !in s.deliveries ==>
              var s' := Apply(s, WebhookRead(d, p, amount));
              && s'.Some? && s'.value.t == s.t && d in s'.value.deliveries
              && s'.value.deliveries[d]
                 == if WaitsFor(s.t.payments, p) then Holds(p, s.t.payments[p].amount <= amount) else Told(p, Ignored)
    ensures d in s.deliveries ==> (Apply(s, WebhookWrite(d)).Some? <==> s.deliveries[d].Holds?)
    ensures d in s.deliveries && s.deliveries[d].Holds? && s.deliveries[d].payment == p ==>
              var s', enough := Apply(s, WebhookWrite(d)).value, s.deliveries[d].enough;
              && d in s'.deliveries
              && if !WaitsFor(s.t.payments, p) then s'.t == s.t && s'.deliveries[d] == Told(p, Ignored)
                 else if enough then IsSettled(s.t, s'.t, p) && s'.deliveries[d] == Told(p, Success)
                 else IsFailed(s.t, s'.t, p) && s'.deliveries[d] == Told(p, TooLittle)
  {
  }

  /**
   * Over every run: a delivery has something left to write exactly when its payment was open at its read. If the payment
   * is still open at the write, it is settled when the amount covers it and fails otherwise; if not, nothing changes.
   */
  lemma DeliveryByAmount(first: seq<Step>, d: nat, p: nat, amount: real, more: seq<Step>)
    requires Run(INIT, first).Some? && Run(INIT, first + [WebhookRead(d, p, amount)] + more).Some? && WebhookWrite(d) !in more
    ensures var read := first + [WebhookRead(d, p, amount)] + more;
            var s, mid, last := Run(INIT, first).value, Run(INIT, read).value, Run(INIT, read + [WebhookWrite(d)]);
            && Linked(mid.t)
            && (last.Some? <==> WaitsFor(s.t.payments, p))
            && (last.Some? ==>
                  && p < |mid.t.payments| && d in last.value.deliveries
                  && if mid.t.payments[p].status != Open then last.value.t == mid.t && last.value.deliveries[d] == Told(p, Ignored)
                     else if amount >= s.t.payments[p].amount
                     then IsSettled(mid.t, last.value.t, p) && last.value.deliveries[d] == Told(p, Success)
                     else IsFailed(mid.t, last.value.t, p) && last.value.deliveries[d] == Told(p, TooLittle))
  {
    hide Apply, Linked, IsSettled, IsFailed;
    var step := WebhookRead(d, p, amount);
    var read := first + [step] + more;
    RunOne(INIT, first, step);
    RunJoin(INIT, first + [step], more);
    RunOne(INIT, read, WebhookWrite(d));
    InStepExactly(first);
    InStepExactly(read);
    var s, mid := Run(INIT, first).value, Run(INIT, read).value;
    var next := Run(INIT, first + [step]).value;
    DeliveryIsNew(s, d, p, amount);
    DeliveryStepsAre(s, d, p, amount);
    DeliveryStays(next, more, d);
    RunAges(next, more);
    DeliveryStepsAre(mid, d, p, amount);
  }

  lemma DeliveryIsNew(s: State, d: nat, p: nat, amount: real)
    ensures Apply(s, WebhookRead(d, p, amount)).Some? ==> d !in s.deliveries
  {
  }
}
