/** Settlement in every interleaving: at most once per payment, one live payment per kind, statuses backed by money. */
module SettlementSafety {
  import opened Common
  import opened Ledger

  // ----- How payments age ------------------------------------------------------------------------------------

  /** Where a payment's status may have got to: an open one anywhere, a settled one only to refunded. */
  predicate MayBecome(from: PaymentStatus, to: PaymentStatus) {
    from == Open || to == from || (from == Settled && to == Refunded)
  }

  /** Rows are kept, only statuses move, and only forwards. */
  ghost predicate Ages(payments: seq<Payment>, payments': seq<Payment>) {
    && |payments| <= |payments'|
    && forall p :: 0 <= p < |payments| ==>
         payments'[p] == payments[p].(status := payments'[p].status) && MayBecome(payments[p].status, payments'[p].status)
  }

  lemma StepAges(s: State, step: Step)
    ensures Apply(s, step).Some? ==> Ages(s.t.payments, Apply(s, step).value.t.payments)
  {
    hide Decide, ConfirmedAccount;
  }

  lemma {:induction false} RunAges(s: State, steps: seq<Step>)
    ensures Run(s, steps).Some? ==> Ages(s.t.payments, Run(s, steps).value.t.payments)
  {
    hide Apply;
    if steps != [] && Run(s, steps).Some? {
      var n := |steps| - 1;
      RunAges(s, steps[..n]);
      StepAges(Run(s, steps[..n]).value, steps[n]);
    }
  }

  /** Once a payment has left the open state it never settles, fails or opens again; only a refund can follow. */
  lemma {:induction false} LeavesOpenOnce(s: State, more: seq<Step>, p: nat)
    requires Run(s, more).Some? && p < |s.t.payments| && s.t.payments[p].status != Open
    ensures var later := Run(s, more).value.t.payments;
            && p < |later| && later[p].status != Open
            && (later[p].status == s.t.payments[p].status || (s.t.payments[p].status == Settled && later[p].status == Refunded))
  {
    RunAges(s, more);
  }

  // ----- One success per payment -----------------------------------------------------------------------------

  /** The delivery has been told that it settled the payment. */
  predicate SettledBy(s: State, d: nat, p: nat) {
    d in s.deliveries && s.deliveries[d] == Told(p, Success)
  }

  predicate IsPaidTransfer(payments: seq<Payment>, p: nat) {
    p < |payments| && !payments[p].cash && payments[p].status in {Settled, Refunded}
  }

  /** A transfer has been paid exactly when one delivery was told so. */
  ghost predicate OneSuccessEach(s: State) {
    && (forall d, p :: SettledBy(s, d, p) ==> IsPaidTransfer(s.t.payments, p))
    && (forall p :: IsPaidTransfer(s.t.payments, p) ==> exists d :: SettledBy(s, d, p))
    && (forall d1, d2, p :: SettledBy(s, d1, p) && SettledBy(s, d2, p) ==> d1 == d2)
    && (forall p :: 0 <= p < |s.t.payments| && s.t.payments[p].cash ==> s.t.payments[p].status != Open)
  }

  /** No step but a delivery's write pays a transfer, and none unpays one. */
  lemma OnlyDeliveriesPay(s: State, step: Step, s': State)
    requires Apply(s, step) == Some(s') && !step.WebhookWrite?
    ensures forall p :: IsPaidTransfer(s'.t.payments, p) <==> IsPaidTransfer(s.t.payments, p)
    ensures forall p :: 0 <= p < |s'.t.payments| && s'.t.payments[p].cash && s'.t.payments[p].status == Open ==>
              p < |s.t.payments| && s.t.payments[p].cash && s.t.payments[p].status == Open
    ensures forall d, p :: SettledBy(s', d, p) <==> SettledBy(s, d, p)
  {
    hide Decide, ConfirmedAccount;
  }

  lemma DeliveryIsCounted(s: State, d: nat, s': State)
    requires OneSuccessEach(s) && Apply(s, WebhookWrite(d)) == Some(s')
    ensures OneSuccessEach(s')
  {
    var p := s.deliveries[d].payment;
    if IsOpen(s.t, p) && s.deliveries[d].enough {
      assert SettledBy(s', d, p);
      forall q | IsPaidTransfer(s'.t.payments, q) ensures exists d' :: SettledBy(s', d', q) {
        if q != p {
          assert IsPaidTransfer(s.t.payments, q);
          var d' :| SettledBy(s, d', q);
          assert SettledBy(s', d', q);
        }
      }
      forall d', q | SettledBy(s', d', q) && d' != d ensures SettledBy(s, d', q) && q != p {
        assert SettledBy(s, d', q) ==> IsPaidTransfer(s.t.payments, q);
      }
    } else {
      forall d', q ensures SettledBy(s', d', q) <==> SettledBy(s, d', q) {
      }
      forall q ensures IsPaidTransfer(s'.t.payments, q) <==> IsPaidTransfer(s.t.payments, q) {
      }
    }
  }

  lemma {:induction false} RunSettlesOnce(steps: seq<Step>)
    ensures Run(INIT, steps).Some? ==> OneSuccessEach(Run(INIT, steps).value)
  {
    hide Apply;
    if steps != [] && Run(INIT, steps).Some? {
      var n := |steps| - 1;
      RunSettlesOnce(steps[..n]);
      var s, s' := Run(INIT, steps[..n]).value, Run(INIT, steps).value;
      if steps[n].WebhookWrite? {
        DeliveryIsCounted(s, steps[n].delivery, s');
      } else {
        OnlyDeliveriesPay(s, steps[n], s');
      }
    }
  }

  /**
   * With any number of duplicate and interleaved deliveries, a transfer is paid exactly when some delivery was told
   * so, and no second delivery is ever told the same.
   */
  lemma SettledAtMostOnce(steps: seq<Step>, p: nat)
    requires Run(INIT, steps).Some? && p < |Run(INIT, steps).value.t.payments|
    requires !Run(INIT, steps).value.t.payments[p].cash
    ensures var s := Run(INIT, steps).value;
            && (s.t.payments[p].status in {Settled, Refunded} <==> exists d :: SettledBy(s, d, p))
            && (forall d1, d2 :: SettledBy(s, d1, p) && SettledBy(s, d2, p) ==> d1 == d2)
  {
    RunSettlesOnce(steps);
    var s := Run(INIT, steps).value;
    assert IsPaidTransfer(s.t.payments, p) <==> s.t.payments[p].status in {Settled, Refunded};
  }

  /** A delivery changes a booking only in the transaction that settles its payment. */
  lemma OnlyTheWinnerMovesTheBooking(s: State, d: nat, s': State)
    requires Apply(s, WebhookWrite(d)) == Some(s') && s'.t.accounts != s.t.accounts
    ensures var p := s.deliveries[d].payment;
            && p < |s.t.payments| && s.t.payments[p].status == Open && s'.t.payments[p].status == Settled
            && SettledBy(s', d, p)
            && forall b :: 0 <= b < |s.t.accounts| && b != s.t.payments[p].booking ==> s'.t.accounts[b] == s.t.accounts[b]
  {
  }

  // ----- The sweeper -----------------------------------------------------------------------------------------

  /** A sweep changes a booking only from DEPOSIT_PENDING to CANCELLED, whatever its list says. */
  lemma SweepOnlyCancelsPending(s: State, w: nat, b: nat, s': State, other: nat)
    requires Apply(s, SweepWrite(w, b)) == Some(s') && other < |s.t.accounts|
    ensures |s'.t.accounts| == |s.t.accounts| && s'.t.payments == s.t.payments
    ensures s'.t.accounts[other]
         == if other == b && s.t.accounts[b].status == DepositPending then s.t.accounts[b].(status := Cancelled)
            else s.t.accounts[other]
  {
  }

  /** Past the point where a sweep could touch it. */
  predicate HasMovedOn(a: Account) {
    a.status != Pending && a.status != DepositPending
  }

  /** About to write DEPOSIT_PENDING, without a look at the status: a confirmation that asks for a deposit. */
  predicate AsksDeposit(intent: Intent, b: nat) {
    intent.SetConfirmed? && intent.terms.Some? && intent.booking == b
  }

  predicate PutsBack(s: State, step: Step, b: nat) {
    step.Write? && step.handler in s.handlers && AsksDeposit(s.handlers[step.handler].intent, b)
  }

  /** Of all steps, exactly the write of a confirmation that asks for a deposit puts back a booking that has moved on. */
  lemma PutBackExactly(s: State, step: Step, s': State, b: nat)
    requires Apply(s, step) == Some(s') && b < |s.t.accounts| && HasMovedOn(s.t.accounts[b])
    ensures b < |s'.t.accounts|
    ensures HasMovedOn(s'.t.accounts[b]) <==> !PutsBack(s, step, b)
  {
    hide Decide, Superseded, RefundedAll;
  }

  ghost predicate NothingPutsBack(s: State, steps: seq<Step>, b: nat) {
    steps != [] ==>
      && NothingPutsBack(s, steps[..|steps| - 1], b)
      && (var before := Run(s, steps[..|steps| - 1]); before.Some? ==> !PutsBack(before.value, steps[|steps| - 1], b))
  }

  lemma {:induction false} MovedOnForGood(s: State, more: seq<Step>, b: nat)
    requires Run(s, more).Some? && b < |s.t.accounts| && HasMovedOn(s.t.accounts[b]) && NothingPutsBack(s, more, b)
    ensures b < |Run(s, more).value.t.accounts| && HasMovedOn(Run(s, more).value.t.accounts[b])
  {
    hide Apply, PutsBack, HasMovedOn;
    if more != [] {
      var n := |more| - 1;
      MovedOnForGood(s, more[..n], b);
      PutBackExactly(Run(s, more[..n]).value, more[n], Run(s, more).value, b);
    }
  }

  /**
   * A booking that has left DEPOSIT_PENDING is left alone by every sweep, however long ago the sweep read its list and
   * whatever has happened to the booking since, while no confirmation that asks for a deposit is written over it.
   */
  lemma {:induction false} SweepSparesSettled(s: State, more: seq<Step>, b: nat, w: nat, other: nat)
    requires b < |s.t.accounts| && HasMovedOn(s.t.accounts[b]) && NothingPutsBack(s, more, b)
    requires Run(s, more + [SweepWrite(w, other)]).Some?
    ensures Run(s, more).Some? && b < |Run(s, more).value.t.accounts|
    ensures Run(s, more + [SweepWrite(w, other)]).value.t.accounts[b] == Run(s, more).value.t.accounts[b]
  {
    hide Apply, PutsBack;
    var step := SweepWrite(w, other);
    assert (more + [step])[..|more|] == more;
    MovedOnForGood(s, more, b);
    SweepOnlyCancelsPending(Run(s, more).value, w, other, Run(s, more + [step]).value, b);
  }

  // ----- One live payment per kind ---------------------------------------------------------------------------

  predicate IsLive(payment: Payment) {
    payment.status in {Open, Settled}
  }

  /** No booking has two open or settled payments of one kind. */
  ghost predicate OneLivePerKind(payments: seq<Payment>) {
    forall p, q :: 0 <= p < q < |payments| && IsLive(payments[p]) && IsLive(payments[q]) ==>
      (payments[p].booking, payments[p].kind) != (payments[q].booking, payments[q].kind)
  }

  predicate IsCash(request: Request) {
    request.PayAtStore? && request.cash
  }

  /** No handler takes cash. */
  predicate TransferOnly(step: Step) {
    step.Read? ==> !IsCash(step.request)
  }

  ghost predicate NoCashInFlight(s: State) {
    forall h :: h in s.handlers ==> !s.handlers[h].intent.TakeCash?
  }

  ghost predicate NoneLive(payments: seq<Payment>, b: nat, kind: Kind) {
    forall p :: 0 <= p < |payments| && IsLive(payments[p]) ==> (payments[p].booking, payments[p].kind) != (b, kind)
  }

  /** A payment that a step inserts, open or paid in cash, finds no live one of its booking and kind. */
  ghost predicate AddsFirst(s: State, step: Step) {
    step.Write? && step.handler in s.handlers ==>
      var intent := s.handlers[step.handler].intent;
      intent.InsertTransfer? || intent.TakeCash? ==> NoneLive(s.t.payments, intent.booking, intent.kind)
  }

  ghost predicate AddsFirstRun(s: State, steps: seq<Step>) {
    steps != [] ==>
      && AddsFirstRun(s, steps[..|steps| - 1])
      && (var before := Run(s, steps[..|steps| - 1]); before.Some? ==> AddsFirst(before.value, steps[|steps| - 1]))
  }

  /** At every point of a run. */
  ghost predicate SingleThroughout(s: State, steps: seq<Step>) {
    && (Run(s, steps).Some? ==> OneLivePerKind(Run(s, steps).value.t.payments))
    && (steps != [] ==> SingleThroughout(s, steps[..|steps| - 1]))
  }

  lemma AppendIsSingleExactly(payments: seq<Payment>, payment: Payment)
    requires OneLivePerKind(payments) && IsLive(payment)
    ensures OneLivePerKind(payments + [payment]) <==> NoneLive(payments, payment.booking, payment.kind)
  {
    var more := payments + [payment];
    assert more[|payments|] == payment;
    assert forall p :: 0 <= p < |payments| ==> more[p] == payments[p];
  }

  /** Rows that were not live do not come to life. */
  ghost predicate NoneRevived(payments: seq<Payment>, payments': seq<Payment>) {
    && |payments'| == |payments|
    && forall p :: 0 <= p < |payments| ==>
         payments'[p] == payments[p].(status := payments'[p].status) && (IsLive(payments'[p]) ==> IsLive(payments[p]))
  }

  /** On any read, stale or not: a step keeps payments single exactly when what it inserts is the first of its kind. */
  lemma StepIsSingleExactly(s: State, step: Step, s': State)
    requires OneLivePerKind(s.t.payments) && Apply(s, step) == Some(s')
    ensures OneLivePerKind(s'.t.payments) <==> AddsFirst(s, step)
  {
    hide ConfirmedAccount, Decide, NoneLive;
    if step.Write? && (s.handlers[step.handler].intent.InsertTransfer? || s.handlers[step.handler].intent.TakeCash?) {
      var intent := s.handlers[step.handler].intent;
      hide OneLivePerKind;
      AppendIsSingleExactly(s.t.payments, Payment(intent.booking, intent.kind, intent.amount,
                                                  if intent.TakeCash? then Settled else Open, intent.TakeCash?));
    } else {
      assert NoneRevived(s.t.payments, s'.t.payments);
    }
  }

  /** Every run, with or without cash, keeps payments single throughout exactly when each insertion finds no live one. */
  lemma {:induction false} SingleExactly(steps: seq<Step>)
    requires Run(INIT, steps).Some?
    ensures SingleThroughout(INIT, steps) <==> AddsFirstRun(INIT, steps)
  {
    hide Apply, AddsFirst;
    if steps != [] {
      var n := |steps| - 1;
      SingleExactly(steps[..n]);
      if SingleThroughout(INIT, steps[..n]) {
        StepIsSingleExactly(Run(INIT, steps[..n]).value, steps[n], Run(INIT, steps).value);
      }
    }
  }

  /** When the older open ones have given way and none is settled, a new transfer is the only live payment of its kind. */
  lemma CurrentInsertIsFirst(t: Tables, flight: Flight)
    requires IsCurrent(t, flight) && flight.intent.InsertTransfer?
    ensures NoneLive(t.payments, flight.intent.booking, flight.intent.kind)
  {
    var Flight(request, intent) := flight;
    assert !HasSettled(t.payments, intent.booking, intent.kind);
    forall p | 0 <= p < |t.payments| && IsLive(t.payments[p])
      ensures (t.payments[p].booking, t.payments[p].kind) != (intent.booking, intent.kind)
    {
      assert !IsPayment(t.payments, p, intent.booking, intent.kind, Settled);
      assert !IsPayment(t.payments, p, intent.booking, intent.kind, Open);
    }
  }

  lemma StepIsSingle(s: State, step: Step, s': State)
    requires OneLivePerKind(s.t.payments) && NoCashInFlight(s) && TransferOnly(step) && Current(s, step)
    requires Apply(s, step) == Some(s')
    ensures OneLivePerKind(s'.t.payments) && NoCashInFlight(s')
  {
    StepIsSingleExactly(s, step, s');
    hide OneLivePerKind, NoneLive, Perform, Deliver, Charge, IsCurrent, DepositTerms, IsCancellable;
    if step.Write? && s.handlers[step.handler].intent.InsertTransfer? {
      CurrentInsertIsFirst(s.t, s.handlers[step.handler]);
    }
  }

  /**
   * In runs without cash, in which no handler writes on a read that no longer holds: each booking has at most one
   * payment of each kind that is open or settled.
   */
  lemma {:induction false} OnePaymentPerKind(steps: seq<Step>)
    requires Run(INIT, steps).Some? && CurrentRun(INIT, steps) && forall i :: 0 <= i < |steps| ==> TransferOnly(steps[i])
    ensures OneLivePerKind(Run(INIT, steps).value.t.payments) && NoCashInFlight(Run(INIT, steps).value)
  {
    hide Apply, Current;
    if steps != [] {
      var n := |steps| - 1;
      OnePaymentPerKind(steps[..n]);
      StepIsSingle(Run(INIT, steps[..n]).value, steps[n], Run(INIT, steps).value);
    }
  }

  // ----- Statuses are backed by money ------------------------------------------------------------------------

  ghost predicate Backed(a: Account, payments: seq<Payment>, b: nat) {
    && (a.status in {Paid, Completed} ==> HasSettled(payments, b, Full))
    && (a.status == DepositPaid ==> HasSettled(payments, b, Deposit))
  }

  ghost predicate AllBacked(t: Tables) {
    forall b :: 0 <= b < |t.accounts| ==> Backed(t.accounts[b], t.payments, b)
  }

  /** Settled payments of this booking stay settled. */
  ghost predicate KeepsSettled(payments: seq<Payment>, payments': seq<Payment>, b: nat) {
    && |payments| <= |payments'|
    && forall p :: 0 <= p < |payments| && payments[p].booking == b && payments[p].status == Settled ==> payments'[p] == payments[p]
  }

  lemma SettledCarriesOver(payments: seq<Payment>, payments': seq<Payment>, b: nat, kind: Kind)
    requires KeepsSettled(payments, payments', b) && HasSettled(payments, b, kind)
    ensures HasSettled(payments', b, kind)
  {
    var p :| 0 <= p < |payments| && IsPayment(payments, p, b, kind, Settled);
    assert IsPayment(payments', p, b, kind, Settled);
  }

  /** An account whose status did not change, or moved on from Paid to Completed, stays backed. */
  lemma BackedCarriesOver(a: Account, a': Account, payments: seq<Payment>, payments': seq<Payment>, b: nat)
    requires Backed(a, payments, b) && KeepsSettled(payments, payments', b)
    requires || a'.status == a.status || (a.status == Paid && a'.status == Completed)
             || a'.status in {Pending, Confirmed, DepositPending, Cancelled, Rejected}
    ensures Backed(a', payments', b)
  {
    hide HasSettled, KeepsSettled;
    if a.status in {Paid, Completed} {
      SettledCarriesOver(payments, payments', b, Full);
    } else if a.status == DepositPaid {
      SettledCarriesOver(payments, payments', b, Deposit);
    }
  }

  /** A settled payment backs the status it leads to; any other status was backed before. */
  lemma PaymentBacks(a: Account, payments: seq<Payment>, payments': seq<Payment>, b: nat, p: nat)
    requires Backed(a, payments, b) && KeepsSettled(payments, payments', b)
    requires p < |payments'| && payments'[p].booking == b && payments'[p].status == Settled
    ensures Backed(a.(status := AfterPayment(a.status, payments'[p].kind)), payments', b)
  {
    hide KeepsSettled;
    assert IsPayment(payments', p, b, payments'[p].kind, Settled);
    BackedCarriesOver(a, a, payments, payments', b);
  }

  lemma CancelledIsBacked(a: Account, payments: seq<Payment>, b: nat)
    requires a.status == Cancelled
    ensures Backed(a, payments, b)
  {
  }

  /** A completion finds a settled full payment. */
  predicate IsPaidFor(t: Tables, intent: Intent) {
    intent.SetCompleted? ==> HasSettled(t.payments, intent.booking, Full)
  }

  /** Statuses can be trusted while they are backed: a PAID booking has its payment. */
  lemma PaidIsPaidFor(t: Tables, intent: Intent)
    requires AllBacked(t) && intent.booking < |t.accounts|
    requires intent.SetCompleted? ==> t.accounts[intent.booking].status == Paid
    ensures IsPaidFor(t, intent)
  {
    assert Backed(t.accounts[intent.booking], t.payments, intent.booking);
  }

  lemma CompletionIsBackedExactly(t: Tables, b: nat)
    requires AllBacked(t) && b < |t.accounts|
    ensures AllBacked(Perform(t, SetCompleted(b))) <==> HasSettled(t.payments, b, Full)
  {
    hide HasSettled;
    var t' := Perform(t, SetCompleted(b));
    forall other | 0 <= other < |t.accounts| && other != b ensures Backed(t'.accounts[other], t'.payments, other) {
      assert Backed(t.accounts[other], t.payments, other);
    }
    assert AllBacked(t') ==> Backed(t'.accounts[b], t'.payments, b);
  }

  /** A write other than a completion keeps every booking backed, whatever it had read. */
  lemma PerformIsBacked(t: Tables, intent: Intent)
    requires AllBacked(t) && intent.booking < |t.accounts| && !intent.SetCompleted?
    ensures AllBacked(Perform(t, intent))
  {
    hide Backed, Cash;
    var b := intent.booking;
    var t' := Perform(t, intent);
    if intent.TakeCash? {
      CashIsBacked(t, b, intent.kind, intent.amount);
    } else {
      forall other | 0 <= other < |t.accounts| ensures Backed(t'.accounts[other], t'.payments, other) {
        if intent.SetCancelled? && other == b {
          CancelledIsBacked(t'.accounts[b], t'.payments, b);
        } else {
          assert KeepsSettled(t.payments, t'.payments, other);
          BackedCarriesOver(t.accounts[other], t'.accounts[other], t.payments, t'.payments, other);
        }
      }
    }
  }

  lemma WriteIsBackedExactly(t: Tables, intent: Intent)
    requires AllBacked(t) && intent.booking < |t.accounts|
    ensures AllBacked(Perform(t, intent)) <==> IsPaidFor(t, intent)
  {
    hide AllBacked, Perform;
    if intent.SetCompleted? {
      CompletionIsBackedExactly(t, intent.booking);
    } else {
      PerformIsBacked(t, intent);
    }
  }

  lemma CashIsBacked(t: Tables, b: nat, kind: Kind, amount: real)
    requires AllBacked(t) && b < |t.accounts|
    ensures AllBacked(Cash(t, b, kind, amount))
  {
    hide Backed;
    var t' := Cash(t, b, kind, amount);
    forall other | 0 <= other < |t.accounts| ensures Backed(t'.accounts[other], t'.payments, other) {
      assert KeepsSettled(t.payments, t'.payments, other);
      if other == b {
        PaymentBacks(t.accounts[b], t.payments, t'.payments, b, |t.payments|);
      } else {
        BackedCarriesOver(t.accounts[other], t'.accounts[other], t.payments, t'.payments, other);
      }
    }
  }

  lemma DeliverIsBacked(t: Tables, p: nat, enough: bool)
    requires AllBacked(t)
    ensures AllBacked(Deliver(t, p, enough).0)
  {
    hide Backed;
    if IsOpen(t, p) {
      var t' := Deliver(t, p, enough).0;
      forall b | 0 <= b < |t.accounts| ensures Backed(t'.accounts[b], t'.payments, b) {
        assert KeepsSettled(t.payments, t'.payments, b);
        if enough && b == t.payments[p].booking {
          PaymentBacks(t.accounts[b], t.payments, t'.payments, b, p);
        } else {
          BackedCarriesOver(t.accounts[b], t'.accounts[b], t.payments, t'.payments, b);
        }
      }
    }
  }

  lemma AccountsAreBacked(t: Tables, accounts: seq<Account>)
    requires AllBacked(t) && |t.accounts| <= |accounts|
    requires forall b :: 0 <= b < |t.accounts| ==> accounts[b].status == t.accounts[b].status || accounts[b].status == Cancelled
    requires forall b :: |t.accounts| <= b < |accounts| ==> accounts[b].status in {Pending, Confirmed}
    ensures AllBacked(t.(accounts := accounts))
  {
    forall b | 0 <= b < |accounts| ensures Backed(accounts[b], t.payments, b) {
      assert b < |t.accounts| ==> Backed(t.accounts[b], t.payments, b);
    }
  }

  /** A completion that a step writes finds a settled full payment. */
  predicate CompletesPaidFor(s: State, step: Step) {
    step.Write? && step.handler in s.handlers ==> IsPaidFor(s.t, s.handlers[step.handler].intent)
  }

  ghost predicate CompletesPaidForRun(s: State, steps: seq<Step>) {
    steps != [] ==>
      && CompletesPaidForRun(s, steps[..|steps| - 1])
      && (var before := Run(s, steps[..|steps| - 1]); before.Some? ==> CompletesPaidFor(before.value, steps[|steps| - 1]))
  }

  /** At every point of a run. */
  ghost predicate BackedThroughout(s: State, steps: seq<Step>) {
    && (Run(s, steps).Some? ==> AllBacked(Run(s, steps).value.t))
    && (steps != [] ==> BackedThroughout(s, steps[..|steps| - 1]))
  }

  lemma StepIsBackedExactly(s: State, step: Step, s': State)
    requires AllBacked(s.t) && Apply(s, step) == Some(s')
    ensures AllBacked(s'.t) <==> CompletesPaidFor(s, step)
  {
    hide AllBacked, Deliver, Perform, Decide, IsPaidFor;
    if step.WebhookWrite? {
      DeliverIsBacked(s.t, s.deliveries[step.delivery].payment, s.deliveries[step.delivery].enough);
    } else if step.Write? {
      WriteIsBackedExactly(s.t, s.handlers[step.handler].intent);
    } else if step.Book? || step.ForgetCustomer? || step.SweepWrite? {
      AccountsAreBacked(s.t, s'.t.accounts);
    }
  }

  /**
   * For every run, whatever is cancelled, refunded or settled late, and on however old reads: statuses are backed by
   * settled payments at every point exactly when every completion finds a settled full payment.
   */
  lemma {:induction false} BackedExactly(steps: seq<Step>)
    requires Run(INIT, steps).Some?
    ensures BackedThroughout(INIT, steps) <==> CompletesPaidForRun(INIT, steps)
  {
    hide Apply, AllBacked, CompletesPaidFor;
    if steps != [] {
      var n := |steps| - 1;
      BackedExactly(steps[..n]);
      if BackedThroughout(INIT, steps[..n]) {
        StepIsBackedExactly(Run(INIT, steps[..n]).value, steps[n], Run(INIT, steps).value);
      }
    } else {
      assert AllBacked(INIT.t) by { NothingToBack(); }
    }
  }

  lemma NothingToBack()
    ensures AllBacked(INIT.t)
  {
  }

  /** Hypothesis: a booking that is written COMPLETED is still PAID. */
  predicate CompletesPaid(s: State, step: Step) {
    step.Write? && step.handler in s.handlers ==>
      var intent := s.handlers[step.handler].intent;
      intent.SetCompleted? && intent.booking < |s.t.accounts| ==> s.t.accounts[intent.booking].status == Paid
  }

  ghost predicate CompletesPaidRun(s: State, steps: seq<Step>) {
    steps != [] ==>
      && CompletesPaidRun(s, steps[..|steps| - 1])
      && (var before := Run(s, steps[..|steps| - 1]); before.Some? ==> CompletesPaid(before.value, steps[|steps| - 1]))
  }

  lemma StepIsBacked(s: State, step: Step, s': State)
    requires AllBacked(s.t) && CompletesPaid(s, step) && Apply(s, step) == Some(s')
    ensures AllBacked(s'.t)
  {
    hide AllBacked, Deliver, Perform, Decide, IsPaidFor;
    StepIsBackedExactly(s, step, s');
    if step.Write? {
      PaidIsPaidFor(s.t, s.handlers[step.handler].intent);
    }
  }

  /**
   * In every interleaving, whatever is cancelled, refunded or settled late, and on however old a read the handlers
   * write, except that a completion must find its booking still PAID: a booking that counts as paid has a settled full
   * payment, and one that counts as deposited has a settled deposit.
   */
  lemma {:induction false} StatusIsBackedByMoney(steps: seq<Step>)
    requires Run(INIT, steps).Some? && CompletesPaidRun(INIT, steps)
    ensures var t := Run(INIT, steps).value.t;
            forall b :: 0 <= b < |t.accounts| ==>
              && (t.accounts[b].status in {Paid, Completed} ==> HasSettled(t.payments, b, Full))
              && (t.accounts[b].status == DepositPaid ==> HasSettled(t.payments, b, Deposit))
  {
    hide Apply, HasSettled, CompletesPaid;
    if steps != [] {
      var n := |steps| - 1;
      StatusIsBackedByMoney(steps[..n]);
      StepIsBacked(Run(INIT, steps[..n]).value, steps[n], Run(INIT, steps).value);
      assert AllBacked(Run(INIT, steps).value.t);
    }
  }
}
