/** Conservation of money: what a booking's settled payments add up to, by its status. */
module LedgerSafety {
  import opened Common
  import opened Ledger

  // ----- Sums ------------------------------------------------------------------------------------------------

  function Contribution(payment: Payment, b: nat): real {
    if payment.booking == b && payment.status == Settled then payment.amount else 0.0
  }

  /** The settled payments of a booking, added up. */
  function PaidSum(payments: seq<Payment>, b: nat): real {
    if payments == [] then 0.0
    else PaidSum(payments[..|payments| - 1], b) + Contribution(payments[|payments| - 1], b)
  }

  lemma {:induction false} SumByParts(payments: seq<Payment>, payments': seq<Payment>, b: nat)
    requires |payments'| == |payments|
    requires forall p :: 0 <= p < |payments| ==> Contribution(payments'[p], b) == Contribution(payments[p], b)
    ensures PaidSum(payments', b) == PaidSum(payments, b)
  {
    if payments != [] {
      SumByParts(payments[..|payments| - 1], payments'[..|payments| - 1], b);
    }
  }

  lemma {:induction false} SumIsZero(payments: seq<Payment>, b: nat)
    requires forall p :: 0 <= p < |payments| ==> Contribution(payments[p], b) == 0.0
    ensures PaidSum(payments, b) == 0.0
  {
    if payments != [] {
      SumIsZero(payments[..|payments| - 1], b);
    }
  }

  lemma SumAppend(payments: seq<Payment>, payment: Payment, b: nat)
    ensures PaidSum(payments + [payment], b) == PaidSum(payments, b) + Contribution(payment, b)
  {
    assert (payments + [payment])[..|payments|] == payments;
  }

  lemma {:induction false} SumUpdate(payments: seq<Payment>, p: nat, payment: Payment, b: nat)
    requires p < |payments|
    ensures PaidSum(payments[p := payment], b) == PaidSum(payments, b) - Contribution(payments[p], b) + Contribution(payment, b)
  {
    var n := |payments| - 1;
    if p < n {
      SumUpdate(payments[..n], p, payment, b);
      assert payments[p := payment][..n] == payments[..n][p := payment];
    } else {
      assert payments[p := payment][..n] == payments[..n];
    }
  }

  // ----- Frames ----------------------------------------------------------------------------------------------

  /** The payments of booking b are the same in both tables. */
  ghost predicate SameFor(payments: seq<Payment>, payments': seq<Payment>, b: nat) {
    && |payments| <= |payments'|
    && (forall p :: 0 <= p < |payments| && (payments[p].booking == b || payments'[p].booking == b) ==> payments'[p] == payments[p])
    && (forall p :: |payments| <= p < |payments'| ==> payments'[p].booking != b)
  }

  lemma {:induction false} SumFrame(payments: seq<Payment>, payments': seq<Payment>, b: nat)
    requires SameFor(payments, payments', b)
    ensures PaidSum(payments', b) == PaidSum(payments, b)
    decreases |payments'|
  {
    if |payments'| > |payments| {
      SumFrame(payments, payments'[..|payments'| - 1], b);
    } else {
      SumByParts(payments, payments', b);
    }
  }

  /** Every payment belongs to a booking. */
  ghost predicate Linked(t: Tables) {
    forall p :: 0 <= p < |t.payments| ==> t.payments[p].booking < |t.accounts|
  }

  /** The bookings whose payments a handler leaves as they are, and their accounts with them. */
  ghost predicate OnlyTouches(t: Tables, t': Tables, b: nat) {
    && |t'.accounts| == |t.accounts|
    && (forall other :: 0 <= other < |t.accounts| && other != b ==> t'.accounts[other] == t.accounts[other])
    && (forall other :: other != b ==> SameFor(t.payments, t'.payments, other))
    && (Linked(t) ==> Linked(t'))
  }

  lemma PerformTouchesOne(t: Tables, intent: Intent)
    requires intent.booking < |t.accounts|
    ensures OnlyTouches(t, Perform(t, intent), intent.booking)
  {
    hide ConfirmedAccount, AfterPayment;
  }

  lemma DeliverTouchesOne(t: Tables, p: nat, enough: bool)
    requires IsOpen(t, p)
    ensures OnlyTouches(t, Deliver(t, p, enough).0, t.payments[p].booking)
  {
  }

  // ----- Conservation ----------------------------------------------------------------------------------------

  /** What an open payment of this booking may be for. */
  predicate OpenOk(a: Account, payment: Payment) {
    match a.status
    case Confirmed => payment.kind.Full? && payment.amount == Total(a)
    case DepositPending =>
      if payment.kind.Full? then payment.amount == Total(a) else a.deposit == Some(payment.amount)
    case DepositPaid => payment.kind.Full? && a.deposit.Some? && payment.amount == Total(a) - a.deposit.value
    case Cancelled => payment.kind.Deposit? ==> a.deposit == Some(payment.amount)
    case _ => false
  }

  /** What a booking of this status has been paid in all; None where nothing is promised. */
  function Due(a: Account): Option<real> {
    match a.status
    case Confirmed | DepositPending => Some(0.0)
    case DepositPaid => a.deposit
    case Paid | Completed => Some(Total(a))
    case _ => None
  }

  ghost predicate Conserved(a: Account, payments: seq<Payment>, b: nat) {
    && (forall p :: 0 <= p < |payments| && payments[p].booking == b && payments[p].status == Open ==> OpenOk(a, payments[p]))
    && (Due(a).Some? ==> PaidSum(payments, b) == Due(a).value)
    && (a.status in {DepositPending, DepositPaid} ==> a.deposit.Some?)
    && (a.status in {Pending, Rejected} ==> forall p :: 0 <= p < |payments| ==> payments[p].booking != b)
    && (forall p :: 0 <= p < |payments| && a.status == Cancelled && IsPayment(payments, p, b, Deposit, Open) ==>
          PaidSum(payments, b) == 0.0)
  }

  ghost predicate AllConserved(t: Tables) {
    Linked(t) && forall b :: 0 <= b < |t.accounts| ==> Conserved(t.accounts[b], t.payments, b)
  }

  /** Hypothesis: while a payment settles, no other payment of its booking is open. */
  ghost predicate SettlesAlone(s: State, step: Step) {
    match step
    case WebhookWrite(d) =>
      d in s.deliveries && s.deliveries[d].Holds? && s.deliveries[d].enough && IsOpen(s.t, s.deliveries[d].payment) ==>
        NoneOpenBut(s.t.payments, s.t.payments[s.deliveries[d].payment].booking, Some(s.deliveries[d].payment))
    case Write(h) =>
      h in s.handlers && s.handlers[h].intent.TakeCash? ==> NoneOpenBut(s.t.payments, s.handlers[h].intent.booking, None)
    case _ => true
  }

  ghost predicate NoneOpenBut(payments: seq<Payment>, b: nat, but: Option<nat>) {
    forall p :: 0 <= p < |payments| && payments[p].booking == b && payments[p].status == Open ==> but == Some(p)
  }

  ghost predicate SettlesAloneRun(s: State, steps: seq<Step>) {
    steps != [] ==>
      && SettlesAloneRun(s, steps[..|steps| - 1])
      && (var before := Run(s, steps[..|steps| - 1]); before.Some? ==> SettlesAlone(before.value, steps[|steps| - 1]))
  }

  lemma ConservedFrame(a: Account, payments: seq<Payment>, payments': seq<Payment>, b: nat)
    requires Conserved(a, payments, b) && SameFor(payments, payments', b)
    ensures Conserved(a, payments', b)
  {
    SumFrame(payments, payments', b);
    forall p | 0 <= p < |payments'| && IsPayment(payments', p, b, Deposit, Open) ensures IsPayment(payments, p, b, Deposit, Open) {
    }
  }

  lemma OthersConserved(t: Tables, t': Tables, b: nat)
    requires AllConserved(t) && OnlyTouches(t, t', b)
    requires b < |t'.accounts| ==> Conserved(t'.accounts[b], t'.payments, b)
    ensures AllConserved(t')
  {
    hide Conserved, SameFor;
    forall other | 0 <= other < |t'.accounts| ensures Conserved(t'.accounts[other], t'.payments, other) {
      if other != b {
        ConservedFrame(t.accounts[other], t.payments, t'.payments, other);
      }
    }
  }

  /** Giving up open payments moves no money. */
  lemma SupersedeConserves(t: Tables, b: nat, kind: Kind)
    requires b < |t.accounts| && Conserved(t.accounts[b], t.payments, b)
    ensures Conserved(t.accounts[b], Superseded(t.payments, b, kind), b)
  {
    var older := Superseded(t.payments, b, kind);
    SumByParts(t.payments, older, b);
    forall p | 0 <= p < |older| && older[p].booking == b && older[p].status == Open
      ensures older[p] == t.payments[p] && OpenOk(t.accounts[b], older[p])
    {
    }
    forall p | 0 <= p < |older| && IsPayment(older, p, b, Deposit, Open) ensures IsPayment(t.payments, p, b, Deposit, Open) {
    }
  }

  lemma TransferConserves(t: Tables, b: nat, chosen: Kind)
    requires b < |t.accounts| && Conserved(t.accounts[b], t.payments, b) && Charge(t, b, chosen).Ok?
    ensures var charge := Charge(t, b, chosen).value;
            Conserved(t.accounts[b], t.payments + [Payment(b, charge.0, charge.1, Open, false)], b)
  {
    var charge := Charge(t, b, chosen).value;
    var payment := Payment(b, charge.0, charge.1, Open, false);
    SumAppend(t.payments, payment, b);
    assert OpenOk(t.accounts[b], payment);
  }

  lemma CashConserves(t: Tables, b: nat, chosen: Kind)
    requires b < |t.accounts| && Conserved(t.accounts[b], t.payments, b) && Charge(t, b, chosen).Ok?
    requires NoneOpenBut(t.payments, b, None)
    ensures var charge := Charge(t, b, chosen).value;
            var t' := Cash(t, b, charge.0, charge.1);
            Conserved(t'.accounts[b], t'.payments, b)
  {
    var charge := Charge(t, b, chosen).value;
    var t' := Cash(t, b, charge.0, charge.1);
    SumAppend(t.payments, Payment(b, charge.0, charge.1, Settled, true), b);
    forall p | 0 <= p < |t'.payments| && t'.payments[p].booking == b ensures t'.payments[p].status != Open {
      assert p < |t.payments| ==> t'.payments[p] == t.payments[p];
    }
    assert PaidSum(t'.payments, b) == Due(t'.accounts[b]).value;
  }

  lemma SettleConserves(t: Tables, p: nat)
    requires IsOpen(t, p) && NoneOpenBut(t.payments, t.payments[p].booking, Some(p))
    requires Conserved(t.accounts[t.payments[p].booking], t.payments, t.payments[p].booking)
    ensures var b := t.payments[p].booking;
            Conserved(Settle(t, p).accounts[b], Settle(t, p).payments, b)
  {
    var b := t.payments[p].booking;
    SumUpdate(t.payments, p, t.payments[p].(status := Settled), b);
    assert OpenOk(t.accounts[b], t.payments[p]);
    assert t.accounts[b].status == Cancelled && t.payments[p].kind == Deposit ==> IsPayment(t.payments, p, b, Deposit, Open);
  }

  lemma FailConserves(t: Tables, p: nat)
    requires IsOpen(t, p) && Conserved(t.accounts[t.payments[p].booking], t.payments, t.payments[p].booking)
    ensures var b := t.payments[p].booking;
            Conserved(Fail(t, p).accounts[b], Fail(t, p).payments, b)
  {
    var b := t.payments[p].booking;
    SumUpdate(t.payments, p, t.payments[p].(status := Failed), b);
    forall q | 0 <= q < |t.payments| && IsPayment(Fail(t, p).payments, q, b, Deposit, Open)
      ensures IsPayment(t.payments, q, b, Deposit, Open)
    {
    }
  }

  lemma CancelConserves(t: Tables, b: nat)
    requires b < |t.accounts| && Conserved(t.accounts[b], t.payments, b)
    ensures Conserved(t.accounts[b].(status := Cancelled), RefundedAll(t.payments, b), b)
  {
    SumIsZero(RefundedAll(t.payments, b), b);
    forall p | 0 <= p < |t.payments| && RefundedAll(t.payments, b)[p].booking == b && RefundedAll(t.payments, b)[p].status == Open
      ensures OpenOk(t.accounts[b].(status := Cancelled), t.payments[p])
    {
      assert OpenOk(t.accounts[b], t.payments[p]);
    }
  }

  /** An unpaid deposit cancelled by a sweep: nothing was paid, and what is open stays payable. */
  lemma LapseConserves(a: Account, payments: seq<Payment>, b: nat)
    requires a.status == DepositPending && Conserved(a, payments, b)
    ensures Conserved(a.(status := Cancelled), payments, b)
  {
  }

  lemma ConfirmConserves(a: Account, payments: seq<Payment>, b: nat, terms: Option<(real, Instant)>)
    requires a.status == Pending && Conserved(a, payments, b)
    ensures Conserved(ConfirmedAccount(a, terms), payments, b)
  {
    SumIsZero(payments, b);
  }

  /** What the handler's read is worth at its write. */
  lemma CurrentCharge(t: Tables, flight: Flight)
    requires IsCurrent(t, flight) && (flight.intent.InsertTransfer? || flight.intent.TakeCash?)
    ensures flight.intent.booking < |t.accounts|
    ensures exists chosen :: Charge(t, flight.intent.booking, chosen) == Ok((flight.intent.kind, flight.intent.amount))
  {
    hide Charge;
    var chosen := GetOrElse(flight.request.chosen, if flight.request.PayOnline? then Deposit else Full);
    assert Charge(t, flight.intent.booking, chosen) == Ok((flight.intent.kind, flight.intent.amount));
  }

  lemma PaymentConserves(t: Tables, flight: Flight)
    requires AllConserved(t) && IsCurrent(t, flight) && (flight.intent.InsertTransfer? || flight.intent.TakeCash?)
    requires flight.intent.TakeCash? ==> NoneOpenBut(t.payments, flight.intent.booking, None)
    ensures flight.intent.booking < |t.accounts|
    ensures var b := flight.intent.booking;
            var t' := Perform(t, flight.intent);
            |t'.accounts| == |t.accounts| && Conserved(t'.accounts[b], t'.payments, b)
  {
    hide Charge, Conserved, NoneOpenBut;
    CurrentCharge(t, flight);
    var b := flight.intent.booking;
    var chosen :| Charge(t, b, chosen) == Ok((flight.intent.kind, flight.intent.amount));
    if flight.intent.TakeCash? {
      CashConserves(t, b, chosen);
    } else {
      TransferConserves(t, b, chosen);
    }
  }

  /** The write of a handler whose read still holds. */
  lemma WriteConserves(t: Tables, flight: Flight)
    requires AllConserved(t) && IsCurrent(t, flight) && flight.intent.booking < |t.accounts|
    requires flight.intent.TakeCash? ==> NoneOpenBut(t.payments, flight.intent.booking, None)
    ensures AllConserved(Perform(t, flight.intent))
  {
    hide Charge, ConfirmedAccount, NoneOpenBut, DepositTerms, IsCancellable;
    var b := flight.intent.booking;
    var a := t.accounts[b];
    PerformTouchesOne(t, flight.intent);
    assert Conserved(a, t.payments, b);
    if flight.intent.InsertTransfer? || flight.intent.TakeCash? {
      PaymentConserves(t, flight);
    } else if flight.intent.Supersede? {
      SupersedeConserves(t, b, flight.intent.kind);
    } else if flight.intent.SetConfirmed? {
      ConfirmConserves(a, t.payments, b, flight.intent.terms);
    } else if flight.intent.SetCancelled? {
      CancelConserves(t, b);
    }
    OthersConserved(t, Perform(t, flight.intent), b);
  }

  lemma DeliverConserves(s: State, d: nat)
    requires AllConserved(s.t) && SettlesAlone(s, WebhookWrite(d)) && d in s.deliveries && s.deliveries[d].Holds?
    ensures AllConserved(Deliver(s.t, s.deliveries[d].payment, s.deliveries[d].enough).0)
  {
    hide Conserved, Settle, Fail;
    var p := s.deliveries[d].payment;
    if IsOpen(s.t, p) {
      var b := s.t.payments[p].booking;
      var t' := Deliver(s.t, p, s.deliveries[d].enough).0;
      DeliverTouchesOne(s.t, p, s.deliveries[d].enough);
      if s.deliveries[d].enough {
        SettleConserves(s.t, p);
      } else {
        FailConserves(s.t, p);
      }
      OthersConserved(s.t, t', b);
    }
  }

  /** A sweep's write changes one account at most, and no payment. */
  lemma SweepConserves(t: Tables, b: nat)
    requires AllConserved(t)
    ensures AllConserved(t.(accounts := CancelPending(t.accounts, b)))
  {
    hide Conserved;
    var accounts := CancelPending(t.accounts, b);
    forall other | 0 <= other < |accounts| ensures Conserved(accounts[other], t.payments, other) {
      if accounts[other] != t.accounts[other] {
        LapseConserves(t.accounts[other], t.payments, other);
      }
    }
  }

  /** Who the customer is does not matter to the money. */
  lemma ForgetConserves(t: Tables, b: nat)
    requires AllConserved(t) && b < |t.accounts|
    ensures AllConserved(t.(accounts := t.accounts[b := t.accounts[b].(customer := None)]))
  {
    var accounts := t.accounts[b := t.accounts[b].(customer := None)];
    forall other | 0 <= other < |accounts| ensures Conserved(accounts[other], t.payments, other) {
      assert Conserved(t.accounts[other], t.payments, other);
    }
  }

  lemma BookConserves(t: Tables, a: Account)
    requires AllConserved(t) && a.status in {Pending, Confirmed}
    ensures AllConserved(t.(accounts := t.accounts + [a]))
  {
    var n := |t.accounts|;
    SumIsZero(t.payments, n);
    assert Conserved(a, t.payments, n);
    var accounts := t.accounts + [a];
    forall b | 0 <= b < |accounts| ensures Conserved(accounts[b], t.payments, b) {
      assert b < n ==> Conserved(t.accounts[b], t.payments, b);
    }
  }

  lemma StepConserves(s: State, step: Step, s': State)
    requires AllConserved(s.t) && SettlesAlone(s, step) && Current(s, step) && Apply(s, step) == Some(s')
    ensures AllConserved(s'.t)
  {
    hide AllConserved, Deliver, Perform, NoneOpenBut, IsCurrent, Decide, CancelPending;
    if step.Book? {
      BookConserves(s.t, NewAccount(step.customer, step.scheduledAt, step.totalPrice, step.finalPrice, step.autoConfirm));
    } else if step.ForgetCustomer? {
      ForgetConserves(s.t, step.booking);
    } else if step.Write? {
      WriteConserves(s.t, s.handlers[step.handler]);
    } else if step.WebhookWrite? {
      DeliverConserves(s, step.delivery);
    } else if step.SweepWrite? {
      SweepConserves(s.t, step.booking);
    }
  }

  lemma {:induction false} RunConserves(steps: seq<Step>)
    requires SettlesAloneRun(INIT, steps) && CurrentRun(INIT, steps) && Run(INIT, steps).Some?
    ensures AllConserved(Run(INIT, steps).value.t)
  {
    hide Apply, SettlesAlone, Current, AllConserved;
    if steps != [] {
      var n := |steps| - 1;
      RunConserves(steps[..n]);
      StepConserves(Run(INIT, steps[..n]).value, steps[n], Run(INIT, steps).value);
    } else {
      assert AllConserved(INIT.t) by { NothingOwed(); }
    }
  }

  lemma NothingOwed()
    ensures AllConserved(INIT.t)
  {
  }

  /**
   * Money is conserved: in every interleaving in which no handler writes on a read that no longer holds and no payment
   * settles beside another open one, a booking's settled payments add up to nothing, to its deposit, or to its full
   * charge, as its status says.
   */
  lemma {:induction false} MoneyIsConserved(steps: seq<Step>, b: nat)
    requires SettlesAloneRun(INIT, steps) && CurrentRun(INIT, steps)
    requires Run(INIT, steps).Some? && b < |Run(INIT, steps).value.t.accounts|
    ensures var t := Run(INIT, steps).value.t;
            var a := t.accounts[b];
            && (a.status in {Confirmed, DepositPending} ==> PaidSum(t.payments, b) == 0.0)
            && (a.status == DepositPaid ==> a.deposit == Some(PaidSum(t.payments, b)))
            && (a.status in {Paid, Completed} ==> PaidSum(t.payments, b) == Total(a))
  {
    hide Apply;
    RunConserves(steps);
    assert Conserved(Run(INIT, steps).value.t.accounts[b], Run(INIT, steps).value.t.payments, b);
  }

  /** The write of a cancellation leaves nothing of its booking settled, and every other booking's money as it was. */
  lemma CancelRefundsEverything(s: State, h: nat, s': State, b: nat)
    requires Apply(s, Write(h)) == Some(s') && s.handlers[h].intent.SetCancelled?
    ensures PaidSum(s'.t.payments, b) == if b == s.handlers[h].intent.booking then 0.0 else PaidSum(s.t.payments, b)
  {
    if b == s.handlers[h].intent.booking {
      SumIsZero(s'.t.payments, b);
    } else {
      SumByParts(s.t.payments, s'.t.payments, b);
    }
  }

  /** The deposit is the store's share of the charge, rounded up to a whole unit and no further. */
  lemma DepositRoundsUp(a: Account, depositPercent: nat)
    ensures var share := Total(a) * depositPercent as real / 100.0;
            var deposit := DepositFor(a, depositPercent);
            deposit.Floor as real == deposit && share <= deposit < share + 1.0
  {
    var share := Total(a) * depositPercent as real / 100.0;
    assert ((-share).Floor as real) <= -share < ((-share).Floor as real) + 1.0;
  }
}
