/**
 * The payment and booking handlers as they run with nothing in between, each proved to do to the tables what its read
 * and writes do in the ledger, and to keep every status backed by money.
 */
module PaymentsService {
  import opened Common
  import opened Ledger
  import opened LedgerSafety
  import opened SettlementSafety
  import opened LedgerRows

  // ----- What undisturbed handlers keep ----------------------------------------------------------------------

  lemma HandlingKeepsBacked(t: Tables, request: Request)
    requires Linked(t) && AllBacked(t)
    ensures var done := HandleAlone(t, request); done.Some? ==> Linked(done.value) && AllBacked(done.value)
  {
    hide AllBacked, Perform, Charge, DepositTerms, IsCancellable;
    if Decide(t, request).Some? {
      var intent := Decide(t, request).value;
      PerformTouchesOne(t, intent);
      PaidIsPaidFor(t, intent);
      WriteIsBackedExactly(t, intent);
      if Rest(intent).Some? {
        PerformTouchesOne(Perform(t, intent), Rest(intent).value);
        WriteIsBackedExactly(Perform(t, intent), Rest(intent).value);
      }
    }
  }

  lemma DeliveryKeepsBacked(t: Tables, p: nat, enough: bool)
    requires Linked(t) && AllBacked(t)
    ensures Linked(Deliver(t, p, enough).0) && AllBacked(Deliver(t, p, enough).0)
  {
    hide AllBacked;
    if IsOpen(t, p) {
      DeliverTouchesOne(t, p, enough);
    }
    DeliverIsBacked(t, p, enough);
  }

  // ----- A sweep with nothing in between ---------------------------------------------------------------------

  /** What a whole sweep does to one booking. A booking whose customer is gone is passed over. */
  function Swept(a: Account, now: Instant): Account {
    if IsExpired(a, now) && a.customer.Some? then a.(status := Cancelled) else a
  }

  function SweptAll(accounts: seq<Account>, now: Instant): (r: seq<Account>)
    ensures |r| == |accounts|
  {
    seq(|accounts|, i requires 0 <= i < |accounts| => Swept(accounts[i], now))
  }

  function CancelAll(accounts: seq<Account>, listed: set<nat>): (r: seq<Account>)
    ensures |r| == |accounts|
  {
    seq(|accounts|, i requires 0 <= i < |accounts| =>
      if i in listed && accounts[i].status == DepositPending then accounts[i].(status := Cancelled) else accounts[i])
  }

  /** The writes of a sweep, in some order, until its list is empty. */
  lemma {:induction false} WriteAll(s: State, w: nat) returns (steps: seq<Step>)
    requires w in s.sweeps
    ensures Run(s, steps) == Some(s.(t := s.t.(accounts := CancelAll(s.t.accounts, s.sweeps[w])), sweeps := s.sweeps[w := {}]))
    decreases s.sweeps[w]
  {
    if s.sweeps[w] == {} {
      steps := [];
      assert CancelAll(s.t.accounts, {}) == s.t.accounts && s.sweeps[w := {}] == s.sweeps;
    } else {
      var b :| b in s.sweeps[w];
      var next := Apply(s, SweepWrite(w, b)).value;
      assert CancelAll(next.t.accounts, next.sweeps[w]) == CancelAll(s.t.accounts, s.sweeps[w]);
      var rest := WriteAll(next, w);
      assert next.sweeps[w := {}] == s.sweeps[w := {}];
      hide Apply, CancelAll;
      RunOne(s, [], SweepWrite(w, b));
      RunJoin(s, [] + [SweepWrite(w, b)], rest);
      steps := [] + [SweepWrite(w, b)] + rest;
    }
  }

  /** A sweep that nothing disturbs is a run of the ledger: it cancels every expired booking that has a customer. */
  lemma SweepAlone(s: State, w: nat, now: Instant) returns (steps: seq<Step>)
    requires w !in s.sweeps
    ensures Run(s, steps) == Some(s.(t := s.t.(accounts := SweptAll(s.t.accounts, now)), sweeps := s.sweeps[w := {}]))
  {
    var listed := Apply(s, SweepRead(w, now)).value;
    assert CancelAll(s.t.accounts, ExpiredAt(s.t.accounts, now)) == SweptAll(s.t.accounts, now);
    var rest := WriteAll(listed, w);
    assert listed.sweeps[w := {}] == s.sweeps[w := {}];
    hide Apply, CancelAll, SweptAll;
    RunOne(s, [], SweepRead(w, now));
    RunJoin(s, [] + [SweepRead(w, now)], rest);
    steps := [] + [SweepRead(w, now)] + rest;
  }

  /** The expired bookings, in table order. */
  function ExpiredList(accounts: seq<Account>, now: Instant): (r: seq<nat>)
    ensures forall b: nat :: b in r <==> b < |accounts| && IsExpired(accounts[b], now)
  {
    if accounts == [] then []
    else
      var n := |accounts| - 1;
      ExpiredList(accounts[..n], now) + (if IsExpired(accounts[n], now) then [n] else [])
  }

  // ----- The service -----------------------------------------------------------------------------------------

  class PaymentsService {
    var accounts: seq<Account>
    var payments: seq<Payment>

    /** Every payment belongs to a booking, and every status is backed by money. */
    ghost predicate Valid()
      reads this
    {
      Linked(Tables()) && AllBacked(Tables())
    }

    constructor ()
      ensures Valid() && Tables() == INIT.t
    {
      accounts, payments := [], [];
    }

    function Tables(): Tables
      reads this
    {
      Ledger.Tables.Tables(accounts, payments)
    }

    /** Gives up older open payments of one kind, row by row. */
    method FailOlder(b: nat, kind: Kind)
      modifies this`payments
      ensures payments == Superseded(old(payments), b, kind)
    {
      var i := 0;
      while i < |payments|
        invariant 0 <= i <= |payments| == |old(payments)|
        invariant forall k :: 0 <= k < i ==> payments[k] == Superseded(old(payments), b, kind)[k]
        invariant forall k :: i <= k < |payments| ==> payments[k] == old(payments)[k]
      {
        if payments[i].booking == b && payments[i].kind == kind && payments[i].status == Open {
          payments := payments[i := payments[i].(status := Failed)];
        }
        i := i + 1;
      }
    }

    /** Marks the settled payments of a booking refunded, row by row. */
    method RefundPaid(b: nat)
      modifies this`payments
      ensures payments == RefundedAll(old(payments), b)
    {
      var i := 0;
      while i < |payments|
        invariant 0 <= i <= |payments| == |old(payments)|
        invariant forall k :: 0 <= k < i ==> payments[k] == RefundedAll(old(payments), b)[k]
        invariant forall k :: i <= k < |payments| ==> payments[k] == old(payments)[k]
      {
        if payments[i].booking == b && payments[i].status == Settled {
          payments := payments[i := payments[i].(status := Refunded)];
        }
        i := i + 1;
      }
    }

    /** What is to be paid, and as what. */
    method ChargeAmount(b: nat, actualType: Kind) returns (r: Result<(Kind, real), PayError>)
      requires b < |accounts|
      ensures r == Charge(Tables(), b, actualType)
      ensures forall kind, amount :: r == Ok((kind, amount)) <==> IsOwed(Tables(), b, actualType, kind, amount)
      ensures forall error :: r == Err(error) <==> IsNotOwed(Tables(), b, actualType, error)
    {
      ChargeIs(Tables(), b, actualType);
      var booking := accounts[b];
      var isDepositPending := booking.status == DepositPending;
      if !(isDepositPending || booking.status == Confirmed || booking.status == DepositPaid) {
        return Err(NotPayable);
      }
      if isDepositPending {
        if HasSettled(payments, b, actualType) {
          return Err(AlreadyPaid);
        }
        if actualType == Full {
          return Ok((Full, Total(booking)));
        }
        return if booking.deposit.None? then Err(NothingLeft) else Ok((Deposit, booking.deposit.value));
      }
      if HasSettled(payments, b, Full) {
        return Err(AlreadyPaid);
      }
      var remaining := Total(booking);
      if booking.status == DepositPaid && booking.deposit.Some? {
        remaining := remaining - booking.deposit.value;
      }
      if remaining <= 0.0 {
        return Err(NothingLeft);
      }
      r := Ok((Full, remaining));
    }

    /** Older open payments of the kind give way, then the new one is inserted. */
    method CreateTransfer(b: nat, kind: Kind, amount: real) returns (payment: nat)
      requires b < |accounts|
      modifies this`payments
      ensures Tables() == Perform(Perform(old(Tables()), Supersede(b, kind, amount)), InsertTransfer(b, kind, amount))
      ensures payment == |old(payments)| && IsTransferAdded(old(Tables()), Tables(), b, kind, amount)
    {
      FailOlder(b, kind);
      payment := |payments|;
      payments := payments + [Payment(b, kind, amount, Open, false)];
    }

    /** `createSepayPayment`: the customer asks for a transfer code. */
    method CreateSepayPayment(b: nat, user: UserId, chosen: Option<Kind>) returns (r: Result<nat, PayError>)
      requires Valid()
      modifies this`payments
      ensures Valid()
      ensures var done := HandleAlone(old(Tables()), PayOnline(b, user, chosen));
              if done.Some? then r == Ok(|old(payments)|) && Tables() == done.value else r.Err? && Tables() == old(Tables())
      ensures r == Err(NotFound) <==> b >= |old(accounts)| || old(accounts)[b].customer != Some(user)
      ensures r.Err? && r.error != NotFound ==> IsNotOwed(old(Tables()), b, GetOrElse(chosen, Deposit), r.error)
      ensures r.Ok? ==> r.value < |payments|
      ensures r.Ok? ==>
                var payment := payments[r.value];
                && IsOwed(old(Tables()), b, GetOrElse(chosen, Deposit), payment.kind, payment.amount)
                && IsTransferAdded(old(Tables()), Tables(), b, payment.kind, payment.amount)
    {
      HandlingKeepsBacked(Tables(), PayOnline(b, user, chosen));
      if b >= |accounts| || accounts[b].customer != Some(user) {
        return Err(NotFound);
      }
      var charge := ChargeAmount(b, GetOrElse(chosen, Deposit));
      if charge.Err? {
        return Err(charge.error);
      }
      var payment := CreateTransfer(b, charge.value.0, charge.value.1);
      r := Ok(payment);
    }

    method RecordCash(b: nat, kind: Kind, amount: real) returns (payment: nat)
      requires b < |accounts|
      modifies this
      ensures Tables() == Cash(old(Tables()), b, kind, amount) && payment == |old(payments)|
      ensures IsCashTaken(old(Tables()), Tables(), b, kind, amount)
    {
      payment := |payments|;
      payments := payments + [Payment(b, kind, amount, Settled, true)];
      MoveOn(b, kind);
    }

    /** A deposit always writes DEPOSIT_PAID; a full payment writes PAID only over a payable status. */
    method MoveOn(b: nat, kind: Kind)
      requires b < |accounts|
      modifies this`accounts
      ensures accounts == WithStatus(old(accounts), b, AfterPayment(old(accounts)[b].status, kind))
      ensures MovedOn(old(Tables()), Tables(), b, kind)
    {
      if kind == Deposit {
        accounts := accounts[b := accounts[b].(status := DepositPaid)];
      } else if accounts[b].status == Confirmed || accounts[b].status == DepositPending || accounts[b].status == DepositPaid {
        accounts := accounts[b := accounts[b].(status := Paid)];
      }
    }

    /** `recordStorePayment`: cash is settled at once, a transfer gets a code. */
    method RecordStorePayment(b: nat, cash: bool, chosen: Option<Kind>) returns (r: Result<nat, PayError>)
      requires Valid()
      modifies this
      ensures Valid()
      ensures var done := HandleAlone(old(Tables()), PayAtStore(b, cash, chosen));
              if done.Some? then r == Ok(|old(payments)|) && Tables() == done.value else r.Err? && Tables() == old(Tables())
      ensures r == Err(NotFound) <==> b >= |old(accounts)|
      ensures r.Err? && r.error != NotFound ==> IsNotOwed(old(Tables()), b, GetOrElse(chosen, Full), r.error)
      ensures r.Ok? ==> r.value < |payments|
      ensures r.Ok? ==>
                var payment := payments[r.value];
                && IsOwed(old(Tables()), b, GetOrElse(chosen, Full), payment.kind, payment.amount)
                && if cash then IsCashTaken(old(Tables()), Tables(), b, payment.kind, payment.amount)
                   else IsTransferAdded(old(Tables()), Tables(), b, payment.kind, payment.amount)
    {
      HandlingKeepsBacked(Tables(), PayAtStore(b, cash, chosen));
      if b >= |accounts| {
        return Err(NotFound);
      }
      var charge := ChargeAmount(b, GetOrElse(chosen, Full));
      if charge.Err? {
        return Err(charge.error);
      }
      var payment: nat;
      if cash {
        payment := RecordCash(b, charge.value.0, charge.value.1);
      } else {
        payment := CreateTransfer(b, charge.value.0, charge.value.1);
      }
      r := Ok(payment);
    }

    /** `updatePaymentSuccess`: a guarded update, and only its winner touches the booking. */
    method UpdatePaymentSuccess(p: nat) returns (updated: bool)
      requires Valid()
      requires p < |payments|
      modifies this
      ensures Valid()
      ensures updated <==> IsOpen(old(Tables()), p)
      ensures Tables() == if updated then Settle(old(Tables()), p) else old(Tables())
      ensures if old(payments)[p].status == Open then updated && IsSettled(old(Tables()), Tables(), p)
              else !updated && Tables() == old(Tables())
    {
      DeliveryKeepsBacked(Tables(), p, true);
      if payments[p].status != Open {
        return false;
      }
      payments := payments[p := payments[p].(status := Settled)];
      MoveOn(payments[p].booking, payments[p].kind);
      updated := true;
    }

    /** The write half of `handleSepayWebhook`, for a payment that its read half found open. */
    method FinishDelivery(p: nat, enough: bool) returns (outcome: Outcome)
      requires Valid()
      requires p < |payments|
      modifies this
      ensures Valid()
      ensures (Tables(), outcome) == Deliver(old(Tables()), p, enough)
      ensures if old(payments)[p].status != Open then outcome == Ignored && Tables() == old(Tables())
              else if enough then outcome == Success && IsSettled(old(Tables()), Tables(), p)
              else outcome == TooLittle && IsFailed(old(Tables()), Tables(), p)
    {
      DeliveryKeepsBacked(Tables(), p, enough);
      if !enough {
        if payments[p].status != Open {
          return Ignored;
        }
        payments := payments[p := payments[p].(status := Failed)];
        return TooLittle;
      }
      var updated := UpdatePaymentSuccess(p);
      outcome := if updated then Success else Ignored;
    }

    /** `handleSepayWebhook` for the payment whose code the transfer names, with nothing between its halves. */
    method HandleSepayWebhook(p: nat, amount: real) returns (outcome: Outcome)
      requires Valid()
      modifies this
      ensures Valid()
      ensures if p >= |old(payments)| || old(payments)[p].status != Open then outcome == Ignored && Tables() == old(Tables())
              else if amount >= old(payments)[p].amount then outcome == Success && IsSettled(old(Tables()), Tables(), p)
              else outcome == TooLittle && IsFailed(old(Tables()), Tables(), p)
    {
      if p >= |payments| || payments[p].status != Open {
        return Ignored;
      }
      outcome := FinishDelivery(p, !(amount < payments[p].amount));
    }

    /** `confirm`: with a deposit to pay when the store asks for one and the start is far enough away. */
    method ConfirmBooking(b: nat, now: Instant, depositPercent: nat, configActive: bool) returns (ok: bool)
      requires Valid()
      modifies this`accounts
      ensures Valid()
      ensures var done := HandleAlone(old(Tables()), Confirm(b, now, depositPercent, configActive));
              ok == done.Some? && Tables() == if ok then done.value else old(Tables())
      ensures ok <==> b < |old(accounts)| && old(accounts)[b].status == Pending
      ensures !ok ==> accounts == old(accounts)
      ensures ok ==>
                && OthersKept(old(Tables()), Tables(), b)
                && IsConfirmed(old(accounts)[b], old(accounts)[b], accounts[b], now, depositPercent, configActive)
    {
      HandlingKeepsBacked(Tables(), Confirm(b, now, depositPercent, configActive));
      if b >= |accounts| || accounts[b].status != Pending {
        return false;
      }
      var updated := accounts[b].(status := Confirmed);
      if depositPercent > 0 && configActive {
        DeadlineIs(now, accounts[b].scheduledAt);
        var deadline := DepositDeadline(now, accounts[b].scheduledAt);
        if deadline.Some? {
          DepositIs(accounts[b], depositPercent);
          var amount := DepositFor(accounts[b], depositPercent);
          updated := accounts[b].(status := DepositPending, deposit := Some(amount), deadline := deadline);
        }
      }
      accounts := accounts[b := updated];
      ok := true;
    }

    method RejectBooking(b: nat) returns (ok: bool)
      requires Valid()
      modifies this`accounts
      ensures Valid()
      ensures var done := HandleAlone(old(Tables()), Reject(b));
              ok == done.Some? && Tables() == if ok then done.value else old(Tables())
      ensures ok <==> b < |old(accounts)| && old(accounts)[b].status == Pending
      ensures if ok then NowHas(old(Tables()), Tables(), b, Rejected) else accounts == old(accounts)
    {
      HandlingKeepsBacked(Tables(), Reject(b));
      if b >= |accounts| || accounts[b].status != Pending {
        return false;
      }
      accounts := accounts[b := accounts[b].(status := Rejected)];
      ok := true;
    }

    method CompleteBooking(b: nat) returns (ok: bool)
      requires Valid()
      modifies this`accounts
      ensures Valid()
      ensures var done := HandleAlone(old(Tables()), Complete(b));
              ok == done.Some? && Tables() == if ok then done.value else old(Tables())
      ensures ok <==> b < |old(accounts)| && old(accounts)[b].status == Paid
      ensures if ok then NowHas(old(Tables()), Tables(), b, Completed) else accounts == old(accounts)
    {
      HandlingKeepsBacked(Tables(), Complete(b));
      if b >= |accounts| || accounts[b].status != Paid {
        return false;
      }
      accounts := accounts[b := accounts[b].(status := Completed)];
      ok := true;
    }

    /** `cancel`: the booking and its refunds in one transaction. */
    method CancelBooking(b: nat, user: UserId, now: Instant, cancelBeforeHours: nat) returns (ok: bool)
      requires Valid()
      modifies this
      ensures Valid()
      ensures var done := HandleAlone(old(Tables()), Cancel(b, user, now, cancelBeforeHours));
              ok == done.Some? && Tables() == if ok then done.value else old(Tables())
      ensures ok <==> b < |old(accounts)| && MayCancel(old(accounts)[b], user, now, cancelBeforeHours)
      ensures if ok then IsCancelled(old(Tables()), Tables(), b) else Tables() == old(Tables())
    {
      HandlingKeepsBacked(Tables(), Cancel(b, user, now, cancelBeforeHours));
      if b >= |accounts| || !IsCancellable(accounts[b], user, now, cancelBeforeHours) {
        return false;
      }
      accounts := accounts[b := accounts[b].(status := Cancelled)];
      RefundPaid(b);
      ok := true;
    }

    /** `cancelExpiredDeposits` with nothing in between: read the expired bookings, then cancel them one by one. */
    method CancelExpiredDeposits(now: Instant)
      requires Valid()
      modifies this`accounts
      ensures Valid() && accounts == SweptAll(old(accounts), now)
      ensures |accounts| == |old(accounts)|
      ensures forall b :: 0 <= b < |accounts| ==>
                accounts[b] == if HasLapsed(old(accounts)[b], now) then old(accounts)[b].(status := Cancelled) else old(accounts)[b]
    {
      var bookings := ExpiredList(accounts, now);
      var read := accounts;
      for i := 0 to |bookings|
        invariant |accounts| == |read|
        invariant forall b :: 0 <= b < |read| ==> accounts[b] == if b in bookings[..i] then Swept(read[b], now) else read[b]
      {
        var b := bookings[i];
        assert b in bookings;
        if read[b].customer.Some? && accounts[b].status == DepositPending {
          accounts := accounts[b := accounts[b].(status := Cancelled)];
        }
      }
      assert bookings[..|bookings|] == bookings;
      assert accounts == SweptAll(read, now);
      AccountsAreBacked(old(Tables()), accounts);
    }
  }
}
