/**
 * Where the payment code is weaker than it looks, and exactly how: which steps revive a booking, what settling beside
 * another payment or writing on an old read costs, and which deposited bookings can still be completed.
 */
module PaymentWitnesses {
  import opened Common
  import opened Ledger
  import opened LedgerSafety

  // ----- Revival ---------------------------------------------------------------------------------------------

  /** A delivery about to settle an open deposit of this booking. */
  predicate SettlesDeposit(s: State, step: Step, b: nat) {
    && step.WebhookWrite? && step.delivery in s.deliveries
    && var delivery := s.deliveries[step.delivery];
       && delivery.Holds? && delivery.enough && IsOpen(s.t, delivery.payment)
       && s.t.payments[delivery.payment].booking == b && s.t.payments[delivery.payment].kind == Deposit
  }

  /** A handler about to write, on a read that is gone, a confirmation or a deposit taken in cash. */
  predicate WritesUnguarded(s: State, step: Step, b: nat) {
    && step.Write? && step.handler in s.handlers
    && var intent := s.handlers[step.handler].intent;
       intent.booking == b && (intent.SetConfirmed? || (intent.TakeCash? && intent.kind == Deposit))
  }

  /**
   * Of all steps, exactly three make a booking that occupies no staff occupy staff again: the settlement of an open
   * deposit, and the writes of a confirmation or of a cash deposit whose handler read the booking before.
   */
  lemma OnlyTheseWritesRevive(s: State, step: Step, s': State, b: nat)
    requires Apply(s, step) == Some(s') && b < |s.t.accounts| && !IsActive(s.t.accounts[b].status)
    ensures b < |s'.t.accounts|
    ensures IsActive(s'.t.accounts[b].status) <==> SettlesDeposit(s, step, b) || WritesUnguarded(s, step, b)
  {
    hide Superseded, RefundedAll, Decide;
  }

  /** While handlers write only on reads that still hold, late deposits are the one way left. */
  lemma CurrentWritesDoNotRevive(s: State, step: Step, s': State, b: nat)
    requires Apply(s, step) == Some(s') && b < |s.t.accounts| && !IsActive(s.t.accounts[b].status) && Current(s, step)
    ensures !WritesUnguarded(s, step, b)
    ensures b < |s'.t.accounts|
    ensures IsActive(s'.t.accounts[b].status) <==> SettlesDeposit(s, step, b)
  {
    hide Superseded, RefundedAll, HasSettled;
    OnlyTheseWritesRevive(s, step, s', b);
  }

  function StatusAfter(s: State, steps: seq<Step>, b: nat): Option<BookingStatus> {
    if Run(s, steps).Some? && b < |Run(s, steps).value.t.accounts| then Some(Run(s, steps).value.t.accounts[b].status)
    else None
  }

  /** Any two handlers of a booking, the second of which is a cancellation that runs between the first's read and write. */
  lemma CancelInBetween(s: State, b: nat, request: Request, user: UserId, first: nat, second: nat) returns (steps: seq<Step>)
    requires request.booking == b && Decide(s.t, request).Some? && Decide(s.t, Cancel(b, user, s.t.accounts[b].scheduledAt, 0)).Some?
    requires first !in s.handlers && second !in s.handlers && first != second
    ensures Run(s, steps).Some?
    ensures Run(s, steps).value.t == Perform(s.t, SetCancelled(b))
    ensures Run(s, steps).value.handlers == s.handlers[first := Flight(request, Decide(s.t, request).value)]
  {
    var cancel := Cancel(b, user, s.t.accounts[b].scheduledAt, 0);
    hide Decide, Perform;
    CancelIsWritten(s.t, b, user, s.t.accounts[b].scheduledAt);
    RunTwo(s, Read(first, request), Read(second, cancel));
    RunOne(s, [Read(first, request), Read(second, cancel)], Write(second));
    steps := [Read(first, request), Read(second, cancel)] + [Write(second)];
  }

  lemma CancelIsWritten(t: Tables, b: nat, user: UserId, now: Instant)
    requires Decide(t, Cancel(b, user, now, 0)).Some?
    ensures b < |t.accounts| && Decide(t, Cancel(b, user, now, 0)) == Some(SetCancelled(b))
  {
  }

  /** A booking cancelled between the read and the write of its confirmation is confirmed after all, whatever the state. */
  lemma StaleConfirmRevives(s: State, b: nat, user: UserId, now: Instant, first: nat, second: nat) returns (steps: seq<Step>)
    requires b < |s.t.accounts| && s.t.accounts[b].status == Pending && s.t.accounts[b].customer == Some(user)
    requires first !in s.handlers && second !in s.handlers && first != second
    ensures StatusAfter(s, steps, b) == Some(Cancelled)
    ensures StatusAfter(s, steps + [Write(first)], b) == Some(Confirmed)
  {
    hide DepositDeadline;
    steps := CancelInBetween(s, b, Confirm(b, now, 0, false), user, first, second);
    hide Apply;
    RunOne(s, steps, Write(first));
    WriteConfirmed(Run(s, steps).value, first, b);
  }

  lemma WriteConfirmed(s: State, h: nat, b: nat)
    requires h in s.handlers && s.handlers[h].intent == SetConfirmed(b, None) && b < |s.t.accounts|
    ensures Apply(s, Write(h)).Some? && Apply(s, Write(h)).value.t.accounts[b].status == Confirmed
    ensures |Apply(s, Write(h)).value.t.accounts| == |s.t.accounts|
  {
  }

  /** A booking cancelled while its deposit is being taken in cash counts as deposited after all, whatever the state. */
  lemma StaleCashRevives(s: State, b: nat, user: UserId, first: nat, second: nat) returns (steps: seq<Step>)
    requires b < |s.t.accounts| && s.t.accounts[b].status == DepositPending && s.t.accounts[b].customer == Some(user)
    requires s.t.accounts[b].deposit.Some? && !HasSettled(s.t.payments, b, Deposit)
    requires first !in s.handlers && second !in s.handlers && first != second
    ensures StatusAfter(s, steps, b) == Some(Cancelled)
    ensures StatusAfter(s, steps + [Write(first)], b) == Some(DepositPaid)
  {
    hide HasSettled;
    var amount := s.t.accounts[b].deposit.value;
    assert Decide(s.t, PayAtStore(b, true, Some(Deposit))) == Some(TakeCash(b, Deposit, amount));
    steps := CancelInBetween(s, b, PayAtStore(b, true, Some(Deposit)), user, first, second);
    hide Apply;
    RunOne(s, steps, Write(first));
    WriteCashDeposit(Run(s, steps).value, first, b, amount);
  }

  lemma WriteCashDeposit(s: State, h: nat, b: nat, amount: real)
    requires h in s.handlers && s.handlers[h].intent == TakeCash(b, Deposit, amount) && b < |s.t.accounts|
    ensures Apply(s, Write(h)).Some? && Apply(s, Write(h)).value.t.accounts[b].status == DepositPaid
    ensures |Apply(s, Write(h)).value.t.accounts| == |s.t.accounts|
  {
  }

  /** Any open deposit, whatever has become of its booking, is one delivery away from reviving it. */
  lemma OpenDepositRevives(s: State, p: nat, d: nat)
    requires IsOpen(s.t, p) && s.t.payments[p].kind == Deposit && d !in s.deliveries
    ensures var steps := [WebhookRead(d, p, s.t.payments[p].amount), WebhookWrite(d)];
            StatusAfter(s, steps, s.t.payments[p].booking) == Some(DepositPaid)
  {
    RunTwo(s, WebhookRead(d, p, s.t.payments[p].amount), WebhookWrite(d));
  }

  // ----- Runs from the empty tables --------------------------------------------------------------------------

  const PRICE := 100.0
  const HALF := Payment(0, Deposit, 50.0, Open, false)
  const WHOLE := Payment(0, Full, PRICE, Open, false)

  function TheAccount(status: BookingStatus, deposit: real): Account {
    Account(Some(1), status, 10 * HOUR_MS, PRICE, PRICE, Some(deposit), Some(2 * HOUR_MS))
  }

  function With(accounts: seq<Account>, payments: seq<Payment>): State {
    State(Tables(accounts, payments), map[], map[], map[])
  }

  /** A handler with nothing in between, as a run. */
  lemma Handled(s: State, request: Request, h: nat) returns (steps: seq<Step>)
    requires HandleAlone(s.t, request).Some? && h !in s.handlers
    ensures Run(s, steps) == Some(s.(t := HandleAlone(s.t, request).value))
    ensures forall i :: 0 <= i < |steps| ==> steps[i].Read? || steps[i].Write?
  {
    hide Decide, Perform;
    var intent := Decide(s.t, request).value;
    DecisionIsLocal(s.t, request);
    RunTwo(s, Read(h, request), Write(h));
    steps := [Read(h, request), Write(h)];
    if Rest(intent).Some? {
      RunOne(s, steps, Write(h));
      steps := steps + [Write(h)];
    }
    assert Run(s, steps).value.handlers == s.handlers;
  }

  lemma DecisionIsLocal(t: Tables, request: Request)
    requires Decide(t, request).Some?
    ensures Decide(t, request).value.booking == request.booking < |t.accounts|
    ensures |Perform(t, Decide(t, request).value).accounts| == |t.accounts|
  {
    hide Charge, DepositTerms, ConfirmedAccount, Superseded, RefundedAll;
  }

  /** A run continued by a handler that nothing disturbs. */
  lemma Continue(s: State, steps: seq<Step>, request: Request) returns (more: seq<Step>)
    requires Run(s, steps).Some? && Run(s, steps).value.handlers == map[]
    requires HandleAlone(Run(s, steps).value.t, request).Some?
    ensures Run(s, more) == Some(Run(s, steps).value.(t := HandleAlone(Run(s, steps).value.t, request).value))
  {
    hide Apply, HandleAlone;
    var handled := Handled(Run(s, steps).value, request, 0);
    RunJoin(s, steps, handled);
    more := steps + handled;
  }

  lemma AskedTerms(depositPercent: nat)
    requires 0 < depositPercent <= 100
    ensures var a := NewAccount(Some(1), 10 * HOUR_MS, PRICE, PRICE, false);
            && DepositTerms(a, 0, depositPercent, true) == Some((depositPercent as real, 2 * HOUR_MS))
  {
    var a := NewAccount(Some(1), 10 * HOUR_MS, PRICE, PRICE, false);
    assert Total(a) * depositPercent as real / 100.0 == depositPercent as real;
    var asked: int := depositPercent;
    assert -(depositPercent as real) == (-asked) as real;
  }

  /** Booked at 100 and confirmed with a deposit of some percent. */
  lemma AskedForDeposit(depositPercent: nat) returns (steps: seq<Step>)
    requires 0 < depositPercent <= 100
    ensures Run(INIT, steps) == Some(With([TheAccount(DepositPending, depositPercent as real)], []))
  {
    var a := NewAccount(Some(1), 10 * HOUR_MS, PRICE, PRICE, false);
    var book := Book(Some(1), 10 * HOUR_MS, PRICE, PRICE, false);
    RunOne(INIT, [], book);
    assert [] + [book] == [book];
    assert [] + [a] == [a];
    assert Run(INIT, [book]) == Some(With([a], []));
    AskedTerms(depositPercent);
    var confirmed := TheAccount(DepositPending, depositPercent as real);
    assert [a][0 := confirmed] == [confirmed];
    hide DepositTerms;
    assert HandleAlone(Tables([a], []), Confirm(0, 0, depositPercent, true)) == Some(Tables([confirmed], []));
    hide HandleAlone;
    steps := Continue(INIT, [book], Confirm(0, 0, depositPercent, true));
  }

  lemma AskedOnline(accounts: seq<Account>, payments: seq<Payment>, kind: Kind)
    requires accounts == [TheAccount(DepositPending, 50.0)] && (payments == [] || (payments == [HALF] && kind == Full))
    ensures HandleAlone(Tables(accounts, payments), PayOnline(0, 1, Some(kind)))
         == Some(Tables(accounts, payments + [if kind == Full then WHOLE else HALF]))
  {
    assert Superseded(payments, 0, kind) == payments;
  }

  /** An open deposit of 50 on a booking that still waits for it. */
  lemma DepositIsOpen() returns (steps: seq<Step>)
    ensures Run(INIT, steps) == Some(With([TheAccount(DepositPending, 50.0)], [HALF]))
  {
    steps := AskedForDeposit(50);
    AskedOnline([TheAccount(DepositPending, 50.0)], [], Deposit);
    hide HandleAlone;
    steps := Continue(INIT, steps, PayOnline(0, 1, Some(Deposit)));
    assert [] + [HALF] == [HALF];
  }

  lemma CancelledTables()
    ensures HandleAlone(Tables([TheAccount(DepositPending, 50.0)], [HALF]), Cancel(0, 1, 0, 0))
         == Some(Tables([TheAccount(Cancelled, 50.0)], [HALF]))
  {
    assert RefundedAll([HALF], 0) == [HALF];
    assert [TheAccount(DepositPending, 50.0)][0 := TheAccount(Cancelled, 50.0)] == [TheAccount(Cancelled, 50.0)];
  }

  /** From the empty tables: a deposit is asked for, the booking is cancelled, and the deposit then arrives. */
  lemma LateDepositRevives() returns (cancelled: seq<Step>, settled: seq<Step>)
    ensures StatusAfter(INIT, cancelled, 0) == Some(Cancelled)
    ensures StatusAfter(INIT, cancelled + settled, 0) == Some(DepositPaid)
    ensures |settled| == 2 && Run(INIT, cancelled + settled[..1]).Some?
    ensures SettlesDeposit(Run(INIT, cancelled + settled[..1]).value, settled[1], 0)
  {
    var asked := DepositIsOpen();
    CancelledTables();
    hide HandleAlone;
    cancelled := Continue(INIT, asked, Cancel(0, 1, 0, 0));
    var s := With([TheAccount(Cancelled, 50.0)], [HALF]);
    settled := [WebhookRead(0, 0, 50.0), WebhookWrite(0)];
    OpenDepositRevives(s, 0, 0);
    RunTwo(s, WebhookRead(0, 0, 50.0), WebhookWrite(0));
    hide Apply;
    RunJoin(INIT, cancelled, settled);
    RunJoin(INIT, cancelled, settled[..1]);
    assert settled[..1] == [WebhookRead(0, 0, 50.0)];
    ReadHolds(s);
  }

  lemma ReadHolds(s: State)
    requires s == With([TheAccount(Cancelled, 50.0)], [HALF])
    ensures Apply(s, WebhookRead(0, 0, 50.0)) == Some(s.(deliveries := map[0 := Holds(0, true)]))
  {
  }

  // ----- Settling beside another payment ---------------------------------------------------------------------

  predicate IsPayable(a: Account) {
    a.status in {Confirmed, DepositPending, DepositPaid}
  }

  /** Settling one payment of a payable booking keeps its money in step exactly when no other payment of it is open. */
  lemma SettlingConservesExactly(t: Tables, p: nat)
    requires IsOpen(t, p) && t.payments[p].amount > 0.0
    requires var b := t.payments[p].booking; IsPayable(t.accounts[b]) && Conserved(t.accounts[b], t.payments, b)
    ensures var b := t.payments[p].booking;
            Conserved(Settle(t, p).accounts[b], Settle(t, p).payments, b) <==> NoneOpenBut(t.payments, b, Some(p))
  {
    var b := t.payments[p].booking;
    if NoneOpenBut(t.payments, b, Some(p)) {
      SettleConserves(t, p);
    } else {
      assert OpenOk(t.accounts[b], t.payments[p]);
      var q :| 0 <= q < |t.payments| && t.payments[q].booking == b && t.payments[q].status == Open && q != p;
      assert OpenOk(t.accounts[b], t.payments[q]);
      assert Settle(t, p).payments[q] == t.payments[q];
      assert !OpenOk(Settle(t, p).accounts[b], t.payments[q]);
    }
  }

  /** The same for cash. */
  lemma CashConservesExactly(t: Tables, b: nat, chosen: Kind)
    requires b < |t.accounts| && Conserved(t.accounts[b], t.payments, b)
    requires Charge(t, b, chosen).Ok? && Charge(t, b, chosen).value.1 > 0.0
    ensures var charge := Charge(t, b, chosen).value;
            var t' := Cash(t, b, charge.0, charge.1);
            Conserved(t'.accounts[b], t'.payments, b) <==> NoneOpenBut(t.payments, b, None)
  {
    var charge := Charge(t, b, chosen).value;
    var t' := Cash(t, b, charge.0, charge.1);
    if NoneOpenBut(t.payments, b, None) {
      CashConserves(t, b, chosen);
    } else {
      var q :| 0 <= q < |t.payments| && t.payments[q].booking == b && t.payments[q].status == Open;
      assert OpenOk(t.accounts[b], t.payments[q]);
      assert t'.payments[q] == t.payments[q];
      assert !OpenOk(t'.accounts[b], t.payments[q]);
    }
  }

  /** The booking has been paid more than its status says. */
  ghost predicate IsOvercharged(t: Tables, b: nat) {
    b < |t.accounts| && Due(t.accounts[b]).Some? && PaidSum(t.payments, b) > Due(t.accounts[b]).value
  }

  /** Any two open payments of a payable booking, settled one after the other in either order, overcharge it. */
  lemma TwoSettledOvercharge(t: Tables, p: nat, q: nat)
    requires IsOpen(t, p) && IsOpen(t, q) && p != q && t.payments[q].booking == t.payments[p].booking
    requires t.payments[p].amount > 0.0 && t.payments[q].amount > 0.0
    requires var b := t.payments[p].booking; IsPayable(t.accounts[b]) && Conserved(t.accounts[b], t.payments, b)
    ensures IsOpen(Settle(t, p), q) && IsOvercharged(Settle(Settle(t, p), q), t.payments[p].booking)
  {
    var b := t.payments[p].booking;
    var once := Settle(t, p);
    assert OpenOk(t.accounts[b], t.payments[p]) && OpenOk(t.accounts[b], t.payments[q]);
    SumUpdate(t.payments, p, t.payments[p].(status := Settled), b);
    SumUpdate(once.payments, q, once.payments[q].(status := Settled), b);
  }

  /** Cash taken beside any open transfer, which then settles, overcharges the booking. */
  lemma CashBesideTransferOvercharges(t: Tables, b: nat, chosen: Kind, p: nat)
    requires b < |t.accounts| && Conserved(t.accounts[b], t.payments, b)
    requires Charge(t, b, chosen).Ok? && Charge(t, b, chosen).value.1 > 0.0
    requires IsOpen(t, p) && t.payments[p].booking == b && t.payments[p].amount > 0.0
    ensures var charge := Charge(t, b, chosen).value;
            var t' := Cash(t, b, charge.0, charge.1);
            IsOpen(t', p) && IsOvercharged(Settle(t', p), b)
  {
    var charge := Charge(t, b, chosen).value;
    var t' := Cash(t, b, charge.0, charge.1);
    assert OpenOk(t.accounts[b], t.payments[p]);
    SumAppend(t.payments, Payment(b, charge.0, charge.1, Settled, true), b);
    SumUpdate(t'.payments, p, t'.payments[p].(status := Settled), b);
  }

  /** A deposit and a full payment can be open together: neither supersedes the other. */
  lemma BothCanBeOpen() returns (steps: seq<Step>)
    ensures Run(INIT, steps) == Some(With([TheAccount(DepositPending, 50.0)], [HALF, WHOLE]))
  {
    steps := DepositIsOpen();
    AskedOnline([TheAccount(DepositPending, 50.0)], [HALF], Full);
    hide HandleAlone;
    steps := Continue(INIT, steps, PayOnline(0, 1, Some(Full)));
    assert [HALF] + [WHOLE] == [HALF, WHOLE];
  }

  lemma DeliveryRead(s: State, p: nat, d: nat)
    requires IsOpen(s.t, p) && d !in s.deliveries
    ensures Apply(s, WebhookRead(d, p, s.t.payments[p].amount)) == Some(s.(deliveries := s.deliveries[d := Holds(p, true)]))
  {
  }

  lemma DeliveryWritten(s: State, p: nat, d: nat)
    requires IsOpen(s.t, p) && d in s.deliveries && s.deliveries[d] == Holds(p, true)
    ensures Apply(s, WebhookWrite(d)) == Some(s.(t := Settle(s.t, p), deliveries := s.deliveries[d := Told(p, Success)]))
  {
    hide Settle;
  }

  /** One complete delivery. */
  lemma Delivered(s: State, p: nat, d: nat)
    requires IsOpen(s.t, p) && d !in s.deliveries
    ensures Run(s, [WebhookRead(d, p, s.t.payments[p].amount), WebhookWrite(d)])
         == Some(s.(t := Settle(s.t, p), deliveries := s.deliveries[d := Told(p, Success)]))
  {
    hide Settle, Apply;
    var read := s.(deliveries := s.deliveries[d := Holds(p, true)]);
    DeliveryRead(s, p, d);
    DeliveryWritten(read, p, d);
    assert read.deliveries[d := Told(p, Success)] == s.deliveries[d := Told(p, Success)];
    RunTwo(s, WebhookRead(d, p, s.t.payments[p].amount), WebhookWrite(d));
  }

  /**
   * From the empty tables: both settle, the customer has paid half too much, and the paid booking is written back to
   * DEPOSIT_PAID.
   */
  lemma TwoOpenPaymentsOvercharge() returns (steps: seq<Step>)
    ensures Run(INIT, steps).Some? && Run(INIT, steps).value.handlers == map[]
    ensures Run(INIT, steps).value.t
         == Tables([TheAccount(DepositPaid, 50.0)], [HALF.(status := Settled), WHOLE.(status := Settled)])
    ensures IsOvercharged(Run(INIT, steps).value.t, 0)
  {
    steps := BothCanBeOpen();
    var s := With([TheAccount(DepositPending, 50.0)], [HALF, WHOLE]);
    Delivered(s, 1, 1);
    var full := [WebhookRead(1, 1, PRICE), WebhookWrite(1)];
    var s1 := Run(s, full).value;
    assert s1.t == Tables([TheAccount(Paid, 50.0)], [HALF, WHOLE.(status := Settled)]);
    Delivered(s1, 0, 0);
    var deposit := [WebhookRead(0, 0, 50.0), WebhookWrite(0)];
    assert Run(s1, deposit).value.t
        == Tables([TheAccount(DepositPaid, 50.0)], [HALF.(status := Settled), WHOLE.(status := Settled)]);
    hide Apply;
    RunJoin(INIT, steps, full);
    RunJoin(INIT, steps + full, deposit);
    steps := steps + full + deposit;
    SumOfTwo(HALF.(status := Settled), WHOLE.(status := Settled));
  }

  lemma SumOfTwo(first: Payment, second: Payment)
    ensures PaidSum([first, second], 0) == Contribution(first, 0) + Contribution(second, 0)
  {
    assert [first, second] == [] + [first] + [second];
    SumAppend([], first, 0);
    SumAppend([] + [first], second, 0);
  }

  // ----- Writing on an old read ------------------------------------------------------------------------------

  lemma NothingToSupersede(payments: seq<Payment>, b: nat, kind: Kind)
    requires NoneOpenBut(payments, b, None)
    ensures Superseded(payments, b, kind) == payments
  {
  }

  /** Cash for the whole charge, taken between the read and the writes of a transfer. */
  lemma CashInBetween(s: State, b: nat, user: UserId, first: nat, second: nat) returns (steps: seq<Step>)
    requires b < |s.t.accounts| && s.t.accounts[b].status == Confirmed && s.t.accounts[b].customer == Some(user)
    requires Total(s.t.accounts[b]) > 0.0 && !HasSettled(s.t.payments, b, Full)
    requires first !in s.handlers && second !in s.handlers && first != second
    ensures Run(s, steps).Some? && Run(s, steps).value.t == Cash(s.t, b, Full, Total(s.t.accounts[b]))
    ensures first in Run(s, steps).value.handlers
    ensures Run(s, steps).value.handlers[first].intent == Supersede(b, Full, Total(s.t.accounts[b]))
  {
    var amount := Total(s.t.accounts[b]);
    var online, cash := PayOnline(b, user, None), PayAtStore(b, true, None);
    assert Decide(s.t, online) == Some(Supersede(b, Full, amount)) && Decide(s.t, cash) == Some(TakeCash(b, Full, amount));
    hide Decide, Cash;
    RunTwo(s, Read(first, online), Read(second, cash));
    RunOne(s, [Read(first, online), Read(second, cash)], Write(second));
    steps := [Read(first, online), Read(second, cash)] + [Write(second)];
  }

  lemma TransferWritten(s: State, h: nat, b: nat, amount: real)
    requires h in s.handlers && s.handlers[h].intent == Supersede(b, Full, amount) && b < |s.t.accounts|
    requires NoneOpenBut(s.t.payments, b, None)
    ensures Run(s, [Write(h), Write(h)]).Some?
    ensures Run(s, [Write(h), Write(h)]).value.t == s.t.(payments := s.t.payments + [Payment(b, Full, amount, Open, false)])
  {
    NothingToSupersede(s.t.payments, b, Full);
    RunTwo(s, Write(h), Write(h));
  }

  /**
   * Whatever the state of a confirmed booking: when cash settles between the read and the insertion of a transfer,
   * the transfer is inserted for the full charge again, alone, and settling it charges the customer twice.
   */
  lemma {:induction false} StaleTransferOvercharges(s: State, b: nat, user: UserId, first: nat, second: nat) returns (steps: seq<Step>, p: nat)
    requires b < |s.t.accounts| && s.t.accounts[b].status == Confirmed && s.t.accounts[b].customer == Some(user)
    requires Total(s.t.accounts[b]) > 0.0 && !HasSettled(s.t.payments, b, Full)
    requires Conserved(s.t.accounts[b], s.t.payments, b) && NoneOpenBut(s.t.payments, b, None)
    requires first !in s.handlers && second !in s.handlers && first != second
    ensures Run(s, steps).Some? && b < |Run(s, steps).value.t.accounts|
    ensures IsOpen(Run(s, steps).value.t, p) && NoneOpenBut(Run(s, steps).value.t.payments, b, Some(p))
    ensures Settle(Run(s, steps).value.t, p).accounts[b].status == Paid
    ensures PaidSum(Settle(Run(s, steps).value.t, p).payments, b) == 2.0 * Total(s.t.accounts[b])
  {
    var amount := Total(s.t.accounts[b]);
    steps := CashInBetween(s, b, user, first, second);
    var s1 := Run(s, steps).value;
    var cash, transfer := Payment(b, Full, amount, Settled, true), Payment(b, Full, amount, Open, false);
    assert s1.t.payments == s.t.payments + [cash];
    TransferWritten(s1, first, b, amount);
    hide Apply;
    RunJoin(s, steps, [Write(first), Write(first)]);
    steps := steps + [Write(first), Write(first)];
    p := |s.t.payments| + 1;
    assert Run(s, steps).value.t.payments == s.t.payments + [cash] + [transfer];
    SecondOnTop(Run(s, steps).value.t, s.t.payments, b, amount);
  }

  /** A transfer of the same amount on top of cash that brought the booking to PAID. */
  lemma SecondOnTop(t: Tables, payments: seq<Payment>, b: nat, amount: real)
    requires b < |t.accounts| && t.accounts[b].status == Paid && NoneOpenBut(payments, b, None) && PaidSum(payments, b) == 0.0
    requires t.payments == payments + [Payment(b, Full, amount, Settled, true)] + [Payment(b, Full, amount, Open, false)]
    ensures var p := |payments| + 1;
            && IsOpen(t, p) && NoneOpenBut(t.payments, b, Some(p)) && Settle(t, p).accounts[b].status == Paid
            && PaidSum(Settle(t, p).payments, b) == 2.0 * amount
  {
    var cash, transfer := Payment(b, Full, amount, Settled, true), Payment(b, Full, amount, Open, false);
    SumAppend(payments, cash, b);
    SumAppend(payments + [cash], transfer, b);
    SumUpdate(t.payments, |payments| + 1, transfer.(status := Settled), b);
  }

  // ----- Which deposited bookings can be completed -----------------------------------------------------------

  /** A deposit of a hundred percent is at least the whole charge. */
  lemma WholeDeposit(a: Account, depositPercent: nat)
    requires depositPercent >= 100 && Total(a) >= 0.0
    ensures DepositFor(a, depositPercent) >= Total(a)
  {
    assert Total(a) * depositPercent as real >= Total(a) * 100.0;
    assert Total(a) * depositPercent as real / 100.0 >= Total(a);
  }

  ghost predicate CanBeCompleted(s: State, b: nat) {
    exists more :: StatusAfter(s, more, b) == Some(Completed)
  }

  /** Deposited, nothing open, and no handler at work on it. */
  ghost predicate IsQuietlyDeposited(s: State, b: nat) {
    && b < |s.t.accounts| && s.t.accounts[b].status == DepositPaid && s.t.accounts[b].deposit.Some?
    && NoneOpenBut(s.t.payments, b, None)
    && forall h :: h in s.handlers ==> s.handlers[h].intent.booking != b
  }

  /** Something remains to be charged: the deposit is less than the charge, and no full payment has been settled. */
  predicate SomethingRemains(t: Tables, b: nat)
    requires b < |t.accounts| && t.accounts[b].deposit.Some?
  {
    t.accounts[b].deposit.value < Total(t.accounts[b]) && !HasSettled(t.payments, b, Full)
  }

  /** Deposited with nothing left to charge, or cancelled since; at most cancellations are at work on it. */
  ghost predicate IsStuck(s: State, b: nat) {
    && b < |s.t.accounts| && s.t.accounts[b].status in {DepositPaid, Cancelled} && s.t.accounts[b].deposit.Some?
    && NoneOpenBut(s.t.payments, b, None)
    && (s.t.accounts[b].status == DepositPaid ==> !SomethingRemains(s.t, b))
    && forall h :: h in s.handlers && s.handlers[h].intent.booking == b ==> s.handlers[h].intent.SetCancelled?
  }

  /** A step that leaves the account and payments of a booking alone leaves it stuck. */
  lemma StuckFrame(t: Tables, t': Tables, b: nat)
    requires b < |t.accounts| && t.accounts[b].deposit.Some? && NoneOpenBut(t.payments, b, None)
    requires b < |t'.accounts| && t'.accounts[b].(customer := t.accounts[b].customer) == t.accounts[b]
    requires SameFor(t.payments, t'.payments, b)
    ensures NoneOpenBut(t'.payments, b, None) && (SomethingRemains(t', b) ==> SomethingRemains(t, b))
  {
    forall p | 0 <= p < |t.payments| && IsPayment(t.payments, p, b, Full, Settled) ensures IsPayment(t'.payments, p, b, Full, Settled) {
    }
  }

  lemma StuckDecisions(s: State, b: nat, request: Request)
    requires IsStuck(s, b) && Decide(s.t, request).Some? && Decide(s.t, request).value.booking == b
    ensures Decide(s.t, request).value.SetCancelled?
  {
  }

  lemma StuckWrite(s: State, h: nat, s': State, b: nat)
    requires IsStuck(s, b) && Apply(s, Write(h)) == Some(s')
    ensures IsStuck(s', b)
  {
    hide Decide, SomethingRemains;
    var intent := s.handlers[h].intent;
    if intent.booking == b {
      forall p | 0 <= p < |s'.t.payments| && s'.t.payments[p].booking == b ensures s'.t.payments[p].status != Open {
        assert s.t.payments[p].status != Open;
      }
    } else {
      PerformTouchesOne(s.t, intent);
      StuckFrame(s.t, s'.t, b);
    }
  }

  lemma StuckDelivery(s: State, d: nat, s': State, b: nat)
    requires IsStuck(s, b) && Apply(s, WebhookWrite(d)) == Some(s')
    ensures IsStuck(s', b)
  {
    hide SomethingRemains;
    var p := s.deliveries[d].payment;
    if IsOpen(s.t, p) {
      DeliverTouchesOne(s.t, p, s.deliveries[d].enough);
      assert s.t.payments[p].booking != b;
      StuckFrame(s.t, s'.t, b);
    }
  }

  lemma StuckStays(s: State, step: Step, s': State, b: nat)
    requires IsStuck(s, b) && Apply(s, step) == Some(s')
    ensures IsStuck(s', b)
  {
    hide Decide, Perform, Deliver;
    if step.Write? {
      StuckWrite(s, step.handler, s', b);
    } else if step.WebhookWrite? {
      StuckDelivery(s, step.delivery, s', b);
    } else {
      if step.Read? && Decide(s.t, step.request).value.booking == b {
        StuckDecisions(s, b, step.request);
      }
      StuckFrame(s.t, s'.t, b);
    }
  }

  lemma {:induction false} StuckForGood(s: State, more: seq<Step>, b: nat)
    requires IsStuck(s, b) && Run(s, more).Some?
    ensures IsStuck(Run(s, more).value, b)
  {
    hide Apply, IsStuck;
    if more != [] {
      var n := |more| - 1;
      StuckForGood(s, more[..n], b);
      StuckStays(Run(s, more[..n]).value, more[n], Run(s, more).value, b);
    }
  }

  lemma {:induction false} FreshHandler(keys: set<nat>) returns (h: nat)
    ensures forall k :: k in keys ==> k < h
  {
    h := 0;
    if keys != {} {
      var k :| k in keys;
      var rest := FreshHandler(keys - {k});
      h := if rest > k then rest else k + 1;
      forall j | j in keys ensures j < h {
        assert j == k || j in keys - {k};
      }
    }
  }

  lemma PaidInCash(t: Tables, b: nat)
    requires b < |t.accounts| && t.accounts[b].status == DepositPaid && t.accounts[b].deposit.Some? && SomethingRemains(t, b)
    ensures var t' := HandleAlone(t, PayAtStore(b, true, None));
            t'.Some? && |t'.value.accounts| == |t.accounts| && t'.value.accounts[b].status == Paid
  {
    hide HasSettled;
  }

  lemma CompletedAlone(t: Tables, b: nat)
    requires b < |t.accounts| && t.accounts[b].status == Paid
    ensures var t' := HandleAlone(t, Complete(b));
            t'.Some? && |t'.value.accounts| == |t.accounts| && t'.value.accounts[b].status == Completed
  {
  }

  /** What remains can be paid in cash, and then the booking can be completed. */
  lemma RemainderCanBePaid(s: State, b: nat) returns (more: seq<Step>)
    requires b < |s.t.accounts| && s.t.accounts[b].status == DepositPaid && s.t.accounts[b].deposit.Some? && SomethingRemains(s.t, b)
    ensures StatusAfter(s, more, b) == Some(Completed)
  {
    var h := FreshHandler(s.handlers.Keys);
    PaidInCash(s.t, b);
    hide HandleAlone, Apply, SomethingRemains;
    var pay := Handled(s, PayAtStore(b, true, None), h);
    var paid := Run(s, pay).value;
    CompletedAlone(paid.t, b);
    var complete := Handled(paid, Complete(b), h);
    RunJoin(s, pay, complete);
    more := pay + complete;
  }

  /**
   * A deposited booking, with no payment of it open and no handler at work on it, can be completed by some
   * continuation exactly when its deposit is less than its charge and no full payment of it has been settled. The code
   * refuses every further payment otherwise, and only a further payment would make it PAID.
   */
  lemma {:induction false} CompletableExactly(s: State, b: nat)
    requires IsQuietlyDeposited(s, b)
    ensures CanBeCompleted(s, b) <==> SomethingRemains(s.t, b)
  {
    hide Apply, SomethingRemains, HasSettled;
    if SomethingRemains(s.t, b) {
      var more := RemainderCanBePaid(s, b);
    } else {
      assert IsStuck(s, b);
      forall more ensures StatusAfter(s, more, b) != Some(Completed) {
        if Run(s, more).Some? {
          StuckForGood(s, more, b);
        }
      }
    }
  }

  lemma DepositInCash()
    ensures HandleAlone(Tables([TheAccount(DepositPending, 100.0)], []), PayAtStore(0, true, Some(Deposit)))
         == Some(Tables([TheAccount(DepositPaid, 100.0)], [Payment(0, Deposit, 100.0, Settled, true)]))
  {
    assert [] + [Payment(0, Deposit, 100.0, Settled, true)] == [Payment(0, Deposit, 100.0, Settled, true)];
    assert [TheAccount(DepositPending, 100.0)][0 := TheAccount(DepositPaid, 100.0)] == [TheAccount(DepositPaid, 100.0)];
  }

  /** From the empty tables to a booking that can never be completed: a deposit of a hundred percent is asked for and paid. */
  lemma WholeDepositStrands() returns (steps: seq<Step>)
    ensures Run(INIT, steps).Some? && IsQuietlyDeposited(Run(INIT, steps).value, 0)
    ensures !CanBeCompleted(Run(INIT, steps).value, 0)
  {
    steps := AskedForDeposit(100);
    DepositInCash();
    hide HandleAlone, Apply;
    steps := Continue(INIT, steps, PayAtStore(0, true, Some(Deposit)));
    CompletableExactly(Run(INIT, steps).value, 0);
  }

  /** The other way to get stuck: both payments settled, the deposit last, though it is half the charge. */
  lemma DoublePaymentStrands() returns (steps: seq<Step>)
    ensures Run(INIT, steps).Some? && IsQuietlyDeposited(Run(INIT, steps).value, 0)
    ensures var a := Run(INIT, steps).value.t.accounts[0]; a.deposit.value < Total(a)
    ensures !CanBeCompleted(Run(INIT, steps).value, 0)
  {
    steps := TwoOpenPaymentsOvercharge();
    hide Apply;
    var s := Run(INIT, steps).value;
    assert IsPayment(s.t.payments, 1, 0, Full, Settled);
    CompletableExactly(s, 0);
  }
}
