/** Exactly which steps keep settled payments and statuses in step, on whatever reads the handlers write. */
module Balance {
  import opened Common
  import opened Ledger
  import opened LedgerSafety

  /** Settled payments add up to what the status says. */
  ghost predicate InStep(a: Account, payments: seq<Payment>, b: nat) {
    Due(a).Some? ==> PaidSum(payments, b) == Due(a).value
  }

  ghost predicate AllInStep(t: Tables) {
    forall b :: 0 <= b < |t.accounts| ==> InStep(t.accounts[b], t.payments, b)
  }

  /** A payment of this amount, settled now, brings its booking to what the status then says. */
  ghost predicate PaymentBalances(t: Tables, b: nat, kind: Kind, amount: real)
    requires b < |t.accounts|
  {
    var a := t.accounts[b];
    var paid := PaidSum(t.payments, b) + amount;
    if kind.Deposit? then a.deposit.Some? ==> paid == a.deposit.value
    else a.status in {Confirmed, DepositPending, DepositPaid, Paid, Completed} ==> paid == Total(a)
  }

  /** A confirmation needs a booking that nothing has been paid for, a completion one that has been paid in full. */
  ghost predicate IntentBalances(t: Tables, intent: Intent)
    requires intent.booking < |t.accounts|
  {
    match intent
    case SetConfirmed(b, _) => PaidSum(t.payments, b) == 0.0
    case SetCompleted(b) => PaidSum(t.payments, b) == Total(t.accounts[b])
    case TakeCash(b, kind, amount) => PaymentBalances(t, b, kind, amount)
    case _ => true
  }

  ghost predicate Balances(s: State, step: Step) {
    match step
    case Write(h) =>
      h in s.handlers && s.handlers[h].intent.booking < |s.t.accounts| ==> IntentBalances(s.t, s.handlers[h].intent)
    case WebhookWrite(d) =>
      d in s.deliveries && s.deliveries[d].Holds? && s.deliveries[d].enough && IsOpen(s.t, s.deliveries[d].payment) ==>
        var payment := s.t.payments[s.deliveries[d].payment];
        PaymentBalances(s.t, payment.booking, payment.kind, payment.amount)
    case _ => true
  }

  ghost predicate BalancedRun(s: State, steps: seq<Step>) {
    steps != [] ==>
      && BalancedRun(s, steps[..|steps| - 1])
      && (var before := Run(s, steps[..|steps| - 1]); before.Some? ==> Balances(before.value, steps[|steps| - 1]))
  }

  /** At every point of a run. */
  ghost predicate InStepThroughout(s: State, steps: seq<Step>) {
    && (Run(s, steps).Some? ==> AllInStep(Run(s, steps).value.t))
    && (steps != [] ==> InStepThroughout(s, steps[..|steps| - 1]))
  }

  /** What one booking's write does to the others. */
  lemma OnlyOneCounts(t: Tables, t': Tables, b: nat)
    requires AllInStep(t) && OnlyTouches(t, t', b) && b < |t.accounts|
    ensures AllInStep(t') <==> InStep(t'.accounts[b], t'.payments, b)
  {
    hide SameFor;
    forall other | 0 <= other < |t'.accounts| && other != b ensures InStep(t'.accounts[other], t'.payments, other) {
      assert InStep(t.accounts[other], t.payments, other);
      SumFrame(t.payments, t'.payments, other);
    }
  }

  lemma WriteBalancesExactly(t: Tables, intent: Intent)
    requires AllInStep(t) && intent.booking < |t.accounts|
    ensures AllInStep(Perform(t, intent)) <==> IntentBalances(t, intent)
  {
    hide AllInStep, OnlyTouches;
    var b := intent.booking;
    var t' := Perform(t, intent);
    PerformTouchesOne(t, intent);
    OnlyOneCounts(t, t', b);
    assert InStep(t.accounts[b], t.payments, b) by { OneOf(t, b); }
    match intent
    case TakeCash(_, kind, amount) => SumAppend(t.payments, Payment(b, kind, amount, Settled, true), b);
    case InsertTransfer(_, kind, amount) => SumAppend(t.payments, Payment(b, kind, amount, Open, false), b);
    case Supersede(_, _, _) => SumByParts(t.payments, t'.payments, b);
    case _ =>
  }

  lemma OneOf(t: Tables, b: nat)
    requires AllInStep(t) && b < |t.accounts|
    ensures InStep(t.accounts[b], t.payments, b)
  {
  }

  lemma SettleBalancesExactly(t: Tables, p: nat)
    requires AllInStep(t) && IsOpen(t, p)
    ensures AllInStep(Settle(t, p)) <==> PaymentBalances(t, t.payments[p].booking, t.payments[p].kind, t.payments[p].amount)
  {
    hide AllInStep, OnlyTouches;
    var b := t.payments[p].booking;
    DeliverTouchesOne(t, p, true);
    OnlyOneCounts(t, Settle(t, p), b);
    SumUpdate(t.payments, p, t.payments[p].(status := Settled), b);
  }

  lemma FailBalances(t: Tables, p: nat)
    requires AllInStep(t) && IsOpen(t, p)
    ensures AllInStep(Fail(t, p))
  {
    hide AllInStep, OnlyTouches;
    var b := t.payments[p].booking;
    DeliverTouchesOne(t, p, false);
    OneOf(t, b);
    OnlyOneCounts(t, Fail(t, p), b);
    SumUpdate(t.payments, p, t.payments[p].(status := Failed), b);
  }

  /** Steps that move no money: a booking, a sweep's write, the loss of a customer. */
  lemma AccountsInStep(t: Tables, accounts: seq<Account>)
    requires AllInStep(t) && Linked(t) && |t.accounts| <= |accounts|
    requires forall b :: 0 <= b < |t.accounts| ==> Due(accounts[b]) == Due(t.accounts[b]) || accounts[b].status == Cancelled
    requires forall b :: |t.accounts| <= b < |accounts| ==> accounts[b].status in {Pending, Confirmed}
    ensures AllInStep(t.(accounts := accounts)) && Linked(t.(accounts := accounts))
  {
    forall b | 0 <= b < |accounts| ensures InStep(accounts[b], t.payments, b) {
      if b < |t.accounts| {
        assert InStep(t.accounts[b], t.payments, b);
      } else {
        SumIsZero(t.payments, b);
      }
    }
  }

  lemma StaysLinked(s: State, step: Step)
    requires Linked(s.t)
    ensures Apply(s, step).Some? ==> Linked(Apply(s, step).value.t)
  {
    hide Decide, ConfirmedAccount, AfterPayment;
  }

  /** On any read, stale or not: a step keeps sums and statuses in step exactly when it balances. */
  lemma StepBalancesExactly(s: State, step: Step, s': State)
    requires Linked(s.t) && AllInStep(s.t) && Apply(s, step) == Some(s')
    ensures AllInStep(s'.t) <==> Balances(s, step)
  {
    hide AllInStep, Linked, Perform, Settle, Fail, Decide, PaymentBalances, IntentBalances;
    if step.Write? {
      WriteBalancesExactly(s.t, s.handlers[step.handler].intent);
    } else if step.WebhookWrite? {
      var Holds(p, enough) := s.deliveries[step.delivery];
      if IsOpen(s.t, p) {
        SettleBalancesExactly(s.t, p);
        FailBalances(s.t, p);
      }
    } else if step.Book? || step.ForgetCustomer? || step.SweepWrite? {
      AccountsInStep(s.t, s'.t.accounts);
    }
  }

  lemma NothingPaid()
    ensures Linked(INIT.t) && AllInStep(INIT.t)
  {
  }

  /**
   * For every run, whatever the handlers had read: settled payments and statuses are in step at every point exactly when
   * each confirmation finds nothing paid, each completion a booking paid in full, and each settlement, in cash or by a
   * delivery, the amount still owed for the status it leads to.
   */
  lemma {:induction false} InStepExactly(steps: seq<Step>)
    requires Run(INIT, steps).Some?
    ensures Linked(Run(INIT, steps).value.t)
    ensures InStepThroughout(INIT, steps) <==> BalancedRun(INIT, steps)
  {
    hide Apply, AllInStep, Linked, Balances;
    if steps == [] {
      NothingPaid();
    } else {
      var n := |steps| - 1;
      InStepExactly(steps[..n]);
      var s, s' := Run(INIT, steps[..n]).value, Run(INIT, steps).value;
      StaysLinked(s, steps[n]);
      if AllInStep(s.t) {
        StepBalancesExactly(s, steps[n], s');
      }
    }
  }
}
