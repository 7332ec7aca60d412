/**
 * What the write of a handler does to a booking that has changed since its read: exactly when a sweep can cancel a
 * booking that has moved on, and runs to a lost deposit, an unpaid completion and a payment made twice.
 */
module StaleWrites {
  import opened Common
  import opened Ledger
  import opened LedgerSafety
  import opened SettlementSafety
  import opened PaymentWitnesses

  // ----- Which bookings a sweep can still cancel -------------------------------------------------------------

  /** A confirmation that asks for a deposit of this booking is in flight. */
  ghost predicate DepositAsked(s: State, b: nat) {
    exists h :: h in s.handlers && AsksDeposit(s.handlers[h].intent, b)
  }

  ghost predicate Listed(s: State, b: nat) {
    exists w :: w in s.sweeps && b in s.sweeps[w]
  }

  /** After these steps the write of sweep w cancels the booking. */
  ghost predicate IsSweptBy(s: State, more: seq<Step>, w: nat, b: nat) {
    && StatusAfter(s, more, b) == Some(DepositPending)
    && StatusAfter(s, more + [SweepWrite(w, b)], b) == Some(Cancelled)
  }

  ghost predicate CanBeSwept(s: State, b: nat) {
    exists more, w :: IsSweptBy(s, more, w, b)
  }

  /** Moved on, with no confirmation in flight that could put it back. */
  ghost predicate IsPast(s: State, b: nat) {
    b < |s.t.accounts| && HasMovedOn(s.t.accounts[b]) && !DepositAsked(s, b)
  }

  /** No new confirmation is decided on, because a booking that has moved on is not PENDING. */
  lemma PastStays(s: State, step: Step, b: nat)
    requires IsPast(s, b)
    ensures Apply(s, step).Some? ==> IsPast(Apply(s, step).value, b)
  {
    hide DepositTerms, Charge, Perform, Deliver;
    if Apply(s, step).Some? {
      var s' := Apply(s, step).value;
      PutBackExactly(s, step, s', b);
      forall h | h in s'.handlers ensures !AsksDeposit(s'.handlers[h].intent, b) {
        assert h in s.handlers ==> !AsksDeposit(s.handlers[h].intent, b);
      }
    }
  }

  lemma {:induction false} PastForGood(s: State, more: seq<Step>, b: nat)
    requires IsPast(s, b)
    ensures Run(s, more).Some? ==> IsPast(Run(s, more).value, b)
  {
    hide Apply, IsPast;
    if more != [] && Run(s, more).Some? {
      var n := |more| - 1;
      PastForGood(s, more[..n], b);
      PastStays(Run(s, more[..n]).value, more[n], b);
    }
  }

  /** Without a customer and on no list. */
  ghost predicate IsOverlooked(s: State, b: nat) {
    b < |s.t.accounts| && s.t.accounts[b].customer.None? && !Listed(s, b)
  }

  lemma OverlookedStays(s: State, step: Step, b: nat)
    requires IsOverlooked(s, b)
    ensures Apply(s, step).Some? ==> IsOverlooked(Apply(s, step).value, b)
  {
    hide Decide, Superseded, RefundedAll, AfterPayment;
    if Apply(s, step).Some? {
      var s' := Apply(s, step).value;
      forall w | w in s'.sweeps ensures b !in s'.sweeps[w] {
        assert w in s.sweeps ==> b !in s.sweeps[w];
      }
    }
  }

  lemma {:induction false} OverlookedForGood(s: State, more: seq<Step>, b: nat)
    requires IsOverlooked(s, b)
    ensures Run(s, more).Some? ==> IsOverlooked(Run(s, more).value, b)
  {
    hide Apply, IsOverlooked;
    if more != [] && Run(s, more).Some? {
      var n := |more| - 1;
      OverlookedForGood(s, more[..n], b);
      OverlookedStays(Run(s, more[..n]).value, more[n], b);
    }
  }

  /** The tables once a deposit of this booking is asked for, whatever it was before. */
  function AskedFor(t: Tables, b: nat, terms: (real, Instant)): Tables
    requires b < |t.accounts|
  {
    t.(accounts := t.accounts[b := ConfirmedAccount(t.accounts[b], Some(terms))])
  }

  /** The tables with one booking's deposit lapsed. */
  function Lapsed(t: Tables, b: nat, terms: (real, Instant)): Tables
    requires b < |t.accounts|
  {
    t.(accounts := t.accounts[b := t.accounts[b].(status := Cancelled, deposit := Some(terms.0), deadline := Some(terms.1))])
  }

  lemma WritePutsBack(s: State, b: nat, h: nat)
    requires b < |s.t.accounts| && h in s.handlers && AsksDeposit(s.handlers[h].intent, b)
    ensures Apply(s, Write(h))
         == Some(s.(t := AskedFor(s.t, b, s.handlers[h].intent.terms.value), handlers := s.handlers - {h}))
  {
  }

  lemma AskedIsListed(t: Tables, b: nat, terms: (real, Instant), now: Instant)
    requires b < |t.accounts| && t.accounts[b].customer.Some? && terms.1 < now
    ensures b in ExpiredAt(AskedFor(t, b, terms).accounts, now)
  {
  }

  lemma ListedIsCancelled(s: State, b: nat, w: nat)
    requires b < |s.t.accounts| && s.t.accounts[b].status == DepositPending && w in s.sweeps && b in s.sweeps[w]
    ensures Apply(s, SweepWrite(w, b))
         == Some(s.(t := s.t.(accounts := WithStatus(s.t.accounts, b, Cancelled)), sweeps := s.sweeps[w := s.sweeps[w] - {b}]))
  {
  }

  /** A sweep whose list has the booking cancels it once it is put back. */
  lemma PutBackAndSwept(s: State, b: nat, h: nat, w: nat)
    requires b < |s.t.accounts| && h in s.handlers && AsksDeposit(s.handlers[h].intent, b)
    requires w in s.sweeps && b in s.sweeps[w]
    ensures IsSweptBy(s, [Write(h)], w, b)
    ensures Run(s, [Write(h), SweepWrite(w, b)]).Some?
    ensures Run(s, [Write(h), SweepWrite(w, b)]).value.t == Lapsed(s.t, b, s.handlers[h].intent.terms.value)
  {
    WritePutsBack(s, b, h);
    ListedIsCancelled(Apply(s, Write(h)).value, b, w);
    hide Apply;
    RunTwo(s, Write(h), SweepWrite(w, b));
    assert [Write(h)] + [SweepWrite(w, b)] == [Write(h), SweepWrite(w, b)];
  }

  /**
   * Whatever the booking has become, and whatever has been paid for it: a confirmation in flight that asks for a deposit
   * puts it back, the next sweep after that deadline cancels it, and no payment is refunded.
   */
  lemma StaleConfirmIsSwept(s: State, b: nat, h: nat, w: nat, now: Instant)
    requires b < |s.t.accounts| && h in s.handlers && AsksDeposit(s.handlers[h].intent, b)
    requires w !in s.sweeps && s.t.accounts[b].customer.Some? && s.handlers[h].intent.terms.value.1 < now
    ensures IsSweptBy(s, [Write(h), SweepRead(w, now)], w, b)
    ensures var end := Run(s, [Write(h), SweepRead(w, now), SweepWrite(w, b)]);
            && end.Some? && end.value.t == Lapsed(s.t, b, s.handlers[h].intent.terms.value)
            && end.value.handlers == s.handlers - {h}
  {
    var terms := s.handlers[h].intent.terms.value;
    var back := s.(t := AskedFor(s.t, b, terms), handlers := s.handlers - {h});
    var listed := back.(sweeps := back.sweeps[w := ExpiredAt(back.t.accounts, now)]);
    WritePutsBack(s, b, h);
    AskedIsListed(s.t, b, terms, now);
    ListedIsCancelled(listed, b, w);
    hide ExpiredAt;
    assert Apply(back, SweepRead(w, now)) == Some(listed);
    hide Apply;
    RunTwo(s, Write(h), SweepRead(w, now));
    RunOne(s, [Write(h), SweepRead(w, now)], SweepWrite(w, b));
    assert [Write(h), SweepRead(w, now)] + [SweepWrite(w, b)] == [Write(h), SweepRead(w, now), SweepWrite(w, b)];
  }

  lemma AskedIsSwept(s: State, b: nat, h: nat)
    requires b < |s.t.accounts| && h in s.handlers && AsksDeposit(s.handlers[h].intent, b)
    requires s.t.accounts[b].customer.Some? || Listed(s, b)
    ensures CanBeSwept(s, b)
  {
    if Listed(s, b) {
      var w :| w in s.sweeps && b in s.sweeps[w];
      PutBackAndSwept(s, b, h, w);
    } else {
      var w := FreshHandler(s.sweeps.Keys);
      StaleConfirmIsSwept(s, b, h, w, s.handlers[h].intent.terms.value.1 + 1);
    }
  }

  lemma OverlookedIsSpared(s: State, b: nat, more: seq<Step>, w: nat)
    requires IsOverlooked(s, b)
    ensures !IsSweptBy(s, more, w, b)
  {
    OverlookedForGood(s, more, b);
    RunOne(s, more, SweepWrite(w, b));
  }

  /**
   * A booking that has moved on can still be cancelled by the write of some sweep in some continuation exactly when a
   * confirmation that asks for a deposit is in flight, and the booking has a customer or is on some sweep's list.
   */
  lemma SweptExactly(s: State, b: nat)
    requires b < |s.t.accounts| && HasMovedOn(s.t.accounts[b])
    ensures CanBeSwept(s, b) <==> DepositAsked(s, b) && (s.t.accounts[b].customer.Some? || Listed(s, b))
  {
    hide Run, Apply, Listed, IsSweptBy;
    if DepositAsked(s, b) && (s.t.accounts[b].customer.Some? || Listed(s, b)) {
      var h :| h in s.handlers && AsksDeposit(s.handlers[h].intent, b);
      AskedIsSwept(s, b, h);
    } else {
      forall more, w ensures !IsSweptBy(s, more, w, b) {
        if DepositAsked(s, b) {
          OverlookedIsSpared(s, b, more, w);
        } else {
          PastIsSpared(s, b, more, w);
        }
      }
    }
  }

  lemma PastIsSpared(s: State, b: nat, more: seq<Step>, w: nat)
    requires IsPast(s, b)
    ensures !IsSweptBy(s, more, w, b)
  {
    hide Apply, DepositAsked;
    PastForGood(s, more, b);
  }

  // ----- A deposit that is paid and lost ---------------------------------------------------------------------

  /** Cancelled, with nothing of it open and no handler at work on it. */
  ghost predicate IsClosed(s: State, b: nat) {
    && b < |s.t.accounts| && s.t.accounts[b].status == Cancelled && NoneOpenBut(s.t.payments, b, None)
    && forall h :: h in s.handlers ==> s.handlers[h].intent.booking != b
  }

  lemma ClosedFrame(t: Tables, t': Tables, b: nat)
    requires b < |t.accounts| && t.accounts[b].status == Cancelled && NoneOpenBut(t.payments, b, None)
    requires b < |t'.accounts| && t'.accounts[b].status == t.accounts[b].status && SameFor(t.payments, t'.payments, b)
    ensures NoneOpenBut(t'.payments, b, None)
  {
  }

  /** No handler decides anything about a closed booking, so its payments stay as they are. */
  lemma ClosedStays(s: State, step: Step, b: nat)
    requires IsClosed(s, b)
    ensures Apply(s, step).Some? ==> IsClosed(Apply(s, step).value, b) && SameFor(s.t.payments, Apply(s, step).value.t.payments, b)
  {
    hide DepositTerms, Charge, Perform, Settle, Fail, NoneOpenBut;
    if Apply(s, step).Some? {
      assert SameFor(s.t.payments, s.t.payments, b);
      if step.Write? {
        PerformTouchesOne(s.t, s.handlers[step.handler].intent);
      } else if step.WebhookWrite? && IsOpen(s.t, s.deliveries[step.delivery].payment) {
        var Holds(p, enough) := s.deliveries[step.delivery];
        DeliverTouchesOne(s.t, p, enough);
        OpenIsNotClosed(s.t.payments, p, b);
      } else if step.Read? {
        ClosedDecides(s.t, step.request, b);
      }
      ClosedFrame(s.t, Apply(s, step).value.t, b);
    }
  }

  lemma OpenIsNotClosed(payments: seq<Payment>, p: nat, b: nat)
    requires NoneOpenBut(payments, b, None) && p < |payments| && payments[p].status == Open
    ensures payments[p].booking != b
  {
  }

  lemma ClosedDecides(t: Tables, request: Request, b: nat)
    requires b < |t.accounts| && t.accounts[b].status == Cancelled && Decide(t, request).Some?
    ensures Decide(t, request).value.booking != b
  {
  }

  lemma {:induction false} ClosedForGood(s: State, more: seq<Step>, b: nat, kind: Kind)
    requires IsClosed(s, b) && HasSettled(s.t.payments, b, kind)
    ensures Run(s, more).Some? ==> IsClosed(Run(s, more).value, b) && HasSettled(Run(s, more).value.t.payments, b, kind)
  {
    hide Apply, IsClosed;
    if more != [] && Run(s, more).Some? {
      var n := |more| - 1;
      ClosedForGood(s, more[..n], b, kind);
      var before, after := Run(s, more[..n]).value, Run(s, more).value;
      ClosedStays(before, more[n], b);
      var p :| 0 <= p < |before.t.payments| && IsPayment(before.t.payments, p, b, kind, Settled);
      assert IsPayment(after.t.payments, p, b, kind, Settled);
    }
  }

  /** The tables once a deposit has been asked for and paid in cash. */
  function PaidFor(t: Tables, b: nat, terms: (real, Instant)): Tables
    requires b < |t.accounts|
  {
    Cash(AskedFor(t, b, terms), b, Deposit, terms.0)
  }

  lemma DepositAtStore(t: Tables, b: nat, terms: (real, Instant))
    requires b < |t.accounts| && !HasSettled(t.payments, b, Deposit)
    ensures HandleAlone(AskedFor(t, b, terms), PayAtStore(b, true, Some(Deposit))) == Some(PaidFor(t, b, terms))
  {
    hide HasSettled;
  }

  /** From any PENDING booking: confirmed twice at once, and paid for while the second confirmation is still in flight. */
  lemma PaidWhileAskedTwice(s: State, b: nat, confirm: Request, first: nat, second: nat) returns (steps: seq<Step>)
    requires confirm.Confirm? && confirm.booking == b < |s.t.accounts| && s.t.accounts[b].status == Pending
    requires DepositTerms(s.t.accounts[b], confirm.now, confirm.depositPercent, confirm.configActive).Some?
    requires !HasSettled(s.t.payments, b, Deposit)
    requires first !in s.handlers && second !in s.handlers && first != second
    ensures Run(s, steps).Some? && Run(s, steps).value.sweeps == s.sweeps
    ensures var terms := DepositTerms(s.t.accounts[b], confirm.now, confirm.depositPercent, confirm.configActive);
            && Run(s, steps).value.t == PaidFor(s.t, b, terms.value)
            && Run(s, steps).value.handlers == s.handlers[first := Flight(confirm, SetConfirmed(b, terms))]
  {
    var terms := DepositTerms(s.t.accounts[b], confirm.now, confirm.depositPercent, confirm.configActive);
    var flight := Flight(confirm, SetConfirmed(b, terms));
    assert Decide(s.t, confirm) == Some(flight.intent);
    var asked := s.(t := AskedFor(s.t, b, terms.value), handlers := s.handlers[first := flight]);
    assert s.handlers[first := flight][second := flight] - {second} == s.handlers[first := flight];
    hide DepositTerms, Decide, HasSettled;
    RunTwo(s, Read(first, confirm), Read(second, confirm));
    RunOne(s, [Read(first, confirm), Read(second, confirm)], Write(second));
    steps := [Read(first, confirm), Read(second, confirm)] + [Write(second)];
    assert Run(s, steps) == Some(asked);
    DepositAtStore(s.t, b, terms.value);
    hide Apply, HandleAlone;
    var paid := Handled(asked, PayAtStore(b, true, Some(Deposit)), second);
    RunJoin(s, steps, paid);
    steps := steps + paid;
  }

  /**
   * From any PENDING booking with a customer and nothing else going on: confirmed twice at once, its deposit paid in
   * cash, put back by the second confirmation and cancelled by a sweep. The deposit stays settled for good.
   */
  lemma PaidDepositIsLost(s: State, b: nat, confirm: Request, first: nat, second: nat, w: nat) returns (paid: seq<Step>, lost: seq<Step>)
    requires confirm.Confirm? && confirm.booking == b < |s.t.accounts| && s.t.accounts[b].status == Pending
    requires DepositTerms(s.t.accounts[b], confirm.now, confirm.depositPercent, confirm.configActive).Some?
    requires s.t.accounts[b].customer.Some? && NoneOpenBut(s.t.payments, b, None) && !HasSettled(s.t.payments, b, Deposit)
    requires forall h :: h in s.handlers ==> s.handlers[h].intent.booking != b
    requires first !in s.handlers && second !in s.handlers && first != second && w !in s.sweeps
    ensures StatusAfter(s, paid, b) == Some(DepositPaid) && StatusAfter(s, paid + lost, b) == Some(Cancelled)
    ensures IsClosed(Run(s, paid + lost).value, b)
    ensures var terms := DepositTerms(s.t.accounts[b], confirm.now, confirm.depositPercent, confirm.configActive);
            Run(s, paid + lost).value.t.payments == s.t.payments + [Payment(b, Deposit, terms.value.0, Settled, true)]
    ensures forall more :: Run(Run(s, paid + lost).value, more).Some? ==>
              HasSettled(Run(Run(s, paid + lost).value, more).value.t.payments, b, Deposit)
  {
    var terms := DepositTerms(s.t.accounts[b], confirm.now, confirm.depositPercent, confirm.configActive).value;
    hide DepositTerms;
    paid := PaidWhileAskedTwice(s, b, confirm, first, second);
    var mid := Run(s, paid).value;
    StaleConfirmIsSwept(mid, b, first, w, terms.1 + 1);
    lost := [Write(first), SweepRead(w, terms.1 + 1), SweepWrite(w, b)];
    hide Apply;
    RunJoin(s, paid, lost);
    var end := Run(s, paid + lost).value;
    assert IsPayment(end.t.payments, |s.t.payments|, b, Deposit, Settled);
    assert IsClosed(end, b);
    forall more | Run(end, more).Some? ensures HasSettled(Run(end, more).value.t.payments, b, Deposit) {
      ClosedForGood(end, more, b, Deposit);
    }
  }

  /** The same from the empty tables: half of a booking at 100 is paid and lost. */
  lemma HalfIsLost() returns (steps: seq<Step>)
    ensures StatusAfter(INIT, steps, 0) == Some(Cancelled)
    ensures Run(INIT, steps).value.t.payments == [Payment(0, Deposit, 50.0, Settled, true)]
    ensures forall more :: Run(Run(INIT, steps).value, more).Some? ==>
              HasSettled(Run(Run(INIT, steps).value, more).value.t.payments, 0, Deposit)
  {
    var book := Book(Some(1), 10 * HOUR_MS, PRICE, PRICE, false);
    var a := NewAccount(Some(1), 10 * HOUR_MS, PRICE, PRICE, false);
    RunOne(INIT, [], book);
    assert [] + [book] == [book] && [] + [a] == [a];
    var booked := With([a], []);
    assert Run(INIT, [book]) == Some(booked);
    AskedTerms(50);
    hide Apply, DepositTerms;
    var paid, lost := PaidDepositIsLost(booked, 0, Confirm(0, 0, 50, true), 0, 1, 0);
    RunJoin(INIT, [book], paid + lost);
    steps := [book] + (paid + lost);
  }

  // ----- A completion over a cancellation --------------------------------------------------------------------

  lemma WriteCompleted(s: State, h: nat, b: nat)
    requires h in s.handlers && s.handlers[h].intent == SetCompleted(b) && b < |s.t.accounts|
    ensures Apply(s, Write(h)).Some? && Apply(s, Write(h)).value.t == s.t.(accounts := WithStatus(s.t.accounts, b, Completed))
  {
  }

  /** A paid booking cancelled between the read and the write of its completion counts as completed, its money refunded. */
  lemma StaleCompletionIsUnpaid(s: State, b: nat, user: UserId, first: nat, second: nat) returns (steps: seq<Step>)
    requires b < |s.t.accounts| && s.t.accounts[b].status == Paid && s.t.accounts[b].customer == Some(user)
    requires first !in s.handlers && second !in s.handlers && first != second
    ensures StatusAfter(s, steps, b) == Some(Cancelled)
    ensures StatusAfter(s, steps + [Write(first)], b) == Some(Completed)
    ensures var t := Run(s, steps + [Write(first)]).value.t;
            !HasSettled(t.payments, b, Full) && PaidSum(t.payments, b) == 0.0
  {
    steps := CancelInBetween(s, b, Complete(b), user, first, second);
    hide Apply;
    RunOne(s, steps, Write(first));
    WriteCompleted(Run(s, steps).value, first, b);
    SumIsZero(RefundedAll(s.t.payments, b), b);
  }

  // ----- A payment made twice --------------------------------------------------------------------------------

  /** Two requests for a transfer of one booking that have read, and then both let older ones give way. */
  lemma BothSupersede(s: State, b: nat, user: UserId, first: nat, second: nat) returns (steps: seq<Step>)
    requires b < |s.t.accounts| && s.t.accounts[b].status == Confirmed && s.t.accounts[b].customer == Some(user)
    requires Total(s.t.accounts[b]) > 0.0 && !HasSettled(s.t.payments, b, Full)
    requires first !in s.handlers && second !in s.handlers && first != second
    ensures Run(s, steps).Some? && Run(s, steps).value.t.accounts == s.t.accounts
    ensures var handlers := Run(s, steps).value.handlers;
            var insert := InsertTransfer(b, Full, Total(s.t.accounts[b]));
            first in handlers && second in handlers && handlers[first].intent == insert == handlers[second].intent
  {
    var amount := Total(s.t.accounts[b]);
    var online := PayOnline(b, user, None);
    assert Decide(s.t, online) == Some(Supersede(b, Full, amount));
    hide HasSettled, Decide, Superseded;
    RunTwo(s, Read(first, online), Read(second, online));
    var both := [Read(first, online), Read(second, online)];
    RunTwo(Run(s, both).value, Write(first), Write(second));
    hide Apply;
    RunJoin(s, both, [Write(first), Write(second)]);
    steps := both + [Write(first), Write(second)];
  }

  lemma BothInsert(s: State, b: nat, amount: real, first: nat, second: nat)
    requires b < |s.t.accounts| && first in s.handlers && second in s.handlers && first != second
    requires s.handlers[first].intent == InsertTransfer(b, Full, amount) == s.handlers[second].intent
    ensures var transfer := Payment(b, Full, amount, Open, false);
            && Run(s, [Write(first), Write(second)]).Some?
            && Run(s, [Write(first), Write(second)]).value.t.payments == s.t.payments + [transfer] + [transfer]
  {
    RunTwo(s, Write(first), Write(second));
  }

  /**
   * From any confirmed booking with something to charge: two requests for a transfer both let older ones give way before
   * either inserts, and two full payments are open.
   */
  lemma TwoTransfersInsert(s: State, b: nat, user: UserId, first: nat, second: nat) returns (steps: seq<Step>, p: nat, q: nat)
    requires b < |s.t.accounts| && s.t.accounts[b].status == Confirmed && s.t.accounts[b].customer == Some(user)
    requires Total(s.t.accounts[b]) > 0.0 && !HasSettled(s.t.payments, b, Full)
    requires first !in s.handlers && second !in s.handlers && first != second
    ensures Run(s, steps).Some?
    ensures var payments := Run(s, steps).value.t.payments;
            && IsPayment(payments, p, b, Full, Open) && IsPayment(payments, q, b, Full, Open) && p != q
            && !OneLivePerKind(payments)
  {
    hide Apply;
    steps := BothSupersede(s, b, user, first, second);
    var s1 := Run(s, steps).value;
    BothInsert(s1, b, Total(s.t.accounts[b]), first, second);
    RunJoin(s, steps, [Write(first), Write(second)]);
    steps := steps + [Write(first), Write(second)];
    p, q := |s1.t.payments|, |s1.t.payments| + 1;
  }
}
