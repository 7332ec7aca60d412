/** Unpaid deposits lapse before the appointment: the ledger with a clock and a sweep at least once an hour. */
module DepositTiming {
  import opened Common
  import opened Ledger

  /** A step and the instant at which it runs. */
  datatype Event = Event(at: Instant, step: Step)

  /** The clock reading a step takes, if it takes one. */
  function Reading(step: Step): Option<Instant> {
    if step.SweepRead? then Some(step.now)
    else if step.Read? && step.request.Confirm? then Some(step.request.now)
    else if step.Read? && step.request.Cancel? then Some(step.request.now)
    else None
  }

  function Clock(start: Instant, events: seq<Event>): Instant {
    if events == [] then start else events[|events| - 1].at
  }

  /** The clock never goes back, and handlers read it. */
  ghost predicate Timed(start: Instant, events: seq<Event>) {
    events != [] ==>
      var last := events[|events| - 1];
      && Timed(start, events[..|events| - 1])
      && Clock(start, events[..|events| - 1]) <= last.at
      && (Reading(last.step).Some? ==> Reading(last.step).value == last.at)
  }

  function Play(events: seq<Event>): Option<State> {
    if events == [] then Some(INIT)
    else
      var before := Play(events[..|events| - 1]);
      if before.None? then None else Apply(before.value, events[|events| - 1].step)
  }

  ghost predicate CustomersStay(events: seq<Event>) {
    forall i :: 0 <= i < |events| ==> !events[i].step.ForgetCustomer?
  }

  /** A confirmation is written no later than the deadline it sets, which lies at least an hour after its read. */
  ghost predicate IsPrompt(s: State, event: Event) {
    event.step.Write? && event.step.handler in s.handlers && s.handlers[event.step.handler].intent.SetConfirmed? ==>
      var terms := s.handlers[event.step.handler].intent.terms;
      terms.Some? ==> event.at <= terms.value.1
  }

  ghost predicate ConfirmsPromptly(events: seq<Event>) {
    events != [] ==>
      && ConfirmsPromptly(events[..|events| - 1])
      && (var before := Play(events[..|events| - 1]); before.Some? ==> IsPrompt(before.value, events[|events| - 1]))
  }

  /** The j-th event is the read half of a sweep, made within the last hour, whose every write is done by now. */
  predicate DoneSweep(s: State, events: seq<Event>, j: nat, now: Instant) {
    && j < |events| && events[j].step.SweepRead? && now - events[j].at <= HOUR_MS
    && events[j].step.sweep in s.sweeps && s.sweeps[events[j].step.sweep] == {}
  }

  /** Some sweep that began within the last hour is done, or the run is not an hour old. */
  ghost predicate RecentlySwept(start: Instant, s: State, events: seq<Event>, now: Instant) {
    now - start <= HOUR_MS || exists j: nat :: DoneSweep(s, events, j, now)
  }

  // ----- Deadlines -------------------------------------------------------------------------------------------

  /** A deposit deadline lies at least an hour after the confirmation and more than an hour before the start. */
  lemma DeadlineLeavesAnHour(confirmedAt: Instant, scheduledAt: Instant)
    ensures var deadline := DepositDeadline(confirmedAt, scheduledAt);
            && (deadline.Some? <==> scheduledAt - confirmedAt > 2 * HOUR_MS)
            && (deadline.Some? ==> confirmedAt + HOUR_MS <= deadline.value && deadline.value + HOUR_MS < scheduledAt)
  {
  }

  /** Who owes a deposit is known, and by when; the deadline leaves more than an hour and is not before `since`. */
  ghost predicate OwesSince(a: Account, since: Instant) {
    && (a.status == Pending || a.status == DepositPending ==> a.customer.Some?)
    && (a.status == DepositPending ==>
          a.deadline.Some? && since <= a.deadline.value && a.deadline.value + HOUR_MS < a.scheduledAt)
  }

  /** Every booking owes in order, and those that a sweep has still to write may owe from before it. */
  ghost predicate AccountsSince(accounts: seq<Account>, since: Instant, listed: set<nat>, earlier: Instant) {
    forall b :: 0 <= b < |accounts| ==> OwesSince(accounts[b], if b in listed then earlier else since)
  }

  /** A confirmation in flight will set a deadline that leaves more than an hour, for a booking with a customer. */
  ghost predicate ConfirmFits(s: State, intent: Intent) {
    intent.SetConfirmed? && intent.terms.Some? ==>
      && intent.booking < |s.t.accounts| && s.t.accounts[intent.booking].customer.Some?
      && intent.terms.value.1 + HOUR_MS < s.t.accounts[intent.booking].scheduledAt
  }

  ghost predicate HandlersFit(s: State) {
    forall h :: h in s.handlers ==> ConfirmFits(s, s.handlers[h].intent)
  }

  /** Accounts are only added; who they belong to and when they start does not change while customers stay. */
  ghost predicate AccountsStay(accounts: seq<Account>, accounts': seq<Account>) {
    && |accounts| <= |accounts'|
    && forall b :: 0 <= b < |accounts| ==>
         accounts'[b].customer == accounts[b].customer && accounts'[b].scheduledAt == accounts[b].scheduledAt
  }

  lemma StepKeepsAccounts(s: State, step: Step)
    requires !step.ForgetCustomer?
    ensures Apply(s, step).Some? ==> AccountsStay(s.t.accounts, Apply(s, step).value.t.accounts)
  {
    hide Decide, Superseded, RefundedAll, AfterPayment;
  }

  /** A confirmation that is decided on has a customer and a deadline that leaves more than an hour. */
  lemma DecisionFits(s: State, request: Request, since: Instant, listed: set<nat>, earlier: Instant)
    requires AccountsSince(s.t.accounts, since, listed, earlier) && Decide(s.t, request).Some?
    ensures ConfirmFits(s, Decide(s.t, request).value)
  {
    hide Charge;
    if request.Confirm? {
      DeadlineLeavesAnHour(request.now, s.t.accounts[request.booking].scheduledAt);
      assert OwesSince(s.t.accounts[request.booking], if request.booking in listed then earlier else since);
    }
  }

  lemma HandlersStillFit(s: State, step: Step, s': State, since: Instant, listed: set<nat>, earlier: Instant)
    requires AccountsSince(s.t.accounts, since, listed, earlier) && HandlersFit(s)
    requires Apply(s, step) == Some(s') && !step.ForgetCustomer?
    ensures HandlersFit(s')
  {
    hide Decide, Perform, ConfirmFits;
    StepKeepsAccounts(s, step);
    forall h | h in s'.handlers ensures ConfirmFits(s', s'.handlers[h].intent) {
      if step.Read? && h == step.handler {
        DecisionFits(s, step.request, since, listed, earlier);
        FitsLater(s, s', s'.handlers[h].intent);
      } else if step.Write? && h == step.handler {
        NoConfirmLeft(s', s.handlers[h].intent);
      } else {
        FitsLater(s, s', s.handlers[h].intent);
      }
    }
  }

  lemma FitsLater(s: State, s': State, intent: Intent)
    requires AccountsStay(s.t.accounts, s'.t.accounts) && ConfirmFits(s, intent)
    ensures ConfirmFits(s', intent)
  {
  }

  lemma NoConfirmLeft(s: State, intent: Intent)
    requires Rest(intent).Some?
    ensures ConfirmFits(s, Rest(intent).value)
  {
  }

  /** A step at or after `since` keeps every deadline in order; a booking once written by the sweep is off its list. */
  lemma StepKeepsDeadlines(s: State, event: Event, s': State, since: Instant, listed: set<nat>, earlier: Instant)
    requires AccountsSince(s.t.accounts, since, listed, earlier) && HandlersFit(s) && earlier <= since <= event.at
    requires Apply(s, event.step) == Some(s') && !event.step.ForgetCustomer? && IsPrompt(s, event)
    ensures AccountsSince(s'.t.accounts, since, listed, earlier)
    ensures event.step.SweepWrite? ==> AccountsSince(s'.t.accounts, since, listed - {event.step.booking}, earlier)
  {
    hide Decide, Superseded, RefundedAll;
    var step := event.step;
    if step.Write? {
      assert ConfirmFits(s, s.handlers[step.handler].intent);
    }
    forall b | 0 <= b < |s'.t.accounts| ensures OwesSince(s'.t.accounts[b], if b in listed then earlier else since)
      ensures step.SweepWrite? && b == step.booking ==> OwesSince(s'.t.accounts[b], since)
    {
      assert b < |s.t.accounts| ==> OwesSince(s.t.accounts[b], if b in listed then earlier else since);
    }
  }

  lemma {:induction false} ClockIsLater(start: Instant, events: seq<Event>, i: nat)
    requires Timed(start, events) && i <= |events|
    ensures Timed(start, events[..i])
    ensures Clock(start, events[..i]) <= Clock(start, events)
  {
    if i < |events| {
      ClockIsLater(start, events[..|events| - 1], i);
      assert events[..|events| - 1][..i] == events[..i];
    } else {
      assert events[..i] == events;
    }
  }

  ghost predicate InOrderSince(s: State, since: Instant, listed: set<nat>, earlier: Instant) {
    AccountsSince(s.t.accounts, since, listed, earlier) && HandlersFit(s)
  }

  lemma NobodyOwes(since: Instant)
    ensures InOrderSince(INIT, since, {}, since)
  {
  }

  /** One more event keeps the order. */
  lemma EventKeepsOrder(s: State, event: Event, s': State, since: Instant, listed: set<nat>, earlier: Instant)
    requires InOrderSince(s, since, listed, earlier) && earlier <= since <= event.at
    requires Apply(s, event.step) == Some(s') && !event.step.ForgetCustomer? && IsPrompt(s, event)
    ensures InOrderSince(s', since, listed, earlier)
    ensures event.step.SweepWrite? ==> InOrderSince(s', since, listed - {event.step.booking}, earlier)
  {
    hide Apply, AccountsSince, HandlersFit, IsPrompt;
    StepKeepsDeadlines(s, event, s', since, listed, earlier);
    HandlersStillFit(s, event.step, s', since, listed, earlier);
  }

  lemma {:induction false} DeadlinesSinceStart(start: Instant, events: seq<Event>)
    requires Timed(start, events) && CustomersStay(events) && ConfirmsPromptly(events) && Play(events).Some?
    ensures InOrderSince(Play(events).value, start, {}, start) && start <= Clock(start, events)
  {
    hide Apply, InOrderSince, IsPrompt;
    if events == [] {
      NobodyOwes(start);
    } else {
      var n := |events| - 1;
      DeadlinesSinceStart(start, events[..n]);
      EventKeepsOrder(Play(events[..n]).value, events[n], Play(events).value, start, {}, start);
    }
  }

  /** The read half of a sweep lists everyone whose deadline lies before it. */
  lemma SweepListsTheLate(s: State, w: nat, now: Instant, s': State, start: Instant)
    requires InOrderSince(s, start, {}, start) && Apply(s, SweepRead(w, now)) == Some(s') && start <= now
    ensures InOrderSince(s', now, s'.sweeps[w], start)
  {
    forall b | 0 <= b < |s'.t.accounts| ensures OwesSince(s'.t.accounts[b], if b in s'.sweeps[w] then start else now) {
      assert OwesSince(s.t.accounts[b], start);
    }
    forall h | h in s'.handlers ensures ConfirmFits(s', s'.handlers[h].intent) {
      assert ConfirmFits(s, s.handlers[h].intent);
    }
  }

  /** The list of a sweep only shrinks, and only by its own writes. */
  lemma ListShrinks(s: State, step: Step, w: nat)
    requires w in s.sweeps
    ensures Apply(s, step).Some? ==>
              var sweeps := Apply(s, step).value.sweeps;
              && w in sweeps
              && sweeps[w] == if step.SweepWrite? && step.sweep == w then s.sweeps[w] - {step.booking} else s.sweeps[w]
  {
    hide Decide, Perform, Deliver;
  }

  /** After the read half of a sweep, a deadline before it belongs to a booking that the sweep has still to write. */
  lemma {:induction false} DeadlinesSinceSweep(start: Instant, events: seq<Event>, j: nat)
    requires Timed(start, events) && CustomersStay(events) && ConfirmsPromptly(events) && Play(events).Some?
    requires j < |events| && events[j].step.SweepRead?
    ensures var s, w := Play(events).value, events[j].step.sweep;
            w in s.sweeps && InOrderSince(s, events[j].at, s.sweeps[w], start)
    ensures start <= events[j].at <= Clock(start, events)
  {
    hide Apply, InOrderSince, IsPrompt;
    var n := |events| - 1;
    var s, s' := Play(events[..n]).value, Play(events).value;
    if j == n {
      DeadlinesSinceStart(start, events[..n]);
      SweepIsRead(s, events[n].step.sweep, events[n].step.now);
      SweepListsTheLate(s, events[n].step.sweep, events[n].at, s', start);
    } else {
      DeadlinesSinceSweep(start, events[..n], j);
      var w := events[j].step.sweep;
      ListShrinks(s, events[n].step, w);
      EventKeepsOrder(s, events[n], s', events[j].at, s.sweeps[w], start);
    }
  }

  lemma SweepIsRead(s: State, w: nat, now: Instant)
    ensures Apply(s, SweepRead(w, now)).Some? ==> w in Apply(s, SweepRead(w, now)).value.sweeps
  {
  }

  /**
   * No unpaid deposit reaches its appointment. When a sweep that began at most an hour ago has done all its writes, in
   * whatever interleaving with everything else, whoever still owes a deposit starts later than now; provided that
   * confirmations are written by the deadline they set and no customer is deleted.
   */
  lemma {:induction false} NoUnpaidDepositAtStart(start: Instant, events: seq<Event>, now: Instant, b: nat)
    requires Timed(start, events) && Clock(start, events) <= now && Play(events).Some?
    requires CustomersStay(events) && ConfirmsPromptly(events) && RecentlySwept(start, Play(events).value, events, now)
    requires b < |Play(events).value.t.accounts| && Play(events).value.t.accounts[b].status == DepositPending
    ensures now < Play(events).value.t.accounts[b].scheduledAt
  {
    hide Apply, HandlersFit;
    var s := Play(events).value;
    if now - start <= HOUR_MS {
      DeadlinesSinceStart(start, events);
      assert OwesSince(s.t.accounts[b], start);
    } else {
      var j: nat :| DoneSweep(s, events, j, now);
      DeadlinesSinceSweep(start, events, j);
      assert OwesSince(s.t.accounts[b], events[j].at);
    }
  }

  // ----- The hour is exact -----------------------------------------------------------------------------------

  lemma PlayOne(events: seq<Event>, event: Event)
    requires Play(events).Some? && Timed(0, events) && ConfirmsPromptly(events) && Clock(0, events) <= event.at
    requires Reading(event.step).Some? ==> Reading(event.step).value == event.at
    requires IsPrompt(Play(events).value, event)
    ensures Play(events + [event]) == Apply(Play(events).value, event.step)
    ensures Timed(0, events + [event]) && ConfirmsPromptly(events + [event]) && Clock(0, events + [event]) == event.at
  {
    hide Apply, IsPrompt;
    assert (events + [event])[..|events|] == events;
  }

  /** A booking just over two hours ahead, and its confirmation with a deposit due in an hour. */
  function LateAccount(): Account {
    NewAccount(Some(1), 2 * HOUR_MS + 1, 100.0, 100.0, false)
  }

  const BOOK := Event(0, Book(Some(1), 2 * HOUR_MS + 1, 100.0, 100.0, false))
  const CONFIRM := Event(0, Read(0, Confirm(0, 0, 50, true)))
  const WRITE := Event(0, Write(0))

  function Late(handlers: map<nat, Flight>): State {
    State(Tables([LateAccount()], []), handlers, map[], map[])
  }

  function LateFlight(): Flight {
    Flight(Confirm(0, 0, 50, true), SetConfirmed(0, Some((DepositFor(LateAccount(), 50), HOUR_MS))))
  }

  lemma LateBooked()
    ensures Apply(INIT, BOOK.step) == Some(Late(map[]))
  {
    assert [] + [LateAccount()] == [LateAccount()];
  }

  lemma LateDecided()
    ensures Apply(Late(map[]), CONFIRM.step) == Some(Late(map[0 := LateFlight()]))
  {
    hide DepositFor;
    assert DepositTerms(LateAccount(), 0, 50, true) == Some((DepositFor(LateAccount(), 50), HOUR_MS));
  }

  /** After the read of that confirmation. */
  lemma LateRead()
    ensures Timed(0, [BOOK, CONFIRM]) && ConfirmsPromptly([BOOK, CONFIRM]) && Clock(0, [BOOK, CONFIRM]) == 0
    ensures Play([BOOK, CONFIRM]) == Some(Late(map[0 := LateFlight()]))
  {
    hide Apply, Late, LateFlight;
    LateBooked();
    LateDecided();
    PlayOne([], BOOK);
    assert [] + [BOOK] == [BOOK];
    PlayOne([BOOK], CONFIRM);
    assert [BOOK] + [CONFIRM] == [BOOK, CONFIRM];
  }

  lemma LateConfirmation() returns (events: seq<Event>)
    ensures Timed(0, events) && ConfirmsPromptly(events) && CustomersStay(events) && Clock(0, events) == 0 && |events| == 3
    ensures Play(events).Some? && Play(events).value.sweeps == map[]
    ensures Play(events).value.t.accounts == [ConfirmedAccount(LateAccount(), Some((DepositFor(LateAccount(), 50), HOUR_MS)))]
  {
    LateRead();
    hide DepositFor;
    PlayOne([BOOK, CONFIRM], WRITE);
    events := [BOOK, CONFIRM, WRITE];
    assert [BOOK, CONFIRM] + [WRITE] == events;
  }

  /**
   * One millisecond more between sweeps, and a booking reaches its start with the deposit unpaid: confirmed two hours
   * and a millisecond ahead, swept at its very deadline, and not again until it starts.
   */
  lemma AnHourAndAMillisecondIsTooLong() returns (events: seq<Event>, j: nat)
    ensures Timed(0, events) && ConfirmsPromptly(events) && CustomersStay(events) && Play(events).Some?
    ensures var accounts := Play(events).value.t.accounts;
            && |accounts| == 1 && accounts[0].status == DepositPending
            && accounts[0].scheduledAt == Clock(0, events) + HOUR_MS + 1
    ensures DoneSweep(Play(events).value, events, j, Clock(0, events)) && events[j].at == Clock(0, events)
  {
    hide DepositFor;
    events := LateConfirmation();
    var sweep := Event(HOUR_MS, SweepRead(0, HOUR_MS));
    PlayOne(events, sweep);
    j := 3;
    events := events + [sweep];
    assert Play(events).value.sweeps[0] == {};
  }

  /** A confirmation written only when the booking starts, after a sweep that is done: nothing is left to lapse it. */
  lemma LateWriteIsTooLate() returns (events: seq<Event>)
    ensures Timed(0, events) && CustomersStay(events) && Play(events).Some?
    ensures var accounts := Play(events).value.t.accounts;
            && |accounts| == 1 && accounts[0].status == DepositPending && accounts[0].scheduledAt == Clock(0, events)
    ensures RecentlySwept(0, Play(events).value, events, Clock(0, events)) && !ConfirmsPromptly(events)
  {
    hide DepositFor;
    var start := 2 * HOUR_MS + 1;
    var sweep, late := Event(start, SweepRead(0, start)), Event(start, Write(0));
    LateRead();
    PlayOne([BOOK, CONFIRM], sweep);
    assert [BOOK, CONFIRM] + [sweep] == [BOOK, CONFIRM, sweep];
    events := [BOOK, CONFIRM, sweep, late];
    assert events[..3] == [BOOK, CONFIRM, sweep];
    assert Play(events) == Apply(Play([BOOK, CONFIRM, sweep]).value, late.step);
    assert DoneSweep(Play(events).value, events, 2, start);
    assert !IsPrompt(Play(events[..3]).value, late);
  }

  /** A customer deleted while the deposit is pending: the sweep passes the booking over, and it starts unpaid. */
  lemma ForgottenCustomerIsNotSwept() returns (events: seq<Event>)
    ensures Timed(0, events) && ConfirmsPromptly(events) && Play(events).Some?
    ensures var accounts := Play(events).value.t.accounts;
            && |accounts| == 1 && accounts[0].status == DepositPending && accounts[0].scheduledAt == Clock(0, events)
    ensures RecentlySwept(0, Play(events).value, events, Clock(0, events)) && !CustomersStay(events)
  {
    hide DepositFor;
    var start := 2 * HOUR_MS + 1;
    var forget, sweep := Event(0, ForgetCustomer(0)), Event(start, SweepRead(0, start));
    events := LateConfirmation();
    PlayOne(events, forget);
    PlayOne(events + [forget], sweep);
    events := events + [forget] + [sweep];
    assert events[3] == forget && events[4] == sweep;
    assert DoneSweep(Play(events).value, events, 4, start);
  }
}
