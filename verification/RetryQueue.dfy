/**
 * One work queue with its retry and dead-letter queues, and the consumers' run-ack-retry-or-dead-letter protocol.
 *
 * Every copy of a message that the broker holds has a tag. A retry is two steps, publish then acknowledge, and a
 * consumer may lose its connection between any two steps, which puts what it had not acknowledged back in the queue.
 */
module RetryQueue {
  import opened Common

  type MessageId = nat
  type Tag = nat

  const MAX_RETRY_ATTEMPTS: nat := 3

  /** Milliseconds to wait before each retry. */
  const RETRY_BACKOFF_MS: seq<nat> := [5000, 15000, 45000]

  /** What a consumer has done with a delivery. */
  datatype Phase = Running | HandlerDone | HandlerFailed | Republished

  datatype Place = Main | Unacked(phase: Phase) | Retry(due: Instant) | DeadLetter

  /** `count` is the x-retry-count header. */
  datatype Copy = Copy(id: MessageId, count: nat, place: Place)

  /** `runs` and `delays` record, per message, how often a handler has started and the waits imposed so far. */
  datatype State = State(
    copies: map<Tag, Copy>, next: Tag, published: set<MessageId>, handled: set<MessageId>,
    runs: map<MessageId, nat>, delays: map<MessageId, seq<nat>>)

  const INIT := State(map[], 0, {}, {}, map[], map[])

  datatype Step =
    | Publish(id: MessageId)
    | Deliver(tag: Tag)
    | Succeed(tag: Tag)
    | FailHandler(tag: Tag)
    | PublishRetry(tag: Tag, now: Instant)
    | Ack(tag: Tag)
    | Nack(tag: Tag)
    | Expire(tag: Tag, now: Instant)
    | LoseConnection(tag: Tag)

  /** The wait before a retry; past the end of the table the last entry applies. */
  function Backoff(attempt: nat): nat
    requires attempt > 0
  {
    if attempt - 1 < |RETRY_BACKOFF_MS| then RETRY_BACKOFF_MS[attempt - 1] else RETRY_BACKOFF_MS[|RETRY_BACKOFF_MS| - 1]
  }

  function Runs(s: State, id: MessageId): nat {
    if id in s.runs then s.runs[id] else 0
  }

  function Delays(s: State, id: MessageId): seq<nat> {
    if id in s.delays then s.delays[id] else []
  }

  function Move(s: State, tag: Tag, place: Place): State
    requires tag in s.copies
  {
    s.(copies := s.copies[tag := s.copies[tag].(place := place)])
  }

  /** A message published to the retry queue with its new count and its expiration. */
  function WithRetry(s: State, id: MessageId, attempt: nat, now: Instant): State
    requires attempt > 0
  {
    s.(copies := s.copies[s.next := Copy(id, attempt, Retry(now + Backoff(attempt)))], next := s.next + 1,
       delays := s.delays[id := Delays(s, id) + [Backoff(attempt)]])
  }

  function Apply(s: State, step: Step): Option<State> {
    if step.Publish? then
      if step.id in s.published then None
      else Some(s.(copies := s.copies[s.next := Copy(step.id, 0, Main)], next := s.next + 1, published := s.published + {step.id}))
    else if step.tag !in s.copies then None
    else ApplyTo(s, step, step.tag, s.copies[step.tag])
  }

  function ApplyTo(s: State, step: Step, tag: Tag, copy: Copy): Option<State>
    requires tag in s.copies && copy == s.copies[tag]
  {
    match step
    case Deliver(_) =>
      if copy.place != Main then None
      else Some(Move(s, tag, Unacked(Running)).(runs := s.runs[copy.id := Runs(s, copy.id) + 1]))
    case Succeed(_) =>
      if copy.place != Unacked(Running) then None
      else Some(Move(s, tag, Unacked(HandlerDone)).(handled := s.handled + {copy.id}))
    case FailHandler(_) =>
      if copy.place != Unacked(Running) then None else Some(Move(s, tag, Unacked(HandlerFailed)))
    case PublishRetry(_, now) =>
      if copy.place != Unacked(HandlerFailed) || copy.count + 1 > MAX_RETRY_ATTEMPTS then None
      else Some(WithRetry(Move(s, tag, Unacked(Republished)), copy.id, copy.count + 1, now))
    case Ack(_) =>
      if copy.place != Unacked(HandlerDone) && copy.place != Unacked(Republished) then None
      else Some(s.(copies := s.copies - {tag}))
    case Nack(_) =>
      if copy.place != Unacked(HandlerFailed) || copy.count + 1 <= MAX_RETRY_ATTEMPTS then None
      else Some(Move(s, tag, DeadLetter))
    case Expire(_, now) =>
      if !copy.place.Retry? || now < copy.place.due then None else Some(Move(s, tag, Main))
    case LoseConnection(_) =>
      if !copy.place.Unacked? then None else Some(Move(s, tag, Main))
    case Publish(_) => None
  }

  function Run(s: State, steps: seq<Step>): Option<State> {
    if steps == [] then Some(s)
    else
      var before := Run(s, steps[..|steps| - 1]);
      if before.None? then None else Apply(before.value, steps[|steps| - 1])
  }

  // ----- No message is lost ----------------------------------------------------------------------------------

  /** A copy that still stands for its message: not one whose work has been done or passed on. */
  predicate Live(copy: Copy) {
    copy.place != Unacked(HandlerDone) && copy.place != Unacked(Republished)
  }

  predicate IsLive(s: State, tag: Tag, id: MessageId) {
    tag in s.copies && s.copies[tag].id == id && Live(s.copies[tag])
  }

  ghost predicate NoneLost(s: State) {
    && (forall tag :: tag in s.copies ==> tag < s.next && s.copies[tag].id in s.published && s.copies[tag].count <= MAX_RETRY_ATTEMPTS)
    && (forall id :: id in s.published ==> id in s.handled || exists tag :: IsLive(s, tag, id))
  }

  /** Other messages' live copies stay as they are under a step on one copy. */
  lemma StepLosesNone(s: State, step: Step, s': State)
    requires NoneLost(s) && Apply(s, step) == Some(s')
    ensures NoneLost(s')
  {
    forall id | id in s'.published && id !in s'.handled ensures exists tag :: IsLive(s', tag, id) {
      if step.Publish? && step.id == id {
        assert IsLive(s', s.next, id);
      } else {
        var tag :| IsLive(s, tag, id);
        if step.PublishRetry? && step.tag == tag {
          assert IsLive(s', s.next, id);
        } else {
          assert IsLive(s', tag, id);
        }
      }
    }
  }

  lemma {:induction false} RunLosesNone(s: State, steps: seq<Step>)
    requires NoneLost(s) && Run(s, steps).Some?
    ensures NoneLost(Run(s, steps).value)
  {
    hide Apply;
    if steps != [] {
      var n := |steps| - 1;
      RunLosesNone(s, steps[..n]);
      StepLosesNone(Run(s, steps[..n]).value, steps[n], Run(s, steps).value);
    }
  }

  /**
   * In every run, with consumers failing between any two steps: a published message has been handled, or the broker
   * holds a copy of it; and no copy is ever retried more than three times.
   */
  lemma {:induction false} NoMessageIsLost(steps: seq<Step>, id: MessageId)
    requires Run(INIT, steps).Some? && id in Run(INIT, steps).value.published
    ensures var s := Run(INIT, steps).value;
            id in s.handled || exists tag :: tag in s.copies && s.copies[tag].id == id && s.copies[tag].count <= MAX_RETRY_ATTEMPTS
  {
    RunLosesNone(INIT, steps);
    var s := Run(INIT, steps).value;
    if id !in s.handled {
      var tag :| IsLive(s, tag, id);
    }
  }

  // ----- Without crashes -------------------------------------------------------------------------------------

  /** How often the handler has started for a message, by where its live copy is. */
  predicate RunsFit(copy: Copy, runs: nat) {
    match copy.place
    case Main => runs == copy.count
    case Retry(_) => runs == copy.count
    case DeadLetter => runs == copy.count + 1 && copy.count == MAX_RETRY_ATTEMPTS
    case Unacked(_) => runs == copy.count + 1
  }

  ghost predicate CopyFits(s: State, tag: Tag) {
    tag in s.copies && Live(s.copies[tag]) ==>
      && s.copies[tag].id !in s.handled
      && RunsFit(s.copies[tag], Runs(s, s.copies[tag].id))
      && s.copies[tag].count <= |RETRY_BACKOFF_MS|
      && Delays(s, s.copies[tag].id) == RETRY_BACKOFF_MS[..s.copies[tag].count]
  }

  /** One live copy until handled, none after; runs and waits as its count says. */
  ghost predicate Orderly(s: State) {
    && NoneLost(s)
    && (forall t1, t2, id :: IsLive(s, t1, id) && IsLive(s, t2, id) ==> t1 == t2)
    && (forall tag :: CopyFits(s, tag))
    && (forall id :: id in s.handled ==> 1 <= Runs(s, id) <= MAX_RETRY_ATTEMPTS + 1 && Delays(s, id) <= RETRY_BACKOFF_MS)
    && (forall id :: id in s.runs || id in s.delays ==> id in s.published)
    && (forall id :: id in s.handled ==> id in s.published)
  }

  /** Messages other than the one a step is about keep their records. */
  lemma OthersFit(s: State, step: Step, s': State, id: MessageId, tag: Tag)
    requires Orderly(s) && Apply(s, step) == Some(s') && !step.LoseConnection?
    requires IsLive(s', tag, id)
    requires step.Publish? ==> step.id != id
    requires !step.Publish? ==> s.copies[step.tag].id != id
    ensures IsLive(s, tag, id) && CopyFits(s', tag)
  {
    assert CopyFits(s, tag);
  }

  lemma PublishIsOrderly(s: State, step: Step, s': State)
    requires Orderly(s) && step.Publish? && Apply(s, step) == Some(s')
    ensures Orderly(s')
  {
    StepLosesNone(s, step, s');
    forall tag ensures CopyFits(s', tag) {
      if tag in s'.copies && Live(s'.copies[tag]) && s'.copies[tag].id != step.id {
        OthersFit(s, step, s', s'.copies[tag].id, tag);
      }
    }
    forall t1, t2, id | IsLive(s', t1, id) && IsLive(s', t2, id) ensures t1 == t2 {
      if id != step.id {
        assert IsLive(s, t1, id) && IsLive(s, t2, id);
      }
    }
  }

  /** The message a step is about: what became of its live copy. */
  lemma OwnCopyFits(s: State, step: Step, s': State, tag: Tag)
    requires Orderly(s) && !step.Publish? && !step.LoseConnection? && Apply(s, step) == Some(s')
    requires IsLive(s', tag, s.copies[step.tag].id)
    ensures CopyFits(s', tag)
    ensures tag == (if step.PublishRetry? then s.next else if step.Ack? then tag else step.tag)
  {
    hide Orderly;
    PairFits(s, step.tag, tag, s.copies[step.tag].id);
  }

  lemma PairFits(s: State, own: Tag, tag: Tag, id: MessageId)
    requires Orderly(s) && own in s.copies
    ensures own < s.next && s.copies[own].count <= MAX_RETRY_ATTEMPTS && s.next !in s.copies
    ensures CopyFits(s, own) && CopyFits(s, tag)
    ensures IsLive(s, own, id) && IsLive(s, tag, id) ==> own == tag
  {
  }

  lemma CopiesFit(s: State, step: Step, s': State)
    requires Orderly(s) && !step.Publish? && !step.LoseConnection? && Apply(s, step) == Some(s')
    ensures forall tag :: CopyFits(s', tag)
    ensures forall t1, t2, id :: IsLive(s', t1, id) && IsLive(s', t2, id) ==> t1 == t2
  {
    var own := s.copies[step.tag].id;
    hide Apply, Orderly;
    forall tag ensures CopyFits(s', tag) {
      if tag in s'.copies && Live(s'.copies[tag]) {
        if s'.copies[tag].id == own {
          OwnCopyFits(s, step, s', tag);
        } else {
          OthersFit(s, step, s', s'.copies[tag].id, tag);
        }
      }
    }
    forall t1, t2, id | IsLive(s', t1, id) && IsLive(s', t2, id) ensures t1 == t2 {
      StaysUnique(s, step, s', t1, t2, id);
    }
  }

  lemma StaysUnique(s: State, step: Step, s': State, t1: Tag, t2: Tag, id: MessageId)
    requires Orderly(s) && !step.Publish? && !step.LoseConnection? && Apply(s, step) == Some(s')
    requires IsLive(s', t1, id) && IsLive(s', t2, id)
    ensures t1 == t2
  {
    if id == s.copies[step.tag].id {
      OwnCopyFits(s, step, s', t1);
      OwnCopyFits(s, step, s', t2);
      assert step.Ack? ==> IsLive(s, t1, id) && IsLive(s, t2, id);
    } else {
      OthersFit(s, step, s', id, t1);
      OthersFit(s, step, s', id, t2);
    }
  }

  lemma RecordsFit(s: State, step: Step, s': State)
    requires Orderly(s) && !step.Publish? && !step.LoseConnection? && Apply(s, step) == Some(s')
    ensures forall id :: id in s'.handled ==> 1 <= Runs(s', id) <= MAX_RETRY_ATTEMPTS + 1 && Delays(s', id) <= RETRY_BACKOFF_MS
    ensures forall id :: id in s'.runs || id in s'.delays ==> id in s'.published
    ensures forall id :: id in s'.handled ==> id in s'.published
  {
    assert CopyFits(s, step.tag);
  }

  lemma CopyStepIsOrderly(s: State, step: Step, s': State)
    requires Orderly(s) && !step.Publish? && !step.LoseConnection? && Apply(s, step) == Some(s')
    ensures Orderly(s')
  {
    hide Apply, CopyFits, IsLive, NoneLost;
    assert NoneLost(s);
    StepLosesNone(s, step, s');
    CopiesFit(s, step, s');
    RecordsFit(s, step, s');
  }

  predicate NoCrash(steps: seq<Step>) {
    forall i :: 0 <= i < |steps| ==> !steps[i].LoseConnection?
  }

  lemma {:induction false} RunIsOrderly(steps: seq<Step>)
    requires Run(INIT, steps).Some? && NoCrash(steps)
    ensures Orderly(Run(INIT, steps).value)
  {
    hide Apply;
    if steps != [] {
      var n := |steps| - 1;
      RunIsOrderly(steps[..n]);
      var s, s' := Run(INIT, steps[..n]).value, Run(INIT, steps).value;
      if steps[n].Publish? {
        PublishIsOrderly(s, steps[n], s');
      } else {
        CopyStepIsOrderly(s, steps[n], s');
      }
    }
  }

  /**
   * Without crashes a message has one live copy until it is handled and none after, its handler starts at most four
   * times, and the waits between are 5, 15 and 45 seconds in that order; a dead letter has had all of them.
   */
  lemma {:induction false} RetriesAreBounded(steps: seq<Step>, id: MessageId)
    requires Run(INIT, steps).Some? && NoCrash(steps) && id in Run(INIT, steps).value.published
    ensures var s := Run(INIT, steps).value;
            && (id in s.handled <==> !exists tag :: IsLive(s, tag, id))
            && (forall t1, t2 :: IsLive(s, t1, id) && IsLive(s, t2, id) ==> t1 == t2)
            && Runs(s, id) <= 4 && Delays(s, id) <= [5000, 15000, 45000]
            && (forall tag :: IsLive(s, tag, id) ==> |Delays(s, id)| == s.copies[tag].count)
            && (forall tag :: IsLive(s, tag, id) && s.copies[tag].place == DeadLetter ==>
                  Runs(s, id) == 4 && Delays(s, id) == [5000, 15000, 45000])
  {
    RunIsOrderly(steps);
    var s := Run(INIT, steps).value;
    forall tag | IsLive(s, tag, id) ensures CopyFits(s, tag) {
    }
  }

  // ----- The waits -------------------------------------------------------------------------------------------

  lemma {:induction false} RunSnoc(s: State, steps: seq<Step>, step: Step)
    ensures Run(s, steps + [step]) == if Run(s, steps).Some? then Apply(Run(s, steps).value, step) else None
  {
    hide Apply;
    assert (steps + [step])[..|steps|] == steps;
  }

  /** Five seconds, then fifteen, then forty-five. */
  function Wait(attempt: nat): nat {
    match attempt
    case 0 => 0
    case 1 => 5000
    case 2 => 15000
    case _ => 45000
  }

  /** The copy is still in the retry queue, or it has left it, once, when it was due or later. */
  ghost predicate LeavesWhenDue(s: State, steps: seq<Step>, tag: Tag, due: Instant) {
    || (tag in s.copies && s.copies[tag].place == Retry(due) && forall at :: Expire(tag, at) !in steps)
    || ((tag in s.copies ==> !s.copies[tag].place.Retry?)
        && (exists at :: Expire(tag, at) in steps)
        && forall at :: Expire(tag, at) in steps ==> at >= due)
  }

  lemma StepLeavesWhenDue(s: State, steps: seq<Step>, step: Step, s': State, tag: Tag, due: Instant)
    requires tag < s.next && LeavesWhenDue(s, steps, tag, due) && Apply(s, step) == Some(s')
    ensures tag < s'.next && LeavesWhenDue(s', steps + [step], tag, due)
  {
    if at :| Expire(tag, at) in steps {
      assert Expire(tag, at) in steps + [step];
    } else if step.Expire? && step.tag == tag {
      assert step == Expire(tag, step.now) && step in steps + [step];
    }
  }

  /**
   * With any number of lost connections and whatever else happens: the copy that a retry publishes stays in the retry
   * queue, unhandled, until its wait is over, and returns once.
   */
  lemma {:induction false} NotBackBeforeItsTime(s: State, tag: Tag, now: Instant, more: seq<Step>)
    requires Apply(s, PublishRetry(tag, now)).Some? && Run(Apply(s, PublishRetry(tag, now)).value, more).Some?
    ensures tag in s.copies && s.copies[tag].count < 3
    ensures LeavesWhenDue(Run(Apply(s, PublishRetry(tag, now)).value, more).value, more, s.next,
                          now + Wait(s.copies[tag].count + 1))
    ensures s.next < Run(Apply(s, PublishRetry(tag, now)).value, more).value.next
    decreases |more|
  {
    if more != [] {
      var n := |more| - 1;
      NotBackBeforeItsTime(s, tag, now, more[..n]);
      hide Apply, LeavesWhenDue;
      var first := Apply(s, PublishRetry(tag, now)).value;
      var before, after := Run(first, more[..n]).value, Run(first, more).value;
      StepLeavesWhenDue(before, more[..n], more[n], after, s.next, now + Wait(s.copies[tag].count + 1));
      assert more == more[..n] + [more[n]];
    }
  }

  // ----- The consumer ----------------------------------------------------------------------------------------

  /** What a consumer does with a delivery whose handler succeeds or throws. */
  function Consumption(tag: Tag, count: nat, succeeds: bool, now: Instant): seq<Step> {
    if succeeds then [Succeed(tag)] + [Ack(tag)]
    else if count + 1 <= MAX_RETRY_ATTEMPTS then [FailHandler(tag)] + [PublishRetry(tag, now)] + [Ack(tag)]
    else [FailHandler(tag)] + [Nack(tag)]
  }

  /** The message is handled and gone, or waits with its next count, or is a dead letter after its third retry. */
  ghost predicate IsConsumed(s: State, s': State, tag: Tag, succeeds: bool, now: Instant)
    requires tag in s.copies
  {
    var copy := s.copies[tag];
    && s'.published == s.published && s'.runs == s.runs
    && s'.handled == (if succeeds then s.handled + {copy.id} else s.handled)
    && s'.copies == if succeeds then s.copies - {tag}
                    else if copy.count >= 3 then s.copies[tag := Copy(copy.id, copy.count, DeadLetter)]
                    else s.copies[s.next := Copy(copy.id, copy.count + 1, Retry(now + Wait(copy.count + 1)))] - {tag}
  }

  lemma SuccessIs(s: State, tag: Tag, now: Instant)
    requires tag in s.copies && s.copies[tag].place == Unacked(Running)
    ensures var done := Apply(s, Succeed(tag));
            done.Some? && (var last := Apply(done.value, Ack(tag)); last.Some? && IsConsumed(s, last.value, tag, true, now))
  {
    var last := Apply(Apply(s, Succeed(tag)).value, Ack(tag)).value;
    assert last.copies == s.copies - {tag};
  }

  lemma RetryIs(s: State, tag: Tag, now: Instant)
    requires NoneLost(s) && tag in s.copies && s.copies[tag].place == Unacked(Running) && s.copies[tag].count < 3
    ensures var failed := Apply(s, FailHandler(tag));
            && failed.Some?
            && var sent := Apply(failed.value, PublishRetry(tag, now));
            && sent.Some?
            && (var last := Apply(sent.value, Ack(tag)); last.Some? && IsConsumed(s, last.value, tag, false, now))
  {
    var copy := s.copies[tag];
    assert tag < s.next;
    var failed := Apply(s, FailHandler(tag)).value;
    var sent := Apply(failed, PublishRetry(tag, now)).value;
    var retry := Copy(copy.id, copy.count + 1, Retry(now + Wait(copy.count + 1)));
    assert sent.copies == failed.copies[tag := copy.(place := Unacked(Republished))][s.next := retry];
    assert Apply(sent, Ack(tag)).value.copies == s.copies[s.next := retry] - {tag};
  }

  lemma DeadLetterIs(s: State, tag: Tag, now: Instant)
    requires NoneLost(s) && tag in s.copies && s.copies[tag].place == Unacked(Running) && s.copies[tag].count >= 3
    ensures var failed := Apply(s, FailHandler(tag));
            failed.Some? && (var last := Apply(failed.value, Nack(tag)); last.Some? && IsConsumed(s, last.value, tag, false, now))
  {
    var last := Apply(Apply(s, FailHandler(tag)).value, Nack(tag)).value;
    assert last.copies == s.copies[tag := s.copies[tag].(place := DeadLetter)];
  }

  lemma ConsumptionIs(s: State, tag: Tag, succeeds: bool, now: Instant)
    requires NoneLost(s) && tag in s.copies && s.copies[tag].place == Unacked(Running)
    ensures var s' := Run(s, Consumption(tag, s.copies[tag].count, succeeds, now));
            s'.Some? ==> IsConsumed(s, s'.value, tag, succeeds, now)
  {
    hide Run, Apply, IsConsumed;
    if succeeds {
      RunTwo(s, Succeed(tag), Ack(tag));
      SuccessIs(s, tag, now);
    } else if s.copies[tag].count + 1 <= MAX_RETRY_ATTEMPTS {
      RunTwo(s, FailHandler(tag), PublishRetry(tag, now));
      RunSnoc(s, [FailHandler(tag)] + [PublishRetry(tag, now)], Ack(tag));
      RetryIs(s, tag, now);
    } else {
      RunTwo(s, FailHandler(tag), Nack(tag));
      DeadLetterIs(s, tag, now);
    }
  }

  lemma RunTwo(s: State, first: Step, second: Step)
    ensures Run(s, [first] + [second]) == if Apply(s, first).Some? then Apply(Apply(s, first).value, second) else None
  {
    hide Apply;
    RunSnoc(s, [], first);
    RunSnoc(s, [first], second);
    assert [] + [first] == [first];
  }

  /** A consumer and its channel to the broker. */
  class Consumer {
    var broker: State

    constructor (broker: State)
      ensures this.broker == broker
    {
      this.broker := broker;
    }

    method Do(step: Step, ghost start: State, ghost before: seq<Step>)
      requires Apply(broker, step).Some? && Run(start, before) == Some(broker)
      modifies this
      ensures Apply(old(broker), step) == Some(broker) && Run(start, before + [step]) == Some(broker)
    {
      RunSnoc(start, before, step);
      broker := Apply(broker, step).value;
    }

    /** `ack`: run the handler, then acknowledge, publish a retry and acknowledge, or dead-letter. */
    method HandleDelivery(tag: Tag, succeeds: bool, now: Instant)
      requires NoneLost(broker) && tag in broker.copies && broker.copies[tag].place == Unacked(Running)
      modifies this
      ensures Run(old(broker), Consumption(tag, old(broker).copies[tag].count, succeeds, now)) == Some(broker)
      ensures NoneLost(broker)
      ensures IsConsumed(old(broker), broker, tag, succeeds, now)
    {
      hide IsConsumed;
      ghost var start := broker;
      var attempt := broker.copies[tag].count + 1;
      ghost var steps := Consumption(tag, broker.copies[tag].count, succeeds, now);
      if succeeds {
        Do(Succeed(tag), start, []);
        Do(Ack(tag), start, [Succeed(tag)]);
      } else {
        Do(FailHandler(tag), start, []);
        if attempt <= MAX_RETRY_ATTEMPTS {
          Do(PublishRetry(tag, now), start, [FailHandler(tag)]);
          Do(Ack(tag), start, [FailHandler(tag)] + [PublishRetry(tag, now)]);
        } else {
          Do(Nack(tag), start, [FailHandler(tag)]);
        }
      }
      RunLosesNone(start, steps);
      ConsumptionIs(start, tag, succeeds, now);
    }
  }
}
