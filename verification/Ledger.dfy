/**
 * Bookings as the payment code sees them, their payments, and the handlers that change either.
 *
 * A handler reads, decides, and writes later: between its read and its writes every other handler may run, because the
 * code holds no lock and most of its writes are not guarded. Webhook deliveries and sweeps for unpaid deposits are
 * split in the same way; their writes are guarded. Only what the code puts into one database transaction is one step.
 * `Apply` is `None` where a handler refuses.
 */
module Ledger {
  import opened Common

  datatype Kind = Deposit | Full

  datatype PaymentStatus = Open | Settled | Failed | Refunded

  datatype Payment = Payment(booking: nat, kind: Kind, amount: real, status: PaymentStatus, cash: bool)

  /** The money columns of a booking. */
  datatype Account = Account(
    customer: Option<UserId>, status: BookingStatus, scheduledAt: Instant, totalPrice: real, finalPrice: real,
    deposit: Option<real>, deadline: Option<Instant>)

  /** Ids are indices. */
  datatype Tables = Tables(accounts: seq<Account>, payments: seq<Payment>)

  datatype PayError = NotFound | NotPayable | AlreadyPaid | NothingLeft

  // ----- Amounts ---------------------------------------------------------------------------------------------

  /** What the customer is charged in all: the final price, or the total price when there is no positive final price. */
  function Total(a: Account): real {
    if a.finalPrice > 0.0 then a.finalPrice else a.totalPrice
  }

  function Ceil(x: real): int {
    -((-x).Floor)
  }

  predicate IsPayment(payments: seq<Payment>, p: nat, b: nat, kind: Kind, status: PaymentStatus) {
    p < |payments| && payments[p].booking == b && payments[p].kind == kind && payments[p].status == status
  }

  predicate HasSettled(payments: seq<Payment>, b: nat, kind: Kind) {
    exists p :: 0 <= p < |payments| && IsPayment(payments, p, b, kind, Settled)
  }

  /** What a new payment is for; `chosen` matters only while a deposit is pending. */
  function Charge(t: Tables, b: nat, chosen: Kind): Result<(Kind, real), PayError>
    requires b < |t.accounts|
  {
    var a := t.accounts[b];
    if a.status == DepositPending then
      if HasSettled(t.payments, b, chosen) then Err(AlreadyPaid)
      else if chosen.Full? then Ok((Full, Total(a)))
      else if a.deposit.None? then Err(NothingLeft)
      else Ok((Deposit, a.deposit.value))
    else if a.status == Confirmed || a.status == DepositPaid then
      var paid := if a.status == DepositPaid && a.deposit.Some? then a.deposit.value else 0.0;
      if HasSettled(t.payments, b, Full) then Err(AlreadyPaid)
      else if Total(a) - paid <= 0.0 then Err(NothingLeft)
      else Ok((Full, Total(a) - paid))
    else Err(NotPayable)
  }

  // ----- Writes ----------------------------------------------------------------------------------------------

  /** Older open payments of the same kind give way to a new one. */
  function Superseded(payments: seq<Payment>, b: nat, kind: Kind): (r: seq<Payment>)
    ensures |r| == |payments|
  {
    seq(|payments|, i requires 0 <= i < |payments| =>
      if IsPayment(payments, i, b, kind, Open) then payments[i].(status := Failed) else payments[i])
  }

  function RefundedAll(payments: seq<Payment>, b: nat): (r: seq<Payment>)
    ensures |r| == |payments|
  {
    seq(|payments|, i requires 0 <= i < |payments| =>
      if payments[i].booking == b && payments[i].status == Settled then payments[i].(status := Refunded) else payments[i])
  }

  function WithStatus(accounts: seq<Account>, b: nat, status: BookingStatus): (r: seq<Account>)
    requires b < |accounts|
    ensures |r| == |accounts|
  {
    accounts[b := accounts[b].(status := status)]
  }

  /** A booking's status once a payment of this kind is settled: a deposit is not guarded, a full payment is. */
  function AfterPayment(status: BookingStatus, kind: Kind): BookingStatus {
    if kind.Deposit? then DepositPaid
    else if status in {Confirmed, DepositPending, DepositPaid} then Paid
    else status
  }

  function Cash(t: Tables, b: nat, kind: Kind, amount: real): Tables
    requires b < |t.accounts|
  {
    Tables(WithStatus(t.accounts, b, AfterPayment(t.accounts[b].status, kind)),
           t.payments + [Payment(b, kind, amount, Settled, true)])
  }

  predicate IsOpen(t: Tables, p: nat) {
    p < |t.payments| && t.payments[p].status == Open && t.payments[p].booking < |t.accounts|
  }

  /** The payment is settled and its booking moves on. */
  function Settle(t: Tables, p: nat): Tables
    requires IsOpen(t, p)
  {
    var payment := t.payments[p];
    Tables(WithStatus(t.accounts, payment.booking, AfterPayment(t.accounts[payment.booking].status, payment.kind)),
           t.payments[p := payment.(status := Settled)])
  }

  function Fail(t: Tables, p: nat): Tables
    requires IsOpen(t, p)
  {
    t.(payments := t.payments[p := t.payments[p].(status := Failed)])
  }

  // ----- Deposit deadlines -----------------------------------------------------------------------------------

  /** When an unpaid deposit lapses; None when the booking starts too soon to ask for one. */
  function DepositDeadline(confirmedAt: Instant, scheduledAt: Instant): Option<Instant> {
    var gap := scheduledAt - confirmedAt;
    if gap > 7 * 24 * HOUR_MS then Some(confirmedAt + 24 * HOUR_MS)
    else if gap > 24 * HOUR_MS then Some(confirmedAt + 6 * HOUR_MS)
    else if gap > 6 * HOUR_MS then Some(confirmedAt + 2 * HOUR_MS)
    else if gap > 2 * HOUR_MS then Some(confirmedAt + HOUR_MS)
    else None
  }

  /** A percentage of the charge, rounded up to a whole unit. */
  function DepositFor(a: Account, depositPercent: nat): real {
    Ceil(Total(a) * depositPercent as real / 100.0) as real
  }

  /** The deposit and deadline a confirmation asks for: when the store wants one, can receive it, and there is time. */
  function DepositTerms(a: Account, now: Instant, depositPercent: nat, configActive: bool): Option<(real, Instant)> {
    var deadline := DepositDeadline(now, a.scheduledAt);
    if depositPercent > 0 && configActive && deadline.Some? then Some((DepositFor(a, depositPercent), deadline.value))
    else None
  }

  function ConfirmedAccount(a: Account, terms: Option<(real, Instant)>): Account {
    if terms.None? then a.(status := Confirmed)
    else a.(status := DepositPending, deposit := Some(terms.value.0), deadline := Some(terms.value.1))
  }

  predicate IsExpired(a: Account, now: Instant) {
    a.status == DepositPending && a.deadline.Some? && a.deadline.value < now
  }

  // ----- Handlers --------------------------------------------------------------------------------------------

  datatype Request =
    | Confirm(booking: nat, now: Instant, depositPercent: nat, configActive: bool)
    | Reject(booking: nat)
    | Complete(booking: nat)
    | Cancel(booking: nat, user: UserId, now: Instant, cancelBeforeHours: nat)
    | PayOnline(booking: nat, user: UserId, chosen: Option<Kind>)
    | PayAtStore(booking: nat, cash: bool, chosen: Option<Kind>)

  /** What a handler has decided to write. A new transfer is two writes: older ones give way, then it is inserted. */
  datatype Intent =
    | SetConfirmed(booking: nat, terms: Option<(real, Instant)>)
    | SetRejected(booking: nat)
    | SetCompleted(booking: nat)
    | SetCancelled(booking: nat)
    | Supersede(booking: nat, kind: Kind, amount: real)
    | InsertTransfer(booking: nat, kind: Kind, amount: real)
    | TakeCash(booking: nat, kind: Kind, amount: real)

  predicate IsCancellable(a: Account, user: UserId, now: Instant, cancelBeforeHours: nat) {
    && a.customer == Some(user)
    && a.status in {Pending, Confirmed, DepositPending, DepositPaid, Paid}
    && now <= a.scheduledAt - cancelBeforeHours * HOUR_MS
  }

  /** The write of a payment request, at the counter or online. */
  function DecidePayment(t: Tables, b: nat, cash: bool, chosen: Kind): Option<Intent>
    requires b < |t.accounts|
  {
    var charge := Charge(t, b, chosen);
    if charge.Err? then None
    else if cash then Some(TakeCash(b, charge.value.0, charge.value.1))
    else Some(Supersede(b, charge.value.0, charge.value.1))
  }

  /** The read half of a handler: what it will write, or None when it refuses. */
  function Decide(t: Tables, request: Request): Option<Intent> {
    if request.booking >= |t.accounts| then None
    else
      var b := request.booking;
      var a := t.accounts[b];
      match request
      case Confirm(_, now, depositPercent, configActive) =>
        if a.status != Pending then None else Some(SetConfirmed(b, DepositTerms(a, now, depositPercent, configActive)))
      case Reject(_) => if a.status != Pending then None else Some(SetRejected(b))
      case Complete(_) => if a.status != Paid then None else Some(SetCompleted(b))
      case Cancel(_, user, now, cancelBeforeHours) =>
        if !IsCancellable(a, user, now, cancelBeforeHours) then None else Some(SetCancelled(b))
      case PayOnline(_, user, chosen) =>
        if a.customer != Some(user) then None else DecidePayment(t, b, false, GetOrElse(chosen, Deposit))
      case PayAtStore(_, cash, chosen) => DecidePayment(t, b, cash, GetOrElse(chosen, Full))
  }

  /** A write half, on whatever the tables are by then. Only a full payment in cash looks at the status again. */
  function Perform(t: Tables, intent: Intent): Tables
    requires intent.booking < |t.accounts|
  {
    var b := intent.booking;
    match intent
    case SetConfirmed(_, terms) => t.(accounts := t.accounts[b := ConfirmedAccount(t.accounts[b], terms)])
    case SetRejected(_) => t.(accounts := WithStatus(t.accounts, b, Rejected))
    case SetCompleted(_) => t.(accounts := WithStatus(t.accounts, b, Completed))
    case SetCancelled(_) => Tables(WithStatus(t.accounts, b, Cancelled), RefundedAll(t.payments, b))
    case Supersede(_, kind, _) => t.(payments := Superseded(t.payments, b, kind))
    case InsertTransfer(_, kind, amount) => t.(payments := t.payments + [Payment(b, kind, amount, Open, false)])
    case TakeCash(_, kind, amount) => Cash(t, b, kind, amount)
  }

  /** What is left to write after a write. */
  function Rest(intent: Intent): Option<Intent> {
    if intent.Supersede? then Some(InsertTransfer(intent.booking, intent.kind, intent.amount)) else None
  }

  /** A handler with nothing in between. */
  function HandleAlone(t: Tables, request: Request): Option<Tables> {
    var intent := Decide(t, request);
    if intent.None? then None
    else
      var first := Perform(t, intent.value);
      var rest := Rest(intent.value);
      Some(if rest.None? then first else Perform(first, rest.value))
  }

  // ----- Steps -----------------------------------------------------------------------------------------------

  datatype Outcome = Success | TooLittle | Ignored

  /** A webhook delivery between its read and its write, and after its answer. */
  datatype Delivery = Holds(payment: nat, enough: bool) | Told(payment: nat, outcome: Outcome)

  /** A handler between its read and its last write. */
  datatype Flight = Flight(request: Request, intent: Intent)

  /** `sweeps` holds, per sweep, the bookings it has read and not yet written. */
  datatype State = State(t: Tables, handlers: map<nat, Flight>, deliveries: map<nat, Delivery>, sweeps: map<nat, set<nat>>)

  const INIT := State(Tables([], []), map[], map[], map[])

  datatype Step =
      // customer is None for a walk-in
    | Book(customer: Option<UserId>, scheduledAt: Instant, totalPrice: real, finalPrice: real, autoConfirm: bool)
    | ForgetCustomer(booking: nat)
    | Read(handler: nat, request: Request)
    | Write(handler: nat)
    | WebhookRead(delivery: nat, payment: nat, amount: real)
    | WebhookWrite(delivery: nat)
    | SweepRead(sweep: nat, now: Instant)
    | SweepWrite(sweep: nat, booking: nat)

  function NewAccount(customer: Option<UserId>, scheduledAt: Instant, totalPrice: real, finalPrice: real, autoConfirm: bool): Account {
    Account(customer, if customer.None? || autoConfirm then Confirmed else Pending, scheduledAt, totalPrice, finalPrice, None, None)
  }

  /** The guarded write of a delivery that has read payment p. */
  function Deliver(t: Tables, p: nat, enough: bool): (Tables, Outcome) {
    if !IsOpen(t, p) then (t, Ignored)
    else if enough then (Settle(t, p), Success)
    else (Fail(t, p), TooLittle)
  }

  /** The bookings a sweep will cancel; a booking whose customer is gone is passed over. */
  function ExpiredAt(accounts: seq<Account>, now: Instant): set<nat> {
    set b: nat | 0 <= b < |accounts| && IsExpired(accounts[b], now) && accounts[b].customer.Some?
  }

  /** The guarded write of a sweep. */
  function CancelPending(accounts: seq<Account>, b: nat): (r: seq<Account>)
    ensures |r| == |accounts|
  {
    if b < |accounts| && accounts[b].status == DepositPending then WithStatus(accounts, b, Cancelled) else accounts
  }

  /** A write of a handler in flight. */
  function WriteOf(s: State, h: nat): Option<State> {
    if h !in s.handlers || s.handlers[h].intent.booking >= |s.t.accounts| then None
    else
      var flight := s.handlers[h];
      var rest := Rest(flight.intent);
      Some(s.(t := Perform(s.t, flight.intent),
              handlers := if rest.None? then s.handlers - {h} else s.handlers[h := flight.(intent := rest.value)]))
  }

  function Apply(s: State, step: Step): Option<State> {
    match step
    case Book(customer, scheduledAt, totalPrice, finalPrice, autoConfirm) =>
      Some(s.(t := s.t.(accounts := s.t.accounts + [NewAccount(customer, scheduledAt, totalPrice, finalPrice, autoConfirm)])))
    case ForgetCustomer(b) =>
      if b >= |s.t.accounts| then None
      else Some(s.(t := s.t.(accounts := s.t.accounts[b := s.t.accounts[b].(customer := None)])))
    case Read(h, request) =>
      if h in s.handlers || Decide(s.t, request).None? then None
      else Some(s.(handlers := s.handlers[h := Flight(request, Decide(s.t, request).value)]))
    case Write(h) => WriteOf(s, h)
    case WebhookRead(d, p, amount) =>
      if d in s.deliveries then None
      else if !IsOpen(s.t, p) then Some(s.(deliveries := s.deliveries[d := Told(p, Ignored)]))
      else Some(s.(deliveries := s.deliveries[d := Holds(p, amount >= s.t.payments[p].amount)]))
    case WebhookWrite(d) =>
      if d !in s.deliveries || !s.deliveries[d].Holds? then None
      else
        var p := s.deliveries[d].payment;
        var (t, outcome) := Deliver(s.t, p, s.deliveries[d].enough);
        Some(s.(t := t, deliveries := s.deliveries[d := Told(p, outcome)]))
    case SweepRead(w, now) =>
      if w in s.sweeps then None
      else Some(s.(sweeps := s.sweeps[w := ExpiredAt(s.t.accounts, now)]))
    case SweepWrite(w, b) =>
      if w !in s.sweeps || b !in s.sweeps[w] then None
      else Some(s.(t := s.t.(accounts := CancelPending(s.t.accounts, b)), sweeps := s.sweeps[w := s.sweeps[w] - {b}]))
  }

  function Run(s: State, steps: seq<Step>): Option<State> {
    if steps == [] then Some(s)
    else
      var before := Run(s, steps[..|steps| - 1]);
      if before.None? then None else Apply(before.value, steps[|steps| - 1])
  }

  lemma {:induction false} RunOne(s: State, steps: seq<Step>, step: Step)
    ensures Run(s, steps + [step]) == if Run(s, steps).Some? then Apply(Run(s, steps).value, step) else None
  {
    hide Apply;
    assert (steps + [step])[..|steps|] == steps;
  }

  /** Two steps, or three, from a state. */
  lemma {:induction false} RunTwo(s: State, first: Step, second: Step)
    ensures Run(s, [first]) == Apply(s, first)
    ensures Run(s, [first, second]) == if Apply(s, first).Some? then Apply(Apply(s, first).value, second) else None
  {
    hide Apply;
    RunOne(s, [], first);
    assert [] + [first] == [first] && [first] + [second] == [first, second];
    RunOne(s, [first], second);
  }

  lemma {:induction false} RunJoin(s: State, first: seq<Step>, second: seq<Step>)
    ensures Run(s, first + second) == if Run(s, first).Some? then Run(Run(s, first).value, second) else None
  {
    hide Apply;
    if second == [] {
      assert first + second == first;
    } else {
      var n := |second| - 1;
      RunJoin(s, first, second[..n]);
      assert (first + second)[..|first| + n] == first + second[..n];
    }
  }

  // ----- Handlers that are not disturbed ---------------------------------------------------------------------

  /**
   * What the handler read still holds when it writes: it would decide the same now, and between the two writes of a
   * transfer no other open payment of its kind has appeared.
   */
  predicate IsCurrent(t: Tables, flight: Flight) {
    if flight.intent.InsertTransfer? then
      var intent := flight.intent;
      && Decide(t, flight.request) == Some(Supersede(intent.booking, intent.kind, intent.amount))
      && forall p :: 0 <= p < |t.payments| ==> !IsPayment(t.payments, p, intent.booking, intent.kind, Open)
    else Decide(t, flight.request) == Some(flight.intent)
  }

  predicate Current(s: State, step: Step) {
    step.Write? && step.handler in s.handlers ==> IsCurrent(s.t, s.handlers[step.handler])
  }

  ghost predicate CurrentRun(s: State, steps: seq<Step>) {
    steps != [] ==>
      && CurrentRun(s, steps[..|steps| - 1])
      && (var before := Run(s, steps[..|steps| - 1]); before.Some? ==> Current(before.value, steps[|steps| - 1]))
  }
}
