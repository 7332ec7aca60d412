/** Types shared by the whole model: optional values, results, time intervals and booking statuses. */
module Common {

  datatype Option<+T> = None | Some(value: T)

  function GetOrElse<T>(option: Option<T>, default: T): T {
    if option.Some? then option.value else default
  }

  datatype Result<+T, +E> = Ok(value: T) | Err(error: E)

  /** Milliseconds since the epoch. */
  type Instant = int

  type StaffId = nat
  type UserId = nat

  const MINUTE_MS := 60 * 1000
  const HOUR_MS := 60 * MINUTE_MS
  const DAY_MS := 24 * HOUR_MS

  /** Half-open intervals [s1, e1) and [s2, e2), compared the way every overlap check of the booking code does. */
  predicate Overlaps(s1: int, e1: int, s2: int, e2: int) {
    s1 < e2 && s2 < e1
  }

  datatype BookingStatus =
    | Pending | Confirmed | DepositPending | DepositPaid | Paid | Completed | Cancelled | Rejected

  /** The statuses whose items occupy a staff member. */
  predicate IsActive(status: BookingStatus) {
    status in {Pending, Confirmed, DepositPending, DepositPaid, Paid}
  }

  /** All but the three final ones. */
  lemma ActiveStatuses(status: BookingStatus)
    ensures IsActive(status) <==> status != Completed && status != Cancelled && status != Rejected
  {
  }

  predicate Contains(start: int, end: int, t: int) {
    start <= t < end
  }

  /** Two intervals that are not empty overlap exactly when they share an instant. */
  lemma OverlapMeaning(s1: int, e1: int, s2: int, e2: int)
    requires s1 < e1 && s2 < e2
    ensures Overlaps(s1, e1, s2, e2) <==> exists t :: Contains(s1, e1, t) && Contains(s2, e2, t)
  {
    var t := if s1 < s2 then s2 else s1;
    assert Overlaps(s1, e1, s2, e2) ==> Contains(s1, e1, t) && Contains(s2, e2, t);
  }

  /** The elements of s that satisfy p, in order. */
  function Filter<T(!new)>(p: T -> bool, s: seq<T>): (r: seq<T>)
    ensures |r| <= |s|
    ensures forall x :: x in r <==> x in s && p(x)
  {
    if s == [] then []
    else
      var rest := Filter(p, s[..|s| - 1]);
      if p(s[|s| - 1]) then rest + [s[|s| - 1]] else rest
  }
}
