/** The booking tables, and the overlap scan that every path which reserves a staff member runs on them. */
module Bookings {
  import opened Common

  /** How far back the scan looks for items that may still be running. */
  const OVERLAP_SCAN_MARGIN_MS := 6 * HOUR_MS

  /** The longest service the margin can see, in minutes. */
  const MAX_DURATION := 360

  datatype Item = Item(staff: StaffId, start: Instant, duration: nat) {
    function End(): Instant {
      start + duration * MINUTE_MS
    }
  }

  /** `origin` names the request that created the row; it is a history field that no handler reads. */
  datatype Booking = Booking(
    origin: nat,
    customer: Option<UserId>,
    scheduledAt: Instant,
    totalDuration: nat,
    status: BookingStatus,
    items: seq<Item>)
  {
    function End(): Instant {
      scheduledAt + totalDuration * MINUTE_MS
    }
  }

  predicate Clash(x: Item, y: Item) {
    x.staff == y.staff && Overlaps(x.start, x.End(), y.start, y.End())
  }

  /** Items of active bookings, in table order. */
  function BusyItems(bookings: seq<Booking>): (r: seq<Item>)
    ensures forall x :: x in r <==>
      exists b :: 0 <= b < |bookings| && IsActive(bookings[b].status) && x in bookings[b].items
  {
    if bookings == [] then []
    else
      var last := bookings[|bookings| - 1];
      BusyItems(bookings[..|bookings| - 1]) + (if IsActive(last.status) then last.items else [])
  }

  function Find<T>(p: T -> bool, s: seq<T>): (r: Option<T>)
    ensures r.Some? ==> r.value in s && p(r.value)
    ensures r.None? ==> forall x :: x in s ==> !p(x)
  {
    if s == [] then None
    else if p(s[0]) then Some(s[0])
    else Find(p, s[1..])
  }

  /** The staff member's busy items whose start lies in the scan window of a candidate interval. */
  function ScanWindow(bookings: seq<Booking>, staff: StaffId, start: Instant, duration: nat): seq<Item> {
    Filter(InScan(staff, start, duration), BusyItems(bookings))
  }

  function InScan(staff: StaffId, start: Instant, duration: nat): Item -> bool {
    (x: Item) => x.staff == staff && start - OVERLAP_SCAN_MARGIN_MS <= x.start <= start + duration * MINUTE_MS
  }

  function Blocks(start: Instant, duration: nat): Item -> bool {
    (x: Item) => Overlaps(start, start + duration * MINUTE_MS, x.start, x.End())
  }

  /** The windowed query followed by the exact test: what the booking transaction runs under the staff lock. */
  function FindOverlap(bookings: seq<Booking>, staff: StaffId, start: Instant, duration: nat): Option<Item> {
    Find(Blocks(start, duration), ScanWindow(bookings, staff, start, duration))
  }

  /** The unbounded question the scan stands for: is some active item of this staff member in the way? */
  ghost predicate IsTaken(bookings: seq<Booking>, candidate: Item) {
    exists b: nat, k: nat :: InTheWay(bookings, b, k, candidate)
  }

  ghost predicate InTheWay(bookings: seq<Booking>, b: nat, k: nat, candidate: Item) {
    && b < |bookings| && IsActive(bookings[b].status)
    && k < |bookings[b].items| && Clash(candidate, bookings[b].items[k])
  }

  /** An item in the way that began no more than the scan margin before the candidate. */
  ghost predicate InSight(bookings: seq<Booking>, b: nat, k: nat, candidate: Item) {
    InTheWay(bookings, b, k, candidate)
    && candidate.start - OVERLAP_SCAN_MARGIN_MS <= bookings[b].items[k].start
  }

  /** Every item booked so far lasts at most six hours. */
  ghost predicate ShortItems(bookings: seq<Booking>) {
    forall b, k :: 0 <= b < |bookings| && 0 <= k < |bookings[b].items| ==> bookings[b].items[k].duration <= MAX_DURATION
  }

  /** For any table, the scan sees exactly the clashing items that began at most six hours before the candidate. */
  lemma ScanSeesSixHours(bookings: seq<Booking>, candidate: Item)
    ensures FindOverlap(bookings, candidate.staff, candidate.start, candidate.duration).Some? <==>
            exists b: nat, k: nat :: InSight(bookings, b, k, candidate)
  {
    var found := FindOverlap(bookings, candidate.staff, candidate.start, candidate.duration);
    if found.Some? {
      var b :| 0 <= b < |bookings| && IsActive(bookings[b].status) && found.value in bookings[b].items;
      var k :| 0 <= k < |bookings[b].items| && bookings[b].items[k] == found.value;
      assert InSight(bookings, b, k, candidate);
    }
    if b: nat, k: nat :| InSight(bookings, b, k, candidate) {
      assert bookings[b].items[k] in BusyItems(bookings);
    }
  }

  /**
   * In terms of the rows: no item of this staff member in an active booking, begun at most six hours before `start`,
   * overlaps the `duration` minutes from `start`.
   */
  ghost predicate IsUnbooked(bookings: seq<Booking>, staff: StaffId, start: Instant, duration: nat) {
    forall b, k :: 0 <= b < |bookings| && 0 <= k < |bookings[b].items| && IsActive(bookings[b].status) ==>
      IsClearOf(bookings[b].items[k], staff, start, duration)
  }

  predicate IsClearOf(x: Item, staff: StaffId, start: Instant, duration: nat) {
    x.staff == staff && x.start >= start - 6 * 3600000 ==>
      start + duration * 60000 <= x.start || x.start + x.duration * 60000 <= start
  }

  lemma ScanIsUnbooked(bookings: seq<Booking>, staff: StaffId, start: Instant, duration: nat)
    ensures FindOverlap(bookings, staff, start, duration).None? <==> IsUnbooked(bookings, staff, start, duration)
  {
    hide FindOverlap;
    var candidate := Item(staff, start, duration);
    ScanSeesSixHours(bookings, candidate);
    forall b: nat, k: nat | b < |bookings| && k < |bookings[b].items| && IsActive(bookings[b].status)
      ensures InSight(bookings, b, k, candidate) <==> !IsClearOf(bookings[b].items[k], staff, start, duration)
    {
    }
    if exists b: nat, k: nat :: InSight(bookings, b, k, candidate) {
      var b: nat, k: nat :| InSight(bookings, b, k, candidate);
      assert !IsClearOf(bookings[b].items[k], staff, start, duration);
    }
  }

  /** With items of at most six hours the windowed scan refines the scan over all of time. */
  lemma WindowedScanIsFullScan(bookings: seq<Booking>, candidate: Item)
    requires ShortItems(bookings)
    ensures FindOverlap(bookings, candidate.staff, candidate.start, candidate.duration).Some?
            <==> IsTaken(bookings, candidate)
  {
    ScanSeesSixHours(bookings, candidate);
    if b: nat, k: nat :| InTheWay(bookings, b, k, candidate) {
      assert bookings[b].items[k].duration <= MAX_DURATION;
      assert InSight(bookings, b, k, candidate);
    }
  }

  /** Without that bound the scan misses an item: seven hours of work, asked about six and a half hours in. */
  lemma LongItemEscapesScan() returns (bookings: seq<Booking>, candidate: Item)
    ensures IsTaken(bookings, candidate)
    ensures FindOverlap(bookings, candidate.staff, candidate.start, candidate.duration).None?
  {
    bookings := [Booking(0, None, 0, 420, Confirmed, [Item(0, 0, 420)])];
    candidate := Item(0, 390 * MINUTE_MS, 10);
    ScanSeesSixHours(bookings, candidate);
    assert InTheWay(bookings, 0, 0, candidate);
  }

  /** No two items of one staff member run at the same time, over all active bookings. */
  ghost predicate NoDoubleBooking(bookings: seq<Booking>) {
    forall b1, k1, b2, k2 ::
      && 0 <= b1 < |bookings| && 0 <= k1 < |bookings[b1].items| && IsActive(bookings[b1].status)
      && 0 <= b2 < |bookings| && 0 <= k2 < |bookings[b2].items| && IsActive(bookings[b2].status)
      && (b1, k1) != (b2, k2)
      ==> !Clash(bookings[b1].items[k1], bookings[b2].items[k2])
  }
}
