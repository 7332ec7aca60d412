/**
 * Weekly schedules with a history: a current table and a table of replaced versions, queried as of a past instant.
 * The query agrees with replaying the edits up to that instant, exactly until a row that the instant saw is edited in
 * place: only the replacement of a whole week is archived.
 */
module ScheduleHistory {
  import opened Common
  import opened Sorting

  /** One day of the week for one staff member. */
  datatype Entry = Entry(dayOfWeek: nat, start: nat, end: nat, isActive: bool)

  datatype Row = Row(staff: StaffId, entry: Entry, createdAt: Instant)

  /** A replaced row: in force from its creation until `to`. */
  datatype Version = Version(row: Row, to: Instant)

  datatype Tables = Tables(current: seq<Row>, history: seq<Version>)

  const EMPTY := Tables([], [])

  // ----- Edits -----------------------------------------------------------------------------------------------

  datatype Edit =
    | Create(at: Instant, staff: StaffId, entry: Entry)
    | BulkUpsert(at: Instant, staff: StaffId, entries: seq<Entry>)
    | Update(at: Instant, staff: StaffId, day: nat, entry: Entry)
    | Remove(at: Instant, staff: StaffId, day: nat)

  function Is(staff: StaffId): Row -> bool {
    (r: Row) => r.staff == staff
  }

  function IsNot(staff: StaffId): Row -> bool {
    (r: Row) => r.staff != staff
  }

  /** The unique key of the current table. */
  predicate Taken(current: seq<Row>, staff: StaffId, dayOfWeek: nat) {
    exists r :: r in current && r.staff == staff && r.entry.dayOfWeek == dayOfWeek
  }

  predicate DistinctDays(entries: seq<Entry>) {
    forall i, j :: 0 <= i < j < |entries| ==> entries[i].dayOfWeek != entries[j].dayOfWeek
  }

  function NewRows(entries: seq<Entry>, staff: StaffId, at: Instant): (r: seq<Row>)
    ensures |r| == |entries| && forall i :: 0 <= i < |r| ==> r[i] == Row(staff, entries[i], at)
  {
    seq(|entries|, i requires 0 <= i < |entries| => Row(staff, entries[i], at))
  }

  function Versions(rows: seq<Row>, to: Instant): (r: seq<Version>)
    ensures |r| == |rows| && forall i :: 0 <= i < |r| ==> r[i] == Version(rows[i], to)
  {
    seq(|rows|, i requires 0 <= i < |rows| => Version(rows[i], to))
  }

  function Updated(rows: seq<Row>, staff: StaffId, day: nat, entry: Entry): (r: seq<Row>)
    ensures |r| == |rows|
  {
    seq(|rows|, i requires 0 <= i < |rows| =>
      if rows[i].staff == staff && rows[i].entry.dayOfWeek == day then rows[i].(entry := entry) else rows[i])
  }

  function IsNotDay(staff: StaffId, day: nat): Row -> bool {
    (r: Row) => r.staff != staff || r.entry.dayOfWeek != day
  }

  predicate MayUpdate(current: seq<Row>, staff: StaffId, day: nat, entry: Entry) {
    Taken(current, staff, day) && (entry.dayOfWeek != day ==> !Taken(current, staff, entry.dayOfWeek))
  }

  /** An edit that breaks the unique key, or whose row is not there, changes nothing. */
  function Do(t: Tables, edit: Edit): Tables {
    match edit
    case Create(at, staff, entry) =>
      if Taken(t.current, staff, entry.dayOfWeek) then t
      else t.(current := t.current + [Row(staff, entry, at)])
    case BulkUpsert(at, staff, entries) =>
      if !DistinctDays(entries) then t
      else Tables(Filter(IsNot(staff), t.current) + NewRows(entries, staff, at),
                  t.history + Versions(Filter(Is(staff), t.current), at))
    case Update(_, staff, day, entry) =>
      if !MayUpdate(t.current, staff, day, entry) then t
      else t.(current := Updated(t.current, staff, day, entry))
    case Remove(_, staff, day) => t.(current := Filter(IsNotDay(staff, day), t.current))
  }

  function Replay(edits: seq<Edit>): Tables {
    if edits == [] then EMPTY else Do(Replay(edits[..|edits| - 1]), edits[|edits| - 1])
  }

  // ----- The query -------------------------------------------------------------------------------------------

  function Wanted(staff: StaffId, dayOfWeek: Option<nat>): Row -> bool {
    (r: Row) => r.staff == staff && (dayOfWeek.Some? ==> r.entry.dayOfWeek == dayOfWeek.value)
  }

  function CreatedBy(wanted: Row -> bool, at: Instant): Row -> bool {
    (r: Row) => wanted(r) && r.createdAt <= at
  }

  predicate InForce(v: Version, at: Instant) {
    v.row.createdAt <= at < v.to
  }

  /** The versions in force at an instant that has since been overtaken. */
  function Replaced(history: seq<Version>, wanted: Row -> bool, at: Instant): seq<Row> {
    if history == [] then []
    else
      var last := history[|history| - 1];
      Replaced(history[..|history| - 1], wanted, at) + (if wanted(last.row) && InForce(last, at) then [last.row] else [])
  }

  /** The history first; only if it has nothing, the current rows that already existed. */
  function AsOf(t: Tables, wanted: Row -> bool, at: Instant): seq<Row> {
    var replaced := Replaced(t.history, wanted, at);
    if replaced != [] then replaced else Filter(CreatedBy(wanted, at), t.current)
  }

  function ByDay(): Row -> nat {
    (r: Row) => r.entry.dayOfWeek
  }

  /** `findAll`: a date before today asks for that day's midnight, anything else for what is current. */
  function FindAll(t: Tables, staff: StaffId, dayOfWeek: Option<nat>, date: Option<int>, now: Instant): seq<Row> {
    var wanted := Wanted(staff, dayOfWeek);
    SortByLoad(ByDay(),
               if date.Some? && date.value < now / DAY_MS then AsOf(t, wanted, date.value * DAY_MS)
               else Filter(wanted, t.current))
  }

  // ----- Replaying up to an instant --------------------------------------------------------------------------

  function Clock(edits: seq<Edit>, start: Instant): Instant {
    if edits == [] then start else edits[|edits| - 1].at
  }

  ghost predicate ClockRuns(edits: seq<Edit>, start: Instant) {
    edits != [] ==>
      ClockRuns(edits[..|edits| - 1], start) && Clock(edits[..|edits| - 1], start) <= edits[|edits| - 1].at
  }

  /** The edits made by an instant. */
  function Upto(edits: seq<Edit>, at: Instant): seq<Edit> {
    if edits == [] || edits[|edits| - 1].at <= at then edits else Upto(edits[..|edits| - 1], at)
  }

  // ----- The invariant ---------------------------------------------------------------------------------------

  /** No row lies ahead of the clock, and every version of a staff member ended before any current row of theirs began. */
  ghost predicate Ordered(t: Tables, clock: Instant) {
    && (forall r :: r in t.current ==> r.createdAt <= clock)
    && (forall v :: v in t.history ==> v.to <= clock)
    && (forall v, r :: v in t.history && r in t.current && v.row.staff == r.staff ==> v.to <= r.createdAt)
  }

  lemma DoKeepsOrder(t: Tables, edit: Edit, clock: Instant)
    requires Ordered(t, clock) && clock <= edit.at
    ensures Ordered(Do(t, edit), edit.at)
  {
  }

  lemma {:induction false} ReplayIsOrdered(edits: seq<Edit>, start: Instant)
    requires ClockRuns(edits, start)
    ensures Ordered(Replay(edits), Clock(edits, start))
  {
    if edits != [] {
      var n := |edits| - 1;
      ReplayIsOrdered(edits[..n], start);
      DoKeepsOrder(Replay(edits[..n]), edits[n], Clock(edits[..n], start));
    }
  }

  // ----- The query agrees with the replay --------------------------------------------------------------------

  lemma {:induction false} ReplacedMembers(history: seq<Version>, wanted: Row -> bool, at: Instant)
    ensures forall r :: r in Replaced(history, wanted, at) ==>
              exists v :: v in history && v.row == r && wanted(r) && InForce(v, at)
    ensures (forall v :: v in history ==> !InForce(v, at)) ==> Replaced(history, wanted, at) == []
  {
    if history != [] {
      var n := |history| - 1;
      ReplacedMembers(history[..n], wanted, at);
      assert history == history[..n] + [history[n]];
    }
  }

  /** The two branches never both match, with or without a day filter. */
  lemma BranchesAreExclusive(t: Tables, clock: Instant, staff: StaffId, dayOfWeek: Option<nat>, at: Instant)
    requires Ordered(t, clock)
    ensures Replaced(t.history, Wanted(staff, None), at) != [] ==> Filter(CreatedBy(Wanted(staff, dayOfWeek), at), t.current) == []
  {
    ReplacedMembers(t.history, Wanted(staff, None), at);
    if Replaced(t.history, Wanted(staff, None), at) != [] {
      var r := Replaced(t.history, Wanted(staff, None), at)[0];
      var v :| v in t.history && v.row == r && Wanted(staff, None)(r) && InForce(v, at);
      forall c | c in t.current ensures !CreatedBy(Wanted(staff, dayOfWeek), at)(c) {
      }
      FilterKeepsNone(CreatedBy(Wanted(staff, dayOfWeek), at), t.current);
    }
  }

  lemma {:induction false} ReplacedNarrows(history: seq<Version>, staff: StaffId, dayOfWeek: Option<nat>, at: Instant)
    requires Replaced(history, Wanted(staff, None), at) == []
    ensures Replaced(history, Wanted(staff, dayOfWeek), at) == []
  {
    if history != [] {
      ReplacedNarrows(history[..|history| - 1], staff, dayOfWeek, at);
    }
  }

  lemma ReplacedSnoc(history: seq<Version>, v: Version, wanted: Row -> bool, at: Instant)
    ensures Replaced(history + [v], wanted, at)
         == Replaced(history, wanted, at) + (if wanted(v.row) && InForce(v, at) then [v.row] else [])
  {
    assert (history + [v])[..|history|] == history;
  }

  /** Newly archived rows are found exactly where the current table had them before. */
  lemma {:induction false} ArchivedRowsAreFound(history: seq<Version>, rows: seq<Row>, to: Instant, wanted: Row -> bool, at: Instant)
    requires at < to
    ensures Replaced(history + Versions(rows, to), wanted, at) == Replaced(history, wanted, at) + Filter(CreatedBy(wanted, at), rows)
  {
    hide Filter, Replaced;
    if rows == [] {
      assert history + Versions(rows, to) == history;
      FilterKeepsNone(CreatedBy(wanted, at), rows);
    } else {
      var n := |rows| - 1;
      ArchivedRowsAreFound(history, rows[..n], to, wanted, at);
      assert history + Versions(rows, to) == history + Versions(rows[..n], to) + [Version(rows[n], to)];
      ReplacedSnoc(history + Versions(rows[..n], to), Version(rows[n], to), wanted, at);
      FilterSnoc(CreatedBy(wanted, at), rows[..n], rows[n]);
      assert rows[..n] + [rows[n]] == rows;
    }
  }

  lemma CreateIsLater(t: Tables, edit: Edit, wanted: Row -> bool, at: Instant)
    requires edit.Create? && at < edit.at
    ensures AsOf(Do(t, edit), wanted, at) == AsOf(t, wanted, at)
  {
    FilterAppend(CreatedBy(wanted, at), t.current, [Row(edit.staff, edit.entry, edit.at)]);
    FilterKeepsNone(CreatedBy(wanted, at), [Row(edit.staff, edit.entry, edit.at)]);
  }

  /** What a bulk upsert leaves of the current rows for a query about an earlier instant. */
  lemma CurrentAfterUpsert(t: Tables, edit: Edit, staff: StaffId, dayOfWeek: Option<nat>, at: Instant)
    requires edit.BulkUpsert? && at < edit.at && DistinctDays(edit.entries)
    ensures Filter(CreatedBy(Wanted(staff, dayOfWeek), at), Do(t, edit).current)
         == if staff == edit.staff then [] else Filter(CreatedBy(Wanted(staff, dayOfWeek), at), t.current)
  {
    var p := CreatedBy(Wanted(staff, dayOfWeek), at);
    var kept := Filter(IsNot(edit.staff), t.current);
    var added := NewRows(edit.entries, edit.staff, edit.at);
    FilterAppend(p, kept, added);
    FilterKeepsNone(p, added);
    if staff == edit.staff {
      FilterKeepsNone(p, kept);
    } else {
      FilterTwice(p, IsNot(edit.staff), p, t.current);
    }
  }

  lemma HistoryAfterUpsert(t: Tables, edit: Edit, staff: StaffId, dayOfWeek: Option<nat>, at: Instant)
    requires edit.BulkUpsert? && at < edit.at && DistinctDays(edit.entries)
    ensures var wanted := Wanted(staff, dayOfWeek);
            Replaced(Do(t, edit).history, wanted, at)
            == Replaced(t.history, wanted, at) + (if staff == edit.staff then Filter(CreatedBy(wanted, at), t.current) else [])
  {
    var p := CreatedBy(Wanted(staff, dayOfWeek), at);
    var archived := Filter(Is(edit.staff), t.current);
    ArchivedRowsAreFound(t.history, archived, edit.at, Wanted(staff, dayOfWeek), at);
    if staff == edit.staff {
      FilterTwice(p, Is(edit.staff), p, t.current);
    } else {
      FilterKeepsNone(p, archived);
    }
  }

  // ----- Edits in place --------------------------------------------------------------------------------------

  /** The row was there at the instant, and the update makes a difference to who wants it. */
  predicate IsRewritten(r: Row, staff: StaffId, day: nat, entry: Entry, wanted: Row -> bool, at: Instant) {
    && r.staff == staff && r.entry.dayOfWeek == day && r.createdAt <= at
    && r.entry != entry && (wanted(r) || wanted(r.(entry := entry)))
  }

  /**
   * What edits in place do to an instant before them: the history has no answer for it, and a current row that was there
   * by then, and is looked for before or after, is changed or removed.
   */
  ghost predicate Rewrites(t: Tables, edit: Edit, wanted: Row -> bool, at: Instant) {
    && Replaced(t.history, wanted, at) == []
    && match edit
       case Update(_, staff, day, entry) =>
         && MayUpdate(t.current, staff, day, entry)
         && exists r :: r in t.current && IsRewritten(r, staff, day, entry, wanted, at)
       case Remove(_, staff, day) =>
         exists r :: r in t.current && r.staff == staff && r.entry.dayOfWeek == day && r.createdAt <= at && wanted(r)
       case _ => false
  }

  /** An answer before and after an update: the same exactly when nothing in it is rewritten; rows may leave it, or join. */
  predicate Shows(before: seq<Row>, after: seq<Row>, same: bool, leave: bool, join: bool) {
    && (after == before <==> same)
    && (leave ==> |after| <= |before|)
    && (join ==> |after| >= |before|)
    && (!leave && !join ==> |after| == |before|)
    && ((leave || join) && |after| == |before| ==> after == before)
  }

  lemma ShowsMore(before: seq<Row>, after: seq<Row>, same: bool, b: seq<Row>, a: seq<Row>, alike: bool, leave: bool, join: bool)
    requires Shows(before, after, same, leave, join) && Shows(b, a, alike, leave, join) && !(leave && join)
    ensures Shows(before + b, after + a, same && alike, leave, join)
  {
    if after + a == before + b {
      if |after| == |before| {
        assert after == (after + a)[..|after|] && before == (before + b)[..|after|];
        assert a == (after + a)[|after|..] && b == (before + b)[|after|..];
      }
    }
  }

  predicate NoneRewritten(rows: seq<Row>, staff: StaffId, day: nat, entry: Entry, wanted: Row -> bool, at: Instant) {
    forall r :: r in rows ==> !IsRewritten(r, staff, day, entry, wanted, at)
  }

  function If(condition: bool, r: Row): seq<Row> {
    if condition then [r] else []
  }

  lemma RowShows(r: Row, staff: StaffId, day: nat, entry: Entry, whose: StaffId, dayOfWeek: Option<nat>, at: Instant)
    ensures var wanted := Wanted(whose, dayOfWeek);
            var p, moves := CreatedBy(wanted, at), entry.dayOfWeek != day;
            var r' := Updated([r], staff, day, entry)[0];
            Shows(If(p(r), r), If(p(r'), r'), !IsRewritten(r, staff, day, entry, wanted, at),
                  moves && dayOfWeek == Some(day), moves && dayOfWeek == Some(entry.dayOfWeek))
  {
  }

  lemma {:induction false} UpdateShows(rows: seq<Row>, staff: StaffId, day: nat, entry: Entry, whose: StaffId,
                                       dayOfWeek: Option<nat>, at: Instant)
    ensures var wanted := Wanted(whose, dayOfWeek);
            var p, moves := CreatedBy(wanted, at), entry.dayOfWeek != day;
            Shows(Filter(p, rows), Filter(p, Updated(rows, staff, day, entry)), NoneRewritten(rows, staff, day, entry, wanted, at),
                  moves && dayOfWeek == Some(day), moves && dayOfWeek == Some(entry.dayOfWeek))
  {
    hide Filter, Shows, IsRewritten, Wanted, CreatedBy, Updated, NoneRewritten;
    var wanted := Wanted(whose, dayOfWeek);
    var p, moves := CreatedBy(wanted, at), entry.dayOfWeek != day;
    var updated := Updated(rows, staff, day, entry);
    UpdatedIs(rows, staff, day, entry, wanted, at);
    if rows == [] {
      NothingShows(p, moves && dayOfWeek == Some(day), moves && dayOfWeek == Some(entry.dayOfWeek));
    } else {
      var n := |rows| - 1;
      UpdateShows(rows[..n], staff, day, entry, whose, dayOfWeek, at);
      RowShows(rows[n], staff, day, entry, whose, dayOfWeek, at);
      FilterSnoc(p, rows[..n], rows[n]);
      FilterSnoc(p, updated[..n], updated[n]);
      ShowsMore(Filter(p, rows[..n]), Filter(p, updated[..n]), NoneRewritten(rows[..n], staff, day, entry, wanted, at),
                If(p(rows[n]), rows[n]), If(p(updated[n]), updated[n]), !IsRewritten(rows[n], staff, day, entry, wanted, at),
                moves && dayOfWeek == Some(day), moves && dayOfWeek == Some(entry.dayOfWeek));
    }
  }

  lemma UpdatedIs(rows: seq<Row>, staff: StaffId, day: nat, entry: Entry, wanted: Row -> bool, at: Instant)
    ensures rows == [] ==> Updated(rows, staff, day, entry) == [] && NoneRewritten(rows, staff, day, entry, wanted, at)
    ensures rows != [] ==>
              var n, updated := |rows| - 1, Updated(rows, staff, day, entry);
              && rows == rows[..n] + [rows[n]]
              && updated[n] == Updated([rows[n]], staff, day, entry)[0]
              && updated[..n] == Updated(rows[..n], staff, day, entry)
              && updated == updated[..n] + [updated[n]]
              && (NoneRewritten(rows, staff, day, entry, wanted, at)
                  <==> NoneRewritten(rows[..n], staff, day, entry, wanted, at) && !IsRewritten(rows[n], staff, day, entry, wanted, at))
  {
    hide IsRewritten;
    if rows != [] {
      assert rows == rows[..|rows| - 1] + [rows[|rows| - 1]];
    }
  }

  lemma NothingShows(p: Row -> bool, leave: bool, join: bool)
    ensures Shows(Filter(p, []), Filter(p, []), true, leave, join)
  {
  }

  lemma {:induction false} RemovalShows(rows: seq<Row>, keep: Row -> bool, p: Row -> bool)
    ensures |Filter(p, Filter(keep, rows))| <= |Filter(p, rows)|
    ensures Filter(p, Filter(keep, rows)) == Filter(p, rows) <==> forall r :: r in rows && p(r) ==> keep(r)
    ensures |Filter(p, Filter(keep, rows))| == |Filter(p, rows)| ==> Filter(p, Filter(keep, rows)) == Filter(p, rows)
  {
    if rows != [] {
      var n := |rows| - 1;
      RemovalShows(rows[..n], keep, p);
      assert rows == rows[..n] + [rows[n]];
      FilterSnoc(p, Filter(keep, rows[..n]), rows[n]);
    }
  }

  /** An edit in place changes what the query says about an earlier instant exactly when it rewrites a row for it. */
  lemma InPlaceExactly(t: Tables, edit: Edit, staff: StaffId, dayOfWeek: Option<nat>, at: Instant)
    requires edit.Update? || edit.Remove?
    ensures var wanted := Wanted(staff, dayOfWeek);
            AsOf(Do(t, edit), wanted, at) == AsOf(t, wanted, at) <==> !Rewrites(t, edit, wanted, at)
  {
    var wanted := Wanted(staff, dayOfWeek);
    hide Filter, Replaced, IsRewritten;
    if edit.Update? {
      UpdateShows(t.current, edit.staff, edit.day, edit.entry, staff, dayOfWeek, at);
    } else {
      RemovalShows(t.current, IsNotDay(edit.staff, edit.day), CreatedBy(wanted, at));
    }
  }

  /** An edit made after an instant changes what the query says about it exactly when it rewrites a row for it. */
  lemma LaterEditsExactly(t: Tables, clock: Instant, edit: Edit, staff: StaffId, dayOfWeek: Option<nat>, at: Instant)
    requires Ordered(t, clock) && at < edit.at
    ensures var wanted := Wanted(staff, dayOfWeek);
            AsOf(Do(t, edit), wanted, at) == AsOf(t, wanted, at) <==> !Rewrites(t, edit, wanted, at)
  {
    if edit.Update? || edit.Remove? {
      InPlaceExactly(t, edit, staff, dayOfWeek, at);
    } else {
      TracedEditsDoNotMatter(t, clock, edit, staff, dayOfWeek, at);
    }
  }

  /** New rows and whole weeks leave no trace in the past. */
  lemma TracedEditsDoNotMatter(t: Tables, clock: Instant, edit: Edit, staff: StaffId, dayOfWeek: Option<nat>, at: Instant)
    requires Ordered(t, clock) && at < edit.at && (edit.Create? || edit.BulkUpsert?)
    ensures AsOf(Do(t, edit), Wanted(staff, dayOfWeek), at) == AsOf(t, Wanted(staff, dayOfWeek), at)
  {
    hide Ordered, Do;
    if edit.Create? {
      CreateIsLater(t, edit, Wanted(staff, dayOfWeek), at);
    } else if DistinctDays(edit.entries) {
      CurrentAfterUpsert(t, edit, staff, dayOfWeek, at);
      HistoryAfterUpsert(t, edit, staff, dayOfWeek, at);
      BranchesAreExclusive(t, clock, staff, dayOfWeek, at);
      if Replaced(t.history, Wanted(staff, None), at) == [] {
        ReplacedNarrows(t.history, staff, dayOfWeek, at);
      }
    } else {
      RefusedUpsert(t, edit);
    }
  }

  lemma RefusedUpsert(t: Tables, edit: Edit)
    requires edit.BulkUpsert? && !DistinctDays(edit.entries)
    ensures Do(t, edit) == t
  {
  }

  /** Nothing is ahead of the clock: what is current is what is in force now. */
  lemma NowIsCurrent(t: Tables, clock: Instant, wanted: Row -> bool, at: Instant)
    requires Ordered(t, clock) && clock <= at
    ensures AsOf(t, wanted, at) == Filter(wanted, t.current)
  {
    ReplacedMembers(t.history, wanted, at);
    FilterSame(CreatedBy(wanted, at), wanted, t.current);
  }

  /** What the lookup says about an instant is what was in the table then. */
  ghost predicate IsReplay(edits: seq<Edit>, staff: StaffId, dayOfWeek: Option<nat>, at: Instant) {
    AsOf(Replay(edits), Wanted(staff, dayOfWeek), at) == Filter(Wanted(staff, dayOfWeek), Replay(Upto(edits, at)).current)
  }

  /** At every moment of the run. */
  ghost predicate IsReplayThroughout(edits: seq<Edit>, staff: StaffId, dayOfWeek: Option<nat>, at: Instant) {
    && IsReplay(edits, staff, dayOfWeek, at)
    && (edits != [] ==> IsReplayThroughout(edits[..|edits| - 1], staff, dayOfWeek, at))
  }

  /** No edit made after the instant rewrites a row for it. */
  ghost predicate NothingRewritten(edits: seq<Edit>, staff: StaffId, dayOfWeek: Option<nat>, at: Instant) {
    edits != [] ==>
      var n := |edits| - 1;
      && NothingRewritten(edits[..n], staff, dayOfWeek, at)
      && (at < edits[n].at ==> !Rewrites(Replay(edits[..n]), edits[n], Wanted(staff, dayOfWeek), at))
  }

  /**
   * For every history of edits, every instant and with or without a day filter: the as-of lookup returns, at every moment,
   * row for row, what was in the table once the edits made by that instant were done, exactly when no later edit in place
   * rewrites a row for it.
   */
  lemma {:induction false} AsOfExactly(edits: seq<Edit>, start: Instant, staff: StaffId, dayOfWeek: Option<nat>, at: Instant)
    requires ClockRuns(edits, start)
    ensures IsReplayThroughout(edits, staff, dayOfWeek, at) <==> NothingRewritten(edits, staff, dayOfWeek, at)
  {
    hide Do, Ordered, AsOf, Rewrites;
    if edits == [] {
      NothingYet(Wanted(staff, dayOfWeek), at);
    } else {
      var n := |edits| - 1;
      AsOfExactly(edits[..n], start, staff, dayOfWeek, at);
      if edits[n].at > at {
        ReplayIsOrdered(edits[..n], start);
        LaterEditsExactly(Replay(edits[..n]), Clock(edits[..n], start), edits[n], staff, dayOfWeek, at);
      } else {
        ReplayIsOrdered(edits, start);
        NowIsCurrent(Replay(edits), Clock(edits, start), Wanted(staff, dayOfWeek), at);
      }
    }
  }

  /** In particular while schedules are only created and replaced: then nothing is ever rewritten. */
  lemma {:induction false} AsOfIsReplay(edits: seq<Edit>, start: Instant, staff: StaffId, dayOfWeek: Option<nat>, at: Instant)
    requires ClockRuns(edits, start)
    requires forall i :: 0 <= i < |edits| && edits[i].at > at ==> edits[i].Create? || edits[i].BulkUpsert?
    ensures AsOf(Replay(edits), Wanted(staff, dayOfWeek), at) == Filter(Wanted(staff, dayOfWeek), Replay(Upto(edits, at)).current)
  {
    hide Do, AsOf, Replay, Filter;
    NoneInPlace(edits, staff, dayOfWeek, at);
    AsOfExactly(edits, start, staff, dayOfWeek, at);
  }

  lemma {:induction false} NoneInPlace(edits: seq<Edit>, staff: StaffId, dayOfWeek: Option<nat>, at: Instant)
    requires forall i :: 0 <= i < |edits| && edits[i].at > at ==> edits[i].Create? || edits[i].BulkUpsert?
    ensures NothingRewritten(edits, staff, dayOfWeek, at)
  {
    hide Replay, Replaced;
    if edits != [] {
      NoneInPlace(edits[..|edits| - 1], staff, dayOfWeek, at);
    }
  }

  lemma NothingYet(wanted: Row -> bool, at: Instant)
    ensures AsOf(EMPTY, wanted, at) == Filter(wanted, EMPTY.current) == []
  {
  }

  lemma {:induction false} UptoNowIsAll(edits: seq<Edit>, start: Instant, now: Instant)
    requires Clock(edits, start) <= now
    ensures Upto(edits, now) == edits
  {
  }

  /**
   * `findAll` returns the rows in force at the midnight of a past date, if nothing has been rewritten for it since, or
   * now, by day of the week.
   */
  lemma {:induction false} FindAllIsReplay(edits: seq<Edit>, start: Instant, staff: StaffId, dayOfWeek: Option<nat>,
                                           date: Option<int>, now: Instant)
    requires ClockRuns(edits, start) && Clock(edits, start) <= now
    requires date.Some? ==> NothingRewritten(edits, staff, dayOfWeek, date.value * DAY_MS)
    ensures var at := if date.Some? && date.value < now / DAY_MS then date.value * DAY_MS else now;
            FindAll(Replay(edits), staff, dayOfWeek, date, now)
            == SortByLoad(ByDay(), Filter(Wanted(staff, dayOfWeek), Replay(Upto(edits, at)).current))
  {
    hide AsOf, SortByLoad, NothingRewritten, Do, Rewrites;
    if date.Some? {
      AsOfExactly(edits, start, staff, dayOfWeek, date.value * DAY_MS);
    }
    UptoNowIsAll(edits, start, now);
  }

  // ----- What the rows say -----------------------------------------------------------------------------------

  predicate HasDay(rows: seq<Row>, staff: StaffId, day: nat) {
    exists i :: 0 <= i < |rows| && (rows[i].staff, rows[i].entry.dayOfWeek) == (staff, day)
  }

  /** A week replaced: its rows archived until now, the new ones in force from now, everybody else's untouched. */
  ghost predicate IsReplaced(t: Tables, t': Tables, staff: StaffId, entries: seq<Entry>, now: Instant) {
    && t.history <= t'.history
    && (forall v :: v in t'.history[|t.history|..] <==> v.to == now && v.row in t.current && v.row.staff == staff)
    && (forall r :: r in t'.current <==>
          || (r in t.current && r.staff != staff)
          || (r.staff == staff && r.createdAt == now && r.entry in entries))
    && |t'.current| + |t'.history| == |t.current| + |t.history| + |entries|
  }

  lemma {:induction false} SplitCounts(rows: seq<Row>, staff: StaffId)
    ensures |Filter(Is(staff), rows)| + |Filter(IsNot(staff), rows)| == |rows|
  {
    if rows != [] {
      SplitCounts(rows[..|rows| - 1], staff);
    }
  }

  lemma ReplacementIs(t: Tables, staff: StaffId, entries: seq<Entry>, now: Instant)
    requires DistinctDays(entries)
    ensures IsReplaced(t, Do(t, BulkUpsert(now, staff, entries)), staff, entries, now)
  {
    SplitCounts(t.current, staff);
    var archived := Versions(Filter(Is(staff), t.current), now);
    forall v ensures v in archived <==> v.to == now && v.row in t.current && v.row.staff == staff {
      if v.to == now && v.row in Filter(Is(staff), t.current) {
        var i :| 0 <= i < |archived| && Filter(Is(staff), t.current)[i] == v.row;
        assert archived[i] == v;
      }
    }
    assert (t.history + archived)[|t.history|..] == archived;
    var added := NewRows(entries, staff, now);
    forall r ensures r in added <==> r.staff == staff && r.createdAt == now && r.entry in entries {
      if r.staff == staff && r.createdAt == now && r.entry in entries {
        var i :| 0 <= i < |entries| && entries[i] == r.entry;
        assert added[i] == r;
      }
    }
  }

  predicate IsFor(r: Row, staff: StaffId, dayOfWeek: Option<nat>) {
    r.staff == staff && (dayOfWeek == None || dayOfWeek == Some(r.entry.dayOfWeek))
  }

  /** A version of this staff member and day that was in force at the instant. */
  predicate WasInForce(v: Version, staff: StaffId, dayOfWeek: Option<nat>, at: Instant) {
    IsFor(v.row, staff, dayOfWeek) && v.row.createdAt <= at && at < v.to
  }

  /** The row belongs into the answer. */
  ghost predicate IsListed(t: Tables, staff: StaffId, dayOfWeek: Option<nat>, date: Option<int>, now: Instant, r: Row) {
    if date.Some? && (date.value + 1) * 86400000 <= now then
      var at := date.value * 86400000;
      if exists v :: v in t.history && WasInForce(v, staff, dayOfWeek, at)
      then exists v :: v in t.history && WasInForce(v, staff, dayOfWeek, at) && v.row == r
      else r in t.current && IsFor(r, staff, dayOfWeek) && r.createdAt <= at
    else r in t.current && IsFor(r, staff, dayOfWeek)
  }

  lemma {:induction false} ReplacedAre(history: seq<Version>, staff: StaffId, dayOfWeek: Option<nat>, at: Instant)
    ensures forall r :: r in Replaced(history, Wanted(staff, dayOfWeek), at) <==>
              exists v :: v in history && WasInForce(v, staff, dayOfWeek, at) && v.row == r
  {
    if history != [] {
      var n := |history| - 1;
      ReplacedAre(history[..n], staff, dayOfWeek, at);
      assert history == history[..n] + [history[n]];
      assert WasInForce(history[n], staff, dayOfWeek, at)
        <==> Wanted(staff, dayOfWeek)(history[n].row) && InForce(history[n], at);
      hide WasInForce, InForce, Wanted;
      forall r | r in Replaced(history, Wanted(staff, dayOfWeek), at)
        ensures exists v :: v in history && WasInForce(v, staff, dayOfWeek, at) && v.row == r
      {
        if r in Replaced(history[..n], Wanted(staff, dayOfWeek), at) {
          var v :| v in history[..n] && WasInForce(v, staff, dayOfWeek, at) && v.row == r;
          assert v in history;
        } else {
          assert history[n] in history;
        }
      }
    }
  }

  lemma ReplacedIsNone(history: seq<Version>, staff: StaffId, dayOfWeek: Option<nat>, at: Instant)
    ensures Replaced(history, Wanted(staff, dayOfWeek), at) != []
       <==> exists v :: v in history && WasInForce(v, staff, dayOfWeek, at)
  {
    hide Replaced, WasInForce;
    ReplacedAre(history, staff, dayOfWeek, at);
    var replaced := Replaced(history, Wanted(staff, dayOfWeek), at);
    if replaced != [] {
      assert replaced[0] in replaced;
    }
    if v: Version :| v in history && WasInForce(v, staff, dayOfWeek, at) {
      assert v.row in replaced;
    }
  }

  /** `findAll` lists the rows that belong, and no others, in ascending order of the day. */
  lemma {:induction false} FindAllLists(t: Tables, staff: StaffId, dayOfWeek: Option<nat>, date: Option<int>, now: Instant)
    ensures var rows := FindAll(t, staff, dayOfWeek, date, now);
            && (forall r :: r in rows <==> IsListed(t, staff, dayOfWeek, date, now, r))
            && (forall i, j :: 0 <= i < j < |rows| ==> rows[i].entry.dayOfWeek <= rows[j].entry.dayOfWeek)
  {
    hide Replaced, WasInForce, Filter, SortByLoad;
    var wanted := Wanted(staff, dayOfWeek);
    var isPast := date.Some? && date.value < now / DAY_MS;
    var found := if isPast then AsOf(t, wanted, date.value * DAY_MS) else Filter(wanted, t.current);
    if isPast {
      ReplacedAre(t.history, staff, dayOfWeek, date.value * DAY_MS);
      ReplacedIsNone(t.history, staff, dayOfWeek, date.value * DAY_MS);
    }
    SortKeepsMembers(ByDay(), found);
    SortIsAscending(ByDay(), found);
    var rows := FindAll(t, staff, dayOfWeek, date, now);
    forall i, j | 0 <= i < j < |rows| ensures rows[i].entry.dayOfWeek <= rows[j].entry.dayOfWeek {
      assert ByDay()(rows[i]) <= ByDay()(rows[j]);
    }
  }

  // ----- The service -----------------------------------------------------------------------------------------

  class StaffScheduleService {
    var current: seq<Row>
    var history: seq<Version>

    constructor ()
      ensures State() == EMPTY
    {
      current, history := [], [];
    }

    function State(): Tables
      reads this
    {
      Tables.Tables(current, history)
    }

    method CreateSchedule(staff: StaffId, entry: Entry, now: Instant) returns (ok: bool)
      modifies this`current
      ensures State() == Do(old(State()), Create(now, staff, entry))
      ensures ok <==> !HasDay(old(current), staff, entry.dayOfWeek)
      ensures current == if ok then old(current) + [Row(staff, entry, now)] else old(current)
    {
      if Taken(current, staff, entry.dayOfWeek) {
        return false;
      }
      current := current + [Row(staff, entry, now)];
      ok := true;
    }

    /** The staff member's rows as versions that end now, and everybody else's rows. */
    method Archive(staff: StaffId, now: Instant) returns (archived: seq<Version>, kept: seq<Row>)
      ensures archived == Versions(Filter(Is(staff), current), now)
      ensures kept == Filter(IsNot(staff), current)
    {
      hide Filter;
      archived, kept := [], [];
      FilterKeepsNone(Is(staff), []);
      FilterKeepsNone(IsNot(staff), []);
      for i := 0 to |current|
        invariant archived == Versions(Filter(Is(staff), current[..i]), now)
        invariant kept == Filter(IsNot(staff), current[..i])
      {
        FilterStep(Is(staff), current, i);
        FilterStep(IsNot(staff), current, i);
        if current[i].staff == staff {
          archived := archived + [Version(current[i], now)];
        } else {
          kept := kept + [current[i]];
        }
      }
      assert current[..|current|] == current;
    }

    /** Archive the staff member's rows, delete them, insert the new ones; all or nothing. */
    method ReplaceAll(staff: StaffId, entries: seq<Entry>, now: Instant) returns (ok: bool)
      modifies this
      ensures State() == Do(old(State()), BulkUpsert(now, staff, entries))
      ensures ok <==> DistinctDays(entries)
      ensures !ok ==> State() == old(State())
      ensures ok ==> IsReplaced(old(State()), State(), staff, entries, now)
    {
      hide Filter, IsReplaced, DistinctDays;
      var archived, kept := Archive(staff, now);
      if !DistinctDays(entries) {
        return false;
      }
      ReplacementIs(State(), staff, entries, now);
      history := history + archived;
      current := kept + NewRows(entries, staff, now);
      ok := true;
    }

    /** `update` of one row: in place, with no trace in the history. */
    method UpdateSchedule(staff: StaffId, day: nat, entry: Entry, now: Instant) returns (ok: bool)
      modifies this`current
      ensures State() == Do(old(State()), Update(now, staff, day, entry))
      ensures ok <==> HasDay(old(current), staff, day) && (entry.dayOfWeek == day || !HasDay(old(current), staff, entry.dayOfWeek))
      ensures |current| == |old(current)|
      ensures forall i :: 0 <= i < |current| ==>
                var r := old(current)[i];
                current[i] == if ok && r.staff == staff && r.entry.dayOfWeek == day then Row(staff, entry, r.createdAt) else r
    {
      if !Taken(current, staff, day) || (entry.dayOfWeek != day && Taken(current, staff, entry.dayOfWeek)) {
        return false;
      }
      current := Updated(current, staff, day, entry);
      ok := true;
    }

    /** `remove` of one row, likewise. */
    method RemoveSchedule(staff: StaffId, day: nat, now: Instant) returns (ok: bool)
      modifies this`current
      ensures State() == Do(old(State()), Remove(now, staff, day))
      ensures ok <==> HasDay(old(current), staff, day)
      ensures forall r :: r in current <==> r in old(current) && !(r.staff == staff && r.entry.dayOfWeek == day)
      ensures !ok ==> current == old(current)
    {
      ok := Taken(current, staff, day);
      if !ok {
        FilterKeepsAll(IsNotDay(staff, day), current);
      }
      current := Filter(IsNotDay(staff, day), current);
    }

    method FindSchedules(staff: StaffId, dayOfWeek: Option<nat>, date: Option<int>, now: Instant) returns (rows: seq<Row>)
      ensures rows == FindAll(State(), staff, dayOfWeek, date, now)
      ensures forall r :: r in rows <==> IsListed(State(), staff, dayOfWeek, date, now, r)
      ensures forall i, j :: 0 <= i < j < |rows| ==> rows[i].entry.dayOfWeek <= rows[j].entry.dayOfWeek
    {
      FindAllLists(State(), staff, dayOfWeek, date, now);
      hide IsListed;
      var wanted := Wanted(staff, dayOfWeek);
      if date.Some? {
        var today := now / DAY_MS;
        if date.value < today {
          var targetDate := date.value * DAY_MS;
          var records := Replaced(history, wanted, targetDate);
          if |records| > 0 {
            return SortByLoad(ByDay(), records);
          }
          return SortByLoad(ByDay(), Filter(CreatedBy(wanted, targetDate), current));
        }
      }
      rows := SortByLoad(ByDay(), Filter(wanted, current));
    }
  }
}
