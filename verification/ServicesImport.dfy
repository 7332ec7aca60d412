/** Bulk import of services from a sheet: every row is accounted for, and every new service gets a fresh slug. */
module ServicesImport {
  import opened Common
  import opened Sorting
  import opened Text

  /** One sheet row as the cell readers give it; None is a cell without a number. */
  datatype SheetRow = SheetRow(number: nat, blank: bool, name: string, variant: string, duration: Option<real>,
                               price: Option<real>, status: string)

  datatype ParsedRow = ParsedRow(number: nat, name: string, variant: string, duration: nat, price: real, active: bool)

  datatype Service = Service(name: string, slug: Option<string>, variants: seq<ParsedRow>)

  datatype ImportResult = ImportResult(totalRows: nat, successCount: nat, skippedCount: nat, errors: seq<nat>,
                                       created: seq<(string, nat)>)

  // ----- Reading the sheet -----------------------------------------------------------------------------------

  /** Past the three heading rows and not empty. */
  function Counts(): SheetRow -> bool {
    (r: SheetRow) => r.number > 3 && !r.blank
  }

  predicate IsPositiveInteger(x: real) {
    x.Floor as real == x && x > 0.0
  }

  predicate IsValid(r: SheetRow) {
    && r.name != "" && |r.name| <= 150
    && r.duration.Some? && IsPositiveInteger(r.duration.value)
    && r.price.Some? && r.price.value >= 0.0
  }

  function Parsed(r: SheetRow): ParsedRow
    requires IsValid(r)
  {
    ParsedRow(r.number, r.name, if r.variant == "" then "Gói cơ bản" else r.variant, r.duration.value.Floor, r.price.value,
              r.status != "INACTIVE")
  }

  function ValidRows(sheet: seq<SheetRow>): seq<ParsedRow> {
    if sheet == [] then []
    else
      var last := sheet[|sheet| - 1];
      ValidRows(sheet[..|sheet| - 1]) + (if Counts()(last) && IsValid(last) then [Parsed(last)] else [])
  }

  function BadRows(sheet: seq<SheetRow>): seq<nat> {
    if sheet == [] then []
    else
      var last := sheet[|sheet| - 1];
      BadRows(sheet[..|sheet| - 1]) + (if Counts()(last) && !IsValid(last) then [last.number] else [])
  }

  lemma {:induction false} ValidOrBad(sheet: seq<SheetRow>)
    ensures |ValidRows(sheet)| + |BadRows(sheet)| == |Filter(Counts(), sheet)|
  {
    if sheet != [] {
      ValidOrBad(sheet[..|sheet| - 1]);
    }
  }

  lemma EmptySheet()
    ensures ValidRows([]) == [] && BadRows([]) == [] && Filter(Counts(), []) == []
  {
  }

  lemma OneMoreSheetRow(sheet: seq<SheetRow>, i: nat)
    requires i < |sheet|
    ensures ValidRows(sheet[..i + 1])
         == ValidRows(sheet[..i]) + (if Counts()(sheet[i]) && IsValid(sheet[i]) then [Parsed(sheet[i])] else [])
    ensures BadRows(sheet[..i + 1])
         == BadRows(sheet[..i]) + (if Counts()(sheet[i]) && !IsValid(sheet[i]) then [sheet[i].number] else [])
    ensures |Filter(Counts(), sheet[..i + 1])| == |Filter(Counts(), sheet[..i])| + (if Counts()(sheet[i]) then 1 else 0)
  {
    hide IsValid;
    assert sheet[..i + 1][..i] == sheet[..i];
    FilterStep(Counts(), sheet, i);
  }

  // ----- What the rows say -----------------------------------------------------------------------------------

  /** Below the headings, not empty, with a name of at most 150 characters, whole minutes and a price. */
  predicate IsComplete(r: SheetRow) {
    && r.number >= 4 && !r.blank
    && 1 <= |r.name| <= 150
    && r.duration.Some? && r.duration.value >= 1.0 && r.duration.value - r.duration.value.Floor as real == 0.0
    && r.price.Some? && 0.0 <= r.price.value
  }

  /** The variant that the row describes. */
  predicate IsVariant(v: ParsedRow, r: SheetRow) {
    && v.number == r.number && v.name == r.name
    && r.duration == Some(v.duration as real) && r.price == Some(v.price)
    && v.variant == (if |r.variant| > 0 then r.variant else "Gói cơ bản")
    && (v.active <==> r.status != "INACTIVE")
  }

  function RowsOf(name: string): SheetRow -> bool {
    (r: SheetRow) => IsComplete(r) && r.name == name
  }

  /** The service has, in the order of the sheet, a variant for each complete row of its name, and no others. */
  ghost predicate HasRowsOf(variants: seq<ParsedRow>, name: string, sheet: seq<SheetRow>) {
    var rows := Filter(RowsOf(name), sheet);
    |variants| == |rows| && forall i :: 0 <= i < |rows| ==> IsVariant(variants[i], rows[i])
  }

  lemma CompleteIs(r: SheetRow)
    ensures IsComplete(r) <==> Counts()(r) && IsValid(r)
    ensures IsValid(r) ==> IsVariant(Parsed(r), r)
  {
  }

  lemma {:induction false} ValidRowsAre(name: string, sheet: seq<SheetRow>)
    ensures HasRowsOf(Filter(Named(name), ValidRows(sheet)), name, sheet)
  {
    hide Filter, IsComplete, IsValid, IsVariant, Parsed;
    if sheet == [] {
      FilterKeepsNone(RowsOf(name), sheet);
      FilterKeepsNone(Named(name), []);
    } else {
      var n := |sheet| - 1;
      ValidRowsAre(name, sheet[..n]);
      CompleteIs(sheet[n]);
      NamedLike(sheet[n]);
      assert sheet == sheet[..n] + [sheet[n]];
      FilterSnoc(RowsOf(name), sheet[..n], sheet[n]);
      var before, rows := Filter(Named(name), ValidRows(sheet[..n])), Filter(RowsOf(name), sheet[..n]);
      if Counts()(sheet[n]) && IsValid(sheet[n]) {
        var parsed := Parsed(sheet[n]);
        FilterSnoc(Named(name), ValidRows(sheet[..n]), parsed);
        assert Filter(Named(name), ValidRows(sheet)) == before + (if sheet[n].name == name then [parsed] else []);
        assert Filter(RowsOf(name), sheet) == rows + (if sheet[n].name == name then [sheet[n]] else []);
      } else {
        assert ValidRows(sheet) == ValidRows(sheet[..n]) && Filter(RowsOf(name), sheet) == rows;
      }
    }
  }

  function NewRows(known: set<string>): SheetRow -> bool {
    (r: SheetRow) => IsComplete(r) && r.name !in known
  }

  lemma {:induction false} NewRowsAre(known: set<string>, sheet: seq<SheetRow>)
    ensures |Filter(IsNew(known), ValidRows(sheet))| == |Filter(NewRows(known), sheet)|
  {
    hide Filter, IsComplete, IsValid, IsVariant, Parsed;
    if sheet == [] {
      FilterKeepsNone(NewRows(known), sheet);
      FilterKeepsNone(IsNew(known), []);
    } else {
      var n := |sheet| - 1;
      NewRowsAre(known, sheet[..n]);
      CompleteIs(sheet[n]);
      NamedLike(sheet[n]);
      assert sheet == sheet[..n] + [sheet[n]];
      FilterSnoc(NewRows(known), sheet[..n], sheet[n]);
      if Counts()(sheet[n]) && IsValid(sheet[n]) {
        FilterSnoc(IsNew(known), ValidRows(sheet[..n]), Parsed(sheet[n]));
      } else {
        assert ValidRows(sheet) == ValidRows(sheet[..n]);
      }
    }
  }

  /** A name has a complete row exactly when it has a valid one, and the first ones have the same number. */
  lemma NameHasRows(name: string, sheet: seq<SheetRow>)
    ensures (exists r :: r in sheet && IsComplete(r) && r.name == name) <==> Filter(Named(name), ValidRows(sheet)) != []
    ensures Filter(Named(name), ValidRows(sheet)) != [] <==> Filter(RowsOf(name), sheet) != []
    ensures Filter(RowsOf(name), sheet) != [] ==>
              Filter(Named(name), ValidRows(sheet))[0].number == Filter(RowsOf(name), sheet)[0].number
  {
    ValidRowsAre(name, sheet);
    hide Filter, ValidRows, IsComplete;
    if Filter(RowsOf(name), sheet) != [] {
      assert Filter(RowsOf(name), sheet)[0] in Filter(RowsOf(name), sheet);
    }
    if r :| r in sheet && IsComplete(r) && r.name == name {
      assert r in Filter(RowsOf(name), sheet);
    }
  }

  lemma NamedLike(r: SheetRow)
    ensures IsValid(r) ==> Parsed(r).name == r.name
  {
  }

  lemma {:induction false} BadRowsAre(sheet: seq<SheetRow>)
    ensures forall number :: number in BadRows(sheet) <==>
              exists r :: r in sheet && r.number == number && number >= 4 && !r.blank && !IsComplete(r)
  {
    hide IsComplete, IsValid;
    if sheet != [] {
      var n := |sheet| - 1;
      BadRowsAre(sheet[..n]);
      CompleteIs(sheet[n]);
      assert sheet == sheet[..n] + [sheet[n]];
      forall number | number in BadRows(sheet)
        ensures exists r :: r in sheet && r.number == number && number >= 4 && !r.blank && !IsComplete(r)
      {
        if number in BadRows(sheet[..n]) {
          var r :| r in sheet[..n] && r.number == number && number >= 4 && !r.blank && !IsComplete(r);
          assert r in sheet;
        } else {
          assert sheet[n] in sheet;
        }
      }
    }
  }

  method ParseExcel(sheet: seq<SheetRow>) returns (validRows: seq<ParsedRow>, rowErrors: seq<nat>, totalRows: nat)
    ensures validRows == ValidRows(sheet) && rowErrors == BadRows(sheet) && totalRows == |Filter(Counts(), sheet)|
    ensures forall name :: HasRowsOf(Filter(Named(name), validRows), name, sheet)
    ensures forall number :: number in rowErrors <==>
              exists r :: r in sheet && r.number == number && number >= 4 && !r.blank && !IsComplete(r)
    ensures |validRows| + |rowErrors| == totalRows
  {
    hide Filter, ValidRows, BadRows, HasRowsOf, IsComplete;
    forall name ensures HasRowsOf(Filter(Named(name), ValidRows(sheet)), name, sheet) {
      ValidRowsAre(name, sheet);
    }
    BadRowsAre(sheet);
    ValidOrBad(sheet);
    validRows, rowErrors, totalRows := [], [], 0;
    EmptySheet();
    assert sheet[..0] == [];
    for i := 0 to |sheet|
      invariant validRows == ValidRows(sheet[..i]) && rowErrors == BadRows(sheet[..i])
      invariant totalRows == |Filter(Counts(), sheet[..i])|
    {
      OneMoreSheetRow(sheet, i);
      var row := sheet[i];
      if row.number > 3 && !row.blank {
        totalRows := totalRows + 1;
        if row.name == "" || |row.name| > 150 {
          rowErrors := rowErrors + [row.number];
        } else if row.duration.None? || !IsPositiveInteger(row.duration.value) {
          rowErrors := rowErrors + [row.number];
        } else if row.price.None? || row.price.value < 0.0 {
          rowErrors := rowErrors + [row.number];
        } else {
          validRows := validRows + [Parsed(row)];
        }
      }
    }
    assert sheet[..|sheet|] == sheet;
  }

  // ----- Groups ----------------------------------------------------------------------------------------------

  function Named(name: string): ParsedRow -> bool {
    (r: ParsedRow) => r.name == name
  }

  function NamedIn(names: seq<string>): ParsedRow -> bool {
    (r: ParsedRow) => r.name in names
  }

  /** The rows of all these names, counted name by name. */
  function GroupSizes(names: seq<string>, rows: seq<ParsedRow>): nat {
    if names == [] then 0
    else GroupSizes(names[..|names| - 1], rows) + |Filter(Named(names[|names| - 1]), rows)|
  }

  lemma {:induction false} OneMoreRow(names: seq<string>, rows: seq<ParsedRow>, row: ParsedRow)
    requires Distinct(names)
    ensures GroupSizes(names, rows + [row]) == GroupSizes(names, rows) + (if row.name in names then 1 else 0)
  {
    hide Filter;
    if names != [] {
      var n := |names| - 1;
      OneMoreRow(names[..n], rows, row);
      FilterSnoc(Named(names[n]), rows, row);
      assert names == names[..n] + [names[n]];
    }
  }

  lemma {:induction false} NoRows(names: seq<string>)
    ensures GroupSizes(names, []) == 0
  {
    if names != [] {
      NoRows(names[..|names| - 1]);
    }
  }

  /** Counting name by name counts every row once. */
  lemma {:induction false} GroupsCoverRows(names: seq<string>, rows: seq<ParsedRow>)
    requires Distinct(names)
    ensures GroupSizes(names, rows) == |Filter(NamedIn(names), rows)|
  {
    hide Distinct, Filter, GroupSizes;
    if rows == [] {
      NoRows(names);
      FilterKeepsNone(NamedIn(names), rows);
    } else {
      var n := |rows| - 1;
      GroupsCoverRows(names, rows[..n]);
      OneMoreRow(names, rows[..n], rows[n]);
      FilterSnoc(NamedIn(names), rows[..n], rows[n]);
      assert rows[..n] + [rows[n]] == rows;
    }
  }

  /** A row of the one name comes before all rows of the other. */
  ghost predicate ComesFirst(rows: seq<ParsedRow>, name: string, other: string) {
    exists k :: 0 <= k < |rows| && rows[k].name == name && forall l :: 0 <= l <= k ==> rows[l].name != other
  }

  ghost predicate InOrder(names: seq<string>, rows: seq<ParsedRow>) {
    forall i, j :: 0 <= i < j < |names| ==> ComesFirst(rows, names[i], names[j])
  }

  lemma OrderOneMore(names: seq<string>, rows: seq<ParsedRow>, row: ParsedRow)
    requires InOrder(names, rows) && forall name :: name in names ==> exists r :: r in rows && r.name == name
    ensures InOrder(names, rows + [row])
    ensures (forall r :: r in rows ==> r.name != row.name) ==> InOrder(names + [row.name], rows + [row])
  {
    var more := rows + [row];
    forall i, j | 0 <= i < j < |names| ensures ComesFirst(more, names[i], names[j]) {
      assert ComesFirst(rows, names[i], names[j]);
      var k :| 0 <= k < |rows| && rows[k].name == names[i] && forall l :: 0 <= l <= k ==> rows[l].name != names[j];
      assert more[k].name == names[i] && forall l :: 0 <= l <= k ==> more[l].name != names[j];
    }
    if forall r :: r in rows ==> r.name != row.name {
      forall i | 0 <= i < |names| ensures ComesFirst(more, names[i], row.name) {
        assert names[i] in names;
        var r :| r in rows && r.name == names[i];
        var k :| 0 <= k < |rows| && rows[k] == r;
        assert more[k].name == names[i];
      }
    }
  }

  /** One list of rows per name, and the names in order of their first row. */
  ghost predicate Grouped(groups: map<string, seq<ParsedRow>>, names: seq<string>, rows: seq<ParsedRow>) {
    && InOrder(names, rows)
    && Distinct(names) && (forall name :: name in groups <==> name in names)
    && (forall r :: r in rows ==> r.name in groups)
    && (forall name :: name in groups ==> groups[name] == Filter(Named(name), rows) && groups[name] != [])
  }

  lemma GroupsInOrder(groups: map<string, seq<ParsedRow>>, names: seq<string>, rows: seq<ParsedRow>, row: ParsedRow)
    requires Grouped(groups, names, rows)
    ensures InOrder(names, rows + [row])
    ensures row.name !in groups ==> InOrder(names + [row.name], rows + [row])
  {
    hide Filter, InOrder;
    forall name | name in names ensures exists r :: r in rows && r.name == name {
      assert groups[name][0] in Filter(Named(name), rows);
    }
    OrderOneMore(names, rows, row);
  }

  lemma GroupOneMore(groups: map<string, seq<ParsedRow>>, names: seq<string>, rows: seq<ParsedRow>, row: ParsedRow)
    requires Grouped(groups, names, rows)
    ensures if row.name in groups then Grouped(groups[row.name := groups[row.name] + [row]], names, rows + [row])
            else Grouped(groups[row.name := [row]], names + [row.name], rows + [row])
  {
    hide Filter, InOrder;
    GroupsInOrder(groups, names, rows, row);
    forall name ensures Filter(Named(name), rows + [row]) == Filter(Named(name), rows) + (if name == row.name then [row] else []) {
      FilterSnoc(Named(name), rows, row);
    }
    if row.name !in groups {
      FilterKeepsNone(Named(row.name), rows);
    }
  }

  method GroupByName(rows: seq<ParsedRow>) returns (groups: map<string, seq<ParsedRow>>, names: seq<string>)
    ensures Grouped(groups, names, rows)
  {
    hide Grouped;
    groups, names := map[], [];
    assert Grouped(groups, names, rows[..0]) by { NothingGrouped(); }
    for i := 0 to |rows|
      invariant Grouped(groups, names, rows[..i])
    {
      var row := rows[i];
      assert rows[..i] + [row] == rows[..i + 1];
      GroupOneMore(groups, names, rows[..i], row);
      if row.name in groups {
        groups := groups[row.name := groups[row.name] + [row]];
      } else {
        groups, names := groups[row.name := [row]], names + [row.name];
      }
    }
    assert rows[..|rows|] == rows;
  }

  lemma NothingGrouped()
    ensures Grouped(map[], [], [])
  {
  }

  // ----- Slugs -----------------------------------------------------------------------------------------------

  /** The n-th slug tried for a base: the base itself, then base-2, base-3, ... */
  function Candidate(base: string, n: nat): string {
    if n == 0 then base else base + "-" + Numeral(n + 1)
  }

  ghost predicate IsFirstFree(slug: string, base: string, taken: set<string>) {
    && slug !in taken
    && exists n: nat :: slug == Candidate(base, n) && forall j: nat :: j < n ==> Candidate(base, j) in taken
  }

  lemma CandidatesDiffer(base: string, m: nat, n: nat)
    requires Candidate(base, m) == Candidate(base, n)
    ensures m == n
  {
    if m > 0 && n > 0 {
      var prefix := base + "-";
      assert Candidate(base, m)[|prefix|..] == Numeral(m + 1);
      assert Candidate(base, n)[|prefix|..] == Numeral(n + 1);
      NumeralsDiffer(m + 1, n + 1);
    }
  }

  lemma {:induction false} SubsetSize<T>(a: set<T>, b: set<T>)
    requires a <= b
    ensures |a| <= |b|
  {
    if a != {} {
      var x :| x in a;
      SubsetSize(a - {x}, b - {x});
    }
  }

  /** The first n slugs, all different. */
  ghost predicate Tried(tried: set<string>, base: string, n: nat) {
    |tried| == n && forall s :: s in tried ==> exists j: nat :: j < n && s == Candidate(base, j)
  }

  /**
   * The suffix loop: it stops at the first slug that is not taken. It must stop, because the slugs tried are all
   * different and there are only finitely many taken ones.
   */
  method MakeSlug(base: string, taken: set<string>) returns (slug: string)
    ensures IsFirstFree(slug, base, taken)
  {
    hide Candidate;
    assert Candidate(base, 0) == base by { FirstCandidate(base); }
    slug := base;
    var suffix := 2;
    ghost var tried: set<string> := {};
    ghost var n: nat := 0;
    while slug in taken
      invariant suffix == n + 2 && slug == Candidate(base, n)
      invariant Tried(tried, base, n) && tried <= taken
      invariant forall j: nat :: j < n ==> Candidate(base, j) in taken
      decreases |taken| - |tried|
    {
      forall j: nat | j < n ensures Candidate(base, j) != slug {
        if Candidate(base, j) == Candidate(base, n) {
          CandidatesDiffer(base, j, n);
        }
      }
      SubsetSize(tried + {slug}, taken);
      tried := tried + {slug};
      NextCandidate(base, n);
      slug := base + "-" + Numeral(suffix);
      suffix := suffix + 1;
      n := n + 1;
    }
  }

  lemma FirstCandidate(base: string)
    ensures Candidate(base, 0) == base
  {
  }

  lemma NextCandidate(base: string, n: nat)
    ensures Candidate(base, n + 1) == base + "-" + Numeral(n + 2)
  {
  }

  // ----- The import ------------------------------------------------------------------------------------------

  function NamesOf(services: seq<Service>): set<string> {
    set i | 0 <= i < |services| :: services[i].name
  }

  function SlugsOf(services: seq<Service>): set<string> {
    set i | 0 <= i < |services| && services[i].slug.Some? :: services[i].slug.value
  }

  /** No two services of the store share a slug. */
  ghost predicate UniqueSlugs(services: seq<Service>) {
    forall i, j :: 0 <= i < j < |services| && services[i].slug.Some? ==> services[i].slug != services[j].slug
  }

  /** What a slug is made from: a name of which nothing is left counts as "service". */
  function SlugBase(slugify: string -> string, name: string): string {
    if slugify(name) == "" then "service" else slugify(name)
  }

  /** What the import adds for one name: all its rows, under the first slug that nobody before it has. */
  ghost predicate IsImport(s: Service, earlier: seq<Service>, valid: seq<ParsedRow>, slugify: string -> string) {
    && s.variants == Filter(Named(s.name), valid)
    && s.slug.Some? && IsFirstFree(s.slug.value, SlugBase(slugify, s.name), SlugsOf(earlier))
  }

  /** One imported service per name, in order, after the services that were there before. */
  ghost predicate Added(before: seq<Service>, after: seq<Service>, names: seq<string>, valid: seq<ParsedRow>,
                        slugify: string -> string) {
    && |after| == |before| + |names| && after[..|before|] == before
    && forall k :: |before| <= k < |after| ==>
         after[k].name == names[k - |before|] && IsImport(after[k], after[..k], valid, slugify)
  }

  /** The report has a service and its number of variants for each service added. */
  ghost predicate IsReported(before: seq<Service>, after: seq<Service>, created: seq<(string, nat)>) {
    && |before| + |created| == |after|
    && forall k :: 0 <= k < |created| ==> created[k] == (after[|before| + k].name, |after[|before| + k].variants|)
  }

  /**
   * What an import leaves: the services there were, and one more for each other name with a complete row, with these rows
   * as its variants, the first free slug, and in order of their first rows.
   */
  ghost predicate IsImported(before: seq<Service>, after: seq<Service>, sheet: seq<SheetRow>, slugify: string -> string) {
    && |before| <= |after| && after[..|before|] == before
    && (forall k :: |before| <= k < |after| ==>
          && after[k].variants != [] && HasRowsOf(after[k].variants, after[k].name, sheet)
          && after[k].slug.Some?
          && IsFirstFree(after[k].slug.value, SlugBase(slugify, after[k].name), SlugsOf(after[..k]))
          && forall i :: 0 <= i < k ==> after[i].name != after[k].name)
    && (forall r :: r in sheet && IsComplete(r) ==> exists i :: 0 <= i < |after| && after[i].name == r.name)
    && (forall i, j :: |before| <= i < j < |after| ==> ComesFirst(ValidRows(sheet), after[i].name, after[j].name))
  }

  /** A row number is reported for each counted row that is not complete, and for the first row of each known name. */
  ghost predicate IsErrors(errors: seq<nat>, before: seq<Service>, sheet: seq<SheetRow>) {
    forall number :: number in errors <==>
      || (exists r :: r in sheet && r.number == number && number >= 4 && !r.blank && !IsComplete(r))
      || (exists i :: 0 <= i < |before| && IsFirstRow(before[i].name, sheet, number))
  }

  predicate IsFirstRow(name: string, sheet: seq<SheetRow>, number: nat) {
    Filter(RowsOf(name), sheet) != [] && Filter(RowsOf(name), sheet)[0].number == number
  }

  function VariantTotal(created: seq<(string, nat)>): nat {
    if created == [] then 0 else VariantTotal(created[..|created| - 1]) + created[|created| - 1].1
  }

  /** The numbers of the first rows of the known names. */
  ghost predicate AreFirst(errors: seq<nat>, names: seq<string>, known: set<string>, groups: map<string, seq<ParsedRow>>) {
    forall number :: number in errors <==> exists name :: name in names && IsFirstOf(name, known, groups, number)
  }

  ghost predicate IsFirstOf(name: string, known: set<string>, groups: map<string, seq<ParsedRow>>, number: nat) {
    name in known && name in groups && groups[name] != [] && groups[name][0].number == number
  }

  lemma FirstOneMore(errors: seq<nat>, names: seq<string>, known: set<string>, groups: map<string, seq<ParsedRow>>, name: string)
    requires AreFirst(errors, names, known, groups) && name in groups && groups[name] != []
    ensures AreFirst(if name in known then errors + [groups[name][0].number] else errors, names + [name], known, groups)
  {
    forall number | number in errors
      ensures exists other :: other in names + [name] && IsFirstOf(other, known, groups, number)
    {
      var other :| other in names && IsFirstOf(other, known, groups, number);
      assert other in names + [name];
    }
    assert name in known ==> name in names + [name] && IsFirstOf(name, known, groups, groups[name][0].number);
  }

  lemma OrderGrows(names: seq<string>, i: nat, toCreate: seq<string>, rows: seq<ParsedRow>)
    requires i < |names| && InOrder(names, rows) && InOrder(toCreate, rows)
    requires forall name :: name in toCreate ==> name in names[..i]
    requires Distinct(names) && Distinct(toCreate)
    ensures InOrder(toCreate + [names[i]], rows) && Distinct(toCreate + [names[i]])
  {
    hide ComesFirst;
    forall k | 0 <= k < |toCreate| ensures ComesFirst(rows, toCreate[k], names[i]) && toCreate[k] != names[i] {
      assert toCreate[k] in names[..i];
      var j :| 0 <= j < i && names[j] == toCreate[k];
    }
  }

  lemma NothingSplit(groups: map<string, seq<ParsedRow>>, names: seq<string>, rows: seq<ParsedRow>, known: set<string>)
    requires Grouped(groups, names, rows)
    ensures Distinct(names) && InOrder(names, rows)
    ensures Distinct<string>([]) && InOrder([], rows) && AreFirst([], [], known, groups)
  {
  }

  class ServicesImportService {
    var services: seq<Service>

    constructor (services: seq<Service>)
      ensures this.services == services
    {
      this.services := services;
    }

    /** Splits the names into those the store already has, counting their rows, and those to create. */
    method SplitNames(groups: map<string, seq<ParsedRow>>, names: seq<string>, valid: seq<ParsedRow>)
      returns (toCreate: seq<string>, duplicateRows: nat, errors: seq<nat>)
      requires Grouped(groups, names, valid)
      ensures Distinct(toCreate) && forall name :: name in toCreate <==> name in names && name !in NamesOf(services)
      ensures GroupSizes(toCreate, valid) + duplicateRows == GroupSizes(names, valid)
      ensures InOrder(toCreate, valid)
      ensures AreFirst(errors, names, NamesOf(services), groups)
    {
      hide GroupSizes, NamesOf, Filter, InOrder, AreFirst, Grouped, Distinct;
      GroupsAre(groups, names, valid);
      toCreate, duplicateRows, errors := [], 0, [];
      NothingSplit(groups, names, valid, NamesOf(services));
      assert names[..0] == [];
      for i := 0 to |names|
        invariant Distinct(toCreate) && forall name :: name in toCreate <==> name in names[..i] && name !in NamesOf(services)
        invariant GroupSizes(toCreate, valid) + duplicateRows == GroupSizes(names[..i], valid)
        invariant InOrder(toCreate, valid) && AreFirst(errors, names[..i], NamesOf(services), groups)
      {
        var name := names[i];
        assert names[..i] + [name] == names[..i + 1];
        OneMoreName(names[..i], name, valid);
        if name in NamesOf(services) {
          FirstOneMore(errors, names[..i], NamesOf(services), groups, name);
          duplicateRows := duplicateRows + |groups[name]|;
          errors := errors + [groups[name][0].number];
        } else {
          FirstOneMore(errors, names[..i], NamesOf(services), groups, name);
          OrderGrows(names, i, toCreate, valid);
          OneMoreName(toCreate, name, valid);
          toCreate := toCreate + [name];
        }
      }
      assert names[..|names|] == names;
    }

    /** Creates one service per name, each with a slug that neither the store nor this import has used. */
    method CreateServices(groups: map<string, seq<ParsedRow>>, toCreate: seq<string>, valid: seq<ParsedRow>, slugify: string -> string)
      returns (created: seq<(string, nat)>)
      requires forall name :: name in toCreate ==> name in groups && groups[name] == Filter(Named(name), valid)
      modifies this
      ensures Added(old(services), services, toCreate, valid, slugify)
      ensures IsReported(old(services), services, created)
      ensures UniqueSlugs(old(services)) ==> UniqueSlugs(services)
      ensures VariantTotal(created) == GroupSizes(toCreate, valid)
    {
      hide GroupSizes, VariantTotal, Filter, UniqueSlugs, SlugsOf, Added, Candidate;
      var before := services;
      var existingSlugs, usedSlugs := SlugsOf(services), {};
      created := [];
      assert toCreate[..0] == [];
      NothingCreated(services, valid, slugify);
      for i := 0 to |toCreate|
        invariant Added(before, services, toCreate[..i], valid, slugify)
        invariant IsReported(before, services, created)
        invariant UniqueSlugs(before) ==> UniqueSlugs(services)
        invariant SlugsOf(services) == existingSlugs + usedSlugs
        invariant VariantTotal(created) == GroupSizes(toCreate[..i], valid)
      {
        var name := toCreate[i];
        var rows := groups[name];
        var base := slugify(name);
        var slug := MakeSlug(if base == "" then "service" else base, existingSlugs + usedSlugs);
        assert IsImport(Service(name, Some(slug), rows), services, valid, slugify);
        usedSlugs := usedSlugs + {slug};
        assert toCreate[..i] + [name] == toCreate[..i + 1];
        OneMoreName(toCreate[..i], name, valid);
        OneMoreCreated(created, (name, |rows|));
        FreshSlug(services, Service(name, Some(slug), rows));
        AddOneMore(before, services, toCreate[..i], valid, slugify, Service(name, Some(slug), rows));
        services := services + [Service(name, Some(slug), rows)];
        created := created + [(name, |rows|)];
      }
      assert toCreate[..|toCreate|] == toCreate;
    }

    /**
     * `importServices`: every counted row is either imported or skipped; the imported ones are exactly the valid rows
     * whose service the store did not have, grouped by name under fresh slugs.
     */
    method ImportServices(sheet: seq<SheetRow>, slugify: string -> string) returns (r: ImportResult)
      modifies this
      ensures r.totalRows == |Filter(Counts(), sheet)| == r.successCount + r.skippedCount
      ensures r.successCount == |Filter(NewRows(NamesOf(old(services))), sheet)|
      ensures UniqueSlugs(old(services)) ==> UniqueSlugs(services)
      ensures IsImported(old(services), services, sheet, slugify)
      ensures IsErrors(r.errors, old(services), sheet) && IsReported(old(services), services, r.created)
    {
      hide Filter, GroupSizes, VariantTotal, UniqueSlugs, IsImport, NamesOf, ValidRows, BadRows, Grouped, Added, IsImported,
        IsErrors, IsReported, InOrder;
      var validRows, rowErrors, totalRows := ParseExcel(sheet);
      ValidOrBad(sheet);
      var groups, names := GroupByName(validRows);
      var toCreate, duplicateRows, nameErrors := SplitNames(groups, names, validRows);
      ghost var before := services;
      GroupsAre(groups, names, validRows);
      var created := CreateServices(groups, toCreate, validRows, slugify);
      EveryRowOnce(groups, names, toCreate, validRows, NamesOf(before), duplicateRows);
      NewRowsAre(NamesOf(before), sheet);
      ImportIs(before, services, groups, names, toCreate, sheet, slugify);
      ErrorsAre(rowErrors, nameErrors, before, groups, names, sheet);
      var successCount := VariantTotal(created);
      r := ImportResult(totalRows, successCount, |rowErrors| + duplicateRows, rowErrors + nameErrors, created);
    }
  }

  lemma GroupsAre(groups: map<string, seq<ParsedRow>>, names: seq<string>, rows: seq<ParsedRow>)
    requires Grouped(groups, names, rows)
    ensures forall name :: name in names ==> name in groups && groups[name] == Filter(Named(name), rows) && groups[name] != []
    ensures forall name :: name in names <==> Filter(Named(name), rows) != []
  {
    hide Filter;
    forall name | Filter(Named(name), rows) != [] ensures name in names {
      assert Filter(Named(name), rows)[0] in Filter(Named(name), rows);
    }
  }

  lemma ImportIs(before: seq<Service>, after: seq<Service>, groups: map<string, seq<ParsedRow>>, names: seq<string>,
                 toCreate: seq<string>, sheet: seq<SheetRow>, slugify: string -> string)
    requires Added(before, after, toCreate, ValidRows(sheet), slugify) && Grouped(groups, names, ValidRows(sheet))
    requires Distinct(toCreate) && InOrder(toCreate, ValidRows(sheet))
    requires forall name :: name in toCreate <==> name in names && name !in NamesOf(before)
    ensures IsImported(before, after, sheet, slugify)
  {
    hide Filter, ValidRows, IsFirstFree, HasRowsOf, IsComplete, ComesFirst, SlugsOf, Grouped;
    GroupsAre(groups, names, ValidRows(sheet));
    forall k | |before| <= k < |after|
      ensures && after[k].variants != [] && HasRowsOf(after[k].variants, after[k].name, sheet)
              && after[k].slug.Some?
              && IsFirstFree(after[k].slug.value, SlugBase(slugify, after[k].name), SlugsOf(after[..k]))
      ensures forall i :: 0 <= i < k ==> after[i].name != after[k].name
    {
      assert IsImport(after[k], after[..k], ValidRows(sheet), slugify);
      ValidRowsAre(after[k].name, sheet);
      assert after[k].name in toCreate;
      forall i | 0 <= i < k ensures after[i].name != after[k].name {
        if i < |before| {
          assert after[..|before|][i] == after[i];
          assert after[i].name in NamesOf(before);
        }
      }
    }
    forall r | r in sheet && IsComplete(r) ensures exists i :: 0 <= i < |after| && after[i].name == r.name {
      NameHasRows(r.name, sheet);
      NameIsStored(before, after, toCreate, ValidRows(sheet), slugify, r.name);
    }
  }

  lemma ErrorsAre(rowErrors: seq<nat>, nameErrors: seq<nat>, before: seq<Service>, groups: map<string, seq<ParsedRow>>,
                  names: seq<string>, sheet: seq<SheetRow>)
    requires rowErrors == BadRows(sheet) && Grouped(groups, names, ValidRows(sheet))
    requires forall name :: name in names ==> name in groups && groups[name] != []
    requires AreFirst(nameErrors, names, NamesOf(before), groups)
    ensures IsErrors(rowErrors + nameErrors, before, sheet)
  {
    hide Filter, ValidRows, BadRows, IsComplete, Grouped;
    BadRowsAre(sheet);
    GroupsAre(groups, names, ValidRows(sheet));
    forall number ensures number in nameErrors <==> exists i :: 0 <= i < |before| && IsFirstRow(before[i].name, sheet, number) {
      if number in nameErrors {
        var name :| name in names && IsFirstOf(name, NamesOf(before), groups, number);
        var i :| 0 <= i < |before| && before[i].name == name;
        NameHasRows(name, sheet);
        assert IsFirstRow(before[i].name, sheet, number);
      }
      if i :| 0 <= i < |before| && IsFirstRow(before[i].name, sheet, number) {
        NameHasRows(before[i].name, sheet);
        assert IsFirstOf(before[i].name, NamesOf(before), groups, number);
      }
    }
  }

  function IsNew(known: set<string>): ParsedRow -> bool {
    (r: ParsedRow) => r.name !in known
  }

  /** The rows created and the rows of known names are all the rows. */
  lemma EveryRowOnce(groups: map<string, seq<ParsedRow>>, names: seq<string>, toCreate: seq<string>, valid: seq<ParsedRow>,
                     known: set<string>, duplicateRows: nat)
    requires Grouped(groups, names, valid) && Distinct(toCreate)
    requires forall name :: name in toCreate <==> name in names && name !in known
    requires GroupSizes(toCreate, valid) + duplicateRows == GroupSizes(names, valid)
    ensures GroupSizes(toCreate, valid) + duplicateRows == |valid|
    ensures GroupSizes(toCreate, valid) == |Filter(IsNew(known), valid)|
  {
    hide Filter, GroupSizes, Distinct;
    GroupsCoverRows(names, valid);
    GroupsCoverRows(toCreate, valid);
    FilterKeepsAll(NamedIn(names), valid);
    FilterSame(NamedIn(toCreate), IsNew(known), valid);
  }

  lemma FreshSlug(services: seq<Service>, s: Service)
    requires s.slug.Some? && s.slug.value !in SlugsOf(services)
    ensures SlugsOf(services + [s]) == SlugsOf(services) + {s.slug.value}
    ensures UniqueSlugs(services) ==> UniqueSlugs(services + [s])
  {
    var more := services + [s];
    forall i | 0 <= i < |services| && services[i].slug.Some? ensures services[i].slug != s.slug {
      assert services[i].slug.value in SlugsOf(services);
    }
    assert more[|services|] == s;
    forall slug ensures slug in SlugsOf(more) <==> slug in SlugsOf(services) || slug == s.slug.value {
      if slug in SlugsOf(services) {
        var i :| 0 <= i < |services| && services[i].slug == Some(slug);
        assert more[i].slug == Some(slug);
      }
    }
  }

  lemma NameIsStored(before: seq<Service>, after: seq<Service>, toCreate: seq<string>, valid: seq<ParsedRow>,
                     slugify: string -> string, name: string)
    requires Added(before, after, toCreate, valid, slugify)
    requires name in toCreate || name in NamesOf(before)
    ensures name in NamesOf(after)
  {
    if name in toCreate {
      var k :| 0 <= k < |toCreate| && toCreate[k] == name;
      assert after[|before| + k].name == name;
    } else {
      var i :| 0 <= i < |before| && before[i].name == name;
      assert after[..|before|][i] == after[i];
    }
  }

  lemma OneMoreName(names: seq<string>, name: string, rows: seq<ParsedRow>)
    ensures GroupSizes([], rows) == 0
    ensures GroupSizes(names + [name], rows) == GroupSizes(names, rows) + |Filter(Named(name), rows)|
  {
    assert (names + [name])[..|names|] == names;
  }

  lemma NothingCreated(services: seq<Service>, rows: seq<ParsedRow>, slugify: string -> string)
    ensures VariantTotal([]) == 0 && GroupSizes([], rows) == 0 && Added(services, services, [], rows, slugify)
  {
  }

  lemma AddOneMore(before: seq<Service>, after: seq<Service>, names: seq<string>, valid: seq<ParsedRow>,
                   slugify: string -> string, s: Service)
    requires Added(before, after, names, valid, slugify) && IsImport(s, after, valid, slugify)
    ensures Added(before, after + [s], names + [s.name], valid, slugify)
  {
    hide IsImport;
    var more := after + [s];
    forall k | |before| <= k < |more|
      ensures more[k].name == (names + [s.name])[k - |before|] && IsImport(more[k], more[..k], valid, slugify)
    {
      assert more[..k] == after[..k];
    }
  }

  lemma OneMoreCreated(created: seq<(string, nat)>, entry: (string, nat))
    ensures VariantTotal(created + [entry]) == VariantTotal(created) + entry.1
  {
    assert (created + [entry])[..|created|] == created;
  }
}
