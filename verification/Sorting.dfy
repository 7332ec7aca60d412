/** Stable sorting by a load figure, as Array.prototype.sort with `a.load - b.load`, and grouping of rows by a key. */
module Sorting {
  import opened Common

  /** Puts x after every element of no greater load. */
  function Insert<T(!new)>(load: T -> nat, sorted: seq<T>, x: T): (r: seq<T>)
    ensures |r| == |sorted| + 1
  {
    if sorted == [] then [x]
    else
      var n := |sorted| - 1;
      if load(sorted[n]) <= load(x) then sorted + [x] else Insert(load, sorted[..n], x) + [sorted[n]]
  }

  function SortByLoad<T(!new)>(load: T -> nat, xs: seq<T>): (r: seq<T>)
    ensures |r| == |xs|
  {
    if xs == [] then [] else Insert(load, SortByLoad(load, xs[..|xs| - 1]), xs[|xs| - 1])
  }

  lemma {:induction false} InsertAddsOne<T(!new)>(load: T -> nat, sorted: seq<T>, x: T)
    ensures multiset(Insert(load, sorted, x)) == multiset(sorted) + multiset{x}
  {
    if sorted != [] {
      var n := |sorted| - 1;
      assert sorted == sorted[..n] + [sorted[n]];
      InsertAddsOne(load, sorted[..n], x);
    }
  }

  lemma {:induction false} SortIsPermutation<T(!new)>(load: T -> nat, xs: seq<T>)
    ensures multiset(SortByLoad(load, xs)) == multiset(xs)
  {
    if xs != [] {
      var n := |xs| - 1;
      assert xs == xs[..n] + [xs[n]];
      SortIsPermutation(load, xs[..n]);
      InsertAddsOne(load, SortByLoad(load, xs[..n]), xs[n]);
    }
  }

  ghost predicate Ascending<T(!new)>(load: T -> nat, xs: seq<T>) {
    forall i, j :: 0 <= i < j < |xs| ==> load(xs[i]) <= load(xs[j])
  }

  /** What x is inserted before stays an upper bound. */
  lemma {:induction false} InsertStaysBelow<T(!new)>(load: T -> nat, sorted: seq<T>, x: T, bound: nat)
    requires load(x) <= bound && forall i :: 0 <= i < |sorted| ==> load(sorted[i]) <= bound
    ensures forall i :: 0 <= i <= |sorted| ==> load(Insert(load, sorted, x)[i]) <= bound
  {
    if sorted != [] {
      InsertStaysBelow(load, sorted[..|sorted| - 1], x, bound);
    }
  }

  lemma {:induction false} InsertKeepsOrder<T(!new)>(load: T -> nat, sorted: seq<T>, x: T)
    requires Ascending(load, sorted)
    ensures Ascending(load, Insert(load, sorted, x))
  {
    if sorted != [] && load(sorted[|sorted| - 1]) > load(x) {
      var n := |sorted| - 1;
      InsertKeepsOrder(load, sorted[..n], x);
      InsertStaysBelow(load, sorted[..n], x, load(sorted[n]));
    }
  }

  lemma {:induction false} SortIsAscending<T(!new)>(load: T -> nat, xs: seq<T>)
    ensures Ascending(load, SortByLoad(load, xs))
  {
    if xs != [] {
      SortIsAscending(load, xs[..|xs| - 1]);
      InsertKeepsOrder(load, SortByLoad(load, xs[..|xs| - 1]), xs[|xs| - 1]);
    }
  }

  lemma SortKeepsMembers<T(!new)>(load: T -> nat, xs: seq<T>)
    ensures forall x :: x in SortByLoad(load, xs) <==> x in xs
  {
    SortIsPermutation(load, xs);
    forall x ensures x in SortByLoad(load, xs) <==> x in xs {
      assert x in multiset(SortByLoad(load, xs)) <==> x in multiset(xs);
    }
  }

  /** x stands before y somewhere in the list. */
  ghost predicate Precedes<T>(xs: seq<T>, x: T, y: T) {
    exists i, j :: 0 <= i < j < |xs| && xs[i] == x && xs[j] == y
  }

  lemma PrecedesLonger<T>(xs: seq<T>, more: seq<T>, x: T, y: T)
    ensures Precedes(xs, x, y) ==> Precedes(xs + more, x, y)
    ensures x in xs && y in more ==> Precedes(xs + more, x, y)
  {
    var all := xs + more;
    if Precedes(xs, x, y) {
      var i, j :| 0 <= i < j < |xs| && xs[i] == x && xs[j] == y;
      assert all[i] == x && all[j] == y;
    }
    if x in xs && y in more {
      var i :| 0 <= i < |xs| && xs[i] == x;
      var j :| 0 <= j < |more| && more[j] == y;
      assert all[i] == x && all[|xs| + j] == y;
    }
  }

  lemma {:induction false} InsertedIs<T(!new)>(load: T -> nat, sorted: seq<T>, x: T, i: nat)
    requires i <= |sorted|
    ensures Insert(load, sorted, x)[i] in sorted || Insert(load, sorted, x)[i] == x
  {
    if sorted != [] && load(sorted[|sorted| - 1]) > load(x) && i < |sorted| {
      InsertedIs(load, sorted[..|sorted| - 1], x, i);
    }
  }

  /** Among equal loads the inserted element comes last, and the others keep their order. */
  lemma {:induction false} InsertIsStable<T(!new)>(load: T -> nat, sorted: seq<T>, x: T, i: nat, j: nat)
    requires Ascending(load, sorted) && i < j <= |sorted|
    requires var r := Insert(load, sorted, x); load(r[i]) == load(r[j])
    ensures var r := Insert(load, sorted, x); Precedes(sorted + [x], r[i], r[j])
  {
    var n := |sorted| - 1;
    if load(sorted[n]) > load(x) {
      var before := Insert(load, sorted[..n], x);
      assert sorted[..n] + [sorted[n]] == sorted;
      hide Precedes;
      if j < |before| {
        InsertIsStable(load, sorted[..n], x, i, j);
        StepOver(sorted[..n], sorted[n], x, before[i], before[j]);
      } else {
        InsertedIs(load, sorted[..n], x, i);
        PrecedesLonger(sorted[..n], [sorted[n]], before[i], sorted[n]);
        PrecedesLonger(sorted, [x], before[i], sorted[n]);
      }
    } else {
      assert Insert(load, sorted, x) == sorted + [x];
    }
  }

  lemma StepOver<T>(xs: seq<T>, last: T, x: T, y: T, z: T)
    requires Precedes(xs + [x], y, z)
    ensures Precedes(xs + [last] + [x], y, z)
  {
    var i, j :| 0 <= i < j < |xs + [x]| && (xs + [x])[i] == y && (xs + [x])[j] == z;
    var all := xs + [last] + [x];
    assert all[i] == y;
    assert all[if j < |xs| then j else j + 1] == z;
  }

  lemma WhereTheyStand<T>(xs: seq<T>, x: T, y: T, z: T) returns (a: nat, b: nat)
    requires Precedes(xs + [x], y, z)
    ensures a < b <= |xs| && xs[a] == y && (if b < |xs| then xs[b] == z else x == z)
  {
    a, b :| 0 <= a < b < |xs + [x]| && (xs + [x])[a] == y && (xs + [x])[b] == z;
  }

  /** Elements of equal load stay in the order in which they came. */
  lemma {:induction false} SortIsStable<T(!new)>(load: T -> nat, xs: seq<T>, i: nat, j: nat)
    requires i < j < |xs| && load(SortByLoad(load, xs)[i]) == load(SortByLoad(load, xs)[j])
    ensures Precedes(xs, SortByLoad(load, xs)[i], SortByLoad(load, xs)[j])
  {
    var n := |xs| - 1;
    var before := SortByLoad(load, xs[..n]);
    var r := Insert(load, before, xs[n]);
    assert SortByLoad(load, xs) == r && xs[..n] + [xs[n]] == xs;
    hide Precedes, Insert, SortByLoad;
    SortIsAscending(load, xs[..n]);
    InsertIsStable(load, before, xs[n], i, j);
    var a, b := WhereTheyStand(before, xs[n], r[i], r[j]);
    if b < |before| {
      SortIsStable(load, xs[..n], a, b);
    } else {
      SortKeepsMembers(load, xs[..n]);
      assert before[a] in before;
    }
    PrecedesLonger(xs[..n], [xs[n]], r[i], r[j]);
  }

  /** Ids paired with their loads. */
  ghost predicate Tagged(load: nat -> nat, pairs: seq<(nat, nat)>, ids: seq<nat>) {
    |pairs| == |ids| && forall i :: 0 <= i < |ids| ==> pairs[i] == (ids[i], load(ids[i]))
  }

  function Second(): ((nat, nat)) -> nat {
    (pair: (nat, nat)) => pair.1
  }

  lemma {:induction false} InsertTagged(load: nat -> nat, pairs: seq<(nat, nat)>, ids: seq<nat>, id: nat)
    requires Tagged(load, pairs, ids)
    ensures Tagged(load, Insert(Second(), pairs, (id, load(id))), Insert(load, ids, id))
  {
    if ids != [] {
      InsertTagged(load, pairs[..|ids| - 1], ids[..|ids| - 1], id);
    }
  }

  /** Sorting the pairs by the stored load is sorting the ids by their load. */
  lemma {:induction false} SortTagged(load: nat -> nat, pairs: seq<(nat, nat)>, ids: seq<nat>)
    requires Tagged(load, pairs, ids)
    ensures Tagged(load, SortByLoad(Second(), pairs), SortByLoad(load, ids))
  {
    if ids != [] {
      var n := |ids| - 1;
      assert Tagged(load, pairs[..n], ids[..n]) && pairs[n] == (ids[n], load(ids[n]));
      hide Tagged, Insert;
      SortTagged(load, pairs[..n], ids[..n]);
      InsertTagged(load, SortByLoad(Second(), pairs[..n]), SortByLoad(load, ids[..n]), ids[n]);
    }
  }

  ghost predicate Distinct<T>(xs: seq<T>) {
    forall i, j :: 0 <= i < j < |xs| ==> xs[i] != xs[j]
  }

  lemma {:induction false} DistinctIsMultiset<T>(xs: seq<T>)
    ensures Distinct(xs) <==> forall x :: multiset(xs)[x] <= 1
  {
    if xs != [] {
      var n := |xs| - 1;
      DistinctIsMultiset(xs[..n]);
      assert xs == xs[..n] + [xs[n]];
      if Distinct(xs) {
        assert xs[n] !in xs[..n];
      } else if Distinct(xs[..n]) {
        var i, j :| 0 <= i < j < |xs| && xs[i] == xs[j];
        assert j == n && xs[i] in xs[..n];
        assert multiset(xs)[xs[n]] >= 2;
      } else {
        var x :| multiset(xs[..n])[x] > 1;
        assert multiset(xs)[x] > 1;
      }
    }
  }

  lemma SortKeepsDistinct<T(!new)>(load: T -> nat, xs: seq<T>)
    requires Distinct(xs)
    ensures Distinct(SortByLoad(load, xs))
  {
    SortIsPermutation(load, xs);
    DistinctIsMultiset(xs);
    DistinctIsMultiset(SortByLoad(load, xs));
  }

  lemma {:induction false} FilterKeepsDistinct<T(!new)>(p: T -> bool, xs: seq<T>)
    requires Distinct(xs)
    ensures Distinct(Filter(p, xs))
  {
    if xs != [] {
      FilterKeepsDistinct(p, xs[..|xs| - 1]);
    }
  }

  lemma FilterStep<T(!new)>(p: T -> bool, xs: seq<T>, i: nat)
    requires i < |xs|
    ensures Filter(p, xs[..i + 1]) == Filter(p, xs[..i]) + (if p(xs[i]) then [xs[i]] else [])
  {
    assert xs[..i + 1][..i] == xs[..i];
  }

  /** One more row of a filtering loop that stores each kept id with its load. */
  lemma TaggedStep(load: nat -> nat, keep: nat -> bool, pairs: seq<(nat, nat)>, xs: seq<nat>, i: nat)
    requires i < |xs| && Tagged(load, pairs, Filter(keep, xs[..i]))
    ensures Tagged(load, if keep(xs[i]) then pairs + [(xs[i], load(xs[i]))] else pairs, Filter(keep, xs[..i + 1]))
  {
    FilterStep(keep, xs, i);
  }

  lemma {:induction false} FilterTwice<T(!new)>(p: T -> bool, q: T -> bool, both: T -> bool, xs: seq<T>)
    requires forall x :: both(x) <==> p(x) && q(x)
    ensures Filter(p, Filter(q, xs)) == Filter(both, xs)
  {
    if xs != [] {
      var n := |xs| - 1;
      FilterTwice(p, q, both, xs[..n]);
      var kept := Filter(q, xs[..n]);
      if q(xs[n]) {
        assert (kept + [xs[n]])[..|kept|] == kept;
      }
    }
  }

  lemma {:induction false} FilterSame<T(!new)>(p: T -> bool, q: T -> bool, xs: seq<T>)
    requires forall x :: x in xs ==> (p(x) <==> q(x))
    ensures Filter(p, xs) == Filter(q, xs)
  {
    if xs != [] {
      FilterSame(p, q, xs[..|xs| - 1]);
    }
  }

  lemma FilterSnoc<T(!new)>(p: T -> bool, xs: seq<T>, x: T)
    ensures Filter(p, xs + [x]) == Filter(p, xs) + (if p(x) then [x] else [])
  {
    assert (xs + [x])[..|xs|] == xs;
  }

  lemma {:induction false} FilterAppend<T(!new)>(p: T -> bool, xs: seq<T>, ys: seq<T>)
    ensures Filter(p, xs + ys) == Filter(p, xs) + Filter(p, ys)
  {
    hide Filter;
    if ys == [] {
      assert xs + ys == xs;
      FilterKeepsNone(p, ys);
    } else {
      var n := |ys| - 1;
      FilterAppend(p, xs, ys[..n]);
      FilterSnoc(p, ys[..n], ys[n]);
      FilterSnoc(p, xs + ys[..n], ys[n]);
      assert ys[..n] + [ys[n]] == ys;
      assert xs + ys[..n] + [ys[n]] == xs + ys;
    }
  }

  lemma {:induction false} FilterKeepsNone<T(!new)>(p: T -> bool, xs: seq<T>)
    requires forall x :: x in xs ==> !p(x)
    ensures Filter(p, xs) == []
  {
    if xs != [] {
      FilterKeepsNone(p, xs[..|xs| - 1]);
      assert xs[|xs| - 1] in xs;
    }
  }

  lemma {:induction false} FilterKeepsAll<T(!new)>(p: T -> bool, xs: seq<T>)
    requires forall x :: x in xs ==> p(x)
    ensures Filter(p, xs) == xs
  {
    if xs != [] {
      FilterKeepsAll(p, xs[..|xs| - 1]);
      assert xs[|xs| - 1] in xs;
    }
  }

  lemma {:induction false} FilterPrecedes<T(!new)>(p: T -> bool, xs: seq<T>, x: T, y: T)
    requires Precedes(Filter(p, xs), x, y)
    ensures Precedes(xs, x, y)
  {
    var n := |xs| - 1;
    var kept := Filter(p, xs[..n]);
    assert xs[..n] + [xs[n]] == xs;
    if p(xs[n]) {
      var a, b := WhereTheyStand(kept, xs[n], x, y);
      if b < |kept| {
        assert Precedes(kept, x, y);
        FilterPrecedes(p, xs[..n], x, y);
      } else {
        assert kept[a] in kept;
      }
    } else {
      FilterPrecedes(p, xs[..n], x, y);
    }
    PrecedesLonger(xs[..n], [xs[n]], x, y);
  }

  /** The rows stored under a key; no entry means no rows. */
  function Rows<T>(groups: map<nat, seq<T>>, key: nat): seq<T> {
    if key in groups then groups[key] else []
  }

  function KeyIs<T>(key: T -> nat, k: nat): T -> bool {
    (x: T) => key(x) == k
  }

  /** Fills a map with one list of rows per key, in row order. */
  method GroupBy<T(!new)>(rows: seq<T>, key: T -> nat) returns (groups: map<nat, seq<T>>)
    ensures forall k :: Rows(groups, k) == Filter(KeyIs(key, k), rows)
  {
    groups := map[];
    for i := 0 to |rows|
      invariant forall k :: Rows(groups, k) == Filter(KeyIs(key, k), rows[..i])
    {
      var row := rows[i];
      var before := groups;
      assert rows[..i + 1][..i] == rows[..i];
      if key(row) in groups {
        groups := groups[key(row) := groups[key(row)] + [row]];
      } else {
        groups := groups[key(row) := [row]];
      }
      forall k ensures Rows(groups, k) == Filter(KeyIs(key, k), rows[..i + 1]) {
        assert Rows(before, k) == Filter(KeyIs(key, k), rows[..i]);
      }
    }
    assert rows[..|rows|] == rows;
  }
}
