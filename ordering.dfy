/**
 * The two ordering passes that close the build: `sorting_db_entries` puts the
 * entries of each dated database in date order, and `sorting_page_by_year`
 * lists the dated pages newest first, grouped by calendar year.
 */
module Ordering {
  import opened Optional
  import opened RawNotion
  import opened Externals
  import opened SiteModel
  import opened PySorted
  import opened PyDict

  // ---------------------------------------------------------------------------
  // Database entries in date order

  /** The date string of every record; neither ordering pass changes it. */
  function DatesOf(pages: map<Id, Page>): (r: map<Id, Option<string>>)
    ensures r.Keys == pages.Keys
  {
    map x | x in pages :: pages[x].date
  }

  /** A child's date, compared as Python compares strings; an undated id has the smallest key. */
  function DateKey(dates: map<Id, Option<string>>): Id -> seq<int> {
    c => if c in dates && dates[c].Some? then Codes(dates[c].value) else []
  }

  /** A database with more than one entry whose first entry has a date: its entries get sorted. */
  predicate Reordered(pages: map<Id, Page>, id: Id)
    requires id in pages
  {
    && pages[id].kind == DatabaseKind
    && |pages[id].children| > 1
    && pages[id].children[0] in pages
    && pages[pages[id].children[0]].date.Some?
  }

  /**
   * What `sorting_db_entries` demands: the first entry of every database with
   * several entries is a record, and when that entry has a date, every entry
   * is a record with a date (a missing one is a `KeyError`).
   */
  ghost predicate SortReady(pages: map<Id, Page>) {
    forall id :: id in pages && pages[id].kind == DatabaseKind && |pages[id].children| > 1 ==>
      && pages[id].children[0] in pages
      && (pages[pages[id].children[0]].date.Some? ==>
            forall k :: 0 <= k < |pages[id].children| ==>
              pages[id].children[k] in pages && pages[pages[id].children[k]].date.Some?)
  }

  /** A record after `sorting_db_entries`. */
  function SortedRecord(pages: map<Id, Page>, id: Id): Page
    requires id in pages
  {
    if Reordered(pages, id)
    then pages[id].(children := SortByKey(pages[id].children, DateKey(DatesOf(pages))))
    else pages[id]
  }

  /** The table after `sorting_db_entries`. */
  function DbEntriesSorted(pages: map<Id, Page>): (r: map<Id, Page>)
    ensures r.Keys == pages.Keys
  {
    map x | x in pages :: SortedRecord(pages, x)
  }

  /**
   * Only a database whose first entry is dated changes, and only in the order
   * of its entries: they become a permutation of the old ones, every one dated,
   * in non-decreasing date order, entries with equal dates in their old order.
   */
  lemma SortedRecordShape(pages: map<Id, Page>, id: Id)
    requires id in pages && SortReady(pages)
    ensures var r := SortedRecord(pages, id);
      && r.(children := pages[id].children) == pages[id]
      && multiset(r.children) == multiset(pages[id].children)
      && (!Reordered(pages, id) ==> r == pages[id])
      && (Reordered(pages, id) ==>
            && (forall c :: c in r.children ==> c in pages && pages[c].date.Some?)
            && SortedBy(r.children, DateKey(DatesOf(pages)))
            && forall k :: WithKey(r.children, DateKey(DatesOf(pages)), k) == WithKey(pages[id].children, DateKey(DatesOf(pages)), k))
  {
    if Reordered(pages, id) {
      var s := pages[id].children;
      var key := DateKey(DatesOf(pages));
      var r := SortByKey(s, key);
      SortByKeySorted(s, key);
      forall k | true ensures WithKey(r, key, k) == WithKey(s, key, k) {
        SortByKeyStable(s, key, k);
      }
      forall c | c in r ensures c in pages && pages[c].date.Some? {
        assert c in multiset(r);
        var k :| 0 <= k < |s| && s[k] == c;
      }
    }
  }

  /** The pass changes no date and no set of entries. */
  lemma SortedDates(pages: map<Id, Page>)
    ensures DatesOf(DbEntriesSorted(pages)) == DatesOf(pages)
  {
  }

  /** Sorting the entries a second time changes nothing. */
  lemma SortingIdempotent(pages: map<Id, Page>)
    requires SortReady(pages)
    ensures DbEntriesSorted(DbEntriesSorted(pages)) == DbEntriesSorted(pages)
  {
    var q := DbEntriesSorted(pages);
    SortedDates(pages);
    forall id | id in pages ensures SortedRecord(q, id) == q[id] {
      SortedRecordShape(pages, id);
      if Reordered(pages, id) {
        var s := q[id].children;
        assert s[0] in s;
        assert Reordered(q, id);
        SortByKeyOfSorted(s, DateKey(DatesOf(q)));
      } else {
        assert !Reordered(q, id);
      }
    }
  }

  /** One record of the loop of `sorting_db_entries`, the dates read from the table as it stands. */
  method SortEntries(site: Site, id: Id, ghost start: map<Id, Page>)
    requires SortReady(start) && id in start && id in site.pages && site.pages[id] == start[id]
    requires DatesOf(site.pages) == DatesOf(start)
    modifies site`pages
    ensures site.pages == old(site.pages)[id := SortedRecord(start, id)]
  {
    var page := site.pages[id];
    if page.kind == DatabaseKind && |page.children| > 1 {
      var first := page.children[0];
      assert first in DatesOf(start);
      if site.pages[first].date.Some? {
        assert DatesOf(site.pages)[first] == DatesOf(start)[first];
        var key := DateKey(DatesOf(site.pages));
        site.pages := site.pages[id := page.(children := SortByKey(page.children, key))];
      } else {
        assert DatesOf(site.pages)[first] == DatesOf(start)[first];
      }
    }
  }

  /** `sorting_db_entries`: every record visited in table order. */
  method SortingDbEntries(site: Site)
    requires Keyed(site.order, site.pages) && SortReady(site.pages)
    modifies site`pages
    ensures site.pages == DbEntriesSorted(old(site.pages))
  {
    ghost var start := site.pages;
    ghost var target := DbEntriesSorted(start);
    OverlayEnds(site.order, start, target);
    var i := 0;
    while i < |site.order|
      invariant 0 <= i <= |site.order|
      invariant site.pages == Overlay(start, target, site.order[..i])
    {
      SortNext(site, start, target, i);
      i := i + 1;
    }
    OverlayEnds(site.order, start, target);
  }

  /** The loop body of `sorting_db_entries`: the next record in table order gets its sorted children. */
  method SortNext(site: Site, ghost start: map<Id, Page>, ghost target: map<Id, Page>, i: nat)
    requires Keyed(site.order, start) && SortReady(start) && target == DbEntriesSorted(start)
    requires i < |site.order|
    requires site.pages == Overlay(start, target, site.order[..i])
    modifies site`pages
    ensures site.pages == Overlay(start, target, site.order[..i + 1])
  {
    var id := site.order[i];
    OverlayStep(site.order, start, target, i);
    SortedDates(start);
    OverlayDates(start, target, site.order[..i]);
    SortEntries(site, id, start);
  }

  /** Part way through the pass the dates are still those of the start. */
  lemma OverlayDates(start: map<Id, Page>, target: map<Id, Page>, ids: seq<Id>)
    requires target.Keys == start.Keys && DatesOf(target) == DatesOf(start)
    ensures DatesOf(Overlay(start, target, ids)) == DatesOf(start)
  {
    forall x | x in start ensures Overlay(start, target, ids)[x].date == start[x].date {
      assert DatesOf(target)[x] == DatesOf(start)[x];
    }
  }

  // ---------------------------------------------------------------------------
  // Dated pages grouped by year

  /** A record with a date. */
  predicate Dated(pages: map<Id, Page>, id: Id) {
    id in pages && pages[id].date.Some?
  }

  /** The position of a dated page on the time line. */
  function Stamp(env: Env, pages: map<Id, Page>, id: Id): int {
    if Dated(pages, id) then env.parseInstant(pages[id].date.value).stamp else 0
  }

  /** The calendar year of a dated page's date, as written in its own offset. */
  function YearOf(env: Env, pages: map<Id, Page>, id: Id): int {
    if Dated(pages, id) then env.parseInstant(pages[id].date.value).year else 0
  }

  /** The dated pages in table order: the keys of `sorted_pages` as first built. */
  function DatedIds(order: seq<Id>, pages: map<Id, Page>): (r: seq<Id>)
    ensures forall x :: x in r <==> x in order && Dated(pages, x)
  {
    if order == [] then []
    else DatedIds(order[..|order| - 1], pages) + (if Dated(pages, order[|order| - 1]) then [order[|order| - 1]] else [])
  }

  /** `key=lambda item: item[1]` with `reverse=True`: later instants first, equal ones in table order. */
  function NewestFirst(env: Env, pages: map<Id, Page>): Id -> seq<int> {
    c => [-Stamp(env, pages, c)]
  }

  /** The keys of `sorted_pages` once sorted. */
  function ByDate(order: seq<Id>, pages: map<Id, Page>, env: Env): seq<Id> {
    SortByKey(DatedIds(order, pages), NewestFirst(env, pages))
  }

  /** The year `groupby` groups by. */
  function YearKey(env: Env, pages: map<Id, Page>): Id -> int {
    c => YearOf(env, pages, c)
  }

  /** `itertools.groupby(xs, key=year)`: the maximal runs of neighbours sharing a year. */
  function Runs(xs: seq<Id>, year: Id -> int): seq<(int, seq<Id>)> {
    if xs == [] then []
    else RunsAdd(Runs(xs[..|xs| - 1], year), year(xs[|xs| - 1]), xs[|xs| - 1])
  }

  /** The next element of `groupby`'s input: it joins the last run when it has that run's year. */
  function RunsAdd(runs: seq<(int, seq<Id>)>, y: int, x: Id): seq<(int, seq<Id>)> {
    if runs != [] && runs[|runs| - 1].0 == y then runs[..|runs| - 1] + [(y, runs[|runs| - 1].1 + [x])]
    else runs + [(y, [x])]
  }

  /** The loop over the runs: each run sets `sorted_id_by_year[year]` to a fresh list of its pages. */
  function DictOfRuns(runs: seq<(int, seq<Id>)>): Dict<int, seq<Id>> {
    if runs == [] then []
    else Put(DictOfRuns(runs[..|runs| - 1]), runs[|runs| - 1].0, runs[|runs| - 1].1)
  }

  /** `sorted_id_by_year` as `sorting_page_by_year` leaves it. */
  function ByYear(order: seq<Id>, pages: map<Id, Page>, env: Env): Dict<int, seq<Id>> {
    DictOfRuns(Runs(ByDate(order, pages, env), YearKey(env, pages)))
  }

  /** The pages of all groups, group after group. */
  function Flatten(groups: seq<(int, seq<Id>)>): seq<Id> {
    if groups == [] then [] else groups[0].1 + Flatten(groups[1..])
  }

  /** Every page of every group has the group's year. */
  ghost predicate Bucketed(groups: seq<(int, seq<Id>)>, year: Id -> int) {
    forall k, m :: 0 <= k < |groups| && 0 <= m < |groups[k].1| ==> year(groups[k].1[m]) == groups[k].0
  }

  lemma {:induction false} FlattenSnoc(groups: seq<(int, seq<Id>)>, g: (int, seq<Id>))
    ensures Flatten(groups + [g]) == Flatten(groups) + g.1
    decreases |groups|
  {
    if groups == [] {
      assert [g][1..] == [];
    } else {
      assert (groups + [g])[1..] == groups[1..] + [g];
      FlattenSnoc(groups[1..], g);
    }
  }

  /** Each dated page once: the dated ids of a table without repeats have none either. */
  lemma {:induction false} DatedIdsDistinct(order: seq<Id>, pages: map<Id, Page>)
    requires Distinct(order)
    ensures Distinct(DatedIds(order, pages))
    decreases |order|
  {
    if order != [] {
      var init := order[..|order| - 1];
      assert Distinct(init) by {
        forall i, j | 0 <= i < j < |init| ensures init[i] != init[j] {
          assert init[i] == order[i] && init[j] == order[j];
        }
      }
      DatedIdsDistinct(init, pages);
      assert order[|order| - 1] !in init;
    }
  }

  /**
   * The sorted list holds exactly the dated pages, later instants first, pages
   * with the same instant in table order.
   */
  lemma NewestFirstShape(order: seq<Id>, pages: map<Id, Page>, env: Env)
    ensures var s := ByDate(order, pages, env);
      && multiset(s) == multiset(DatedIds(order, pages))
      && (forall x :: x in s <==> x in order && Dated(pages, x))
      && (forall i, j :: 0 <= i < j < |s| ==> Stamp(env, pages, s[i]) >= Stamp(env, pages, s[j]))
      && forall k :: WithKey(s, NewestFirst(env, pages), k) == WithKey(DatedIds(order, pages), NewestFirst(env, pages), k)
  {
    var d := DatedIds(order, pages);
    var key := NewestFirst(env, pages);
    var s := SortByKey(d, key);
    SortByKeySorted(d, key);
    forall i, j | 0 <= i < j < |s| ensures Stamp(env, pages, s[i]) >= Stamp(env, pages, s[j]) {
      assert LexLe(key(s[i]), key(s[j]));
    }
    forall x ensures x in s <==> x in d {
      assert x in s <==> x in multiset(s);
    }
    forall k | true ensures WithKey(s, key, k) == WithKey(d, key, k) {
      SortByKeyStable(d, key, k);
    }
  }

  /** Runs are non-empty, neighbouring runs differ in year. */
  ghost predicate Maximal(runs: seq<(int, seq<Id>)>) {
    && (forall k :: 0 <= k < |runs| ==> runs[k].1 != [])
    && (forall k :: 0 < k < |runs| ==> runs[k - 1].0 != runs[k].0)
  }

  /** One more element keeps the runs maximal and bucketed, and extends their concatenation by it. */
  lemma RunsAddShape(runs: seq<(int, seq<Id>)>, year: Id -> int, x: Id)
    requires Maximal(runs) && Bucketed(runs, year)
    ensures var r := RunsAdd(runs, year(x), x);
      && Flatten(r) == Flatten(runs) + [x]
      && Maximal(r) && Bucketed(r, year)
      && r != [] && r[|r| - 1].0 == year(x)
  {
    var r := RunsAdd(runs, year(x), x);
    if runs != [] && runs[|runs| - 1].0 == year(x) {
      var front := runs[..|runs| - 1];
      var last := runs[|runs| - 1];
      assert runs == front + [last];
      FlattenSnoc(front, last);
      FlattenSnoc(front, (year(x), last.1 + [x]));
      assert forall k :: 0 <= k < |front| ==> r[k] == runs[k];
    } else {
      FlattenSnoc(runs, (year(x), [x]));
      assert forall k :: 0 <= k < |runs| ==> r[k] == runs[k];
    }
  }

  /**
   * `groupby` splits a list into non-empty runs that concatenate back to the
   * list, each run of a single year, neighbouring runs of different years.
   */
  lemma {:induction false} RunsShape(xs: seq<Id>, year: Id -> int)
    ensures var r := Runs(xs, year);
      && Flatten(r) == xs
      && Bucketed(r, year)
      && Maximal(r)
      && (xs != [] ==> r != [] && r[|r| - 1].0 == year(xs[|xs| - 1]))
    decreases |xs|
  {
    if xs != [] {
      var init := xs[..|xs| - 1];
      RunsShape(init, year);
      RunsAddShape(Runs(init, year), year, xs[|xs| - 1]);
      assert init + [xs[|xs| - 1]] == xs;
    }
  }

  /** The years of the runs strictly decrease. */
  ghost predicate Descending(runs: seq<(int, seq<Id>)>) {
    forall i, j :: 0 <= i < j < |runs| ==> runs[i].0 > runs[j].0
  }

  /** An element whose year is at most the last run's keeps the run years decreasing. */
  lemma RunsAddDescending(runs: seq<(int, seq<Id>)>, y: int, x: Id)
    requires Descending(runs) && (runs != [] ==> runs[|runs| - 1].0 >= y)
    ensures Descending(RunsAdd(runs, y, x))
  {
    var r := RunsAdd(runs, y, x);
    if runs != [] && runs[|runs| - 1].0 == y {
      assert forall k :: 0 <= k < |r| ==> r[k].0 == runs[k].0;
    } else {
      assert forall k :: 0 <= k < |runs| ==> r[k] == runs[k];
    }
  }

  /** Over a list whose years never increase, the runs have strictly decreasing years. */
  lemma {:induction false} RunsDescending(xs: seq<Id>, year: Id -> int)
    requires forall i, j :: 0 <= i < j < |xs| ==> year(xs[i]) >= year(xs[j])
    ensures Descending(Runs(xs, year))
    decreases |xs|
  {
    if xs != [] {
      var init := xs[..|xs| - 1];
      RunsDescending(init, year);
      RunsShape(init, year);
      if init != [] {
        assert year(init[|init| - 1]) >= year(xs[|xs| - 1]);
      }
      RunsAddDescending(Runs(init, year), year(xs[|xs| - 1]), xs[|xs| - 1]);
    }
  }

  /** Runs of distinct years fill the dict one new key after another. */
  lemma {:induction false} DictOfDistinctRuns(runs: seq<(int, seq<Id>)>)
    requires forall i, j :: 0 <= i < j < |runs| ==> runs[i].0 != runs[j].0
    ensures DictOfRuns(runs) == runs
    decreases |runs|
  {
    if runs != [] {
      var init := runs[..|runs| - 1];
      var last := runs[|runs| - 1];
      DictOfDistinctRuns(init);
      assert forall i :: 0 <= i < |init| ==> init[i].0 != last.0 by {
        forall i | 0 <= i < |init| ensures init[i].0 != last.0 {
          assert init[i] == runs[i];
        }
      }
      PutShape(init, last.0, last.1);
      assert init + [last] == runs;
    }
  }

  /** The years of dated pages never run against the time line. */
  ghost predicate MonotoneYears(pages: map<Id, Page>, env: Env) {
    forall a, b :: Dated(pages, a) && Dated(pages, b) && Stamp(env, pages, a) >= Stamp(env, pages, b) ==>
      YearOf(env, pages, a) >= YearOf(env, pages, b)
  }

  /**
   * When a later instant never has an earlier year, `sorted_id_by_year` lists
   * every dated page exactly once, newest first: one group per year, the years
   * strictly decreasing, each group holding the pages of its year.
   */
  lemma ByYearGroups(order: seq<Id>, pages: map<Id, Page>, env: Env)
    requires MonotoneYears(pages, env)
    ensures var g := ByYearMerged(order, pages, env);
      && Flatten(g) == ByDate(order, pages, env)
      && Descending(g)
      && Maximal(g)
      && Bucketed(g, YearKey(env, pages))
  {
    var s := ByDate(order, pages, env);
    var year := YearKey(env, pages);
    NewestFirstShape(order, pages, env);
    forall i, j | 0 <= i < j < |s| ensures year(s[i]) >= year(s[j]) {
      assert s[i] in s && s[j] in s;
    }
    RunsShape(s, year);
    RunsDescending(s, year);
    DictOfDistinctRuns(Runs(s, year));
    ByYearAgree(order, pages, env);
  }

  /**
   * `sorting_page_by_year`, the date parser being `env.parseInstant`, with
   * each run of a year added to that year's group rather than replacing it
   * (see `ByYearLosesPage` for the grouping as written).
   */
  method SortingPageByYear(site: Site, env: Env)
    modifies site`sortedIdByYear
    ensures site.sortedIdByYear == ByYearMerged(site.order, site.pages, env)
  {
    var sorted := ByDate(site.order, site.pages, env);
    var runs := Runs(sorted, YearKey(env, site.pages));
    var byYear: Dict<int, seq<Id>> := [];
    for r := 0 to |runs|
      invariant byYear == MergeRuns(runs[..r])
    {
      assert runs[..r + 1][..r] == runs[..r];
      byYear := ExtendGroup(byYear, runs[r].0, runs[r].1);
    }
    assert runs[..|runs|] == runs;
    site.sortedIdByYear := byYear;
  }

  /** The pages of one run appended, one by one, to the group of their year. */
  method ExtendGroup(d: Dict<int, seq<Id>>, year: int, ids: seq<Id>) returns (r: Dict<int, seq<Id>>)
    ensures r == Put(d, year, Bucket(d, year) + ids)
  {
    var bucket := Bucket(d, year);
    r := Put(d, year, bucket);
    assert bucket + ids[..0] == bucket;
    for j := 0 to |ids|
      invariant r == Put(d, year, bucket + ids[..j])
    {
      PutShape(d, year, bucket + ids[..j]);
      PutTwice(d, year, bucket + ids[..j], bucket + ids[..j + 1]);
      assert bucket + ids[..j + 1] == bucket + ids[..j] + [ids[j]];
      r := Put(r, year, Get(r, year).value + [ids[j]]);
    }
    assert ids[..|ids|] == ids;
  }

  // ---------------------------------------------------------------------------
  // A year that comes back loses its earlier pages

  /** `sorted_id_by_year.setdefault(year, []).extend(pages)`: a run adds to its year's group. */
  function MergeRuns(runs: seq<(int, seq<Id>)>): Dict<int, seq<Id>> {
    if runs == [] then []
    else
      var d := MergeRuns(runs[..|runs| - 1]);
      var last := runs[|runs| - 1];
      Put(d, last.0, Bucket(d, last.0) + last.1)
  }

  /** The group of a year, empty when the year has none. */
  function Bucket(d: Dict<int, seq<Id>>, year: int): seq<Id> {
    if Get(d, year).Some? then Get(d, year).value else []
  }

  /** The grouping with every run of a year kept. */
  function ByYearMerged(order: seq<Id>, pages: map<Id, Page>, env: Env): Dict<int, seq<Id>> {
    MergeRuns(Runs(ByDate(order, pages, env), YearKey(env, pages)))
  }

  /** Assigning a group swaps the key's old pages for the new ones. */
  lemma {:induction false} PutFlatten(d: Dict<int, seq<Id>>, k: int, v: seq<Id>)
    ensures multiset(Flatten(Put(d, k, v))) + multiset(Bucket(d, k)) == multiset(Flatten(d)) + multiset(v)
    decreases |d|
  {
    var r := Put(d, k, v);
    if d == [] {
      assert r[1..] == [];
    } else if d[0].0 == k {
      assert r[0] == (k, v) && r[1..] == d[1..];
    } else {
      var t := Put(d[1..], k, v);
      PutFlatten(d[1..], k, v);
      assert r[0] == d[0] && r[1..] == t;
      assert Bucket(d, k) == Bucket(d[1..], k);
      assert multiset(Flatten(r)) == multiset(d[0].1) + multiset(Flatten(t));
      assert multiset(Flatten(d)) == multiset(d[0].1) + multiset(Flatten(d[1..]));
      MultisetShift(multiset(d[0].1), multiset(Flatten(t)), multiset(Bucket(d, k)), multiset(Flatten(d[1..])), multiset(v));
    }
  }

  /** A group assigned pages of its own year keeps the dict bucketed. */
  lemma PutBucketed(d: Dict<int, seq<Id>>, k: int, v: seq<Id>, year: Id -> int)
    requires Bucketed(d, year) && forall m :: 0 <= m < |v| ==> year(v[m]) == k
    ensures Bucketed(Put(d, k, v), year)
  {
    var r := Put(d, k, v);
    PutEntries(d, k, v);
    forall i, m | 0 <= i < |r| && 0 <= m < |r[i].1| ensures year(r[i].1[m]) == r[i].0 {
      if r[i] != (k, v) {
        var j :| 0 <= j < |d| && d[j] == r[i];
      }
    }
  }

  /** The pages of a year's group all have that year. */
  lemma BucketYear(d: Dict<int, seq<Id>>, k: int, year: Id -> int)
    requires Bucketed(d, year)
    ensures forall m :: 0 <= m < |Bucket(d, k)| ==> year(Bucket(d, k)[m]) == k
  {
    GetShape(d, k);
    if Get(d, k).Some? {
      var i :| 0 <= i < |d| && d[i] == (k, Get(d, k).value);
    }
  }

  /** One merged run: its pages join its year's group, and nothing else changes. */
  lemma MergeStep(d: Dict<int, seq<Id>>, run: (int, seq<Id>), year: Id -> int)
    requires DistinctKeys(d) && Bucketed(d, year)
    requires forall m :: 0 <= m < |run.1| ==> year(run.1[m]) == run.0
    ensures var r := Put(d, run.0, Bucket(d, run.0) + run.1);
      && DistinctKeys(r)
      && multiset(Flatten(r)) == multiset(Flatten(d)) + multiset(run.1)
      && Bucketed(r, year)
  {
    var b := Bucket(d, run.0);
    BucketYear(d, run.0, year);
    PutShape(d, run.0, b + run.1);
    PutFlatten(d, run.0, b + run.1);
    PutBucketed(d, run.0, b + run.1, year);
    var r := Put(d, run.0, b + run.1);
    assert multiset(Flatten(r)) + multiset(b) == (multiset(Flatten(d)) + multiset(run.1)) + multiset(b);
    MultisetCancel(multiset(Flatten(r)), multiset(Flatten(d)) + multiset(run.1), multiset(b));
  }

  lemma MultisetShift(p: multiset<Id>, a: multiset<Id>, b: multiset<Id>, c: multiset<Id>, e: multiset<Id>)
    requires a + b == c + e
    ensures (p + a) + b == (p + c) + e
  {
    forall x ensures ((p + a) + b)[x] == ((p + c) + e)[x] {
      assert (a + b)[x] == (c + e)[x];
    }
  }

  lemma MultisetCancel(a: multiset<Id>, b: multiset<Id>, c: multiset<Id>)
    requires a + c == b + c
    ensures a == b
  {
    forall x ensures a[x] == b[x] {
      assert (a + c)[x] == (b + c)[x];
    }
  }

  /**
   * Merging keeps every page of every run, once, in the group of the run's
   * year, and holds each year once.
   */
  lemma {:induction false} MergeRunsShape(runs: seq<(int, seq<Id>)>, year: Id -> int)
    requires Bucketed(runs, year)
    ensures var d := MergeRuns(runs);
      && DistinctKeys(d)
      && multiset(Flatten(d)) == multiset(Flatten(runs))
      && Bucketed(d, year)
    decreases |runs|
  {
    if runs != [] {
      var init := runs[..|runs| - 1];
      var last := runs[|runs| - 1];
      assert runs == init + [last];
      FlattenSnoc(init, last);
      assert Bucketed(init, year) by {
        forall k, m | 0 <= k < |init| && 0 <= m < |init[k].1| ensures year(init[k].1[m]) == init[k].0 {
          assert init[k] == runs[k];
        }
      }
      MergeRunsShape(init, year);
      MergeStep(MergeRuns(init), last, year);
    }
  }

  /** Merging runs of distinct years is the same as assigning them. */
  lemma {:induction false} MergeDistinctRuns(runs: seq<(int, seq<Id>)>)
    requires forall i, j :: 0 <= i < j < |runs| ==> runs[i].0 != runs[j].0
    ensures MergeRuns(runs) == DictOfRuns(runs)
    decreases |runs|
  {
    if runs != [] {
      var init := runs[..|runs| - 1];
      var last := runs[|runs| - 1];
      MergeDistinctRuns(init);
      DictOfDistinctRuns(init);
      assert forall i :: 0 <= i < |init| ==> init[i].0 != last.0 by {
        forall i | 0 <= i < |init| ensures init[i].0 != last.0 {
          assert init[i] == runs[i];
        }
      }
      GetShape(init, last.0);
      assert Bucket(init, last.0) + last.1 == last.1;
      assert MergeRuns(runs) == Put(init, last.0, last.1);
    }
  }

  /**
   * The merged grouping holds every dated page exactly once, in the group of
   * its year, each year once, whatever the offsets of the dates.
   */
  lemma ByYearMergedComplete(order: seq<Id>, pages: map<Id, Page>, env: Env)
    ensures var g := ByYearMerged(order, pages, env);
      && DistinctKeys(g)
      && multiset(Flatten(g)) == multiset(DatedIds(order, pages))
      && Bucketed(g, YearKey(env, pages))
  {
    var s := ByDate(order, pages, env);
    NewestFirstShape(order, pages, env);
    RunsShape(s, YearKey(env, pages));
    MergeRunsShape(Runs(s, YearKey(env, pages)), YearKey(env, pages));
  }

  /** Where years follow the time line the merged grouping is what the pass computes. */
  lemma ByYearAgree(order: seq<Id>, pages: map<Id, Page>, env: Env)
    requires MonotoneYears(pages, env)
    ensures ByYearMerged(order, pages, env) == ByYear(order, pages, env)
  {
    var s := ByDate(order, pages, env);
    var year := YearKey(env, pages);
    NewestFirstShape(order, pages, env);
    forall i, j | 0 <= i < j < |s| ensures year(s[i]) >= year(s[j]) {
      assert s[i] in s && s[j] in s;
    }
    RunsDescending(s, year);
    MergeDistinctRuns(Runs(s, year));
  }

  /** A record that only has a date. */
  function DatedPage(date: string): Page {
    Page(PageKind, [], None, "", Some(date), None, None, [], None, None, None, false, [], None, "", None, None)
  }

  /** Three dated pages keep their table order among the dated ids. */
  lemma DatedThree(a: Id, b: Id, c: Id, pages: map<Id, Page>)
    requires Dated(pages, a) && Dated(pages, b) && Dated(pages, c)
    ensures DatedIds([a, b, c], pages) == [a, b, c]
  {
    assert [a, b, c][..2] == [a, b] && [a, b][..1] == [a] && [a][..0] == [];
    assert DatedIds([a], pages) == [a];
    assert DatedIds([a, b], pages) == [a, b];
  }

  /** Two ids with decreasing keys come out of the sort swapped. */
  lemma SortTwo(a: Id, b: Id, key: Id -> seq<int>)
    requires !LexLe(key(a), key(b))
    ensures SortByKey([a, b], key) == [b, a]
  {
    assert [a, b][..1] == [a] && [a][..0] == [];
    assert SortByKey([a], key) == [a];
  }

  /** An id with a smaller key than both goes in front. */
  lemma InsertFront(b: Id, a: Id, c: Id, key: Id -> seq<int>)
    requires !LexLe(key(a), key(c)) && !LexLe(key(b), key(c))
    ensures Insert([b, a], c, key) == [c, b, a]
  {
    assert [b, a][..1] == [b] && [b][..0] == [];
    assert Insert([b], c, key) == [c, b];
  }

  /** Three ids with strictly decreasing keys come out of the sort reversed. */
  lemma SortThree(a: Id, b: Id, c: Id, key: Id -> seq<int>)
    requires !LexLe(key(a), key(b)) && !LexLe(key(b), key(c)) && !LexLe(key(a), key(c))
    ensures SortByKey([a, b, c], key) == [c, b, a]
  {
    assert [a, b, c][..2] == [a, b];
    SortTwo(a, b, key);
    InsertFront(b, a, c, key);
  }

  /** A year that comes back after another: its second run replaces its first. */
  lemma RegroupThree(c: Id, b: Id, a: Id, year: Id -> int)
    requires year(c) == year(a) && year(b) != year(a)
    ensures DictOfRuns(Runs([c, b, a], year)) == [(year(a), [a]), (year(b), [b])]
  {
    assert [c, b, a][..2] == [c, b] && [c, b][..1] == [c] && [c][..0] == [];
    assert Runs([c], year) == [(year(c), [c])];
    assert Runs([c, b], year) == [(year(c), [c]), (year(b), [b])];
    var runs := [(year(c), [c]), (year(b), [b]), (year(a), [a])];
    assert Runs([c, b, a], year) == runs;
    assert runs[..2] == [(year(c), [c]), (year(b), [b])] && runs[..2][..1] == [(year(c), [c])];
    assert DictOfRuns(runs[..1]) == [(year(c), [c])];
    var one := [(year(c), [c])];
    var two := [(year(c), [c]), (year(b), [b])];
    assert one[1..] == [] && two[1..] == [(year(b), [b])];
    assert Put(one, year(b), [b]) == two;
    assert DictOfRuns(runs[..2]) == two;
    assert Put(two, year(a), [a]) == [(year(a), [a]), (year(b), [b])];
  }

  /**
   * Three posts around a new year, written in three offsets: `a` at 00:30 on
   * 1 January 2021 at UTC+1, `b` at 23:45 on 31 December 2020 at UTC and `c`
   * at 00:00 on 1 January 2021 at UTC-1.
   */
  function NewYearPages(): map<Id, Page> {
    map["a" := DatedPage("2021-01-01T00:30:00+01:00"),
        "b" := DatedPage("2020-12-31T23:45:00+00:00"),
        "c" := DatedPage("2021-01-01T00:00:00-01:00")]
  }

  /** The parser on those dates: minutes from midnight UTC on 1 January 2021, and the year as written. */
  function NewYearEnv(): Env {
    Env(s => s,
        s => if s == "2021-01-01T00:30:00+01:00" then Instant(-30, 2021)
             else if s == "2020-12-31T23:45:00+00:00" then Instant(-15, 2020)
             else Instant(60, 2021),
        s => s, s => s, s => Downloaded)
  }

  /** The instants and years of the three posts. */
  lemma NewYearInstants()
    ensures var pages, env := NewYearPages(), NewYearEnv();
      && Dated(pages, "a") && Dated(pages, "b") && Dated(pages, "c")
      && Stamp(env, pages, "a") == -30 && Stamp(env, pages, "b") == -15 && Stamp(env, pages, "c") == 60
      && YearOf(env, pages, "a") == 2021 && YearOf(env, pages, "b") == 2020 && YearOf(env, pages, "c") == 2021
  {
    var pages := NewYearPages();
    assert pages["a"].date == Some("2021-01-01T00:30:00+01:00");
    assert pages["b"].date == Some("2020-12-31T23:45:00+00:00");
    assert pages["c"].date == Some("2021-01-01T00:00:00-01:00");
  }

  /**
   * On the time line `a` < `b` < `c`, so newest first they are `c` (2021),
   * `b` (2020), `a` (2021): 2021 comes back, its second run replaces the
   * first, and the dated page `c` is in no group.
   */
  lemma ByYearLosesPage()
    ensures Dated(NewYearPages(), "c")
    ensures ByYear(["a", "b", "c"], NewYearPages(), NewYearEnv()) == [(2021, ["a"]), (2020, ["b"])]
  {
    var pages := NewYearPages();
    var env := NewYearEnv();
    var key := NewestFirst(env, pages);
    var year := YearKey(env, pages);
    NewYearInstants();
    assert key("a") == [30] && key("b") == [15] && key("c") == [-60];
    DatedThree("a", "b", "c", pages);
    SortThree("a", "b", "c", key);
    RegroupThree("c", "b", "a", year);
  }
}
