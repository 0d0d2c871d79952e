/**
 * The queryset list_jobs builds: filtering by lookups, the free-text
 * search, ordering, the refresh sweep it runs before the page is read,
 * and pages of ten.
 */
module Listing {
  import opened Wrappers
  import opened Text
  import opened Models
  import opened Schemas
  import opened Api

  /**
   * Q(title__icontains=t) | Q(desc__icontains=t) | Q(company_name__icontains=t);
   * a NULL desc matches nothing. The empty term matches every row, which is
   * why the endpoint skips it.
   */
  predicate SearchMatches(row: JobRow, term: string)
    ensures term == "" ==> SearchMatches(row, term)
  {
    || ContainsIgnoringCase(row.title, term)
    || (row.desc.Some? && ContainsIgnoringCase(row.desc.value, term))
    || ContainsIgnoringCase(row.companyName, term)
  }

  /** A condition a queryset is filtered by. */
  datatype Cond = Lookups(orm: map<string, Value>) | Search(term: string)

  predicate Holds(row: JobRow, c: Cond)
  {
    match c
    case Lookups(orm) => MatchesAll(row, orm)
    case Search(term) => SearchMatches(row, term)
  }

  /** queryset.filter(c): the rows that satisfy c, in their order. */
  function Where(rows: seq<JobRow>, c: Cond): (kept: seq<JobRow>)
    ensures forall r :: r in kept <==> r in rows && Holds(r, c)
    ensures multiset(kept) <= multiset(rows)
    ensures forall i :: 0 <= i < |kept| ==> Holds(kept[i], c)
  {
    if |rows| == 0 then []
    else
      assert rows == [rows[0]] + rows[1..];
      (if Holds(rows[0], c) then [rows[0]] else []) + Where(rows[1..], c)
  }

  /** Filtering a second time by the same condition changes nothing. */
  lemma {:induction false} WhereIdempotent(rows: seq<JobRow>, c: Cond)
    ensures Where(Where(rows, c), c) == Where(rows, c)
  {
    if |rows| > 0 {
      WhereIdempotent(rows[1..], c);
      var rest := Where(rows[1..], c);
      if Holds(rows[0], c) {
        assert Where(rows, c) == [rows[0]] + rest;
        assert Where(rows, c)[1..] == rest;
      } else {
        assert Where(rows, c) == rest;
      }
    }
  }

  /** The sort key of order_by o: the date it names, negated when descending. */
  function Key(o: OrderBy, r: JobRow): int
  {
    match o
    case PostingDateAsc => r.postingDate
    case PostingDateDesc => -r.postingDate
    case ExpirationDateAsc => r.expirationDate
    case ExpirationDateDesc => -r.expirationDate
  }

  /** Rows a and b may appear in this order under order_by o. */
  predicate InOrder(o: OrderBy, a: JobRow, b: JobRow)
  {
    Key(o, a) <= Key(o, b)
  }

  /** What InOrder means for each order_by value. */
  lemma InOrderMeaning(o: OrderBy, a: JobRow, b: JobRow)
    ensures o == PostingDateAsc ==> (InOrder(o, a, b) <==> a.postingDate <= b.postingDate)
    ensures o == PostingDateDesc ==> (InOrder(o, a, b) <==> a.postingDate >= b.postingDate)
    ensures o == ExpirationDateAsc ==> (InOrder(o, a, b) <==> a.expirationDate <= b.expirationDate)
    ensures o == ExpirationDateDesc ==> (InOrder(o, a, b) <==> a.expirationDate >= b.expirationDate)
  {
  }

  predicate Sorted(o: OrderBy, rows: seq<JobRow>)
  {
    forall i, j :: 0 <= i < j < |rows| ==> Key(o, rows[i]) <= Key(o, rows[j])
  }

  /** A row that may precede every row of a sorted list keeps it sorted when put in front. */
  lemma SortedCons(o: OrderBy, y: JobRow, rows: seq<JobRow>)
    requires Sorted(o, rows)
    requires forall z :: z in rows ==> Key(o, y) <= Key(o, z)
    ensures Sorted(o, [y] + rows)
  {
    var s := [y] + rows;
    forall i, j | 0 <= i < j < |s| ensures Key(o, s[i]) <= Key(o, s[j]) {
      assert s[j] == rows[j - 1];
      if i > 0 {
        assert s[i] == rows[i - 1];
      }
    }
  }

  /** Put x in front of the first row it may precede. */
  function Insert(o: OrderBy, x: JobRow, rows: seq<JobRow>): (r: seq<JobRow>)
    requires Sorted(o, rows)
    ensures Sorted(o, r)
    ensures multiset(r) == multiset(rows) + multiset{x}
  {
    if |rows| == 0 then [x]
    else if InOrder(o, x, rows[0]) then
      SortedCons(o, x, rows);
      [x] + rows
    else
      var tail := rows[1..];
      var rest := Insert(o, x, tail);
      assert rows == [rows[0]] + tail;
      assert forall z :: z in rest ==> Key(o, rows[0]) <= Key(o, z) by {
        forall z | z in rest ensures Key(o, rows[0]) <= Key(o, z) {
          assert z in multiset(rest);
          if z != x {
            var k :| 0 <= k < |tail| && tail[k] == z;
            assert rows[k + 1] == z;
          }
        }
      }
      SortedCons(o, rows[0], rest);
      [rows[0]] + rest
  }

  /**
   * queryset.order_by(o). Rows with equal keys keep their relative order:
   * the row earlier in the table comes first.
   */
  function SortRows(o: OrderBy, rows: seq<JobRow>): (sorted: seq<JobRow>)
    ensures Sorted(o, sorted)
    ensures multiset(sorted) == multiset(rows)
  {
    if |rows| == 0 then []
    else
      assert rows == [rows[0]] + rows[1..];
      Insert(o, rows[0], SortRows(o, rows[1..]))
  }

  /** The rows a list request selects, before ordering. */
  predicate Selected(row: JobRow, orm: map<string, Value>, search: Option<string>)
  {
    MatchesAll(row, orm) && (search.Some? && search.value != "" ==> SearchMatches(row, search.value))
  }

  /**
   * The filtering part of the list queryset: by the lookups (a second time
   * when there are any), then by the search term when it is non-empty.
   */
  function Selection(rows: seq<JobRow>, orm: map<string, Value>, search: Option<string>): (selection: seq<JobRow>)
    ensures forall r :: r in selection <==> r in rows && Selected(r, orm, search)
    ensures multiset(selection) <= multiset(rows)
  {
    var filtered := Where(rows, Lookups(orm));
    var refiltered := if |orm| > 0 then Where(filtered, Lookups(orm)) else filtered;
    if search.Some? && search.value != "" then Where(refiltered, Search(search.value)) else refiltered
  }

  /** The order a list request asks for: newest posting first unless order_by says otherwise. */
  function Ordering(order: Option<OrderBy>): (o: OrderBy)
    ensures order.Some? ==> o == order.value
    ensures order.None? ==> o.Value() == "-posting_date"
  {
    if order.Some? then order.value else PostingDateDesc
  }

  /** Two lists with the same elements counted with multiplicity hold the same elements. */
  lemma SameElements(a: seq<JobRow>, b: seq<JobRow>)
    requires multiset(a) == multiset(b)
    ensures forall r :: r in a <==> r in b
  {
    forall r ensures r in a <==> r in b {
      assert r in a <==> r in multiset(a);
      assert r in b <==> r in multiset(b);
    }
  }

  /**
   * The list queryset: the selected rows, each as often as in the table,
   * in the requested order.
   */
  function Query(rows: seq<JobRow>, orm: map<string, Value>, search: Option<string>, order: Option<OrderBy>): (result: seq<JobRow>)
    ensures forall r :: r in result <==> r in rows && Selected(r, orm, search)
    ensures multiset(result) <= multiset(rows)
    ensures Sorted(Ordering(order), result)
  {
    var selection := Selection(rows, orm, search);
    var sorted := SortRows(Ordering(order), selection);
    SameElements(sorted, selection);
    sorted
  }

  /** The repeated filter(**orm_filters) is harmless: the selection equals one filtering once. */
  lemma RepeatedFilterHarmless(rows: seq<JobRow>, orm: map<string, Value>, search: Option<string>)
    ensures var once := Where(rows, Lookups(orm));
            Selection(rows, orm, search) ==
              if search.Some? && search.value != "" then Where(once, Search(search.value)) else once
  {
    WhereIdempotent(rows, Lookups(orm));
  }

  /** For validated filters, the list holds exactly the rows FilterHolds and the search select. */
  lemma ListedRows(rows: seq<JobRow>, f: ListFilters, search: Option<string>, order: Option<OrderBy>)
    ensures forall r :: r in Query(rows, OrmFilters(FilterItems(f)), search, order) <==>
              r in rows && FilterHolds(r, f) &&
              (search.Some? && search.value != "" ==> SearchMatches(r, search.value))
  {
    var orm := OrmFilters(FilterItems(f));
    forall r | r in rows ensures MatchesAll(r, orm) <==> FilterHolds(r, f) {
      FilterTranslation(r, f);
    }
  }

  /** Every row on a page of a list response is a table row the filters and the search select. */
  lemma PageRows(rows: seq<JobRow>, f: ListFilters, search: Option<string>, order: Option<OrderBy>, page: nat)
    requires page >= 1
    ensures forall x :: x in Paginate(Query(rows, OrmFilters(FilterItems(f)), search, order), page).items ==>
              x in rows && FilterHolds(x, f) &&
              (search.Some? && search.value != "" ==> SearchMatches(x, search.value))
  {
    var results := Query(rows, OrmFilters(FilterItems(f)), search, order);
    ListedRows(rows, f, search, order);
    var items := Paginate(results, page).items;
    forall x | x in items ensures x in results {
      var k :| 0 <= k < |items| && items[k] == x;
    }
  }

  /** PageNumberPagination's page size for the list endpoint. */
  const PageSize: nat := 10

  /** A page of results: the total count and at most PageSize items. */
  datatype Page = Page(count: nat, items: seq<JobRow>)

  /** Page `page` (counted from 1) of the results; past the end it is empty. */
  function Paginate(results: seq<JobRow>, page: nat): (p: Page)
    requires page >= 1
    ensures p.count == |results|
    ensures |p.items| <= PageSize
    ensures (page - 1) * PageSize + |p.items| <= |results| || |p.items| == 0
    ensures forall k :: 0 <= k < |p.items| ==> p.items[k] == results[(page - 1) * PageSize + k]
    ensures |p.items| == PageSize || (page - 1) * PageSize + |p.items| >= |results|
  {
    var start := (page - 1) * PageSize;
    if start >= |results| then Page(|results|, [])
    else if start + PageSize <= |results| then Page(|results|, results[start..start + PageSize])
    else Page(|results|, results[start..])
  }

  /** Every result is on exactly the page its position says. */
  lemma EveryResultOnOnePage(results: seq<JobRow>, i: nat)
    requires i < |results|
    ensures |Paginate(results, i / PageSize + 1).items| > i % PageSize
    ensures Paginate(results, i / PageSize + 1).items[i % PageSize] == results[i]
  {
    var page := i / PageSize + 1;
    assert (page - 1) * PageSize + i % PageSize == i;
  }

  /** The items of page n are the n-th run of ten results, so no two pages share a position. */
  lemma PagesAreConsecutive(results: seq<JobRow>, page: nat)
    requires page >= 1
    ensures Paginate(results, page).items ==
            results[Min((page - 1) * PageSize, |results|)..Min(page * PageSize, |results|)]
  {
    var p := Paginate(results, page);
    var lo := Min((page - 1) * PageSize, |results|);
    var hi := Min(page * PageSize, |results|);
    assert |p.items| == hi - lo;
  }

  function Min(a: int, b: int): int
  {
    if a <= b then a else b
  }

  /**
   * The sweep's query: status "SCHEDULED" already posted, or status
   * "ACTIVE" already expired (the upper-case choice values).
   */
  predicate NeedsRefresh(row: JobRow, today: Date)
    ensures NeedsRefresh(row, today) ==> row.status == ChoiceScheduled || row.status == ChoiceActive
    ensures NeedsRefresh(row, today) && row.status == ChoiceScheduled ==>
              DeriveStatus(row.postingDate, row.expirationDate, today) != Scheduled
    ensures row.status == ChoiceActive ==>
              (NeedsRefresh(row, today) <==> DeriveStatus(row.postingDate, row.expirationDate, today) == Expired)
  {
    || (row.status == ChoiceScheduled && row.postingDate <= today)
    || (row.status == ChoiceActive && row.expirationDate < today)
  }

  /** The table after the sweep: each row it selects is saved again. */
  function SweepRows(rows: seq<JobRow>, today: Date): (swept: seq<JobRow>)
    ensures |swept| == |rows|
    ensures forall i :: 0 <= i < |rows| ==> swept[i].id == rows[i].id
    ensures forall i :: 0 <= i < |rows| ==>
              swept[i] == if NeedsRefresh(rows[i], today) then Saved(rows[i], today) else rows[i]
  {
    seq(|rows|, i requires 0 <= i < |rows| =>
      if NeedsRefresh(rows[i], today) then Saved(rows[i], today) else rows[i])
  }

  /** A row written by save() is never picked up by the sweep, whatever the day. */
  lemma SavedRowNeverRefreshed(row: JobRow, savedOn: Date, today: Date)
    ensures !NeedsRefresh(Saved(row, savedOn), today)
  {
    DerivedStatusIsNoChoice(row.postingDate, row.expirationDate, savedOn);
  }

  /** After a sweep no row needs refreshing, so a second sweep the same day changes nothing. */
  lemma SweepIdempotent(rows: seq<JobRow>, today: Date)
    ensures forall i :: 0 <= i < |rows| ==> !NeedsRefresh(SweepRows(rows, today)[i], today)
    ensures SweepRows(SweepRows(rows, today), today) == SweepRows(rows, today)
  {
    var swept := SweepRows(rows, today);
    forall i | 0 <= i < |rows| ensures !NeedsRefresh(swept[i], today) {
      if NeedsRefresh(rows[i], today) {
        SavedRowNeverRefreshed(rows[i], today, today);
      }
    }
  }

  /**
   * A job saved on day 0 to be posted on day 5 is stored "scheduled"; on day
   * 10 the sweep leaves it "scheduled" although save() would now make it
   * "active".
   */
  lemma StaleScheduledStays()
    ensures var row := Saved(JobRow(1, "Engineer", None, None, None, None, "Acme", 5, 20, None, ""), 0);
            && row.status == Scheduled
            && SweepRows([row], 10) == [row]
            && DeriveStatus(row.postingDate, row.expirationDate, 10) == Active
  {
    var row := Saved(JobRow(1, "Engineer", None, None, None, None, "Acme", 5, 20, None, ""), 0);
    SavedRowNeverRefreshed(row, 0, 10);
    assert SweepRows([row], 10)[0] == row;
  }
}
