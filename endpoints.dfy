/**
 * The job endpoints over the jobs table: create, get, update, delete and
 * list. Authentication is a flag the caller passes in (the JWT check is not
 * part of this model); "today" is a parameter.
 */
module Endpoints {
  import opened Wrappers
  import opened Models
  import opened Schemas
  import opened Api
  import opened Listing

  /** How a request fails: 401, 422 with the field errors, 404, or 500. */
  datatype ApiError = Unauthorized | Unprocessable(errors: seq<FieldError>) | NotFound | ServerError

  /** Where the row with this id is, if anywhere. */
  function IndexOf(rows: seq<JobRow>, id: int): (k: Option<nat>)
    ensures k.Some? ==> k.value < |rows| && rows[k.value].id == id
    ensures k.None? <==> forall i :: 0 <= i < |rows| ==> rows[i].id != id
  {
    if |rows| == 0 then None
    else if rows[0].id == id then Some(0)
    else
      match IndexOf(rows[1..], id)
      case None => None
      case Some(k) => Some(k + 1)
  }

  /**
   * The table as save() leaves it: ids ascending and below the next id to
   * hand out, every NOT NULL column filled, every average the one save()
   * computes from the salary range.
   */
  predicate WellFormed(rows: seq<JobRow>, nextId: int)
  {
    && nextId > 0
    && (forall i, j :: 0 <= i < j < |rows| ==> rows[i].id < rows[j].id)
    && (forall i :: 0 <= i < |rows| ==> 0 < rows[i].id < nextId)
    && (forall i :: 0 <= i < |rows| ==> Storable(rows[i]))
    && (forall i :: 0 <= i < |rows| ==> AverageCurrent(rows[i]))
  }

  /** The stored average is the one save() computes from the stored salary range. */
  predicate AverageCurrent(row: JobRow)
  {
    row.salaryRangeAvg == SalaryAverage(row.salaryRange)
  }

  /** The row create_job inserts: Job(**payload) with the field defaults, saved, under a new id. */
  function Inserted(p: JobCreate, id: int, expiration: Date, today: Date): (row: JobRow)
    ensures row.id == id && row.title == p.title && row.desc == p.desc && row.location == p.location
    ensures row.salaryRange == p.salaryRange && row.companyName == p.companyName
    ensures row.postingDate == p.postingDate && row.expirationDate == expiration
    ensures row.requiredSkills == p.requiredSkills
    ensures row.salaryRangeAvg == SalaryAverage(p.salaryRange)
    ensures row.status == DeriveStatus(p.postingDate, expiration, today)
  {
    Saved(JobRow(id, p.title, p.desc, p.location, p.salaryRange, Some(0), p.companyName,
                 p.postingDate, expiration, p.requiredSkills, ChoiceActive), today)
  }

  /** The row after update_job's setattr loop: each field the payload carries replaces the stored one. */
  function Patched(row: JobRow, p: JobUpdate): (patched: JobRow)
    ensures p.title.Some? ==> patched.title == p.title.value
    ensures p.desc.Some? ==> patched.desc == p.desc
    ensures patched.(title := row.title, desc := row.desc) == row
  {
    row.(title := if p.title.Some? then p.title.value else row.title,
         desc := if p.desc.Some? then p.desc else row.desc)
  }

  /** The page parameter of PageNumberPagination must be at least 1. */
  const PageMessage := "Input should be greater than or equal to 1"

  /** The 422 errors of a list request: the filters, order_by, then page. */
  function ListErrors(raw: RawListFilters, orderBy: Option<string>, page: int): (errors: seq<FieldError>)
    ensures errors == [] <==>
            && ValidateFilters(raw).Ok?
            && (orderBy.Some? ==> ParseOrderBy(orderBy.value).Ok?)
            && page >= 1
  {
    (if ValidateFilters(raw).Err? then ValidateFilters(raw).error else [])
    + (if orderBy.Some? && ParseOrderBy(orderBy.value).Err? then [ParseOrderBy(orderBy.value).error] else [])
    + (if page < 1 then [FieldError("page", Invalid(PageMessage))] else [])
  }

  /** The jobs table. */
  class JobStore {
    var rows: seq<JobRow>
    var nextId: int

    predicate Valid()
      reads this
    {
      WellFormed(rows, nextId)
    }

    /** A table holding rows that were written through save(). */
    constructor Load(fixture: seq<JobRow>, nextId: int)
      requires WellFormed(fixture, nextId)
      ensures rows == fixture && this.nextId == nextId
      ensures Valid()
    {
      rows := fixture;
      this.nextId := nextId;
    }

    /** get_object_or_404(Job, id=id). */
    function Get(id: int): (r: Result<JobRow, ApiError>)
      reads this
      ensures r.Ok? ==> r.value in rows && r.value.id == id
      ensures r.Err? ==> r.error == NotFound && forall i :: 0 <= i < |rows| ==> rows[i].id != id
    {
      match IndexOf(rows, id)
      case Some(k) => Ok(rows[k])
      case None => Err(NotFound)
    }

    /** The refresh sweep of list_jobs: save() every row it selects, in place. */
    method Sweep(today: Date)
      requires Valid()
      modifies this
      ensures rows == SweepRows(old(rows), today)
      ensures nextId == old(nextId)
      ensures Valid()
    {
      var i := 0;
      while i < |rows|
        invariant 0 <= i <= |rows| == |old(rows)|
        invariant nextId == old(nextId)
        invariant forall j :: 0 <= j < i ==> rows[j] == SweepRows(old(rows), today)[j]
        invariant forall j :: i <= j < |rows| ==> rows[j] == old(rows)[j]
      {
        if NeedsRefresh(rows[i], today) {
          var job := new Job.FromRow(rows[i]);
          job.Save(today);
          rows := rows[i := job.Row()];
        }
        i := i + 1;
      }
      assert rows == SweepRows(old(rows), today);
      SweepKeepsWellFormed(old(rows), nextId, today);
    }

    /**
     * POST /jobs: authentication, then the payload, then Job(**payload),
     * save() and the insert.
     */
    method CreateJob(authenticated: bool, raw: RawJobCreate, today: Date) returns (r: Result<JobRow, ApiError>)
      requires Valid()
      modifies this
      ensures Valid()
      ensures !authenticated ==> r == Err(Unauthorized)
      ensures authenticated && ValidateCreate(raw, today).Err? ==>
                r == Err(Unprocessable(ValidateCreate(raw, today).error))
      ensures authenticated && ValidateCreate(raw, today).Ok? ==>
                var p := ValidateCreate(raw, today).value;
                if p.expirationDate.None? then r == Err(ServerError)
                else
                  var row := Inserted(p, old(nextId), p.expirationDate.value, today);
                  r == if Storable(row) then Ok(row) else Err(ServerError)
      ensures r.Err? ==> rows == old(rows) && nextId == old(nextId)
      ensures r.Ok? ==> rows == old(rows) + [r.value] && nextId == old(nextId) + 1
      ensures r.Ok? ==> Get(r.value.id) == Ok(r.value)
    {
      if !authenticated {
        return Err(Unauthorized);
      }
      var v := ValidateCreate(raw, today);
      if v.Err? {
        return Err(Unprocessable(v.error));
      }
      r := Insert(v.value, today);
    }

    /**
     * Job(**payload) and save(), then the insert under the next id. save()
     * fails on a missing expiration date, and the insert fails when a NOT
     * NULL column would be None.
     */
    method Insert(p: JobCreate, today: Date) returns (r: Result<JobRow, ApiError>)
      requires Valid()
      modifies this
      ensures Valid()
      ensures p.expirationDate.None? ==> r == Err(ServerError)
      ensures p.expirationDate.Some? ==>
                var row := Inserted(p, old(nextId), p.expirationDate.value, today);
                r == if Storable(row) then Ok(row) else Err(ServerError)
      ensures r.Err? ==> rows == old(rows) && nextId == old(nextId)
      ensures r.Ok? ==> rows == old(rows) + [r.value] && nextId == old(nextId) + 1
      ensures r.Ok? ==> Get(r.value.id) == Ok(r.value)
    {
      var job := new Job(p.title, p.desc, p.location, p.salaryRange, p.companyName,
                         p.postingDate, p.expirationDate, p.requiredSkills);
      if job.expirationDate.None? {
        return Err(ServerError);
      }
      // the id the insert assigns; save() does not read it
      job.id := Some(nextId);
      job.Save(today);
      var row := job.Row();
      assert row == Inserted(p, nextId, p.expirationDate.value, today);
      if !Storable(row) {
        return Err(ServerError);
      }
      AppendKeepsWellFormed(rows, nextId, row);
      assert (rows + [row])[|rows|] == row;
      rows := rows + [row];
      nextId := nextId + 1;
      r := Ok(row);
    }

    /**
     * PUT /jobs/{id}: authentication, then the payload, then the lookup;
     * each field the payload carries is set on the instance, which is saved.
     */
    method UpdateJob(authenticated: bool, id: int, raw: JobUpdate, today: Date) returns (r: Result<JobRow, ApiError>)
      requires Valid()
      modifies this
      ensures Valid() && nextId == old(nextId)
      ensures !authenticated ==> r == Err(Unauthorized)
      ensures authenticated && ValidateUpdate(raw).Err? ==> r == Err(Unprocessable(ValidateUpdate(raw).error))
      ensures authenticated && ValidateUpdate(raw).Ok? && old(Get(id)).Err? ==> r == Err(NotFound)
      ensures authenticated && ValidateUpdate(raw).Ok? && old(Get(id)).Ok? ==>
                r == Ok(Saved(Patched(old(Get(id)).value, raw), today))
      ensures r.Err? ==> rows == old(rows)
      ensures r.Ok? ==> IndexOf(old(rows), id).Some? && rows == old(rows)[IndexOf(old(rows), id).value := r.value]
    {
      if !authenticated {
        return Err(Unauthorized);
      }
      var v := ValidateUpdate(raw);
      if v.Err? {
        return Err(Unprocessable(v.error));
      }
      var k := IndexOf(rows, id);
      if k.None? {
        return Err(NotFound);
      }
      var row := rows[k.value];
      var job := new Job.FromRow(row);
      var attrs := [("title", raw.title), ("desc", raw.desc)];
      var i := 0;
      while i < |attrs|
        invariant 0 <= i <= |attrs|
        invariant rows == old(rows) && nextId == old(nextId)
        invariant job.id.Some? && job.expirationDate.Some?
        invariant job.Row() == Patched(row, JobUpdate(if i >= 1 then raw.title else None, if i >= 2 then raw.desc else None))
      {
        var name, value := attrs[i].0, attrs[i].1;
        if value.Some? {
          job.SetAttr(name, value.value);
        }
        i := i + 1;
      }
      job.Save(today);
      var saved := job.Row();
      UpdateKeepsWellFormed(rows, nextId, k.value, raw, today);
      rows := rows[k.value := saved];
      r := Ok(saved);
    }

    /** DELETE /jobs/{id}: authentication, then the lookup, then the row is removed. */
    method DeleteJob(authenticated: bool, id: int) returns (r: Outcome<ApiError>)
      requires Valid()
      modifies this
      ensures Valid() && nextId == old(nextId)
      ensures !authenticated ==> r == Fail(Unauthorized)
      ensures authenticated ==> (r == Pass <==> old(Get(id)).Ok?)
      ensures authenticated && r.Fail? ==> r.error == NotFound
      ensures r.Fail? ==> rows == old(rows)
      ensures r.Pass? ==> Get(id) == Err(NotFound)
      ensures r.Pass? ==> forall x :: x in rows <==> x in old(rows) && x.id != id
    {
      if !authenticated {
        return Fail(Unauthorized);
      }
      var k := IndexOf(rows, id);
      if k.None? {
        return Fail(NotFound);
      }
      var i := k.value;
      ghost var before := rows;
      rows := rows[..i] + rows[i + 1..];
      DeleteKeepsWellFormed(before, nextId, i);
      r := Pass;
    }

    /**
     * GET /jobs: the query parameters are validated; the lookups are built
     * (a salary bound the database cannot read fails the request); the sweep
     * runs; the selected rows, ordered, are cut into the requested page.
     */
    method ListJobs(raw: RawListFilters, orderBy: Option<string>, search: Option<string>, page: int, today: Date)
      returns (r: Result<Page, ApiError>)
      requires Valid()
      modifies this
      ensures Valid() && nextId == old(nextId)
      ensures ListErrors(raw, orderBy, page) != [] ==> r == Err(Unprocessable(ListErrors(raw, orderBy, page)))
      ensures ListErrors(raw, orderBy, page) == [] ==>
                var f := ValidateFilters(raw).value;
                var orm := OrmFilters(FilterItems(f));
                if !Convertible(orm) then r == Err(ServerError)
                else
                  var order := if orderBy.Some? then Some(ParseOrderBy(orderBy.value).value) else None;
                  r == Ok(Paginate(Query(rows, orm, search, order), page))
      ensures r.Err? ==> rows == old(rows)
      ensures r.Ok? ==> rows == SweepRows(old(rows), today)
      ensures r.Ok? ==> forall x :: x in r.value.items ==>
                x in rows && FilterHolds(x, ValidateFilters(raw).value) &&
                (search.Some? && search.value != "" ==> SearchMatches(x, search.value))
    {
      var errors := ListErrors(raw, orderBy, page);
      if errors != [] {
        return Err(Unprocessable(errors));
      }
      var f := ValidateFilters(raw).value;
      var order: Option<OrderBy> := None;
      if orderBy.Some? {
        order := Some(ParseOrderBy(orderBy.value).value);
      }
      var orm := BuildOrmFilters(FilterItems(f));
      if !Convertible(orm) {
        return Err(ServerError);
      }
      Sweep(today);
      var p := Paginate(Query(rows, orm, search, order), page);
      PageRows(rows, f, search, order, page);
      r := Ok(p);
    }
  }

  /** Saving the rows the sweep selects keeps the table well formed. */
  lemma SweepKeepsWellFormed(rows: seq<JobRow>, nextId: int, today: Date)
    requires WellFormed(rows, nextId)
    ensures WellFormed(SweepRows(rows, today), nextId)
  {
    var swept := SweepRows(rows, today);
    forall i | 0 <= i < |rows|
      ensures Storable(swept[i]) && AverageCurrent(swept[i])
    {
    }
  }

  /** Appending a saved row under the next id keeps the table well formed, and the row is found by its id. */
  lemma AppendKeepsWellFormed(rows: seq<JobRow>, nextId: int, row: JobRow)
    requires WellFormed(rows, nextId)
    requires row.id == nextId && Storable(row) && AverageCurrent(row)
    ensures WellFormed(rows + [row], nextId + 1)
    ensures IndexOf(rows + [row], nextId) == Some(|rows|)
  {
    var added := rows + [row];
    forall i | 0 <= i < |added|
      ensures 0 < added[i].id < nextId + 1 && Storable(added[i]) && AverageCurrent(added[i])
    {
      if i < |rows| { assert added[i] == rows[i]; }
    }
    forall i, j | 0 <= i < j < |added| ensures added[i].id < added[j].id {
      assert added[i] == rows[i];
      if j < |rows| { assert added[j] == rows[j]; }
    }
    IndexOfLast(rows, row);
  }

  /** A row whose id is above every other is found at the end. */
  lemma IndexOfLast(rows: seq<JobRow>, row: JobRow)
    requires forall i :: 0 <= i < |rows| ==> rows[i].id < row.id
    ensures IndexOf(rows + [row], row.id) == Some(|rows|)
  {
    var added := rows + [row];
    assert added[|rows|].id == row.id;
    assert forall i :: 0 <= i < |rows| ==> added[i] == rows[i];
  }

  /** Patching and saving a stored row keeps the table well formed. */
  lemma UpdateKeepsWellFormed(rows: seq<JobRow>, nextId: int, k: nat, p: JobUpdate, today: Date)
    requires WellFormed(rows, nextId) && k < |rows|
    ensures WellFormed(rows[k := Saved(Patched(rows[k], p), today)], nextId)
  {
    var updated := rows[k := Saved(Patched(rows[k], p), today)];
    assert forall i :: 0 <= i < |rows| ==> updated[i].id == rows[i].id;
  }

  /** Removing a row keeps the table well formed. */
  lemma DeleteKeepsWellFormed(rows: seq<JobRow>, nextId: int, k: nat)
    requires WellFormed(rows, nextId) && k < |rows|
    ensures WellFormed(rows[..k] + rows[k + 1..], nextId)
  {
    var kept := rows[..k] + rows[k + 1..];
    forall i | 0 <= i < |kept| ensures kept[i] == rows[if i < k then i else i + 1] {
    }
  }
}
