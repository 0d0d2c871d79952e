# job-finder-django, modelled in Dafny

This project models the job-posting core of job-finder-django, a Django and
django-ninja service for publishing and searching job listings. It covers
four parts:

- **The `Job` model** (`Models`):
  - the salary-range average computed by `compute_salary_range_avg`;
  - the status rule of `save()`;
  - a `Job` class whose `Save` recomputes both derived fields in place.
- **The two salary-range validators**:
  - `salary_range_validator` in utils.py (`Utils`);
  - the request schemas (`Schemas`): the create and update payloads, the
    list filters with their field bounds, and the `order_by` enum.
- **The list engine** (`Api`, `Listing`):
  - the loop that turns filter fields into ORM lookups;
  - what those lookups mean on a row;
  - the free-text search, ordering, pages of ten, and the refresh sweep
    that `list_jobs` runs.
- **The endpoints** (`Endpoints`): a `JobStore` class holding the jobs table
  as a sequence of rows, with create, get, update, delete and list.

Modelling choices:
- Dates are day numbers. "Today" is a parameter.
- Authentication is a boolean the caller passes in.
- Python's `int()` is modelled as an optional leading `-` followed by ASCII
  digits. `str.isdigit()` is ASCII digits only, with no sign. The schema's
  `float()` is modelled as `int()` (see "## Left out").
- `icontains` is ASCII lower-casing followed by a substring test.
- SQL NULL is `None`, and a lookup on NULL matches nothing.

Behaviours of the code worth knowing:

- **Status case.**
  - `save()` writes lower-case statuses ("expired", "scheduled", "active").
  - The `JobStatus` choices and the refresh sweep's query use upper-case
    values.
  - So a row written by `save()` is never selected by the sweep
    (`Listing.SavedRowNeverRefreshed`).
  - A job stored as "scheduled" stays "scheduled" after its posting date
    passes, until something else saves it (`Listing.StaleScheduledStays`).
  - Rows loaded with upper-case statuses are refreshed as described.
- **The two salary validators disagree** (`Schemas.ValidatorsDisagree`,
  `Utils.ValidatorAcceptsNegative`).
  - The schema accepts the "面議" (negotiable) sentinel. utils.py rejects it,
    because after the format check it still parses `parts[0]` as an integer.
  - The schema rejects negative bounds. utils.py accepts "-5~3".
  - The schema rewrites a lone number "7" into "7~7".
  - Only the schema runs on a request. `save()` does not call field
    validators, and the update payload has no salary field.
- **Unknown filters are ignored.** `title` and `company_name` are not fields
  of `JobListFilters`, so those query parameters filter nothing
  (`Schemas.FiltersIgnoreUnknown`).
- **NOT NULL columns.** `desc`, `location`, `salary_range`,
  `salary_range_avg` and `required_skills` are declared without `null=True`.
  - A create payload that leaves one of them out, or whose salary range has
    no average (for example the empty string), fails when the row is
    written. That is a 500, not a stored NULL average (`Endpoints.JobStore.CreateJob`).
  - A create payload without `expiration_date` passes `None` to the model.
    `save()` then fails comparing it with today.
- **The salary floor is not enforced.** `MinValueValidator(28590)` is not
  run by `save()`. The schema accepts "0~0", and `save()` stores its average
  0 (`Schemas.FloorNotEnforced`).
- **The sweep runs after the filters are built.** An empty `salary_gte` or
  `salary_lte` passes the schema but cannot be converted for the decimal
  column. The request then fails with a 500 before the sweep runs.

## Model

| member | source | states |
|---|---|---|
| Models.SalaryAverage | mysite/app/models.py:47-59 | the "面議" sentinel averages to 40000; an absent or empty range has no average |
| Models.AverageOfRange | mysite/app/models.py:52-56 | for "a~b" with both parts integers the average is (a+b) floor-divided by 2, bracketed as 2·avg ≤ a+b < 2·avg+2 |
| Models.AverageSymmetric | mysite/app/models.py:52-56 | swapping the two bounds of a range does not change its average |
| Models.AverageDefinedIff | mysite/app/models.py:47-59 | a range has an average exactly when it is the sentinel or two integers joined by one "~" |
| Models.DeriveStatus | mysite/app/models.py:65-70 | expired iff expiration < today; scheduled iff not expired and posting > today; active otherwise (both ties fall on the later branch) |
| Models.DerivedStatusIsNoChoice | mysite/app/models.py:12-15 | the statuses save() writes are none of the upper-case JobStatus choice values |
| Models.Saved | mysite/app/models.py:61-71 | a saved row has the recomputed average and status and every other field unchanged |
| Models.SaveIdempotent | mysite/app/models.py:61-71 | saving twice on one day gives the row saving once gives |
| Models.Job.constructor | mysite/app/models.py:17-45 | Job(**payload.dict()) as in create_job: the given fields are stored as passed, there is no id yet, and the defaults are salary_range_avg = 0 and status = ACTIVE |
| Models.Storable | mysite/app/models.py:17-37 | the columns declared without null=True (desc, location, salary_range, salary_range_avg, required_skills) hold a value; Endpoints.JobStore.Insert answers 500 for a row that is not Storable |
| Models.MeetsFloor | mysite/app/models.py:28 | MinValueValidator(28590) on the average; Schemas.FloorNotEnforced shows a stored row that fails it |
| Models.Job.Save | mysite/app/models.py:61-71 | the instance's average and status become the recomputed ones; no other field changes |
| Models.Job.SetAttr | mysite/app/api.py:98-100 | setattr of title or desc changes that field only |
| Models.Job.FromRow | mysite/app/models.py:17-45 | an instance loaded from a row writes back the same row |
| Text.Split | mysite/app/models.py:49 | str.split: one more piece than separators, no piece holds the separator, joining the pieces gives the input back |
| Text.SplitJoin | mysite/app/utils.py:8 | splitting a join of separator-free pieces gives the pieces back |
| Text.IsDigits | mysite/app/schemas.py:27 | str.isdigit(): a non-empty string of ASCII digits, so it holds no sign, tilde or comma |
| Text.ParseInt | mysite/app/models.py:54-55 | int() accepts exactly the digit strings with an optional leading minus; a negative result comes from that minus |
| Text.ParseDecimal | mysite/app/models.py:54-55 | int() reads back the decimal rendering of every natural number and of its negation |
| Text.ContainsIgnoringCase | mysite/app/api.py:68-72 | icontains: the empty term matches every value, an exact occurrence always matches, and a term longer than the value never does |
| Text.CaseIgnored | mysite/app/api.py:68-72 | icontains gives the same answer whatever the case of the term or of the value searched |
| Utils.SalaryRangeValidator | mysite/app/utils.py:1-21 | empty fails as empty; the sentinel fails as non-numeric; a separator count other than one fails on format |
| Utils.ValidatorPassIff | mysite/app/utils.py:1-21 | the validator passes exactly on "a~b" with integers a ≤ b |
| Utils.ValidatorPassHasAverage | mysite/app/utils.py:15-19 | a range the validator passes has an average under compute_salary_range_avg |
| Utils.ValidatorAcceptsNegative | mysite/app/utils.py:15-19 | "-5~3" passes: negative bounds are not rejected |
| Schemas.ValidateSalaryRange | mysite/app/schemas.py:19-39 | absent, empty and sentinel values pass unchanged; every failure carries the format or the numeric message |
| Schemas.SalaryRangeCases | mysite/app/schemas.py:21-39 | every branch on a non-empty, non-sentinel value: no tilde passes exactly for a digit string, one tilde exactly for two numbers 0 ≤ min ≤ max, more fail; the format message is given exactly when the tilde count is not one |
| Schemas.ExpandSingleRoundTrip | mysite/app/schemas.py:25-27 | a lone digit string v is rewritten to "v~v", whose average is v |
| Schemas.PairAcceptedIff | mysite/app/schemas.py:30-37 | "a~b" is accepted exactly when both parse, both are ≥ 0 and a ≤ b |
| Schemas.ManyPiecesRejected | mysite/app/schemas.py:25-29 | two or more "~" fail with the format message |
| Schemas.AcceptedHasAverage | mysite/app/schemas.py:19-39 | every non-empty value the modelled schema accepts stores a range with a non-negative average (integer bounds only) |
| Schemas.FloorNotEnforced | mysite/app/models.py:23-29 | the schema accepts "0~0" and save() stores its average 0, below the MinValueValidator floor of 28590 |
| Schemas.ValidatorsDisagree | mysite/app/schemas.py:19-39 | the schema accepts the sentinel, rejects "-5~3" and expands "7" to "7~7" |
| Schemas.ValidateRequiredSkills | mysite/app/schemas.py:41-46 | fails exactly when more than ten comma-separated skills are given |
| Schemas.LengthErrors | mysite/app/schemas.py:10-14 | no error exactly when the length is within the field's bounds |
| Schemas.ValidateCreate | mysite/app/schemas.py:9-50 | a rejected create payload carries at least one field error |
| Schemas.CreateAcceptedIff | mysite/app/schemas.py:9-50 | a create payload is accepted exactly when every field bound and both validators hold; the posting date defaults to today; desc, location, expiration date and skills pass through as given; the salary range is the validator's value (so "7" is stored as "7~7") |
| Schemas.ValidateUpdate | mysite/app/schemas.py:53-55 | an update payload is accepted exactly when a given title has ≥ 3 and a given desc ≥ 10 characters, and is kept as is |
| Schemas.ValidateSalaryFilter | mysite/app/schemas.py:81-89 | a salary bound fails exactly when it is non-empty and not an integer |
| Schemas.ValidateFilters | mysite/app/schemas.py:65-89 | the list filters are accepted exactly when every length bound and the salary check hold |
| Schemas.FiltersIgnoreUnknown | mysite/app/schemas.py:65-79 | query parameters outside JobListFilters do not change the validated filters |
| Schemas.FilterItems | mysite/app/api.py:46 | dict(exclude_none=True): the present fields, each once, under distinct names |
| Schemas.ParseOrderBy | mysite/app/schemas.py:92-96 | order_by is accepted exactly for the four enum values and reads back as the value given |
| Schemas.ParseOrderByValue | mysite/app/schemas.py:92-96 | each enum member's value parses back to the member |
| Api.LookupName | mysite/app/api.py:48-59 | the if/elif chain on substrings of the field name; its result for each of the nine fields is stated by Api.LookupNames and Api.LookupAgrees |
| Api.LookupNames | mysite/app/api.py:48-59 | the nine filter fields become their lookups: required_skills → __icontains, salary bounds → salary_range_avg__gte/__lte, the rest unchanged |
| Api.LookupAgrees | mysite/app/api.py:48-59 | each JobListFilters field gets the lookup written out in LookupTable |
| Api.TableInjective | mysite/app/api.py:48-59 | no two fields of LookupTable share a lookup |
| Api.LookupInjective | mysite/app/api.py:48-59 | different filter fields never share a lookup |
| Api.OrmFiltersContents | mysite/app/api.py:45-59 | with distinct lookups, orm_filters holds each field's value under its lookup and nothing else |
| Api.Translate | mysite/app/api.py:45-59 | the loop's dictionary has a key for the lookup of every field seen, and no other key |
| Api.OrmFilters | mysite/app/api.py:45-59 | orm_filters is the loop run with the if/elif chain as the lookup |
| Api.TranslateContents | mysite/app/api.py:45-59 | when no two fields share a lookup, each field's value sits under its lookup |
| Api.BuildOrmFilters | mysite/app/api.py:45-59 | the translation loop computes orm_filters |
| Api.MatchesLookup | mysite/app/api.py:48-62 | a row matches a lookup only when the database can convert the lookup's value (a salary bound must be a number) |
| Api.MatchesAllItems | mysite/app/api.py:62 | filter(**orm_filters) matches a row exactly when every present field's lookup does |
| Api.ConvertibleItems | mysite/app/api.py:62 | every orm_filters value converts exactly when every present field's value does |
| Api.FieldsHoldIff | mysite/app/schemas.py:65-79 | field by field, the nine filters hold exactly when FilterHolds does (equal location and status, average and dates within the bounds, skills containing the text) |
| Api.FieldsConvertIff | mysite/app/schemas.py:65-89 | field by field, the nine filters convert exactly when each given salary bound is an integer |
| Api.FilterTranslation | mysite/app/api.py:45-64 | the built lookups select exactly the rows FilterHolds selects |
| Api.FilterConversion | mysite/app/api.py:45-62 | the built lookups convert exactly when each given salary bound is an integer |
| Listing.SearchMatches | mysite/app/api.py:66-72 | the three-field search; the empty term matches every row, which is why the view skips it |
| Listing.Where | mysite/app/api.py:62-72 | filter keeps exactly the rows satisfying the condition, each at most as often as in the table |
| Listing.WhereIdempotent | mysite/app/api.py:62-64 | filtering twice by the same lookups equals filtering once |
| Listing.RepeatedFilterHarmless | mysite/app/api.py:62-64 | the list selection equals one that filters by orm_filters once |
| Listing.InOrderMeaning | mysite/app/api.py:74-77 | each order_by value compares the date it names, ascending or descending |
| Listing.SortRows | mysite/app/api.py:74-77 | order_by returns the same rows, sorted by the requested key |
| Listing.Selection | mysite/app/api.py:62-72 | the rows kept are those matching every lookup and, for a non-empty search, the search |
| Listing.Ordering | mysite/app/api.py:74-77 | the order_by given, else the order whose value is "-posting_date" |
| Listing.Query | mysite/app/api.py:62-77 | the list holds exactly the selected rows, each at most as often as in the table, sorted by Ordering |
| Listing.ListedRows | mysite/app/api.py:38-85 | for validated filters the list holds exactly the rows FilterHolds and the search select |
| Listing.PageRows | mysite/app/api.py:39 | every row on a page is a selected table row |
| Listing.Paginate | mysite/app/api.py:39 | a page has at most ten items, the total count, and the results from position (page-1)·10 on; past the end it is empty |
| Listing.EveryResultOnOnePage | mysite/app/api.py:39 | result i is item i mod 10 of page i div 10 + 1 |
| Listing.PagesAreConsecutive | mysite/app/api.py:39 | page n is the n-th run of ten results |
| Listing.NeedsRefresh | mysite/app/api.py:79-82 | the sweep selects only upper-case SCHEDULED or ACTIVE rows; a selected SCHEDULED row is one save() would no longer call scheduled; an ACTIVE row is selected exactly when save() would call it expired |
| Listing.SweepRows | mysite/app/api.py:79-83 | the sweep re-saves exactly the rows its query selects and leaves the others as they are |
| Listing.SavedRowNeverRefreshed | mysite/app/api.py:79-83 | a row written by save() never matches the sweep's query |
| Listing.SweepIdempotent | mysite/app/api.py:79-83 | after a sweep nothing needs refreshing, so a second sweep changes nothing |
| Listing.StaleScheduledStays | mysite/app/api.py:79-83 | a job saved as scheduled stays scheduled after its posting date, although save() would make it active |
| Endpoints.IndexOf | mysite/app/api.py:90 | finds a row with the id, or reports that no row has it |
| Endpoints.Inserted | mysite/app/api.py:32-33 | the inserted row carries the payload's fields under the new id, the average of its salary range and the status save() derives |
| Endpoints.Patched | mysite/app/api.py:98-100 | each field the update payload carries replaces the stored one; every other field stays |
| Endpoints.ListErrors | mysite/app/api.py:38-44 | a list request has no 422 errors exactly when the filters, order_by and page (≥ 1) are valid |
| Endpoints.JobStore.Get | mysite/app/api.py:88-91 | returns the row with the id, or 404 when there is none |
| Endpoints.JobStore.Sweep | mysite/app/api.py:79-83 | the table becomes the swept table, and it stays well formed |
| Endpoints.JobStore.CreateJob | mysite/app/api.py:26-35 | 401, then 422, then 500 for a missing expiration date or a NULL in a NOT NULL column; otherwise the saved row is appended under the next id and can be fetched |
| Endpoints.JobStore.Insert | mysite/app/api.py:32-33 | 500 for a missing expiration date or a NULL in a NOT NULL column; otherwise exactly the inserted row is appended under the next id, the table stays well formed and the row can be fetched |
| Endpoints.JobStore.UpdateJob | mysite/app/api.py:94-102 | 401, then 422, then 404; otherwise the row becomes the patched row, saved again, in place |
| Endpoints.JobStore.DeleteJob | mysite/app/api.py:105-109 | 401, then 404; otherwise the row is removed, a later get gives 404, every other row stays |
| Endpoints.JobStore.ListJobs | mysite/app/api.py:38-85 | 422 for invalid parameters; 500 for an unconvertible salary bound; otherwise the table is swept and the page holds only rows the filters and the search select |
| Endpoints.SweepKeepsWellFormed | mysite/app/api.py:79-83 | re-saving swept rows keeps ids, NOT NULL columns and averages intact |
| Endpoints.UpdateKeepsWellFormed | mysite/app/api.py:98-101 | a patched and re-saved row keeps the table well formed |
| Endpoints.DeleteKeepsWellFormed | mysite/app/api.py:108 | removing a row keeps the table well formed |
| Endpoints.AppendKeepsWellFormed | mysite/app/api.py:32-33 | an inserted row under the next id keeps the table well formed and is found by its id |

## Left out

- Floating point: the schema's `float()` parsing of salary bounds is modelled as integer parsing. The model rejects "1.5~2", "nan~nan" and "inf~inf", which `float()` accepts.
- Schemas.AcceptedHasAverage: holds only for integer bounds. In the code, fractional, nan and inf bounds pass the schema but have no average, because `compute_salary_range_avg` parses with `int()`. A create with such a range then fails with a 500 on the NOT NULL `salary_range_avg` column.
- Python's `int()` leniency (surrounding whitespace, `+`, underscores) and Unicode digits in `isdigit()` are not modelled. Lower-casing is ASCII only.
- The JWT check is a boolean parameter. Tokens, the `/pair` endpoint and users are not modelled.
- The database is a sequence of rows. Transactions, concurrency, `created_at`/`updated_at`, `Meta` options and the decimal column's `max_digits` overflow are not modelled.
- Model field validators: `salary_range_validator` is modelled as a function and `MinValueValidator(28590)` as a predicate. Nothing runs them on save, as in the code.
- Listing.SortRows: ties between equal dates keep table order. The code leaves the order of ties to the database.
- Endpoints.ListErrors: the 422 errors are listed filters first, then `order_by`, then `page`. The exact order and wording of django-ninja's error list are not modelled.
- Endpoints.JobStore.Load: a fixture is a table of rows already written through `save()`. seed_data.py and URL routing are not part of this model.
- Endpoints.JobStore.UpdateJob: the response is not checked against `JobSchema`. `JobUpdateSchema` has no maximum lengths, but `JobSchema` inherits `title` ≤ 255 and `desc` ≤ 1000. So in the code, on SQLite, a 300-character title is saved and the response then fails with a 500, where the model returns the saved row. Response checks of the other endpoints are left out too.
- Column lengths: the varchar limits (`title` 255, `salary_range` 100, `required_skills` 200) are not modelled on the stored row. SQLite does not enforce them; PostgreSQL and MySQL do. So on those databases the schema lets through rows they refuse: an expanded "v~v" of up to 201 characters, and `required_skills` of any length.
- Schemas.RawJobCreate: an absent field and an explicit JSON `null` are both `None`. For `posting_date` the code answers a `null` with a 422, because the field is a non-optional `date` with a default; the model treats it as absent and uses today.
- Logging is not modelled.
