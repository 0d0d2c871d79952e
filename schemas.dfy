/**
 * The request schemas: field length bounds, the salary-range and skills
 * validators of the create schema, the update schema, the list filters
 * with their salary check, and the order_by enumeration. A rejected
 * request is a list of field errors (answered with status 422).
 */
module Schemas {
  import opened Wrappers
  import opened Text
  import opened Models

  const SalaryFormatMessage: string := "salary_range must be in the format \"min-max\""
  const SalaryNumericMessage: string := "salary_range must contain valid numeric values"
  const SkillsMessage: string := "required_skills cannot exceed 10 skills"
  const SalaryFilterMessage: string := "salary_gte and salary_lte must be valid numbers"
  const MaxSkills: nat := 10

  datatype ErrorKind = Missing | TooShort(min: nat) | TooLong(max: nat) | Invalid(message: string)

  datatype FieldError = FieldError(field: string, kind: ErrorKind)

  /**
   * validate_salary_range of the create schema. Empty and the sentinel pass
   * unchanged; a lone digit string v becomes "v~v"; two pieces pass unchanged
   * when both are numbers, neither negative, the first not above the second.
   */
  function ValidateSalaryRange(value: Option<string>): (r: Result<Option<string>, string>)
    ensures value.None? || value == Some("") || value == Some(Negotiable) ==> r == Ok(value)
    ensures r.Err? ==> r.error in {SalaryFormatMessage, SalaryNumericMessage}
  {
    if value.None? || value.value == "" then Ok(value)
    else if value.value == Negotiable then Ok(value)
    else
      var v := value.value;
      var parts := Split(v, '~');
      if |parts| != 2 then
        if IsDigits(v) then Ok(Some(v + "~" + v)) else Err(SalaryFormatMessage)
      else if ParseInt(parts[0]).Some? && ParseInt(parts[1]).Some? then
        var lo, hi := ParseInt(parts[0]).value, ParseInt(parts[1]).value;
        if lo < 0 || hi < 0 then Err(SalaryNumericMessage)
        else if lo > hi then Err(SalaryNumericMessage)
        else Ok(value)
      else Err(SalaryNumericMessage)
  }

  /** A single number v is stored as "v~v", whose average is v again. */
  lemma ExpandSingleRoundTrip(v: string)
    requires IsDigits(v)
    ensures ValidateSalaryRange(Some(v)) == Ok(Some(v + "~" + v))
    ensures SalaryAverage(Some(v + "~" + v)) == Some(DigitsValue(v))
  {
    assert ParseInt(v) == Some(DigitsValue(v));
    ParsedChars(v);
    SplitNoSep(v, '~');
    assert v != Negotiable by { assert !IsDigit(Negotiable[0]); }
    AverageOfRange(v, v);
  }

  /** With exactly one tilde, the value passes unchanged iff both pieces are numbers with 0 <= min <= max. */
  lemma PairAcceptedIff(a: string, b: string)
    requires '~' !in a && '~' !in b
    ensures var r := ValidateSalaryRange(Some(a + "~" + b));
            (r == Ok(Some(a + "~" + b)) <==>
               ParseInt(a).Some? && ParseInt(b).Some? && 0 <= ParseInt(a).value <= ParseInt(b).value) &&
            (r.Err? <==> !(ParseInt(a).Some? && ParseInt(b).Some? && 0 <= ParseInt(a).value <= ParseInt(b).value)) &&
            (r.Err? ==> r.error == SalaryNumericMessage)
  {
    SplitPair(a, b, '~');
    assert (a + "~" + b)[|a|] == '~';
    assert '~' !in Negotiable;
  }

  /**
   * Every branch of the validator on a value that is neither empty nor the
   * sentinel: without a tilde it passes exactly when it is a digit string;
   * with one tilde exactly when both pieces are numbers with
   * 0 <= min <= max; with more it fails. A failure carries the format
   * message exactly when the tilde count is not one.
   */
  lemma SalaryRangeCases(v: string)
    requires v != "" && v != Negotiable
    ensures var r := ValidateSalaryRange(Some(v));
            var parts := Split(v, '~');
            && (Count(v, '~') == 0 ==> (r.Ok? <==> IsDigits(v)))
            && (Count(v, '~') == 1 ==>
                  (r.Ok? <==> ParseInt(parts[0]).Some? && ParseInt(parts[1]).Some? &&
                              0 <= ParseInt(parts[0]).value <= ParseInt(parts[1]).value))
            && (Count(v, '~') >= 2 ==> r.Err?)
            && (r.Err? ==> (r.error == SalaryFormatMessage <==> Count(v, '~') != 1))
  {
    if Count(v, '~') >= 2 {
      ManyPiecesRejected(v);
    }
  }

  /** Three or more pieces never pass. */
  lemma ManyPiecesRejected(v: string)
    requires Count(v, '~') >= 2
    ensures ValidateSalaryRange(Some(v)) == Err(SalaryFormatMessage)
  {
    var parts := Split(v, '~');
    assert v != "" && v != Negotiable;
    assert !IsDigits(v) by {
      if IsDigits(v) { ParsedChars(v); SplitNoSep(v, '~'); }
    }
  }

  /** Every non-empty value the schema lets through has a defined, non-negative average. */
  lemma AcceptedHasAverage(value: string, stored: string)
    requires value != ""
    requires ValidateSalaryRange(Some(value)) == Ok(Some(stored))
    ensures SalaryAverage(Some(stored)).Some? && SalaryAverage(Some(stored)).value >= 0
  {
    if value == Negotiable {
    } else {
      var parts := Split(value, '~');
      if |parts| != 2 {
        ExpandSingleRoundTrip(value);
      } else {
        assert Join(parts[1..], '~') == parts[1];
        assert value == parts[0] + "~" + parts[1];
        AverageOfRange(parts[0], parts[1]);
      }
    }
  }

  /** validate_required_skills: more than ten comma-separated pieces (empty ones count) is an error. */
  function ValidateRequiredSkills(value: Option<string>): (r: Result<Option<string>, string>)
    ensures r.Err? <==> value.Some? && Count(value.value, ',') >= MaxSkills
    ensures r.Ok? ==> r.value == value
    ensures r.Err? ==> r.error == SkillsMessage
  {
    if value.Some? && value.value != "" && |Split(value.value, ',')| > MaxSkills then Err(SkillsMessage)
    else Ok(value)
  }

  /** The length constraint of one string field. */
  function LengthErrors(field: string, s: string, min: nat, max: Option<nat>): (errs: seq<FieldError>)
    ensures errs == [] <==> min <= |s| && (max.None? || |s| <= max.value)
    ensures |errs| <= 1
  {
    if |s| < min then [FieldError(field, TooShort(min))]
    else if max.Some? && |s| > max.value then [FieldError(field, TooLong(max.value))]
    else []
  }

  /** A required string field: missing, or its length constraint. */
  function RequiredErrors(field: string, s: Option<string>, min: nat, max: nat): seq<FieldError>
  {
    if s.None? then [FieldError(field, Missing)] else LengthErrors(field, s.value, min, Some(max))
  }

  /** An optional string field: nothing when absent, else its length constraint. */
  function OptionalErrors(field: string, s: Option<string>, min: nat, max: Option<nat>): seq<FieldError>
  {
    if s.None? then [] else LengthErrors(field, s.value, min, max)
  }

  /** The create payload as it arrives; None marks an absent field. */
  datatype RawJobCreate = RawJobCreate(
    title: Option<string>,
    desc: Option<string>,
    location: Option<string>,
    salaryRange: Option<string>,
    companyName: Option<string>,
    postingDate: Option<Date>,
    expirationDate: Option<Date>,
    requiredSkills: Option<string>)

  /** A validated create payload (JobCreateSchema). */
  datatype JobCreate = JobCreate(
    title: string,
    desc: Option<string>,
    location: Option<string>,
    salaryRange: Option<string>,
    companyName: string,
    postingDate: Date,
    expirationDate: Option<Date>,
    requiredSkills: Option<string>)

  /**
   * The salary_range field: the length bound is checked on the raw value,
   * and the validator runs only when that bound holds.
   */
  function SalaryRangeErrors(s: Option<string>): seq<FieldError>
  {
    if s.Some? && |s.value| > 100 then [FieldError("salary_range", TooLong(100))]
    else match ValidateSalaryRange(s)
         case Ok(_) => []
         case Err(m) => [FieldError("salary_range", Invalid(m))]
  }

  function SkillsErrors(s: Option<string>): seq<FieldError>
  {
    match ValidateRequiredSkills(s)
    case Ok(_) => []
    case Err(m) => [FieldError("required_skills", Invalid(m))]
  }

  /** All field errors of a create payload, in field order. */
  function CreateErrors(raw: RawJobCreate): seq<FieldError>
  {
    RequiredErrors("title", raw.title, 3, 255)
    + OptionalErrors("desc", raw.desc, 10, Some(1000))
    + OptionalErrors("location", raw.location, 0, Some(255))
    + SalaryRangeErrors(raw.salaryRange)
    + RequiredErrors("company_name", raw.companyName, 1, 255)
    + SkillsErrors(raw.requiredSkills)
  }

  /**
   * JobCreateSchema: every error is collected; when there is none the
   * posting date defaults to today and the salary range is the validator's
   * (possibly expanded) value.
   */
  function ValidateCreate(raw: RawJobCreate, today: Date): (r: Result<JobCreate, seq<FieldError>>)
    ensures r.Err? ==> |r.error| > 0
  {
    var errs := CreateErrors(raw);
    if errs != [] then Err(errs)
    else
      Ok(JobCreate(raw.title.value, raw.desc, raw.location,
                   ValidateSalaryRange(raw.salaryRange).value, raw.companyName.value,
                   if raw.postingDate.Some? then raw.postingDate.value else today,
                   raw.expirationDate, raw.requiredSkills))
  }

  /** A payload is accepted exactly when every field bound and both validators hold. */
  lemma CreateAcceptedIff(raw: RawJobCreate, today: Date)
    ensures ValidateCreate(raw, today).Ok? <==>
            && raw.title.Some? && 3 <= |raw.title.value| <= 255
            && (raw.desc.Some? ==> 10 <= |raw.desc.value| <= 1000)
            && (raw.location.Some? ==> |raw.location.value| <= 255)
            && (raw.salaryRange.Some? ==> |raw.salaryRange.value| <= 100)
            && ValidateSalaryRange(raw.salaryRange).Ok?
            && raw.companyName.Some? && 1 <= |raw.companyName.value| <= 255
            && (raw.requiredSkills.Some? ==> Count(raw.requiredSkills.value, ',') < MaxSkills)
    ensures ValidateCreate(raw, today).Ok? ==>
            var p := ValidateCreate(raw, today).value;
            p.title == raw.title.value && p.companyName == raw.companyName.value &&
            p.postingDate == (if raw.postingDate.Some? then raw.postingDate.value else today) &&
            p.desc == raw.desc && p.location == raw.location && p.expirationDate == raw.expirationDate &&
            p.requiredSkills == raw.requiredSkills && p.salaryRange == ValidateSalaryRange(raw.salaryRange).value &&
            (raw.salaryRange.None? ==> p.salaryRange.None?) &&
            (p.salaryRange.Some? && p.salaryRange.value != "" ==>
               SalaryAverage(p.salaryRange).Some? && SalaryAverage(p.salaryRange).value >= 0)
  {
    var r := ValidateCreate(raw, today);
    if r.Ok? {
      var p := r.value;
      if p.salaryRange.Some? && p.salaryRange.value != "" {
        var s := raw.salaryRange;
        if s.None? || s.value == "" {
        } else {
          AcceptedHasAverage(s.value, p.salaryRange.value);
        }
      }
    }
  }

  /** JobUpdateSchema: two optional fields with minimum lengths and no maximum. */
  datatype JobUpdate = JobUpdate(title: Option<string>, desc: Option<string>)

  function ValidateUpdate(raw: JobUpdate): (r: Result<JobUpdate, seq<FieldError>>)
    ensures r.Ok? <==> (raw.title.Some? ==> |raw.title.value| >= 3) && (raw.desc.Some? ==> |raw.desc.value| >= 10)
    ensures r.Ok? ==> r.value == raw
  {
    var errs := OptionalErrors("title", raw.title, 3, None) + OptionalErrors("desc", raw.desc, 10, None);
    if errs == [] then Ok(raw) else Err(errs)
  }

  /** The list query parameters as they arrive; unknown parameters land in `unknown`. */
  datatype RawListFilters = RawListFilters(
    location: Option<string>,
    salaryGte: Option<string>,
    salaryLte: Option<string>,
    postingDateGte: Option<Date>,
    postingDateLte: Option<Date>,
    expirationDateGte: Option<Date>,
    expirationDateLte: Option<Date>,
    requiredSkills: Option<string>,
    status: Option<string>,
    unknown: map<string, string>)

  /** Validated JobListFilters. */
  datatype ListFilters = ListFilters(
    location: Option<string>,
    salaryGte: Option<string>,
    salaryLte: Option<string>,
    postingDateGte: Option<Date>,
    postingDateLte: Option<Date>,
    expirationDateGte: Option<Date>,
    expirationDateLte: Option<Date>,
    requiredSkills: Option<string>,
    status: Option<string>)

  /** validate_salary: a non-empty bound must be an integer; the empty string passes. */
  function ValidateSalaryFilter(value: Option<string>): (r: Result<Option<string>, string>)
    ensures r.Err? <==> value.Some? && value.value != "" && ParseInt(value.value).None?
    ensures r.Ok? ==> r.value == value
  {
    if value.Some? && value.value != "" && ParseInt(value.value).None? then Err(SalaryFilterMessage)
    else Ok(value)
  }

  function SalaryFilterErrors(field: string, s: Option<string>): seq<FieldError>
  {
    if s.Some? && |s.value| > 100 then [FieldError(field, TooLong(100))]
    else match ValidateSalaryFilter(s)
         case Ok(_) => []
         case Err(m) => [FieldError(field, Invalid(m))]
  }

  function FilterErrors(raw: RawListFilters): seq<FieldError>
  {
    OptionalErrors("location", raw.location, 1, Some(255))
    + SalaryFilterErrors("salary_gte", raw.salaryGte)
    + SalaryFilterErrors("salary_lte", raw.salaryLte)
    + OptionalErrors("required_skills", raw.requiredSkills, 0, Some(100))
    + OptionalErrors("status", raw.status, 0, Some(10))
  }

  /** JobListFilters: unknown parameters (title, company_name, ...) are dropped without error. */
  function ValidateFilters(raw: RawListFilters): (r: Result<ListFilters, seq<FieldError>>)
    ensures r.Err? ==> |r.error| > 0
    ensures r.Ok? <==>
            && (raw.location.Some? ==> 1 <= |raw.location.value| <= 255)
            && (raw.salaryGte.Some? ==> |raw.salaryGte.value| <= 100 && (raw.salaryGte.value == "" || ParseInt(raw.salaryGte.value).Some?))
            && (raw.salaryLte.Some? ==> |raw.salaryLte.value| <= 100 && (raw.salaryLte.value == "" || ParseInt(raw.salaryLte.value).Some?))
            && (raw.requiredSkills.Some? ==> |raw.requiredSkills.value| <= 100)
            && (raw.status.Some? ==> |raw.status.value| <= 10)
  {
    var errs := FilterErrors(raw);
    if errs != [] then Err(errs)
    else Ok(ListFilters(raw.location, raw.salaryGte, raw.salaryLte, raw.postingDateGte, raw.postingDateLte,
                        raw.expirationDateGte, raw.expirationDateLte, raw.requiredSkills, raw.status))
  }

  /** Unknown query parameters make no difference: a title or company_name parameter filters nothing. */
  lemma FiltersIgnoreUnknown(raw: RawListFilters, unknown: map<string, string>)
    ensures ValidateFilters(raw.(unknown := unknown)) == ValidateFilters(raw)
  {
  }

  /** A value handed to the ORM: text or a date. */
  datatype Value = Str(s: string) | Day(d: Date)

  /** Every field of JobListFilters under its name, in declaration order, with its value if any. */
  function FilterFields(f: ListFilters): seq<(string, Option<Value>)>
  {
    [("location", if f.location.Some? then Some(Str(f.location.value)) else None),
     ("salary_gte", if f.salaryGte.Some? then Some(Str(f.salaryGte.value)) else None),
     ("salary_lte", if f.salaryLte.Some? then Some(Str(f.salaryLte.value)) else None),
     ("posting_date__gte", if f.postingDateGte.Some? then Some(Day(f.postingDateGte.value)) else None),
     ("posting_date__lte", if f.postingDateLte.Some? then Some(Day(f.postingDateLte.value)) else None),
     ("expiration_date__gte", if f.expirationDateGte.Some? then Some(Day(f.expirationDateGte.value)) else None),
     ("expiration_date__lte", if f.expirationDateLte.Some? then Some(Day(f.expirationDateLte.value)) else None),
     ("required_skills", if f.requiredSkills.Some? then Some(Str(f.requiredSkills.value)) else None),
     ("status", if f.status.Some? then Some(Str(f.status.value)) else None)]
  }

  /** The fields whose value is not None, in the same order. */
  function Present(fields: seq<(string, Option<Value>)>): (items: seq<(string, Value)>)
    ensures forall i :: 0 <= i < |items| ==> (items[i].0, Some(items[i].1)) in fields
    ensures forall name, v :: (name, Some(v)) in fields ==> (name, v) in items
  {
    if |fields| == 0 then []
    else
      var rest := Present(fields[1..]);
      if fields[0].1.Some? then [(fields[0].0, fields[0].1.value)] + rest else rest
  }

  /** Field names are pairwise different. */
  predicate DistinctNames<V>(items: seq<(string, V)>)
  {
    forall i, j :: 0 <= i < j < |items| ==> items[i].0 != items[j].0
  }

  /** Dropping absent fields keeps the names distinct. */
  lemma {:induction false} PresentDistinct(fields: seq<(string, Option<Value>)>)
    requires DistinctNames(fields)
    ensures DistinctNames(Present(fields))
  {
    if |fields| > 0 {
      PresentDistinct(fields[1..]);
      var rest := Present(fields[1..]);
      forall i | 0 <= i < |rest| ensures rest[i].0 != fields[0].0 {
        var k :| 0 <= k < |fields[1..]| && fields[1..][k] == (rest[i].0, Some(rest[i].1));
        assert fields[k + 1].0 == rest[i].0;
      }
    }
  }

  /**
   * filters.dict(exclude_none=True).items(): the present parameters under
   * their field names, in declaration order; an empty string is present.
   */
  function FilterItems(f: ListFilters): (items: seq<(string, Value)>)
    ensures DistinctNames(items)
    ensures forall i :: 0 <= i < |items| ==> items[i].0 in FilterNames
    ensures forall name, v :: (name, v) in items <==> (name, Some(v)) in FilterFields(f)
  {
    var fields := FilterFields(f);
    assert DistinctNames(fields);
    PresentDistinct(fields);
    Present(fields)
  }

  /** The field names of JobListFilters. */
  const FilterNames: set<string> := {
    "location", "salary_gte", "salary_lte", "posting_date__gte", "posting_date__lte",
    "expiration_date__gte", "expiration_date__lte", "required_skills", "status"}

  /** OrderByEnum. */
  datatype OrderBy = PostingDateAsc | PostingDateDesc | ExpirationDateAsc | ExpirationDateDesc
  {
    function Value(): string
    {
      match this
      case PostingDateAsc => "posting_date"
      case PostingDateDesc => "-posting_date"
      case ExpirationDateAsc => "expiration_date"
      case ExpirationDateDesc => "-expiration_date"
    }
  }

  /** Reading an order_by parameter: one of the four values, anything else an enum error. */
  function ParseOrderBy(s: string): (r: Result<OrderBy, FieldError>)
    ensures r.Ok? <==> s in {"posting_date", "-posting_date", "expiration_date", "-expiration_date"}
    ensures r.Ok? ==> r.value.Value() == s
  {
    if s == "posting_date" then Ok(PostingDateAsc)
    else if s == "-posting_date" then Ok(PostingDateDesc)
    else if s == "expiration_date" then Ok(ExpirationDateAsc)
    else if s == "-expiration_date" then Ok(ExpirationDateDesc)
    else Err(FieldError("order_by", Invalid("Input should be 'posting_date', '-posting_date', 'expiration_date' or '-expiration_date'")))
  }

  /** Reading back an enum member's value gives the member. */
  lemma ParseOrderByValue(o: OrderBy)
    ensures ParseOrderBy(o.Value()) == Ok(o)
  {
  }

  /** Nothing enforces the salary floor: the schema accepts "0~0" and save() stores its average 0. */
  lemma FloorNotEnforced(row: JobRow, today: Date)
    requires row.salaryRange == Some("0~0")
    ensures ValidateSalaryRange(Some("0~0")) == Ok(Some("0~0"))
    ensures Saved(row, today).salaryRangeAvg == Some(0) && !MeetsFloor(Saved(row, today).salaryRangeAvg)
  {
    PairAcceptedIff("0", "0");
    AverageOfRange("0", "0");
    assert "0" + "~" + "0" == "0~0";
  }

  /** The two salary validators disagree: on the sentinel, on a negative bound, and on a lone number. */
  lemma ValidatorsDisagree()
    ensures ValidateSalaryRange(Some(Negotiable)).Ok?
    ensures ValidateSalaryRange(Some("-5~3")).Err?
    ensures ValidateSalaryRange(Some("7")) == Ok(Some("7~7"))
  {
    PairAcceptedIff("-5", "3");
    assert "-5" + "~" + "3" == "-5~3";
    ExpandSingleRoundTrip("7");
    assert "7" + "~" + "7" == "7~7";
  }
}
