/**
 * The Job model: its stored fields, the salary average computed from the
 * free-form salary range, the three-way status rule, and save(), which
 * overwrites both derived fields on every call.
 */
module Models {
  import opened Wrappers
  import opened Text

  /** A calendar day, counted from an arbitrary epoch; days compare as dates do. */
  type Date = int

  /** The "negotiable" salary sentinel, the two characters 面議. */
  const Negotiable: string := "\U{9762}\U{8B70}"
  /** The average recorded for a negotiable salary. */
  const NegotiableAverage: int := 40000
  /** Floor of the MinValueValidator on salary_range_avg; save() never runs it. */
  const MinimumWage: int := 28590

  /** MinValueValidator(28590) on salary_range_avg: an average that is present is at least the floor. */
  predicate MeetsFloor(avg: Option<int>)
  {
    avg.Some? ==> avg.value >= MinimumWage
  }

  /** The values of the JobStatus choices. */
  const ChoiceActive: string := "ACTIVE"
  const ChoiceExpired: string := "EXPIRED"
  const ChoiceScheduled: string := "SCHEDULED"

  /** The values save() actually writes into status. */
  const Expired: string := "expired"
  const Scheduled: string := "scheduled"
  const Active: string := "active"

  /** A stored job row. None stands for SQL NULL / Python None. */
  datatype JobRow = JobRow(
    id: int,
    title: string,
    desc: Option<string>,
    location: Option<string>,
    salaryRange: Option<string>,
    salaryRangeAvg: Option<int>,
    companyName: string,
    postingDate: Date,
    expirationDate: Date,
    requiredSkills: Option<string>,
    status: string)

  /**
   * compute_salary_range_avg: the sentinel gives 40000, "min~max" with two
   * integer pieces gives their floored mean, anything else gives None.
   */
  function SalaryAverage(salaryRange: Option<string>): (avg: Option<int>)
    ensures salaryRange == Some(Negotiable) ==> avg == Some(NegotiableAverage)
    ensures salaryRange.None? || salaryRange == Some("") ==> avg.None?
  {
    if salaryRange.None? || salaryRange.value == "" then None
    else
      var value := salaryRange.value;
      var parts := Split(value, '~');
      if value == Negotiable then Some(NegotiableAverage)
      else if |parts| == 2 && ParseInt(parts[0]).Some? && ParseInt(parts[1]).Some? then
        Some((ParseInt(parts[0]).value + ParseInt(parts[1]).value) / 2)
      else None
  }

  /** "a~b" with integer pieces averages to the floor of their mean; no order between them is required. */
  lemma AverageOfRange(a: string, b: string)
    requires ParseInt(a).Some? && ParseInt(b).Some?
    ensures var avg := SalaryAverage(Some(a + "~" + b));
            var lo, hi := ParseInt(a).value, ParseInt(b).value;
            avg == Some((lo + hi) / 2) && 2 * avg.value <= lo + hi < 2 * avg.value + 2
  {
    ParsedChars(a);
    ParsedChars(b);
    SplitPair(a, b, '~');
    assert (a + "~" + b)[|a|] == '~';
    assert '~' !in Negotiable;
  }

  /** The average does not depend on which side of the tilde holds the smaller number. */
  lemma AverageSymmetric(a: string, b: string)
    requires ParseInt(a).Some? && ParseInt(b).Some?
    ensures SalaryAverage(Some(a + "~" + b)) == SalaryAverage(Some(b + "~" + a))
  {
    AverageOfRange(a, b);
    AverageOfRange(b, a);
  }

  /** The average is defined exactly for the sentinel and for two integers around one tilde. */
  lemma AverageDefinedIff(value: string)
    ensures SalaryAverage(Some(value)).Some? <==>
            value == Negotiable ||
            exists a, b :: value == a + "~" + b && ParseInt(a).Some? && ParseInt(b).Some?
  {
    if exists a, b :: value == a + "~" + b && ParseInt(a).Some? && ParseInt(b).Some? {
      var a, b :| value == a + "~" + b && ParseInt(a).Some? && ParseInt(b).Some?;
      AverageOfRange(a, b);
    }
    var parts := Split(value, '~');
    if value != Negotiable && value != "" && |parts| == 2 && ParseInt(parts[0]).Some? && ParseInt(parts[1]).Some? {
      assert Join(parts[1..], '~') == parts[1];
      assert value == parts[0] + "~" + parts[1];
    }
  }

  /**
   * The status rule of save(): expiry is checked first, so a job whose
   * expiration date has passed is expired whatever its posting date.
   */
  function DeriveStatus(postingDate: Date, expirationDate: Date, today: Date): (status: string)
    ensures status == Expired <==> expirationDate < today
    ensures status == Scheduled <==> today <= expirationDate && today < postingDate
    ensures status == Active <==> today <= expirationDate && postingDate <= today
  {
    if expirationDate < today then Expired
    else if postingDate > today then Scheduled
    else Active
  }

  /** save() writes lower-case statuses, none of which is one of the upper-case JobStatus choices. */
  lemma DerivedStatusIsNoChoice(postingDate: Date, expirationDate: Date, today: Date)
    ensures DeriveStatus(postingDate, expirationDate, today) !in {ChoiceActive, ChoiceExpired, ChoiceScheduled}
  {
  }

  /** The row after save(): both derived fields recomputed, every other field as it was. */
  function Saved(row: JobRow, today: Date): (saved: JobRow)
    ensures saved.salaryRangeAvg == SalaryAverage(row.salaryRange)
    ensures saved.status == DeriveStatus(row.postingDate, row.expirationDate, today)
    ensures saved.(salaryRangeAvg := row.salaryRangeAvg, status := row.status) == row
  {
    row.(salaryRangeAvg := SalaryAverage(row.salaryRange),
         status := DeriveStatus(row.postingDate, row.expirationDate, today))
  }

  /** Saving twice on the same day gives the same row as saving once. */
  lemma SaveIdempotent(row: JobRow, today: Date)
    ensures Saved(Saved(row, today), today) == Saved(row, today)
  {
  }

  /**
   * The columns declared without null=True reject None when the row is
   * written: desc, location, salary_range, salary_range_avg and
   * required_skills.
   */
  predicate Storable(row: JobRow)
  {
    row.desc.Some? && row.location.Some? && row.salaryRange.Some? &&
    row.salaryRangeAvg.Some? && row.requiredSkills.Some?
  }

  /** A Django model instance of Job, whose save() updates its own fields. */
  class Job {
    var id: Option<int>
    var title: string
    var desc: Option<string>
    var location: Option<string>
    var salaryRange: Option<string>
    var salaryRangeAvg: Option<int>
    var companyName: string
    var postingDate: Date
    var expirationDate: Option<Date>
    var requiredSkills: Option<string>
    var status: string

    /** The row this instance is written as; it needs an id and an expiration date. */
    function Row(): JobRow
      reads this
      requires id.Some? && expirationDate.Some?
    {
      JobRow(id.value, title, desc, location, salaryRange, salaryRangeAvg, companyName,
             postingDate, expirationDate.value, requiredSkills, status)
    }

    /** Job(**fields): an unsaved instance; salary_range_avg and status take their field defaults. */
    constructor (title: string, desc: Option<string>, location: Option<string>,
                 salaryRange: Option<string>, companyName: string, postingDate: Date,
                 expirationDate: Option<Date>, requiredSkills: Option<string>)
      ensures this.id.None?
      ensures this.title == title && this.desc == desc && this.location == location
      ensures this.salaryRange == salaryRange && this.companyName == companyName
      ensures this.postingDate == postingDate && this.expirationDate == expirationDate
      ensures this.requiredSkills == requiredSkills
      ensures this.salaryRangeAvg == Some(0) && this.status == ChoiceActive
    {
      this.id := None;
      this.title := title;
      this.desc := desc;
      this.location := location;
      this.salaryRange := salaryRange;
      this.salaryRangeAvg := Some(0);
      this.companyName := companyName;
      this.postingDate := postingDate;
      this.expirationDate := expirationDate;
      this.requiredSkills := requiredSkills;
      this.status := ChoiceActive;
    }

    /** An instance loaded from a stored row. */
    constructor FromRow(row: JobRow)
      ensures id.Some? && expirationDate.Some? && Row() == row
    {
      id := Some(row.id);
      title := row.title;
      desc := row.desc;
      location := row.location;
      salaryRange := row.salaryRange;
      salaryRangeAvg := row.salaryRangeAvg;
      companyName := row.companyName;
      postingDate := row.postingDate;
      expirationDate := Some(row.expirationDate);
      requiredSkills := row.requiredSkills;
      status := row.status;
    }

    /** setattr(job, name, value) for the two fields an update payload carries. */
    method SetAttr(name: string, value: string)
      requires name == "title" || name == "desc"
      modifies this
      ensures title == (if name == "title" then value else old(title))
      ensures desc == (if name == "desc" then Some(value) else old(desc))
      ensures id == old(id) && location == old(location) && salaryRange == old(salaryRange)
      ensures salaryRangeAvg == old(salaryRangeAvg) && companyName == old(companyName)
      ensures postingDate == old(postingDate) && expirationDate == old(expirationDate)
      ensures requiredSkills == old(requiredSkills) && status == old(status)
    {
      if name == "title" {
        title := value;
      } else {
        desc := Some(value);
      }
    }

    /**
     * save(): recompute salary_range_avg and status, unconditionally, and
     * touch nothing else. Writing the row is the store's part.
     */
    method Save(today: Date)
      requires expirationDate.Some?
      modifies this
      ensures id == old(id) && title == old(title) && desc == old(desc)
      ensures location == old(location) && salaryRange == old(salaryRange)
      ensures companyName == old(companyName) && postingDate == old(postingDate)
      ensures expirationDate == old(expirationDate) && requiredSkills == old(requiredSkills)
      ensures salaryRangeAvg == SalaryAverage(salaryRange)
      ensures status == DeriveStatus(postingDate, expirationDate.value, today)
      ensures id.Some? ==> Row() == Saved(old(Row()), today)
    {
      var avg := SalaryAverage(salaryRange);
      salaryRangeAvg := avg;
      if expirationDate.value < today {
        status := Expired;
      } else if postingDate > today {
        status := Scheduled;
      } else {
        status := Active;
      }
    }
  }
}
