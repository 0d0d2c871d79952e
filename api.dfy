/**
 * The filter translation of list_jobs: the loop that turns the present
 * JobListFilters fields into ORM lookups, what each lookup means on a row,
 * and the proof that the lookups select exactly the rows the filter
 * fields describe.
 */
module Api {
  import opened Wrappers
  import opened Text
  import opened Models
  import opened Schemas

  /**
   * The ORM lookup a filter field turns into: required_skills becomes a
   * case-insensitive contains, the salary bounds compare the average, every
   * other field is used under its own name. The tests are substring tests
   * on the field name.
   */
  function LookupName(name: string): Option<string>
  {
    if Contains(name, "required_skills") then Some(name + "__icontains")
    else if Contains(name, "salary_") then
      if Contains(name, "gte") then Some("salary_range_avg__gte")
      else if Contains(name, "lte") then Some("salary_range_avg__lte")
      else None
    else Some(name)
  }

  /** A field name containing neither marker is used as it is. */
  lemma PlainLookup(name: string)
    requires 'q' !in name && 'y' !in name
    ensures LookupName(name) == Some(name)
  {
    MissingCharNotContained(name, "required_skills", 'q');
    MissingCharNotContained(name, "salary_", 'y');
  }

  lemma SalaryLookups()
    ensures LookupName("salary_gte") == Some("salary_range_avg__gte")
    ensures LookupName("salary_lte") == Some("salary_range_avg__lte")
  {
    MissingCharNotContained("salary_gte", "required_skills", 'q');
    MissingCharNotContained("salary_lte", "required_skills", 'q');
    assert OccursAt("salary_gte", "salary_", 0);
    assert OccursAt("salary_lte", "salary_", 0);
    assert OccursAt("salary_gte", "gte", 7);
    MissingCharNotContained("salary_lte", "gte", 'g');
    assert OccursAt("salary_lte", "lte", 7);
  }

  lemma SkillsLookup()
    ensures LookupName("required_skills") == Some("required_skills__icontains")
  {
    assert OccursAt("required_skills", "required_skills", 0);
    assert "required_skills" + "__icontains" == "required_skills__icontains";
  }

  /** location and status are used under their own names. */
  lemma PlainLookups()
    ensures LookupName("location") == Some("location")
    ensures LookupName("status") == Some("status")
  {
    PlainLookup("location");
    PlainLookup("status");
  }

  /** The two bounds on a date field are used under their own names. */
  lemma BoundLookups(field: string)
    requires field == "posting_date" || field == "expiration_date"
    ensures LookupName(field + "__gte") == Some(field + "__gte")
    ensures LookupName(field + "__lte") == Some(field + "__lte")
  {
    PlainLookup(field + "__gte");
    PlainLookup(field + "__lte");
  }

  /** What each JobListFilters field becomes. */
  lemma LookupNames()
    ensures LookupName("location") == Some("location")
    ensures LookupName("salary_gte") == Some("salary_range_avg__gte")
    ensures LookupName("salary_lte") == Some("salary_range_avg__lte")
    ensures LookupName("posting_date__gte") == Some("posting_date__gte")
    ensures LookupName("posting_date__lte") == Some("posting_date__lte")
    ensures LookupName("expiration_date__gte") == Some("expiration_date__gte")
    ensures LookupName("expiration_date__lte") == Some("expiration_date__lte")
    ensures LookupName("required_skills") == Some("required_skills__icontains")
    ensures LookupName("status") == Some("status")
  {
    PlainLookups();
    BoundLookups("posting_date");
    assert "posting_date" + "__gte" == "posting_date__gte" && "posting_date" + "__lte" == "posting_date__lte";
    BoundLookups("expiration_date");
    assert "expiration_date" + "__gte" == "expiration_date__gte" && "expiration_date" + "__lte" == "expiration_date__lte";
    SalaryLookups();
    SkillsLookup();
  }

  /** The lookup of each JobListFilters field, written out. */
  const LookupTable: map<string, string> := map[
    "location" := "location",
    "salary_gte" := "salary_range_avg__gte",
    "salary_lte" := "salary_range_avg__lte",
    "posting_date__gte" := "posting_date__gte",
    "posting_date__lte" := "posting_date__lte",
    "expiration_date__gte" := "expiration_date__gte",
    "expiration_date__lte" := "expiration_date__lte",
    "required_skills" := "required_skills__icontains",
    "status" := "status"]

  /** The if/elif chain gives each JobListFilters field the lookup the table lists. */
  lemma LookupAgrees(name: string)
    requires name in FilterNames
    ensures name in LookupTable && LookupName(name) == Some(LookupTable[name])
  {
    LookupNames();
  }

  /** No two fields of the table share a lookup. */
  lemma TableInjective(a: string, b: string)
    requires a in LookupTable && b in LookupTable && a != b
    ensures LookupTable[a] != LookupTable[b]
  {
    assert "salary_range_avg__gte"[18] != "salary_range_avg__lte"[18];
    assert "posting_date__gte"[14] != "posting_date__lte"[14];
    assert "expiration_date__gte"[17] != "expiration_date__lte"[17];
  }

  /** Different JobListFilters fields never share a lookup. */
  lemma LookupInjective(a: string, b: string)
    requires a in FilterNames && b in FilterNames && a != b
    ensures LookupName(a).Some? && LookupName(b).Some? && LookupName(a) != LookupName(b)
  {
    LookupAgrees(a);
    LookupAgrees(b);
    TableInjective(a, b);
  }

  /** Every JobListFilters field has a lookup. */
  lemma LookupDefined(name: string)
    requires name in FilterNames
    ensures LookupName(name).Some?
  {
    LookupNames();
  }

  /**
   * The translation loop for a given field-to-lookup map, after it has seen
   * `items`: each field that has a lookup stores its value under it, a later
   * field overwriting an earlier one with the same lookup.
   */
  function Translate(items: seq<(string, Value)>, lookup: string -> Option<string>): (orm: map<string, Value>)
    ensures forall i :: 0 <= i < |items| && lookup(items[i].0).Some? ==> lookup(items[i].0).value in orm
    ensures forall k :: k in orm ==> exists i :: 0 <= i < |items| && lookup(items[i].0) == Some(k)
  {
    if |items| == 0 then map[]
    else
      var init := items[..|items| - 1];
      var orm := Translate(init, lookup);
      var last := items[|items| - 1];
      assert forall i :: 0 <= i < |init| ==> init[i] == items[i];
      match lookup(last.0)
      case Some(key) => orm[key := last.1]
      case None => orm
  }

  /** The orm_filters dictionary of list_jobs after its loop has seen `items`. */
  function OrmFilters(items: seq<(string, Value)>): map<string, Value>
  {
    Translate(items, LookupName)
  }

  /** Every field has a lookup and no two fields share one. */
  predicate DistinctBy(items: seq<(string, Value)>, lookup: string -> Option<string>)
  {
    && (forall i :: 0 <= i < |items| ==> lookup(items[i].0).Some?)
    && (forall i, j :: 0 <= i < j < |items| ==> lookup(items[i].0) != lookup(items[j].0))
  }

  predicate DistinctLookups(items: seq<(string, Value)>)
  {
    DistinctBy(items, LookupName)
  }

  /** The present JobListFilters fields have distinct lookups. */
  lemma FilterItemsDistinctLookups(f: ListFilters)
    ensures DistinctLookups(FilterItems(f))
  {
    var items := FilterItems(f);
    forall i | 0 <= i < |items| ensures LookupName(items[i].0).Some? {
      LookupDefined(items[i].0);
    }
    forall i, j | 0 <= i < j < |items| ensures LookupName(items[i].0) != LookupName(items[j].0) {
      LookupInjective(items[i].0, items[j].0);
    }
  }

  /** When lookups are distinct, the translation holds exactly one entry per field, under its lookup. */
  lemma {:induction false} TranslateContents(items: seq<(string, Value)>, lookup: string -> Option<string>)
    requires DistinctBy(items, lookup)
    ensures forall i :: 0 <= i < |items| ==>
              lookup(items[i].0).value in Translate(items, lookup) &&
              Translate(items, lookup)[lookup(items[i].0).value] == items[i].1
  {
    if |items| > 0 {
      var n := |items| - 1;
      var init := items[..n];
      assert forall i :: 0 <= i < n ==> init[i] == items[i];
      assert DistinctBy(init, lookup);
      TranslateContents(init, lookup);
      forall i | 0 <= i < |items|
        ensures Translate(items, lookup)[lookup(items[i].0).value] == items[i].1
      {
        if i < n {
          assert lookup(items[i].0) != lookup(items[n].0);
        }
      }
    }
  }

  /** With distinct lookups, orm_filters holds each field's value under its lookup and nothing else. */
  lemma OrmFiltersContents(items: seq<(string, Value)>)
    requires DistinctLookups(items)
    ensures forall i :: 0 <= i < |items| ==>
              LookupName(items[i].0).value in OrmFilters(items) &&
              OrmFilters(items)[LookupName(items[i].0).value] == items[i].1
    ensures forall k :: k in OrmFilters(items) ==> exists i :: 0 <= i < |items| && LookupName(items[i].0) == Some(k)
  {
    TranslateContents(items, LookupName);
  }

  /**
   * The loop of list_jobs that builds orm_filters from the present filter
   * fields.
   */
  method BuildOrmFilters(items: seq<(string, Value)>) returns (orm: map<string, Value>)
    ensures orm == OrmFilters(items)
  {
    orm := map[];
    var i := 0;
    while i < |items|
      invariant 0 <= i <= |items|
      invariant orm == OrmFilters(items[..i])
    {
      var name, value := items[i].0, items[i].1;
      var key := LookupName(name);
      if key.Some? {
        orm := orm[key.value := value];
      }
      assert items[..i + 1][..i] == items[..i];
      i := i + 1;
    }
    assert items[..i] == items;
  }

  /** How the database answers one lookup for one row; NULL matches nothing. */
  predicate MatchesLookup(row: JobRow, key: string, v: Value)
    ensures MatchesLookup(row, key, v) ==> LookupConvertible(key, v)
  {
    if key == "location" then v.Str? && row.location == Some(v.s)
    else if key == "required_skills__icontains" then
      v.Str? && row.requiredSkills.Some? && ContainsIgnoringCase(row.requiredSkills.value, v.s)
    else if key == "salary_range_avg__gte" then
      v.Str? && ParseInt(v.s).Some? && row.salaryRangeAvg.Some? && row.salaryRangeAvg.value >= ParseInt(v.s).value
    else if key == "salary_range_avg__lte" then
      v.Str? && ParseInt(v.s).Some? && row.salaryRangeAvg.Some? && row.salaryRangeAvg.value <= ParseInt(v.s).value
    else if key == "posting_date__gte" then v.Day? && row.postingDate >= v.d
    else if key == "posting_date__lte" then v.Day? && row.postingDate <= v.d
    else if key == "expiration_date__gte" then v.Day? && row.expirationDate >= v.d
    else if key == "expiration_date__lte" then v.Day? && row.expirationDate <= v.d
    else if key == "status" then v.Str? && row.status == v.s
    else false
  }

  /** filter(**orm_filters): every lookup holds (they are ANDed). */
  predicate MatchesAll(row: JobRow, orm: map<string, Value>)
  {
    forall k :: k in orm ==> MatchesLookup(row, k, orm[k])
  }

  /** The database can turn the lookup's value into the column's type (a salary bound must be a number). */
  predicate LookupConvertible(key: string, v: Value)
  {
    key == "salary_range_avg__gte" || key == "salary_range_avg__lte" ==> v.Str? && ParseInt(v.s).Some?
  }

  predicate Convertible(orm: map<string, Value>)
  {
    forall k :: k in orm ==> LookupConvertible(k, orm[k])
  }

  /**
   * What the filter fields mean, field by field: equal location and status,
   * average within the salary bounds, dates within the date bounds, skills
   * containing the given text in any case.
   */
  predicate FilterHolds(row: JobRow, f: ListFilters)
  {
    && (f.location.Some? ==> row.location == f.location)
    && (f.salaryGte.Some? ==>
          ParseInt(f.salaryGte.value).Some? && row.salaryRangeAvg.Some? &&
          row.salaryRangeAvg.value >= ParseInt(f.salaryGte.value).value)
    && (f.salaryLte.Some? ==>
          ParseInt(f.salaryLte.value).Some? && row.salaryRangeAvg.Some? &&
          row.salaryRangeAvg.value <= ParseInt(f.salaryLte.value).value)
    && (f.postingDateGte.Some? ==> row.postingDate >= f.postingDateGte.value)
    && (f.postingDateLte.Some? ==> row.postingDate <= f.postingDateLte.value)
    && (f.expirationDateGte.Some? ==> row.expirationDate >= f.expirationDateGte.value)
    && (f.expirationDateLte.Some? ==> row.expirationDate <= f.expirationDateLte.value)
    && (f.requiredSkills.Some? ==>
          row.requiredSkills.Some? && ContainsIgnoringCase(row.requiredSkills.value, f.requiredSkills.value))
    && (f.status.Some? ==> row.status == f.status.value)
  }

  /** A field of JobListFilters, looked up under its translated name. */
  predicate MatchesField(row: JobRow, name: string, v: Value)
  {
    LookupName(name).Some? && MatchesLookup(row, LookupName(name).value, v)
  }

  predicate FieldConvertible(name: string, v: Value)
  {
    LookupName(name).Some? && LookupConvertible(LookupName(name).value, v)
  }

  /** Matching every orm_filters entry is matching every present field. */
  lemma MatchesAllItems(row: JobRow, items: seq<(string, Value)>)
    requires DistinctLookups(items)
    ensures MatchesAll(row, OrmFilters(items)) <==>
            forall i :: 0 <= i < |items| ==> MatchesField(row, items[i].0, items[i].1)
  {
    OrmFiltersContents(items);
    var orm := OrmFilters(items);
    if forall i :: 0 <= i < |items| ==> MatchesField(row, items[i].0, items[i].1) {
      forall k | k in orm ensures MatchesLookup(row, k, orm[k]) {
        var i :| 0 <= i < |items| && LookupName(items[i].0) == Some(k);
      }
    }
  }

  /** Every orm_filters entry converts exactly when every present field does. */
  lemma ConvertibleItems(items: seq<(string, Value)>)
    requires DistinctLookups(items)
    ensures Convertible(OrmFilters(items)) <==>
            forall i :: 0 <= i < |items| ==> FieldConvertible(items[i].0, items[i].1)
  {
    OrmFiltersContents(items);
    var orm := OrmFilters(items);
    if forall i :: 0 <= i < |items| ==> FieldConvertible(items[i].0, items[i].1) {
      forall k | k in orm ensures LookupConvertible(k, orm[k]) {
        var i :| 0 <= i < |items| && LookupName(items[i].0) == Some(k);
      }
    }
  }

  /** p holds of every present item. */
  ghost predicate AllItems(items: seq<(string, Value)>, p: (string, Value) -> bool)
  {
    forall i :: 0 <= i < |items| ==> p(items[i].0, items[i].1)
  }

  /** p holds of every field that has a value. */
  ghost predicate AllFields(fields: seq<(string, Option<Value>)>, p: (string, Value) -> bool)
  {
    forall j :: 0 <= j < |fields| ==> fields[j].1.Some? ==> p(fields[j].0, fields[j].1.value)
  }

  /** A quantifier over the present fields is one over all fields, skipping the absent ones. */
  lemma {:induction false} PresentForall(fields: seq<(string, Option<Value>)>, p: (string, Value) -> bool)
    ensures AllItems(Present(fields), p) <==> AllFields(fields, p)
  {
    if |fields| > 0 {
      var tail := fields[1..];
      PresentForall(tail, p);
      var rest := Present(tail);
      assert AllFields(fields, p) <==>
             (fields[0].1.Some? ==> p(fields[0].0, fields[0].1.value)) && AllFields(tail, p) by {
        if AllFields(fields, p) {
          forall j | 0 <= j < |tail| && tail[j].1.Some? ensures p(tail[j].0, tail[j].1.value) {
            assert tail[j] == fields[j + 1];
          }
        }
        if (fields[0].1.Some? ==> p(fields[0].0, fields[0].1.value)) && AllFields(tail, p) {
          forall j | 0 <= j < |fields| && fields[j].1.Some? ensures p(fields[j].0, fields[j].1.value) {
            if j > 0 { assert fields[j] == tail[j - 1]; }
          }
        }
      }
      if fields[0].1.Some? {
        var items := [(fields[0].0, fields[0].1.value)] + rest;
        assert Present(fields) == items;
        assert AllItems(items, p) <==> p(fields[0].0, fields[0].1.value) && AllItems(rest, p) by {
          if AllItems(items, p) {
            forall i | 0 <= i < |rest| ensures p(rest[i].0, rest[i].1) {
              assert rest[i] == items[i + 1];
            }
          }
        }
      }
    }
  }

  /** One field of JobListFilters, present or not, passes. */
  predicate FieldHolds(row: JobRow, field: (string, Option<Value>))
  {
    field.1.Some? ==> MatchesField(row, field.0, field.1.value)
  }

  predicate FieldConverts(field: (string, Option<Value>))
  {
    field.1.Some? ==> FieldConvertible(field.0, field.1.value)
  }

  lemma TextFieldMeanings(row: JobRow, x: string)
    ensures MatchesField(row, "location", Str(x)) <==> row.location == Some(x)
    ensures MatchesField(row, "required_skills", Str(x)) <==>
            row.requiredSkills.Some? && ContainsIgnoringCase(row.requiredSkills.value, x)
    ensures MatchesField(row, "status", Str(x)) <==> row.status == x
  {
    LookupNames();
  }

  lemma TextFieldConversions(x: string)
    ensures FieldConvertible("location", Str(x)) && FieldConvertible("required_skills", Str(x))
    ensures FieldConvertible("status", Str(x))
  {
    LookupNames();
  }

  lemma SalaryFieldMeanings(row: JobRow, x: string)
    ensures MatchesField(row, "salary_gte", Str(x)) <==>
            ParseInt(x).Some? && row.salaryRangeAvg.Some? && row.salaryRangeAvg.value >= ParseInt(x).value
    ensures MatchesField(row, "salary_lte", Str(x)) <==>
            ParseInt(x).Some? && row.salaryRangeAvg.Some? && row.salaryRangeAvg.value <= ParseInt(x).value
  {
    SalaryLookups();
  }

  lemma SalaryFieldConversions(x: string)
    ensures FieldConvertible("salary_gte", Str(x)) <==> ParseInt(x).Some?
    ensures FieldConvertible("salary_lte", Str(x)) <==> ParseInt(x).Some?
  {
    SalaryLookups();
  }

  lemma DateFieldMeanings(row: JobRow, x: Date)
    ensures MatchesField(row, "posting_date__gte", Day(x)) <==> row.postingDate >= x
    ensures MatchesField(row, "posting_date__lte", Day(x)) <==> row.postingDate <= x
    ensures MatchesField(row, "expiration_date__gte", Day(x)) <==> row.expirationDate >= x
    ensures MatchesField(row, "expiration_date__lte", Day(x)) <==> row.expirationDate <= x
  {
    LookupNames();
  }

  lemma DateFieldConversions(x: Date)
    ensures FieldConvertible("posting_date__gte", Day(x)) && FieldConvertible("posting_date__lte", Day(x))
    ensures FieldConvertible("expiration_date__gte", Day(x)) && FieldConvertible("expiration_date__lte", Day(x))
  {
    LookupNames();
  }

  /** The text fields of JobListFilters: location, required_skills and status. */
  lemma TextFieldsHold(row: JobRow, f: ListFilters)
    ensures FieldHolds(row, FilterFields(f)[0]) <==> (f.location.Some? ==> row.location == f.location)
    ensures FieldHolds(row, FilterFields(f)[7]) <==> (f.requiredSkills.Some? ==>
              row.requiredSkills.Some? && ContainsIgnoringCase(row.requiredSkills.value, f.requiredSkills.value))
    ensures FieldHolds(row, FilterFields(f)[8]) <==> (f.status.Some? ==> row.status == f.status.value)
  {
    if f.location.Some? { TextFieldMeanings(row, f.location.value); }
    if f.requiredSkills.Some? { TextFieldMeanings(row, f.requiredSkills.value); }
    if f.status.Some? { TextFieldMeanings(row, f.status.value); }
  }

  /** The salary bounds of JobListFilters. */
  lemma SalaryFieldsHold(row: JobRow, f: ListFilters)
    ensures FieldHolds(row, FilterFields(f)[1]) <==> (f.salaryGte.Some? ==>
              ParseInt(f.salaryGte.value).Some? && row.salaryRangeAvg.Some? &&
              row.salaryRangeAvg.value >= ParseInt(f.salaryGte.value).value)
    ensures FieldHolds(row, FilterFields(f)[2]) <==> (f.salaryLte.Some? ==>
              ParseInt(f.salaryLte.value).Some? && row.salaryRangeAvg.Some? &&
              row.salaryRangeAvg.value <= ParseInt(f.salaryLte.value).value)
  {
    if f.salaryGte.Some? { SalaryFieldMeanings(row, f.salaryGte.value); }
    if f.salaryLte.Some? { SalaryFieldMeanings(row, f.salaryLte.value); }
  }

  /** The posting-date bounds of JobListFilters. */
  lemma PostingFieldsHold(row: JobRow, f: ListFilters)
    ensures FieldHolds(row, FilterFields(f)[3]) <==> (f.postingDateGte.Some? ==> row.postingDate >= f.postingDateGte.value)
    ensures FieldHolds(row, FilterFields(f)[4]) <==> (f.postingDateLte.Some? ==> row.postingDate <= f.postingDateLte.value)
  {
    if f.postingDateGte.Some? { DateFieldMeanings(row, f.postingDateGte.value); }
    if f.postingDateLte.Some? { DateFieldMeanings(row, f.postingDateLte.value); }
  }

  /** The expiration-date bounds of JobListFilters. */
  lemma ExpirationFieldsHold(row: JobRow, f: ListFilters)
    ensures FieldHolds(row, FilterFields(f)[5]) <==> (f.expirationDateGte.Some? ==> row.expirationDate >= f.expirationDateGte.value)
    ensures FieldHolds(row, FilterFields(f)[6]) <==> (f.expirationDateLte.Some? ==> row.expirationDate <= f.expirationDateLte.value)
  {
    if f.expirationDateGte.Some? { DateFieldMeanings(row, f.expirationDateGte.value); }
    if f.expirationDateLte.Some? { DateFieldMeanings(row, f.expirationDateLte.value); }
  }

  /** The text fields of JobListFilters always convert. */
  lemma TextFieldsConvert(f: ListFilters)
    ensures FieldConverts(FilterFields(f)[0]) && FieldConverts(FilterFields(f)[7]) && FieldConverts(FilterFields(f)[8])
  {
    if f.location.Some? { TextFieldConversions(f.location.value); }
    if f.requiredSkills.Some? { TextFieldConversions(f.requiredSkills.value); }
    if f.status.Some? { TextFieldConversions(f.status.value); }
  }

  /** A salary bound of JobListFilters converts exactly when it is an integer. */
  lemma SalaryFieldsConvert(f: ListFilters)
    ensures FieldConverts(FilterFields(f)[1]) <==> (f.salaryGte.Some? ==> ParseInt(f.salaryGte.value).Some?)
    ensures FieldConverts(FilterFields(f)[2]) <==> (f.salaryLte.Some? ==> ParseInt(f.salaryLte.value).Some?)
  {
    if f.salaryGte.Some? { SalaryFieldConversions(f.salaryGte.value); }
    if f.salaryLte.Some? { SalaryFieldConversions(f.salaryLte.value); }
  }

  /** The date bounds of JobListFilters always convert. */
  lemma DateFieldsConvert(f: ListFilters)
    ensures FieldConverts(FilterFields(f)[3]) && FieldConverts(FilterFields(f)[4])
    ensures FieldConverts(FilterFields(f)[5]) && FieldConverts(FilterFields(f)[6])
  {
    if f.postingDateGte.Some? { DateFieldConversions(f.postingDateGte.value); }
    if f.postingDateLte.Some? { DateFieldConversions(f.postingDateLte.value); }
    if f.expirationDateGte.Some? { DateFieldConversions(f.expirationDateGte.value); }
    if f.expirationDateLte.Some? { DateFieldConversions(f.expirationDateLte.value); }
  }

  /** Field by field, the nine fields of JobListFilters pass exactly when FilterHolds does. */
  lemma FieldsHoldIff(row: JobRow, f: ListFilters)
    ensures (forall j :: 0 <= j < |FilterFields(f)| ==> FieldHolds(row, FilterFields(f)[j])) <==> FilterHolds(row, f)
  {
    var fields := FilterFields(f);
    TextFieldsHold(row, f);
    SalaryFieldsHold(row, f);
    PostingFieldsHold(row, f);
    ExpirationFieldsHold(row, f);
    if FilterHolds(row, f) {
      forall j | 0 <= j < |fields| ensures FieldHolds(row, fields[j]) {
        assert j in {0, 1, 2, 3, 4, 5, 6, 7, 8};
      }
    }
  }

  /** Field by field, the nine fields of JobListFilters convert exactly when each salary bound is an integer. */
  lemma FieldsConvertIff(f: ListFilters)
    ensures (forall j :: 0 <= j < |FilterFields(f)| ==> FieldConverts(FilterFields(f)[j])) <==>
            (f.salaryGte.Some? ==> ParseInt(f.salaryGte.value).Some?) &&
            (f.salaryLte.Some? ==> ParseInt(f.salaryLte.value).Some?)
  {
    var fields := FilterFields(f);
    TextFieldsConvert(f);
    SalaryFieldsConvert(f);
    DateFieldsConvert(f);
    if (f.salaryGte.Some? ==> ParseInt(f.salaryGte.value).Some?) &&
       (f.salaryLte.Some? ==> ParseInt(f.salaryLte.value).Some?) {
      forall j | 0 <= j < |fields| ensures FieldConverts(fields[j]) {
        assert j in {0, 1, 2, 3, 4, 5, 6, 7, 8};
      }
    }
  }

  /** Matching every present field is passing every field, present or absent. */
  lemma PresentMatches(row: JobRow, fields: seq<(string, Option<Value>)>)
    ensures (forall i :: 0 <= i < |Present(fields)| ==> MatchesField(row, Present(fields)[i].0, Present(fields)[i].1)) <==>
            (forall j :: 0 <= j < |fields| ==> FieldHolds(row, fields[j]))
  {
    var matches := (n, v) => MatchesField(row, n, v);
    PresentForall(fields, matches);
  }

  /** Converting every present field is converting every field, present or absent. */
  lemma PresentConverts(fields: seq<(string, Option<Value>)>)
    ensures (forall i :: 0 <= i < |Present(fields)| ==> FieldConvertible(Present(fields)[i].0, Present(fields)[i].1)) <==>
            (forall j :: 0 <= j < |fields| ==> FieldConverts(fields[j]))
  {
    var converts := (n, v) => FieldConvertible(n, v);
    PresentForall(fields, converts);
  }

  /** The lookups built from validated filters can be converted exactly when each salary bound is an integer. */
  lemma FilterConversion(f: ListFilters)
    ensures Convertible(OrmFilters(FilterItems(f))) <==>
            (f.salaryGte.Some? ==> ParseInt(f.salaryGte.value).Some?) &&
            (f.salaryLte.Some? ==> ParseInt(f.salaryLte.value).Some?)
  {
    FilterItemsDistinctLookups(f);
    ConvertibleItems(FilterItems(f));
    PresentConverts(FilterFields(f));
    FieldsConvertIff(f);
  }

  /** The lookups built from validated filters select exactly the rows FilterHolds describes. */
  lemma FilterTranslation(row: JobRow, f: ListFilters)
    ensures MatchesAll(row, OrmFilters(FilterItems(f))) <==> FilterHolds(row, f)
  {
    FilterItemsDistinctLookups(f);
    MatchesAllItems(row, FilterItems(f));
    PresentMatches(row, FilterFields(f));
    FieldsHoldIff(row, f);
  }
}
