/**
 * The standalone salary_range_validator: a check that either passes or
 * raises ValueError with one of three messages.
 */
module Utils {
  import opened Wrappers
  import opened Text
  import opened Models

  const EmptyMessage: string := "salary_range cannot be empty"
  const FormatMessage: string := "salary_range must be in the format 'min_salary~max_salary'"
  const NumericMessage: string := "salary_range must contain valid numeric values"

  /**
   * salary_range_validator. The sentinel slips past the piece-count check
   * but then fails int(), and every failure after that check (a bad piece,
   * or min above max) is re-raised with the one numeric-values message.
   * There is no sign check.
   */
  function SalaryRangeValidator(value: string): (r: Outcome<string>)
    ensures value == "" ==> r == Fail(EmptyMessage)
    ensures value == Negotiable ==> r == Fail(NumericMessage)
    ensures value != "" && (Count(value, '~') == 1 || value == Negotiable) ==>
              r == Pass || r == Fail(NumericMessage)
    ensures value != "" && Count(value, '~') != 1 && value != Negotiable ==> r == Fail(FormatMessage)
  {
    if value == "" then Fail(EmptyMessage)
    else
      var parts := Split(value, '~');
      if |parts| != 2 && value != Negotiable then Fail(FormatMessage)
      else if |parts| == 2 && ParseInt(parts[0]).Some? && ParseInt(parts[1]).Some? then
        if ParseInt(parts[0]).value > ParseInt(parts[1]).value then Fail(NumericMessage) else Pass
      else Fail(NumericMessage)
  }

  /** The validator passes exactly two integers around one tilde, the first not above the second. */
  lemma ValidatorPassIff(value: string)
    ensures SalaryRangeValidator(value) == Pass <==>
            exists a, b :: value == a + "~" + b && ParseInt(a).Some? && ParseInt(b).Some? &&
                           ParseInt(a).value <= ParseInt(b).value
  {
    if exists a, b :: value == a + "~" + b && ParseInt(a).Some? && ParseInt(b).Some? &&
                      ParseInt(a).value <= ParseInt(b).value {
      var a, b :| value == a + "~" + b && ParseInt(a).Some? && ParseInt(b).Some? &&
                  ParseInt(a).value <= ParseInt(b).value;
      ParsedChars(a);
      ParsedChars(b);
      SplitPair(a, b, '~');
    }
    var parts := Split(value, '~');
    if SalaryRangeValidator(value) == Pass {
      assert Join(parts[1..], '~') == parts[1];
      assert value == parts[0] + "~" + parts[1];
    }
  }

  /** Whatever the validator passes has a defined salary average. */
  lemma ValidatorPassHasAverage(value: string)
    requires SalaryRangeValidator(value) == Pass
    ensures SalaryAverage(Some(value)).Some?
  {
    ValidatorPassIff(value);
    AverageDefinedIff(value);
  }

  /** No sign check: a negative lower bound passes. */
  lemma ValidatorAcceptsNegative()
    ensures SalaryRangeValidator("-5~3") == Pass
  {
    assert "-5~3" == "-5" + "~" + "3";
    ValidatorPassIff("-5~3");
  }
}
