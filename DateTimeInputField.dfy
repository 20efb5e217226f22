/**
 * DateTimeInputField: a read-only field holding an optional date and time, validated against
 * optional inclusive bounds, with an error and a success indicator shown only while a value is
 * present. Dates are integer tick counts.
 */
module DateTimeInputField {
  import opened Wrappers

  type DateTime = int

  /** The field's events, in the order they are raised. */
  datatype DateEvent = ValueChanged(value: Option<DateTime>) | ValidationChanged(valid: bool)

  /** Inclusive bounds; a missing bound constrains nothing. */
  predicate IsWithinRange(dt: DateTime, minDate: Option<DateTime>, maxDate: Option<DateTime>) {
    !(minDate.Some? && dt < minDate.value) && !(maxDate.Some? && dt > maxDate.value)
  }

  /** The validity rule: an optional field may be empty, a required one must hold a value; either must be in range. */
  predicate ValidityOf(optional: bool, value: Option<DateTime>, minDate: Option<DateTime>, maxDate: Option<DateTime>) {
    if optional then value.None? || IsWithinRange(value.value, minDate, maxDate)
    else value.Some? && IsWithinRange(value.value, minDate, maxDate)
  }

  /** The bounds themselves are in range and their neighbours outside; no bounds admit everything. */
  lemma RangeIsInclusive(lo: DateTime, hi: DateTime, dt: DateTime)
    requires lo <= hi
    ensures IsWithinRange(lo, Some(lo), Some(hi)) && IsWithinRange(hi, Some(lo), Some(hi))
    ensures !IsWithinRange(lo - 1, Some(lo), Some(hi)) && !IsWithinRange(hi + 1, Some(lo), Some(hi))
    ensures IsWithinRange(dt, None, None)
  {
  }

  /** Optional and required fields judge a present value alike and differ only on an empty one. */
  lemma OptionalDiffersOnlyWhenEmpty(value: Option<DateTime>, minDate: Option<DateTime>, maxDate: Option<DateTime>)
    ensures value.Some? ==> ValidityOf(true, value, minDate, maxDate) == ValidityOf(false, value, minDate, maxDate)
    ensures value.None? ==> ValidityOf(true, value, minDate, maxDate) && !ValidityOf(false, value, minDate, maxDate)
  {
  }

  class DateTimeInputField {
    const showValidation: bool
    const optional: bool
    var value: Option<DateTime>
    var isValid: bool
    var minDate: Option<DateTime>
    var maxDate: Option<DateTime>
    var errorActive: bool
    var successActive: bool
    var events: seq<DateEvent>

    /** Awake: no value, validity as optional, both indicators off. */
    constructor (showValidation: bool, optional: bool)
      ensures this.showValidation == showValidation && this.optional == optional
      ensures value == None && isValid == optional && minDate == None && maxDate == None
      ensures !errorActive && !successActive && events == []
    {
      this.showValidation := showValidation;
      this.optional := optional;
      value := None;
      isValid := optional;
      minDate := None;
      maxDate := None;
      events := [];
      new;
      UpdateValidationUI();
    }

    function IsValid(): bool
      reads this
    {
      isValid
    }

    /** The indicators agree with the validity, the show flag and the presence of a value. */
    predicate IndicatorsShown()
      reads this
    {
      && errorActive == (!isValid && showValidation && value.Some?)
      && successActive == (isValid && showValidation && value.Some?)
    }

    method SetMinDate(min: Option<DateTime>)
      modifies this`minDate
      ensures minDate == min
    {
      minDate := min;
    }

    method SetMaxDate(max: Option<DateTime>)
      modifies this`maxDate
      ensures maxDate == max
    {
      maxDate := max;
    }

    method UpdateValidationUI()
      modifies this`errorActive, this`successActive
      ensures IndicatorsShown()
    {
      errorActive := !isValid && showValidation && value.Some?;
      successActive := isValid && showValidation && value.Some?;
    }

    /** Recomputes the validity; the validation event is raised only when it flips. */
    method Validate()
      modifies this`isValid, this`errorActive, this`successActive, this`events
      ensures isValid == ValidityOf(optional, value, minDate, maxDate)
      ensures events == old(events) + (if isValid != old(isValid) then [ValidationChanged(isValid)] else [])
      ensures IndicatorsShown()
    {
      var wasValid := isValid;
      isValid := if optional then value.None? || IsWithinRange(value.value, minDate, maxDate)
                 else value.Some? && IsWithinRange(value.value, minDate, maxDate);
      UpdateValidationUI();
      if wasValid != isValid {
        events := events + [ValidationChanged(isValid)];
      }
    }

    /**
     * The same value changes nothing. A new value is stored and validated, and then the value
     * event is raised once with it, after any validation event.
     */
    method SetValue(v: Option<DateTime>)
      modifies this`value, this`isValid, this`errorActive, this`successActive, this`events
      ensures v == old(value) ==> unchanged(this)
      ensures v != old(value) ==> value == v && isValid == ValidityOf(optional, v, minDate, maxDate)
      ensures v != old(value) ==>
                events == old(events) + (if isValid != old(isValid) then [ValidationChanged(isValid)] else [])
                          + [ValueChanged(v)]
      ensures v != old(value) ==> IndicatorsShown()
    {
      if value == v {
        return;
      }
      value := v;
      Validate();
      events := events + [ValueChanged(value)];
    }

    /** Stores the value and refreshes the indicators, leaving the validity and the events alone. */
    method SetValueWithoutNotify(v: Option<DateTime>)
      modifies this`value, this`errorActive, this`successActive
      ensures value == v && IndicatorsShown()
    {
      value := v;
      UpdateValidationUI();
    }

    method Clear()
      modifies this`value, this`isValid, this`errorActive, this`successActive, this`events
      ensures old(value).None? ==> unchanged(this)
      ensures old(value).Some? ==> value == None && isValid == optional
      ensures old(value).Some? ==>
                events == old(events) + (if optional != old(isValid) then [ValidationChanged(optional)] else [])
                          + [ValueChanged(None)]
      ensures old(value).Some? ==> IndicatorsShown()
    {
      SetValue(None);
    }
  }

  /** Clearing a required field makes it invalid, yet both indicators go off as it has no value. */
  method ClearRequiredField(d: DateTime) returns (field: DateTimeInputField)
    ensures !field.IsValid() && !field.errorActive && !field.successActive
    ensures field.events == [ValidationChanged(true), ValueChanged(Some(d)), ValidationChanged(false), ValueChanged(None)]
  {
    field := new DateTimeInputField(true, false);
    field.SetValue(Some(d));
    field.Clear();
  }

  /** Setting a value outside the bounds without notifying keeps the old validity and shows it. */
  method SilentOutOfRange(d: DateTime) returns (field: DateTimeInputField)
    ensures field.IsValid() && !IsWithinRange(d - 1, field.minDate, field.maxDate)
    ensures field.successActive && field.events == [ValidationChanged(true), ValueChanged(Some(d))]
  {
    field := new DateTimeInputField(true, false);
    field.SetMinDate(Some(d));
    field.SetValue(Some(d));
    field.SetValueWithoutNotify(Some(d - 1));
  }
}
