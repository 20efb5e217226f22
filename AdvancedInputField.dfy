/**
 * AdvancedInputField: a text field that validates its value through the validator on the same
 * object, raises input and validation events, and toggles an error and a success indicator.
 * PasswordMatchValidator lives here as well: it compares a value with another field's current
 * value, and it hooks that field's input event.
 */
module AdvancedInputField {
  import opened Wrappers
  import Chars
  import MailValidator
  import PasswordValidator
  import EmptyFieldValidator

  /** The field's events, in the order they are raised. */
  datatype FieldEvent = InputChanged(value: string) | ValidationChanged(valid: bool)

  /** The NullReferenceException Validate throws when the field's object has no validator. */
  datatype FieldError = NullReference

  /** The validator component found on the field's object, if any. */
  datatype FieldValidator =
    | NoValidator
    | Mail(mail: MailValidator.MailValidator)
    | Password(password: PasswordValidator.PasswordValidator)
    | Empty(empty: EmptyFieldValidator.EmptyFieldValidator)
    | Match(matcher: PasswordMatchValidator)

  /** Whether the validator accepts a value, read in the current state. */
  predicate Accepts(validator: FieldValidator, value: string)
    reads if validator.Match? then {validator.matcher.passwordField} else {}
  {
    match validator
    case NoValidator => true
    case Mail(_) => MailValidator.IsValidEmail(value)
    case Password(p) => Chars.Utf16Length(value) >= p.minLength
    case Empty(_) => |value| > 0
    case Match(m) => value == m.passwordField.value
  }

  class PasswordMatchValidator {
    const passwordField: AdvancedInputField
    const errorMessage: string
    /** The text of the error label. */
    var errorText: string

    /** Awake: clears the label and hooks the password field's input event. */
    constructor (passwordField: AdvancedInputField, errorMessage: string)
      modifies passwordField`hooks
      ensures this.passwordField == passwordField && this.errorMessage == errorMessage
      ensures errorText == ""
      ensures passwordField.hooks == old(passwordField.hooks) + [this]
    {
      this.passwordField := passwordField;
      this.errorMessage := errorMessage;
      errorText := "";
      new;
      passwordField.hooks := passwordField.hooks + [this];
    }

    /** Accepted exactly when the value equals the password field's current value. */
    method Validate(value: string) returns (ok: bool)
      modifies this`errorText
      ensures ok <==> value == passwordField.value
      ensures errorText == (if ok then "" else errorMessage)
    {
      if value != passwordField.value {
        errorText := errorMessage;
        return false;
      }
      errorText := "";
      ok := true;
    }
  }

  class AdvancedInputField {
    const autoValidate: bool
    const showValidation: bool
    const optional: bool
    const validator: FieldValidator
    var value: string
    var isValid: bool
    var errorActive: bool
    var successActive: bool
    var events: seq<FieldEvent>
    /** The match validators subscribed to this field's input event. */
    var hooks: seq<PasswordMatchValidator>

    /** Every subscribed match validator compares against this field. */
    predicate Valid()
      reads this
    {
      forall h :: h in hooks ==> h.passwordField == this
    }

    /** Awake: both indicators off, validity as optional, an empty value. */
    constructor (autoValidate: bool, showValidation: bool, optional: bool, validator: FieldValidator)
      ensures this.autoValidate == autoValidate && this.showValidation == showValidation
      ensures this.optional == optional && this.validator == validator
      ensures !errorActive && !successActive && isValid == optional && value == ""
      ensures events == [] && hooks == [] && Valid()
    {
      this.autoValidate := autoValidate;
      this.showValidation := showValidation;
      this.optional := optional;
      this.validator := validator;
      errorActive := false;
      successActive := false;
      isValid := optional;
      value := "";
      events := [];
      hooks := [];
    }

    /** The public IsValid: the error indicator's active state. */
    function IsValid(): bool
      reads this
    {
      errorActive
    }

    /** What IsValid evidently means: the validity of the current value. */
    function Validity(): (r: bool)
      reads this
      ensures IndicatorsShown() && showValidation ==> (r <==> successActive) && (r <==> !errorActive)
    {
      isValid
    }

    /** The indicators agree with the validity and the show flag. */
    predicate IndicatorsShown()
      reads this
    {
      errorActive == (!isValid && showValidation) && successActive == (isValid && showValidation)
    }

    function ValidatorObjects(): set<object> {
      match validator
      case NoValidator => {}
      case Mail(m) => {m}
      case Password(p) => {p}
      case Empty(e) => {e}
      case Match(m) => {m}
    }

    /** Calls the validator, which updates its own label. */
    method RunValidator(v: string) returns (ok: bool)
      requires validator != NoValidator
      modifies ValidatorObjects()
      ensures ok == Accepts(validator, v)
    {
      match validator {
        case Mail(m) =>
          ok := m.Validate(Some(v));
        case Password(p) =>
          ok := p.Validate(v);
        case Empty(e) =>
          ok := e.Validate(Some(v));
        case Match(m) =>
          ok := m.Validate(v);
      }
    }

    method UpdateValidationUI()
      modifies this`errorActive, this`successActive
      ensures IndicatorsShown()
    {
      errorActive := !isValid && showValidation;
      successActive := isValid && showValidation;
    }

    /** Raises the input event: each subscribed match validator revalidates with the new value. */
    method NotifyInputChanged(v: string)
      requires Valid() && value == v
      modifies hooks
      ensures forall h :: h in hooks ==> h.errorText == ""
    {
      var i := 0;
      while i < |hooks|
        invariant 0 <= i <= |hooks|
        invariant forall k :: 0 <= k < i ==> hooks[k].errorText == ""
      {
        var ok := hooks[i].Validate(v);
        i := i + 1;
      }
    }

    /**
     * The input handler: stores the value, validates it when auto-validation is on and there is a
     * validator (else it is valid), then raises the input event and the validation event,
     * whether or not the validity changed, and updates the indicators. Every match validator
     * hooked to this field compares the value with itself and so clears its label.
     */
    method OnValueChanged(v: string)
      requires Valid()
      modifies this, ValidatorObjects(), hooks
      ensures Valid() && hooks == old(hooks)
      ensures value == v
      ensures isValid == (if autoValidate && validator != NoValidator then Accepts(validator, v) else true)
      ensures events == old(events) + [InputChanged(v), ValidationChanged(isValid)]
      ensures IndicatorsShown()
      ensures forall h :: h in hooks ==> h.errorText == ""
    {
      value := v;
      var ok: bool;
      if autoValidate && validator != NoValidator {
        ok := RunValidator(v);
      } else {
        ok := true;
      }
      isValid := ok;
      events := events + [InputChanged(v)];
      NotifyInputChanged(v);
      events := events + [ValidationChanged(isValid)];
      UpdateValidationUI();
    }

    /**
     * Revalidates the current value; the validation event is raised only when validity flips.
     * Without a validator the call dereferences null and throws before changing anything.
     */
    method Validate() returns (r: Result<(), FieldError>)
      modifies this`isValid, this`events, this`errorActive, this`successActive, ValidatorObjects()
      ensures validator == NoValidator ==> r == Err(NullReference)
      ensures validator == NoValidator ==> isValid == old(isValid) && events == old(events)
      ensures validator == NoValidator ==> errorActive == old(errorActive) && successActive == old(successActive)
      ensures validator != NoValidator ==> r == Ok(())
      ensures validator != NoValidator ==> isValid == Accepts(validator, value)
      ensures validator != NoValidator ==>
        events == old(events) + (if isValid != old(isValid) then [ValidationChanged(isValid)] else [])
      ensures validator != NoValidator ==> IndicatorsShown()
    {
      if validator == NoValidator {
        return Err(NullReference);
      }
      r := Ok(());
      var ok := RunValidator(value);
      if ok != isValid {
        isValid := ok;
        events := events + [ValidationChanged(isValid)];
      }
      UpdateValidationUI();
    }
  }

  /**
   * IsValid reports the opposite of the validity: a field without a validator that shows its
   * validation is valid after any input, yet IsValid is false.
   */
  method IsValidInverted(v: string) returns (field: AdvancedInputField)
    ensures field.Validity() && !field.IsValid()
  {
    field := new AdvancedInputField(true, true, false, NoValidator);
    field.OnValueChanged(v);
  }

  /** The validity as intended: after any input on such a field it is true. */
  method ValidityAfterInput(v: string) returns (field: AdvancedInputField)
    ensures field.Validity() && field.successActive && !field.errorActive
  {
    field := new AdvancedInputField(true, true, false, NoValidator);
    field.OnValueChanged(v);
  }

  /** Typing the password first and then the same confirmation makes the confirmation valid. */
  method ConfirmAfterPassword(text: string) returns (password: AdvancedInputField, confirm: AdvancedInputField)
    ensures password.value == text && confirm.value == text
    ensures confirm.Validity() && confirm.successActive
  {
    password := new AdvancedInputField(true, true, false, NoValidator);
    var matcher := new PasswordMatchValidator(password, "");
    confirm := new AdvancedInputField(true, true, false, Match(matcher));
    password.OnValueChanged(text);
    confirm.OnValueChanged(text);
  }

  /**
   * Typing the confirmation first and then a non-empty password: the hook on the password field
   * clears the match validator's label, but the confirmation field is not revalidated and stays
   * invalid although both values are now equal.
   */
  method PasswordAfterConfirm(text: string, message: string) returns (password: AdvancedInputField, confirm: AdvancedInputField)
    requires text != ""
    ensures password.value == text && confirm.value == text
    ensures confirm.validator.Match? && confirm.validator.matcher.errorText == ""
    ensures !confirm.Validity() && confirm.errorActive
  {
    password := new AdvancedInputField(true, true, false, NoValidator);
    var matcher := new PasswordMatchValidator(password, message);
    confirm := new AdvancedInputField(true, true, false, Match(matcher));
    confirm.OnValueChanged(text);
    password.OnValueChanged(text);
  }
}
