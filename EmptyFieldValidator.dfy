/** EmptyFieldValidator: rejects a missing or empty value; white space alone is accepted. */
module EmptyFieldValidator {
  import opened Wrappers
  import opened Chars

  const DefaultErrorMessage: string := "Bu alan boş bırakılamaz."

  class EmptyFieldValidator {
    const errorMessage: string
    /** The text of the error label. */
    var errorText: string

    /** Awake: the label starts empty. */
    constructor (errorMessage: string)
      ensures this.errorMessage == errorMessage && errorText == ""
    {
      this.errorMessage := errorMessage;
      errorText := "";
    }

    /** Any string with at least one character is accepted; null and "" show the message. */
    method Validate(value: Option<string>) returns (ok: bool)
      modifies this`errorText
      ensures ok <==> value.Some? && |value.value| > 0
      ensures errorText == (if ok then "" else errorMessage)
    {
      if IsNullOrEmpty(value) {
        errorText := errorMessage;
        return false;
      }
      errorText := "";
      ok := true;
    }
  }

  /** A single space passes; null and the empty string do not. */
  method WhiteSpaceIsNotEmpty() returns (space: bool, none: bool, empty: bool)
    ensures space && !none && !empty
  {
    var validator := new EmptyFieldValidator(DefaultErrorMessage);
    space := validator.Validate(Some(" "));
    none := validator.Validate(None);
    empty := validator.Validate(Some(""));
  }
}
