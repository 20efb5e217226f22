/** PasswordValidator: a minimum-length check that drives an error label. */
module PasswordValidator {
  import opened Chars

  const DefaultMinLength := 4

  class PasswordValidator {
    const minLength: int
    const errorMessage: string
    /** The text of the error label. */
    var errorText: string

    /** Awake: the label starts empty. */
    constructor (minLength: int, errorMessage: string)
      ensures this.minLength == minLength && this.errorMessage == errorMessage
      ensures errorText == ""
    {
      this.minLength := minLength;
      this.errorMessage := errorMessage;
      errorText := "";
    }

    /** A value of the minimum length or longer is accepted; a shorter one shows the message. */
    method Validate(value: string) returns (ok: bool)
      modifies this`errorText
      ensures ok <==> Utf16Length(value) >= minLength
      ensures errorText == (if ok then "" else errorMessage)
    {
      if Utf16Length(value) < minLength {
        errorText := errorMessage;
        return false;
      }
      errorText := "";
      ok := true;
    }
  }

  /**
   * With the default minimum, four characters pass and three do not; two characters outside the
   * Basic Multilingual Plane are four UTF-16 code units and pass as well.
   */
  method DefaultBoundary() returns (four: bool, three: bool, pairs: bool)
    ensures four && !three && pairs
  {
    var validator := new PasswordValidator(DefaultMinLength, "");
    four := validator.Validate("1234");
    three := validator.Validate("123");
    pairs := validator.Validate("\U{1F600}\U{1F600}");
  }
}
