/**
 * MailValidator: accepts an email address when it matches the pattern [^@\s]+@[^@\s]+\.[^@\s]+
 * of the .NET regular expression engine and passes the extra length and edge checks. The error
 * text of the attached label is set on rejection and cleared on acceptance.
 */
module MailValidator {
  import opened Wrappers
  import opened Chars
  import Lists

  const DefaultInvalidMailMessage: string := "Geçerli bir e-posta adresi giriniz."
  const DefaultUsedErrorMessage: string := "Bu e-posta adresi zaten kullanılmış."
  const MaxEmailLength := 254

  /** A run of the class [^@\s]: no '@' and no white space. */
  predicate Plain(s: string) {
    forall k :: 0 <= k < |s| ==> s[k] != '@' && !IsWhiteSpace(s[k])
  }

  /** `t` splits at an '@' at i and a '.' at j into three non-empty plain runs. */
  predicate SplitsAt(t: string, i: int, j: int) {
    && 0 < i < |t| && i + 1 < j < |t| - 1
    && t[i] == '@' && t[j] == '.'
    && Plain(t[..i]) && Plain(t[i + 1..j]) && Plain(t[j + 1..])
  }

  /** The whole of `t` is local@domain.tld, each part a non-empty plain run. */
  predicate PatternBody(t: string) {
    exists i, j | 0 < i < |t| && 0 < j < |t| :: SplitsAt(t, i, j)
  }

  /**
   * Regex.IsMatch with the anchors ^ and $. The .NET `$` also matches just before a final
   * line feed, so the pattern may be followed by one '\n'.
   */
  predicate RegexIsMatch(email: string) {
    PatternBody(email)
    || (|email| > 0 && email[|email| - 1] == '\n' && PatternBody(email[..|email| - 1]))
  }

  /** string.IsNullOrWhiteSpace. */
  predicate IsNullOrWhiteSpace(s: Option<string>) {
    s.None? || IsBlank(s.value)
  }

  /** IsValidEmail: the pattern, the length cap, the edge characters and the '@' and '.' checks. */
  predicate IsValidEmail(email: string) {
    && !IsBlank(email)
    && RegexIsMatch(email)
    && Utf16Length(email) <= MaxEmailLength
    && email[0] != '.' && email[0] != '@'
    && email[|email| - 1] != '.' && email[|email| - 1] != '@'
    && (var at := Lists.IndexOf(email, '@');
        0 < at < |email| - 1 && '.' in email[at + 1..])
  }

  lemma PlainAt(s: string, lo: int, hi: int, k: int)
    requires 0 <= lo <= k < hi <= |s| && Plain(s[lo..hi])
    ensures s[k] != '@' && !IsWhiteSpace(s[k])
  {
    assert s[lo..hi][k - lo] == s[k];
  }

  /** What a split says about each position: one '@' at i and no white space anywhere. */
  lemma SplitShape(t: string, i: int, j: int)
    requires SplitsAt(t, i, j)
    ensures forall k :: 0 <= k < |t| && k != i ==> t[k] != '@'
    ensures forall k :: 0 <= k < |t| ==> !IsWhiteSpace(t[k])
    ensures Lists.IndexOf(t, '@') == i
  {
    forall k | 0 <= k < |t| && k != i
      ensures t[k] != '@' && !IsWhiteSpace(t[k])
    {
      if k < i {
        PlainAt(t, 0, i, k);
      } else if k < j {
        PlainAt(t, i + 1, j, k);
      } else if k > j {
        PlainAt(t, j + 1, |t|, k);
      }
    }
    assert '@' !in t[..i];
  }

  /**
   * What a pattern match says about the whole input, the optional final line feed included:
   * one '@' at `at`, inside, a '.' after it, and no white space before the last position.
   */
  lemma MatchShape(email: string) returns (at: int, dot: int)
    requires RegexIsMatch(email)
    ensures 0 < at < dot < |email| - 1 && email[at] == '@' && email[dot] == '.'
    ensures forall k :: 0 <= k < |email| && k != at ==> email[k] != '@'
    ensures forall k :: 0 <= k < |email| - 1 ==> !IsWhiteSpace(email[k])
    ensures IsWhiteSpace(email[|email| - 1]) ==> email[|email| - 1] == '\n'
    ensures email[0] != '@' && email[|email| - 1] != '@'
    ensures Lists.IndexOf(email, '@') == at
  {
    var t := if PatternBody(email) then email else email[..|email| - 1];
    var i, j :| SplitsAt(t, i, j);
    SplitShape(t, i, j);
    assert forall k :: 0 <= k < |t| ==> email[k] == t[k];
    assert |t| < |email| ==> |t| == |email| - 1 && email[|email| - 1] == '\n';
    at, dot := i, j;
    assert '@' !in email[..i] by {
      assert email[..i] == t[..i];
    }
  }

  /** An input the pattern matches passes the blank check, the '@' edge checks and the domain check. */
  lemma MatchPassesAtChecks(email: string)
    requires RegexIsMatch(email)
    ensures !IsBlank(email)
    ensures email[0] != '@' && email[|email| - 1] != '@'
    ensures 0 < Lists.IndexOf(email, '@') < |email| - 1
    ensures '.' in email[Lists.IndexOf(email, '@') + 1..]
  {
    var at, dot := MatchShape(email);
    assert !IsWhiteSpace(email[0]);
    assert email[at + 1..][dot - at - 1] == '.';
  }

  /**
   * Only the pattern, the length cap and the '.' edge checks decide: the blank check, the '@'
   * edge checks and the '@' and domain checks never reject a string the pattern matched.
   */
  lemma ExtraChecksRedundant(email: string)
    ensures IsValidEmail(email) <==>
              |email| > 0 && RegexIsMatch(email) && Utf16Length(email) <= MaxEmailLength
              && email[0] != '.' && email[|email| - 1] != '.'
  {
    if |email| > 0 && RegexIsMatch(email) {
      MatchPassesAtChecks(email);
    }
  }

  /**
   * Every accepted address has exactly one '@', not at the start, a domain holding a '.', and no
   * white space, except that a single trailing line feed gets through the `$` anchor.
   */
  lemma AcceptedShape(email: string)
    requires IsValidEmail(email)
    ensures 0 < Lists.IndexOf(email, '@') < |email| - 1
    ensures forall k :: 0 <= k < |email| && email[k] == '@' ==> k == Lists.IndexOf(email, '@')
    ensures '.' in email[Lists.IndexOf(email, '@') + 1..]
    ensures forall k :: 0 <= k < |email| - 1 ==> !IsWhiteSpace(email[k])
    ensures IsWhiteSpace(email[|email| - 1]) ==> email[|email| - 1] == '\n'
  {
    var at, dot := MatchShape(email);
  }

  /** The address followed by a line feed is accepted: "a@b.c\n" passes every check. */
  lemma TrailingLineFeedAccepted()
    ensures IsValidEmail("a@b.c\n")
  {
    var t := "a@b.c";
    assert t[..1] == "a" && t[2..3] == "b" && t[4..] == "c";
    assert SplitsAt(t, 1, 3);
    assert "a@b.c\n"[..5] == t;
    ExtraChecksRedundant("a@b.c\n");
  }

  class MailValidator {
    const invalidMailMessage: string
    const usedErrorMessage: string
    /** The text of the error label. */
    var errorText: string

    /** Awake: the label starts empty. */
    constructor (invalidMailMessage: string, usedErrorMessage: string)
      ensures this.invalidMailMessage == invalidMailMessage && this.usedErrorMessage == usedErrorMessage
      ensures errorText == ""
    {
      this.invalidMailMessage := invalidMailMessage;
      this.usedErrorMessage := usedErrorMessage;
      errorText := "";
    }

    /** Accepts exactly the valid addresses; the label shows the invalid-mail message otherwise. */
    method Validate(value: Option<string>) returns (ok: bool)
      modifies this`errorText
      ensures ok <==> value.Some? && IsValidEmail(value.value)
      ensures errorText == (if ok then "" else invalidMailMessage)
    {
      if IsNullOrWhiteSpace(value) {
        errorText := invalidMailMessage;
        return false;
      }
      if !IsValidEmail(value.value) {
        errorText := invalidMailMessage;
        return false;
      }
      errorText := "";
      ok := true;
    }
  }
}
