/** Character classes and string helpers used by the identifier helper, the auth helpers and the validators. */
module Chars {
  import opened Wrappers

  /** An ASCII capital letter (the model's reading of char.IsUpper). */
  predicate IsUpper(c: char) {
    'A' <= c <= 'Z'
  }

  /** An ASCII small letter. */
  predicate IsLower(c: char) {
    'a' <= c <= 'z'
  }

  predicate IsDigit(c: char) {
    '0' <= c <= '9'
  }

  /** char.ToLowerInvariant restricted to ASCII: capitals map to small letters, all else is kept. */
  function ToLower(c: char): (r: char)
    ensures !IsUpper(r)
    ensures IsUpper(c) ==> IsLower(r) && r as int == c as int + 32
    ensures !IsUpper(c) ==> r == c
  {
    if IsUpper(c) then (c as int + 32) as char else c
  }

  /** Lower-cases every character of a string. */
  function LowerAll(s: string): (r: string)
    ensures |r| == |s|
    ensures forall i :: 0 <= i < |s| ==> r[i] == ToLower(s[i])
  {
    if s == [] then [] else [ToLower(s[0])] + LowerAll(s[1..])
  }

  /**
   * The white-space characters of .NET (char.IsWhiteSpace, and the class \s of its regular
   * expressions): the controls U+0009 to U+000D, U+0085, and the separators of categories Zs, Zl, Zp.
   */
  predicate IsWhiteSpace(c: char) {
    || ('\U{9}' <= c <= '\U{D}')
    || c == ' ' || c == '\U{85}' || c == '\U{A0}' || c == '\U{1680}'
    || ('\U{2000}' <= c <= '\U{200A}')
    || c == '\U{2028}' || c == '\U{2029}' || c == '\U{202F}' || c == '\U{205F}' || c == '\U{3000}'
  }

  /** string.IsNullOrWhiteSpace on a non-null string. */
  predicate IsBlank(s: string) {
    forall i :: 0 <= i < |s| ==> IsWhiteSpace(s[i])
  }

  /**
   * string.Length: the number of UTF-16 code units. A character outside the Basic Multilingual
   * Plane is stored as a surrogate pair and counts twice.
   */
  function Utf16Length(s: string): (r: nat)
    ensures |s| <= r <= 2 * |s|
    ensures (forall k :: 0 <= k < |s| ==> s[k] as int <= 0xFFFF) ==> r == |s|
  {
    if s == [] then 0 else (if s[0] as int <= 0xFFFF then 1 else 2) + Utf16Length(s[1..])
  }

  /** string.IsNullOrEmpty, null being None. */
  predicate IsNullOrEmpty(s: Option<string>) {
    s.None? || s.value == ""
  }

  /** string.Trim(): drops leading and trailing white space. */
  function Trim(s: string): (r: string)
    ensures |r| <= |s|
    ensures r != [] ==> !IsWhiteSpace(r[0]) && !IsWhiteSpace(r[|r| - 1])
    decreases |s|
  {
    if s == [] then []
    else if IsWhiteSpace(s[0]) then Trim(s[1..])
    else if IsWhiteSpace(s[|s| - 1]) then Trim(s[..|s| - 1])
    else s
  }

  /**
   * Trim cuts the input at two points: what it returns is the infix s[i..j], and everything before i
   * and from j on is white space. Together with Trim's own ensures (the infix neither starts nor ends
   * with white space) this pins the result down as the input without its leading and trailing white space.
   */
  lemma {:induction false} TrimInfix(s: string) returns (i: nat, j: nat)
    ensures i <= j <= |s| && Trim(s) == s[i..j]
    ensures forall k :: 0 <= k < i ==> IsWhiteSpace(s[k])
    ensures forall k :: j <= k < |s| ==> IsWhiteSpace(s[k])
    decreases |s|, 1
  {
    if s == [] {
      i, j := 0, 0;
    } else if IsWhiteSpace(s[0]) {
      i, j := TrimInfixFront(s);
    } else if IsWhiteSpace(s[|s| - 1]) {
      i, j := TrimInfixBack(s);
    } else {
      i, j := 0, |s|;
    }
  }

  /** TrimInfix when the input starts with white space: the cut points of the rest, one further on. */
  lemma {:induction false} TrimInfixFront(s: string) returns (i: nat, j: nat)
    requires s != [] && IsWhiteSpace(s[0])
    ensures i <= j <= |s| && Trim(s) == s[i..j]
    ensures forall k :: 0 <= k < i ==> IsWhiteSpace(s[k])
    ensures forall k :: j <= k < |s| ==> IsWhiteSpace(s[k])
    decreases |s|, 0
  {
    var t := s[1..];
    var i', j' := TrimInfix(t);
    i, j := i' + 1, j' + 1;
    assert t[i'..j'] == s[i..j];
    forall k | 1 <= k < i || j <= k < |s|
      ensures IsWhiteSpace(s[k])
    {
      assert s[k] == t[k - 1];
    }
  }

  /** TrimInfix when the input ends with white space: the cut points of the input without its last character. */
  lemma {:induction false} TrimInfixBack(s: string) returns (i: nat, j: nat)
    requires s != [] && !IsWhiteSpace(s[0]) && IsWhiteSpace(s[|s| - 1])
    ensures i <= j <= |s| && Trim(s) == s[i..j]
    ensures forall k :: 0 <= k < i ==> IsWhiteSpace(s[k])
    ensures forall k :: j <= k < |s| ==> IsWhiteSpace(s[k])
    decreases |s|, 0
  {
    var t := s[..|s| - 1];
    i, j := TrimInfix(t);
    assert t[i..j] == s[i..j];
    forall k | 0 <= k < i || j <= k < |t|
      ensures IsWhiteSpace(s[k])
    {
      assert s[k] == t[k];
    }
  }
}
