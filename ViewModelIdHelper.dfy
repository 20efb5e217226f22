/**
 * Screen identifiers derived from view-model type names: a trailing "ViewModel" is
 * stripped and the rest is turned from PascalCase into kebab-case.
 */
module ViewModelIdHelper {
  import opened Chars

  const Suffix: string := "ViewModel"

  /** string.EndsWith with ordinal, case-sensitive comparison. */
  predicate EndsWith(s: string, suffix: string) {
    |suffix| <= |s| && s[|s| - |suffix|..] == suffix
  }

  /** The type name with one trailing "ViewModel" removed, if it ends with it. */
  function StripSuffix(name: string): (r: string)
    ensures EndsWith(name, Suffix) ==> r + Suffix == name
    ensures !EndsWith(name, Suffix) ==> r == name
  {
    if EndsWith(name, Suffix) then name[..|name| - |Suffix|] else name
  }

  /** The screen id of a view-model type with the given name. */
  function GetId(typeName: string): string {
    ToKebabCase(StripSuffix(typeName))
  }

  /** What the loop appends for position i: a '-' before an upper-case letter past index 0, then the lowered letter. */
  function Piece(s: string, i: nat): string
    requires i < |s|
  {
    (if IsUpper(s[i]) && i > 0 then "-" else "") + [ToLower(s[i])]
  }

  /** The builder's contents after the loop has handled positions 0 .. n-1. */
  function Kebab(s: string, n: nat): string
    requires n <= |s|
  {
    if n == 0 then "" else Kebab(s, n - 1) + Piece(s, n - 1)
  }

  function ToKebabCase(input: string): string {
    if input == "" then input else Kebab(input, |input|)
  }

  /** Number of upper-case letters among positions 1 .. n-1. */
  function UpperAfterFirst(s: string, n: nat): nat
    requires n <= |s|
  {
    if n <= 1 then 0 else UpperAfterFirst(s, n - 1) + (if IsUpper(s[n - 1]) then 1 else 0)
  }

  /** Removes every '-' from a string. */
  function RemoveDashes(s: string): string {
    if s == [] then [] else (if s[0] == '-' then [] else [s[0]]) + RemoveDashes(s[1..])
  }

  lemma {:induction false} RemoveDashesAppend(a: string, b: string)
    ensures RemoveDashes(a + b) == RemoveDashes(a) + RemoveDashes(b)
  {
    if a != [] {
      assert (a + b)[0] == a[0];
      assert (a + b)[1..] == a[1..] + b;
      RemoveDashesAppend(a[1..], b);
    } else {
      assert a + b == b;
    }
  }

  lemma {:induction false} KebabLength(s: string, n: nat)
    requires n <= |s|
    ensures |Kebab(s, n)| == n + UpperAfterFirst(s, n)
  {
    if n > 0 {
      KebabLength(s, n - 1);
    }
  }

  lemma {:induction false} KebabPrefix(s: string, n: nat, m: nat)
    requires n <= m <= |s|
    ensures Kebab(s, n) <= Kebab(s, m)
  {
    if n < m {
      KebabPrefix(s, n, m - 1);
    }
  }

  /** The output length is the input length plus one per upper-case letter past index 0. */
  lemma ToKebabCaseLength(s: string)
    ensures |ToKebabCase(s)| == |s| + (if s == "" then 0 else UpperAfterFirst(s, |s|))
  {
    if s != "" {
      KebabLength(s, |s|);
    }
  }

  /**
   * Where each input character lands: position i appears lowered at index
   * i + UpperAfterFirst(s, i + 1), preceded by a '-' exactly when it is upper case and i > 0.
   */
  lemma KebabAt(s: string, i: nat)
    requires i < |s|
    ensures var r := ToKebabCase(s);
      && i + UpperAfterFirst(s, i + 1) < |r|
      && r[i + UpperAfterFirst(s, i + 1)] == ToLower(s[i])
      && (IsUpper(s[i]) && i > 0 ==> r[i + UpperAfterFirst(s, i)] == '-')
  {
    KebabLength(s, i);
    KebabLength(s, i + 1);
    KebabLength(s, |s|);
    KebabPrefix(s, i + 1, |s|);
  }

  lemma {:induction false} KebabHasNoUpper(s: string, n: nat)
    requires n <= |s|
    ensures forall k :: 0 <= k < |Kebab(s, n)| ==> !IsUpper(Kebab(s, n)[k])
  {
    if n > 0 {
      KebabHasNoUpper(s, n - 1);
    }
  }

  /** The output has no upper-case letter. */
  lemma ToKebabCaseLowerOnly(s: string)
    ensures forall k :: 0 <= k < |ToKebabCase(s)| ==> !IsUpper(ToKebabCase(s)[k])
  {
    if s != "" {
      KebabHasNoUpper(s, |s|);
    }
  }

  /** The output starts with the lowered first character, so never with '-' unless the input does. */
  lemma ToKebabCaseFirst(s: string)
    requires s != ""
    ensures ToKebabCase(s) != "" && ToKebabCase(s)[0] == ToLower(s[0])
    ensures s[0] != '-' ==> ToKebabCase(s)[0] != '-'
  {
    KebabAt(s, 0);
  }

  lemma {:induction false} KebabUndash(s: string, n: nat)
    requires n <= |s|
    requires forall k :: 0 <= k < |s| ==> s[k] != '-'
    ensures RemoveDashes(Kebab(s, n)) == LowerAll(s[..n])
  {
    if n > 0 {
      KebabUndash(s, n - 1);
      PieceUndash(s, n - 1);
      RemoveDashesAppend(Kebab(s, n - 1), Piece(s, n - 1));
      LowerAllSnoc(s, n);
    }
  }

  lemma PieceUndash(s: string, i: nat)
    requires i < |s| && s[i] != '-'
    ensures RemoveDashes(Piece(s, i)) == [ToLower(s[i])]
  {
    assert RemoveDashes([ToLower(s[i])]) == [ToLower(s[i])];
    RemoveDashesAppend(if IsUpper(s[i]) && i > 0 then "-" else "", [ToLower(s[i])]);
  }

  lemma LowerAllSnoc(s: string, n: nat)
    requires 0 < n <= |s|
    ensures LowerAll(s[..n]) == LowerAll(s[..n - 1]) + [ToLower(s[n - 1])]
  {
  }

  /**
   * Inverse view: for a name without '-', deleting the inserted dashes gives back the
   * lower-cased name, so the conversion loses only letter case.
   */
  lemma ToKebabCaseUndash(s: string)
    requires forall k :: 0 <= k < |s| ==> s[k] != '-'
    ensures RemoveDashes(ToKebabCase(s)) == LowerAll(s)
  {
    if s != "" {
      KebabUndash(s, |s|);
      assert s[..|s|] == s;
    }
  }

  /** GetId strips the suffix only when the name ends with it, and maps the bare suffix to "". */
  lemma GetIdSuffix(typeName: string)
    ensures EndsWith(typeName, Suffix) ==> GetId(typeName) == ToKebabCase(typeName[..|typeName| - 9])
    ensures !EndsWith(typeName, Suffix) ==> GetId(typeName) == ToKebabCase(typeName)
    ensures GetId(Suffix) == ""
  {
    assert EndsWith(Suffix, Suffix);
  }

  lemma KebabParentLogin()
    ensures ToKebabCase("ParentLogin") == "parent-login"
  {
    var s := "ParentLogin";
    assert Kebab(s, 1) == "p";
    assert Kebab(s, 2) == "pa";
    assert Kebab(s, 3) == "par";
    assert Kebab(s, 4) == "pare";
    assert Kebab(s, 5) == "paren";
    assert Kebab(s, 6) == "parent";
    assert Kebab(s, 7) == "parent-l";
    assert Kebab(s, 8) == "parent-lo";
    assert Kebab(s, 9) == "parent-log";
    assert Kebab(s, 10) == "parent-logi";
    assert Kebab(s, 11) == "parent-login";
  }

  lemma KebabHome()
    ensures ToKebabCase("Home") == "home"
  {
    var s := "Home";
    assert Kebab(s, 1) == "h";
    assert Kebab(s, 2) == "ho";
    assert Kebab(s, 3) == "hom";
    assert Kebab(s, 4) == "home";
  }

  lemma KebabGameSelect()
    ensures ToKebabCase("GameSelect") == "game-select"
  {
    var s := "GameSelect";
    assert Kebab(s, 1) == "g";
    assert Kebab(s, 2) == "ga";
    assert Kebab(s, 3) == "gam";
    assert Kebab(s, 4) == "game";
    assert Kebab(s, 5) == "game-s";
    assert Kebab(s, 6) == "game-se";
    assert Kebab(s, 7) == "game-sel";
    assert Kebab(s, 8) == "game-sele";
    assert Kebab(s, 9) == "game-selec";
    assert Kebab(s, 10) == "game-select";
  }

  /** The examples the helper documents. */
  lemma GetIdExamples()
    ensures GetId("ParentLoginViewModel") == "parent-login"
    ensures GetId("HomeViewModel") == "home"
    ensures GetId("GameSelectViewModel") == "game-select"
  {
    assert EndsWith("ParentLoginViewModel", Suffix);
    assert StripSuffix("ParentLoginViewModel") == "ParentLogin";
    KebabParentLogin();
    assert EndsWith("HomeViewModel", Suffix);
    assert StripSuffix("HomeViewModel") == "Home";
    KebabHome();
    assert EndsWith("GameSelectViewModel", Suffix);
    assert StripSuffix("GameSelectViewModel") == "GameSelect";
    KebabGameSelect();
  }
}
