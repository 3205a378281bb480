/**
 * What the three `Validate` methods share: the error record they yield
 * (System.ComponentModel.DataAnnotations.ValidationResult with one member
 * name), `string.IsNullOrWhiteSpace`, and the ASCII character classes their
 * regular expressions test.
 */
module Validation {

  /** The property a validation error names. */
  datatype Member = Id | Name | Wkt

  /**
   * The errors the validators yield. Each stands for one `ValidationResult`:
   * its message and the one member it names.
   */
  datatype ValidationError =
    | IdNotPositive | NameRequired | NameLength | NameCharacters | NameTooLong | WktRequired | WktFormat
  {
    function Member(): (m: Member)
    {
      match this
      case IdNotPositive => Id
      case NameRequired | NameLength | NameCharacters | NameTooLong => Name
      case WktRequired | WktFormat => Wkt
    }

    function Message(): (msg: string)
    {
      match this
      case IdNotPositive => "Id must be greater than zero."
      case NameRequired => "Name cannot be null or empty."
      case NameLength => "Name must be between 3 and 100 characters."
      case NameCharacters => "Name cannot contain special characters."
      case NameTooLong => "Name cannot exceed 100 characters."
      case WktRequired => "WKT cannot be null or empty."
      case WktFormat => "Please format the WKT correctly."
    }
  }

  /** `char.IsWhiteSpace`: the Unicode space, line and paragraph separators and U+0009..U+000D, U+0085. */
  predicate IsWhiteSpace(c: char)
  {
    || c == ' ' || '\t' <= c <= '\r' || c == '\U{85}' || c == '\U{A0}' || c == '\U{1680}'
    || '\U{2000}' <= c <= '\U{200A}' || c == '\U{2028}' || c == '\U{2029}' || c == '\U{202F}'
    || c == '\U{205F}' || c == '\U{3000}'
  }

  /** `string.IsNullOrWhiteSpace` on a non-null string: empty, or white space only. */
  predicate IsBlank(s: string)
  {
    forall i :: 0 <= i < |s| ==> IsWhiteSpace(s[i])
  }

  predicate IsAsciiLetter(c: char)
  {
    'a' <= c <= 'z' || 'A' <= c <= 'Z'
  }

  predicate IsDigit(c: char)
  {
    '0' <= c <= '9'
  }

  /** Some character of `s` is outside the class `ok`: what `Regex.IsMatch(s, "[^...]")` tests. */
  predicate AnyOutside(s: string, ok: char -> bool)
  {
    exists i :: 0 <= i < |s| && !ok(s[i])
  }

  function Rank(m: Member): (n: nat)
  {
    match m
    case Id => 0
    case Name => 1
    case Wkt => 2
  }

  /** Errors come member by member: Id, then Name, then Wkt. */
  predicate InMemberOrder(errs: seq<ValidationError>)
  {
    forall i, j :: 0 <= i < j < |errs| ==> Rank(errs[i].Member()) <= Rank(errs[j].Member())
  }

  predicate NoRepeats(errs: seq<ValidationError>)
  {
    forall i, j :: 0 <= i < j < |errs| ==> errs[i] != errs[j]
  }

  /** Name errors followed by at most one Wkt error keep member order and have no repeats. */
  lemma NameThenWkt(n: seq<ValidationError>, w: seq<ValidationError>)
    requires NoRepeats(n) && |w| <= 1
    requires forall i :: 0 <= i < |n| ==> n[i].Member() == Name
    requires forall i :: 0 <= i < |w| ==> w[i].Member() == Wkt
    ensures InMemberOrder(n + w) && NoRepeats(n + w)
    ensures forall e: ValidationError :: e.Member() == Name ==> (e in n + w <==> e in n)
    ensures forall e: ValidationError :: e.Member() == Wkt ==> (e in n + w <==> e in w)
    ensures |w| == 1 ==> (n + w)[|n + w| - 1] == w[0]
  {
    var e := n + w;
    forall i, j | 0 <= i < j < |e| ensures Rank(e[i].Member()) <= Rank(e[j].Member()) && e[i] != e[j] {
      if j >= |n| && i < |n| {
        assert e[i] == n[i] && e[j] == w[j - |n|];
      }
    }
  }

  /**
   * The check both DTOs run (BaseFeatureDto and BaseLocationDto differ only in
   * their two character classes): a blank Name gives one error and skips the
   * rest of the Name checks; otherwise a length error and a character error,
   * each independently; then a blank Wkt, or else a Wkt character error.
   */
  function DtoNameErrors(name: string, nameOk: char -> bool): (errs: seq<ValidationError>)
    ensures |errs| <= 2 && NoRepeats(errs)
    ensures forall i :: 0 <= i < |errs| ==> errs[i].Member() == Name
    ensures IsBlank(name) ==> errs == [NameRequired]
    ensures NameRequired in errs <==> IsBlank(name)
    ensures NameLength in errs <==> !IsBlank(name) && (|name| < 3 || |name| > 100)
    ensures NameCharacters in errs <==> !IsBlank(name) && AnyOutside(name, nameOk)
    ensures forall e :: e in errs ==> e in {NameRequired, NameLength, NameCharacters}
    ensures errs == [] <==> !IsBlank(name) && 3 <= |name| <= 100 && !AnyOutside(name, nameOk)
  {
    if IsBlank(name) then [NameRequired]
    else
      (if |name| > 100 || |name| < 3 then [NameLength] else [])
      + (if AnyOutside(name, nameOk) then [NameCharacters] else [])
  }

  function DtoWktErrors(wkt: string, wktOk: char -> bool): (errs: seq<ValidationError>)
    ensures |errs| <= 1
    ensures forall i :: 0 <= i < |errs| ==> errs[i].Member() == Wkt
    ensures IsBlank(wkt) ==> errs == [WktRequired]
    ensures forall e :: e in errs ==> e in {WktRequired, WktFormat}
    ensures WktRequired in errs <==> IsBlank(wkt)
    ensures WktFormat in errs <==> !IsBlank(wkt) && AnyOutside(wkt, wktOk)
    ensures errs == [WktFormat] <==> !IsBlank(wkt) && AnyOutside(wkt, wktOk)
    ensures errs == [] <==> !IsBlank(wkt) && !AnyOutside(wkt, wktOk)
  {
    if IsBlank(wkt) then [WktRequired]
    else if AnyOutside(wkt, wktOk) then [WktFormat]
    else []
  }

  /** A valid DTO: a non-blank Name of 3..100 characters from its class and a non-blank Wkt from its class. */
  predicate DtoIsValid(name: string, wkt: string, nameOk: char -> bool, wktOk: char -> bool)
  {
    && !IsBlank(name) && 3 <= |name| <= 100 && !AnyOutside(name, nameOk)
    && !IsBlank(wkt) && !AnyOutside(wkt, wktOk)
  }

  function ValidateDto(name: string, wkt: string, nameOk: char -> bool, wktOk: char -> bool): (errs: seq<ValidationError>)
    ensures |errs| <= 3 && InMemberOrder(errs) && NoRepeats(errs)
    ensures IsBlank(name) ==> |errs| >= 1 && errs[0] == NameRequired && forall i :: 1 <= i < |errs| ==> errs[i].Member() == Wkt
    ensures IsBlank(wkt) ==> |errs| >= 1 && errs[|errs| - 1] == WktRequired && forall i :: 0 <= i < |errs| - 1 ==> errs[i].Member() == Name
    ensures errs == [] <==> DtoIsValid(name, wkt, nameOk, wktOk)
  {
    var n, w := DtoNameErrors(name, nameOk), DtoWktErrors(wkt, wktOk);
    NameThenWkt(n, w);
    n + w
  }

  /** The name errors of a DTO check: each one exactly when its condition holds. */
  lemma NameErrorsReported(name: string, wkt: string, nameOk: char -> bool, wktOk: char -> bool)
    ensures var errs := ValidateDto(name, wkt, nameOk, wktOk);
      && (NameRequired in errs <==> IsBlank(name))
      && (NameLength in errs <==> !IsBlank(name) && (|name| < 3 || |name| > 100))
      && (NameCharacters in errs <==> !IsBlank(name) && AnyOutside(name, nameOk))
  {
    var n, w := DtoNameErrors(name, nameOk), DtoWktErrors(wkt, wktOk);
    assert n + w == ValidateDto(name, wkt, nameOk, wktOk);
    assert NameRequired !in w && NameLength !in w && NameCharacters !in w;
  }

  /** The Wkt errors of a DTO check, and no error about a member a DTO does not carry. */
  lemma WktErrorsReported(name: string, wkt: string, nameOk: char -> bool, wktOk: char -> bool)
    ensures var errs := ValidateDto(name, wkt, nameOk, wktOk);
      && (WktRequired in errs <==> IsBlank(wkt))
      && (WktFormat in errs <==> !IsBlank(wkt) && AnyOutside(wkt, wktOk))
      && (forall e :: e in errs ==> e.Member() != Id && e != NameTooLong)
  {
    var n, w := DtoNameErrors(name, nameOk), DtoWktErrors(wkt, wktOk);
    assert n + w == ValidateDto(name, wkt, nameOk, wktOk);
    assert WktRequired !in n && WktFormat !in n;
  }

  /** Which errors a DTO check reports: each one exactly when its condition holds. */
  lemma DtoErrorsReported(name: string, wkt: string, nameOk: char -> bool, wktOk: char -> bool)
    ensures var errs := ValidateDto(name, wkt, nameOk, wktOk);
      && (NameRequired in errs <==> IsBlank(name))
      && (NameLength in errs <==> !IsBlank(name) && (|name| < 3 || |name| > 100))
      && (NameCharacters in errs <==> !IsBlank(name) && AnyOutside(name, nameOk))
      && (WktRequired in errs <==> IsBlank(wkt))
      && (WktFormat in errs <==> !IsBlank(wkt) && AnyOutside(wkt, wktOk))
      && (forall e :: e in errs ==> e.Member() != Id && e != NameTooLong)
  {
    NameErrorsReported(name, wkt, nameOk, wktOk);
    WktErrorsReported(name, wkt, nameOk, wktOk);
  }
}

/** `BaseFeatureDto.Validate` (API/Models/DTOs/Feature/BaseFeatureDto.cs). */
module FeatureDto {
  import opened Validation

  /** `[a-zA-Z0-9 ,'()/-]`. */
  predicate NameChar(c: char)
  {
    IsAsciiLetter(c) || IsDigit(c) || c == ' ' || c == ',' || c == '\'' || c == '(' || c == ')' || c == '/' || c == '-'
  }

  /** `[A-Z0-9() ,-.]`: the range `,-.` is the three characters `,` `-` `.`. */
  predicate WktChar(c: char)
  {
    'A' <= c <= 'Z' || IsDigit(c) || c == '(' || c == ')' || c == ' ' || ',' <= c <= '.'
  }

  function Validate(name: string, wkt: string): (errs: seq<ValidationError>)
    ensures |errs| <= 3 && InMemberOrder(errs)
    ensures NameLength in errs <==> !IsBlank(name) && (|name| < 3 || |name| > 100)
    ensures NameCharacters in errs <==> !IsBlank(name) && exists i :: 0 <= i < |name| && !NameChar(name[i])
    ensures WktFormat in errs <==> !IsBlank(wkt) && exists i :: 0 <= i < |wkt| && !WktChar(wkt[i])
    ensures errs == [] <==> && !IsBlank(name) && 3 <= |name| <= 100 && (forall i :: 0 <= i < |name| ==> NameChar(name[i]))
                            && !IsBlank(wkt) && (forall i :: 0 <= i < |wkt| ==> WktChar(wkt[i]))
  {
    DtoErrorsReported(name, wkt, NameChar, WktChar);
    ValidateDto(name, wkt, NameChar, WktChar)
  }

  /** Lower-case letters are outside the WKT class, so a lower-case WKT is reported. */
  lemma LowerCaseWktRejected()
    ensures WktFormat in Validate("Home", "point(1 1)")
  {
    assert !WktChar("point(1 1)"[0]);
    assert !IsWhiteSpace("point(1 1)"[0]);
  }
}

/** `BaseLocationDto.Validate` (API/Models/DTOs/Location/BaseLocationDto.cs). */
module LocationDto {
  import opened Validation
  import FeatureDto

  /** `[a-zA-Z0-9 ]`. */
  predicate NameChar(c: char)
  {
    IsAsciiLetter(c) || IsDigit(c) || c == ' '
  }

  /** `[A-Z0-9() ,]`: no `.` and no `-`. */
  predicate WktChar(c: char)
  {
    'A' <= c <= 'Z' || IsDigit(c) || c == '(' || c == ')' || c == ' ' || c == ','
  }

  function Validate(name: string, wkt: string): (errs: seq<ValidationError>)
    ensures |errs| <= 3 && InMemberOrder(errs)
    ensures NameLength in errs <==> !IsBlank(name) && (|name| < 3 || |name| > 100)
    ensures NameCharacters in errs <==> !IsBlank(name) && exists i :: 0 <= i < |name| && !NameChar(name[i])
    ensures WktFormat in errs <==> !IsBlank(wkt) && exists i :: 0 <= i < |wkt| && !WktChar(wkt[i])
    ensures errs == [] <==> && !IsBlank(name) && 3 <= |name| <= 100 && (forall i :: 0 <= i < |name| ==> NameChar(name[i]))
                            && !IsBlank(wkt) && (forall i :: 0 <= i < |wkt| ==> WktChar(wkt[i]))
  {
    DtoErrorsReported(name, wkt, NameChar, WktChar);
    ValidateDto(name, wkt, NameChar, WktChar)
  }

  /** A decimal point is outside the Location WKT class: "POINT(1.5 2)" is rejected here but accepted for features. */
  lemma DecimalWktRejected()
    ensures WktFormat in Validate("Home", "POINT(1.5 2)")
    ensures FeatureDto.Validate("Home", "POINT(1.5 2)") == []
  {
    var name, wkt := "Home", "POINT(1.5 2)";
    assert !WktChar(wkt[7]);
    assert !IsWhiteSpace(name[0]) && !IsWhiteSpace(wkt[0]);
    assert forall i :: 0 <= i < |name| ==> FeatureDto.NameChar(name[i]);
    assert forall i :: 0 <= i < |wkt| ==> FeatureDto.WktChar(wkt[i]);
  }
}

/** `Location.Validate` on the entity (API/Models/Location.cs). */
module LocationEntity {
  import opened Validation


  function Validate(id: int, name: string, wkt: string): (errs: seq<ValidationError>)
    ensures |errs| <= 3 && InMemberOrder(errs) && NoRepeats(errs)
    ensures forall e :: e in errs ==> e in {IdNotPositive, NameRequired, NameTooLong, WktRequired}
    ensures IdNotPositive in errs <==> id <= 0
    ensures NameRequired in errs <==> IsBlank(name)
    ensures NameTooLong in errs <==> !IsBlank(name) && |name| > 100
    ensures WktRequired in errs <==> IsBlank(wkt)
    ensures errs == [] <==> id > 0 && !IsBlank(name) && |name| <= 100 && !IsBlank(wkt)
  {
    (if id <= 0 then [IdNotPositive] else [])
    + (if IsBlank(name) then [NameRequired] else if |name| > 100 then [NameTooLong] else [])
    + (if IsBlank(wkt) then [WktRequired] else [])
  }

  /** No minimum length and no character class: a two-character name of symbols passes. */
  lemma ShortSymbolicNameAccepted()
    ensures Validate(1, "#!", "?") == []
  {
    assert !IsWhiteSpace("#!"[0]);
    assert !IsWhiteSpace("?"[0]);
  }
}
