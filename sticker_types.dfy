/**
 * `StickerType`: a named sticker made of an ordered list of fields and an
 * alignment, and its validation, which checks every field against the rule
 * of its kind and rewrites date fields to 'dd/mm/yyyy'.
 */
module StickerTypes {
  import opened Wrappers
  import opened StickerFields
  import Dates

  /** The alignment a sticker gets when its constructor is given none. */
  const DefaultAlign := "left"

  // ---------------------------------------------------------------------------
  // Python's int() on a string
  // ---------------------------------------------------------------------------

  /**
   * The ASCII characters `int` strips as whitespace: space, tab, line feed,
   * vertical tab, form feed and carriage return. The separators 28-31 are
   * not among them.
   */
  predicate IsPythonSpace(c: char)
  {
    c == ' ' || 9 <= c as int <= 13
  }

  /** `s` without its leading whitespace. */
  function StripLeft(s: string): (t: string)
    ensures |t| <= |s|
    ensures t == s[|s| - |t|..]
    ensures t != [] ==> !IsPythonSpace(t[0])
    ensures forall i :: 0 <= i < |s| - |t| ==> IsPythonSpace(s[i])
  {
    if s != [] && IsPythonSpace(s[0]) then
      var t := StripLeft(s[1..]);
      assert forall i :: 1 <= i < |s| - |t| ==> s[i] == s[1..][i - 1];
      t
    else s
  }

  /** `s` without its trailing whitespace. */
  function StripRight(s: string): (t: string)
    ensures |t| <= |s|
    ensures t == s[..|t|]
    ensures t != [] ==> !IsPythonSpace(t[|t| - 1])
    ensures forall i :: |t| <= i < |s| ==> IsPythonSpace(s[i])
  {
    if s != [] && IsPythonSpace(s[|s| - 1]) then StripRight(s[..|s| - 1]) else s
  }

  /** `s` without its leading and trailing whitespace. */
  function Strip(s: string): string
  {
    StripRight(StripLeft(s))
  }

  /**
   * Decimal digits in groups separated by single underscores: it starts and
   * ends with a digit and every underscore is followed by a digit.
   */
  predicate IsDigitGroups(s: string)
  {
    |s| > 0 && Dates.IsDigit(s[0]) && Dates.IsDigit(s[|s| - 1]) &&
    forall i :: 0 <= i < |s| - 1 ==> Dates.IsDigit(s[i]) || (s[i] == '_' && Dates.IsDigit(s[i + 1]))
  }

  /**
   * `int(s)` succeeds: after stripping whitespace, an optional sign directly
   * followed by underscore-separated groups of decimal digits.
   */
  predicate IsIntLiteral(s: string)
  {
    var t := Strip(s);
    |t| > 0 &&
    if t[0] == '+' || t[0] == '-' then IsDigitGroups(t[1..]) else IsDigitGroups(t)
  }

  /** `str(n)`: the decimal rendering of an integer, with '-' for a negative one. */
  function Decimal(n: int): (s: string)
    ensures |s| > 0
  {
    if n < 0 then "-" + Digits(-n) else Digits(n)
  }

  function Digits(n: nat): (s: string)
    ensures |s| > 0
  {
    if n < 10 then [Dates.DigitChar(n)] else Digits(n / 10) + [Dates.DigitChar(n % 10)]
  }

  lemma {:induction false} DigitsAreDigitGroups(n: nat)
    ensures Dates.AllDigits(Digits(n)) && IsDigitGroups(Digits(n))
  {
    if n >= 10 {
      DigitsAreDigitGroups(n / 10);
    }
  }

  /** `int(str(n))` never fails: the rendering of every integer is an integer literal. */
  lemma DecimalIsIntLiteral(n: int)
    ensures IsIntLiteral(Decimal(n))
  {
    var s := Decimal(n);
    DigitsAreDigitGroups(if n < 0 then -n else n);
    assert !IsPythonSpace(s[0]) && !IsPythonSpace(s[|s| - 1]);
    assert StripLeft(s) == s;
    assert Strip(s) == s;
    if n < 0 {
      assert s[1..] == Digits(-n);
    }
  }

  /** A string of whitespace only, the empty string included, is not an integer literal. */
  lemma {:induction false} BlankIsNotIntLiteral(s: string)
    requires forall i :: 0 <= i < |s| ==> IsPythonSpace(s[i])
    ensures !IsIntLiteral(s)
  {
    BlankStripsToEmpty(s);
  }

  lemma {:induction false} BlankStripsToEmpty(s: string)
    requires forall i :: 0 <= i < |s| ==> IsPythonSpace(s[i])
    ensures StripLeft(s) == []
  {
    if s != [] {
      BlankStripsToEmpty(s[1..]);
    }
  }

  /**
   * For a string that neither starts nor ends with whitespace, `int()` only
   * asks for the optional sign and the digit groups.
   */
  lemma UnpaddedIntLiteral(s: string)
    requires s != [] && !IsPythonSpace(s[0]) && !IsPythonSpace(s[|s| - 1])
    ensures IsIntLiteral(s) <==>
      if s[0] == '+' || s[0] == '-' then IsDigitGroups(s[1..]) else IsDigitGroups(s)
  {
    assert StripLeft(s) == s;
  }

  /**
   * Doubled or trailing underscores, a decimal point, a detached sign and a
   * leading file separator (character 28) are refused, as `int` refuses them.
   */
  lemma MalformedNumbersRejected()
    ensures !IsIntLiteral("1__0")
    ensures !IsIntLiteral("10_")
    ensures !IsIntLiteral("4.5")
    ensures !IsIntLiteral("- 1")
    ensures !IsIntLiteral([28 as char, '4', '2'])
  {
    DoubleUnderscoreRejected();
    TrailingUnderscoreRejected();
    DecimalPointRejected();
    DetachedSignRejected();
    SeparatorNotStripped();
  }

  lemma SeparatorNotStripped()
    ensures !IsIntLiteral([28 as char, '4', '2'])
  {
    UnpaddedIntLiteral([28 as char, '4', '2']);
  }

  lemma DoubleUnderscoreRejected()
    ensures !IsIntLiteral("1__0")
  {
    UnpaddedIntLiteral("1__0");
    assert "1__0"[1] == '_' && "1__0"[2] == '_';
  }

  lemma TrailingUnderscoreRejected()
    ensures !IsIntLiteral("10_")
  {
    UnpaddedIntLiteral("10_");
    assert "10_"[2] == '_';
  }

  lemma DecimalPointRejected()
    ensures !IsIntLiteral("4.5")
  {
    UnpaddedIntLiteral("4.5");
    assert "4.5"[1] == '.';
  }

  lemma DetachedSignRejected()
    ensures !IsIntLiteral("- 1")
  {
    UnpaddedIntLiteral("- 1");
    assert "- 1"[1..] == " 1";
  }

  /** Surrounding whitespace, a sign and underscores between digit groups are accepted. */
  lemma WellFormedNumbersAccepted()
    ensures IsIntLiteral(" 42\n")
    ensures IsIntLiteral("-1_000")
  {
    PaddedNumberAccepted();
    GroupedNumberAccepted();
  }

  lemma PaddedNumberAccepted()
    ensures IsIntLiteral(" 42\n")
  {
    assert StripLeft(" 42\n") == "42\n";
    assert StripRight("42\n") == "42";
  }

  lemma GroupedNumberAccepted()
    ensures IsIntLiteral("-1_000")
  {
    UnpaddedIntLiteral("-1_000");
    assert "-1_000"[1..] == "1_000";
  }

  // ---------------------------------------------------------------------------
  // The validation rule of each kind
  // ---------------------------------------------------------------------------

  /**
   * The rule `is_valid` applies to one field: a value that is present and not
   * empty and, by kind, parses as an integer, converts as a date or is one of
   * the allowed values.
   */
  predicate Accepts(kind: Kind, value: Option<string>)
  {
    value.Some? && value.value != "" &&
    match kind
    case TextKind => true
    case NumberKind => IsIntLiteral(value.value)
    case DateKind => Dates.ConvertDate(value.value).Success?
    case ListKind(values) => value.value in values
  }

  /** The value an accepted field holds after validation: a date is normalised, anything else is kept. */
  function Validated(kind: Kind, value: Option<string>): (r: Option<string>)
    requires Accepts(kind, value)
    ensures Accepts(kind, r)
    ensures !kind.DateKind? ==> r == value
    ensures kind.DateKind? ==> r == Some(Dates.ConvertDate(value.value).value)
  {
    if kind.DateKind? then
      var s := Dates.ConvertDate(value.value).value;
      Dates.ConvertDateIdempotent(value.value);
      Dates.ConvertDateShape(value.value);
      assert s != "" by { assert |s| == 10; }
      Some(s)
    else value
  }

  /** Validating a validated value changes nothing: a second `is_valid` rewrites no field. */
  lemma ValidatedIsStable(kind: Kind, value: Option<string>)
    requires Accepts(kind, value)
    ensures Validated(kind, Validated(kind, value)) == Validated(kind, value)
  {
    if kind.DateKind? {
      Dates.ConvertDateIdempotent(value.value);
    }
  }

  /** The position of the first field the rules reject, or the number of fields when none is. */
  function FirstRejected(kinds: seq<Kind>, values: seq<Option<string>>): (n: nat)
    requires |kinds| == |values|
    ensures n <= |values|
    ensures forall j :: 0 <= j < n ==> Accepts(kinds[j], values[j])
    ensures n < |values| ==> !Accepts(kinds[n], values[n])
  {
    if kinds == [] then 0
    else if !Accepts(kinds[0], values[0]) then 0
    else 1 + FirstRejected(kinds[1..], values[1..])
  }

  // ---------------------------------------------------------------------------
  // The sticker
  // ---------------------------------------------------------------------------

  /** A sticker: its name, its fields in printing order and its alignment ("left" or "center"). */
  class StickerType {
    const name: string
    const align: string
    const data: seq<StickerData>

    constructor (name: string, data: seq<StickerData>, align: string := DefaultAlign)
      ensures this.name == name && this.data == data && this.align == align
    {
      this.name := name;
      this.data := data;
      this.align := align;
    }

    /** The kinds of the fields, in order. */
    function Kinds(): (ks: seq<Kind>)
      ensures |ks| == |data|
      ensures forall i :: 0 <= i < |data| ==> ks[i] == data[i].kind
    {
      seq(|data|, i requires 0 <= i < |data| => data[i].kind)
    }

    /** The current values of the fields, in order. */
    function Values(): (vs: seq<Option<string>>)
      reads set d | d in data
      ensures |vs| == |data|
      ensures forall i :: 0 <= i < |data| ==> vs[i] == data[i].value
    {
      seq(|data|, i reads set d | d in data requires 0 <= i < |data| => data[i].value)
    }

    /**
     * One pass of the loop of `is_valid`: the field's rule is checked and, for
     * an accepted date, the value is replaced by its normalised form.
     */
    static method ValidateField(d: StickerData) returns (accepted: bool)
      modifies d
      ensures accepted <==> Accepts(d.kind, old(d.value))
      ensures d.value == if accepted then Validated(d.kind, old(d.value)) else old(d.value)
    {
      var value := d.value;
      match d.kind {
        case TextKind =>
          if value.None? || value.value == "" {
            return false;
          }
        case NumberKind =>
          if value.None? || value.value == "" {
            return false;
          }
          if !IsIntLiteral(value.value) {
            return false;
          }
        case DateKind =>
          if value.None? || value.value == "" {
            return false;
          }
          var converted := Dates.ConvertDate(value.value);
          if converted.Failure? {
            return false;
          }
          d.value := Some(converted.value);
        case ListKind(values) =>
          if value.None? || value.value == "" || value.value !in values {
            return false;
          }
      }
      return true;
    }

    /**
     * `is_valid`: true exactly when every field is accepted by its kind's rule.
     * The fields before the first rejected one hold their validated values
     * (dates normalised); the rejected field and those after it are untouched.
     */
    method IsValid() returns (valid: bool)
      requires forall i, j :: 0 <= i < j < |data| ==> data[i] != data[j]
      modifies set d | d in data
      ensures valid <==> forall j :: 0 <= j < |data| ==> Accepts(data[j].kind, old(data[j].value))
      ensures valid <==> FirstRejected(Kinds(), old(Values())) == |data|
      ensures forall j :: 0 <= j < |data| ==>
        data[j].value == if j < FirstRejected(Kinds(), old(Values()))
          then Validated(data[j].kind, old(data[j].value)) else old(data[j].value)
    {
      ghost var kinds, oldValues := Kinds(), Values();
      ghost var firstRejected := FirstRejected(kinds, oldValues);
      var i := 0;
      while i < |data|
        invariant 0 <= i <= |data|
        invariant i <= firstRejected
        invariant forall j :: 0 <= j < i ==> data[j].value == Validated(kinds[j], oldValues[j])
        invariant forall j :: i <= j < |data| ==> data[j].value == oldValues[j]
      {
        var accepted := ValidateField(data[i]);
        if !accepted {
          return false;
        }
        i := i + 1;
      }
      return true;
    }
  }
}
