/**
 * `StickerType.convert_date`: a date written day, month, year with one of the
 * separators '/', '-' or '.' (the formats '%d/%m/%Y', '%d-%m-%Y', '%d.%m.%Y',
 * tried in that order) is rewritten as 'dd/mm/yyyy'.
 */
module Dates {
  import opened Wrappers

  /** A calendar date as `datetime` holds it. */
  datatype Date = Date(day: int, month: int, year: int)

  /** The exception raised when no format matches. */
  datatype DateError = NoValidDateFormat

  /** The separators of the three accepted formats, in the order they are tried. */
  const Separators: seq<char> := ['/', '-', '.']

  /** The separator of the output format '%d/%m/%Y'. */
  const OutputSeparator := '/'

  predicate IsDigit(c: char)
  {
    '0' <= c <= '9'
  }

  predicate AllDigits(s: string)
  {
    forall i :: 0 <= i < |s| ==> IsDigit(s[i])
  }

  /** The value of one decimal digit. */
  function DigitValue(c: char): int
  {
    c as int - '0' as int
  }

  /** The number a string of decimal digits denotes. */
  function DigitsValue(s: string): nat
    requires AllDigits(s)
  {
    if s == [] then 0 else DigitsValue(s[..|s| - 1]) * 10 + DigitValue(s[|s| - 1])
  }

  /** The length of the run of digits at the start of `s`. */
  function LeadingDigits(s: string): (n: nat)
    ensures n <= |s| && AllDigits(s[..n])
    ensures n < |s| ==> !IsDigit(s[n])
  {
    if s == [] || !IsDigit(s[0]) then 0
    else
      var n := 1 + LeadingDigits(s[1..]);
      assert s[..n] == [s[0]] + s[1..][..n - 1];
      n
  }

  predicate IsLeapYear(year: int)
  {
    year % 4 == 0 && (year % 100 != 0 || year % 400 == 0)
  }

  function DaysInMonth(month: int, year: int): int
    requires 1 <= month <= 12
  {
    if month == 2 then (if IsLeapYear(year) then 29 else 28)
    else if month == 4 || month == 6 || month == 9 || month == 11 then 30
    else 31
  }

  /** A date `datetime` can represent: years 1 to 9999 and a day that exists in its month. */
  predicate IsCalendarDate(d: Date)
  {
    1 <= d.year <= 9999 && 1 <= d.month <= 12 && 1 <= d.day <= DaysInMonth(d.month, d.year)
  }

  /**
   * A day (`%d`) or month (`%m`) directive followed by the separator at the
   * start of `s`: one or two digits, the separator, and the rest of `s`.
   */
  function SplitNumber(s: string, sep: char): (r: Option<(string, string)>)
    requires !IsDigit(sep)
    ensures r.Some? ==> 1 <= |r.value.0| <= 2 && AllDigits(r.value.0) && s == r.value.0 + [sep] + r.value.1
  {
    var i := LeadingDigits(s);
    if i < 1 || i > 2 || i == |s| || s[i] != sep then None
    else
      assert s == s[..i] + [sep] + s[i + 1..];
      Some((s[..i], s[i + 1..]))
  }

  /**
   * `datetime.strptime(s, '%d<sep>%m<sep>%Y')`: a day of one or two digits, the
   * separator, a month of one or two digits, the separator and exactly four
   * year digits, making up the whole string and naming a real date.
   */
  function ParseDate(s: string, sep: char): (r: Option<Date>)
    requires !IsDigit(sep)
    ensures r.Some? ==> IsCalendarDate(r.value)
  {
    match SplitNumber(s, sep)
    case None => None
    case Some((dayDigits, rest)) =>
      match SplitNumber(rest, sep)
      case None => None
      case Some((monthDigits, yearDigits)) =>
        if |yearDigits| != 4 || !AllDigits(yearDigits) then None
        else
          var d := Date(DigitsValue(dayDigits), DigitsValue(monthDigits), DigitsValue(yearDigits));
          if IsCalendarDate(d) then Some(d) else None
  }

  function DigitChar(n: int): char
    requires 0 <= n <= 9
  {
    ('0' as int + n) as char
  }

  /** `n` written with exactly `width` digits, padded with leading zeros. */
  function Padded(n: nat, width: nat): (s: string)
    ensures |s| == width && AllDigits(s)
  {
    if width == 0 then [] else Padded(n / 10, width - 1) + [DigitChar(n % 10)]
  }

  /** `strftime('%d/%m/%Y')`. */
  function FormatDate(d: Date): string
    requires IsCalendarDate(d)
  {
    Padded(d.day, 2) + [OutputSeparator] + Padded(d.month, 2) + [OutputSeparator] + Padded(d.year, 4)
  }

  /** The first format, from the `k`-th on, that parses `s`, re-serialised. */
  function TryFormats(s: string, k: nat): Result<string, DateError>
    decreases |Separators| - k
  {
    if k >= |Separators| then Failure(NoValidDateFormat)
    else match ParseDate(s, Separators[k])
      case Some(d) => Success(FormatDate(d))
      case None => TryFormats(s, k + 1)
  }

  /**
   * `convert_date`: the date read with the first format that matches, written
   * as 'dd/mm/yyyy', or the error when none matches.
   */
  function ConvertDate(s: string): (r: Result<string, DateError>)
    ensures ParseDate(s, '/').Some? ==> r == Success(FormatDate(ParseDate(s, '/').value))
    ensures ParseDate(s, '/').None? && ParseDate(s, '-').Some? ==>
      r == Success(FormatDate(ParseDate(s, '-').value))
    ensures ParseDate(s, '/').None? && ParseDate(s, '-').None? && ParseDate(s, '.').Some? ==>
      r == Success(FormatDate(ParseDate(s, '.').value))
    ensures ParseDate(s, '/').None? && ParseDate(s, '-').None? && ParseDate(s, '.').None? ==>
      r == Failure(NoValidDateFormat)
  {
    assert Separators[0] == '/' && Separators[1] == '-' && Separators[2] == '.';
    TryFormats(s, 0)
  }

  // ---------------------------------------------------------------------------
  // Lemmas
  // ---------------------------------------------------------------------------

  /** The zero-padded rendering reads back as the number it renders. */
  lemma {:induction false} PaddedValue(n: nat, width: nat)
    requires n < Power10(width)
    ensures DigitsValue(Padded(n, width)) == n
  {
    if width > 0 {
      var s := Padded(n, width);
      assert s[..|s| - 1] == Padded(n / 10, width - 1);
      PaddedValue(n / 10, width - 1);
    }
  }

  function Power10(k: nat): nat
  {
    if k == 0 then 1 else 10 * Power10(k - 1)
  }

  /** The run of leading digits stops at the first non-digit. */
  lemma {:induction false} LeadingDigitsOfRun(digits: string, rest: string)
    requires AllDigits(digits) && |rest| > 0 && !IsDigit(rest[0])
    ensures LeadingDigits(digits + rest) == |digits|
  {
    if digits != [] {
      assert (digits + rest)[1..] == digits[1..] + rest;
      LeadingDigitsOfRun(digits[1..], rest);
    }
  }

  /** The directive's digits are split off at the separator that follows them. */
  lemma SplitNumberOf(digits: string, sep: char, rest: string)
    requires !IsDigit(sep) && 1 <= |digits| <= 2 && AllDigits(digits)
    ensures SplitNumber(digits + [sep] + rest, sep) == Some((digits, rest))
  {
    var s := digits + [sep] + rest;
    assert s == digits + ([sep] + rest);
    LeadingDigitsOfRun(digits, [sep] + rest);
    assert s[..|digits|] == digits;
    assert s[|digits| + 1..] == rest;
  }

  /**
   * Every string made of a day of one or two digits, the separator, a month
   * of one or two digits, the separator and four year digits is read as that
   * date when the date exists.
   */
  lemma ParseDateAccepts(dayDigits: string, monthDigits: string, yearDigits: string, sep: char)
    requires !IsDigit(sep)
    requires 1 <= |dayDigits| <= 2 && AllDigits(dayDigits)
    requires 1 <= |monthDigits| <= 2 && AllDigits(monthDigits)
    requires |yearDigits| == 4 && AllDigits(yearDigits)
    requires IsCalendarDate(Date(DigitsValue(dayDigits), DigitsValue(monthDigits), DigitsValue(yearDigits)))
    ensures ParseDate(dayDigits + [sep] + monthDigits + [sep] + yearDigits, sep) ==
      Some(Date(DigitsValue(dayDigits), DigitsValue(monthDigits), DigitsValue(yearDigits)))
  {
    var tail := monthDigits + [sep] + yearDigits;
    assert dayDigits + [sep] + monthDigits + [sep] + yearDigits == dayDigits + [sep] + tail;
    SplitNumberOf(dayDigits, sep, tail);
    SplitNumberOf(monthDigits, sep, yearDigits);
  }

  /**
   * The converse of `ParseDateAccepts`: a string a format parses is a day of
   * one or two digits, the separator, a month of one or two digits, the
   * separator and exactly four year digits, read as the date those digits name.
   */
  lemma ParseDateShape(s: string, sep: char) returns (dayDigits: string, monthDigits: string, yearDigits: string)
    requires !IsDigit(sep)
    requires ParseDate(s, sep).Some?
    ensures 1 <= |dayDigits| <= 2 && AllDigits(dayDigits)
    ensures 1 <= |monthDigits| <= 2 && AllDigits(monthDigits)
    ensures |yearDigits| == 4 && AllDigits(yearDigits)
    ensures s == dayDigits + [sep] + monthDigits + [sep] + yearDigits
    ensures ParseDate(s, sep).value ==
      Date(DigitsValue(dayDigits), DigitsValue(monthDigits), DigitsValue(yearDigits))
  {
    var day := SplitNumber(s, sep).value;
    var month := SplitNumber(day.1, sep).value;
    dayDigits, monthDigits, yearDigits := day.0, month.0, month.1;
  }

  /** A parsed string is 8 to 10 characters long, with the first separator second or third. */
  lemma ParsedLayout(s: string, sep: char)
    requires !IsDigit(sep)
    ensures ParseDate(s, sep).Some? ==> 8 <= |s| <= 10 && (s[1] == sep || s[2] == sep)
  {
    if ParseDate(s, sep).Some? {
      var dd, mm, yy := ParseDateShape(s, sep);
      assert s[|dd|] == sep;
    }
  }

  /** A two-digit year, as in "1/1/24", is read by no format. */
  lemma TwoDigitYearRejected()
    ensures ConvertDate("1/1/24") == Failure(NoValidDateFormat)
  {
    ParsedLayout("1/1/24", '/');
    ParsedLayout("1/1/24", '-');
    ParsedLayout("1/1/24", '.');
  }

  /** The year-first spelling "2024-01-15" is read by no format. */
  lemma YearFirstRejected()
    ensures ConvertDate("2024-01-15") == Failure(NoValidDateFormat)
  {
    var s := "2024-01-15";
    assert s[1] == '0' && s[2] == '2';
    ParsedLayout(s, '/');
    ParsedLayout(s, '-');
    ParsedLayout(s, '.');
  }

  /** The value of a two-digit string. */
  lemma TwoDigitsValue(s: string)
    requires |s| == 2 && AllDigits(s)
    ensures DigitsValue(s) == 10 * DigitValue(s[0]) + DigitValue(s[1])
  {
    var first := s[..1];
    assert s[..|s| - 1] == first;
    assert first[..|first| - 1] == [];
    assert DigitsValue(first) == DigitValue(s[0]);
  }

  /** The value of a four-digit string. */
  lemma FourDigitsValue(s: string)
    requires |s| == 4 && AllDigits(s)
    ensures DigitsValue(s) ==
      1000 * DigitValue(s[0]) + 100 * DigitValue(s[1]) + 10 * DigitValue(s[2]) + DigitValue(s[3])
  {
    var three := s[..3];
    assert s[..|s| - 1] == three;
    assert three[..|three| - 1] == s[..2];
    TwoDigitsValue(s[..2]);
  }

  /** The output of `FormatDate` parses, with the output format, back to the date. */
  lemma FormatRoundTrip(d: Date)
    requires IsCalendarDate(d)
    ensures ParseDate(FormatDate(d), OutputSeparator) == Some(d)
  {
    PaddedValue(d.day, 2);
    PaddedValue(d.month, 2);
    PaddedValue(d.year, 4);
    ParseDateAccepts(Padded(d.day, 2), Padded(d.month, 2), Padded(d.year, 4), OutputSeparator);
  }

  /** The date a successful conversion read, with the first matching format. */
  function ReadDate(s: string): (d: Date)
    requires ConvertDate(s).Success?
    ensures IsCalendarDate(d) && ConvertDate(s).value == FormatDate(d)
  {
    if ParseDate(s, '/').Some? then ParseDate(s, '/').value
    else if ParseDate(s, '-').Some? then ParseDate(s, '-').value
    else ParseDate(s, '.').value
  }

  /** The normalised date is ten characters: two day digits, '/', two month digits, '/', four year digits. */
  lemma ConvertDateShape(s: string)
    requires ConvertDate(s).Success?
    ensures var out := ConvertDate(s).value;
      |out| == 10 && out[2] == '/' && out[5] == '/' &&
      AllDigits(out[..2]) && AllDigits(out[3..5]) && AllDigits(out[6..])
  {
    var d := ReadDate(s);
    var out := FormatDate(d);
    assert out[..2] == Padded(d.day, 2);
    assert out[3..5] == Padded(d.month, 2);
    assert out[6..] == Padded(d.year, 4);
  }

  /** Normalising a normalised date changes nothing. */
  lemma ConvertDateIdempotent(s: string)
    requires ConvertDate(s).Success?
    ensures ConvertDate(ConvertDate(s).value) == ConvertDate(s)
  {
    FormatRoundTrip(ReadDate(s));
  }

  /** At most one of the formats matches a string: the separators never mix. */
  lemma OneFormatAtMost(s: string, a: char, b: char)
    requires !IsDigit(a) && !IsDigit(b)
    requires ParseDate(s, a).Some? && ParseDate(s, b).Some?
    ensures a == b
  {
  }

  /** "1-2-2024" is normalised to "01/02/2024". */
  lemma ConvertDateExample()
    ensures ConvertDate("1-2-2024") == Success("01/02/2024")
  {
    ExampleRead();
    ExampleWritten();
  }

  /** "1-2-2024" matches the second format only, as 1 February 2024. */
  lemma ExampleRead()
    ensures ConvertDate("1-2-2024") == Success(FormatDate(Date(1, 2, 2024)))
  {
    ExampleNotSlashed();
    ExampleDashed();
  }

  lemma ExampleNotSlashed()
    ensures ParseDate("1-2-2024", '/').None?
  {
    var s := "1-2-2024";
    assert s == "1" + "-2-2024";
    LeadingDigitsOfRun("1", "-2-2024");
  }

  lemma ExampleDashed()
    ensures ParseDate("1-2-2024", '-') == Some(Date(1, 2, 2024))
  {
    FourDigitsValue("2024");
    assert DigitsValue("1") == 1 by { assert "1"[..0] == []; }
    assert DigitsValue("2") == 2 by { assert "2"[..0] == []; }
    assert "1-2-2024" == "1" + ['-'] + "2" + ['-'] + "2024";
    ParseDateAccepts("1", "2", "2024", '-');
  }

  /** 1 February 2024 is written "01/02/2024". */
  lemma ExampleWritten()
    ensures FormatDate(Date(1, 2, 2024)) == "01/02/2024"
  {
    PaddedTwoDigits(1);
    PaddedTwoDigits(2);
    PaddedYear();
    assert "01" + ['/'] + "02" + ['/'] + "2024" == "01/02/2024";
  }

  lemma PaddedTwoDigits(n: nat)
    requires n < 10
    ensures Padded(n, 2) == ['0', DigitChar(n)]
  {
    assert Padded(n / 10, 1) == Padded(0, 0) + [DigitChar(0)];
  }

  lemma PaddedYear()
    ensures Padded(2024, 4) == "2024"
  {
    assert Padded(20, 2) == "20";
    assert Padded(202, 3) == "202";
  }

  /** A string a format parses holds only digits and that format's separator. */
  lemma ParsedCharsAreDigitsOrSep(s: string, sep: char)
    requires !IsDigit(sep)
    requires ParseDate(s, sep).Some?
    ensures forall i :: 0 <= i < |s| ==> IsDigit(s[i]) || s[i] == sep
  {
    var (dd, rest) := SplitNumber(s, sep).value;
    var (mm, yy) := SplitNumber(rest, sep).value;
    assert s == dd + [sep] + mm + [sep] + yy;
  }

  /** A string holding two different separators of the accepted formats matches none of them. */
  lemma MixedSeparatorsAlwaysRejected(s: string, i: nat, j: nat)
    requires i < |s| && j < |s|
    requires s[i] in Separators && s[j] in Separators && s[i] != s[j]
    ensures ConvertDate(s) == Failure(NoValidDateFormat)
  {
    forall sep | sep in Separators
      ensures ParseDate(s, sep).None?
    {
      if ParseDate(s, sep).Some? {
        ParsedCharsAreDigitsOrSep(s, sep);
        assert false;
      }
    }
    assert '/' in Separators && '-' in Separators && '.' in Separators;
  }

  /** "1/2-2024" mixes '/' and '-', so it matches none of the formats. */
  lemma MixedSeparatorsRejected()
    ensures ConvertDate("1/2-2024") == Failure(NoValidDateFormat)
  {
    var s := "1/2-2024";
    assert s == "1" + "/2-2024";
    LeadingDigitsOfRun("1", "/2-2024");
    assert ParseDate(s, '-').None? && ParseDate(s, '.').None?;
    SplitNumberOf("1", '/', "2-2024");
    assert s == "1" + ['/'] + "2-2024";
    assert "2-2024" == "2" + "-2024";
    LeadingDigitsOfRun("2", "-2024");
    assert SplitNumber("2-2024", '/').None?;
    assert ParseDate(s, '/').None?;
  }

  /** A day that does not exist in its month is rejected: 29 February 2023. */
  lemma NoLeapDayRejected()
    ensures ConvertDate("29/02/2023") == Failure(NoValidDateFormat)
  {
    TwoDigitsValue("29");
    TwoDigitsValue("02");
    FourDigitsValue("2023");
    NonexistentDay("29", "02", "2023");
    assert "29" + "/" + "02" + "/" + "2023" == "29/02/2023";
  }

  /** A day that does not exist in its month is rejected: 31 April 2024. */
  lemma ThirtyFirstAprilRejected()
    ensures ConvertDate("31/04/2024") == Failure(NoValidDateFormat)
  {
    TwoDigitsValue("31");
    TwoDigitsValue("04");
    FourDigitsValue("2024");
    NonexistentDay("31", "04", "2024");
    assert "31" + "/" + "04" + "/" + "2024" == "31/04/2024";
  }

  /** Day 00 is refused by `%d`: "00/05/2024". */
  lemma ZeroDayRejected()
    ensures ConvertDate("00/05/2024") == Failure(NoValidDateFormat)
  {
    TwoDigitsValue("00");
    TwoDigitsValue("05");
    FourDigitsValue("2024");
    NonexistentDay("00", "05", "2024");
    assert "00" + "/" + "05" + "/" + "2024" == "00/05/2024";
  }

  /** A date written with '/' whose day is 00 or does not exist in its month matches no format. */
  lemma NonexistentDay(dayDigits: string, monthDigits: string, yearDigits: string)
    requires |dayDigits| == 2 && AllDigits(dayDigits)
    requires |monthDigits| == 2 && AllDigits(monthDigits)
    requires |yearDigits| == 4 && AllDigits(yearDigits)
    requires 1 <= DigitsValue(monthDigits) <= 12
    requires DigitsValue(dayDigits) == 0 || DigitsValue(dayDigits) > DaysInMonth(DigitsValue(monthDigits), DigitsValue(yearDigits))
    ensures ConvertDate(dayDigits + "/" + monthDigits + "/" + yearDigits) == Failure(NoValidDateFormat)
  {
    NonexistentDaySlashed(dayDigits, monthDigits, yearDigits);
    SlashedNotOtherwise(dayDigits, monthDigits + "/" + yearDigits, '-');
    SlashedNotOtherwise(dayDigits, monthDigits + "/" + yearDigits, '.');
    assert dayDigits + "/" + monthDigits + "/" + yearDigits == dayDigits + "/" + (monthDigits + "/" + yearDigits);
  }

  lemma NonexistentDaySlashed(dayDigits: string, monthDigits: string, yearDigits: string)
    requires |dayDigits| == 2 && AllDigits(dayDigits)
    requires |monthDigits| == 2 && AllDigits(monthDigits)
    requires |yearDigits| == 4 && AllDigits(yearDigits)
    requires 1 <= DigitsValue(monthDigits) <= 12
    requires DigitsValue(dayDigits) == 0 || DigitsValue(dayDigits) > DaysInMonth(DigitsValue(monthDigits), DigitsValue(yearDigits))
    ensures ParseDate(dayDigits + "/" + monthDigits + "/" + yearDigits, '/').None?
  {
    var s := dayDigits + "/" + monthDigits + "/" + yearDigits;
    var tail := monthDigits + "/" + yearDigits;
    assert s == dayDigits + ['/'] + tail;
    SplitNumberOf(dayDigits, '/', tail);
    assert tail == monthDigits + ['/'] + yearDigits;
    SplitNumberOf(monthDigits, '/', yearDigits);
  }

  /** A string whose leading digits are followed by '/' does not match a format with another separator. */
  lemma SlashedNotOtherwise(dayDigits: string, rest: string, sep: char)
    requires 1 <= |dayDigits| && AllDigits(dayDigits)
    requires sep != '/' && !IsDigit(sep)
    ensures ParseDate(dayDigits + "/" + rest, sep).None?
  {
    LeadingDigitsOfRun(dayDigits, "/" + rest);
    assert (dayDigits + "/" + rest)[|dayDigits|] == '/';
  }
}
