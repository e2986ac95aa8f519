/**
 * The date text of the experience-letter component: the ordinal day suffix,
 * the long form "31st August 2025" that `formatDate` renders, the
 * "YYYY-MM-DD" text that `getTodayDate` builds and a date input holds, and
 * the reading of that text into calendar components.
 */
module Dates {
  import opened Wrappers
  import opened Decimal
  import opened Text

  /** A date as JavaScript's getters report it: full year, month index 0..11, day of month. */
  datatype CalendarDate = CalendarDate(year: nat, monthIndex: nat, day: nat)

  /** Proleptic Gregorian leap years, as JavaScript's Date counts them. */
  predicate IsLeapYear(year: nat)
  {
    (year % 4 == 0 && year % 100 != 0) || year % 400 == 0
  }

  function DaysInMonth(year: nat, monthIndex: nat): (n: nat)
    requires monthIndex < 12
    ensures 28 <= n <= 31
    ensures n == 31 <==> monthIndex in {0, 2, 4, 6, 7, 9, 11}
  {
    if monthIndex == 1 then (if IsLeapYear(year) then 29 else 28)
    else if monthIndex in {3, 5, 8, 10} then 30
    else 31
  }

  predicate IsValid(d: CalendarDate)
  {
    d.monthIndex < 12 && 1 <= d.day <= DaysInMonth(d.year, d.monthIndex)
  }

  // ---------------------------------------------------------------- ordinals

  /** The inner `getOrdinalSuffix` of `formatDate`: "th" from 4 to 20, else by the last digit. */
  function OrdinalSuffix(day: nat): (suffix: string)
    ensures suffix in {"st", "nd", "rd", "th"}
    ensures 4 <= day <= 20 ==> suffix == "th"
    ensures 1 <= day <= 31 ==> suffix == EnglishOrdinalSuffix(day)
  {
    if 3 < day < 21 then "th"
    else
      match day % 10
      case 1 => "st"
      case 2 => "nd"
      case 3 => "rd"
      case _ => "th"
  }

  /**
   * The English rule for ordinal numerals, stated independently: numbers
   * ending in 11, 12 or 13 take "th", the others go by their last digit.
   */
  function EnglishOrdinalSuffix(n: nat): string
  {
    if 11 <= n % 100 <= 13 then "th"
    else if n % 10 == 1 then "st"
    else if n % 10 == 2 then "nd"
    else if n % 10 == 3 then "rd"
    else "th"
  }

  // ------------------------------------------------------------ month names

  const MonthNames: seq<string> := [
    "January", "February", "March", "April", "May", "June",
    "July", "August", "September", "October", "November", "December"
  ]

  predicate IsAsciiLetter(c: char)
  {
    'a' <= c <= 'z' || 'A' <= c <= 'Z'
  }

  /** `months[monthIndex]`: the full English month name, a single word of letters. */
  function MonthName(monthIndex: nat): (name: string)
    requires monthIndex < 12
    ensures |name| >= 3
    ensures forall i :: 0 <= i < |name| ==> IsAsciiLetter(name[i])
  {
    MonthNames[monthIndex]
  }

  /** The first month index, from `from` on, whose name is `name`. */
  function MonthIndexOf(name: string, from: nat): (r: Option<nat>)
    requires from <= 12
    ensures r.Some? ==> from <= r.value < 12 && MonthName(r.value) == name
    ensures r.None? ==> forall m :: from <= m < 12 ==> MonthName(m) != name
    decreases 12 - from
  {
    if from == 12 then None
    else if MonthName(from) == name then Some(from)
    else MonthIndexOf(name, from + 1)
  }

  /** No two months share a name, so a month name identifies its index. */
  lemma MonthIndexOfName(m: nat)
    requires m < 12
    ensures MonthIndexOf(MonthName(m), 0) == Some(m)
  {
    var r := MonthIndexOf(MonthName(m), 0);
    assert MonthNames[0] != MonthNames[1] && MonthNames[0] != MonthNames[2];
  }

  // ------------------------------------------------------------- long form

  /** The text `${day}${getOrdinalSuffix(day)} ${month} ${year}` of a parsed date. */
  function LongForm(d: CalendarDate): string
    requires d.monthIndex < 12
  {
    Show(d.day) + OrdinalSuffix(d.day) + " " + MonthName(d.monthIndex) + " " + Show(d.year)
  }

  /** What `formatDate` renders for a non-empty string that JavaScript cannot read as a date. */
  const InvalidDateText: string := "NaNth undefined NaN"

  /**
   * `formatDate(dateString)`: "" for "", the long form of the date the
   * string denotes, and the Invalid Date rendering for any other string.
   */
  function FormatDate(dateString: string): (r: string)
    ensures r == "" <==> dateString == ""
    ensures dateString != "" && ParseIsoDate(dateString).None? ==> r == InvalidDateText
  {
    if dateString == "" then ""
    else
      match ParseIsoDate(dateString)
      case Some(d) => LongForm(d)
      case None => InvalidDateText
  }

  /** Formatting a date loses nothing: the date can be read back from the text `formatDate` renders. */
  lemma FormatDateReadsBack(dateString: string)
    requires ParseIsoDate(dateString).Some?
    ensures ReadLongForm(FormatDate(dateString)) == ParseIsoDate(dateString)
  {
    ReadLongFormOfLongForm(ParseIsoDate(dateString).value);
  }

  /**
   * Reads a long-form date back: leading digits, the suffix those digits
   * take, a space, then a month name, a space and the digits of the year.
   */
  function ReadLongForm(s: string): Option<CalendarDate>
  {
    var k := LeadingDigits(s);
    if k == 0 || |s| < k + 3 || s[k..k + 3] != OrdinalSuffix(Value(s[..k])) + " " then None
    else ReadMonthYear(s[k + 3..], Value(s[..k]))
  }

  /** The "<month name> <year digits>" part of a long-form date, for a given day. */
  function ReadMonthYear(rest: string, day: nat): Option<CalendarDate>
  {
    var j := IndexOf(rest, ' ');
    if j == |rest| then None
    else
      match MonthIndexOf(rest[..j], 0)
      case None => None
      case Some(m) =>
        var y := rest[j + 1..];
        if y == [] || !AllDigits(y) then None
        else Some(CalendarDate(Value(y), m, day))
  }

  /** The long form loses nothing: reading it back yields the date it was made from. */
  lemma ReadLongFormOfLongForm(d: CalendarDate)
    requires d.monthIndex < 12
    ensures ReadLongForm(LongForm(d)) == Some(d)
  {
    var day, name, year := Show(d.day), MonthName(d.monthIndex), Show(d.year);
    ReadMonthYearOfParts(d);
    ReadLongFormOfText(day, name, year, d);
  }

  /** Day digits, their suffix and a space, then a month and year that read as d: the whole reads as d. */
  lemma ReadLongFormOfText(day: string, name: string, year: string, d: CalendarDate)
    requires day != [] && AllDigits(day) && Value(day) == d.day
    requires ReadMonthYear(name + " " + year, d.day) == Some(d)
    ensures ReadLongForm(day + OrdinalSuffix(d.day) + " " + name + " " + year) == Some(d)
  {
    SplitLongForm(day, OrdinalSuffix(d.day), name, year);
  }

  lemma ReadMonthYearOfParts(d: CalendarDate)
    requires d.monthIndex < 12
    ensures ReadMonthYear(MonthName(d.monthIndex) + " " + Show(d.year), d.day) == Some(d)
  {
    SplitMonthYear(MonthName(d.monthIndex), Show(d.year));
    MonthIndexOfName(d.monthIndex);
  }

  /** The day numeral, the suffix with its space and the rest are found where they were put. */
  lemma SplitLongForm(day: string, suffix: string, name: string, year: string)
    requires AllDigits(day)
    requires |suffix| == 2 && !IsDigit(suffix[0])
    ensures var s := day + suffix + " " + name + " " + year;
      LeadingDigits(s) == |day| && s[..|day|] == day
      && s[|day|..|day| + 3] == suffix + " " && s[|day| + 3..] == name + " " + year
  {
    var tail := suffix + " " + name + " " + year;
    LeadingDigitsOfNumeral(day, tail);
    var s := day + suffix + " " + name + " " + year;
    assert s == day + tail;
    assert tail[..3] == suffix + " ";
    assert tail[3..] == name + " " + year;
  }

  /** A space-free month name followed by a space and the year splits at that space. */
  lemma SplitMonthYear(name: string, year: string)
    requires ' ' !in name
    ensures var rest := name + " " + year;
      IndexOf(rest, ' ') == |name| && rest[..|name|] == name && rest[|name| + 1..] == year
  {
    var rest := name + " " + year;
    assert rest[..|name|] == name;
    assert rest[|name|] == ' ';
  }

  // ------------------------------------------------------------ ISO date text

  /** Ten characters: four digits, '-', two digits, '-', two digits. */
  predicate IsIsoShape(s: string)
  {
    |s| == 10 && s[4] == '-' && s[7] == '-'
    && AllDigits(s[..4]) && AllDigits(s[5..7]) && AllDigits(s[8..])
  }

  /** ISO-shaped text whose three numerals are d's year, month number and day. */
  predicate Denotes(s: string, d: CalendarDate)
  {
    IsIsoShape(s)
    && Value(s[..4]) == d.year && Value(s[5..7]) == d.monthIndex + 1 && Value(s[8..]) == d.day
  }

  /**
   * The "YYYY-MM-DD" text a date input holds, read into calendar components:
   * it must name an existing month and a day inside that month.
   */
  function ParseIsoDate(s: string): (r: Option<CalendarDate>)
    ensures r.Some? ==> IsValid(r.value) && r.value.year <= 9999
  {
    if IsIsoShape(s) then
      var year, month, day := Value(s[..4]), Value(s[5..7]), Value(s[8..]);
      assert year < Pow10(4) == 10000;
      if 1 <= month <= 12 && 1 <= day <= DaysInMonth(year, month - 1)
      then Some(CalendarDate(year, month - 1, day))
      else None
    else None
  }

  /** The text is read as d exactly when its numerals are d's and d is a real date. */
  lemma ParseIsoDateDenotes(s: string, d: CalendarDate)
    ensures ParseIsoDate(s) == Some(d) <==> Denotes(s, d) && IsValid(d)
  {
  }

  /**
   * `String(n).padStart(2, '0')`: at least two digits; a number below 100
   * becomes exactly two digits worth the number.
   */
  function TwoDigits(n: nat): (r: string)
    ensures |r| >= 2 && AllDigits(r)
    ensures n < 100 ==> |r| == 2 && Value(r) == n
  {
    var s := Show(n);
    if n < 10 then
      assert PadStart(s, 2, '0') == ['0'] + s;
      ValueLeadingZero(s);
      PadStart(s, 2, '0')
    else
      assert n < 100 ==> n / 10 < 10;
      PadStart(s, 2, '0')
  }

  /**
   * The `${year}-${month}-${day}` text of `getTodayDate`, month and day
   * zero-padded to two places. For a four-digit year it holds the date's own
   * year, month number and day at the ISO positions.
   */
  function IsoDateText(d: CalendarDate): (r: string)
    ensures 1000 <= d.year <= 9999 && d.monthIndex < 99 && d.day < 100 ==> Denotes(r, d)
  {
    var y, m, dd := Show(d.year), TwoDigits(d.monthIndex + 1), TwoDigits(d.day);
    if 1000 <= d.year <= 9999 && d.monthIndex < 99 && d.day < 100 then
      ShowFourDigits(d.year);
      IsoDateFields(y, m, dd);
      y + "-" + m + "-" + dd
    else
      y + "-" + m + "-" + dd
  }

  /** Two digits with a non-zero value are the padded rendering of that value. */
  lemma TwoDigitsOfText(t: string)
    requires |t| == 2 && AllDigits(t) && Value(t) >= 1
    ensures TwoDigits(Value(t)) == t
  {
    if t[0] == '0' {
      var u := t[1..];
      assert t == ['0'] + u;
      ValueLeadingZero(u);
      ShowValue(u);
      assert |Show(Value(t))| == 1;
    } else {
      ShowValue(t);
    }
  }

  /** A four-digit year renders as four characters. */
  lemma ShowFourDigits(year: nat)
    requires 1000 <= year <= 9999
    ensures |Show(year)| == 4
  {
    var hundreds := year / 10;
    var tens := hundreds / 10;
    var units := tens / 10;
    assert 1 <= units < 10 && 10 <= tens < 100 && 100 <= hundreds < 1000;
    assert |Show(tens)| == |Show(units)| + 1 == 2;
    assert |Show(hundreds)| == |Show(tens)| + 1 == 3;
    assert |Show(year)| == |Show(hundreds)| + 1;
  }

  /** The three numerals of ISO date text sit at fixed positions. */
  lemma IsoDateFields(y: string, m: string, dd: string)
    requires |y| == 4 && |m| == 2 && |dd| == 2
    ensures var s := y + "-" + m + "-" + dd;
      |s| == 10 && s[4] == '-' && s[7] == '-' && s[..4] == y && s[5..7] == m && s[8..] == dd
  {
    var s := y + "-" + m + "-" + dd;
    assert s == y + (['-'] + m + ['-'] + dd);
    assert s[4..] == ['-'] + m + ['-'] + dd;
  }

  /** The text `getTodayDate` builds for a date with a four-digit year reads back as that date. */
  lemma IsoDateTextParses(d: CalendarDate)
    requires IsValid(d) && 1000 <= d.year <= 9999
    ensures ParseIsoDate(IsoDateText(d)) == Some(d)
  {
    ParseIsoDateDenotes(IsoDateText(d), d);
  }

  /** A four-digit numeral worth at least 1000 has no leading zero, so it is `${year}`. */
  lemma ShowOfFourDigits(y: string)
    requires |y| == 4 && AllDigits(y) && Value(y) >= 1000
    ensures Show(Value(y)) == y
  {
    var t := y[1..];
    assert y == [y[0]] + t;
    assert Value(t) < Pow10(3) == 1000;
    ValueLeadingZero(t);
    ShowValue(y);
  }

  /** Ten characters with dashes at 4 and 7 are their three numerals joined by dashes. */
  lemma IsoDateJoin(s: string)
    requires |s| == 10 && s[4] == '-' && s[7] == '-'
    ensures s == s[..4] + "-" + s[5..7] + "-" + s[8..]
  {
    var t := s[..4] + "-" + s[5..7] + "-" + s[8..];
    assert |t| == 10;
    forall i | 0 <= i < 10 ensures t[i] == s[i] {
    }
  }

  /** ISO text holding d's numerals, with no leading zero in the year, is what `getTodayDate` builds for d. */
  lemma DenotedIsoDateText(s: string, d: CalendarDate)
    requires Denotes(s, d) && d.year >= 1000 && d.day >= 1
    ensures IsoDateText(d) == s
  {
    assert Show(d.year) == s[..4] by { ShowOfFourDigits(s[..4]); }
    assert TwoDigits(d.monthIndex + 1) == s[5..7] by { TwoDigitsOfText(s[5..7]); }
    assert TwoDigits(d.day) == s[8..] by { TwoDigitsOfText(s[8..]); }
    IsoDateJoin(s);
  }

  /** Conversely, ISO text whose year has no leading zero is exactly what `getTodayDate` builds. */
  lemma ParsedIsoDateText(s: string, d: CalendarDate)
    requires ParseIsoDate(s) == Some(d) && d.year >= 1000
    ensures IsoDateText(d) == s
  {
    ParseIsoDateDenotes(s, d);
    DenotedIsoDateText(s, d);
  }

  /** The form's default date, today's text, formats as today's long form. */
  lemma FormatIsoDateText(d: CalendarDate)
    requires IsValid(d) && 1000 <= d.year <= 9999
    ensures FormatDate(IsoDateText(d)) == LongForm(d)
  {
    IsoDateTextParses(d);
  }

  // ------------------------------------------------------------- examples

  /** The long form of a date is assembled from the texts of its parts. */
  lemma LongFormOfParts(d: CalendarDate, day: string, suffix: string, month: string, year: string)
    requires d.monthIndex < 12
    requires Show(d.day) == day && OrdinalSuffix(d.day) == suffix
    requires MonthName(d.monthIndex) == month && Show(d.year) == year
    ensures LongForm(d) == day + suffix + " " + month + " " + year
  {
  }

  /** Four, two and two digits joined by dashes are read as the date they denote, when it exists. */
  lemma ParseIsoDateOfParts(y: string, m: string, dd: string, d: CalendarDate)
    requires |y| == 4 && |m| == 2 && |dd| == 2 && AllDigits(y) && AllDigits(m) && AllDigits(dd)
    requires Value(y) == d.year && Value(m) == d.monthIndex + 1 && Value(dd) == d.day && IsValid(d)
    ensures ParseIsoDate(y + "-" + m + "-" + dd) == Some(d)
  {
    IsoDateFields(y, m, dd);
    ParseIsoDateDenotes(y + "-" + m + "-" + dd, d);
  }

  /** The year of the seeded letter, as text and as a numeral. */
  lemma Year2025()
    ensures Show(2025) == "2025" && Value("2025") == 2025
  {
  }

  /** "2025-08-31" is read as 31 August 2025. */
  lemma ParseSeededDate()
    ensures ParseIsoDate("2025-08-31") == Some(CalendarDate(2025, 7, 31))
  {
    Year2025();
    assert Value("08") == 8 && Value("31") == 31;
    assert "2025-08-31" == "2025" + "-" + "08" + "-" + "31";
    ParseIsoDateOfParts("2025", "08", "31", CalendarDate(2025, 7, 31));
  }

  /** The seeded letter date: "2025-08-31" formats as "31st August 2025". */
  lemma FormatSeededDate()
    ensures FormatDate("2025-08-31") == "31st August 2025"
  {
    ParseSeededDate();
    Year2025();
    LongFormOfParts(CalendarDate(2025, 7, 31), "31", "st", "August", "2025");
  }

  /** "2025-04-23" is read as 23 April 2025. */
  lemma ParseSeededStartDate()
    ensures ParseIsoDate("2025-04-23") == Some(CalendarDate(2025, 3, 23))
  {
    Year2025();
    assert Value("04") == 4 && Value("23") == 23;
    assert "2025-04-23" == "2025" + "-" + "04" + "-" + "23";
    ParseIsoDateOfParts("2025", "04", "23", CalendarDate(2025, 3, 23));
  }

  /** The seeded start date: "2025-04-23" formats as "23rd April 2025". */
  lemma FormatSeededStartDate()
    ensures FormatDate("2025-04-23") == "23rd April 2025"
  {
    ParseSeededStartDate();
    Year2025();
    LongFormOfParts(CalendarDate(2025, 3, 23), "23", "rd", "April", "2025");
  }

  /** "2025-08-03" is read as 3 August 2025. */
  lemma ParseSeededEndDate()
    ensures ParseIsoDate("2025-08-03") == Some(CalendarDate(2025, 7, 3))
  {
    Year2025();
    assert Value("08") == 8 && Value("03") == 3;
    assert "2025-08-03" == "2025" + "-" + "08" + "-" + "03";
    ParseIsoDateOfParts("2025", "08", "03", CalendarDate(2025, 7, 3));
  }

  /** The seeded end date: "2025-08-03" formats as "3rd August 2025". */
  lemma FormatSeededEndDate()
    ensures FormatDate("2025-08-03") == "3rd August 2025"
  {
    ParseSeededEndDate();
    Year2025();
    LongFormOfParts(CalendarDate(2025, 7, 3), "3", "rd", "August", "2025");
  }

  /** A day-first date is not ISO text: it renders as the Invalid Date text. */
  lemma FormatDayFirstDate()
    ensures FormatDate("31/08/2025") == InvalidDateText
  {
    assert "31/08/2025"[4] == '8';
  }
}
