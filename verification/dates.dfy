/**
 * The date normaliser `parse_date` of `api/app/utils/dates.py`: the trimmed
 * token is tried against `DATE_FORMATS` in order with `datetime.strptime`,
 * and the first success is printed as ISO `YYYY-MM-DD`; otherwise the
 * trimmed token comes back unchanged.
 */
module Dates {
  import opened Options
  import opened Strings
  import opened Decimals

  /** A `datetime.date`. */
  datatype Date = Date(year: nat, month: nat, day: nat)

  /** The proleptic Gregorian leap-year rule that `datetime` uses. */
  predicate IsLeapYear(y: nat)
  {
    y % 4 == 0 && (y % 100 != 0 || y % 400 == 0)
  }

  function DaysInMonth(year: nat, month: nat): (n: nat)
    requires 1 <= month <= 12
    ensures 28 <= n <= 31
    ensures month == 2 ==> (n == 29 <==> IsLeapYear(year))
  {
    if month == 2 then (if IsLeapYear(year) then 29 else 28)
    else if month == 4 || month == 6 || month == 9 || month == 11 then 30
    else 31
  }

  /** The dates `datetime.date(year, month, day)` accepts: years `MINYEAR` 1 to `MAXYEAR` 9999. */
  predicate ValidDate(d: Date)
  {
    && 1 <= d.year <= 9999
    && 1 <= d.month <= 12
    && 1 <= d.day <= DaysInMonth(d.year, d.month)
  }

  /** `date.isoformat()`: `YYYY-MM-DD`. */
  function IsoString(d: Date): (s: string)
    ensures |s| == 10 && s[4] == '-' && s[7] == '-'
  {
    FixedDigits(d.year, 4) + "-" + FixedDigits(d.month, 2) + "-" + FixedDigits(d.day, 2)
  }

  /** Recogniser for the ISO form of a valid date, independent of `IsoString`. */
  predicate IsIsoDate(r: string)
  {
    && |r| == 10 && r[4] == '-' && r[7] == '-'
    && AllDigits(r[..4]) && AllDigits(r[5..7]) && AllDigits(r[8..])
    && ValidDate(Date(DigitsValue(r[..4]), DigitsValue(r[5..7]), DigitsValue(r[8..])))
  }

  function DecodeIso(r: string): Date
    requires IsIsoDate(r)
  {
    Date(DigitsValue(r[..4]), DigitsValue(r[5..7]), DigitsValue(r[8..]))
  }

  // ---------------------------------------------------------------- strptime fields

  /**
   * What `%d` matches: `3[01]|[12]\d|0[1-9]|[1-9]| [1-9]`, that is one or
   * two digits denoting 1 to 31, or a space and one non-zero digit.
   */
  predicate IsDayField(f: string)
  {
    || (1 <= |f| <= 2 && AllDigits(f) && 1 <= DigitsValue(f) <= 31)
    || (|f| == 2 && f[0] == ' ' && '1' <= f[1] <= '9')
  }

  function DayValue(f: string): (v: nat)
    requires IsDayField(f)
    ensures 1 <= v <= 31
  {
    if AllDigits(f) then DigitsValue(f) else DigitValue(f[1])
  }

  /** What `%m` matches: `1[0-2]|0[1-9]|[1-9]`, one or two digits denoting 1 to 12. */
  predicate IsMonthField(f: string)
  {
    1 <= |f| <= 2 && AllDigits(f) && 1 <= DigitsValue(f) <= 12
  }

  /** What `%Y` matches: exactly four digits. */
  predicate IsYearField(f: string)
  {
    |f| == 4 && AllDigits(f)
  }

  /** The English month names `%b` and `%B` accept, lower-cased; `%b` and `%B` match case-insensitively. */
  const MonthAbbreviations: seq<string> :=
    ["jan", "feb", "mar", "apr", "may", "jun", "jul", "aug", "sep", "oct", "nov", "dec"]

  const MonthNames: seq<string> :=
    ["january", "february", "march", "april", "may", "june",
     "july", "august", "september", "october", "november", "december"]

  // ---------------------------------------------------------------- DATE_FORMATS

  datatype FieldOrder = DayMonthYear | YearMonthDay | MonthDayYear

  /** A numeric format `%d<sep>%m<sep>%Y` (and its reorderings), or `%d %b %Y` / `%d %B %Y`. */
  datatype DateFormat = Numeric(order: FieldOrder, sep: char) | Named(full: bool)

  /** `DATE_FORMATS`, in the order `parse_date` tries them. */
  const DateFormats: seq<DateFormat> := [
    Numeric(DayMonthYear, '/'),
    Numeric(DayMonthYear, '-'),
    Named(false),
    Named(true),
    Numeric(YearMonthDay, '-'),
    Numeric(MonthDayYear, '/')
  ]

  /** The date `datetime` builds from matched fields, or `None` when it raises `ValueError`. */
  function Checked(year: nat, month: nat, day: nat): (r: Option<Date>)
    ensures r.Some? <==> ValidDate(Date(year, month, day))
    ensures r.Some? ==> r.value == Date(year, month, day)
  {
    if ValidDate(Date(year, month, day)) then Some(Date(year, month, day)) else None
  }

  /** The (year, month, day) fields of three pieces in the given order. */
  function Arrange(order: FieldOrder, a: string, b: string, c: string): (string, string, string)
  {
    match order
    case DayMonthYear => (c, b, a)
    case YearMonthDay => (a, b, c)
    case MonthDayYear => (c, a, b)
  }

  /**
   * `datetime.strptime(t, fmt).date()` for one of the formats, `None` where it
   * raises.  The string must match the whole format; a space in a named format
   * matches any run of whitespace.  `parse_date` only ever passes a trimmed
   * string, which is what lets the named formats be read off the
   * whitespace-separated pieces of `t`.
   */
  function Match(t: string, f: DateFormat): (r: Option<Date>)
    requires IsStripped(t)
    ensures r.Some? ==> ValidDate(r.value)
  {
    match f
    case Numeric(order, sep) => MatchNumeric(t, order, sep)
    case Named(full) => MatchNamed(t, full)
  }

  /** `%d<sep>%m<sep>%Y` and its reorderings: exactly three pieces between the separators. */
  function MatchNumeric(t: string, order: FieldOrder, sep: char): (r: Option<Date>)
    ensures r.Some? ==> ValidDate(r.value)
  {
    NumericPieces(Split(t, sep), order)
  }

  function NumericPieces(parts: seq<string>, order: FieldOrder): (r: Option<Date>)
    ensures r.Some? ==> ValidDate(r.value)
  {
    if |parts| != 3 then None
    else
      var (y, m, d) := Arrange(order, parts[0], parts[1], parts[2]);
      if IsYearField(y) && IsMonthField(m) && IsDayField(d) then
        Checked(DigitsValue(y), DigitsValue(m), DayValue(d))
      else None
  }

  /** `%d %b %Y` and `%d %B %Y` on a trimmed string: exactly three whitespace-separated pieces. */
  function MatchNamed(t: string, full: bool): (r: Option<Date>)
    requires IsStripped(t)
    ensures r.Some? ==> ValidDate(r.value)
  {
    NamedPieces(SplitOnRuns(t, 1), full)
  }

  /** The month's number, 1 to 12, or 13 when `word` names no month. */
  function MonthNumber(word: string, full: bool): (k: nat)
    ensures 1 <= k <= 13
  {
    Position(if full then MonthNames else MonthAbbreviations, Lower(word)) + 1
  }

  function NamedPieces(parts: seq<string>, full: bool): (r: Option<Date>)
    ensures r.Some? ==> ValidDate(r.value)
  {
    if |parts| != 3 then None
    else
      var k := MonthNumber(parts[1], full);
      if IsDayField(parts[0]) && k <= 12 && IsYearField(parts[2]) then
        Checked(DigitsValue(parts[2]), k, DayValue(parts[0]))
      else None
  }

  /** What each format makes of `t`, in order. */
  function Attempts(t: string, formats: seq<DateFormat>): (rs: seq<Option<Date>>)
    requires IsStripped(t)
    ensures |rs| == |formats|
    ensures forall i :: 0 <= i < |formats| ==> rs[i] == Match(t, formats[i])
  {
    seq(|formats|, i requires 0 <= i < |formats| => Match(t, formats[i]))
  }

  /** The loop over the formats: the first one that matches decides. */
  function FirstMatch(t: string, formats: seq<DateFormat>): (r: Option<Date>)
    requires IsStripped(t)
    ensures r.Some? ==> ValidDate(r.value)
    ensures r.None? <==> forall i :: 0 <= i < |formats| ==> Match(t, formats[i]).None?
  {
    FirstSome(Attempts(t, formats))
  }

  /**
   * `parse_date(token)`; `None` models a `None` argument.  The result is the
   * ISO form of a valid date or the trimmed token.
   */
  function ParseDate(token: Option<string>): (r: string)
    ensures token.None? ==> r == ""
    ensures token.Some? ==> r == Strip(token.value) || IsIsoDate(r)
  {
    match token
    case None => ""
    case Some(s) =>
      var t := Strip(s);
      match FirstMatch(t, DateFormats)
      case Some(d) =>
        IsoDecodeEncode(d);
        IsoString(d)
      case None => t
  }

  // ---------------------------------------------------------------- ISO form

  /** The ISO form of a valid date is recognised and decodes to that date. */
  lemma IsoDecodeEncode(d: Date)
    requires ValidDate(d)
    ensures IsIsoDate(IsoString(d))
    ensures DecodeIso(IsoString(d)) == d
  {
    var s := IsoString(d);
    assert s[..4] == FixedDigits(d.year, 4);
    assert s[5..7] == FixedDigits(d.month, 2);
    assert s[8..] == FixedDigits(d.day, 2);
  }

  /** A recognised ISO string is the ISO form of the date it decodes to. */
  lemma IsoEncodeDecode(r: string)
    requires IsIsoDate(r)
    ensures IsoString(DecodeIso(r)) == r
  {
    FixedDigitsOfDigits(r[..4]);
    FixedDigitsOfDigits(r[5..7]);
    FixedDigitsOfDigits(r[8..]);
    assert r == r[..4] + "-" + r[5..7] + "-" + r[8..];
  }

  // ---------------------------------------------------------------- printing in a format

  function MonthName(month: nat, full: bool): string
    requires 1 <= month <= 12
  {
    if full then MonthNames[month - 1] else MonthAbbreviations[month - 1]
  }

  /**
   * `d.strftime(fmt)` with zero-padded fields, up to the letter case of month
   * names: the reference writer every format must read back.
   */
  function Print(d: Date, f: DateFormat): (r: string)
    requires ValidDate(d)
    ensures IsStripped(r)
  {
    var y := FixedDigits(d.year, 4);
    var m := FixedDigits(d.month, 2);
    var dd := FixedDigits(d.day, 2);
    var (first, middle, last) :=
      match f
      case Numeric(DayMonthYear, sep) => (dd, [sep] + m + [sep], y)
      case Numeric(YearMonthDay, sep) => (y, [sep] + m + [sep], dd)
      case Numeric(MonthDayYear, sep) => (m, [sep] + dd + [sep], y)
      case Named(full) => (dd, " " + MonthName(d.month, full) + " ", y);
    DigitEnds(first, middle, last);
    first + middle + last
  }

  /** `DATE_FORMATS` as format strings, in the same order as `DateFormats`. */
  const FormatStrings: seq<string> := ["%d/%m/%Y", "%d-%m-%Y", "%d %b %Y", "%d %B %Y", "%Y-%m-%d", "%m/%d/%Y"]

  /** What `strftime` writes for `%d`, `%m`, `%Y`, `%b` and `%B`; no other directive is used. */
  function Field(c: char, d: Date): string
    requires ValidDate(d)
  {
    match c
    case 'd' => FixedDigits(d.day, 2)
    case 'm' => FixedDigits(d.month, 2)
    case 'Y' => FixedDigits(d.year, 4)
    case 'b' => MonthName(d.month, false)
    case 'B' => MonthName(d.month, true)
    case _ => ['%', c]
  }

  /** `d.strftime(fmt)`: directives replaced by their fields, other characters copied. */
  function Strftime(fmt: string, d: Date): string
    requires ValidDate(d)
    decreases |fmt|
  {
    if |fmt| == 0 then ""
    else if fmt[0] == '%' && |fmt| >= 2 then Field(fmt[1], d) + Strftime(fmt[2..], d)
    else [fmt[0]] + Strftime(fmt[1..], d)
  }

  lemma StrftimeDirective(c: char, rest: string, d: Date)
    requires ValidDate(d)
    ensures Strftime(['%', c] + rest, d) == Field(c, d) + Strftime(rest, d)
  {
    assert (['%', c] + rest)[2..] == rest;
  }

  lemma StrftimeLiteral(ch: char, rest: string, d: Date)
    requires ValidDate(d) && ch != '%'
    ensures Strftime([ch] + rest, d) == [ch] + Strftime(rest, d)
  {
    assert ([ch] + rest)[1..] == rest;
  }

  /** Three directives with one separator character between each. */
  lemma StrftimeThree(a: char, s: char, b: char, t: char, c: char, d: Date)
    requires ValidDate(d) && s != '%' && t != '%'
    ensures Strftime(['%', a, s, '%', b, t, '%', c], d) == Field(a, d) + ([s] + (Field(b, d) + ([t] + Field(c, d))))
  {
    assert ['%', c] + [] == ['%', c];
    StrftimeDirective(c, [], d);
    StrftimeLiteral(t, ['%', c], d);
    assert ['%', b] + [t, '%', c] == ['%', b, t, '%', c];
    StrftimeDirective(b, [t, '%', c], d);
    assert [s] + ['%', b, t, '%', c] == [s, '%', b, t, '%', c];
    StrftimeLiteral(s, ['%', b, t, '%', c], d);
    assert ['%', a] + [s, '%', b, t, '%', c] == ['%', a, s, '%', b, t, '%', c];
    StrftimeDirective(a, [s, '%', b, t, '%', c], d);
  }

  /**
   * `Print` writes what `strftime` writes for the source's format string:
   * each `DateFormats` entry is the format that string spells.
   */
  lemma PrintIsStrftime(d: Date, i: nat)
    requires ValidDate(d) && i < |DateFormats|
    ensures |FormatStrings| == |DateFormats|
    ensures Print(d, DateFormats[i]) == Strftime(FormatStrings[i], d)
  {
    if i == 0 {
      assert FormatStrings[0] == ['%', 'd', '/', '%', 'm', '/', '%', 'Y'];
      StrftimeThree('d', '/', 'm', '/', 'Y', d);
      NumericLayout(d, DayMonthYear, '/');
    } else if i == 1 {
      assert FormatStrings[1] == ['%', 'd', '-', '%', 'm', '-', '%', 'Y'];
      StrftimeThree('d', '-', 'm', '-', 'Y', d);
      NumericLayout(d, DayMonthYear, '-');
    } else if i == 2 {
      assert FormatStrings[2] == ['%', 'd', ' ', '%', 'b', ' ', '%', 'Y'];
      StrftimeThree('d', ' ', 'b', ' ', 'Y', d);
      NamedLayout(d, false);
    } else if i == 3 {
      assert FormatStrings[3] == ['%', 'd', ' ', '%', 'B', ' ', '%', 'Y'];
      StrftimeThree('d', ' ', 'B', ' ', 'Y', d);
      NamedLayout(d, true);
    } else if i == 4 {
      assert FormatStrings[4] == ['%', 'Y', '-', '%', 'm', '-', '%', 'd'];
      StrftimeThree('Y', '-', 'm', '-', 'd', d);
      NumericLayout(d, YearMonthDay, '-');
    } else {
      assert FormatStrings[5] == ['%', 'm', '/', '%', 'd', '/', '%', 'Y'];
      StrftimeThree('m', '/', 'd', '/', 'Y', d);
      NumericLayout(d, MonthDayYear, '/');
    }
  }

  /** The three fields of a numeric format, in its order, with the separator between them. */
  lemma NumericLayout(d: Date, order: FieldOrder, sep: char)
    requires ValidDate(d)
    ensures var (a, b, c) := match order
                             case DayMonthYear => ('d', 'm', 'Y')
                             case YearMonthDay => ('Y', 'm', 'd')
                             case MonthDayYear => ('m', 'd', 'Y');
            Print(d, Numeric(order, sep)) == Field(a, d) + ([sep] + (Field(b, d) + ([sep] + Field(c, d))))
  {
  }

  /** A named format: day, the month's name and year, separated by spaces. */
  lemma NamedLayout(d: Date, full: bool)
    requires ValidDate(d)
    ensures Print(d, Named(full)) == Field('d', d) + ([' '] + (Field(if full then 'B' else 'b', d) + ([' '] + Field('Y', d))))
  {
  }

  lemma DigitEnds(first: string, middle: string, last: string)
    requires |first| > 0 && |last| > 0 && AllDigits(first) && AllDigits(last)
    ensures IsStripped(first + middle + last)
  {
    var r := first + middle + last;
    assert r[0] == first[0] && r[|r| - 1] == last[|last| - 1];
  }

  lemma MonthWords()
    ensures forall k :: 0 <= k < 12 ==> IsLowerWord(MonthAbbreviations[k]) && IsLowerWord(MonthNames[k])
  {
  }

  lemma AbbreviationsDistinct()
    ensures forall j, k :: 0 <= j < k < 12 ==> MonthAbbreviations[j] != MonthAbbreviations[k]
  {
  }

  lemma NamesDistinct()
    ensures forall j, k :: 0 <= j < k < 12 ==> MonthNames[j] != MonthNames[k]
  {
  }
}
