/**
 * Properties of `parse_date`: every format reads back the date it prints,
 * the formats are tried in the order of `DATE_FORMATS` and the first success
 * wins, the result is the same for a token and its trimmed form, and the ISO
 * form is a fixed point.
 */
module DateProperties {
  import opened Options
  import opened Strings
  import opened Decimals
  import opened Dates

  // ---------------------------------------------------------------- fields and pieces

  /** Each zero-padded field of a valid date is a field its format accepts, with the same value. */
  lemma PrintedFields(d: Date)
    requires ValidDate(d)
    ensures IsYearField(FixedDigits(d.year, 4)) && DigitsValue(FixedDigits(d.year, 4)) == d.year
    ensures IsMonthField(FixedDigits(d.month, 2)) && DigitsValue(FixedDigits(d.month, 2)) == d.month
    ensures IsDayField(FixedDigits(d.day, 2)) && DayValue(FixedDigits(d.day, 2)) == d.day
    ensures IsDayField(FixedDigits(d.month, 2)) && DayValue(FixedDigits(d.month, 2)) == d.month
  {
    assert Pow10(2) == 100 && Pow10(4) == 10000;
  }

  lemma DigitsNoSpace(s: string)
    requires AllDigits(s)
    ensures NoSpace(s)
  {
  }

  /** The three fields of a numeric format, in the order it prints them. */
  function PrintedNumeric(d: Date, order: FieldOrder): seq<string>
  {
    var y := FixedDigits(d.year, 4);
    var m := FixedDigits(d.month, 2);
    var dd := FixedDigits(d.day, 2);
    match order
    case DayMonthYear => [dd, m, y]
    case YearMonthDay => [y, m, dd]
    case MonthDayYear => [m, dd, y]
  }

  lemma PrintNumericForm(d: Date, order: FieldOrder, sep: char)
    requires ValidDate(d)
    ensures var p := PrintedNumeric(d, order);
            Print(d, Numeric(order, sep)) == p[0] + [sep] + p[1] + [sep] + p[2]
  {
  }

  lemma PrintedNumericDigits(d: Date, order: FieldOrder)
    ensures var p := PrintedNumeric(d, order);
            |p| == 3 && AllDigits(p[0]) && AllDigits(p[1]) && AllDigits(p[2])
  {
  }

  /** A printed numeric date holds only digits and its separator. */
  lemma NotInPrintedNumeric(d: Date, order: FieldOrder, sep: char, c: char)
    requires ValidDate(d) && !IsDigit(c) && c != sep
    ensures c !in Print(d, Numeric(order, sep))
  {
    var p := PrintedNumeric(d, order);
    PrintNumericForm(d, order, sep);
    PrintedNumericDigits(d, order);
    NotInDigits(p[0], c);
    NotInDigits(p[1], c);
    NotInDigits(p[2], c);
  }

  lemma NoSpaceConcat(a: string, b: string)
    requires NoSpace(a) && NoSpace(b)
    ensures NoSpace(a + b)
  {
    assert forall i :: |a| <= i < |a + b| ==> (a + b)[i] == b[i - |a|];
  }

  /** With a separator that is not whitespace, a printed numeric date has no whitespace at all. */
  lemma NoSpacePrintedNumeric(d: Date, order: FieldOrder, sep: char)
    requires ValidDate(d) && !IsSpace(sep)
    ensures NoSpace(Print(d, Numeric(order, sep)))
  {
    var p := PrintedNumeric(d, order);
    PrintNumericForm(d, order, sep);
    PrintedNumericDigits(d, order);
    DigitsNoSpace(p[0]);
    DigitsNoSpace(p[1]);
    DigitsNoSpace(p[2]);
    NoSpaceConcat(p[0], [sep]);
    NoSpaceConcat(p[0] + [sep], p[1]);
    NoSpaceConcat(p[0] + [sep] + p[1], [sep]);
    NoSpaceConcat(p[0] + [sep] + p[1] + [sep], p[2]);
  }

  lemma PrintedNumericSplit(d: Date, order: FieldOrder, sep: char)
    requires ValidDate(d) && !IsDigit(sep)
    ensures Split(Print(d, Numeric(order, sep)), sep) == PrintedNumeric(d, order)
  {
    var p := PrintedNumeric(d, order);
    PrintNumericForm(d, order, sep);
    PrintedNumericDigits(d, order);
    NotInDigits(p[0], sep);
    NotInDigits(p[1], sep);
    NotInDigits(p[2], sep);
    Split3(p[0], p[1], p[2], sep);
  }

  lemma NumericPiecesOfPrinted(d: Date, order: FieldOrder)
    requires ValidDate(d)
    ensures NumericPieces(PrintedNumeric(d, order), order) == Some(d)
  {
    PrintedFields(d);
  }

  /** Every numeric format reads back the date it printed. */
  lemma MatchNumericPrinted(d: Date, order: FieldOrder, sep: char)
    requires ValidDate(d) && !IsDigit(sep)
    ensures MatchNumeric(Print(d, Numeric(order, sep)), order, sep) == Some(d)
  {
    PrintedNumericSplit(d, order, sep);
    NumericPiecesOfPrinted(d, order);
  }

  // ---------------------------------------------------------------- month names

  /** Month names read back as the month's number. */
  lemma MonthPosition(month: nat, full: bool)
    requires 1 <= month <= 12
    ensures MonthNumber(MonthName(month, full), full) == month
  {
    MonthWords();
    AbbreviationsDistinct();
    NamesDistinct();
    LowerOfLowerWord(MonthName(month, full));
  }

  lemma MonthNameIsWord(month: nat, full: bool)
    requires 1 <= month <= 12
    ensures IsLowerWord(MonthName(month, full))
  {
    MonthWords();
  }

  /**
   * `%b` rejects every full month name except "may": the abbreviations all
   * have three letters, the other full names more.
   */
  lemma FullNameAsAbbreviation(month: nat)
    requires 1 <= month <= 12
    ensures MonthNumber(MonthName(month, true), false) == (if month == 5 then 5 else 13)
  {
    var name := MonthName(month, true);
    MonthNameIsWord(month, true);
    LowerOfLowerWord(name);
    if month == 5 {
      MayIsBoth();
      MonthPosition(5, false);
    } else {
      NameLengths();
      AbbreviationLengths();
    }
  }

  lemma AbbreviationLengths()
    ensures forall k :: 0 <= k < 12 ==> |MonthAbbreviations[k]| == 3
  {
  }

  lemma NameLengths()
    ensures forall k :: 0 <= k < 12 && k != 4 ==> |MonthNames[k]| > 3
  {
  }

  lemma MayIsBoth()
    ensures MonthNames[4] == MonthAbbreviations[4]
  {
  }

  // ---------------------------------------------------------------- named formats

  lemma PrintNamed(d: Date, full: bool)
    requires ValidDate(d)
    ensures Print(d, Named(full))
         == FixedDigits(d.day, 2) + " " + MonthName(d.month, full) + " " + FixedDigits(d.year, 4)
  {
  }

  lemma PrintedNamedPieces(d: Date, full: bool)
    requires ValidDate(d)
    ensures SplitOnRuns(Print(d, Named(full)), 1)
         == [FixedDigits(d.day, 2), MonthName(d.month, full), FixedDigits(d.year, 4)]
  {
    var y := FixedDigits(d.year, 4);
    var dd := FixedDigits(d.day, 2);
    var name := MonthName(d.month, full);
    MonthNameIsWord(d.month, full);
    DigitsNoSpace(dd);
    DigitsNoSpace(y);
    PrintNamed(d, full);
    SplitOnRuns3(dd, name, y);
  }

  lemma NamedPiecesOfPrinted(d: Date, full: bool)
    requires ValidDate(d)
    ensures NamedPieces([FixedDigits(d.day, 2), MonthName(d.month, full), FixedDigits(d.year, 4)], full) == Some(d)
  {
    PrintedFields(d);
    MonthPosition(d.month, full);
  }

  /** Both named formats read back the date they printed. */
  lemma MatchNamedPrinted(d: Date, full: bool)
    requires ValidDate(d)
    ensures MatchNamed(Print(d, Named(full)), full) == Some(d)
  {
    PrintedNamedPieces(d, full);
    NamedPiecesOfPrinted(d, full);
  }

  /** `%b` reads a date printed with the full month name as that date, or not at all. */
  lemma AbbreviatedReadsFullName(d: Date)
    requires ValidDate(d)
    ensures MatchNamed(Print(d, Named(true)), false) in {None, Some(d)}
  {
    PrintedNamedPieces(d, true);
    FullNameAsAbbreviation(d.month);
    PrintedFields(d);
  }

  /** A printed named date holds only digits, spaces and lower-case letters. */
  lemma NotInPrintedNamed(d: Date, full: bool, c: char)
    requires ValidDate(d) && !IsDigit(c) && c != ' ' && !('a' <= c <= 'z')
    ensures c !in Print(d, Named(full))
  {
    PrintNamed(d, full);
    MonthNameIsWord(d.month, full);
    NotInDigits(FixedDigits(d.day, 2), c);
    NotInDigits(FixedDigits(d.year, 4), c);
  }

  // ---------------------------------------------------------------- the format loop

  /**
   * The first format that matches decides: when format `i` yields `d` and
   * every earlier one yields nothing or the same `d`, the loop yields `d`.
   */
  lemma FirstMatchAt(t: string, formats: seq<DateFormat>, i: nat, d: Date)
    requires IsStripped(t) && i < |formats|
    requires Match(t, formats[i]) == Some(d)
    requires forall j :: 0 <= j < i ==> Match(t, formats[j]) in {None, Some(d)}
    ensures FirstMatch(t, formats) == Some(d)
  {
    FirstSomeAt(Attempts(t, formats), i);
  }

  // ---------------------------------------------------------------- formats that do not apply

  /** A numeric format whose separator does not occur matches nothing. */
  lemma MissNumeric(t: string, order: FieldOrder, sep: char)
    requires sep !in t
    ensures MatchNumeric(t, order, sep) == None
  {
  }

  /** A named format needs three whitespace-separated pieces. */
  lemma MissNamed(t: string, full: bool)
    requires IsStripped(t) && NoSpace(t)
    ensures MatchNamed(t, full) == None
  {
    SplitOnRunsNoSpace(t, 1);
  }

  /** `%d-%m-%Y` rejects an ISO date: its last piece has two digits, not four. */
  lemma DayFirstOnIso(d: Date)
    requires ValidDate(d)
    ensures MatchNumeric(Print(d, Numeric(YearMonthDay, '-')), DayMonthYear, '-') == None
  {
    PrintedNumericSplit(d, YearMonthDay, '-');
  }

  lemma TwoDigitMonthField(f: string, v: nat)
    requires |f| == 2 && AllDigits(f) && DigitsValue(f) == v && v >= 1
    ensures IsMonthField(f) <==> v <= 12
  {
  }

  /**
   * `%d/%m/%Y` reads a month-first date with its day and month swapped when
   * the day could be a month, and rejects it otherwise.
   */
  lemma DayFirstOnMonthFirst(d: Date)
    requires ValidDate(d)
    ensures MatchNumeric(Print(d, Numeric(MonthDayYear, '/')), DayMonthYear, '/')
         == if d.day <= 12 then Some(Date(d.year, d.day, d.month)) else None
  {
    PrintedNumericSplit(d, MonthDayYear, '/');
    PrintedFields(d);
    TwoDigitMonthField(FixedDigits(d.day, 2), d.day);
  }

  // ---------------------------------------------------------------- parse_date of a printed date

  /** Format `i` of the list reads back what it printed. */
  lemma ReadsBackAt(d: Date, i: nat)
    requires ValidDate(d) && i < |DateFormats|
    ensures Match(Print(d, DateFormats[i]), DateFormats[i]) == Some(d)
  {
    match DateFormats[i]
    case Numeric(order, sep) => MatchNumericPrinted(d, order, sep);
    case Named(full) => MatchNamedPrinted(d, full);
  }

  lemma EarlierThanDashDayFirst(d: Date)
    requires ValidDate(d)
    ensures var t := Print(d, DateFormats[1]);
            forall j :: 0 <= j < 1 ==> Match(t, DateFormats[j]) in {None, Some(d)}
  {
    var t := Print(d, DateFormats[1]);
    NotInPrintedNumeric(d, DayMonthYear, '-', '/');
    MissNumeric(t, DayMonthYear, '/');
  }

  /** A printed named date matches neither numeric day-first format. */
  lemma NamedMissesDayFirst(d: Date, full: bool)
    requires ValidDate(d)
    ensures var t := Print(d, Named(full));
            MatchNumeric(t, DayMonthYear, '/') == None && MatchNumeric(t, DayMonthYear, '-') == None
  {
    var t := Print(d, Named(full));
    NotInPrintedNamed(d, full, '/');
    NotInPrintedNamed(d, full, '-');
    MissNumeric(t, DayMonthYear, '/');
    MissNumeric(t, DayMonthYear, '-');
  }

  lemma EarlierThanAbbreviated(d: Date)
    requires ValidDate(d)
    ensures var t := Print(d, DateFormats[2]);
            forall j :: 0 <= j < 2 ==> Match(t, DateFormats[j]) in {None, Some(d)}
  {
    NamedMissesDayFirst(d, false);
  }

  lemma EarlierThanFullName(d: Date)
    requires ValidDate(d)
    ensures var t := Print(d, DateFormats[3]);
            forall j :: 0 <= j < 3 ==> Match(t, DateFormats[j]) in {None, Some(d)}
  {
    var t := Print(d, Named(true));
    assert DateFormats[3] == Named(true);
    NamedMissesDayFirst(d, true);
    AbbreviatedReadsFullName(d);
    assert Match(t, DateFormats[2]) == MatchNamed(t, false);
  }

  lemma EarlierThanIso(d: Date)
    requires ValidDate(d)
    ensures var t := Print(d, DateFormats[4]);
            forall j :: 0 <= j < 4 ==> Match(t, DateFormats[j]) in {None, Some(d)}
  {
    var t := Print(d, Numeric(YearMonthDay, '-'));
    assert DateFormats[4] == Numeric(YearMonthDay, '-');
    NotInPrintedNumeric(d, YearMonthDay, '-', '/');
    MissNumeric(t, DayMonthYear, '/');
    DayFirstOnIso(d);
    NoSpacePrintedNumeric(d, YearMonthDay, '-');
    MissNamed(t, false);
    MissNamed(t, true);
  }

  lemma EarlierThanMonthFirst(d: Date)
    requires ValidDate(d) && (d.day > 12 || d.day == d.month)
    ensures var t := Print(d, DateFormats[5]);
            forall j :: 0 <= j < 5 ==> Match(t, DateFormats[j]) in {None, Some(d)}
  {
    var t := Print(d, Numeric(MonthDayYear, '/'));
    assert DateFormats[5] == Numeric(MonthDayYear, '/');
    DayFirstOnMonthFirst(d);
    NotInPrintedNumeric(d, MonthDayYear, '/', '-');
    MissNumeric(t, DayMonthYear, '-');
    MissNumeric(t, YearMonthDay, '-');
    NoSpacePrintedNumeric(d, MonthDayYear, '/');
    MissNamed(t, false);
    MissNamed(t, true);
  }

  lemma EarlierFormats(d: Date, i: nat)
    requires ValidDate(d) && i < |DateFormats|
    requires i == 5 ==> d.day > 12 || d.day == d.month
    ensures var t := Print(d, DateFormats[i]);
            forall j :: 0 <= j < i ==> Match(t, DateFormats[j]) in {None, Some(d)}
  {
    if i == 1 {
      EarlierThanDashDayFirst(d);
    } else if i == 2 {
      EarlierThanAbbreviated(d);
    } else if i == 3 {
      EarlierThanFullName(d);
    } else if i == 4 {
      EarlierThanIso(d);
    } else if i == 5 {
      EarlierThanMonthFirst(d);
    }
  }

  /**
   * `parse_date` turns every valid date written in any of the accepted
   * formats into its ISO form.  The one exception is `%m/%d/%Y` with a day
   * that could also be a month, which the earlier `%d/%m/%Y` claims.
   */
  lemma ParsePrinted(d: Date, i: nat)
    requires ValidDate(d) && i < |DateFormats|
    requires i == 5 ==> d.day > 12 || d.day == d.month
    ensures ParseDate(Some(Print(d, DateFormats[i]))) == IsoString(d)
  {
    var t := Print(d, DateFormats[i]);
    ReadsBackAt(d, i);
    EarlierFormats(d, i);
    FirstMatchAt(t, DateFormats, i, d);
    ParseStripped(t, d);
  }

  /** Day-first wins: a month-first date whose day is at most 12 is read with day and month swapped. */
  lemma MonthFirstAmbiguous(d: Date)
    requires ValidDate(d) && d.day <= 12
    ensures ParseDate(Some(Print(d, Numeric(MonthDayYear, '/')))) == IsoString(Date(d.year, d.day, d.month))
  {
    var t := Print(d, Numeric(MonthDayYear, '/'));
    DayFirstOnMonthFirst(d);
    FirstMatchAt(t, DateFormats, 0, Date(d.year, d.day, d.month));
    ParseStripped(t, Date(d.year, d.day, d.month));
  }

  /** The ISO form is `%Y-%m-%d`. */
  lemma IsoIsPrinted(d: Date)
    requires ValidDate(d)
    ensures IsoString(d) == Print(d, Numeric(YearMonthDay, '-'))
  {
  }

  /** An ISO date comes back unchanged. */
  lemma ParseIso(d: Date)
    requires ValidDate(d)
    ensures ParseDate(Some(IsoString(d))) == IsoString(d)
  {
    IsoIsPrinted(d);
    ParsePrinted(d, 4);
  }

  /** A trimmed token that no format matches comes back unchanged. */
  lemma ParseUnmatched(t: string)
    requires IsStripped(t)
    requires forall i :: 0 <= i < |DateFormats| ==> Match(t, DateFormats[i]).None?
    ensures ParseDate(Some(t)) == t
  {
    StripOfStripped(t);
  }

  /** `ParseUnmatched` with the six formats spelled out. */
  lemma ParseUnmatchedFormats(t: string)
    requires IsStripped(t)
    requires MatchNumeric(t, DayMonthYear, '/') == None && MatchNumeric(t, DayMonthYear, '-') == None
    requires MatchNamed(t, false) == None && MatchNamed(t, true) == None
    requires MatchNumeric(t, YearMonthDay, '-') == None && MatchNumeric(t, MonthDayYear, '/') == None
    ensures ParseDate(Some(t)) == t
  {
    ParseUnmatched(t);
  }

  /** A trimmed token that `%d/%m/%Y` reads is read that way. */
  lemma ParseDayFirst(t: string, d: Date)
    requires IsStripped(t) && MatchNumeric(t, DayMonthYear, '/') == Some(d)
    ensures ParseDate(Some(t)) == IsoString(d)
  {
    FirstMatchAt(t, DateFormats, 0, d);
    ParseStripped(t, d);
  }

  /** A trimmed token that only `%m/%d/%Y` reads is read that way. */
  lemma ParseMonthFirst(t: string, d: Date)
    requires IsStripped(t)
    requires MatchNumeric(t, DayMonthYear, '/') == None && MatchNumeric(t, DayMonthYear, '-') == None
    requires MatchNamed(t, false) == None && MatchNamed(t, true) == None
    requires MatchNumeric(t, YearMonthDay, '-') == None && MatchNumeric(t, MonthDayYear, '/') == Some(d)
    ensures ParseDate(Some(t)) == IsoString(d)
  {
    FirstMatchAt(t, DateFormats, 5, d);
    ParseStripped(t, d);
  }

  /** `parse_date` is idempotent: its output is already in normal form. */
  lemma ParseDateIdempotent(s: string)
    ensures ParseDate(Some(ParseDate(Some(s)))) == ParseDate(Some(s))
  {
    var t := Strip(s);
    match FirstMatch(t, DateFormats)
    case Some(d) =>
      ParseIso(d);
    case None =>
      StripOfStripped(t);
  }

  /** `parse_date` depends only on the trimmed token. */
  lemma ParseDateTrims(s: string)
    ensures ParseDate(Some(s)) == ParseDate(Some(Strip(s)))
  {
    StripIdempotent(s);
  }

  lemma ParseStripped(t: string, d: Date)
    requires IsStripped(t) && FirstMatch(t, DateFormats) == Some(d)
    ensures ParseDate(Some(t)) == IsoString(d)
  {
    StripOfStripped(t);
  }

  /**
   * A trimmed token comes back unchanged exactly when no format reads it or
   * it is already the ISO form of a valid date.
   */
  lemma ParseDateUnchanged(t: string)
    requires IsStripped(t)
    ensures ParseDate(Some(t)) == t <==> FirstMatch(t, DateFormats).None? || IsIsoDate(t)
  {
    StripOfStripped(t);
    match FirstMatch(t, DateFormats)
    case None =>
    case Some(d) =>
      ParseStripped(t, d);
      IsoDecodeEncode(d);
      if IsIsoDate(t) {
        IsoEncodeDecode(t);
        ParseIso(DecodeIso(t));
      }
  }
}
