/** Worked examples of `parse_date` on concrete tokens. */
module DateExamples {
  import opened Options
  import opened Strings
  import opened Decimals
  import opened Dates
  import opened DateProperties

  lemma YearValue()
    ensures DigitsValue("2024") == 2024
  {
    assert "2024"[..3] == "202";
    assert "202"[..2] == "20";
    assert "20"[..1] == "2";
  }

  lemma SmallValues()
    ensures DigitsValue("01") == 1 && DigitsValue("02") == 2
    ensures DigitsValue("12") == 12 && DigitsValue("31") == 31
  {
  }

  /** `IsoString` of a date decoded from a recognised ISO string gives that string back. */
  lemma IsoOf(r: string, d: Date)
    requires IsIsoDate(r) && DecodeIso(r) == d
    ensures IsoString(d) == r && ValidDate(d)
  {
    IsoEncodeDecode(r);
  }

  lemma IsoFirstOfFebruary()
    ensures IsoString(Date(2024, 2, 1)) == "2024-02-01"
  {
    var r := "2024-02-01";
    assert r[..4] == "2024";
    assert r[5..7] == "02";
    assert r[8..] == "01";
    YearValue();
    SmallValues();
    IsoOf(r, Date(2024, 2, 1));
  }

  lemma IsoLastOfJanuary()
    ensures IsoString(Date(2024, 1, 31)) == "2024-01-31"
  {
    var r := "2024-01-31";
    assert r[..4] == "2024";
    assert r[5..7] == "01";
    assert r[8..] == "31";
    YearValue();
    SmallValues();
    IsoOf(r, Date(2024, 1, 31));
  }

  lemma IsoLastOfDecember()
    ensures IsoString(Date(2024, 12, 31)) == "2024-12-31"
  {
    var r := "2024-12-31";
    assert r[..4] == "2024";
    assert r[5..7] == "12";
    assert r[8..] == "31";
    YearValue();
    SmallValues();
    IsoOf(r, Date(2024, 12, 31));
  }

  /** The slash-separated pieces of a token of two, two and four characters. */
  lemma SlashPieces(t: string, a: string, b: string, c: string)
    requires t == a + ['/'] + b + ['/'] + c
    requires AllDigits(a) && AllDigits(b) && AllDigits(c)
    ensures Split(t, '/') == [a, b, c]
  {
    NotInDigits(a, '/');
    NotInDigits(b, '/');
    NotInDigits(c, '/');
    Split3(a, b, c, '/');
  }

  /** Formats 1 to 4 do not apply to a trimmed token of digits and slashes. */
  lemma SlashTokenMisses(t: string, a: string, b: string, c: string)
    requires t == a + ['/'] + b + ['/'] + c
    requires |a| > 0 && |c| > 0 && AllDigits(a) && AllDigits(b) && AllDigits(c)
    ensures IsStripped(t)
    ensures MatchNumeric(t, DayMonthYear, '-') == None && MatchNumeric(t, YearMonthDay, '-') == None
    ensures MatchNamed(t, false) == None && MatchNamed(t, true) == None
  {
    DigitEnds(a, ['/'] + b + ['/'], c);
    NotInDigits(a, '-');
    NotInDigits(b, '-');
    NotInDigits(c, '-');
    DigitsNoSpace(a);
    DigitsNoSpace(b);
    DigitsNoSpace(c);
    NoSpaceConcat(a, ['/']);
    NoSpaceConcat(a + ['/'], b);
    NoSpaceConcat(a + ['/'] + b, ['/']);
    NoSpaceConcat(a + ['/'] + b + ['/'], c);
    MissNumeric(t, DayMonthYear, '-');
    MissNumeric(t, YearMonthDay, '-');
    MissNamed(t, false);
    MissNamed(t, true);
  }

  lemma DayFirstReads(t: string, a: string, b: string, d: Date)
    requires t == a + ['/'] + b + ['/'] + "2024"
    requires |a| == 2 && |b| == 2 && AllDigits(a) && AllDigits(b)
    requires d == Date(2024, DigitsValue(b), DigitsValue(a)) && ValidDate(d)
    ensures ParseDate(Some(t)) == IsoString(d)
  {
    SlashTokenMisses(t, a, b, "2024");
    SlashPieces(t, a, b, "2024");
    YearValue();
    ParseDayFirst(t, d);
  }

  /** Day-first comes first: `01/02/2024` is the first of February. */
  lemma DayFirstExample()
    ensures ParseDate(Some("01/02/2024")) == "2024-02-01"
  {
    SmallValues();
    DayFirstReads("01/02/2024", "01", "02", Date(2024, 2, 1));
    IsoFirstOfFebruary();
  }

  lemma DayFirstUnambiguous()
    ensures ParseDate(Some("31/01/2024")) == "2024-01-31"
  {
    SmallValues();
    DayFirstReads("31/01/2024", "31", "01", Date(2024, 1, 31));
    IsoLastOfJanuary();
  }

  /** Fields `a/b/2024` with `b` above 12: day-first rejects them, month-first reads `d`. */
  lemma MonthFirstPieces(a: string, b: string, d: Date)
    requires |a| == 2 && |b| == 2 && AllDigits(a) && AllDigits(b) && DigitsValue(b) > 12
    requires d == Date(2024, DigitsValue(a), DigitsValue(b)) && ValidDate(d)
    ensures NumericPieces([a, b, "2024"], DayMonthYear) == None
    ensures NumericPieces([a, b, "2024"], MonthDayYear) == Some(d)
  {
    YearValue();
  }

  lemma MonthFirstReads(t: string, a: string, b: string, d: Date)
    requires t == a + ['/'] + b + ['/'] + "2024"
    requires |a| == 2 && |b| == 2 && AllDigits(a) && AllDigits(b) && DigitsValue(b) > 12
    requires d == Date(2024, DigitsValue(a), DigitsValue(b)) && ValidDate(d)
    ensures ParseDate(Some(t)) == IsoString(d)
  {
    SlashTokenMisses(t, a, b, "2024");
    SlashPieces(t, a, b, "2024");
    MonthFirstPieces(a, b, d);
    ParseMonthFirst(t, d);
  }

  /** A day above 12 can only be month-first, so the last format reads it. */
  lemma MonthFirstExample()
    ensures ParseDate(Some("12/31/2024")) == "2024-12-31"
  {
    SmallValues();
    MonthFirstReads("12/31/2024", "12", "31", Date(2024, 12, 31));
    IsoLastOfDecember();
  }

  /** Fields `a/b/2024` with `a` above 12 and no valid day `a` of month `b`: both slash formats reject them. */
  lemma InvalidPieces(a: string, b: string)
    requires |a| == 2 && |b| == 2 && AllDigits(a) && AllDigits(b) && DigitsValue(a) > 12
    requires !ValidDate(Date(2024, DigitsValue(b), DigitsValue(a)))
    ensures NumericPieces([a, b, "2024"], DayMonthYear) == None
    ensures NumericPieces([a, b, "2024"], MonthDayYear) == None
  {
    YearValue();
  }

  lemma InvalidDateReads(t: string, a: string, b: string)
    requires t == a + ['/'] + b + ['/'] + "2024"
    requires |a| == 2 && |b| == 2 && AllDigits(a) && AllDigits(b) && DigitsValue(a) > 12
    requires !ValidDate(Date(2024, DigitsValue(b), DigitsValue(a)))
    ensures ParseDate(Some(t)) == t
  {
    SlashTokenMisses(t, a, b, "2024");
    SlashPieces(t, a, b, "2024");
    InvalidPieces(a, b);
    ParseUnmatchedFormats(t);
  }

  /** The thirty-first of February fails in every format and comes back unchanged. */
  lemma InvalidDateExample()
    ensures ParseDate(Some("31/02/2024")) == "31/02/2024"
  {
    SmallValues();
    assert !ValidDate(Date(2024, 2, 31));
    InvalidDateReads("31/02/2024", "31", "02");
  }

  /** An ISO date is already normal. */
  lemma IsoExample()
    ensures ParseDate(Some("2024-01-31")) == "2024-01-31"
  {
    IsoLastOfJanuary();
    ParseIso(Date(2024, 1, 31));
  }

  lemma WordsShape(t: string, x: string, y: string, z: string)
    requires t == x + ['-'] + y + ['-'] + z
    requires IsLowerWord(x) && IsLowerWord(y) && IsLowerWord(z)
    ensures IsStripped(t) && NoSpace(t) && '/' !in t
    ensures Split(t, '-') == [x, y, z]
  {
    assert t[0] == x[0] && t[|t| - 1] == z[|z| - 1];
    assert forall i :: 0 <= i < |t| ==> t[i] == '-' || 'a' <= t[i] <= 'z';
    Split3(x, y, z, '-');
  }

  lemma WordsPieces(x: string, y: string, z: string)
    requires IsLowerWord(x) && IsLowerWord(z)
    ensures NumericPieces([x, y, z], DayMonthYear) == None
    ensures NumericPieces([x, y, z], YearMonthDay) == None
  {
    assert !IsDigit(x[0]) && !IsDigit(z[0]);
  }

  /** Three lower-case words joined by dashes are no date. */
  lemma WordsRead(t: string, x: string, y: string, z: string)
    requires t == x + ['-'] + y + ['-'] + z
    requires IsLowerWord(x) && IsLowerWord(y) && IsLowerWord(z)
    ensures ParseDate(Some(t)) == t
  {
    WordsShape(t, x, y, z);
    WordsPieces(x, y, z);
    MissNumeric(t, DayMonthYear, '/');
    MissNumeric(t, MonthDayYear, '/');
    MissNamed(t, false);
    MissNamed(t, true);
    ParseUnmatchedFormats(t);
  }

  /** A token that is no date comes back trimmed. */
  lemma NotADateExample()
    ensures ParseDate(Some("not-a-date")) == "not-a-date"
  {
    WordsRead("not-a-date", "not", "a", "date");
  }
}
