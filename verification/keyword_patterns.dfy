/**
 * A concrete `Matcher` for the four patterns of `extract_financial_totals`
 * that need no backtracking: `total`, `subtotal`, `tax` and `grand\s+total`,
 * each followed by `[\s:]*\$?([0-9,]+\.?[0-9]*)` and matched case-blind.
 * Every part after the keyword is greedy and stops at a character the next
 * part cannot start with, so the first attempt at a position is the match.
 * The `amount[\s\w]*…` and `balance[\s\w]*…` patterns backtrack over
 * `\w`; their captures stay a parameter.
 */
module KeywordPatterns {
  import opened Options
  import opened Strings
  import opened Decimals
  import opened Numbers
  import opened FinancialTotals

  /** The letters `(?i)` lets match a lower-case keyword letter: its upper case, and U+017F (long s) for `s`. */
  predicate FoldsTo(c: char, k: char)
  {
    LowerChar(c) == k || (k == 's' && c == '\U{017F}')
  }

  /** `s` starts with `word`, letters compared as `(?i)` compares them. */
  predicate StartsWithWord(s: string, word: string)
  {
    |word| <= |s| && forall i :: 0 <= i < |word| ==> FoldsTo(s[i], word[i])
  }

  /** Keywords as the patterns spell them: non-empty runs of lower-case letters. */
  predicate IsKeyword(words: seq<string>)
  {
    |words| > 0 && forall i :: 0 <= i < |words| ==> IsLowerWord(words[i])
  }

  /** The length of the longest prefix of `s` whose characters all satisfy `p`. */
  function LeadingRun(p: char -> bool, s: string): (n: nat)
    ensures n <= |s|
    ensures forall i :: 0 <= i < n ==> p(s[i])
    ensures n == |s| || !p(s[n])
  {
    if |s| > 0 && p(s[0]) then 1 + LeadingRun(p, s[1..]) else 0
  }

  /** `[\s:]`. */
  predicate IsSeparator(c: char) { IsSpace(c) || c == ':' }

  /** `[0-9,]`. */
  predicate IsAmountChar(c: char) { IsDigit(c) || c == ',' }

  /** The length of the keyword part `w1[\s]+w2…` at the start of `s`, if it is there. */
  function KeywordLength(words: seq<string>, s: string): (n: Option<nat>)
    requires IsKeyword(words)
    ensures n.Some? ==> |words[0]| <= n.value <= |s|
    decreases |words|
  {
    if !StartsWithWord(s, words[0]) then None
    else if |words| == 1 then Some(|words[0]|)
    else
      var rest := s[|words[0]|..];
      var gap := SpaceRun(rest);
      if gap == 0 then None
      else
        match KeywordLength(words[1..], rest[gap..])
        case None => None
        case Some(m) => Some(|words[0]| + gap + m)
  }

  /** The length of the `[0-9,]+\.?[0-9]*` part at the start of `t`; 0 when there is none. */
  function AmountLength(t: string): (n: nat)
    ensures n <= |t|
    ensures n == 0 <==> t == [] || !IsAmountChar(t[0])
    ensures n > 0 ==> IsCapture(t[..n])
  {
    var whole := LeadingRun(IsAmountChar, t);
    if whole == 0 then 0
    else
      var d := if whole < |t| && t[whole] == '.' then whole + 1 else whole;
      var n := d + LeadingRun(IsDigit, t[d..]);
      if d > whole then
        assert t[..n][whole + 1..] == t[d..n];
        assert IsWholePart(t[..n], whole);
        n
      else
        assert IsWholePart(t[..n], whole);
        n
  }

  /** Where the amount part starts once the keyword ends at `k`: after the separators and an optional `$`. */
  function AmountStart(s: string, k: nat): (b: nat)
    requires k <= |s|
    ensures k <= b <= |s|
  {
    var a := k + LeadingRun(IsSeparator, s[k..]);
    if a < |s| && s[a] == '$' then a + 1 else a
  }

  /**
   * The match starting at `s[0]`, if any: where it ends and its group 1.
   * After the keyword come separators, an optional `$`, then the amount.
   */
  function MatchAt(words: seq<string>, s: string): (r: Option<(nat, string)>)
    requires IsKeyword(words)
    ensures r.Some? ==> 0 < r.value.0 <= |s| && IsCapture(r.value.1)
  {
    match KeywordLength(words, s)
    case None => None
    case Some(k) =>
      var b := AmountStart(s, k);
      var n := AmountLength(s[b..]);
      if n == 0 then None else Some((b + n, s[b..][..n]))
  }

  /** `re.finditer`: try every position from the left; after a match, go on from its end. */
  function FindAll(words: seq<string>, s: string): (captures: seq<string>)
    requires IsKeyword(words)
    ensures forall i :: 0 <= i < |captures| ==> IsCapture(captures[i])
    decreases |s|
  {
    if |s| == 0 then []
    else
      match MatchAt(words, s)
      case Some((e, capture)) => [capture] + FindAll(words, s[e..])
      case None => FindAll(words, s[1..])
  }

  /** What group 1 can hold: `[0-9,]+`, then optionally `.` and `[0-9]*`. */
  predicate IsCapture(c: string)
  {
    exists w :: 0 < w <= |c| && IsWholePart(c, w)
  }

  /** `c[..w]` is the `[0-9,]+` part and the rest is empty or `.` followed by digits. */
  predicate IsWholePart(c: string, w: nat)
  {
    && 0 < w <= |c|
    && (forall i :: 0 <= i < w ==> IsAmountChar(c[i]))
    && (w == |c| || (c[w] == '.' && AllDigits(c[w + 1..])))
  }

  /** The words of the four keyword patterns. */
  function KeywordOf(kind: Label): (words: seq<string>)
    requires kind != Amount && kind != Balance
    ensures IsKeyword(words)
  {
    match kind
    case Total => ["total"]
    case Subtotal => ["subtotal"]
    case Tax => ["tax"]
    case GrandTotal => ["grand", "total"]
  }

  /** The matcher with the keyword patterns made concrete and the other two taken from `backtracking`. */
  function KeywordMatcher(backtracking: Matcher): (m: Matcher)
    ensures forall kind, line :: kind == Amount || kind == Balance ==> m(kind, line) == backtracking(kind, line)
    ensures forall kind, line :: kind != Amount && kind != Balance ==> m(kind, line) == FindAll(KeywordOf(kind), line)
    ensures forall kind, line :: kind != Amount && kind != Balance
              ==> forall i :: 0 <= i < |m(kind, line)| ==> IsCapture(m(kind, line)[i])
  {
    (kind: Label, line: string) =>
      if kind == Amount || kind == Balance then backtracking(kind, line)
      else FindAll(KeywordOf(kind), line)
  }

  // ---------------------------------------------------------------- properties

  /** A keyword pattern needs a `[0-9,]` character for its group: a line without one matches nothing. */
  lemma KeywordNeedsAmountChar(backtracking: Matcher, kind: Label, line: string)
    requires kind != Amount && kind != Balance
    requires forall j :: 0 <= j < |line| ==> !IsAmountChar(line[j])
    ensures KeywordMatcher(backtracking)(kind, line) == []
  {
    FindAllWithoutAmountChars(KeywordOf(kind), line);
  }

  lemma {:induction false} FindAllWithoutAmountChars(words: seq<string>, s: string)
    requires IsKeyword(words)
    requires forall j :: 0 <= j < |s| ==> !IsAmountChar(s[j])
    ensures FindAll(words, s) == []
    decreases |s|
  {
    if |s| > 0 {
      if MatchAt(words, s).Some? {
        MatchAtHasAmountChar(words, s);
        assert false;
      }
      FindAllWithoutAmountChars(words, s[1..]);
    }
  }

  /** A match's group starts at a `[0-9,]` character of the line. */
  lemma MatchAtHasAmountChar(words: seq<string>, s: string)
    requires IsKeyword(words)
    requires MatchAt(words, s).Some?
    ensures exists j :: 0 <= j < |s| && IsAmountChar(s[j])
  {
    var k := KeywordLength(words, s).value;
    var b := AmountStart(s, k);
    assert AmountLength(s[b..]) > 0;
    assert IsAmountChar(s[b..][0]);
  }

  /** Removing the commas from `[0-9,]*` leaves digits, and some are left exactly when there was one. */
  lemma {:induction false} AmountCharsFiltered(x: string)
    requires forall i :: 0 <= i < |x| ==> IsAmountChar(x[i])
    ensures AllDigits(Filter(IsNotComma, x))
    ensures |Filter(IsNotComma, x)| > 0 <==> HasDigit(x)
    decreases |x|
  {
    if |x| > 0 {
      AmountCharsFiltered(x[1..]);
      var head := if IsNotComma(x[0]) then [x[0]] else [];
      assert Filter(IsNotComma, x) == head + Filter(IsNotComma, x[1..]);
      assert HasDigit(x) <==> IsDigit(x[0]) || HasDigit(x[1..]) by {
        assert forall i :: 1 <= i < |x| ==> x[i] == x[1..][i - 1];
      }
    }
  }

  /** A digit of `a + b` is a digit of `a` or of `b`. */
  lemma HasDigitConcat(a: string, b: string)
    ensures HasDigit(a + b) <==> HasDigit(a) || HasDigit(b)
  {
    if HasDigit(a + b) {
      var i :| 0 <= i < |a + b| && IsDigit((a + b)[i]);
      if i >= |a| { assert b[i - |a|] == (a + b)[i]; }
    }
    if HasDigit(b) {
      var i :| 0 <= i < |b| && IsDigit(b[i]);
      assert (a + b)[|a| + i] == b[i];
    }
    if HasDigit(a) {
      var i :| 0 <= i < |a| && IsDigit(a[i]);
      assert (a + b)[i] == a[i];
    }
  }

  /** With the commas gone a capture is its whole part's digits followed by the unchanged point part. */
  lemma CaptureFiltered(c: string, w: nat)
    requires IsWholePart(c, w)
    ensures Filter(IsNotComma, c) == Filter(IsNotComma, c[..w]) + c[w..]
    ensures AllDigits(Filter(IsNotComma, c[..w]))
    ensures |Filter(IsNotComma, c[..w])| > 0 <==> HasDigit(c[..w])
  {
    var whole, rest := c[..w], c[w..];
    assert c == whole + rest;
    assert forall i :: 0 <= i < |whole| ==> IsAmountChar(whole[i]);
    AmountCharsFiltered(whole);
    assert forall i :: 0 <= i < |rest| ==> IsNotComma(rest[i]) by {
      if w < |c| {
        assert forall i :: 1 <= i < |rest| ==> rest[i] == c[w + 1..][i - 1];
      }
    }
    FilterAll(IsNotComma, rest);
    FilterConcat(IsNotComma, whole, rest);
  }

  /** Digits, a point and digits make a literal once there is a digit on either side. */
  lemma PointLiteral(u: string, f: string)
    requires AllDigits(u) && AllDigits(f)
    ensures IsDecimalLiteral(u + "." + f) <==> |u| + |f| > 0
  {
    var l := u + "." + f;
    assert l[..|u|] == u && l[|u| + 1..] == f;
    assert IsPointAt(l, |u|);
    if |u| > 0 { assert l[0] == u[0]; }
  }

  /** Digits alone make a literal once there is one. */
  lemma DigitsLiteral(u: string)
    requires AllDigits(u)
    ensures IsDecimalLiteral(u) <==> |u| > 0
  {
    NoPointInDigits(u);
    if |u| > 0 {
      assert IsDigit(u[0]);
    }
  }

  /**
   * A capture of the keyword patterns converts exactly when it holds a
   * digit: the only captures `float` refuses are those made of commas,
   * possibly followed by a lone point.
   */
  lemma CaptureConverts(c: string)
    requires IsCapture(c)
    ensures CaptureValue(c).Some? <==> HasDigit(c)
  {
    var w :| 0 < w <= |c| && IsWholePart(c, w);
    CaptureLiteral(c, w);
  }

  /** With its commas removed, a capture is a `float` literal exactly when it holds a digit. */
  lemma CaptureLiteral(c: string, w: nat)
    requires IsWholePart(c, w)
    ensures IsDecimalLiteral(Filter(IsNotComma, c)) <==> HasDigit(c)
  {
    CaptureFiltered(c, w);
    assert c == c[..w] + c[w..];
    HasDigitConcat(c[..w], c[w..]);
    LiteralOfParts(Filter(IsNotComma, c[..w]), c[w..]);
  }

  /** Digits followed by nothing, or by a point and digits, make a literal exactly when there is a digit. */
  lemma LiteralOfParts(u: string, rest: string)
    requires AllDigits(u)
    requires rest == [] || (rest[0] == '.' && AllDigits(rest[1..]))
    ensures IsDecimalLiteral(u + rest) <==> |u| > 0 || HasDigit(rest)
  {
    if rest == [] {
      assert u + rest == u;
      assert !HasDigit(rest);
      DigitsLiteral(u);
    } else {
      var f := rest[1..];
      assert rest == "." + f;
      HasDigitConcat(".", f);
      assert !HasDigit(".") by { assert !IsDigit("."[0]); }
      assert HasDigit(f) <==> |f| > 0 by {
        if |f| > 0 { assert IsDigit(f[0]); }
      }
      assert u + rest == u + "." + f;
      PointLiteral(u, f);
    }
  }

  // ---------------------------------------------------------------- matching lines

  /** `LeadingRun` stops exactly at the first character outside `p`. */
  lemma LeadingRunOf(p: char -> bool, a: string, b: string)
    requires forall i :: 0 <= i < |a| ==> p(a[i])
    requires b == [] || !p(b[0])
    ensures LeadingRun(p, a + b) == |a|
  {
    if b != [] { assert (a + b)[|a|] == b[0]; }
  }

  /** The amount part reads a whole capture. */
  lemma AmountLengthOfCapture(c: string, w: nat)
    requires IsWholePart(c, w)
    ensures AmountLength(c) == |c|
  {
    assert c == c[..w] + c[w..];
    LeadingRunOf(IsAmountChar, c[..w], c[w..]);
    if w < |c| {
      assert c[w + 1..] == c[w + 1..] + [];
      LeadingRunOf(IsDigit, c[w + 1..], []);
    }
  }

  /**
   * A line made of a keyword, separators, an optional dollar sign and an
   * amount yields exactly that amount for the keyword's pattern.
   */
  lemma KeywordLine(word: string, kw: string, sep: string, dollar: string, amount: string, w: nat)
    requires IsLowerWord(word) && |kw| == |word| && StartsWithWord(kw, word)
    requires forall i :: 0 <= i < |sep| ==> IsSeparator(sep[i])
    requires dollar == "" || dollar == "$"
    requires IsWholePart(amount, w)
    ensures FindAll([word], kw + sep + dollar + amount) == [amount]
  {
    var line := kw + sep + dollar + amount;
    KeywordLineMatch(word, kw, sep, dollar, amount, w);
    assert line[|line|..] == [];
  }

  /** The match at the start of such a line takes the whole line. */
  lemma KeywordLineMatch(word: string, kw: string, sep: string, dollar: string, amount: string, w: nat)
    requires IsLowerWord(word) && |kw| == |word| && StartsWithWord(kw, word)
    requires forall i :: 0 <= i < |sep| ==> IsSeparator(sep[i])
    requires dollar == "" || dollar == "$"
    requires IsWholePart(amount, w)
    ensures MatchAt([word], kw + sep + dollar + amount) == Some((|kw + sep + dollar + amount|, amount))
  {
    var line := kw + sep + dollar + amount;
    var b := |kw| + |sep| + |dollar|;
    assert KeywordLength([word], line) == Some(|kw|) by {
      KeywordPrefix(word, kw, sep + dollar + amount);
      assert line == kw + (sep + dollar + amount);
    }
    assert AmountStart(line, |kw|) == b by {
      AmountStartOf(kw, sep, dollar, amount);
    }
    assert line[b..] == amount;
    AmountLengthOfCapture(amount, w);
    MatchAtOf([word], line, |kw|, b, amount);
  }

  /** The keyword part of a line that starts with the keyword is the keyword. */
  lemma KeywordPrefix(word: string, kw: string, rest: string)
    requires IsLowerWord(word) && |kw| == |word| && StartsWithWord(kw, word)
    ensures KeywordLength([word], kw + rest) == Some(|kw|)
  {
    assert forall i :: 0 <= i < |kw| ==> (kw + rest)[i] == kw[i];
  }

  /** After the keyword, the separators and the optional `$` are passed over. */
  lemma AmountStartOf(kw: string, sep: string, dollar: string, amount: string)
    requires forall i :: 0 <= i < |sep| ==> IsSeparator(sep[i])
    requires dollar == "" || dollar == "$"
    requires amount != [] && IsAmountChar(amount[0])
    ensures AmountStart(kw + sep + dollar + amount, |kw|) == |kw| + |sep| + |dollar|
  {
    var line := kw + sep + dollar + amount;
    assert line[|kw|..] == sep + (dollar + amount);
    assert (dollar + amount)[0] == '$' || (dollar + amount)[0] == amount[0];
    LeadingRunOf(IsSeparator, sep, dollar + amount);
    assert line[|kw| + |sep|..] == dollar + amount;
  }

  /** The match at the start of `s` when its amount part runs to the end of `s`. */
  lemma MatchAtOf(words: seq<string>, s: string, k: nat, b: nat, amount: string)
    requires IsKeyword(words) && KeywordLength(words, s) == Some(k)
    requires AmountStart(s, k) == b && s[b..] == amount && amount != [] && AmountLength(amount) == |amount|
    ensures MatchAt(words, s) == Some((|s|, amount))
  {
    assert s[b..][..|amount|] == amount;
  }

  /** No match starts where the `j`-th character does not fold to the keyword's `j`-th letter. */
  lemma NoMatchAt(words: seq<string>, s: string, j: nat)
    requires IsKeyword(words) && j < |words[0]| && j < |s| && !FoldsTo(s[j], words[0][j])
    ensures MatchAt(words, s).None?
  {
  }

  /** Positions where no match starts are passed over. */
  lemma {:induction false} FindAllSkips(words: seq<string>, p: string, s: string)
    requires IsKeyword(words)
    requires forall i :: 0 <= i < |p| ==> MatchAt(words, (p + s)[i..]).None?
    ensures FindAll(words, p + s) == FindAll(words, s)
    decreases |p|
  {
    if |p| > 0 {
      assert (p + s)[1..] == p[1..] + s;
      forall i | 0 <= i < |p[1..]|
        ensures MatchAt(words, (p[1..] + s)[i..]).None?
      {
        assert (p[1..] + s)[i..] == (p + s)[i + 1..];
      }
      FindAllSkips(words, p[1..], s);
      assert (p + s)[0..] == p + s;
    }
  }

  /** A string with no character that folds to the keyword's first letter has no match. */
  lemma NoInitialNoMatch(words: seq<string>, s: string)
    requires IsKeyword(words)
    requires forall i :: 0 <= i < |s| ==> !FoldsTo(s[i], words[0][0])
    ensures FindAll(words, s) == []
  {
    forall i | 0 <= i < |s|
      ensures MatchAt(words, (s + [])[i..]).None?
    {
      assert (s + [])[i..][0] == s[i];
      NoMatchAt(words, (s + [])[i..], 0);
    }
    FindAllSkips(words, s, []);
    assert s + [] == s;
  }

  /** A character folds to at most one lower-case letter. */
  lemma FoldsToOne(c: char, k1: char, k2: char)
    requires 'a' <= k1 <= 'z' && 'a' <= k2 <= 'z'
    requires FoldsTo(c, k1) && FoldsTo(c, k2)
    ensures k1 == k2
  {
  }

  /** The characters that may follow the keyword in such a line: none of them folds to a letter. */
  predicate IsTailChar(c: char)
  {
    IsSeparator(c) || c == '$' || IsAmountChar(c) || c == '.'
  }

  /** `key` cannot be read starting at `word[i]`: some letter of it differs from the word's. */
  predicate AbsentAt(word: string, key: string, i: nat)
  {
    exists j :: 0 <= j < |key| && i + j < |word| && word[i + j] != key[j]
  }

  /** The part of such a line after the keyword. */
  lemma LineTail(sep: string, dollar: string, amount: string, w: nat)
    requires forall i :: 0 <= i < |sep| ==> IsSeparator(sep[i])
    requires dollar == "" || dollar == "$"
    requires IsWholePart(amount, w)
    ensures forall i :: 0 <= i < |sep + dollar + amount| ==> IsTailChar((sep + dollar + amount)[i])
  {
    var tail := sep + dollar + amount;
    forall i | 0 <= i < |tail|
      ensures IsTailChar(tail[i])
    {
      if i >= |sep| + |dollar| {
        var k := i - |sep| - |dollar|;
        assert tail[i] == amount[k];
        if k > w { assert amount[k] == amount[w + 1..][k - w - 1]; }
      }
    }
  }

  /** No keyword occurs in text after the keyword. */
  lemma NoMatchInTail(words: seq<string>, tail: string)
    requires IsKeyword(words)
    requires forall i :: 0 <= i < |tail| ==> IsTailChar(tail[i])
    ensures FindAll(words, tail) == []
  {
    assert IsLowerWord(words[0]);
    NoInitialNoMatch(words, tail);
  }

  /** A keyword absent from every position of another keyword is not found in a line that starts with that other keyword. */
  lemma NoMatchInKeywordLine(words: seq<string>, word: string, kw: string, tail: string)
    requires IsKeyword(words) && IsLowerWord(word) && |kw| == |word| && StartsWithWord(kw, word)
    requires forall i :: 0 <= i < |word| ==> AbsentAt(word, words[0], i)
    requires forall i :: 0 <= i < |tail| ==> IsTailChar(tail[i])
    ensures FindAll(words, kw + tail) == []
  {
    assert IsLowerWord(words[0]);
    forall i | 0 <= i < |kw|
      ensures MatchAt(words, (kw + tail)[i..]).None?
    {
      assert AbsentAt(word, words[0], i);
      var j :| 0 <= j < |words[0]| && i + j < |word| && word[i + j] != words[0][j];
      var s := (kw + tail)[i..];
      assert s[j] == kw[i + j];
      if FoldsTo(s[j], words[0][j]) {
        FoldsToOne(s[j], word[i + j], words[0][j]);
        assert false;
      }
      NoMatchAt(words, s, j);
    }
    FindAllSkips(words, kw, tail);
    NoMatchInTail(words, tail);
  }

  // ---------------------------------------------------------------- two lines of a receipt

  /** A `Total` line: only the `total` pattern matches it, once, capturing the amount. */
  lemma TotalLineCaptures(kw: string, sep: string, dollar: string, amount: string, w: nat)
    requires |kw| == |KeywordOf(Total)[0]| && StartsWithWord(kw, KeywordOf(Total)[0])
    requires forall i :: 0 <= i < |sep| ==> IsSeparator(sep[i])
    requires dollar == "" || dollar == "$"
    requires IsWholePart(amount, w)
    ensures FindAll(KeywordOf(Total), kw + sep + dollar + amount) == [amount]
    ensures FindAll(KeywordOf(Subtotal), kw + sep + dollar + amount) == []
    ensures FindAll(KeywordOf(Tax), kw + sep + dollar + amount) == []
    ensures FindAll(KeywordOf(GrandTotal), kw + sep + dollar + amount) == []
  {
    var word := KeywordOf(Total)[0];
    var tail := sep + dollar + amount;
    assert kw + sep + dollar + amount == kw + tail;
    assert FindAll(KeywordOf(Total), kw + sep + dollar + amount) == [amount] by {
      KeywordLine(word, kw, sep, dollar, amount, w);
    }
    LineTail(sep, dollar, amount, w);
    TotalAbsences();
    assert FindAll(KeywordOf(Subtotal), kw + tail) == [] by {
      NoMatchInKeywordLine(KeywordOf(Subtotal), word, kw, tail);
    }
    assert FindAll(KeywordOf(Tax), kw + tail) == [] by {
      NoMatchInKeywordLine(KeywordOf(Tax), word, kw, tail);
    }
    assert FindAll(KeywordOf(GrandTotal), kw + tail) == [] by {
      NoMatchInKeywordLine(KeywordOf(GrandTotal), word, kw, tail);
    }
  }

  /** Where the other keywords cannot start inside `total`. */
  lemma TotalAbsences()
    ensures forall i :: 0 <= i < 5 ==> AbsentAt("total", "subtotal", i)
    ensures forall i :: 0 <= i < 5 ==> AbsentAt("total", "tax", i)
    ensures forall i :: 0 <= i < 5 ==> AbsentAt("total", "grand", i)
  {
    var word := "total";
    forall i | 0 <= i < 5
      ensures AbsentAt(word, "subtotal", i) && AbsentAt(word, "grand", i) && AbsentAt(word, "tax", i)
    {
      assert word[i + 0] != "subtotal"[0] && word[i + 0] != "grand"[0];
      if i == 0 { assert word[0 + 1] != "tax"[1]; }
      else if i == 2 { assert word[2 + 2] != "tax"[2]; }
      else { assert word[i + 0] != "tax"[0]; }
    }
  }

  /** A `Subtotal` line: both the `total` and the `subtotal` pattern capture its amount, and no other keyword matches. */
  lemma SubtotalLineCaptures(kw: string, sep: string, dollar: string, amount: string, w: nat)
    requires |kw| == |KeywordOf(Subtotal)[0]| && StartsWithWord(kw, KeywordOf(Subtotal)[0])
    requires forall i :: 0 <= i < |sep| ==> IsSeparator(sep[i])
    requires dollar == "" || dollar == "$"
    requires IsWholePart(amount, w)
    ensures FindAll(KeywordOf(Total), kw + sep + dollar + amount) == [amount]
    ensures FindAll(KeywordOf(Subtotal), kw + sep + dollar + amount) == [amount]
    ensures FindAll(KeywordOf(Tax), kw + sep + dollar + amount) == []
    ensures FindAll(KeywordOf(GrandTotal), kw + sep + dollar + amount) == []
  {
    var word := KeywordOf(Subtotal)[0];
    var tail := sep + dollar + amount;
    assert kw + sep + dollar + amount == kw + tail;
    assert FindAll(KeywordOf(Subtotal), kw + sep + dollar + amount) == [amount] by {
      KeywordLine(word, kw, sep, dollar, amount, w);
    }
    assert FindAll(KeywordOf(Total), kw + sep + dollar + amount) == [amount] by {
      TotalInsideSubtotal(kw, sep, dollar, amount, w);
    }
    LineTail(sep, dollar, amount, w);
    SubtotalAbsences();
    assert FindAll(KeywordOf(Tax), kw + tail) == [] by {
      NoMatchInKeywordLine(KeywordOf(Tax), word, kw, tail);
    }
    assert FindAll(KeywordOf(GrandTotal), kw + tail) == [] by {
      NoMatchInKeywordLine(KeywordOf(GrandTotal), word, kw, tail);
    }
  }

  /** `total` is found at the fourth letter of `subtotal`: `re.finditer` has no word boundary to stop it. */
  lemma TotalInsideSubtotal(kw: string, sep: string, dollar: string, amount: string, w: nat)
    requires |kw| == |KeywordOf(Subtotal)[0]| && StartsWithWord(kw, KeywordOf(Subtotal)[0])
    requires forall i :: 0 <= i < |sep| ==> IsSeparator(sep[i])
    requires dollar == "" || dollar == "$"
    requires IsWholePart(amount, w)
    ensures FindAll(KeywordOf(Total), kw + sep + dollar + amount) == [amount]
  {
    var word := KeywordOf(Total)[0];
    assert KeywordOf(Total) == [word];
    TotalEndsSubtotal(kw);
    assert kw == kw[..3] + kw[3..];
    KeywordAfterPrefix(word, kw[..3], kw[3..], sep, dollar, amount, w);
  }

  /** A keyword line behind a prefix in which the keyword cannot start. */
  lemma KeywordAfterPrefix(word: string, p: string, kw: string, sep: string, dollar: string, amount: string, w: nat)
    requires IsLowerWord(word) && |kw| == |word| && StartsWithWord(kw, word)
    requires forall i :: 0 <= i < |p| ==> !FoldsTo(p[i], word[0])
    requires forall i :: 0 <= i < |sep| ==> IsSeparator(sep[i])
    requires dollar == "" || dollar == "$"
    requires IsWholePart(amount, w)
    ensures FindAll([word], p + kw + sep + dollar + amount) == [amount]
  {
    var rest := kw + sep + dollar + amount;
    assert p + kw + sep + dollar + amount == p + rest;
    forall i | 0 <= i < |p|
      ensures MatchAt([word], (p + rest)[i..]).None?
    {
      assert (p + rest)[i..][0] == p[i];
      NoMatchAt([word], (p + rest)[i..], 0);
    }
    FindAllSkips([word], p, rest);
    KeywordLine(word, kw, sep, dollar, amount, w);
  }

  /** The last five letters of `subtotal` spell `total`. */
  lemma TotalEndsSubtotal(kw: string)
    requires |kw| == |KeywordOf(Subtotal)[0]| && StartsWithWord(kw, KeywordOf(Subtotal)[0])
    ensures IsLowerWord(KeywordOf(Total)[0])
    ensures |kw[3..]| == |KeywordOf(Total)[0]| && StartsWithWord(kw[3..], KeywordOf(Total)[0])
    ensures forall i :: 0 <= i < 3 ==> !FoldsTo(kw[..3][i], KeywordOf(Total)[0][0])
  {
    var sub := KeywordOf(Subtotal)[0];
    var word := KeywordOf(Total)[0];
    assert IsLowerWord(word);
    assert forall i :: 0 <= i < 5 ==> kw[3..][i] == kw[i + 3] && word[i] == sub[i + 3];
    assert IsLowerWord(sub);
    forall i | 0 <= i < 3
      ensures !FoldsTo(kw[..3][i], word[0])
    {
      assert kw[..3][i] == kw[i] && sub[i] != word[0];
      if FoldsTo(kw[i], word[0]) {
        FoldsToOne(kw[i], sub[i], word[0]);
        assert false;
      }
    }
  }

  /** Where `tax` and `grand` cannot start inside `subtotal`. */
  lemma SubtotalAbsences()
    ensures forall i :: 0 <= i < 8 ==> AbsentAt("subtotal", "tax", i)
    ensures forall i :: 0 <= i < 8 ==> AbsentAt("subtotal", "grand", i)
  {
    var word := "subtotal";
    forall i | 0 <= i < 8
      ensures AbsentAt(word, "grand", i) && AbsentAt(word, "tax", i)
    {
      assert word[i + 0] != "grand"[0];
      if i == 3 { assert word[3 + 1] != "tax"[1]; }
      else if i == 5 { assert word[5 + 2] != "tax"[2]; }
      else { assert word[i + 0] != "tax"[0]; }
    }
  }

  /** A keyword line holds no line break once its separators hold none. */
  lemma KeywordLineIsOneLine(word: string, kw: string, sep: string, dollar: string, amount: string, w: nat)
    requires IsLowerWord(word) && |kw| == |word| && StartsWithWord(kw, word)
    requires forall i :: 0 <= i < |sep| ==> IsSeparator(sep[i]) && sep[i] != '\n'
    requires dollar == "" || dollar == "$"
    requires IsWholePart(amount, w)
    ensures '\n' !in kw + sep + dollar + amount
  {
    var line := kw + sep + dollar + amount;
    LineTail(sep, dollar, amount, w);
    forall i | 0 <= i < |line|
      ensures line[i] != '\n'
    {
      if i < |kw| {
        assert line[i] == kw[i] && FoldsTo(kw[i], word[i]);
      } else if i < |kw| + |sep| {
        assert line[i] == sep[i - |kw|];
      } else {
        assert line[i] == (sep + dollar + amount)[i - |kw|];
        assert line[i] != '\n' by {
          if i - |kw| >= |sep| + |dollar| { assert line[i] == amount[i - |kw| - |sep| - |dollar|]; }
        }
      }
    }
  }

  /**
   * `Subtotal: 5.00` is reported once, labelled `Total`: the `total`
   * pattern finds the amount inside `subtotal` first, and the later
   * `Subtotal` total of the same value is dropped.
   */
  lemma SubtotalReportedAsTotal(backtracking: Matcher, kw: string, sep: string, dollar: string, amount: string, w: nat)
    requires |kw| == |KeywordOf(Subtotal)[0]| && StartsWithWord(kw, KeywordOf(Subtotal)[0])
    requires forall i :: 0 <= i < |sep| ==> IsSeparator(sep[i]) && sep[i] != '\n'
    requires dollar == "" || dollar == "$"
    requires IsWholePart(amount, w)
    requires CaptureValue(amount).Some? && CaptureValue(amount).value >= MinValue
    requires backtracking(Amount, kw + sep + dollar + amount) == []
    requires backtracking(Balance, kw + sep + dollar + amount) == []
    ensures ExtractFinancialTotals(KeywordMatcher(backtracking), kw + sep + dollar + amount)
         == [FinancialTotal(Total, CaptureValue(amount).value, Currency, 1)]
  {
    var m := KeywordMatcher(backtracking);
    var line := kw + sep + dollar + amount;
    var total := FinancialTotal(Total, CaptureValue(amount).value, Currency, 1);
    var subtotal := FinancialTotal(Subtotal, CaptureValue(amount).value, Currency, 1);
    SubtotalLineMatches(backtracking, kw, sep, dollar, amount, w);
    assert Candidates(m, Split(line, '\n'), 1) == [total, subtotal] by {
      assert IsLowerWord(KeywordOf(Subtotal)[0]);
      KeywordLineIsOneLine(KeywordOf(Subtotal)[0], kw, sep, dollar, amount, w);
      OneLineCandidates(m, line);
      TwoTotals(Match(Total, amount, 1), Match(Subtotal, amount, 1));
    }
    TextOfTies(m, line, total, subtotal);
  }

  /** The matches of a `Subtotal` line: the `Total` one, then the `Subtotal` one. */
  lemma SubtotalLineMatches(backtracking: Matcher, kw: string, sep: string, dollar: string, amount: string, w: nat)
    requires |kw| == |KeywordOf(Subtotal)[0]| && StartsWithWord(kw, KeywordOf(Subtotal)[0])
    requires forall i :: 0 <= i < |sep| ==> IsSeparator(sep[i])
    requires dollar == "" || dollar == "$"
    requires IsWholePart(amount, w)
    requires backtracking(Amount, kw + sep + dollar + amount) == []
    requires backtracking(Balance, kw + sep + dollar + amount) == []
    ensures LineMatches(KeywordMatcher(backtracking), kw + sep + dollar + amount, 1)
         == [Match(Total, amount, 1), Match(Subtotal, amount, 1)]
  {
    var m := KeywordMatcher(backtracking);
    var line := kw + sep + dollar + amount;
    SubtotalLineCaptures(kw, sep, dollar, amount, w);
    assert m(Total, line) == [amount] && m(Subtotal, line) == [amount];
    assert m(Tax, line) == [] && m(GrandTotal, line) == [];
    TotalAndSubtotalLine(m, line, 1, amount);
  }

  /** The matches of a `Total` line with line number `n`: the one `Total` match. */
  lemma TotalLineMatches(backtracking: Matcher, kw: string, sep: string, dollar: string, amount: string, w: nat, n: int)
    requires |kw| == |KeywordOf(Total)[0]| && StartsWithWord(kw, KeywordOf(Total)[0])
    requires forall i :: 0 <= i < |sep| ==> IsSeparator(sep[i])
    requires dollar == "" || dollar == "$"
    requires IsWholePart(amount, w)
    requires backtracking(Amount, kw + sep + dollar + amount) == []
    requires backtracking(Balance, kw + sep + dollar + amount) == []
    ensures LineMatches(KeywordMatcher(backtracking), kw + sep + dollar + amount, n) == [Match(Total, amount, n)]
  {
    var m := KeywordMatcher(backtracking);
    var line := kw + sep + dollar + amount;
    TotalLineCaptures(kw, sep, dollar, amount, w);
    assert m(Total, line) == [amount] && m(Subtotal, line) == [];
    assert m(Tax, line) == [] && m(GrandTotal, line) == [];
    TotalOnlyLine(m, line, n, amount);
  }

  /**
   * Two `Total: $500.00` lines give one total, from line 1: both lines
   * yield the same value and only the first total of a value is kept.
   */
  lemma RepeatedTotalReportedOnce(backtracking: Matcher, kw: string, sep: string, dollar: string, amount: string, w: nat)
    requires |kw| == |KeywordOf(Total)[0]| && StartsWithWord(kw, KeywordOf(Total)[0])
    requires forall i :: 0 <= i < |sep| ==> IsSeparator(sep[i]) && sep[i] != '\n'
    requires dollar == "" || dollar == "$"
    requires IsWholePart(amount, w)
    requires CaptureValue(amount).Some? && CaptureValue(amount).value >= MinValue
    requires backtracking(Amount, kw + sep + dollar + amount) == []
    requires backtracking(Balance, kw + sep + dollar + amount) == []
    ensures ExtractFinancialTotals(KeywordMatcher(backtracking), (kw + sep + dollar + amount) + "\n" + (kw + sep + dollar + amount))
         == [FinancialTotal(Total, CaptureValue(amount).value, Currency, 1)]
  {
    var m := KeywordMatcher(backtracking);
    var line := kw + sep + dollar + amount;
    var first := FinancialTotal(Total, CaptureValue(amount).value, Currency, 1);
    var second := FinancialTotal(Total, CaptureValue(amount).value, Currency, 2);
    assert Candidates(m, Split(line + "\n" + line, '\n'), 1) == [first, second] by {
      TotalLineMatches(backtracking, kw, sep, dollar, amount, w, 1);
      TotalLineMatches(backtracking, kw, sep, dollar, amount, w, 2);
      assert IsLowerWord(KeywordOf(Total)[0]);
      KeywordLineIsOneLine(KeywordOf(Total)[0], kw, sep, dollar, amount, w);
      RepeatedLineTotals(m, line, amount);
    }
    TextOfTies(m, line + "\n" + line, first, second);
  }

  /** A repeated line whose only match is one `Total` match. */
  lemma RepeatedLineTotals(m: Matcher, line: string, amount: string)
    requires '\n' !in line
    requires LineMatches(m, line, 1) == [Match(Total, amount, 1)]
    requires LineMatches(m, line, 2) == [Match(Total, amount, 2)]
    requires CaptureValue(amount).Some? && CaptureValue(amount).value >= MinValue
    ensures Candidates(m, Split(line + "\n" + line, '\n'), 1)
         == [FinancialTotal(Total, CaptureValue(amount).value, Currency, 1),
             FinancialTotal(Total, CaptureValue(amount).value, Currency, 2)]
  {
    RepeatedLineCandidates(m, line);
    assert [Match(Total, amount, 1)] + [Match(Total, amount, 2)] == [Match(Total, amount, 1), Match(Total, amount, 2)];
    TwoTotals(Match(Total, amount, 1), Match(Total, amount, 2));
  }
}
