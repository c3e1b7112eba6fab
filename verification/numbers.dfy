/**
 * The amount normaliser `parse_amount` of `api/app/utils/numbers.py`: a
 * total function from a cell or column token to a signed amount.
 */
module Numbers {
  import opened Options
  import opened Strings
  import opened Decimals

  /** `CURRENCY_CHARS`: rupee, dollar, euro, pound, yen, rupee sign, taka, rouble, rial, won, lira, dong. */
  const CurrencyChars: string := [
    '\U{20B9}', '$', '\U{20AC}', '\U{A3}', '\U{A5}', '\U{20A8}',
    '\U{9F3}', '\U{20BD}', '\U{FDFC}', '\U{20A9}', '\U{20BA}', '\U{20AB}'
  ]

  const NoBreakSpace: char := '\U{A0}'

  /** Survives `re.sub(r"[<CURRENCY_CHARS>\s]", "", s)`. */
  predicate KeptBySymbolStrip(c: char) { c !in CurrencyChars && !IsSpace(c) }

  predicate IsNotComma(c: char) { c != ',' }

  /** Survives `re.sub(r"[^0-9\.\-\+]", "", s)`. */
  predicate IsLiteralChar(c: char) { IsDigit(c) || c == '.' || c == '-' || c == '+' }

  /** `s.startswith("(") and s.endswith(")")`. */
  predicate IsParenthesised(s: string) { |s| > 0 && s[0] == '(' && s[|s| - 1] == ')' }

  /** `str(s).strip().replace(" ", " ")`. */
  function Prepared(s: string): string
  {
    Replace(Strip(s), NoBreakSpace, ' ')
  }

  /** The token with one pair of enclosing parentheses removed, if it has them. */
  function Unwrapped(t: string): string
  {
    if IsParenthesised(t) then t[1..|t| - 1] else t
  }

  /** The sign flag and the cleaned literal that `parse_amount` hands to `float`. */
  datatype CleanToken = CleanToken(negative: bool, literal: string)

  /** The cleaning steps of `parse_amount`, in the order the code performs them. */
  function CleanAmount(s: string): (c: CleanToken)
    ensures forall i :: 0 <= i < |c.literal| ==> IsLiteralChar(c.literal[i])
  {
    var t := Prepared(s);
    var symbolsGone := Filter(KeptBySymbolStrip, Unwrapped(t));
    var commasGone :=
      if ',' in symbolsGone && '.' in symbolsGone then Filter(IsNotComma, symbolsGone)
      else if ',' in symbolsGone && '.' !in symbolsGone then Filter(IsNotComma, symbolsGone)
      else symbolsGone;
    CleanToken(IsParenthesised(t), Filter(IsLiteralChar, commasGone))
  }

  /** The cleaned strings the code answers with 0.0 before calling `float`. */
  const TrivialLiterals: set<string> := {"", "-", "+", ".", "-.", "+."}

  /**
   * `parse_amount(token)`; `None` models a `None` argument.  It never fails:
   * whatever `float` would reject reads as 0.0.
   */
  function ParseAmount(token: Option<string>): (r: real)
    ensures token.None? ==> r == 0.0
    ensures token.Some? && !IsDecimalLiteral(CleanAmount(token.value).literal) ==> r == 0.0
  {
    match token
    case None => 0.0
    case Some(s) =>
      var c := CleanAmount(s);
      if c.literal in TrivialLiterals then 0.0
      else
        match ParseFloat(c.literal)
        case None => 0.0
        case Some(v) => if c.negative then -v else v
  }

  /** What `float` makes of a cleaned literal, 0.0 where it would raise. */
  function LiteralValue(literal: string): real
  {
    ParseFloat(literal).GetOr(0.0)
  }

  // ---------------------------------------------------------------- properties

  lemma TrivialLiteralsRejected()
    ensures forall l :: l in TrivialLiterals ==> !IsDecimalLiteral(l)
  {
    assert !IsUnsignedLiteral(".") by {
      assert !AllDigits(".") by { assert !IsDigit("."[0]); }
      assert |"."| < 2;
    }
    assert "-."[1..] == "." && "+."[1..] == "." && "-"[1..] == "" && "+"[1..] == "";
  }

  lemma LiteralCharsSurvive()
    ensures forall c :: IsLiteralChar(c) ==> KeptBySymbolStrip(c) && IsNotComma(c)
  {
  }

  /**
   * The three filters in a row keep exactly the literal characters: currency
   * symbols and whitespace are dropped, commas are dropped whether or not a
   * point is present, and so is every other character.
   */
  lemma CleanKeepsLiteralChars(s: string)
    ensures CleanAmount(s).literal == Filter(IsLiteralChar, Unwrapped(Prepared(s)))
  {
    LiteralCharsSurvive();
    var body := Unwrapped(Prepared(s));
    var symbolsGone := Filter(KeptBySymbolStrip, body);
    if ',' !in symbolsGone {
      FilterAll(IsNotComma, symbolsGone);
    }
    FilterFilter(IsLiteralChar, IsNotComma, IsLiteralChar, symbolsGone);
    FilterFilter(IsLiteralChar, KeptBySymbolStrip, IsLiteralChar, body);
  }

  /** One-step reading of `parse_amount`: the sign of the parentheses times the literal characters' value. */
  lemma AmountCharacterisation(s: string)
    ensures ParseAmount(Some(s))
         == var t := Prepared(s);
            var v := LiteralValue(Filter(IsLiteralChar, Unwrapped(t)));
            if IsParenthesised(t) then -v else v
  {
    CleanKeepsLiteralChars(s);
    TrivialLiteralsRejected();
  }

  lemma {:induction false} FilterReplace(f: char -> bool, x: string, a: char, b: char)
    requires !f(a) && !f(b)
    ensures Filter(f, Replace(x, a, b)) == Filter(f, x)
    decreases |x|
  {
    if x != [] {
      assert Replace(x, a, b)[1..] == Replace(x[1..], a, b);
      FilterReplace(f, x[1..], a, b);
    }
  }

  lemma FilterStrip(f: char -> bool, x: string)
    requires forall c :: IsSpace(c) ==> !f(c)
    ensures Filter(f, Strip(x)) == Filter(f, x)
  {
    var r := Strip(x);
    var a := SpaceRun(x);
    assert x == x[..a] + r + x[a + |r|..];
    FilterConcat(f, x[..a] + r, x[a + |r|..]);
    FilterConcat(f, x[..a], r);
    FilterNone(f, x[..a]);
    FilterNone(f, x[a + |r|..]);
  }

  /** Trimming and the no-break-space replacement never touch a literal character. */
  lemma PreparedKeepsLiteralChars(x: string)
    ensures Filter(IsLiteralChar, Prepared(x)) == Filter(IsLiteralChar, x)
  {
    FilterReplace(IsLiteralChar, Strip(x), NoBreakSpace, ' ');
    FilterStrip(IsLiteralChar, x);
  }

  /**
   * Without enclosing parentheses a token is worth the decimal literal formed
   * by its digits, points and signs alone: currency symbols, whitespace,
   * commas and any other character are ignored.
   */
  lemma AmountOfPlainToken(s: string)
    requires !IsParenthesised(Prepared(s))
    ensures ParseAmount(Some(s)) == LiteralValue(Filter(IsLiteralChar, s))
  {
    AmountCharacterisation(s);
    PreparedKeepsLiteralChars(s);
  }

  /** Two plain tokens with the same literal characters have the same amount. */
  lemma AmountIgnoresOtherChars(s: string, u: string)
    requires !IsParenthesised(Prepared(s)) && !IsParenthesised(Prepared(u))
    requires Filter(IsLiteralChar, s) == Filter(IsLiteralChar, u)
    ensures ParseAmount(Some(s)) == ParseAmount(Some(u))
  {
    AmountOfPlainToken(s);
    AmountOfPlainToken(u);
  }

  /** A currency symbol anywhere in a token without parentheses leaves its amount unchanged. */
  lemma CurrencySymbolIgnored(a: string, c: char, b: string)
    requires c in CurrencyChars
    requires !IsParenthesised(Prepared(a + [c] + b)) && !IsParenthesised(Prepared(a + b))
    ensures ParseAmount(Some(a + [c] + b)) == ParseAmount(Some(a + b))
  {
    CurrencyCharNotLiteral(c);
    FilterSkip(IsLiteralChar, a, c, b);
    AmountIgnoresOtherChars(a + [c] + b, a + b);
  }

  lemma CurrencyCharNotLiteral(c: char)
    requires c in CurrencyChars
    ensures !IsLiteralChar(c) && !KeptBySymbolStrip(c)
  {
  }

  lemma StripParenthesised(x: string)
    ensures Strip("(" + x + ")") == "(" + x + ")"
  {
    var w := "(" + x + ")";
    assert w[0] == '(' && w[|w| - 1] == ')';
    StripOfStripped(w);
  }

  lemma ReplaceParenthesised(x: string, from: char, to: char)
    requires from != '(' && from != ')'
    ensures Replace("(" + x + ")", from, to) == "(" + Replace(x, from, to) + ")"
  {
    var w := "(" + x + ")";
    var r := Replace(w, from, to);
    assert r[0] == '(' && r[|r| - 1] == ')';
    assert r[1..|r| - 1] == Replace(x, from, to) by {
      assert forall i :: 0 <= i < |x| ==> w[i + 1] == x[i];
    }
    assert r == [r[0]] + r[1..|r| - 1] + [r[|r| - 1]];
  }

  lemma PreparedParenthesised(x: string)
    ensures Prepared("(" + x + ")") == "(" + Replace(x, NoBreakSpace, ' ') + ")"
  {
    StripParenthesised(x);
    ReplaceParenthesised(x, NoBreakSpace, ' ');
  }

  /** A token in parentheses is worth minus the literal formed by the characters inside. */
  lemma AmountOfParenthesisedToken(x: string)
    ensures ParseAmount(Some("(" + x + ")")) == -LiteralValue(Filter(IsLiteralChar, x))
  {
    var w := "(" + x + ")";
    var t := Prepared(w);
    assert IsParenthesised(t) && Filter(IsLiteralChar, Unwrapped(t)) == Filter(IsLiteralChar, x) by {
      var inner := Replace(x, NoBreakSpace, ' ');
      PreparedParenthesised(x);
      assert t[1..|t| - 1] == inner;
      FilterReplace(IsLiteralChar, x, NoBreakSpace, ' ');
    }
    AmountCharacterisation(w);
  }

  /** The accounting convention: `(x)` is worth minus `x`. */
  lemma AmountParenthesised(x: string)
    requires !IsParenthesised(Prepared(x))
    ensures ParseAmount(Some("(" + x + ")")) == -ParseAmount(Some(x))
  {
    AmountOfParenthesisedToken(x);
    AmountOfPlainToken(x);
  }

  /** A cleaned string `float` rejects, such as `1.2.3` or `1-2`, gives 0.0 instead of an error. */
  lemma AmountOfMalformed(s: string)
    requires !IsDecimalLiteral(Filter(IsLiteralChar, Unwrapped(Prepared(s))))
    ensures ParseAmount(Some(s)) == 0.0
  {
    CleanKeepsLiteralChars(s);
  }

  predicate NotDigit(c: char) { !IsDigit(c) }

  /** Trimming, the no-break-space replacement and unwrapping bring in no digit. */
  lemma BodyWithoutDigits(s: string)
    requires !HasDigit(s)
    ensures forall k :: 0 <= k < |Unwrapped(Prepared(s))| ==> NotDigit(Unwrapped(Prepared(s))[k])
  {
    var stripped := Strip(s);
    assert forall k :: 0 <= k < |stripped| ==> stripped[k] == s[SpaceRun(s) + k];
    var t := Prepared(s);
    assert forall k :: 0 <= k < |t| ==> NotDigit(t[k]);
    if IsParenthesised(t) {
      assert forall k :: 0 <= k < |t| - 2 ==> Unwrapped(t)[k] == t[k + 1];
    }
  }

  /** A token without a digit is worth 0.0: none of its characters can form a literal. */
  lemma AmountWithoutDigits(s: string)
    requires !HasDigit(s)
    ensures ParseAmount(Some(s)) == 0.0
  {
    var body := Unwrapped(Prepared(s));
    BodyWithoutDigits(s);
    FilterPreserves(IsLiteralChar, NotDigit, body);
    var lit := Filter(IsLiteralChar, body);
    CleanKeepsLiteralChars(s);
    if IsDecimalLiteral(lit) {
      LiteralHasDigit(lit);
      assert false;
    }
  }

  lemma DigitsLiteralValue(d: string)
    requires |d| >= 1 && AllDigits(d)
    ensures LiteralValue(Filter(IsLiteralChar, d)) == DigitsValue(d) as real
  {
    FilterAll(IsLiteralChar, d);
    NoPointInDigits(d);
  }

  lemma DigitsNotParenthesised(d: string)
    requires |d| >= 1 && AllDigits(d)
    ensures !IsParenthesised(Prepared(d))
  {
    assert IsDigit(d[0]) && IsDigit(d[|d| - 1]);
    StripOfStripped(d);
    assert Prepared(d)[0] == d[0];
  }

  /** A plain run of digits reads as the number it denotes, and as its negation in parentheses. */
  lemma AmountOfDigits(d: string)
    requires |d| >= 1 && AllDigits(d)
    ensures ParseAmount(Some(d)) == DigitsValue(d) as real
    ensures ParseAmount(Some("(" + d + ")")) == -(DigitsValue(d) as real)
  {
    DigitsLiteralValue(d);
    DigitsNotParenthesised(d);
    AmountOfPlainToken(d);
    AmountOfParenthesisedToken(d);
  }

  /** A whole number written in decimal, and in parentheses, reads back with the right sign. */
  lemma AmountOfNat(n: nat)
    ensures ParseAmount(Some(NatToString(n))) == n as real
    ensures ParseAmount(Some("(" + NatToString(n) + ")")) == -(n as real)
  {
    AmountOfDigits(NatToString(n));
  }
}
