/**
 * Decimal digit strings and Python's `float(s)` restricted to the strings
 * the parser hands it: only digits, `.`, `+` and `-`.  Values are exact
 * `real`s; binary floating point is not modelled.
 */
module Decimals {
  import opened Options
  import opened Strings

  function DigitValue(c: char): nat
    requires IsDigit(c)
  {
    c as int - '0' as int
  }

  function DigitChar(d: nat): (c: char)
    requires d < 10
    ensures IsDigit(c) && DigitValue(c) == d
  {
    ('0' as int + d) as char
  }

  /** The number a string of ASCII digits denotes; `""` denotes 0. */
  function DigitsValue(s: string): nat
    requires AllDigits(s)
  {
    if s == [] then 0 else 10 * DigitsValue(s[..|s| - 1]) + DigitValue(s[|s| - 1])
  }

  function Pow10(n: nat): (p: nat)
    ensures p >= 1
  {
    if n == 0 then 1 else 10 * Pow10(n - 1)
  }

  /** `str(n)` for a natural number: shortest decimal digits, no leading zero. */
  function NatToString(n: nat): (s: string)
    ensures |s| >= 1 && AllDigits(s)
    ensures DigitsValue(s) == n
    ensures |s| > 1 ==> s[0] != '0'
    decreases n
  {
    if n < 10 then [DigitChar(n)]
    else
      var prefix := NatToString(n / 10);
      var s := prefix + [DigitChar(n % 10)];
      assert s[..|s| - 1] == prefix;
      s
  }

  /**
   * The last `width` decimal digits of `n`, zero-padded: `"%0*d" % (width, n)`
   * for every `n < 10^width`, which is how `date.isoformat()` prints its fields.
   */
  function FixedDigits(n: nat, width: nat): (s: string)
    ensures |s| == width && AllDigits(s)
    ensures n < Pow10(width) ==> DigitsValue(s) == n
  {
    if width == 0 then []
    else
      var s := FixedDigits(n / 10, width - 1) + [DigitChar(n % 10)];
      assert s[..|s| - 1] == FixedDigits(n / 10, width - 1);
      s
  }

  /** A digit string denotes a number below `10^|s|`. */
  lemma {:induction false} DigitsValueBound(s: string)
    requires AllDigits(s)
    ensures DigitsValue(s) < Pow10(|s|)
    decreases |s|
  {
    if s != [] {
      DigitsValueBound(s[..|s| - 1]);
    }
  }

  /** Printing the value of a digit string at its own width gives the string back, leading zeros included. */
  lemma {:induction false} FixedDigitsOfDigits(s: string)
    requires AllDigits(s)
    ensures FixedDigits(DigitsValue(s), |s|) == s
    decreases |s|
  {
    if s != [] {
      var p := s[..|s| - 1];
      var v := DigitsValue(s);
      assert v / 10 == DigitsValue(p) && v % 10 == DigitValue(s[|s| - 1]);
      FixedDigitsOfDigits(p);
      assert s == p + [s[|s| - 1]];
    }
  }

  // ---------------------------------------------------------------- float()

  /** The unsigned literal grammar `digits+ ('.' digits*)? | '.' digits+`. */
  predicate IsUnsignedLiteral(s: string)
  {
    || (|s| >= 1 && AllDigits(s))
    || (exists i :: 0 <= i < |s| && IsPointAt(s, i) && |s| >= 2)
  }

  /** `s[i]` is the only point of `s` and everything else is a digit. */
  predicate IsPointAt(s: string, i: nat)
  {
    i < |s| && s[i] == '.' && AllDigits(s[..i]) && AllDigits(s[i + 1..])
  }

  /** `[+-]? unsigned`: the strings `float()` accepts once everything but digits, `.`, `+`, `-` is gone. */
  predicate IsDecimalLiteral(s: string)
  {
    if |s| > 0 && (s[0] == '+' || s[0] == '-') then IsUnsignedLiteral(s[1..]) else IsUnsignedLiteral(s)
  }

  lemma UnsignedHasDigit(u: string)
    requires IsUnsignedLiteral(u)
    ensures HasDigit(u)
  {
    if |u| >= 1 && AllDigits(u) {
      assert IsDigit(u[0]);
    } else {
      var i :| 0 <= i < |u| && IsPointAt(u, i) && |u| >= 2;
      if i > 0 {
        assert u[..i][0] == u[0];
        assert IsDigit(u[0]);
      } else {
        assert u[1..][0] == u[1];
        assert IsDigit(u[1]);
      }
    }
  }

  /** Every literal `float` accepts here holds a digit. */
  lemma LiteralHasDigit(l: string)
    requires IsDecimalLiteral(l)
    ensures HasDigit(l)
  {
    if |l| > 0 && (l[0] == '+' || l[0] == '-') {
      var u := l[1..];
      UnsignedHasDigit(u);
      var k :| 0 <= k < |u| && IsDigit(u[k]);
      assert IsDigit(l[k + 1]);
    } else {
      UnsignedHasDigit(l);
    }
  }

  /** The value of the digits `ip` before and `fp` after a decimal point. */
  function PointValue(ip: string, fp: string): real
    requires AllDigits(ip) && AllDigits(fp)
  {
    DigitsValue(ip) as real + DigitsValue(fp) as real / Pow10(|fp|) as real
  }

  /** Zeros after the point add nothing: `1000.00` is worth `1000`. */
  lemma PointValueWhole(ip: string, fp: string)
    requires AllDigits(ip) && AllDigits(fp) && DigitsValue(fp) == 0
    ensures PointValue(ip, fp) == DigitsValue(ip) as real
  {
  }

  function ParseUnsigned(s: string): Option<real>
  {
    if '.' in s then
      var i := IndexOf(s, '.');
      var ip := s[..i];
      var fp := s[i + 1..];
      if AllDigits(ip) && AllDigits(fp) && |ip| + |fp| > 0 then Some(PointValue(ip, fp)) else None
    else if |s| > 0 && AllDigits(s) then Some(DigitsValue(s) as real)
    else None
  }

  /** `float(s)`, with `None` for a `ValueError`. */
  function ParseFloat(s: string): (r: Option<real>)
    ensures r.Some? <==> IsDecimalLiteral(s)
  {
    if |s| > 0 && (s[0] == '+' || s[0] == '-') then
      UnsignedAccepts(s[1..]);
      match ParseUnsigned(s[1..])
      case None => None
      case Some(v) => Some(if s[0] == '-' then -v else v)
    else
      UnsignedAccepts(s);
      ParseUnsigned(s)
  }

  lemma UnsignedAccepts(s: string)
    ensures ParseUnsigned(s).Some? <==> IsUnsignedLiteral(s)
  {
    if '.' in s {
      var i := IndexOf(s, '.');
      assert !IsDigit(s[i]);
      if ParseUnsigned(s).Some? {
        assert IsPointAt(s, i);
      }
      if IsUnsignedLiteral(s) {
        var j :| 0 <= j < |s| && IsPointAt(s, j) && |s| >= 2;
        assert forall k :: 0 <= k < j ==> s[k] == s[..j][k] && s[k] != '.';
        assert forall k :: j < k < |s| ==> s[k] == s[j + 1..][k - j - 1] && s[k] != '.';
        IndexOfFirst(s, '.', j);
      }
    }
  }

  /** `IndexOf` finds the first occurrence. */
  lemma IndexOfFirst(s: string, c: char, k: nat)
    requires k < |s| && s[k] == c
    requires forall j :: 0 <= j < k ==> s[j] != c
    ensures IndexOf(s, c) == k
  {
    var i := IndexOf(s, c);
    assert s[..i] == s[..i];
    assert forall j :: 0 <= j < i ==> s[..i][j] == s[j];
  }

  /** A digit string holds no point. */
  lemma NoPointInDigits(s: string)
    requires AllDigits(s)
    ensures '.' !in s
  {
    assert forall i :: 0 <= i < |s| ==> s[i] != '.';
  }

  /** Every natural number printed in decimal reads back as itself. */
  lemma ParseNat(n: nat)
    ensures ParseFloat(NatToString(n)) == Some(n as real)
  {
    NoPointInDigits(NatToString(n));
  }

  /** Without a leading sign, `float` reads the unsigned literal. */
  lemma ParseFloatUnsigned(s: string)
    requires s == [] || (s[0] != '+' && s[0] != '-')
    ensures ParseFloat(s) == ParseUnsigned(s)
  {
  }

  /** A literal with its one point at `k` reads as the digits around the point. */
  lemma ParseUnsignedPoint(s: string, k: nat)
    requires IsPointAt(s, k) && |s| >= 2
    ensures ParseUnsigned(s) == Some(PointValue(s[..k], s[k + 1..]))
  {
    assert forall j :: 0 <= j < k ==> s[j] == s[..k][j] && s[j] != '.';
    IndexOfFirst(s, '.', k);
  }

  /** Digits, a point and digits read back as the whole part plus tenths, hundredths, ... */
  lemma ParsePointDigits(w: string, frac: string)
    requires AllDigits(w) && AllDigits(frac) && |w| > 0
    ensures ParseFloat(w + "." + frac) == Some(PointValue(w, frac))
  {
    var s := w + "." + frac;
    assert s[..|w|] == w;
    assert s[|w| + 1..] == frac;
    assert IsPointAt(s, |w|);
    ParseUnsignedPoint(s, |w|);
    assert s[0] == w[0];
    ParseFloatUnsigned(s);
  }
}
