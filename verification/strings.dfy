/**
 * The parts of Python's `str` and `re` behaviour that the statement parser
 * relies on: whitespace, `strip()`, `split(sep)`, `splitlines()`,
 * `re.split` on runs of whitespace, and `sep.join(parts)`.
 */
module Strings {

  /** `str.isspace()`; in a `str` pattern, `\s` matches exactly these characters. */
  predicate IsSpace(c: char)
  {
    || ('\t' <= c <= '\r')
    || ('\U{1C}' <= c <= ' ')
    || c == '\U{85}' || c == '\U{A0}' || c == '\U{1680}'
    || ('\U{2000}' <= c <= '\U{200A}')
    || c == '\U{2028}' || c == '\U{2029}' || c == '\U{202F}' || c == '\U{205F}' || c == '\U{3000}'
  }

  /** The characters at which `str.splitlines()` ends a line. */
  predicate IsLineBreak(c: char)
  {
    || ('\n' <= c <= '\r')
    || ('\U{1C}' <= c <= '\U{1E}')
    || c == '\U{85}' || c == '\U{2028}' || c == '\U{2029}'
  }

  /** `[0-9]`: an ASCII decimal digit. */
  predicate IsDigit(c: char) { '0' <= c <= '9' }

  predicate AllSpace(s: string) { forall i :: 0 <= i < |s| ==> IsSpace(s[i]) }

  predicate NoSpace(s: string) { forall i :: 0 <= i < |s| ==> !IsSpace(s[i]) }

  predicate AllDigits(s: string) { forall i :: 0 <= i < |s| ==> IsDigit(s[i]) }

  /** `re.search(r"[0-9]", s)` finds something. */
  predicate HasDigit(s: string) { exists i :: 0 <= i < |s| && IsDigit(s[i]) }

  /** No whitespace at either end, which is what `strip()` returns. */
  predicate IsStripped(s: string)
  {
    s == [] || (!IsSpace(s[0]) && !IsSpace(s[|s| - 1]))
  }

  /** ASCII upper-case letters mapped to lower case; everything else unchanged. */
  function LowerChar(c: char): char
  {
    if 'A' <= c <= 'Z' then (c as int + 32) as char else c
  }

  function Lower(s: string): (r: string)
    ensures |r| == |s|
    ensures forall i :: 0 <= i < |s| ==> r[i] == LowerChar(s[i])
  {
    if s == [] then [] else [LowerChar(s[0])] + Lower(s[1..])
  }

  /** A string of lower-case ASCII letters. */
  predicate IsLowerWord(w: string) { |w| > 0 && forall i :: 0 <= i < |w| ==> 'a' <= w[i] <= 'z' }

  lemma LowerOfLowerWord(w: string)
    requires IsLowerWord(w)
    ensures Lower(w) == w
  {
  }

  /** A character that is not a digit does not occur in a digit string. */
  lemma NotInDigits(s: string, c: char)
    requires AllDigits(s) && !IsDigit(c)
    ensures c !in s
  {
  }

  /** `xs.index(x)`, or `|xs|` when `x` does not occur. */
  function Position<T(==)>(xs: seq<T>, x: T): (i: nat)
    ensures i <= |xs|
    ensures i < |xs| ==> xs[i] == x
    ensures forall j :: 0 <= j < i ==> xs[j] != x
  {
    if xs == [] then 0
    else if xs[0] == x then 0
    else 1 + Position(xs[1..], x)
  }

  // ---------------------------------------------------------------- strip

  /** The length of the whitespace run that ends `s`. */
  function TrailingRun(s: string): (n: nat)
    ensures n <= |s|
    ensures AllSpace(s[|s| - n..])
    ensures n == |s| || !IsSpace(s[|s| - n - 1])
    ensures forall k :: 0 <= k < |s| && !IsSpace(s[k]) ==> k < |s| - n
  {
    if |s| > 0 && IsSpace(s[|s| - 1]) then
      var p := s[..|s| - 1];
      var n := TrailingRun(p);
      assert forall k :: 0 <= k < |p| ==> p[k] == s[k];
      assert forall i :: |s| - (n + 1) <= i < |s| - 1 ==> s[i] == p[|p| - n..][i - (|s| - 1 - n)];
      n + 1
    else 0
  }

  /**
   * `str.strip()`: removes the leading and trailing whitespace and nothing
   * else.  The leading run removed is `s[..SpaceRun(s)]`.
   */
  function Strip(s: string): (r: string)
    ensures IsStripped(r)
    ensures SpaceRun(s) + |r| <= |s|
    ensures r == s[SpaceRun(s)..SpaceRun(s) + |r|]
    ensures AllSpace(s[SpaceRun(s) + |r|..])
  {
    var a := SpaceRun(s);
    if a == |s| then []
    else
      var b := TrailingRun(s);
      assert a < |s| - b;
      s[a..|s| - b]
  }

  lemma StripOfStripped(s: string)
    requires IsStripped(s)
    ensures Strip(s) == s
  {
  }

  lemma StripIdempotent(s: string)
    ensures Strip(Strip(s)) == Strip(s)
  {
    StripOfStripped(Strip(s));
  }

  // ---------------------------------------------------------------- filter

  /** The elements of `s` that satisfy `f`, in order. */
  function Filter<T>(f: T -> bool, s: seq<T>): (r: seq<T>)
    ensures |r| <= |s|
    ensures forall i :: 0 <= i < |r| ==> f(r[i])
  {
    if s == [] then [] else (if f(s[0]) then [s[0]] else []) + Filter(f, s[1..])
  }

  lemma {:induction false} FilterConcat<T>(f: T -> bool, a: seq<T>, b: seq<T>)
    ensures Filter(f, a + b) == Filter(f, a) + Filter(f, b)
    decreases |a|
  {
    if a == [] {
      assert a + b == b;
    } else {
      assert (a + b)[1..] == a[1..] + b;
      FilterConcat(f, a[1..], b);
    }
  }

  /** Filtering twice is filtering once by the conjunction. */
  /** An element the filter drops leaves no trace. */
  lemma FilterSkip<T>(f: T -> bool, a: seq<T>, x: T, b: seq<T>)
    requires !f(x)
    ensures Filter(f, a + [x] + b) == Filter(f, a + b)
  {
    FilterConcat(f, a + [x], b);
    FilterConcat(f, a, [x]);
    assert [x][1..] == [];
    FilterConcat(f, a, b);
  }

  lemma {:induction false} FilterFilter<T>(f: T -> bool, g: T -> bool, h: T -> bool, s: seq<T>)
    requires forall x :: h(x) == (f(x) && g(x))
    ensures Filter(f, Filter(g, s)) == Filter(h, s)
    decreases |s|
  {
    if s != [] {
      var head := if g(s[0]) then [s[0]] else [];
      FilterConcat(f, head, Filter(g, s[1..]));
      FilterFilter(f, g, h, s[1..]);
    }
  }

  /** Two filters that agree on the elements of `s` select the same elements. */
  lemma {:induction false} FilterAgree<T>(f: T -> bool, g: T -> bool, s: seq<T>)
    requires forall i :: 0 <= i < |s| ==> f(s[i]) == g(s[i])
    ensures Filter(f, s) == Filter(g, s)
    decreases |s|
  {
    if s != [] {
      FilterAgree(f, g, s[1..]);
    }
  }

  lemma {:induction false} FilterNone<T>(f: T -> bool, s: seq<T>)
    requires forall i :: 0 <= i < |s| ==> !f(s[i])
    ensures Filter(f, s) == []
    decreases |s|
  {
    if s != [] {
      FilterNone(f, s[1..]);
    }
  }

  lemma {:induction false} FilterAll<T>(f: T -> bool, s: seq<T>)
    requires forall i :: 0 <= i < |s| ==> f(s[i])
    ensures Filter(f, s) == s
    decreases |s|
  {
    if s != [] {
      FilterAll(f, s[1..]);
    }
  }

  /** A property every element has is kept by filtering. */
  lemma {:induction false} FilterPreserves<T>(f: T -> bool, p: T -> bool, s: seq<T>)
    requires forall i :: 0 <= i < |s| ==> p(s[i])
    ensures forall i :: 0 <= i < |Filter(f, s)| ==> p(Filter(f, s)[i])
    decreases |s|
  {
    if s != [] {
      FilterPreserves(f, p, s[1..]);
      var head := if f(s[0]) then [s[0]] else [];
      assert Filter(f, s) == head + Filter(f, s[1..]);
    }
  }

  /** `s.replace(from, to)` for single characters. */
  function Replace(s: string, from: char, to: char): (r: string)
    ensures |r| == |s|
    ensures forall i :: 0 <= i < |s| ==> r[i] == (if s[i] == from then to else s[i])
  {
    if s == [] then [] else [if s[0] == from then to else s[0]] + Replace(s[1..], from, to)
  }

  lemma {:induction false} ReplaceConcat(a: string, b: string, from: char, to: char)
    ensures Replace(a + b, from, to) == Replace(a, from, to) + Replace(b, from, to)
    decreases |a|
  {
    if a == [] {
      assert a + b == b;
    } else {
      assert (a + b)[1..] == a[1..] + b;
      ReplaceConcat(a[1..], b, from, to);
    }
  }

  // ---------------------------------------------------------------- join and split

  /** `sep.join(parts)`. */
  function Join(parts: seq<string>, sep: string): string
  {
    if |parts| == 0 then ""
    else if |parts| == 1 then parts[0]
    else parts[0] + sep + Join(parts[1..], sep)
  }

  /** Joining non-empty parts gives the empty string only when there are no parts. */
  lemma JoinEmpty(parts: seq<string>, sep: string)
    requires forall i :: 0 <= i < |parts| ==> parts[i] != []
    ensures Join(parts, sep) == "" <==> |parts| == 0
  {
    if |parts| >= 2 {
      assert Join(parts, sep) == parts[0] + sep + Join(parts[1..], sep);
    }
  }

  lemma Join3(a: string, b: string, c: string, sep: string)
    ensures Join([a, b, c], sep) == a + sep + b + sep + c
  {
    var parts := [a, b, c];
    assert parts[1..] == [b, c];
    assert parts[1..][1..] == [c];
    assert Join([b, c], sep) == b + sep + c;
  }

  lemma JoinStartsWith(parts: seq<string>, sep: string)
    requires |parts| >= 1
    ensures parts[0] <= Join(parts, sep)
  {
  }

  /** Non-empty stripped pieces join into a non-empty stripped string, whatever the separator. */
  lemma {:induction false} JoinStripped(parts: seq<string>, sep: string)
    requires |parts| >= 1
    requires forall i :: 0 <= i < |parts| ==> parts[i] != [] && IsStripped(parts[i])
    ensures Join(parts, sep) != [] && IsStripped(Join(parts, sep))
    decreases |parts|
  {
    JoinStartsWith(parts, sep);
    var j := Join(parts, sep);
    assert j[0] == parts[0][0];
    if |parts| > 1 {
      JoinStripped(parts[1..], sep);
      var rest := Join(parts[1..], sep);
      assert j == parts[0] + sep + rest;
      assert j[|j| - 1] == rest[|rest| - 1];
    }
  }

  /** The index of the first `c` in `s`. */
  function IndexOf(s: string, c: char): (i: nat)
    requires c in s
    ensures i < |s| && s[i] == c && c !in s[..i]
  {
    if s[0] == c then 0
    else
      var j := IndexOf(s[1..], c);
      assert s[..j + 1] == [s[0]] + s[1..][..j];
      j + 1
  }

  /** `s.split(sep)` for a one-character separator: always at least one piece. */
  function Split(s: string, sep: char): (parts: seq<string>)
    ensures |parts| >= 1
    ensures forall i :: 0 <= i < |parts| ==> sep !in parts[i]
    decreases |s|
  {
    if sep !in s then [s]
    else
      var i := IndexOf(s, sep);
      [s[..i]] + Split(s[i + 1..], sep)
  }

  /** Joining the pieces of a split with the separator restores the string. */
  lemma {:induction false} JoinSplit(s: string, sep: char)
    ensures Join(Split(s, sep), [sep]) == s
    decreases |s|
  {
    if sep in s {
      var i := IndexOf(s, sep);
      var rest := Split(s[i + 1..], sep);
      JoinSplit(s[i + 1..], sep);
      assert ([s[..i]] + rest)[1..] == rest;
      assert s == s[..i] + [sep] + s[i + 1..];
    }
  }

  /** Splitting a join whose pieces do not contain the separator gives the pieces back. */
  lemma {:induction false} SplitJoin(parts: seq<string>, sep: char)
    requires |parts| >= 1
    requires forall i :: 0 <= i < |parts| ==> sep !in parts[i]
    ensures Split(Join(parts, [sep]), sep) == parts
    decreases |parts|
  {
    if |parts| > 1 {
      var tail := Join(parts[1..], [sep]);
      var s := parts[0] + [sep] + tail;
      assert s[|parts[0]|] == sep;
      var i := IndexOf(s, sep);
      assert s[..i] == parts[0];
      assert s[i + 1..] == tail;
      SplitJoin(parts[1..], sep);
    }
  }

  /** Two pieces with a separator between them split at that separator first. */
  lemma SplitCons(a: string, sep: char, b: string)
    requires sep !in a
    ensures Split(a + [sep] + b, sep) == [a] + Split(b, sep)
  {
    var s := a + [sep] + b;
    assert s[|a|] == sep;
    var i := IndexOf(s, sep);
    assert s[..i] == a;
    assert s[i + 1..] == b;
  }

  /** Three pieces and two separators split back into the three pieces. */
  lemma Split3(a: string, b: string, c: string, sep: char)
    requires sep !in a && sep !in b && sep !in c
    ensures Split(a + [sep] + b + [sep] + c, sep) == [a, b, c]
  {
    var rest := b + [sep] + c;
    assert a + [sep] + b + [sep] + c == a + [sep] + rest;
    SplitCons(a, sep, rest);
    SplitCons(b, sep, c);
    assert Split(c, sep) == [c];
  }

  // ---------------------------------------------------------------- splitlines

  /** The length of the first line of `s`: the index of its first line break, or `|s|`. */
  function LineEnd(s: string): (k: nat)
    ensures k <= |s|
    ensures k < |s| ==> IsLineBreak(s[k])
    ensures forall j :: 0 <= j < k ==> !IsLineBreak(s[j])
  {
    if s == [] || IsLineBreak(s[0]) then 0 else 1 + LineEnd(s[1..])
  }

  /** `str.splitlines()`: `\r\n` is one break, and there is no empty last line after a final break. */
  function SplitLines(s: string): (lines: seq<string>)
    ensures forall i, j :: 0 <= i < |lines| && 0 <= j < |lines[i]| ==> !IsLineBreak(lines[i][j])
    decreases |s|
  {
    if s == [] then []
    else
      var k := LineEnd(s);
      if k == |s| then [s]
      else
        var next := if s[k] == '\r' && k + 1 < |s| && s[k + 1] == '\n' then k + 2 else k + 1;
        [s[..k]] + SplitLines(s[next..])
  }

  predicate NoLineBreak(s: string) { forall j :: 0 <= j < |s| ==> !IsLineBreak(s[j]) }

  lemma {:induction false} LineEndOfPrefix(a: string, b: string)
    requires NoLineBreak(a)
    requires b == [] || IsLineBreak(b[0])
    ensures LineEnd(a + b) == |a|
    decreases |a|
  {
    if a == [] {
      assert a + b == b;
    } else {
      assert (a + b)[0] == a[0];
      assert (a + b)[1..] == a[1..] + b;
      LineEndOfPrefix(a[1..], b);
    }
  }

  /** Lines joined with `\n` split back into the same lines, provided the last is not empty. */
  lemma {:induction false} SplitLinesJoin(lines: seq<string>)
    requires |lines| >= 1 && lines[|lines| - 1] != []
    requires forall i :: 0 <= i < |lines| ==> NoLineBreak(lines[i])
    ensures SplitLines(Join(lines, "\n")) == lines
    decreases |lines|
  {
    if |lines| == 1 {
      LineEndOfPrefix(lines[0], []);
      assert lines[0] + [] == lines[0];
    } else {
      var tail := Join(lines[1..], "\n");
      var s := lines[0] + "\n" + tail;
      LineEndOfPrefix(lines[0], "\n" + tail);
      assert lines[0] + ("\n" + tail) == s;
      assert s[|lines[0]|] == '\n';
      assert s[..|lines[0]|] == lines[0];
      assert s[|lines[0]| + 1..] == tail;
      SplitLinesJoin(lines[1..]);
    }
  }

  // ---------------------------------------------------------------- splitting on whitespace runs

  /** The length of the whitespace run at the start of `s`. */
  function SpaceRun(s: string): (n: nat)
    ensures n <= |s|
    ensures AllSpace(s[..n])
    ensures n == |s| || !IsSpace(s[n])
  {
    if |s| > 0 && IsSpace(s[0]) then
      var n := SpaceRun(s[1..]);
      assert s[..n + 1] == [s[0]] + s[1..][..n];
      n + 1
    else 0
  }

  /** Every whitespace run inside `s` is shorter than `minRun`. */
  predicate ShortRuns(s: string, minRun: nat)
    decreases |s|
  {
    s == [] || (SpaceRun(s) < minRun && ShortRuns(s[1..], minRun))
  }

  /**
   * `re.split(r"\s{minRun,}", s)`: the pieces left between the maximal
   * whitespace runs of length at least `minRun` (`minRun` 2 for the
   * extractors' column gaps, 1 for the `\s+` of a date format).
   */
  function SplitOnRuns(s: string, minRun: nat): (parts: seq<string>)
    requires minRun >= 1
    ensures |parts| >= 1
    ensures forall i :: 0 <= i < |parts| ==> ShortRuns(parts[i], minRun)
  {
    RunsFromShort(s, minRun, []);
    RunsFrom(s, minRun, [])
  }

  /** The scan behind `SplitOnRuns`; `cur` is the piece read so far. */
  function RunsFrom(s: string, minRun: nat, cur: string): (parts: seq<string>)
    requires minRun >= 1
    ensures |parts| >= 1
    decreases |s|
  {
    if s == [] then [cur]
    else
      var n := SpaceRun(s);
      if n >= minRun then [cur] + RunsFrom(s[n..], minRun, [])
      else if n > 0 then RunsFrom(s[n..], minRun, cur + s[..n])
      else RunsFrom(s[1..], minRun, cur + [s[0]])
  }

  /**
   * The scan only ever emits pieces without a long run, given that `cur` has
   * none and does not end in whitespace that the rest of `s` would lengthen.
   */
  lemma {:induction false} RunsFromShort(s: string, minRun: nat, cur: string)
    requires minRun >= 1
    requires ShortRuns(cur, minRun)
    requires cur == [] || !IsSpace(cur[|cur| - 1]) || s == [] || !IsSpace(s[0])
    ensures forall i :: 0 <= i < |RunsFrom(s, minRun, cur)| ==> ShortRuns(RunsFrom(s, minRun, cur)[i], minRun)
    decreases |s|
  {
    if s != [] {
      var n := SpaceRun(s);
      if n >= minRun {
        RunsFromShort(s[n..], minRun, []);
      } else if n > 0 {
        ShortRunsThenSpaces(cur, s[..n], minRun);
        RunsFromShort(s[n..], minRun, cur + s[..n]);
      } else {
        ShortRunsThenChar(cur, s[0], minRun);
        RunsFromShort(s[1..], minRun, cur + [s[0]]);
      }
    }
  }

  /** A non-space character ends every run, so appending one adds no long run. */
  lemma {:induction false} ShortRunsThenChar(cur: string, c: char, minRun: nat)
    requires minRun >= 1 && ShortRuns(cur, minRun) && !IsSpace(c)
    ensures ShortRuns(cur + [c], minRun)
    decreases |cur|
  {
    if cur == [] {
      assert cur + [c] == [c];
      assert [c][1..] == [];
    } else {
      if SpaceRun(cur) < |cur| {
        SpaceRunAppend(cur, [c]);
      } else {
        assert cur[..|cur|] == cur;
        SpaceRunOfSeparator(cur, [c]);
      }
      assert (cur + [c])[1..] == cur[1..] + [c];
      ShortRunsThenChar(cur[1..], c, minRun);
    }
  }

  /** A short run of whitespace after a non-space (or at the start) adds no long run. */
  lemma {:induction false} ShortRunsThenSpaces(cur: string, sp: string, minRun: nat)
    requires ShortRuns(cur, minRun) && (cur == [] || !IsSpace(cur[|cur| - 1]))
    requires AllSpace(sp) && |sp| < minRun
    ensures ShortRuns(cur + sp, minRun)
    decreases |cur|
  {
    if cur == [] {
      assert cur + sp == sp;
      ShortSpaces(sp, minRun);
    } else {
      assert cur[|cur| - 1] == cur[..|cur|][|cur| - 1];
      SpaceRunAppend(cur, sp);
      assert (cur + sp)[1..] == cur[1..] + sp;
      ShortRunsThenSpaces(cur[1..], sp, minRun);
    }
  }

  lemma {:induction false} ShortSpaces(sp: string, minRun: nat)
    requires AllSpace(sp) && |sp| < minRun
    ensures ShortRuns(sp, minRun)
    decreases |sp|
  {
    if sp != [] {
      ShortSpaces(sp[1..], minRun);
    }
  }

  lemma {:induction false} SpaceRunAppend(p: string, rest: string)
    requires SpaceRun(p) < |p|
    ensures SpaceRun(p + rest) == SpaceRun(p)
    decreases |p|
  {
    if IsSpace(p[0]) {
      assert (p + rest)[1..] == p[1..] + rest;
      SpaceRunAppend(p[1..], rest);
    }
  }

  lemma {:induction false} SpaceRunOfSeparator(sep: string, rest: string)
    requires AllSpace(sep)
    requires rest == [] || !IsSpace(rest[0])
    ensures SpaceRun(sep + rest) == |sep|
    decreases |sep|
  {
    if sep == [] {
      assert sep + rest == rest;
    } else {
      assert (sep + rest)[1..] == sep[1..] + rest;
      SpaceRunOfSeparator(sep[1..], rest);
    }
  }

  lemma {:induction false} ShortRunsSuffix(p: string, k: nat, minRun: nat)
    requires ShortRuns(p, minRun) && k <= |p|
    ensures ShortRuns(p[k..], minRun)
    decreases k
  {
    if k > 0 {
      ShortRunsSuffix(p[1..], k - 1, minRun);
      assert p[1..][k - 1..] == p[k..];
    }
  }

  /** A piece with only short runs that ends in a non-space is read whole into `cur`. */
  lemma {:induction false} RunsConsume(p: string, rest: string, minRun: nat, cur: string)
    requires minRun >= 1
    requires ShortRuns(p, minRun)
    requires p == [] || !IsSpace(p[|p| - 1])
    ensures RunsFrom(p + rest, minRun, cur) == RunsFrom(rest, minRun, cur + p)
    decreases |p|
  {
    if p == [] {
      assert p + rest == rest;
      assert cur + p == cur;
    } else {
      var n := RunsStep(p, rest, minRun, cur);
      ShortRunsSuffix(p, n, minRun);
      var q := p[n..];
      assert q == [] || q[|q| - 1] == p[|p| - 1];
      RunsConsume(q, rest, minRun, cur + p[..n]);
      assert cur + p[..n] + q == cur + p;
    }
  }

  /** One step of `RunsFrom` inside a piece: a short run or one other character joins `cur`. */
  lemma RunsStep(p: string, rest: string, minRun: nat, cur: string) returns (n: nat)
    requires minRun >= 1
    requires ShortRuns(p, minRun)
    requires p != [] && !IsSpace(p[|p| - 1])
    ensures 0 < n <= |p|
    ensures RunsFrom(p + rest, minRun, cur) == RunsFrom(p[n..] + rest, minRun, cur + p[..n])
  {
    var s := p + rest;
    assert s[0] == p[0];
    if IsSpace(p[0]) {
      n := SpaceRun(p);
      assert n < minRun;
      assert n < |p|;
      SpaceRunAppend(p, rest);
      assert s[..n] == p[..n];
    } else {
      n := 1;
      assert SpaceRun(s) == 0;
      assert [s[0]] == p[..1];
    }
    assert s[n..] == p[n..] + rest;
  }

  /** Piece predicate of the round trip below: non-empty, stripped, only short inner runs. */
  predicate IsPiece(p: string, minRun: nat)
  {
    p != [] && IsStripped(p) && ShortRuns(p, minRun)
  }

  /** A piece followed by a long separator is split off on its own. */
  lemma SplitOnRunsCons(p: string, sep: string, tail: string, minRun: nat)
    requires minRun >= 1 && IsPiece(p, minRun)
    requires AllSpace(sep) && |sep| >= minRun
    requires tail == [] || !IsSpace(tail[0])
    ensures SplitOnRuns(p + sep + tail, minRun) == [p] + SplitOnRuns(tail, minRun)
  {
    RunsConsume(p, sep + tail, minRun, []);
    assert p + (sep + tail) == p + sep + tail;
    assert [] + p == p;
    SpaceRunOfSeparator(sep, tail);
    assert (sep + tail)[|sep|..] == tail;
  }

  /**
   * Splitting on long whitespace runs undoes joining with a long whitespace
   * separator, for pieces that themselves contain no long run.
   */
  lemma {:induction false} SplitOnRunsJoin(parts: seq<string>, sep: string, minRun: nat)
    requires minRun >= 1
    requires |parts| >= 1
    requires AllSpace(sep) && |sep| >= minRun
    requires forall i :: 0 <= i < |parts| ==> IsPiece(parts[i], minRun)
    ensures SplitOnRuns(Join(parts, sep), minRun) == parts
    decreases |parts|
  {
    if |parts| == 1 {
      RunsConsume(parts[0], [], minRun, []);
      assert parts[0] + [] == parts[0];
      assert [] + parts[0] == parts[0];
    } else {
      var tail := Join(parts[1..], sep);
      JoinStartsWith(parts[1..], sep);
      assert tail[0] == parts[1][0];
      SplitOnRunsCons(parts[0], sep, tail, minRun);
      SplitOnRunsJoin(parts[1..], sep, minRun);
    }
  }

  lemma {:induction false} NoSpaceShortRuns(s: string, minRun: nat)
    requires minRun >= 1 && NoSpace(s)
    ensures ShortRuns(s, minRun)
    decreases |s|
  {
    if s != [] {
      NoSpaceShortRuns(s[1..], minRun);
    }
  }

  /** A string without whitespace is a single piece. */
  lemma SplitOnRunsNoSpace(s: string, minRun: nat)
    requires minRun >= 1
    requires NoSpace(s)
    ensures SplitOnRuns(s, minRun) == [s]
  {
    NoSpaceShortRuns(s, minRun);
    RunsConsume(s, [], minRun, []);
    assert s + [] == s;
    assert [] + s == s;
  }

  /** Three words separated by single spaces split back into the three words. */
  lemma SplitOnRuns3(a: string, b: string, c: string)
    requires a != [] && b != [] && c != []
    requires NoSpace(a) && NoSpace(b) && NoSpace(c)
    ensures SplitOnRuns(a + " " + b + " " + c, 1) == [a, b, c]
  {
    NoSpaceShortRuns(a, 1);
    NoSpaceShortRuns(b, 1);
    var rest := b + " " + c;
    assert a + " " + b + " " + c == a + " " + rest;
    SplitOnRunsCons(a, " ", rest, 1);
    SplitOnRunsCons(b, " ", c, 1);
    SplitOnRunsNoSpace(c, 1);
  }

  /** The columns of a line: `re.split(r"\s{2,}", line.strip())`. */
  function Segments(line: string): (parts: seq<string>)
    ensures |parts| >= 1
  {
    SplitOnRuns(Strip(line), 2)
  }

  /** Cells joined with gaps of two or more whitespace characters come back as the segments. */
  lemma SegmentsOfCells(cells: seq<string>, gap: string)
    requires |cells| >= 1
    requires forall i :: 0 <= i < |cells| ==> IsPiece(cells[i], 2)
    requires AllSpace(gap) && |gap| >= 2
    ensures Strip(Join(cells, gap)) != []
    ensures Segments(Join(cells, gap)) == cells
  {
    var line := Join(cells, gap);
    JoinStripped(cells, gap);
    StripOfStripped(line);
    SplitOnRunsJoin(cells, gap, 2);
  }
}
