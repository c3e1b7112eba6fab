/**
 * `extract_financial_totals` of `api/app/services/pdf_processor.py`.
 * Every line of the text is matched against six labelled patterns in a
 * fixed order.  A capture becomes a total when, with its commas removed,
 * `float` reads it and its value is at least 0.01.  The totals are then
 * sorted by value, largest first and stably, only the first total of each
 * value is kept, and at most ten are returned.
 *
 * The regular-expression engine is a parameter: a `Matcher` gives, for a
 * label's pattern and a line, the `group(1)` capture of every match
 * `re.finditer` finds, in order.  `KeywordPatterns` gives a concrete
 * matcher for the four patterns without backtracking.
 */
module FinancialTotals {
  import opened Options
  import opened Strings
  import opened Decimals
  import opened Numbers
  import opened Sequences

  /** The label of each pattern. */
  datatype Label = Total | Subtotal | Tax | Amount | Balance | GrandTotal

  /** The patterns in the order they are tried on each line. */
  const Patterns: seq<Label> := [Total, Subtotal, Tax, Amount, Balance, GrandTotal]

  /** The position of a label's pattern in `Patterns`. */
  function Rank(kind: Label): (n: nat)
    ensures n < |Patterns| && Patterns[n] == kind
  {
    match kind
    case Total => 0
    case Subtotal => 1
    case Tax => 2
    case Amount => 3
    case Balance => 4
    case GrandTotal => 5
  }

  /** The text of `FinancialTotal.label`. */
  function LabelName(kind: Label): string
  {
    match kind
    case Total => "Total"
    case Subtotal => "Subtotal"
    case Tax => "Tax"
    case Amount => "Amount"
    case Balance => "Balance"
    case GrandTotal => "Grand Total"
  }

  /** `FinancialTotal`: label (`kind`, as `label` is a Dafny keyword), value, currency and 1-based line number. */
  datatype FinancialTotal = FinancialTotal(kind: Label, value: real, currency: string, lineNumber: int)

  /** The captures of every match of a label's pattern in a line, in match order. */
  type Matcher = (Label, string) -> seq<string>

  /** Smaller amounts are taken for false positives. */
  const MinValue: real := 0.01

  const Currency: string := "USD"

  /** At most this many totals are returned. */
  const MaxTotals: nat := 10

  /** What every total the detector produces satisfies. */
  predicate IsDetected(t: FinancialTotal)
  {
    t.value >= MinValue && t.currency == Currency
  }

  /** `float(capture.replace(',', ''))`, `None` for a `ValueError`. */
  function CaptureValue(capture: string): (v: Option<real>)
    ensures v.Some? <==> IsDecimalLiteral(Filter(IsNotComma, capture))
  {
    ParseFloat(Filter(IsNotComma, capture))
  }

  /** One `re.finditer` match: the pattern's label, `match.group(1)` and the line number. */
  datatype Match = Match(kind: Label, capture: string, lineNumber: int)

  /** The matches of one pattern in a line, in match order. */
  function CaptureMatches(kind: Label, captures: seq<string>, lineNumber: int): (ms: seq<Match>)
    ensures |ms| == |captures|
    ensures forall k :: 0 <= k < |ms| ==> ms[k] == Match(kind, captures[k], lineNumber)
  {
    seq(|captures|, k requires 0 <= k < |captures| => Match(kind, captures[k], lineNumber))
  }

  /** The matches of one line, pattern after pattern. */
  function PatternMatches(matcher: Matcher, kinds: seq<Label>, line: string, lineNumber: int): seq<Match>
  {
    if |kinds| == 0 then []
    else CaptureMatches(kinds[0], matcher(kinds[0], line), lineNumber) + PatternMatches(matcher, kinds[1..], line, lineNumber)
  }

  /** The matches of one line in the order the patterns are tried. */
  function LineMatches(matcher: Matcher, line: string, lineNumber: int): seq<Match>
  {
    PatternMatches(matcher, Patterns, line, lineNumber)
  }

  /** The matches of `lines`, the first of which is line `lineNumber`, line after line. */
  function Matches(matcher: Matcher, lines: seq<string>, lineNumber: int): seq<Match>
    decreases |lines|
  {
    if |lines| == 0 then []
    else LineMatches(matcher, lines[0], lineNumber) + Matches(matcher, lines[1..], lineNumber + 1)
  }

  /** The body of the innermost loop: the total a match yields, `None` where it `continue`s or is too small. */
  function TotalOf(m: Match): (t: Option<FinancialTotal>)
    ensures t.Some? ==> IsDetected(t.value) && t.value.kind == m.kind && t.value.lineNumber == m.lineNumber
  {
    match CaptureValue(m.capture)
    case None => None
    case Some(v) => if v >= MinValue then Some(FinancialTotal(m.kind, v, Currency, m.lineNumber)) else None
  }

  /**
   * The list `totals` the loops build: the totals of all matches, in (line,
   * pattern, match) order.  Each is at least 0.01, in USD, and numbered
   * within the lines.
   */
  function Candidates(matcher: Matcher, lines: seq<string>, lineNumber: int): (ts: seq<FinancialTotal>)
    ensures forall k :: 0 <= k < |ts| ==> IsDetected(ts[k]) && lineNumber <= ts[k].lineNumber < lineNumber + |lines|
  {
    var ms := Matches(matcher, lines, lineNumber);
    MatchesNumbered(matcher, lines, lineNumber);
    var inRange := (t: FinancialTotal) => IsDetected(t) && lineNumber <= t.lineNumber < lineNumber + |lines|;
    CollectAll(TotalOf, inRange, ms);
    Collect(TotalOf, ms)
  }

  // ---------------------------------------------------------------- ranking

  /** Values never increase along `ts`. */
  predicate Descending(ts: seq<FinancialTotal>)
  {
    forall i, j :: 0 <= i < j < |ts| ==> ts[i].value >= ts[j].value
  }

  /** Values strictly decrease along `ts`: in particular no value appears twice. */
  predicate StrictlyDescending(ts: seq<FinancialTotal>)
  {
    forall i, j :: 0 <= i < j < |ts| ==> ts[i].value > ts[j].value
  }

  /** The values of the totals in `ts`. */
  function Values(ts: seq<FinancialTotal>): set<real>
  {
    set t | t in ts :: t.value
  }

  /** The first total of `ts` with value `v`. */
  function FirstWithValue(ts: seq<FinancialTotal>, v: real): (r: Option<FinancialTotal>)
    ensures r.Some? ==> r.value in ts && r.value.value == v
    ensures r.None? <==> forall k :: 0 <= k < |ts| ==> ts[k].value != v
  {
    if |ts| == 0 then None
    else if ts[0].value == v then Some(ts[0])
    else
      var r := FirstWithValue(ts[1..], v);
      assert forall k :: 1 <= k < |ts| ==> ts[k] == ts[1..][k - 1];
      r
  }

  /**
   * Places `t` after the leading totals of `ts` whose value is at least as
   * large, so that a later total never overtakes an earlier one of equal
   * value.
   */
  function Insert(t: FinancialTotal, ts: seq<FinancialTotal>): (r: seq<FinancialTotal>)
    ensures multiset(r) == multiset(ts) + multiset{t}
  {
    if |ts| == 0 then [t]
    else if ts[0].value >= t.value then
      assert ts == [ts[0]] + ts[1..];
      [ts[0]] + Insert(t, ts[1..])
    else [t] + ts
  }

  /** `sorted(ts, key=value, reverse=True)`: descending and stable. */
  function SortByValue(ts: seq<FinancialTotal>): (r: seq<FinancialTotal>)
    ensures Descending(r)
    ensures multiset(r) == multiset(ts)
    decreases |ts|
  {
    if |ts| == 0 then []
    else
      var n := |ts| - 1;
      assert ts == ts[..n] + [ts[n]];
      InsertDescending(ts[n], SortByValue(ts[..n]));
      Insert(ts[n], SortByValue(ts[..n]))
  }

  /**
   * The loop over the sorted totals with `seen_values`: a total is kept
   * when its value has not been seen.
   */
  function KeepFirstOfEachValue(ts: seq<FinancialTotal>, seen: set<real>): (r: seq<FinancialTotal>)
    ensures forall k :: 0 <= k < |r| ==> r[k] in ts && r[k].value !in seen
  {
    if |ts| == 0 then []
    else if ts[0].value in seen then KeepFirstOfEachValue(ts[1..], seen)
    else [ts[0]] + KeepFirstOfEachValue(ts[1..], seen + {ts[0].value})
  }

  /** The returned list: the first `MaxTotals` totals of distinct values, largest first. */
  function TopTotals(candidates: seq<FinancialTotal>): (r: seq<FinancialTotal>)
    ensures |r| <= MaxTotals
    ensures StrictlyDescending(r)
    ensures forall k :: 0 <= k < |r| ==> FirstWithValue(candidates, r[k].value) == Some(r[k])
    ensures forall t :: t in candidates
              ==> t.value in Values(r) || (|r| == MaxTotals && forall k :: 0 <= k < |r| ==> r[k].value > t.value)
  {
    var sorted := SortByValue(candidates);
    var unique := KeepFirstOfEachValue(sorted, {});
    KeptAreFirst(sorted, {});
    KeptStrictlyDescend(sorted, {});
    SortKeepsFirst(candidates);
    KeptValues(sorted, {});
    ValuesOfPermutation(sorted, candidates);
    var r := unique[..if |unique| < MaxTotals then |unique| else MaxTotals];
    TopKeepsLargest(unique, r, candidates);
    r
  }

  /** `extract_financial_totals(text)`. */
  function ExtractFinancialTotals(matcher: Matcher, text: string): (r: seq<FinancialTotal>)
    ensures |r| <= MaxTotals
    ensures StrictlyDescending(r)
    ensures forall k :: 0 <= k < |r| ==> IsDetected(r[k]) && 1 <= r[k].lineNumber <= |Split(text, '\n')|
    ensures forall k :: 0 <= k < |r| ==> r[k] in Candidates(matcher, Split(text, '\n'), 1)
  {
    TopTotals(Candidates(matcher, Split(text, '\n'), 1))
  }

  // ---------------------------------------------------------------- proofs

  /** The matches of a line carry its number and the label of one of the patterns tried. */
  lemma {:induction false} PatternMatchesNumbered(matcher: Matcher, kinds: seq<Label>, line: string, lineNumber: int)
    ensures forall k :: 0 <= k < |PatternMatches(matcher, kinds, line, lineNumber)|
              ==> PatternMatches(matcher, kinds, line, lineNumber)[k].lineNumber == lineNumber
                  && PatternMatches(matcher, kinds, line, lineNumber)[k].kind in kinds
    decreases |kinds|
  {
    if |kinds| > 0 {
      PatternMatchesNumbered(matcher, kinds[1..], line, lineNumber);
      var rest := PatternMatches(matcher, kinds[1..], line, lineNumber);
      assert forall k :: 0 <= k < |rest| ==> rest[k].kind in kinds[1..];
    }
  }

  /** Every match is numbered within the lines it comes from. */
  lemma {:induction false} MatchesNumbered(matcher: Matcher, lines: seq<string>, lineNumber: int)
    ensures forall k :: 0 <= k < |Matches(matcher, lines, lineNumber)|
              ==> lineNumber <= Matches(matcher, lines, lineNumber)[k].lineNumber < lineNumber + |lines|
    decreases |lines|
  {
    if |lines| > 0 {
      PatternMatchesNumbered(matcher, Patterns, lines[0], lineNumber);
      MatchesNumbered(matcher, lines[1..], lineNumber + 1);
    }
  }

  /** Equal multisets hold the same values. */
  lemma ValuesOfPermutation(a: seq<FinancialTotal>, b: seq<FinancialTotal>)
    requires multiset(a) == multiset(b)
    ensures Values(a) == Values(b)
  {
    assert forall t :: t in a <==> t in multiset(a);
    assert forall t :: t in b <==> t in multiset(b);
  }

  /** Exactly the values not seen before the loop survive it. */
  lemma {:induction false} KeptValues(ts: seq<FinancialTotal>, seen: set<real>)
    ensures Values(KeepFirstOfEachValue(ts, seen)) == Values(ts) - seen
    decreases |ts|
  {
    if |ts| > 0 {
      assert ts == [ts[0]] + ts[1..];
      assert Values(ts) == {ts[0].value} + Values(ts[1..]);
      if ts[0].value in seen {
        KeptValues(ts[1..], seen);
      } else {
        KeptValues(ts[1..], seen + {ts[0].value});
        var rest := KeepFirstOfEachValue(ts[1..], seen + {ts[0].value});
        assert KeepFirstOfEachValue(ts, seen) == [ts[0]] + rest;
        assert Values([ts[0]] + rest) == {ts[0].value} + Values(rest);
      }
    }
  }

  /** Each kept total is the first of `ts` with its value. */
  lemma {:induction false} KeptAreFirst(ts: seq<FinancialTotal>, seen: set<real>)
    ensures forall k :: 0 <= k < |KeepFirstOfEachValue(ts, seen)|
              ==> FirstWithValue(ts, KeepFirstOfEachValue(ts, seen)[k].value) == Some(KeepFirstOfEachValue(ts, seen)[k])
    decreases |ts|
  {
    if |ts| > 0 {
      var seen' := if ts[0].value in seen then seen else seen + {ts[0].value};
      KeptAreFirst(ts[1..], seen');
      var rest := KeepFirstOfEachValue(ts[1..], seen');
      assert forall k :: 0 <= k < |rest| ==> rest[k].value != ts[0].value;
    }
  }

  /** From a descending list the loop keeps a strictly descending one. */
  lemma {:induction false} KeptStrictlyDescend(ts: seq<FinancialTotal>, seen: set<real>)
    requires Descending(ts)
    ensures StrictlyDescending(KeepFirstOfEachValue(ts, seen))
    decreases |ts|
  {
    if |ts| > 0 {
      var seen' := if ts[0].value in seen then seen else seen + {ts[0].value};
      KeptStrictlyDescend(ts[1..], seen');
      var rest := KeepFirstOfEachValue(ts[1..], seen');
      assert forall k :: 0 <= k < |rest| ==> rest[k] in ts[1..];
      assert forall k :: 0 <= k < |rest| ==> rest[k].value <= ts[0].value;
    }
  }

  /** The first total of a value in `a + b`: in `a` if `a` has one, else in `b`. */
  lemma {:induction false} FirstWithValueConcat(a: seq<FinancialTotal>, b: seq<FinancialTotal>, v: real)
    ensures FirstWithValue(a + b, v) == if FirstWithValue(a, v).Some? then FirstWithValue(a, v) else FirstWithValue(b, v)
    decreases |a|
  {
    if |a| > 0 {
      assert (a + b)[1..] == a[1..] + b;
      FirstWithValueConcat(a[1..], b, v);
    } else {
      assert a + b == b;
    }
  }

  /** Inserting into a descending list keeps it descending. */
  lemma {:induction false} InsertDescending(t: FinancialTotal, ts: seq<FinancialTotal>)
    requires Descending(ts)
    ensures Descending(Insert(t, ts))
    decreases |ts|
  {
    if |ts| > 0 && ts[0].value >= t.value {
      InsertDescending(t, ts[1..]);
      var rest := Insert(t, ts[1..]);
      assert forall k :: 0 <= k < |rest| ==> rest[k] in multiset(ts[1..]) + multiset{t};
      assert forall k :: 0 <= k < |rest| ==> rest[k].value <= ts[0].value;
    }
  }

  /** Inserting into a descending list is, for the first total of each value, appending. */
  lemma {:induction false} FirstWithValueInsert(x: FinancialTotal, ts: seq<FinancialTotal>, v: real)
    requires Descending(ts)
    ensures FirstWithValue(Insert(x, ts), v)
         == if FirstWithValue(ts, v).Some? then FirstWithValue(ts, v)
            else if x.value == v then Some(x) else None
    decreases |ts|
  {
    if |ts| > 0 {
      if ts[0].value >= x.value {
        FirstWithValueInsert(x, ts[1..], v);
      } else if x.value == v {
        assert forall k :: 0 <= k < |ts| ==> ts[k].value < v;
      }
    }
  }

  /** Stability: sorting does not change which total comes first among those of equal value. */
  lemma {:induction false} SortKeepsFirst(ts: seq<FinancialTotal>)
    ensures forall v :: FirstWithValue(SortByValue(ts), v) == FirstWithValue(ts, v)
    decreases |ts|
  {
    if |ts| > 0 {
      var n := |ts| - 1;
      SortKeepsFirst(ts[..n]);
      assert ts == ts[..n] + [ts[n]];
      forall v
        ensures FirstWithValue(SortByValue(ts), v) == FirstWithValue(ts, v)
      {
        FirstWithValueInsert(ts[n], SortByValue(ts[..n]), v);
        FirstWithValueConcat(ts[..n], [ts[n]], v);
      }
    }
  }

  /** Every value left out of the first `MaxTotals` is smaller than all of them. */
  lemma TopKeepsLargest(unique: seq<FinancialTotal>, r: seq<FinancialTotal>, candidates: seq<FinancialTotal>)
    requires StrictlyDescending(unique)
    requires r == unique[..if |unique| < MaxTotals then |unique| else MaxTotals]
    requires Values(unique) == Values(candidates)
    ensures forall t :: t in candidates
              ==> t.value in Values(r) || (|r| == MaxTotals && forall k :: 0 <= k < |r| ==> r[k].value > t.value)
  {
    forall t | t in candidates
      ensures t.value in Values(r) || (|r| == MaxTotals && forall k :: 0 <= k < |r| ==> r[k].value > t.value)
    {
      assert t.value in Values(unique);
      var u :| u in unique && u.value == t.value;
      var j :| 0 <= j < |unique| && unique[j] == u;
      if j < |r| {
        assert r[j] == u;
      }
    }
  }

  // ---------------------------------------------------------------- captures and lines

  /** A comma inside a capture is dropped before conversion. */
  lemma CommaIgnored(a: string, b: string)
    ensures CaptureValue(a + "," + b) == CaptureValue(a + b)
  {
    FilterConcat(IsNotComma, a + ",", b);
    FilterConcat(IsNotComma, a, ",");
    FilterConcat(IsNotComma, a, b);
    assert Filter(IsNotComma, ",") == [];
    assert Filter(IsNotComma, a + "," + b) == Filter(IsNotComma, a + b);
  }

  /** A capture made only of commas is skipped. */
  lemma OnlyCommasSkipped(m: Match)
    requires forall i :: 0 <= i < |m.capture| ==> m.capture[i] == ','
    ensures CaptureValue(m.capture).None? && TotalOf(m).None?
  {
    FilterNone(IsNotComma, m.capture);
  }

  /** Thousands separators are ignored: `1,234.56` reads as 1234.56. */
  lemma GroupedCapture(high: string, low: string, fraction: string)
    requires AllDigits(high) && AllDigits(low) && AllDigits(fraction) && |high| > 0
    ensures CaptureValue(high + "," + low + "." + fraction) == Some(PointValue(high + low, fraction))
  {
    var plain := high + low + "." + fraction;
    assert high + "," + low + "." + fraction == high + "," + (low + "." + fraction);
    CommaIgnored(high, low + "." + fraction);
    assert high + (low + "." + fraction) == plain;
    assert forall i :: 0 <= i < |plain| ==> IsNotComma(plain[i]);
    FilterAll(IsNotComma, plain);
    ParsePointDigits(high + low, fraction);
  }

  /** A match yields a total exactly when its capture converts to at least 0.01, and the total holds that value. */
  lemma TotalOfValue(m: Match)
    ensures TotalOf(m).Some? <==> CaptureValue(m.capture).Some? && CaptureValue(m.capture).value >= 0.01
    ensures TotalOf(m).Some? ==> TotalOf(m).value == FinancialTotal(m.kind, CaptureValue(m.capture).value, "USD", m.lineNumber)
  {
  }

  /** Lines are processed one after the other, numbered on from where the first part stopped. */
  lemma {:induction false} MatchesConcat(matcher: Matcher, a: seq<string>, b: seq<string>, lineNumber: int)
    ensures Matches(matcher, a + b, lineNumber)
         == Matches(matcher, a, lineNumber) + Matches(matcher, b, lineNumber + |a|)
    decreases |a|
  {
    if |a| == 0 {
      assert a + b == b;
    } else {
      assert (a + b)[0] == a[0];
      assert (a + b)[1..] == a[1..] + b;
      MatchesConcat(matcher, a[1..], b, lineNumber + 1);
    }
  }

  /** The totals of two runs of lines follow each other, the second numbered on from the first. */
  lemma CandidatesConcat(matcher: Matcher, a: seq<string>, b: seq<string>, lineNumber: int)
    ensures Candidates(matcher, a + b, lineNumber)
         == Candidates(matcher, a, lineNumber) + Candidates(matcher, b, lineNumber + |a|)
  {
    MatchesConcat(matcher, a, b, lineNumber);
    CollectConcat(TotalOf, Matches(matcher, a, lineNumber), Matches(matcher, b, lineNumber + |a|));
  }

  /** The matches of line `i` (counted from 0) carry line number `lineNumber + i` and sit between those of the lines around it. */
  lemma MatchesAt(matcher: Matcher, lines: seq<string>, lineNumber: int, i: nat)
    requires i < |lines|
    ensures Matches(matcher, lines, lineNumber)
         == Matches(matcher, lines[..i], lineNumber)
            + LineMatches(matcher, lines[i], lineNumber + i)
            + Matches(matcher, lines[i + 1..], lineNumber + i + 1)
  {
    assert lines == lines[..i] + ([lines[i]] + lines[i + 1..]);
    MatchesConcat(matcher, lines[..i], [lines[i]] + lines[i + 1..], lineNumber);
    assert ([lines[i]] + lines[i + 1..])[1..] == lines[i + 1..];
  }

  /** `Rank` numbers `Patterns` in order. */
  lemma RankOfPatterns()
    ensures forall k :: 0 <= k < |Patterns| ==> Rank(Patterns[k]) == k
  {
  }

  /** Trying patterns in increasing rank yields matches in increasing rank. */
  lemma {:induction false} PatternMatchesInOrder(matcher: Matcher, kinds: seq<Label>, line: string, lineNumber: int)
    requires forall i, j :: 0 <= i < j < |kinds| ==> Rank(kinds[i]) < Rank(kinds[j])
    ensures forall i, j :: 0 <= i < j < |PatternMatches(matcher, kinds, line, lineNumber)|
              ==> Rank(PatternMatches(matcher, kinds, line, lineNumber)[i].kind)
                    <= Rank(PatternMatches(matcher, kinds, line, lineNumber)[j].kind)
    decreases |kinds|
  {
    if |kinds| > 0 {
      PatternMatchesInOrder(matcher, kinds[1..], line, lineNumber);
      PatternMatchesNumbered(matcher, kinds[1..], line, lineNumber);
      var first := CaptureMatches(kinds[0], matcher(kinds[0], line), lineNumber);
      var rest := PatternMatches(matcher, kinds[1..], line, lineNumber);
      forall k | 0 <= k < |rest|
        ensures Rank(rest[k].kind) > Rank(kinds[0])
      {
        var idx :| 0 <= idx < |kinds[1..]| && kinds[1..][idx] == rest[k].kind;
        assert kinds[idx + 1] == rest[k].kind;
      }
      var ms := first + rest;
      assert forall k :: 0 <= k < |first| ==> ms[k].kind == kinds[0];
      assert forall k :: |first| <= k < |ms| ==> ms[k] == rest[k - |first|];
    }
  }

  /** Within a line the matches follow the pattern order Total, Subtotal, Tax, Amount, Balance, Grand Total. */
  lemma LineMatchesInPatternOrder(matcher: Matcher, line: string, lineNumber: int)
    ensures forall i, j :: 0 <= i < j < |LineMatches(matcher, line, lineNumber)|
              ==> Rank(LineMatches(matcher, line, lineNumber)[i].kind) <= Rank(LineMatches(matcher, line, lineNumber)[j].kind)
  {
    RankOfPatterns();
    PatternMatchesInOrder(matcher, Patterns, line, lineNumber);
  }

  // ---------------------------------------------------------------- ties

  /** Totals that all share one value give one entry: the first of them. */
  lemma TiesKeepFirst(candidates: seq<FinancialTotal>)
    requires |candidates| > 0
    requires forall k :: 0 <= k < |candidates| ==> candidates[k].value == candidates[0].value
    ensures TopTotals(candidates) == [candidates[0]]
  {
    var r := TopTotals(candidates);
    var v := candidates[0].value;
    forall k | 0 <= k < |r|
      ensures r[k].value == v
    {
      assert FirstWithValue(candidates, r[k].value) == Some(r[k]);
      var i :| 0 <= i < |candidates| && candidates[i] == r[k];
    }
    assert candidates[0] in candidates;
    if |r| == 0 {
      assert false;
    }
    if |r| >= 2 {
      DescendingFirstTwo(r);
      assert false;
    }
    assert r == [r[0]];
    assert FirstWithValue(candidates, v) == Some(candidates[0]);
  }

  /** A text whose only totals are two of one value gives the first of them. */
  lemma TextOfTies(matcher: Matcher, text: string, a: FinancialTotal, b: FinancialTotal)
    requires Candidates(matcher, Split(text, '\n'), 1) == [a, b] && a.value == b.value
    ensures ExtractFinancialTotals(matcher, text) == [a]
  {
    TiesKeepFirst([a, b]);
  }

  lemma DescendingFirstTwo(r: seq<FinancialTotal>)
    requires StrictlyDescending(r) && |r| >= 2
    ensures r[0].value > r[1].value
  {
  }

  /** A text without a line break is line 1 and nothing else. */
  lemma OneLineCandidates(matcher: Matcher, line: string)
    requires '\n' !in line
    ensures Candidates(matcher, Split(line, '\n'), 1) == Collect(TotalOf, LineMatches(matcher, line, 1))
  {
    assert Split(line, '\n') == [line];
    assert [line][1..] == [];
    assert Matches(matcher, [line], 1) == LineMatches(matcher, line, 1) + Matches(matcher, [], 2);
    assert Matches(matcher, [], 2) == [];
    assert Matches(matcher, Split(line, '\n'), 1) == LineMatches(matcher, line, 1);
  }

  /** A line repeated below itself: its matches, then the same matches numbered one further. */
  lemma RepeatedLineCandidates(matcher: Matcher, line: string)
    requires '\n' !in line
    ensures Candidates(matcher, Split(line + "\n" + line, '\n'), 1)
         == Collect(TotalOf, LineMatches(matcher, line, 1) + LineMatches(matcher, line, 2))
  {
    RepeatedLineSplit(line);
    assert [line, line][1..] == [line];
    assert [line][1..] == [];
    assert Matches(matcher, [line], 2) == LineMatches(matcher, line, 2) + Matches(matcher, [], 3);
    assert Matches(matcher, [line, line], 1) == LineMatches(matcher, line, 1) + Matches(matcher, [line], 2);
    assert Matches(matcher, [], 3) == [];
    assert Matches(matcher, Split(line + "\n" + line, '\n'), 1)
        == LineMatches(matcher, line, 1) + LineMatches(matcher, line, 2);
  }

  lemma RepeatedLineSplit(line: string)
    requires '\n' !in line
    ensures Split(line + "\n" + line, '\n') == [line, line]
  {
    SplitCons(line, '\n', line);
    assert line + "\n" + line == line + ['\n'] + line;
  }

  /** The matches of a line, pattern by pattern. */
  lemma LineMatchesByPattern(matcher: Matcher, line: string, n: int)
    ensures LineMatches(matcher, line, n)
         == CaptureMatches(Total, matcher(Total, line), n)
            + (CaptureMatches(Subtotal, matcher(Subtotal, line), n)
            + (CaptureMatches(Tax, matcher(Tax, line), n)
            + (CaptureMatches(Amount, matcher(Amount, line), n)
            + (CaptureMatches(Balance, matcher(Balance, line), n)
            + CaptureMatches(GrandTotal, matcher(GrandTotal, line), n)))))
  {
    var p5: seq<Label> := [GrandTotal];
    var p4 := [Balance] + p5;
    var p3 := [Amount] + p4;
    var p2 := [Tax] + p3;
    var p1 := [Subtotal] + p2;
    assert Patterns == [Total] + p1;
    assert p5[1..] == [] && p4[1..] == p5 && p3[1..] == p4 && p2[1..] == p3 && p1[1..] == p2;
    assert Patterns[1..] == p1;
    assert PatternMatches(matcher, [], line, n) == [];
    assert PatternMatches(matcher, p5, line, n) == CaptureMatches(GrandTotal, matcher(GrandTotal, line), n);
    assert PatternMatches(matcher, p4, line, n)
        == CaptureMatches(Balance, matcher(Balance, line), n) + PatternMatches(matcher, p5, line, n);
    assert PatternMatches(matcher, p3, line, n)
        == CaptureMatches(Amount, matcher(Amount, line), n) + PatternMatches(matcher, p4, line, n);
    assert PatternMatches(matcher, p2, line, n)
        == CaptureMatches(Tax, matcher(Tax, line), n) + PatternMatches(matcher, p3, line, n);
    assert PatternMatches(matcher, p1, line, n)
        == CaptureMatches(Subtotal, matcher(Subtotal, line), n) + PatternMatches(matcher, p2, line, n);
    assert PatternMatches(matcher, Patterns, line, n)
        == CaptureMatches(Total, matcher(Total, line), n) + PatternMatches(matcher, p1, line, n);
  }

  /** Two matches that both yield totals yield them in order. */
  lemma TwoTotals(a: Match, b: Match)
    requires TotalOf(a).Some? && TotalOf(b).Some?
    ensures Collect(TotalOf, [a, b]) == [TotalOf(a).value, TotalOf(b).value]
  {
    assert [a, b][1..] == [b];
    assert [b][1..] == [];
  }

  /** The matches of a pattern that captures nothing, or one thing. */
  lemma CaptureMatchesSmall(kind: Label, c: string, n: int)
    ensures CaptureMatches(kind, [], n) == []
    ensures CaptureMatches(kind, [c], n) == [Match(kind, c, n)]
  {
  }

  /** A line on which only the `Total` and `Subtotal` patterns match, once each and capturing the same text. */
  lemma TotalAndSubtotalLine(matcher: Matcher, line: string, n: int, c: string)
    requires matcher(Total, line) == [c] && matcher(Subtotal, line) == [c]
    requires matcher(Tax, line) == [] && matcher(Amount, line) == []
    requires matcher(Balance, line) == [] && matcher(GrandTotal, line) == []
    ensures LineMatches(matcher, line, n) == [Match(Total, c, n), Match(Subtotal, c, n)]
  {
    LineMatchesByPattern(matcher, line, n);
    CaptureMatchesSmall(Total, c, n);
    CaptureMatchesSmall(Subtotal, c, n);
    CaptureMatchesSmall(Tax, c, n);
    CaptureMatchesSmall(Amount, c, n);
    CaptureMatchesSmall(Balance, c, n);
    CaptureMatchesSmall(GrandTotal, c, n);
  }

  /** A line on which only the `Total` pattern matches, once. */
  lemma TotalOnlyLine(matcher: Matcher, line: string, n: int, c: string)
    requires matcher(Total, line) == [c] && matcher(Subtotal, line) == []
    requires matcher(Tax, line) == [] && matcher(Amount, line) == []
    requires matcher(Balance, line) == [] && matcher(GrandTotal, line) == []
    ensures LineMatches(matcher, line, n) == [Match(Total, c, n)]
  {
    LineMatchesByPattern(matcher, line, n);
    CaptureMatchesSmall(Total, c, n);
    CaptureMatchesSmall(Subtotal, c, n);
    CaptureMatchesSmall(Tax, c, n);
    CaptureMatchesSmall(Amount, c, n);
    CaptureMatchesSmall(Balance, c, n);
    CaptureMatchesSmall(GrandTotal, c, n);
  }
}
