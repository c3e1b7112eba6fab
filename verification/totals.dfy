/**
 * `compute_totals` and `balance_check` of `api/app/services/totals.py`.
 * Amounts are exact reals; `round(x, 2)` is `Round2`, rounding half to even
 * at the cent.
 */
module TotalsService {
  import opened Options
  import opened Models

  // ---------------------------------------------------------------- round(x, 2)

  /** The integer nearest to `y`, ties going to the even neighbour. */
  function RoundHalfEven(y: real): (n: int)
    ensures -0.5 <= n as real - y <= 0.5
  {
    var f := y.Floor;
    var frac := y - f as real;
    if frac > 0.5 || (frac == 0.5 && f % 2 != 0) then f + 1 else f
  }

  /** A whole number of cents. */
  predicate IsCents(r: real)
  {
    (r * 100.0).Floor as real == r * 100.0
  }

  /** `round(x, 2)` on the exact value of `x`. */
  function Round2(x: real): (r: real)
    ensures -0.005 <= r - x <= 0.005
    ensures IsCents(r)
  {
    var n := RoundHalfEven(x * 100.0);
    CentsNear(x, n);
    n as real / 100.0
  }

  lemma CentsNear(x: real, n: int)
    requires -0.5 <= n as real - x * 100.0 <= 0.5
    ensures -0.005 <= n as real / 100.0 - x <= 0.005
    ensures IsCents(n as real / 100.0)
  {
    assert (n as real / 100.0) * 100.0 == n as real;
  }

  /** A whole number of cents is left alone. */
  lemma Round2OfCents(n: int)
    ensures Round2(n as real / 100.0) == n as real / 100.0
  {
    var y := (n as real / 100.0) * 100.0;
    assert y == n as real;
    assert y.Floor == n;
  }

  /** Rounding twice is rounding once. */
  lemma Round2Idempotent(x: real)
    ensures Round2(Round2(x)) == Round2(x)
  {
    Round2OfCents(RoundHalfEven(x * 100.0));
  }

  // ---------------------------------------------------------------- sums

  /** The amounts of a list of transactions, in order. */
  function Amounts(txs: seq<Transaction>): (xs: seq<real>)
    ensures |xs| == |txs|
    ensures forall i :: 0 <= i < |txs| ==> xs[i] == txs[i].amount
  {
    seq(|txs|, i requires 0 <= i < |txs| => txs[i].amount)
  }

  function Sum(xs: seq<real>): real
  {
    if xs == [] then 0.0 else xs[0] + Sum(xs[1..])
  }

  /** What a strictly positive amount adds to the inflow, and a strictly negative one to the outflow. */
  function InPart(x: real): real { if x > 0.0 then x else 0.0 }

  function OutPart(x: real): real { if x < 0.0 then -x else 0.0 }

  /** `sum(t.amount for t in transactions if t.amount > 0)`. */
  function Inflow(xs: seq<real>): (r: real)
    ensures r >= 0.0
  {
    if xs == [] then 0.0 else InPart(xs[0]) + Inflow(xs[1..])
  }

  /** `sum(-t.amount for t in transactions if t.amount < 0)`. */
  function Outflow(xs: seq<real>): (r: real)
    ensures r >= 0.0
  {
    if xs == [] then 0.0 else OutPart(xs[0]) + Outflow(xs[1..])
  }

  function Positives(xs: seq<real>): seq<real>
  {
    if xs == [] then [] else (if xs[0] > 0.0 then [xs[0]] else []) + Positives(xs[1..])
  }

  function NegatedNegatives(xs: seq<real>): seq<real>
  {
    if xs == [] then [] else (if xs[0] < 0.0 then [-xs[0]] else []) + NegatedNegatives(xs[1..])
  }

  lemma {:induction false} SumConcat(a: seq<real>, b: seq<real>)
    ensures Sum(a + b) == Sum(a) + Sum(b)
    decreases |a|
  {
    if a == [] {
      assert a + b == b;
    } else {
      assert (a + b)[1..] == a[1..] + b;
      SumConcat(a[1..], b);
    }
  }

  /** The inflow is the sum of the strictly positive amounts: zero amounts count in neither sum. */
  lemma {:induction false} InflowIsSumOfPositives(xs: seq<real>)
    ensures Inflow(xs) == Sum(Positives(xs))
    decreases |xs|
  {
    if xs != [] {
      InflowIsSumOfPositives(xs[1..]);
      SumConcat(if xs[0] > 0.0 then [xs[0]] else [], Positives(xs[1..]));
    }
  }

  /** The outflow is the sum of the negations of the strictly negative amounts. */
  lemma {:induction false} OutflowIsSumOfNegatives(xs: seq<real>)
    ensures Outflow(xs) == Sum(NegatedNegatives(xs))
    decreases |xs|
  {
    if xs != [] {
      OutflowIsSumOfNegatives(xs[1..]);
      SumConcat(if xs[0] < 0.0 then [-xs[0]] else [], NegatedNegatives(xs[1..]));
    }
  }

  /** Net flow is the plain sum of all amounts. */
  lemma {:induction false} NetIsSum(xs: seq<real>)
    ensures Inflow(xs) - Outflow(xs) == Sum(xs)
    decreases |xs|
  {
    if xs != [] {
      NetIsSum(xs[1..]);
    }
  }

  function AbsSum(xs: seq<real>): real
  {
    if xs == [] then 0.0 else (if xs[0] < 0.0 then -xs[0] else xs[0]) + AbsSum(xs[1..])
  }

  /** Flow volume is the sum of the absolute amounts. */
  lemma {:induction false} FlowIsAbsSum(xs: seq<real>)
    ensures Inflow(xs) + Outflow(xs) == AbsSum(xs)
    decreases |xs|
  {
    if xs != [] {
      FlowIsAbsSum(xs[1..]);
    }
  }

  lemma {:induction false} InflowConcat(a: seq<real>, b: seq<real>)
    ensures Inflow(a + b) == Inflow(a) + Inflow(b)
    ensures Outflow(a + b) == Outflow(a) + Outflow(b)
    decreases |a|
  {
    if a == [] {
      assert a + b == b;
    } else {
      assert (a + b)[1..] == a[1..] + b;
      InflowConcat(a[1..], b);
    }
  }

  /** Taking one amount out of the middle of a list takes its part out of both sums. */
  lemma FlowsWithout(a: seq<real>, x: real, b: seq<real>)
    ensures Inflow(a + [x] + b) == Inflow(a + b) + InPart(x)
    ensures Outflow(a + [x] + b) == Outflow(a + b) + OutPart(x)
  {
    InflowConcat(a + [x], b);
    InflowConcat(a, [x]);
    InflowConcat(a, b);
    assert Inflow([x]) == InPart(x) && Outflow([x]) == OutPart(x);
  }

  lemma MultisetWithout(xs: seq<real>, ys: seq<real>, i: nat)
    requires multiset(xs) == multiset(ys) && xs != [] && i < |ys| && ys[i] == xs[0]
    ensures multiset(xs[1..]) == multiset(ys[..i] + ys[i + 1..])
  {
    var x, a, b := xs[0], ys[..i], ys[i + 1..];
    assert ys == a + [x] + b;
    assert multiset(ys) == multiset(a) + multiset{x} + multiset(b);
    assert xs == [x] + xs[1..];
    assert multiset(xs) == multiset{x} + multiset(xs[1..]);
    assert multiset(a + b) == multiset(a) + multiset(b);
    assert multiset(xs[1..]) == multiset(xs) - multiset{x};
    assert multiset(a + b) == multiset(ys) - multiset{x};
  }

  /** Both sums depend only on the multiset of amounts, not on their order. */
  lemma {:induction false} FlowsPermutation(xs: seq<real>, ys: seq<real>)
    requires multiset(xs) == multiset(ys)
    ensures Inflow(xs) == Inflow(ys) && Outflow(xs) == Outflow(ys)
    decreases |xs|
  {
    if xs != [] {
      var x := xs[0];
      assert x in multiset(ys);
      var i :| 0 <= i < |ys| && ys[i] == x;
      var a, b := ys[..i], ys[i + 1..];
      MultisetWithout(xs, ys, i);
      FlowsPermutation(xs[1..], a + b);
      assert ys == a + [x] + b;
      FlowsWithout(a, x, b);
    }
  }

  // ---------------------------------------------------------------- compute_totals

  /** `compute_totals(transactions)`. */
  function ComputeTotals(txs: seq<Transaction>): (r: Totals)
    ensures r.inflow >= 0.0 && r.outflow >= 0.0
    ensures r.inflow == Round2(Sum(Positives(Amounts(txs))))
    ensures r.outflow == Round2(Sum(NegatedNegatives(Amounts(txs))))
    ensures r.net == Round2(Sum(Amounts(txs)))
    ensures r.flowVolume == Round2(AbsSum(Amounts(txs)))
  {
    var xs := Amounts(txs);
    var inflow := Inflow(xs);
    var outflow := Outflow(xs);
    var net := inflow - outflow;
    var flowVolume := inflow + outflow;
    InflowIsSumOfPositives(xs);
    OutflowIsSumOfNegatives(xs);
    NetIsSum(xs);
    FlowIsAbsSum(xs);
    Round2OfCents(0);
    assert Round2(inflow) >= 0.0 by { RoundNonNegative(inflow); }
    assert Round2(outflow) >= 0.0 by { RoundNonNegative(outflow); }
    Totals(Round2(inflow), Round2(outflow), Round2(net), Round2(flowVolume))
  }

  lemma RoundNonNegative(x: real)
    requires x >= 0.0
    ensures Round2(x) >= 0.0
  {
    var y := x * 100.0;
    assert y >= 0.0;
    assert y.Floor >= 0;
  }

  /** No transactions: all four fields are zero. */
  lemma EmptyTotals()
    ensures ComputeTotals([]) == Totals(0.0, 0.0, 0.0, 0.0)
  {
    Round2OfCents(0);
    assert Amounts([]) == [];
  }

  /** The totals depend only on the multiset of amounts. */
  lemma TotalsPermutation(a: seq<Transaction>, b: seq<Transaction>)
    requires multiset(Amounts(a)) == multiset(Amounts(b))
    ensures ComputeTotals(a) == ComputeTotals(b)
  {
    FlowsPermutation(Amounts(a), Amounts(b));
    TotalsOfFlows(a);
    TotalsOfFlows(b);
  }

  /** The four rounded fields of two unrounded sums. */
  function RoundedTotals(inflow: real, outflow: real): Totals
  {
    Totals(Round2(inflow), Round2(outflow), Round2(inflow - outflow), Round2(inflow + outflow))
  }

  lemma TotalsOfFlows(txs: seq<Transaction>)
    ensures ComputeTotals(txs) == RoundedTotals(Inflow(Amounts(txs)), Outflow(Amounts(txs)))
  {
  }

  // ---------------------------------------------------------------- balance_check

  /** The diagnostic triple `(opening, closing, expected_closing)`. */
  datatype BalanceCheck = BalanceCheck(opening: real, closing: real, expectedClosing: real)

  /**
   * `balance_check(opening, closing, totals)`: absent when either balance is;
   * otherwise the expected closing balance is the opening one plus the
   * (already rounded) net flow, rounded again.
   */
  function CheckBalance(opening: Option<real>, closing: Option<real>, totals: Totals): (r: Option<BalanceCheck>)
    ensures r.None? <==> opening.None? || closing.None?
    ensures r.Some? ==> r.value.opening == opening.value && r.value.closing == closing.value
    ensures r.Some? ==> r.value.expectedClosing == Round2(opening.value + totals.net)
    ensures r.Some? ==> IsCents(r.value.expectedClosing)
    ensures r.Some? ==> -0.005 <= r.value.expectedClosing - (opening.value + totals.net) <= 0.005
  {
    if opening.None? || closing.None? then None
    else Some(BalanceCheck(opening.value, closing.value, Round2(opening.value + totals.net)))
  }

  /** With whole-cent balances the expected closing balance is exactly opening plus net. */
  lemma ExpectedClosingOfCents(opening: int, closing: real, totals: Totals)
    requires IsCents(totals.net)
    ensures var r := CheckBalance(Some(opening as real / 100.0), Some(closing), totals);
            r.Some? && r.value.expectedClosing == opening as real / 100.0 + totals.net
  {
    var n := (totals.net * 100.0).Floor;
    assert totals.net == n as real / 100.0;
    assert opening as real / 100.0 + totals.net == (opening + n) as real / 100.0;
    Round2OfCents(opening + n);
  }
}
