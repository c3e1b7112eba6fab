/**
 * The two loop shapes of the extractors: a loop that appends what each
 * element yields and skips the elements it `continue`s past, and a nested
 * loop that concatenates what each element yields.
 */
module Sequences {
  import opened Options

  /** `p` holds of every element of `s`. */
  predicate All<T>(p: T -> bool, s: seq<T>)
  {
    forall k :: 0 <= k < |s| ==> p(s[k])
  }

  /** `[f(x) for x in xs if f(x) is not None]`, in order. */
  function Collect<T, U>(f: T -> Option<U>, xs: seq<T>): (r: seq<U>)
    ensures |r| <= |xs|
  {
    if |xs| == 0 then []
    else (match f(xs[0]) case Some(u) => [u] case None => []) + Collect(f, xs[1..])
  }

  /** `[y for x in xs for y in f(x)]`, in order. */
  function FlatMap<T, U>(f: T -> seq<U>, xs: seq<T>): seq<U>
  {
    if |xs| == 0 then [] else f(xs[0]) + FlatMap(f, xs[1..])
  }

  lemma {:induction false} CollectConcat<T, U>(f: T -> Option<U>, a: seq<T>, b: seq<T>)
    ensures Collect(f, a + b) == Collect(f, a) + Collect(f, b)
    decreases |a|
  {
    if |a| > 0 {
      assert (a + b)[0] == a[0];
      assert (a + b)[1..] == a[1..] + b;
      CollectConcat(f, a[1..], b);
    } else {
      assert a + b == b;
    }
  }

  /** An element that yields nothing leaves no trace in the collected values. */
  lemma CollectSkip<T, U>(f: T -> Option<U>, a: seq<T>, x: T, b: seq<T>)
    requires f(x).None?
    ensures Collect(f, a + [x] + b) == Collect(f, a + b)
  {
    CollectConcat(f, a + [x], b);
    CollectConcat(f, a, [x]);
    assert [x][1..] == [];
    CollectConcat(f, a, b);
  }

  /** What every yielded value satisfies, every collected value satisfies. */
  lemma {:induction false} CollectAll<T, U>(f: T -> Option<U>, p: U -> bool, xs: seq<T>)
    requires forall i :: 0 <= i < |xs| && f(xs[i]).Some? ==> p(f(xs[i]).value)
    ensures All(p, Collect(f, xs))
    decreases |xs|
  {
    if |xs| > 0 {
      CollectAll(f, p, xs[1..]);
    }
  }

  /** When no element yields anything the loop collects nothing. */
  lemma {:induction false} CollectNone<T, U>(f: T -> Option<U>, xs: seq<T>)
    requires forall i :: 0 <= i < |xs| ==> f(xs[i]).None?
    ensures Collect(f, xs) == []
    decreases |xs|
  {
    if |xs| > 0 {
      CollectNone(f, xs[1..]);
    }
  }

  /** An element that yields a value makes the collected values non-empty. */
  lemma {:induction false} CollectSome<T, U>(f: T -> Option<U>, xs: seq<T>, i: nat)
    requires i < |xs| && f(xs[i]).Some?
    ensures Collect(f, xs) != []
    decreases i
  {
    if i > 0 {
      assert xs[1..][i - 1] == xs[i];
      CollectSome(f, xs[1..], i - 1);
    }
  }

  lemma {:induction false} FlatMapConcat<T, U>(f: T -> seq<U>, a: seq<T>, b: seq<T>)
    ensures FlatMap(f, a + b) == FlatMap(f, a) + FlatMap(f, b)
    decreases |a|
  {
    if |a| > 0 {
      assert (a + b)[0] == a[0];
      assert (a + b)[1..] == a[1..] + b;
      FlatMapConcat(f, a[1..], b);
    } else {
      assert a + b == b;
    }
  }

  lemma {:induction false} FlatMapAll<T, U>(f: T -> seq<U>, p: U -> bool, xs: seq<T>)
    requires forall i :: 0 <= i < |xs| ==> All(p, f(xs[i]))
    ensures All(p, FlatMap(f, xs))
    decreases |xs|
  {
    if |xs| > 0 {
      FlatMapAll(f, p, xs[1..]);
      var r := FlatMap(f, xs);
      assert forall k :: 0 <= k < |f(xs[0])| ==> r[k] == f(xs[0])[k];
      assert forall k :: |f(xs[0])| <= k < |r| ==> r[k] == FlatMap(f, xs[1..])[k - |f(xs[0])|];
    }
  }
}
