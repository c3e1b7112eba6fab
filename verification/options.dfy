/** Python's `Optional[T]`: a value or `None`. */
module Options {

  datatype Option<+T> = None | Some(value: T) {

    /** The value, or `default` when absent (Python's `x if x is not None else default`). */
    function GetOr(default: T): T
    {
      match this
      case Some(v) => v
      case None => default
    }
  }

  /** The first present value of a sequence of attempts: a loop that returns on its first success. */
  function FirstSome<T>(rs: seq<Option<T>>): (r: Option<T>)
    ensures r.None? <==> forall i :: 0 <= i < |rs| ==> rs[i].None?
    ensures r.Some? ==> r in rs
  {
    if rs == [] then None
    else if rs[0].Some? then rs[0]
    else
      var r := FirstSome(rs[1..]);
      assert forall i :: 1 <= i < |rs| ==> rs[i] == rs[1..][i - 1];
      r
  }

  /** When attempt `i` succeeds and every earlier one fails or agrees with it, the loop returns its value. */
  lemma {:induction false} FirstSomeAt<T>(rs: seq<Option<T>>, i: nat)
    requires i < |rs| && rs[i].Some?
    requires forall j :: 0 <= j < i ==> rs[j].None? || rs[j] == rs[i]
    ensures FirstSome(rs) == rs[i]
    decreases i
  {
    if rs[0].None? {
      assert forall j :: 0 <= j < i - 1 ==> rs[1..][j] == rs[j + 1];
      FirstSomeAt(rs[1..], i - 1);
    }
  }
}
