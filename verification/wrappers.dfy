/** Failure-compatible wrappers shared by the dashboard model.

    JavaScript's `undefined` / missing-property cases and failed fetches are
    modelled with `Option`; operations that report an error state return a
    `Result`.
 */
module Wrappers {

  /** A value that may be absent (`undefined`, a missing key, a failed fetch). */
  datatype Option<+T> = None | Some(value: T) {

    /** The value, or `default` when absent; for values that are never falsy this is the usual "value or fallback" choice. */
    function GetOr(default: T): T
    {
      match this
      case Some(v) => v
      case None => default
    }
  }

  /** Either a value or an error message. */
  datatype Result<+T, +E> = Ok(value: T) | Err(error: E)

  /** The values of the successful entries, in their original order; failed entries are dropped. */
  function Successes<T>(rs: seq<Option<T>>): (r: seq<T>)
    ensures |r| <= |rs|
    ensures forall k | 0 <= k < |r| :: Some(r[k]) in rs
    ensures forall k | 0 <= k < |rs| && rs[k].Some? :: rs[k].value in r
  {
    if |rs| == 0 then []
    else
      var rest := Successes(rs[1..]);
      assert forall k | 1 <= k < |rs| :: rs[k] == rs[1..][k - 1];
      if rs[0].Some? then [rs[0].value] + rest else rest
  }

  /** The number of successful entries. */
  function CountSome<T>(rs: seq<Option<T>>): nat
  {
    if |rs| == 0 then 0 else (if rs[0].Some? then 1 else 0) + CountSome(rs[1..])
  }

  /** Collecting successes distributes over concatenation: the output keeps input order. */
  lemma {:induction false} SuccessesAppend<T>(a: seq<Option<T>>, b: seq<Option<T>>)
    ensures Successes(a + b) == Successes(a) + Successes(b)
  {
    if |a| == 0 {
      assert a + b == b;
    } else {
      assert (a + b)[1..] == a[1..] + b;
      SuccessesAppend(a[1..], b);
    }
  }

  /** Exactly one output per successful entry. */
  lemma {:induction false} SuccessesCount<T>(rs: seq<Option<T>>)
    ensures |Successes(rs)| == CountSome(rs)
  {
    if |rs| > 0 {
      SuccessesCount(rs[1..]);
    }
  }
}
