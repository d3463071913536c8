/** Option is the model's NaN (an indicator not yet defined), its missing dictionary entry
    and its raised exception; Result carries the reason of a refusal; Field is an optional entry
    of a request body. */
module Wrappers {

  datatype Option<+T> = None | Some(value: T) {
    predicate IsFailure() {
      None?
    }

    function PropagateFailure<U>(): Option<U>
      requires None?
    {
      None
    }

    function Extract(): T
      requires Some?
    {
      value
    }
  }

  datatype Field<+T> = Missing | Malformed | Given(value: T)

  /** Insert unless the key exists. */
  function InsertAbsent<K, V>(table: map<K, V>, k: K, v: V): map<K, V> {
    if k in table then table else table[k := v]
  }

  datatype Result<+R, +E> = Success(value: R) | Failure(error: E) {
    predicate IsFailure() {
      Failure?
    }

    function PropagateFailure<U>(): Result<U, E>
      requires Failure?
    {
      Failure(error)
    }

    function Extract(): R
      requires Success?
    {
      value
    }
  }

  /** The answer of the first case that applies. */
  ghost predicate FirstCase<T>(cases: seq<(bool, T)>, answer: T) {
    exists n :: 0 <= n < |cases| && cases[n] == (true, answer) && forall m | 0 <= m < n :: !cases[m].0
  }

  lemma IsFirstCase<T>(cases: seq<(bool, T)>, n: nat)
    requires n < |cases| && cases[n].0 && forall m | 0 <= m < n :: !cases[m].0
    ensures FirstCase(cases, cases[n].1)
  {
    assert cases[n] == (true, cases[n].1);
  }
}
