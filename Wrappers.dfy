/** Failure-carrying values shared by every module of the model.
    `Result` stands for a JavaScript value or a thrown `Error` whose message is `error`
    (for async members: a resolved or a rejected promise). */
module Wrappers {

  datatype Option<+T> = None | Some(value: T)

  datatype Result<+T> = Ok(value: T) | Err(error: string) {
    predicate IsFailure() { Err? }

    function PropagateFailure<U>(): Result<U>
      requires Err?
    {
      Err(error)
    }

    function Extract(): T
      requires Ok?
    {
      value
    }
  }

  /** A check that either passes or fails with a message. */
  datatype Outcome = Pass | Fail(message: string)

  /** Value of `m[k]`, or None when `k` is not a key of `m`. */
  function Lookup<K, V>(m: map<K, V>, k: K): (r: Option<V>)
    ensures r.Some? <==> k in m
    ensures r.Some? ==> r.value == m[k]
  {
    if k in m then Some(m[k]) else None
  }
}
