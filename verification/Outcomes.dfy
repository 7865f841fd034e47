/** Optional values and the success-or-error results of operations that can be refused. */
module Outcomes {

  datatype Option<+T> = None | Some(value: T) {
    predicate IsFailure() { None? }

    function PropagateFailure<U>(): Option<U>
      requires None?
    {
      None
    }

    function Extract(): T
      requires Some?
    {
      value
    }
  }

  datatype Outcome<+T, +E> = Ok(value: T) | Err(error: E) {
    predicate IsFailure() { Err? }

    function PropagateFailure<U>(): Outcome<U, E>
      requires Err?
    {
      Err(error)
    }

    function Extract(): T
      requires Ok?
    {
      value
    }
  }

  /** `dict.get(key, default)`. */
  function Lookup<K, V>(m: map<K, V>, key: K, default: V): V {
    if key in m then m[key] else default
  }
}
