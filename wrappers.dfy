/** Failure-carrying results, and the faults the reporting code and the
    record codec can raise. */
module Wrappers {

  datatype Option<+T> = None | Some(value: T)

  datatype Result<+T, +E> = Success(value: T) | Failure(error: E) {
    predicate IsFailure() { Failure? }

    function PropagateFailure<U>(): Result<U, E>
      requires Failure?
    {
      Failure(error)
    }

    function Extract(): T
      requires Success?
    {
      value
    }
  }

  /** What the Python code raises where the model returns a Failure. */
  datatype Fault =
    | MissingKey(key: string)        // KeyError on a dictionary, form or data-frame column
    | ZeroDivision(activity: string) // ZeroDivisionError for an activity nobody attempted
    | NoFirstDate                     // the date range starts at NaT: no feet-together attempt

  type Outcome<+T> = Result<T, Fault>

  /** `m[key]` as Python evaluates it: the value, or a KeyError. */
  function Lookup<V>(m: map<string, V>, key: string): (r: Outcome<V>)
    ensures r.Success? <==> key in m
    ensures r.Success? ==> r.value == m[key]
    ensures r.Failure? ==> r.error == MissingKey(key)
  {
    if key in m then Success(m[key]) else Failure(MissingKey(key))
  }
}
