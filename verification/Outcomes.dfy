/** The result of a step of the modelled program: a new value, or `Fault` when the C++ code would
    fail an assertion, read or free released memory, or dereference a null pointer. */
module Outcomes {

  datatype Outcome<+T> = Ok(value: T) | Fault {

    predicate IsFailure() {
      Fault?
    }

    function PropagateFailure<U>(): Outcome<U>
      requires Fault?
    {
      Fault
    }

    function Extract(): T
      requires Ok?
    {
      value
    }
  }
}
