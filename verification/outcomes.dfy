/** Outcomes of a Python call: it returns a value or raises one of the
    built-in exceptions the modelled code can run into. Nothing in the
    modelled code catches these except where a member says so. */
module Outcomes {

  datatype Option<+T> = None | Some(value: T)

  /** The exceptions the modelled Python code can raise. */
  datatype PyError =
    | TypeError          // subscripting a list/str by a string key, len() of an int, item assignment into a non-dict
    | AttributeError     // `.keys()`, `.split()` or `.get()` on a value that lacks it, an instance attribute never set
    | KeyError           // a missing mapping key
    | IndexError         // a list index past the end
    | NameError          // a free variable of a generator read before it was bound
    | UnboundLocalError  // a local variable read before any branch assigned it

  /** The value a Python expression returns, or the exception it raises. */
  datatype Py<+T> = Ok(value: T) | Raise(error: PyError) {

    predicate IsFailure() {
      Raise?
    }

    function PropagateFailure<U>(): (r: Py<U>)
      requires Raise?
    {
      Raise(error)
    }

    function Extract(): (r: T)
      requires Ok?
    {
      value
    }
  }
}
