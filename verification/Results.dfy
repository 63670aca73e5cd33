/** The two failure-compatible types every other module uses. */
module Results {

  datatype Option<+T> = None | Some(value: T) {
    function GetOr(default: T): T {
      if Some? then value else default
    }
  }

  /** The outcome of a step that may fail: Go's `(value, error)` pair. */
  datatype Result<+T, +E> = Ok(value: T) | Err(error: E) {
    predicate IsFailure() {
      Err?
    }

    function PropagateFailure<U>(): Result<U, E>
      requires Err?
    {
      Err(error)
    }

    function ToOption(): Option<T> {
      if Ok? then Some(value) else None
    }

    function Extract(): T
      requires Ok?
    {
      value
    }
  }

  function Members<T>(xs: seq<T>): set<T> {
    set x | x in xs
  }

  lemma MembersMore<T>(xs: seq<T>, x: T)
    ensures Members(xs + [x]) == Members(xs) + {x}
  {
  }
}
