/** Failure values. The translator aborts on the first Python exception;
    each exception class the core can raise is one constructor here. */
module Results {

  datatype Error =
    | AttributeError   // attribute missing on a value (e.g. `.type_name` of a str)
    | IndexError       // list index or pop out of range
    | TypeError        // `None + str` in `Array.name`
    | ValueError       // `int()` of a literal that is not decimal
    | AssertionError   // one of the shape assertions (a declarator that did not yield one item)
    | StackAssertion   // the stack-balance assertions in `visit` and `collect`

  datatype Option<+T> = None | Some(value: T)

  datatype Result<+T> = Ok(value: T) | Err(error: Error) {
    predicate IsFailure() { Err? }
    function PropagateFailure<U>(): Result<U>
      requires Err?
    {
      Err(error)
    }
    function Extract(): T
      requires Ok?
    {
      value
    }
  }

  /** Python truthiness of an optional string: `None` and `''` are false. */
  predicate Truthy(s: Option<string>) {
    s.Some? && s.value != ""
  }

  /** `name or ''` */
  function OrEmpty(s: Option<string>): (r: string)
    ensures Truthy(s) ==> r == s.value
    ensures !Truthy(s) ==> r == ""
  {
    if s.Some? then s.value else ""
  }
}
