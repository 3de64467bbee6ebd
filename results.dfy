/** Option and Result, and the errors the translators throw. */
module Results {

  datatype Option<+T> = None | Some(value: T)

  /** What was `undefined` when a JavaScript TypeError was raised. */
  datatype Cause =
    | NoPreviousLine       // `lines[i - 1]` read on the first line
    | UndefinedAddress     // `assertAddress` called on a generic argument that does not exist
    | UndefinedFirstParam  // `.startsWith` called on the first param of an empty list
    | UndefinedScope       // `map[curFile]` missing in the older translator
    | EntryBeforeScope     // address table: `map[lastLine]` missing

  /** Every error a run can end with. Each aborts the whole run. */
  datatype Error =
    | InvalidAddress(got: string)            // "error: address must start with 0x, got ..."
    | NegativeNumParams                      // "num_params < 0"
    | WrongLine(line: string)                // assertDyn: the line lacks "gaddrof"
    | NotIndirect(line: string)              // the first param does not start with "gaddrof"
    | NotDefined(name: string, scope: string) // "<name> is not defined in <scope>"
    | InvalidPath(path: string)              // a scope header with fewer than 3 components
    | TypeError(cause: Cause)

  datatype Result<+T> = Ok(value: T) | Err(error: Error) {

    predicate IsFailure() {
      Err?
    }

    function PropagateFailure<U>(): Result<U>
      requires Err?
    {
      Err(error)
    }

    function Extract(): T
      requires Ok?
    {
      value
    }
  }
}
