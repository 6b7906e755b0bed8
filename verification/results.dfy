/** Error handling shared by every phase of the transpiler.

    The transpiler reports a failure as a message tagged with the source line
    it concerns, and both its explicit error returns and its panics end the
    run.  Both become `Err` here.
 */
module Results {

  /** Either a value or an error tagged with a line number. */
  datatype Result<+T> = Ok(value: T) | Err(line: int, msg: string) {

    predicate IsFailure() {
      Err?
    }

    function PropagateFailure<U>(): (r: Result<U>)
      requires Err?
      ensures r.Err? && r.line == line && r.msg == msg
    {
      Err(line, msg)
    }

    function Extract(): T
      requires Ok?
    {
      value
    }
  }

  /** A value that may be absent. */
  datatype Option<+T> = None | Some(value: T)

  /** An `Ok(())` when `cond` holds, otherwise the given error. */
  function Need(cond: bool, line: int, msg: string): (r: Result<()>)
    ensures r.Ok? <==> cond
    ensures r.Err? ==> r.line == line
  {
    if cond then Ok(()) else Err(line, msg)
  }
}
