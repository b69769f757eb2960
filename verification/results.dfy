/** Failure-carrying results shared by the whole model.

    No error is ever raised to the player: bad input is prompted for again,
    not raised. The only ways a round can stop abnormally are an exception
    escaping to the interpreter (popping an empty card list, reading past
    the end of the input stream) and, in this model only, running out of
    the supplied shuffled deck orders. */
module Results {

  /** An optional value; also used for attributes that may not be set yet. */
  datatype Option<+T> = None | Some(value: T)

  /** Why a computation stopped without a value. */
  datatype Failure =
    | DeckExhausted   // `list.pop()` on an empty deck raises IndexError
    | EndOfInput      // `input()` at end of file raises EOFError
    | NoShuffle       // the supplied sequence of shuffled decks ran out

  /** A value or the failure that stopped the computation; `:-` passes a
      failure on unchanged. */
  datatype Result<+T> = Ok(value: T) | Err(failure: Failure)
  {
    predicate IsFailure()
    {
      Err?
    }

    function PropagateFailure<U>(): Result<U>
      requires Err?
    {
      Err(failure)
    }

    function Extract(): T
      requires Ok?
    {
      value
    }
  }
}
