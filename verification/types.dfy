/** Shared value types of the headroom model: the optional value used where
    `model.py` stores `None`, the error kinds `model.py` raises, and a
    failure-compatible result carrying one of them. */
module Types {

  /** `None` in `model.py` (an absent ratio, ceiling, label or cache). */
  datatype Option<+T> = None | Some(value: T)

  /** The exceptions the model raises.
      - `InvalidCell`: a cell was given both or neither of ratio and ceiling.
      - `TooFewCells`, `FirstNotLimit`, `LastNotLimit`: the three assertions of
        the pipeline constructor, in the order `model.py` checks them.
      - `MaxExceeded`: `MaxException` of `model.py`, raised by a saturating
        backward step or by the overflow check after propagation.
      - `DivisionByZero`: the backward step of a scale whose ratio is zero. */
  datatype Error =
    | InvalidCell
    | TooFewCells
    | FirstNotLimit
    | LastNotLimit
    | MaxExceeded
    | DivisionByZero

  /** A value or the error that `model.py` would have raised instead. */
  datatype Result<+T> = Ok(value: T) | Err(error: Error) {

    predicate IsFailure() {
      Err?
    }

    function PropagateFailure<U>(): Result<U>
      requires Err?
    {
      Err(error)
    }

    function Extract(): T
      requires Ok?
    {
      value
    }
  }
}
