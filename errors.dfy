/** The exceptions the card model raises, as values, and a failure-compatible
    Result type so that a lookup's error propagates with `:-`, as a raised
    exception propagates in the Python code. */
module Errors {

  datatype Error =
    | InvalidSuitId(suitKey: string)   // KeyError from Suit.from_id
    | InvalidRankId(rankKey: string)   // KeyError from Rank.from_id
    | BadKeyLength(cardKey: string)    // KeyError from Card.from_id
    | CardNotFound(missingKey: string) // KeyError from Deck._take_card_by_id
    | PopFromEmpty                     // IndexError from list.pop() on []
    | IndexOutOfRange(position: int)   // IndexError from list indexing
  {
    /** The Python exception class that is raised. */
    predicate IsKeyError() {
      InvalidSuitId? || InvalidRankId? || BadKeyLength? || CardNotFound?
    }
  }

  datatype Result<+T> = Ok(value: T) | Err(error: Error) {
    predicate IsFailure() {
      Err?
    }

    function PropagateFailure<U>(): Result<U>
      requires Err?
    {
      Err(error)
    }

    function Extract(): T
      requires Ok?
    {
      value
    }
  }

  datatype Option<+T> = None | Some(value: T)
}
