/** Small wrapper datatypes shared by every module of the model. */
module Basics {

  /** `T | null` in the TypeScript source. */
  datatype Option<+T> = None | Some(value: T)

  /** The value of a function that either returns or throws an `Error` carrying a message. */
  datatype Outcome<+T> = Ok(value: T) | Err(message: string)

  /**
   * How one call into the image/measurement generation service ended. The service itself is
   * outside the model, so each call is an input: it resolves with a value or rejects, and a
   * rejection carries the `Error`'s message, or `None` when the thrown value is not an `Error`.
   */
  datatype CallOutcome<+T> = Resolved(value: T) | Rejected(message: Option<string>)

  /** JavaScript truthiness of a `string | null`: present and not the empty string. */
  predicate Present(s: Option<string>) {
    s.Some? && s.value != []
  }

  /** `err instanceof Error ? err.message : fallback`, the text every catch block shows. */
  function ErrorText(message: Option<string>, fallback: string): (text: string)
    ensures message.Some? ==> text == message.value
    ensures message.None? ==> text == fallback
  {
    match message
    case Some(m) => m
    case None => fallback
  }
}
