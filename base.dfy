/** Option, Result and Outcome wrappers and the exceptions the archive
    layer can raise.  Java's `null` becomes `None`; a thrown exception
    becomes a `Failure`/`Fail` carrying an `Error`. */
module Base {

  datatype Option<+T> = None | Some(value: T)

  /** The exceptions that can escape the encoders, the mutators and the decoders. */
  datatype Error =
    | IllegalArgument(reason: string)   // java.lang.IllegalArgumentException
    | IndexOutOfBounds(reason: string)  // java.lang.IndexOutOfBoundsException
    | NumberFormat                      // java.lang.NumberFormatException from Integer.valueOf
    | Runtime(reason: string)           // java.lang.RuntimeException thrown by an encoder
    | PullParser(reason: string)        // XmlPullParserException thrown by nextTag/nextText
    | EndOfInput                        // the token stream ended before the decoder stopped

  /** A computation that returns a value or throws. */
  datatype Result<+T> = Success(value: T) | Failure(error: Error)

  /** A `void` call that returns normally or throws. */
  datatype Outcome = Pass | Fail(error: Error)
}
