/** Values shared by every stage of the ingestion pipeline: optional values,
    results, the exceptions the program can raise, and the pair "state left
    behind, exception raised (if any)" that a step of the pipeline produces. */
module Common {

  datatype Option<+T> = None | Some(value: T)

  datatype Result<+T> = Ok(value: T) | Err(error: Failure)

  /** The exceptions the ingestion code raises on malformed input. Each one
      aborts the whole run: nothing in the program catches them. */
  datatype Failure =
    | TooFewTokens        // IndexError: a non-blank line has fewer than two tokens
    | NotFourFields       // ValueError: an output entry does not split into four '|' fields
    | LevelNotDigit       // ValueError/IndexError: int() of the last character of the level
    | DateNotThreeFields  // ValueError: a DATE argument does not split into three ' ' fields
    | DayNotInteger       // ValueError: int() of the day field
    | YearNotInteger      // ValueError: int() of the year field
    | UnknownMonth        // ValueError: strptime('%b') of the month field
    | DateOutOfRange      // ValueError: datetime.date rejects year, month or day
    | AgeWithoutDates     // TypeError: setAge subtracts a date that was never set

  /** What a step leaves behind: the state (updated in place up to the point
      where an exception was raised) and the exception, if one was raised. */
  datatype Run<+T> = Run(state: T, raised: Option<Failure>)
}
