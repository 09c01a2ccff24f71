/** Small value types shared by the trading, vetting and blacklist modules. */
module Common {

  /** A value that may be absent: JavaScript's null/undefined. */
  datatype Option<T> = None | Some(value: T)

  /** The outcome of a computation that can reject its input. */
  datatype Result<T, E> = Success(value: T) | Failure(error: E)

  /** The coarse risk classification a token receives at vetting time;
      it fixes the trade size and the exit policy of the position. */
  datatype RiskLevel = Good | Warning | Danger

  /** JavaScript truthiness of an optional string: null, undefined and "" are falsy. */
  predicate Truthy(s: Option<string>) {
    s.Some? && s.value != ""
  }
}
