/** The two failure-carrying wrappers the source uses: an optional value, and the
    `std::expected<T, std::string>` result of the state machine's commands. */
module Basics {

  datatype Option<+T> = None | Some(value: T)

  /** `std::expected<T, std::string>`: a value, or an error message. */
  datatype Expected<+T> = Value(value: T) | Unexpected(error: string) {
    predicate HasValue() {
      Value?
    }
  }
}
