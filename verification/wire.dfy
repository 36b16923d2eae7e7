/** What travels between the coordinator and its nodes: the Status message,
    whose state and mode fields are signed bytes, and the replies of the
    StateTransition and ModeTransition services. */
module Wire {

  /** `static_cast<signed char>`: two's-complement wrap-around into -128 .. 127. */
  function ToInt8(v: int): (r: int)
    ensures -128 <= r < 128
    ensures (v - r) % 256 == 0
  {
    (v + 128) % 256 - 128
  }

  /** A value that already fits a signed byte crosses the wire unchanged; every
      state value and every named mode fits. */
  lemma Int8Identity(v: int)
    requires -128 <= v < 128
    ensures ToInt8(v) == v
  {
  }

  /** The Status message: the state's and the mode's values. */
  datatype Status = Status(state: int, mode: int)

  /** A StateTransition or ModeTransition reply: `success` and `message`. */
  datatype Reply = Reply(success: bool, message: string)
}
