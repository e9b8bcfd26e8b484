/** Values every component of the pause interlock shares. */
module Basics {

  datatype Option<+T> = None | Some(value: T)

  /** A session identifier. The source draws a UUID; only equality matters. */
  type Session = nat

  /** A reading of the monotonic clock, or a length of time, in milliseconds. */
  type Millis = nat

  /** Saturating difference of two clock readings. */
  function Since(now: Millis, at: Millis): Millis {
    if now >= at then now - at else 0
  }

  /** Known, and less than `window` old. */
  predicate Within(at: Option<Millis>, now: Millis, window: Millis) {
    at.Some? && Since(now, at.value) < window
  }

  const I32_MAX: nat := 0x7fff_ffff

  function Abs(v: int): nat {
    if v >= 0 then v else -v
  }

  function Max(a: nat, b: nat): nat {
    if a >= b then a else b
  }
}
