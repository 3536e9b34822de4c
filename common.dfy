/** Shared vocabulary of the brightness engine: machine-width integers,
    optional values and the length of a day in milliseconds. */
module Common {

  /** The C# `uint` used for every brightness value. */
  type uint32 = x: int | 0 <= x < 0x1_0000_0000

  /** `TimeSpan.FromHours(24).TotalMilliseconds`. */
  const MsPerDay: int := 86_400_000

  /** A time of day as `DateTime.TimeOfDay` yields it, in milliseconds. */
  predicate IsTimeOfDay(t: int) {
    0 <= t < MsPerDay
  }

  /** The clock reading `d` milliseconds after time of day `t`. */
  function ClockAfter(t: int, d: int): int {
    (t + d) % MsPerDay
  }

  function Min(a: int, b: int): int {
    if a <= b then a else b
  }

  /** How far apart two values are. The source has no such function; the
      model uses it to state nearness and step counts. */
  function Distance(a: int, b: int): nat {
    if a <= b then b - a else a - b
  }

  /** `System.Timers.Timer`'s interval, in ms, before anything sets it. */
  const DefaultTimerInterval: int := 100

  /** A reference that may be null, or a reply that may be missing. */
  datatype Option<T> = Nothing | Some(value: T)
}
