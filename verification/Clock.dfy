/** System clock readings, and seconds since the unix epoch. */
module Clock {
  /** Nanoseconds since the unix epoch; negative before it. */
  type Time = int

  const SECOND: nat := 1_000_000_000

  /** Whole seconds since the epoch, or none if the clock is before it. */
  function UnixSeconds(t: Time): nat {
    if t < 0 then 0 else t / SECOND
  }

  function FromUnix(secs: nat): Time {
    secs * SECOND
  }
}
