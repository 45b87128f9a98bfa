/**
 * Time as integer nanoseconds. `std::time::Instant` differences saturate at zero; chrono's
 * signed `Duration` is converted to seconds through `num_milliseconds`, which truncates toward
 * zero.
 */
module Time {

  const NANOS_PER_MILLI: int := 1_000_000
  const NANOS_PER_SEC: int := 1_000_000_000

  /** `Instant - Instant`: the elapsed nanoseconds, or zero when `later` is earlier. */
  function SaturatingSub(later: nat, earlier: nat): (d: nat)
    ensures later >= earlier ==> earlier + d == later
    ensures later < earlier ==> d == 0
  {
    if later >= earlier then later - earlier else 0
  }

  /** chrono's `Duration::num_milliseconds`: whole milliseconds, rounded toward zero. */
  function NumMilliseconds(nanos: int): (ms: int)
    ensures nanos >= 0 ==> 0 <= ms * NANOS_PER_MILLI <= nanos < (ms + 1) * NANOS_PER_MILLI
    ensures nanos < 0 ==> (ms - 1) * NANOS_PER_MILLI < nanos <= ms * NANOS_PER_MILLI <= 0
  {
    if nanos >= 0 then nanos / NANOS_PER_MILLI else -((-nanos) / NANOS_PER_MILLI)
  }

  /** `num_milliseconds() as f64 / 1000.0`, the step length the motion models use, in seconds. */
  function DtSeconds(nanos: int): real {
    NumMilliseconds(nanos) as real / 1000.0
  }

  /** Sub-millisecond parts are discarded. */
  lemma SubMillisecondDiscarded(ms: nat, rest: nat)
    requires rest < NANOS_PER_MILLI
    ensures NumMilliseconds(ms * NANOS_PER_MILLI + rest) == ms
    ensures DtSeconds(ms * NANOS_PER_MILLI + rest) == DtSeconds(ms * NANOS_PER_MILLI)
  {
  }

  /** The truncation is symmetric about zero, unlike Euclidean division. */
  lemma NumMillisecondsOdd(nanos: int)
    ensures NumMilliseconds(-nanos) == -NumMilliseconds(nanos)
  {
  }

  lemma DtSecondsZero()
    ensures DtSeconds(0) == 0.0
  {
  }
}
