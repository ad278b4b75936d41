/** Times and durations (the parts of Go's time package the exporter uses). */
module Clock {

  /** Nanoseconds since Go's zero time, so that IsZero is equality with 0. */
  type Time = int

  /** Nanoseconds. */
  type Duration = int

  const ZERO_TIME: Time := 0
  const MILLISECOND: Duration := 1_000_000
  const SECOND: Duration := 1_000_000_000

  /** The Unix epoch, in microseconds after Go's zero time. */
  const UNIX_EPOCH_MICROS: int := 62_135_596_800_000_000

  function UnixMicro(ts: int): Time { (UNIX_EPOCH_MICROS + ts) * 1000 }

  /** Unix: whole seconds since the Unix epoch, rounded down. */
  function UnixSeconds(t: Time): int { t / SECOND - UNIX_EPOCH_MICROS / 1_000_000 }

  /** A microsecond of DCGM is a thousand nanoseconds, and a million of them are a Unix second. */
  lemma MicrosecondsAreKept(a: int, b: int)
    ensures UnixMicro(b) - UnixMicro(a) == (b - a) * 1000
    ensures UnixSeconds(UnixMicro(a)) == a / 1_000_000
  {
    var epoch := 62_135_596_800;
    assert UnixMicro(a) == epoch * SECOND + a * 1000;
    assert UnixMicro(a) / SECOND == epoch + (a * 1000) / SECOND;
    assert (a * 1000) / SECOND == a / 1_000_000;
  }

  function Seconds(d: Duration): real { d as real / 1_000_000_000.0 }

  function DurationOrDefault(value: Duration, fallback: Duration): (d: Duration)
    ensures fallback > 0 ==> d > 0
  {
    if value <= 0 then fallback else value
  }
}
