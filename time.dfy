/** Instants and durations as natural numbers of nanoseconds. */
module Time {
  import opened Text

  const NANOS_PER_MILLI: nat := 1_000_000
  const NANOS_PER_SEC: nat := 1_000_000_000

  /** `Duration::MAX`: u64::MAX seconds and 999 999 999 nanoseconds. */
  const DURATION_MAX: nat := U64_MAX * NANOS_PER_SEC + 999_999_999

  /** `d.checked_sub(e).unwrap_or(Duration::ZERO)`. */
  function SaturatingSub(d: nat, e: nat): (r: nat)
    ensures r <= d
    ensures r == 0 <==> e >= d
    ensures r > 0 ==> r + e == d
  {
    if e >= d then 0 else d - e
  }

  /** `t.elapsed()` read at instant `now`; never negative, as for Rust's
      monotonic `Instant`. */
  function Elapsed(t: nat, now: nat): (r: nat)
    ensures now >= t ==> r + t == now
    ensures now < t ==> r == 0
  {
    if now >= t then now - t else 0
  }
}
