/** Rust's `u64` and the arithmetic on it that the sources name explicitly. */
module Numbers {
  import opened Wrappers

  const MAX_U64: int := 0xFFFF_FFFF_FFFF_FFFF

  type u64 = x: int | 0 <= x <= 0xFFFF_FFFF_FFFF_FFFF
  type i64 = x: int | -0x8000_0000_0000_0000 <= x <= 0x7FFF_FFFF_FFFF_FFFF

  function SaturatingAdd(a: u64, b: u64): u64 {
    if a + b > MAX_U64 then MAX_U64 else a + b
  }

  function SaturatingSub(a: u64, b: u64): u64 {
    if a < b then 0 else a - b
  }

  function SaturatingMul(a: u64, b: u64): u64 {
    if a * b > MAX_U64 then MAX_U64 else
      assert a * b >= 0;
      a * b
  }

  function CheckedAdd(a: u64, b: u64): Option<u64> {
    if a + b > MAX_U64 then None else Some(a + b)
  }

  function CheckedSub(a: u64, b: u64): Option<u64> {
    if a < b then None else Some(a - b)
  }

  function CheckedMul(a: u64, b: u64): Option<u64> {
    if a * b > MAX_U64 then None else
      assert a * b >= 0;
      Some(a * b)
  }

  // The unchecked `*`, which wraps modulo 2^64 in a release build.
  function WrappingMul(a: u64, b: u64): u64 {
    (a * b) % 0x1_0000_0000_0000_0000
  }

  // `chrono::Duration::from_std(..).unwrap_or_default()`: a duration beyond i64::MAX
  // milliseconds becomes none at all. Durations and times are in nanoseconds.
  const LONGEST_DURATION: int := 0x7FFF_FFFF_FFFF_FFFF * 1_000_000

  function FromStd(duration: nat): nat {
    if duration <= LONGEST_DURATION then duration else 0
  }
}
