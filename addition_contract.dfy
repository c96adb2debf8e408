/** The addition helper that the counter uses to accumulate its count. */
module AdditionContract {
  import opened Host

  const U32_MAX: int := 0xFFFF_FFFF

  /** Rust's `u32`. */
  newtype u32 = x: int | 0 <= x <= 0xFFFF_FFFF

  /** `AdditionContract::add`: the `u32` sum `a + b`. The source has no
      overflow guard; with overflow checks on, an overflowing `+` panics,
      which aborts the whole invocation. The only way `add` fails is that
      overflow, and a sum it returns never wraps around: it is at least as
      large as each operand. */
  function Add(a: u32, b: u32): (r: Call<u32>)
    ensures r.Aborted? ==> r.reason == Overflow
    ensures r.Returned? ==> a <= r.value && b <= r.value
  {
    if a as int + b as int <= U32_MAX then Returned((a as int + b as int) as u32)
    else Aborted(Overflow)
  }

  /** Whenever the mathematical sum fits in a `u32`, `add` returns exactly that
      sum, and it aborts with an overflow exactly when the sum does not fit. */
  lemma AddIsExactSum(a: u32, b: u32)
    ensures Add(a, b).Returned? <==> a as int + b as int <= U32_MAX
    ensures Add(a, b).Returned? ==> Add(a, b).value as int == a as int + b as int
    ensures Add(a, b).Aborted? ==> Add(a, b).reason == Overflow
  {
  }

  /** Adding zero never overflows and returns the other operand. */
  lemma AddZero(a: u32)
    ensures Add(a, 0) == Returned(a)
  {
  }
}
