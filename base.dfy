/** Machine-width integers and the optional value shared by every module. */
module Base {

  /** Largest value of Rust's `u32`. */
  const U32_MAX: int := 0xFFFF_FFFF

  /** Rust's `u32`: every arithmetic result stored in one of these must fit. */
  type u32 = x: int | 0 <= x <= U32_MAX

  datatype Option<+T> = None | Some(value: T)

  /** `u32::saturating_sub`: the difference, or 0 when it would go below zero. */
  function SaturatingSub(a: u32, b: u32): (d: u32)
    ensures a >= b ==> b + d == a
    ensures a < b ==> d == 0
    ensures d <= a
  {
    if a >= b then a - b else 0
  }

}
