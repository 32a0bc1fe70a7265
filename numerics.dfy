/**
 * The float operations of Rust's standard library that the game code uses,
 * on reals: `clamp`, and the saturating cast of a float to an unsigned
 * integer (`as u32`, `as u64`), which truncates toward zero and sends every
 * negative value to 0. The cast's upper saturation point is not modelled.
 */
module Numerics {

  /** `f32::clamp` / `f64::clamp`. */
  function Clamp(v: real, lo: real, hi: real): (r: real)
    requires lo <= hi
    ensures lo <= r <= hi
    ensures lo <= v <= hi ==> r == v
    ensures v < lo ==> r == lo
    ensures v > hi ==> r == hi
  {
    if v < lo then lo else if v > hi then hi else v
  }

  /** `x as u64` for a float `x`: truncation toward zero, negatives to 0. */
  function AsUnsigned(x: real): (n: nat)
    ensures x >= 0.0 ==> n as real <= x < n as real + 1.0
    ensures x < 1.0 ==> n == 0
  {
    if x < 0.0 then 0 else x.Floor
  }

  /** The cast keeps the order of its arguments. */
  lemma AsUnsignedMonotone(x: real, y: real)
    requires x <= y
    ensures AsUnsigned(x) <= AsUnsigned(y)
  {
  }

  /** A value between two whole numbers casts to a number between them. */
  lemma AsUnsignedBetween(x: real, lo: nat, hi: nat)
    ensures lo as real <= x <= hi as real ==> lo <= AsUnsigned(x) <= hi
  {
  }

  /** A whole number casts to itself. */
  lemma AsUnsignedOfWhole(n: nat)
    ensures AsUnsigned(n as real) == n
  {
  }
}
