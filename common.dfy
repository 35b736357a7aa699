/** Value wrappers shared by every module: Rust's `Option` and `Result`. */
module Common {

  datatype Option<T> = None | Some(value: T) {
    /** `Option::unwrap_or`. */
    function UnwrapOr(default: T): T {
      if Some? then value else default
    }
  }

  datatype Result<T, E> = Ok(value: T) | Err(error: E)

  /** The unit value `()` of an `Ok(())`. */
  datatype Unit = Unit

  /** `Ord::clamp` on integers. */
  function Clamp(x: int, lo: int, hi: int): (r: int)
    requires lo <= hi
    ensures lo <= r <= hi
    ensures lo <= x <= hi ==> r == x
    ensures x < lo ==> r == lo
    ensures x > hi ==> r == hi
  {
    if x < lo then lo else if x > hi then hi else x
  }

  /** `f64::clamp` on the reals that model floating-point values. */
  function ClampReal(x: real, lo: real, hi: real): (r: real)
    requires lo <= hi
    ensures lo <= r <= hi
    ensures lo <= x <= hi ==> r == x
    ensures x < lo ==> r == lo
    ensures x > hi ==> r == hi
  {
    if x < lo then lo else if x > hi then hi else x
  }

  /** `u64::saturating_sub`. */
  function SaturatingSub(a: nat, b: nat): (r: nat)
    ensures b <= a ==> r + b == a
    ensures a < b ==> r == 0
  {
    if a >= b then a - b else 0
  }

  /** `f64::max`: the larger of two reals. */
  function MaxReal(a: real, b: real): (r: real)
    ensures r >= a && r >= b && (r == a || r == b)
  {
    if a >= b then a else b
  }
}
