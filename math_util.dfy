/** `MathUtil.Clamp`: a branch-by-branch clamp that differs from
    `NumTools.Clamp` when the bounds are reversed. */
module MathUtil {
  import NumTools

  function Clamp(val: real, lo: real, hi: real): (r: real)
    ensures val < lo ==> r == lo
    ensures lo <= val && hi < val ==> r == hi
    ensures lo <= val <= hi ==> r == val
    ensures lo <= hi ==> lo <= r <= hi
  {
    if val < lo then lo
    else if val > hi then hi
    else val
  }

  /** The two clamps agree except when the bounds are reversed and the value is
      at or above the lower bound; there this one answers `hi` and
      `NumTools.Clamp` answers `lo`. */
  lemma ClampAgreesWithNumTools(val: real, lo: real, hi: real)
    ensures Clamp(val, lo, hi) != NumTools.ClampFloat(val, lo, hi) <==> hi < lo <= val
    ensures hi < lo <= val ==> Clamp(val, lo, hi) == hi && NumTools.ClampFloat(val, lo, hi) == lo
  {
  }
}
