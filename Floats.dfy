/**
 * IEEE-754 binary64 values, kept as their bit patterns.
 *
 * The bot never inspects a float except through Go's `==` against the
 * literal 0.26, so only that comparison is modelled; the arithmetic of the
 * pricing formulas and of `math.Round` is not.
 */
module Floats {

  datatype Float64 = Float64(bits: bv64)

  const ExponentMask: bv64 := 0x7FF0_0000_0000_0000
  const MantissaMask: bv64 := 0x000F_FFFF_FFFF_FFFF
  const MagnitudeMask: bv64 := 0x7FFF_FFFF_FFFF_FFFF

  /** The binary64 nearest to 0.26: the commission of the cost-basis button. */
  const CostBasis := Float64(0x3FD0_A3D7_0A3D_70A4)

  predicate IsNaN(x: Float64) {
    x.bits & ExponentMask == ExponentMask && x.bits & MantissaMask != 0
  }

  predicate IsZero(x: Float64) {
    x.bits & MagnitudeMask == 0
  }

  /** Go's `==` on float64: NaN equals nothing, +0 equals -0, otherwise the bits must agree. */
  predicate Equal(x: Float64, y: Float64) {
    !IsNaN(x) && !IsNaN(y) && (x.bits == y.bits || (IsZero(x) && IsZero(y)))
  }

  /** Comparing with 0.26 is neither fooled by NaN nor by signed zero: it is identity. */
  lemma EqualCostBasisIsIdentity(x: Float64)
    ensures Equal(x, CostBasis) <==> x == CostBasis
  {
  }
}
