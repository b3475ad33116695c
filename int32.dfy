/** The 32-bit integer semantics of JavaScript's bitwise operators, which
    the virtual machine's shift, and, or and not instructions use: each
    operand is first converted with ToInt32 (section 7.1.6 of ECMA-262),
    and a shift count is taken modulo 32. */
module Int32 {
  const TwoTo31: int := 0x8000_0000
  const TwoTo32: int := 0x1_0000_0000

  function Pow2(n: nat): (r: nat)
    ensures r >= 1
  {
    if n == 0 then 1 else 2 * Pow2(n - 1)
  }

  predicate InRange(v: int) {
    -TwoTo31 <= v < TwoTo31
  }

  /** ToInt32: the integer in the 32-bit signed range congruent to `v`
      modulo 2^32. */
  function ToInt32(v: int): (r: int)
    ensures InRange(r)
    ensures (v - r) % TwoTo32 == 0
  {
    var u := v % TwoTo32;
    if u >= TwoTo31 then u - TwoTo32 else u
  }

  /** ToInt32 is the identity on the signed range and ignores multiples
      of 2^32. */
  lemma ToInt32Canonical(v: int, k: int)
    ensures InRange(v) ==> ToInt32(v) == v
    ensures ToInt32(v + k * TwoTo32) == ToInt32(v)
  {
    assert (v + k * TwoTo32) % TwoTo32 == v % TwoTo32;
  }

  /** `left << right` */
  function ShiftLeft(left: int, right: int): (r: int)
    ensures InRange(r)
  {
    ToInt32(left * Pow2(right % 32))
  }

  /** `v` halved `n` times, each time rounding down: the floor of
      v / 2^n. */
  function Halved(v: int, n: nat): (r: int)
    requires InRange(v)
    ensures InRange(r)
    decreases n
  {
    if n == 0 then v else Halved(v / 2, n - 1)
  }

  /** `left >> right`: the sign-propagating shift, a floor division by
      2^(right mod 32). */
  function ShiftRight(left: int, right: int): (r: int)
    ensures InRange(r)
  {
    Halved(ToInt32(left), right % 32)
  }

  /** `~left` */
  function Not(left: int): (r: int)
    ensures InRange(r)
    ensures r == -ToInt32(left) - 1
  {
    -ToInt32(left) - 1
  }

  /** The 32 bits of `v` as an unsigned value. */
  function Bits(v: int): bv32 {
    (v % TwoTo32) as bv32
  }

  /** The signed value of 32 bits. */
  function Signed(b: bv32): (r: int)
    ensures InRange(r)
  {
    var u := b as int;
    if u >= TwoTo31 then u - TwoTo32 else u
  }

  /** `left & right` */
  function And(left: int, right: int): (r: int)
    ensures InRange(r)
  {
    Signed(Bits(left) & Bits(right))
  }

  /** `left | right` */
  function Or(left: int, right: int): (r: int)
    ensures InRange(r)
  {
    Signed(Bits(left) | Bits(right))
  }

  /** A shift by eight is a multiplication by 256 while no bit leaves the
      signed range: reading the `xy` register of bytes x and y gives
      x * 256 + y. */
  lemma ShiftLeftByEight(v: int)
    requires 0 <= v < 0x80_0000
    ensures ShiftLeft(v, 8) == v * 256
  {
    assert Pow2(8) == 256;
    ToInt32Canonical(v * 256, 0);
  }

  /** Not is an involution up to the conversion, and a shift count is read
      modulo 32. */
  lemma NotAndShiftCount(v: int, s: int)
    ensures Not(Not(v)) == ToInt32(v)
    ensures ShiftLeft(v, s + 32) == ShiftLeft(v, s) && ShiftRight(v, s + 32) == ShiftRight(v, s)
  {
    ToInt32Canonical(-ToInt32(v) - 1, 0);
    assert (s + 32) % 32 == s % 32;
  }

  /** A right shift of a non-negative signed value by one halves it;
      of -1 it stays -1. */
  lemma ShiftRightExamples()
    ensures ShiftRight(-1, 1) == -1 && ShiftRight(7, 1) == 3 && ShiftRight(-8, 2) == -2
    ensures ShiftLeft(1, 31) == -TwoTo31 && ShiftLeft(1, 32) == 1
  {
    assert Pow2(1) == 2;
    assert Pow2(2) == 4;
    assert Pow2(31) == TwoTo31 by {
      assert Pow2(8) == 256;
      assert Pow2(16) == 65536;
      assert Pow2(24) == 0x100_0000;
    }
  }
}
