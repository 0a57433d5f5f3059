/**
 * Integer arithmetic of the texture uploader and the render-to-texture bridge:
 * 32-bit wrap-around, powers of two, the mip-level count and the mip-buffer layout.
 */
module TexMath {

  /** 2^32: the renderer's `u32` arithmetic wraps modulo this. */
  const U32_LIMIT: int := 0x1_0000_0000

  /** Reduce to the `u32` range, as an unsigned C operation does. */
  function Wrap32(x: int): (r: int)
    ensures 0 <= r < U32_LIMIT
    ensures 0 <= x < U32_LIMIT ==> r == x
    ensures U32_LIMIT <= x < 2 * U32_LIMIT ==> r == x - U32_LIMIT
    ensures -U32_LIMIT <= x < 0 ==> r == x + U32_LIMIT
  {
    x % U32_LIMIT
  }

  function Pow2(k: nat): (r: nat)
    ensures r >= 1
  {
    if k == 0 then 1 else 2 * Pow2(k - 1)
  }

  predicate IsPow2(n: nat)
  {
    n == 1 || (n > 1 && n % 2 == 0 && IsPow2(n / 2))
  }

  lemma {:induction false} Pow2IsPow2(k: nat)
    ensures IsPow2(Pow2(k))
  {
    if k > 0 {
      Pow2IsPow2(k - 1);
      assert Pow2(k) / 2 == Pow2(k - 1);
    }
  }

  lemma {:induction false} Pow2Add(a: nat, b: nat)
    ensures Pow2(a + b) == Pow2(a) * Pow2(b)
  {
    if a > 0 {
      Pow2Add(a - 1, b);
      assert Pow2(a + b) == 2 * Pow2(a - 1 + b);
    }
  }

  /** Of two powers of two, the smaller is at most half the larger. */
  lemma {:induction false} Pow2Gap(q: nat, p: nat)
    requires IsPow2(q) && IsPow2(p) && q < p
    ensures 2 * q <= p
  {
    if q > 1 && q < p / 2 {
      Pow2Gap(q, p / 2);
    } else if q > p / 2 {
      Pow2Gap(q / 2, p / 2);
    }
  }

  // ---------------------------------------------------------------------------
  // Rounding up to a power of two (BindRTT's padding loops)

  /** The padding loop started at `p`: keep doubling while still below `n`. */
  function RoundUpFrom(p: nat, n: nat): nat
    requires p >= 1
    decreases n - p
  {
    if p >= n then p else RoundUpFrom(2 * p, n)
  }

  /** The padded render-target dimension for a requested dimension `n`. */
  function RoundUpPow2(n: nat): nat
  {
    RoundUpFrom(2, n)
  }

  lemma {:induction false} RoundUpFromStep(p: nat, n: nat)
    requires IsPow2(p) && p >= 2
    ensures var r := RoundUpFrom(p, n);
      IsPow2(r) && r >= p && r >= n && (r == p || r / 2 < n)
    decreases n - p
  {
    if p < n {
      assert (2 * p) / 2 == p;
      RoundUpFromStep(2 * p, n);
    }
  }

  /** The padded size is the least power of two that is at least 2 and at least `n`. */
  lemma RoundUpPow2IsLeast(n: nat)
    ensures var r := RoundUpPow2(n);
      IsPow2(r) && r >= 2 && r >= n &&
      forall q: nat :: IsPow2(q) && q >= 2 && q >= n ==> r <= q
  {
    var r := RoundUpPow2(n);
    assert IsPow2(2) by { assert 2 / 2 == 1; }
    RoundUpFromStep(2, n);
    forall q: nat | IsPow2(q) && q >= 2 && q >= n
      ensures r <= q
    {
      if q < r {
        Pow2Gap(q, r);
      }
    }
  }

  // ---------------------------------------------------------------------------
  // Mip levels

  /** The number of significant bits of `n` (0 for 0). */
  function BitLength(n: nat): nat
  {
    if n == 0 then 0 else 1 + BitLength(n / 2)
  }

  /** A positive `n` lies in [2^(L-1), 2^L) where L is its bit length. */
  lemma {:induction false} BitLengthBounds(n: nat)
    requires n > 0
    ensures BitLength(n) >= 1
    ensures Pow2(BitLength(n) - 1) <= n < Pow2(BitLength(n))
  {
    if n > 1 {
      BitLengthBounds(n / 2);
    }
  }

  /** A width of 2^k gives k + 1 mip levels (256 gives 9). */
  lemma {:induction false} BitLengthOfPow2(k: nat)
    ensures BitLength(Pow2(k)) == k + 1
  {
    if k > 0 {
      BitLengthOfPow2(k - 1);
      assert Pow2(k) / 2 == Pow2(k - 1);
    }
  }

  /** (4^i - 1) / 3, the number of texels in mip images 1x1, 2x2, ..., 2^(i-1) x 2^(i-1). */
  function TexelsBelow(i: nat): nat
  {
    if i == 0 then 0 else TexelsBelow(i - 1) + Pow2(2 * (i - 1))
  }

  /** The texel count below level i is exactly (4^i - 1) / 3. */
  lemma {:induction false} TexelsBelowClosedForm(i: nat)
    ensures 3 * TexelsBelow(i) == Pow2(2 * i) - 1
    ensures TexelsBelow(i) == (Pow2(2 * i) - 1) / 3
  {
    if i > 0 {
      TexelsBelowClosedForm(i - 1);
      assert Pow2(2 * i) == 4 * Pow2(2 * (i - 1)) by {
        assert Pow2(2 * i) == 2 * Pow2(2 * i - 1);
        assert Pow2(2 * i - 1) == 2 * Pow2(2 * (i - 1));
      }
    }
  }

  /** The byte offset of the 2^i x 2^i image in the smallest-first mip buffer. */
  function MipOffset(i: nat, bpp: nat): nat
  {
    bpp * TexelsBelow(i)
  }

  /** Each offset is the previous one plus the byte size of the 2^i x 2^i image before it. */
  lemma MipOffsetStep(i: nat, bpp: nat)
    ensures MipOffset(i + 1, bpp) == MipOffset(i, bpp) + Pow2(2 * i) * bpp
  {
    var t, p := TexelsBelow(i), Pow2(2 * i);
    assert TexelsBelow(i + 1) == t + p;
    Distribute(bpp, t, p);
  }

  lemma Distribute(b: int, x: int, y: int)
    ensures b * (x + y) == b * x + y * b
  {
  }

  /** Scaling `3t == p - 1` by `b`, written without a product of two sums. */
  lemma ScaleThirds(b: nat, t: nat, p: nat)
    requires 3 * t == p - 1
    ensures 3 * (b * t) + b == b * p
    ensures b * (p - 1) == 3 * (b * t)
  {
    assert 3 * (b * t) == b * (3 * t);
    assert b * (3 * t) + b == b * (3 * t + 1);
  }

  /** Three times the offset of image i is bpp * (4^i - 1). */
  lemma MipOffsetTimesThree(i: nat, bpp: nat)
    ensures 3 * MipOffset(i, bpp) + bpp == bpp * Pow2(2 * i)
    ensures bpp * (Pow2(2 * i) - 1) == 3 * MipOffset(i, bpp)
  {
    TexelsBelowClosedForm(i);
    ScaleThirds(bpp, TexelsBelow(i), Pow2(2 * i));
  }

  /** The offset is exactly bpp * (4^i - 1) / 3: the division leaves no remainder. */
  lemma MipOffsetClosedForm(i: nat, bpp: nat)
    ensures MipOffset(i, bpp) == bpp * (Pow2(2 * i) - 1) / 3
  {
    MipOffsetTimesThree(i, bpp);
  }
}
