/**
  Packed 0x00RRGGBB pixels as the renderer stores them in `u32` values, with
  the exact bit operations the Rust code applies to them: `>>` and `& 0xFF`
  to take a channel apart, `<<` (which drops bits above 31) and `|` to put
  channels back together, and `u32::saturating_add`.

  Integers here are unbounded, so every width and every dropped bit is
  written out.
*/
module Pixels {

  /** A Rust `u32`. */
  type u32 = x: int | 0 <= x < 0x1_0000_0000

  const U32_MAX: int := 0xFFFF_FFFF

  function Pow2(k: nat): (r: nat)
    ensures r >= 1
  {
    if k == 0 then 1 else 2 * Pow2(k - 1)
  }

  lemma {:induction false} Pow2Add(a: nat, b: nat)
    ensures Pow2(a + b) == Pow2(a) * Pow2(b)
    decreases a
  {
    if a > 0 {
      Pow2Add(a - 1, b);
    }
  }

  lemma Pow2Constants()
    ensures Pow2(8) == 0x100 && Pow2(10) == 0x400 && Pow2(16) == 0x1_0000
    ensures Pow2(18) == 0x4_0000 && Pow2(32) == 0x1_0000_0000
  {
    assert Pow2(2) == 4;
    Pow2Add(2, 2);
    Pow2Add(4, 4);
    Pow2Add(8, 2);
    Pow2Add(8, 8);
    Pow2Add(16, 2);
    Pow2Add(16, 16);
  }

  /** Bitwise OR of two naturals, one binary digit at a time. */
  function BitOr(a: nat, b: nat): nat
    decreases a + b
  {
    if a == 0 then b
    else if b == 0 then a
    else 2 * BitOr(a / 2, b / 2) + (if a % 2 == 1 || b % 2 == 1 then 1 else 0)
  }

  /** OR never sets a bit at or above the first bit both operands leave clear. */
  lemma {:induction false} BitOrBelow(a: nat, b: nat, n: nat)
    requires a < Pow2(n) && b < Pow2(n)
    ensures BitOr(a, b) < Pow2(n)
    decreases n
  {
    if a != 0 && b != 0 {
      BitOrBelow(a / 2, b / 2, n - 1);
    }
  }

  /** When the operands occupy disjoint bit ranges, OR is addition. */
  lemma {:induction false} BitOrDisjoint(a: nat, b: nat, k: nat)
    requires b < Pow2(k)
    ensures BitOr(a * Pow2(k), b) == a * Pow2(k) + b
    decreases k
  {
    if k > 0 && a != 0 && b != 0 {
      var half := a * Pow2(k - 1);
      assert a * Pow2(k) == 2 * half;
      assert (2 * half) / 2 == half && (2 * half) % 2 == 0;
      assert b / 2 < Pow2(k - 1);
      assert BitOr(2 * half, b) == 2 * BitOr(half, b / 2) + b % 2;
      BitOrDisjoint(a, b / 2, k - 1);
      assert 2 * (b / 2) + b % 2 == b;
    }
  }

  /** `a | b` on `u32`. */
  function Or(a: u32, b: u32): (r: u32)
    ensures a + b < 0x1_0000_0000 ==> r <= a + b
  {
    Pow2Constants();
    BitOrBelow(a, b, 32);
    OrAtMostSum(a, b);
    BitOr(a, b)
  }

  lemma {:induction false} OrAtMostSum(a: nat, b: nat)
    ensures BitOr(a, b) <= a + b
    decreases a + b
  {
    if a != 0 && b != 0 {
      OrAtMostSum(a / 2, b / 2);
    }
  }

  /** `x << k` on `u32`: bits shifted past bit 31 are lost, and none is lost when `x` is small enough. */
  function Shl(x: u32, k: nat): (r: u32)
    requires k < 32
    ensures x * Pow2(k) < 0x1_0000_0000 ==> r == x * Pow2(k)
  {
    (x * Pow2(k)) % 0x1_0000_0000
  }

  /**
    `u32::saturating_add`: never wraps below either operand and never
    exceeds the true sum, which it returns exactly when that fits.
  */
  function SaturatingAdd(a: u32, b: u32): (r: u32)
    ensures r >= a && r >= b && r <= a + b
    ensures r == a + b || r == U32_MAX
    ensures r == a + b <==> a + b <= U32_MAX
  {
    if a + b > U32_MAX then U32_MAX else a + b
  }

  /** `(p >> 16) & 0xFF` */
  function Red(p: u32): (c: u32)
    ensures c < 0x100
  {
    (p / 0x1_0000) % 0x100
  }

  /** `(p >> 8) & 0xFF` */
  function Green(p: u32): (c: u32)
    ensures c < 0x100
  {
    (p / 0x100) % 0x100
  }

  /** `p & 0xFF` */
  function Blue(p: u32): (c: u32)
    ensures c < 0x100
  {
    p % 0x100
  }

  /** `(r << 16) | (g << 8) | b`, the repacking both framebuffer.rs and warp.rs use. */
  function Pack(r: u32, g: u32, b: u32): u32 {
    Or(Or(Shl(r, 16), Shl(g, 8)), b)
  }

  /** Channels that each fit in 8 bits pack without overlap into 24 bits. */
  lemma PackDisjoint(r: u32, g: u32, b: u32)
    requires r < 0x100 && g < 0x100 && b < 0x100
    ensures Pack(r, g, b) == r * 0x1_0000 + g * 0x100 + b
    ensures Pack(r, g, b) < 0x100_0000
  {
    Pow2Constants();
    assert Shl(r, 16) == r * 0x1_0000;
    assert Shl(g, 8) == g * 0x100;
    BitOrDisjoint(r, g * 0x100, 16);
    assert r * 0x1_0000 + g * 0x100 == (r * 0x100 + g) * Pow2(8);
    BitOrDisjoint(r * 0x100 + g, b, 8);
  }

  lemma ChannelsOfSum(r: int, g: int, b: int)
    requires 0 <= r < 0x100 && 0 <= g < 0x100 && 0 <= b < 0x100
    ensures Red(r * 0x1_0000 + g * 0x100 + b) == r
    ensures Green(r * 0x1_0000 + g * 0x100 + b) == g
    ensures Blue(r * 0x1_0000 + g * 0x100 + b) == b
  {
    var p := r * 0x1_0000 + g * 0x100 + b;
    assert p / 0x1_0000 == r;
    assert p / 0x100 == r * 0x100 + g;
  }

  /** Taking a packed pixel apart recovers the channels that went in. */
  lemma PackChannels(r: u32, g: u32, b: u32)
    requires r < 0x100 && g < 0x100 && b < 0x100
    ensures Red(Pack(r, g, b)) == r && Green(Pack(r, g, b)) == g && Blue(Pack(r, g, b)) == b
  {
    PackDisjoint(r, g, b);
    ChannelsOfSum(r, g, b);
  }

  lemma ChannelsRecompose(p: u32)
    ensures Red(p) * 0x1_0000 + Green(p) * 0x100 + Blue(p) == p % 0x100_0000
  {
    // p = hi * 2^16 + lo, with hi = t * 2^8 + Red(p)
    var hi, lo := p / 0x1_0000, p % 0x1_0000;
    var t := hi / 0x100;
    assert hi == t * 0x100 + Red(p);
    assert p == t * 0x100_0000 + (Red(p) * 0x1_0000 + lo);
    assert p % 0x100_0000 == Red(p) * 0x1_0000 + lo;
    // p = mid * 2^8 + Blue(p), with mid = u * 2^8 + Green(p)
    var mid := p / 0x100;
    var u := mid / 0x100;
    assert mid == u * 0x100 + Green(p);
    assert p == u * 0x1_0000 + (Green(p) * 0x100 + Blue(p));
    assert lo == Green(p) * 0x100 + Blue(p);
  }

  /** Repacking the three low channels of `p` is `p & 0xFFFFFF`. */
  lemma RepackIsLow24(p: u32)
    ensures Pack(Red(p), Green(p), Blue(p)) == p % 0x100_0000
  {
    PackDisjoint(Red(p), Green(p), Blue(p));
    ChannelsRecompose(p);
  }
}
