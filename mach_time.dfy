/**
 * Conversion of Mach absolute time to nanoseconds, as the DAL and
 * camera-extension backends stamp their frames: the 64-bit tick count is
 * multiplied by numer/denom of the timebase in two 32-bit halves so that
 * the product never leaves 64 bits.
 */
module MachTime {
  import opened Arith

  const Two32: nat := 0x1_0000_0000
  const Two64: nat := 0x1_0000_0000_0000_0000

  type U32 = x: nat | x < 0x1_0000_0000
  type U64 = x: nat | x < 0x1_0000_0000_0000_0000

  /**
   * The computation as written on `uint64_t`: shifts by 32 are division
   * and multiplication by 2^32, and every sum and left shift wraps modulo
   * 2^64 (the intermediate products provably do not).
   */
  function ScaleMachTime(i: U64, numer: U32, denom: U32): (r: U64)
    requires denom > 0
  {
    var high := (i / Two32) * numer;
    var low := (i % Two32) * numer / denom;
    var highRem := ((high % denom) * Two32 % Two64) / denom;
    var q := high / denom;
    ((q * Two32) % Two64 + highRem + low) % Two64
  }

  /** The halves' products stay below 2^64, so only the final sum can wrap. */
  lemma {:induction false} HalvesFit(i: U64, numer: U32, denom: U32)
    requires denom > 0
    ensures (i / Two32) * numer < Two64
    ensures (i % Two32) * numer < Two64
    ensures (i / Two32) * numer % denom * Two32 < Two64
  {
    ProductBelow(i / Two32, numer);
    ProductBelow(i % Two32, numer);
    ProductBelow((i / Two32) * numer % denom, Two32);
  }

  lemma ProductBelow(a: nat, b: nat)
    requires a < Two32 && b <= Two32
    ensures a * b < Two64 || b == Two32
    ensures b == Two32 ==> a * b < Two64
  {
    assert a * b <= a * Two32 by { MulLeft(a, b, Two32); }
    assert a * Two32 < Two32 * Two32 by { MulLeft(Two32, a + 1, Two32); }
  }

  /** floor(x/d) + floor(y/d) is floor((x+y)/d) or one less. */
  lemma {:induction false} SplitDivision(x: int, y: int, d: nat)
    requires d > 0
    ensures x / d + y / d <= (x + y) / d <= x / d + y / d + 1
  {
    var qx, rx := x / d, x % d;
    var qy, ry := y / d, y % d;
    assert x == qx * d + rx && y == qy * d + ry;
    assert (qx + qy) * d == qx * d + qy * d;
    if rx + ry < d {
      DivUnique(x + y, d, qx + qy, rx + ry);
    } else {
      assert (qx + qy + 1) * d == (qx + qy) * d + d;
      DivUnique(x + y, d, qx + qy + 1, rx + ry - d);
    }
  }

  /**
   * The scaled time is the exact quotient i*numer/denom, or one less
   * (the two rounded partial quotients), reduced modulo 2^64.
   */
  lemma {:induction false} ScaleMachTimeNearExact(i: U64, numer: U32, denom: U32)
    requires denom > 0
    ensures var exact := i * numer / denom;
      ScaleMachTime(i, numer, denom) == exact % Two64
      || (exact >= 1 && ScaleMachTime(i, numer, denom) == (exact - 1) % Two64)
  {
    var high := (i / Two32) * numer;
    var x := (high / denom) * Two32;
    var shifted := (high % denom) * Two32;
    var low := (i % Two32) * numer;
    var computed := x + shifted / denom + low / denom;
    var exact := i * numer / denom;
    Unfold(i, numer, denom);
    assert ScaleMachTime(i, numer, denom) == computed % Two64;
    ExactSplit(i, numer, denom);
    assert exact == x + (shifted + low) / denom;
    SplitDivision(shifted, low, denom);
    assert computed == exact || computed == exact - 1;
    NatProduct(i / Two32, numer);
    DivNonneg(high, denom);
    NatProduct(high / denom, Two32);
    NatProduct(high % denom, Two32);
    NatProduct(i % Two32, numer);
    DivNonneg(shifted, denom);
    DivNonneg(low, denom);
    assert computed >= 0;
  }

  lemma DivNonneg(a: int, d: nat)
    requires a >= 0 && d > 0
    ensures a / d >= 0
  {
  }

  lemma NatProduct(a: int, b: int)
    requires a >= 0 && b >= 0
    ensures a * b >= 0
  {
  }

  /** The computed value, with the wrap-around of the left shift moved to the end. */
  lemma {:induction false} Unfold(i: U64, numer: U32, denom: U32)
    requires denom > 0
    ensures var high := (i / Two32) * numer;
      ScaleMachTime(i, numer, denom)
      == ((high / denom) * Two32 + (high % denom) * Two32 / denom + (i % Two32) * numer / denom) % Two64
  {
    var high := (i / Two32) * numer;
    var q, rem := high / denom, high % denom;
    var shifted := rem * Two32;
    var a := shifted / denom;
    var b := (i % Two32) * numer / denom;
    var x := q * Two32;
    assert ScaleMachTime(i, numer, denom) == (x % Two64 + (shifted % Two64) / denom + b) % Two64;
    assert shifted % Two64 == shifted by {
      HalvesFit(i, numer, denom);
      SmallMod(shifted);
    }
    assert ScaleMachTime(i, numer, denom) == (x % Two64 + (a + b)) % Two64;
    ModAddLeft(x, a + b);
  }

  lemma SmallMod(x: nat)
    requires x < Two64
    ensures x % Two64 == x
  {
    DivUnique(x, Two64, 0, x);
  }

  /** The exact quotient, split along the two 32-bit halves of i. */
  lemma {:induction false} ExactSplit(i: U64, numer: U32, denom: U32)
    requires denom > 0
    ensures var high := (i / Two32) * numer;
      i * numer / denom
      == (high / denom) * Two32 + ((high % denom) * Two32 + (i % Two32) * numer) / denom
  {
    var h, l := i / Two32, i % Two32;
    var high := h * numer;
    var q, rem := high / denom, high % denom;
    assert i == h * Two32 + l;
    Distrib(h, Two32, l, numer);
    assert i * numer == high * Two32 + l * numer;
    assert high == q * denom + rem;
    Distrib(q, denom, rem, Two32);
    assert high * Two32 == (q * Two32) * denom + rem * Two32 by {
      assert (q * denom) * Two32 == (q * Two32) * denom;
    }
    var tail := rem * Two32 + l * numer;
    assert i * numer == (q * Two32) * denom + tail;
    QuotientShift(q * Two32, tail, denom);
  }

  lemma Distrib(a: int, k: int, b: int, c: int)
    ensures (a * k + b) * c == (a * c) * k + b * c
  {
  }

  lemma QuotientShift(k: int, t: int, d: nat)
    requires d > 0
    ensures (k * d + t) / d == k + t / d
  {
    DivUnique(k * d + t, d, k + t / d, t % d);
  }

  lemma ModAddLeft(x: int, y: int)
    ensures (x % Two64 + y) % Two64 == (x + y) % Two64
  {
    var k := x / Two64;
    assert x == k * Two64 + x % Two64;
    assert x + y == (x % Two64 + y) + k * Two64;
    ModMultipleAdd(x % Two64 + y, k);
  }

  lemma ModMultipleAdd(z: int, k: int)
    ensures (z + k * Two64) % Two64 == z % Two64
  {
    DivUnique(z + k * Two64, Two64, z / Two64 + k, z % Two64);
  }

  /** With a 1:1 timebase (as on Intel Macs) ticks are returned unchanged. */
  lemma {:induction false} ScaleMachTimeIdentity(i: U64, t: U32)
    requires t > 0
    ensures ScaleMachTime(i, t, t) == i
  {
    var h, l := i / Two32, i % Two32;
    var high := h * t;
    Unfold(i, t, t);
    var a, b, c := (high / t) * Two32, (high % t) * Two32 / t, (l * t) / t;
    assert ScaleMachTime(i, t, t) == (a + b + c) % Two64;
    assert high % t == 0 && high / t == h by { DivUnique(high, t, h, 0); }
    assert a == h * Two32;
    assert b == 0 by {
      assert (high % t) * Two32 == 0;
    }
    assert c == l by { DivUnique(l * t, t, l, 0); }
    assert a + b + c == i by {
      DivUnique(i, Two32, h, l);
    }
    SmallMod(i);
  }
}
