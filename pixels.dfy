// Storing a number into a Uint8ClampedArray (the RGBA buffer of an ImageData):
// ECMAScript's ToUint8Clamp clamps to [0, 255] and rounds half to even.
// Also the store of a square root, computed from its square so that no
// real square root is needed.

module Pixels {

  /** One channel of an RGBA buffer. */
  type Byte = x: int | 0 <= x < 256

  /** The R, G and B of one pixel. */
  datatype Pixel = Pixel(r: Byte, g: Byte, b: Byte)

  /** The luma (grey value) 0.299 R + 0.587 G + 0.114 B of a pixel. */
  function Luma(r: Byte, g: Byte, b: Byte): (l: real)
    ensures 0.0 <= l <= 255.0
    ensures r == g == b ==> l == r as real
  {
    0.299 * (r as real) + 0.587 * (g as real) + 0.114 * (b as real)
  }

  /** Math.max(0, Math.min(255, v)). */
  function Clamp(v: real): (r: real)
    ensures 0.0 <= r <= 255.0
    ensures 0.0 <= v <= 255.0 ==> r == v
    ensures v < 0.0 ==> r == 0.0
    ensures v > 255.0 ==> r == 255.0
  {
    if v < 0.0 then 0.0 else if v > 255.0 then 255.0 else v
  }

  /**
   * ToUint8Clamp: the byte a Uint8ClampedArray stores for `v`. Values at or
   * below 0 store 0, at or above 255 store 255, the rest round to the
   * nearest integer with ties to the even one.
   */
  function ToByte(v: real): Byte
  {
    if v <= 0.0 then 0
    else if v >= 255.0 then 255
    else
      var f := v.Floor;
      var frac := v - f as real;
      if frac < 0.5 then f
      else if frac > 0.5 then f + 1
      else if f % 2 == 0 then f
      else f + 1
  }

  /** A value strictly inside the rounding interval of `n` stores `n`. */
  lemma StoreInsideInterval(x: real, n: Byte)
    requires n == 0 || x > (n as real) - 0.5
    requires n == 255 || x < (n as real) + 0.5
    ensures ToByte(x) == n
  {
    if 0.0 < x < 255.0 {
      if x < n as real {
        assert x.Floor == n - 1;
      } else {
        assert x.Floor == n;
      }
    }
  }

  /** A value exactly half-way above `n` stores the even one of n and n + 1. */
  lemma StoreAtHalf(x: real, n: Byte)
    requires n < 255
    requires x == (n as real) + 0.5
    ensures ToByte(x) == if n % 2 == 0 then n else n + 1
  {
    assert x.Floor == n;
  }

  /** A whole number in range is stored exactly. */
  lemma ToByteOfByte(b: Byte)
    ensures ToByte(b as real) == b
  {
    StoreInsideInterval(b as real, b);
  }

  /**
   * The store rounds to within one half, sends everything at or below 0 to
   * 0 and everything at or above 255 to 255.
   */
  lemma ToByteIsNearest(v: real)
    ensures v <= 0.0 ==> ToByte(v) == 0
    ensures v >= 255.0 ==> ToByte(v) == 255
    ensures 0.0 <= v <= 255.0 ==> (ToByte(v) as real) - 0.5 <= v <= (ToByte(v) as real) + 0.5
  {
  }

  /** The store is monotone: a larger value never stores a smaller byte. */
  lemma ToByteMonotone(u: real, v: real)
    requires u <= v
    ensures ToByte(u) <= ToByte(v)
  {
    if 0.0 < u && v < 255.0 {
      assert u.Floor <= v.Floor;
    }
  }

  /** Clamping before the store changes nothing: the store clamps by itself. */
  lemma ToByteOfClamp(v: real)
    ensures ToByte(Clamp(v)) == ToByte(v)
  {
    ToByteIsNearest(v);
    ToByteIsNearest(Clamp(v));
  }

  /** The square of the upper rounding boundary n + 0.5. */
  function HalfSquare(n: Byte): real
  {
    ((n as real) + 0.5) * ((n as real) + 0.5)
  }

  /**
   * The same scan for Math.sqrt(m2): the stored root is `n` while the root
   * is below n + 0.5, that is while m2 < (n + 0.5)^2.
   */
  function SqrtByteFrom(m2: real, n: Byte): (b: Byte)
    requires m2 >= 0.0
    ensures n <= b
    decreases 255 - n
  {
    if n == 255 then 255
    else if m2 < HalfSquare(n) then n
    else if m2 == HalfSquare(n) then (if n % 2 == 0 then n else n + 1)
    else SqrtByteFrom(m2, n + 1)
  }

  /** The byte a Uint8ClampedArray stores for Math.sqrt(m2). */
  function SqrtByte(m2: real): (b: Byte)
    requires m2 >= 0.0
  {
    SqrtByteFrom(m2, 0)
  }

  /** For non-negative reals, squaring preserves and reflects the order. */
  lemma SquareOrder(a: real, b: real)
    requires 0.0 <= a && 0.0 <= b
    ensures a * a < b * b <==> a < b
    ensures a * a == b * b <==> a == b
  {
    if a < b {
      SquareGrows(a, b);
    } else if b < a {
      SquareGrows(b, a);
    }
  }

  lemma SquareGrows(a: real, b: real)
    requires 0.0 <= a < b
    ensures a * a < b * b
  {
    var d := b - a;
    assert a * d >= 0.0;
    assert b * d > 0.0;
    assert b * b - a * a == a * d + b * d;
  }

  /**
   * Step by step, the scan on the square makes the decisions the store of
   * the root makes: from `n` on, it finds the byte the root is stored as.
   */
  lemma {:induction false} SqrtByteFromIsStore(x: real, m2: real, n: Byte)
    requires x >= 0.0 && m2 == x * x
    requires n == 0 || x > (n as real) - 0.5
    ensures SqrtByteFrom(m2, n) == ToByte(x)
    decreases 255 - n
  {
    var half := (n as real) + 0.5;
    SquareOrder(x, half);
    assert (m2 < HalfSquare(n)) == (x < half);
    assert (m2 == HalfSquare(n)) == (x == half);
    if n == 255 || x < half {
      StoreInsideInterval(x, n);
    } else if x == half {
      StoreAtHalf(x, n);
    } else {
      SqrtByteFromIsStore(x, m2, n + 1);
    }
  }

  /** The computed byte is exactly what storing Math.sqrt(x * x) = x would give. */
  lemma SqrtByteIsStoreOfRoot(x: real)
    requires x >= 0.0
    ensures SqrtByte(x * x) == ToByte(x)
  {
    SqrtByteFromIsStore(x, x * x, 0);
  }

  /** The square root of 0 stores 0. */
  lemma SqrtByteOfZero()
    ensures SqrtByte(0.0) == 0
  {
  }
}
