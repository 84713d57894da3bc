/**
 * Java's fixed-width integer types and the few java.lang behaviours the
 * message classes rely on: narrowing conversions with wrap-around, the
 * two's-complement bit view of a long and an int, Long.hashCode and
 * String.hashCode.
 */
module JavaPrimitives {

  /** A Java reference that may be null: `None` stands for null. */
  datatype Option<+T> = None | Some(value: T)

  /** Java `long`, `int` and `byte`: signed two's-complement integers of 64, 32 and 8 bits. */
  newtype Long = x: int | -0x8000_0000_0000_0000 <= x < 0x8000_0000_0000_0000
  newtype Int = x: int | -0x8000_0000 <= x < 0x8000_0000
  newtype Byte = x: int | -0x80 <= x < 0x80

  const LONG_MIN: Long := -0x8000_0000_0000_0000
  const LONG_MAX: Long := 0x7FFF_FFFF_FFFF_FFFF

  /** The long that 64-bit wrap-around arithmetic yields for the exact value x. */
  function WrapLong(x: int): (r: Long)
    ensures (r as int - x) % 0x1_0000_0000_0000_0000 == 0
    ensures -0x8000_0000_0000_0000 <= x < 0x8000_0000_0000_0000 ==> r as int == x
  {
    var m := x % 0x1_0000_0000_0000_0000;
    if m < 0x8000_0000_0000_0000 then m as Long else (m - 0x1_0000_0000_0000_0000) as Long
  }

  /** The int that 32-bit wrap-around arithmetic (or a cast from long to int) yields for x. */
  function WrapInt(x: int): (r: Int)
    ensures (r as int - x) % 0x1_0000_0000 == 0
    ensures -0x8000_0000 <= x < 0x8000_0000 ==> r as int == x
  {
    var m := x % 0x1_0000_0000;
    if m < 0x8000_0000 then m as Int else (m - 0x1_0000_0000) as Int
  }

  /** Wrapping preserves differences modulo 2^32. */
  lemma WrapIntDifference(x: int, y: int)
    ensures (WrapInt(x) as int - WrapInt(y) as int - (x - y)) % 0x1_0000_0000 == 0
  {
    var a, b := WrapInt(x) as int, WrapInt(y) as int;
    var qa := (a - x) / 0x1_0000_0000;
    var qb := (b - y) / 0x1_0000_0000;
    assert a - b - (x - y) == 0x1_0000_0000 * (qa - qb);
  }

  /**
   * A difference D congruent to x * p stays congruent to y * p when x and y
   * are congruent, all modulo 2^32.
   */
  lemma CongruentScaled(d: int, x: int, y: int, p: int)
    requires (x - y) % 0x1_0000_0000 == 0
    requires (d - x * p) % 0x1_0000_0000 == 0
    ensures (d - y * p) % 0x1_0000_0000 == 0
  {
    var i := (x - y) / 0x1_0000_0000;
    var j := (d - x * p) / 0x1_0000_0000;
    assert x * p - y * p == (x - y) * p;
    assert (x - y) * p == 0x1_0000_0000 * i * p;
    assert d - y * p == 0x1_0000_0000 * (j + i * p);
  }

  /** A narrowing cast to byte, which keeps the low eight bits: `(byte) x`. */
  function NarrowToByte(x: int): (r: Byte)
    ensures (r as int - x) % 0x100 == 0
    ensures -0x80 <= x < 0x80 ==> r as int == x
  {
    var m := x % 0x100;
    if m < 0x80 then m as Byte else (m - 0x100) as Byte
  }

  /** Two values congruent modulo 2^64 wrap to the same long. */
  lemma WrapLongCongruent(x: int, y: int)
    requires (x - y) % 0x1_0000_0000_0000_0000 == 0
    ensures WrapLong(x) == WrapLong(y)
  {
    var rx, ry := WrapLong(x) as int, WrapLong(y) as int;
    var qx := (rx - x) / 0x1_0000_0000_0000_0000;
    var qy := (ry - y) / 0x1_0000_0000_0000_0000;
    var q := (x - y) / 0x1_0000_0000_0000_0000;
    assert rx - ry == 0x1_0000_0000_0000_0000 * (qx - qy + q);
  }

  /** Wrapping to a long is injective on any window of 2^64 consecutive values. */
  lemma WrapLongInjective(x: int, y: int)
    requires x < y < x + 0x1_0000_0000_0000_0000
    ensures WrapLong(x) != WrapLong(y)
  {
  }

  /** The 64 bits of a long, in two's complement. */
  function LongBits(v: Long): bv64
  {
    if v < 0 then (v as int + 0x1_0000_0000_0000_0000) as bv64 else v as int as bv64
  }

  /** The 32 bits of an int, in two's complement. */
  function IntBits(v: Int): bv32
  {
    if v < 0 then (v as int + 0x1_0000_0000) as bv32 else v as int as bv32
  }

  /** The int whose two's-complement bits are w. */
  function IntOfBits(w: bv32): Int
  {
    if w < 0x8000_0000 then w as int as Int else (w as int - 0x1_0000_0000) as Int
  }

  /** Reading bits as an int and taking that int's bits again gives the same bits. */
  lemma IntBitsOfIntOfBits(w: bv32)
    ensures IntBits(IntOfBits(w)) == w
  {
    if w < 0x8000_0000 {
      assert IntBits(IntOfBits(w)) == w;
    } else {
      assert IntBits(IntOfBits(w)) == w;
    }
  }

  /** The bits that a cast from long to int keeps: the low 32. */
  function LowWord(b: bv64): bv32
  {
    (b & 0xFFFF_FFFF) as bv32
  }

  /** The high 32 bits of a long. */
  function HighWord(b: bv64): bv32
  {
    (b >> 32) as bv32
  }

  /** Truncating `b ^ (b >>> 32)` to an int leaves the exclusive or of b's two halves. */
  lemma LowWordOfFold(b: bv64)
    ensures LowWord(b ^ (b >> 32)) == LowWord(b) ^ HighWord(b)
  {
  }

  /**
   * Long.hashCode(value), also what Lombok's generated hashCode folds a long
   * field into: `(int) (value ^ (value >>> 32))`. Its bits are the exclusive or
   * of the long's two halves.
   */
  function LongHashCode(v: Long): (h: Int)
    ensures IntBits(h) == LowWord(LongBits(v)) ^ HighWord(LongBits(v))
  {
    var b := LongBits(v);
    LowWordOfFold(b);
    IntBitsOfIntOfBits(LowWord(b ^ (b >> 32)));
    IntOfBits(LowWord(b ^ (b >> 32)))
  }

  /**
   * String.hashCode: starting from 0, each character c in turn updates the
   * hash h to `31 * h + c` in int arithmetic.
   */
  function StringHashCode(s: string): Int
    decreases |s|
  {
    if s == [] then 0
    else WrapInt(31 * StringHashCode(s[..|s| - 1]) as int + s[|s| - 1] as int)
  }

  function Pow31(n: nat): nat
  {
    if n == 0 then 1 else 31 * Pow31(n - 1)
  }

  /** The exact polynomial `s[0]*31^(n-1) + s[1]*31^(n-2) + ... + s[n-1]`. */
  function HashPolynomial(s: string): int
    decreases |s|
  {
    if s == [] then 0 else s[0] as int * Pow31(|s| - 1) + HashPolynomial(s[1..])
  }

  /** Appending a character to the polynomial multiplies the rest by 31. */
  lemma {:induction false} HashPolynomialSnoc(s: string, c: char)
    ensures HashPolynomial(s + [c]) == 31 * HashPolynomial(s) + c as int
    decreases |s|
  {
    if s == [] {
      assert [c][1..] == [];
    } else {
      assert (s + [c])[1..] == s[1..] + [c];
      HashPolynomialSnoc(s[1..], c);
      assert Pow31(|s|) == 31 * Pow31(|s| - 1);
      calc {
        HashPolynomial(s + [c]);
        s[0] as int * Pow31(|s|) + HashPolynomial(s[1..] + [c]);
        s[0] as int * (31 * Pow31(|s| - 1)) + 31 * HashPolynomial(s[1..]) + c as int;
        { assert s[0] as int * (31 * Pow31(|s| - 1)) == 31 * (s[0] as int * Pow31(|s| - 1)); }
        31 * (s[0] as int * Pow31(|s| - 1) + HashPolynomial(s[1..])) + c as int;
      }
    }
  }

  /** One String.hashCode step keeps the running hash congruent to the exact one. */
  lemma HashStepCongruent(h: int, p: int, c: int)
    requires (h - p) % 0x1_0000_0000 == 0
    ensures (WrapInt(31 * h + c) as int - (31 * p + c)) % 0x1_0000_0000 == 0
  {
    var k := (h - p) / 0x1_0000_0000;
    var w := WrapInt(31 * h + c) as int;
    var j := (w - (31 * h + c)) / 0x1_0000_0000;
    assert w - (31 * p + c) == 0x1_0000_0000 * (j + 31 * k);
  }

  /**
   * The step-by-step wrap-around of String.hashCode agrees modulo 2^32 with
   * the exact polynomial over the characters that the Javadoc of String states.
   */
  lemma {:induction false} StringHashCodeIsPolynomial(s: string)
    ensures (StringHashCode(s) as int - HashPolynomial(s)) % 0x1_0000_0000 == 0
    decreases |s|
  {
    if s != [] {
      var p, c := s[..|s| - 1], s[|s| - 1];
      assert s == p + [c];
      StringHashCodeIsPolynomial(p);
      HashPolynomialSnoc(p, c);
      HashStepCongruent(StringHashCode(p) as int, HashPolynomial(p), c as int);
    }
  }
}
