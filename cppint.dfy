/** The C++ integer types the generator and the simulation use, as ranges of
    mathematical integers, and the uint64_t words of the generator as pairs
    of 32-bit halves: the shifts, rotations and or-ings of the generator only
    move halves about, the addition carries from the low half into the high
    one, and the multiplication reduces the product modulo 2^64. The integral
    conversions follow the C++20 standard (an unsigned target reduces modulo
    2^N, a signed target reads the low N bits in two's complement). */
module CppInt {

  const INT_MIN: int := -0x8000_0000
  const INT_MAX: int := 0x7FFF_FFFF
  const SHRT_MAX: int := 0x7FFF
  const TWO_32: int := 0x1_0000_0000
  const TWO_64: int := 0x1_0000_0000_0000_0000

  /** Values of uint32_t and uint64_t. */
  type UInt32 = v: int | 0 <= v < TWO_32
  type UInt64 = v: int | 0 <= v < TWO_64

  /** A uint64_t word: its high half (bits 63..32) and its low half
      (bits 31..0). */
  datatype Word = Word(hi: UInt32, lo: UInt32)

  const ZERO: Word := Word(0, 0)
  const ONE: Word := Word(0, 1)

  /** The number a word stands for. */
  function Value(v: Word): UInt64 {
    v.hi * TWO_32 + v.lo
  }

  /** The word that stands for v. */
  function FromValue(v: UInt64): (r: Word)
    ensures Value(r) == v
  {
    Word(v / TWO_32, v % TWO_32)
  }

  /** Two words that stand for the same number are the same word. */
  lemma ValueInjective(a: Word, b: Word)
    requires Value(a) == Value(b)
    ensures a == b
  {
    assert a == FromValue(Value(a)) by {
      var q := Value(a) / TWO_32;
      assert Value(a) == q * TWO_32 + Value(a) % TWO_32;
    }
    assert b == FromValue(Value(b)) by {
      var q := Value(b) / TWO_32;
      assert Value(b) == q * TWO_32 + Value(b) % TWO_32;
    }
  }

  /** a + b in uint64_t: add the low halves, carry into the high halves,
      drop the carry out of the high half. */
  function Add64(a: Word, b: Word): Word {
    var lo := a.lo + b.lo;
    var carry := if lo < TWO_32 then 0 else 1;
    var hi := a.hi + b.hi + carry;
    Word(if hi < TWO_32 then hi else hi - TWO_32, lo - carry * TWO_32)
  }

  /** The carrying addition is addition modulo 2^64. */
  lemma Add64Value(a: Word, b: Word)
    ensures Value(Add64(a, b)) == (Value(a) + Value(b)) % TWO_64
  {
  }

  /** a * b in uint64_t. */
  function Mul64(a: Word, b: Word): Word {
    FromValue((Value(a) * Value(b)) % TWO_64)
  }

  /** std::rotr(v, 32): the halves trade places. */
  function RotateRight32(v: Word): Word {
    Word(v.lo, v.hi)
  }

  /** Rotating right by 32 places is (v >> 32) | (v << 32) on the number. */
  lemma RotateRight32Value(v: Word)
    ensures Value(RotateRight32(v)) == Value(v) / TWO_32 + (Value(v) * TWO_32) % TWO_64
  {
    assert Value(v) * TWO_32 == v.hi * TWO_64 + v.lo * TWO_32;
  }

  /** v << 32 in uint64_t: the high half falls off and the low half moves up. */
  function ShiftLeft32(v: Word): Word {
    Word(v.lo, 0)
  }

  /** Shifting left by 32 places is multiplying by 2^32 modulo 2^64. */
  lemma ShiftLeft32Value(v: Word)
    ensures Value(ShiftLeft32(v)) == (Value(v) * TWO_32) % TWO_64
  {
    assert Value(v) * TWO_32 == v.hi * TWO_64 + v.lo * TWO_32;
  }

  /** a | b for a word a whose low half is zero and a 32-bit b: the two sets
      of bits are disjoint, so b fills the low half. */
  function Or(a: Word, b: UInt32): (r: Word)
    requires a.lo == 0
  {
    Word(a.hi, b)
  }

  /** On disjoint bits, or is addition. */
  lemma OrValue(a: Word, b: UInt32)
    requires a.lo == 0
    ensures Value(Or(a, b)) == Value(a) + b
  {
  }

  /** `v` is a value of the 32-bit C++ type `int`. */
  predicate IsInt(v: int) {
    INT_MIN <= v <= INT_MAX
  }

  /** Conversion of an integer to an unsigned type that has `modulus` values. */
  function ToUnsigned(v: int, modulus: nat): (u: nat)
    requires modulus > 0
    ensures u < modulus
    ensures (u - v) % modulus == 0
    ensures 0 <= v < modulus ==> u == v
  {
    RemainderCongruent(v, modulus);
    v % modulus
  }

  /** The Euclidean remainder differs from the dividend by a multiple of the divisor. */
  lemma RemainderCongruent(v: int, m: int)
    requires m > 0
    ensures (v % m - v) % m == 0
  {
    var q := v / m;
    assert v % m - v == -q * m;
    MultipleMod(-q, m);
  }

  /** A multiple of m leaves remainder 0. */
  lemma MultipleMod(k: int, m: int)
    requires m > 0
    ensures (k * m) % m == 0
  {
    var r := (k * m) % m;
    var t := k - (k * m) / m;
    assert r == t * m;
    if t > 0 {
      assert t * m == m + (t - 1) * m;
      MulNonNegative(t - 1, m);
    } else if t < 0 {
      assert t * m == -m - (-t - 1) * m;
      MulNonNegative(-t - 1, m);
    }
  }

  /** A product of natural numbers is not negative. */
  lemma MulNonNegative(a: int, b: int)
    requires a >= 0 && b >= 0
    ensures a * b >= 0
  {
  }

  /** Conversion of an integer (an unsigned value, in the source) to `int`. */
  function ToInt(u: int): (r: int)
    ensures IsInt(r)
    ensures (r - u) % TWO_32 == 0
    ensures IsInt(u) ==> r == u
  {
    var m := u % TWO_32;
    if m <= INT_MAX then m else m - TWO_32
  }

  /** Two `int` values that agree modulo 2^32 are equal: the contract of
      `ToInt` fixes its result uniquely. */
  lemma CongruentInts(a: int, b: int)
    requires IsInt(a) && IsInt(b)
    requires (a - b) % TWO_32 == 0
    ensures a == b
  {
  }
}
