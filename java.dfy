/** The pieces of Java's semantics the hotel model relies on: null references,
    thrown exceptions, the 32-bit `int` cast, dates as milliseconds, and the
    hash codes of strings and dates that decide membership in hash-based
    collections. */
module Java {

  /** A reference that may be null. */
  datatype Nullable<+T> = Null | Value(value: T)

  /** The exceptions the modelled code throws. */
  datatype Exception =
    | NullPointerException
    | IllegalArgumentException(message: string)

  /** How a Java call ends: it returns a value or it throws. */
  datatype Outcome<+T> = Return(value: T) | Throw(exception: Exception)

  /** A `java.util.Date`, represented by its `getTime()`: milliseconds since
      the epoch. `before`, `after` and `compareTo` are `<`, `>` and the usual
      comparison of these numbers. */
  type Date = int

  const IntModulus: int := 0x1_0000_0000
  const IntMin: int := -0x8000_0000
  const IntMax: int := 0x7FFF_FFFF
  const LongModulus: int := 0x1_0000_0000_0000_0000

  predicate IsInt(x: int) {
    IntMin <= x <= IntMax
  }

  /** The `(int)` cast of an integral value, and equally the result of
      `int` arithmetic that overflowed: the unique 32-bit value congruent
      to `x` modulo 2^32. */
  function ToInt(x: int): (r: int)
    ensures IsInt(r)
    ensures (r - x) % IntModulus == 0
    ensures IsInt(x) ==> r == x
  {
    var low := x % IntModulus;
    if low <= IntMax then low else low - IntModulus
  }

  /** `String.hashCode()`: h = 31 * h + c over the characters, in `int`
      arithmetic. */
  function StringHash(s: string): (h: int)
    ensures IsInt(h)
  {
    if s == [] then 0 else ToInt(31 * StringHash(s[..|s| - 1]) + s[|s| - 1] as int)
  }

  /** Bitwise XOR of two non-negative numbers. */
  function Xor(a: nat, b: nat): nat
    decreases a + b
  {
    if a == 0 && b == 0 then 0 else (a + b) % 2 + 2 * Xor(a / 2, b / 2)
  }

  function Pow2(n: nat): (r: nat)
    ensures r > 0
  {
    if n == 0 then 1 else 2 * Pow2(n - 1)
  }

  /** `Date.hashCode()` of the Java library: `(int) ht ^ (int) (ht >> 32)`
      on the `long` value `ht`, that is the low 32 bits of `ht` XOR its high
      32 bits. */
  function DateHash(t: Date): (h: int)
    ensures IsInt(h)
  {
    var bits := t % LongModulus;
    ToInt(Xor(bits % IntModulus, bits / IntModulus))
  }

  /** XOR with zero is the identity. */
  lemma {:induction false} XorZero(a: nat)
    ensures Xor(a, 0) == a
    decreases a
  {
    if a > 0 {
      XorZero(a / 2);
    }
  }

  /** The lowest `k` bits of `a` are zero. */
  predicate LowBitsZero(a: nat, k: nat) {
    k == 0 || (a % 2 == 0 && LowBitsZero(a / 2, k - 1))
  }

  /** When every bit of `b` lies below the lowest set bit of `a`, XOR is
      addition. */
  lemma {:induction false} XorOfDisjointBits(a: nat, b: nat, k: nat)
    requires LowBitsZero(a, k) && b < Pow2(k)
    ensures Xor(a, b) == a + b
  {
    if k == 0 {
      XorZero(a);
    } else if a + b > 0 {
      var p := Pow2(k - 1);
      assert Pow2(k) == 2 * p;
      var ha, hb := a / 2, b / 2;
      assert a % 2 == 0 && LowBitsZero(ha, k - 1);
      assert hb < p;
      XorOfDisjointBits(ha, hb, k - 1);
      assert Xor(a, b) == (a + b) % 2 + 2 * Xor(ha, hb);
      assert a == 2 * ha && b == 2 * hb + b % 2;
      assert (a + b) % 2 == b % 2;
    }
  }
}
