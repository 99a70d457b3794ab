/**
 * Samples of NumPy `uint8` arrays and the arithmetic NumPy performs on them.
 *
 * When a `uint8` array is combined with a Python integer that fits in 8 bits
 * (`255 - a`, `a * 255`, `1 - a`), the result is again a `uint8` array, and
 * every element-wise operation is reduced modulo 256.
 */
module UInt8 {

  /** One 8-bit unsigned sample. */
  type Byte = x: int | 0 <= x < 256

  /** The value a `uint8` array operation produces from an integer result: its residue modulo 256. */
  function Wrap(x: int): (r: Byte)
    ensures (x - r) % 256 == 0
    ensures 0 <= x < 256 ==> r == x
  {
    x % 256
  }

  /** Element-wise `a + b` on `uint8`. */
  function Add8(a: Byte, b: Byte): (r: Byte)
    ensures a + b < 256 ==> r == a + b
    ensures a + b >= 256 ==> r == a + b - 256
  {
    Wrap(a + b)
  }

  /** Element-wise `a - b` on `uint8`. */
  function Sub8(a: Byte, b: Byte): (r: Byte)
    ensures a >= b ==> r == a - b
    ensures a < b ==> r == a - b + 256
  {
    Wrap(a - b)
  }

  /** Element-wise `a * b` on `uint8`. */
  function Mul8(a: Byte, b: Byte): (r: Byte)
    ensures (a * b - r) % 256 == 0
    ensures a * b < 256 ==> r == a * b
  {
    Wrap(a * b)
  }

  /** Two integers that differ by a multiple of 256 wrap to the same byte. */
  lemma WrapCongruent(x: int, y: int, k: int)
    requires x == y + 256 * k
    ensures Wrap(x) == Wrap(y)
  {
  }

  /** Wrapping the operands of a sum first does not change the wrapped sum. */
  lemma WrapOfSum(a: int, b: int)
    ensures Wrap(Wrap(a) + Wrap(b)) == Wrap(a + b)
  {
  }

  /** Wrapping one factor of a product first does not change the wrapped product. */
  lemma WrapOfProduct(a: int, b: int)
    ensures Wrap(Wrap(a) * b) == Wrap(a * b)
  {
    var q := a / 256;
    assert a == 256 * q + Wrap(a);
    assert a * b == (256 * q + Wrap(a)) * b == Wrap(a) * b + 256 * (q * b);
    WrapCongruent(a * b, Wrap(a) * b, q * b);
  }
}
