/** 64-bit machine integers, and powers of two. */
module Machine {

  const TWO62: int := 0x4000_0000_0000_0000
  const TWO63: int := 0x8000_0000_0000_0000
  const TWO64: int := 0x1_0000_0000_0000_0000

  type Int64 = x: int | -TWO63 <= x < TWO63

  /** The int64 result of an integer operation. */
  function Wrap(x: int): (r: Int64)
    ensures -TWO63 <= x < TWO63 <==> r == x
  {
    (x + TWO63) % TWO64 - TWO63
  }

  function Pow2(n: nat): (r: nat)
    ensures r >= 1
  {
    if n == 0 then 1 else 2 * Pow2(n - 1)
  }

  lemma {:induction false} PowSum(a: nat, b: nat)
    ensures Pow2(a + b) == Pow2(a) * Pow2(b)
    decreases b
  {
    if b > 0 {
      PowSum(a, b - 1);
      assert Pow2(a + b) == 2 * (Pow2(a) * Pow2(b - 1)) == Pow2(a) * Pow2(b);
    }
  }

  lemma PowSquare(a: nat, b: nat, x: nat, y: nat)
    requires Pow2(a) == x && Pow2(b) == y
    ensures Pow2(a + b) == x * y
  {
    hide Pow2;
    PowSum(a, b);
  }

  /** The sign bit and the width of a word, as powers of two. */
  lemma SignBit()
    ensures Pow2(63) == TWO63 && Pow2(64) == TWO64
  {
    PowSeven();
    hide Pow2;
    PowSquare(7, 7, 0x80, 0x80);
    PowSquare(14, 7, 0x4000, 0x80);
    PowSquare(21, 21, 0x20_0000, 0x20_0000);
    PowSquare(42, 21, 0x400_0000_0000, 0x20_0000);
    PowSquare(63, 1, 0x8000_0000_0000_0000, 2);
  }

  lemma PowSeven()
    ensures Pow2(7) == 0x80 && Pow2(1) == 2
  {
  }
}
