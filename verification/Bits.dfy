/** Single bits of unsigned words: test, |= (1 << j) and &= ~(1 << j). */
module Bits {
  /** x & (1 << j), as a truth value. */
  predicate Bit(x: nat, j: nat) {
    if j == 0 then x % 2 == 1 else Bit(x / 2, j - 1)
  }

  /** x | (1 << j). */
  function SetBit(x: nat, j: nat): (r: nat) {
    if j == 0 then x / 2 * 2 + 1 else SetBit(x / 2, j - 1) * 2 + x % 2
  }

  /** x & ~(1 << j). */
  function ClearBit(x: nat, j: nat): (r: nat) {
    if j == 0 then x / 2 * 2 else ClearBit(x / 2, j - 1) * 2 + x % 2
  }

  function Pow2(n: nat): (r: nat)
    ensures r > 0
  {
    if n == 0 then 1 else 2 * Pow2(n - 1)
  }

  /** Setting bit j sets it and changes no other. */
  lemma {:induction false} SetBitAt(x: nat, j: nat, k: nat)
    ensures Bit(SetBit(x, j), k) == (k == j || Bit(x, k))
  {
    if j > 0 && k > 0 {
      SetBitAt(x / 2, j - 1, k - 1);
    }
  }

  lemma {:induction false} ClearBitAt(x: nat, j: nat, k: nat)
    ensures Bit(ClearBit(x, j), k) == (k != j && Bit(x, k))
  {
    if j > 0 && k > 0 {
      ClearBitAt(x / 2, j - 1, k - 1);
    }
  }

  /** Neither leaves the width of the word. */
  lemma {:induction false} BitOpsFit(x: nat, j: nat, n: nat)
    requires x < Pow2(n) && j < n
    ensures SetBit(x, j) < Pow2(n) && ClearBit(x, j) < Pow2(n)
  {
    if j > 0 {
      BitOpsFit(x / 2, j - 1, n - 1);
    }
  }

  /** Zero has no bit set. */
  lemma {:induction false} ZeroBits(j: nat)
    ensures !Bit(0, j)
  {
    if j > 0 {
      ZeroBits(j - 1);
    }
  }

  lemma {:induction false} AllOnes(n: nat, j: nat)
    requires j < n
    ensures Bit(Pow2(n) - 1, j)
  {
    assert (Pow2(n) - 1) / 2 == Pow2(n - 1) - 1;
    if j > 0 {
      AllOnes(n - 1, j - 1);
    }
  }

  /** A word below all ones has a clear bit. */
  lemma {:induction false} ClearBitExists(x: nat, n: nat) returns (j: nat)
    requires x < Pow2(n) - 1
    ensures j < n && !Bit(x, j)
  {
    if x % 2 == 0 {
      j := 0;
    } else {
      j := ClearBitExists(x / 2, n - 1);
      j := j + 1;
    }
  }
}
