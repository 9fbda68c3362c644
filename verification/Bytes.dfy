/** Bytes and the little-endian words the kernel reads and writes through pointers. */
module Bytes {
  newtype Byte = x: int | 0 <= x < 256

  const WORD_MOD: nat := 0x1_0000_0000

  function Word(b0: Byte, b1: Byte, b2: Byte, b3: Byte): (v: nat)
    ensures v < WORD_MOD
  {
    b0 as nat + 256 * (b1 as nat) + 65536 * (b2 as nat) + 16777216 * (b3 as nat)
  }

  function B0(v: nat): Byte { (v % 256) as Byte }
  function B1(v: nat): Byte { (v / 256 % 256) as Byte }
  function B2(v: nat): Byte { (v / 65536 % 256) as Byte }
  function B3(v: nat): Byte { (v / 16777216 % 256) as Byte }

  lemma WordRoundTrip(v: nat)
    requires v < WORD_MOD
    ensures Word(B0(v), B1(v), B2(v), B3(v)) == v
  {
    var q1 := v / 256;
    var q2 := q1 / 256;
    var q3 := q2 / 256;
    assert v / 65536 == q2 && v / 16777216 == q3 && q3 < 256;
  }

  /** The word at address a. */
  function Load32(m: seq<Byte>, a: nat): (v: nat)
    requires a + 4 <= |m|
    ensures v < WORD_MOD
  {
    Word(m[a], m[a + 1], m[a + 2], m[a + 3])
  }

  /** m and n agree outside lo..hi. */
  ghost predicate SameOutside(m: seq<Byte>, n: seq<Byte>, lo: nat, hi: nat) {
    |m| == |n| && forall x :: 0 <= x < |m| && !(lo <= x < hi) ==> m[x] == n[x]
  }

  /** A 32-bit read through a pointer. */
  method Fetch32(mem: array<Byte>, a: nat) returns (v: nat)
    requires a + 4 <= mem.Length
    ensures v == Load32(mem[..], a)
  {
    v := Word(mem[a], mem[a + 1], mem[a + 2], mem[a + 3]);
  }

  /** A 32-bit write through a pointer. */
  method Store32(mem: array<Byte>, a: nat, v: nat)
    requires a + 4 <= mem.Length && v < WORD_MOD
    modifies mem
    ensures Load32(mem[..], a) == v
    ensures SameOutside(old(mem[..]), mem[..], a, a + 4)
  {
    mem[a], mem[a + 1], mem[a + 2], mem[a + 3] := B0(v), B1(v), B2(v), B3(v);
    WordRoundTrip(v);
  }

  /** memcpy between different objects. */
  method Copy(src: array<Byte>, s: nat, dst: array<Byte>, t: nat, n: nat)
    requires src != dst && s + n <= src.Length && t + n <= dst.Length
    modifies dst
    ensures dst[..] == old(dst[..t]) + src[s..s + n] + old(dst[t + n..])
  {
    for i := 0 to n
      invariant forall x :: 0 <= x < dst.Length ==> dst[x] == if t <= x < t + i then src[x - t + s] else old(dst[x])
    {
      dst[t + i] := src[s + i];
    }
  }
}
