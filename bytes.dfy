/**
 * Bytes and the big-endian integer encodings of section 5 of RFC 4251
 * ("uint32" and "uint64"), as written by the SSH message writers.
 */
module Bytes {

  newtype byte = b: int | 0 <= b < 0x100

  const UINT32_LIMIT: nat := 0x1_0000_0000
  const UINT64_LIMIT: nat := 0x1_0000_0000_0000_0000

  /** `n` zero bytes: freshly cleared (pcalloc) or scrubbed memory. */
  function Zeros(n: nat): (r: seq<byte>)
    ensures |r| == n
    ensures forall i :: 0 <= i < n ==> r[i] == 0
  {
    seq(n, _ => 0)
  }

  /** Reads a big-endian uint32 back from its four bytes. */
  function DecodeU32(s: seq<byte>): (x: nat)
    requires |s| == 4
    ensures x < UINT32_LIMIT
  {
    ((s[0] as nat * 0x100 + s[1] as nat) * 0x100 + s[2] as nat) * 0x100 + s[3] as nat
  }

  /** Division by 256 splits a number uniquely into a quotient and a byte. */
  lemma DivModByte(q: nat, r: nat)
    requires r < 0x100
    ensures (q * 0x100 + r) / 0x100 == q && (q * 0x100 + r) % 0x100 == r
  {
  }

  /** The four big-endian bytes of a uint32 (most significant first). */
  function U32(x: nat): (r: seq<byte>)
    requires x < UINT32_LIMIT
    ensures |r| == 4
    ensures DecodeU32(r) == x
  {
    var y := x / 0x100;
    var z := y / 0x100;
    assert x == y * 0x100 + x % 0x100 && y == z * 0x100 + y % 0x100;
    assert z == z / 0x100 * 0x100 + z % 0x100;
    assert z / 0x100 < 0x100;
    [(z / 0x100) as byte, (z % 0x100) as byte, (y % 0x100) as byte, (x % 0x100) as byte]
  }

  /** Every four-byte string is the encoding of exactly one uint32. */
  lemma U32OfDecode(s: seq<byte>)
    requires |s| == 4
    ensures U32(DecodeU32(s)) == s
  {
    var z := s[0] as nat * 0x100 + s[1] as nat;
    var y := z * 0x100 + s[2] as nat;
    var x := y * 0x100 + s[3] as nat;
    DivModByte(y, s[3] as nat);
    DivModByte(z, s[2] as nat);
    DivModByte(s[0] as nat, s[1] as nat);
    assert x == DecodeU32(s);
  }

  /** Reads a big-endian uint64 back from its eight bytes. */
  function DecodeU64(s: seq<byte>): (x: nat)
    requires |s| == 8
    ensures x < UINT64_LIMIT
  {
    DecodeU32(s[..4]) * UINT32_LIMIT + DecodeU32(s[4..])
  }

  /** The eight big-endian bytes of a uint64: its high word, then its low word. */
  function U64(x: nat): (r: seq<byte>)
    requires x < UINT64_LIMIT
    ensures |r| == 8
    ensures DecodeU64(r) == x
  {
    assert x / UINT32_LIMIT < UINT32_LIMIT;
    var hi, lo := U32(x / UINT32_LIMIT), U32(x % UINT32_LIMIT);
    assert (hi + lo)[..4] == hi && (hi + lo)[4..] == lo;
    hi + lo
  }

  /** A uint32 widened to uint64 is four zero bytes followed by its uint32 encoding. */
  lemma U64OfU32(x: nat)
    requires x < UINT32_LIMIT
    ensures U64(x) == [0, 0, 0, 0] + U32(x)
  {
    assert x / UINT32_LIMIT == 0 && x % UINT32_LIMIT == x;
    assert U32(0) == [0, 0, 0, 0];
  }
}
