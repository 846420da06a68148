/**
 * MAC key derivation of section 7.2 of RFC 4253, as `set_mac_key` performs it:
 *   K1 = HASH(K || H || letter || session_id)
 *   K(i+1) = HASH(K || H || K1 || ... || Ki)
 * with the digest blocks appended until at least `key_sz` bytes are known.
 * The exchange hash HASH is an arbitrary deterministic function with a fixed
 * output length.
 */
module Kdf {
  import opened Wrappers
  import opened Bytes
  import opened MacTypes

  /** Every output of `hash` has `d` bytes. */
  ghost predicate FixedLength(hash: seq<byte> -> seq<byte>, d: nat) {
    forall m :: |hash(m)| == d
  }

  /** The digest of the key-exchange hash usable for derivation. */
  ghost predicate ValidHash(hash: seq<byte> -> seq<byte>, d: nat) {
    d > 0 && FixedLength(hash, d)
  }

  /** K1 = HASH(K || H || letter || session_id). */
  function FirstBlock(hash: seq<byte> -> seq<byte>, d: nat, k: seq<byte>, h: seq<byte>,
                      letter: byte, id: seq<byte>): (k1: seq<byte>)
    requires ValidHash(hash, d)
    ensures |k1| == d
  {
    hash(k + h + [letter] + id)
  }

  /**
   * The key material once the extension loop has run from `acc`: while fewer
   * than `keySz` bytes are known, HASH(K || H || acc) is appended.
   */
  function Expand(hash: seq<byte> -> seq<byte>, k: seq<byte>, h: seq<byte>,
                  acc: seq<byte>, keySz: nat, d: nat): (r: seq<byte>)
    requires ValidHash(hash, d)
    ensures |r| >= keySz && |r| >= |acc|
    ensures r[..|acc|] == acc
    decreases keySz - |acc|
  {
    if |acc| >= keySz then acc
    else
      var next := acc + hash(k + h + acc);
      var r := Expand(hash, k, h, next, keySz, d);
      assert r[..|acc|] == r[..|next|][..|acc|];
      r
  }

  /** How many extension rounds the loop runs when `len` bytes are already known. */
  function Rounds(len: nat, keySz: nat, d: nat): nat
    requires d > 0
    decreases keySz - len
  {
    if keySz > len then 1 + Rounds(len + d, keySz, d) else 0
  }

  /** The derived key: the first `keySz` bytes of K1 || K2 || ... */
  function DerivedKey(hash: seq<byte> -> seq<byte>, d: nat, k: seq<byte>, h: seq<byte>,
                      letter: byte, id: seq<byte>, keySz: nat): (key: seq<byte>)
    requires ValidHash(hash, d)
    ensures |key| == keySz
  {
    Expand(hash, k, h, FirstBlock(hash, d, k, h, letter, id), keySz, d)[..keySz]
  }

  /**
   * Derivation with the digest failures made explicit: `fault == Some(i)` says
   * that the i-th digest computation fails (0 is K1, i > 0 the i-th extension);
   * only computations the loop actually runs can fail.
   */
  function KdfOutcome(hash: seq<byte> -> seq<byte>, d: nat, k: seq<byte>, h: seq<byte>,
                      letter: byte, id: seq<byte>, keySz: nat, fault: Option<nat>)
    : (r: Result<seq<byte>, MacError>)
    requires ValidHash(hash, d)
    ensures r.Failure? <==> fault.Some? && fault.value <= Rounds(d, keySz, d)
    ensures r.Failure? ==> r.error == DigestFailed
    ensures r.Success? ==> |r.value| == keySz
  {
    if fault.Some? && fault.value <= Rounds(d, keySz, d) then Failure(DigestFailed)
    else Success(DerivedKey(hash, d, k, h, letter, id, keySz))
  }

  /** Once at least `len` bytes are known, further rounds only append. */
  lemma {:induction false} ExpandFrom(hash: seq<byte> -> seq<byte>, k: seq<byte>, h: seq<byte>,
                                      acc: seq<byte>, keySz: nat, d: nat)
    requires ValidHash(hash, d) && |acc| < keySz
    ensures Expand(hash, k, h, acc, keySz, d) == Expand(hash, k, h, acc + hash(k + h + acc), keySz, d)
  {
  }

  /**
   * Prefix property: a longer key derived from the same inputs starts with
   * the shorter one, so every earlier block is a prefix of the final key.
   */
  lemma {:induction false} ExpandMonotone(hash: seq<byte> -> seq<byte>, k: seq<byte>, h: seq<byte>,
                                          acc: seq<byte>, short: nat, long: nat, d: nat)
    requires ValidHash(hash, d) && short <= long
    ensures var s := Expand(hash, k, h, acc, short, d);
            var l := Expand(hash, k, h, acc, long, d);
            |s| <= |l| && l[..|s|] == s
    decreases long - |acc|
  {
    if |acc| < short {
      ExpandMonotone(hash, k, h, acc + hash(k + h + acc), short, long, d);
    } else if |acc| < long {
      var l := Expand(hash, k, h, acc, long, d);
      assert l[..|acc|] == acc;
    }
  }

  /**
   * The key buffer starts with K1: the derived key's first bytes, up to one
   * digest, are those of HASH(K || H || letter || session_id).
   */
  lemma DerivedKeyStartsWithK1(hash: seq<byte> -> seq<byte>, d: nat, k: seq<byte>, h: seq<byte>,
                               letter: byte, id: seq<byte>, keySz: nat)
    requires ValidHash(hash, d)
    ensures var n := if keySz < d then keySz else d;
            DerivedKey(hash, d, k, h, letter, id, keySz)[..n] == FirstBlock(hash, d, k, h, letter, id)[..n]
  {
    var k1 := FirstBlock(hash, d, k, h, letter, id);
    var e := Expand(hash, k, h, k1, keySz, d);
    var n := if keySz < d then keySz else d;
    assert e[..keySz][..n] == e[..|k1|][..n];
  }

  /** Deriving a longer key reproduces the shorter key as its leading bytes. */
  lemma DerivedKeyPrefix(hash: seq<byte> -> seq<byte>, d: nat, k: seq<byte>, h: seq<byte>,
                         letter: byte, id: seq<byte>, short: nat, long: nat)
    requires ValidHash(hash, d) && short <= long
    ensures DerivedKey(hash, d, k, h, letter, id, long)[..short]
         == DerivedKey(hash, d, k, h, letter, id, short)
  {
    var k1 := FirstBlock(hash, d, k, h, letter, id);
    ExpandMonotone(hash, k, h, k1, short, long, d);
    var s := Expand(hash, k, h, k1, short, d);
    var l := Expand(hash, k, h, k1, long, d);
    assert l[..long][..short] == l[..|s|][..short];
  }

  /** `n` is a whole number of `d`-byte blocks. */
  predicate MultipleOf(n: nat, d: nat)
    requires d > 0
    decreases n
  {
    n == 0 || (n >= d && MultipleOf(n - d, d))
  }

  /** Two multiples of `d` less than `d` apart are equal. */
  lemma {:induction false} MultiplesClose(a: nat, b: nat, d: nat)
    requires d > 0 && MultipleOf(a, d) && MultipleOf(b, d) && a <= b < a + d
    ensures a == b
    decreases a
  {
    if a > 0 {
      MultiplesClose(a - d, b - d, d);
    }
  }

  /**
   * Starting from whole blocks, the loop stops at a multiple of the block
   * size that is either the start or less than one block past `keySz`.
   */
  lemma {:induction false} ExpandLength(hash: seq<byte> -> seq<byte>, k: seq<byte>, h: seq<byte>,
                                        acc: seq<byte>, keySz: nat, d: nat)
    requires ValidHash(hash, d) && MultipleOf(|acc|, d)
    ensures var n := |Expand(hash, k, h, acc, keySz, d)|;
            MultipleOf(n, d) && (n == |acc| || n < keySz + d)
    decreases keySz - |acc|
  {
    if |acc| < keySz {
      var next := acc + hash(k + h + acc);
      assert MultipleOf(|next|, d);
      ExpandLength(hash, k, h, next, keySz, d);
    }
  }

  /**
   * As written, the loop stores every digest output whole at `key + len`, so
   * its final `key_len` is the full length of the expanded material.
   */
  function AsWrittenKeyLen(hash: seq<byte> -> seq<byte>, d: nat, k: seq<byte>, h: seq<byte>,
                           letter: byte, id: seq<byte>, keySz: nat): (n: nat)
    requires ValidHash(hash, d)
    ensures n >= keySz && n >= d && MultipleOf(n, d)
    ensures n == d || n < keySz + d
  {
    var k1 := FirstBlock(hash, d, k, h, letter, id);
    assert MultipleOf(|k1|, d) by { assert MultipleOf(|k1| - d, d); }
    ExpandLength(hash, k, h, k1, keySz, d);
    |Expand(hash, k, h, k1, keySz, d)|
  }

  /**
   * The source allocates exactly `key_sz` bytes; the bytes it writes stay
   * inside that buffer exactly when `key_sz` is a multiple of the digest size.
   */
  lemma AsWrittenFitsIff(hash: seq<byte> -> seq<byte>, d: nat, k: seq<byte>, h: seq<byte>,
                         letter: byte, id: seq<byte>, keySz: nat)
    requires ValidHash(hash, d) && keySz > 0
    ensures AsWrittenKeyLen(hash, d, k, h, letter, id, keySz) == keySz <==> MultipleOf(keySz, d)
  {
    var n := AsWrittenKeyLen(hash, d, k, h, letter, id, keySz);
    if MultipleOf(keySz, d) {
      MultiplesClose(keySz, n, d);
    }
  }

  /**
   * What a key size that is not a multiple of the digest size would mean: a
   * 64-byte key derived with a 20-byte exchange hash takes four digest
   * outputs, 80 bytes, against a 64-byte buffer.
   */
  lemma AsWrittenOverrun(hash: seq<byte> -> seq<byte>, k: seq<byte>, h: seq<byte>,
                         letter: byte, id: seq<byte>)
    requires ValidHash(hash, 20)
    ensures AsWrittenKeyLen(hash, 20, k, h, letter, id, 64) == 80
  {
    var a1 := FirstBlock(hash, 20, k, h, letter, id);
    var a2 := a1 + hash(k + h + a1);
    var a3 := a2 + hash(k + h + a2);
    var a4 := a3 + hash(k + h + a3);
    assert |a4| == 80;
    ExpandFrom(hash, k, h, a1, 64, 20);
    ExpandFrom(hash, k, h, a2, 64, 20);
    ExpandFrom(hash, k, h, a3, 64, 20);
  }

  /** Rounds counts one more round for each block still missing. */
  lemma RoundsStep(len: nat, keySz: nat, d: nat)
    requires d > 0 && len < keySz
    ensures Rounds(len, keySz, d) == 1 + Rounds(len + d, keySz, d)
  {
  }

  /**
   * Copies as much of `block` as fits into `buffer` at offset `at`
   * (the bounded form of writing a digest output at `key + len`).
   */
  method CopyInto(buffer: array<byte>, at: nat, block: seq<byte>) returns (n: nat)
    requires at <= buffer.Length
    modifies buffer
    ensures n == if |block| < buffer.Length - at then |block| else buffer.Length - at
    ensures buffer[..at] == old(buffer[..at])
    ensures buffer[at..at + n] == block[..n]
    ensures buffer[at + n..] == old(buffer[at + n..])
  {
    n := if |block| < buffer.Length - at then |block| else buffer.Length - at;
    forall j | 0 <= j < n {
      buffer[at + j] := block[j];
    }
  }

  /** pr_memscrub: overwrites every byte of `buffer` with zero. */
  method Scrub(buffer: array<byte>)
    modifies buffer
    ensures buffer[..] == Zeros(buffer.Length)
  {
    forall j | 0 <= j < buffer.Length {
      buffer[j] := 0;
    }
  }

  /** The buffer holds the first `keyLen` bytes of the key material `acc`. */
  ghost predicate Holds(buffer: seq<byte>, keyLen: nat, acc: seq<byte>, keySz: nat) {
    && |buffer| == keySz
    && keyLen == (if |acc| < keySz then |acc| else keySz)
    && buffer[..keyLen] == acc[..keyLen]
  }

  /**
   * One round of the loop: HASH(K || H || key[0..key_len)) is written at
   * `key + key_len`, as far as the buffer reaches.
   */
  method AppendBlock(hash: seq<byte> -> seq<byte>, d: nat, k: seq<byte>, h: seq<byte>,
                     buffer: array<byte>, keyLen: nat, ghost acc: seq<byte>) returns (n: nat)
    requires ValidHash(hash, d) && keyLen < buffer.Length
    requires Holds(buffer[..], keyLen, acc, buffer.Length)
    modifies buffer
    ensures Holds(buffer[..], keyLen + n, acc + hash(k + h + acc), buffer.Length)
  {
    assert buffer[..keyLen] == acc;
    var block := hash(k + h + buffer[..keyLen]);
    n := CopyInto(buffer, keyLen, block);
    assert buffer[..keyLen + n] == buffer[..keyLen] + buffer[keyLen..keyLen + n];
  }

  /**
   * The `while (key_sz > key_len)` loop of `set_mac_key`: starting from a
   * buffer holding K1 (`acc`), appends HASH(K || H || key[0..key_len)) until
   * `keySz` bytes are known. `computation` digest computations have run so far.
   */
  method ExtendKey(hash: seq<byte> -> seq<byte>, d: nat, k: seq<byte>, h: seq<byte>,
                   buffer: array<byte>, keyLen0: nat, ghost acc0: seq<byte>, fault: Option<nat>)
    returns (ok: bool)
    requires ValidHash(hash, d) && |acc0| == d
    requires Holds(buffer[..], keyLen0, acc0, buffer.Length)
    requires fault.Some? ==> fault.value > 0
    modifies buffer
    ensures ok <==> !(fault.Some? && fault.value <= Rounds(d, buffer.Length, d))
    ensures ok ==> buffer[..] == Expand(hash, k, h, acc0, buffer.Length, d)[..buffer.Length]
    ensures !ok ==> buffer[..] == Zeros(buffer.Length)
  {
    var keySz := buffer.Length;
    var keyLen := keyLen0;
    var computation := 0;
    ghost var acc := acc0;
    while keySz > keyLen
      invariant |acc| >= d
      invariant Holds(buffer[..], keyLen, acc, keySz)
      invariant Expand(hash, k, h, acc, keySz, d) == Expand(hash, k, h, acc0, keySz, d)
      invariant Rounds(d, keySz, d) == computation + Rounds(|acc|, keySz, d)
      invariant fault.Some? ==> fault.value > computation
      decreases keySz - keyLen
    {
      computation := computation + 1;
      RoundsStep(|acc|, keySz, d);
      if fault == Some(computation) {
        Scrub(buffer);
        return false;
      }
      ExpandFrom(hash, k, h, acc, keySz, d);
      var n := AppendBlock(hash, d, k, h, buffer, keyLen, acc);
      acc := acc + hash(k + h + acc);
      keyLen := keyLen + n;
    }
    assert buffer[..] == buffer[..keyLen];
    ok := true;
  }

  /**
   * `set_mac_key`'s derivation with the buffer bounded: K1 and each further
   * digest output are copied into the `keySz`-byte buffer only as far as they
   * fit. When a digest computation fails the buffer is scrubbed (all zero)
   * before the error is returned; on success the buffer holds the derived key.
   */
  method DeriveKey(hash: seq<byte> -> seq<byte>, d: nat, k: seq<byte>, h: seq<byte>,
                   letter: byte, id: seq<byte>, keySz: nat, fault: Option<nat>)
    returns (r: Result<seq<byte>, MacError>, buffer: array<byte>)
    requires ValidHash(hash, d)
    ensures fresh(buffer) && buffer.Length == keySz
    ensures r == KdfOutcome(hash, d, k, h, letter, id, keySz, fault)
    ensures r.Success? ==> buffer[..] == r.value
    ensures r.Failure? ==> buffer[..] == Zeros(keySz)
  {
    buffer := new byte[keySz](_ => 0);
    if fault == Some(0) {
      assert buffer[..] == Zeros(keySz);
      return Failure(DigestFailed), buffer;
    }
    var block := FirstBlock(hash, d, k, h, letter, id);
    var keyLen := CopyInto(buffer, 0, block);
    var ok := ExtendKey(hash, d, k, h, buffer, keyLen, block, fault);
    if !ok {
      return Failure(DigestFailed), buffer;
    }
    r := Success(buffer[..]);
  }
}
