/**
 * The bytes a MAC is computed over. HMAC (section 6.4 of RFC 4253) covers
 *   uint32 sequence_number || uint32 packet_length || byte padding_length
 *   || payload || padding
 * UMAC covers the same bytes without the sequence number and takes the
 * sequence number instead as an 8-byte big-endian nonce.
 */
module MacInput {
  import opened Wrappers
  import opened Bytes

  /** The packet fields `get_mac` reads from `struct proxy_ssh_packet`. */
  datatype PacketFields = PacketFields(
    seqno: nat, packetLen: nat, paddingLen: nat, payload: seq<byte>, padding: seq<byte>)

  /**
   * Fields that fit their C types (uint32 seqno and packet_len, a byte of
   * padding_len) with `padding_len` bytes of padding.
   */
  predicate WellTyped(f: PacketFields) {
    && f.seqno < UINT32_LIMIT
    && f.packetLen < UINT32_LIMIT
    && f.paddingLen < 0x100
    && |f.padding| == f.paddingLen
  }

  /**
   * The fields also fit the buffer `get_mac` allocates: its uint32 size
   * `8 + packet_len + 64` does not wrap, and the written fields fit in it.
   */
  predicate FitsBuffer(f: PacketFields) {
    && WellTyped(f)
    && HmacBufferSize(f) < UINT32_LIMIT
    && 9 + |f.payload| + |f.padding| <= HmacBufferSize(f)
  }

  /** `bufsz` of the HMAC branch: two uint32s, the packet, and 64 spare bytes. */
  function HmacBufferSize(f: PacketFields): nat {
    8 + f.packetLen + 64
  }

  /** `bufsz` of the UMAC branch: one uint32, the packet, and 64 spare bytes. */
  function UmacBufferSize(f: PacketFields): nat {
    4 + f.packetLen + 64
  }

  /** UMAC input: uint32 packet_length || byte padding_length || payload || padding. */
  function UmacInput(f: PacketFields): (s: seq<byte>)
    requires WellTyped(f)
    ensures |s| == 5 + |f.payload| + |f.padding|
  {
    U32(f.packetLen) + [f.paddingLen as byte] + f.payload + f.padding
  }

  /** HMAC input: the UMAC input preceded by the uint32 sequence number. */
  function HmacInput(f: PacketFields): (s: seq<byte>)
    requires WellTyped(f)
    ensures |s| == 9 + |f.payload| + |f.padding|
    ensures s == U32(f.seqno) + UmacInput(f)
  {
    U32(f.seqno) + U32(f.packetLen) + [f.paddingLen as byte] + f.payload + f.padding
  }

  /** The UMAC nonce: the sequence number as a big-endian uint64. */
  function Nonce(seqno: nat): (n: seq<byte>)
    requires seqno < UINT32_LIMIT
    ensures |n| == 8 && DecodeU64(n) == seqno
    ensures n == [0, 0, 0, 0] + U32(seqno)
  {
    U64OfU32(seqno);
    U64(seqno)
  }

  /**
   * Reads the packet fields back from UMAC input, the padding length byte
   * telling where the payload ends.
   */
  function ParseUmacInput(seqno: nat, s: seq<byte>): Option<PacketFields> {
    if |s| < 5 || s[4] as nat > |s| - 5 then None
    else
      var pl := s[4] as nat;
      Some(PacketFields(seqno, DecodeU32(s[..4]), pl, s[5..|s| - pl], s[|s| - pl..]))
  }

  /** Reads the packet fields back from HMAC input. */
  function ParseHmacInput(s: seq<byte>): Option<PacketFields> {
    if |s| < 4 then None else ParseUmacInput(DecodeU32(s[..4]), s[4..])
  }

  /** UMAC input together with the nonce determines every packet field. */
  lemma ParseUmacInputRoundTrip(f: PacketFields)
    requires WellTyped(f)
    ensures ParseUmacInput(DecodeU64(Nonce(f.seqno)), UmacInput(f)) == Some(f)
  {
    var s := UmacInput(f);
    var pl := f.paddingLen;
    assert s[..4] == U32(f.packetLen);
    assert s[4] as nat == pl;
    assert s[5..|s| - pl] == f.payload;
    assert s[|s| - pl..] == f.padding;
  }

  /** HMAC input determines every packet field. */
  lemma ParseHmacInputRoundTrip(f: PacketFields)
    requires WellTyped(f)
    ensures ParseHmacInput(HmacInput(f)) == Some(f)
  {
    var s := HmacInput(f);
    assert s[..4] == U32(f.seqno);
    assert s[4..] == UmacInput(f);
    ParseUmacInputRoundTrip(f);
  }

  /**
   * Every field is authenticated under HMAC: two packets with the same HMAC
   * input are the same packet, so changing any field changes the MAC input.
   */
  lemma HmacInputInjective(f: PacketFields, g: PacketFields)
    requires WellTyped(f) && WellTyped(g)
    ensures HmacInput(f) == HmacInput(g) <==> f == g
  {
    if HmacInput(f) == HmacInput(g) {
      ParseHmacInputRoundTrip(f);
      ParseHmacInputRoundTrip(g);
    }
  }

  /** Under UMAC every field is covered by the hashed bytes or by the nonce. */
  lemma UmacInputInjective(f: PacketFields, g: PacketFields)
    requires WellTyped(f) && WellTyped(g)
    ensures UmacInput(f) == UmacInput(g) && Nonce(f.seqno) == Nonce(g.seqno) <==> f == g
  {
    if UmacInput(f) == UmacInput(g) && Nonce(f.seqno) == Nonce(g.seqno) {
      ParseUmacInputRoundTrip(f);
      ParseUmacInputRoundTrip(g);
    }
  }

  /**
   * proxy_ssh_msg_write_data without a length prefix: copies `data` into
   * `buf` at `pos` and returns the number of bytes written.
   */
  method WriteData(buf: array<byte>, pos: nat, data: seq<byte>) returns (n: nat)
    requires pos + |data| <= buf.Length
    modifies buf
    ensures n == |data|
    ensures buf[..pos + n] == old(buf[..pos]) + data
    ensures buf[pos + n..] == old(buf[pos + n..])
  {
    forall i | 0 <= i < |data| {
      buf[pos + i] := data[i];
    }
    n := |data|;
    assert buf[..pos + n] == buf[..pos] + buf[pos..pos + n];
  }

  /** proxy_ssh_msg_write_int: a big-endian uint32. */
  method WriteInt(buf: array<byte>, pos: nat, x: nat) returns (n: nat)
    requires x < UINT32_LIMIT && pos + 4 <= buf.Length
    modifies buf
    ensures n == 4
    ensures buf[..pos + n] == old(buf[..pos]) + U32(x)
    ensures buf[pos + n..] == old(buf[pos + n..])
  {
    n := WriteData(buf, pos, U32(x));
  }

  /** proxy_ssh_msg_write_byte: one byte. */
  method WriteByte(buf: array<byte>, pos: nat, b: byte) returns (n: nat)
    requires pos + 1 <= buf.Length
    modifies buf
    ensures n == 1
    ensures buf[..pos + n] == old(buf[..pos]) + [b]
    ensures buf[pos + n..] == old(buf[pos + n..])
  {
    n := WriteData(buf, pos, [b]);
  }

  /** proxy_ssh_msg_write_long: a big-endian uint64. */
  method WriteLong(buf: array<byte>, pos: nat, x: nat) returns (n: nat)
    requires x < UINT64_LIMIT && pos + 8 <= buf.Length
    modifies buf
    ensures n == 8
    ensures buf[..pos + n] == old(buf[..pos]) + U64(x)
    ensures buf[pos + n..] == old(buf[pos + n..])
  {
    n := WriteData(buf, pos, U64(x));
  }

  /**
   * Writes packet_len, padding_len, payload and padding through the cursor
   * starting at `pos`: the bytes common to both MAC families.
   */
  method WriteFields(buf: array<byte>, pos: nat, f: PacketFields) returns (n: nat)
    requires WellTyped(f) && pos + 5 + |f.payload| + |f.padding| <= buf.Length
    modifies buf
    ensures n == |UmacInput(f)|
    ensures buf[..pos + n] == old(buf[..pos]) + UmacInput(f)
  {
    ghost var written := buf[..pos];
    var at := pos;
    n := WriteInt(buf, at, f.packetLen);
    at := at + n;
    written := written + U32(f.packetLen);
    assert buf[..at] == written;
    n := WriteByte(buf, at, f.paddingLen as byte);
    at := at + n;
    written := written + [f.paddingLen as byte];
    assert buf[..at] == written;
    n := WriteData(buf, at, f.payload);
    at := at + n;
    written := written + f.payload;
    assert buf[..at] == written;
    n := WriteData(buf, at, f.padding);
    at := at + n;
    written := written + f.padding;
    assert buf[..at] == written;
    assert written == old(buf[..pos]) + UmacInput(f);
    n := at - pos;
  }

  /**
   * The buffer-filling part of `get_mac`: allocates `bufsz` bytes and writes
   * the fields through an advancing cursor, the sequence number first when
   * `withSeqno` (the HMAC branch). Returns how many bytes were written.
   */
  method BuildMacInput(f: PacketFields, withSeqno: bool) returns (buf: array<byte>, len: nat)
    requires FitsBuffer(f)
    ensures fresh(buf)
    ensures buf.Length == if withSeqno then HmacBufferSize(f) else UmacBufferSize(f)
    ensures len <= buf.Length
    ensures buf[..len] == if withSeqno then HmacInput(f) else UmacInput(f)
  {
    var bufsz := if withSeqno then HmacBufferSize(f) else UmacBufferSize(f);
    buf := new byte[bufsz];
    if withSeqno {
      var n := WriteInt(buf, 0, f.seqno);
      assert buf[..0] == [];
      var m := WriteFields(buf, n, f);
      len := n + m;
    } else {
      len := WriteFields(buf, 0, f);
    }
  }

  /** Writes the 8-byte UMAC nonce into its own buffer. */
  method BuildNonce(seqno: nat) returns (nonce: array<byte>)
    requires seqno < UINT32_LIMIT
    ensures fresh(nonce) && nonce[..] == Nonce(seqno)
  {
    nonce := new byte[8];
    var n := WriteLong(nonce, 0, seqno);
    assert nonce[..] == nonce[..8];
  }
}
