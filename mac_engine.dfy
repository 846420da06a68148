/**
 * The MAC engine of mac.c (`get_mac`): builds the authenticated bytes for the
 * slot's algorithm, runs the keyed primitive, picks the tag length, compares
 * against the received tag when reading and stores the tag in the packet.
 */
module MacEngine {
  import opened Wrappers
  import opened Bytes
  import opened MacTypes
  import opened MacInput
  import opened MacSlots

  /**
   * The keyed primitives, as deterministic functions. `hmac` receives the
   * digest, the key buffer, the key length handed to HMAC_Init_ex and the
   * data; the UMAC functions receive the key, the data and the nonce.
   */
  datatype Primitives = Primitives(
    hmac: (Digest, seq<byte>, nat, seq<byte>) -> seq<byte>,
    umac64: (seq<byte>, seq<byte>, seq<byte>) -> seq<byte>,
    umac128: (seq<byte>, seq<byte>, seq<byte>) -> seq<byte>)

  /** HMAC outputs a digest-sized value; UMAC64 8 bytes, UMAC128 16. */
  ghost predicate ValidPrimitives(p: Primitives) {
    && (forall d, key, keyLen, data :: |p.hmac(d, key, keyLen, data)| == d.size)
    && (forall key, data, nonce :: |p.umac64(key, data, nonce)| == UMAC64_LEN)
    && (forall key, data, nonce :: |p.umac128(key, data, nonce)| == UMAC128_LEN)
  }

  /** The length `get_mac` computes before any override. */
  function NaturalLen(s: MacSlot): (n: nat)
    requires Keyed(s)
    ensures n <= MAX_MD_SIZE
  {
    if s.algoType == Hmac then s.digest.value.size
    else if s.algoType == Umac64 then UMAC64_LEN
    else UMAC128_LEN
  }

  /** The tag length: a nonzero configured `mac_len` overrides the computed one. */
  function TagLen(s: MacSlot): (n: nat)
    requires Keyed(s)
    ensures n <= MAX_MD_SIZE
    ensures s.macLen != 0 ==> n == s.macLen
    ensures s.macLen == 0 ==> n == NaturalLen(s)
  {
    if s.macLen != 0 then s.macLen else NaturalLen(s)
  }

  /** The primitive's output over the layout of the slot's algorithm. */
  function RawMac(s: MacSlot, f: PacketFields, p: Primitives): (raw: seq<byte>)
    requires Keyed(s) && WellTyped(f) && ValidPrimitives(p)
    ensures |raw| == NaturalLen(s)
  {
    if s.algoType == Hmac then p.hmac(s.digest.value, s.key.value, s.keyLen, HmacInput(f))
    else if s.algoType == Umac64 then p.umac64(s.key.value, UmacInput(f), Nonce(f.seqno))
    else p.umac128(s.key.value, UmacInput(f), Nonce(f.seqno))
  }

  /** The zero-filled EVP_MAX_MD_SIZE `mac_data` buffer after the primitive wrote into it. */
  function MacData(raw: seq<byte>): (m: seq<byte>)
    requires |raw| <= MAX_MD_SIZE
    ensures |m| == MAX_MD_SIZE && m[..|raw|] == raw
  {
    raw + Zeros(MAX_MD_SIZE - |raw|)
  }

  /** The tag `get_mac` would store: the first TagLen bytes of `mac_data`. */
  function ExpectedTag(s: MacSlot, f: PacketFields, p: Primitives): (t: seq<byte>)
    requires Keyed(s) && WellTyped(f) && ValidPrimitives(p)
    ensures |t| == TagLen(s)
  {
    MacData(RawMac(s, f, p))[..TagLen(s)]
  }

  /**
   * What `get_mac` returns for a keyed slot. `hmacOk` says whether the HMAC
   * calls (reset, update, final) all succeed. A computed length of 0 is an
   * error; on read the first TagLen bytes of the received tag must match.
   */
  function MacOutcome(s: MacSlot, f: PacketFields, p: Primitives, hmacOk: bool,
                      dir: Direction, received: Option<seq<byte>>): (r: Result<seq<byte>, MacError>)
    requires Keyed(s) && WellTyped(f) && ValidPrimitives(p)
    requires dir == Read ==> received.Some? && |received.value| >= TagLen(s)
    ensures r == Failure(PrimitiveFailed) <==> s.algoType == Hmac && !hmacOk
    ensures r == Failure(ComputeFailed) <==> s.algoType == Hmac && hmacOk && s.digest.value.size == 0
    ensures r == Failure(MacMismatch) <==>
      && (s.algoType != Hmac || hmacOk) && NaturalLen(s) != 0 && dir == Read
      && received.value[..TagLen(s)] != ExpectedTag(s, f, p)
    ensures r.Success? ==> r.value == ExpectedTag(s, f, p) && |r.value| == TagLen(s) > 0
    ensures r.Success? && dir == Read ==> received.value[..|r.value|] == r.value
    ensures r.Success? && s.macLen == 0 && s.algoType == Umac64 ==> |r.value| == UMAC64_LEN
    ensures r.Success? && s.macLen == 0 && s.algoType == Umac128 ==> |r.value| == UMAC128_LEN
    ensures r.Success? && s.macLen == 0 && s.algoType == Hmac ==> |r.value| == s.digest.value.size
  {
    if s.algoType == Hmac && !hmacOk then Failure(PrimitiveFailed)
    else if NaturalLen(s) == 0 then Failure(ComputeFailed)
    else
      var tag := ExpectedTag(s, f, p);
      if dir == Read && received.value[..TagLen(s)] != tag then Failure(MacMismatch)
      else Success(tag)
  }

  /** A tag attached on write verifies when the same packet is read with it. */
  lemma WriteThenRead(s: MacSlot, f: PacketFields, p: Primitives, hmacOk: bool, t: seq<byte>)
    requires Keyed(s) && WellTyped(f) && ValidPrimitives(p)
    requires MacOutcome(s, f, p, hmacOk, Write, None) == Success(t)
    ensures MacOutcome(s, f, p, hmacOk, Read, Some(t)) == Success(t)
  {
  }

  /**
   * A packet read with the tag written for a different packet is accepted only
   * if the primitive, truncated to the tag length, collides on two distinct
   * authenticated inputs: for HMAC two different byte strings, for UMAC two
   * different (bytes, nonce) pairs.
   */
  lemma AcceptedForgeryIsCollision(s: MacSlot, f: PacketFields, g: PacketFields, p: Primitives,
                                   hmacOk: bool, t: seq<byte>)
    requires Keyed(s) && WellTyped(f) && WellTyped(g) && ValidPrimitives(p) && f != g
    requires MacOutcome(s, f, p, hmacOk, Write, None) == Success(t)
    requires MacOutcome(s, g, p, hmacOk, Read, Some(t)).Success?
    ensures ExpectedTag(s, f, p) == ExpectedTag(s, g, p)
    ensures s.algoType == Hmac ==> HmacInput(f) != HmacInput(g)
    ensures s.algoType == Umac64 || s.algoType == Umac128 ==>
              UmacInput(f) != UmacInput(g) || Nonce(f.seqno) != Nonce(g.seqno)
  {
    HmacInputInjective(f, g);
    UmacInputInjective(f, g);
  }

  /** The parts of `struct proxy_ssh_packet` the MAC layer reads and writes. */
  class Packet {
    var seqno: nat
    var packetLen: nat
    var paddingLen: nat
    var payload: seq<byte>
    var padding: seq<byte>
    /** On read: the tag received from the wire. After success: the computed tag. */
    var mac: Option<seq<byte>>
    var macLen: nat

    function Fields(): PacketFields
      reads this
    {
      PacketFields(seqno, packetLen, paddingLen, payload, padding)
    }
  }

  /**
   * The packet's MAC fields and the status after `get_mac` with a keyed slot,
   * given the MAC fields before: the tag is stored on success, the MAC is set
   * to NULL on a zero computed length, and nothing changes on other errors.
   */
  predicate Applied(s: MacSlot, f: PacketFields, p: Primitives, hmacOk: bool, dir: Direction,
                    mac0: Option<seq<byte>>, macLen0: nat,
                    mac: Option<seq<byte>>, macLen: nat, status: Outcome<MacError>)
    requires Keyed(s) && WellTyped(f) && ValidPrimitives(p)
    requires dir == Read ==> mac0.Some? && |mac0.value| >= TagLen(s)
  {
    var r := MacOutcome(s, f, p, hmacOk, dir, mac0);
    && (status.Pass? <==> r.Success?)
    && (r.Success? ==> mac == Some(r.value) && macLen == |r.value|)
    && (r.Failure? ==> status == Fail(r.error))
    && (r == Failure(ComputeFailed) ==> mac == None && macLen == 0)
    && (r.Failure? && r.error != ComputeFailed ==> mac == mac0 && macLen == macLen0)
  }

  /**
   * The first half of `get_mac`: lays out the authenticated bytes in a fresh
   * buffer (and the nonce, for UMAC) and runs the slot's primitive over them.
   * None stands for a failed HMAC call.
   */
  method RunPrimitive(f: PacketFields, s: MacSlot, p: Primitives, hmacOk: bool)
    returns (raw: Option<seq<byte>>)
    requires Keyed(s) && ValidPrimitives(p) && FitsBuffer(f)
    ensures raw.None? <==> s.algoType == Hmac && !hmacOk
    ensures raw.Some? ==> raw.value == RawMac(s, f, p)
  {
    if s.algoType == Hmac {
      var buf, len := BuildMacInput(f, true);
      if !hmacOk {
        return None;
      }
      raw := Some(p.hmac(s.digest.value, s.key.value, s.keyLen, buf[..len]));
    } else {
      var buf, len := BuildMacInput(f, false);
      var nonce := BuildNonce(f.seqno);
      if s.algoType == Umac64 {
        raw := Some(p.umac64(s.key.value, buf[..len], nonce[..]));
      } else {
        raw := Some(p.umac128(s.key.value, buf[..len], nonce[..]));
      }
    }
  }

  /**
   * `get_mac`. `hmacOk` stands for the return codes of HMAC_Init_ex,
   * HMAC_Update and HMAC_Final. On success the packet carries the tag; on a
   * zero computed length the packet's MAC is set to NULL; on any other error
   * the packet is left unchanged.
   */
  method GetMac(pkt: Packet, s: MacSlot, p: Primitives, hmacOk: bool, dir: Direction)
    returns (status: Outcome<MacError>)
    requires Keyed(s) && ValidPrimitives(p) && FitsBuffer(pkt.Fields())
    requires dir == Read ==> pkt.mac.Some? && |pkt.mac.value| >= TagLen(s)
    modifies pkt
    ensures pkt.Fields() == old(pkt.Fields())
    ensures Applied(s, old(pkt.Fields()), p, hmacOk, dir, old(pkt.mac), old(pkt.macLen), pkt.mac, pkt.macLen, status)
  {
    var f := pkt.Fields();
    var raw := RunPrimitive(f, s, p, hmacOk);
    if raw.None? {
      return Fail(PrimitiveFailed);
    }
    var macData := MacData(raw.value);
    var macLen := |raw.value|;
    if macLen == 0 {
      pkt.mac := None;
      pkt.macLen := 0;
      return Fail(ComputeFailed);
    }
    if s.macLen != 0 {
      macLen := s.macLen;
    }
    if dir == Read && macData[..macLen] != pkt.mac.value[..macLen] {
      return Fail(MacMismatch);
    }
    pkt.macLen := macLen;
    pkt.mac := Some(macData[..macLen]);
    status := Pass;
  }
}
