/**
 * The MAC layer's state and public operations (mac.c): a read and a write
 * direction, each with two MAC slots and the index of the active one, and the
 * per-slot block sizes read by the packet layer.
 */
module Mac {
  import opened Wrappers
  import opened Bytes
  import opened MacTypes
  import opened Kdf
  import opened MacInput
  import opened MacSlots
  import opened MacEngine

  /**
   * What key derivation receives from the key exchange: the exchange hash
   * (`md`) and its output size, the shared secret K, the exchange hash value
   * H and the session identifier.
   */
  datatype Exchange = Exchange(hash: seq<byte> -> seq<byte>, hashSize: nat,
                               k: seq<byte>, h: seq<byte>, sessionId: seq<byte>)

  ghost predicate ValidExchange(x: Exchange) {
    ValidHash(x.hash, x.hashSize)
  }

  /** The derivation `set_mac_key` runs for a direction letter. */
  function Derivation(x: Exchange, letter: char, keySz: nat, fault: Option<nat>)
    : (r: Result<seq<byte>, MacError>)
    requires ValidExchange(x) && (letter == CLIENT_TO_SERVER || letter == SERVER_TO_CLIENT)
    ensures r.Success? ==> r.value == DerivedKey(x.hash, x.hashSize, x.k, x.h, LetterByte(letter) as byte, x.sessionId, keySz)
  {
    KdfOutcome(x.hash, x.hashSize, x.k, x.h, LetterByte(letter) as byte, x.sessionId, keySz, fault)
  }

  /**
   * A writer and its peer's reader derive the same key for one direction:
   * the letters of the two ends agree.
   */
  lemma PeersDeriveSameKey(x: Exchange, role: Role, peer: Role, keySz: nat, fault: Option<nat>)
    requires ValidExchange(x) && role != peer
    ensures Derivation(x, WriteLetter(role), keySz, fault) == Derivation(x, ReadLetter(peer), keySz, fault)
  {
    LettersAgree(role, peer);
  }

  /**
   * `set_mac_key`. `keySz` is what `proxy_ssh_crypto_get_size` reports and
   * `fault` names the digest computation that fails, if any. A key size of 0
   * succeeds only for "none"; a derived key is stored with its size and the
   * effective key length; on any error the slot is left as it was.
   */
  method SetMacKey(s: MacSlot, x: Exchange, letter: char, keySz: nat, fault: Option<nat>,
                   supportsMacLen: bool)
    returns (status: Outcome<MacError>, r: MacSlot)
    requires Prepared(s) && ValidExchange(x)
    requires letter == CLIENT_TO_SERVER || letter == SERVER_TO_CLIENT
    ensures var derived := Derivation(x, letter, keySz, fault);
            && status == SetMacKeyStatus(s, keySz, derived)
            && r == WithDerivedKey(s, keySz, derived, supportsMacLen)
    ensures status.Pass? && keySz > 0 ==>
              r.key == Some(DerivedKey(x.hash, x.hashSize, x.k, x.h, LetterByte(letter) as byte, x.sessionId, keySz))
    ensures status.Fail? || keySz == 0 ==> r == s
  {
    if keySz == 0 {
      if s.algo.value == NONE_NAME {
        return Pass, s;
      }
      return Fail(KeyLengthUnknown), s;
    }
    var derived, buffer := DeriveKey(x.hash, x.hashSize, x.k, x.h, LetterByte(letter) as byte,
                                     x.sessionId, keySz, fault);
    if derived.Failure? {
      return Fail(derived.error), s;
    }
    r := s.(key := Some(buffer[..]), keysz := keySz,
            keyLen := EffectiveKeyLen(s.algoType, s.digest.value, supportsMacLen, s.keyLen));
    status := Pass;
  }

  /**
   * `init_mac`: nothing to do for "none"; HMAC_Init_ex, whose success is
   * `initOk`, can fail for an HMAC slot; UMAC initialisation cannot fail.
   */
  function InitMacStatus(s: MacSlot, initOk: bool): (r: Outcome<MacError>)
    requires s.algo.Some?
    ensures r.Fail? <==> s.algo.value != NONE_NAME && s.algoType == Hmac && !initOk
    ensures r.Fail? ==> r.error == InitFailed
  {
    if s.algo.value == NONE_NAME then Pass
    else if s.algoType == Hmac && !initOk then Fail(InitFailed)
    else Pass
  }

  /**
   * `set_*_key` ignores the result of `set_mac_key`: when the derivation
   * fails but `init_mac` succeeds, the call reports success while the new
   * active slot holds no key, so that direction carries no MAC.
   */
  lemma FailedDerivationGoesUnreported(g: Gen, keySz: nat, e: MacError, supportsMacLen: bool, initOk: bool)
    requires GenOk(g) && Prepared(g.slots[Target(g)])
    requires InitMacStatus(g.slots[Target(g)], initOk).Pass?
    ensures var r := SetKey(g, keySz, Failure(e), supportsMacLen);
            && Active(r).key.None?
            && Active(r) == g.slots[Target(g)]
            && InitMacStatus(Active(r), initOk).Pass?
  {
    var sw := Switch(g);
    assert Active(sw) == g.slots[Target(g)];
  }

  /**
   * The module's static state. Between calls each direction keeps the
   * two-slot invariant, and the block size of the inactive read slot is 0.
   */
  class MacState {
    /** `read_macs` and `write_macs`. */
    const readMacs: array<MacSlot>
    const writeMacs: array<MacSlot>
    /** `mac_blockszs`, indexed by the read slot. */
    const blockSizes: array<nat>
    /** `read_mac_idx` and `write_mac_idx`. */
    var readIdx: nat
    var writeIdx: nat

    ghost predicate Valid()
      reads this, readMacs, writeMacs, blockSizes
    {
      && readMacs.Length == 2 && writeMacs.Length == 2 && blockSizes.Length == 2
      && readMacs != writeMacs
      && GenOk(ReadGen()) && GenOk(WriteGen())
      && blockSizes[NextIndex(readIdx)] == 0
    }

    function ReadGen(): Gen
      reads this, readMacs
    {
      Gen(readMacs[..], readIdx)
    }

    function WriteGen(): Gen
      reads this, writeMacs
    {
      Gen(writeMacs[..], writeIdx)
    }

    /** The static initialisers: all slots empty, both indices and block sizes 0. */
    constructor ()
      ensures Valid()
      ensures ReadGen() == InitialGen() && WriteGen() == InitialGen() && blockSizes[..] == [0, 0]
    {
      readMacs := new MacSlot[2](_ => EmptySlot());
      writeMacs := new MacSlot[2](_ => EmptySlot());
      blockSizes := new nat[2](_ => 0);
      readIdx := 0;
      writeIdx := 0;
      new;
      assert readMacs[..] == [EmptySlot(), EmptySlot()];
      assert writeMacs[..] == [EmptySlot(), EmptySlot()];
      assert blockSizes[..] == [0, 0];
    }

    /**
     * `proxy_ssh_mac_get_block_size`: the block size tracked for the active
     * read slot. The inactive slot's entry is always 0 (the read switch zeroes
     * it when retiring), so this is the largest block size tracked.
     */
    function GetBlockSize(): (b: nat)
      reads this, readMacs, writeMacs, blockSizes
      requires Valid()
      ensures b == blockSizes[readIdx]
      ensures forall j :: 0 <= j < blockSizes.Length ==> blockSizes[j] <= b
    {
      blockSizes[readIdx]
    }

    /** `proxy_ssh_mac_set_block_size`: raises the active read slot's block size to `b`. */
    method SetBlockSize(b: nat)
      requires Valid()
      modifies blockSizes
      ensures Valid()
      ensures blockSizes[..] == RaiseBlockSize(old(blockSizes[..]), readIdx, b)
      ensures GetBlockSize() >= b && GetBlockSize() >= old(GetBlockSize())
    {
      if b > blockSizes[readIdx] {
        blockSizes[readIdx] := b;
      }
    }

    /**
     * `proxy_ssh_mac_get_read_algo`: the active read slot's algorithm while it
     * holds a key or is "none", NULL otherwise (strcmp needs a name).
     */
    function GetReadAlgo(): (r: Option<string>)
      reads this, readMacs, writeMacs, blockSizes
      requires Valid() && Active(ReadGen()).algo.Some?
      ensures r.Some? <==> Active(ReadGen()).key.Some? || Active(ReadGen()).algo == Some(NONE_NAME)
      ensures r.Some? ==> r == Active(ReadGen()).algo
    {
      var s := readMacs[readIdx];
      if s.key.Some? || s.algo.value == NONE_NAME then s.algo else None
    }

    /**
     * `proxy_ssh_mac_get_write_algo`: the active write slot's algorithm while
     * it holds a key, NULL otherwise; unlike the read side, "none" without a
     * key is reported as NULL.
     */
    function GetWriteAlgo(): (r: Option<string>)
      reads this, readMacs, writeMacs, blockSizes
      requires Valid()
      ensures r.Some? <==> Active(WriteGen()).key.Some?
      ensures r.Some? ==> r == Active(WriteGen()).algo
    {
      var s := writeMacs[writeIdx];
      if s.key.Some? then s.algo else None
    }

    /** `switch_read_mac`: retire a keyed active read slot and its block size. */
    method SwitchReadMac()
      requires Valid()
      modifies this, readMacs, blockSizes
      ensures Valid()
      ensures ReadGen() == Switch(old(ReadGen()))
      ensures blockSizes[..] == SwitchBlockSizes(old(ReadGen()), old(blockSizes[..]))
      ensures writeIdx == old(writeIdx) && writeMacs[..] == old(writeMacs[..])
    {
      if readMacs[readIdx].key.Some? {
        readMacs[readIdx] := ClearMac(readMacs[readIdx]);
        blockSizes[readIdx] := 0;
        readIdx := NextIndex(readIdx);
      }
    }

    /** `switch_write_mac`: retire a keyed active write slot. */
    method SwitchWriteMac()
      requires Valid()
      modifies this, writeMacs
      ensures Valid()
      ensures WriteGen() == Switch(old(WriteGen()))
      ensures readIdx == old(readIdx) && readMacs[..] == old(readMacs[..])
    {
      if writeMacs[writeIdx].key.Some? {
        writeMacs[writeIdx] := ClearMac(writeMacs[writeIdx]);
        writeIdx := NextIndex(writeIdx);
      }
    }

    /**
     * `proxy_ssh_mac_set_read_algo`. `resolved` is what
     * `proxy_ssh_crypto_get_digest` reports for `name`; without a digest the
     * call fails with only the target slot's digest cleared.
     */
    method SetReadAlgo(name: string, resolved: Option<Resolved>) returns (status: Outcome<MacError>)
      requires Valid() && ResolvedOk(resolved)
      modifies readMacs
      ensures Valid()
      ensures ReadGen() == SetAlgo(old(ReadGen()), name, resolved)
      ensures status.Pass? <==> resolved.Some?
      ensures status.Fail? ==> status.error == UnknownAlgorithm
    {
      var idx := readIdx;
      if readMacs[idx].key.Some? {
        idx := NextIndex(readIdx);
      }
      readMacs[idx] := PrepareSlot(readMacs[idx], name, resolved);
      status := if resolved.None? then Fail(UnknownAlgorithm) else Pass;
    }

    /** `proxy_ssh_mac_set_write_algo`, as `SetReadAlgo` on the write slots. */
    method SetWriteAlgo(name: string, resolved: Option<Resolved>) returns (status: Outcome<MacError>)
      requires Valid() && ResolvedOk(resolved)
      modifies writeMacs
      ensures Valid()
      ensures WriteGen() == SetAlgo(old(WriteGen()), name, resolved)
      ensures status.Pass? <==> resolved.Some?
      ensures status.Fail? ==> status.error == UnknownAlgorithm
    {
      var idx := writeIdx;
      if writeMacs[idx].key.Some? {
        idx := NextIndex(writeIdx);
      }
      writeMacs[idx] := PrepareSlot(writeMacs[idx], name, resolved);
      status := if resolved.None? then Fail(UnknownAlgorithm) else Pass;
    }

    /**
     * `proxy_ssh_mac_set_read_key`: switch, derive the key with the letter of
     * the direction this end reads (the result is not checked), initialise the
     * primitive, and on success raise the block size to the tag length (the
     * digest size when the tag length is 0).
     */
    method SetReadKey(x: Exchange, role: Role, keySz: nat, fault: Option<nat>,
                      supportsMacLen: bool, initOk: bool) returns (status: Outcome<MacError>)
      requires Valid() && ValidExchange(x) && Prepared(readMacs[Target(ReadGen())])
      modifies this, readMacs, blockSizes
      ensures Valid()
      ensures ReadGen() == SetKey(old(ReadGen()), keySz, Derivation(x, ReadLetter(role), keySz, fault), supportsMacLen)
      ensures status == InitMacStatus(Active(ReadGen()), initOk)
      ensures var switched := SwitchBlockSizes(old(ReadGen()), old(blockSizes[..]));
              && (status.Pass? ==> blockSizes[..] == RaiseBlockSize(switched, readIdx, ReadKeyBlockSize(Active(ReadGen()))))
              && (status.Fail? ==> blockSizes[..] == switched)
      ensures status.Pass? ==> GetBlockSize() >= ReadKeyBlockSize(Active(ReadGen()))
      ensures writeIdx == old(writeIdx) && writeMacs[..] == old(writeMacs[..])
    {
      SwitchReadMac();
      var ignored, keyed := SetMacKey(readMacs[readIdx], x, ReadLetter(role), keySz, fault, supportsMacLen);
      readMacs[readIdx] := keyed;
      assert ReadGen() == InstallKey(Switch(old(ReadGen())), keyed);
      status := InitMacStatus(keyed, initOk);
      if status.Fail? {
        return;
      }
      SetBlockSize(ReadKeyBlockSize(keyed));
    }

    /**
     * `proxy_ssh_mac_set_write_key`: switch, derive the key with the letter of
     * the direction this end writes (the result is not checked), and
     * initialise the primitive.
     */
    method SetWriteKey(x: Exchange, role: Role, keySz: nat, fault: Option<nat>,
                       supportsMacLen: bool, initOk: bool) returns (status: Outcome<MacError>)
      requires Valid() && ValidExchange(x) && Prepared(writeMacs[Target(WriteGen())])
      modifies this, writeMacs
      ensures Valid()
      ensures WriteGen() == SetKey(old(WriteGen()), keySz, Derivation(x, WriteLetter(role), keySz, fault), supportsMacLen)
      ensures status == InitMacStatus(Active(WriteGen()), initOk)
      ensures readIdx == old(readIdx) && readMacs[..] == old(readMacs[..])
    {
      SwitchWriteMac();
      var ignored, keyed := SetMacKey(writeMacs[writeIdx], x, WriteLetter(role), keySz, fault, supportsMacLen);
      writeMacs[writeIdx] := keyed;
      assert WriteGen() == InstallKey(Switch(old(WriteGen())), keyed);
      status := InitMacStatus(keyed, initOk);
    }

    /**
     * `proxy_ssh_mac_read_data`: without a read key the packet's MAC is set
     * to NULL and the packet passes; otherwise `get_mac` verifies the
     * received tag.
     */
    method ReadData(pkt: Packet, p: Primitives, hmacOk: bool) returns (status: Outcome<MacError>)
      requires Valid() && ValidPrimitives(p) && FitsBuffer(pkt.Fields())
      requires Active(ReadGen()).key.Some? ==> pkt.mac.Some? && |pkt.mac.value| >= TagLen(Active(ReadGen()))
      modifies pkt
      ensures pkt.Fields() == old(pkt.Fields())
      ensures Active(ReadGen()).key.None? ==> pkt.mac == None && pkt.macLen == 0 && status == Pass
      ensures Active(ReadGen()).key.Some? ==>
                Applied(Active(ReadGen()), old(pkt.Fields()), p, hmacOk, Read, old(pkt.mac), old(pkt.macLen),
                        pkt.mac, pkt.macLen, status)
    {
      var s := readMacs[readIdx];
      if s.key.None? {
        pkt.mac := None;
        pkt.macLen := 0;
        return Pass;
      }
      status := GetMac(pkt, s, p, hmacOk, Read);
    }

    /**
     * `proxy_ssh_mac_write_data`: without a write key the packet carries no
     * MAC; otherwise `get_mac` computes and stores the tag.
     */
    method WriteData(pkt: Packet, p: Primitives, hmacOk: bool) returns (status: Outcome<MacError>)
      requires Valid() && ValidPrimitives(p) && FitsBuffer(pkt.Fields())
      modifies pkt
      ensures pkt.Fields() == old(pkt.Fields())
      ensures Active(WriteGen()).key.None? ==> pkt.mac == None && pkt.macLen == 0 && status == Pass
      ensures Active(WriteGen()).key.Some? ==>
                Applied(Active(WriteGen()), old(pkt.Fields()), p, hmacOk, Write, old(pkt.mac), old(pkt.macLen),
                        pkt.mac, pkt.macLen, status)
    {
      var s := writeMacs[writeIdx];
      if s.key.None? {
        pkt.mac := None;
        pkt.macLen := 0;
        return Pass;
      }
      status := GetMac(pkt, s, p, hmacOk, Write);
    }
  }
}
