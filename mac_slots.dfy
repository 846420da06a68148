/**
 * The two-slot generation manager of mac.c as values: one direction's two
 * `struct proxy_ssh_mac` slots with the index of the active one, and the
 * transitions `set_*_algo`, `switch_*_mac`/`clear_mac` and `set_mac_key`
 * perform on them. The class in module Mac applies these to its arrays.
 */
module MacSlots {
  import opened Wrappers
  import opened Bytes
  import opened MacTypes

  /** One `struct proxy_ssh_mac` (pool and primitive contexts left out). */
  datatype MacSlot = MacSlot(
    algo: Option<string>,
    algoType: AlgoType,
    digest: Option<Digest>,
    key: Option<seq<byte>>,
    keysz: nat,
    keyLen: nat,
    macLen: nat)

  /** The static initialiser `{ NULL, NULL, 0, NULL, NULL, 0, 0, 0 }`: a keyless, unprepared slot. */
  function EmptySlot(): (s: MacSlot)
    ensures SlotOk(s) && !Prepared(s) && s.key.None? && s.algoType == Unset
    ensures s.keysz == 0 && s.keyLen == 0 && s.macLen == 0
  {
    MacSlot(None, Unset, None, None, 0, 0, 0)
  }

  /** What every slot satisfies between calls. */
  predicate SlotOk(s: MacSlot) {
    && (s.key.None? ==> s.keysz == 0 && s.keyLen == 0)
    && (s.key.Some? ==> s.digest.Some? && |s.key.value| == s.keysz)
    && (s.digest.Some? ==> s.algo.Some? && s.algoType != Unset && s.digest.value.size <= MAX_MD_SIZE)
    && s.macLen <= MAX_MD_SIZE
  }

  /** A slot whose last `set_*_algo` succeeded: it has a name and a digest. */
  predicate Prepared(s: MacSlot) {
    s.algo.Some? && s.digest.Some?
  }

  /** A slot that holds a key, as the MAC engine requires. */
  predicate Keyed(s: MacSlot) {
    SlotOk(s) && s.key.Some?
  }

  /**
   * `clear_mac`: scrubs and drops the key (resetting its sizes) and forgets
   * the digest and the algorithm name; type and tag length stay.
   */
  function ClearMac(s: MacSlot): (c: MacSlot)
    ensures c.key.None? && c.digest.None? && c.algo.None?
    ensures s.key.Some? ==> c.keysz == 0 && c.keyLen == 0
    ensures c.algoType == s.algoType && c.macLen == s.macLen
    ensures SlotOk(s) ==> SlotOk(c)
  {
    var c := if s.key.Some? then s.(key := None, keysz := 0, keyLen := 0) else s;
    c.(digest := None, algo := None)
  }

  /** What `proxy_ssh_crypto_get_digest` reports for an algorithm name. */
  datatype Resolved = Resolved(digest: Digest, macLen: nat)

  /** The digests the model admits: at most EVP_MAX_MD_SIZE bytes, and so the tag lengths. */
  predicate ResolvedOk(r: Option<Resolved>) {
    r.Some? ==> r.value.digest.size <= MAX_MD_SIZE && r.value.macLen <= MAX_MD_SIZE
  }

  /**
   * The part of `set_*_algo` that changes the targeted slot: with no digest
   * for the name only the digest is cleared; otherwise name, type, digest
   * and tag length are recorded. Key material is never touched.
   */
  function PrepareSlot(s: MacSlot, name: string, resolved: Option<Resolved>): (p: MacSlot)
    ensures p.key == s.key && p.keysz == s.keysz && p.keyLen == s.keyLen
    ensures resolved.None? ==> p == s.(digest := None)
    ensures resolved.Some? ==> Prepared(p) && p.algo == Some(name) && p.algoType == AlgoTypeOf(name)
    ensures resolved.Some? ==> p.digest == Some(resolved.value.digest) && p.macLen == resolved.value.macLen
    ensures SlotOk(s) && s.key.None? && ResolvedOk(resolved) ==> SlotOk(p)
  {
    match resolved
    case None => s.(digest := None)
    case Some(r) => s.(algo := Some(name), algoType := AlgoTypeOf(name), digest := Some(r.digest), macLen := r.macLen)
  }

  /** One direction: `read_macs`/`read_mac_idx` or `write_macs`/`write_mac_idx`. */
  datatype Gen = Gen(slots: seq<MacSlot>, idx: nat)

  /** Two slots, an index in range, and only the active slot may hold a key. */
  predicate GenOk(g: Gen) {
    && |g.slots| == 2 && g.idx < 2
    && SlotOk(g.slots[0]) && SlotOk(g.slots[1])
    && g.slots[NextIndex(g.idx)].key.None?
  }

  /** The static initial state of one direction: index 0 and both slots empty. */
  function InitialGen(): (g: Gen)
    ensures GenOk(g) && g.idx == 0
    ensures forall i :: 0 <= i < |g.slots| ==> g.slots[i] == EmptySlot()
  {
    Gen([EmptySlot(), EmptySlot()], 0)
  }

  /** `get_next_*_index`: the other slot. */
  function NextIndex(idx: nat): (n: nat)
    requires idx < 2
    ensures n < 2 && n != idx && n == 1 - idx
  {
    if idx == 1 then 0 else 1
  }

  function Active(g: Gen): MacSlot
    requires |g.slots| == 2 && g.idx < 2
  {
    g.slots[g.idx]
  }

  /**
   * The slot `set_*_algo` prepares and the next `set_*_key` keys: the active
   * slot while it holds no key, otherwise the other one (a rekey).
   */
  function Target(g: Gen): (t: nat)
    requires |g.slots| == 2 && g.idx < 2
    ensures t < 2
    ensures Active(g).key.Some? ==> t == NextIndex(g.idx)
    ensures Active(g).key.None? ==> t == g.idx
    ensures GenOk(g) ==> g.slots[t].key.None?
  {
    if g.slots[g.idx].key.Some? then NextIndex(g.idx) else g.idx
  }

  /**
   * `proxy_ssh_mac_set_*_algo`: prepares the target slot and leaves the
   * active index and the other slot alone. During a rekey the active slot,
   * and so MAC processing of packets under the old key, is unaffected.
   */
  function SetAlgo(g: Gen, name: string, resolved: Option<Resolved>): (r: Gen)
    requires |g.slots| == 2 && g.idx < 2
    ensures |r.slots| == 2 && r.idx == g.idx
    ensures r.slots[Target(g)] == PrepareSlot(g.slots[Target(g)], name, resolved)
    ensures r.slots[NextIndex(Target(g))] == g.slots[NextIndex(Target(g))]
    ensures Active(g).key.Some? ==> Active(r) == Active(g)
    ensures GenOk(g) && ResolvedOk(resolved) ==> GenOk(r)
  {
    var t := Target(g);
    g.(slots := g.slots[t := PrepareSlot(g.slots[t], name, resolved)])
  }

  /**
   * `switch_*_mac`: when the active slot holds a key it is cleared and the
   * index moves to the other slot; otherwise nothing changes. Either way the
   * new active slot is the one `set_*_algo` targeted, and no slot holds a key.
   */
  function Switch(g: Gen): (r: Gen)
    requires |g.slots| == 2 && g.idx < 2
    ensures |r.slots| == 2 && r.idx == Target(g)
    ensures Active(r) == g.slots[Target(g)]
    ensures Active(g).key.Some? ==> r.idx != g.idx && r.slots[g.idx] == ClearMac(Active(g))
    ensures Active(g).key.None? ==> r == g
    ensures GenOk(g) ==> GenOk(r) && r.slots[0].key.None? && r.slots[1].key.None?
  {
    if g.slots[g.idx].key.Some? then
      Gen(g.slots[g.idx := ClearMac(g.slots[g.idx])], NextIndex(g.idx))
    else g
  }

  /**
   * The slot after `set_mac_key`: a key size of 0 (the "none" case or an
   * error) and a failed derivation leave it alone; a derived key is stored
   * with `keysz` = key size and the effective `key_len`.
   */
  function WithDerivedKey(s: MacSlot, keySz: nat, derived: Result<seq<byte>, MacError>,
                          supportsMacLen: bool): (r: MacSlot)
    requires Prepared(s)
    requires derived.Success? ==> |derived.value| == keySz
    ensures keySz == 0 || derived.Failure? ==> r == s
    ensures keySz > 0 && derived.Success? ==>
      && r.key == Some(derived.value) && r.keysz == keySz
      && r.keyLen == EffectiveKeyLen(s.algoType, s.digest.value, supportsMacLen, s.keyLen)
      && r == s.(key := r.key, keysz := r.keysz, keyLen := r.keyLen)
    ensures SlotOk(s) ==> SlotOk(r)
  {
    if keySz == 0 || derived.Failure? then s
    else s.(key := Some(derived.value), keysz := keySz,
            keyLen := EffectiveKeyLen(s.algoType, s.digest.value, supportsMacLen, s.keyLen))
  }

  /**
   * What `set_mac_key` returns: success without a key for "none" when the key
   * size is 0, an error for any other name with key size 0, and the
   * derivation's own outcome otherwise.
   */
  function SetMacKeyStatus(s: MacSlot, keySz: nat, derived: Result<seq<byte>, MacError>)
    : (r: Outcome<MacError>)
    requires s.algo.Some?
    ensures keySz == 0 ==> (r.Pass? <==> s.algo.value == NONE_NAME)
    ensures keySz > 0 ==> (r.Pass? <==> derived.Success?)
  {
    if keySz == 0 then
      (if s.algo.value == NONE_NAME then Pass else Fail(KeyLengthUnknown))
    else if derived.Failure? then Fail(derived.error)
    else Pass
  }

  /** Stores the slot `set_mac_key` produced as the active slot. */
  function InstallKey(g: Gen, s: MacSlot): (r: Gen)
    requires |g.slots| == 2 && g.idx < 2
    ensures |r.slots| == 2 && r.idx == g.idx && Active(r) == s
    ensures r.slots[NextIndex(g.idx)] == g.slots[NextIndex(g.idx)]
  {
    g.(slots := g.slots[g.idx := s])
  }

  /** The whole of `set_*_key` on the slots: switch, then key the active slot. */
  function SetKey(g: Gen, keySz: nat, derived: Result<seq<byte>, MacError>, supportsMacLen: bool): (r: Gen)
    requires |g.slots| == 2 && g.idx < 2 && Prepared(g.slots[Target(g)])
    requires derived.Success? ==> |derived.value| == keySz
    ensures GenOk(g) ==> GenOk(r)
  {
    var sw := Switch(g);
    InstallKey(sw, WithDerivedKey(Active(sw), keySz, derived, supportsMacLen))
  }

  /**
   * One negotiation cycle, `set_*_algo` then `set_*_key`: the active slot is
   * exactly the slot `set_*_algo` prepared (keyed if the derivation gave a
   * key), and the other slot is keyless -- the cleared old generation when
   * there was one, untouched otherwise.
   */
  lemma AlgoThenKey(g: Gen, name: string, resolved: Resolved, keySz: nat,
                    derived: Result<seq<byte>, MacError>, supportsMacLen: bool)
    requires GenOk(g) && ResolvedOk(Some(resolved))
    requires derived.Success? ==> |derived.value| == keySz
    ensures var prepared := PrepareSlot(g.slots[Target(g)], name, Some(resolved));
            var r := SetKey(SetAlgo(g, name, Some(resolved)), keySz, derived, supportsMacLen);
            && GenOk(r)
            && r.idx == Target(g)
            && Active(r) == WithDerivedKey(prepared, keySz, derived, supportsMacLen)
            && r.slots[NextIndex(r.idx)].key.None?
            && r.slots[NextIndex(r.idx)] == (if Active(g).key.Some? then ClearMac(Active(g)) else g.slots[NextIndex(g.idx)])
  {
    var g1 := SetAlgo(g, name, Some(resolved));
    assert Target(g1) == Target(g);
    var sw := Switch(g1);
    assert Active(sw) == PrepareSlot(g.slots[Target(g)], name, Some(resolved));
  }

  /**
   * A first key exchange and a rekey, starting from the initial state:
   * afterwards slot 1 is active with algorithm B and key K2, and slot 0, the
   * generation of algorithm A and key K1, has been cleared.
   */
  lemma RekeyRetiresOldGeneration(a: string, ra: Resolved, k1: seq<byte>,
                                  b: string, rb: Resolved, k2: seq<byte>, supportsMacLen: bool)
    requires ResolvedOk(Some(ra)) && ResolvedOk(Some(rb)) && |k1| > 0 && |k2| > 0
    ensures var g1 := SetKey(SetAlgo(InitialGen(), a, Some(ra)), |k1|, Success(k1), supportsMacLen);
            var g2 := SetKey(SetAlgo(g1, b, Some(rb)), |k2|, Success(k2), supportsMacLen);
            && g1.idx == 0 && Active(g1).algo == Some(a) && Active(g1).key == Some(k1)
            && g2.idx == 1 && Active(g2).algo == Some(b) && Active(g2).key == Some(k2)
            && g2.slots[0] == ClearMac(Active(g1))
            && g2.slots[0].key.None? && g2.slots[0].algo.None?
  {
    var g1 := SetKey(SetAlgo(InitialGen(), a, Some(ra)), |k1|, Success(k1), supportsMacLen);
    AlgoThenKey(InitialGen(), a, ra, |k1|, Success(k1), supportsMacLen);
    AlgoThenKey(g1, b, rb, |k2|, Success(k2), supportsMacLen);
  }

  /**
   * `switch_read_mac` also zeroes the block size tracked for the slot it
   * retires; `switch_write_mac` leaves block sizes alone.
   */
  function SwitchBlockSizes(g: Gen, bs: seq<nat>): (r: seq<nat>)
    requires |g.slots| == 2 && g.idx < 2 && |bs| == 2
    ensures |r| == 2
    ensures Active(g).key.Some? ==> r[g.idx] == 0 && r[NextIndex(g.idx)] == bs[NextIndex(g.idx)]
    ensures Active(g).key.None? ==> r == bs
  {
    if g.slots[g.idx].key.Some? then bs[g.idx := 0] else bs
  }

  /** `proxy_ssh_mac_set_block_size`: the tracked size only ever grows, to the maximum. */
  function RaiseBlockSize(bs: seq<nat>, idx: nat, b: nat): (r: seq<nat>)
    requires idx < |bs|
    ensures |r| == |bs|
    ensures r[idx] >= bs[idx] && r[idx] >= b
    ensures r[idx] == bs[idx] || r[idx] == b
    ensures forall j :: 0 <= j < |bs| && j != idx ==> r[j] == bs[j]
  {
    if b > bs[idx] then bs[idx := b] else bs
  }

  /** The block size `set_read_key` reports: the tag length, or the digest size without one. */
  function ReadKeyBlockSize(s: MacSlot): (b: nat)
    requires s.digest.Some?
    ensures s.macLen == 0 ==> b == s.digest.value.size
    ensures s.macLen != 0 ==> b == s.macLen
  {
    if s.macLen == 0 then s.digest.value.size else s.macLen
  }
}
