# SSH MAC layer of mod_proxy, modelled in Dafny

This project models the message authentication layer of the SSH transport
used by ProFTPD's `mod_proxy` (`lib/proxy/ssh/mac.c`). It covers the
following.

- **Two generations per direction.** The read and the write direction each
  own two MAC slots (`read_macs`, `write_macs`) and the index of the active
  one. `set_*_algo` prepares the slot the next key will use and `set_*_key`
  switches to it. The old slot is retired (its key scrubbed and dropped)
  when `set_*_key` is called, before the new key is derived, whether or not
  a key results.
- **Key derivation** per section 7.2 of RFC 4253.
  - K1 = HASH(K || H || letter || session_id).
  - Further HASH(K || H || key so far) blocks are appended until
    `key_sz` bytes are known.
  - The letter depends on the SSH role and the direction.
- **The effective key length** handed to the MAC primitive.
- **Tag computation and verification** (`get_mac`).
  - The authenticated bytes for HMAC are uint32 seqno || uint32 packet_len
    || padding_len byte || payload || padding.
  - For UMAC the same bytes are used without the sequence number, with the
    sequence number as an 8-byte big-endian nonce.
  - A configured tag length truncates the output.
  - The received tag is compared on read and the tag is stored in the
    packet on success.
- **Block sizes** tracked for the read slots.

Modules, in dependency order:

| file | module | contents |
|---|---|---|
| wrappers.dfy | Wrappers | `Option`, `Result`, `Outcome` |
| bytes.dfy | Bytes | bytes, zero buffers, big-endian uint32/uint64 encodings |
| mac_types.dfy | MacTypes | algorithm types and names, digests, roles and direction letters, effective key length, error kinds |
| kdf.dfy | Kdf | the key derivation as functions. `ExtendKey`/`DeriveKey` are the imperative loop over the key buffer |
| mac_input.dfy | MacInput | the byte layouts of the MAC input and nonce, their parsers and injectivity. `BuildMacInput` writes them through a cursor as `get_mac` does |
| mac_slots.dfy | MacSlots | one slot (`struct proxy_ssh_mac`) and one direction's pair of slots as values, and the transitions of `set_*_algo`, `switch_*_mac`/`clear_mac` and `set_mac_key` |
| mac_engine.dfy | MacEngine | the keyed primitives, the tag `get_mac` computes (`MacOutcome`), the packet, and the imperative `GetMac` |
| mac.dfy | Mac | `set_mac_key`, `init_mac`, and class `MacState` holding the module's static arrays and indices with the public operations |

The foreign collaborators become parameters.

| collaborator | parameter |
|---|---|
| HMAC, UMAC64 and UMAC128 | function-typed fields of `MacEngine.Primitives`, with fixed output lengths (`ValidPrimitives`) |
| the exchange hash `md` | a function with a fixed output size (`Kdf.ValidHash`) |
| `proxy_ssh_crypto_get_digest` | a `Resolved` option for the name |
| `proxy_ssh_crypto_get_size` | the key size `keySz` |
| `proxy_ssh_session_get_id` | the session identifier |
| `proxy_ssh_interop_supports_feature(MAC_LEN)` | `supportsMacLen` |

Failures of OpenSSL calls are explicit inputs:

- `fault` names the digest computation of the derivation that fails;
- `initOk` is the result of `HMAC_Init_ex` in `init_mac`;
- `hmacOk` is the combined result of the HMAC calls in `get_mac`.

The source dereferences the algorithm name or digest without a check in
`strcmp` and `EVP_MD_*`. That is undefined when they are NULL, so those
places become preconditions (an algorithm name present, a prepared target
slot).

Behaviours of the code the model keeps:

- The tag comparison at mac.c:345 is a plain `memcmp` over the first
  `mac_len` bytes, with no check of the received tag's length. The model
  compares the same prefix and requires at least `mac_len` received bytes.
- `set_*_key` ignores the result of `set_mac_key` (mac.c:775, 911). When the
  derivation fails but `init_mac` succeeds, the call reports success and
  the direction is left without a key, so `*_data` passes packets with no
  MAC (`Mac.FailedDerivationGoesUnreported`).
  - In the model `initOk` does not depend on whether the slot holds a key.
    For an HMAC slot the lemma's premise therefore includes an
    `HMAC_Init_ex` call with a NULL key, which OpenSSL (not part of this
    model) may refuse. For UMAC slots the path is certain: mac.c:221-228
    checks no result of the UMAC initialisation.
- `set_*_key` switches slots (mac.c:756, 892) before it derives the key.
- `get_write_algo` reports NULL for an unkeyed "none" slot, while
  `get_read_algo` reports "none".
- `proxy_ssh_mac_free` releases the HMAC contexts only. It does not scrub
  keys still held in slots.

## Model

| member | source | states |
|---|---|---|
| Bytes.U32 | lib/proxy/ssh/mac.c:247-248 | the 4-byte big-endian encoding written for seqno and packet_len decodes back to the number |
| Bytes.U32OfDecode | lib/proxy/ssh/mac.c:247-248 | every 4-byte string is the encoding of its decoded value, so the encoding is a bijection |
| Bytes.U64 | lib/proxy/ssh/mac.c:310-312 | the 8-byte big-endian nonce encoding decodes back to the number |
| Bytes.U64OfU32 | lib/proxy/ssh/mac.c:312 | the 8-byte encoding of a 32-bit sequence number is four zero bytes followed by its 4-byte encoding |
| MacTypes.AlgoTypeOf | lib/proxy/ssh/mac.c:729-739 | UMAC64 exactly for "umac-64@openssh.com", UMAC128 exactly for "umac-128@openssh.com", HMAC for every other name |
| MacTypes.ReadLetter | lib/proxy/ssh/mac.c:774 | the read key uses 'F' for the client role and 'E' for the server role |
| MacTypes.WriteLetter | lib/proxy/ssh/mac.c:910 | the write key uses 'E' for the client role and 'F' for the server role |
| MacTypes.LettersAgree | lib/proxy/ssh/mac.c:764-910 | one end's read letter is its peer's write letter and vice versa, and an end's two letters differ |
| MacTypes.LetterByte | lib/proxy/ssh/mac.c:504 | the letter enters the hash as the single byte of its character code |
| MacTypes.EffectiveKeyLen | lib/proxy/ssh/mac.c:653-664 | key_len is the digest size for HMAC and the digest block size for UMAC, and is forced to 16 without the MAC_LEN interop feature |
| Kdf.FirstBlock | lib/proxy/ssh/mac.c:457-548 | K1 = HASH(K \|\| H \|\| letter \|\| session_id) is one digest output of the hash's size |
| Kdf.DerivedKeyStartsWithK1 | lib/proxy/ssh/mac.c:536-644 | the derived key's first bytes, up to one digest, are those of K1 |
| Kdf.Expand | lib/proxy/ssh/mac.c:555-644 | the extension loop ends with at least key_sz bytes and keeps every earlier block as a prefix |
| Kdf.DerivedKey | lib/proxy/ssh/mac.c:457-644 | the derived key has exactly key_sz bytes |
| Kdf.KdfOutcome | lib/proxy/ssh/mac.c:536-644 | derivation fails with a digest error exactly when one of the digest computations the loop runs fails, and otherwise yields the key_sz-byte key |
| Kdf.ExpandMonotone | lib/proxy/ssh/mac.c:555-644 | expanding to a longer length extends the shorter expansion |
| Kdf.DerivedKeyPrefix | lib/proxy/ssh/mac.c:555-644 | a longer derived key starts with the shorter key derived from the same inputs |
| Kdf.ExpandLength | lib/proxy/ssh/mac.c:555-644 | from whole digest blocks, the loop stops at a multiple of the digest size less than one block past key_sz |
| Kdf.AsWrittenKeyLen | lib/proxy/ssh/mac.c:536-644 | the bytes the code writes when each digest output is stored whole: at least key_sz and one digest, a multiple of the digest size, less than one digest past key_sz |
| Kdf.AsWrittenFitsIff | lib/proxy/ssh/mac.c:438-644 | for a positive key_sz, the code writes exactly key_sz bytes iff key_sz is a multiple of the digest size |
| Kdf.AsWrittenOverrun | lib/proxy/ssh/mac.c:438-644 | an illustration of `AsWrittenKeyLen`, adding nothing to `AsWrittenFitsIff`: with a 20-byte hash a 64-byte key size takes 80 bytes of digest output |
| Kdf.CopyInto | lib/proxy/ssh/mac.c:628-643 | writes the block at the offset, bounded by the buffer, and leaves the rest of the buffer alone |
| Kdf.Scrub | lib/proxy/ssh/mac.c:539 | pr_memscrub leaves every byte of the key buffer zero |
| Kdf.AppendBlock | lib/proxy/ssh/mac.c:555-644 | one round keeps the buffer holding the prefix of the key material extended by HASH(K \|\| H \|\| key so far) |
| Kdf.ExtendKey | lib/proxy/ssh/mac.c:555-644 | the loop succeeds iff no extension digest fails; then the buffer is the expanded key, otherwise it is scrubbed |
| Kdf.DeriveKey | lib/proxy/ssh/mac.c:438-644 | returns the `KdfOutcome` status with a fresh key_sz-byte buffer that holds the RFC 4253 key on success and only zeros on failure |
| MacInput.UmacInput | lib/proxy/ssh/mac.c:303-308 | the UMAC input has 5 + payload + padding bytes |
| MacInput.HmacInput | lib/proxy/ssh/mac.c:247-253 | the HMAC input is the uint32 seqno followed by the UMAC input |
| MacInput.Nonce | lib/proxy/ssh/mac.c:310-312 | the nonce is the 8-byte big-endian sequence number |
| MacInput.ParseHmacInputRoundTrip | lib/proxy/ssh/mac.c:247-253 | the HMAC input is parsed back to exactly the packet fields it encodes |
| MacInput.ParseUmacInputRoundTrip | lib/proxy/ssh/mac.c:303-312 | the UMAC input with the nonce's sequence number is parsed back to exactly the packet fields |
| MacInput.HmacInputInjective | lib/proxy/ssh/mac.c:247-253 | two packets have the same HMAC input iff their fields are equal |
| MacInput.UmacInputInjective | lib/proxy/ssh/mac.c:303-312 | two packets have the same UMAC input and nonce iff their fields are equal |
| MacInput.WriteInt | lib/proxy/ssh/mac.c:247-248 | appends the 4-byte encoding at the cursor and leaves the rest of the buffer alone |
| MacInput.WriteByte | lib/proxy/ssh/mac.c:248 | appends one byte at the cursor |
| MacInput.WriteData | lib/proxy/ssh/mac.c:250-253 | appends the bytes at the cursor |
| MacInput.WriteLong | lib/proxy/ssh/mac.c:312 | appends the 8-byte encoding at the cursor |
| MacInput.WriteFields | lib/proxy/ssh/mac.c:303-308 | writes exactly the UMAC input (packet_len, padding_len, payload, padding) at the cursor |
| MacInput.BuildMacInput | lib/proxy/ssh/mac.c:239-308 | allocates bufsz bytes (8 or 4 + packet_len + 64) and writes exactly the HMAC or UMAC input into its prefix |
| MacInput.BuildNonce | lib/proxy/ssh/mac.c:300-312 | the 8-byte nonce array holds the encoded sequence number |
| MacSlots.EmptySlot | lib/proxy/ssh/mac.c:71-81 | the static slot initialiser is keyless, unprepared, of no type and with all sizes 0, and satisfies the slot invariant |
| MacSlots.InitialGen | lib/proxy/ssh/mac.c:71-88 | the initial direction has index 0 and two empty slots, and satisfies the two-slot invariant |
| MacSlots.ClearMac | lib/proxy/ssh/mac.c:170-181 | the key, digest and name are dropped, keysz and key_len reset when a key was held, type and tag length kept, slot invariant kept |
| MacSlots.PrepareSlot | lib/proxy/ssh/mac.c:712-741 | with no digest only the digest is cleared; otherwise name, type, digest and tag length are recorded; key material is never touched |
| MacSlots.NextIndex | lib/proxy/ssh/mac.c:92-106 | the next index is 1 - idx |
| MacSlots.Target | lib/proxy/ssh/mac.c:690-695 | the active slot while it holds no key, else the other slot, and the targeted slot is keyless |
| MacSlots.SetAlgo | lib/proxy/ssh/mac.c:688-743 | the targeted slot is prepared, the index and the other slot are unchanged, a keyed active slot is unaffected, and the invariant is kept |
| MacSlots.Switch | lib/proxy/ssh/mac.c:108-168 | with a keyed active slot it is cleared and the index flips; otherwise nothing changes; the new active slot is the targeted one and no slot holds a key |
| MacSlots.WithDerivedKey | lib/proxy/ssh/mac.c:646-664 | a derived key is stored with keysz = key size and the effective key_len; a zero key size or failed derivation changes nothing |
| MacSlots.SetMacKeyStatus | lib/proxy/ssh/mac.c:425-646 | key size 0 succeeds exactly for "none"; otherwise success exactly when the derivation succeeds |
| MacSlots.InstallKey | lib/proxy/ssh/mac.c:756-775 | the keyed slot becomes the active slot and the other slot is kept |
| MacSlots.SetKey | lib/proxy/ssh/mac.c:756-775 | switching and then keying keeps the two-slot invariant |
| MacSlots.AlgoThenKey | lib/proxy/ssh/mac.c:688-775 | after set_algo and set_key the active slot is exactly the prepared slot (keyed when derived), and the other slot is keyless: the cleared old generation or untouched |
| MacSlots.RekeyRetiresOldGeneration | lib/proxy/ssh/mac.c:108-775 | algorithm A with key K1 and then B with K2 from the initial state: slot 1 is active with B/K2 and the A/K1 slot is cleared |
| MacSlots.SwitchBlockSizes | lib/proxy/ssh/mac.c:128 | the read switch zeroes the retired slot's block size and keeps the other one |
| MacSlots.RaiseBlockSize | lib/proxy/ssh/mac.c:673-677 | the block size becomes the maximum of the old value and the new one; other entries are kept |
| MacSlots.ReadKeyBlockSize | lib/proxy/ssh/mac.c:781-787 | the tag length, or the digest size when the tag length is 0 |
| MacEngine.NaturalLen | lib/proxy/ssh/mac.c:280-324 | the computed MAC length never exceeds EVP_MAX_MD_SIZE |
| MacEngine.TagLen | lib/proxy/ssh/mac.c:340-342 | a nonzero configured mac_len overrides the computed length |
| MacEngine.RawMac | lib/proxy/ssh/mac.c:239-325 | the primitive output has the computed length |
| MacEngine.MacData | lib/proxy/ssh/mac.c:242 | the zeroed 64-byte mac_data buffer starts with the primitive output |
| MacEngine.ExpectedTag | lib/proxy/ssh/mac.c:340-408 | the tag has the tag length |
| MacEngine.MacOutcome | lib/proxy/ssh/mac.c:233-411 | HMAC failure, zero computed length and read mismatch each occur exactly in their case; success yields the tag, of 8 or 16 bytes for UMAC or the digest size for HMAC without override, matching the received prefix on read |
| MacEngine.WriteThenRead | lib/proxy/ssh/mac.c:344-408 | a tag produced on write verifies when the same packet is read with it |
| MacEngine.AcceptedForgeryIsCollision | lib/proxy/ssh/mac.c:344-349 | a different packet accepted with another packet's tag implies a truncated-primitive collision on distinct inputs |
| MacEngine.RunPrimitive | lib/proxy/ssh/mac.c:239-325 | fails exactly for HMAC when an HMAC call fails, otherwise yields the primitive output over the layout of the slot's family |
| MacEngine.GetMac | lib/proxy/ssh/mac.c:233-411 | computes the MAC through the cursor-written buffer, stores the tag on success, sets a NULL MAC on zero length, leaves the packet alone on other errors, as `MacOutcome` |
| Mac.Derivation | lib/proxy/ssh/mac.c:774-775 | the derived key for a letter is the RFC 4253 key for that letter's byte |
| Mac.PeersDeriveSameKey | lib/proxy/ssh/mac.c:764-911 | one end's write derivation and its peer's read derivation coincide |
| Mac.SetMacKey | lib/proxy/ssh/mac.c:413-667 | status and new slot as `SetMacKeyStatus`/`WithDerivedKey` of the derivation; a stored key is the RFC 4253 key; on error the slot is unchanged |
| Mac.InitMacStatus | lib/proxy/ssh/mac.c:183-231 | init fails exactly for an HMAC slot other than "none" whose HMAC_Init_ex fails |
| Mac.FailedDerivationGoesUnreported | lib/proxy/ssh/mac.c:775-779 | a failed derivation with a successful init leaves the new active slot keyless while set_key reports success |
| Mac.MacState.constructor | lib/proxy/ssh/mac.c:71-88 | all slots empty, both indices and block sizes 0, and the class invariant holds |
| Mac.MacState.GetBlockSize | lib/proxy/ssh/mac.c:669-671 | the active read slot's block size, which is the largest tracked since the inactive slot's entry stays 0 |
| Mac.MacState.SetBlockSize | lib/proxy/ssh/mac.c:669-677 | the active read block size becomes the maximum, so it never decreases |
| Mac.MacState.GetReadAlgo | lib/proxy/ssh/mac.c:679-686 | the active read algorithm exactly when a key is held or it is "none" |
| Mac.MacState.GetWriteAlgo | lib/proxy/ssh/mac.c:817-823 | the active write algorithm exactly when a key is held |
| Mac.MacState.SwitchReadMac | lib/proxy/ssh/mac.c:108-138 | the read slots become `Switch` of the old ones, with the retired block size zeroed; the write side is untouched |
| Mac.MacState.SwitchWriteMac | lib/proxy/ssh/mac.c:140-168 | the write slots become `Switch` of the old ones; the read side is untouched |
| Mac.MacState.SetReadAlgo | lib/proxy/ssh/mac.c:688-743 | the read slots become `SetAlgo`; success exactly when a digest is found, UnknownAlgorithm otherwise |
| Mac.MacState.SetWriteAlgo | lib/proxy/ssh/mac.c:825-880 | the write slots become `SetAlgo`; success exactly when a digest is found |
| Mac.MacState.SetReadKey | lib/proxy/ssh/mac.c:745-790 | the read slots become `SetKey` with the read letter; the status is init's; on success the block size is raised to at least the tag length or digest size |
| Mac.MacState.SetWriteKey | lib/proxy/ssh/mac.c:882-918 | the write slots become `SetKey` with the write letter; the status is init's; block sizes untouched |
| Mac.MacState.ReadData | lib/proxy/ssh/mac.c:792-815 | without a read key the packet gets a NULL MAC and passes; otherwise `get_mac` verification as `MacOutcome` |
| Mac.MacState.WriteData | lib/proxy/ssh/mac.c:920-943 | without a write key the packet gets a NULL MAC; otherwise the computed tag as `MacOutcome` |

## Left out

- The HMAC, UMAC and EVP digest primitives are deterministic functions with fixed output lengths, and their failures are boolean or index inputs. Their internals, and the HMAC and UMAC context objects (reset, allocate, delete), are not modelled.
- Only the OpenSSL 1.1.0 and later paths are modelled. The other `OPENSSL_VERSION_NUMBER` variants are not.
- `proxy_ssh_crypto_get_digest`, `proxy_ssh_crypto_get_size`, `proxy_ssh_interop_supports_feature` and `proxy_ssh_session_get_id` are not part of this model. Their results are parameters. In particular, whether `get_size` always returns a multiple of the hash size is not modelled.
- Kdf.DeriveKey: copies each digest output only as far as the `key_sz`-byte buffer reaches, where the code writes the whole output at `key + len`. The two agree exactly when `key_sz` is a multiple of the hash size (`Kdf.AsWrittenFitsIff`). The extent the code writes otherwise is `Kdf.AsWrittenKeyLen`.
- Kdf.DeriveKey: the buffer starts zeroed rather than with `malloc`'s contents. A failure before the first digest output (the unscrubbed free at lines 457-532) therefore also returns zeros.
- Kdf.ValidHash: requires an exchange hash of at least one output byte. With a zero-size `md`, each round of the loop at mac.c:555-644 adds nothing to `key_len` and the loop would never end; that non-termination is not modelled.
- MacSlots.ResolvedOk: assumes the digest size and `mac_len` reported by `proxy_ssh_crypto_get_digest` are at most 64 (EVP_MAX_MD_SIZE). The code never checks this; a larger `mac_len` would make the `memcmp`/`memcpy` at mac.c:345 and 408 read past the 64-byte `mac_data`, which is not modelled.
- MacInput.FitsBuffer: assumes the packet fields fit the `bufsz` buffer (payload and padding within `packet_len`). Otherwise the message writers, which are not part of this model, take their own error path.
- Pools (`make_sub_pool`, `destroy_pool`, `pstrdup`, `pcalloc`), `free`, and the `_exit` on allocation failure are not modelled. A freed key is an absent key.
- Logging, `pr_signals_handle` and the `SFTP_DEBUG_PACKET` dumps are left out.
- Timing of the tag comparison is not expressible. The comparison is modelled as sequence equality of the first `mac_len` bytes.
- `proxy_ssh_mac_init` and `proxy_ssh_mac_free` are left out beyond the initial state (`Mac.MacState.constructor`). They only allocate and free HMAC contexts.
- Integer widths. Sequence numbers and packet lengths are below 2^32 and the HMAC buffer size must fit in 32 bits (`MacInput.FitsBuffer`). The code's `uint32_t` arithmetic on `bufsz` would otherwise wrap, and that wrap-around is not modelled.
- Mac.MacState.SetReadKey, Mac.MacState.SetWriteKey: require that the slot the key goes to has an algorithm name and a digest. The code dereferences both without a check.
- Mac.MacState.GetReadAlgo: requires an algorithm name in the active read slot. The code passes it to `strcmp` without a check.
- Mac.MacState.ReadData: requires a received tag of at least the tag length. The code reads `mac_len` bytes of `pkt->mac` without checking.
