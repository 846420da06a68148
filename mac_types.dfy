/**
 * The shared vocabulary of the SSH MAC layer: algorithm types, digests,
 * roles and direction letters, error kinds, and the constants of mac.c.
 */
module MacTypes {
  import opened Wrappers

  /** `algo_type` of a MAC slot; `Unset` is the 0 of a never-configured slot. */
  datatype AlgoType = Unset | Hmac | Umac64 | Umac128

  const UMAC64_NAME: string := "umac-64@openssh.com"
  const UMAC128_NAME: string := "umac-128@openssh.com"
  const NONE_NAME: string := "none"

  /** EVP_MAX_MD_SIZE: the size of the buffer the computed MAC is written into. */
  const MAX_MD_SIZE: nat := 64
  /** Tag lengths the UMAC primitives produce. */
  const UMAC64_LEN: nat := 8
  const UMAC128_LEN: nat := 16
  /** The MAC key length used for peers without the MAC_LEN interop feature. */
  const LEGACY_KEY_LEN: nat := 16

  /** The algorithm type is decided by the exact (case-sensitive) algorithm name. */
  function AlgoTypeOf(name: string): (t: AlgoType)
    ensures t != Unset
    ensures t == Umac64 <==> name == UMAC64_NAME
    ensures t == Umac128 <==> name == UMAC128_NAME
    ensures t == Hmac <==> name != UMAC64_NAME && name != UMAC128_NAME
  {
    if name == UMAC64_NAME then Umac64
    else if name == UMAC128_NAME then Umac128
    else Hmac
  }

  /** An OpenSSL message digest, seen through EVP_MD_size and EVP_MD_block_size. */
  datatype Digest = Digest(name: string, size: nat, blockSize: nat)

  /** Which end of the SSH connection this process plays. */
  datatype Role = Client | Server

  /** Section 7.2 of RFC 4253: client-to-server keys use 'E', server-to-client keys 'F'. */
  const CLIENT_TO_SERVER: char := 'E'
  const SERVER_TO_CLIENT: char := 'F'

  /** The letter for the key of the direction this process reads. */
  function ReadLetter(role: Role): (c: char)
    ensures role == Client ==> c == SERVER_TO_CLIENT
    ensures role == Server ==> c == CLIENT_TO_SERVER
  {
    if role == Client then 'F' else 'E'
  }

  /** The letter for the key of the direction this process writes. */
  function WriteLetter(role: Role): (c: char)
    ensures role == Client ==> c == CLIENT_TO_SERVER
    ensures role == Server ==> c == SERVER_TO_CLIENT
  {
    if role == Client then 'E' else 'F'
  }

  /**
   * The two ends agree: what one end writes with, the other reads with, and
   * the two directions of one end never share a letter.
   */
  lemma LettersAgree(role: Role, peer: Role)
    requires role != peer
    ensures ReadLetter(role) == WriteLetter(peer)
    ensures WriteLetter(role) == ReadLetter(peer)
    ensures ReadLetter(role) != WriteLetter(role)
  {
  }

  /** The direction letter as the single byte fed to the hash. */
  function LetterByte(c: char): (b: int)
    requires c == CLIENT_TO_SERVER || c == SERVER_TO_CLIENT
    ensures 0 <= b < 0x100 && b == c as int
  {
    c as int
  }

  /**
   * The effective MAC key length (`key_len`) recorded once the key is derived:
   * the digest size for HMAC, the digest block size for UMAC, forced to 16
   * when the peer lacks the MAC_LEN interop feature. `current` is the value
   * the slot held before (kept for a slot of no known type).
   */
  function EffectiveKeyLen(t: AlgoType, d: Digest, supportsMacLen: bool, current: nat): (n: nat)
    ensures !supportsMacLen ==> n == LEGACY_KEY_LEN
    ensures supportsMacLen && t == Hmac ==> n == d.size
    ensures supportsMacLen && (t == Umac64 || t == Umac128) ==> n == d.blockSize
    ensures supportsMacLen && t == Unset ==> n == current
  {
    var n := match t
      case Hmac => d.size
      case Umac64 => d.blockSize
      case Umac128 => d.blockSize
      case Unset => current;
    if !supportsMacLen then LEGACY_KEY_LEN else n
  }

  /** Why an operation of the MAC layer returned -1. */
  datatype MacError =
    | UnknownAlgorithm   // no digest for the algorithm name
    | KeyLengthUnknown   // key size 0 for an algorithm other than "none"
    | DigestFailed       // an EVP_Digest* call failed during key derivation
    | InitFailed         // HMAC_Init_ex failed while keying the context
    | PrimitiveFailed    // an HMAC call failed while computing a MAC
    | ComputeFailed      // the computed MAC had length 0
    | MacMismatch        // the received MAC differs from the computed one

  /** Whether a MAC is being checked (read) or attached (write). */
  datatype Direction = Read | Write
}
