/** A STUN message as src/stun.h declares it, and the constants of its wire format (sections 5 and 14 of
    RFC 8489). */
module StunMessage {
  import opened Addr
  import opened Basics
  import opened StunBytes

  const MAGIC := 0x2112A442
  const FINGERPRINT_XOR := 0x5354554E
  const HEADER_SIZE := 20
  const ATTR_SIZE := 4
  const TID_SIZE := 12
  const SHA1_SIZE := 20
  const SHA256_SIZE := 32

  const CLASS_REQUEST := 0x0000
  const CLASS_INDICATION := 0x0010
  const CLASS_SUCCESS := 0x0100
  const CLASS_ERROR := 0x0110

  const MAPPED_ADDRESS := 0x0001
  const USERNAME := 0x0006
  const MESSAGE_INTEGRITY := 0x0008
  const ERROR_CODE := 0x0009
  const CHANNEL_NUMBER := 0x000C
  const LIFETIME := 0x000D
  const XOR_PEER_ADDRESS := 0x0012
  const DATA := 0x0013
  const REALM := 0x0014
  const NONCE := 0x0015
  const XOR_RELAYED_ADDRESS := 0x0016
  const EVEN_PORT := 0x0018
  const REQUESTED_TRANSPORT := 0x0019
  const DONT_FRAGMENT := 0x001A
  const MESSAGE_INTEGRITY_SHA256 := 0x001C
  const PASSWORD_ALGORITHM := 0x001D
  const USERHASH := 0x001E
  const XOR_MAPPED_ADDRESS := 0x0020
  const RESERVATION_TOKEN := 0x0022
  const PRIORITY := 0x0024
  const USE_CANDIDATE := 0x0025
  const PASSWORD_ALGORITHMS := 0x8002
  const SOFTWARE := 0x8022
  const ALTERNATE_SERVER := 0x8023
  const FINGERPRINT := 0x8028
  const ICE_CONTROLLED := 0x8029
  const ICE_CONTROLLING := 0x802A

  const MAX_USERNAME := 513
  const MAX_REALM := 763
  const MAX_PASSWORD := 513
  const MAX_PEERS := 8
  const MAX_ALGORITHMS := 256
  const MAX_KEY_INPUT := 1793

  const ALGORITHM_UNSET := 0
  const ALGORITHM_MD5 := 1
  const ALGORITHM_SHA256 := 2
  const VALIDATION_FAILED := 599

  /** generate_password_algorithms_attr. */
  const OUR_ALGORITHMS: Bytes := U16(ALGORITHM_SHA256) + U16(0) + U16(ALGORITHM_MD5) + U16(0)

  /** An address of a family that goes on the wire. */
  type Host = a: Address | a.Valid() && !a.OtherFamily? witness Inet([0, 0, 0, 0], 0)

  datatype Credentials = Credentials(
    username: Bytes,
    realm: Bytes,
    nonce: Bytes,
    userhash: Bytes,
    enableUserhash: bool,
    algorithm: nat,
    algorithms: Bytes)

  /** What every message has: its class and method, and its transaction id. */
  datatype Head = Head(cls: nat, verb: nat, tid: Bytes)

  /** The attributes of connectivity checks. */
  datatype Ice = Ice(priority: uint32, controlling: uint64, controlled: uint64, useCandidate: bool)

  datatype Hosts = Hosts(mapped: Option<Host>, peers: seq<Host>, relayed: Option<Host>, alternate: Option<Host>)

  /** The attributes of relaying. */
  datatype Turn = Turn(
    data: Option<Bytes>,
    lifetime: uint32,
    lifetimeSet: bool,
    channel: uint16,
    evenPort: bool,
    nextPort: bool,
    dontFragment: bool,
    requestedTransport: bool,
    reservation: uint64)

  datatype Message = Message(
    head: Head,
    errorCode: nat,
    ice: Ice,
    hosts: Hosts,
    turn: Turn,
    credentials: Credentials,
    hasIntegrity: bool,
    hasFingerprint: bool)

  const NO_ICE := Ice(0, 0, 0, false)
  const NO_HOSTS := Hosts(None, [], None, None)
  const NO_TURN := Turn(None, 0, false, 0, false, false, false, false, 0)
  const NO_CREDENTIALS := Credentials([], [], [], Zeros(SHA256_SIZE), false, ALGORITHM_UNSET, [])

  /** A cleared message, before any attribute is read into it. */
  function Blank(head: Head): Message {
    Message(head, 0, NO_ICE, NO_HOSTS, NO_TURN, NO_CREDENTIALS, false, false)
  }

  type Digest20 = d: Bytes | |d| == SHA1_SIZE witness Zeros(SHA1_SIZE)
  type Digest32 = d: Bytes | |d| == SHA256_SIZE witness Zeros(SHA256_SIZE)

  /** The functions the codec calls, any at all: keyed hashes (key, then data), plain hashes, the checksum,
      the security feature bits that the four characters after a nonce cookie decode to, the reason phrase
      of an error code, and the two bytes that are left unset after the chosen password algorithm. */
  datatype Crypto = Crypto(
    hmacSha1: (Bytes, Bytes) -> Digest20,
    hmacSha256: (Bytes, Bytes) -> Digest32,
    md5: Bytes -> Bytes,
    sha256: Bytes -> Digest32,
    crc32: Bytes -> uint32,
    decode: Bytes -> Option<uint32>,
    reason: nat -> Bytes,
    unset: uint16)

  predicate IsResponse(cls: nat) {
    cls / 0x100 % 2 == 1
  }

  /** The two class bits of a message type. */
  function ClassOf(kind: uint16): nat {
    kind / 0x100 % 2 * 0x100 + kind / 0x10 % 2 * 0x10
  }

  /** generate_mask: the magic number and the transaction id. */
  function Mask(tid: Bytes): (mask: Bytes)
    requires |tid| == TID_SIZE
    ensures |mask| == 16
  {
    U32(MAGIC) + tid
  }

  function Truncated(b: Bytes, n: nat): Bytes {
    if |b| > n then b[..n] else b
  }

  /** generate_hmac_key: long-term credentials are those with a realm. */
  function HmacKey(c: Crypto, cr: Credentials, password: Bytes): Bytes {
    if cr.realm != [] then
      var input := Truncated(cr.username + [58] + cr.realm + [58] + password, MAX_KEY_INPUT);
      if cr.algorithm == ALGORITHM_SHA256 then c.sha256(input) else c.md5(input)
    else
      Truncated(password, MAX_PASSWORD)
  }
}
