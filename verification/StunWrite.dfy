/** The byte string stun_write produces for a message. */
module StunWrite {
  import opened Addr
  import opened Basics
  import opened StunBytes
  import opened StunMessage

  datatype Attr = Attr(kind: uint16, value: Bytes)

  /** stun_write_attr: the value is padded with zeros to a multiple of four. */
  function AttrBytes(a: Attr): (b: Bytes)
    ensures |b| == ATTR_SIZE + Align(|a.value|)
  {
    U16(a.kind) + U16(|a.value| % 0x1_0000) + a.value + Zeros(Align(|a.value|) - |a.value|)
  }

  function AllBytes(attrs: seq<Attr>): Bytes {
    if attrs == [] then [] else AttrBytes(attrs[0]) + AllBytes(attrs[1..])
  }

  lemma {:induction false} AllBytesAppend(a: seq<Attr>, b: seq<Attr>)
    ensures AllBytes(a + b) == AllBytes(a) + AllBytes(b)
  {
    hide AttrBytes;
    if a == [] {
      assert a + b == b;
    } else {
      AllBytesAppend(a[1..], b);
      assert (a + b)[0] == a[0] && (a + b)[1..] == a[1..] + b;
      Regroup(AttrBytes(a[0]), AllBytes(a[1..]), AllBytes(b));
    }
  }

  lemma Regroup(x: Bytes, y: Bytes, z: Bytes)
    ensures x + (y + z) == x + y + z
  {
  }

  lemma AllBytesOne(a: Attr)
    ensures AllBytes([a]) == AttrBytes(a)
  {
  }

  /** stun_write_header followed by stun_update_header_length. */
  function Header(h: Head, length: nat): (b: Bytes)
    requires h.cls + h.verb < 0x1_0000 && |h.tid| == TID_SIZE
    ensures |b| == HEADER_SIZE
  {
    U16(h.cls + h.verb) + U16(length % 0x1_0000) + U32(MAGIC) + h.tid
  }

  // ---------- the attributes of a message, in the order they are written ----------

  function Optional(present: bool, kind: uint16, value: Bytes): seq<Attr> {
    if present then [Attr(kind, value)] else []
  }

  function ErrorPart(c: Crypto, code: nat): seq<Attr> {
    Optional(code != 0, ERROR_CODE, [0, 0, code / 100 % 8, code % 100] + c.reason(code))
  }

  /** stun_write_value_mapped_address. */
  function HostValue(h: Host, mask: Bytes): Bytes
    requires |mask| == 16
  {
    if h.Inet? then [0, 1] + Masked(U16(h.port), mask) + Masked(h.ip, mask)
    else [0, 2] + Masked(U16(h.port6), mask) + Masked(h.ip6, mask)
  }

  function HostPart(h: Option<Host>, kind: uint16, tid: Bytes): seq<Attr>
    requires |tid| == TID_SIZE
  {
    if h.Some? then [Attr(kind, HostValue(h.value, Mask(tid)))] else []
  }

  function PeersPart(peers: seq<Host>, tid: Bytes): seq<Attr>
    requires |tid| == TID_SIZE
  {
    if peers == [] then []
    else [Attr(XOR_PEER_ADDRESS, HostValue(peers[0], Mask(tid)))] + PeersPart(peers[1..], tid)
  }

  function IcePart(i: Ice): seq<Attr> {
    Optional(i.priority != 0, PRIORITY, U32(i.priority))
    + Optional(i.useCandidate, USE_CANDIDATE, [])
    + Optional(i.controlling != 0, ICE_CONTROLLING, U64(i.controlling))
    + Optional(i.controlled != 0, ICE_CONTROLLED, U64(i.controlled))
  }

  function ChannelPart(t: Turn): seq<Attr> {
    Optional(t.channel != 0, CHANNEL_NUMBER, U16(t.channel) + [0, 0])
    + Optional(t.lifetimeSet || t.lifetime != 0, LIFETIME, U32(t.lifetime))
  }

  function DataPart(t: Turn): seq<Attr> {
    Optional(t.data.Some?, DATA, if t.data.Some? then t.data.value else [])
  }

  /** Written under the type of a channel number. */
  function EvenPortPart(t: Turn): seq<Attr> {
    Optional(t.evenPort, CHANNEL_NUMBER, [if t.nextPort then 0x80 else 0])
  }

  function RelayPart(t: Turn): seq<Attr> {
    Optional(t.requestedTransport, REQUESTED_TRANSPORT, [17, 0, 0, 0])
    + Optional(t.dontFragment, DONT_FRAGMENT, [])
    + Optional(t.reservation != 0, RESERVATION_TOKEN, U64(t.reservation))
  }

  const LIBJUICE: Bytes := [108, 105, 98, 106, 117, 105, 99, 101]

  function UserPart(m: Message): seq<Attr> {
    if m.head.cls != CLASS_REQUEST then []
    else if m.credentials.enableUserhash then [Attr(USERHASH, m.credentials.userhash)]
    else Optional(m.credentials.username != [], USERNAME, m.credentials.username)
  }

  /** Long-term credentials go with requests, and with the two errors that ask for them. */
  predicate SendsLongTerm(m: Message) {
    m.head.cls == CLASS_REQUEST || (m.head.cls == CLASS_ERROR && (m.errorCode == 401 || m.errorCode == 438))
  }

  /** The list of password algorithms that goes with a nonce: the one received, or in a response our own. */
  function SentList(m: Message): Option<Bytes> {
    if !SendsLongTerm(m) || m.credentials.nonce == [] then None
    else if m.credentials.algorithm > 0 then Some(m.credentials.algorithms)
    else if m.head.cls != CLASS_REQUEST then Some(OUR_ALGORITHMS)
    else None
  }

  function ListPart(m: Message): seq<Attr> {
    if SentList(m).Some? then [Attr(PASSWORD_ALGORITHMS, SentList(m).value)] else []
  }

  /** The algorithm chosen from the list. */
  function ChoicePart(c: Crypto, m: Message): seq<Attr> {
    Optional(m.head.cls == CLASS_REQUEST && m.credentials.nonce != [] && m.credentials.algorithm != ALGORITHM_UNSET,
             PASSWORD_ALGORITHM, U16(m.credentials.algorithm % 0x1_0000) + U16(c.unset))
  }

  function LongTermPart(c: Crypto, m: Message): seq<Attr> {
    Optional(SendsLongTerm(m) && m.credentials.realm != [], REALM, m.credentials.realm)
    + Optional(SendsLongTerm(m) && m.credentials.nonce != [], NONCE, m.credentials.nonce)
    + ListPart(m)
    + ChoicePart(c, m)
  }

  function Early(c: Crypto, m: Message): seq<Attr>
    requires |m.head.tid| == TID_SIZE
  {
    ErrorPart(c, m.errorCode)
    + HostPart(m.hosts.mapped, XOR_MAPPED_ADDRESS, m.head.tid)
    + IcePart(m.ice)
    + ChannelPart(m.turn)
    + PeersPart(m.hosts.peers, m.head.tid)
    + HostPart(m.hosts.relayed, XOR_RELAYED_ADDRESS, m.head.tid)
    + DataPart(m.turn)
  }

  function Late(c: Crypto, m: Message): seq<Attr> {
    RelayPart(m.turn) + [Attr(SOFTWARE, LIBJUICE)] + UserPart(m) + LongTermPart(c, m)
  }

  function Body(c: Crypto, m: Message): seq<Attr>
    requires |m.head.tid| == TID_SIZE
  {
    Early(c, m) + EvenPortPart(m.turn) + Late(c, m)
  }

  // ---------- integrity and fingerprint ----------

  /** What the message can be written as: its type in sixteen bits, and the class in its own bits. */
  predicate Writable(m: Message) {
    && m.head.cls in {CLASS_REQUEST, CLASS_INDICATION, CLASS_SUCCESS, CLASS_ERROR}
    && m.head.verb < 0x1_0000 && ClassOf(m.head.verb) == 0
    && |m.head.tid| == TID_SIZE
    && m.head.cls + m.head.verb < 0x1_0000
  }

  /** The message so far, under the length it will have with an attribute of the given value size. */
  function Prefix(m: Message, attrs: seq<Attr>, size: nat): Bytes
    requires Writable(m)
  {
    Header(m.head, |AllBytes(attrs)| + ATTR_SIZE + size) + AllBytes(attrs)
  }

  function Sha1Part(c: Crypto, m: Message, key: Bytes, attrs: seq<Attr>): Attr
    requires Writable(m)
  {
    Attr(MESSAGE_INTEGRITY, c.hmacSha1(key, Prefix(m, attrs, SHA1_SIZE)))
  }

  function Sha256Part(c: Crypto, m: Message, key: Bytes, attrs: seq<Attr>): Attr
    requires Writable(m)
  {
    Attr(MESSAGE_INTEGRITY_SHA256, c.hmacSha256(key, Prefix(m, attrs, SHA256_SIZE)))
  }

  /** Integrity is added to all but indications, with SHA-256 as well if a password algorithm is set. */
  function Signed(c: Crypto, m: Message, password: Option<Bytes>, attrs: seq<Attr>): seq<Attr>
    requires Writable(m)
  {
    if m.head.cls == CLASS_INDICATION || password.None? then attrs
    else
      var key := HmacKey(c, m.credentials, password.value);
      var once := attrs + [Sha1Part(c, m, key, attrs)];
      if m.credentials.algorithm == ALGORITHM_UNSET then once
      else once + [Sha256Part(c, m, key, once)]
  }

  function FingerprintPart(c: Crypto, m: Message, attrs: seq<Attr>): Attr
    requires Writable(m)
  {
    Attr(FINGERPRINT, U32(Xor32(c.crc32(Prefix(m, attrs, 4)), FINGERPRINT_XOR)))
  }

  function Written(c: Crypto, m: Message, password: Option<Bytes>): seq<Attr>
    requires Writable(m)
  {
    var attrs := Signed(c, m, password, Body(c, m));
    attrs + [FingerprintPart(c, m, attrs)]
  }

  /** stun_write. */
  function Encode(c: Crypto, m: Message, password: Option<Bytes>): Bytes
    requires Writable(m)
  {
    var attrs := Written(c, m, password);
    Header(m.head, |AllBytes(attrs)|) + AllBytes(attrs)
  }
}
