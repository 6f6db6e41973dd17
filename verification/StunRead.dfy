/** What stun_read and stun_check_integrity compute from a byte string. */
module StunRead {
  import opened Addr
  import opened Basics
  import opened StunBytes
  import opened StunMessage

  /** The message so far and the security bits of its nonce. */
  datatype State = State(msg: Message, bits: uint32)

  // ---------- attribute values ----------

  datatype Parsed = Malformed | Unknown | Known(host: Host)

  /** stun_read_value_mapped_address. */
  function ReadAddress(v: Bytes, mask: Bytes): Parsed
    requires |mask| == 16
  {
    if |v| < 4 then Malformed
    else
      var port := FromU16(Masked(v[2..4], mask));
      if v[1] == 1 then
        if |v| < 8 then Malformed else Known(Inet(Masked(v[4..8], mask), port))
      else if v[1] == 2 then
        if |v| < 20 then Malformed else Known(Inet6(Masked(v[4..20], mask), port))
      else Unknown
  }

  function OrKeep(p: Parsed, before: Option<Host>): Option<Host> {
    if p.Known? then Some(p.host) else before
  }

  /** Up to the first zero byte, as a string in a char array is read back. */
  function CString(b: Bytes): Bytes {
    if b == [] || b[0] == 0 then [] else [b[0]] + CString(b[1..])
  }

  const COOKIE: Bytes := [111, 98, 77, 97, 116, 74, 111, 115, 50]

  function NonceBits(c: Crypto, cls: nat, bits: uint32, nonce: Bytes): uint32 {
    if IsResponse(cls) && |nonce| > |COOKIE| + 4 && nonce[..|COOKIE|] == COOKIE then
      var decoded := c.decode(nonce[|COOKIE|..|COOKIE| + 4]);
      if decoded.Some? then decoded.value else bits
    else bits
  }

  /** The first known algorithm of the list, none, or a list that is cut short. */
  function FirstAlgorithm(v: Bytes): Option<nat>
    decreases |v|
  {
    if v == [] then Some(ALGORITHM_UNSET)
    else if |v| < 4 || |v| - 4 < Align(FromU16(v[2..])) then None
    else if FromU16(v) == ALGORITHM_MD5 || FromU16(v) == ALGORITHM_SHA256 then Some(FromU16(v))
    else FirstAlgorithm(v[4 + Align(FromU16(v[2..]))..])
  }

  function WithAlgorithms(cls: nat, cr: Credentials, v: Bytes): Option<Credentials> {
    if IsResponse(cls) then Some(cr.(algorithms := v))
    else
      var first := FirstAlgorithm(v);
      if first.None? then None
      else if first.value == ALGORITHM_UNSET then Some(cr.(algorithms := v))
      else Some(cr.(algorithms := v, algorithm := first.value))
  }

  /** Attributes about addresses. */
  function ApplyHost(tid: Bytes, h: Hosts, kind: uint16, v: Bytes): Option<Hosts>
    requires |tid| == TID_SIZE
  {
    var plain := ReadAddress(v, Zeros(16));
    var xored := ReadAddress(v, Mask(tid));
    if kind == MAPPED_ADDRESS then
      if plain.Malformed? then None else Some(h.(mapped := OrKeep(plain, h.mapped)))
    else if kind == XOR_MAPPED_ADDRESS then
      if xored.Malformed? then None else Some(h.(mapped := OrKeep(xored, h.mapped)))
    else if kind == ALTERNATE_SERVER then
      if plain.Malformed? then None else Some(h.(alternate := OrKeep(plain, h.alternate)))
    else if kind == XOR_RELAYED_ADDRESS then
      if xored.Malformed? then None else Some(h.(relayed := OrKeep(xored, h.relayed)))
    else
      if |h.peers| >= MAX_PEERS then Some(h)
      else if xored.Malformed? then None
      else if xored.Known? then Some(h.(peers := h.peers + [xored.host])) else Some(h)
  }

  predicate IsHost(kind: uint16) {
    kind in {MAPPED_ADDRESS, XOR_MAPPED_ADDRESS, ALTERNATE_SERVER, XOR_RELAYED_ADDRESS, XOR_PEER_ADDRESS}
  }

  /** Attributes about credentials. */
  function ApplyCredential(cls: nat, cr: Credentials, kind: uint16, v: Bytes): Option<Credentials> {
    if kind == USERNAME then
      if |v| > MAX_USERNAME then None else Some(cr.(username := CString(v)))
    else if kind == REALM then
      if |v| > MAX_REALM then None else Some(cr.(realm := CString(v)))
    else if kind == NONCE then
      if |v| > MAX_REALM then None else Some(cr.(nonce := CString(v)))
    else if kind == PASSWORD_ALGORITHM then
      if |v| < 4 then None
      else if !IsResponse(cls) && (FromU16(v) == ALGORITHM_MD5 || FromU16(v) == ALGORITHM_SHA256) then
        Some(cr.(algorithm := FromU16(v)))
      else Some(cr)
    else if kind == PASSWORD_ALGORITHMS then
      if |v| < 4 || |v| > MAX_ALGORITHMS then None else WithAlgorithms(cls, cr, v)
    else
      if |v| != SHA256_SIZE then None else Some(cr.(userhash := v, enableUserhash := true))
  }

  predicate IsCredential(kind: uint16) {
    kind in {USERNAME, REALM, NONCE, PASSWORD_ALGORITHM, PASSWORD_ALGORITHMS, USERHASH}
  }

  /** Attributes of connectivity checks. */
  function ApplyIce(i: Ice, kind: uint16, v: Bytes): Option<Ice> {
    if kind == PRIORITY then
      if |v| != 4 then None else Some(i.(priority := FromU32(v)))
    else if kind == USE_CANDIDATE then
      Some(i.(useCandidate := true))
    else if kind == ICE_CONTROLLING then
      if |v| != 8 then None else Some(i.(controlling := FromU64(v)))
    else
      if |v| != 8 then None else Some(i.(controlled := FromU64(v)))
  }

  predicate IsIce(kind: uint16) {
    kind in {PRIORITY, USE_CANDIDATE, ICE_CONTROLLING, ICE_CONTROLLED}
  }

  /** Attributes of relaying. */
  function ApplyTurn(t: Turn, kind: uint16, v: Bytes): Option<Turn> {
    if kind == CHANNEL_NUMBER then
      if |v| < 4 then None else Some(t.(channel := FromU16(v)))
    else if kind == LIFETIME then
      if |v| != 4 then None else Some(t.(lifetime := FromU32(v), lifetimeSet := true))
    else if kind == DATA then
      Some(t.(data := Some(v)))
    else if kind == EVEN_PORT then
      if |v| < 1 then None else Some(t.(evenPort := true, nextPort := v[0] >= 0x80))
    else if kind == REQUESTED_TRANSPORT then
      if |v| < 4 || v[0] != 17 then None else Some(t.(requestedTransport := true))
    else if kind == DONT_FRAGMENT then
      Some(t.(dontFragment := true))
    else
      if |v| != 8 then None else Some(t.(reservation := FromU64(v)))
  }

  predicate IsTurn(kind: uint16) {
    kind in {CHANNEL_NUMBER, LIFETIME, DATA, EVEN_PORT, REQUESTED_TRANSPORT, DONT_FRAGMENT, RESERVATION_TOKEN}
  }

  /** The effect of an attribute other than the fingerprint. */
  function Apply(c: Crypto, st: State, kind: uint16, v: Bytes): Option<State>
    requires |st.msg.head.tid| == TID_SIZE
  {
    var m := st.msg;
    if IsHost(kind) then
      var h := ApplyHost(m.head.tid, m.hosts, kind, v);
      if h.None? then None else Some(st.(msg := m.(hosts := h.value)))
    else if IsCredential(kind) then
      var cr := ApplyCredential(m.head.cls, m.credentials, kind, v);
      if cr.None? then None
      else Some(State(m.(credentials := cr.value),
                      if kind == NONCE then NonceBits(c, m.head.cls, st.bits, cr.value.nonce) else st.bits))
    else if IsIce(kind) then
      var i := ApplyIce(m.ice, kind, v);
      if i.None? then None else Some(st.(msg := m.(ice := i.value)))
    else if IsTurn(kind) then
      var t := ApplyTurn(m.turn, kind, v);
      if t.None? then None else Some(st.(msg := m.(turn := t.value)))
    else if kind == ERROR_CODE then
      if |v| < 4 then None
      else Some(st.(msg := m.(errorCode := (v[2] as int) % 8 * 100 + v[3] as int)))
    else if IsIntegrity(kind) then
      if |v| != DigestSize(kind) then None else Some(st.(msg := m.(hasIntegrity := true)))
    else if kind == SOFTWARE then
      if |v| > MAX_REALM then None else Some(st)
    else
      Some(st)
  }

  predicate IsIntegrity(kind: uint16) {
    kind == MESSAGE_INTEGRITY || kind == MESSAGE_INTEGRITY_SHA256
  }

  function DigestSize(kind: uint16): nat {
    if kind == MESSAGE_INTEGRITY then SHA1_SIZE else SHA256_SIZE
  }

  // ---------- attributes in a buffer ----------

  function Kind(b: Bytes, pos: nat): uint16
    requires pos + ATTR_SIZE <= |b|
  {
    FromU16(b[pos..pos + 2])
  }

  function Length(b: Bytes, pos: nat): uint16
    requires pos + ATTR_SIZE <= |b|
  {
    FromU16(b[pos + 2..pos + 4])
  }

  function Value(b: Bytes, pos: nat): Bytes
    requires pos + ATTR_SIZE <= |b| && pos + ATTR_SIZE + Length(b, pos) <= |b|
  {
    b[pos + ATTR_SIZE..pos + ATTR_SIZE + Length(b, pos)]
  }

  function Next(b: Bytes, pos: nat): (next: nat)
    requires pos + ATTR_SIZE <= |b|
    ensures next >= pos + ATTR_SIZE
  {
    pos + ATTR_SIZE + Align(Length(b, pos))
  }

  /** stun_update_header_length. */
  function Patched(b: Bytes, length: nat): (r: Bytes)
    requires |b| >= HEADER_SIZE
    ensures |r| == |b|
  {
    b[..2] + U16(length % 0x1_0000) + b[4..]
  }

  function MessageLength(b: Bytes): uint16
    requires |b| >= HEADER_SIZE
  {
    FromU16(b[2..4])
  }

  /** Everything before an attribute of the given value size, as it was when the attribute was computed. */
  function Before(b: Bytes, pos: nat, size: nat): Bytes
    requires HEADER_SIZE <= pos <= |b|
  {
    Patched(b, pos - HEADER_SIZE + ATTR_SIZE + size)[..pos]
  }

  predicate FingerprintOk(c: Crypto, b: Bytes, pos: nat)
    requires HEADER_SIZE <= pos && pos + ATTR_SIZE + 4 <= |b|
  {
    FromU32(b[pos + ATTR_SIZE..pos + ATTR_SIZE + 4]) == Xor32(c.crc32(Before(b, pos, 4)), FINGERPRINT_XOR)
  }

  predicate InBounds(b: Bytes, pos: nat, end: nat)
    requires end <= |b|
  {
    pos + ATTR_SIZE <= end && pos + ATTR_SIZE + Length(b, pos) <= end
  }

  /** stun_read_attr. */
  function ReadAttr(c: Crypto, b: Bytes, pos: nat, end: nat, st: State): Option<State>
    requires HEADER_SIZE <= pos && end <= |b| && |st.msg.head.tid| == TID_SIZE
  {
    if st.msg.hasFingerprint || !InBounds(b, pos, end) then None
    else if st.msg.hasIntegrity && Kind(b, pos) !in {MESSAGE_INTEGRITY, MESSAGE_INTEGRITY_SHA256, FINGERPRINT} then Some(st)
    else if Kind(b, pos) == FINGERPRINT then
      if Length(b, pos) != 4 || !FingerprintOk(c, b, pos) then None
      else Some(st.(msg := st.msg.(hasFingerprint := true)))
    else Apply(c, st, Kind(b, pos), Value(b, pos))
  }

  /** Only integrity attributes set the integrity flag, and they set nothing else. */
  lemma ApplyKeeps(c: Crypto, st: State, kind: uint16, v: Bytes)
    requires |st.msg.head.tid| == TID_SIZE
    ensures var r := Apply(c, st, kind, v);
            r.Some? ==>
              && r.value.msg.head == st.msg.head
              && r.value.msg.hasFingerprint == st.msg.hasFingerprint
              && r.value.msg.hasIntegrity == (st.msg.hasIntegrity || IsIntegrity(kind))
              && (IsIntegrity(kind) ==> r.value == st.(msg := st.msg.(hasIntegrity := true)) && |v| == DigestSize(kind))
  {
    hide ApplyHost, ApplyCredential, ApplyIce, ApplyTurn, NonceBits;
  }

  lemma ReadAttrKeeps(c: Crypto, b: Bytes, pos: nat, end: nat, st: State)
    requires HEADER_SIZE <= pos && end <= |b| && |st.msg.head.tid| == TID_SIZE
    ensures var r := ReadAttr(c, b, pos, end, st);
            r.Some? ==>
              && InBounds(b, pos, end) && r.value.msg.head == st.msg.head
              && !st.msg.hasFingerprint
              && r.value.msg.hasFingerprint == (Kind(b, pos) == FINGERPRINT)
              && r.value.msg.hasIntegrity == (st.msg.hasIntegrity || IsIntegrity(Kind(b, pos)))
              && (IsIntegrity(Kind(b, pos)) ==> Length(b, pos) == DigestSize(Kind(b, pos)))
              && (st.msg.hasIntegrity || IsIntegrity(Kind(b, pos)) ==>
                    r.value == st.(msg := st.msg.(hasIntegrity := true, hasFingerprint := r.value.msg.hasFingerprint)))
  {
    hide Apply, FingerprintOk;
    if InBounds(b, pos, end) {
      ApplyKeeps(c, st, Kind(b, pos), Value(b, pos));
    }
  }

  /** The loop of stun_read from one attribute on. */
  function ReadFrom(c: Crypto, b: Bytes, pos: nat, end: nat, st: State): Option<State>
    requires HEADER_SIZE <= pos && end <= |b| && |st.msg.head.tid| == TID_SIZE
    decreases end - pos
  {
    if pos >= end then Some(st)
    else
      var r := ReadAttr(c, b, pos, end, st);
      ReadAttrKeeps(c, b, pos, end, st);
      if r.None? then None else ReadFrom(c, b, Next(b, pos), end, r.value)
  }

  /** What stun_read makes of the error code after the last attribute: a mark of a message that fails
      validation. */
  function FinalCode(cls: nat, code: nat, cr: Credentials, bits: uint32): nat {
    if cls == CLASS_ERROR && (code == 401 || code == 438) && bits % 2 == 1 && cr.algorithms == [] then
      VALIDATION_FAILED
    else if IsResponse(cls) || (cr.algorithms == [] && cr.algorithm == ALGORITHM_UNSET) then code
    else if cr.algorithm == ALGORITHM_UNSET || cr.algorithms != OUR_ALGORITHMS then VALIDATION_FAILED
    else code
  }

  /** And of the credentials. */
  function FinalCredentials(cls: nat, cr: Credentials, bits: uint32): Credentials {
    var algorithm :=
      if !IsResponse(cls) && cr.algorithms == [] && cr.algorithm == ALGORITHM_UNSET then ALGORITHM_MD5 else cr.algorithm;
    cr.(algorithm := algorithm, enableUserhash := cr.enableUserhash || bits / 2 % 2 == 1)
  }

  function Finish(st: State): Message {
    var m := st.msg;
    m.(errorCode := FinalCode(m.head.cls, m.errorCode, m.credentials, st.bits),
       credentials := FinalCredentials(m.head.cls, m.credentials, st.bits))
  }

  predicate Framed(b: Bytes) {
    |b| >= HEADER_SIZE && |b| >= HEADER_SIZE + MessageLength(b)
  }

  function Start(b: Bytes): State
    requires |b| >= HEADER_SIZE
  {
    var kind := FromU16(b);
    State(Blank(Head(ClassOf(kind), kind - ClassOf(kind), b[8..HEADER_SIZE])), 0)
  }

  /** stun_read. */
  function Read(c: Crypto, b: Bytes): Option<Message> {
    if !Framed(b) then None
    else
      var st := ReadFrom(c, b, HEADER_SIZE, HEADER_SIZE + MessageLength(b), Start(b));
      if st.None? then None else Some(Finish(st.value))
  }

  // ---------- the integrity walk ----------

  /** The offsets of the attributes. */
  function Offsets(b: Bytes, pos: nat, end: nat): seq<nat>
    requires end <= |b|
    decreases end - pos
  {
    if pos >= end then [] else if pos + ATTR_SIZE > |b| then [pos] else [pos] + Offsets(b, Next(b, pos), end)
  }

  /** Every attribute lies within the message. */
  predicate WellFormed(b: Bytes, pos: nat, end: nat)
    requires end <= |b|
    decreases end - pos
  {
    pos < end ==> InBounds(b, pos, end) && WellFormed(b, Next(b, pos), end)
  }

  function Digest(c: Crypto, b: Bytes, pos: nat, kind: uint16, key: Bytes): Bytes
    requires HEADER_SIZE <= pos <= |b|
  {
    if kind == MESSAGE_INTEGRITY then c.hmacSha1(key, Before(b, pos, SHA1_SIZE))
    else c.hmacSha256(key, Before(b, pos, SHA256_SIZE))
  }

  /** The integrity attribute at the offset carries the keyed hash of all that precedes it. */
  predicate Genuine(c: Crypto, b: Bytes, pos: nat, key: Bytes)
    requires HEADER_SIZE <= pos && InBounds(b, pos, |b|)
  {
    Length(b, pos) == DigestSize(Kind(b, pos)) && Value(b, pos) == Digest(c, b, pos, Kind(b, pos), key)
  }

  /** The loop of stun_check_integrity from one attribute on. */
  predicate WalkFrom(c: Crypto, b: Bytes, pos: nat, end: nat, key: Bytes, success: bool)
    requires HEADER_SIZE <= pos && end <= |b| && WellFormed(b, pos, end)
    decreases end - pos
  {
    if pos >= end then success
    else if IsIntegrity(Kind(b, pos)) then
      Genuine(c, b, pos, key) && WalkFrom(c, b, Next(b, pos), end, key, true)
    else WalkFrom(c, b, Next(b, pos), end, key, success)
  }

  // ---------- discipline of the reader ----------

  /** After a successful read every attribute lies within the message, so the integrity walk, which goes
      through the same offsets, stays within it too. */
  lemma {:induction false} ReadIsWellFormed(c: Crypto, b: Bytes, pos: nat, end: nat, st: State)
    requires HEADER_SIZE <= pos && end <= |b| && |st.msg.head.tid| == TID_SIZE
    requires ReadFrom(c, b, pos, end, st).Some?
    ensures WellFormed(b, pos, end)
    decreases end - pos
  {
    hide ReadAttr;
    if pos < end {
      ReadAttrKeeps(c, b, pos, end, st);
      ReadIsWellFormed(c, b, Next(b, pos), end, ReadAttr(c, b, pos, end, st).value);
    }
  }

  /** Once an integrity attribute has been read nothing but the fingerprint flag changes. */
  lemma {:induction false} NothingAfterIntegrity(c: Crypto, b: Bytes, pos: nat, end: nat, st: State)
    requires HEADER_SIZE <= pos && end <= |b| && |st.msg.head.tid| == TID_SIZE && st.msg.hasIntegrity
    ensures var r := ReadFrom(c, b, pos, end, st);
            r.Some? ==> r.value == st.(msg := st.msg.(hasFingerprint := r.value.msg.hasFingerprint))
    decreases end - pos
  {
    hide ReadAttr;
    if pos < end {
      ReadAttrKeeps(c, b, pos, end, st);
      var r := ReadAttr(c, b, pos, end, st);
      if r.Some? {
        NothingAfterIntegrity(c, b, Next(b, pos), end, r.value);
      }
    }
  }

  predicate FingerprintIsLast(b: Bytes, pos: nat, end: nat)
    requires end <= |b| && WellFormed(b, pos, end)
    decreases end - pos
  {
    pos < end ==> (Kind(b, pos) == FINGERPRINT ==> Next(b, pos) >= end) && FingerprintIsLast(b, Next(b, pos), end)
  }

  /** Nothing follows an accepted fingerprint, and the flag says whether there was one. */
  lemma {:induction false} NothingAfterFingerprint(c: Crypto, b: Bytes, pos: nat, end: nat, st: State)
    requires HEADER_SIZE <= pos && end <= |b| && |st.msg.head.tid| == TID_SIZE
    requires ReadFrom(c, b, pos, end, st).Some?
    ensures WellFormed(b, pos, end) && FingerprintIsLast(b, pos, end)
    ensures st.msg.hasFingerprint ==> pos >= end
    ensures ReadFrom(c, b, pos, end, st).value.msg.hasFingerprint ==>
              st.msg.hasFingerprint || exists q :: q in Offsets(b, pos, end) && Fingerprints(c, b, q, end)
    decreases end - pos
  {
    hide ReadAttr, FingerprintOk;
    ReadIsWellFormed(c, b, pos, end, st);
    if pos < end {
      ReadAttrKeeps(c, b, pos, end, st);
      var r := ReadAttr(c, b, pos, end, st).value;
      NothingAfterFingerprint(c, b, Next(b, pos), end, r);
      FlagIsFingerprint(c, b, pos, end, st);
      assert pos in Offsets(b, pos, end);
      assert forall q :: q in Offsets(b, Next(b, pos), end) ==> q in Offsets(b, pos, end);
    }
  }

  /** The last attribute is a fingerprint that matches the checksum of what precedes it. */
  predicate Fingerprints(c: Crypto, b: Bytes, q: nat, end: nat)
    requires end <= |b|
  {
    && HEADER_SIZE <= q && InBounds(b, q, end) && Kind(b, q) == FINGERPRINT && Length(b, q) == 4
    && FingerprintOk(c, b, q) && Next(b, q) >= end
  }

  lemma FlagIsFingerprint(c: Crypto, b: Bytes, pos: nat, end: nat, st: State)
    requires HEADER_SIZE <= pos < end <= |b| && |st.msg.head.tid| == TID_SIZE
    requires ReadFrom(c, b, pos, end, st).Some?
    ensures InBounds(b, pos, end)
    ensures Kind(b, pos) == FINGERPRINT ==> Fingerprints(c, b, pos, end)
  {
    ReadAttrKeeps(c, b, pos, end, st);
    hide Apply, FingerprintOk, Patched;
    NothingReadAfter(c, b, Next(b, pos), end, ReadAttr(c, b, pos, end, st).value);
  }

  lemma NothingReadAfter(c: Crypto, b: Bytes, pos: nat, end: nat, st: State)
    requires HEADER_SIZE <= pos && end <= |b| && |st.msg.head.tid| == TID_SIZE
    ensures st.msg.hasFingerprint && pos < end ==> ReadFrom(c, b, pos, end, st).None?
  {
    hide Apply;
  }

  // ---------- what the parsed fields depend on ----------

  /** The offset is one of an attribute. */
  predicate Reaches(b: Bytes, pos: nat, target: nat)
    requires target <= |b|
    decreases target - pos
  {
    pos == target || (pos + ATTR_SIZE <= target && Reaches(b, Next(b, pos), target))
  }

  /** Reading up to an attribute. */
  function ReadTo(c: Crypto, b: Bytes, pos: nat, target: nat, end: nat, st: State): Option<State>
    requires HEADER_SIZE <= pos && target <= end <= |b| && |st.msg.head.tid| == TID_SIZE
    decreases target - pos
  {
    if pos >= target then Some(st)
    else
      var r := ReadAttr(c, b, pos, end, st);
      ReadAttrKeeps(c, b, pos, end, st);
      if r.None? then None else ReadTo(c, b, Next(b, pos), target, end, r.value)
  }

  lemma {:induction false} ReadInTwo(c: Crypto, b: Bytes, pos: nat, target: nat, end: nat, st: State)
    requires HEADER_SIZE <= pos && target <= end <= |b| && |st.msg.head.tid| == TID_SIZE && Reaches(b, pos, target)
    ensures var r := ReadTo(c, b, pos, target, end, st);
            && (r.Some? ==> |r.value.msg.head.tid| == TID_SIZE)
            && ReadFrom(c, b, pos, end, st) == if r.None? then None else ReadFrom(c, b, target, end, r.value)
    decreases target - pos
  {
    hide ReadAttr;
    if pos < target {
      ReadAttrKeeps(c, b, pos, end, st);
      var r := ReadAttr(c, b, pos, end, st);
      if r.Some? {
        ReadInTwo(c, b, Next(b, pos), target, end, r.value);
      }
    }
  }

  /** Equal before the offset, but for the length in the header. */
  predicate SameBefore(b: Bytes, d: Bytes, target: nat)
    requires HEADER_SIZE <= target <= |b| && target <= |d|
  {
    b[..2] == d[..2] && b[4..target] == d[4..target]
  }

  lemma SameAttr(c: Crypto, b: Bytes, d: Bytes, pos: nat, target: nat, endB: nat, endD: nat, st: State)
    requires HEADER_SIZE <= pos && pos + ATTR_SIZE <= target <= endB <= |b| && target <= endD <= |d| && |st.msg.head.tid| == TID_SIZE
    requires SameBefore(b, d, target) && Next(b, pos) <= target
    ensures Next(d, pos) == Next(b, pos)
    ensures ReadAttr(c, b, pos, endB, st) == ReadAttr(c, d, pos, endD, st)
  {
    hide Apply;
    SameBytes(b, d, pos, pos + 2, target);
    SameBytes(b, d, pos + 2, pos + 4, target);
    var len := Length(b, pos);
    assert pos + ATTR_SIZE + len <= target;
    SameBytes(b, d, pos + ATTR_SIZE, pos + ATTR_SIZE + len, target);
    if len == 4 {
      SameChecksum(b, d, pos, target);
    }
  }

  lemma SameBytes(b: Bytes, d: Bytes, from: nat, to: nat, target: nat)
    requires HEADER_SIZE <= target <= |b| && target <= |d| && SameBefore(b, d, target)
    requires 4 <= from <= to <= target
    ensures b[from..to] == d[from..to]
  {
    forall i | from <= i < to ensures b[i] == d[i] {
      assert b[i] == b[4..target][i - 4] && d[i] == d[4..target][i - 4];
    }
  }

  lemma SameChecksum(b: Bytes, d: Bytes, pos: nat, target: nat)
    requires HEADER_SIZE <= pos <= target <= |b| && target <= |d| && SameBefore(b, d, target)
    ensures Before(b, pos, 4) == Before(d, pos, 4)
  {
    SameBytes(b, d, 4, pos, target);
    var length := U16((pos - HEADER_SIZE + ATTR_SIZE + 4) % 0x1_0000);
    assert Before(b, pos, 4) == b[..2] + length + b[4..pos];
    assert Before(d, pos, 4) == d[..2] + length + d[4..pos];
  }

  lemma {:induction false} SameReadTo(c: Crypto, b: Bytes, d: Bytes, pos: nat, target: nat, endB: nat, endD: nat, st: State)
    requires HEADER_SIZE <= pos <= target <= endB <= |b| && target <= endD <= |d| && |st.msg.head.tid| == TID_SIZE
    requires SameBefore(b, d, target) && Reaches(b, pos, target)
    ensures Reaches(d, pos, target)
    ensures ReadTo(c, b, pos, target, endB, st) == ReadTo(c, d, pos, target, endD, st)
    decreases target - pos
  {
    hide ReadAttr, SameBefore;
    if pos < target {
      ReachesWithin(b, Next(b, pos), target);
      SameAttr(c, b, d, pos, target, endB, endD, st);
      ReadAttrKeeps(c, b, pos, endB, st);
      ReadAttrKeeps(c, d, pos, endD, st);
      var r := ReadAttr(c, b, pos, endB, st);
      SameReadTo(c, b, d, Next(b, pos), target, endB, endD, if r.Some? then r.value else st);
    }
  }

  lemma ReachesWithin(b: Bytes, pos: nat, target: nat)
    requires target <= |b| && Reaches(b, pos, target)
    ensures pos <= target
  {
  }

  predicate HasIntegrityAt(b: Bytes, target: nat) {
    && Framed(b)
    && HEADER_SIZE <= target < HEADER_SIZE + MessageLength(b)
    && Reaches(b, HEADER_SIZE, target)
    && InBounds(b, target, HEADER_SIZE + MessageLength(b))
    && IsIntegrity(Kind(b, target))
  }

  /** Two accepted messages that agree before an integrity attribute of both give the same fields, whatever
      follows. */
  lemma FieldsFromPrefix(c: Crypto, b: Bytes, d: Bytes, target: nat)
    requires HasIntegrityAt(b, target) && HasIntegrityAt(d, target) && SameBefore(b, d, target)
    requires Read(c, b).Some? && Read(c, d).Some?
    ensures Read(c, b).value.(hasFingerprint := false) == Read(c, d).value.(hasFingerprint := false)
    ensures Read(c, b).value.hasIntegrity
  {
    hide ReadTo, SameBefore, Reaches, Read;
    SameStart(b, d, target);
    SameReadTo(c, b, d, HEADER_SIZE, target, HEADER_SIZE + MessageLength(b), HEADER_SIZE + MessageLength(d), Start(b));
    ReadIsPrefix(c, b, target);
    ReadIsPrefix(c, d, target);
  }

  /** An accepted message with an integrity attribute is what was read up to there. */
  lemma ReadIsPrefix(c: Crypto, b: Bytes, target: nat)
    requires HasIntegrityAt(b, target) && Read(c, b).Some?
    ensures var at := ReadTo(c, b, HEADER_SIZE, target, HEADER_SIZE + MessageLength(b), Start(b));
            at.Some? && Read(c, b).value == Finish(at.value).(hasIntegrity := true, hasFingerprint := Read(c, b).value.hasFingerprint)
  {
    hide ReadTo, ReadFrom, Reaches, FinalCode, FinalCredentials;
    var end := HEADER_SIZE + MessageLength(b);
    ReadInTwo(c, b, HEADER_SIZE, target, end, Start(b));
    TailIsNothing(c, b, target, end, ReadTo(c, b, HEADER_SIZE, target, end, Start(b)).value);
  }

  lemma SameStart(b: Bytes, d: Bytes, target: nat)
    requires HEADER_SIZE <= target <= |b| && target <= |d| && SameBefore(b, d, target)
    ensures Start(b) == Start(d)
  {
    assert b[0] == b[..2][0] && b[1] == b[..2][1] && d[0] == d[..2][0] && d[1] == d[..2][1];
    SameBytes(b, d, 8, HEADER_SIZE, target);
  }

  lemma TailIsNothing(c: Crypto, b: Bytes, target: nat, end: nat, st: State)
    requires HEADER_SIZE <= target < end <= |b| && |st.msg.head.tid| == TID_SIZE
    requires InBounds(b, target, end) && IsIntegrity(Kind(b, target)) && ReadFrom(c, b, target, end, st).Some?
    ensures var r := ReadFrom(c, b, target, end, st);
            r.value == st.(msg := st.msg.(hasIntegrity := true, hasFingerprint := r.value.msg.hasFingerprint))
  {
    hide ReadAttr;
    ReadAttrKeeps(c, b, target, end, st);
    NothingAfterIntegrity(c, b, Next(b, target), end, ReadAttr(c, b, target, end, st).value);
  }

  lemma ReadAllowsWalk(c: Crypto, b: Bytes)
    requires Read(c, b).Some?
    ensures Framed(b) && WellFormed(b, HEADER_SIZE, HEADER_SIZE + MessageLength(b))
  {
    hide ReadFrom, Finish;
    ReadIsWellFormed(c, b, HEADER_SIZE, HEADER_SIZE + MessageLength(b), Start(b));
  }

  /** What stun_check_integrity answers for a message that was read. */
  predicate Authentic(c: Crypto, b: Bytes, msg: Message, password: Bytes)
    requires Read(c, b).Some?
  {
    ReadAllowsWalk(c, b);
    msg.hasIntegrity
    && WalkFrom(c, b, HEADER_SIZE, HEADER_SIZE + MessageLength(b), HmacKey(c, msg.credentials, password), false)
  }
}
