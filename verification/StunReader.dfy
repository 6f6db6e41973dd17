/** stun_read and stun_check_integrity as they run: over a buffer whose header length they overwrite for a
    checksum and put back. */
module StunReader {
  import opened Addr
  import opened Basics
  import opened StunBytes
  import opened StunMessage
  import opened StunRead

  lemma PatchBack(b: Bytes, length: nat)
    requires |b| >= HEADER_SIZE
    ensures Patched(Patched(b, length), MessageLength(b)) == b
  {
    assert b[2..4] == [b[2], b[3]];
  }

  /** stun_update_header_length. */
  method UpdateHeaderLength(buf: array<byte>, length: nat) returns (previous: uint16)
    requires buf.Length >= HEADER_SIZE
    modifies buf
    ensures buf[..] == Patched(old(buf[..]), length)
    ensures previous == MessageLength(old(buf[..]))
  {
    previous := FromU16(buf[2..4]);
    assert buf[..][2..4] == buf[2..4];
    var low := length % 0x1_0000;
    buf[2], buf[3] := low / 0x100, low % 0x100;
  }

  /** The checksum of what precedes the attribute, under the length the message had then. */
  method CheckFingerprint(c: Crypto, buf: array<byte>, pos: nat) returns (ok: bool)
    requires HEADER_SIZE <= pos && pos + ATTR_SIZE + 4 <= buf.Length
    modifies buf
    ensures buf[..] == old(buf[..])
    ensures ok == FingerprintOk(c, buf[..], pos)
  {
    ghost var b := buf[..];
    PatchBack(b, pos - HEADER_SIZE + ATTR_SIZE + 4);
    var previous := UpdateHeaderLength(buf, pos - HEADER_SIZE + ATTR_SIZE + 4);
    assert buf[..pos] == Before(b, pos, 4);
    var expected := Xor32(c.crc32(buf[..pos]), FINGERPRINT_XOR);
    var _ := UpdateHeaderLength(buf, previous);
    assert buf[pos + ATTR_SIZE..pos + ATTR_SIZE + 4] == b[pos + ATTR_SIZE..pos + ATTR_SIZE + 4];
    ok := FromU32(buf[pos + ATTR_SIZE..pos + ATTR_SIZE + 4]) == expected;
  }

  /** The keyed hash of what precedes the attribute. */
  method ComputeDigest(c: Crypto, buf: array<byte>, pos: nat, kind: uint16, key: Bytes) returns (digest: Bytes)
    requires HEADER_SIZE <= pos <= buf.Length && IsIntegrity(kind)
    modifies buf
    ensures buf[..] == old(buf[..])
    ensures digest == Digest(c, buf[..], pos, kind, key)
  {
    ghost var b := buf[..];
    PatchBack(b, pos - HEADER_SIZE + ATTR_SIZE + DigestSize(kind));
    var previous := UpdateHeaderLength(buf, pos - HEADER_SIZE + ATTR_SIZE + DigestSize(kind));
    assert buf[..pos] == Before(b, pos, DigestSize(kind));
    digest := if kind == MESSAGE_INTEGRITY then c.hmacSha1(key, buf[..pos]) else c.hmacSha256(key, buf[..pos]);
    var _ := UpdateHeaderLength(buf, previous);
  }

  method AttrAt(buf: array<byte>, pos: nat) returns (kind: uint16, length: uint16)
    requires pos + ATTR_SIZE <= buf.Length
    ensures kind == Kind(buf[..], pos) && length == Length(buf[..], pos)
  {
    assert buf[..][pos..pos + 2] == buf[pos..pos + 2];
    assert buf[..][pos + 2..pos + 4] == buf[pos + 2..pos + 4];
    kind, length := FromU16(buf[pos..pos + 2]), FromU16(buf[pos + 2..pos + 4]);
  }

  method CheckDigest(c: Crypto, buf: array<byte>, pos: nat, kind: uint16, length: uint16, key: Bytes) returns (ok: bool)
    requires HEADER_SIZE <= pos && InBounds(buf[..], pos, buf.Length)
    requires kind == Kind(buf[..], pos) && length == Length(buf[..], pos) && IsIntegrity(kind)
    modifies buf
    ensures buf[..] == old(buf[..])
    ensures ok == Genuine(c, buf[..], pos, key)
  {
    if length != DigestSize(kind) {
      return false;
    }
    var digest := ComputeDigest(c, buf, pos, kind, key);
    assert buf[pos + ATTR_SIZE..pos + ATTR_SIZE + length] == Value(buf[..], pos);
    return digest == buf[pos + ATTR_SIZE..pos + ATTR_SIZE + length];
  }

  /** stun_read_attr. */
  method ReadAttribute(c: Crypto, buf: array<byte>, pos: nat, end: nat, st: State) returns (r: Option<State>)
    requires HEADER_SIZE <= pos && end <= buf.Length && |st.msg.head.tid| == TID_SIZE
    modifies buf
    ensures buf[..] == old(buf[..])
    ensures r == ReadAttr(c, buf[..], pos, end, st)
  {
    hide Apply, FingerprintOk;
    if st.msg.hasFingerprint || pos + ATTR_SIZE > end {
      return None;
    }
    var kind, length := AttrAt(buf, pos);
    if pos + ATTR_SIZE + length > end {
      return None;
    }
    if st.msg.hasIntegrity && kind !in {MESSAGE_INTEGRITY, MESSAGE_INTEGRITY_SHA256, FINGERPRINT} {
      return Some(st);
    }
    if kind == FINGERPRINT {
      if length != 4 {
        return None;
      }
      var ok := CheckFingerprint(c, buf, pos);
      return if ok then Some(st.(msg := st.msg.(hasFingerprint := true))) else None;
    }
    assert buf[..][pos + ATTR_SIZE..pos + ATTR_SIZE + length] == buf[pos + ATTR_SIZE..pos + ATTR_SIZE + length];
    return Apply(c, st, kind, buf[pos + ATTR_SIZE..pos + ATTR_SIZE + length]);
  }

  /** stun_read: the message, and the offsets of the attributes visited. */
  method ReadMessage(c: Crypto, buf: array<byte>) returns (r: Option<Message>, ghost trace: seq<nat>)
    modifies buf
    ensures buf[..] == old(buf[..])
    ensures r == Read(c, buf[..])
    ensures r.Some? ==> trace == Offsets(buf[..], HEADER_SIZE, HEADER_SIZE + MessageLength(buf[..]))
  {
    hide ReadAttr, Finish, ReadFrom, Offsets, Length, Kind;
    ghost var b := buf[..];
    trace := [];
    if buf.Length < HEADER_SIZE {
      return None, [];
    }
    assert b[2..4] == buf[2..4];
    var end := HEADER_SIZE + FromU16(buf[2..4]);
    if buf.Length < end {
      return None, [];
    }
    assert b[8..HEADER_SIZE] == buf[8..HEADER_SIZE] && FromU16(b) == FromU16(buf[..2]);
    var kind := FromU16(buf[..2]);
    var st := State(Blank(Head(ClassOf(kind), kind - ClassOf(kind), buf[8..HEADER_SIZE])), 0);
    var pos := HEADER_SIZE;
    while pos < end
      invariant HEADER_SIZE <= pos && buf[..] == b && |st.msg.head.tid| == TID_SIZE
      invariant ReadFrom(c, b, HEADER_SIZE, end, Start(b)) == ReadFrom(c, b, pos, end, st)
      invariant trace + Offsets(b, pos, end) == Offsets(b, HEADER_SIZE, end)
      decreases end - pos
    {
      ReadStep(c, b, pos, end, st);
      var s := ReadAttribute(c, buf, pos, end, st);
      if s.None? {
        return None, trace;
      }
      var _, length := AttrAt(buf, pos);
      trace := trace + [pos];
      st := s.value;
      pos := pos + ATTR_SIZE + Align(length);
    }
    ReadEnd(c, b, pos, end, st);
    return Some(Finish(st)), trace;
  }

  lemma ReadStep(c: Crypto, b: Bytes, pos: nat, end: nat, st: State)
    requires HEADER_SIZE <= pos < end <= |b| && |st.msg.head.tid| == TID_SIZE
    ensures var r := ReadAttr(c, b, pos, end, st);
            && (r.None? ==> ReadFrom(c, b, pos, end, st).None?)
            && (r.Some? ==>
                  && pos + ATTR_SIZE <= |b| && |r.value.msg.head.tid| == TID_SIZE
                  && ReadFrom(c, b, pos, end, st) == ReadFrom(c, b, Next(b, pos), end, r.value)
                  && Offsets(b, pos, end) == [pos] + Offsets(b, Next(b, pos), end))
  {
    hide ReadAttr;
    ReadAttrKeeps(c, b, pos, end, st);
  }

  lemma ReadEnd(c: Crypto, b: Bytes, pos: nat, end: nat, st: State)
    requires HEADER_SIZE <= pos && end <= pos && end <= |b| && |st.msg.head.tid| == TID_SIZE
    ensures ReadFrom(c, b, pos, end, st) == Some(st) && Offsets(b, pos, end) == []
  {
  }

  /** The loop of stun_check_integrity. It goes through the same offsets as the reader unless it rejects on
      the way. */
  method Walk(c: Crypto, buf: array<byte>, end: nat, key: Bytes) returns (ok: bool, ghost trace: seq<nat>)
    requires HEADER_SIZE <= end <= buf.Length && WellFormed(buf[..], HEADER_SIZE, end)
    modifies buf
    ensures buf[..] == old(buf[..])
    ensures ok == WalkFrom(c, buf[..], HEADER_SIZE, end, key, false)
    ensures trace <= Offsets(buf[..], HEADER_SIZE, end)
    ensures ok ==> trace == Offsets(buf[..], HEADER_SIZE, end)
  {
    hide Genuine, WalkFrom, Offsets, WellFormed, Length, Kind;
    ghost var b := buf[..];
    trace := [];
    var success := false;
    var pos := HEADER_SIZE;
    while pos < end
      invariant HEADER_SIZE <= pos && buf[..] == b && WellFormed(b, pos, end)
      invariant WalkFrom(c, b, HEADER_SIZE, end, key, false) == WalkFrom(c, b, pos, end, key, success)
      invariant trace + Offsets(b, pos, end) == Offsets(b, HEADER_SIZE, end)
      decreases end - pos
    {
      WalkStep(c, b, pos, end, key, success);
      var kind, length := AttrAt(buf, pos);
      trace := trace + [pos];
      if IsIntegrity(kind) {
        var genuine := CheckDigest(c, buf, pos, kind, length, key);
        if !genuine {
          return false, trace;
        }
        success := true;
      }
      pos := pos + ATTR_SIZE + Align(length);
    }
    WalkEnd(c, b, pos, end, key, success);
    return success, trace;
  }

  lemma WalkStep(c: Crypto, b: Bytes, pos: nat, end: nat, key: Bytes, success: bool)
    requires HEADER_SIZE <= pos < end <= |b| && WellFormed(b, pos, end)
    ensures InBounds(b, pos, end) && InBounds(b, pos, |b|) && WellFormed(b, Next(b, pos), end)
    ensures Offsets(b, pos, end) == [pos] + Offsets(b, Next(b, pos), end)
    ensures WalkFrom(c, b, pos, end, key, success) ==
              if IsIntegrity(Kind(b, pos)) then Genuine(c, b, pos, key) && WalkFrom(c, b, Next(b, pos), end, key, true)
              else WalkFrom(c, b, Next(b, pos), end, key, success)
  {
    hide Genuine;
  }

  lemma WalkEnd(c: Crypto, b: Bytes, pos: nat, end: nat, key: Bytes, success: bool)
    requires HEADER_SIZE <= pos && end <= pos && end <= |b| && WellFormed(b, pos, end)
    ensures Offsets(b, pos, end) == []
    ensures WalkFrom(c, b, pos, end, key, success) == success
  {
  }

  /** stun_check_integrity, on a message that was read: it reads within the message and leaves the buffer as
      it was. */
  method CheckIntegrity(c: Crypto, buf: array<byte>, msg: Message, password: Bytes) returns (ok: bool, ghost trace: seq<nat>)
    requires Read(c, buf[..]).Some?
    modifies buf
    ensures buf[..] == old(buf[..])
    ensures ok == Authentic(c, buf[..], msg, password)
    ensures Framed(buf[..]) && trace <= Offsets(buf[..], HEADER_SIZE, HEADER_SIZE + MessageLength(buf[..]))
    ensures ok ==> trace == Offsets(buf[..], HEADER_SIZE, HEADER_SIZE + MessageLength(buf[..]))
  {
    hide WalkFrom, Offsets;
    ReadAllowsWalk(c, buf[..]);
    if !msg.hasIntegrity {
      return false, [];
    }
    assert buf[..][2..4] == buf[2..4];
    ok, trace := Walk(c, buf, HEADER_SIZE + FromU16(buf[2..4]), HmacKey(c, msg.credentials, password));
  }

  ghost predicate SomeIntegrity(b: Bytes, pos: nat, end: nat)
    requires end <= |b|
  {
    exists q :: q in Offsets(b, pos, end) && q + ATTR_SIZE <= |b| && IsIntegrity(Kind(b, q))
  }

  predicate GenuineAt(c: Crypto, b: Bytes, q: nat, key: Bytes) {
    HEADER_SIZE <= q && InBounds(b, q, |b|) && (IsIntegrity(Kind(b, q)) ==> Genuine(c, b, q, key))
  }

  /** The walk accepts exactly if there is an integrity attribute and all of them are genuine. */
  lemma {:induction false} WalkAcceptsGenuine(c: Crypto, b: Bytes, pos: nat, end: nat, key: Bytes, success: bool)
    requires HEADER_SIZE <= pos && end <= |b| && WellFormed(b, pos, end)
    ensures WalkFrom(c, b, pos, end, key, success) <==>
              && (success || SomeIntegrity(b, pos, end))
              && forall q :: q in Offsets(b, pos, end) ==> GenuineAt(c, b, q, key)
    decreases end - pos
  {
    hide Genuine;
    if pos < end {
      var now := IsIntegrity(Kind(b, pos));
      var rest := Offsets(b, Next(b, pos), end);
      WalkAcceptsGenuine(c, b, Next(b, pos), end, key, success || now);
      assert Offsets(b, pos, end) == [pos] + rest;
      assert pos in Offsets(b, pos, end);
      assert forall q :: q in Offsets(b, pos, end) <==> q == pos || q in rest;
      assert GenuineAt(c, b, pos, key) <==> (now ==> Genuine(c, b, pos, key));
      SomeIntegrityStep(b, pos, end);
    }
  }

  lemma SomeIntegrityStep(b: Bytes, pos: nat, end: nat)
    requires pos < end <= |b| && pos + ATTR_SIZE <= |b|
    ensures SomeIntegrity(b, pos, end) <==> IsIntegrity(Kind(b, pos)) || SomeIntegrity(b, Next(b, pos), end)
  {
    var rest := Offsets(b, Next(b, pos), end);
    assert Offsets(b, pos, end) == [pos] + rest;
    if IsIntegrity(Kind(b, pos)) {
      assert pos in Offsets(b, pos, end);
    } else if SomeIntegrity(b, Next(b, pos), end) {
      var q :| q in rest && q + ATTR_SIZE <= |b| && IsIntegrity(Kind(b, q));
      assert q in Offsets(b, pos, end);
    }
  }
}
