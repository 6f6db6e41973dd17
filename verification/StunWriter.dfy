/** stun_write as it runs: attributes appended to a buffer, whose header length is overwritten before each
    hash and once more at the end. */
module StunWriter {
  import opened Addr
  import opened Basics
  import opened StunBytes
  import opened StunMessage
  import opened StunRead
  import opened StunReader
  import opened StunWrite

  /** Nothing changes from an offset on. */
  predicate Untouched(before: Bytes, after: Bytes, pos: nat) {
    |before| == |after| && forall i :: pos <= i < |after| ==> after[i] == before[i]
  }

  /** stun_write_header. */
  method WriteHeader(buf: array<byte>, h: Head) returns (next: nat)
    requires buf.Length >= HEADER_SIZE && h.cls + h.verb < 0x1_0000 && |h.tid| == TID_SIZE
    modifies buf
    ensures next == HEADER_SIZE && buf[..next] == Header(h, 0) && Untouched(old(buf[..]), buf[..], next)
  {
    var kind := h.cls + h.verb;
    var magic := U32(MAGIC);
    buf[0], buf[1], buf[2], buf[3] := kind / 0x100, kind % 0x100, 0, 0;
    forall i | 4 <= i < 8 {
      buf[i] := magic[i - 4];
    }
    forall i | 8 <= i < HEADER_SIZE {
      buf[i] := h.tid[i - 8];
    }
    return HEADER_SIZE;
  }

  /** memcpy. */
  method Copy(buf: array<byte>, pos: nat, x: Bytes) returns (next: nat)
    requires pos + |x| <= buf.Length
    modifies buf
    ensures next == pos + |x| && buf[..next] == old(buf[..pos]) + x && Untouched(old(buf[..]), buf[..], next)
  {
    forall i | pos <= i < pos + |x| {
      buf[i] := x[i - pos];
    }
    next := pos + |x|;
  }

  /** Zeros up to the next multiple of four. */
  method Pad(buf: array<byte>, pos: nat, length: nat) returns (next: nat)
    requires pos + Align(length) - length <= buf.Length
    modifies buf
    ensures next == pos + Align(length) - length
    ensures buf[..next] == old(buf[..pos]) + Zeros(Align(length) - length) && Untouched(old(buf[..]), buf[..], next)
  {
    var n := length;
    next := pos;
    while n % 4 != 0
      invariant length <= n <= Align(length) && next == pos + n - length
      invariant buf[..next] == old(buf[..pos]) + Zeros(n - length) && Untouched(old(buf[..]), buf[..], next)
      decreases Align(length) - n
    {
      buf[next] := 0;
      n, next := n + 1, next + 1;
    }
  }

  /** stun_write_attr. */
  method WriteAttr(buf: array<byte>, pos: nat, a: Attr) returns (next: nat)
    requires pos + |AttrBytes(a)| <= buf.Length
    modifies buf
    ensures next == pos + |AttrBytes(a)|
    ensures buf[..next] == old(buf[..pos]) + AttrBytes(a) && Untouched(old(buf[..]), buf[..], next)
  {
    hide U16;
    next := Copy(buf, pos, U16(a.kind));
    next := Copy(buf, next, U16(|a.value| % 0x1_0000));
    next := Copy(buf, next, a.value);
    next := Pad(buf, next, |a.value|);
  }

  /** What has been written so far. */
  ghost predicate Holds(b: Bytes, pos: nat, h: Head, length: nat, attrs: seq<Attr>)
    requires h.cls + h.verb < 0x1_0000 && |h.tid| == TID_SIZE
  {
    pos <= |b| && b[..pos] == Header(h, length) + AllBytes(attrs)
  }

  method Append(buf: array<byte>, pos: nat, a: Attr, ghost h: Head, ghost length: nat, ghost attrs: seq<Attr>) returns (next: nat)
    requires h.cls + h.verb < 0x1_0000 && |h.tid| == TID_SIZE && Holds(buf[..], pos, h, length, attrs)
    requires pos + |AttrBytes(a)| <= buf.Length
    modifies buf
    ensures next == pos + |AttrBytes(a)| && Holds(buf[..], next, h, length, attrs + [a]) && Untouched(old(buf[..]), buf[..], next)
  {
    hide AttrBytes, AllBytes, Header;
    assert buf[..pos] == buf[..][..pos];
    next := WriteAttr(buf, pos, a);
    AllBytesAppend(attrs, [a]);
    AllBytesOne(a);
    Regroup(Header(h, length), AllBytes(attrs), AttrBytes(a));
    assert buf[..][..next] == buf[..next];
  }

  /** Overwriting the length leaves the rest as it was written. */
  method SetLength(buf: array<byte>, pos: nat, length: nat, ghost h: Head, ghost before: nat, ghost attrs: seq<Attr>)
    requires h.cls + h.verb < 0x1_0000 && |h.tid| == TID_SIZE && Holds(buf[..], pos, h, before, attrs)
    modifies buf
    ensures Holds(buf[..], pos, h, length, attrs) && Untouched(old(buf[..]), buf[..], pos)
  {
    hide AllBytes;
    ghost var b := buf[..];
    assert pos >= HEADER_SIZE;
    var _ := UpdateHeaderLength(buf, length);
    PatchHeader(b, pos, h, before, length, AllBytes(attrs));
  }

  lemma PatchHeader(b: Bytes, pos: nat, h: Head, before: nat, length: nat, x: Bytes)
    requires h.cls + h.verb < 0x1_0000 && |h.tid| == TID_SIZE
    requires pos <= |b| && b[..pos] == Header(h, before) + x
    ensures HEADER_SIZE <= pos && Patched(b, length)[..pos] == Header(h, length) + x
  {
    var p := b[..pos];
    assert b[..2] == p[..2] == U16(h.cls + h.verb);
    assert b[4..pos] == p[4..] == U32(MAGIC) + h.tid + x;
    assert Patched(b, length)[..pos] == b[..2] + U16(length % 0x1_0000) + b[4..pos];
  }

  /** The attributes of the body, one after the other. */
  method WriteBody(buf: array<byte>, start: nat, attrs: seq<Attr>, ghost h: Head) returns (pos: nat)
    requires h.cls + h.verb < 0x1_0000 && |h.tid| == TID_SIZE && Holds(buf[..], start, h, 0, [])
    requires start + |AllBytes(attrs)| <= buf.Length
    modifies buf
    ensures pos == start + |AllBytes(attrs)| && Holds(buf[..], pos, h, 0, attrs) && Untouched(old(buf[..]), buf[..], pos)
  {
    hide AttrBytes, Header, Holds, AllBytes;
    pos := start;
    AllBytesNone();
    for i := 0 to |attrs|
      invariant pos == start + |AllBytes(attrs[..i])| <= buf.Length
      invariant Holds(buf[..], pos, h, 0, attrs[..i]) && Untouched(old(buf[..]), buf[..], pos)
    {
      Step(attrs, i);
      var next := Append(buf, pos, attrs[i], h, 0, attrs[..i]);
      assert attrs[..i + 1] == attrs[..i] + [attrs[i]];
      pos := next;
    }
    assert attrs[..|attrs|] == attrs;
  }

  lemma AllBytesNone()
    ensures AllBytes([]) == []
  {
  }

  lemma Step(attrs: seq<Attr>, i: nat)
    requires i < |attrs|
    ensures |AllBytes(attrs[..i])| + |AttrBytes(attrs[i])| == |AllBytes(attrs[..i + 1])| <= |AllBytes(attrs)|
  {
    hide AttrBytes;
    assert attrs == attrs[..i + 1] + attrs[i + 1..] && attrs[..i + 1] == attrs[..i] + [attrs[i]];
    AllBytesAppend(attrs[..i + 1], attrs[i + 1..]);
    AllBytesAppend(attrs[..i], [attrs[i]]);
    AllBytesOne(attrs[i]);
  }

  /** MESSAGE-INTEGRITY, and MESSAGE-INTEGRITY-SHA256 if an algorithm is set. */
  method Sign(c: Crypto, buf: array<byte>, start: nat, m: Message, password: Bytes, ghost xs: seq<Attr>) returns (pos: nat, ghost length: nat)
    requires Writable(m) && m.head.cls != CLASS_INDICATION && Holds(buf[..], start, m.head, 0, xs)
    requires HEADER_SIZE + |AllBytes(Signed(c, m, Some(password), xs))| <= buf.Length
    modifies buf
    ensures pos == HEADER_SIZE + |AllBytes(Signed(c, m, Some(password), xs))|
    ensures Holds(buf[..], pos, m.head, length, Signed(c, m, Some(password), xs)) && Untouched(old(buf[..]), buf[..], pos)
  {
    hide AttrBytes, AllBytes, Header, HmacKey;
    var key := HmacKey(c, m.credentials, password);
    ghost var a := Sha1Part(c, m, key, xs);
    ghost var signed := Signed(c, m, Some(password), xs);
    SignedSizes(c, m, password, xs);
    length := |AllBytes(xs)| + ATTR_SIZE + SHA1_SIZE;
    SetLength(buf, start, start - HEADER_SIZE + ATTR_SIZE + SHA1_SIZE, m.head, 0, xs);
    assert buf[..start] == buf[..][..start] == Prefix(m, xs, SHA1_SIZE);
    pos := Append(buf, start, Attr(MESSAGE_INTEGRITY, c.hmacSha1(key, buf[..start])), m.head, length, xs);
    if m.credentials.algorithm != ALGORITHM_UNSET {
      ghost var once := xs + [a];
      ghost var before := length;
      length := |AllBytes(once)| + ATTR_SIZE + SHA256_SIZE;
      SetLength(buf, pos, pos - HEADER_SIZE + ATTR_SIZE + SHA256_SIZE, m.head, before, once);
      assert buf[..pos] == buf[..][..pos] == Prefix(m, once, SHA256_SIZE);
      pos := Append(buf, pos, Attr(MESSAGE_INTEGRITY_SHA256, c.hmacSha256(key, buf[..pos])), m.head, length, once);
    }
  }

  lemma SignedSizes(c: Crypto, m: Message, password: Bytes, xs: seq<Attr>)
    requires Writable(m) && m.head.cls != CLASS_INDICATION
    ensures var key := HmacKey(c, m.credentials, password);
            var a := Sha1Part(c, m, key, xs);
            var once := xs + [a];
            && |AllBytes(once)| == |AllBytes(xs)| + |AttrBytes(a)| <= |AllBytes(Signed(c, m, Some(password), xs))|
            && (m.credentials.algorithm != ALGORITHM_UNSET ==>
                  |AllBytes(Signed(c, m, Some(password), xs))| == |AllBytes(once)| + |AttrBytes(Sha256Part(c, m, key, once))|)
  {
    hide AttrBytes, Header, HmacKey, AllBytes;
    var key := HmacKey(c, m.credentials, password);
    var a := Sha1Part(c, m, key, xs);
    AllBytesAppend(xs, [a]);
    AllBytesOne(a);
    var d := Sha256Part(c, m, key, xs + [a]);
    AllBytesAppend(xs + [a], [d]);
    AllBytesOne(d);
  }

  /** stun_write into a buffer the message fits. Bytes past the message are left alone. */
  method Write(c: Crypto, buf: array<byte>, m: Message, password: Option<Bytes>) returns (size: nat)
    requires Writable(m) && |Encode(c, m, password)| <= buf.Length
    modifies buf
    ensures size == |Encode(c, m, password)|
    ensures buf[..size] == Encode(c, m, password) && Untouched(old(buf[..]), buf[..], size)
  {
    hide AttrBytes, AllBytes, Header, Body, Signed, Prefix;
    ghost var xs := Body(c, m);
    ghost var signed := Signed(c, m, password, xs);
    WrittenSizes(c, m, password);
    AllBytesNone();
    var pos := WriteHeader(buf, m.head);
    assert buf[..][..pos] == Header(m.head, 0) + [];
    pos := WriteBody(buf, pos, Body(c, m), m.head);
    ghost var length := 0;
    if m.head.cls != CLASS_INDICATION && password.Some? {
      pos, length := Sign(c, buf, pos, m, password.value, xs);
    } else {
      UnsignedIsBody(c, m, password);
    }
    SetLength(buf, pos, pos - HEADER_SIZE + ATTR_SIZE + 4, m.head, length, signed);
    CheckedPrefix(m, signed, buf[..], pos);
    assert buf[..pos] == buf[..][..pos];
    var f := Attr(FINGERPRINT, U32(Xor32(c.crc32(buf[..pos]), FINGERPRINT_XOR)));
    size := Append(buf, pos, f, m.head, pos - HEADER_SIZE + ATTR_SIZE + 4, signed);
    assert buf[..size] == buf[..][..size];
  }

  lemma CheckedPrefix(m: Message, attrs: seq<Attr>, b: Bytes, pos: nat)
    requires Writable(m) && pos == HEADER_SIZE + |AllBytes(attrs)| && Holds(b, pos, m.head, pos - HEADER_SIZE + ATTR_SIZE + 4, attrs)
    ensures b[..pos] == Prefix(m, attrs, 4)
  {
  }

  lemma UnsignedIsBody(c: Crypto, m: Message, password: Option<Bytes>)
    requires Writable(m) && (m.head.cls == CLASS_INDICATION || password.None?)
    ensures Signed(c, m, password, Body(c, m)) == Body(c, m)
  {
  }

  lemma WrittenSizes(c: Crypto, m: Message, password: Option<Bytes>)
    requires Writable(m)
    ensures var xs := Body(c, m);
            var signed := Signed(c, m, password, xs);
            var f := FingerprintPart(c, m, signed);
            && |AllBytes(xs)| <= |AllBytes(signed)|
            && |AttrBytes(f)| == ATTR_SIZE + 4
            && |AllBytes(Written(c, m, password))| == |AllBytes(signed)| + |AttrBytes(f)|
            && |Encode(c, m, password)| == HEADER_SIZE + |AllBytes(Written(c, m, password))|
  {
    hide AllBytes, Body, HmacKey, Prefix;
    var xs := Body(c, m);
    var signed := Signed(c, m, password, xs);
    var f := FingerprintPart(c, m, signed);
    AllBytesAppend(signed, [f]);
    AllBytesOne(f);
    if m.head.cls != CLASS_INDICATION && password.Some? {
      SignedSizes(c, m, password.value, xs);
    }
  }
}
