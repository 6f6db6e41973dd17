/** What stun_read_attr makes of an attribute, by its type on the wire (section 14 of RFC 8489, section 14 of
    RFC 5766, section 16 of RFC 8445), and what the texts of a whole message come to. */
module StunFields {
  import opened Addr
  import opened Basics
  import opened StunBytes
  import opened StunMessage
  import opened StunRead

  /** An attribute in place, with no integrity attribute and no fingerprint before it. */
  predicate Early(b: Bytes, pos: nat, end: nat, st: State) {
    && HEADER_SIZE <= pos && end <= |b| && InBounds(b, pos, end) && |st.msg.head.tid| == TID_SIZE
    && !st.msg.hasIntegrity && !st.msg.hasFingerprint
  }

  /** The text is the value up to its first zero byte. */
  predicate IsText(v: Bytes, text: Bytes) {
    && |text| <= |v| && v[..|text|] == text && 0 !in text
    && (|text| < |v| ==> v[|text|] == 0)
  }

  lemma {:induction false} CStringIsText(v: Bytes)
    ensures IsText(v, CString(v))
  {
    if v != [] && v[0] != 0 {
      var rest := CString(v[1..]);
      CStringIsText(v[1..]);
      assert v[..1 + |rest|] == [v[0]] + v[1..][..|rest|];
      assert |rest| < |v[1..]| ==> v[1 + |rest|] == v[1..][|rest|];
    }
  }

  /** There is one such text. */
  lemma TextIsUnique(v: Bytes, s: Bytes, t: Bytes)
    requires IsText(v, s) && IsText(v, t)
    ensures s == t
  {
    ShorterIsNot(v, s, t);
    ShorterIsNot(v, t, s);
  }

  lemma ShorterIsNot(v: Bytes, s: Bytes, t: Bytes)
    requires IsText(v, s) && |t| <= |v| && v[..|t|] == t && 0 !in t
    ensures |s| >= |t|
  {
    assert forall i :: 0 <= i < |t| ==> t[i] == v[i];
  }

  // ---------- texts ----------

  /** A realm sets the realm and nothing else; one over 763 bytes spoils the message. */
  lemma RealmRead(c: Crypto, b: Bytes, pos: nat, end: nat, st: State)
    requires Early(b, pos, end, st) && Kind(b, pos) == 0x0014
    ensures var r := ReadAttr(c, b, pos, end, st);
            && (r.Some? <==> Length(b, pos) <= 763)
            && (r.Some? ==>
                  && IsText(Value(b, pos), r.value.msg.credentials.realm)
                  && r.value == st.(msg := st.msg.(credentials := st.msg.credentials.(realm := r.value.msg.credentials.realm))))
  {
    CStringIsText(Value(b, pos));
    hide CString, IsText, Value;
  }

  /** The cookie is there, and the four characters after it decode to security bits. */
  predicate HasBits(c: Crypto, cls: nat, nonce: Bytes) {
    IsResponse(cls) && |nonce| > 13 && nonce[..9] == COOKIE && c.decode(nonce[9..13]).Some?
  }

  /** A nonce sets the nonce, and in a response the security bits if it carries any. */
  lemma NonceRead(c: Crypto, b: Bytes, pos: nat, end: nat, st: State)
    requires Early(b, pos, end, st) && Kind(b, pos) == 0x0015
    ensures var r := ReadAttr(c, b, pos, end, st);
            && (r.Some? <==> Length(b, pos) <= 763)
            && (r.Some? ==>
                  var nonce := r.value.msg.credentials.nonce;
                  && IsText(Value(b, pos), nonce)
                  && r.value.msg == st.msg.(credentials := st.msg.credentials.(nonce := nonce))
                  && r.value.bits == if HasBits(c, st.msg.head.cls, nonce) then c.decode(nonce[9..13]).value else st.bits)
  {
    CStringIsText(Value(b, pos));
    hide CString, IsText, Value;
  }

  lemma UsernameRead(c: Crypto, b: Bytes, pos: nat, end: nat, st: State)
    requires Early(b, pos, end, st) && Kind(b, pos) == 0x0006
    ensures var r := ReadAttr(c, b, pos, end, st);
            && (r.Some? <==> Length(b, pos) <= 513)
            && (r.Some? ==>
                  && IsText(Value(b, pos), r.value.msg.credentials.username)
                  && r.value == st.(msg := st.msg.(credentials := st.msg.credentials.(username := r.value.msg.credentials.username))))
  {
    CStringIsText(Value(b, pos));
    hide CString, IsText, Value;
  }

  // ---------- password algorithms and the user hash ----------

  /** A request that chooses one of the two algorithms has it set; another choice, and any choice in a
      response, changes nothing. */
  lemma AlgorithmRead(c: Crypto, b: Bytes, pos: nat, end: nat, st: State)
    requires Early(b, pos, end, st) && Kind(b, pos) == 0x001D
    ensures var r := ReadAttr(c, b, pos, end, st);
            && (r.Some? <==> Length(b, pos) >= 4)
            && (r.Some? ==>
                  var n := FromU16(Value(b, pos)[..2]);
                  r.value == if !IsResponse(st.msg.head.cls) && (n == 1 || n == 2)
                             then st.(msg := st.msg.(credentials := st.msg.credentials.(algorithm := n))) else st)
  {
    assert |Value(b, pos)| == Length(b, pos);
    hide Value;
  }

  /** An algorithm of the list: its number, and its parameters with their padding. */
  datatype Offer = Offer(algorithm: uint16, length: uint16, padded: Bytes)

  predicate IsOffer(o: Offer) {
    |o.padded| == Align(o.length)
  }

  function OfferBytes(o: Offer): Bytes {
    U16(o.algorithm) + U16(o.length) + o.padded
  }

  function ListBytes(offers: seq<Offer>): Bytes {
    if offers == [] then [] else OfferBytes(offers[0]) + ListBytes(offers[1..])
  }

  predicate IsOurs(algorithm: uint16) {
    algorithm == 1 || algorithm == 2
  }

  /** What is not a whole offer. */
  predicate IsCut(v: Bytes) {
    v != [] && (|v| < 4 || |v| - 4 < Align(FromU16(v[2..4])))
  }

  lemma OfferFront(o: Offer, rest: Bytes)
    requires IsOffer(o)
    ensures var v := OfferBytes(o) + rest;
            && |v| >= 4 && FromU16(v) == o.algorithm && FromU16(v[2..]) == o.length
            && |v| - 4 >= Align(o.length) && v[4 + Align(o.length)..] == rest
  {
    var v := OfferBytes(o) + rest;
    U16Back(o.algorithm);
    U16Back(o.length);
    assert v[0] == U16(o.algorithm)[0] && v[1] == U16(o.algorithm)[1];
    assert v[2..][0] == U16(o.length)[0] && v[2..][1] == U16(o.length)[1];
  }

  /** The first of the offers that is one of ours is taken, whatever follows it; if there is none the list
      must end with a whole offer. */
  lemma {:induction false} FirstOffer(offers: seq<Offer>, rest: Bytes)
    requires NoneOurs(offers)
    ensures rest == [] ==> FirstAlgorithm(ListBytes(offers) + rest) == Some(0)
    ensures IsCut(rest) ==> FirstAlgorithm(ListBytes(offers) + rest) == None
    ensures rest != [] && !IsCut(rest) && IsOurs(FromU16(rest[..2])) ==>
              FirstAlgorithm(ListBytes(offers) + rest) == Some(FromU16(rest[..2]))
    decreases |offers|
  {
    if offers == [] {
      assert ListBytes(offers) + rest == rest;
    } else {
      var tail := ListBytes(offers[1..]) + rest;
      assert ListBytes(offers) + rest == OfferBytes(offers[0]) + tail;
      OfferFront(offers[0], tail);
      FirstOffer(offers[1..], rest);
    }
  }

  /** Every byte string is such a list with such a rest. */
  lemma {:induction false} ListSplits(v: Bytes) returns (offers: seq<Offer>, rest: Bytes)
    ensures v == ListBytes(offers) + rest
    ensures NoneOurs(offers)
    ensures rest == [] || IsCut(rest) || IsOurs(FromU16(rest[..2]))
    decreases |v|
  {
    if v == [] || IsCut(v) || IsOurs(FromU16(v[..2])) {
      offers, rest := [], v;
      assert v == ListBytes(offers) + rest;
    } else {
      var n := 4 + Align(FromU16(v[2..4]));
      var first := Offer(FromU16(v[..2]), FromU16(v[2..4]), v[4..n]);
      var more;
      more, rest := ListSplits(v[n..]);
      offers := [first] + more;
      assert OfferBytes(first) == v[..n];
      assert offers[1..] == more;
    }
  }

  predicate NoneOurs(offers: seq<Offer>) {
    forall i :: 0 <= i < |offers| ==> IsOffer(offers[i]) && !IsOurs(offers[i].algorithm)
  }

  lemma ListRead(c: Crypto, b: Bytes, pos: nat, end: nat, st: State)
    requires Early(b, pos, end, st) && Kind(b, pos) == 0x8002
    ensures var r, first := ReadAttr(c, b, pos, end, st), FirstAlgorithm(Value(b, pos));
            var kept := st.msg.credentials.(algorithms := Value(b, pos));
            && (r.Some? <==> 4 <= Length(b, pos) <= 256 && (IsResponse(st.msg.head.cls) || first.Some?))
            && (r.Some? ==>
                  r.value == st.(msg := st.msg.(credentials :=
                    if IsResponse(st.msg.head.cls) || first.value == 0 then kept else kept.(algorithm := first.value))))
  {
    assert |Value(b, pos)| == Length(b, pos);
    hide FirstAlgorithm, Value;
  }

  /** The list is kept. In a request an algorithm is taken from it if it offers one of ours, and a list that is
      cut before one is found spoils the message; in a response it is not looked into. */
  lemma AlgorithmsRead(c: Crypto, b: Bytes, pos: nat, end: nat, st: State, offers: seq<Offer>, rest: Bytes)
    requires Early(b, pos, end, st) && Kind(b, pos) == 0x8002 && Value(b, pos) == ListBytes(offers) + rest
    requires NoneOurs(offers) && (rest == [] || IsCut(rest) || IsOurs(FromU16(rest[..2])))
    ensures var r := ReadAttr(c, b, pos, end, st);
            var kept := st.msg.credentials.(algorithms := Value(b, pos));
            && (r.Some? <==> 4 <= Length(b, pos) <= 256 && (IsResponse(st.msg.head.cls) || !IsCut(rest)))
            && (r.Some? ==>
                  r.value == st.(msg := st.msg.(credentials :=
                    if IsResponse(st.msg.head.cls) || rest == [] then kept else kept.(algorithm := FromU16(rest[..2])))))
  {
    hide FirstAlgorithm, ListBytes, Value, ReadAttr, Kind, Length, IsCut, NoneOurs, FromU16, Align;
    FirstOffer(offers, rest);
    ListRead(c, b, pos, end, st);
  }

  lemma UserhashRead(c: Crypto, b: Bytes, pos: nat, end: nat, st: State)
    requires Early(b, pos, end, st) && Kind(b, pos) == 0x001E
    ensures ReadAttr(c, b, pos, end, st) ==
              if Length(b, pos) != 32 then None
              else Some(st.(msg := st.msg.(credentials := st.msg.credentials.(userhash := Value(b, pos), enableUserhash := true))))
  {
    assert |Value(b, pos)| == Length(b, pos);
    hide Value;
  }

  // ---------- addresses that are not masked ----------

  /** An address as it stands in the value, if the family is known and the value long enough. */
  function PlainAddress(v: Bytes): Parsed {
    if |v| < 4 || (v[1] == 1 && |v| < 8) || (v[1] == 2 && |v| < 20) then Malformed
    else if v[1] == 1 then Known(Inet(v[4..8], FromU16(v[2..4])))
    else if v[1] == 2 then Known(Inet6(v[4..20], FromU16(v[2..4])))
    else Unknown
  }

  lemma MaskedByZeros(x: Bytes)
    requires |x| <= 16
    ensures Masked(x, Zeros(16)) == x
  {
    var mask := Zeros(16);
    forall i | 0 <= i < |x| ensures Masked(x, mask)[i] == x[i] {
      XorZero(8, x[i] as int);
    }
  }

  lemma {:induction false} XorZero(n: nat, a: nat)
    requires a < Pow2(n)
    ensures XorBits(n, a, 0) == a
  {
    if n > 0 {
      XorZero(n - 1, a / 2);
    }
  }

  lemma UnmaskedIsPlain(v: Bytes)
    ensures ReadAddress(v, Zeros(16)) == PlainAddress(v)
  {
    if |v| >= 4 {
      MaskedByZeros(v[2..4]);
      if v[1] == 1 && |v| >= 8 {
        MaskedByZeros(v[4..8]);
      } else if v[1] == 2 && |v| >= 20 {
        MaskedByZeros(v[4..20]);
      }
    }
  }

  /** MAPPED-ADDRESS and ALTERNATE-SERVER: each sets its own field, to the address as it stands. */
  lemma AddressRead(c: Crypto, b: Bytes, pos: nat, end: nat, st: State)
    requires Early(b, pos, end, st) && Kind(b, pos) in {0x0001, 0x8023}
    ensures var r, p := ReadAttr(c, b, pos, end, st), PlainAddress(Value(b, pos));
            && (r.None? <==> p.Malformed?)
            && (p.Unknown? ==> r == Some(st))
            && (p.Known? ==>
                  r == Some(st.(msg := st.msg.(hosts := if Kind(b, pos) == 0x0001 then st.msg.hosts.(mapped := Some(p.host))
                                                        else st.msg.hosts.(alternate := Some(p.host))))))
  {
    UnmaskedIsPlain(Value(b, pos));
    hide ReadAddress, Value, PlainAddress;
  }

  /** XOR-MAPPED-ADDRESS and XOR-RELAYED-ADDRESS: the same under the mask of the message, the last one read
      counting. */
  lemma MaskedAddressRead(c: Crypto, b: Bytes, pos: nat, end: nat, st: State)
    requires Early(b, pos, end, st) && Kind(b, pos) in {0x0020, 0x0016}
    ensures var r, p := ReadAttr(c, b, pos, end, st), ReadAddress(Value(b, pos), Mask(st.msg.head.tid));
            && (r.None? <==> p.Malformed?)
            && (p.Unknown? ==> r == Some(st))
            && (p.Known? ==>
                  r == Some(st.(msg := st.msg.(hosts := if Kind(b, pos) == 0x0020 then st.msg.hosts.(mapped := Some(p.host))
                                                        else st.msg.hosts.(relayed := Some(p.host))))))
  {
    hide ReadAddress, Value;
  }

  /** XOR-PEER-ADDRESS: up to eight peers are collected in order, and further ones not even looked at. */
  lemma PeerAddressRead(c: Crypto, b: Bytes, pos: nat, end: nat, st: State)
    requires Early(b, pos, end, st) && Kind(b, pos) == 0x0012
    ensures var r, p := ReadAttr(c, b, pos, end, st), ReadAddress(Value(b, pos), Mask(st.msg.head.tid));
            if |st.msg.hosts.peers| >= 8 then r == Some(st)
            else
              && (r.None? <==> p.Malformed?)
              && (p.Unknown? ==> r == Some(st))
              && (p.Known? ==> r == Some(st.(msg := st.msg.(hosts := st.msg.hosts.(peers := st.msg.hosts.peers + [p.host])))))
  {
    hide ReadAddress, Value;
  }

  // ---------- checks and relaying ----------

  /** PRIORITY, USE-CANDIDATE, ICE-CONTROLLING and ICE-CONTROLLED. */
  lemma CheckRead(c: Crypto, b: Bytes, pos: nat, end: nat, st: State)
    requires Early(b, pos, end, st) && Kind(b, pos) in {0x0024, 0x0025, 0x802A, 0x8029}
    ensures var r, v, ice := ReadAttr(c, b, pos, end, st), Value(b, pos), st.msg.ice;
            && (r.Some? <==> Kind(b, pos) == 0x0025 || |v| == if Kind(b, pos) == 0x0024 then 4 else 8)
            && (r.Some? ==>
                  r.value == st.(msg := st.msg.(ice :=
                    if Kind(b, pos) == 0x0024 then ice.(priority := FromU32(v))
                    else if Kind(b, pos) == 0x0025 then ice.(useCandidate := true)
                    else if Kind(b, pos) == 0x802A then ice.(controlling := FromU64(v)) else ice.(controlled := FromU64(v)))))
  {
    hide Value, FromU32, FromU64;
  }

  /** CHANNEL-NUMBER, LIFETIME, DATA, DONT-FRAGMENT and RESERVATION-TOKEN. */
  lemma RelayRead(c: Crypto, b: Bytes, pos: nat, end: nat, st: State)
    requires Early(b, pos, end, st) && Kind(b, pos) in {0x000C, 0x000D, 0x0013, 0x001A, 0x0022}
    ensures var r, v, turn := ReadAttr(c, b, pos, end, st), Value(b, pos), st.msg.turn;
            && (r.None? <==> (Kind(b, pos) == 0x000C && |v| < 4) || (Kind(b, pos) == 0x000D && |v| != 4) || (Kind(b, pos) == 0x0022 && |v| != 8))
            && (r.Some? ==>
                  r.value == st.(msg := st.msg.(turn :=
                    if Kind(b, pos) == 0x000C then turn.(channel := FromU16(v))
                    else if Kind(b, pos) == 0x000D then turn.(lifetime := FromU32(v), lifetimeSet := true)
                    else if Kind(b, pos) == 0x0013 then turn.(data := Some(v))
                    else if Kind(b, pos) == 0x001A then turn.(dontFragment := true)
                    else turn.(reservation := FromU64(v)))))
  {
    hide Value, FromU16, FromU32, FromU64;
  }

  // ---------- the key ----------

  /** The key for integrity is the password, or for long-term credentials a hash of user, realm and password
      (sections 9.1.1 and 9.2.2 of RFC 8489); what the fields can hold is never cut off. */
  lemma KeyIs(c: Crypto, cr: Credentials, password: Bytes)
    requires |cr.username| <= 513 && |cr.realm| <= 763 && |password| <= 513
    ensures var key, text := HmacKey(c, cr, password), cr.username + [0x3A] + cr.realm + [0x3A] + password;
            key == if cr.realm == [] then password else if cr.algorithm == 2 then c.sha256(text) else c.md5(text)
  {
  }

  // ---------- the rest that is read and not written, or written otherwise ----------

  /** The flag for an even port, and the bit for reserving the next one. */
  lemma EvenPortRead(c: Crypto, b: Bytes, pos: nat, end: nat, st: State)
    requires Early(b, pos, end, st) && Kind(b, pos) == 0x0018
    ensures ReadAttr(c, b, pos, end, st) ==
              if Length(b, pos) == 0 then None
              else Some(st.(msg := st.msg.(turn := st.msg.turn.(evenPort := true, nextPort := Value(b, pos)[0] >= 0x80))))
  {
  }

  lemma ErrorCodeRead(c: Crypto, b: Bytes, pos: nat, end: nat, st: State)
    requires Early(b, pos, end, st) && Kind(b, pos) == 0x0009
    ensures ReadAttr(c, b, pos, end, st) ==
              if Length(b, pos) < 4 then None
              else Some(st.(msg := st.msg.(errorCode := Value(b, pos)[2] as int % 8 * 100 + Value(b, pos)[3] as int)))
  {
    assert |Value(b, pos)| == Length(b, pos);
    hide Value;
  }

  /** Only UDP can be asked for. */
  lemma TransportRead(c: Crypto, b: Bytes, pos: nat, end: nat, st: State)
    requires Early(b, pos, end, st) && Kind(b, pos) == 0x0019
    ensures ReadAttr(c, b, pos, end, st) ==
              if Length(b, pos) < 4 || Value(b, pos)[0] != 17 then None
              else Some(st.(msg := st.msg.(turn := st.msg.turn.(requestedTransport := true))))
  {
    assert |Value(b, pos)| == Length(b, pos);
    hide Value;
  }

  const TYPES := {0x0001, 0x0006, 0x0008, 0x0009, 0x000C, 0x000D, 0x0012, 0x0013, 0x0014, 0x0015, 0x0016, 0x0018, 0x0019, 0x001A,
                  0x001C, 0x001D, 0x001E, 0x0020, 0x0022, 0x0024, 0x0025, 0x8002, 0x8022, 0x8023, 0x8028, 0x8029, 0x802A}

  /** Attributes of any other type are passed over, and so is the software if it is not too long. */
  lemma OthersIgnored(c: Crypto, b: Bytes, pos: nat, end: nat, st: State)
    requires Early(b, pos, end, st) && (Kind(b, pos) !in TYPES || (Kind(b, pos) == 0x8022 && Length(b, pos) <= 763))
    ensures ReadAttr(c, b, pos, end, st) == Some(st)
  {
  }

  // ---------- the end of a message ----------

  /** An error that asks for credentials, with a nonce that announces password algorithms and no list of them:
      the list was taken out on the way (section 9.2.5 of RFC 8489). */
  predicate ListTakenOut(st: State) {
    && st.msg.head.cls == 0x0110 && st.msg.errorCode in {401, 438}
    && st.bits % 2 == 1 && st.msg.credentials.algorithms == []
  }

  /** A request that has a list or a choice, and not both as the library offers them (section 9.2.4). */
  predicate ListTamperedWith(st: State) {
    && !IsResponse(st.msg.head.cls) && (st.msg.credentials.algorithms != [] || st.msg.credentials.algorithm != 0)
    && (st.msg.credentials.algorithm == 0 || st.msg.credentials.algorithms != [0, 2, 0, 0, 0, 1, 0, 0])
  }

  /** Exactly these two are marked, by the code for a failed validation; and only the mark, the default
      algorithm of a request and the user hash a nonce asks for are added at the end. */
  lemma FinishMarks(st: State)
    ensures var m := Finish(st);
            && m.errorCode == (if ListTakenOut(st) || ListTamperedWith(st) then 599 else st.msg.errorCode)
            && m.credentials.enableUserhash == (st.msg.credentials.enableUserhash || st.bits / 2 % 2 == 1)
            && m.credentials.algorithm ==
                 (if !IsResponse(st.msg.head.cls) && st.msg.credentials.algorithms == [] && st.msg.credentials.algorithm == 0 then 1
                  else st.msg.credentials.algorithm)
            && m == st.msg.(errorCode := m.errorCode,
                            credentials := st.msg.credentials.(algorithm := m.credentials.algorithm,
                                                               enableUserhash := m.credentials.enableUserhash))
  {
    assert OUR_ALGORITHMS == [0, 2, 0, 0, 0, 1, 0, 0];
  }

  // ---------- a whole message ----------

  datatype Text = Username | Realm | Nonce

  function TextOf(cr: Credentials, t: Text): Bytes {
    match t
    case Username => cr.username
    case Realm => cr.realm
    case Nonce => cr.nonce
  }

  function TypeOf(t: Text): uint16 {
    match t
    case Username => 0x0006
    case Realm => 0x0014
    case Nonce => 0x0015
  }

  /** The value of the last attribute of the type before an integrity attribute. */
  function LastValue(b: Bytes, pos: nat, end: nat, kind: uint16): Option<Bytes>
    requires end <= |b| && WellFormed(b, pos, end)
    decreases end - pos
  {
    if pos >= end || IsIntegrity(Kind(b, pos)) then None
    else
      var later := LastValue(b, Next(b, pos), end, kind);
      if later.None? && Kind(b, pos) == kind then Some(Value(b, pos)) else later
  }

  /** An attribute leaves a text alone unless it is of its type. */
  lemma TextStep(c: Crypto, b: Bytes, pos: nat, end: nat, st: State, t: Text)
    requires Early(b, pos, end, st) && ReadAttr(c, b, pos, end, st).Some?
    ensures var r := ReadAttr(c, b, pos, end, st).value;
            if Kind(b, pos) == TypeOf(t) then IsText(Value(b, pos), TextOf(r.msg.credentials, t))
            else TextOf(r.msg.credentials, t) == TextOf(st.msg.credentials, t)
  {
    CStringIsText(Value(b, pos));
    hide CString, IsText, Value, ApplyHost, ApplyIce, ApplyTurn, NonceBits, FirstAlgorithm, FingerprintOk;
  }

  /** The user name, the realm and the nonce of a message are the values of the last attributes of their types
      that integrity covers, each up to its first zero byte, and otherwise empty. */
  lemma {:induction false} TextsRead(c: Crypto, b: Bytes, pos: nat, end: nat, st: State, t: Text)
    requires HEADER_SIZE <= pos && end <= |b| && |st.msg.head.tid| == TID_SIZE && !st.msg.hasIntegrity && !st.msg.hasFingerprint
    requires ReadFrom(c, b, pos, end, st).Some?
    ensures WellFormed(b, pos, end)
    ensures var text := TextOf(ReadFrom(c, b, pos, end, st).value.msg.credentials, t);
            var v := LastValue(b, pos, end, TypeOf(t));
            if v.Some? then IsText(v.value, text) else text == TextOf(st.msg.credentials, t)
    decreases end - pos
  {
    hide ReadAttr, IsText, Value, TextOf;
    ReadIsWellFormed(c, b, pos, end, st);
    if pos < end {
      ReadAttrKeeps(c, b, pos, end, st);
      var r := ReadAttr(c, b, pos, end, st).value;
      if IsIntegrity(Kind(b, pos)) {
        NothingAfterIntegrity(c, b, Next(b, pos), end, r);
      } else if Kind(b, pos) == FINGERPRINT {
        FlagIsFingerprint(c, b, pos, end, st);
        TextStep(c, b, pos, end, st, t);
      } else {
        TextStep(c, b, pos, end, st, t);
        TextsRead(c, b, Next(b, pos), end, r, t);
      }
    }
  }

  lemma MessageTexts(c: Crypto, b: Bytes, t: Text)
    requires Read(c, b).Some?
    ensures Framed(b) && WellFormed(b, HEADER_SIZE, HEADER_SIZE + MessageLength(b))
    ensures var v := LastValue(b, HEADER_SIZE, HEADER_SIZE + MessageLength(b), TypeOf(t));
            var text := TextOf(Read(c, b).value.credentials, t);
            if v.Some? then IsText(v.value, text) else text == []
  {
    hide ReadFrom, WellFormed, LastValue, IsText;
    TextsRead(c, b, HEADER_SIZE, HEADER_SIZE + MessageLength(b), Start(b), t);
  }
}
