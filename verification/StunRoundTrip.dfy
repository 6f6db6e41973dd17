/** Reading back what was written. */
module StunRoundTrip {
  import opened Addr
  import opened Basics
  import opened StunBytes
  import opened StunMessage
  import opened StunRead
  import opened StunWrite

  // ---------- attributes in place ----------

  predicate Has(b: Bytes, pos: nat, x: Bytes) {
    pos + |x| <= |b| && b[pos..pos + |x|] == x
  }

  lemma HasSplit(b: Bytes, pos: nat, x: Bytes, y: Bytes)
    requires Has(b, pos, x + y)
    ensures Has(b, pos, x) && Has(b, pos + |x|, y)
  {
    assert b[pos..pos + |x|] == b[pos..pos + |x + y|][..|x|] == (x + y)[..|x|] == x;
    assert b[pos + |x|..pos + |x| + |y|] == b[pos..pos + |x + y|][|x|..] == (x + y)[|x|..] == y;
  }

  lemma AttrBack(b: Bytes, pos: nat, a: Attr)
    requires Has(b, pos, AttrBytes(a)) && |a.value| < 0x1_0000
    ensures InBounds(b, pos, |b|)
    ensures Kind(b, pos) == a.kind && Length(b, pos) == |a.value| && Value(b, pos) == a.value
    ensures Next(b, pos) == pos + |AttrBytes(a)|
  {
    var kind, length, rest := U16(a.kind), U16(|a.value|), Zeros(Align(|a.value|) - |a.value|);
    assert AttrBytes(a) == kind + (length + (a.value + rest));
    HasSplit(b, pos, kind, length + (a.value + rest));
    HasSplit(b, pos + 2, length, a.value + rest);
    HasSplit(b, pos + 4, a.value, rest);
    U16Back(a.kind);
    U16Back(|a.value|);
  }

  // ---------- the effect of a list of attributes ----------

  predicate IsPlain(a: Attr) {
    !IsIntegrity(a.kind) && a.kind != FINGERPRINT
  }

  predicate AllPlain(attrs: seq<Attr>) {
    forall i :: 0 <= i < |attrs| ==> IsPlain(attrs[i])
  }

  function ApplyAll(c: Crypto, st: State, attrs: seq<Attr>): Option<State>
    requires |st.msg.head.tid| == TID_SIZE
    decreases |attrs|
  {
    if attrs == [] then Some(st)
    else
      ApplyKeeps(c, st, attrs[0].kind, attrs[0].value);
      var r := Apply(c, st, attrs[0].kind, attrs[0].value);
      if r.None? then None else ApplyAll(c, r.value, attrs[1..])
  }

  lemma {:induction false} ApplyAllKeeps(c: Crypto, st: State, attrs: seq<Attr>)
    requires |st.msg.head.tid| == TID_SIZE && AllPlain(attrs)
    ensures var r := ApplyAll(c, st, attrs);
            r.Some? ==>
              && r.value.msg.head == st.msg.head
              && r.value.msg.hasIntegrity == st.msg.hasIntegrity && r.value.msg.hasFingerprint == st.msg.hasFingerprint
    decreases |attrs|
  {
    hide Apply;
    if attrs != [] {
      ApplyKeeps(c, st, attrs[0].kind, attrs[0].value);
      var r := Apply(c, st, attrs[0].kind, attrs[0].value);
      assert IsPlain(attrs[0]);
      if r.Some? {
        ApplyAllKeeps(c, r.value, attrs[1..]);
      }
    }
  }

  lemma {:induction false} ApplyAllAppend(c: Crypto, st: State, a: seq<Attr>, b: seq<Attr>)
    requires |st.msg.head.tid| == TID_SIZE && AllPlain(a)
    ensures var r := ApplyAll(c, st, a);
            r.Some? ==> |r.value.msg.head.tid| == TID_SIZE && ApplyAll(c, st, a + b) == ApplyAll(c, r.value, b)
    decreases |a|
  {
    hide Apply;
    if a == [] {
      assert a + b == b;
    } else {
      ApplyKeeps(c, st, a[0].kind, a[0].value);
      var r := Apply(c, st, a[0].kind, a[0].value);
      assert IsPlain(a[0]);
      assert (a + b)[0] == a[0] && (a + b)[1..] == a[1..] + b;
      if r.Some? {
        ApplyAllAppend(c, r.value, a[1..], b);
      }
    }
  }

  lemma {:induction false} FailureStays(c: Crypto, st: State, a: seq<Attr>, b: seq<Attr>)
    requires |st.msg.head.tid| == TID_SIZE && ApplyAll(c, st, a).None?
    ensures ApplyAll(c, st, a + b).None?
    decreases |a|
  {
    hide Apply;
    ApplyKeeps(c, st, a[0].kind, a[0].value);
    var r := Apply(c, st, a[0].kind, a[0].value);
    assert (a + b)[0] == a[0] && (a + b)[1..] == a[1..] + b;
    if r.Some? {
      FailureStays(c, r.value, a[1..], b);
    }
  }

  /** Reading plain attributes is applying them one by one. */
  lemma {:induction false} ReadPlain(c: Crypto, b: Bytes, pos: nat, end: nat, st: State, attrs: seq<Attr>)
    requires HEADER_SIZE <= pos && pos + |AllBytes(attrs)| <= end <= |b| && end - pos < 0x1_0000
    requires |st.msg.head.tid| == TID_SIZE && !st.msg.hasIntegrity && !st.msg.hasFingerprint
    requires AllPlain(attrs) && Has(b, pos, AllBytes(attrs))
    ensures var r := ApplyAll(c, st, attrs);
            && (r.Some? ==> |r.value.msg.head.tid| == TID_SIZE)
            && ReadFrom(c, b, pos, end, st) ==
                 if r.None? then None else ReadFrom(c, b, pos + |AllBytes(attrs)|, end, r.value)
    decreases |attrs|
  {
    hide Apply, Has, AttrBytes, Value, Length, Kind, InBounds;
    if attrs != [] {
      var a := attrs[0];
      assert IsPlain(a);
      HasSplit(b, pos, AttrBytes(a), AllBytes(attrs[1..]));
      AttrBack(b, pos, a);
      ReadOne(c, b, pos, end, st, a);
      ApplyKeeps(c, st, a.kind, a.value);
      var r := Apply(c, st, a.kind, a.value);
      if r.Some? {
        ReadPlain(c, b, pos + |AttrBytes(a)|, end, r.value, attrs[1..]);
      }
    }
  }

  lemma ReadOne(c: Crypto, b: Bytes, pos: nat, end: nat, st: State, a: Attr)
    requires HEADER_SIZE <= pos && pos + |AttrBytes(a)| <= end <= |b| && |a.value| < 0x1_0000
    requires |st.msg.head.tid| == TID_SIZE && !st.msg.hasFingerprint && Has(b, pos, AttrBytes(a)) && a.kind != FINGERPRINT
    requires st.msg.hasIntegrity ==> IsIntegrity(a.kind)
    ensures ReadAttr(c, b, pos, end, st) == Apply(c, st, a.kind, a.value)
  {
    hide Apply, AttrBytes;
    AttrBack(b, pos, a);
  }

  // ---------- each part of a message read back ----------

  lemma OptionalApplied(c: Crypto, st: State, present: bool, kind: uint16, value: Bytes)
    requires |st.msg.head.tid| == TID_SIZE
    ensures ApplyAll(c, st, Optional(present, kind, value)) == if present then Apply(c, st, kind, value) else Some(st)
  {
    hide Apply;
    if present {
      ApplyKeeps(c, st, kind, value);
      assert [Attr(kind, value)][1..] == [];
    }
  }

  /** The error code that fits the three bits and the byte it is written in. */
  function WireCode(code: nat): nat {
    code / 100 % 8 * 100 + code % 100
  }

  lemma CodeIsExact(code: nat)
    ensures WireCode(code) == code <==> code < 800
  {
  }

  lemma ErrorBack(c: Crypto, st: State, code: nat)
    requires |st.msg.head.tid| == TID_SIZE && st.msg.errorCode == 0
    ensures ApplyAll(c, st, ErrorPart(c, code)) == Some(st.(msg := st.msg.(errorCode := WireCode(code))))
  {
    OptionalApplied(c, st, code != 0, ERROR_CODE, [0, 0, code / 100 % 8, code % 100] + c.reason(code));
  }

  lemma HostBack(h: Host, mask: Bytes)
    requires |mask| == 16
    ensures ReadAddress(HostValue(h, mask), mask) == Known(h)
  {
    var v := HostValue(h, mask);
    var port := if h.Inet? then h.port else h.port6;
    var ip := if h.Inet? then h.ip else h.ip6;
    assert v[2..4] == Masked(U16(port), mask);
    assert v[4..4 + |ip|] == Masked(ip, mask);
    MaskedBack(U16(port), mask);
    MaskedBack(ip, mask);
    U16Back(port);
  }

  lemma MappedBack(c: Crypto, st: State, h: Option<Host>)
    requires |st.msg.head.tid| == TID_SIZE && st.msg.hosts.mapped == None
    ensures ApplyAll(c, st, HostPart(h, XOR_MAPPED_ADDRESS, st.msg.head.tid)) ==
              Some(st.(msg := st.msg.(hosts := st.msg.hosts.(mapped := h))))
  {
    hide ReadAddress, HostValue;
    if h.Some? {
      var v := HostValue(h.value, Mask(st.msg.head.tid));
      HostBack(h.value, Mask(st.msg.head.tid));
      OptionalApplied(c, st, true, XOR_MAPPED_ADDRESS, v);
    }
  }

  lemma RelayedBack(c: Crypto, st: State, h: Option<Host>)
    requires |st.msg.head.tid| == TID_SIZE && st.msg.hosts.relayed == None
    ensures ApplyAll(c, st, HostPart(h, XOR_RELAYED_ADDRESS, st.msg.head.tid)) ==
              Some(st.(msg := st.msg.(hosts := st.msg.hosts.(relayed := h))))
  {
    hide ReadAddress, HostValue;
    if h.Some? {
      var v := HostValue(h.value, Mask(st.msg.head.tid));
      HostBack(h.value, Mask(st.msg.head.tid));
      OptionalApplied(c, st, true, XOR_RELAYED_ADDRESS, v);
    }
  }

  function WithPeers(st: State, peers: seq<Host>): State {
    st.(msg := st.msg.(hosts := st.msg.hosts.(peers := peers)))
  }

  lemma {:induction false} PeersBack(c: Crypto, st: State, peers: seq<Host>)
    requires |st.msg.head.tid| == TID_SIZE && |st.msg.hosts.peers| + |peers| <= MAX_PEERS
    ensures ApplyAll(c, st, PeersPart(peers, st.msg.head.tid)) == Some(WithPeers(st, st.msg.hosts.peers + peers))
    decreases |peers|
  {
    hide ReadAddress, HostValue;
    if peers == [] {
      assert st.msg.hosts.peers + peers == st.msg.hosts.peers;
    } else {
      var tid := st.msg.head.tid;
      var v := HostValue(peers[0], Mask(tid));
      HostBack(peers[0], Mask(tid));
      var st' := WithPeers(st, st.msg.hosts.peers + [peers[0]]);
      assert Apply(c, st, XOR_PEER_ADDRESS, v) == Some(st');
      var part := PeersPart(peers, tid);
      assert part[0] == Attr(XOR_PEER_ADDRESS, v) && part[1..] == PeersPart(peers[1..], tid);
      PeersBack(c, st', peers[1..]);
      assert st.msg.hosts.peers + [peers[0]] + peers[1..] == st.msg.hosts.peers + peers;
    }
  }

  lemma PairApplied(c: Crypto, st: State, a: seq<Attr>, b: seq<Attr>, mid: State, last: State)
    requires |st.msg.head.tid| == TID_SIZE && AllPlain(a)
    requires ApplyAll(c, st, a) == Some(mid) && mid.msg.head == st.msg.head
    requires ApplyAll(c, mid, b) == Some(last)
    ensures ApplyAll(c, st, a + b) == Some(last)
  {
    ApplyAllAppend(c, st, a, b);
  }

  function WithIce(st: State, i: Ice): State {
    st.(msg := st.msg.(ice := i))
  }

  lemma IceApplied(c: Crypto, st: State, i: Ice)
    requires |st.msg.head.tid| == TID_SIZE
    ensures Apply(c, st, PRIORITY, U32(i.priority)) == Some(WithIce(st, st.msg.ice.(priority := i.priority)))
    ensures Apply(c, st, USE_CANDIDATE, []) == Some(WithIce(st, st.msg.ice.(useCandidate := true)))
    ensures Apply(c, st, ICE_CONTROLLING, U64(i.controlling)) == Some(WithIce(st, st.msg.ice.(controlling := i.controlling)))
    ensures Apply(c, st, ICE_CONTROLLED, U64(i.controlled)) == Some(WithIce(st, st.msg.ice.(controlled := i.controlled)))
  {
    hide FromU32, FromU64, U32, U64;
    U32Back(i.priority);
    U64Back(i.controlling);
    U64Back(i.controlled);
  }

  lemma IceBack(c: Crypto, st: State, i: Ice)
    requires |st.msg.head.tid| == TID_SIZE && st.msg.ice == NO_ICE
    ensures ApplyAll(c, st, IcePart(i)) == Some(WithIce(st, i))
  {
    hide ApplyAll, Apply;
    var a := Optional(i.priority != 0, PRIORITY, U32(i.priority));
    var b := Optional(i.useCandidate, USE_CANDIDATE, []);
    var d := Optional(i.controlling != 0, ICE_CONTROLLING, U64(i.controlling));
    var e := Optional(i.controlled != 0, ICE_CONTROLLED, U64(i.controlled));
    var s1 := WithIce(st, NO_ICE.(priority := i.priority));
    var s2 := WithIce(st, i.(controlling := 0, controlled := 0));
    var s3 := WithIce(st, i.(controlled := 0));
    IceApplied(c, st, i);
    IceApplied(c, s1, i);
    IceApplied(c, s2, i);
    IceApplied(c, s3, i);
    OptionalApplied(c, st, i.priority != 0, PRIORITY, U32(i.priority));
    OptionalApplied(c, s1, i.useCandidate, USE_CANDIDATE, []);
    OptionalApplied(c, s2, i.controlling != 0, ICE_CONTROLLING, U64(i.controlling));
    OptionalApplied(c, s3, i.controlled != 0, ICE_CONTROLLED, U64(i.controlled));
    PairApplied(c, st, a, b, s1, s2);
    PairApplied(c, st, a + b, d, s2, s3);
    PairApplied(c, st, a + b + d, e, s3, WithIce(st, i));
  }

  function WithTurn(st: State, t: Turn): State {
    st.(msg := st.msg.(turn := t))
  }

  function ChannelTurn(t: Turn): Turn {
    NO_TURN.(channel := t.channel, lifetime := t.lifetime, lifetimeSet := t.lifetimeSet || t.lifetime != 0)
  }

  lemma ChannelBack(c: Crypto, st: State, t: Turn)
    requires |st.msg.head.tid| == TID_SIZE && st.msg.turn == NO_TURN
    ensures ApplyAll(c, st, ChannelPart(t)) == Some(WithTurn(st, ChannelTurn(t)))
  {
    hide ApplyAll, FromU32, U32;
    var v := U16(t.channel) + [0, 0];
    var set_ := t.lifetimeSet || t.lifetime != 0;
    var s1 := WithTurn(st, NO_TURN.(channel := t.channel));
    U16Back(t.channel);
    U32Back(t.lifetime);
    assert FromU16(v) == t.channel;
    OptionalApplied(c, st, t.channel != 0, CHANNEL_NUMBER, v);
    OptionalApplied(c, s1, set_, LIFETIME, U32(t.lifetime));
    PairApplied(c, st, Optional(t.channel != 0, CHANNEL_NUMBER, v), Optional(set_, LIFETIME, U32(t.lifetime)),
                s1, WithTurn(st, ChannelTurn(t)));
  }

  lemma DataBack(c: Crypto, st: State, t: Turn)
    requires |st.msg.head.tid| == TID_SIZE && st.msg.turn.data == None
    ensures ApplyAll(c, st, DataPart(t)) == Some(WithTurn(st, st.msg.turn.(data := t.data)))
  {
    OptionalApplied(c, st, t.data.Some?, DATA, if t.data.Some? then t.data.value else []);
  }

  function RelayTurn(u: Turn, t: Turn): Turn {
    u.(requestedTransport := t.requestedTransport, dontFragment := t.dontFragment, reservation := t.reservation)
  }

  lemma RelayApplied(c: Crypto, st: State, t: Turn)
    requires |st.msg.head.tid| == TID_SIZE
    ensures Apply(c, st, REQUESTED_TRANSPORT, [17, 0, 0, 0]) == Some(WithTurn(st, st.msg.turn.(requestedTransport := true)))
    ensures Apply(c, st, DONT_FRAGMENT, []) == Some(WithTurn(st, st.msg.turn.(dontFragment := true)))
    ensures Apply(c, st, RESERVATION_TOKEN, U64(t.reservation)) == Some(WithTurn(st, st.msg.turn.(reservation := t.reservation)))
  {
    hide FromU64, U64;
    U64Back(t.reservation);
  }

  lemma RelayBack(c: Crypto, st: State, t: Turn)
    requires |st.msg.head.tid| == TID_SIZE
    requires !st.msg.turn.requestedTransport && !st.msg.turn.dontFragment && st.msg.turn.reservation == 0
    ensures ApplyAll(c, st, RelayPart(t)) == Some(WithTurn(st, RelayTurn(st.msg.turn, t)))
  {
    hide ApplyAll, Apply;
    var a := Optional(t.requestedTransport, REQUESTED_TRANSPORT, [17, 0, 0, 0]);
    var b := Optional(t.dontFragment, DONT_FRAGMENT, []);
    var d := Optional(t.reservation != 0, RESERVATION_TOKEN, U64(t.reservation));
    var s1 := WithTurn(st, st.msg.turn.(requestedTransport := t.requestedTransport));
    var s2 := WithTurn(st, st.msg.turn.(requestedTransport := t.requestedTransport, dontFragment := t.dontFragment));
    RelayApplied(c, st, t);
    RelayApplied(c, s1, t);
    RelayApplied(c, s2, t);
    OptionalApplied(c, st, t.requestedTransport, REQUESTED_TRANSPORT, [17, 0, 0, 0]);
    OptionalApplied(c, s1, t.dontFragment, DONT_FRAGMENT, []);
    OptionalApplied(c, s2, t.reservation != 0, RESERVATION_TOKEN, U64(t.reservation));
    PairApplied(c, st, a, b, s1, s2);
    PairApplied(c, st, a + b, d, s2, WithTurn(st, RelayTurn(st.msg.turn, t)));
  }

  lemma {:induction false} CStringId(b: Bytes)
    requires 0 !in b
    ensures CString(b) == b
  {
    if b != [] {
      CStringId(b[1..]);
    }
  }

  /** Of the user a request carries the hash if enabled, else the name. */
  function SentUser(m: Message): Credentials {
    if m.head.cls != CLASS_REQUEST then NO_CREDENTIALS
    else if m.credentials.enableUserhash then NO_CREDENTIALS.(userhash := m.credentials.userhash, enableUserhash := true)
    else NO_CREDENTIALS.(username := m.credentials.username)
  }

  /** The algorithm a request with a nonce chooses. */
  function SentChoice(m: Message): nat {
    if m.head.cls == CLASS_REQUEST && m.credentials.nonce != [] then m.credentials.algorithm else ALGORITHM_UNSET
  }

  function WithLongTerm(cr: Credentials, m: Message): Credentials {
    cr.(realm := if SendsLongTerm(m) then m.credentials.realm else [],
        nonce := if SendsLongTerm(m) then m.credentials.nonce else [],
        algorithms := if SentList(m).Some? then SentList(m).value else [],
        algorithm := SentChoice(m))
  }

  /** The security bits a response carries in its nonce. */
  function SentBits(c: Crypto, m: Message): uint32 {
    if SendsLongTerm(m) && m.credentials.nonce != [] then NonceBits(c, m.head.cls, 0, m.credentials.nonce) else 0
  }

  function WithCredentials(st: State, cr: Credentials): State {
    st.(msg := st.msg.(credentials := cr))
  }

  /** What the fields of the C structure guarantee: strings end at their first zero and fit their arrays. */
  predicate FieldsFit(m: Message) {
    && 0 !in m.credentials.username && |m.credentials.username| <= MAX_USERNAME
    && 0 !in m.credentials.realm && |m.credentials.realm| <= MAX_REALM
    && 0 !in m.credentials.nonce && |m.credentials.nonce| <= MAX_REALM
    && m.credentials.algorithm in {ALGORITHM_UNSET, ALGORITHM_MD5, ALGORITHM_SHA256}
    && |m.credentials.algorithms| <= MAX_ALGORITHMS
    && |m.credentials.userhash| == SHA256_SIZE
    && |m.hosts.peers| <= MAX_PEERS
  }

  lemma UserBack(c: Crypto, st: State, m: Message)
    requires |st.msg.head.tid| == TID_SIZE && st.msg.credentials == NO_CREDENTIALS && FieldsFit(m)
    ensures ApplyAll(c, st, UserPart(m)) == Some(WithCredentials(st, SentUser(m)))
  {
    hide CString;
    CStringId(m.credentials.username);
    OptionalApplied(c, st, true, USERHASH, m.credentials.userhash);
    OptionalApplied(c, st, m.credentials.username != [], USERNAME, m.credentials.username);
  }

  /** A list that is sent can be read: it holds an algorithm, and the reader of a request, who looks for one
      it knows, does not meet the end first. */
  predicate ListReadable(m: Message) {
    SentList(m).Some? ==> |SentList(m).value| >= 4 && (m.head.cls == CLASS_REQUEST ==> FirstAlgorithm(SentList(m).value).Some?)
  }

  lemma RealmBack(c: Crypto, st: State, m: Message)
    requires |st.msg.head.tid| == TID_SIZE && st.msg.credentials.realm == [] && FieldsFit(m)
    ensures ApplyAll(c, st, Optional(SendsLongTerm(m) && m.credentials.realm != [], REALM, m.credentials.realm)) ==
              Some(WithCredentials(st, st.msg.credentials.(realm := if SendsLongTerm(m) then m.credentials.realm else [])))
  {
    hide CString;
    CStringId(m.credentials.realm);
    OptionalApplied(c, st, SendsLongTerm(m) && m.credentials.realm != [], REALM, m.credentials.realm);
  }

  lemma NonceBack(c: Crypto, st: State, m: Message)
    requires |st.msg.head.tid| == TID_SIZE && st.msg.head == m.head && st.msg.credentials.nonce == [] && st.bits == 0 && FieldsFit(m)
    ensures ApplyAll(c, st, Optional(SendsLongTerm(m) && m.credentials.nonce != [], NONCE, m.credentials.nonce)) ==
              Some(WithCredentials(st, st.msg.credentials.(nonce := if SendsLongTerm(m) then m.credentials.nonce else [])).(bits := SentBits(c, m)))
  {
    hide CString, NonceBits;
    CStringId(m.credentials.nonce);
    OptionalApplied(c, st, SendsLongTerm(m) && m.credentials.nonce != [], NONCE, m.credentials.nonce);
  }

  /** What the reader of the list takes for the algorithm before it reads the choice. */
  function ListChoice(m: Message): nat {
    if m.head.cls == CLASS_REQUEST && SentList(m).Some? && FirstAlgorithm(SentList(m).value).Some?
    then FirstAlgorithm(SentList(m).value).value else ALGORITHM_UNSET
  }

  lemma ListBack(c: Crypto, st: State, m: Message)
    requires |st.msg.head.tid| == TID_SIZE && st.msg.head == m.head && FieldsFit(m)
    requires st.msg.credentials.algorithms == [] && st.msg.credentials.algorithm == ALGORITHM_UNSET
    ensures ListReadable(m) ==>
              ApplyAll(c, st, ListPart(m)) ==
                Some(WithCredentials(st, st.msg.credentials.(algorithms := if SentList(m).Some? then SentList(m).value else [],
                                                             algorithm := ListChoice(m))))
    ensures !ListReadable(m) ==> ApplyAll(c, st, ListPart(m)).None?
  {
    hide FirstAlgorithm;
    if SentList(m).Some? {
      OptionalApplied(c, st, true, PASSWORD_ALGORITHMS, SentList(m).value);
    }
  }

  lemma ChoiceBack(c: Crypto, st: State, m: Message)
    requires |st.msg.head.tid| == TID_SIZE && st.msg.head == m.head && FieldsFit(m) && st.msg.credentials.algorithm == ListChoice(m)
    ensures ApplyAll(c, st, ChoicePart(c, m)) == Some(WithCredentials(st, st.msg.credentials.(algorithm := SentChoice(m))))
  {
    hide FirstAlgorithm;
    var present := m.head.cls == CLASS_REQUEST && m.credentials.nonce != [] && m.credentials.algorithm != ALGORITHM_UNSET;
    var v := U16(m.credentials.algorithm % 0x1_0000) + U16(c.unset);
    U16Back(m.credentials.algorithm);
    assert FromU16(v) == m.credentials.algorithm;
    OptionalApplied(c, st, present, PASSWORD_ALGORITHM, v);
  }

  lemma LongTermBack(c: Crypto, st: State, m: Message)
    requires |st.msg.head.tid| == TID_SIZE && st.msg.head == m.head && st.bits == 0 && FieldsFit(m)
    requires st.msg.credentials == SentUser(m)
    ensures ListReadable(m) ==>
              ApplyAll(c, st, LongTermPart(c, m)) == Some(WithCredentials(st, WithLongTerm(SentUser(m), m)).(bits := SentBits(c, m)))
    ensures !ListReadable(m) ==> ApplyAll(c, st, LongTermPart(c, m)).None?
  {
    hide ApplyAll, Apply, FirstAlgorithm, NonceBits, ListReadable, ChoicePart;
    var cr := SentUser(m);
    var a := Optional(SendsLongTerm(m) && m.credentials.realm != [], REALM, m.credentials.realm);
    var b := Optional(SendsLongTerm(m) && m.credentials.nonce != [], NONCE, m.credentials.nonce);
    var s1 := WithCredentials(st, cr.(realm := if SendsLongTerm(m) then m.credentials.realm else []));
    var cr2 := s1.msg.credentials.(nonce := if SendsLongTerm(m) then m.credentials.nonce else []);
    var s2 := WithCredentials(s1, cr2).(bits := SentBits(c, m));
    var cr3 := cr2.(algorithms := if SentList(m).Some? then SentList(m).value else [], algorithm := ListChoice(m));
    var s3 := WithCredentials(s2, cr3);
    RealmBack(c, st, m);
    NonceBack(c, s1, m);
    PairApplied(c, st, a, b, s1, s2);
    ListBack(c, s2, m);
    ApplyAllAppend(c, st, a + b, ListPart(m));
    if ListReadable(m) {
      ChoiceBack(c, s3, m);
      PairApplied(c, st, a + b + ListPart(m), ChoicePart(c, m), s3, WithCredentials(s3, cr3.(algorithm := SentChoice(m))));
    } else {
      FailureStays(c, st, a + b + ListPart(m), ChoicePart(c, m));
    }
  }

  // ---------- the whole body ----------

  lemma {:induction false} PeersPlain(peers: seq<Host>, tid: Bytes)
    requires |tid| == TID_SIZE
    ensures AllPlain(PeersPart(peers, tid))
  {
    if peers != [] {
      PeersPlain(peers[1..], tid);
    }
  }

  lemma BodyPlain(c: Crypto, m: Message)
    requires |m.head.tid| == TID_SIZE
    ensures AllPlain(Early(c, m)) && AllPlain(EvenPortPart(m.turn)) && AllPlain(Late(c, m))
  {
    hide ErrorPart, HostPart, IcePart, ChannelPart, PeersPart, DataPart, Late;
    EarlyPlain(c, m);
    LatePlain(c, m);
  }

  lemma LatePlain(c: Crypto, m: Message)
    ensures AllPlain(Late(c, m))
  {
    RelayPlain(m);
    hide RelayPart, UserPart, SentList, U16;
    assert AllPlain(LongTermPart(c, m));
  }

  /** The state after the attributes up to the data. */
  function EarlyState(st: State, m: Message): State {
    st.(msg := st.msg.(errorCode := WireCode(m.errorCode), ice := m.ice,
                       hosts := NO_HOSTS.(mapped := m.hosts.mapped, peers := m.hosts.peers, relayed := m.hosts.relayed),
                       turn := ChannelTurn(m.turn).(data := m.turn.data)))
  }

  predicate IsStart(st: State, m: Message) {
    st == State(StunMessage.Blank(m.head), 0)
  }

  lemma EarlyBack(c: Crypto, st: State, m: Message)
    requires |m.head.tid| == TID_SIZE && IsStart(st, m) && FieldsFit(m)
    ensures ApplyAll(c, st, Early(c, m)) == Some(EarlyState(st, m))
  {
    hide ApplyAll, AllPlain, ErrorPart, HostPart, IcePart, ChannelPart, PeersPart, DataPart, WireCode;
    var tid := m.head.tid;
    var s1 := st.(msg := st.msg.(errorCode := WireCode(m.errorCode)));
    var s2 := s1.(msg := s1.msg.(hosts := NO_HOSTS.(mapped := m.hosts.mapped)));
    var s3 := WithIce(s2, m.ice);
    var s4 := WithTurn(s3, ChannelTurn(m.turn));
    var s5 := WithPeers(s4, m.hosts.peers);
    var s6 := s5.(msg := s5.msg.(hosts := s5.msg.hosts.(relayed := m.hosts.relayed)));
    ErrorBack(c, st, m.errorCode);
    MappedBack(c, s1, m.hosts.mapped);
    IceBack(c, s2, m.ice);
    ChannelBack(c, s3, m.turn);
    PeersBack(c, s4, m.hosts.peers);
    assert s4.msg.hosts.peers + m.hosts.peers == m.hosts.peers;
    RelayedBack(c, s5, m.hosts.relayed);
    DataBack(c, s6, m.turn);
    var p1 := ErrorPart(c, m.errorCode);
    var p2 := p1 + HostPart(m.hosts.mapped, XOR_MAPPED_ADDRESS, tid);
    var p3 := p2 + IcePart(m.ice);
    var p4 := p3 + ChannelPart(m.turn);
    var p5 := p4 + PeersPart(m.hosts.peers, tid);
    var p6 := p5 + HostPart(m.hosts.relayed, XOR_RELAYED_ADDRESS, tid);
    EarlyPlain(c, m);
    PairApplied(c, st, p1, HostPart(m.hosts.mapped, XOR_MAPPED_ADDRESS, tid), s1, s2);
    PairApplied(c, st, p2, IcePart(m.ice), s2, s3);
    PairApplied(c, st, p3, ChannelPart(m.turn), s3, s4);
    PairApplied(c, st, p4, PeersPart(m.hosts.peers, tid), s4, s5);
    PairApplied(c, st, p5, HostPart(m.hosts.relayed, XOR_RELAYED_ADDRESS, tid), s5, s6);
    PairApplied(c, st, p6, DataPart(m.turn), s6, EarlyState(st, m));
  }

  lemma EarlyPlain(c: Crypto, m: Message)
    requires |m.head.tid| == TID_SIZE
    ensures var p1 := ErrorPart(c, m.errorCode);
            var p2 := p1 + HostPart(m.hosts.mapped, XOR_MAPPED_ADDRESS, m.head.tid);
            var p3 := p2 + IcePart(m.ice);
            var p4 := p3 + ChannelPart(m.turn);
            var p5 := p4 + PeersPart(m.hosts.peers, m.head.tid);
            var p6 := p5 + HostPart(m.hosts.relayed, XOR_RELAYED_ADDRESS, m.head.tid);
            && AllPlain(p1) && AllPlain(p2) && AllPlain(p3) && AllPlain(p4) && AllPlain(p5) && AllPlain(p6)
            && AllPlain(p6 + DataPart(m.turn))
  {
    var p1, q2 := ErrorPart(c, m.errorCode), HostPart(m.hosts.mapped, XOR_MAPPED_ADDRESS, m.head.tid);
    var q3, q4, q5 := IcePart(m.ice), ChannelPart(m.turn), PeersPart(m.hosts.peers, m.head.tid);
    var q6, q7 := HostPart(m.hosts.relayed, XOR_RELAYED_ADDRESS, m.head.tid), DataPart(m.turn);
    PartsPlain(c, m);
    PeersPlain(m.hosts.peers, m.head.tid);
    hide ErrorPart, HostPart, IcePart, ChannelPart, PeersPart, DataPart, AllPlain;
    PlainJoin(p1, q2);
    PlainJoin(p1 + q2, q3);
    PlainJoin(p1 + q2 + q3, q4);
    PlainJoin(p1 + q2 + q3 + q4, q5);
    PlainJoin(p1 + q2 + q3 + q4 + q5, q6);
    PlainJoin(p1 + q2 + q3 + q4 + q5 + q6, q7);
  }

  lemma PlainJoin(a: seq<Attr>, b: seq<Attr>)
    requires AllPlain(a) && AllPlain(b)
    ensures AllPlain(a + b)
  {
  }

  lemma PartsPlain(c: Crypto, m: Message)
    requires |m.head.tid| == TID_SIZE
    ensures AllPlain(ErrorPart(c, m.errorCode)) && AllPlain(HostPart(m.hosts.mapped, XOR_MAPPED_ADDRESS, m.head.tid))
    ensures AllPlain(IcePart(m.ice)) && AllPlain(ChannelPart(m.turn))
    ensures AllPlain(HostPart(m.hosts.relayed, XOR_RELAYED_ADDRESS, m.head.tid)) && AllPlain(DataPart(m.turn))
  {
    hide HostValue;
    IcePlain(m.ice);
    ChannelPlain(m.turn);
    hide IcePart, ChannelPart;
  }

  lemma IcePlain(i: Ice)
    ensures AllPlain(IcePart(i))
  {
    hide U32, U64;
    var a, b := Optional(i.priority != 0, PRIORITY, U32(i.priority)), Optional(i.useCandidate, USE_CANDIDATE, []);
    var d := Optional(i.controlling != 0, ICE_CONTROLLING, U64(i.controlling));
    var e := Optional(i.controlled != 0, ICE_CONTROLLED, U64(i.controlled));
    assert AllPlain(a) && AllPlain(b) && AllPlain(d) && AllPlain(e);
    hide AllPlain;
    PlainJoin(a, b);
    PlainJoin(a + b, d);
    PlainJoin(a + b + d, e);
  }

  lemma ChannelPlain(t: Turn)
    ensures AllPlain(ChannelPart(t))
  {
    hide U32;
  }

  function LateState(c: Crypto, st: State, m: Message): State {
    WithCredentials(WithTurn(st, RelayTurn(st.msg.turn, m.turn)), WithLongTerm(SentUser(m), m)).(bits := SentBits(c, m))
  }

  lemma LateBack(c: Crypto, st: State, m: Message)
    requires |m.head.tid| == TID_SIZE && st.msg.head == m.head && st.msg.credentials == NO_CREDENTIALS && st.bits == 0 && FieldsFit(m)
    requires !st.msg.turn.requestedTransport && !st.msg.turn.dontFragment && st.msg.turn.reservation == 0
    ensures ListReadable(m) ==> ApplyAll(c, st, Late(c, m)) == Some(LateState(c, st, m))
    ensures !ListReadable(m) ==> ApplyAll(c, st, Late(c, m)).None?
  {
    hide ApplyAll, RelayPart, UserPart, SentUser, LongTermPart, ListReadable, WithLongTerm, SentBits;
    var s1 := WithTurn(st, RelayTurn(st.msg.turn, m.turn));
    var s2 := WithCredentials(s1, SentUser(m));
    RelayBack(c, st, m.turn);
    OptionalApplied(c, s1, true, SOFTWARE, LIBJUICE);
    UserBack(c, s1, m);
    RelayPlain(m);
    var software := RelayPart(m.turn) + [Attr(SOFTWARE, LIBJUICE)];
    PairApplied(c, st, RelayPart(m.turn), [Attr(SOFTWARE, LIBJUICE)], s1, s1);
    PairApplied(c, st, software, UserPart(m), s1, s2);
    LongTermBack(c, s2, m);
    ApplyAllAppend(c, st, software + UserPart(m), LongTermPart(c, m));
  }

  lemma RelayPlain(m: Message)
    ensures AllPlain(RelayPart(m.turn)) && AllPlain(RelayPart(m.turn) + [Attr(SOFTWARE, LIBJUICE)])
    ensures AllPlain(RelayPart(m.turn) + [Attr(SOFTWARE, LIBJUICE)] + UserPart(m))
  {
    hide U64;
  }

  /** The body of a message without the even-port flag, read into a blank message. */
  lemma BodyBack(c: Crypto, st: State, m: Message)
    requires |m.head.tid| == TID_SIZE && IsStart(st, m) && FieldsFit(m) && !m.turn.evenPort
    ensures ListReadable(m) ==> ApplyAll(c, st, Body(c, m)) == Some(LateState(c, EarlyState(st, m), m))
    ensures !ListReadable(m) ==> ApplyAll(c, st, Body(c, m)).None?
  {
    hide ApplyAll, Early, Late, LateState, ListReadable;
    EarlyBack(c, st, m);
    LateBack(c, EarlyState(st, m), m);
    BodyPlain(c, m);
    assert Early(c, m) + EvenPortPart(m.turn) == Early(c, m);
    ApplyAllAppend(c, st, Early(c, m), Late(c, m));
  }

  /** With the flag the reader meets a channel number of one byte and rejects the message. */
  lemma EvenPortRejected(c: Crypto, st: State, m: Message)
    requires |m.head.tid| == TID_SIZE && IsStart(st, m) && FieldsFit(m) && m.turn.evenPort
    ensures ApplyAll(c, st, Body(c, m)).None?
  {
    hide ApplyAll, Early, Late;
    EarlyBack(c, st, m);
    BodyPlain(c, m);
    OptionalApplied(c, EarlyState(st, m), true, CHANNEL_NUMBER, [if m.turn.nextPort then 0x80 else 0]);
    ApplyAllAppend(c, st, Early(c, m), EvenPortPart(m.turn));
    FailureStays(c, st, Early(c, m) + EvenPortPart(m.turn), Late(c, m));
  }

  // ---------- the message on the wire ----------

  lemma HeaderBack(h: Head, length: nat, rest: Bytes)
    requires h.cls in {CLASS_REQUEST, CLASS_INDICATION, CLASS_SUCCESS, CLASS_ERROR}
    requires h.verb < 0x1_0000 && ClassOf(h.verb) == 0 && |h.tid| == TID_SIZE && h.cls + h.verb < 0x1_0000
    requires length < 0x1_0000
    ensures var b := Header(h, length) + rest;
            MessageLength(b) == length && Start(b) == State(StunMessage.Blank(h), 0)
  {
    hide ClassOf;
    var b := Header(h, length) + rest;
    assert b[2..4] == U16(length);
    U16Back(length);
    assert b[..2] == U16(h.cls + h.verb);
    U16Back(h.cls + h.verb);
    assert FromU16(b) == FromU16(b[..2]);
    assert b[8..HEADER_SIZE] == h.tid;
    ClassBack(h.cls, h.verb);
  }

  lemma ClassBack(cls: nat, verb: uint16)
    requires cls in {CLASS_REQUEST, CLASS_INDICATION, CLASS_SUCCESS, CLASS_ERROR}
    requires ClassOf(verb) == 0 && cls + verb < 0x1_0000
    ensures ClassOf(cls + verb) == cls
  {
    VerbBits(verb);
    var x, y := if cls >= 0x100 then 1 else 0, if cls % 0x100 == 0x10 then 1 else 0;
    assert cls == 256 * x + 16 * y;
    SumBits(verb / 512, verb % 512 / 32, verb % 32, x, y);
  }

  lemma VerbBits(verb: uint16)
    requires ClassOf(verb) == 0
    ensures verb == 512 * (verb / 512) + 32 * (verb % 512 / 32) + verb % 32
    ensures verb % 512 / 32 < 8 && verb % 32 < 16
  {
  }

  lemma SumBits(high: nat, mid: nat, low: nat, x: nat, y: nat)
    requires mid < 8 && low < 16 && x < 2 && y < 2
    requires 512 * high + 256 * x + 32 * mid + 16 * y + low < 0x1_0000
    ensures ClassOf(512 * high + 256 * x + 32 * mid + 16 * y + low) == 256 * x + 16 * y
  {
    var n := 512 * high + 256 * x + 32 * mid + 16 * y + low;
    assert n / 256 == 2 * high + x;
    assert n / 16 == 32 * high + 16 * x + 2 * mid + y;
  }

  /** Attribute number |xs| of the list, and what was there when it was computed. */
  lemma Placed(h: Head, length: nat, xs: seq<Attr>, a: Attr, ys: seq<Attr>, size: nat)
    requires h.cls + h.verb < 0x1_0000 && |h.tid| == TID_SIZE
    ensures var b := Header(h, length) + AllBytes(xs + [a] + ys);
            var pos := HEADER_SIZE + |AllBytes(xs)|;
            && pos <= |b| && Has(b, pos, AttrBytes(a))
            && Before(b, pos, size) == Header(h, |AllBytes(xs)| + ATTR_SIZE + size) + AllBytes(xs)
  {
    hide AllBytes, AttrBytes;
    AllBytesAppend(xs + [a], ys);
    AllBytesAppend(xs, [a]);
    AllBytesOne(a);
    Slices(h, length, AllBytes(xs), AttrBytes(a), AllBytes(ys), size);
  }

  lemma Slices(h: Head, length: nat, x: Bytes, y: Bytes, z: Bytes, size: nat)
    requires h.cls + h.verb < 0x1_0000 && |h.tid| == TID_SIZE
    ensures var b := Header(h, length) + (x + y + z);
            && Has(b, HEADER_SIZE, x) && Has(b, HEADER_SIZE + |x|, y)
            && Before(b, HEADER_SIZE + |x|, size) == Header(h, |x| + ATTR_SIZE + size) + x
  {
    var b := Header(h, length) + (x + y + z);
    assert b[..2] == U16(h.cls + h.verb);
    assert b[4..HEADER_SIZE + |x|] == U32(MAGIC) + h.tid + x;
    assert Before(b, HEADER_SIZE + |x|, size) == b[..2] + U16((|x| + ATTR_SIZE + size) % 0x1_0000) + b[4..HEADER_SIZE + |x|];
  }

  predicate Signs(m: Message, password: Option<Bytes>) {
    m.head.cls != CLASS_INDICATION && password.Some?
  }

  /** The length of the message fits its header field; then every attribute fits its own. */
  predicate Fits(c: Crypto, m: Message, password: Option<Bytes>)
    requires Writable(m)
  {
    |AllBytes(Written(c, m, password))| < 0x1_0000
  }

  /** The reader of a request finds a list other than our own and marks the message. */
  predicate Marked(m: Message) {
    m.head.cls == CLASS_REQUEST && SentList(m).Some? && SentList(m).value != OUR_ALGORITHMS
  }

  /** The credentials as the reader leaves them: a request without an algorithm is taken to mean MD5, and the
      bits in the nonce of a response can ask for the user hash. */
  function CarriedCredentials(c: Crypto, m: Message): Credentials {
    var cr := WithLongTerm(SentUser(m), m);
    cr.(algorithm := if IsResponse(m.head.cls) || SentList(m).Some? then SentChoice(m) else ALGORITHM_MD5,
        enableUserhash := cr.enableUserhash || SentBits(c, m) / 2 % 2 == 1)
  }

  /** What is carried: all that the message holds but for the parts that have no attribute of their own. */
  function Carried(c: Crypto, m: Message, signed: bool): Message {
    Message(m.head, if Marked(m) then VALIDATION_FAILED else WireCode(m.errorCode), m.ice, m.hosts.(alternate := None),
            m.turn.(lifetimeSet := m.turn.lifetimeSet || m.turn.lifetime != 0, nextPort := false),
            CarriedCredentials(c, m), signed, true)
  }

  function Flagged(st: State, integrity: bool, fingerprint: bool): State {
    st.(msg := st.msg.(hasIntegrity := integrity, hasFingerprint := fingerprint))
  }

  /** The last attribute: accepted, and the end of the message. */
  lemma ReadFingerprint(c: Crypto, m: Message, xs: seq<Attr>, st: State)
    requires Writable(m) && |st.msg.head.tid| == TID_SIZE && !st.msg.hasFingerprint
    requires |AllBytes(xs + [FingerprintPart(c, m, xs)])| < 0x1_0000
    ensures var attrs := xs + [FingerprintPart(c, m, xs)];
            var b := Header(m.head, |AllBytes(attrs)|) + AllBytes(attrs);
            var pos := HEADER_SIZE + |AllBytes(xs)|;
            pos <= |b| && ReadFrom(c, b, pos, |b|, st) == Some(Flagged(st, st.msg.hasIntegrity, true))
  {
    hide AllBytes, AttrBytes, Apply, Kind, Length, Value, Before, Header;
    var a := FingerprintPart(c, m, xs);
    var attrs := xs + [a];
    assert attrs == xs + [a] + [];
    AllBytesAppend(xs, [a]);
    AllBytesOne(a);
    var b := Header(m.head, |AllBytes(attrs)|) + AllBytes(attrs);
    var pos := HEADER_SIZE + |AllBytes(xs)|;
    Placed(m.head, |AllBytes(attrs)|, xs, a, [], 4);
    AttrBack(b, pos, a);
    FingerprintBack(c, m, xs, b, pos);
    ReadLast(c, b, pos, st);
  }

  lemma FingerprintBack(c: Crypto, m: Message, xs: seq<Attr>, b: Bytes, pos: nat)
    requires Writable(m) && pos == HEADER_SIZE + |AllBytes(xs)| && pos + ATTR_SIZE + 4 <= |b|
    requires Before(b, pos, 4) == Prefix(m, xs, 4)
    requires Length(b, pos) == 4 && Value(b, pos) == FingerprintPart(c, m, xs).value
    ensures FingerprintOk(c, b, pos)
  {
    hide Before, Prefix, U32, FromU32, Length;
    U32Back(Xor32(c.crc32(Prefix(m, xs, 4)), FINGERPRINT_XOR));
  }

  lemma ReadLast(c: Crypto, b: Bytes, pos: nat, st: State)
    requires HEADER_SIZE <= pos && |st.msg.head.tid| == TID_SIZE && !st.msg.hasFingerprint && pos < |b|
    requires InBounds(b, pos, |b|) && Kind(b, pos) == FINGERPRINT && Length(b, pos) == 4 && FingerprintOk(c, b, pos)
    requires Next(b, pos) == |b|
    ensures ReadFrom(c, b, pos, |b|, st) == Some(Flagged(st, st.msg.hasIntegrity, true))
  {
    hide Apply, FingerprintOk, Kind, Length;
    var r := ReadAttr(c, b, pos, |b|, st);
    assert r == Some(Flagged(st, st.msg.hasIntegrity, true));
    assert ReadFrom(c, b, pos, |b|, st) == ReadFrom(c, b, Next(b, pos), |b|, r.value);
  }

  /** An integrity attribute in the middle only sets the flag. */
  lemma ReadIntegrity(c: Crypto, m: Message, xs: seq<Attr>, a: Attr, ys: seq<Attr>, st: State)
    requires Writable(m) && |st.msg.head.tid| == TID_SIZE && !st.msg.hasFingerprint
    requires IsIntegrity(a.kind) && |a.value| == DigestSize(a.kind)
    requires |AllBytes(xs + [a] + ys)| < 0x1_0000
    ensures var attrs := xs + [a] + ys;
            var b := Header(m.head, |AllBytes(attrs)|) + AllBytes(attrs);
            var pos, next := HEADER_SIZE + |AllBytes(xs)|, HEADER_SIZE + |AllBytes(xs + [a])|;
            pos <= next <= |b| && ReadFrom(c, b, pos, |b|, st) == ReadFrom(c, b, next, |b|, Flagged(st, true, false))
  {
    hide AllBytes, AttrBytes, Kind, Length, Value, InBounds, ReadAttr;
    var attrs := xs + [a] + ys;
    var b := Header(m.head, |AllBytes(attrs)|) + AllBytes(attrs);
    var pos := HEADER_SIZE + |AllBytes(xs)|;
    AllBytesAppend(xs + [a], ys);
    AllBytesAppend(xs, [a]);
    AllBytesOne(a);
    Placed(m.head, |AllBytes(attrs)|, xs, a, ys, 0);
    AttrBack(b, pos, a);
    ReadOne(c, b, pos, |b|, st, a);
    ApplyIntegrity(c, st, a);
  }

  lemma ApplyIntegrity(c: Crypto, st: State, a: Attr)
    requires |st.msg.head.tid| == TID_SIZE && !st.msg.hasFingerprint && IsIntegrity(a.kind) && |a.value| == DigestSize(a.kind)
    ensures Apply(c, st, a.kind, a.value) == Some(Flagged(st, true, false))
  {
  }

  // ---------- round trip ----------

  /** Reading past the integrity attributes and the fingerprint. */
  lemma ReadTail(c: Crypto, m: Message, password: Option<Bytes>, st: State)
    requires Writable(m) && Fits(c, m, password)
    requires |st.msg.head.tid| == TID_SIZE && !st.msg.hasIntegrity && !st.msg.hasFingerprint
    ensures var b := Encode(c, m, password);
            var pos := HEADER_SIZE + |AllBytes(Body(c, m))|;
            pos <= |b| && ReadFrom(c, b, pos, |b|, st) == Some(Flagged(st, Signs(m, password), true))
  {
    hide AllBytes, ReadFrom, Body, HmacKey, Prefix, Header;
    var xs := Body(c, m);
    var attrs := Written(c, m, password);
    var signed := Signed(c, m, password, xs);
    if !Signs(m, password) {
      ReadFingerprint(c, m, xs, st);
    } else {
      var key := HmacKey(c, m.credentials, password.value);
      var a := Sha1Part(c, m, key, xs);
      var once := xs + [a];
      var st1 := Flagged(st, true, false);
      if m.credentials.algorithm == ALGORITHM_UNSET {
        assert attrs == xs + [a] + [FingerprintPart(c, m, once)];
        ReadIntegrity(c, m, xs, a, [FingerprintPart(c, m, once)], st);
        ReadFingerprint(c, m, once, st1);
      } else {
        var d := Sha256Part(c, m, key, once);
        var f := FingerprintPart(c, m, once + [d]);
        assert attrs == xs + [a] + [d, f];
        ReadIntegrity(c, m, xs, a, [d, f], st);
        assert attrs == once + [d] + [f];
        ReadIntegrity(c, m, once, d, [f], st1);
        ReadFingerprint(c, m, once + [d], st1);
      }
    }
  }

  /** The body lies at the front of what is written. */
  lemma BodyPlaced(c: Crypto, m: Message, password: Option<Bytes>)
    requires Writable(m)
    ensures Has(Encode(c, m, password), HEADER_SIZE, AllBytes(Body(c, m)))
  {
    hide AllBytes, Body, HmacKey, Prefix;
    var xs := Body(c, m);
    var attrs := Written(c, m, password);
    var ys := attrs[|xs|..];
    assert xs <= Signed(c, m, password, xs) <= attrs;
    assert attrs == xs + ys;
    AllBytesAppend(xs, ys);
  }

  /** What the loop of the reader makes of a written message. */
  lemma ReadWritten(c: Crypto, m: Message, password: Option<Bytes>)
    requires Writable(m) && FieldsFit(m) && Fits(c, m, password)
    ensures var b := Encode(c, m, password);
            && Framed(b) && HEADER_SIZE + MessageLength(b) == |b| && IsStart(Start(b), m)
            && var r := ApplyAll(c, Start(b), Body(c, m));
               ReadFrom(c, b, HEADER_SIZE, |b|, Start(b)) ==
                 if r.None? then None else Some(Flagged(r.value, Signs(m, password), true))
  {
    hide AllBytes, ReadFrom, Body, ApplyAll, Written, Header, Start, MessageLength;
    var b := Encode(c, m, password);
    HeaderBack(m.head, |AllBytes(Written(c, m, password))|, AllBytes(Written(c, m, password)));
    BodyPlaced(c, m, password);
    WholeBodyPlain(c, m);
    var st := Start(b);
    ReadPlain(c, b, HEADER_SIZE, |b|, st, Body(c, m));
    ApplyAllKeeps(c, st, Body(c, m));
    var r := ApplyAll(c, st, Body(c, m));
    if r.Some? {
      ReadTail(c, m, password, r.value);
    }
  }

  lemma WholeBodyPlain(c: Crypto, m: Message)
    requires |m.head.tid| == TID_SIZE
    ensures AllPlain(Body(c, m))
  {
    hide Early, Late, EvenPortPart;
    BodyPlain(c, m);
  }

  /** stun_read of what stun_write wrote returns every field that goes on the wire, with the fingerprint
      checked. */
  lemma RoundTrip(c: Crypto, m: Message, password: Option<Bytes>)
    requires Writable(m) && FieldsFit(m) && Fits(c, m, password) && !m.turn.evenPort && ListReadable(m)
    ensures Read(c, Encode(c, m, password)) == Some(Carried(c, m, Signs(m, password)))
  {
    hide ReadFrom, Body, ApplyAll, Encode, Start, MessageLength, Finish, Carried, LateState, EarlyState, Flagged, Signs, ClassOf, ListReadable;
    var b := Encode(c, m, password);
    ReadWritten(c, m, password);
    BodyBack(c, Start(b), m);
    FinishedIsCarried(c, State(StunMessage.Blank(m.head), 0), m, Signs(m, password));
  }

  lemma FinishedIsCarried(c: Crypto, st: State, m: Message, signed: bool)
    requires IsStart(st, m) && !m.turn.evenPort && ListReadable(m) && Writable(m) && FieldsFit(m)
    ensures Finish(Flagged(LateState(c, EarlyState(st, m), m), signed, true)) == Carried(c, m, signed)
  {
    hide WireCode, ClassOf, FirstAlgorithm, NonceBits;
    var late := LateState(c, EarlyState(st, m), m);
    CodeCarried(c, m);
  }

  lemma CodeCarried(c: Crypto, m: Message)
    requires ListReadable(m) && Writable(m) && FieldsFit(m)
    ensures var cr := WithLongTerm(SentUser(m), m);
            && FinalCode(m.head.cls, WireCode(m.errorCode), cr, SentBits(c, m)) == (if Marked(m) then VALIDATION_FAILED else WireCode(m.errorCode))
            && FinalCredentials(m.head.cls, cr, SentBits(c, m)) == CarriedCredentials(c, m)
  {
    hide WireCode, ClassOf, FirstAlgorithm, NonceBits;
  }

  /** What is written can be read back, but for two cases that spoil the whole message: the even-port flag,
      and a list of password algorithms that is too short or that ends in the middle of one. */
  lemma ReadableIff(c: Crypto, m: Message, password: Option<Bytes>)
    requires Writable(m) && FieldsFit(m) && Fits(c, m, password)
    ensures Read(c, Encode(c, m, password)).Some? <==> !m.turn.evenPort && ListReadable(m)
  {
    hide ReadFrom, Body, ApplyAll, Encode, Start, MessageLength, Finish, Carried, Flagged, Signs, ClassOf, ListReadable;
    if m.turn.evenPort {
      ReadWritten(c, m, password);
      EvenPortRejected(c, Start(Encode(c, m, password)), m);
    } else if ListReadable(m) {
      RoundTrip(c, m, password);
    } else {
      ReadWritten(c, m, password);
      BodyBack(c, Start(Encode(c, m, password)), m);
    }
  }

  /** On a message that sets no field without an attribute nothing is lost: user name, realm and nonce of a
      request come through, and with a nonce the choice of an algorithm and the list it was made from. */
  lemma NothingLost(c: Crypto, m: Message, signed: bool)
    requires m.errorCode < 800 && m.hosts.alternate == None && !m.turn.evenPort && !m.turn.nextPort && !Marked(m)
    requires m.turn.lifetime != 0 ==> m.turn.lifetimeSet
    ensures Carried(c, m, signed).(credentials := m.credentials, hasIntegrity := m.hasIntegrity, hasFingerprint := m.hasFingerprint) == m
    ensures var cr := Carried(c, m, signed).credentials;
            && (SendsLongTerm(m) ==> cr.realm == m.credentials.realm && cr.nonce == m.credentials.nonce)
            && (m.head.cls == CLASS_REQUEST && !m.credentials.enableUserhash ==> cr.username == m.credentials.username)
            && (m.head.cls == CLASS_REQUEST && m.credentials.nonce != [] && m.credentials.algorithm != ALGORITHM_UNSET ==>
                  cr.algorithm == m.credentials.algorithm && cr.algorithms == m.credentials.algorithms)
  {
    CodeIsExact(m.errorCode);
  }

  // ---------- integrity ----------

  lemma {:induction false} WalkPlain(c: Crypto, b: Bytes, pos: nat, end: nat, key: Bytes, attrs: seq<Attr>, success: bool)
    requires HEADER_SIZE <= pos && pos + |AllBytes(attrs)| <= end <= |b| && end - pos < 0x1_0000
    requires AllPlain(attrs) && Has(b, pos, AllBytes(attrs)) && WellFormed(b, pos, end)
    ensures WellFormed(b, pos + |AllBytes(attrs)|, end)
    ensures WalkFrom(c, b, pos, end, key, success) == WalkFrom(c, b, pos + |AllBytes(attrs)|, end, key, success)
    decreases |attrs|
  {
    hide Has, AttrBytes, Value, Length, Kind, Genuine;
    if attrs != [] {
      var a := attrs[0];
      assert IsPlain(a);
      HasSplit(b, pos, AttrBytes(a), AllBytes(attrs[1..]));
      AttrBack(b, pos, a);
      WalkPlain(c, b, pos + |AttrBytes(a)|, end, key, attrs[1..], success);
    }
  }

  /** An integrity attribute computed by the writer is found genuine. */
  lemma WalkIntegrity(c: Crypto, m: Message, xs: seq<Attr>, a: Attr, ys: seq<Attr>, key: Bytes, success: bool)
    requires Writable(m) && |AllBytes(xs + [a] + ys)| < 0x1_0000
    requires a == Sha1Part(c, m, key, xs) || a == Sha256Part(c, m, key, xs)
    requires var attrs := xs + [a] + ys;
             var b := Header(m.head, |AllBytes(attrs)|) + AllBytes(attrs);
             HEADER_SIZE + |AllBytes(xs)| <= |b| && WellFormed(b, HEADER_SIZE + |AllBytes(xs)|, |b|)
    ensures var attrs := xs + [a] + ys;
            var b := Header(m.head, |AllBytes(attrs)|) + AllBytes(attrs);
            var pos, next := HEADER_SIZE + |AllBytes(xs)|, HEADER_SIZE + |AllBytes(xs + [a])|;
            next <= |b| && WellFormed(b, next, |b|)
            && WalkFrom(c, b, pos, |b|, key, success) == WalkFrom(c, b, next, |b|, key, true)
  {
    hide AllBytes, AttrBytes, Kind, Length, Value, Header, Before;
    var attrs := xs + [a] + ys;
    var b := Header(m.head, |AllBytes(attrs)|) + AllBytes(attrs);
    var pos := HEADER_SIZE + |AllBytes(xs)|;
    AllBytesAppend(xs + [a], ys);
    AllBytesAppend(xs, [a]);
    AllBytesOne(a);
    Placed(m.head, |AllBytes(attrs)|, xs, a, ys, DigestSize(a.kind));
    AttrBack(b, pos, a);
    assert Genuine(c, b, pos, key);
  }

  lemma WalkLast(c: Crypto, m: Message, xs: seq<Attr>, key: Bytes, success: bool)
    requires Writable(m) && |AllBytes(xs + [FingerprintPart(c, m, xs)])| < 0x1_0000
    requires var attrs := xs + [FingerprintPart(c, m, xs)];
             var b := Header(m.head, |AllBytes(attrs)|) + AllBytes(attrs);
             HEADER_SIZE + |AllBytes(xs)| <= |b| && WellFormed(b, HEADER_SIZE + |AllBytes(xs)|, |b|)
    ensures var attrs := xs + [FingerprintPart(c, m, xs)];
            var b := Header(m.head, |AllBytes(attrs)|) + AllBytes(attrs);
            WalkFrom(c, b, HEADER_SIZE + |AllBytes(xs)|, |b|, key, success) == success
  {
    hide AllBytes, AttrBytes, Kind, Length, Value, Header, Before, Prefix;
    var a := FingerprintPart(c, m, xs);
    var attrs := xs + [a];
    assert attrs == xs + [a] + [];
    var b := Header(m.head, |AllBytes(attrs)|) + AllBytes(attrs);
    AllBytesAppend(xs, [a]);
    AllBytesOne(a);
    Placed(m.head, |AllBytes(attrs)|, xs, a, [], 4);
    AttrBack(b, HEADER_SIZE + |AllBytes(xs)|, a);
  }

  lemma WalkTail(c: Crypto, m: Message, password: Bytes, key: Bytes)
    requires Writable(m) && Fits(c, m, Some(password)) && Signs(m, Some(password)) && key == HmacKey(c, m.credentials, password)
    requires var b := Encode(c, m, Some(password));
             HEADER_SIZE + |AllBytes(Body(c, m))| <= |b| && WellFormed(b, HEADER_SIZE + |AllBytes(Body(c, m))|, |b|)
    ensures var b := Encode(c, m, Some(password));
            WalkFrom(c, b, HEADER_SIZE + |AllBytes(Body(c, m))|, |b|, key, false)
  {
    hide AllBytes, WalkFrom, WellFormed, Body, HmacKey, Prefix, Header;
    var xs := Body(c, m);
    var attrs := Written(c, m, Some(password));
    var a := Sha1Part(c, m, key, xs);
    var once := xs + [a];
    if m.credentials.algorithm == ALGORITHM_UNSET {
      assert attrs == xs + [a] + [FingerprintPart(c, m, once)];
      WalkIntegrity(c, m, xs, a, [FingerprintPart(c, m, once)], key, false);
      WalkLast(c, m, once, key, true);
    } else {
      var d := Sha256Part(c, m, key, once);
      var f := FingerprintPart(c, m, once + [d]);
      assert attrs == xs + [a] + [d, f];
      WalkIntegrity(c, m, xs, a, [d, f], key, false);
      assert attrs == once + [d] + [f];
      WalkIntegrity(c, m, once, d, [f], key, true);
      WalkLast(c, m, once + [d], key, true);
    }
  }

  /** stun_check_integrity accepts what stun_write signed, under the same password, whatever the hashes: for
      any receiver whose credentials make the same key. */
  lemma IntegrityAcceptedBy(c: Crypto, m: Message, password: Bytes, receiver: Message)
    requires Writable(m) && FieldsFit(m) && Fits(c, m, Some(password)) && !m.turn.evenPort && ListReadable(m) && Signs(m, Some(password))
    requires receiver.hasIntegrity && HmacKey(c, receiver.credentials, password) == HmacKey(c, m.credentials, password)
    ensures var b := Encode(c, m, Some(password));
            Read(c, b).Some? && Authentic(c, b, receiver, password)
  {
    hide AllBytes, WalkFrom, WellFormed, Body, ReadFrom, Encode, Start, MessageLength, ApplyAll, Read, HmacKey, ListReadable, Carried,
         Written, FieldsFit, AllPlain;
    var b := Encode(c, m, Some(password));
    RoundTrip(c, m, Some(password));
    ReadAllowsWalk(c, b);
    ReadWritten(c, m, Some(password));
    BodyPlaced(c, m, Some(password));
    WholeBodyPlain(c, m);
    var key := HmacKey(c, m.credentials, password);
    WithinHeader(c, m, Some(password));
    WalkPlain(c, b, HEADER_SIZE, |b|, key, Body(c, m), false);
    WalkTail(c, m, password, key);
  }

  /** What the key is made of besides the password: for long-term credentials the user, the realm and whether
      SHA-256 is chosen. */
  function KeyParts(cr: Credentials): Option<(Bytes, Bytes, bool)> {
    if cr.realm == [] then None else Some((cr.username, cr.realm, cr.algorithm == ALGORITHM_SHA256))
  }

  lemma PartsMakeKey(c: Crypto, a: Credentials, b: Credentials, password: Bytes)
    requires KeyParts(a) == KeyParts(b)
    ensures HmacKey(c, a, password) == HmacKey(c, b, password)
  {
  }

  /** The message carries all of it: short-term credentials need nothing, long-term ones the realm, the user
      name, and with SHA-256 the choice, which goes with a nonce. */
  predicate KeyCarried(m: Message) {
    || m.credentials.realm == []
    || (&& SendsLongTerm(m)
        && ((m.head.cls == CLASS_REQUEST && !m.credentials.enableUserhash) || m.credentials.username == [])
        && (m.credentials.algorithm == ALGORITHM_SHA256 ==> SentChoice(m) == ALGORITHM_SHA256))
  }

  lemma KeyCarriedIff(c: Crypto, m: Message, signed: bool)
    requires Writable(m) && FieldsFit(m)
    ensures KeyCarried(m) <==> KeyParts(Carried(c, m, signed).credentials) == KeyParts(m.credentials)
  {
    hide NonceBits, WireCode;
  }

  /** A receiver that has nothing but the message and the password accepts it if the message carries what the
      key is made of. */
  lemma IntegrityAccepted(c: Crypto, m: Message, password: Bytes)
    requires Writable(m) && FieldsFit(m) && Fits(c, m, Some(password)) && !m.turn.evenPort && ListReadable(m) && Signs(m, Some(password))
    requires KeyCarried(m)
    ensures var b := Encode(c, m, Some(password));
            Read(c, b).Some? && Authentic(c, b, Read(c, b).value, password)
  {
    hide Encode, Read, Authentic, KeyParts, HmacKey, KeyCarried, ListReadable, Written;
    RoundTrip(c, m, Some(password));
    var r := Carried(c, m, true);
    KeyCarriedIff(c, m, true);
    PartsMakeKey(c, r.credentials, m.credentials, password);
    IntegrityAcceptedBy(c, m, password, r);
  }

  lemma WithinHeader(c: Crypto, m: Message, password: Option<Bytes>)
    requires Writable(m) && Fits(c, m, password)
    ensures HEADER_SIZE <= |Encode(c, m, password)| < HEADER_SIZE + 0x1_0000
  {
    hide AllBytes, Written;
  }
}
