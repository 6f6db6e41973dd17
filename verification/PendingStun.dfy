/**
 The registry with the STUN codec in place: what a datagram from an unmapped source turns out to be and
 when a request is authentic are no longer left open, but read from its bytes by stun_read and
 stun_check_integrity.
 */
module PendingStun {
  import opened Addr
  import opened Basics
  import opened StunBytes
  import opened StunMessage
  import StunRead
  import StunReader
  import Spec = PendingSpec
  import Runs = PendingRuns
  import Outcomes = PendingOutcomes
  import StunWrite
  import StunRoundTrip

  const METHOD_BINDING := 0x0001

  /** is_stun_datagram. */
  predicate IsStun(b: Bytes) {
    && b != [] && b[0] < 64 && |b| >= HEADER_SIZE
    && FromU32(b[4..8]) == MAGIC
    && StunRead.MessageLength(b) % 4 == 0 && |b| == HEADER_SIZE + StunRead.MessageLength(b)
  }

  function TextOf(b: Bytes): (s: string)
    ensures |s| == |b|
  {
    seq(|b|, i requires 0 <= i < |b| => b[i] as char)
  }

  function BytesOf(s: string): (b: Bytes)
    ensures |b| == |s|
  {
    seq(|s|, i requires 0 <= i < |s| => s[i] as int % 256)
  }

  predicate IsCheck(m: Message) {
    m.head.cls == CLASS_REQUEST && m.head.verb == METHOD_BINDING && m.hasIntegrity
  }

  /** The first half of lookup_agent. */
  function Parse(c: Crypto, b: Bytes): Spec.Parsed {
    if !IsStun(b) then Spec.NotStun
    else match StunRead.Read(c, b)
      case None => Spec.Unreadable
      case Some(m) =>
        if IsCheck(m) then Spec.BindingRequest(Spec.Fragments(TextOf(m.credentials.username)))
        else if IsResponse(m.head.cls) then Spec.Response
        else Spec.Unexpected
  }

  predicate Authentic(c: Crypto, b: Bytes, password: string) {
    StunRead.Read(c, b).Some? && StunRead.Authentic(c, b, StunRead.Read(c, b).value, BytesOf(password))
  }

  function EnvOf(c: Crypto): Spec.Env {
    Spec.Env(b => Parse(c, b), (b, password) => Authentic(c, b, password))
  }

  /** What a request must look like for its source to be routed to an agent with this password: a Binding request
      that reads without error, with a user name of two valid fragments, at least one integrity attribute, and
      in every one of these the keyed hash of all that precedes it. */
  ghost predicate Proves(c: Crypto, b: Bytes, password: string) {
    && IsStun(b) && StunRead.Read(c, b).Some?
    && var m := StunRead.Read(c, b).value;
       && IsCheck(m)
       && (exists local, remote :: Spec.IsUfrag(local) && Spec.IsUfrag(remote)
                                   && TextOf(m.credentials.username) == local + ":" + remote)
       && StunReader.SomeIntegrity(b, HEADER_SIZE, |b|)
       && forall q :: q in StunRead.Offsets(b, HEADER_SIZE, |b|) ==>
            StunReader.GenuineAt(c, b, q, HmacKey(c, m.credentials, BytesOf(password)))
  }

  lemma AuthenticProves(c: Crypto, b: Bytes, password: string)
    requires Authentic(c, b, password) && Parse(c, b).BindingRequest? && Parse(c, b).fragments.Some?
    ensures Proves(c, b, password)
  {
    hide StunRead.Read, StunRead.WalkFrom, StunReader.SomeIntegrity, StunReader.GenuineAt, Spec.Fragments, Spec.IsUfrag, HmacKey;
    var m := StunRead.Read(c, b).value;
    StunRead.ReadAllowsWalk(c, b);
    var key := HmacKey(c, m.credentials, BytesOf(password));
    StunReader.WalkAcceptsGenuine(c, b, HEADER_SIZE, |b|, key, false);
    var (local, remote) := Parse(c, b).fragments.value;
    Spec.FragmentsExact(TextOf(m.credentials.username), local, remote);
  }

  /** In every state of every run of any number of registries, a source that is mapped to an agent was heard with a
      request that proves the knowledge of the agent's password. */
  lemma RoutedOnlyWithProof(c: Crypto, run: seq<Runs.World>, moves: seq<(nat, Runs.Op)>, i: nat, k: nat, src: Endpoint)
    returns (data: Bytes)
    requires Runs.IsRun(EnvOf(c), run, moves) && i < |run| && k < |run[i].regs| && src in run[i].regs[k].c.table
    ensures var core := run[i].regs[k].c;
            core.table[src] in core.agents && (src, data) in core.heard
            && Proves(c, data, core.agents[core.table[src]].localPwd)
  {
    hide Runs.IsRun, Parse, Authentic;
    var env := EnvOf(c);
    data := Runs.RoutedOnlyIfAuthorized(env, run, moves, i, k, src);
    Runs.HeardAreRequests(env, run, moves, i, k);
    var core := run[i].regs[k].c;
    AuthenticProves(c, data, core.agents[core.table[src]].localPwd);
  }

  // ---------- what a peer has to send ----------

  /** A check as a peer writes it: a Binding request with the fragments in its user name and short-term
      credentials, as large as a message may be. */
  predicate IsPeerCheck(c: Crypto, m: Message, local: string, remote: string, password: string) {
    && m.head.cls == CLASS_REQUEST && m.head.verb == METHOD_BINDING && |m.head.tid| == TID_SIZE
    && m.credentials.username == BytesOf(local + ":" + remote) && m.credentials.realm == [] && !m.credentials.enableUserhash
    && StunWrite.Writable(m) && StunRoundTrip.FieldsFit(m) && StunRoundTrip.Fits(c, m, Some(BytesOf(password)))
    && !m.turn.evenPort && StunRoundTrip.ListReadable(m)
  }

  lemma {:induction false} AlignedBytes(attrs: seq<StunWrite.Attr>)
    ensures |StunWrite.AllBytes(attrs)| % 4 == 0
  {
    if attrs != [] {
      AlignedBytes(attrs[1..]);
    }
  }

  lemma WrittenIsStun(c: Crypto, m: Message, password: Bytes)
    requires m.head.cls == CLASS_REQUEST && m.head.verb == METHOD_BINDING
    requires StunWrite.Writable(m) && StunRoundTrip.Fits(c, m, Some(password))
    ensures IsStun(StunWrite.Encode(c, m, Some(password)))
  {
    hide StunWrite.Written, StunWrite.AllBytes;
    var attrs := StunWrite.Written(c, m, Some(password));
    AlignedBytes(attrs);
    var rest := StunWrite.AllBytes(attrs);
    StunRoundTrip.HeaderBack(m.head, |rest|, rest);
    var b := StunWrite.Header(m.head, |rest|) + rest;
    assert b[4..8] == U32(MAGIC);
    U32Back(MAGIC);
  }

  lemma TextBack(s: string)
    requires forall i :: 0 <= i < |s| ==> s[i] as int < 256
    ensures TextOf(BytesOf(s)) == s
  {
  }

  lemma UfragText(local: string, remote: string)
    requires Spec.IsUfrag(local) && Spec.IsUfrag(remote)
    ensures TextOf(BytesOf(local + ":" + remote)) == local + ":" + remote
  {
    var s := local + ":" + remote;
    forall i | 0 <= i < |s| ensures s[i] as int < 256 {
      if i < |local| {
        assert s[i] == local[i] && Spec.IceCharacter(local[i]);
      } else if i > |local| {
        assert s[i] == remote[i - |local| - 1] && Spec.IceCharacter(remote[i - |local| - 1]);
      }
    }
    TextBack(s);
  }

  /** What a peer that knows the fragments and the password writes is a well-formed check of those fragments,
      and authentic under that password. */
  lemma PeerCheckIsAuthentic(c: Crypto, m: Message, local: string, remote: string, password: string)
    requires IsPeerCheck(c, m, local, remote, password) && Spec.IsUfrag(local) && Spec.IsUfrag(remote)
    ensures var b := StunWrite.Encode(c, m, Some(BytesOf(password)));
            Parse(c, b) == Spec.BindingRequest(Some((local, remote))) && Authentic(c, b, password)
  {
    hide StunRead.Read, StunWrite.Encode, StunRead.Authentic, Spec.Fragments, Spec.IsUfrag, StunWrite.Written, StunRoundTrip.ListReadable, IsStun;
    var pwd := BytesOf(password);
    WrittenIsStun(c, m, pwd);
    StunRoundTrip.RoundTrip(c, m, Some(pwd));
    StunRoundTrip.IntegrityAccepted(c, m, pwd);
    UfragText(local, remote);
    Spec.FragmentsExact(local + ":" + remote, local, remote);
  }

  /** From the peer to the agent. With a listener at rest, all announcements made and room for one more, the
      first check of a peer that knows the fragments and the password of a ready agent is held, and once
      announced, verified under that password, given to that agent and processed in time, it has mapped the
      peer to the agent, and the agent has the check. */
  lemma PeerReachesAgent(c: Crypto, r: Spec.Registry, next: nat, src: Endpoint, m: Message, local: string, remote: string,
                         a: Spec.Agent, t0: int, t1: int, t2: int, t3: int, chosen: Option<Spec.Agent>, stored: bool,
                         turns: seq<(bool, bool)>)
    requires Runs.Inv(EnvOf(c), r.c, next) && 0 < next < Spec.ID_LIMIT && r.c.required && src !in r.c.table
    requires Spec.Ready(r.c, a) && r.c.agents[a].localUfrag == local && r.c.agents[a].remoteUfrag == remote
    requires Spec.IsUfrag(local) && Spec.IsUfrag(remote) && IsPeerCheck(c, m, local, remote, r.c.agents[a].localPwd)
    requires var b := StunWrite.Encode(c, m, Some(BytesOf(r.c.agents[a].localPwd)));
             Outcomes.Begins(r.c, src, local, remote, b) && Runs.ChosenOk(EnvOf(c), r.c, b, chosen)
    requires |r.c.requests| < r.c.pending.value.maxPending && Spec.AllNotified(r.c)
    requires forall k :: k in r.c.ready && k in r.c.requests ==> r.c.requests[k].src != src
    requires r.c.clock <= t0 <= t1 <= t2 <= t3 < t0 + r.c.pending.value.timeout
    requires |turns| == |r.c.ready| + 1 && turns[|turns| - 1].0 && forall k :: 0 <= k < |turns| - 1 ==> turns[k].1
    ensures var b := StunWrite.Encode(c, m, Some(BytesOf(r.c.agents[a].localPwd)));
            var held := Spec.Receive(EnvOf(c), r, next, src, b, t0, chosen, true, stored).0;
            var announced := Spec.Dispatch(held, t1, Some(next), true);
            var verified := Spec.Verify(EnvOf(c), announced, next, r.c.agents[a].localPwd, t2).0;
            var s := Outcomes.Drain(Spec.Attach(verified, next, a, t3, true).0, turns);
            src in s.c.table && s.c.table[src] == a && Spec.Delivery(next, a, b) in s.c.delivered
  {
    hide Runs.Inv, Runs.ChosenOk, Outcomes.Begins, Parse, Authentic, StunWrite.Encode, Spec.IsUfrag, Outcomes.Drain,
         Spec.Receive, Spec.Dispatch, Spec.Verify, Spec.Attach, BytesOf, Spec.AllNotified,
         StunRoundTrip.FieldsFit, StunRoundTrip.Fits, StunRoundTrip.ListReadable;
    var password := r.c.agents[a].localPwd;
    var b := StunWrite.Encode(c, m, Some(BytesOf(password)));
    PeerCheckIsAuthentic(c, m, local, remote, password);
    Outcomes.AdmittedReachesAgent(EnvOf(c), r, next, src, local, remote, b, a, t0, t1, t2, t3, chosen, stored, turns);
  }
}
