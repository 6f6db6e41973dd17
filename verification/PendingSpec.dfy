/**
 Admission of pending connections (src/conn_mux.c), as its documentation describes it: one finite
 map from request id to held request, a partial function from source to agent, and the operations
 that move a request from deferred to notified, verified, attached and delivered.

 Each operation is one section run under the registry lock. Nothing here knows about linked lists
 or hash buckets; module PendingRegistry shows that the structures of the library compute exactly
 these functions. Fields under "history" are never read by an operation: they record the past of a
 run so that properties of whole runs can be stated as invariants.
 */
module PendingSpec {
  import opened Addr
  import opened Basics

  type Id = nat
  type Agent = nat

  const ID_LIMIT := 0x1_0000_0000_0000_0000
  const MAX_PENDING_PACKET_SIZE := 2048
  const MAX_PENDING_LIMIT := 4096
  const MAX_TIMEOUT := 30000
  const DEFAULT_LIMIT := 256
  const DEFAULT_TIMEOUT := 5000

  datatype Error = NotAvail | Invalid | Failed

  /** Success, or one of the library's error codes. */
  datatype Outcome = Success | Error(error: Error)

  /** A held request. */
  datatype Request = Request(src: Endpoint, local: string, remote: string, data: seq<byte>,
                             deadline: int, notified: bool, verified: bool, password: string,
                             agent: Option<Agent>)

  datatype AgentInfo = AgentInfo(localUfrag: string, localPwd: string, remoteUfrag: string, finished: bool)

  datatype Listener = Listener(maxPending: nat, timeout: nat)

  /** The packet an id was issued for. */
  datatype Attempt = Attempt(src: Endpoint, local: string, remote: string, data: seq<byte>)

  datatype Delivery = Delivery(id: Id, agent: Agent, data: seq<byte>)

  /** What a datagram from an unmapped source turns out to be. The fragments of a Binding request
      with an integrity attribute are those `Fragments` finds in its user name. */
  datatype Parsed =
    | NotStun
    | Unreadable
    | BindingRequest(fragments: Option<(string, string)>)
    | Response
    | Unexpected

  /** The STUN reader and the integrity check, about which nothing is assumed. */
  datatype Env = Env(parse: seq<byte> -> Parsed, auth: (seq<byte>, string) -> bool)

  datatype Core = Core(
    requests: map<Id, Request>,
    ready: seq<Id>,
    table: map<Endpoint, Agent>,
    agents: map<Agent, AgentInfo>,
    pending: Option<Listener>,
    incoming: bool,
    required: bool,
    closing: bool,
    // history
    clock: int,
    issued: map<Id, Attempt>,
    notified: seq<Id>,
    delivered: seq<Delivery>,
    heard: set<(Endpoint, seq<byte>)>)

  datatype Stats = Stats(received: nat, rejected: nat, notifications: nat, duplicates: nat)

  datatype Registry = Registry(c: Core, stats: Stats)
  {
    function Rejecting(n: nat): Registry {
      this.(stats := stats.(rejected := stats.rejected + n))
    }
  }

  const FRESH := Registry(Core(map[], [], map[], map[], None, false, false, false, 0, map[], [], [], {}),
                          Stats(0, 0, 0, 0))

  // ---------- sequences of ids ----------

  predicate NoDup<T(==)>(q: seq<T>) {
    forall i, j :: 0 <= i < j < |q| ==> q[i] != q[j]
  }

  function Without(q: seq<Id>, gone: set<Id>): (r: seq<Id>)
    ensures forall x :: x in r <==> x in q && x !in gone
  {
    if q == [] then [] else (if q[0] in gone then [] else [q[0]]) + Without(q[1..], gone)
  }

  lemma {:induction false} WithoutNoDup(q: seq<Id>, gone: set<Id>)
    requires NoDup(q)
    ensures NoDup(Without(q, gone))
    decreases |q|
  {
    if q != [] {
      WithoutNoDup(q[1..], gone);
      assert q[0] !in q[1..];
    }
  }

  lemma {:induction false} WithoutAbsent(q: seq<Id>, gone: set<Id>)
    requires forall x :: x in gone ==> x !in q
    ensures Without(q, gone) == q
    decreases |q|
  {
    if q != [] {
      WithoutAbsent(q[1..], gone);
    }
  }

  // ---------- the operations ----------

  predicate Unaccepted(r: Request) {
    r.agent.None?
  }

  predicate SameAttempt(r: Request, src: Endpoint, local: string, remote: string) {
    r.src == src && r.local == local && r.remote == remote
  }

  predicate Ready(c: Core, a: Agent) {
    a in c.agents && !c.agents[a].finished
  }

  /** The one way requests leave. */
  function Drop(c: Core, gone: set<Id>): Core {
    c.(requests := c.requests - gone, ready := Without(c.ready, gone))
  }

  function Due(c: Core, now: int): (s: set<Id>) {
    set id | id in c.requests && Unaccepted(c.requests[id]) && c.requests[id].deadline <= now
  }

  /** Every unaccepted request that is due goes, and no other. */
  function Expire(r: Registry, now: int): Registry {
    Registry(Drop(r.c, Due(r.c, now)).(clock := now), r.stats).Rejecting(|Due(r.c, now)|)
  }

  function TakeId(next: nat): nat {
    if next == 0 || next + 1 == ID_LIMIT then 0 else next + 1
  }

  predicate Held(c: Core, src: Endpoint, local: string, remote: string) {
    exists id :: id in c.requests && SameAttempt(c.requests[id], src, local, remote)
  }

  /** Holding the first request of an attempt. */
  function Defer(r: Registry, next: nat, src: Endpoint, local: string, remote: string,
                 data: seq<byte>, now: int, memory: bool): (res: (Registry, nat))
  {
    if r.c.pending.None? || |data| > MAX_PENDING_PACKET_SIZE then (r.Rejecting(1), next)
    else if Held(r.c, src, local, remote) then
      (r.(stats := r.stats.(duplicates := r.stats.duplicates + 1)), next)
    else if |r.c.requests| >= r.c.pending.value.maxPending || !memory then (r.Rejecting(1), next)
    else if next == 0 then (r.Rejecting(1), 0)
    else (r.(c := Admit(r.c, next, src, local, remote, data, now)), TakeId(next))
  }

  function Admit(c: Core, id: Id, src: Endpoint, local: string, remote: string, data: seq<byte>, now: int): Core
    requires c.pending.Some?
  {
    c.(requests := c.requests[id := Request(src, local, remote, data, now + c.pending.value.timeout,
                                            false, false, "", None)],
       issued := c.issued[id := Attempt(src, local, remote, data)],
       clock := now)
  }

  predicate IceCharacter(ch: char) {
    || 'A' <= ch <= 'Z' || 'a' <= ch <= 'z' || '0' <= ch <= '9' || ch == '+' || ch == '/'
  }

  predicate IsUfrag(s: string) {
    4 <= |s| <= 256 && forall i :: 0 <= i < |s| ==> IceCharacter(s[i])
  }

  function Colon(s: string): (i: nat)
    ensures i <= |s| && (i < |s| ==> s[i] == ':') && ':' !in s[..i]
  {
    if s == [] || s[0] == ':' then 0
    else
      var i := 1 + Colon(s[1..]);
      assert s[..i] == [s[0]] + s[1..][..i - 1];
      i
  }

  /** "local:remote", both of the form ICE allows. */
  function Fragments(username: string): Option<(string, string)> {
    var i := Colon(username);
    if i == |username| then None
    else if IsUfrag(username[..i]) && IsUfrag(username[i + 1..]) then Some((username[..i], username[i + 1..]))
    else None
  }

  /** The fragments of a user name are found exactly when it has the required form, and they are its
      two halves. */
  lemma FragmentsExact(username: string, local: string, remote: string)
    ensures Fragments(username) == Some((local, remote)) <==>
              IsUfrag(local) && IsUfrag(remote) && username == local + ":" + remote
  {
    var i := Colon(username);
    if i < |username| {
      assert username == username[..i] + ":" + username[i + 1..];
    }
    if IsUfrag(local) && username == local + ":" + remote {
      assert username[|local|] == ':';
      assert forall k :: 0 <= k < |local| ==> username[k] == local[k] && IceCharacter(local[k]);
      assert forall k :: 0 <= k < i ==> username[..i][k] == username[k];
      assert username[..|local|] == local && username[|local| + 1..] == remote;
    }
  }

  /** What agent_verify_stun_binding checks of a Binding request whose local fragment is the agent's. */
  predicate Authentic(env: Env, info: AgentInfo, remote: string, data: seq<byte>) {
    && (info.remoteUfrag == "" || remote == info.remoteUfrag)
    && info.localPwd != ""
    && env.auth(data, info.localPwd)
  }

  predicate Candidate(c: Core, a: Agent, local: string) {
    Ready(c, a) && c.agents[a].localUfrag == local
  }

  /** A datagram taken from the socket is counted and routed. */
  function Receive(env: Env, r: Registry, next: nat, src: Endpoint, data: seq<byte>, now: int,
                   chosen: Option<Agent>, memory: bool, stored: bool): (res: (Registry, nat))
  {
    Route(env, r.(stats := r.stats.(received := r.stats.received + 1)), next, src, data, now, chosen, memory, stored)
  }

  /** Routing of one datagram. `chosen` is the first ready agent with the local fragment, if there is
      one; `stored` says whether the source table had memory for a new mapping. */
  function Route(env: Env, r: Registry, next: nat, src: Endpoint, data: seq<byte>, now: int,
                 chosen: Option<Agent>, memory: bool, stored: bool): (res: (Registry, nat))
  {
    if src in r.c.table then (r, next)
    else match env.parse(data)
      case NotStun => (r.Rejecting(1), next)
      case Unreadable => (r.Rejecting(1), next)
      case Unexpected => (r.Rejecting(1), next)
      case Response => (r, next)
      case BindingRequest(fragments) =>
        match fragments
        case None => (r.Rejecting(1), next)
        case Some((local, remote)) =>
          RouteRequest(env, r.(c := Hear(r.c, src, data)), next, src, local, remote, data, now, chosen, memory, stored)
  }

  /** A well-formed Binding request from an unmapped source: held once pending admission is required,
      otherwise checked against the agent it names. */
  function RouteRequest(env: Env, r: Registry, next: nat, src: Endpoint, local: string, remote: string,
                        data: seq<byte>, now: int, chosen: Option<Agent>, memory: bool, stored: bool)
    : (res: (Registry, nat))
  {
    if r.c.required then Defer(r, next, src, local, remote, data, now, memory)
    else if chosen.None? then (r, next)
    else if chosen.value !in r.c.agents || !Authentic(env, r.c.agents[chosen.value], remote, data)
    then (r.Rejecting(1), next)
    else if stored then (r.(c := MapSource(r.c, src, chosen.value)), next)
    else (r, next)
  }

  function Hear(c: Core, src: Endpoint, data: seq<byte>): Core {
    c.(heard := c.heard + {(src, data)})
  }

  function MapSource(c: Core, src: Endpoint, a: Agent): Core {
    c.(table := c.table[src := a])
  }

  /** The oldest request not announced yet. */
  ghost predicate IsNextToNotify(c: Core, id: Id) {
    && id in c.requests && !c.requests[id].notified
    && forall other :: other in c.requests && !c.requests[other].notified ==> id <= other
  }

  ghost predicate AllNotified(c: Core) {
    forall id :: id in c.requests ==> c.requests[id].notified
  }

  /** One round of announcing, after expiry: `id` is the request picked, if any. */
  function Dispatch(r: Registry, now: int, id: Option<Id>, named: bool): Registry {
    AnnounceNext(Expire(r, now), id, named)
  }

  function AnnounceNext(e: Registry, id: Option<Id>, named: bool): Registry {
    if e.c.pending.None? || id.None? || id.value !in e.c.requests then e
    else if !named then Registry(Drop(e.c, {id.value}), e.stats).Rejecting(1)
    else Registry(Announce(e.c, id.value), e.stats.(notifications := e.stats.notifications + 1))
  }

  function Announce(c: Core, id: Id): Core
    requires id in c.requests
  {
    c.(requests := c.requests[id := c.requests[id].(notified := true)], notified := c.notified + [id])
  }

  function Verify(env: Env, r: Registry, id: Id, password: string, now: int): (res: (Registry, Outcome)) {
    VerifyHeld(env, Expire(r, now), id, password)
  }

  function VerifyHeld(env: Env, e: Registry, id: Id, password: string): (res: (Registry, Outcome)) {
    if id !in e.c.requests || e.c.requests[id].verified || !e.c.requests[id].notified
    then (e, Error(NotAvail))
    else if e.c.requests[id].src in e.c.table || !env.auth(e.c.requests[id].data, password)
    then (Registry(Drop(e.c, {id}), e.stats).Rejecting(1), Error(Failed))
    else (e.(c := MarkVerified(e.c, id, password)), Success)
  }

  function MarkVerified(c: Core, id: Id, password: string): Core
    requires id in c.requests
  {
    c.(requests := c.requests[id := c.requests[id].(verified := true, password := password)])
  }

  predicate Matches(c: Core, a: Agent, req: Request) {
    && Ready(c, a)
    && c.agents[a].localUfrag == req.local
    && c.agents[a].remoteUfrag == req.remote
    && c.agents[a].localPwd == req.password
  }

  predicate SourceWaiting(c: Core, src: Endpoint) {
    exists id :: id in c.ready && id in c.requests && c.requests[id].src == src
  }

  function Attach(r: Registry, id: Id, a: Agent, now: int, woken: bool): (res: (Registry, Outcome)) {
    AttachHeld(Expire(r, now), id, a, woken)
  }

  function AttachHeld(e: Registry, id: Id, a: Agent, woken: bool): (res: (Registry, Outcome)) {
    if id !in e.c.requests || !e.c.requests[id].verified || e.c.requests[id].agent.Some?
    then (e, Error(NotAvail))
    else if !Matches(e.c, a, e.c.requests[id]) then (e, Error(Invalid))
    else if e.c.requests[id].src in e.c.table || SourceWaiting(e.c, e.c.requests[id].src)
    then (e, Error(NotAvail))
    else if !woken then (e, Error(Failed))
    else (e.(c := MarkAttached(e.c, id, a)), Success)
  }

  function MarkAttached(c: Core, id: Id, a: Agent): Core
    requires id in c.requests
  {
    c.(requests := c.requests[id := c.requests[id].(agent := Some(a))], ready := c.ready + [id])
  }

  function Reject(r: Registry, id: Id): (res: (Registry, Outcome)) {
    if id !in r.c.requests || r.c.requests[id].agent.Some? then (r, Error(NotAvail))
    else (Registry(Drop(r.c, {id}), r.stats).Rejecting(1), Success)
  }

  /** One turn of the ready loop: map the source, hand over the held packet, forget the request. */
  function ProcessReady(r: Registry, stored: bool, accepted: bool): Registry
    requires r.c.ready != []
  {
    var id := r.c.ready[0];
    if id !in r.c.requests || r.c.requests[id].agent.None? then r
    else
      var a := r.c.requests[id].agent.value;
      if Ready(r.c, a) && stored
      then r.(c := Drop(Deliver(r.c, id, a, accepted), {id}))
      else r.(c := Drop(r.c, {id}))
  }

  function Deliver(c: Core, id: Id, a: Agent, accepted: bool): Core
    requires id in c.requests && a in c.agents
  {
    c.(table := c.table[c.requests[id].src := a],
       delivered := c.delivered + [Delivery(id, a, c.requests[id].data)],
       agents := c.agents[a := c.agents[a].(finished := c.agents[a].finished || !accepted)])
  }

  function OfAgent(c: Core, a: Agent): set<Id> {
    set id | id in c.requests && c.requests[id].agent == Some(a)
  }

  /** Teardown of an agent takes its mappings and its waiting requests with it. */
  function Cleanup(r: Registry, a: Agent): Registry {
    r.(c := Drop(r.c, OfAgent(r.c, a)).(table := map s | s in r.c.table && r.c.table[s] != a :: r.c.table[s],
                                       agents := r.c.agents - {a}))
  }

  function AddAgent(r: Registry, a: Agent, info: AgentInfo): Registry {
    r.(c := r.c.(agents := r.c.agents[a := info]))
  }

  function UpdateAgent(r: Registry, a: Agent, remote: string, finished: bool): Registry {
    if a !in r.c.agents then r
    else r.(c := r.c.(agents := r.c.agents[a := r.c.agents[a].(remoteUfrag := remote, finished := finished)]))
  }

  /** Starting the pending listener; zero in the configuration means the default. */
  function Listen(r: Registry, maxPending: nat, timeout: nat, memory: bool): (res: (Registry, Outcome)) {
    var limit := if maxPending == 0 then DEFAULT_LIMIT else maxPending;
    var time := if timeout == 0 then DEFAULT_TIMEOUT else timeout;
    if r.c.incoming || r.c.pending.Some? || r.c.closing then (r, Error(NotAvail))
    else if limit > MAX_PENDING_LIMIT || time > MAX_TIMEOUT then (r, Error(Invalid))
    else if !memory then (r, Error(Failed))
    else (r.(c := r.c.(pending := Some(Listener(limit, time)), required := true)), Success)
  }

  function UnacceptedIds(c: Core): set<Id> {
    set id | id in c.requests && Unaccepted(c.requests[id])
  }

  function BeginStop(r: Registry, onMuxThread: bool): (res: (Registry, Outcome)) {
    if onMuxThread then (r, Error(Invalid))
    else if r.c.pending.None? || r.c.closing then (r, Error(NotAvail))
    else (r.(c := Drop(r.c, UnacceptedIds(r.c)).(closing := true, pending := None)), Success)
  }

  function FinishStop(r: Registry): Registry {
    r.(c := r.c.(closing := false))
  }

  function ListenIncoming(r: Registry): Registry {
    if r.c.incoming || r.c.required then r else r.(c := r.c.(incoming := true))
  }

  function StopIncoming(r: Registry): Registry {
    r.(c := r.c.(incoming := false))
  }
}
