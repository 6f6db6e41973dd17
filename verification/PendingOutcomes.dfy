/**
 What the operations of pending admission come to, one by one: exactly when each succeeds, with which error
 it fails otherwise, and what is different afterwards. Put together, a request that is announced, verified
 under the password of the agent it names and given to that agent reaches it.
 */
module PendingOutcomes {
  import opened Addr
  import opened Basics
  import opened PendingSpec
  import opened PendingRuns

  // ---------- what is different ----------

  /** Among the requests, at most this one has changed. */
  ghost predicate OthersKept(c: Core, d: Core, id: Id) {
    forall k :: k != id ==> (k in d.requests <==> k in c.requests) && (k in c.requests ==> d.requests[k] == c.requests[k])
  }

  /** Nothing but the requests, and among them at most this one. */
  ghost predicate OnlyRequest(c: Core, d: Core, id: Id) {
    OthersKept(c, d, id) && d == c.(requests := d.requests)
  }

  /** The request is gone, from the queue of the attached as well, and nothing else is different. */
  ghost predicate OnlyGone(c: Core, d: Core, id: Id) {
    && OthersKept(c, d, id) && id !in d.requests
    && d == c.(requests := d.requests, ready := d.ready) && (id !in c.ready ==> d.ready == c.ready)
  }

  function Rejected(s: Stats): Stats {
    s.(rejected := s.rejected + 1)
  }

  lemma DropOne(c: Core, id: Id)
    requires id in c.requests
    ensures OnlyGone(c, Drop(c, {id}), id)
  {
    if id !in c.ready {
      WithoutAbsent(c.ready, {id});
    }
  }

  // ---------- expiry ----------

  /** Held, and not due unless an agent has it. */
  predicate StillHeld(c: Core, id: Id, now: int) {
    id in c.requests && (c.requests[id].agent.Some? || now < c.requests[id].deadline)
  }

  /** Expiry takes the unaccepted requests whose time is up, counts each of them once, and changes nothing
      else. */
  lemma ExpireOutcome(r: Registry, now: int)
    ensures var e := Expire(r, now);
            && (forall id :: id in e.c.requests <==> StillHeld(r.c, id, now))
            && (forall id :: id in e.c.requests ==> e.c.requests[id] == r.c.requests[id])
            && e.c == r.c.(requests := e.c.requests, ready := e.c.ready, clock := now)
            && e.stats == r.stats.(rejected := r.stats.rejected + (|r.c.requests| - |e.c.requests|))
            && (ReadyOk(r.c) ==> e.c.ready == r.c.ready)
  {
    var e, due := Expire(r, now), Due(r.c, now);
    CountGone(r.c.requests, due);
    if ReadyOk(r.c) {
      WithoutAbsent(r.c.ready, due);
    }
  }

  lemma CountGone(m: map<Id, Request>, gone: set<Id>)
    requires gone <= m.Keys
    ensures |m - gone| == |m| - |gone|
  {
    assert (m - gone).Keys == m.Keys - gone;
  }

  // ---------- verification ----------

  /** Held, announced, and not verified yet. */
  predicate Awaits(c: Core, id: Id) {
    id in c.requests && c.requests[id].notified && !c.requests[id].verified
  }

  predicate Proves(env: Env, c: Core, id: Id, password: string)
    requires id in c.requests
  {
    c.requests[id].src !in c.table && env.auth(c.requests[id].data, password)
  }

  /** Verification succeeds exactly if the request is held after expiry, announced and unverified, its source
      unmapped and its packet authentic; then it is verified, under that password. If only one of the last
      two is wanting it fails, and the request is gone. Otherwise there is nothing to verify. */
  ghost predicate VerifiedAs(env: Env, e: Registry, s: Registry, o: Outcome, id: Id, password: string) {
    && (o == Success <==> Awaits(e.c, id) && Proves(env, e.c, id, password))
    && (o == Error(Failed) <==> Awaits(e.c, id) && !Proves(env, e.c, id, password))
    && (o == Error(NotAvail) <==> !Awaits(e.c, id))
    && (o == Success ==>
          && OnlyRequest(e.c, s.c, id) && s.stats == e.stats
          && id in s.c.requests && s.c.requests[id] == e.c.requests[id].(verified := true, password := password))
    && (o == Error(Failed) ==> OnlyGone(e.c, s.c, id) && s.stats == Rejected(e.stats))
    && (o == Error(NotAvail) ==> s == e)
  }

  lemma VerifyOutcome(env: Env, r: Registry, id: Id, password: string, now: int)
    ensures var (s, o) := Verify(env, r, id, password, now); VerifiedAs(env, Expire(r, now), s, o, id, password)
  {
    var e := Expire(r, now);
    if id in e.c.requests {
      DropOne(e.c, id);
    }
  }

  // ---------- attachment ----------

  predicate Attachable(c: Core, id: Id) {
    id in c.requests && c.requests[id].verified && c.requests[id].agent.None?
  }

  /** The agent is ready and is the one the request names: by both fragments and by the password the request
      was verified under. */
  predicate Named(c: Core, id: Id, a: Agent)
    requires id in c.requests
  {
    && a in c.agents && !c.agents[a].finished
    && c.agents[a].localUfrag == c.requests[id].local
    && c.agents[a].remoteUfrag == c.requests[id].remote
    && c.agents[a].localPwd == c.requests[id].password
  }

  /** The source is neither mapped nor about to be. */
  predicate SourceFree(c: Core, id: Id)
    requires id in c.requests
  {
    && c.requests[id].src !in c.table
    && forall k :: k in c.ready && k in c.requests ==> c.requests[k].src != c.requests[id].src
  }

  /** Attaching succeeds exactly if the request is held after expiry, verified and without an agent, the agent
      is the one it names, its source is free and the thread could be woken; then it is the agent's, and
      last in the queue. Every other case has its error, and changes nothing. */
  ghost predicate AttachedAs(e: Registry, s: Registry, o: Outcome, id: Id, a: Agent, woken: bool) {
    && (o == Success <==> Attachable(e.c, id) && Named(e.c, id, a) && SourceFree(e.c, id) && woken)
    && (o == Error(Failed) <==> Attachable(e.c, id) && Named(e.c, id, a) && SourceFree(e.c, id) && !woken)
    && (o == Error(Invalid) <==> Attachable(e.c, id) && !Named(e.c, id, a))
    && (o == Error(NotAvail) <==> !Attachable(e.c, id) || (Named(e.c, id, a) && !SourceFree(e.c, id)))
    && s.stats == e.stats
    && (o == Success ==>
          && OthersKept(e.c, s.c, id) && s.c == e.c.(requests := s.c.requests, ready := e.c.ready + [id])
          && id in s.c.requests && s.c.requests[id] == e.c.requests[id].(agent := Some(a)))
    && (o != Success ==> s == e)
  }

  lemma AttachOutcome(r: Registry, id: Id, a: Agent, now: int, woken: bool)
    ensures var (s, o) := Attach(r, id, a, now, woken); AttachedAs(Expire(r, now), s, o, id, a, woken)
  {
    var c := Expire(r, now).c;
    if id in c.requests {
      assert SourceFree(c, id) <==> c.requests[id].src !in c.table && !SourceWaiting(c, c.requests[id].src);
    }
  }

  // ---------- the others ----------

  ghost predicate RejectedAs(r: Registry, s: Registry, o: Outcome, id: Id) {
    && (o == Success <==> id in r.c.requests && r.c.requests[id].agent.None?)
    && (o == Success ==> OnlyGone(r.c, s.c, id) && s.stats == Rejected(r.stats))
    && (o != Success ==> o == Error(NotAvail) && s == r)
  }

  lemma RejectOutcome(r: Registry, id: Id)
    ensures var (s, o) := Reject(r, id); RejectedAs(r, s, o, id)
  {
    if id in r.c.requests {
      DropOne(r.c, id);
    }
  }

  /** A packet the registry is ready to hold: somebody listens, it fits, and it begins an attempt. */
  predicate Begins(c: Core, src: Endpoint, local: string, remote: string, data: seq<byte>) {
    c.pending.Some? && |data| <= MAX_PENDING_PACKET_SIZE && Begun(c, src, local, remote) == {}
  }

  /** The requests of the same attempt. */
  function Begun(c: Core, src: Endpoint, local: string, remote: string): set<Id> {
    set id | id in c.requests && c.requests[id].src == src && c.requests[id].local == local && c.requests[id].remote == remote
  }

  /** A packet is held exactly if it begins an attempt and there is room, memory and an id for it; then it is
      held as it came, until the timeout. Another packet of an attempt is counted as a duplicate and changes
      nothing; everything else is rejected. */
  lemma DeferOutcome(r: Registry, next: nat, src: Endpoint, local: string, remote: string, data: seq<byte>, now: int, memory: bool)
    requires next < ID_LIMIT
    ensures var (s, next') := Defer(r, next, src, local, remote, data, now, memory);
            var room := r.c.pending.Some? && |r.c.requests| < r.c.pending.value.maxPending && memory && next != 0;
            var admitted := Begins(r.c, src, local, remote, data) && room;
            && (admitted ==>
                  && OthersKept(r.c, s.c, next) && s.stats == r.stats
                  && next in s.c.requests
                  && s.c.requests[next] ==
                       Request(src, local, remote, data, now + r.c.pending.value.timeout, false, false, "", None)
                  && s.c == r.c.(requests := s.c.requests, issued := s.c.issued, clock := now)
                  && next' == if next + 1 < ID_LIMIT then next + 1 else 0)
            && (!admitted ==>
                  && s.c == r.c && next' == next
                  && s.stats == if r.c.pending.Some? && |data| <= MAX_PENDING_PACKET_SIZE && Begun(r.c, src, local, remote) != {}
                                then r.stats.(duplicates := r.stats.duplicates + 1) else Rejected(r.stats))
  {
    var begun := Begun(r.c, src, local, remote);
    if Held(r.c, src, local, remote) {
      var id :| id in r.c.requests && SameAttempt(r.c.requests[id], src, local, remote);
      assert id in begun;
    }
  }

  /** The oldest request is announced, or dropped if its source cannot be named; without a listener or a
      request nothing happens. */
  lemma DispatchOutcome(r: Registry, now: int, id: Option<Id>, named: bool)
    ensures var e := Expire(r, now);
            var s := Dispatch(r, now, id, named);
            if e.c.pending.Some? && id.Some? && id.value in e.c.requests then
              if named then
                && OthersKept(e.c, s.c, id.value)
                && s.c == e.c.(requests := s.c.requests, notified := e.c.notified + [id.value])
                && id.value in s.c.requests && s.c.requests[id.value] == e.c.requests[id.value].(notified := true)
                && s.stats == e.stats.(notifications := e.stats.notifications + 1)
              else OnlyGone(e.c, s.c, id.value) && s.stats == Rejected(e.stats)
            else s == e
  {
    var e := Expire(r, now);
    if id.Some? && id.value in e.c.requests {
      DropOne(e.c, id.value);
    }
  }

  /** The head of the queue leaves it. Its source is mapped to its agent and its packet handed over exactly
      if the agent is ready and the table had memory; if the agent does not take the packet it is finished. */
  lemma ProcessReadyOutcome(r: Registry, stored: bool, accepted: bool)
    requires r.c.ready != [] && ReadyOk(r.c)
    ensures var id := r.c.ready[0];
            var s := ProcessReady(r, stored, accepted);
            && id in r.c.requests && r.c.requests[id].agent.Some?
            && OthersKept(r.c, s.c, id) && id !in s.c.requests && s.c.ready == r.c.ready[1..] && s.stats == r.stats
            && var q := r.c.requests[id];
               if q.agent.value in r.c.agents && !r.c.agents[q.agent.value].finished && stored then
                 && s.c.table == r.c.table[q.src := q.agent.value]
                 && s.c.delivered == r.c.delivered + [Delivery(id, q.agent.value, q.data)]
                 && s.c.agents == r.c.agents[q.agent.value := r.c.agents[q.agent.value].(finished := !accepted)]
               else s.c.table == r.c.table && s.c.delivered == r.c.delivered && s.c.agents == r.c.agents
  {
    var id := r.c.ready[0];
    HeadIsAttached(r.c);
    HeadLeaves(r.c.ready);
    hide ReadyOk, Without, NoDup, Drop, OthersKept;
    var q := r.c.requests[id];
    Dropped(r.c, id);
    if Ready(r.c, q.agent.value) && stored {
      var d := Deliver(r.c, id, q.agent.value, accepted);
      Dropped(d, id);
      SameRequestsKept(r.c, d, Drop(d, {id}), id);
    }
  }

  lemma Dropped(c: Core, id: Id)
    ensures var d := Drop(c, {id});
            && OthersKept(c, d, id) && id !in d.requests && d.ready == Without(c.ready, {id})
            && d.table == c.table && d.agents == c.agents && d.delivered == c.delivered
  {
  }

  lemma SameRequestsKept(c: Core, d: Core, e: Core, id: Id)
    requires d.requests == c.requests && OthersKept(d, e, id)
    ensures OthersKept(c, e, id)
  {
  }

  lemma HeadIsAttached(c: Core)
    requires c.ready != [] && ReadyOk(c)
    ensures c.ready[0] in c.requests && c.requests[c.ready[0]].agent.Some? && NoDup(c.ready)
  {
    assert c.ready[0] in c.ready;
  }

  lemma HeadLeaves(q: seq<Id>)
    requires q != [] && NoDup(q)
    ensures Without(q, {q[0]}) == q[1..]
  {
    assert q[0] !in q[1..];
    WithoutAbsent(q[1..], {q[0]});
  }

  lemma DeferLeaves(r: Registry, next: nat, src: Endpoint, local: string, remote: string, data: seq<byte>, now: int, memory: bool)
    ensures var s := Defer(r, next, src, local, remote, data, now, memory).0;
            && s.c.table == r.c.table && s.c.ready == r.c.ready && s.c.agents == r.c.agents && s.c.pending == r.c.pending
            && s.c.delivered == r.c.delivered && s.stats.received == r.stats.received
  {
    hide Held;
  }

  /** The sender knows the agent's password, and its fragment is the agent's peer's if the agent knows one. */
  predicate Knows(env: Env, info: AgentInfo, remote: string, data: seq<byte>) {
    info.localPwd != "" && env.auth(data, info.localPwd) && (info.remoteUfrag != "" ==> info.remoteUfrag == remote)
  }

  /** A mapped source is left alone. One that is not is mapped by a Binding request that the agent it names
      finds authentic, if no listener requires it to be held, and by nothing else; then it is that agent's. */
  lemma ReceiveMaps(env: Env, r: Registry, next: nat, src: Endpoint, data: seq<byte>, now: int,
                    chosen: Option<Agent>, memory: bool, stored: bool)
    requires ChosenOk(env, r.c, data, chosen)
    ensures var s := Receive(env, r, next, src, data, now, chosen, memory, stored).0;
            var request := env.parse(data);
            var maps := && src !in r.c.table && request.BindingRequest? && request.fragments.Some? && !r.c.required
                        && chosen.Some? && Knows(env, r.c.agents[chosen.value], request.fragments.value.1, data) && stored;
            && s.c.table == (if maps then r.c.table[src := chosen.value] else r.c.table)
            && s.stats.received == r.stats.received + 1
            && s.c.ready == r.c.ready && s.c.agents == r.c.agents && s.c.pending == r.c.pending && s.c.delivered == r.c.delivered
  {
    hide Defer;
    var request := env.parse(data);
    var counted := r.(stats := r.stats.(received := r.stats.received + 1));
    if src !in r.c.table && request.BindingRequest? && request.fragments.Some? && r.c.required {
      DeferLeaves(counted.(c := Hear(r.c, src, data)), next, src, request.fragments.value.0, request.fragments.value.1, data, now, memory);
    }
  }

  /** What is held, rejected or counted: a request that has to be held is as `Defer` says; anything else but
      a response is rejected unless it maps its source or names no agent. */
  lemma ReceiveHolds(env: Env, r: Registry, next: nat, src: Endpoint, data: seq<byte>, now: int,
                     chosen: Option<Agent>, memory: bool, stored: bool)
    requires ChosenOk(env, r.c, data, chosen)
    ensures var (s, next') := Receive(env, r, next, src, data, now, chosen, memory, stored);
            var request := env.parse(data);
            var counted := r.(stats := r.stats.(received := r.stats.received + 1));
            if src in r.c.table || request.Response? then (s, next') == (counted, next)
            else if !request.BindingRequest? || request.fragments.None? then (s, next') == (counted.Rejecting(1), next)
            else if r.c.required then
              (s, next') == Defer(counted.(c := Hear(r.c, src, data)), next, src, request.fragments.value.0,
                                  request.fragments.value.1, data, now, memory)
            else
              && next' == next && s.c.requests == r.c.requests
              && s.stats == if chosen.Some? && !Knows(env, r.c.agents[chosen.value], request.fragments.value.1, data)
                            then Rejected(counted.stats) else counted.stats
  {
  }

  /** A listener starts exactly if there is none, none is being stopped, the limits are allowed and there is
      memory; from then on requests are held. */
  lemma ListenOutcome(r: Registry, maxPending: nat, timeout: nat, memory: bool)
    ensures var (s, o) := Listen(r, maxPending, timeout, memory);
            var idle := !r.c.incoming && r.c.pending.None? && !r.c.closing;
            && (o == Success <==> idle && maxPending <= 4096 && timeout <= 30000 && memory)
            && (o == Error(Invalid) <==> idle && !(maxPending <= 4096 && timeout <= 30000))
            && (o == Error(NotAvail) <==> !idle)
            && (o == Success ==>
                  s == r.(c := r.c.(required := true,
                                    pending := Some(Listener(if maxPending == 0 then 256 else maxPending,
                                                             if timeout == 0 then 5000 else timeout)))))
            && (o != Success ==> s == r)
  {
  }

  /** A stop begins exactly if it does not come from the mux thread, there is a listener and none is being
      stopped; then the listener is gone, and with it the requests no agent has been given, and no other. */
  lemma BeginStopOutcome(r: Registry, onMuxThread: bool)
    ensures var (s, o) := BeginStop(r, onMuxThread);
            && (o == Error(Invalid) <==> onMuxThread)
            && (o == Success <==> !onMuxThread && r.c.pending.Some? && !r.c.closing)
            && (o == Success ==>
                  && s.c.pending.None? && s.c.closing && s.stats == r.stats
                  && (forall k :: k in s.c.requests <==> k in r.c.requests && r.c.requests[k].agent.Some?)
                  && (forall k :: k in s.c.requests ==> s.c.requests[k] == r.c.requests[k])
                  && s.c == r.c.(requests := s.c.requests, ready := s.c.ready, closing := true, pending := None)
                  && (ReadyOk(r.c) ==> s.c.ready == r.c.ready))
            && (o != Success ==> s == r && o in {Error(Invalid), Error(NotAvail)})
  {
    var gone := UnacceptedIds(r.c);
    if ReadyOk(r.c) {
      WithoutAbsent(r.c.ready, gone);
    }
  }

  /** The stop ends, and the other kind of listener is set if neither kind has been, or cleared. */
  lemma FlagsOutcome(r: Registry)
    ensures FinishStop(r) == r.(c := r.c.(closing := false))
    ensures ListenIncoming(r).c.incoming <==> r.c.incoming || !r.c.required
    ensures ListenIncoming(r) == r.(c := r.c.(incoming := ListenIncoming(r).c.incoming))
    ensures StopIncoming(r) == r.(c := r.c.(incoming := false))
  {
  }

  /** A new agent is there as it was given; what becomes known of one changes its remote fragment and whether
      it is finished, and nothing else. */
  lemma AgentsOutcome(r: Registry, a: Agent, info: AgentInfo, remote: string, finished: bool)
    ensures var s := AddAgent(r, a, info); s == r.(c := r.c.(agents := s.c.agents)) && s.c.agents == r.c.agents[a := info]
    ensures var s := UpdateAgent(r, a, remote, finished);
            && s == r.(c := r.c.(agents := s.c.agents)) && s.c.agents.Keys == r.c.agents.Keys
            && (forall b :: b in r.c.agents && b != a ==> s.c.agents[b] == r.c.agents[b])
            && (a in r.c.agents ==>
                  s.c.agents[a] == AgentInfo(r.c.agents[a].localUfrag, r.c.agents[a].localPwd, remote, finished))
  {
  }

  /** Teardown takes the agent, the sources mapped to it and the requests it was given, and nothing else. */
  lemma CleanupOutcome(r: Registry, a: Agent)
    requires ReadyOk(r.c)
    ensures var s := Cleanup(r, a);
            && (forall k :: k in s.c.requests <==> k in r.c.requests && r.c.requests[k].agent != Some(a))
            && (forall k :: k in s.c.requests ==> s.c.requests[k] == r.c.requests[k])
            && (forall p :: p in s.c.table <==> p in r.c.table && r.c.table[p] != a)
            && (forall p :: p in s.c.table ==> s.c.table[p] == r.c.table[p])
            && s.c.agents == r.c.agents - {a} && s.stats == r.stats
            && (forall k :: k in s.c.ready <==> k in s.c.requests && s.c.requests[k].agent.Some?)
  {
  }

  // ---------- how a request leaves ----------

  /** The ways a held request can go. */
  ghost predicate MayTake(env: Env, r: Registry, op: Op, id: Id)
    requires id in r.c.requests
  {
    var q := r.c.requests[id];
    match op
    case ExpireOp(now) => !StillHeld(r.c, id, now)
    case DispatchOp(now, next, named) => !StillHeld(r.c, id, now) || (r.c.pending.Some? && next == Some(id) && !named)
    case VerifyOp(k, password, now) =>
      !StillHeld(r.c, id, now) || (k == id && q.notified && !q.verified && !Proves(env, r.c, id, password))
    case AttachOp(_, _, now, _) => !StillHeld(r.c, id, now)
    case RejectOp(k) => k == id && q.agent.None?
    case ProcessReadyOp(_, _) => r.c.ready != [] && r.c.ready[0] == id
    case CleanupOp(a) => q.agent == Some(a)
    case BeginStopOp(onMuxThread) => !onMuxThread && r.c.pending.Some? && !r.c.closing && q.agent.None?
    case _ => false
  }

  /** A held request is gone after a step exactly if the step is one of these: its time is up, its source has
      no name, it fails verification, it is rejected, it is its turn to be delivered, its agent is torn down
      or the listener stops. No other step takes it, or changes its packet, source or fragments. */
  lemma LeavesOnlyBy(env: Env, r: Registry, next: nat, op: Op, id: Id)
    requires Inv(env, r.c, next) && next < ID_LIMIT && Enabled(env, r, op) && id in r.c.requests
    ensures var c := Apply(env, r, next, op).0.c;
            && (id in c.requests <==> !MayTake(env, r, op, id))
            && (id in c.requests ==> SameAttemptAs(c.requests[id], r.c.requests[id]))
  {
    hide Inv, Verify, Attach, Dispatch, Expire, Receive, ProcessReady, Cleanup, IsNextToNotify, AllNotified, ChosenOk, StillHeld,
         Proves, Reject, BeginStop, SameAttemptAs;
    assert SameAttemptAs(r.c.requests[id], r.c.requests[id]) by { SameAsItself(r.c.requests[id]); }
    match op
    case ReceiveOp(src, data, now, chosen, memory, stored) =>
      ReceiveLeaves(env, r, next, src, data, now, chosen, memory, stored, id);
    case RejectOp(k) => UntimedLeaves(env, r, next, op, id);
    case ProcessReadyOp(stored, accepted) => UntimedLeaves(env, r, next, op, id);
    case CleanupOp(a) => UntimedLeaves(env, r, next, op, id);
    case BeginStopOp(_) => UntimedLeaves(env, r, next, op, id);
    case ExpireOp(_) => TimedLeaves(env, r, next, op, id);
    case DispatchOp(_, _, _) => TimedLeaves(env, r, next, op, id);
    case VerifyOp(_, _, _) => TimedLeaves(env, r, next, op, id);
    case AttachOp(_, _, _, _) => TimedLeaves(env, r, next, op, id);
    case _ =>
  }

  lemma SameAsItself(q: Request)
    ensures SameAttemptAs(q, q)
  {
  }

  lemma UntimedLeaves(env: Env, r: Registry, next: nat, op: Op, id: Id)
    requires Inv(env, r.c, next) && Enabled(env, r, op) && id in r.c.requests
    requires op.RejectOp? || op.ProcessReadyOp? || op.CleanupOp? || op.BeginStopOp?
    ensures var c := Apply(env, r, next, op).0.c;
            && (id in c.requests <==> !MayTake(env, r, op, id))
            && (id in c.requests ==> SameAttemptAs(c.requests[id], r.c.requests[id]))
  {
    hide Inv, ReadyOk, ProcessReady, Cleanup, Reject, BeginStop, SameAttemptAs;
    ReadyHolds(env, r.c, next);
    SameAsItself(r.c.requests[id]);
    match op
    case RejectOp(k) => RejectLeaves(r, k, id);
    case ProcessReadyOp(stored, accepted) => ReadyLeaves(r, stored, accepted, id);
    case CleanupOp(a) => CleanupLeaves(r, a, id);
    case BeginStopOp(onMuxThread) => StopLeaves(r, onMuxThread, id);
  }

  /** The request is there as it was. */
  predicate Stays(c: Core, d: Core, id: Id)
    requires id in c.requests
  {
    id in d.requests && d.requests[id] == c.requests[id]
  }

  lemma RejectLeaves(r: Registry, k: Id, id: Id)
    requires id in r.c.requests
    ensures var c := Reject(r, k).0.c;
            if k == id && r.c.requests[id].agent.None? then id !in c.requests else Stays(r.c, c, id)
  {
    hide Reject;
    RejectOutcome(r, k);
  }

  lemma ReadyLeaves(r: Registry, stored: bool, accepted: bool, id: Id)
    requires id in r.c.requests && r.c.ready != [] && ReadyOk(r.c)
    ensures var c := ProcessReady(r, stored, accepted).c;
            if r.c.ready[0] == id then id !in c.requests else Stays(r.c, c, id)
  {
    hide ProcessReady, ReadyOk;
    ProcessReadyOutcome(r, stored, accepted);
  }

  lemma CleanupLeaves(r: Registry, a: Agent, id: Id)
    requires id in r.c.requests && ReadyOk(r.c)
    ensures var c := Cleanup(r, a).c;
            if r.c.requests[id].agent == Some(a) then id !in c.requests else Stays(r.c, c, id)
  {
    hide Cleanup, ReadyOk;
    CleanupOutcome(r, a);
  }

  lemma StopLeaves(r: Registry, onMuxThread: bool, id: Id)
    requires id in r.c.requests
    ensures var c := BeginStop(r, onMuxThread).0.c;
            if !onMuxThread && r.c.pending.Some? && !r.c.closing && r.c.requests[id].agent.None? then id !in c.requests
            else Stays(r.c, c, id)
  {
    hide BeginStop, ReadyOk;
    BeginStopOutcome(r, onMuxThread);
  }

  lemma TimedLeaves(env: Env, r: Registry, next: nat, op: Op, id: Id)
    requires Enabled(env, r, op) && id in r.c.requests
    requires op.ExpireOp? || op.DispatchOp? || op.VerifyOp? || op.AttachOp?
    ensures var c := Apply(env, r, next, op).0.c;
            && (id in c.requests <==> !MayTake(env, r, op, id))
            && (id in c.requests ==> SameAttemptAs(c.requests[id], r.c.requests[id]))
  {
    hide Verify, Attach, Dispatch, Expire, IsNextToNotify, AllNotified, StillHeld, Proves;
    match op
    case ExpireOp(now) => ExpireOutcome(r, now);
    case DispatchOp(now, k, named) => DispatchLeaves(r, now, k, named, id);
    case VerifyOp(k, password, now) => VerifyLeaves(env, r, k, password, now, id);
    case AttachOp(k, a, now, woken) => AttachLeaves(r, k, a, now, woken, id);
  }

  /** The same packet, held as long. */
  predicate SameAttemptAs(q: Request, p: Request) {
    AttemptOf(q) == AttemptOf(p) && q.deadline == p.deadline
  }

  lemma DispatchLeaves(r: Registry, now: int, k: Option<Id>, named: bool, id: Id)
    requires id in r.c.requests
    ensures var c := Dispatch(r, now, k, named).c;
            && (id in c.requests <==> StillHeld(r.c, id, now) && !(r.c.pending.Some? && k == Some(id) && !named))
            && (id in c.requests ==> SameAttemptAs(c.requests[id], r.c.requests[id]))
  {
    hide Dispatch, Expire, StillHeld, ReadyOk;
    ExpireOutcome(r, now);
    DispatchOutcome(r, now, k, named);
  }

  lemma VerifyLeaves(env: Env, r: Registry, k: Id, password: string, now: int, id: Id)
    requires id in r.c.requests
    ensures var c := Verify(env, r, k, password, now).0.c;
            && (id in c.requests <==>
                  && StillHeld(r.c, id, now)
                  && !(k == id && r.c.requests[id].notified && !r.c.requests[id].verified && !Proves(env, r.c, id, password)))
            && (id in c.requests ==> SameAttemptAs(c.requests[id], r.c.requests[id]))
  {
    hide Verify, Expire, StillHeld, ReadyOk;
    ExpireOutcome(r, now);
    VerifyOutcome(env, r, k, password, now);
  }

  lemma AttachLeaves(r: Registry, k: Id, a: Agent, now: int, woken: bool, id: Id)
    requires id in r.c.requests
    ensures var c := Attach(r, k, a, now, woken).0.c;
            && (id in c.requests <==> StillHeld(r.c, id, now))
            && (id in c.requests ==> SameAttemptAs(c.requests[id], r.c.requests[id]))
  {
    hide Attach, Expire, StillHeld, ReadyOk, Named, SourceFree;
    ExpireOutcome(r, now);
    AttachOutcome(r, k, a, now, woken);
  }

  lemma ReadyHolds(env: Env, c: Core, next: nat)
    requires Inv(env, c, next)
    ensures ReadyOk(c)
  {
  }

  /** A datagram never touches a request that is held already: new requests have new ids. */
  lemma ReceiveLeaves(env: Env, r: Registry, next: nat, src: Endpoint, data: seq<byte>, now: int,
                      chosen: Option<Agent>, memory: bool, stored: bool, id: Id)
    requires Inv(env, r.c, next) && next < ID_LIMIT && ChosenOk(env, r.c, data, chosen) && id in r.c.requests
    ensures var c := Receive(env, r, next, src, data, now, chosen, memory, stored).0.c;
            id in c.requests && c.requests[id] == r.c.requests[id]
  {
    hide StagesOk, ReadyOk, ListenerOk, DeadlinesOk, TableOk, NotifiedOk, DeliveredOk, KeysOk, Defer, ChosenOk;
    assert id != next || next == 0;
    var f := ReceiveForm(env, r, next, src, data, now, chosen, memory, stored);
    if f.Some? && r.c.required {
      DeferOutcome(Heard(r, src, data), next, src, f.value.0, f.value.1, data, now, memory);
    }
  }

  // ---------- from the first packet to the agent ----------

  /** The ready loop: one turn for every request in the queue. */
  function Drain(r: Registry, turns: seq<(bool, bool)>): Registry
    decreases |turns|
  {
    if turns == [] || r.c.ready == [] then r else Drain(ProcessReady(r, turns[0].0, turns[0].1), turns[1..])
  }

  /** The last request in the queue reaches its agent if the table has memory for it and the agent has taken
      what came before. */
  lemma {:induction false} DrainReaches(env: Env, r: Registry, next: nat, turns: seq<(bool, bool)>, id: Id, a: Agent)
    requires Inv(env, r.c, next) && |turns| == |r.c.ready| > 0 && r.c.ready[|r.c.ready| - 1] == id
    requires id in r.c.requests && r.c.requests[id].agent == Some(a) && Ready(r.c, a)
    requires turns[|turns| - 1].0 && forall k :: 0 <= k < |turns| - 1 ==> turns[k].1
    ensures var s := Drain(r, turns);
            && s.c.ready == [] && id !in s.c.requests
            && r.c.requests[id].src in s.c.table && s.c.table[r.c.requests[id].src] == a
            && Delivery(id, a, r.c.requests[id].data) in s.c.delivered
    decreases |turns|
  {
    hide Inv, ReadyOk, ProcessReady;
    ReadyHolds(env, r.c, next);
    var s := ProcessReady(r, turns[0].0, turns[0].1);
    if |turns| == 1 {
      ProcessReadyOutcome(r, turns[0].0, turns[0].1);
      assert s.c.ready == [] && Drain(s, turns[1..]) == s;
      assert s.c.delivered[|s.c.delivered| - 1] == Delivery(id, a, r.c.requests[id].data);
    } else {
      ProcessReadyKeeps(env, r, next, turns[0].0, turns[0].1);
      LastWaits(r, turns[0].0, id, a);
      DrainReaches(env, s, next, turns[1..], id, a);
    }
  }

  /** A turn for another request leaves the last one last, and its agent ready. */
  lemma LastWaits(r: Registry, stored: bool, id: Id, a: Agent)
    requires ReadyOk(r.c) && |r.c.ready| > 1 && r.c.ready[|r.c.ready| - 1] == id
    requires id in r.c.requests && r.c.requests[id].agent == Some(a) && Ready(r.c, a)
    ensures var s := ProcessReady(r, stored, true);
            && s.c.ready != [] && |s.c.ready| == |r.c.ready| - 1 && s.c.ready[|s.c.ready| - 1] == id
            && id in s.c.requests && s.c.requests[id] == r.c.requests[id] && Ready(s.c, a)
  {
    hide ProcessReady;
    HeadIsAttached(r.c);
    ProcessReadyOutcome(r, stored, true);
    hide ReadyOk;
    assert r.c.ready[0] != id;
  }

  /** The request is held as given, and what decides about it is as it was. */
  ghost predicate AtStage(env: Env, c: Core, d: Core, next: nat, id: Id, q: Request) {
    && Inv(env, d, next) && id in d.requests && d.requests[id] == q
    && d.table == c.table && d.agents == c.agents && d.ready == c.ready && d.pending == c.pending
    && SourcesKept(c, d)
  }

  /** The sources in the queue are the same. */
  ghost predicate SourcesKept(c: Core, d: Core) {
    forall k :: k in c.ready ==> k in d.requests && k in c.requests && d.requests[k].src == c.requests[k].src
  }

  lemma SourcesStay(c: Core, d: Core, e: Core, id: Id)
    requires SourcesKept(c, d) && OthersKept(d, e, id) && id in d.requests && id in e.requests && e.requests[id].src == d.requests[id].src
    ensures SourcesKept(c, e)
  {
  }

  lemma SourcesStayWithNew(c: Core, d: Core, id: Id)
    requires OthersKept(c, d, id) && id !in c.requests && forall k :: k in c.ready ==> k in c.requests
    ensures SourcesKept(c, d)
  {
  }

  lemma SourcesSurvive(c: Core, d: Core, e: Core)
    requires SourcesKept(c, d) && forall k :: k in c.ready && k in d.requests ==> k in e.requests && e.requests[k] == d.requests[k]
    ensures SourcesKept(c, e)
  {
  }

  /** The packet comes in and is held. */
  lemma HeldFirst(env: Env, r: Registry, next: nat, src: Endpoint, local: string, remote: string, data: seq<byte>,
                  now: int, chosen: Option<Agent>, stored: bool)
    requires Inv(env, r.c, next) && 0 < next < ID_LIMIT && r.c.clock <= now && ChosenOk(env, r.c, data, chosen)
    requires r.c.required && src !in r.c.table && env.parse(data) == BindingRequest(Some((local, remote)))
    requires Begins(r.c, src, local, remote, data) && |r.c.requests| < r.c.pending.value.maxPending
    ensures var (s, next') := Receive(env, r, next, src, data, now, chosen, true, stored);
            && AtStage(env, r.c, s.c, next', next, Request(src, local, remote, data, now + r.c.pending.value.timeout, false, false, "", None))
            && s.c.clock == now && OthersKept(r.c, s.c, next)
  {
    ReadyIsHeld(env, r.c, next);
    hide Inv, Defer, ReadyOk, Begins, ChosenOk, Receive, OthersKept, SourcesKept;
    ReceiveKeeps(env, r, next, src, data, now, chosen, true, stored);
    ReceiveHolds(env, r, next, src, data, now, chosen, true, stored);
    var heard := Heard(r, src, data);
    SameBegun(r.c, heard.c, src, local, remote, data);
    DeferOutcome(heard, next, src, local, remote, data, now, true);
    DeferLeaves(heard, next, src, local, remote, data, now, true);
    var s := Receive(env, r, next, src, data, now, chosen, true, stored).0;
    SameRequestsKept(r.c, heard.c, s.c, next);
    SourcesStayWithNew(r.c, s.c, next);
  }

  lemma SameBegun(c: Core, d: Core, src: Endpoint, local: string, remote: string, data: seq<byte>)
    requires d.requests == c.requests && d.pending == c.pending
    ensures Begins(c, src, local, remote, data) <==> Begins(d, src, local, remote, data)
  {
  }

  lemma ReadyIsHeld(env: Env, c: Core, next: nat)
    requires Inv(env, c, next)
    ensures forall k :: k in c.ready ==> k in c.requests && c.requests[k].agent.Some?
    ensures next != 0 ==> next !in c.requests
  {
  }

  /** Expiry before its time does not matter to it. */
  lemma StillAtStage(env: Env, c: Core, r: Registry, next: nat, id: Id, q: Request, now: int)
    requires AtStage(env, c, r.c, next, id, q) && r.c.clock <= now < q.deadline
    ensures AtStage(env, c, Expire(r, now).c, next, id, q) && Expire(r, now).c.clock == now
  {
    ReadyIsHeld(env, r.c, next);
    ReadyHolds(env, r.c, next);
    ExpireKeeps(env, r, next, now);
    hide Inv, ReadyOk, Expire, SourcesKept;
    ExpireOutcome(r, now);
    SourcesSurvive(c, r.c, Expire(r, now).c);
  }

  /** It is announced: all that came before has been. */
  lemma Announced(env: Env, c: Core, r: Registry, next: nat, id: Id, q: Request, now: int)
    requires AtStage(env, c, r.c, next, id, q) && r.c.clock <= now < q.deadline && c.pending.Some? && !q.notified
    requires forall k :: k in r.c.requests && k != id ==> r.c.requests[k].notified
    ensures var s := Dispatch(r, now, Some(id), true);
            AtStage(env, c, s.c, next, id, q.(notified := true)) && s.c.clock == now
  {
    StillAtStage(env, c, r, next, id, q, now);
    var e, s := Expire(r, now), Dispatch(r, now, Some(id), true);
    assert s == AnnounceNext(e, Some(id), true);
    hide Inv, ReadyOk, Expire, Dispatch, AnnounceNext, OthersKept, SourcesKept;
    assert IsNextToNotify(e.c, id) by { ExpireOutcome(r, now); }
    AnnounceNextKeeps(env, e, next, Some(id), true);
    DispatchOutcome(r, now, Some(id), true);
    SourcesStay(c, e.c, s.c, id);
  }

  /** It is verified. */
  lemma VerifiedThen(env: Env, c: Core, r: Registry, next: nat, id: Id, q: Request, password: string, now: int)
    requires AtStage(env, c, r.c, next, id, q) && r.c.clock <= now < q.deadline && q.notified && !q.verified
    requires q.src !in c.table && env.auth(q.data, password)
    ensures var (s, o) := Verify(env, r, id, password, now);
            o == Success && AtStage(env, c, s.c, next, id, q.(verified := true, password := password)) && s.c.clock == now
  {
    StillAtStage(env, c, r, next, id, q, now);
    var e, s := Expire(r, now), Verify(env, r, id, password, now).0;
    assert s == VerifyHeld(env, e, id, password).0;
    hide Inv, ReadyOk, Expire, Verify, VerifyHeld, OthersKept, SourcesKept;
    VerifyHeldKeeps(env, e, next, id, password);
    VerifyOutcome(env, r, id, password, now);
    SourcesStay(c, e.c, s.c, id);
  }

  /** It is given to the agent it names. */
  lemma AttachedThen(env: Env, c: Core, r: Registry, next: nat, id: Id, q: Request, a: Agent, now: int)
    requires AtStage(env, c, r.c, next, id, q) && r.c.clock <= now < q.deadline && q.verified && q.agent.None?
    requires q.src !in c.table && Ready(c, a) && c.agents[a].localUfrag == q.local && c.agents[a].remoteUfrag == q.remote
             && c.agents[a].localPwd == q.password
    requires forall k :: k in c.ready && k in c.requests ==> c.requests[k].src != q.src
    ensures var (s, o) := Attach(r, id, a, now, true);
            && o == Success && Inv(env, s.c, next) && id in s.c.requests && s.c.requests[id] == q.(agent := Some(a))
            && s.c.ready == c.ready + [id] && s.c.agents == c.agents
  {
    StillAtStage(env, c, r, next, id, q, now);
    var e, s := Expire(r, now), Attach(r, id, a, now, true).0;
    assert s == AttachHeld(e, id, a, true).0;
    hide Inv, ReadyOk, Expire, Attach, AttachHeld, OthersKept;
    AttachHeldKeeps(env, e, next, id, a, true);
    AttachOutcome(r, id, a, now, true);
  }

  /** What it takes: a packet of an unmapped source that begins an attempt, with room for it, which an agent
      that is ready is the right one for. */
  predicate Welcome(env: Env, c: Core, src: Endpoint, local: string, remote: string, data: seq<byte>, a: Agent) {
    && c.required && src !in c.table && env.parse(data) == BindingRequest(Some((local, remote)))
    && Begins(c, src, local, remote, data) && |c.requests| < c.pending.value.maxPending
    && (forall k :: k in c.ready && k in c.requests ==> c.requests[k].src != src)
    && Ready(c, a) && c.agents[a].localUfrag == local && c.agents[a].remoteUfrag == remote
    && env.auth(data, c.agents[a].localPwd)
  }

  /** The first three stages. */
  lemma AdmittedIsVerified(env: Env, r: Registry, next: nat, src: Endpoint, local: string, remote: string, data: seq<byte>,
                           password: string, t0: int, t1: int, t2: int, chosen: Option<Agent>, stored: bool)
    returns (next': nat)
    requires Inv(env, r.c, next) && 0 < next < ID_LIMIT && ChosenOk(env, r.c, data, chosen) && AllNotified(r.c)
    requires r.c.required && src !in r.c.table && env.parse(data) == BindingRequest(Some((local, remote)))
    requires Begins(r.c, src, local, remote, data) && |r.c.requests| < r.c.pending.value.maxPending && env.auth(data, password)
    requires r.c.clock <= t0 <= t1 <= t2 < t0 + r.c.pending.value.timeout
    ensures var held := Receive(env, r, next, src, data, t0, chosen, true, stored).0;
            var (s, o) := Verify(env, Dispatch(held, t1, Some(next), true), next, password, t2);
            && o == Success && s.c.clock == t2
            && AtStage(env, r.c, s.c, next', next,
                       Request(src, local, remote, data, t0 + r.c.pending.value.timeout, true, true, password, None))
  {
    hide Receive, Dispatch, Verify, Inv, AtStage, ChosenOk, Begun;
    var q := Request(src, local, remote, data, t0 + r.c.pending.value.timeout, false, false, "", None);
    HeldFirst(env, r, next, src, local, remote, data, t0, chosen, stored);
    var held := Receive(env, r, next, src, data, t0, chosen, true, stored).0;
    next' := Receive(env, r, next, src, data, t0, chosen, true, stored).1;
    Announced(env, r.c, held, next', next, q, t1);
    VerifiedThen(env, r.c, Dispatch(held, t1, Some(next), true), next', next, q.(notified := true), password, t2);
  }

  /** From the first packet to the agent. A request that comes in when all before it have been announced, and
      is announced, verified under the password of the ready agent it names, given to that agent and
      processed, all before its time is up, succeeds at every stage: in the end its source is mapped to the
      agent, its first packet has been delivered to it, and it is held no longer. */
  lemma AdmittedReachesAgent(env: Env, r: Registry, next: nat, src: Endpoint, local: string, remote: string, data: seq<byte>,
                             a: Agent, t0: int, t1: int, t2: int, t3: int, chosen: Option<Agent>, stored: bool,
                             turns: seq<(bool, bool)>)
    requires Inv(env, r.c, next) && 0 < next < ID_LIMIT && ChosenOk(env, r.c, data, chosen)
    requires Welcome(env, r.c, src, local, remote, data, a) && AllNotified(r.c)
    requires r.c.clock <= t0 <= t1 <= t2 <= t3 < t0 + r.c.pending.value.timeout
    requires |turns| == |r.c.ready| + 1 && turns[|turns| - 1].0 && forall k :: 0 <= k < |turns| - 1 ==> turns[k].1
    ensures var held := Receive(env, r, next, src, data, t0, chosen, true, stored).0;
            var announced := Dispatch(held, t1, Some(next), true);
            var (verified, o) := Verify(env, announced, next, r.c.agents[a].localPwd, t2);
            var (attached, p) := Attach(verified, next, a, t3, true);
            var s := Drain(attached, turns);
            && o == Success && p == Success
            && src in s.c.table && s.c.table[src] == a && Delivery(next, a, data) in s.c.delivered && next !in s.c.requests
  {
    hide Receive, Dispatch, Verify, Attach, Inv, AtStage, Drain, ChosenOk, Begun;
    var password := r.c.agents[a].localPwd;
    var q := Request(src, local, remote, data, t0 + r.c.pending.value.timeout, true, true, password, None);
    var next' := AdmittedIsVerified(env, r, next, src, local, remote, data, password, t0, t1, t2, chosen, stored);
    var held := Receive(env, r, next, src, data, t0, chosen, true, stored).0;
    var verified := Verify(env, Dispatch(held, t1, Some(next), true), next, password, t2).0;
    AttachedThen(env, r.c, verified, next', next, q, a, t3);
    var attached := Attach(verified, next, a, t3, true).0;
    DrainReaches(env, attached, next', turns, next, a);
  }
}
