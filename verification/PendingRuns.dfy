/**
 What every run of any number of registries keeps: the invariant of pending admission, proved of
 each locked section and carried over every interleaving of them.
 */
module PendingRuns {
  import opened Addr
  import opened Basics
  import opened PendingSpec

  // ---------- the invariant, one aspect at a time ----------

  /** Ids are issued once, in increasing order, and a held request is the packet its id was issued for. */
  ghost predicate IdsOk(c: Core, next: nat) {
    && (forall id :: id in c.issued ==> 0 < id < ID_LIMIT && (next == 0 || id < next))
    && (forall id :: id in c.requests ==> id in c.issued && c.issued[id] == AttemptOf(c.requests[id]))
  }

  function AttemptOf(r: Request): Attempt {
    Attempt(r.src, r.local, r.remote, r.data)
  }

  /** No two held requests are the same attempt. */
  ghost predicate KeysOk(c: Core) {
    forall id, other :: id in c.requests && other in c.requests && id != other ==>
      !SameAttempt(c.requests[id], c.requests[other].src, c.requests[other].local, c.requests[other].remote)
  }

  /** A request is attached only after it was verified under the agent's password, and verified only
      after it was announced. */
  ghost predicate StagesOk(env: Env, c: Core) {
    forall id :: id in c.requests ==> StageOk(env, c, c.requests[id])
  }

  ghost predicate StageOk(env: Env, c: Core, r: Request) {
    && (r.src, r.data) in c.heard
    && (r.verified ==> r.notified && env.auth(r.data, r.password))
    && (r.agent.Some? ==> r.verified && r.agent.value in c.agents
                          && c.agents[r.agent.value].localPwd == r.password)
  }

  /** The ready queue holds exactly the attached requests, from distinct unmapped sources. */
  ghost predicate ReadyOk(c: Core) {
    && NoDup(c.ready)
    && (forall id :: id in c.ready <==> id in c.requests && c.requests[id].agent.Some?)
    && (forall id :: id in c.ready ==> c.requests[id].src !in c.table)
    && (forall id, other :: id in c.ready && other in c.ready && id != other ==>
          c.requests[id].src != c.requests[other].src)
  }

  /** Without a listener nothing waits for a decision; with one, no more than it allows. */
  ghost predicate ListenerOk(c: Core) {
    && (c.pending.None? ==> UnacceptedIds(c) == {})
    && (c.pending.Some? ==> c.required && |UnacceptedIds(c)| <= c.pending.value.maxPending)
    && (!c.required ==> c.requests == map[])
  }

  /** Unaccepted requests fall due in the order they were admitted. */
  ghost predicate DeadlinesOk(c: Core) {
    && (forall id, other ::
          id in c.requests && other in c.requests && id < other && Unaccepted(c.requests[id]) && Unaccepted(c.requests[other])
          ==> c.requests[id].deadline <= c.requests[other].deadline)
    && (forall id :: id in c.requests && Unaccepted(c.requests[id]) ==>
          c.pending.Some? && c.requests[id].deadline <= c.clock + c.pending.value.timeout)
  }

  /** A source is mapped only to a live agent under whose password a request from it was verified. */
  ghost predicate TableOk(env: Env, c: Core) {
    forall s :: s in c.table ==> c.table[s] in c.agents && Authorized(env, c, s, c.agents[c.table[s]].localPwd)
  }

  ghost predicate Authorized(env: Env, c: Core, s: Endpoint, password: string) {
    exists data :: (s, data) in c.heard && env.auth(data, password)
  }

  /** Announcements come in increasing order of id, each id at most once. */
  ghost predicate NotifiedOk(c: Core) {
    && (forall i, j :: 0 <= i < j < |c.notified| ==> c.notified[i] < c.notified[j])
    && (forall id :: id in c.notified ==> id in c.issued)
    && (forall id :: id in c.requests ==> (c.requests[id].notified <==> id in c.notified))
    && (forall id, earlier :: id in c.requests && !c.requests[id].notified && earlier in c.notified ==> earlier < id)
  }

  /** Each id is delivered at most once, with the bytes it was issued for. */
  ghost predicate DeliveredOk(c: Core) {
    && (forall i, j :: 0 <= i < j < |c.delivered| ==> c.delivered[i].id != c.delivered[j].id)
    && (forall i :: 0 <= i < |c.delivered| ==>
          && c.delivered[i].id in c.issued && c.delivered[i].id !in c.requests
          && c.delivered[i].data == c.issued[c.delivered[i].id].data)
  }

  ghost predicate Inv(env: Env, c: Core, next: nat) {
    && IdsOk(c, next) && KeysOk(c) && StagesOk(env, c) && ReadyOk(c) && ListenerOk(c)
    && DeadlinesOk(c) && TableOk(env, c) && NotifiedOk(c) && DeliveredOk(c)
  }

  // ---------- what each building block keeps ----------

  /** Dropping requests, whichever they are, keeps everything. */
  lemma DropKeeps(env: Env, c: Core, next: nat, gone: set<Id>)
    requires Inv(env, c, next)
    ensures Inv(env, Drop(c, gone), next)
  {
    hide IdsOk, KeysOk, StagesOk, ReadyOk, ListenerOk, DeadlinesOk, TableOk, NotifiedOk, DeliveredOk;
    DropListener(c, gone);
    DropReady(c, gone);
    DropStages(env, c, gone);
    DropHistory(c, next, gone);
    DropTable(env, c, gone);
  }

  lemma DropReady(c: Core, gone: set<Id>)
    requires ReadyOk(c)
    ensures ReadyOk(Drop(c, gone))
  {
    WithoutNoDup(c.ready, gone);
  }

  lemma DropStages(env: Env, c: Core, gone: set<Id>)
    requires KeysOk(c) && StagesOk(env, c) && DeadlinesOk(c)
    ensures KeysOk(Drop(c, gone)) && StagesOk(env, Drop(c, gone)) && DeadlinesOk(Drop(c, gone))
  {
  }

  lemma DropHistory(c: Core, next: nat, gone: set<Id>)
    requires IdsOk(c, next) && NotifiedOk(c) && DeliveredOk(c)
    ensures IdsOk(Drop(c, gone), next) && NotifiedOk(Drop(c, gone)) && DeliveredOk(Drop(c, gone))
  {
  }

  lemma DropTable(env: Env, c: Core, gone: set<Id>)
    requires TableOk(env, c)
    ensures TableOk(env, Drop(c, gone))
  {
    var d := Drop(c, gone);
    forall s | s in d.table ensures Authorized(env, d, s, d.agents[d.table[s]].localPwd) {
      var data :| (s, data) in c.heard && env.auth(data, c.agents[c.table[s]].localPwd);
      assert (s, data) in d.heard;
    }
  }

  lemma DropListener(c: Core, gone: set<Id>)
    requires ListenerOk(c)
    ensures ListenerOk(Drop(c, gone))
  {
    var d := Drop(c, gone);
    assert UnacceptedIds(d) <= UnacceptedIds(c);
    SubsetSize(UnacceptedIds(d), UnacceptedIds(c));
    assert !c.required ==> d.requests == map[];
  }

  lemma ExpireKeeps(env: Env, r: Registry, next: nat, now: int)
    requires Inv(env, r.c, next) && r.c.clock <= now
    ensures Inv(env, Expire(r, now).c, next)
  {
    DropKeeps(env, r.c, next, Due(r.c, now));
  }

  lemma HearKeeps(env: Env, c: Core, next: nat, src: Endpoint, data: seq<byte>)
    requires Inv(env, c, next)
    ensures Inv(env, Hear(c, src, data), next)
  {
    var d := Hear(c, src, data);
    assert UnacceptedIds(d) == UnacceptedIds(c);
    forall s | s in d.table ensures Authorized(env, d, s, d.agents[d.table[s]].localPwd) {
      assert Authorized(env, c, s, c.agents[c.table[s]].localPwd);
      var data' :| (s, data') in c.heard && env.auth(data', c.agents[c.table[s]].localPwd);
      assert (s, data') in d.heard;
    }
  }

  lemma AdmitKeeps(env: Env, c: Core, next: nat, src: Endpoint, local: string, remote: string,
                   data: seq<byte>, now: int)
    requires Inv(env, c, next) && 0 < next < ID_LIMIT && c.clock <= now
    requires c.pending.Some? && |c.requests| < c.pending.value.maxPending
    requires !Held(c, src, local, remote) && (src, data) in c.heard
    ensures Inv(env, Admit(c, next, src, local, remote, data, now), TakeId(next))
  {
    AdmitIds(c, next, src, local, remote, data, now);
    AdmitQueues(env, c, next, src, local, remote, data, now);
    AdmitListener(c, next, src, local, remote, data, now);
    AdmitPast(c, next, src, local, remote, data, now);
  }

  lemma AdmitIds(c: Core, next: nat, src: Endpoint, local: string, remote: string, data: seq<byte>, now: int)
    requires IdsOk(c, next) && KeysOk(c) && 0 < next < ID_LIMIT && c.pending.Some?
    requires !Held(c, src, local, remote)
    ensures next !in c.issued && next !in c.requests
    ensures IdsOk(Admit(c, next, src, local, remote, data, now), TakeId(next))
    ensures KeysOk(Admit(c, next, src, local, remote, data, now))
  {
    assert next !in c.issued;
  }

  lemma AdmitQueues(env: Env, c: Core, next: nat, src: Endpoint, local: string, remote: string,
                    data: seq<byte>, now: int)
    requires StagesOk(env, c) && ReadyOk(c) && TableOk(env, c) && c.pending.Some? && next !in c.requests
    requires (src, data) in c.heard
    ensures StagesOk(env, Admit(c, next, src, local, remote, data, now))
    ensures ReadyOk(Admit(c, next, src, local, remote, data, now))
    ensures TableOk(env, Admit(c, next, src, local, remote, data, now))
  {
  }

  lemma AdmitListener(c: Core, next: nat, src: Endpoint, local: string, remote: string, data: seq<byte>, now: int)
    requires IdsOk(c, next) && ListenerOk(c) && DeadlinesOk(c) && c.clock <= now && 0 < next && next !in c.requests
    requires c.pending.Some? && |c.requests| < c.pending.value.maxPending
    ensures ListenerOk(Admit(c, next, src, local, remote, data, now))
    ensures DeadlinesOk(Admit(c, next, src, local, remote, data, now))
  {
    AdmitCount(c, next, src, local, remote, data, now);
  }

  lemma AdmitCount(c: Core, next: nat, src: Endpoint, local: string, remote: string, data: seq<byte>, now: int)
    requires ListenerOk(c) && next !in c.requests && c.pending.Some? && |c.requests| < c.pending.value.maxPending
    ensures ListenerOk(Admit(c, next, src, local, remote, data, now))
  {
    hide SameAttempt;
    AdmitWaiting(c, next, src, local, remote, data, now);
    SubsetSize(UnacceptedIds(c), c.requests.Keys);
  }

  lemma AdmitWaiting(c: Core, next: nat, src: Endpoint, local: string, remote: string, data: seq<byte>, now: int)
    requires next !in c.requests && c.pending.Some?
    ensures UnacceptedIds(Admit(c, next, src, local, remote, data, now)) == UnacceptedIds(c) + {next}
    ensures UnacceptedIds(c) <= c.requests.Keys
  {
  }

  lemma AdmitPast(c: Core, next: nat, src: Endpoint, local: string, remote: string, data: seq<byte>, now: int)
    requires IdsOk(c, next) && NotifiedOk(c) && DeliveredOk(c) && 0 < next && next !in c.issued && c.pending.Some?
    ensures NotifiedOk(Admit(c, next, src, local, remote, data, now))
    ensures DeliveredOk(Admit(c, next, src, local, remote, data, now))
  {
  }

  /** Replacing one request by a later stage of itself keeps what does not speak of stages. */
  ghost predicate Advances(c: Core, d: Core, id: Id) {
    && id in c.requests && id in d.requests
    && d.requests == c.requests[id := d.requests[id]]
    && AttemptOf(d.requests[id]) == AttemptOf(c.requests[id])
    && d.requests[id].deadline == c.requests[id].deadline
    && (Unaccepted(d.requests[id]) ==> Unaccepted(c.requests[id]))
    && d.issued == c.issued && d.delivered == c.delivered && d.clock == c.clock && d.heard == c.heard
    && d.pending == c.pending && d.required == c.required && d.table == c.table && d.agents == c.agents
  }

  lemma AdvanceKeeps(env: Env, c: Core, d: Core, next: nat, id: Id)
    requires Inv(env, c, next) && Advances(c, d, id)
    ensures IdsOk(d, next) && KeysOk(d) && ListenerOk(d) && DeadlinesOk(d) && TableOk(env, d) && DeliveredOk(d)
  {
    AdvanceIds(c, d, next, id);
    AdvanceListener(c, d, id);
    AdvanceDeadlines(c, d, id);
    AdvanceTable(env, c, d);
  }

  lemma AdvanceIds(c: Core, d: Core, next: nat, id: Id)
    requires IdsOk(c, next) && KeysOk(c) && DeliveredOk(c) && Advances(c, d, id)
    ensures IdsOk(d, next) && KeysOk(d) && DeliveredOk(d)
  {
  }

  lemma AdvanceListener(c: Core, d: Core, id: Id)
    requires ListenerOk(c) && Advances(c, d, id)
    ensures ListenerOk(d)
  {
    assert UnacceptedIds(d) <= UnacceptedIds(c);
    SubsetSize(UnacceptedIds(d), UnacceptedIds(c));
  }

  lemma AdvanceDeadlines(c: Core, d: Core, id: Id)
    requires DeadlinesOk(c) && Advances(c, d, id)
    ensures DeadlinesOk(d)
  {
  }

  lemma AdvanceTable(env: Env, c: Core, d: Core)
    requires TableOk(env, c) && d.table == c.table && d.agents == c.agents && c.heard <= d.heard
    ensures TableOk(env, d)
  {
    forall s | s in d.table ensures Authorized(env, d, s, d.agents[d.table[s]].localPwd) {
      assert Authorized(env, c, s, c.agents[c.table[s]].localPwd);
      var data :| (s, data) in c.heard && env.auth(data, c.agents[c.table[s]].localPwd);
      assert (s, data) in d.heard;
    }
  }

  lemma AnnounceKeeps(env: Env, c: Core, next: nat, id: Id)
    requires Inv(env, c, next) && IsNextToNotify(c, id)
    ensures Inv(env, Announce(c, id), next)
  {
    AdvanceKeeps(env, c, Announce(c, id), next, id);
    AnnounceOrder(c, id);
    AnnounceStages(env, c, id);
  }

  lemma AnnounceStages(env: Env, c: Core, id: Id)
    requires StagesOk(env, c) && ReadyOk(c) && id in c.requests
    ensures StagesOk(env, Announce(c, id)) && ReadyOk(Announce(c, id))
  {
  }

  /** Announcing the oldest request extends an increasing sequence. */
  lemma AnnounceOrder(c: Core, id: Id)
    requires NotifiedOk(c) && IsNextToNotify(c, id) && id in c.issued
    ensures NotifiedOk(Announce(c, id))
  {
    forall i | 0 <= i < |c.notified| ensures c.notified[i] < id {
      assert c.notified[i] in c.notified;
    }
  }

  lemma VerifiedKeeps(env: Env, c: Core, next: nat, id: Id, password: string)
    requires Inv(env, c, next) && id in c.requests && c.requests[id].notified && !c.requests[id].verified
    requires env.auth(c.requests[id].data, password)
    ensures Inv(env, MarkVerified(c, id, password), next)
  {
    AdvanceKeeps(env, c, MarkVerified(c, id, password), next, id);
    VerifiedStages(env, c, id, password);
  }

  lemma VerifiedStages(env: Env, c: Core, id: Id, password: string)
    requires StagesOk(env, c) && ReadyOk(c) && NotifiedOk(c) && id in c.requests
    requires c.requests[id].notified && !c.requests[id].verified && env.auth(c.requests[id].data, password)
    ensures StagesOk(env, MarkVerified(c, id, password))
    ensures ReadyOk(MarkVerified(c, id, password))
    ensures NotifiedOk(MarkVerified(c, id, password))
  {
    assert StageOk(env, c, c.requests[id]);
  }

  lemma AttachedKeeps(env: Env, c: Core, next: nat, id: Id, a: Agent)
    requires Inv(env, c, next) && id in c.requests && c.requests[id].verified && c.requests[id].agent.None?
    requires Matches(c, a, c.requests[id])
    requires c.requests[id].src !in c.table && !SourceWaiting(c, c.requests[id].src)
    ensures Inv(env, MarkAttached(c, id, a), next)
  {
    AdvanceKeeps(env, c, MarkAttached(c, id, a), next, id);
    AttachedQueue(c, id, a);
    AttachedStages(env, c, id, a);
  }

  lemma AttachedStages(env: Env, c: Core, id: Id, a: Agent)
    requires StagesOk(env, c) && NotifiedOk(c) && id in c.requests && c.requests[id].verified
    requires Matches(c, a, c.requests[id])
    ensures StagesOk(env, MarkAttached(c, id, a)) && NotifiedOk(MarkAttached(c, id, a))
  {
  }

  lemma AttachedQueue(c: Core, id: Id, a: Agent)
    requires ReadyOk(c) && id in c.requests && c.requests[id].agent.None?
    requires c.requests[id].src !in c.table && !SourceWaiting(c, c.requests[id].src)
    ensures ReadyOk(MarkAttached(c, id, a))
  {
    assert id !in c.ready;
  }

  /** Mapping a source for which no request waits. */
  lemma MapSourceKeeps(env: Env, c: Core, next: nat, src: Endpoint, a: Agent)
    requires Inv(env, c, next) && !c.required && a in c.agents
    requires Authorized(env, c, src, c.agents[a].localPwd)
    ensures Inv(env, MapSource(c, src, a), next)
  {
    var d := MapSource(c, src, a);
    assert UnacceptedIds(d) == UnacceptedIds(c);
    forall s | s in d.table ensures Authorized(env, d, s, d.agents[d.table[s]].localPwd) {
      assert Authorized(env, c, s, d.agents[d.table[s]].localPwd);
    }
  }

  /** Delivery maps the source of the head of the ready queue and forgets the request. */
  lemma DeliverKeeps(env: Env, c: Core, next: nat, accepted: bool)
    requires Inv(env, c, next) && c.ready != []
    ensures var id := c.ready[0];
            id in c.requests && c.requests[id].agent.Some? && c.requests[id].agent.value in c.agents
            && Inv(env, Drop(Deliver(c, id, c.requests[id].agent.value, accepted), {id}), next)
  {
    hide KeysOk, ListenerOk, DeadlinesOk, TableOk, NotifiedOk, DeliveredOk, Without;
    var id := c.ready[0];
    assert id in c.ready;
    assert StageOk(env, c, c.requests[id]);
    var a := c.requests[id].agent.value;
    DropKeeps(env, c, next, {id});
    Delivered(env, c, next, id, a, Drop(c, {id}), Drop(Deliver(c, id, a, accepted), {id}));
  }

  lemma Delivered(env: Env, c: Core, next: nat, id: Id, a: Agent, d: Core, e: Core)
    requires Inv(env, c, next) && Inv(env, d, next) && id in c.ready && id in c.requests && c.requests[id].agent == Some(a)
    requires StageOk(env, c, c.requests[id]) && d == Drop(c, {id})
    requires a in e.agents && e.agents == c.agents[a := e.agents[a]] && e.agents[a].localPwd == c.agents[a].localPwd
    requires e == d.(table := c.table[c.requests[id].src := a], agents := e.agents,
                     delivered := c.delivered + [Delivery(id, a, c.requests[id].data)])
    ensures Inv(env, e, next)
  {
    assert id in c.issued && c.issued[id] == AttemptOf(c.requests[id]);
    hide IdsOk, KeysOk, StagesOk, ReadyOk, ListenerOk, DeadlinesOk, TableOk, NotifiedOk, DeliveredOk, StageOk, Without;
    SameRequests(d, e, next);
    DeliverStages(env, c, d, e, id, a);
    DeliverReady(c, e, id, a);
    DeliverTable(env, c, e, id, a);
    DeliverPast(c, d, e, id);
  }

  /** These aspects look at neither the table nor the agents nor what was delivered. */
  lemma SameRequests(c: Core, d: Core, next: nat)
    requires IdsOk(c, next) && KeysOk(c) && ListenerOk(c) && DeadlinesOk(c) && NotifiedOk(c)
    requires d == c.(table := d.table, agents := d.agents, delivered := d.delivered)
    ensures IdsOk(d, next) && KeysOk(d) && ListenerOk(d) && DeadlinesOk(d) && NotifiedOk(d)
  {
    assert UnacceptedIds(d) == UnacceptedIds(c);
  }

  lemma DeliverStages(env: Env, c: Core, d: Core, e: Core, id: Id, a: Agent)
    requires StagesOk(env, d) && d == Drop(c, {id}) && a in c.agents
    requires e.requests == d.requests && e.heard == d.heard
    requires a in e.agents && e.agents == c.agents[a := e.agents[a]] && e.agents[a].localPwd == c.agents[a].localPwd
    ensures StagesOk(env, e)
  {
  }

  lemma DeliverReady(c: Core, e: Core, id: Id, a: Agent)
    requires ReadyOk(c) && id in c.ready
    requires e.requests == c.requests - {id} && e.ready == Without(c.ready, {id})
    requires e.table == c.table[c.requests[id].src := a]
    ensures ReadyOk(e)
  {
    WithoutNoDup(c.ready, {id});
  }

  lemma DeliverTable(env: Env, c: Core, e: Core, id: Id, a: Agent)
    requires TableOk(env, c) && id in c.requests && c.requests[id].agent == Some(a)
    requires StageOk(env, c, c.requests[id])
    requires e.table == c.table[c.requests[id].src := a] && e.heard == c.heard
    requires a in e.agents && e.agents == c.agents[a := e.agents[a]] && e.agents[a].localPwd == c.agents[a].localPwd
    ensures TableOk(env, e)
  {
    forall s | s in e.table ensures Authorized(env, e, s, e.agents[e.table[s]].localPwd) {
      if s == c.requests[id].src {
        assert (s, c.requests[id].data) in e.heard;
      } else {
        assert Authorized(env, c, s, c.agents[c.table[s]].localPwd);
        var data :| (s, data) in c.heard && env.auth(data, c.agents[c.table[s]].localPwd);
        assert (s, data) in e.heard;
      }
    }
  }

  lemma DeliverPast(c: Core, d: Core, e: Core, id: Id)
    requires DeliveredOk(d) && DeliveredOk(c) && id in c.requests && id in c.issued && d == Drop(c, {id})
    requires c.issued[id] == AttemptOf(c.requests[id])
    requires e.requests == d.requests && e.issued == c.issued
    requires exists a :: e.delivered == c.delivered + [Delivery(id, a, c.requests[id].data)]
    ensures DeliveredOk(e)
  {
  }

  lemma CleanupKeeps(env: Env, r: Registry, next: nat, a: Agent)
    requires Inv(env, r.c, next)
    ensures Inv(env, Cleanup(r, a).c, next)
  {
    var c := r.c;
    DropKeeps(env, c, next, OfAgent(c, a));
    CleanupTable(env, c, Cleanup(r, a).c, a);
    ForgetKeeps(env, Drop(c, OfAgent(c, a)), Cleanup(r, a).c, next, a);
  }

  lemma ForgetKeeps(env: Env, d: Core, e: Core, next: nat, a: Agent)
    requires Inv(env, d, next) && e == d.(table := e.table, agents := d.agents - {a}) && TableOk(env, e)
    requires e.table.Keys <= d.table.Keys
    requires forall id :: id in d.requests ==> d.requests[id].agent != Some(a)
    ensures Inv(env, e, next)
  {
    hide IdsOk, KeysOk, ListenerOk, DeadlinesOk, TableOk, NotifiedOk;
    SameRequests(d, e, next);
  }

  lemma CleanupTable(env: Env, c: Core, e: Core, a: Agent)
    requires TableOk(env, c) && e.agents == c.agents - {a} && e.heard == c.heard
    requires e.table == map s | s in c.table && c.table[s] != a :: c.table[s]
    ensures TableOk(env, e)
  {
    forall s | s in e.table
      ensures e.table[s] in e.agents && Authorized(env, e, s, e.agents[e.table[s]].localPwd)
    {
      assert Authorized(env, c, s, c.agents[c.table[s]].localPwd);
      var data :| (s, data) in c.heard && env.auth(data, c.agents[c.table[s]].localPwd);
      assert (s, data) in e.heard;
    }
  }

  /** Agents may come, learn their peer's fragment or finish: none of it changes a password in use. */
  lemma AgentsKeep(env: Env, c: Core, d: Core, next: nat)
    requires Inv(env, c, next) && d == c.(agents := d.agents)
    requires forall a :: a in c.agents ==> a in d.agents && d.agents[a].localPwd == c.agents[a].localPwd
    ensures Inv(env, d, next)
  {
    assert UnacceptedIds(d) == UnacceptedIds(c);
    forall s | s in d.table ensures Authorized(env, d, s, d.agents[d.table[s]].localPwd) {
      assert Authorized(env, c, s, c.agents[c.table[s]].localPwd);
      var data :| (s, data) in c.heard && env.auth(data, c.agents[c.table[s]].localPwd);
      assert (s, data) in d.heard;
    }
  }

  // ---------- runs ----------

  datatype Op =
    | ReceiveOp(src: Endpoint, data: seq<byte>, now: int, chosen: Option<Agent>, memory: bool, stored: bool)
    | ExpireOp(now: int)
    | ProcessReadyOp(stored: bool, accepted: bool)
    | DispatchOp(now: int, next: Option<Id>, named: bool)
    | VerifyOp(id: Id, password: string, now: int)
    | AttachOp(id: Id, agent: Agent, now: int, woken: bool)
    | RejectOp(id: Id)
    | CleanupOp(agent: Agent)
    | AddAgentOp(agent: Agent, info: AgentInfo)
    | UpdateAgentOp(agent: Agent, remote: string, finished: bool)
    | ListenOp(maxPending: nat, timeout: nat, memory: bool)
    | BeginStopOp(onMuxThread: bool)
    | FinishStopOp
    | ListenIncomingOp
    | StopIncomingOp

  /** The agent a request is checked against is a ready one with its local fragment, and there is one
      whenever such an agent exists. */
  ghost predicate ChosenOk(env: Env, c: Core, data: seq<byte>, chosen: Option<Agent>) {
    env.parse(data).BindingRequest? && env.parse(data).fragments.Some? ==>
      var local := env.parse(data).fragments.value.0;
      && (chosen.Some? ==> Candidate(c, chosen.value, local))
      && (chosen.None? ==> forall a :: a in c.agents ==> !Candidate(c, a, local))
  }

  /** What the surroundings promise: time does not run backwards, a new agent is new, and the heads of
      the queues are what they are. */
  ghost predicate Enabled(env: Env, r: Registry, op: Op) {
    match op
    case ReceiveOp(_, data, now, chosen, _, _) => r.c.clock <= now && ChosenOk(env, r.c, data, chosen)
    case ExpireOp(now) => r.c.clock <= now
    case ProcessReadyOp(_, _) => r.c.ready != []
    case DispatchOp(now, next, _) =>
      && r.c.clock <= now
      && var c := Expire(r, now).c;
         if next.Some? then IsNextToNotify(c, next.value) else AllNotified(c)
    case VerifyOp(_, _, now) => r.c.clock <= now
    case AttachOp(_, _, now, _) => r.c.clock <= now
    case AddAgentOp(a, _) => a !in r.c.agents
    case _ => true
  }

  ghost function Apply(env: Env, r: Registry, next: nat, op: Op): (Registry, nat)
    requires Enabled(env, r, op)
  {
    match op
    case ReceiveOp(src, data, now, chosen, memory, stored) =>
      Receive(env, r, next, src, data, now, chosen, memory, stored)
    case ExpireOp(now) => (Expire(r, now), next)
    case ProcessReadyOp(stored, accepted) => (ProcessReady(r, stored, accepted), next)
    case DispatchOp(now, id, named) => (Dispatch(r, now, id, named), next)
    case VerifyOp(id, password, now) => (Verify(env, r, id, password, now).0, next)
    case AttachOp(id, a, now, woken) => (Attach(r, id, a, now, woken).0, next)
    case RejectOp(id) => (Reject(r, id).0, next)
    case CleanupOp(a) => (Cleanup(r, a), next)
    case AddAgentOp(a, info) => (AddAgent(r, a, info), next)
    case UpdateAgentOp(a, remote, finished) => (UpdateAgent(r, a, remote, finished), next)
    case ListenOp(maxPending, timeout, memory) => (Listen(r, maxPending, timeout, memory).0, next)
    case BeginStopOp(onMuxThread) => (BeginStop(r, onMuxThread).0, next)
    case FinishStopOp => (FinishStop(r), next)
    case ListenIncomingOp => (ListenIncoming(r), next)
    case StopIncomingOp => (StopIncoming(r), next)
  }

  /** Fields the invariant does not read. */
  lemma FlagsKeep(env: Env, c: Core, d: Core, next: nat)
    requires Inv(env, c, next) && d == c.(closing := d.closing, incoming := d.incoming)
    ensures Inv(env, d, next)
  {
    assert UnacceptedIds(d) == UnacceptedIds(c);
    AdvanceTable(env, c, d);
  }

  lemma DeferKeeps(env: Env, r: Registry, next: nat, src: Endpoint, local: string, remote: string,
                   data: seq<byte>, now: int, memory: bool)
    requires Inv(env, r.c, next) && next < ID_LIMIT && r.c.clock <= now && (src, data) in r.c.heard
    ensures var (r', next') := Defer(r, next, src, local, remote, data, now, memory);
            Inv(env, r'.c, next') && next' < ID_LIMIT
  {
    if next != 0 && r.c.pending.Some? && |r.c.requests| < r.c.pending.value.maxPending
       && !Held(r.c, src, local, remote) {
      AdmitKeeps(env, r.c, next, src, local, remote, data, now);
    }
  }

  lemma RequestKeeps(env: Env, r: Registry, next: nat, src: Endpoint, local: string, remote: string,
                     data: seq<byte>, now: int, chosen: Option<Agent>, memory: bool, stored: bool)
    requires Inv(env, r.c, next) && next < ID_LIMIT && r.c.clock <= now && (src, data) in r.c.heard
    ensures var (r', next') := RouteRequest(env, r, next, src, local, remote, data, now, chosen, memory, stored);
            Inv(env, r'.c, next') && next' < ID_LIMIT
  {
    if r.c.required {
      DeferKeeps(env, r, next, src, local, remote, data, now, memory);
    } else if chosen.Some? && chosen.value in r.c.agents && Authentic(env, r.c.agents[chosen.value], remote, data) {
      assert Authorized(env, r.c, src, r.c.agents[chosen.value].localPwd);
      MapSourceKeeps(env, r.c, next, src, chosen.value);
    }
  }

  function Heard(r: Registry, src: Endpoint, data: seq<byte>): Registry {
    Registry(Hear(r.c, src, data), r.stats.(received := r.stats.received + 1))
  }

  /** A datagram changes nothing but counters, or is a well-formed request that was heard and routed. */
  lemma ReceiveForm(env: Env, r: Registry, next: nat, src: Endpoint, data: seq<byte>, now: int,
                    chosen: Option<Agent>, memory: bool, stored: bool)
    returns (fragments: Option<(string, string)>)
    ensures fragments.None? ==>
              Receive(env, r, next, src, data, now, chosen, memory, stored).0.c == r.c
              && Receive(env, r, next, src, data, now, chosen, memory, stored).1 == next
    ensures fragments.Some? ==>
              Receive(env, r, next, src, data, now, chosen, memory, stored) ==
              RouteRequest(env, Heard(r, src, data), next, src, fragments.value.0, fragments.value.1, data, now,
                           chosen, memory, stored)
  {
    fragments := if src !in r.c.table && env.parse(data).BindingRequest? then env.parse(data).fragments else None;
  }

  lemma ReceiveKeeps(env: Env, r: Registry, next: nat, src: Endpoint, data: seq<byte>, now: int,
                     chosen: Option<Agent>, memory: bool, stored: bool)
    requires Inv(env, r.c, next) && next < ID_LIMIT && r.c.clock <= now
    ensures var (r', next') := Receive(env, r, next, src, data, now, chosen, memory, stored);
            Inv(env, r'.c, next') && next' < ID_LIMIT
  {
    var f := ReceiveForm(env, r, next, src, data, now, chosen, memory, stored);
    if f.Some? {
      HearKeeps(env, r.c, next, src, data);
      RequestKeeps(env, Heard(r, src, data), next, src, f.value.0, f.value.1, data, now, chosen, memory, stored);
    }
  }

  lemma AnnounceNextKeeps(env: Env, e: Registry, next: nat, id: Option<Id>, named: bool)
    requires Inv(env, e.c, next) && (id.Some? ==> IsNextToNotify(e.c, id.value))
    ensures Inv(env, AnnounceNext(e, id, named).c, next)
  {
    if e.c.pending.Some? && id.Some? {
      if named {
        AnnounceKeeps(env, e.c, next, id.value);
      } else {
        DropKeeps(env, e.c, next, {id.value});
      }
    }
  }

  lemma VerifyHeldKeeps(env: Env, e: Registry, next: nat, id: Id, password: string)
    requires Inv(env, e.c, next)
    ensures Inv(env, VerifyHeld(env, e, id, password).0.c, next)
  {
    if id in e.c.requests && !e.c.requests[id].verified && e.c.requests[id].notified {
      if e.c.requests[id].src !in e.c.table && env.auth(e.c.requests[id].data, password) {
        VerifiedKeeps(env, e.c, next, id, password);
      } else {
        DropKeeps(env, e.c, next, {id});
      }
    }
  }

  lemma AttachHeldKeeps(env: Env, e: Registry, next: nat, id: Id, a: Agent, woken: bool)
    requires Inv(env, e.c, next)
    ensures Inv(env, AttachHeld(e, id, a, woken).0.c, next)
  {
    if id in e.c.requests && e.c.requests[id].verified && e.c.requests[id].agent.None?
       && Matches(e.c, a, e.c.requests[id])
       && e.c.requests[id].src !in e.c.table && !SourceWaiting(e.c, e.c.requests[id].src) {
      AttachedKeeps(env, e.c, next, id, a);
    }
  }

  lemma ProcessReadyKeeps(env: Env, r: Registry, next: nat, stored: bool, accepted: bool)
    requires Inv(env, r.c, next) && r.c.ready != []
    ensures Inv(env, ProcessReady(r, stored, accepted).c, next)
  {
    DropKeeps(env, r.c, next, {r.c.ready[0]});
    DeliverKeeps(env, r.c, next, accepted);
  }

  lemma ListenKeeps(env: Env, r: Registry, next: nat, maxPending: nat, timeout: nat, memory: bool)
    requires Inv(env, r.c, next)
    ensures Inv(env, Listen(r, maxPending, timeout, memory).0.c, next)
  {
    var d := Listen(r, maxPending, timeout, memory).0.c;
    assert UnacceptedIds(d) == UnacceptedIds(r.c);
    AdvanceTable(env, r.c, d);
    if d != r.c {
      assert UnacceptedIds(r.c) == {};
      forall id | id in d.requests ensures !Unaccepted(d.requests[id]) {
        assert id !in UnacceptedIds(r.c);
      }
    }
  }

  lemma BeginStopKeeps(env: Env, r: Registry, next: nat, onMuxThread: bool)
    requires Inv(env, r.c, next)
    ensures Inv(env, BeginStop(r, onMuxThread).0.c, next)
  {
    DropKeeps(env, r.c, next, UnacceptedIds(r.c));
    var d := Drop(r.c, UnacceptedIds(r.c));
    var e := BeginStop(r, onMuxThread).0.c;
    AdvanceTable(env, d, e);
    assert UnacceptedIds(d) == {};
    if e != r.c {
      assert UnacceptedIds(e) == {};
    }
  }

  /** A stop and a new start. Until the stop has finished no listener can be started; afterwards one can, and
      the requests that agents had been given, their order and the mappings have come through. */
  lemma StopAndStartAgain(env: Env, r: Registry, next: nat, maxPending: nat, timeout: nat)
    requires Inv(env, r.c, next) && r.c.pending.Some? && !r.c.closing && !r.c.incoming
    requires 0 < maxPending <= MAX_PENDING_LIMIT && 0 < timeout <= MAX_TIMEOUT
    ensures var (stopping, o) := BeginStop(r, false);
            var (again, p) := Listen(FinishStop(stopping), maxPending, timeout, true);
            && o == Success && Listen(stopping, maxPending, timeout, true) == (stopping, Error(NotAvail))
            && p == Success && again.c.pending == Some(Listener(maxPending, timeout)) && !again.c.closing
            && again.c.requests == Accepted(r.c.requests)
            && again.c.ready == r.c.ready && again.c.table == r.c.table && again.c.agents == r.c.agents
  {
    hide IdsOk, KeysOk, StagesOk, ReadyOk, ListenerOk, DeadlinesOk, TableOk, NotifiedOk, DeliveredOk, Drop, Accepted;
    KeptByStop(r.c);
  }

  function Accepted(requests: map<Id, Request>): map<Id, Request> {
    map id | id in requests && !Unaccepted(requests[id]) :: requests[id]
  }

  lemma KeptByStop(c: Core)
    requires ReadyOk(c)
    ensures Drop(c, UnacceptedIds(c)) == c.(requests := Accepted(c.requests))
  {
    ReadyIsAccepted(c);
    hide ReadyOk, Without;
    OnlyAccepted(c);
  }

  lemma OnlyAccepted(c: Core)
    ensures c.requests - UnacceptedIds(c) == Accepted(c.requests)
  {
  }

  lemma ReadyIsAccepted(c: Core)
    requires ReadyOk(c)
    ensures Without(c.ready, UnacceptedIds(c)) == c.ready
  {
    forall id | id in UnacceptedIds(c) ensures id !in c.ready {
    }
    hide ReadyOk;
    WithoutAbsent(c.ready, UnacceptedIds(c));
  }

  /** The sections that work on the queues. */
  lemma QueueStepKeeps(env: Env, r: Registry, next: nat, op: Op)
    requires Inv(env, r.c, next) && Enabled(env, r, op)
    requires op.ExpireOp? || op.ProcessReadyOp? || op.DispatchOp? || op.VerifyOp? || op.AttachOp? || op.RejectOp?
    ensures Inv(env, Apply(env, r, next, op).0.c, next) && Apply(env, r, next, op).1 == next
  {
    match op
    case ExpireOp(now) => ExpireKeeps(env, r, next, now);
    case ProcessReadyOp(stored, accepted) => ProcessReadyKeeps(env, r, next, stored, accepted);
    case DispatchOp(now, id, named) =>
      ExpireKeeps(env, r, next, now);
      AnnounceNextKeeps(env, Expire(r, now), next, id, named);
    case VerifyOp(id, password, now) =>
      ExpireKeeps(env, r, next, now);
      VerifyHeldKeeps(env, Expire(r, now), next, id, password);
    case AttachOp(id, a, now, woken) =>
      ExpireKeeps(env, r, next, now);
      AttachHeldKeeps(env, Expire(r, now), next, id, a, woken);
    case RejectOp(id) => DropKeeps(env, r.c, next, {id});
  }

  lemma AddAgentKeeps(env: Env, r: Registry, next: nat, a: Agent, info: AgentInfo)
    requires Inv(env, r.c, next) && a !in r.c.agents
    ensures Inv(env, AddAgent(r, a, info).c, next)
  {
    hide Inv;
    AgentsKeep(env, r.c, AddAgent(r, a, info).c, next);
  }

  lemma UpdateAgentKeeps(env: Env, r: Registry, next: nat, a: Agent, remote: string, finished: bool)
    requires Inv(env, r.c, next)
    ensures Inv(env, UpdateAgent(r, a, remote, finished).c, next)
  {
    hide Inv;
    AgentsKeep(env, r.c, UpdateAgent(r, a, remote, finished).c, next);
  }

  /** Every locked section keeps the invariant. */
  lemma StepKeeps(env: Env, r: Registry, next: nat, op: Op)
    requires Inv(env, r.c, next) && next < ID_LIMIT && Enabled(env, r, op)
    ensures var (r', next') := Apply(env, r, next, op); Inv(env, r'.c, next') && next' < ID_LIMIT
  {
    hide Inv, Receive, Cleanup, AddAgent, UpdateAgent, Listen, BeginStop, ChosenOk, IsNextToNotify, AllNotified;
    match op
    case ReceiveOp(src, data, now, chosen, memory, stored) =>
      ReceiveKeeps(env, r, next, src, data, now, chosen, memory, stored);
    case CleanupOp(a) => CleanupKeeps(env, r, next, a);
    case AddAgentOp(a, info) => AddAgentKeeps(env, r, next, a, info);
    case UpdateAgentOp(a, remote, finished) =>
      UpdateAgentKeeps(env, r, next, a, remote, finished);
    case ListenOp(maxPending, timeout, memory) => ListenKeeps(env, r, next, maxPending, timeout, memory);
    case BeginStopOp(onMuxThread) => BeginStopKeeps(env, r, next, onMuxThread);
    case FinishStopOp => FlagsKeep(env, r.c, FinishStop(r).c, next);
    case ListenIncomingOp => FlagsKeep(env, r.c, ListenIncoming(r).c, next);
    case StopIncomingOp => FlagsKeep(env, r.c, StopIncoming(r).c, next);
    case _ => QueueStepKeeps(env, r, next, op);
  }

  /** All registries of the process and the counter they share. */
  datatype World = World(next: nat, regs: seq<Registry>)

  ghost predicate WorldInv(env: Env, w: World) {
    && w.next < ID_LIMIT
    && (forall k :: 0 <= k < |w.regs| ==> Inv(env, w.regs[k].c, w.next))
    && IssuedApart(w)
  }

  ghost predicate Steps(env: Env, w: World, w': World, k: nat, op: Op) {
    && k < |w.regs| && Enabled(env, w.regs[k], op)
    && var (r, next) := Apply(env, w.regs[k], w.next, op);
       w' == World(next, w.regs[k := r])
  }

  /** A run: worlds connected by the moves of a schedule, starting from fresh registries. */
  ghost predicate IsRun(env: Env, run: seq<World>, moves: seq<(nat, Op)>) {
    && |run| == |moves| + 1
    && run[0].next == 1 && (forall k :: 0 <= k < |run[0].regs| ==> run[0].regs[k] == FRESH)
    && (forall i :: 0 <= i < |moves| ==> Steps(env, run[i], run[i + 1], moves[i].0, moves[i].1))
  }

  ghost predicate IssuesAtMost(c: Core, next: nat, c': Core, next': nat) {
    || (c'.issued == c.issued && next' == next)
    || (&& 0 < next && next' == TakeId(next) && next in c'.issued
        && c'.issued == c.issued[next := c'.issued[next]])
  }

  lemma DeferIssues(r: Registry, next: nat, src: Endpoint, local: string, remote: string,
                    data: seq<byte>, now: int, memory: bool)
    ensures var (r', next') := Defer(r, next, src, local, remote, data, now, memory);
            IssuesAtMost(r.c, next, r'.c, next')
  {
  }

  lemma RequestIssues(env: Env, r: Registry, next: nat, src: Endpoint, local: string, remote: string,
                      data: seq<byte>, now: int, chosen: Option<Agent>, memory: bool, stored: bool)
    ensures var (r', next') := RouteRequest(env, r, next, src, local, remote, data, now, chosen, memory, stored);
            IssuesAtMost(r.c, next, r'.c, next')
  {
    DeferIssues(r, next, src, local, remote, data, now, memory);
  }

  lemma ReceiveIssues(env: Env, r: Registry, next: nat, src: Endpoint, data: seq<byte>, now: int,
                      chosen: Option<Agent>, memory: bool, stored: bool)
    ensures var (r', next') := Receive(env, r, next, src, data, now, chosen, memory, stored);
            IssuesAtMost(r.c, next, r'.c, next')
  {
    var f := ReceiveForm(env, r, next, src, data, now, chosen, memory, stored);
    if f.Some? {
      RequestIssues(env, Heard(r, src, data), next, src, f.value.0, f.value.1, data, now, chosen, memory, stored);
    }
  }

  lemma ExpireIssuesNothing(r: Registry, now: int)
    ensures Expire(r, now).c.issued == r.c.issued && Expire(r, now).c.heard == r.c.heard
  {
  }

  lemma ReadyIssuesNothing(r: Registry, stored: bool, accepted: bool)
    requires r.c.ready != []
    ensures ProcessReady(r, stored, accepted).c.issued == r.c.issued && ProcessReady(r, stored, accepted).c.heard == r.c.heard
  {
  }

  lemma DispatchIssuesNothing(r: Registry, now: int, id: Option<Id>, named: bool)
    ensures Dispatch(r, now, id, named).c.issued == r.c.issued && Dispatch(r, now, id, named).c.heard == r.c.heard
  {
    hide Expire;
    ExpireIssuesNothing(r, now);
  }

  lemma VerifyIssuesNothing(env: Env, r: Registry, id: Id, password: string, now: int)
    ensures Verify(env, r, id, password, now).0.c.issued == r.c.issued && Verify(env, r, id, password, now).0.c.heard == r.c.heard
  {
    hide Expire;
    ExpireIssuesNothing(r, now);
  }

  lemma AttachIssuesNothing(r: Registry, id: Id, a: Agent, now: int, woken: bool)
    ensures Attach(r, id, a, now, woken).0.c.issued == r.c.issued && Attach(r, id, a, now, woken).0.c.heard == r.c.heard
  {
    hide Expire;
    ExpireIssuesNothing(r, now);
  }

  lemma RejectIssuesNothing(r: Registry, id: Id)
    ensures Reject(r, id).0.c.issued == r.c.issued && Reject(r, id).0.c.heard == r.c.heard
  {
  }

  lemma CleanupIssuesNothing(r: Registry, a: Agent)
    ensures Cleanup(r, a).c.issued == r.c.issued && Cleanup(r, a).c.heard == r.c.heard
  {
  }

  lemma ListenIssuesNothing(r: Registry, maxPending: nat, timeout: nat, memory: bool)
    ensures Listen(r, maxPending, timeout, memory).0.c.issued == r.c.issued && Listen(r, maxPending, timeout, memory).0.c.heard == r.c.heard
  {
  }

  lemma BeginStopIssuesNothing(r: Registry, onMuxThread: bool)
    ensures BeginStop(r, onMuxThread).0.c.issued == r.c.issued && BeginStop(r, onMuxThread).0.c.heard == r.c.heard
  {
  }

  /** What a step issues: nothing, or the value of the shared counter. */
  lemma Issues(env: Env, r: Registry, next: nat, op: Op)
    requires Enabled(env, r, op)
    ensures var (r', next') := Apply(env, r, next, op); IssuesAtMost(r.c, next, r'.c, next')
  {
    hide Receive, Dispatch, Verify, Attach, Reject, ProcessReady, Cleanup, BeginStop, Listen, Expire, IsNextToNotify, AllNotified, ChosenOk;
    match op
    case ReceiveOp(src, data, now, chosen, memory, stored) =>
      ReceiveIssues(env, r, next, src, data, now, chosen, memory, stored);
    case ExpireOp(now) => ExpireIssuesNothing(r, now);
    case ProcessReadyOp(stored, accepted) => ReadyIssuesNothing(r, stored, accepted);
    case DispatchOp(now, id, named) => DispatchIssuesNothing(r, now, id, named);
    case VerifyOp(id, password, now) => VerifyIssuesNothing(env, r, id, password, now);
    case AttachOp(id, a, now, woken) => AttachIssuesNothing(r, id, a, now, woken);
    case RejectOp(id) => RejectIssuesNothing(r, id);
    case CleanupOp(a) => CleanupIssuesNothing(r, a);
    case ListenOp(maxPending, timeout, memory) => ListenIssuesNothing(r, maxPending, timeout, memory);
    case BeginStopOp(onMuxThread) => BeginStopIssuesNothing(r, onMuxThread);
    case _ =>
  }

  /** No id is issued twice, by the same registry or by two. */
  lemma IssuesFreshId(env: Env, w: World, w': World, k: nat, op: Op)
    requires WorldInv(env, w) && Steps(env, w, w', k, op)
    ensures var before, after := w.regs[k].c.issued, w'.regs[k].c.issued;
            || (after == before && w'.next == w.next)
            || (&& 0 < w.next && w'.next == TakeId(w.next) && w.next in after && after == before[w.next := after[w.next]]
                && forall j :: 0 <= j < |w.regs| ==> w.next !in w.regs[j].c.issued)
  {
    Issues(env, w.regs[k], w.next, op);
    if w.next > 0 {
      NextIsFresh(env, w);
    }
  }

  lemma NextIsFresh(env: Env, w: World)
    requires WorldInv(env, w) && w.next > 0
    ensures forall j :: 0 <= j < |w.regs| ==> w.next !in w.regs[j].c.issued
  {
    forall j | 0 <= j < |w.regs| ensures w.next !in w.regs[j].c.issued {
      assert IdsOk(w.regs[j].c, w.next);
    }
  }

  lemma WorldStepKeeps(env: Env, w: World, w': World, k: nat, op: Op)
    requires WorldInv(env, w) && Steps(env, w, w', k, op)
    ensures WorldInv(env, w')
  {
    StepKeeps(env, w.regs[k], w.next, op);
    IssuesFreshId(env, w, w', k, op);
    forall j | 0 <= j < |w'.regs| ensures Inv(env, w'.regs[j].c, w'.next) {
      if j != k {
        LaterCounter(env, w.regs[j].c, w.next, w'.next);
      }
    }
    IssuedStayApart(w, w', k);
  }

  ghost predicate IssuedApart(w: World) {
    forall j, k :: 0 <= j < k < |w.regs| ==> w.regs[j].c.issued.Keys !! w.regs[k].c.issued.Keys
  }

  lemma IssuedStayApart(w: World, w': World, k: nat)
    requires IssuedApart(w) && k < |w.regs| && |w'.regs| == |w.regs|
    requires forall j :: 0 <= j < |w.regs| && j != k ==> w'.regs[j] == w.regs[j]
    requires || w'.regs[k].c.issued == w.regs[k].c.issued
             || (&& w.next in w'.regs[k].c.issued
                 && w'.regs[k].c.issued == w.regs[k].c.issued[w.next := w'.regs[k].c.issued[w.next]]
                 && forall j :: 0 <= j < |w.regs| ==> w.next !in w.regs[j].c.issued)
    ensures IssuedApart(w')
  {
  }

  lemma LaterCounter(env: Env, c: Core, next: nat, next': nat)
    requires Inv(env, c, next) && (next' == next || (0 < next && next' == TakeId(next)))
    ensures Inv(env, c, next')
  {
  }

  lemma FreshWorld(env: Env, w: World)
    requires w.next == 1 && forall k :: 0 <= k < |w.regs| ==> w.regs[k] == FRESH
    ensures WorldInv(env, w)
  {
    assert UnacceptedIds(FRESH.c) == {};
    assert Inv(env, FRESH.c, 1);
  }

  /** The invariant holds in every state of every run, whatever the interleaving. */
  lemma {:induction false} RunKeeps(env: Env, run: seq<World>, moves: seq<(nat, Op)>, i: nat)
    requires IsRun(env, run, moves) && i < |run|
    ensures WorldInv(env, run[i])
    decreases i
  {
    if i == 0 {
      FreshWorld(env, run[0]);
    } else {
      RunKeeps(env, run, moves, i - 1);
      WorldStepKeeps(env, run[i - 1], run[i - 1 + 1], moves[i - 1].0, moves[i - 1].1);
    }
  }

  // ---------- what follows for every run ----------

  lemma StepGrows(env: Env, w: World, w': World, m: (nat, Op), k: nat)
    requires Steps(env, w, w', m.0, m.1) && k < |w.regs|
    ensures |w'.regs| == |w.regs| && w.regs[k].c.issued.Keys <= w'.regs[k].c.issued.Keys
    ensures w.next == 0 ==> w'.next == 0 && w'.regs[k].c.issued == w.regs[k].c.issued
  {
    hide Apply, Enabled;
    Issues(env, w.regs[m.0], w.next, m.1);
  }

  lemma {:induction false} RunGrows(env: Env, run: seq<World>, moves: seq<(nat, Op)>, i: nat, j: nat, k: nat)
    requires IsRun(env, run, moves) && i <= j < |run| && k < |run[i].regs|
    ensures |run[j].regs| == |run[i].regs| && run[i].regs[k].c.issued.Keys <= run[j].regs[k].c.issued.Keys
    ensures run[i].next == 0 ==> run[j].next == 0 && run[j].regs[k].c.issued == run[i].regs[k].c.issued
    decreases j
  {
    hide Steps;
    if i < j {
      RunGrows(env, run, moves, i, j - 1, k);
      StepGrows(env, run[j - 1], run[j - 1 + 1], moves[j - 1], k);
    }
  }

  ghost predicate IssuedAt(run: seq<World>, i: nat, k: nat, id: Id)
    requires i + 1 < |run|
  {
    k < |run[i].regs| && k < |run[i + 1].regs| && id !in run[i].regs[k].c.issued && id in run[i + 1].regs[k].c.issued
  }

  /** No id is issued at two moments, by one registry or by two. */
  lemma NoIdTwice(env: Env, run: seq<World>, moves: seq<(nat, Op)>, i: nat, j: nat, k: nat, l: nat, id: Id)
    requires IsRun(env, run, moves) && i < j && j + 1 < |run|
    requires IssuedAt(run, i, k, id)
    ensures !IssuedAt(run, j, l, id)
  {
    hide Steps;
    RunGrows(env, run, moves, i + 1, j, k);
    RunGrows(env, run, moves, j, j + 1, k);
    RunKeeps(env, run, moves, j + 1);
    assert id in run[j].regs[k].c.issued && id in run[j + 1].regs[k].c.issued;
  }

  /** After the last id nothing is admitted any more. */
  lemma ExhaustedForGood(env: Env, run: seq<World>, moves: seq<(nat, Op)>, i: nat, j: nat, k: nat)
    requires IsRun(env, run, moves) && i <= j < |run| && k < |run[i].regs| && run[i].next == 0
    ensures |run[j].regs| == |run[i].regs| && run[j].next == 0 && run[j].regs[k].c.issued == run[i].regs[k].c.issued
  {
    RunGrows(env, run, moves, i, j, k);
  }

  /** What is heard is heard as a Binding request with a valid user name. */
  ghost predicate HeardOk(env: Env, c: Core) {
    forall src, data :: (src, data) in c.heard ==> env.parse(data).BindingRequest? && env.parse(data).fragments.Some?
  }

  lemma ReceiveHears(env: Env, r: Registry, next: nat, src: Endpoint, data: seq<byte>, now: int,
                     chosen: Option<Agent>, memory: bool, stored: bool)
    requires HeardOk(env, r.c)
    ensures HeardOk(env, Receive(env, r, next, src, data, now, chosen, memory, stored).0.c)
  {
  }

  lemma OthersHearNothing(env: Env, r: Registry, next: nat, op: Op)
    requires Enabled(env, r, op) && !op.ReceiveOp?
    ensures Apply(env, r, next, op).0.c.heard == r.c.heard
  {
    hide Receive, Dispatch, Verify, Attach, Reject, ProcessReady, Cleanup, BeginStop, Listen, Expire, IsNextToNotify, AllNotified, ChosenOk;
    match op
    case ExpireOp(now) => ExpireIssuesNothing(r, now);
    case ProcessReadyOp(stored, accepted) => ReadyIssuesNothing(r, stored, accepted);
    case DispatchOp(now, id, named) => DispatchIssuesNothing(r, now, id, named);
    case VerifyOp(id, password, now) => VerifyIssuesNothing(env, r, id, password, now);
    case AttachOp(id, a, now, woken) => AttachIssuesNothing(r, id, a, now, woken);
    case RejectOp(id) => RejectIssuesNothing(r, id);
    case CleanupOp(a) => CleanupIssuesNothing(r, a);
    case ListenOp(maxPending, timeout, memory) => ListenIssuesNothing(r, maxPending, timeout, memory);
    case BeginStopOp(onMuxThread) => BeginStopIssuesNothing(r, onMuxThread);
    case _ =>
  }

  lemma {:induction false} HeardAreRequests(env: Env, run: seq<World>, moves: seq<(nat, Op)>, i: nat, k: nat)
    requires IsRun(env, run, moves) && i < |run| && k < |run[i].regs|
    ensures HeardOk(env, run[i].regs[k].c)
    decreases i
  {
    if i > 0 {
      assert Steps(env, run[i - 1], run[i - 1 + 1], moves[i - 1].0, moves[i - 1].1);
      HeardAreRequests(env, run, moves, i - 1, k);
      StepHears(env, run[i - 1], run[i], moves[i - 1], k);
    }
  }

  lemma StepHears(env: Env, w: World, w': World, m: (nat, Op), k: nat)
    requires Steps(env, w, w', m.0, m.1) && k < |w.regs| && HeardOk(env, w.regs[k].c)
    ensures HeardOk(env, w'.regs[k].c)
  {
    if k == m.0 {
      match m.1
      case ReceiveOp(src, data, now, chosen, memory, stored) =>
        ReceiveHears(env, w.regs[k], w.next, src, data, now, chosen, memory, stored);
      case _ => OthersHearNothing(env, w.regs[k], w.next, m.1);
    }
  }

  /** Announcements are in increasing order of id, so none is repeated; a delivery carries the packet its id
      was issued for, and no id is delivered twice. */
  lemma ToldAndDeliveredOnce(env: Env, run: seq<World>, moves: seq<(nat, Op)>, i: nat, k: nat)
    requires IsRun(env, run, moves) && i < |run| && k < |run[i].regs|
    ensures var c := run[i].regs[k].c;
            && (forall a, b :: 0 <= a < b < |c.notified| ==> c.notified[a] < c.notified[b])
            && (forall a, b :: 0 <= a < b < |c.delivered| ==> c.delivered[a].id != c.delivered[b].id)
            && (forall a :: 0 <= a < |c.delivered| ==>
                  c.delivered[a].id in c.issued && c.delivered[a].data == c.issued[c.delivered[a].id].data)
  {
    hide Steps;
    RunKeeps(env, run, moves, i);
    assert Inv(env, run[i].regs[k].c, run[i].next);
  }

  /** A source is routed only to an agent that is there, and only after a request from that source that its
      password verifies. */
  lemma RoutedOnlyIfAuthorized(env: Env, run: seq<World>, moves: seq<(nat, Op)>, i: nat, k: nat, src: Endpoint)
    returns (data: seq<byte>)
    requires IsRun(env, run, moves) && i < |run| && k < |run[i].regs| && src in run[i].regs[k].c.table
    ensures var c := run[i].regs[k].c;
            c.table[src] in c.agents && (src, data) in c.heard && env.auth(data, c.agents[c.table[src]].localPwd)
  {
    hide Steps;
    RunKeeps(env, run, moves, i);
    var c := run[i].regs[k].c;
    assert TableOk(env, c);
    assert Authorized(env, c, src, c.agents[c.table[src]].localPwd);
    data :| (src, data) in c.heard && env.auth(data, c.agents[c.table[src]].localPwd);
  }

  /** Requests waiting for a decision never exceed the limit of the listener, and without a listener there
      are none. */
  lemma WaitingBounded(env: Env, run: seq<World>, moves: seq<(nat, Op)>, i: nat, k: nat)
    requires IsRun(env, run, moves) && i < |run| && k < |run[i].regs|
    ensures var c := run[i].regs[k].c;
            if c.pending.None? then UnacceptedIds(c) == {} else |UnacceptedIds(c)| <= c.pending.value.maxPending
  {
    hide Steps;
    RunKeeps(env, run, moves, i);
    assert ListenerOk(run[i].regs[k].c);
  }
}
