/**
 The mux registry as the library keeps it: linked nodes, counters and the source table, updated step
 by step. Every method computes the operation of module PendingSpec of the same name, so what module
 PendingRuns proves of all runs holds of these structures.
 */
module PendingRegistry {
  import opened Addr
  import opened Basics
  import opened PendingSpec
  import opened PendingQueues
  import opened PendingLinks
  import opened PendingStore
  import opened Runs = PendingRuns
  import SourceTable
  import Outcomes = PendingOutcomes

  const INITIAL_REGISTRY_SIZE := 16
  const ULONG := 0x1_0000_0000_0000_0000

  function FoldString(h: nat, s: string): nat
    decreases |s|
  {
    if s == [] then h else FoldString((h * 33 + s[0] as int) % ULONG, s[1..])
  }

  /** pending_hash: address with port, local fragment, colon, remote fragment. */
  function PendingHash(src: Endpoint, local: string, remote: string): nat {
    FoldString((FoldString(RecordHash(src, true), local) * 33 + ':' as int) % ULONG, remote)
  }

  /** find_map_entry hashes a source without its port. */
  function SourceHash(src: Endpoint): nat {
    RecordHash(src, false)
  }

  /** Each agent of the registry sits in one slot of its array. */
  ghost predicate Seated(seats: seq<Option<Agent>>, agents: map<Agent, AgentInfo>) {
    && seats != []
    && (forall a :: a in agents <==> Some(a) in seats)
    && (forall i, j :: 0 <= i < j < |seats| && seats[i].Some? ==> seats[i] != seats[j])
  }

  class Registry {
    const hash: KeyHash
    const table: SourceTable.Table
    const store: Store
    var agents: map<Agent, AgentInfo>
    var seats: seq<Option<Agent>>
    var pending: Option<Listener>
    var incoming: bool
    var required: bool
    var closing: bool
    var stats: Stats
    ghost var spec: PendingSpec.Registry

    /** The nodes hold what the abstract state holds. */
    ghost predicate Held()
      reads this, store, store.Repr()
    {
      && store.Valid() && store.hash == hash && this !in store.Repr() && table !in store.Repr()
      && store.q.nodes == spec.c.requests && store.q.ready == spec.c.ready
      && (pending.Some? ==> store.q.buckets != [])
    }

    /** The rest of the registry is the rest of the abstract state. */
    ghost predicate Flags()
      reads this
    {
      && agents == spec.c.agents && pending == spec.c.pending && incoming == spec.c.incoming
      && required == spec.c.required && closing == spec.c.closing && stats == spec.stats
    }

    ghost predicate Valid()
      reads this, store, store.Repr(), table, table.slots
    {
      table.Valid() && table.slots !in store.Repr() && table.Contents == spec.c.table && Held() && Flags()
    }

    constructor ()
      ensures Valid() && spec == FRESH && fresh(table) && fresh(table.slots) && fresh(store.Repr())
      ensures hash == PendingHash && table.hash == SourceHash && Seated(seats, agents)
    {
      hide Store.Valid, SourceTable.Good, PendingHash, SourceHash;
      hash := PendingHash;
      table := new SourceTable.Table(SourceHash);
      store := new Store(PendingHash);
      agents, seats := map[], seq(INITIAL_REGISTRY_SIZE, _ => None);
      pending, incoming, required, closing := None, false, false, false;
      stats := Stats(0, 0, 0, 0);
      spec := FRESH;
    }

    // ---------- removal ----------

    method RemovePending(n: Node)
      requires Held() && Flags() && Home(store.at, n)
      modifies store.Repr(), `spec
      ensures Held() && Flags() && n.id in old(store.q).nodes && spec == old(spec).(c := Drop(old(spec).c, {n.id}))
      ensures store.Repr() <= old(store.Repr()) && store.at == old(store.at) - {n.id}
      ensures store.q.nodes == old(store.q).nodes - {n.id} && |store.q.nodes| < |old(store.q).nodes|
      ensures store.q.main == Without(old(store.q).main, {n.id}) && store.OffLists(n) && store.OffChains(n)
    {
      hide Linked, Drop, Without, Store.Valid, Store.OffLists, Store.OffChains;
      store.HomeValue(n);
      store.IsLinked();
      RemovedLinked(hash, store.q, n.id);
      DropFields(spec.c, {n.id});
      store.RemovePending(n);
      assert this !in store.Repr();
      spec := spec.(c := Drop(spec.c, {n.id}));
    }

    // ---------- expiry ----------

    method ExpireHead(n: Node)
      requires Held() && Flags() && store.expiryHead == n
      modifies store.Repr(), `stats, `spec
      ensures Held() && Flags() && |store.q.nodes| < |old(store.q).nodes| && store.Repr() <= old(store.Repr())
      ensures n.id in old(store.q).nodes && spec == old(spec).(c := Drop(old(spec).c, {n.id})).Rejecting(1)
    {
      hide Linked, Drop, Store.Valid, Store.OffLists, Store.OffChains;
      store.Heads();
      RemovePending(n);
      stats := stats.(rejected := stats.rejected + 1);
      spec := spec.Rejecting(1);
    }

    lemma ExpiryHead()
      requires Held()
      ensures (store.expiryHead != null <==> store.q.expiry != [])
      ensures var n := store.expiryHead;
              n != null ==> n.id == store.q.expiry[0] && n.id in spec.c.requests && Unaccepted(spec.c.requests[n.id])
                            && n.deadline == spec.c.requests[n.id].deadline
    {
      hide Linked, Store.Valid;
      store.Heads();
      store.IsLinked();
      Heads(hash, store.q);
      if store.expiryHead != null {
        store.HomeValue(store.expiryHead);
      }
    }

    /** expire_pending: pops the expiry queue while its head is due. */
    method Expire(now: int)
      requires Held() && Flags() && DeadlinesOk(spec.c)
      modifies store.Repr(), `stats, `spec
      ensures Held() && Flags() && spec == PendingSpec.Expire(old(spec), now)
      ensures spec.c.table == old(spec.c.table) && store.Repr() <= old(store.Repr())
    {
      hide Linked, Drop, Expiring, DeadlinesOk, PendingSpec.Expire, Store.Valid;
      ghost var r, gone := spec, {};
      ExpiringFirst(r, now);
      while store.expiryHead != null && store.expiryHead.deadline <= now
        invariant Held() && Flags() && Expiring(r, spec, gone, now) && store.Repr() <= old(store.Repr())
        decreases |store.q.nodes|
      {
        ExpiryHead();
        ghost var id := store.expiryHead.id;
        ExpiringNext(r, spec, gone, now, id);
        gone := gone + {id};
        ExpireHead(store.expiryHead);
      }
      ExpiryHead();
      store.IsLinked();
      ExpiringDone(hash, r, spec, gone, now, store.q);
      spec := spec.(c := spec.c.(clock := now));
    }

    // ---------- admission ----------

    method Admit(id: Id, src: Endpoint, local: string, remote: string, data: seq<byte>, now: int)
      requires Held() && Flags() && pending.Some? && forall other :: other in spec.c.requests ==> other < id
      modifies store.Repr(), `spec
      ensures Held() && Flags() && fresh(store.Repr() - old(store.Repr()))
      ensures spec == old(spec).(c := PendingSpec.Admit(old(spec).c, id, src, local, remote, data, now))
    {
      hide Linked, Store.Valid;
      var n := new Node(id, src, local, remote, data, now + pending.value.timeout);
      store.Add(n);
      assert this !in store.Repr();
      spec := spec.(c := PendingSpec.Admit(spec.c, id, src, local, remote, data, now));
    }

    method Refuse()
      requires Held() && Flags()
      modifies `stats, `spec
      ensures Held() && Flags() && spec == old(spec).Rejecting(1)
    {
      hide Store.Valid;
      stats := stats.(rejected := stats.rejected + 1);
      spec := spec.Rejecting(1);
    }

    /** defer_request. */
    method Defer(next: nat, src: Endpoint, local: string, remote: string, data: seq<byte>, now: int, memory: bool)
      returns (next': nat)
      requires Held() && Flags() && (next != 0 ==> forall id :: id in spec.c.requests ==> id < next)
      modifies store.Repr(), `stats, `spec
      ensures Held() && Flags() && fresh(store.Repr() - old(store.Repr()))
      ensures (spec, next') == PendingSpec.Defer(old(spec), next, src, local, remote, data, now, memory)
    {
      hide PendingSpec.Held, PendingSpec.Admit, Store.Valid;
      next' := next;
      if pending.None? || |data| > MAX_PENDING_PACKET_SIZE {
        Refuse();
        return;
      }
      var held := IsHeld(src, local, remote);
      if held {
        CountDuplicate();
      } else {
        next' := DeferNew(next, src, local, remote, data, now, memory);
      }
    }

    method CountDuplicate()
      requires Held() && Flags()
      modifies `stats, `spec
      ensures Held() && Flags()
      ensures spec == old(spec).(stats := old(spec).stats.(duplicates := old(spec).stats.duplicates + 1))
    {
      hide Store.Valid;
      stats := stats.(duplicates := stats.duplicates + 1);
      spec := spec.(stats := stats);
    }

    /** The part of defer_request after the duplicate search. */
    method DeferNew(next: nat, src: Endpoint, local: string, remote: string, data: seq<byte>, now: int, memory: bool)
      returns (next': nat)
      requires Held() && Flags() && (next != 0 ==> forall id :: id in spec.c.requests ==> id < next)
      requires pending.Some? && |data| <= MAX_PENDING_PACKET_SIZE && !PendingSpec.Held(spec.c, src, local, remote)
      modifies store.Repr(), `stats, `spec
      ensures Held() && Flags() && fresh(store.Repr() - old(store.Repr()))
      ensures (spec, next') == PendingSpec.Defer(old(spec), next, src, local, remote, data, now, memory)
    {
      hide PendingSpec.Held, PendingSpec.Admit, Store.Valid, Linked;
      next' := next;
      store.IsLinked();
      if store.count >= pending.value.maxPending || !memory {
        Refuse();
        return;
      }
      next' := TakeId(next);
      if next == 0 {
        Refuse();
      } else {
        Admit(next, src, local, remote, data, now);
      }
    }

    method IsHeld(src: Endpoint, local: string, remote: string) returns (held: bool)
      requires Held() && store.q.buckets != []
      ensures held <==> PendingSpec.Held(spec.c, src, local, remote)
    {
      held := store.IsHeld(src, local, remote);
    }

    // ---------- decisions ----------

    /** One round of dispatch_pending up to the callback: the head of the notify queue is announced. */
    method Dispatch(now: int, named: bool) returns (picked: Option<Id>)
      requires Valid() && DeadlinesOk(spec.c)
      modifies store.Repr(), `stats, `spec
      ensures Valid() && spec == PendingSpec.Dispatch(old(spec), now, picked, named)
      ensures var c := PendingSpec.Expire(old(spec), now).c;
              if picked.Some? then IsNextToNotify(c, picked.value) else AllNotified(c)
    {
      hide SourceTable.Good, Linked, DeadlinesOk, Drop, PendingSpec.Expire, IsNextToNotify, AllNotified, Store.Valid;
      Expire(now);
      store.IsLinked();
      NextInQueue(hash, store.q, spec.c);
      store.Heads();
      picked := None;
      if store.notifyHead != null {
        picked := Some(store.notifyHead.id);
        AnnounceHead(store.notifyHead, named);
      }
    }

    method AnnounceHead(n: Node, named: bool)
      requires Held() && Flags() && store.notifyHead == n
      modifies store.Repr(), `stats, `spec
      ensures Held() && Flags() && spec.c.table == old(spec.c.table) && store.Repr() <= old(store.Repr())
      ensures spec == AnnounceNext(old(spec), Some(n.id), named)
    {
      hide Linked, Drop, Store.Valid;
      store.Heads();
      store.HomeValue(n);
      if pending.Some? {
        if named {
          Tell(n);
        } else {
          Discard(n);
        }
      }
    }

    method Tell(n: Node)
      requires Held() && Flags() && store.notifyHead == n && Home(store.at, n) && n.id in spec.c.requests
      modifies store.Repr(), `stats, `spec
      ensures Held() && Flags() && store.Repr() == old(store.Repr())
      ensures spec == PendingSpec.Registry(PendingSpec.Announce(old(spec).c, n.id),
                                           old(spec).stats.(notifications := old(spec).stats.notifications + 1))
    {
      hide Linked, Store.Valid;
      store.Heads();
      store.Announce(n);
      assert this !in store.Repr();
      stats := stats.(notifications := stats.notifications + 1);
      spec := PendingSpec.Registry(PendingSpec.Announce(spec.c, n.id), stats);
    }

    /** remove_pending, counted as a rejection. */
    method Discard(n: Node)
      requires Held() && Flags() && Home(store.at, n)
      modifies store.Repr(), `stats, `spec
      ensures Held() && Flags() && store.Repr() <= old(store.Repr()) && spec.c.table == old(spec.c.table)
      ensures spec == PendingSpec.Registry(Drop(old(spec).c, {n.id}), old(spec).stats).Rejecting(1)
    {
      hide Drop, Store.Valid, Store.OffLists, Store.OffChains;
      DropFields(spec.c, {n.id});
      RemovePending(n);
      Refuse();
    }

    /** conn_mux_verify_request. */
    method Verify(env: Env, id: Id, password: string, now: int) returns (outcome: Outcome)
      requires Valid() && DeadlinesOk(spec.c)
      modifies store.Repr(), `stats, `spec
      ensures Valid() && (spec, outcome) == PendingSpec.Verify(env, old(spec), id, password, now)
      ensures Outcomes.VerifiedAs(env, PendingSpec.Expire(old(spec), now), spec, outcome, id, password)
    {
      hide SourceTable.Good, Linked, DeadlinesOk, Drop, PendingSpec.Expire, Store.Valid, Outcomes.VerifiedAs;
      Outcomes.VerifyOutcome(env, spec, id, password, now);
      Expire(now);
      var n := store.ById(id);
      if n == null || n.verified || !n.notified {
        return Error(NotAvail);
      }
      var mapped, _ := table.Lookup(n.src);
      if mapped || !env.auth(n.data, password) {
        Discard(n);
        return Error(Failed);
      }
      Approve(n, password);
      return Success;
    }

    method Approve(n: Node, password: string)
      requires Held() && Flags() && Home(store.at, n) && n.notified && n.id in spec.c.requests
      modifies store.Repr(), `spec
      ensures Held() && Flags() && spec == old(spec).(c := MarkVerified(old(spec).c, n.id, password))
      ensures store.Repr() == old(store.Repr())
    {
      hide Store.Valid;
      store.Approve(n, password);
      assert this !in store.Repr();
      spec := spec.(c := MarkVerified(spec.c, n.id, password));
    }

    /** conn_mux_attach_request. `woken` is the result of interrupting the mux thread. */
    method Attach(id: Id, agent: Agent, now: int, woken: bool) returns (outcome: Outcome)
      requires Valid() && DeadlinesOk(spec.c)
      modifies store.Repr(), `stats, `spec
      ensures Valid() && (spec, outcome) == PendingSpec.Attach(old(spec), id, agent, now, woken)
      ensures Outcomes.AttachedAs(PendingSpec.Expire(old(spec), now), spec, outcome, id, agent, woken)
    {
      hide SourceTable.Good, DeadlinesOk, Drop, PendingSpec.Expire, AttachHeld, Store.Valid, Outcomes.AttachedAs;
      Outcomes.AttachOutcome(spec, id, agent, now, woken);
      Expire(now);
      var n := store.ById(id);
      NotHeld(spec, id, agent, woken);
      if n == null {
        return Error(NotAvail);
      }
      outcome := AttachNode(n, agent, woken);
    }

    method AttachNode(n: Node, agent: Agent, woken: bool) returns (outcome: Outcome)
      requires Valid() && Home(store.at, n) && n.id in spec.c.requests && n.Value() == spec.c.requests[n.id]
      modifies store.Repr(), `spec
      ensures Valid() && (spec, outcome) == AttachHeld(old(spec), n.id, agent, woken)
    {
      hide SourceTable.Good, SourceWaiting, Store.Valid;
      if !n.verified || n.agent.Some? {
        return Error(NotAvail);
      }
      if !(agent in agents && !agents[agent].finished && agents[agent].localUfrag == n.local
           && agents[agent].remoteUfrag == n.remote && agents[agent].localPwd == n.password) {
        return Error(Invalid);
      }
      var mapped, _ := table.Lookup(n.src);
      if mapped {
        return Error(NotAvail);
      }
      var waiting := IsWaiting(n.src);
      if waiting {
        return Error(NotAvail);
      }
      if !woken {
        return Error(Failed);
      }
      HandOver(n, agent);
      return Success;
    }

    method IsWaiting(src: Endpoint) returns (waiting: bool)
      requires Held()
      ensures waiting <==> SourceWaiting(spec.c, src)
    {
      hide Store.Valid;
      waiting := store.IsWaiting(src);
    }

    method HandOver(n: Node, agent: Agent)
      requires Held() && Flags() && Home(store.at, n) && n.agent.None? && n.verified && n.id in spec.c.requests
      modifies store.Repr(), `spec
      ensures Held() && Flags() && spec == old(spec).(c := MarkAttached(old(spec).c, n.id, agent))
      ensures store.Repr() == old(store.Repr())
    {
      hide Store.Valid, Without;
      store.HandOver(n, agent);
      assert this !in store.Repr();
      spec := spec.(c := MarkAttached(spec.c, n.id, agent));
    }

    /** conn_mux_reject_request. */
    method Reject(id: Id) returns (outcome: Outcome)
      requires Valid()
      modifies store.Repr(), `stats, `spec
      ensures Valid() && (spec, outcome) == PendingSpec.Reject(old(spec), id)
      ensures Outcomes.RejectedAs(old(spec), spec, outcome, id)
    {
      hide SourceTable.Good, Drop, Store.Valid, Outcomes.RejectedAs;
      Outcomes.RejectOutcome(spec, id);
      var n := store.ById(id);
      if n == null || n.agent.Some? {
        return Error(NotAvail);
      }
      Discard(n);
      return Success;
    }

    // ---------- delivery ----------

    /** One turn of the ready loop of conn_mux_process. The source is always unmapped here, so the
        table is never asked to map a source twice. */
    method ProcessReady(memory: bool, accepted: bool) returns (stored: bool)
      requires Valid() && ReadyOk(spec.c) && store.readyHead != null
      modifies this, store.Repr(), table, table.slots
      ensures Valid() && (table.slots == old(table.slots) || fresh(table.slots)) && store.Repr() <= old(store.Repr())
      ensures old(spec).c.ready != [] && spec == PendingSpec.ProcessReady(old(spec), stored, accepted)
      ensures |store.q.ready| < |old(store.q).ready|
    {
      hide Drop, Without, SourceTable.Good, ReadyOk, Store.Valid, Store.OffLists, Store.OffChains;
      var n: Node := store.readyHead;
      ReadyHead();
      ShorterWithout(store.q.ready, n.id);
      stored := Map(n, memory, accepted);
      DropFields(spec.c, {n.id});
      RemovePending(n);
    }

    lemma ReadyHead()
      requires Held() && ReadyOk(spec.c) && store.readyHead != null
      ensures var n := store.readyHead;
              && spec.c.ready != [] && n.id == spec.c.ready[0] && Home(store.at, n) && n.id in spec.c.requests
              && n.Value() == spec.c.requests[n.id] && n.agent.Some? && n.src !in spec.c.table
    {
      hide Linked, ReadyOk, Store.Valid;
      store.Heads();
      store.HomeValue(store.readyHead);
      store.IsLinked();
      Heads(hash, store.q);
      UnmappedHead(spec.c);
    }

    /** The source is mapped to the agent and the held packet handed over, if the agent is ready and the
        table has room. */
    method Map(n: Node, memory: bool, accepted: bool) returns (stored: bool)
      requires Valid() && n.id in spec.c.requests && n.Value() == spec.c.requests[n.id] && n.agent.Some?
      requires n.src !in spec.c.table
      modifies `agents, `spec, table, table.slots
      ensures Valid() && (table.slots == old(table.slots) || fresh(table.slots)) && store.q == old(store.q)
      ensures var a := old(n.agent).value;
              if Ready(old(spec).c, a) && stored then spec == old(spec).(c := Deliver(old(spec).c, n.id, a, accepted))
              else spec == old(spec)
    {
      hide Store.Valid, SourceTable.Good;
      var a := n.agent.value;
      stored := false;
      if a in agents && !agents[a].finished {
        stored := MapNow(n.src, a, memory);
        if stored {
          HandPacket(n, a, accepted);
        }
      }
    }

    method HandPacket(n: Node, a: Agent, accepted: bool)
      requires Valid() && a in agents
      modifies `agents, `spec
      ensures Valid() && store.q == old(store.q)
      ensures spec == old(spec).(c := old(spec).c.(
                delivered := old(spec).c.delivered + [Delivery(n.id, a, n.data)],
                agents := old(spec).c.agents[a := old(spec).c.agents[a].(finished := !accepted)]))
    {
      hide Store.Valid, SourceTable.Good;
      agents := agents[a := agents[a].(finished := !accepted)];
      spec := spec.(c := spec.c.(delivered := spec.c.delivered + [Delivery(n.id, a, n.data)], agents := agents));
    }

    // ---------- teardown ----------

    /** Part of the way down the main list: `gone` are the matching requests seen so far, `kept` the others,
        and the walk stands before todo[i..]. */
    ghost predicate Walking(r: PendingSpec.Registry, todo: seq<Id>, i: nat, owner: Option<Agent>, gone: set<Id>,
                            kept: seq<Id>, n: Node?)
      reads this, store, store.Repr()
    {
      && Held() && Flags() && spec == r.(c := Drop(r.c, gone)) && store.q.nodes == r.c.requests - gone
      && i <= |todo| && Removing(r.c.requests, todo, i, owner, gone) && store.q.main == kept + todo[i..]
      && n == NodeAt(store.at, store.q.main, |kept|)
    }

    /** The walks over the main list that remove what belongs to one agent, or to none. The next node is
        fetched before the present one goes. */
    method RemoveAllOf(owner: Option<Agent>)
      requires Held() && Flags()
      modifies store.Repr(), `spec
      ensures Held() && Flags() && store.Repr() <= old(store.Repr())
      ensures spec == old(spec).(c := Drop(old(spec).c, Owned(old(spec).c.requests, owner)))
      ensures spec.c.table == old(spec.c.table)
    {
      hide Walking, Held, Flags, Drop, Owned;
      ghost var r, todo, i := spec, store.q.main, 0;
      ghost var gone: set<Id>, kept: seq<Id> := {}, [];
      WalkStarts(owner);
      var n := store.head;
      while n != null
        invariant Walking(r, todo, i, owner, gone, kept, n) && store.Repr() <= old(store.Repr()) && i <= |todo|
        decreases |todo| - i
      {
        n, gone, kept := RemoveNext(n, r, todo, i, owner, gone, kept);
        i := i + 1;
      }
      WalkEnds(r, todo, i, owner, gone, kept);
    }

    lemma WalkStarts(owner: Option<Agent>)
      requires Held() && Flags()
      ensures Walking(spec, store.q.main, 0, owner, {}, [], store.head)
    {
      hide Linked, Drop, Flags, Removing, Store.Valid;
      store.IsLinked();
      MainList(hash, store.q);
      DropNone(spec.c);
      store.Heads();
      assert store.q.main == [] + store.q.main[0..];
    }

    lemma WalkEnds(r: PendingSpec.Registry, todo: seq<Id>, i: nat, owner: Option<Agent>, gone: set<Id>, kept: seq<Id>)
      requires Walking(r, todo, i, owner, gone, kept, null)
      ensures Held() && Flags() && spec == r.(c := Drop(r.c, Owned(r.c.requests, owner))) && spec.c.table == r.c.table
    {
      hide Drop, Removing, Owned, Store.Valid;
      store.MainStops(|kept|);
      RemovingDone(r.c.requests, todo, owner, gone);
      DropFields(r.c, gone);
    }

    method RemoveNext(n: Node, ghost r: PendingSpec.Registry, ghost todo: seq<Id>, ghost i: nat, owner: Option<Agent>,
                      ghost gone: set<Id>, ghost kept: seq<Id>)
      returns (next: Node?, ghost gone': set<Id>, ghost kept': seq<Id>)
      requires Walking(r, todo, i, owner, gone, kept, n)
      modifies store.Repr(), `spec
      ensures i < |todo| && Walking(r, todo, i + 1, owner, gone', kept', next) && store.Repr() <= old(store.Repr())
    {
      hide Drop, Flags, Removing, Without, Store.Valid;
      WalkStands(n, r, todo, i, owner, gone, kept);
      next, gone', kept' := n.next, gone, kept;
      if n.agent == owner {
        RemoveHere(n, r, todo, i, owner, gone, kept);
        gone' := gone + {n.id};
      } else {
        kept' := kept + [n.id];
        assert kept + todo[i..] == kept' + todo[i + 1..];
      }
    }

    lemma WalkStands(n: Node, r: PendingSpec.Registry, todo: seq<Id>, i: nat, owner: Option<Agent>, gone: set<Id>, kept: seq<Id>)
      requires Walking(r, todo, i, owner, gone, kept, n)
      ensures i < |todo| && n.id == todo[i] && Home(store.at, n) && n.id in r.c.requests - gone && n.Value() == r.c.requests[n.id]
      ensures n.next == NodeAt(store.at, store.q.main, |kept| + 1)
      ensures Removing(r.c.requests, todo, i + 1, owner, if n.agent == owner then gone + {n.id} else gone)
    {
      hide Drop, Flags, Removing, Store.Valid;
      store.NextOnMain(|kept|);
      RemovingNext(r.c.requests, todo, i, owner, gone);
      store.HomeValue(n);
    }

    method RemoveHere(n: Node, ghost r: PendingSpec.Registry, ghost todo: seq<Id>, ghost i: nat, owner: Option<Agent>,
                      ghost gone: set<Id>, ghost kept: seq<Id>)
      requires Walking(r, todo, i, owner, gone, kept, n) && n.agent == owner
      modifies store.Repr(), `spec
      ensures i < |todo| && store.Repr() <= old(store.Repr())
      ensures Walking(r, todo, i + 1, owner, gone + {n.id}, kept, old(n.next))
    {
      hide Drop, Flags, Removing, Without, Store.Valid, Store.OffLists, Store.OffChains;
      WalkStands(n, r, todo, i, owner, gone, kept);
      DropTwice(r.c, gone, {n.id});
      store.IsLinked();
      NoDups(hash, store.q);
      OneMoreGone(r.c.requests, gone, n.id, store.q.main, kept, todo, i);
      RemovePending(n);
    }

    /** conn_mux_cleanup with the rest of conn_destroy that touches the registry. */
    method Cleanup(agent: Agent, seat: nat)
      requires Valid() && Seated(seats, agents) && seat < |seats| && seats[seat] == Some(agent)
      modifies this, store.Repr(), table, table.slots
      ensures Valid() && Seated(seats, agents) && table.slots == old(table.slots) && store.Repr() <= old(store.Repr())
      ensures spec == PendingSpec.Cleanup(old(spec), agent)
    {
      hide Drop, SourceTable.Good, SourceTable.Left, Owned, Seated, PendingSpec.Cleanup, Store.Valid;
      ghost var r := spec;
      Unmap(agent);
      RemoveAllOf(Some(agent));
      Depart(agent, seat, r);
    }

    /** The agent leaves its seat; its mappings and requests are gone already. */
    method Depart(agent: Agent, seat: nat, ghost r: PendingSpec.Registry)
      requires Held() && Flags() && spec == r.(c := Drop(r.c, Owned(r.c.requests, Some(agent))))
      requires Seated(seats, agents) && seat < |seats| && seats[seat] == Some(agent)
      modifies `agents, `seats, `spec
      ensures Held() && Flags() && Seated(seats, agents) && spec == PendingSpec.Cleanup(r, agent)
      ensures spec.c.table == SourceTable.Left(r.c.table, agent)
    {
      hide Drop, SourceTable.Left, Owned, Seated, PendingSpec.Cleanup, Store.Valid;
      CleanupFields(r, agent);
      Unseat(agent, seat);
      spec := PendingSpec.Cleanup(r, agent);
    }

    method Unmap(agent: Agent)
      requires Valid()
      modifies table, table.slots
      ensures table.Valid() && table.slots == old(table.slots) && table.Contents == SourceTable.Left(spec.c.table, agent)
      ensures Held() && Flags() && store.Repr() == old(store.Repr())
    {
      hide SourceTable.Good, SourceTable.Left, Store.Valid;
      table.RemoveAgent(agent);
    }

    method Unseat(agent: Agent, seat: nat)
      requires Seated(seats, agents) && seat < |seats| && seats[seat] == Some(agent)
      modifies `agents, `seats
      ensures Seated(seats, agents) && agents == old(agents) - {agent}
    {
      ghost var before := seats;
      seats := seats[seat := None];
      agents := agents - {agent};
      forall a | a in agents ensures Some(a) in seats {
        var k :| 0 <= k < |before| && before[k] == Some(a);
        assert seats[k] == Some(a);
      }
    }

    /** conn_create in a registry: the first free slot, doubling the array when there is none. `memory` and
        `started` are the outcomes of the reallocation and of starting the connection. */
    method AddAgent(agent: Agent, info: AgentInfo, memory: bool, started: bool) returns (seat: Option<nat>)
      requires Valid() && Seated(seats, agents) && agent !in agents
      modifies `agents, `seats, `spec
      ensures Valid() && Seated(seats, agents)
      ensures seat.Some? <==> started && (None in old(seats) || memory)
      ensures seat.Some? ==> seat.value < |seats| && seats[seat.value] == Some(agent)
      ensures seat.Some? ==> forall i :: 0 <= i < seat.value ==> seats[i].Some?
      ensures spec == if seat.Some? then PendingSpec.AddAgent(old(spec), agent, info) else old(spec)
    {
      hide SourceTable.Good, Store.Valid, Seated;
      var free := FreeSeat(memory);
      if free.None? || !started {
        return None;
      }
      Seat(agent, info, free.value);
      spec := PendingSpec.AddAgent(spec, agent, info);
      return free;
    }

    method FreeSeat(memory: bool) returns (seat: Option<nat>)
      requires Seated(seats, agents)
      modifies `seats
      ensures Seated(seats, agents) && (seat.Some? <==> None in old(seats) || memory)
      ensures seat.Some? ==> seat.value < |seats| && seats[seat.value].None? && forall i :: 0 <= i < seat.value ==> seats[i].Some?
    {
      var k := 0;
      while k < |seats| && seats[k].Some?
        invariant 0 <= k <= |seats| && seats == old(seats) && forall i :: 0 <= i < k ==> seats[i].Some?
      {
        k := k + 1;
      }
      if k == |seats| {
        if !memory {
          return None;
        }
        seats := seats + seq(|seats|, _ => None);
      }
      return Some(k);
    }

    method Seat(agent: Agent, info: AgentInfo, seat: nat)
      requires Seated(seats, agents) && agent !in agents && seat < |seats| && seats[seat].None?
      modifies `agents, `seats
      ensures Seated(seats, agents) && seats == old(seats)[seat := Some(agent)] && agents == old(agents)[agent := info]
    {
      ghost var before := seats;
      seats := seats[seat := Some(agent)];
      agents := agents[agent := info];
      assert Some(agent) !in before;
      forall a | a in agents ensures Some(a) in seats {
        if a == agent {
          assert seats[seat] == Some(a);
        } else {
          var k :| 0 <= k < |before| && before[k] == Some(a);
          assert seats[k] == Some(a);
        }
      }
    }

    /** conn_mux_begin_stop_pending. */
    method BeginStop(onMuxThread: bool) returns (outcome: Outcome)
      requires Valid()
      modifies store.Repr(), `spec, `pending, `closing
      ensures Valid() && (spec, outcome) == PendingSpec.BeginStop(old(spec), onMuxThread)
    {
      hide Drop, SourceTable.Good, Store.Valid;
      if onMuxThread {
        return Error(Invalid);
      }
      if pending.None? || closing {
        return Error(NotAvail);
      }
      ghost var c := spec.c;
      RemoveAllOf(None);
      assert Owned(c.requests, None) == UnacceptedIds(c);
      closing := true;
      pending := None;
      spec := spec.(c := spec.c.(closing := true, pending := None));
      return Success;
    }

    method FinishStop()
      requires Valid()
      modifies `closing, `spec
      ensures Valid() && spec == PendingSpec.FinishStop(old(spec)) && !closing
    {
      hide SourceTable.Good, Store.Valid;
      closing := false;
      spec := PendingSpec.FinishStop(spec);
    }

    // ---------- listening ----------

    /** conn_mux_listen_pending with a callback. Requests already attached outlive the listener that
        admitted them and are linked into the new chains. */
    method Listen(maxPending: nat, timeout: nat, memory: bool) returns (outcome: Outcome)
      requires Valid()
      modifies store.Repr(), `pending, `required, `spec
      ensures Valid() && (spec, outcome) == PendingSpec.Listen(old(spec), maxPending, timeout, memory)
      ensures outcome == Success ==> pending.Some? && store.buckets.Length >= 2 * pending.value.maxPending
      ensures fresh(store.Repr() - old(store.Repr()))
    {
      hide SourceTable.Good, Store.Valid;
      if incoming || pending.Some? || closing {
        return Error(NotAvail);
      }
      var limit := if maxPending != 0 then maxPending else DEFAULT_LIMIT;
      var time := if timeout != 0 then timeout else DEFAULT_TIMEOUT;
      if limit > MAX_PENDING_LIMIT || time > MAX_TIMEOUT {
        return Error(Invalid);
      }
      var n := 1;
      while n < limit * 2
        invariant n > 0
        decreases limit * 2 - n
      {
        n := n * 2;
      }
      if !memory {
        return Error(Failed);
      }
      store.Rehash(n);
      assert this !in store.Repr();
      store.Lengths();
      required := true;
      pending := Some(Listener(limit, time));
      spec := spec.(c := spec.c.(pending := pending, required := true));
      return Success;
    }

    // ---------- routing ----------

    /** The walk over the agents in lookup_agent: the first ready one with this local fragment. */
    method FindAgent(local: string) returns (chosen: Option<Agent>)
      requires Seated(seats, agents) && agents == spec.c.agents
      ensures chosen.Some? ==> Candidate(spec.c, chosen.value, local)
      ensures chosen.None? ==> forall a :: a in agents ==> !Candidate(spec.c, a, local)
    {
      for i := 0 to |seats|
        invariant forall k :: 0 <= k < i && seats[k].Some? ==> !Candidate(spec.c, seats[k].value, local)
      {
        if seats[i].Some? {
          var a := seats[i].value;
          assert seats[i] in seats;
          if !agents[a].finished && agents[a].localUfrag == local {
            return seats[i];
          }
        }
      }
      return None;
    }

    /** lookup_agent for one received datagram, as far as the registry is concerned. `memory` and `room`
        are the outcomes of allocating a request and of growing the table. */
    method Receive(env: Env, next: nat, src: Endpoint, data: seq<byte>, now: int, memory: bool, room: bool)
      returns (next': nat, chosen: Option<Agent>, stored: bool)
      requires Valid() && Seated(seats, agents) && (next != 0 ==> forall id :: id in spec.c.requests ==> id < next)
      modifies this, store.Repr(), table, table.slots
      ensures Valid() && Seated(seats, agents) && (table.slots == old(table.slots) || fresh(table.slots))
      ensures fresh(store.Repr() - old(store.Repr()))
      ensures (spec, next') == PendingSpec.Receive(env, old(spec), next, src, data, now, chosen, memory, stored)
      ensures old(spec).c.required || src in old(spec).c.table || ChosenOk(env, old(spec).c, data, chosen)
    {
      hide Store.Valid, SourceTable.Good, Seated, ChosenOk, PendingSpec.Route;
      CountReceived();
      next', chosen, stored := Route(env, next, src, data, now, memory, room);
    }

    method CountReceived()
      requires Valid()
      modifies `stats, `spec
      ensures Valid() && spec == old(spec).(stats := old(spec).stats.(received := old(spec).stats.received + 1))
    {
      hide Store.Valid, SourceTable.Good;
      stats := stats.(received := stats.received + 1);
      spec := spec.(stats := stats);
    }

    method Route(env: Env, next: nat, src: Endpoint, data: seq<byte>, now: int, memory: bool, room: bool)
      returns (next': nat, chosen: Option<Agent>, stored: bool)
      requires Valid() && Seated(seats, agents) && (next != 0 ==> forall id :: id in spec.c.requests ==> id < next)
      modifies this, store.Repr(), table, table.slots
      ensures Valid() && Seated(seats, agents) && (table.slots == old(table.slots) || fresh(table.slots))
      ensures fresh(store.Repr() - old(store.Repr()))
      ensures (spec, next') == PendingSpec.Route(env, old(spec), next, src, data, now, chosen, memory, stored)
      ensures old(spec).c.required || src in old(spec).c.table || ChosenOk(env, old(spec).c, data, chosen)
    {
      hide Store.Valid, SourceTable.Good, PendingSpec.RouteRequest, Candidate, Seated, ChosenOk;
      next', chosen, stored := next, None, false;
      NotChosen(env, spec.c, data);
      var mapped, _ := table.Lookup(src);
      if mapped {
        return;
      }
      match env.parse(data)
      case NotStun => Refuse();
      case Unreadable => Refuse();
      case Unexpected => Refuse();
      case Response =>
      case BindingRequest(fragments) =>
        match fragments {
          case None => Refuse();
          case Some((local, remote)) =>
            Note(src, data);
            ghost var c := spec.c;
            next', chosen, stored := RouteRequest(env, next, src, local, remote, data, now, memory, room);
            Chosen(env, old(spec).c, c, data, chosen);
        }
    }

    ghost method Note(src: Endpoint, data: seq<byte>)
      requires Valid()
      modifies `spec
      ensures Valid() && spec == old(spec).(c := Hear(old(spec).c, src, data))
    {
      hide Store.Valid, SourceTable.Good;
      spec := spec.(c := Hear(spec.c, src, data));
    }

    method RouteRequest(env: Env, next: nat, src: Endpoint, local: string, remote: string, data: seq<byte>, now: int,
                   memory: bool, room: bool)
      returns (next': nat, chosen: Option<Agent>, stored: bool)
      requires Valid() && Seated(seats, agents) && (next != 0 ==> forall id :: id in spec.c.requests ==> id < next) && src !in spec.c.table
      modifies this, store.Repr(), table, table.slots
      ensures Valid() && Seated(seats, agents) && (table.slots == old(table.slots) || fresh(table.slots))
      ensures fresh(store.Repr() - old(store.Repr()))
      ensures (spec, next') == PendingSpec.RouteRequest(env, old(spec), next, src, local, remote, data, now, chosen, memory, stored)
      ensures !old(spec).c.required && chosen.Some? ==> Candidate(old(spec).c, chosen.value, local)
      ensures !old(spec).c.required && chosen.None? ==>
                forall a :: a in old(spec).c.agents ==> !Candidate(old(spec).c, a, local)
    {
      hide Store.Valid, SourceTable.Good, PendingSpec.Defer, PendingSpec.Authentic, Candidate;
      next', chosen, stored := next, None, false;
      if required {
        DeferTable(spec, next, src, local, remote, data, now, memory);
        next' := Defer(next, src, local, remote, data, now, memory);
        return;
      }
      chosen := FindAgent(local);
      if chosen.None? {
        return;
      }
      if chosen.value !in agents || !Authentic(env, agents[chosen.value], remote, data) {
        Refuse();
        return;
      }
      stored := MapNow(src, chosen.value, room);
    }

    method MapNow(src: Endpoint, a: Agent, room: bool) returns (stored: bool)
      requires Valid() && src !in spec.c.table
      modifies `spec, table, table.slots
      ensures Valid() && (table.slots == old(table.slots) || fresh(table.slots))
      ensures spec == if stored then old(spec).(c := MapSource(old(spec).c, src, a)) else old(spec)
      ensures store.Repr() == old(store.Repr())
    {
      hide Store.Valid, SourceTable.Good;
      stored := table.Insert(src, a, room);
      if stored {
        spec := spec.(c := MapSource(spec.c, src, a));
      }
    }
  }

  lemma OneMoreGone(all: map<Id, Request>, gone: set<Id>, id: Id, main: seq<Id>, kept: seq<Id>, todo: seq<Id>, i: nat)
    requires i < |todo| && id == todo[i] && NoDup(main) && main == kept + todo[i..]
    ensures all - gone - {id} == all - (gone + {id})
    ensures Without(main, {id}) == kept + todo[i + 1..]
  {
    assert main[|kept|] == id;
    WithoutAt(main, |kept|);
  }

  lemma NotHeld(e: PendingSpec.Registry, id: Id, a: Agent, woken: bool)
    ensures id !in e.c.requests ==> AttachHeld(e, id, a, woken) == (e, Error(NotAvail))
  {
  }

  lemma NotChosen(env: Env, c: Core, data: seq<byte>)
    ensures !env.parse(data).BindingRequest? || env.parse(data).fragments.None? ==> ChosenOk(env, c, data, None)
  {
  }

  lemma Chosen(env: Env, c: Core, d: Core, data: seq<byte>, chosen: Option<Agent>)
    requires d.agents == c.agents && env.parse(data).BindingRequest? && env.parse(data).fragments.Some?
    ensures var local := env.parse(data).fragments.value.0;
            && (chosen.Some? ==> Candidate(d, chosen.value, local))
            && (chosen.None? ==> forall a :: a in d.agents ==> !Candidate(d, a, local))
            ==> ChosenOk(env, c, data, chosen)
  {
    assert forall a, local :: Candidate(d, a, local) == Candidate(c, a, local);
  }

  lemma DeferTable(r: PendingSpec.Registry, next: nat, src: Endpoint, local: string, remote: string,
                   data: seq<byte>, now: int, memory: bool)
    ensures PendingSpec.Defer(r, next, src, local, remote, data, now, memory).0.c.table == r.c.table
    ensures PendingSpec.Defer(r, next, src, local, remote, data, now, memory).0.c.agents == r.c.agents
  {
  }

  ghost function Owned(nodes: map<Id, Request>, owner: Option<Agent>): set<Id> {
    set id | id in nodes && nodes[id].agent == owner
  }

  /** Part of the way down the main list: `gone` are the matching requests seen so far. */
  ghost predicate Removing(all: map<Id, Request>, todo: seq<Id>, i: nat, owner: Option<Agent>, gone: set<Id>) {
    && i <= |todo| && NoDup(todo) && (forall id :: id in todo <==> id in all)
    && gone <= Owned(all, owner)
    && (forall id :: id in gone ==> id in todo[..i])
    && (forall k :: 0 <= k < i && todo[k] in all && all[todo[k]].agent == owner ==> todo[k] in gone)
  }

  lemma RemovingNext(all: map<Id, Request>, todo: seq<Id>, i: nat, owner: Option<Agent>, gone: set<Id>)
    requires Removing(all, todo, i, owner, gone) && i < |todo|
    ensures todo[i] in all - gone
    ensures Removing(all, todo, i + 1, owner, if all[todo[i]].agent == owner then gone + {todo[i]} else gone)
  {
    assert todo[i] in todo;
    assert todo[i] !in todo[..i];
    assert todo[..i + 1] == todo[..i] + [todo[i]];
  }

  lemma RemovingDone(all: map<Id, Request>, todo: seq<Id>, owner: Option<Agent>, gone: set<Id>)
    requires Removing(all, todo, |todo|, owner, gone)
    ensures gone == Owned(all, owner)
  {
    forall id | id in Owned(all, owner) ensures id in gone {
      assert id in todo;
    }
  }

  lemma MainList(f: KeyHash, q: Queues)
    requires Linked(f, q)
    ensures forall owner :: Removing(q.nodes, q.main, 0, owner, {})
    ensures q.nodes - {} == q.nodes
  {
  }

  lemma UnmappedHead(c: Core)
    requires ReadyOk(c) && c.ready != []
    ensures c.ready[0] in c.requests && c.requests[c.ready[0]].src !in c.table
  {
    assert c.ready[0] in c.ready;
  }

  lemma ShorterWithout(q: seq<Id>, id: Id)
    requires q != [] && q[0] == id
    ensures |Without(q, {id})| < |q|
  {
    WithoutShort(q[1..], {id});
  }

  lemma {:induction false} WithoutShort(q: seq<Id>, gone: set<Id>)
    ensures |Without(q, gone)| <= |q|
    decreases |q|
  {
    if q != [] {
      WithoutShort(q[1..], gone);
    }
  }

  lemma CleanupFields(r: PendingSpec.Registry, a: Agent)
    ensures var d, e := Drop(r.c, Owned(r.c.requests, Some(a))), PendingSpec.Cleanup(r, a).c;
            && e.requests == d.requests && e.ready == d.ready && e.table == SourceTable.Left(r.c.table, a)
            && e.agents == d.agents - {a} && e.pending == d.pending && e.incoming == d.incoming
            && e.required == d.required && e.closing == d.closing
    ensures PendingSpec.Cleanup(r, a).stats == r.stats
  {
    assert Owned(r.c.requests, Some(a)) == OfAgent(r.c, a);
  }

  /** The head of the notify queue is the oldest request not announced. */
  lemma NextInQueue(f: KeyHash, q: Queues, c: Core)
    requires Linked(f, q) && q.nodes == c.requests
    ensures if q.notify != [] then IsNextToNotify(c, q.notify[0]) else AllNotified(c)
  {
    if q.notify != [] {
      AnnouncedLists(q);
      assert q.notify[0] in q.notify;
      assert forall id :: id in c.requests && !c.requests[id].notified ==> id in Unnotified(q.nodes);
    } else {
      assert Unnotified(q.nodes) == {};
      assert forall id :: id in c.requests && !c.requests[id].notified ==> id in Unnotified(q.nodes);
    }
  }

  /** Part of the way through expiry: `gone` are the requests popped so far. */
  ghost predicate Expiring(r: PendingSpec.Registry, s: PendingSpec.Registry, gone: set<Id>, now: int) {
    && gone <= Due(r.c, now)
    && s == r.(c := Drop(r.c, gone)).Rejecting(|gone|)
  }

  lemma ExpiringFirst(r: PendingSpec.Registry, now: int)
    ensures Expiring(r, r, {}, now)
  {
    DropNone(r.c);
  }

  lemma ExpiringNext(r: PendingSpec.Registry, s: PendingSpec.Registry, gone: set<Id>, now: int, id: Id)
    requires Expiring(r, s, gone, now) && id in s.c.requests
    requires Unaccepted(s.c.requests[id]) && s.c.requests[id].deadline <= now
    ensures Expiring(r, s.(c := Drop(s.c, {id})).Rejecting(1), gone + {id}, now)
  {
    DropTwice(r.c, gone, {id});
    assert id !in gone;
  }

  /** When the head is not due, nothing is: the queue is in deadline order. */
  lemma ExpiringDone(f: KeyHash, r: PendingSpec.Registry, s: PendingSpec.Registry, gone: set<Id>, now: int, q: Queues)
    requires Expiring(r, s, gone, now) && DeadlinesOk(r.c) && Linked(f, q) && q.nodes == s.c.requests
    requires q.expiry != [] ==> q.expiry[0] in q.nodes && now < q.nodes[q.expiry[0]].deadline
    ensures s.(c := s.c.(clock := now)) == PendingSpec.Expire(r, now)
    ensures s.c.table == r.c.table
  {
    forall k | 0 <= k < |q.expiry| ensures q.expiry[k] in q.nodes && now < q.nodes[q.expiry[k]].deadline {
      assert q.expiry[k] in q.expiry && q.expiry[0] in q.expiry;
      assert q.expiry[0] <= q.expiry[k];
    }
    forall id | id in Waiting(q.nodes) ensures now < q.nodes[id].deadline {
      assert id in q.expiry;
    }
    forall id | id in s.c.requests && Unaccepted(s.c.requests[id]) ensures now < s.c.requests[id].deadline {
      assert id in Waiting(q.nodes);
    }
    assert forall id :: id in Due(r.c, now) ==> id in gone || (id in s.c.requests && s.c.requests[id] == r.c.requests[id]);
    assert gone == Due(r.c, now);
  }
}
