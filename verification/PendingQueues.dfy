/**
 The structures a held request is linked into (src/conn_mux.c): the main list, the two hash tables,
 the expiry queue and one of the notify and ready queues. Chains and queues are sequences of ids here;
 module PendingStore threads them through the nodes by their links.
 */
module PendingQueues {
  import opened Addr
  import opened Basics
  import opened PendingSpec

  type KeyHash = (Endpoint, string, string) -> nat

  datatype Queues = Queues(
    nodes: map<Id, Request>,
    main: seq<Id>,
    expiry: seq<Id>,
    notify: seq<Id>,
    ready: seq<Id>,
    buckets: seq<seq<Id>>,
    ids: seq<seq<Id>>)

  /** q lists the members of s, each once. */
  ghost predicate Holds(q: seq<Id>, s: set<Id>) {
    && NoDup(q)
    && forall id :: id in q <==> id in s
  }

  predicate Increasing(q: seq<Id>) {
    forall i, j :: 0 <= i < j < |q| ==> q[i] < q[j]
  }

  function Unnotified(nodes: map<Id, Request>): set<Id> {
    set id | id in nodes && !nodes[id].notified
  }

  function Waiting(nodes: map<Id, Request>): set<Id> {
    set id | id in nodes && nodes[id].agent.None?
  }

  function Attached(nodes: map<Id, Request>): set<Id> {
    set id | id in nodes && nodes[id].agent.Some?
  }

  function KeyOf(f: KeyHash, n: nat, r: Request): (b: nat)
    requires n > 0
    ensures b < n
  {
    f(r.src, r.local, r.remote) % n
  }

  function InBucket(f: KeyHash, nodes: map<Id, Request>, n: nat, b: nat): set<Id>
    requires n > 0
  {
    set id | id in nodes && KeyOf(f, n, nodes[id]) == b
  }

  function InIdBucket(nodes: map<Id, Request>, n: nat, b: nat): set<Id>
    requires n > 0
  {
    set id | id in nodes && id % n == b
  }

  /** Each held request sits once in every structure its stage calls for, and in no other. */
  ghost predicate Linked(f: KeyHash, q: Queues) {
    Lists(q) && Buckets(f, q) && IdBuckets(q) && Staged(q.nodes)
  }

  /** Only announced requests are verified or attached. */
  ghost predicate Staged(nodes: map<Id, Request>) {
    forall id :: id in nodes && (nodes[id].verified || nodes[id].agent.Some?) ==> nodes[id].notified
  }

  ghost predicate Lists(q: Queues) {
    && Holds(q.main, q.nodes.Keys) && Increasing(q.main)
    && Holds(q.expiry, Waiting(q.nodes)) && Increasing(q.expiry)
    && Holds(q.notify, Unnotified(q.nodes)) && Increasing(q.notify)
    && Holds(q.ready, Attached(q.nodes))
  }

  ghost predicate Buckets(f: KeyHash, q: Queues) {
    && (|q.buckets| == 0 ==> q.nodes == map[])
    && forall b :: 0 <= b < |q.buckets| ==> Holds(q.buckets[b], InBucket(f, q.nodes, |q.buckets|, b))
  }

  ghost predicate IdBuckets(q: Queues) {
    && |q.ids| == |q.buckets|
    && forall b :: 0 <= b < |q.ids| ==> Holds(q.ids[b], InIdBucket(q.nodes, |q.ids|, b))
  }

  // ---------- sequences ----------

  lemma {:induction false} WithoutIncreasing(q: seq<Id>, gone: set<Id>)
    requires Increasing(q)
    ensures Increasing(Without(q, gone))
    decreases |q|
  {
    if q != [] {
      var rest := Without(q[1..], gone);
      WithoutIncreasing(q[1..], gone);
      forall k | 0 <= k < |rest| ensures q[0] < rest[k] {
        assert rest[k] in rest;
      }
    }
  }

  lemma {:induction false} WithoutTwice(q: seq<Id>, a: set<Id>, b: set<Id>)
    ensures Without(Without(q, a), b) == Without(q, a + b)
    decreases |q|
  {
    if q != [] {
      WithoutTwice(q[1..], a, b);
      var rest := Without(q[1..], a);
      assert Without(q, a) == (if q[0] in a then rest else [q[0]] + rest);
      assert ([q[0]] + rest)[1..] == rest;
    }
  }

  lemma {:induction false} WithoutAt(q: seq<Id>, k: nat)
    requires NoDup(q) && k < |q|
    ensures Without(q, {q[k]}) == q[..k] + q[k + 1..]
    decreases |q|
  {
    var rest := q[1..];
    if k == 0 {
      assert q[0] !in rest;
      WithoutAbsent(rest, {q[0]});
    } else {
      var gone := {q[k]};
      WithoutAt(rest, k - 1);
      assert rest[k - 1] == q[k] && q[0] !in gone;
      assert Without(q, gone) == [q[0]] + Without(rest, gone);
      assert [q[0]] + rest[..k - 1] == q[..k] && rest[k..] == q[k + 1..];
    }
  }

  lemma DropTwice(c: Core, a: set<Id>, b: set<Id>)
    ensures Drop(Drop(c, a), b) == Drop(c, a + b)
  {
    WithoutTwice(c.ready, a, b);
    assert c.requests - a - b == c.requests - (a + b);
  }

  lemma DropFields(c: Core, gone: set<Id>)
    ensures var d := Drop(c, gone);
            && d.requests == c.requests - gone && d.ready == Without(c.ready, gone)
            && d.table == c.table && d.agents == c.agents && d.pending == c.pending
            && d.incoming == c.incoming && d.required == c.required && d.closing == c.closing
  {
  }

  lemma DropNone(c: Core)
    ensures Drop(c, {}) == c
  {
    WithoutAbsent(c.ready, {});
    assert c.requests - {} == c.requests;
  }

  // ---------- removing one request ----------

  /** remove_pending: out of both chains, out of the queues of its stage, out of the main list. */
  function Removed(f: KeyHash, q: Queues, id: Id): Queues
    requires id in q.nodes && |q.buckets| == |q.ids| > 0
  {
    var n := |q.buckets|;
    var b, k := KeyOf(f, n, q.nodes[id]), id % n;
    var r := q.nodes[id];
    Queues(q.nodes - {id},
           Without(q.main, {id}),
           if r.agent.Some? then q.expiry else Without(q.expiry, {id}),
           if r.agent.None? && !r.notified then Without(q.notify, {id}) else q.notify,
           if r.agent.Some? then Without(q.ready, {id}) else q.ready,
           q.buckets[b := Without(q.buckets[b], {id})],
           q.ids[k := Without(q.ids[k], {id})])
  }

  lemma HoldsWithout(q: seq<Id>, s: set<Id>, t: set<Id>, id: Id)
    requires Holds(q, s) && t == s - {id}
    ensures Holds(Without(q, {id}), t)
  {
    WithoutNoDup(q, {id});
  }

  /** An attached request has been announced, so removing it leaves the notify queue alone. */
  lemma RemovedLists(f: KeyHash, q: Queues, id: Id)
    requires Lists(q) && id in q.nodes && |q.buckets| == |q.ids| > 0
    requires q.nodes[id].agent.Some? ==> q.nodes[id].notified
    ensures Lists(Removed(f, q, id))
  {
    hide Holds, Increasing, Without;
    var d := Removed(f, q, id);
    RemovedStages(q, id);
    ListWithout(q.main, q.nodes.Keys, d.nodes.Keys, id);
    assert Waiting(d.nodes) == Waiting(q.nodes) - {id};
    ListWithout(q.expiry, Waiting(q.nodes), Waiting(d.nodes), id);
    assert Unnotified(d.nodes) == Unnotified(q.nodes) - {id};
    ListWithout(q.notify, Unnotified(q.nodes), Unnotified(d.nodes), id);
    assert Attached(d.nodes) == Attached(q.nodes) - {id};
    HoldsWithout(q.ready, Attached(q.nodes), Attached(d.nodes), id);
  }

  lemma ListWithout(q: seq<Id>, s: set<Id>, t: set<Id>, id: Id)
    requires Holds(q, s) && Increasing(q) && t == s - {id}
    ensures Holds(Without(q, {id}), t) && Increasing(Without(q, {id}))
  {
    HoldsWithout(q, s, t, id);
    WithoutIncreasing(q, {id});
  }

  lemma RemovedStages(q: Queues, id: Id)
    requires Lists(q) && id in q.nodes
    ensures q.nodes[id].agent.Some? ==> Without(q.expiry, {id}) == q.expiry
    ensures q.nodes[id].agent.None? ==> Without(q.ready, {id}) == q.ready
    ensures q.nodes[id].notified ==> Without(q.notify, {id}) == q.notify
  {
    if q.nodes[id].agent.Some? {
      WithoutAbsent(q.expiry, {id});
    } else {
      WithoutAbsent(q.ready, {id});
    }
    if q.nodes[id].notified {
      WithoutAbsent(q.notify, {id});
    }
  }

  lemma RemovedBuckets(f: KeyHash, q: Queues, id: Id)
    requires Buckets(f, q) && IdBuckets(q) && id in q.nodes && |q.buckets| > 0
    ensures Buckets(f, Removed(f, q, id)) && IdBuckets(Removed(f, q, id))
  {
    var n, nodes, d := |q.buckets|, q.nodes - {id}, Removed(f, q, id);
    forall b | 0 <= b < n ensures Holds(d.buckets[b], InBucket(f, nodes, n, b)) {
      assert Holds(q.buckets[b], InBucket(f, q.nodes, n, b));
      assert InBucket(f, nodes, n, b) == InBucket(f, q.nodes, n, b) - {id};
      if b == KeyOf(f, n, q.nodes[id]) {
        HoldsWithout(q.buckets[b], InBucket(f, q.nodes, n, b), InBucket(f, nodes, n, b), id);
      }
    }
    forall b | 0 <= b < n ensures Holds(d.ids[b], InIdBucket(nodes, n, b)) {
      assert Holds(q.ids[b], InIdBucket(q.nodes, n, b));
      assert InIdBucket(nodes, n, b) == InIdBucket(q.nodes, n, b) - {id};
      if b == id % n {
        HoldsWithout(q.ids[b], InIdBucket(q.nodes, n, b), InIdBucket(nodes, n, b), id);
      }
    }
  }

  /** Removing a request from where it is linked leaves the others linked, and nothing of it. */
  lemma RemovedLinked(f: KeyHash, q: Queues, id: Id)
    requires Linked(f, q) && id in q.nodes
    ensures |q.buckets| == |q.ids| > 0
    ensures var c := q.buckets[KeyOf(f, |q.buckets|, q.nodes[id])]; NoDup(c) && id in c
    ensures var c := q.ids[id % |q.ids|]; NoDup(c) && id in c
    ensures Linked(f, Removed(f, q, id))
    ensures Removed(f, q, id).ready == Without(q.ready, {id})
    ensures |q.nodes| > 0 && |Removed(f, q, id).nodes| == |q.nodes| - 1
  {
    var n := |q.buckets|;
    assert Holds(q.buckets[KeyOf(f, n, q.nodes[id])], InBucket(f, q.nodes, n, KeyOf(f, n, q.nodes[id])));
    assert Holds(q.ids[id % n], InIdBucket(q.nodes, n, id % n));
    RemovedLists(f, q, id);
    RemovedBuckets(f, q, id);
    RemovedStages(q, id);
    assert Removed(f, q, id).nodes.Keys == q.nodes.Keys - {id};
  }

  /** The heads of the queues are requests of the right stage. */
  lemma Heads(f: KeyHash, q: Queues)
    requires Linked(f, q)
    ensures q.expiry != [] ==> q.expiry[0] in q.nodes && q.nodes[q.expiry[0]].agent.None?
    ensures q.notify != [] ==> q.notify[0] in q.nodes && !q.nodes[q.notify[0]].notified
    ensures q.ready != [] ==> q.ready[0] in q.nodes && q.nodes[q.ready[0]].agent.Some?
  {
    assert q.expiry != [] ==> q.expiry[0] in q.expiry;
    assert q.notify != [] ==> q.notify[0] in q.notify;
    assert q.ready != [] ==> q.ready[0] in q.ready;
  }

  // ---------- adding one request ----------

  /** The second half of defer_request: a new request is linked in at the head of its chains and at
      the tail of the main list, the expiry queue and the notify queue. */
  function Added(f: KeyHash, q: Queues, id: Id, r: Request): Queues
    requires |q.buckets| == |q.ids| > 0
  {
    var n := |q.buckets|;
    var b, k := KeyOf(f, n, r), id % n;
    Queues(q.nodes[id := r], q.main + [id], q.expiry + [id], q.notify + [id], q.ready,
           q.buckets[b := [id] + q.buckets[b]], q.ids[k := [id] + q.ids[k]])
  }

  lemma AddedLists(f: KeyHash, q: Queues, id: Id, r: Request)
    requires Lists(q) && |q.buckets| == |q.ids| > 0
    requires (forall other :: other in q.nodes ==> other < id) && !r.notified && r.agent.None?
    ensures Lists(Added(f, q, id, r))
  {
    var nodes := q.nodes[id := r];
    assert id !in q.nodes;
    assert Waiting(nodes) == Waiting(q.nodes) + {id};
    assert Unnotified(nodes) == Unnotified(q.nodes) + {id};
    assert Attached(nodes) == Attached(q.nodes);
    AppendHolds(q.main, q.nodes.Keys, nodes.Keys, id);
    AppendHolds(q.expiry, Waiting(q.nodes), Waiting(nodes), id);
    AppendHolds(q.notify, Unnotified(q.nodes), Unnotified(nodes), id);
  }

  lemma AppendHolds(q: seq<Id>, s: set<Id>, t: set<Id>, id: Id)
    requires Holds(q, s) && Increasing(q) && t == s + {id} && forall x :: x in s ==> x < id
    ensures Holds(q + [id], t) && Increasing(q + [id])
  {
    assert id !in s;
    forall i | 0 <= i < |q| ensures q[i] < id {
      assert q[i] in q;
    }
  }

  lemma PrependHolds(q: seq<Id>, s: set<Id>, t: set<Id>, id: Id)
    requires Holds(q, s) && t == s + {id} && id !in s
    ensures Holds([id] + q, t)
  {
  }

  lemma AddedBuckets(f: KeyHash, q: Queues, id: Id, r: Request)
    requires Buckets(f, q) && IdBuckets(q) && |q.buckets| > 0 && id !in q.nodes
    ensures Buckets(f, Added(f, q, id, r)) && IdBuckets(Added(f, q, id, r))
  {
    var n, nodes, d := |q.buckets|, q.nodes[id := r], Added(f, q, id, r);
    forall b | 0 <= b < n ensures Holds(d.buckets[b], InBucket(f, nodes, n, b)) {
      assert Holds(q.buckets[b], InBucket(f, q.nodes, n, b));
      if b == KeyOf(f, n, r) {
        PrependHolds(q.buckets[b], InBucket(f, q.nodes, n, b), InBucket(f, nodes, n, b), id);
      } else {
        assert InBucket(f, nodes, n, b) == InBucket(f, q.nodes, n, b);
      }
    }
    forall b | 0 <= b < n ensures Holds(d.ids[b], InIdBucket(nodes, n, b)) {
      assert Holds(q.ids[b], InIdBucket(q.nodes, n, b));
      if b == id % n {
        PrependHolds(q.ids[b], InIdBucket(q.nodes, n, b), InIdBucket(nodes, n, b), id);
      } else {
        assert InIdBucket(nodes, n, b) == InIdBucket(q.nodes, n, b);
      }
    }
  }

  lemma AddedLinked(f: KeyHash, q: Queues, id: Id, r: Request)
    requires Linked(f, q) && |q.buckets| > 0 && (forall other :: other in q.nodes ==> other < id)
    requires !r.notified && !r.verified && r.agent.None?
    ensures |q.buckets| == |q.ids| && Linked(f, Added(f, q, id, r))
    ensures |q.nodes[id := r]| == |q.nodes| + 1
  {
    assert id !in q.nodes;
    AddedLists(f, q, id, r);
    AddedBuckets(f, q, id, r);
  }

  // ---------- moving one request to its next stage ----------

  /** Only the stage of one request changes: the chains stay as they are. */
  lemma StageBuckets(f: KeyHash, q: Queues, d: Queues, id: Id)
    requires Buckets(f, q) && IdBuckets(q) && id in q.nodes && id in d.nodes
    requires d.nodes == q.nodes[id := d.nodes[id]] && d.buckets == q.buckets && d.ids == q.ids
    requires d.nodes[id].src == q.nodes[id].src && d.nodes[id].local == q.nodes[id].local
    requires d.nodes[id].remote == q.nodes[id].remote
    ensures Buckets(f, d) && IdBuckets(d)
  {
    var n := |q.buckets|;
    forall b | 0 <= b < n ensures Holds(d.buckets[b], InBucket(f, d.nodes, n, b)) {
      assert InBucket(f, d.nodes, n, b) == InBucket(f, q.nodes, n, b);
    }
    forall b | 0 <= b < n ensures Holds(d.ids[b], InIdBucket(d.nodes, n, b)) {
      assert InIdBucket(d.nodes, n, b) == InIdBucket(q.nodes, n, b);
    }
  }

  function Announced(q: Queues): Queues
    requires q.notify != [] && q.notify[0] in q.nodes
  {
    var id := q.notify[0];
    q.(nodes := q.nodes[id := q.nodes[id].(notified := true)], notify := q.notify[1..])
  }

  lemma AnnouncedLists(q: Queues)
    requires Lists(q) && q.notify != []
    ensures q.notify[0] in q.nodes && Lists(Announced(q))
    ensures forall id :: id in Unnotified(q.nodes) ==> q.notify[0] <= id
  {
    var id := q.notify[0];
    assert id in q.notify;
    var d := Announced(q);
    assert d.nodes.Keys == q.nodes.Keys;
    assert Waiting(d.nodes) == Waiting(q.nodes);
    assert Attached(d.nodes) == Attached(q.nodes);
    assert Unnotified(d.nodes) == Unnotified(q.nodes) - {id};
    assert q.notify == [id] + d.notify;
  }

  function Handed(q: Queues, id: Id, a: Agent): Queues
    requires id in q.nodes
  {
    q.(nodes := q.nodes[id := q.nodes[id].(agent := Some(a))],
       expiry := Without(q.expiry, {id}), ready := q.ready + [id])
  }

  lemma HandedLists(q: Queues, id: Id, a: Agent)
    requires Lists(q) && id in q.nodes && q.nodes[id].agent.None?
    ensures Lists(Handed(q, id, a))
  {
    var d := Handed(q, id, a);
    assert d.nodes.Keys == q.nodes.Keys;
    assert Unnotified(d.nodes) == Unnotified(q.nodes);
    assert Waiting(d.nodes) == Waiting(q.nodes) - {id};
    HoldsWithout(q.expiry, Waiting(q.nodes), Waiting(d.nodes), id);
    WithoutIncreasing(q.expiry, {id});
    assert Attached(d.nodes) == Attached(q.nodes) + {id};
  }

  function Checked(q: Queues, id: Id, password: string): Queues
    requires id in q.nodes
  {
    q.(nodes := q.nodes[id := q.nodes[id].(verified := true, password := password)])
  }

  lemma CheckedLists(q: Queues, id: Id, password: string)
    requires Lists(q) && id in q.nodes
    ensures Lists(Checked(q, id, password))
  {
    var d := Checked(q, id, password);
    assert d.nodes.Keys == q.nodes.Keys;
    assert Unnotified(d.nodes) == Unnotified(q.nodes);
    assert Waiting(d.nodes) == Waiting(q.nodes);
    assert Attached(d.nodes) == Attached(q.nodes);
  }

  /** Each change of stage moves the request between queues and leaves everything linked. */
  lemma StageLinked(f: KeyHash, q: Queues)
    requires Linked(f, q)
    ensures q.notify != [] ==> q.notify[0] in q.nodes && Linked(f, Announced(q))
    ensures forall id, password :: id in q.nodes && q.nodes[id].notified ==> Linked(f, Checked(q, id, password))
    ensures forall id, a :: id in q.nodes && q.nodes[id].agent.None? && q.nodes[id].verified ==> Linked(f, Handed(q, id, a))
  {
    if q.notify != [] {
      AnnouncedLists(q);
      StageBuckets(f, q, Announced(q), q.notify[0]);
    }
    forall id, password | id in q.nodes && q.nodes[id].notified ensures Linked(f, Checked(q, id, password)) {
      CheckedLists(q, id, password);
      StageBuckets(f, q, Checked(q, id, password), id);
    }
    forall id, a | id in q.nodes && q.nodes[id].agent.None? && q.nodes[id].verified ensures Linked(f, Handed(q, id, a)) {
      HandedLists(q, id, a);
      StageBuckets(f, q, Handed(q, id, a), id);
    }
  }

  // ---------- rebuilding the chains ----------

  function Restrict(nodes: map<Id, Request>, done: seq<Id>): map<Id, Request> {
    map id | id in nodes && id in done :: nodes[id]
  }

  /** The chains after a prefix of the main list has been linked into them. */
  ghost predicate Rebuilt(f: KeyHash, nodes: map<Id, Request>, done: seq<Id>,
                          buckets: seq<seq<Id>>, ids: seq<seq<Id>>)
  {
    && |buckets| == |ids| > 0
    && var part := Restrict(nodes, done);
    && (forall b :: 0 <= b < |buckets| ==> Holds(buckets[b], InBucket(f, part, |buckets|, b)))
    && (forall b :: 0 <= b < |ids| ==> Holds(ids[b], InIdBucket(part, |ids|, b)))
  }

  lemma RebuiltFirst(f: KeyHash, nodes: map<Id, Request>, n: nat)
    requires n > 0
    ensures Rebuilt(f, nodes, [], seq(n, _ => []), seq(n, _ => []))
  {
    assert Restrict(nodes, []) == map[];
  }

  lemma RebuiltNext(f: KeyHash, nodes: map<Id, Request>, done: seq<Id>, id: Id,
                    buckets: seq<seq<Id>>, ids: seq<seq<Id>>)
    requires Rebuilt(f, nodes, done, buckets, ids) && id in nodes && id !in done
    ensures var b, k := KeyOf(f, |buckets|, nodes[id]), id % |ids|;
            Rebuilt(f, nodes, done + [id], buckets[b := [id] + buckets[b]], ids[k := [id] + ids[k]])
  {
    var part := Restrict(nodes, done);
    assert Restrict(nodes, done + [id]) == part[id := nodes[id]];
    var q := Queues(part, [], [], [], [], buckets, ids);
    RebuiltIsBuckets(f, q);
    AddedBuckets(f, q, id, nodes[id]);
  }

  lemma RebuiltIsBuckets(f: KeyHash, q: Queues)
    requires |q.buckets| == |q.ids| > 0
    requires forall b :: 0 <= b < |q.buckets| ==> Holds(q.buckets[b], InBucket(f, q.nodes, |q.buckets|, b))
    requires forall b :: 0 <= b < |q.ids| ==> Holds(q.ids[b], InIdBucket(q.nodes, |q.ids|, b))
    ensures Buckets(f, q) && IdBuckets(q)
  {
  }

  lemma RebuiltLast(f: KeyHash, q: Queues, buckets: seq<seq<Id>>, ids: seq<seq<Id>>)
    requires Linked(f, q) && Rebuilt(f, q.nodes, q.main, buckets, ids)
    ensures Linked(f, q.(buckets := buckets, ids := ids))
  {
    assert Restrict(q.nodes, q.main) == q.nodes;
    RebuiltIsBuckets(f, q.(buckets := buckets, ids := ids));
  }
}
