/**
 The held requests of a mux registry as they lie in memory (src/conn_mux.c): nodes threaded onto the
 main list, the expiry queue, the notify or the ready queue and two hash chains by the links they
 carry. Every method rewires links, heads and buckets; `q` is the value they stand for, and what a
 request being linked means is said of that value in module PendingQueues.
 */
module PendingStore {
  import opened Addr
  import opened Basics
  import opened PendingSpec
  import opened PendingQueues
  import opened PendingLinks

  // ---------- the link fields of all nodes ----------

  ghost function MainNext(at: Nodes): Links
    reads at.Values`next
  {
    map id | id in at :: at[id].next
  }

  ghost function MainPrevious(at: Nodes): Links
    reads at.Values`previous
  {
    map id | id in at :: at[id].previous
  }

  ghost function Main(at: Nodes): Pair
    reads at.Values`next, at.Values`previous
  {
    Pair(MainNext(at), MainPrevious(at))
  }

  ghost function ExpiryNext(at: Nodes): Links
    reads at.Values`expiryNext
  {
    map id | id in at :: at[id].expiryNext
  }

  ghost function ExpiryPrevious(at: Nodes): Links
    reads at.Values`expiryPrevious
  {
    map id | id in at :: at[id].expiryPrevious
  }

  ghost function Expiry(at: Nodes): Pair
    reads at.Values`expiryNext, at.Values`expiryPrevious
  {
    Pair(ExpiryNext(at), ExpiryPrevious(at))
  }

  ghost function WorkNext(at: Nodes): Links
    reads at.Values`workNext
  {
    map id | id in at :: at[id].workNext
  }

  ghost function WorkPrevious(at: Nodes): Links
    reads at.Values`workPrevious
  {
    map id | id in at :: at[id].workPrevious
  }

  ghost function Work(at: Nodes): Pair
    reads at.Values`workNext, at.Values`workPrevious
  {
    Pair(WorkNext(at), WorkPrevious(at))
  }

  ghost function HashNext(at: Nodes): Links
    reads at.Values`hashNext
  {
    map id | id in at :: at[id].hashNext
  }

  ghost function IdNext(at: Nodes): Links
    reads at.Values`idNext
  {
    map id | id in at :: at[id].idNext
  }

  class Store {
    const hash: KeyHash
    var head: Node?
    var tail: Node?
    var expiryHead: Node?
    var expiryTail: Node?
    var notifyHead: Node?
    var notifyTail: Node?
    var readyHead: Node?
    var readyTail: Node?
    var buckets: array<Node?>
    var ids: array<Node?>
    var count: nat
    ghost var at: Nodes
    ghost var q: Queues

    ghost function Repr(): set<object>
      reads this
    {
      {this, buckets, ids} + at.Values
    }

    /** The nodes carry the requests. */
    ghost predicate Stored(at: Nodes, nodes: map<Id, Request>)
      reads at.Values`data, at.Values`notified, at.Values`verified, at.Values`password, at.Values`agent
    {
      && Named(at) && at.Keys == nodes.Keys
      && forall id :: id in at ==> at[id].Value() == nodes[id]
    }

    // Each structure is threaded through the nodes `at` in the order of these ids.

    ghost predicate MainWired(at: Nodes, main: seq<Id>)
      reads this`head, this`tail, at.Values`next, at.Values`previous
    {
      Shared(at, main, [], Main(at), Ends(head, tail), NO_ENDS)
    }

    ghost predicate ExpiryWired(at: Nodes, expiry: seq<Id>)
      reads this`expiryHead, this`expiryTail, at.Values`expiryNext, at.Values`expiryPrevious
    {
      Shared(at, expiry, [], Expiry(at), Ends(expiryHead, expiryTail), NO_ENDS)
    }

    /** The two work queues share their links. */
    ghost predicate WorkWired(at: Nodes, notify: seq<Id>, ready: seq<Id>)
      reads this`notifyHead, this`notifyTail, this`readyHead, this`readyTail
      reads at.Values`workNext, at.Values`workPrevious
    {
      Shared(at, notify, ready, Work(at), Ends(notifyHead, notifyTail), Ends(readyHead, readyTail))
    }

    ghost predicate BucketsWired(at: Nodes, chains: seq<seq<Id>>)
      reads this`buckets, buckets, at.Values`hashNext
    {
      buckets.Length == |chains| && Chains(at, chains, HashNext(at), buckets[..])
    }

    ghost predicate IdsWired(at: Nodes, chains: seq<seq<Id>>)
      reads this`ids, ids, at.Values`idNext
    {
      ids.Length == |chains| && Chains(at, chains, IdNext(at), ids[..])
    }

    /** Heads, buckets and links thread the nodes as the value says. */
    ghost predicate Wired(at: Nodes, q: Queues)
      reads this`head, this`tail, this`expiryHead, this`expiryTail, this`buckets, buckets, this`ids, ids
      reads this`notifyHead, this`notifyTail, this`readyHead, this`readyTail
      reads at.Values`next, at.Values`previous, at.Values`expiryNext, at.Values`expiryPrevious
      reads at.Values`workNext, at.Values`workPrevious, at.Values`hashNext, at.Values`idNext
    {
      && MainWired(at, q.main) && ExpiryWired(at, q.expiry) && WorkWired(at, q.notify, q.ready)
      && BucketsWired(at, q.buckets) && IdsWired(at, q.ids)
    }

    ghost predicate Valid()
      reads this, Repr()
    {
      buckets != ids && Stored(at, q.nodes) && Wired(at, q) && Linked(hash, q) && count == |q.nodes|
    }

    constructor (hash: KeyHash)
      ensures Valid() && fresh(Repr()) && this.hash == hash && q == EMPTY
    {
      this.hash := hash;
      head, tail, expiryHead, expiryTail := null, null, null, null;
      notifyHead, notifyTail, readyHead, readyTail := null, null, null, null;
      buckets := new Node?[0];
      ids := new Node?[0];
      count, at, q := 0, map[], EMPTY;
      new;
      hide Valid;
      Nothing();
    }

    lemma Nothing()
      requires buckets != ids && buckets.Length == 0 && ids.Length == 0 && count == 0 && at == map[] && q == EMPTY
      requires head == null && tail == null && expiryHead == null && expiryTail == null
      requires notifyHead == null && notifyTail == null && readyHead == null && readyTail == null
      ensures Valid()
    {
      hide Linked;
      NothingLinked(hash);
      NothingWired();
    }

    lemma NothingWired()
      requires buckets.Length == 0 && ids.Length == 0
      requires head == null && tail == null && expiryHead == null && expiryTail == null
      requires notifyHead == null && notifyTail == null && readyHead == null && readyTail == null
      ensures Wired(map[], EMPTY)
    {
    }

    // ---------- the pieces of rewiring ----------

    // One link of one node.

    method SetNext(n: Node, to: Node?)
      requires Named(at) && Home(at, n)
      modifies at.Values`next
      ensures MainNext(at) == old(MainNext(at))[n.id := to]
    {
      n.next := to;
    }

    method SetPrevious(n: Node, to: Node?)
      requires Named(at) && Home(at, n)
      modifies at.Values`previous
      ensures MainPrevious(at) == old(MainPrevious(at))[n.id := to]
    {
      n.previous := to;
    }

    method SetExpiryNext(n: Node, to: Node?)
      requires Named(at) && Home(at, n)
      modifies at.Values`expiryNext
      ensures ExpiryNext(at) == old(ExpiryNext(at))[n.id := to]
    {
      n.expiryNext := to;
    }

    method SetExpiryPrevious(n: Node, to: Node?)
      requires Named(at) && Home(at, n)
      modifies at.Values`expiryPrevious
      ensures ExpiryPrevious(at) == old(ExpiryPrevious(at))[n.id := to]
    {
      n.expiryPrevious := to;
    }

    method SetWorkNext(n: Node, to: Node?)
      requires Named(at) && Home(at, n)
      modifies at.Values`workNext
      ensures WorkNext(at) == old(WorkNext(at))[n.id := to]
    {
      n.workNext := to;
    }

    method SetWorkPrevious(n: Node, to: Node?)
      requires Named(at) && Home(at, n)
      modifies at.Values`workPrevious
      ensures WorkPrevious(at) == old(WorkPrevious(at))[n.id := to]
    {
      n.workPrevious := to;
    }

    /** The neighbours of a node on the main list, or the ends of the list, are led past it. */
    method BypassMain(head: Node?, tail: Node?, n: Node) returns (head': Node?, tail': Node?)
      requires Named(at) && Home(at, n) && Inside(at, n.previous) && Inside(at, n.next)
      modifies at.Values`next, at.Values`previous
      ensures Main(at) == Bypassed(old(Main(at)), n)
      ensures Ends(head', tail') == BypassedEnds(old(Main(at)), Ends(head, tail), n)
    {
      var before, after := n.previous, n.next;
      head', tail' := head, tail;
      if before != null {
        SetNext(before, after);
      } else {
        head' := after;
      }
      if after != null {
        SetPrevious(after, before);
      } else {
        tail' := before;
      }
    }

    /** The same on the expiry queue. */
    method BypassExpiry(head: Node?, tail: Node?, n: Node) returns (head': Node?, tail': Node?)
      requires Named(at) && Home(at, n) && Inside(at, n.expiryPrevious) && Inside(at, n.expiryNext)
      modifies at.Values`expiryNext, at.Values`expiryPrevious
      ensures Expiry(at) == Bypassed(old(Expiry(at)), n)
      ensures Ends(head', tail') == BypassedEnds(old(Expiry(at)), Ends(head, tail), n)
    {
      var before, after := n.expiryPrevious, n.expiryNext;
      head', tail' := head, tail;
      if before != null {
        SetExpiryNext(before, after);
      } else {
        head' := after;
      }
      if after != null {
        SetExpiryPrevious(after, before);
      } else {
        tail' := before;
      }
    }

    /** The same on the notify or the ready queue, whichever has these ends. */
    method BypassWork(head: Node?, tail: Node?, n: Node) returns (head': Node?, tail': Node?)
      requires Named(at) && Home(at, n) && Inside(at, n.workPrevious) && Inside(at, n.workNext)
      modifies at.Values`workNext, at.Values`workPrevious
      ensures Work(at) == Bypassed(old(Work(at)), n)
      ensures Ends(head', tail') == BypassedEnds(old(Work(at)), Ends(head, tail), n)
    {
      var before, after := n.workPrevious, n.workNext;
      head', tail' := head, tail;
      if before != null {
        SetWorkNext(before, after);
      } else {
        head' := after;
      }
      if after != null {
        SetWorkPrevious(after, before);
      } else {
        tail' := before;
      }
    }

    /** A node is linked in at the end of the main list. */
    method AppendMain(head: Node?, tail: Node?, n: Node) returns (head': Node?, tail': Node?)
      requires Named(at) && Home(at, n) && Inside(at, tail)
      modifies at.Values`next, at.Values`previous
      ensures Main(at) == Appended(old(Main(at)), Ends(head, tail), n)
      ensures Ends(head', tail') == AppendedEnds(Ends(head, tail), n)
    {
      head', tail' := head, n;
      SetPrevious(n, tail);
      if tail != null {
        SetNext(tail, n);
      } else {
        head' := n;
      }
    }

    /** The same on the expiry queue. */
    method AppendExpiry(head: Node?, tail: Node?, n: Node) returns (head': Node?, tail': Node?)
      requires Named(at) && Home(at, n) && Inside(at, tail)
      modifies at.Values`expiryNext, at.Values`expiryPrevious
      ensures Expiry(at) == Appended(old(Expiry(at)), Ends(head, tail), n)
      ensures Ends(head', tail') == AppendedEnds(Ends(head, tail), n)
    {
      head', tail' := head, n;
      SetExpiryPrevious(n, tail);
      if tail != null {
        SetExpiryNext(tail, n);
      } else {
        head' := n;
      }
    }

    /** append_work, on the queue with these ends. Its forward link is not written. */
    method AppendWork(head: Node?, tail: Node?, n: Node) returns (head': Node?, tail': Node?)
      requires Named(at) && Home(at, n) && Inside(at, tail)
      modifies at.Values`workNext, at.Values`workPrevious
      ensures Work(at) == Appended(old(Work(at)), Ends(head, tail), n)
      ensures Ends(head', tail') == AppendedEnds(Ends(head, tail), n)
    {
      head', tail' := head, n;
      SetWorkPrevious(n, tail);
      if tail != null {
        SetWorkNext(tail, n);
      } else {
        head' := n;
      }
    }

    method ClearExpiry(n: Node)
      requires Named(at) && Home(at, n)
      modifies at.Values`expiryNext, at.Values`expiryPrevious
      ensures Expiry(at) == Cleared(old(Expiry(at)), n)
    {
      SetExpiryNext(n, null);
      SetExpiryPrevious(n, null);
    }

    method ClearWork(n: Node)
      requires Named(at) && Home(at, n)
      modifies at.Values`workNext, at.Values`workPrevious
      ensures Work(at) == Cleared(old(Work(at)), n)
    {
      SetWorkNext(n, null);
      SetWorkPrevious(n, null);
    }

    method SetHashNext(n: Node, to: Node?)
      requires Named(at) && Home(at, n)
      modifies at.Values`hashNext
      ensures HashNext(at) == old(HashNext(at))[n.id := to]
    {
      n.hashNext := to;
    }

    method SetIdNext(n: Node, to: Node?)
      requires Named(at) && Home(at, n)
      modifies at.Values`idNext
      ensures IdNext(at) == old(IdNext(at))[n.id := to]
    {
      n.idNext := to;
    }

    // ---------- leaving one structure ----------

    /** The first walk of remove_pending: the link that leads to the node, from its bucket or from the node before it, is led past it. */
    method LeaveBucket(n: Node)
      requires Named(at) && Home(at, n) && Apart(q.buckets) && BucketsWired(at, q.buckets) && |q.buckets| > 0
      requires n.id in q.buckets[KeyOf(hash, |q.buckets|, n.Value())]
      modifies buckets, at.Values`hashNext
      ensures var b := KeyOf(hash, |q.buckets|, n.Value());
              BucketsWired(at, q.buckets[b := Without(q.buckets[b], {n.id})])
    {
      hide Chains, Without;
      var b := hash(n.src, n.local, n.remote) % buckets.Length;
      ghost var chain, links, heads := q.buckets[b], HashNext(at), buckets[..];
      ghost var k :| 0 <= k < |chain| && chain[k] == n.id;
      ChainAt(at, q.buckets, links, heads, b);
      ChainsOut(at, q.buckets, links, heads, b, k);
      if buckets[b] == n {
        buckets[b] := n.hashNext;
      } else {
        var link := buckets[b];
        ghost var i := 0;
        while link.hashNext != n
          invariant 0 <= i < k && link != null && link == at[chain[i]]
          decreases k - i
        {
          link := link.hashNext;
          i := i + 1;
        }
        SetHashNext(link, n.hashNext);
      }
      assert HashNext(at) == CutNext(chain, links, k);
      assert buckets[..] == heads[b := CutHead(chain, links, heads[b], k)];
    }

    /** The second walk, over the chain of its id. */
    method LeaveIdBucket(n: Node)
      requires Named(at) && Home(at, n) && Apart(q.ids) && IdsWired(at, q.ids) && |q.ids| > 0
      requires n.id in q.ids[n.id % |q.ids|]
      modifies ids, at.Values`idNext
      ensures var b := n.id % |q.ids|;
              IdsWired(at, q.ids[b := Without(q.ids[b], {n.id})])
    {
      hide Chains, Without;
      var b := n.id % ids.Length;
      ghost var chain, links, heads := q.ids[b], IdNext(at), ids[..];
      ghost var k :| 0 <= k < |chain| && chain[k] == n.id;
      ChainAt(at, q.ids, links, heads, b);
      ChainsOut(at, q.ids, links, heads, b, k);
      if ids[b] == n {
        ids[b] := n.idNext;
      } else {
        var link := ids[b];
        ghost var i := 0;
        while link.idNext != n
          invariant 0 <= i < k && link != null && link == at[chain[i]]
          decreases k - i
        {
          link := link.idNext;
          i := i + 1;
        }
        SetIdNext(link, n.idNext);
      }
      assert IdNext(at) == CutNext(chain, links, k);
      assert ids[..] == heads[b := CutHead(chain, links, heads[b], k)];
    }

    /** remove_expiry. */
    method RemoveExpiry(head: Node?, tail: Node?, n: Node, ghost a: seq<Id>, ghost b: seq<Id>, ghost eb: Ends)
      returns (head': Node?, tail': Node?)
      requires Named(at) && Home(at, n) && NoDup(a) && n.id in a && Shared(at, a, b, Expiry(at), Ends(head, tail), eb)
      modifies at.Values`expiryNext, at.Values`expiryPrevious
      ensures Shared(at, Without(a, {n.id}), b, Expiry(at), Ends(head', tail'), eb)
      ensures n.expiryNext == null && n.expiryPrevious == null
    {
      hide Shared, Bypassed, BypassedEnds, Without;
      SharedInside(at, a, b, Expiry(at), Ends(head, tail), eb, n);
      SharedOut(at, a, b, Expiry(at), Ends(head, tail), eb, n);
      head', tail' := BypassExpiry(head, tail, n);
      ClearExpiry(n);
    }

    /** remove_work, on the queue `a` of the two that share these links: the other is not disturbed. */
    method RemoveWork(head: Node?, tail: Node?, n: Node, ghost a: seq<Id>, ghost b: seq<Id>, ghost eb: Ends)
      returns (head': Node?, tail': Node?)
      requires Named(at) && Home(at, n) && NoDup(a) && n.id in a && Shared(at, a, b, Work(at), Ends(head, tail), eb)
      modifies at.Values`workNext, at.Values`workPrevious
      ensures Shared(at, Without(a, {n.id}), b, Work(at), Ends(head', tail'), eb)
      ensures n.workNext == null && n.workPrevious == null
    {
      hide Shared, Bypassed, BypassedEnds, Without;
      SharedInside(at, a, b, Work(at), Ends(head, tail), eb, n);
      SharedOut(at, a, b, Work(at), Ends(head, tail), eb, n);
      head', tail' := BypassWork(head, tail, n);
      ClearWork(n);
    }

    // ---------- removal ----------

    method LeaveReady(n: Node)
      requires Named(at) && Home(at, n) && NoDup(q.ready) && n.id in q.ready && WorkWired(at, q.notify, q.ready)
      modifies this`readyHead, this`readyTail, at.Values`workNext, at.Values`workPrevious
      ensures WorkWired(at, q.notify, Without(q.ready, {n.id}))
    {
      hide Shared, Without, Work;
      SharedSwap(at, q.notify, q.ready, Work(at), Ends(notifyHead, notifyTail), Ends(readyHead, readyTail));
      readyHead, readyTail := RemoveWork(readyHead, readyTail, n, q.ready, q.notify, Ends(notifyHead, notifyTail));
      SharedSwap(at, Without(q.ready, {n.id}), q.notify, Work(at), Ends(readyHead, readyTail), Ends(notifyHead, notifyTail));
    }

    method LeaveNotify(n: Node)
      requires Named(at) && Home(at, n) && NoDup(q.notify) && n.id in q.notify && WorkWired(at, q.notify, q.ready)
      modifies this`notifyHead, this`notifyTail, at.Values`workNext, at.Values`workPrevious
      ensures WorkWired(at, Without(q.notify, {n.id}), q.ready)
    {
      hide Shared, Without, Work;
      notifyHead, notifyTail := RemoveWork(notifyHead, notifyTail, n, q.notify, q.ready, Ends(readyHead, readyTail));
    }

    method LeaveExpiry(n: Node)
      requires Named(at) && Home(at, n) && NoDup(q.expiry) && n.id in q.expiry && ExpiryWired(at, q.expiry)
      modifies this`expiryHead, this`expiryTail, at.Values`expiryNext, at.Values`expiryPrevious
      ensures ExpiryWired(at, Without(q.expiry, {n.id}))
    {
      hide Shared, Without, Expiry;
      expiryHead, expiryTail := RemoveExpiry(expiryHead, expiryTail, n, q.expiry, [], NO_ENDS);
    }

    /** The queues of its stage lose the node. */
    method LeaveQueues(n: Node)
      requires Named(at) && Home(at, n) && Linked(hash, q) && n.id in q.nodes && n.Value() == q.nodes[n.id]
      requires ExpiryWired(at, q.expiry) && WorkWired(at, q.notify, q.ready)
      modifies this`expiryHead, this`expiryTail, this`notifyHead, this`notifyTail, this`readyHead, this`readyTail
      modifies at.Values`expiryNext, at.Values`expiryPrevious, at.Values`workNext, at.Values`workPrevious
      ensures |q.buckets| == |q.ids| > 0
      ensures ExpiryWired(at, Removed(hash, q, n.id).expiry)
      ensures WorkWired(at, Removed(hash, q, n.id).notify, Removed(hash, q, n.id).ready)
    {
      hide Linked, Without, ExpiryWired, WorkWired;
      RemovedLinked(hash, q, n.id);
      InQueues(hash, q, n.id);
      if n.agent.Some? {
        LeaveReady(n);
      } else {
        LeaveExpiry(n);
        if !n.notified {
          LeaveNotify(n);
        }
      }
    }

    /** The last part of remove_pending. The links of the node itself are left as they are: nothing
        but their being stale keeps the rest from being a main list without it. */
    method LeaveMain(n: Node)
      requires Named(at) && Home(at, n) && NoDup(q.main) && n.id in q.main && MainWired(at, q.main)
      modifies this`head, this`tail, at.Values`next, at.Values`previous
      ensures Shared(at, Without(q.main, {n.id}), [], Cleared(Main(at), n), Ends(head, tail), NO_ENDS)
    {
      hide Shared, Bypassed, BypassedEnds, Cleared, Main, Without;
      MainLinksOf(n);
      SharedInside(at, q.main, [], Main(at), Ends(head, tail), NO_ENDS, n);
      SharedOut(at, q.main, [], Main(at), Ends(head, tail), NO_ENDS, n);
      head, tail := BypassMain(head, tail, n);
    }

    lemma WorkLinksOf(n: Node)
      requires Home(at, n)
      ensures n.id in Work(at).next && Work(at).next[n.id] == n.workNext
    {
    }

    lemma MainLinksOf(n: Node)
      requires Home(at, n)
      ensures n.id in Main(at).next && Main(at).next[n.id] == n.next
      ensures n.id in Main(at).previous && Main(at).previous[n.id] == n.previous
    {
    }

    method LeaveChains(n: Node)
      requires Named(at) && Home(at, n) && Linked(hash, q) && n.id in q.nodes && n.Value() == q.nodes[n.id]
      requires buckets != ids && BucketsWired(at, q.buckets) && IdsWired(at, q.ids)
      modifies buckets, ids, at.Values`hashNext, at.Values`idNext
      ensures |q.buckets| == |q.ids| > 0
      ensures BucketsWired(at, Removed(hash, q, n.id).buckets) && IdsWired(at, Removed(hash, q, n.id).ids)
    {
      hide Linked, Without, BucketsWired, IdsWired, Apart;
      RemovedLinked(hash, q, n.id);
      ChainsApart(hash, q);
      LeaveBucket(n);
      LeaveIdBucket(n);
    }

    /** The structures are those of `d`, but for the stale links of one node that is in none of them. */
    ghost predicate WiredBut(n: Node, d: Queues)
      reads this`at
      reads this`head, this`tail, this`expiryHead, this`expiryTail, this`buckets, buckets, this`ids, ids
      reads this`notifyHead, this`notifyTail, this`readyHead, this`readyTail
      reads at.Values`next, at.Values`previous, at.Values`expiryNext, at.Values`expiryPrevious
      reads at.Values`workNext, at.Values`workPrevious, at.Values`hashNext, at.Values`idNext
    {
      && Shared(at, d.main, [], Cleared(Main(at), n), Ends(head, tail), NO_ENDS)
      && ExpiryWired(at, d.expiry) && WorkWired(at, d.notify, d.ready)
      && BucketsWired(at, d.buckets) && IdsWired(at, d.ids)
    }

    /** The rewiring of remove_pending. */
    method Unlink(n: Node)
      requires Named(at) && Home(at, n) && Linked(hash, q) && n.id in q.nodes && n.Value() == q.nodes[n.id]
      requires buckets != ids && Wired(at, q)
      modifies buckets, ids, at.Values`hashNext, at.Values`idNext
      modifies this`expiryHead, this`expiryTail, this`notifyHead, this`notifyTail, this`readyHead, this`readyTail
      modifies at.Values`expiryNext, at.Values`expiryPrevious, at.Values`workNext, at.Values`workPrevious
      modifies this`head, this`tail, at.Values`next, at.Values`previous
      ensures |q.buckets| == |q.ids| > 0 && WiredBut(n, Removed(hash, q, n.id))
    {
      hide Linked, Without, MainWired, ExpiryWired, WorkWired, BucketsWired, IdsWired, Shared, Cleared, Main, NoDup, Removed;
      RemovedMain(hash, q, n.id);
      InQueues(hash, q, n.id);
      LeaveChains(n);
      LeaveQueues(n);
      LeaveMain(n);
    }

    /** remove_pending: the node is out of every structure it was in, every other node is where it was,
        and what the node held of the password and the packet is wiped. */
    method RemovePending(n: Node)
      requires Valid() && Home(at, n)
      modifies Repr()
      ensures Valid() && n.id in old(q).nodes && |old(q).buckets| == |old(q).ids| > 0
      ensures q == Removed(hash, old(q), n.id) && at == old(at) - {n.id}
      ensures buckets == old(buckets) && ids == old(ids) && OffLists(n) && OffChains(n)
      ensures n.password == "" && forall i :: 0 <= i < |n.data| ==> n.data[i] == 0
    {
      hide Linked, Without, Wired, WiredBut, Stored, Removed, OffLists, OffChains;
      StoredIs(n);
      RemovedLinked(hash, q, n.id);
      Unlink(n);
      Free(n);
      OnlyHeldIsReached(n);
    }

    /** The end of remove_pending. */
    method Free(n: Node)
      requires Home(at, n) && Stored(at, q.nodes) && Linked(hash, q) && n.id in q.nodes && count == |q.nodes|
      requires |q.buckets| == |q.ids| > 0 && WiredBut(n, Removed(hash, q, n.id))
      modifies this`count, this`at, this`q, n`password, n`data
      ensures q == Removed(hash, old(q), n.id) && at == old(at) - {n.id} && count == |q.nodes|
      ensures Stored(at, q.nodes) && Wired(at, q)
      ensures n.password == "" && forall i :: 0 <= i < |n.data| ==> n.data[i] == 0
    {
      hide Linked, Without, Wired, WiredBut, Stored;
      RemovedLinked(hash, q, n.id);
      Forgotten(n);
      count := count - 1;
      Detach(n);
      n.password := "";
      n.data := seq(|n.data|, _ => 0);
    }

    ghost method Detach(n: Node)
      requires Home(at, n) && Stored(at, q.nodes) && n.id in q.nodes && |q.buckets| == |q.ids| > 0
      modifies this`at, this`q
      ensures q == Removed(hash, old(q), n.id) && at == old(at) - {n.id}
      ensures Stored(at, q.nodes) && n !in at.Values
    {
      hide Without;
      at, q := at - {n.id}, Removed(hash, q, n.id);
    }

    lemma StoredIs(n: Node)
      requires Stored(at, q.nodes) && Home(at, n)
      ensures Named(at) && n.id in q.nodes && n.Value() == q.nodes[n.id]
    {
    }

    lemma Forgotten(n: Node)
      requires Linked(hash, q) && n.id in q.nodes && |q.buckets| == |q.ids| > 0 && WiredBut(n, Removed(hash, q, n.id))
      ensures Wired(at - {n.id}, Removed(hash, q, n.id))
    {
      hide Linked, Without, MainWired, ExpiryWired, WorkWired, BucketsWired, IdsWired, Shared, Removed;
      var d := Removed(hash, q, n.id);
      OutOfQueues(hash, q, n.id);
      ForgetMain(n, d.main);
      ForgetExpiry(n.id, d.expiry);
      ForgetWork(n.id, d.notify, d.ready);
      ForgetBuckets(n.id, d.buckets);
      ForgetIds(n.id, d.ids);
    }

    // ---------- a node that is in no structure can be forgotten ----------

    lemma ForgetMain(n: Node, main: seq<Id>)
      requires Shared(at, main, [], Cleared(Main(at), n), Ends(head, tail), NO_ENDS) && n.id !in main
      ensures MainWired(at - {n.id}, main)
    {
      hide Shared;
      SharedForget(at, main, [], Cleared(Main(at), n), Ends(head, tail), NO_ENDS, n.id);
      MainMinus(n);
    }

    lemma MainMinus(n: Node)
      ensures Main(at - {n.id}) == Minus(Cleared(Main(at), n), n.id)
    {
      assert MainNext(at - {n.id}) == MainNext(at) - {n.id};
      assert MainPrevious(at - {n.id}) == MainPrevious(at) - {n.id};
      ClearedMinus(Main(at), n);
    }

    lemma ForgetExpiry(id: Id, expiry: seq<Id>)
      requires ExpiryWired(at, expiry) && id !in expiry
      ensures ExpiryWired(at - {id}, expiry)
    {
      hide Shared;
      SharedForget(at, expiry, [], Expiry(at), Ends(expiryHead, expiryTail), NO_ENDS, id);
      assert Expiry(at - {id}) == Minus(Expiry(at), id);
    }

    lemma ForgetWork(id: Id, notify: seq<Id>, ready: seq<Id>)
      requires WorkWired(at, notify, ready) && id !in notify && id !in ready
      ensures WorkWired(at - {id}, notify, ready)
    {
      hide Shared;
      SharedForget(at, notify, ready, Work(at), Ends(notifyHead, notifyTail), Ends(readyHead, readyTail), id);
      assert Work(at - {id}) == Minus(Work(at), id);
    }

    lemma ForgetBuckets(id: Id, chains: seq<seq<Id>>)
      requires BucketsWired(at, chains) && forall b :: 0 <= b < |chains| ==> id !in chains[b]
      ensures BucketsWired(at - {id}, chains)
    {
      hide Chains;
      ChainsForget(at, chains, HashNext(at), buckets[..], id);
      assert HashNext(at - {id}) == HashNext(at) - {id};
    }

    lemma ForgetIds(id: Id, chains: seq<seq<Id>>)
      requires IdsWired(at, chains) && forall b :: 0 <= b < |chains| ==> id !in chains[b]
      ensures IdsWired(at - {id}, chains)
    {
      hide Chains;
      ChainsForget(at, chains, IdNext(at), ids[..], id);
      assert IdNext(at - {id}) == IdNext(at) - {id};
    }

    // ---------- joining one structure ----------

    /** The node becomes the head of the chain of its source and fragments. */
    method JoinBucket(n: Node)
      requires Named(at) && Home(at, n) && BucketsWired(at, q.buckets) && |q.buckets| > 0
      requires forall c :: 0 <= c < |q.buckets| ==> n.id !in q.buckets[c]
      modifies buckets, at.Values`hashNext
      ensures var b := KeyOf(hash, |q.buckets|, n.Value());
              BucketsWired(at, q.buckets[b := [n.id] + q.buckets[b]])
    {
      hide Chains;
      var b := hash(n.src, n.local, n.remote) % buckets.Length;
      ghost var heads := buckets[..];
      ChainAt(at, q.buckets, HashNext(at), heads, b);
      ChainsIn(at, q.buckets, HashNext(at), heads, b, n);
      SetHashNext(n, buckets[b]);
      buckets[b] := n;
      assert buckets[..] == heads[b := n];
    }

    /** The node becomes the head of the chain of its id. */
    method JoinIdBucket(n: Node)
      requires Named(at) && Home(at, n) && IdsWired(at, q.ids) && |q.ids| > 0
      requires forall c :: 0 <= c < |q.ids| ==> n.id !in q.ids[c]
      modifies ids, at.Values`idNext
      ensures var b := n.id % |q.ids|;
              IdsWired(at, q.ids[b := [n.id] + q.ids[b]])
    {
      hide Chains;
      var b := n.id % ids.Length;
      ghost var heads := ids[..];
      ChainAt(at, q.ids, IdNext(at), heads, b);
      ChainsIn(at, q.ids, IdNext(at), heads, b, n);
      SetIdNext(n, ids[b]);
      ids[b] := n;
      assert ids[..] == heads[b := n];
    }

    /** The node becomes the last of the main list. */
    method JoinMain(n: Node)
      requires Named(at) && Home(at, n) && NoDup(q.main) && n.id !in q.main && MainWired(at, q.main)
      modifies this`head, this`tail, at.Values`next, at.Values`previous
      ensures MainWired(at, q.main + [n.id])
    {
      hide Shared, Appended, AppendedEnds, Main;
      SharedTail(at, q.main, [], Main(at), Ends(head, tail), NO_ENDS);
      SharedIn(at, q.main, [], Main(at), Ends(head, tail), NO_ENDS, n);
      head, tail := AppendMain(head, tail, n);
    }

    /** The node becomes the last of the expiry queue. */
    method JoinExpiry(n: Node)
      requires Named(at) && Home(at, n) && NoDup(q.expiry) && n.id !in q.expiry && ExpiryWired(at, q.expiry)
      modifies this`expiryHead, this`expiryTail, at.Values`expiryNext, at.Values`expiryPrevious
      ensures ExpiryWired(at, q.expiry + [n.id])
    {
      hide Shared, Appended, AppendedEnds, Expiry;
      SharedTail(at, q.expiry, [], Expiry(at), Ends(expiryHead, expiryTail), NO_ENDS);
      SharedIn(at, q.expiry, [], Expiry(at), Ends(expiryHead, expiryTail), NO_ENDS, n);
      expiryHead, expiryTail := AppendExpiry(expiryHead, expiryTail, n);
    }

    /** append_work on the notify queue. */
    method JoinNotify(n: Node)
      requires Named(at) && Home(at, n) && NoDup(q.notify) && n.id !in q.notify && n.id !in q.ready && WorkWired(at, q.notify, q.ready)
      modifies this`notifyHead, this`notifyTail, at.Values`workNext, at.Values`workPrevious
      ensures WorkWired(at, q.notify + [n.id], q.ready) && old(n.workNext) == null
    {
      hide Shared, Appended, AppendedEnds, Work;
      WorkLinksOf(n);
      SharedTail(at, q.notify, q.ready, Work(at), Ends(notifyHead, notifyTail), Ends(readyHead, readyTail));
      SharedIn(at, q.notify, q.ready, Work(at), Ends(notifyHead, notifyTail), Ends(readyHead, readyTail), n);
      notifyHead, notifyTail := AppendWork(notifyHead, notifyTail, n);
    }

    /** append_work on the ready queue, of a node that has left the notify queue with its links cleared. */
    method JoinReady(n: Node)
      requires Named(at) && Home(at, n) && NoDup(q.ready) && n.id !in q.ready && n.id !in q.notify && WorkWired(at, q.notify, q.ready)
      modifies this`readyHead, this`readyTail, at.Values`workNext, at.Values`workPrevious
      ensures WorkWired(at, q.notify, q.ready + [n.id]) && old(n.workNext) == null
    {
      hide Shared, Appended, AppendedEnds, Work;
      WorkLinksOf(n);
      SharedSwap(at, q.notify, q.ready, Work(at), Ends(notifyHead, notifyTail), Ends(readyHead, readyTail));
      SharedTail(at, q.ready, q.notify, Work(at), Ends(readyHead, readyTail), Ends(notifyHead, notifyTail));
      SharedIn(at, q.ready, q.notify, Work(at), Ends(readyHead, readyTail), Ends(notifyHead, notifyTail), n);
      readyHead, readyTail := AppendWork(readyHead, readyTail, n);
      SharedSwap(at, q.ready + [n.id], q.notify, Work(at), Ends(readyHead, readyTail), Ends(notifyHead, notifyTail));
    }

    // ---------- a new node can be entered ----------

    ghost predicate Unlinked(n: Node)
      reads n
    {
      && n.next == null && n.previous == null && n.expiryNext == null && n.expiryPrevious == null
      && n.workNext == null && n.workPrevious == null && n.hashNext == null && n.idNext == null
    }

    lemma EnterMain(n: Node)
      requires MainWired(at, q.main) && n.id !in at && Unlinked(n)
      ensures MainWired(at[n.id := n], q.main) && n.id !in q.main
    {
      hide Shared;
      SharedNew(at, q.main, [], Main(at), Ends(head, tail), NO_ENDS, n);
      assert Main(at[n.id := n]) == Plus(Main(at), n.id);
    }

    lemma EnterExpiry(n: Node)
      requires ExpiryWired(at, q.expiry) && n.id !in at && Unlinked(n)
      ensures ExpiryWired(at[n.id := n], q.expiry) && n.id !in q.expiry
    {
      hide Shared;
      SharedNew(at, q.expiry, [], Expiry(at), Ends(expiryHead, expiryTail), NO_ENDS, n);
      assert Expiry(at[n.id := n]) == Plus(Expiry(at), n.id);
    }

    lemma EnterWork(n: Node)
      requires WorkWired(at, q.notify, q.ready) && n.id !in at && Unlinked(n)
      ensures WorkWired(at[n.id := n], q.notify, q.ready) && n.id !in q.notify && n.id !in q.ready
    {
      hide Shared;
      SharedNew(at, q.notify, q.ready, Work(at), Ends(notifyHead, notifyTail), Ends(readyHead, readyTail), n);
      assert Work(at[n.id := n]) == Plus(Work(at), n.id);
    }

    lemma EnterBuckets(n: Node)
      requires BucketsWired(at, q.buckets) && n.id !in at && Unlinked(n)
      ensures BucketsWired(at[n.id := n], q.buckets) && forall c :: 0 <= c < |q.buckets| ==> n.id !in q.buckets[c]
    {
      hide Chains;
      ChainsNew(at, q.buckets, HashNext(at), buckets[..], n);
      assert HashNext(at[n.id := n]) == HashNext(at)[n.id := null];
    }

    lemma EnterIds(n: Node)
      requires IdsWired(at, q.ids) && n.id !in at && Unlinked(n)
      ensures IdsWired(at[n.id := n], q.ids) && forall c :: 0 <= c < |q.ids| ==> n.id !in q.ids[c]
    {
      hide Chains;
      ChainsNew(at, q.ids, IdNext(at), ids[..], n);
      assert IdNext(at[n.id := n]) == IdNext(at)[n.id := null];
    }

    /** The node is in none of the structures, and known to be so. */
    ghost predicate Outside(id: Id)
      reads this`q
    {
      && id !in q.main && id !in q.expiry && id !in q.notify && id !in q.ready
      && (forall c :: 0 <= c < |q.buckets| ==> id !in q.buckets[c])
      && (forall c :: 0 <= c < |q.ids| ==> id !in q.ids[c])
    }

    lemma Enter(n: Node)
      requires Wired(at, q) && n.id !in at && Unlinked(n)
      ensures Wired(at[n.id := n], q) && Outside(n.id)
    {
      hide MainWired, ExpiryWired, WorkWired, BucketsWired, IdsWired;
      EnterMain(n);
      EnterExpiry(n);
      EnterWork(n);
      EnterBuckets(n);
      EnterIds(n);
    }

    // ---------- admission ----------

    method LinkChains(n: Node)
      requires Named(at) && Home(at, n) && BucketsWired(at, q.buckets) && IdsWired(at, q.ids) && Outside(n.id)
      requires buckets != ids && |q.buckets| == |q.ids| > 0
      modifies buckets, ids, at.Values`hashNext, at.Values`idNext
      ensures var d := Added(hash, q, n.id, n.Value()); BucketsWired(at, d.buckets) && IdsWired(at, d.ids)
    {
      hide BucketsWired, IdsWired;
      JoinBucket(n);
      JoinIdBucket(n);
    }

    method LinkLists(n: Node)
      requires Named(at) && Home(at, n) && Linked(hash, q) && Outside(n.id)
      requires MainWired(at, q.main) && ExpiryWired(at, q.expiry) && WorkWired(at, q.notify, q.ready)
      modifies this`expiryHead, this`expiryTail, this`notifyHead, this`notifyTail
      modifies at.Values`expiryNext, at.Values`expiryPrevious, at.Values`workNext, at.Values`workPrevious
      modifies this`head, this`tail, at.Values`next, at.Values`previous
      ensures MainWired(at, q.main + [n.id]) && ExpiryWired(at, q.expiry + [n.id])
      ensures WorkWired(at, q.notify + [n.id], q.ready)
    {
      hide Linked, MainWired, ExpiryWired, WorkWired, NoDup;
      NoDups(hash, q);
      JoinMain(n);
      JoinExpiry(n);
      JoinNotify(n);
    }

    /** The rewiring of defer_request. */
    method Link(n: Node)
      requires Named(at) && Home(at, n) && Linked(hash, q) && Wired(at, q) && Outside(n.id)
      requires buckets != ids && |q.buckets| == |q.ids| > 0
      modifies buckets, ids, at.Values`hashNext, at.Values`idNext
      modifies this`expiryHead, this`expiryTail, this`notifyHead, this`notifyTail
      modifies at.Values`expiryNext, at.Values`expiryPrevious, at.Values`workNext, at.Values`workPrevious
      modifies this`head, this`tail, at.Values`next, at.Values`previous
      ensures Wired(at, Added(hash, q, n.id, n.Value()))
    {
      hide Linked, Outside, MainWired, ExpiryWired, WorkWired, BucketsWired, IdsWired;
      LinkChains(n);
      LinkLists(n);
    }

    /** The second half of defer_request, for a zeroed node that has been filled in. */
    method Add(n: Node)
      requires Valid() && |q.buckets| > 0 && (forall id :: id in q.nodes ==> id < n.id)
      requires Unlinked(n) && !n.notified && !n.verified && n.agent.None?
      modifies Repr(), n
      ensures Valid() && |old(q).buckets| == |old(q).ids| > 0
      ensures q == Added(hash, old(q), n.id, n.Value()) && at == old(at)[n.id := n] && n.Value() == old(n.Value())
      ensures buckets == old(buckets) && ids == old(ids)
    {
      hide Valid, Entering, Added, Unlinked;
      CanAdd(n);
      at, count := at[n.id := n], count + 1;
      LinkIn(n);
    }

    /** The node belongs to the registry and is about to be linked. */
    ghost predicate Entering(at: Nodes, count: nat, n: Node)
      reads this`q, this`head, this`tail, this`expiryHead, this`expiryTail, this`buckets, buckets, this`ids, ids
      reads this`notifyHead, this`notifyTail, this`readyHead, this`readyTail, at.Values, n
    {
      && buckets != ids && |q.buckets| == |q.ids| > 0 && Named(at) && Home(at, n)
      && Stored(at, q.nodes[n.id := n.Value()]) && Wired(at, q) && Outside(n.id) && Linked(hash, q)
      && var d := Added(hash, q, n.id, n.Value());
      && Linked(hash, d) && |d.nodes| == count
    }

    lemma CanAdd(n: Node)
      requires Valid() && |q.buckets| > 0 && (forall id :: id in q.nodes ==> id < n.id)
      requires Unlinked(n) && !n.notified && !n.verified && n.agent.None?
      ensures |q.buckets| == |q.ids| && Entering(at[n.id := n], count + 1, n)
    {
      hide Linked, Wired, Stored, Outside, Unlinked;
      StoredKeys();
      AddedLinked(hash, q, n.id, n.Value());
      Enter(n);
      StoredNew(n);
    }

    method LinkIn(n: Node)
      requires Entering(at, count, n)
      modifies this`q, buckets, ids, at.Values`hashNext, at.Values`idNext
      modifies this`expiryHead, this`expiryTail, this`notifyHead, this`notifyTail
      modifies at.Values`expiryNext, at.Values`expiryPrevious, at.Values`workNext, at.Values`workPrevious
      modifies this`head, this`tail, at.Values`next, at.Values`previous
      ensures |old(q).buckets| == |old(q).ids| > 0 && q == Added(hash, old(q), n.id, n.Value()) && Valid()
    {
      hide Linked, Wired, Stored, Outside;
      Link(n);
      q := Added(hash, q, n.id, n.Value());
    }

    lemma StoredNew(n: Node)
      requires Stored(at, q.nodes) && n.id !in at
      ensures Stored(at[n.id := n], q.nodes[n.id := n.Value()]) && Named(at[n.id := n])
    {
    }

    lemma HomeValue(n: Node)
      requires Valid() && Home(at, n)
      ensures Named(at) && n.id in q.nodes && n.Value() == q.nodes[n.id]
    {
      hide Linked, Wired;
    }

    lemma IsLinked()
      requires Valid()
      ensures Linked(hash, q) && count == |q.nodes|
    {
    }

    lemma WiredFor(d: Queues)
      requires Wired(at, q) && d == q.(nodes := d.nodes)
      ensures Wired(at, d)
    {
      hide MainWired, ExpiryWired, WorkWired, BucketsWired, IdsWired;
    }

    lemma StoredKeys()
      requires Stored(at, q.nodes)
      ensures at.Keys == q.nodes.Keys && forall id :: id in q.nodes <==> id in at
    {
    }

    // One field of one request.

    method SetNotified(n: Node)
      requires Stored(at, q.nodes) && Home(at, n) && n.id in q.nodes
      modifies n`notified
      ensures Stored(at, q.nodes[n.id := q.nodes[n.id].(notified := true)])
    {
      n.notified := true;
    }

    method SetAgent(n: Node, agent: Agent)
      requires Stored(at, q.nodes) && Home(at, n) && n.id in q.nodes
      modifies n`agent
      ensures Stored(at, q.nodes[n.id := q.nodes[n.id].(agent := Some(agent))])
    {
      n.agent := Some(agent);
    }

    method SetVerified(n: Node, password: string)
      requires Stored(at, q.nodes) && Home(at, n) && n.id in q.nodes
      modifies n`verified, n`password
      ensures Stored(at, q.nodes[n.id := q.nodes[n.id].(verified := true, password := password)])
    {
      n.verified, n.password := true, password;
    }

    // ---------- changes of stage ----------

    /** The announced half of dispatch_pending: the head of the notify queue leaves it, with the links it
        will need for the ready queue cleared. */
    method Announce(n: Node)
      requires Valid() && Home(at, n) && q.notify != [] && n.id == q.notify[0]
      modifies Repr()
      ensures Valid() && old(q).notify[0] in old(q).nodes && q == Announced(old(q))
      ensures at == old(at) && buckets == old(buckets) && ids == old(ids)
    {
      hide Linked, Wired, Without, Stored;
      StageLinked(hash, q);
      StoredIs(n);
      UnqueueNotify(n);
      SetNotified(n);
      q := Announced(q);
    }

    method UnqueueNotify(n: Node)
      requires Named(at) && Home(at, n) && Wired(at, q) && Linked(hash, q)
      requires q.notify != [] && n.id == q.notify[0] && n.id in q.nodes
      modifies this`notifyHead, this`notifyTail, at.Values`workNext, at.Values`workPrevious
      ensures q.notify[0] in q.nodes && Wired(at, Announced(q))
    {
      hide Linked, Without, MainWired, ExpiryWired, WorkWired, BucketsWired, IdsWired;
      NoDups(hash, q);
      WithoutAt(q.notify, 0);
      assert q.notify[..0] + q.notify[1..] == q.notify[1..];
      LeaveNotify(n);
    }

    /** The end of conn_mux_attach_request: out of the expiry queue and into the ready queue. */
    method HandOver(n: Node, agent: Agent)
      requires Valid() && Home(at, n) && n.agent.None? && n.verified
      modifies Repr()
      ensures Valid() && n.id in old(q).nodes && q == Handed(old(q), n.id, agent)
      ensures at == old(at) && buckets == old(buckets) && ids == old(ids)
    {
      hide Linked, Wired, Without, Stored;
      StageLinked(hash, q);
      StoredIs(n);
      Requeue(n, agent);
      SetAgent(n, agent);
      q := Handed(q, n.id, agent);
    }

    method Requeue(n: Node, agent: Agent)
      requires Named(at) && Home(at, n) && Wired(at, q) && Linked(hash, q) && n.id in q.nodes
      requires q.nodes[n.id].agent.None? && q.nodes[n.id].verified
      modifies this`expiryHead, this`expiryTail, at.Values`expiryNext, at.Values`expiryPrevious
      modifies this`readyHead, this`readyTail, at.Values`workNext, at.Values`workPrevious
      ensures Wired(at, Handed(q, n.id, agent))
    {
      hide Linked, Without, MainWired, ExpiryWired, WorkWired, BucketsWired, IdsWired;
      InQueues(hash, q, n.id);
      VerifiedIsTold(hash, q, n.id);
      LeaveExpiry(n);
      JoinReady(n);
    }

    /** conn_mux_verify_request keeps the password a request was verified with. */
    method Approve(n: Node, password: string)
      requires Valid() && Home(at, n) && n.notified
      modifies Repr()
      ensures Valid() && n.id in old(q).nodes && q == Checked(old(q), n.id, password)
      ensures at == old(at) && buckets == old(buckets) && ids == old(ids)
    {
      hide Linked, Wired, Stored;
      StageLinked(hash, q);
      StoredIs(n);
      WiredFor(Checked(q, n.id, password));
      SetVerified(n, password);
      q := Checked(q, n.id, password);
    }

    // ---------- walks ----------

    lemma Heads()
      requires Valid()
      ensures head == NodeAt(at, q.main, 0) && Inside(at, head)
      ensures if q.main == [] then head == null else head != null && head.id == q.main[0]
      ensures expiryHead == NodeAt(at, q.expiry, 0) && Inside(at, expiryHead)
      ensures if q.expiry == [] then expiryHead == null else expiryHead != null && expiryHead.id == q.expiry[0]
      ensures notifyHead == NodeAt(at, q.notify, 0) && Inside(at, notifyHead)
      ensures if q.notify == [] then notifyHead == null else notifyHead != null && notifyHead.id == q.notify[0]
      ensures readyHead == NodeAt(at, q.ready, 0) && Inside(at, readyHead)
      ensures if q.ready == [] then readyHead == null else readyHead != null && readyHead.id == q.ready[0]
    {
      hide Linked, Shared, BucketsWired, IdsWired, Main, Expiry, Work;
      SharedHead(at, q.main, [], Main(at), Ends(head, tail), NO_ENDS);
      SharedHead(at, q.expiry, [], Expiry(at), Ends(expiryHead, expiryTail), NO_ENDS);
      SharedHead(at, q.notify, q.ready, Work(at), Ends(notifyHead, notifyTail), Ends(readyHead, readyTail));
      SharedSwap(at, q.notify, q.ready, Work(at), Ends(notifyHead, notifyTail), Ends(readyHead, readyTail));
      SharedHead(at, q.ready, q.notify, Work(at), Ends(readyHead, readyTail), Ends(notifyHead, notifyTail));
    }

    lemma IdChain(b: nat)
      requires Valid() && b < |q.ids|
      ensures ids.Length == |q.ids| && Singly(at, q.ids[b], IdNext(at), ids[b])
    {
      hide Linked, Shared;
    }

    lemma BucketChain(b: nat)
      requires Valid() && b < |q.buckets|
      ensures buckets.Length == |q.buckets| && Singly(at, q.buckets[b], HashNext(at), buckets[b])
    {
      hide Linked, Shared;
    }

    lemma Lengths()
      requires Valid()
      ensures buckets.Length == |q.buckets| == ids.Length == |q.ids| && Named(at)
    {
      hide Shared, Chains;
    }

    /** pending_by_id. */
    method ById(id: Id) returns (n: Node?)
      requires Valid()
      ensures n != null <==> id in q.nodes
      ensures n != null ==> Home(at, n) && n.id == id && n.Value() == q.nodes[id]
    {
      hide Linked, Wired, Stored, Singly;
      Lengths();
      if ids.Length == 0 {
        NoBuckets(hash, q);
        return null;
      }
      IdChain(id % ids.Length);
      InChains(hash, q, id);
      n := WalkIds(id, q.ids[id % ids.Length]);
      if n != null {
        StoredIs(n);
      }
    }

    method WalkIds(id: Id, ghost chain: seq<Id>) returns (n: Node?)
      requires ids.Length > 0 && Named(at) && Singly(at, chain, IdNext(at), ids[id % ids.Length])
      ensures n != null <==> id in chain
      ensures n != null ==> Home(at, n) && n.id == id
    {
      ghost var i := 0;
      n := ids[id % ids.Length];
      while n != null
        invariant 0 <= i <= |chain| && n == NodeAt(at, chain, i) && forall k :: 0 <= k < i ==> chain[k] != id
        decreases |chain| - i
      {
        if n.id == id {
          return;
        }
        n, i := n.idNext, i + 1;
      }
    }

    /** The duplicate search of defer_request: one chain suffices, because equal keys hash equally. */
    method IsHeld(src: Endpoint, local: string, remote: string) returns (held: bool)
      requires Valid() && q.buckets != []
      ensures held <==> exists id :: id in q.nodes && SameAttempt(q.nodes[id], src, local, remote)
    {
      hide Linked, Wired, Singly;
      Lengths();
      var b := hash(src, local, remote) % buckets.Length;
      BucketChain(b);
      ghost var chain := q.buckets[b];
      ChainIsHeld(hash, q, b);
      held := WalkBucket(b, src, local, remote, chain);
      forall id | id in q.nodes && SameAttempt(q.nodes[id], src, local, remote) ensures id in chain {
        InChains(hash, q, id);
      }
    }

    method WalkBucket(b: nat, src: Endpoint, local: string, remote: string, ghost chain: seq<Id>) returns (held: bool)
      requires b < buckets.Length && Named(at) && Singly(at, chain, HashNext(at), buckets[b])
      ensures held <==> exists id :: id in chain && id in at && SameAttempt(at[id].Value(), src, local, remote)
    {
      ghost var i := 0;
      var n := buckets[b];
      while n != null
        invariant 0 <= i <= |chain| && n == NodeAt(at, chain, i)
        invariant forall k :: 0 <= k < i ==> chain[k] in at && !SameAttempt(at[chain[k]].Value(), src, local, remote)
        decreases |chain| - i
      {
        if n.src == src && n.local == local && n.remote == remote {
          assert chain[i] in chain && SameAttempt(at[chain[i]].Value(), src, local, remote);
          return true;
        }
        n, i := n.hashNext, i + 1;
      }
      return false;
    }

    /** The walk over the ready queue in conn_mux_attach_request. */
    method IsWaiting(src: Endpoint) returns (waiting: bool)
      requires Valid()
      ensures waiting <==> exists id :: id in q.ready && id in q.nodes && q.nodes[id].src == src
    {
      hide Linked, Wired;
      Heads();
      ghost var i := 0;
      var n := readyHead;
      while n != null
        invariant 0 <= i <= |q.ready| && n == NodeAt(at, q.ready, i)
        invariant forall k :: 0 <= k < i ==> q.ready[k] in q.nodes && q.nodes[q.ready[k]].src != src
        decreases |q.ready| - i
      {
        ReadyNext(i);
        assert q.ready[i] in q.ready && at[q.ready[i]].Value() == q.nodes[q.ready[i]];
        if n.src == src {
          return true;
        }
        n, i := n.workNext, i + 1;
      }
      ReadyEnd(i);
      return false;
    }

    lemma ReadyNext(i: nat)
      requires Valid() && i < |q.ready|
      ensures q.ready[i] in at && at[q.ready[i]].workNext == NodeAt(at, q.ready, i + 1)
    {
      hide Linked, Loose, Chains;
      assert Doubly(at, q.ready, Work(at), Ends(readyHead, readyTail));
    }

    lemma ReadyEnd(i: nat)
      requires Valid() && i <= |q.ready| && NodeAt(at, q.ready, i) == null
      ensures i == |q.ready|
    {
      hide Linked, Loose, Chains;
      assert Doubly(at, q.ready, Work(at), Ends(readyHead, readyTail));
    }

    lemma MainAfter(i: nat)
      requires MainWired(at, q.main) && i < |q.main|
      ensures q.main[i] in at && at[q.main[i]].next == NodeAt(at, q.main, i + 1)
    {
      hide Loose;
      assert Doubly(at, q.main, Main(at), Ends(head, tail));
    }

    lemma NextOnMain(i: nat)
      requires Valid() && i < |q.main|
      ensures q.main[i] in at && at[q.main[i]].id == q.main[i] && at[q.main[i]].next == NodeAt(at, q.main, i + 1)
    {
      hide Linked, MainWired, ExpiryWired, WorkWired, BucketsWired, IdsWired;
      MainAfter(i);
    }

    lemma MainStops(i: nat)
      requires Valid() && i <= |q.main|
      ensures NodeAt(at, q.main, i) == null <==> i == |q.main|
    {
      hide Linked, MainWired, ExpiryWired, WorkWired, BucketsWired, IdsWired;
      MainEnd(i);
    }

    lemma MainEnd(i: nat)
      requires MainWired(at, q.main) && i <= |q.main|
      ensures NodeAt(at, q.main, i) == null <==> i == |q.main|
      ensures head == NodeAt(at, q.main, 0)
    {
      hide Loose;
      assert Doubly(at, q.main, Main(at), Ends(head, tail));
    }

    // ---------- new chains ----------

    /** The body of the loop in conn_mux_listen_pending. */
    method Rechain(n: Node, ghost i: nat)
      requires buckets != ids && Named(at) && Home(at, n) && i < |q.main| && n.id == q.main[i]
      requires n.id in q.nodes && n.id !in q.main[..i] && n.Value() == q.nodes[n.id]
      requires BucketsWired(at, q.buckets) && IdsWired(at, q.ids) && Rebuilt(hash, q.nodes, q.main[..i], q.buckets, q.ids)
      modifies this`q, buckets, ids, at.Values`hashNext, at.Values`idNext
      ensures q == old(q).(buckets := q.buckets, ids := q.ids) && |q.buckets| == |old(q).buckets|
      ensures BucketsWired(at, q.buckets) && IdsWired(at, q.ids) && Rebuilt(hash, q.nodes, q.main[..i + 1], q.buckets, q.ids)
    {
      hide Rebuilt, BucketsWired, IdsWired;
      NotRebuilt(hash, q.nodes, q.main[..i], n.id, q.buckets, q.ids);
      RebuiltNext(hash, q.nodes, q.main[..i], n.id, q.buckets, q.ids);
      assert q.main[..i + 1] == q.main[..i] + [n.id];
      JoinBucket(n);
      JoinIdBucket(n);
      ghost var b, k := KeyOf(hash, |q.buckets|, n.Value()), n.id % |q.ids|;
      q := q.(buckets := q.buckets[b := [n.id] + q.buckets[b]], ids := q.ids[k := [n.id] + q.ids[k]]);
    }

    /** Part of the way down the main list: the chains hold what was seen. */
    ghost predicate Rechaining(q0: Queues, i: nat)
      reads this, buckets, ids, at.Values
    {
      && buckets != ids && Stored(at, q.nodes) && i <= |q.main| && q == q0.(buckets := q.buckets, ids := q.ids)
      && MainWired(at, q.main) && ExpiryWired(at, q.expiry) && WorkWired(at, q.notify, q.ready)
      && BucketsWired(at, q.buckets) && IdsWired(at, q.ids)
      && Rebuilt(hash, q.nodes, q.main[..i], q.buckets, q.ids)
    }

    method NewChains(n: nat)
      requires Valid() && n > 0
      modifies this`buckets, this`ids, this`q
      ensures fresh(buckets) && fresh(ids) && |q.buckets| == n && Rechaining(old(q), 0)
    {
      hide Linked, MainWired, ExpiryWired, WorkWired, BucketsWired, IdsWired, Rebuilt, Stored;
      var table, byId := new Node?[n](_ => null), new Node?[n](_ => null);
      RebuiltFirst(hash, q.nodes, n);
      assert q.main[..0] == [];
      buckets, ids, q := table, byId, q.(buckets := seq(n, _ => []), ids := seq(n, _ => []));
      EmptyBuckets(n);
    }

    lemma EmptyBuckets(n: nat)
      requires buckets.Length == n && ids.Length == n
      requires forall b :: 0 <= b < n ==> buckets[b] == null && ids[b] == null
      ensures BucketsWired(at, seq(n, _ => [])) && IdsWired(at, seq(n, _ => []))
    {
    }

    method RechainNext(n: Node, ghost q0: Queues, ghost i: nat) returns (next: Node?)
      requires Rechaining(q0, i) && Linked(hash, q0) && n == NodeAt(at, q0.main, i)
      modifies this`q, buckets, ids, at.Values`hashNext, at.Values`idNext
      ensures Rechaining(q0, i + 1) && next == NodeAt(at, q0.main, i + 1) && |q.buckets| == |old(q).buckets|
      ensures i < |q0.main|
    {
      hide Linked, MainWired, ExpiryWired, WorkWired, BucketsWired, IdsWired, Rebuilt;
      MainEnd(i);
      MainAfter(i);
      NextInMain(hash, q0, i);
      StoredIs(n);
      Rechain(n, i);
      next := n.next;
    }

    lemma Rechained(q0: Queues, i: nat)
      requires Rechaining(q0, i) && Linked(hash, q0) && NodeAt(at, q0.main, i) == null && count == |q0.nodes|
      ensures Valid()
    {
      hide Linked, MainWired, ExpiryWired, WorkWired, BucketsWired, IdsWired, Rebuilt, Stored;
      MainEnd(i);
      assert q.main[..i] == q.main;
      RebuiltLast(hash, q0, q.buckets, q.ids);
    }

    /** The loop of conn_mux_listen_pending: every node is linked into the new chains. */
    method Rehash(n: nat)
      requires Valid() && n > 0
      modifies Repr()
      ensures Valid() && |q.buckets| == n && q == old(q).(buckets := q.buckets, ids := q.ids)
      ensures at == old(at) && fresh(buckets) && fresh(ids)
    {
      hide Linked, Rechaining, Wired, Stored;
      ghost var q0, i := q, 0;
      NewChains(n);
      RechainingFirst(q0);
      var node := head;
      while node != null
        invariant Rechaining(q0, i) && node == NodeAt(at, q0.main, i) && |q.buckets| == n && i <= |q0.main|
        invariant at == old(at) && count == old(count) && fresh(buckets) && fresh(ids)
        decreases |q0.main| - i
      {
        node := RechainNext(node, q0, i);
        i := i + 1;
      }
      Rechained(q0, i);
      RechainingSame(q0, i);
    }

    lemma RechainingFirst(q0: Queues)
      requires Rechaining(q0, 0)
      ensures head == NodeAt(at, q0.main, 0)
    {
      hide MainWired, ExpiryWired, WorkWired, BucketsWired, IdsWired, Rebuilt, Stored;
      MainEnd(0);
    }

    lemma RechainingSame(q0: Queues, i: nat)
      requires Rechaining(q0, i)
      ensures q == q0.(buckets := q.buckets, ids := q.ids)
    {
    }

    // ---------- what is not held is not reached ----------

    /** No list leads to this node from its ends or its links. */
    ghost predicate OffLists(x: Node)
      reads this, at.Values
    {
      && x != head && x != tail && x != expiryHead && x != expiryTail
      && x != notifyHead && x != notifyTail && x != readyHead && x != readyTail
      && forall id :: id in at ==>
           && x != at[id].next && x != at[id].previous && x != at[id].expiryNext && x != at[id].expiryPrevious
           && x != at[id].workNext && x != at[id].workPrevious
    }

    /** No chain leads to this node from its bucket or its links. */
    ghost predicate OffChains(x: Node)
      reads this, buckets, ids, at.Values
    {
      && x !in buckets[..] && x !in ids[..]
      && forall id :: id in at ==> x != at[id].hashNext && x != at[id].idNext
    }

    /** Whatever is not among the nodes of the registry, a freed request for one, cannot be reached. */
    lemma OnlyHeldIsReached(x: Node)
      requires Valid() && !Home(at, x)
      ensures OffLists(x) && OffChains(x)
    {
      ListsLeadInside(x);
      ChainsLead(x);
    }

    lemma ListsLeadInside(x: Node)
      requires Valid() && !Home(at, x)
      ensures OffLists(x)
    {
      hide Linked, MainWired, ExpiryWired, WorkWired, BucketsWired, IdsWired;
      MainLeadsInside(x);
      ExpiryLeadsInside(x);
      WorkLeadsInside(x);
    }

    lemma MainLeadsInside(x: Node)
      requires Named(at) && MainWired(at, q.main) && !Home(at, x)
      ensures x != head && x != tail && forall id :: id in at ==> x != at[id].next && x != at[id].previous
    {
      hide Shared;
      SharedLeadsInside(at, q.main, [], Main(at), Ends(head, tail), NO_ENDS);
      assert forall id :: id in at ==> Inside(at, Main(at).next[id]) && Inside(at, Main(at).previous[id]);
    }

    lemma ExpiryLeadsInside(x: Node)
      requires Named(at) && ExpiryWired(at, q.expiry) && !Home(at, x)
      ensures x != expiryHead && x != expiryTail
      ensures forall id :: id in at ==> x != at[id].expiryNext && x != at[id].expiryPrevious
    {
      hide Shared;
      SharedLeadsInside(at, q.expiry, [], Expiry(at), Ends(expiryHead, expiryTail), NO_ENDS);
      assert forall id :: id in at ==> Inside(at, Expiry(at).next[id]) && Inside(at, Expiry(at).previous[id]);
    }

    lemma WorkLeadsInside(x: Node)
      requires Named(at) && WorkWired(at, q.notify, q.ready) && !Home(at, x)
      ensures x != notifyHead && x != notifyTail && x != readyHead && x != readyTail
      ensures forall id :: id in at ==> x != at[id].workNext && x != at[id].workPrevious
    {
      hide Shared;
      SharedLeadsInside(at, q.notify, q.ready, Work(at), Ends(notifyHead, notifyTail), Ends(readyHead, readyTail));
      assert forall id :: id in at ==> Inside(at, Work(at).next[id]) && Inside(at, Work(at).previous[id]);
    }

    lemma ChainsLead(x: Node)
      requires Valid() && !Home(at, x)
      ensures OffChains(x)
    {
      hide Linked, Shared, Chains;
      ChainsLeadInside(at, q.buckets, HashNext(at), buckets[..]);
      ChainsLeadInside(at, q.ids, IdNext(at), ids[..]);
      forall id | id in at ensures x != at[id].hashNext && x != at[id].idNext {
        Chained(hash, q, id);
        var b, k := KeyOf(hash, |q.buckets|, q.nodes[id]), id % |q.ids|;
        assert id in q.buckets[b] && id in q.ids[k];
        assert Inside(at, HashNext(at)[id]) && Inside(at, IdNext(at)[id]);
      }
    }
  }

  const EMPTY := Queues(map[], [], [], [], [], [], [])

  lemma ClearedMinus(p: Pair, n: Node)
    ensures Minus(Cleared(p, n), n.id) == Minus(p, n.id)
  {
    assert p.next[n.id := null] - {n.id} == p.next - {n.id};
    assert p.previous[n.id := null] - {n.id} == p.previous - {n.id};
  }

  lemma NothingLinked(hash: KeyHash)
    ensures Linked(hash, EMPTY)
  {
  }

  lemma ChainAt(at: Nodes, chains: seq<seq<Id>>, next: Links, heads: seq<Node?>, b: nat)
    requires Chains(at, chains, next, heads) && b < |chains|
    ensures |heads| == |chains| && Singly(at, chains[b], next, heads[b])
  {
  }

  lemma RemovedMain(f: KeyHash, q: Queues, id: Id)
    requires Linked(f, q) && id in q.nodes
    ensures |q.buckets| == |q.ids| > 0 && Removed(f, q, id).main == Without(q.main, {id})
  {
    Chained(f, q, id);
  }

  lemma SharedHead(at: Nodes, a: seq<Id>, b: seq<Id>, p: Pair, ea: Ends, eb: Ends)
    requires Named(at) && Shared(at, a, b, p, ea, eb)
    ensures ea.head == NodeAt(at, a, 0) && Inside(at, ea.head)
    ensures if a == [] then ea.head == null else ea.head != null && ea.head.id == a[0]
  {
  }

  lemma ChainIsHeld(f: KeyHash, q: Queues, b: nat)
    requires Linked(f, q) && b < |q.buckets|
    ensures forall id :: id in q.buckets[b] ==> id in q.nodes
  {
    assert Holds(q.buckets[b], InBucket(f, q.nodes, |q.buckets|, b));
  }

  lemma SharedTail(at: Nodes, a: seq<Id>, b: seq<Id>, p: Pair, ea: Ends, eb: Ends)
    requires Named(at) && Shared(at, a, b, p, ea, eb)
    ensures Inside(at, ea.head) && Inside(at, ea.tail)
  {
  }

  lemma VerifiedIsTold(f: KeyHash, q: Queues, id: Id)
    requires Linked(f, q) && id in q.nodes && q.nodes[id].verified
    ensures q.nodes[id].notified
  {
  }

  lemma NoBuckets(f: KeyHash, q: Queues)
    requires Linked(f, q) && |q.buckets| == 0
    ensures q.nodes == map[]
  {
  }

  lemma InChains(f: KeyHash, q: Queues, id: Id)
    requires Linked(f, q) && |q.buckets| > 0
    ensures |q.ids| == |q.buckets| && (id in q.ids[id % |q.ids|] <==> id in q.nodes)
    ensures id in q.nodes ==> id in q.buckets[KeyOf(f, |q.buckets|, q.nodes[id])]
  {
    var n := |q.buckets|;
    assert Holds(q.ids[id % n], InIdBucket(q.nodes, n, id % n));
    if id in q.nodes {
      var b := KeyOf(f, n, q.nodes[id]);
      assert Holds(q.buckets[b], InBucket(f, q.nodes, n, b));
    }
  }

  lemma NotRebuilt(f: KeyHash, nodes: map<Id, Request>, done: seq<Id>, id: Id, buckets: seq<seq<Id>>, ids: seq<seq<Id>>)
    requires Rebuilt(f, nodes, done, buckets, ids) && id !in done
    ensures |buckets| == |ids| > 0
    ensures forall c :: 0 <= c < |buckets| ==> id !in buckets[c] && id !in ids[c]
  {
    var part := Restrict(nodes, done);
    forall c | 0 <= c < |buckets| ensures id !in buckets[c] && id !in ids[c] {
      assert Holds(buckets[c], InBucket(f, part, |buckets|, c));
      assert Holds(ids[c], InIdBucket(part, |ids|, c));
    }
  }

  lemma SharedLeadsInside(at: Nodes, a: seq<Id>, b: seq<Id>, p: Pair, ea: Ends, eb: Ends)
    requires Named(at) && Shared(at, a, b, p, ea, eb)
    ensures Inside(at, ea.head) && Inside(at, ea.tail) && Inside(at, eb.head) && Inside(at, eb.tail)
    ensures forall id :: id in at ==> id in p.next && id in p.previous && Inside(at, p.next[id]) && Inside(at, p.previous[id])
  {
    forall id | id in at ensures Inside(at, p.next[id]) && Inside(at, p.previous[id]) {
      if id in a {
        var k :| 0 <= k < |a| && a[k] == id;
        Neighbours(at, a, p, ea, k);
      } else if id in b {
        var k :| 0 <= k < |b| && b[k] == id;
        Neighbours(at, b, p, eb, k);
      }
    }
  }

  lemma ChainsLeadInside(at: Nodes, chains: seq<seq<Id>>, next: Links, heads: seq<Node?>)
    requires Named(at) && Chains(at, chains, next, heads)
    ensures |heads| == |chains| && next.Keys == at.Keys
    ensures forall b :: 0 <= b < |heads| ==> Inside(at, heads[b])
    ensures forall b, id :: 0 <= b < |chains| && id in chains[b] ==> id in next && Inside(at, next[id])
  {
    forall b | 0 <= b < |chains|
      ensures Inside(at, heads[b]) && forall id :: id in chains[b] ==> id in next && Inside(at, next[id])
    {
      assert Singly(at, chains[b], next, heads[b]);
    }
  }

  lemma NextInMain(f: KeyHash, q: Queues, i: nat)
    requires Linked(f, q) && i < |q.main|
    ensures q.main[i] in q.nodes && q.main[i] !in q.main[..i]
  {
    assert q.main[i] in q.main;
  }

  lemma Chained(f: KeyHash, q: Queues, id: Id)
    requires Linked(f, q) && id in q.nodes
    ensures |q.buckets| == |q.ids| > 0
    ensures id in q.buckets[KeyOf(f, |q.buckets|, q.nodes[id])] && id in q.ids[id % |q.ids|]
  {
    InChains(f, q, id);
  }

  lemma NoDups(f: KeyHash, q: Queues)
    requires Linked(f, q)
    ensures NoDup(q.main) && NoDup(q.expiry) && NoDup(q.notify) && NoDup(q.ready)
  {
  }

  lemma SharedInside(at: Nodes, a: seq<Id>, b: seq<Id>, p: Pair, ea: Ends, eb: Ends, n: Node)
    requires Named(at) && Shared(at, a, b, p, ea, eb) && Home(at, n) && n.id in a
    ensures n.id in p.next && n.id in p.previous && Inside(at, p.next[n.id]) && Inside(at, p.previous[n.id])
  {
  }

  /** Where a request is linked, by its stage. */
  lemma InQueues(f: KeyHash, q: Queues, id: Id)
    requires Linked(f, q) && id in q.nodes
    ensures NoDup(q.main) && NoDup(q.expiry) && NoDup(q.notify) && NoDup(q.ready)
    ensures id in q.main && (id in q.expiry <==> q.nodes[id].agent.None?)
    ensures (id in q.notify <==> !q.nodes[id].notified) && (id in q.ready <==> q.nodes[id].agent.Some?)
  {
    assert id in Waiting(q.nodes) <==> q.nodes[id].agent.None?;
    assert id in Unnotified(q.nodes) <==> !q.nodes[id].notified;
    assert id in Attached(q.nodes) <==> q.nodes[id].agent.Some?;
  }

  lemma ChainsApart(f: KeyHash, q: Queues)
    requires Linked(f, q)
    ensures Apart(q.buckets) && Apart(q.ids)
  {
    var n := |q.buckets|;
    forall b | 0 <= b < n
      ensures NoDup(q.buckets[b]) && forall id :: id in q.buckets[b] ==> id in q.nodes && KeyOf(f, n, q.nodes[id]) == b
      ensures NoDup(q.ids[b]) && forall id :: id in q.ids[b] ==> id % n == b
    {
      assert Holds(q.buckets[b], InBucket(f, q.nodes, n, b));
      assert Holds(q.ids[b], InIdBucket(q.nodes, n, b));
    }
  }

  /** Once removed, a request is in none of the structures. */
  lemma OutOfQueues(f: KeyHash, q: Queues, id: Id)
    requires Linked(f, q) && id in q.nodes
    ensures |q.buckets| == |q.ids| > 0
    ensures var d := Removed(f, q, id);
            && id !in d.main && id !in d.expiry && id !in d.notify && id !in d.ready
            && (forall b :: 0 <= b < |d.buckets| ==> id !in d.buckets[b])
            && (forall b :: 0 <= b < |d.ids| ==> id !in d.ids[b])
  {
    hide Without;
    RemovedLinked(f, q, id);
    var d := Removed(f, q, id);
    forall b | 0 <= b < |d.buckets| ensures id !in d.buckets[b] && id !in d.ids[b] {
      assert Holds(d.buckets[b], InBucket(f, d.nodes, |d.buckets|, b));
      assert Holds(d.ids[b], InIdBucket(d.nodes, |d.ids|, b));
    }
  }
}
