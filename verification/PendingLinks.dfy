/**
 The links between held requests (src/conn_mux.c). A request carries eight of them: two for the main
 list, two for the expiry queue, two shared by the notify and ready queues, and one for each of its
 two hash chains. Here one link field of all requests is a map from id to the node it leads to, and
 what the pieces of rewiring do to such maps is proved once for every list that is rewired that way.
 */
module PendingLinks {
  import opened Addr
  import opened Basics
  import opened PendingSpec
  import opened PendingQueues

  /** A held request as it lies in memory. */
  class Node {
    const id: Id
    const src: Endpoint
    const local: string
    const remote: string
    const deadline: int
    var data: seq<byte>
    var notified: bool
    var verified: bool
    var password: string
    var agent: Option<Agent>
    var previous: Node?
    var next: Node?
    var hashNext: Node?
    var idNext: Node?
    var expiryPrevious: Node?
    var expiryNext: Node?
    var workPrevious: Node?
    var workNext: Node?

    /** A zeroed allocation that is then filled in. */
    constructor (id: Id, src: Endpoint, local: string, remote: string, data: seq<byte>, deadline: int)
      ensures this.id == id && Value() == Request(src, local, remote, data, deadline, false, false, "", None)
      ensures previous == null && next == null && hashNext == null && idNext == null
      ensures expiryPrevious == null && expiryNext == null && workPrevious == null && workNext == null
    {
      this.id, this.src, this.local, this.remote, this.data, this.deadline := id, src, local, remote, data, deadline;
      notified, verified, password, agent := false, false, "", None;
      previous, next, hashNext, idNext := null, null, null, null;
      expiryPrevious, expiryNext, workPrevious, workNext := null, null, null, null;
    }

    function Value(): Request
      reads this`data, this`notified, this`verified, this`password, this`agent
    {
      Request(src, local, remote, data, deadline, notified, verified, password, agent)
    }
  }

  type Nodes = map<Id, Node>

  /** One link field of every node. */
  type Links = map<Id, Node?>

  /** The two link fields of a doubly linked list, and its two ends. */
  datatype Pair = Pair(next: Links, previous: Links)

  datatype Ends = Ends(head: Node?, tail: Node?)

  const NO_ENDS := Ends(null, null)

  ghost predicate Named(at: Nodes) {
    forall id :: id in at ==> at[id].id == id
  }

  ghost predicate Covers(at: Nodes, p: Pair) {
    p.next.Keys == at.Keys && p.previous.Keys == at.Keys
  }

  /** The node at place i of a list, or null past either end. */
  ghost function NodeAt(at: Nodes, q: seq<Id>, i: int): Node? {
    if 0 <= i < |q| && q[i] in at then at[q[i]] else null
  }

  /** Following either link from either end visits the list and stops. */
  ghost predicate Doubly(at: Nodes, q: seq<Id>, p: Pair, e: Ends) {
    && e.head == NodeAt(at, q, 0) && e.tail == NodeAt(at, q, |q| - 1)
    && forall i :: 0 <= i < |q| ==>
         && q[i] in at && q[i] in p.next && q[i] in p.previous
         && p.next[q[i]] == NodeAt(at, q, i + 1) && p.previous[q[i]] == NodeAt(at, q, i - 1)
  }

  ghost predicate Singly(at: Nodes, q: seq<Id>, next: Links, head: Node?) {
    && head == NodeAt(at, q, 0)
    && forall i :: 0 <= i < |q| ==> q[i] in at && q[i] in next && next[q[i]] == NodeAt(at, q, i + 1)
  }

  ghost predicate Home(at: Nodes, n: Node) {
    n.id in at && at[n.id] == n
  }

  /** A link leads to a node of the registry or nowhere. */
  ghost predicate Inside(at: Nodes, n: Node?) {
    n == null || Home(at, n)
  }

  // ---------- appending ----------

  /** The tail of the list, if there is one, leads to the node, and the node leads back to it. */
  ghost function Appended(p: Pair, e: Ends, n: Node): Pair {
    Pair(if e.tail != null then p.next[e.tail.id := n] else p.next, p.previous[n.id := e.tail])
  }

  ghost function AppendedEnds(e: Ends, n: Node): Ends {
    Ends(if e.tail != null then e.head else n, n)
  }

  /** Appending does not touch the forward link of the node, which therefore has to be null. */
  lemma AppendDoubly(at: Nodes, q: seq<Id>, p: Pair, e: Ends, n: Node)
    requires Named(at) && NoDup(q) && Doubly(at, q, p, e) && Home(at, n) && n.id !in q
    requires n.id in p.next && p.next[n.id] == null
    ensures Doubly(at, q + [n.id], Appended(p, e, n), AppendedEnds(e, n))
  {
    assert q != [] ==> e.tail != null && e.tail.id == q[|q| - 1];
  }

  // ---------- taking out ----------

  /** The neighbours of the node, or the ends of the list, lead past it. */
  ghost function Bypassed(p: Pair, n: Node): Pair
    requires n.id in p.next && n.id in p.previous
  {
    var before, after := p.previous[n.id], p.next[n.id];
    Pair(if before != null then p.next[before.id := after] else p.next,
         if after != null then p.previous[after.id := before] else p.previous)
  }

  ghost function BypassedEnds(p: Pair, e: Ends, n: Node): Ends
    requires n.id in p.next && n.id in p.previous
  {
    Ends(if p.previous[n.id] != null then e.head else p.next[n.id],
         if p.next[n.id] != null then e.tail else p.previous[n.id])
  }

  ghost function Cleared(p: Pair, n: Node): Pair {
    Pair(p.next[n.id := null], p.previous[n.id := null])
  }

  /** Where the neighbours of the node at place k are. */
  lemma Neighbours(at: Nodes, q: seq<Id>, p: Pair, e: Ends, k: nat)
    requires Named(at) && Doubly(at, q, p, e) && k < |q|
    ensures q[k] in at && q[k] in p.next && q[k] in p.previous
    ensures p.previous[q[k]] == (if k > 0 then at[q[k - 1]] else null) && Inside(at, p.previous[q[k]])
    ensures p.next[q[k]] == (if k + 1 < |q| then at[q[k + 1]] else null) && Inside(at, p.next[q[k]])
  {
  }

  lemma BypassDoubly(at: Nodes, q: seq<Id>, p: Pair, e: Ends, k: nat)
    requires Named(at) && NoDup(q) && Doubly(at, q, p, e) && k < |q|
    ensures q[k] in at && at[q[k]].id == q[k] && q[k] in p.next && q[k] in p.previous
    ensures Doubly(at, q[..k] + q[k + 1..], Bypassed(p, at[q[k]]), BypassedEnds(p, e, at[q[k]]))
  {
    Neighbours(at, q, p, e, k);
    BypassNext(at, q, p, e, k);
    BypassPrevious(at, q, p, e, k);
  }

  lemma BypassNext(at: Nodes, q: seq<Id>, p: Pair, e: Ends, k: nat)
    requires Named(at) && NoDup(q) && Doubly(at, q, p, e) && k < |q|
    ensures var t, next := q[..k] + q[k + 1..], if k > 0 then p.next[q[k - 1] := p.next[q[k]]] else p.next;
            && NodeAt(at, t, 0) == (if k > 0 then e.head else p.next[q[k]])
            && forall i :: 0 <= i < |t| ==> t[i] in at && t[i] in next && next[t[i]] == NodeAt(at, t, i + 1)
  {
    var t, next := q[..k] + q[k + 1..], if k > 0 then p.next[q[k - 1] := p.next[q[k]]] else p.next;
    forall i | 0 <= i < |t| ensures t[i] in at && t[i] in next && next[t[i]] == NodeAt(at, t, i + 1) {
      var j := if i < k then i else i + 1;
      assert t[i] == q[j];
    }
  }

  lemma BypassPrevious(at: Nodes, q: seq<Id>, p: Pair, e: Ends, k: nat)
    requires Named(at) && NoDup(q) && Doubly(at, q, p, e) && k < |q|
    ensures var t := q[..k] + q[k + 1..];
            var previous := if k + 1 < |q| then p.previous[q[k + 1] := p.previous[q[k]]] else p.previous;
            && NodeAt(at, t, |t| - 1) == (if k + 1 < |q| then e.tail else p.previous[q[k]])
            && forall i :: 0 <= i < |t| ==> t[i] in previous && previous[t[i]] == NodeAt(at, t, i - 1)
  {
    BypassTail(at, q, p, e, k);
    hide Doubly, Named, NoDup;
    var t := q[..k] + q[k + 1..];
    var previous := if k + 1 < |q| then p.previous[q[k + 1] := p.previous[q[k]]] else p.previous;
    forall i | 0 <= i < |t| ensures t[i] in previous && previous[t[i]] == NodeAt(at, t, i - 1) {
      BypassPreviousAt(at, q, p, e, k, i);
    }
  }

  lemma BypassTail(at: Nodes, q: seq<Id>, p: Pair, e: Ends, k: nat)
    requires Doubly(at, q, p, e) && k < |q|
    ensures q[k] in p.previous
    ensures var t := q[..k] + q[k + 1..];
            NodeAt(at, t, |t| - 1) == if k + 1 < |q| then e.tail else p.previous[q[k]]
  {
    var t := q[..k] + q[k + 1..];
    LinksAt(at, q, p, e, k);
    assert e.tail == NodeAt(at, q, |q| - 1);
    hide Doubly;
    if k + 1 < |q| {
      assert t[|t| - 1] == q[|q| - 1];
    } else if k > 0 {
      assert t[|t| - 1] == q[k - 1];
    }
  }

  lemma BypassPreviousAt(at: Nodes, q: seq<Id>, p: Pair, e: Ends, k: nat, i: nat)
    requires Named(at) && NoDup(q) && Doubly(at, q, p, e) && k < |q| && i < |q| - 1
    ensures var t := q[..k] + q[k + 1..];
            var previous := if k + 1 < |q| then p.previous[q[k + 1] := p.previous[q[k]]] else p.previous;
            t[i] in previous && previous[t[i]] == NodeAt(at, t, i - 1)
  {
    hide Doubly, Named;
    var t := q[..k] + q[k + 1..];
    var j := if i < k then i else i + 1;
    LinksAt(at, q, p, e, j);
    LinksAt(at, q, p, e, k);
    assert t[i] == q[j];
    if i == k {
      assert k > 0 ==> t[k - 1] == q[k - 1];
      assert NodeAt(at, t, k - 1) == NodeAt(at, q, k - 1);
    } else {
      assert j != k + 1 && (k + 1 < |q| ==> q[j] != q[k + 1]);
      assert i > 0 ==> t[i - 1] == q[j - 1];
      assert NodeAt(at, t, i - 1) == NodeAt(at, q, j - 1);
    }
  }

  lemma LinksAt(at: Nodes, q: seq<Id>, p: Pair, e: Ends, i: nat)
    requires Doubly(at, q, p, e) && i < |q|
    ensures q[i] in at && q[i] in p.next && q[i] in p.previous
    ensures p.next[q[i]] == NodeAt(at, q, i + 1) && p.previous[q[i]] == NodeAt(at, q, i - 1)
  {
  }

  // ---------- what does not touch a list leaves it alone ----------

  /** The fields that matter to a list are those of its members. */
  ghost predicate SameFor(at: Nodes, at': Nodes, q: seq<Id>, next: Links, next': Links) {
    forall i :: 0 <= i < |q| ==>
      (q[i] in at ==> q[i] in at' && at'[q[i]] == at[q[i]]) && (q[i] in next ==> q[i] in next' && next'[q[i]] == next[q[i]])
  }

  lemma SameDoubly(at: Nodes, at': Nodes, q: seq<Id>, p: Pair, p': Pair, e: Ends)
    requires Doubly(at, q, p, e)
    requires SameFor(at, at', q, p.next, p'.next) && SameFor(at, at', q, p.previous, p'.previous)
    ensures Doubly(at', q, p', e)
  {
    forall i | 0 <= i < |q|
      ensures && q[i] in at' && q[i] in p'.next && q[i] in p'.previous
              && p'.next[q[i]] == NodeAt(at', q, i + 1) && p'.previous[q[i]] == NodeAt(at', q, i - 1)
    {
      assert NodeAt(at', q, i + 1) == NodeAt(at, q, i + 1);
      assert NodeAt(at', q, i - 1) == NodeAt(at, q, i - 1);
    }
  }

  lemma SameSingly(at: Nodes, at': Nodes, q: seq<Id>, next: Links, next': Links, head: Node?)
    requires Singly(at, q, next, head) && SameFor(at, at', q, next, next')
    ensures Singly(at', q, next', head)
  {
    forall i | 0 <= i < |q| ensures q[i] in at' && q[i] in next' && next'[q[i]] == NodeAt(at', q, i + 1) {
      assert NodeAt(at', q, i + 1) == NodeAt(at, q, i + 1);
    }
  }

  // ---------- chains ----------

  /** The node becomes the head of the chain. */
  lemma PrependSingly(at: Nodes, q: seq<Id>, next: Links, head: Node?, n: Node)
    requires Named(at) && Singly(at, q, next, head) && Home(at, n) && n.id !in q
    ensures Singly(at, [n.id] + q, next[n.id := head], n)
  {
    var t := [n.id] + q;
    forall i | 0 <= i < |t|
      ensures t[i] in at && t[i] in next[n.id := head] && next[n.id := head][t[i]] == NodeAt(at, t, i + 1)
    {
      assert NodeAt(at, t, i + 1) == NodeAt(at, q, i);
      assert i > 0 ==> t[i] == q[i - 1];
    }
  }

  /** The link that led to the node at place k, a field of the node before it or the head, leads past it. */
  lemma CutSingly(at: Nodes, q: seq<Id>, next: Links, head: Node?, k: nat)
    requires Named(at) && NoDup(q) && Singly(at, q, next, head) && k < |q|
    ensures var t := q[..k] + q[k + 1..];
            if k == 0 then Singly(at, t, next, next[q[0]])
            else Singly(at, t, next[q[k - 1] := next[q[k]]], head)
  {
    var t := q[..k] + q[k + 1..];
    var next' := if k == 0 then next else next[q[k - 1] := next[q[k]]];
    forall i | 0 <= i < |t| ensures t[i] in at && t[i] in next' && next'[t[i]] == NodeAt(at, t, i + 1) {
      var j := if i < k then i else i + 1;
      assert t[i] == q[j];
    }
  }

  // ---------- two lists that share their links ----------

  /** Two lists threaded through the same fields. A node is in one of them at most, and a node in
      neither has nothing in these fields. */
  ghost predicate Shared(at: Nodes, a: seq<Id>, b: seq<Id>, p: Pair, ea: Ends, eb: Ends) {
    && Covers(at, p) && Doubly(at, a, p, ea) && Doubly(at, b, p, eb)
    && (forall id :: id in a ==> id !in b)
    && Loose(at, a, b, p)
  }

  ghost predicate Loose(at: Nodes, a: seq<Id>, b: seq<Id>, p: Pair)
    requires Covers(at, p)
  {
    forall id :: id in at && id !in a && id !in b ==> p.next[id] == null && p.previous[id] == null
  }

  lemma SharedSwap(at: Nodes, a: seq<Id>, b: seq<Id>, p: Pair, ea: Ends, eb: Ends)
    requires Shared(at, a, b, p, ea, eb)
    ensures Shared(at, b, a, p, eb, ea)
  {
  }

  lemma Members(at: Nodes, q: seq<Id>, p: Pair, e: Ends)
    requires Doubly(at, q, p, e)
    ensures forall id :: id in q ==> id in at && id in p.next && id in p.previous
  {
  }

  /** Only members of its list have a link changed when a node is taken out. */
  lemma OutChanges(at: Nodes, a: seq<Id>, p: Pair, ea: Ends, k: nat)
    requires Named(at) && Covers(at, p) && Doubly(at, a, p, ea) && k < |a|
    ensures a[k] in at && a[k] in p.next && a[k] in p.previous
    ensures var n := at[a[k]]; var p' := Cleared(Bypassed(p, n), n);
            && n.id == a[k] && Covers(at, p') && p'.next[n.id] == null && p'.previous[n.id] == null
            && forall id :: id in at && id !in a ==> p'.next[id] == p.next[id] && p'.previous[id] == p.previous[id]
  {
    Neighbours(at, a, p, ea, k);
    assert k > 0 ==> a[k - 1] in a && at[a[k - 1]].id == a[k - 1];
    assert k + 1 < |a| ==> a[k + 1] in a && at[a[k + 1]].id == a[k + 1];
  }

  /** Clearing the links of a node that is out of the list does not disturb it. */
  lemma ClearOutside(at: Nodes, q: seq<Id>, p: Pair, e: Ends, n: Node)
    requires Doubly(at, q, p, e) && n.id !in q
    ensures Doubly(at, q, Cleared(p, n), e)
  {
    assert forall i :: 0 <= i < |q| ==> q[i] in q;
    SameDoubly(at, at, q, p, Cleared(p, n), e);
  }

  lemma SameOutside(at: Nodes, b: seq<Id>, p: Pair, p': Pair, e: Ends)
    requires Doubly(at, b, p, e) && Covers(at, p) && Covers(at, p')
    requires forall id :: id in b && id in at ==> p'.next[id] == p.next[id] && p'.previous[id] == p.previous[id]
    ensures Doubly(at, b, p', e)
  {
    assert forall i :: 0 <= i < |b| ==> b[i] in b;
    SameDoubly(at, at, b, p, p', e);
  }

  /** Taking a node out of its list and clearing its links: the other list is not disturbed, and the
      node is ready to be appended again. */
  lemma SharedOut(at: Nodes, a: seq<Id>, b: seq<Id>, p: Pair, ea: Ends, eb: Ends, n: Node)
    requires Named(at) && NoDup(a) && Shared(at, a, b, p, ea, eb) && Home(at, n) && n.id in a
    ensures n.id in p.next && n.id in p.previous
    ensures Shared(at, Without(a, {n.id}), b, Cleared(Bypassed(p, n), n), BypassedEnds(p, ea, n), eb)
  {
    hide Doubly, Bypassed, BypassedEnds, Cleared, NoDup;
    var k :| 0 <= k < |a| && a[k] == n.id;
    OutChanges(at, a, p, ea, k);
    WithoutAt(a, k);
    BypassDoubly(at, a, p, ea, k);
    ClearOutside(at, Without(a, {n.id}), Bypassed(p, n), BypassedEnds(p, ea, n), n);
    SameOutside(at, b, p, Cleared(Bypassed(p, n), n), eb);
  }

  /** append_work leaves the forward link of the node alone: it is null already. */
  lemma SharedIn(at: Nodes, a: seq<Id>, b: seq<Id>, p: Pair, ea: Ends, eb: Ends, n: Node)
    requires Named(at) && NoDup(a) && Shared(at, a, b, p, ea, eb) && Home(at, n) && n.id !in a && n.id !in b
    ensures p.next[n.id] == null && p.previous[n.id] == null
    ensures Shared(at, a + [n.id], b, Appended(p, ea, n), AppendedEnds(ea, n), eb)
  {
    var p', ea' := Appended(p, ea, n), AppendedEnds(ea, n);
    AppendDoubly(at, a, p, ea, n);
    TailIsIn(at, a, p, ea);
    hide Doubly, Named;
    AppendSpares(at, a, b, p, ea, n);
    SameDoubly(at, at, b, p, p', eb);
    AppendLoose(at, a, b, p, ea, n);
  }

  /** Nothing a list does not share with the other is written. */
  lemma AppendSpares(at: Nodes, a: seq<Id>, b: seq<Id>, p: Pair, e: Ends, n: Node)
    requires (e.tail != null ==> e.tail.id in a) && n.id !in b && forall id :: id in a ==> id !in b
    ensures SameFor(at, at, b, p.next, Appended(p, e, n).next) && SameFor(at, at, b, p.previous, Appended(p, e, n).previous)
  {
    assert forall i :: 0 <= i < |b| ==> b[i] in b;
  }

  lemma AppendLoose(at: Nodes, a: seq<Id>, b: seq<Id>, p: Pair, e: Ends, n: Node)
    requires Covers(at, p) && Loose(at, a, b, p) && n.id in at && (e.tail != null ==> e.tail.id in a && e.tail.id in at)
    ensures Covers(at, Appended(p, e, n)) && Loose(at, a + [n.id], b, Appended(p, e, n))
  {
    assert forall id :: id in a + [n.id] <==> id in a || id == n.id;
  }

  lemma TailIsIn(at: Nodes, q: seq<Id>, p: Pair, e: Ends)
    requires Named(at) && Doubly(at, q, p, e)
    ensures e.tail != null ==> e.tail.id in q && e.tail.id in at
    ensures q == [] ==> e.tail == null
    ensures forall i :: 0 <= i < |q| ==> q[i] in at && q[i] in p.next && q[i] in p.previous
  {
    if q != [] {
      assert q[|q| - 1] in q;
    }
  }

  ghost function Minus(p: Pair, id: Id): Pair {
    Pair(p.next - {id}, p.previous - {id})
  }

  lemma SharedForget(at: Nodes, a: seq<Id>, b: seq<Id>, p: Pair, ea: Ends, eb: Ends, id: Id)
    requires Shared(at, a, b, p, ea, eb) && id !in a && id !in b
    ensures Shared(at - {id}, a, b, Minus(p, id), ea, eb)
  {
    assert forall i :: 0 <= i < |a| ==> a[i] in a;
    assert forall i :: 0 <= i < |b| ==> b[i] in b;
    SameDoubly(at, at - {id}, a, p, Minus(p, id), ea);
    SameDoubly(at, at - {id}, b, p, Minus(p, id), eb);
  }

  ghost function Plus(p: Pair, id: Id): Pair {
    Pair(p.next[id := null], p.previous[id := null])
  }

  lemma SharedNew(at: Nodes, a: seq<Id>, b: seq<Id>, p: Pair, ea: Ends, eb: Ends, n: Node)
    requires Shared(at, a, b, p, ea, eb) && n.id !in at
    ensures n.id !in a && n.id !in b
    ensures Shared(at[n.id := n], a, b, Plus(p, n.id), ea, eb)
  {
    hide Doubly;
    NewDoubly(at, a, p, ea, n);
    NewDoubly(at, b, p, eb, n);
  }

  lemma NewDoubly(at: Nodes, q: seq<Id>, p: Pair, e: Ends, n: Node)
    requires Doubly(at, q, p, e) && n.id !in at
    ensures n.id !in q && Doubly(at[n.id := n], q, Plus(p, n.id), e)
  {
    Members(at, q, p, e);
    assert forall i :: 0 <= i < |q| ==> q[i] in q;
    SameDoubly(at, at[n.id := n], q, p, Plus(p, n.id), e);
  }

  // ---------- hash tables of chains ----------

  ghost predicate Apart(chains: seq<seq<Id>>) {
    && (forall b :: 0 <= b < |chains| ==> NoDup(chains[b]))
    && forall b, c, id :: 0 <= b < |chains| && 0 <= c < |chains| && id in chains[b] && id in chains[c] ==> b == c
  }

  /** Each bucket leads along one chain, through a field shared by all chains. */
  ghost predicate Chains(at: Nodes, chains: seq<seq<Id>>, next: Links, heads: seq<Node?>) {
    && |heads| == |chains| && next.Keys == at.Keys
    && forall b :: 0 <= b < |chains| ==> Singly(at, chains[b], next, heads[b])
  }

  ghost function CutNext(chain: seq<Id>, next: Links, k: nat): Links
    requires k < |chain| && chain[k] in next
  {
    if k == 0 then next else next[chain[k - 1] := next[chain[k]]]
  }

  ghost function CutHead(chain: seq<Id>, next: Links, head: Node?, k: nat): Node?
    requires k < |chain| && chain[k] in next
  {
    if k == 0 then next[chain[k]] else head
  }

  lemma ChainsOut(at: Nodes, chains: seq<seq<Id>>, next: Links, heads: seq<Node?>, b: nat, k: nat)
    requires Named(at) && Apart(chains) && Chains(at, chains, next, heads) && b < |chains| && k < |chains[b]|
    ensures chains[b][k] in next
    ensures Chains(at, chains[b := Without(chains[b], {chains[b][k]})], CutNext(chains[b], next, k),
                   heads[b := CutHead(chains[b], next, heads[b], k)])
  {
    var q := chains[b];
    assert Singly(at, q, next, heads[b]);
    var next', q' := CutNext(q, next, k), Without(q, {q[k]});
    WithoutAt(q, k);
    CutSingly(at, q, next, heads[b], k);
    forall c | 0 <= c < |chains| && c != b ensures Singly(at, chains[c], next', heads[c]) {
      assert Singly(at, chains[c], next, heads[c]);
      assert forall i :: 0 <= i < |chains[c]| ==> chains[c][i] in chains[c];
      assert k > 0 ==> q[k - 1] in q;
      SameSingly(at, at, chains[c], next, next', heads[c]);
    }
  }

  lemma ChainsIn(at: Nodes, chains: seq<seq<Id>>, next: Links, heads: seq<Node?>, b: nat, n: Node)
    requires Named(at) && Chains(at, chains, next, heads) && b < |chains| && Home(at, n)
    requires forall c :: 0 <= c < |chains| ==> n.id !in chains[c]
    ensures Chains(at, chains[b := [n.id] + chains[b]], next[n.id := heads[b]], heads[b := n])
  {
    PrependSingly(at, chains[b], next, heads[b], n);
    forall c | 0 <= c < |chains| && c != b ensures Singly(at, chains[c], next[n.id := heads[b]], heads[c]) {
      assert forall i :: 0 <= i < |chains[c]| ==> chains[c][i] in chains[c];
      SameSingly(at, at, chains[c], next, next[n.id := heads[b]], heads[c]);
    }
  }

  lemma ChainsForget(at: Nodes, chains: seq<seq<Id>>, next: Links, heads: seq<Node?>, id: Id)
    requires Chains(at, chains, next, heads) && forall c :: 0 <= c < |chains| ==> id !in chains[c]
    ensures Chains(at - {id}, chains, next - {id}, heads)
  {
    forall c | 0 <= c < |chains| ensures Singly(at - {id}, chains[c], next - {id}, heads[c]) {
      assert forall i :: 0 <= i < |chains[c]| ==> chains[c][i] in chains[c];
      SameSingly(at, at - {id}, chains[c], next, next - {id}, heads[c]);
    }
  }

  lemma ChainsNew(at: Nodes, chains: seq<seq<Id>>, next: Links, heads: seq<Node?>, n: Node)
    requires Chains(at, chains, next, heads) && n.id !in at
    ensures forall c :: 0 <= c < |chains| ==> n.id !in chains[c]
    ensures Chains(at[n.id := n], chains, next[n.id := null], heads)
  {
    forall c | 0 <= c < |chains| ensures n.id !in chains[c] && Singly(at[n.id := n], chains[c], next[n.id := null], heads[c]) {
      assert Singly(at, chains[c], next, heads[c]);
      assert forall i :: 0 <= i < |chains[c]| ==> chains[c][i] in chains[c];
      SameSingly(at, at[n.id := n], chains[c], next, next[n.id := null], heads[c]);
    }
  }
}
