/** The TURN state map of src/turn.c: one probed table holding both kinds of key, and two arrays of table
    positions sorted by channel number and by transaction id and searched by bisection. */
module TurnMap {
  import opened TurnSpec
  import opened Addr
  import opened Basics
  import SourceTable
  import TurnLive

  datatype Slot = Empty | Used(key: Key, info: Info)

  type Hash = Key -> nat

  // ---------- the table ----------

  function Home(f: Hash, n: nat, key: Key): (h: nat)
    requires n > 0
    ensures h < n
  {
    f(key) % n
  }

  function At(n: nat, h: nat, d: nat): (p: nat)
    requires h < n && d < n
    ensures p < n
  {
    SourceTable.At(n, h, d)
  }

  function Distance(n: nat, h: nat, p: nat): (d: nat)
    requires h < n && p < n
    ensures d < n && At(n, h, d) == p
  {
    SourceTable.Distance(n, h, p)
  }

  predicate Passes(s: Slot, key: Key) {
    s.Used? && s.key != key
  }

  predicate PathClear(f: Hash, s: seq<Slot>, key: Key, d: nat)
    requires 0 < |s| && d <= |s|
  {
    forall k :: 0 <= k < d ==> Passes(s[At(|s|, Home(f, |s|, key), k)], key)
  }

  ghost predicate Probed(f: Hash, s: seq<Slot>) {
    forall p :: 0 <= p < |s| && s[p].Used? ==> PathClear(f, s, s[p].key, Distance(|s|, Home(f, |s|, s[p].key), p))
  }

  /** The table is the partial function m, and each key is stored at one place. */
  ghost predicate Holds(s: seq<Slot>, place: map<Key, nat>, m: Entries) {
    && place.Keys == m.Keys
    && (forall key :: key in m ==> place[key] < |s| && s[place[key]] == Used(key, m[key]))
    && (forall p :: 0 <= p < |s| && s[p].Used? ==> s[p].key in m && place[s[p].key] == p)
  }

  ghost predicate TableOk(f: Hash, s: seq<Slot>, place: map<Key, nat>, m: Entries) {
    |s| > 0 && Probed(f, s) && Holds(s, place, m)
  }

  /** The number of keys against the number of slots. */
  lemma TableSize(s: seq<Slot>, place: map<Key, nat>, m: Entries)
    requires Holds(s, place, m)
    ensures |m| <= |s|
    ensures |m| == |s| <==> forall p :: 0 <= p < |s| ==> s[p].Used?
  {
    var seen: set<Key> := {};
    var full := true;
    for i := 0 to |s|
      invariant |seen| <= i && (|seen| == i <==> full)
      invariant full <==> forall p :: 0 <= p < i ==> s[p].Used?
      invariant forall key :: key in seen <==> key in m && place[key] < i
    {
      if s[i].Used? {
        assert s[i].key !in seen;
        seen := seen + {s[i].key};
      } else {
        full := false;
      }
    }
    assert seen == m.Keys;
  }

  /** Where the probe stops is the key's own place, or an empty slot, or nowhere when all are taken. */
  lemma ProbeIsExact(f: Hash, s: seq<Slot>, place: map<Key, nat>, m: Entries, key: Key, d: nat)
    requires TableOk(f, s, place, m) && d <= |s| && PathClear(f, s, key, d)
    requires d < |s| ==> !Passes(s[At(|s|, Home(f, |s|, key), d)], key)
    ensures d < |s| <==> Room(m, |s|, key)
    ensures key in m ==> At(|s|, Home(f, |s|, key), d) == place[key]
    ensures key !in m && d < |s| ==> s[At(|s|, Home(f, |s|, key), d)].Empty?
  {
    var h := Home(f, |s|, key);
    if key in m {
      var p := place[key];
      assert PathClear(f, s, key, Distance(|s|, h, p));
      assert At(|s|, h, Distance(|s|, h, p)) == p;
    } else {
      TableSize(s, place, m);
      forall p | 0 <= p < |s| && d == |s| ensures s[p].Used? {
        assert At(|s|, h, Distance(|s|, h, p)) == p;
      }
    }
  }

  /** Writing the key where its probe stops. */
  lemma PutKeepsTable(f: Hash, s: seq<Slot>, place: map<Key, nat>, m: Entries, key: Key, info: Info, d: nat)
    requires TableOk(f, s, place, m) && d < |s| && PathClear(f, s, key, d)
    requires !Passes(s[At(|s|, Home(f, |s|, key), d)], key)
    ensures var p := At(|s|, Home(f, |s|, key), d);
            TableOk(f, s[p := Used(key, info)], place[key := p], m[key := info])
  {
    ProbeIsExact(f, s, place, m, key, d);
    var p := At(|s|, Home(f, |s|, key), d);
    var t := s[p := Used(key, info)];
    assert Distance(|s|, Home(f, |s|, key), p) == d;
    forall q | 0 <= q < |t| && t[q].Used?
      ensures PathClear(f, t, t[q].key, Distance(|t|, Home(f, |t|, t[q].key), q))
    {
      if q != p {
        assert PathClear(f, s, s[q].key, Distance(|s|, Home(f, |s|, s[q].key), q));
        assert s[q].key in m && place[s[q].key] == q;
      }
    }
  }

  /** Changing what a stored key means without moving it. */
  lemma TouchKeepsTable(f: Hash, s: seq<Slot>, place: map<Key, nat>, m: Entries, p: nat, info: Info)
    requires TableOk(f, s, place, m) && p < |s| && s[p].Used?
    ensures TableOk(f, s[p := Used(s[p].key, info)], place, m[s[p].key := info])
  {
    var t := s[p := Used(s[p].key, info)];
    forall q | 0 <= q < |t| && t[q].Used?
      ensures PathClear(f, t, t[q].key, Distance(|t|, Home(f, |t|, t[q].key), q))
    {
      assert PathClear(f, s, s[q].key, Distance(|s|, Home(f, |s|, s[q].key), q));
    }
  }

  // ---------- the sorted arrays ----------

  /** What an array of positions is sorted by; zero for a slot it leaves out. */
  type Rank = Slot -> nat

  function ChannelOf(s: Slot): nat {
    if s.Used? then s.info.channel else 0
  }

  function TidOf(s: Slot): nat {
    if s.Used? then s.info.tid else 0
  }

  predicate Within(s: seq<Slot>, order: seq<nat>) {
    forall i :: 0 <= i < |order| ==> order[i] < |s|
  }

  function Ranks(s: seq<Slot>, order: seq<nat>, rank: Rank): (v: seq<nat>)
    requires Within(s, order)
    ensures |v| == |order| && forall i :: 0 <= i < |v| ==> v[i] == rank(s[order[i]])
  {
    seq(|order|, i requires 0 <= i < |order| => rank(s[order[i]]))
  }

  predicate Increasing(v: seq<nat>) {
    forall i, j :: 0 <= i < j < |v| ==> v[i] < v[j]
  }

  /** The array lists exactly the ranked slots, strictly increasing. */
  predicate Indexed(s: seq<Slot>, order: seq<nat>, rank: Rank) {
    && Within(s, order)
    && Increasing(Ranks(s, order, rank))
    && 0 !in Ranks(s, order, rank)
    && (forall p :: 0 <= p < |s| && rank(s[p]) != 0 ==> p in order)
  }

  /** find_ordered_channel_rec and find_ordered_transaction_id_rec. */
  function Bisect(v: seq<nat>, x: nat, begin: nat, end: nat): (pos: nat)
    requires begin <= end <= |v|
    ensures begin <= pos <= end
    decreases end - begin
  {
    if end == begin then begin
    else
      var pivot := begin + (end - begin) / 2;
      if x < v[pivot] then Bisect(v, x, begin, pivot)
      else if x > v[pivot] then Bisect(v, x, pivot + 1, end)
      else pivot
  }

  /** The plain scan: the first element that is at least x. */
  function Scan(v: seq<nat>, x: nat): (pos: nat)
    ensures pos <= |v|
  {
    if v == [] || v[0] >= x then 0 else 1 + Scan(v[1..], x)
  }

  predicate Splits(v: seq<nat>, x: nat, pos: nat) {
    && pos <= |v|
    && (forall i :: 0 <= i < pos ==> v[i] < x)
    && (forall i :: pos <= i < |v| ==> v[i] >= x)
  }

  lemma {:induction false} BisectSplits(v: seq<nat>, x: nat, begin: nat, end: nat)
    requires begin <= end <= |v| && Increasing(v)
    requires forall i :: 0 <= i < begin ==> v[i] < x
    requires forall i :: end <= i < |v| ==> v[i] > x
    ensures Splits(v, x, Bisect(v, x, begin, end))
    decreases end - begin
  {
    if begin < end {
      var pivot := begin + (end - begin) / 2;
      if x < v[pivot] {
        BisectSplits(v, x, begin, pivot);
      } else if x > v[pivot] {
        BisectSplits(v, x, pivot + 1, end);
      }
    }
  }

  lemma {:induction false} SplitsIsScan(v: seq<nat>, x: nat, pos: nat)
    requires Splits(v, x, pos)
    ensures pos == Scan(v, x)
  {
    if pos > 0 {
      SplitsIsScan(v[1..], x, pos - 1);
    }
  }

  /** On a sorted array bisection agrees with the scan. */
  lemma BisectIsScan(v: seq<nat>, x: nat)
    requires Increasing(v)
    ensures Bisect(v, x, 0, |v|) == Scan(v, x)
  {
    BisectSplits(v, x, 0, |v|);
    SplitsIsScan(v, x, Bisect(v, x, 0, |v|));
  }

  function Where(s: seq<Slot>, order: seq<nat>, rank: Rank, x: nat): (pos: nat)
    requires Within(s, order)
    ensures pos <= |order|
  {
    Bisect(Ranks(s, order, rank), x, 0, |order|)
  }

  predicate FoundAt(s: seq<Slot>, order: seq<nat>, rank: Rank, x: nat, pos: nat)
    requires Within(s, order)
  {
    pos < |order| && rank(s[order[pos]]) == x
  }

  /** The search finds x exactly if some slot has it, and that slot. */
  lemma SearchIsExact(s: seq<Slot>, order: seq<nat>, rank: Rank, x: nat)
    requires Indexed(s, order, rank) && x != 0
    ensures forall p :: 0 <= p < |s| && rank(s[p]) == x ==>
              FoundAt(s, order, rank, x, Where(s, order, rank, x)) && order[Where(s, order, rank, x)] == p
  {
    var v := Ranks(s, order, rank);
    BisectSplits(v, x, 0, |v|);
    var pos := Where(s, order, rank, x);
    forall p | 0 <= p < |s| && rank(s[p]) == x
      ensures FoundAt(s, order, rank, x, pos) && order[pos] == p
    {
      var i :| 0 <= i < |order| && order[i] == p;
      assert v[i] == x;
    }
  }

  function InsertAt(order: seq<nat>, pos: nat, p: nat): (r: seq<nat>)
    requires pos <= |order|
    ensures |r| == |order| + 1
    ensures forall i :: 0 <= i < |r| ==> r[i] == if i < pos then order[i] else if i == pos then p else order[i - 1]
  {
    order[..pos] + [p] + order[pos..]
  }

  function RemoveAt(order: seq<nat>, pos: nat): (r: seq<nat>)
    requires pos < |order|
    ensures |r| == |order| - 1
    ensures forall i :: 0 <= i < |r| ==> r[i] == if i < pos then order[i] else order[i + 1]
  {
    order[..pos] + order[pos + 1..]
  }

  lemma KeepIndexed(s: seq<Slot>, order: seq<nat>, rank: Rank, p: nat, slot: Slot)
    requires Indexed(s, order, rank) && p < |s| && rank(slot) == rank(s[p])
    ensures Indexed(s[p := slot], order, rank)
  {
    assert Ranks(s[p := slot], order, rank) == Ranks(s, order, rank);
  }

  lemma InsertIncreases(v: seq<nat>, x: nat, pos: nat)
    requires Increasing(v) && Splits(v, x, pos) && x !in v
    ensures Increasing(InsertAt(v, pos, x))
    ensures 0 !in v && x != 0 ==> 0 !in InsertAt(v, pos, x)
  {
    assert forall i :: 0 <= i < |v| ==> v[i] != x;
  }

  lemma RemoveIncreases(v: seq<nat>, pos: nat)
    requires Increasing(v) && pos < |v|
    ensures Increasing(RemoveAt(v, pos))
    ensures 0 !in v ==> 0 !in RemoveAt(v, pos)
  {
  }

  lemma InsertRanks(s: seq<Slot>, order: seq<nat>, rank: Rank, p: nat, slot: Slot, pos: nat)
    requires Within(s, order) && p < |s| && p !in order && pos <= |order|
    ensures Within(s[p := slot], InsertAt(order, pos, p))
    ensures Ranks(s[p := slot], InsertAt(order, pos, p), rank) == InsertAt(Ranks(s, order, rank), pos, rank(slot))
  {
    assert forall i :: 0 <= i < |order| ==> order[i] != p;
  }

  lemma InsertCovers(order: seq<nat>, pos: nat, p: nat, q: nat)
    requires pos <= |order| && (q == p || q in order)
    ensures q in InsertAt(order, pos, p)
  {
    if q == p {
      assert InsertAt(order, pos, p)[pos] == p;
    } else {
      var i :| 0 <= i < |order| && order[i] == q;
      assert InsertAt(order, pos, p)[if i < pos then i else i + 1] == q;
    }
  }

  lemma AddIndexed(s: seq<Slot>, order: seq<nat>, rank: Rank, p: nat, slot: Slot)
    requires Indexed(s, order, rank) && p < |s| && rank(s[p]) == 0 && rank(slot) != 0
    requires forall q :: 0 <= q < |s| ==> rank(s[q]) != rank(slot)
    ensures Indexed(s[p := slot], InsertAt(order, Where(s, order, rank, rank(slot)), p), rank)
  {
    hide InsertAt, Increasing, Bisect;
    var x := rank(slot);
    var v := Ranks(s, order, rank);
    var pos := Where(s, order, rank, x);
    var t, order' := s[p := slot], InsertAt(order, pos, p);
    assert forall i :: 0 <= i < |v| ==> v[i] != x && v[i] != 0 && order[i] != p;
    BisectSplits(v, x, 0, |v|);
    InsertIncreases(v, x, pos);
    InsertRanks(s, order, rank, p, slot, pos);
    forall q | 0 <= q < |t| && rank(t[q]) != 0 ensures q in order' {
      InsertCovers(order, pos, p, q);
    }
  }

  lemma RemoveRanks(s: seq<Slot>, order: seq<nat>, rank: Rank, p: nat, slot: Slot, pos: nat)
    requires Within(s, order) && p < |s| && pos < |order| && Increasing(Ranks(s, order, rank)) && order[pos] == p
    ensures p !in RemoveAt(order, pos)
    ensures Within(s[p := slot], RemoveAt(order, pos))
    ensures Ranks(s[p := slot], RemoveAt(order, pos), rank) == RemoveAt(Ranks(s, order, rank), pos)
  {
    var v := Ranks(s, order, rank);
    assert forall i :: 0 <= i < |order| && i != pos ==> v[i] != v[pos] && order[i] != p;
  }

  lemma RemoveCovers(order: seq<nat>, pos: nat, q: nat)
    requires pos < |order| && q != order[pos] && q in order
    ensures q in RemoveAt(order, pos)
  {
    var i :| 0 <= i < |order| && order[i] == q;
    assert RemoveAt(order, pos)[if i < pos then i else i - 1] == q;
  }

  lemma DropIndexed(s: seq<Slot>, order: seq<nat>, rank: Rank, p: nat, slot: Slot)
    requires Indexed(s, order, rank) && p < |s| && rank(s[p]) != 0 && rank(slot) == 0
    ensures Where(s, order, rank, rank(s[p])) < |order|
    ensures Indexed(s[p := slot], RemoveAt(order, Where(s, order, rank, rank(s[p]))), rank)
    ensures p !in RemoveAt(order, Where(s, order, rank, rank(s[p])))
  {
    hide RemoveAt, Increasing, Bisect;
    var v := Ranks(s, order, rank);
    SearchIsExact(s, order, rank, rank(s[p]));
    var pos := Where(s, order, rank, rank(s[p]));
    RemoveIncreases(v, pos);
    RemoveRanks(s, order, rank, p, slot, pos);
    var t, order' := s[p := slot], RemoveAt(order, pos);
    forall q | 0 <= q < |t| && rank(t[q]) != 0 ensures q in order' {
      RemoveCovers(order, pos, q);
    }
  }

  function Without(s: seq<Slot>, order: seq<nat>, rank: Rank, x: nat): (r: seq<nat>)
    requires Within(s, order)
    ensures Within(s, r)
  {
    var pos := Where(s, order, rank, x);
    if pos < |order| then RemoveAt(order, pos) else order
  }

  /** Giving a slot a new rank: out of the array under the old one, in under the new one. The search for
      the new place runs while the slot still has its old rank. */
  function Moved(s: seq<Slot>, order: seq<nat>, rank: Rank, p: nat, x: nat): seq<nat>
    requires Within(s, order) && p < |s|
  {
    var rest := if rank(s[p]) != 0 then Without(s, order, rank, rank(s[p])) else order;
    InsertAt(rest, Where(s, rest, rank, x), p)
  }

  lemma MoveIndexed(s: seq<Slot>, order: seq<nat>, rank: Rank, p: nat, gone: Slot, slot: Slot)
    requires Indexed(s, order, rank) && p < |s| && rank(gone) == 0 && rank(slot) != 0
    requires forall q :: 0 <= q < |s| ==> rank(s[q]) != rank(slot)
    ensures Indexed(s[p := slot], Moved(s, order, rank, p, rank(slot)), rank)
  {
    if rank(s[p]) == 0 {
      AddIndexed(s, order, rank, p, slot);
    } else {
      DropIndexed(s, order, rank, p, gone);
      var rest := RemoveAt(order, Where(s, order, rank, rank(s[p])));
      var t := s[p := gone];
      AddIndexed(t, rest, rank, p, slot);
      assert t[p := slot] == s[p := slot];
      assert forall i :: 0 <= i < |rest| ==> rest[i] != p;
      assert Ranks(s, rest, rank) == Ranks(t, rest, rank);
    }
  }

  function Members(order: seq<nat>): set<nat> {
    set q | q in order
  }

  lemma IndexedCount(s: seq<Slot>, order: seq<nat>, rank: Rank)
    requires Indexed(s, order, rank)
    ensures |Members(order)| == |order|
  {
    var v := Ranks(s, order, rank);
    var seen: set<nat> := {};
    for i := 0 to |order|
      invariant |seen| == i
      invariant forall p :: p in seen <==> p in order[..i]
    {
      assert order[..i + 1] == order[..i] + [order[i]];
      assert forall j :: 0 <= j < i ==> v[j] < v[i] && order[j] != order[i];
      seen := seen + {order[i]};
    }
    assert order[..|order|] == order;
    assert seen == Members(order);
  }

  /** The arrays never outgrow the table. */
  lemma IndexedFits(s: seq<Slot>, order: seq<nat>, rank: Rank)
    requires Indexed(s, order, rank)
    ensures |order| <= |s|
  {
    IndexedCount(s, order, rank);
    SubsetSize(Members(order), Below(|s|));
  }

  // ---------- the two together ----------

  /** Searching the id array is searching the partial function for an entry that carries the id. */
  lemma IdSearch(s: seq<Slot>, place: map<Key, nat>, m: Entries, ids: seq<nat>, tid: Tid)
    requires Holds(s, place, m) && Indexed(s, ids, TidOf)
    ensures FoundAt(s, ids, TidOf, tid, Where(s, ids, TidOf, tid)) <==> Carried(m, tid)
    ensures Carried(m, tid) ==>
              var p := ids[Where(s, ids, TidOf, tid)];
              s[p].Used? && forall key :: Carries(m, key, tid) <==> key == s[p].key
  {
    var pos := Where(s, ids, TidOf, tid);
    var v := Ranks(s, ids, TidOf);
    if FoundAt(s, ids, TidOf, tid, pos) {
      assert v[pos] == tid;
      assert Carries(m, s[ids[pos]].key, tid);
    }
    if tid != 0 {
      SearchIsExact(s, ids, TidOf, tid);
    }
    forall key | Carries(m, key, tid)
      ensures FoundAt(s, ids, TidOf, tid, pos) && s[ids[pos]] == Used(key, m[key])
    {
      assert TidOf(s[place[key]]) == tid;
    }
  }

  lemma ChannelSearch(s: seq<Slot>, place: map<Key, nat>, m: Entries, ch: seq<nat>, channel: nat)
    requires Holds(s, place, m) && Indexed(s, ch, ChannelOf)
    ensures FoundAt(s, ch, ChannelOf, channel, Where(s, ch, ChannelOf, channel)) <==> Bound(m, channel)
    ensures Bound(m, channel) ==>
              var p := ch[Where(s, ch, ChannelOf, channel)];
              s[p].Used? && forall key :: Binds(m, key, channel) <==> key == s[p].key
  {
    var pos := Where(s, ch, ChannelOf, channel);
    var v := Ranks(s, ch, ChannelOf);
    if FoundAt(s, ch, ChannelOf, channel, pos) {
      assert v[pos] == channel;
      assert Binds(m, s[ch[pos]].key, channel);
    }
    if channel != 0 {
      SearchIsExact(s, ch, ChannelOf, channel);
    }
    forall key | Binds(m, key, channel)
      ensures FoundAt(s, ch, ChannelOf, channel, pos) && s[ch[pos]] == Used(key, m[key])
    {
      assert ChannelOf(s[place[key]]) == channel;
    }
  }

  lemma NewId(s: seq<Slot>, place: map<Key, nat>, m: Entries, tid: Tid)
    requires Holds(s, place, m) && tid != 0 && !Carried(m, tid)
    ensures forall q :: 0 <= q < |s| ==> TidOf(s[q]) != tid
  {
    forall q | 0 <= q < |s| ensures TidOf(s[q]) != tid {
      assert s[q].Used? ==> !Carries(m, s[q].key, tid);
    }
  }

  lemma NewChannel(s: seq<Slot>, place: map<Key, nat>, m: Entries, channel: nat)
    requires Holds(s, place, m) && channel != 0 && !Bound(m, channel)
    ensures forall q :: 0 <= q < |s| ==> ChannelOf(s[q]) != channel
  {
    forall q | 0 <= q < |s| ensures ChannelOf(s[q]) != channel {
      assert s[q].Used? ==> !Binds(m, s[q].key, channel);
    }
  }

  /** A position that is not listed leaves room for one more. */
  lemma RoomToInsert(s: seq<Slot>, order: seq<nat>, rank: Rank, p: nat)
    requires Indexed(s, order, rank) && p < |s| && rank(s[p]) == 0
    ensures |order| < |s|
  {
    IndexedCount(s, order, rank);
    var v := Ranks(s, order, rank);
    assert forall i :: 0 <= i < |order| ==> v[i] != 0 && order[i] != p;
    SubsetSize(Members(order) + {p}, Below(|s|));
  }

  lemma MovedFits(s: seq<Slot>, order: seq<nat>, rank: Rank, p: nat, slot: Slot)
    requires Within(s, order) && p < |s|
    requires Indexed(s[p := slot], Moved(s, order, rank, p, rank(slot)), rank)
    ensures |Moved(s, order, rank, p, rank(slot))| <= |s|
  {
    IndexedFits(s[p := slot], Moved(s, order, rank, p, rank(slot)), rank);
  }

  class Map {
    const hash: Hash
    ghost const client: bool
    const slots: array<Slot>
    const orderedChannels: array<nat>
    const orderedIds: array<nat>
    var channelsCount: nat
    var idsCount: nat
    ghost var Slots: seq<Slot>
    ghost var Channels: seq<nat>
    ghost var Ids: seq<nat>
    ghost var Place: map<Key, nat>
    ghost var Entries: Entries

    ghost predicate Arrays()
      reads this, slots, orderedChannels, orderedIds
    {
      && slots[..] == Slots
      && orderedChannels != orderedIds
      && orderedChannels.Length == orderedIds.Length == slots.Length
      && channelsCount == |Channels| <= slots.Length && orderedChannels[..channelsCount] == Channels
      && idsCount == |Ids| <= slots.Length && orderedIds[..idsCount] == Ids
    }

    /** A client keeps every id in the id array; on a server that array stays empty. */
    ghost predicate Valid()
      reads this, slots, orderedChannels, orderedIds
    {
      && Arrays()
      && TableOk(hash, Slots, Place, Entries)
      && Indexed(Slots, Channels, ChannelOf)
      && (if client then Indexed(Slots, Ids, TidOf) else Ids == [])
    }

    constructor (hash: Hash, size: nat, ghost client: bool)
      requires size > 0
      ensures this.hash == hash && this.client == client && Valid() && Entries == map[] && slots.Length == size * 2
      ensures fresh(slots) && fresh(orderedChannels) && fresh(orderedIds)
    {
      this.hash := hash;
      this.client := client;
      slots := new Slot[size * 2](_ => Empty);
      orderedChannels := new nat[size * 2](_ => 0);
      orderedIds := new nat[size * 2](_ => 0);
      channelsCount, idsCount := 0, 0;
      Slots := seq(size * 2, _ => Empty);
      Channels, Ids, Place, Entries := [], [], map[], map[];
    }

    /** find_entry: the slot the probe of the key stops at. */
    method Probe(key: Key) returns (found: bool, pos: nat, ghost d: nat)
      requires |Slots| > 0 && slots[..] == Slots
      ensures d <= |Slots| && PathClear(hash, Slots, key, d)
      ensures found <==> d < |Slots|
      ensures found ==> pos < |Slots| && pos == At(|Slots|, Home(hash, |Slots|, key), d) && !Passes(Slots[pos], key)
    {
      var n := slots.Length;
      var home := Home(hash, n, key);
      pos := home;
      d := 0;
      while true
        invariant n == |Slots| && d < n && pos == At(n, home, d)
        invariant PathClear(hash, Slots, key, d)
        decreases n - d
      {
        var s := slots[pos];
        assert s == Slots[pos];
        if s.Empty? || s.key == key {
          return true, pos, d;
        }
        pos := if pos + 1 == n then 0 else pos + 1;
        d := d + 1;
        if pos == home {
          return false, pos, d;
        }
      }
    }

    method Find(key: Key) returns (found: bool, pos: nat, ghost d: nat)
      requires Arrays() && TableOk(hash, Slots, Place, Entries)
      ensures found <==> Room(Entries, |Slots|, key)
      ensures found ==>
                && pos < |Slots| && d < |Slots| && pos == At(|Slots|, Home(hash, |Slots|, key), d)
                && PathClear(hash, Slots, key, d) && !Passes(Slots[pos], key)
                && Slots[pos] == (if key in Entries then Used(key, Entries[key]) else Empty)
    {
      found, pos, d := Probe(key);
      ProbeIsExact(hash, Slots, Place, Entries, key, d);
    }

    /** Fills the slot the probe stopped at. */
    method Put(pos: nat, key: Key, info: Info, ghost d: nat)
      requires Arrays() && TableOk(hash, Slots, Place, Entries)
      requires d < |Slots| && PathClear(hash, Slots, key, d) && pos == At(|Slots|, Home(hash, |Slots|, key), d)
      requires !Passes(Slots[pos], key)
      modifies slots, `Slots, `Place, `Entries
      ensures Arrays() && TableOk(hash, Slots, Place, Entries)
      ensures Slots == old(Slots)[pos := Used(key, info)]
      ensures Entries == old(Entries)[key := info]
    {
      hide TableOk, PathClear;
      PutKeepsTable(hash, Slots, Place, Entries, key, info, d);
      slots[pos] := Used(key, info);
      Slots := Slots[pos := Used(key, info)];
      Place := Place[key := pos];
      Entries := Entries[key := info];
    }

    method Touch(pos: nat, info: Info)
      requires Arrays() && TableOk(hash, Slots, Place, Entries) && pos < |Slots| && Slots[pos].Used?
      modifies slots, `Slots, `Entries
      ensures Arrays() && TableOk(hash, Slots, Place, Entries)
      ensures Slots == old(Slots)[pos := Used(old(Slots)[pos].key, info)]
      ensures Entries == old(Entries)[old(Slots)[pos].key := info]
    {
      hide TableOk;
      TouchKeepsTable(hash, Slots, Place, Entries, pos, info);
      var key := slots[pos].key;
      assert key == Slots[pos].key;
      slots[pos] := Used(key, info);
      Slots := Slots[pos := Used(key, info)];
      Entries := Entries[key := info];
    }

    /** memmove up by one and store. */
    method Insert(order: array<nat>, count: nat, pos: nat, p: nat)
      requires pos <= count < order.Length
      modifies order
      ensures order[..count + 1] == InsertAt(old(order[..count]), pos, p)
    {
      forall i | pos < i <= count {
        order[i] := order[i - 1];
      }
      order[pos] := p;
    }

    /** memmove down by one. */
    method Remove(order: array<nat>, count: nat, pos: nat)
      requires pos < count <= order.Length
      modifies order
      ensures order[..count - 1] == RemoveAt(old(order[..count]), pos)
    {
      forall i | pos <= i < count - 1 {
        order[i] := order[i + 1];
      }
    }

    function IdPosition(tid: Tid): (pos: nat)
      requires Arrays() && Within(Slots, Ids)
      reads this, slots, orderedChannels, orderedIds
      ensures pos == Where(Slots, Ids, TidOf, tid)
    {
      Where(slots[..], orderedIds[..idsCount], TidOf, tid)
    }

    function ChannelPosition(channel: nat): (pos: nat)
      requires Arrays() && Within(Slots, Channels)
      reads this, slots, orderedChannels, orderedIds
      ensures pos == Where(Slots, Channels, ChannelOf, channel)
    {
      Where(slots[..], orderedChannels[..channelsCount], ChannelOf, channel)
    }

    /** remove_ordered_transaction_id: whatever stands where the id belongs is taken out. */
    method RemoveId(tid: Tid)
      requires Arrays() && Within(Slots, Ids)
      modifies orderedIds, `Ids, `idsCount
      ensures Arrays()
      ensures Ids == Without(Slots, old(Ids), TidOf, tid)
    {
      var at := IdPosition(tid);
      if at < idsCount {
        Remove(orderedIds, idsCount, at);
        idsCount := idsCount - 1;
        Ids := RemoveAt(Ids, at);
      }
    }

    method InsertId(tid: Tid, p: nat)
      requires Arrays() && Within(Slots, Ids) && idsCount < slots.Length
      modifies orderedIds, `Ids, `idsCount
      ensures Arrays()
      ensures Ids == InsertAt(old(Ids), Where(Slots, old(Ids), TidOf, tid), p)
    {
      var at := IdPosition(tid);
      Insert(orderedIds, idsCount, at, p);
      idsCount := idsCount + 1;
      Ids := InsertAt(Ids, at, p);
    }

    method InsertChannel(at: nat, p: nat)
      requires Arrays() && at <= channelsCount < slots.Length
      modifies orderedChannels, `Channels, `channelsCount
      ensures Arrays()
      ensures Channels == InsertAt(old(Channels), at, p)
    {
      Insert(orderedChannels, channelsCount, at, p);
      channelsCount := channelsCount + 1;
      Channels := InsertAt(Channels, at, p);
    }

    /** update_timestamp given a record, as the server calls it. */
    method Permit(r: Endpoint, tid: Tid, expiry: nat) returns (ok: bool)
      requires Valid() && !client
      modifies slots, orderedIds, `Slots, `Place, `Entries, `Ids, `idsCount
      ensures Valid()
      ensures ok <==> Room(old(Entries), slots.Length, KeyOf(Permission, r))
      ensures Entries == TurnSpec.Permit(old(Entries), slots.Length, r, tid, expiry)
      ensures TurnLive.Accepts(old(Entries), slots.Length, r, tid) ==> TurnLive.PermittedUntil(Entries, r, expiry)
    {
      hide TableOk, Indexed, Probed, Holds, TurnLive.PermittedUntil;
      if TurnLive.Accepts(Entries, slots.Length, r, tid) {
        TurnLive.PermitGrants(Entries, slots.Length, r, tid, expiry);
      }
      var key := KeyOf(Permission, r);
      var found, pos, d := Find(key);
      if !found {
        return false;
      }
      var s := slots[pos];
      assert s == Slots[pos];
      if s.Used? && s.info.tid == tid {
        return true;
      }
      var info := if s.Used? then s.info else Blank(r);
      if info.tid != 0 {
        RemoveId(info.tid);
      }
      info := info.(tid := tid, timestamp := expiry, recent := false);
      KeepIndexed(Slots, Channels, ChannelOf, pos, Used(key, info));
      Put(pos, key, info, d);
      return true;
    }

    /** update_timestamp given only a transaction id, as the client calls it. */
    method Confirm(kind: Kind, tid: Tid, expiry: nat) returns (ok: bool)
      requires Valid() && client
      modifies slots, `Slots, `Entries
      ensures Valid()
      ensures ok <==> exists key: Key :: key.kind == kind && Carries(old(Entries), key, tid)
      ensures Entries == TurnSpec.Confirm(old(Entries), kind, tid, expiry)
    {
      hide TableOk, Indexed, Probed, Holds;
      Unfold();
      IdSearch(Slots, Place, Entries, Ids, tid);
      assert !Carried(Entries, tid) ==> Entries == TurnSpec.Confirm(Entries, kind, tid, expiry);
      var at := IdPosition(tid);
      if at == idsCount {
        return false;
      }
      var p := orderedIds[at];
      assert p == Ids[at];
      var s := slots[p];
      assert s == Slots[p];
      if s.Empty? || s.key.kind != kind || s.info.tid != tid {
        assert Entries == TurnSpec.Confirm(Entries, kind, tid, expiry);
        return false;
      }
      assert Carries(Entries, s.key, tid);
      var info := s.info.(timestamp := expiry, recent := false);
      Refresh(p, info);
      return true;
    }

    /** turn_bind_channel; a client passes no transaction id. */
    method Bind(r: Endpoint, tid: Option<Tid>, channel: nat, expiry: nat) returns (ok: bool)
      requires Valid() && (client ==> tid.None?)
      modifies slots, orderedChannels, `Slots, `Place, `Entries, `Channels, `channelsCount
      ensures Valid()
      ensures ok <==> CanBind(old(Entries), slots.Length, r, channel)
      ensures Entries == TurnSpec.Bind(old(Entries), slots.Length, r, tid, channel, expiry)
      ensures ok ==> TurnLive.ChannelUntil(Entries, r, channel, expiry)
    {
      hide TableOk, Indexed, Probed, Holds, Bound, PathClear, TurnLive.ChannelUntil;
      if CanBind(Entries, slots.Length, r, channel) {
        TurnLive.BindGrants(Entries, slots.Length, r, tid, channel, expiry);
      }
      if channel < FIRST_CHANNEL {
        return false;
      }
      var key := KeyOf(Channel, r);
      var found, pos, d := Find(key);
      if !found {
        return false;
      }
      var s := slots[pos];
      assert s == Slots[pos];
      if s.Used? && s.info.channel != 0 {
        if s.info.channel == channel {
          Refresh(pos, s.info.(timestamp := expiry));
        }
        return s.info.channel == channel;
      }
      Unfold();
      ChannelSearch(Slots, Place, Entries, Channels, channel);
      var at := ChannelPosition(channel);
      if at < channelsCount && ChannelAt(at) == channel {
        return false;
      }
      var info := (if s.Used? then s.info else Blank(r)).(channel := channel, timestamp := expiry);
      if tid.Some? {
        info := info.(tid := tid.value, recent := true);
      }
      Attach(pos, key, info, d, at);
      return true;
    }

    function ChannelAt(at: nat): (c: nat)
      requires Arrays() && Within(Slots, Channels) && at < channelsCount
      reads this, slots, orderedChannels, orderedIds
      ensures c == ChannelOf(Slots[Channels[at]])
    {
      assert orderedChannels[at] == Channels[at];
      assert slots[orderedChannels[at]] == Slots[orderedChannels[at]];
      ChannelOf(slots[orderedChannels[at]])
    }

    /** Changes the time or the recent mark of a stored entry. */
    method Refresh(pos: nat, info: Info)
      requires Valid() && pos < |Slots| && Slots[pos].Used?
      requires info.channel == Slots[pos].info.channel && info.tid == Slots[pos].info.tid
      modifies slots, `Slots, `Entries
      ensures Valid()
      ensures Entries == old(Entries)[old(Slots)[pos].key := info]
    {
      hide TableOk, Indexed;
      ghost var slot := Used(Slots[pos].key, info);
      KeepIndexed(Slots, Channels, ChannelOf, pos, slot);
      if client {
        KeepIndexed(Slots, Ids, TidOf, pos, slot);
      }
      Touch(pos, info);
    }

    /** Fills the slot and enters it into the channel array. */
    method Attach(pos: nat, key: Key, info: Info, ghost d: nat, at: nat)
      requires Valid() && d < |Slots| && PathClear(hash, Slots, key, d)
      requires pos == At(|Slots|, Home(hash, |Slots|, key), d) && !Passes(Slots[pos], key)
      requires ChannelOf(Slots[pos]) == 0 && info.channel != 0 && !Bound(Entries, info.channel)
      requires at == Where(Slots, Channels, ChannelOf, info.channel)
      requires client ==> info.tid == TidOf(Slots[pos])
      modifies slots, orderedChannels, `Slots, `Place, `Entries, `Channels, `channelsCount
      ensures Valid()
      ensures Entries == old(Entries)[key := info]
    {
      hide TableOk, Indexed, Probed, Holds, Bound, PathClear;
      ghost var slot := Used(key, info);
      Unfold();
      NewChannel(Slots, Place, Entries, info.channel);
      AddIndexed(Slots, Channels, ChannelOf, pos, slot);
      RoomToInsert(Slots, Channels, ChannelOf, pos);
      if client {
        KeepIndexed(Slots, Ids, TidOf, pos, slot);
      }
      InsertChannel(at, pos);
      Put(pos, key, info, d);
    }

    /** set_random_transaction_id. The id drawn is one the map does not have. */
    method Issue(kind: Kind, r: Endpoint, draw: Tid) returns (id: Option<Tid>)
      requires Valid() && client && draw != 0 && !Carried(Entries, draw)
      modifies slots, orderedIds, `Slots, `Place, `Entries, `Ids, `idsCount
      ensures Valid()
      ensures (Entries, id) == TurnSpec.Issue(old(Entries), slots.Length, kind, r, draw)
    {
      hide TableOk, Indexed, Probed, Holds, Carried, PathClear;
      var key := KeyOf(kind, r);
      var found, pos, d := Find(key);
      if !found {
        return None;
      }
      var s := slots[pos];
      assert s == Slots[pos];
      if s.Used? && s.info.recent {
        return Some(s.info.tid);
      }
      SetId(pos, key, (if s.Used? then s.info else Blank(r)).(tid := draw, recent := true), d);
      return Some(draw);
    }

    /** set_transaction_id: takes the old id out of the array, enters the new one, and fills the slot. */
    method SetId(pos: nat, key: Key, info: Info, ghost d: nat)
      requires Valid() && client && d < |Slots| && PathClear(hash, Slots, key, d)
      requires pos == At(|Slots|, Home(hash, |Slots|, key), d) && !Passes(Slots[pos], key)
      requires info.tid != 0 && !Carried(Entries, info.tid) && info.channel == ChannelOf(Slots[pos])
      modifies slots, orderedIds, `Slots, `Place, `Entries, `Ids, `idsCount
      ensures Valid()
      ensures Entries == old(Entries)[key := info]
    {
      hide TableOk, Indexed, Probed, Holds, Carried, PathClear;
      ghost var slot := Used(key, info);
      Unfold();
      NewId(Slots, Place, Entries, info.tid);
      MoveIndexed(Slots, Ids, TidOf, pos, Empty, slot);
      MovedFits(Slots, Ids, TidOf, pos, slot);
      KeepIndexed(Slots, Channels, ChannelOf, pos, slot);
      var s := slots[pos];
      assert s == Slots[pos];
      if s.Used? && s.info.tid != 0 {
        RemoveId(s.info.tid);
      }
      InsertId(info.tid, pos);
      Put(pos, key, info, d);
    }

    /** turn_retrieve_transaction_id. */
    method Retrieve(tid: Tid) returns (record: Option<Endpoint>)
      requires Valid() && client
      modifies slots, `Slots, `Entries
      ensures Valid()
      ensures record.Some? <==> Carried(old(Entries), tid)
      ensures forall key :: Carries(old(Entries), key, tid) ==> record == Some(old(Entries)[key].record)
      ensures Entries == TurnSpec.Retrieve(old(Entries), tid)
    {
      hide TableOk, Indexed, Probed, Holds;
      Unfold();
      IdSearch(Slots, Place, Entries, Ids, tid);
      assert !Carried(Entries, tid) ==> Entries == TurnSpec.Retrieve(Entries, tid);
      var at := IdPosition(tid);
      if at == idsCount {
        return None;
      }
      var p := orderedIds[at];
      assert p == Ids[at];
      var s := slots[p];
      assert s == Slots[p];
      if s.Empty? || s.info.tid != tid {
        return None;
      }
      assert Carries(Entries, s.key, tid);
      Refresh(p, s.info.(recent := false));
      return Some(s.info.record);
    }

    method HasPermission(r: Endpoint, now: nat) returns (live: bool)
      requires Valid()
      ensures live <==> TurnSpec.HasPermission(Entries, r, now)
    {
      var found, pos, d := Find(KeyOf(Permission, r));
      return found && slots[pos].Used? && now < slots[pos].info.timestamp;
    }

    method GetChannel(r: Endpoint) returns (channel: Option<nat>)
      requires Valid()
      ensures channel == if KeyOf(Channel, r) in Entries then Some(Entries[KeyOf(Channel, r)].channel) else None
    {
      var found, pos, d := Find(KeyOf(Channel, r));
      return if found && slots[pos].Used? then Some(slots[pos].info.channel) else None;
    }

    method GetBoundChannel(r: Endpoint, now: nat) returns (channel: Option<nat>)
      requires Valid()
      ensures channel == if TurnSpec.HasBoundChannel(Entries, r, now) then Some(Entries[KeyOf(Channel, r)].channel) else None
    {
      var found, pos, d := Find(KeyOf(Channel, r));
      if !found || slots[pos].Empty? {
        return None;
      }
      var info := slots[pos].info;
      return if info.channel == 0 || now >= info.timestamp then None else Some(info.channel);
    }

    /** turn_find_channel: the peer a channel is bound to, by bisection. */
    method FindChannel(channel: nat) returns (record: Option<Endpoint>)
      requires Valid()
      ensures record.Some? <==> channel >= FIRST_CHANNEL && Bound(Entries, channel)
      ensures forall key :: record.Some? && Binds(Entries, key, channel) ==> record.value == Entries[key].record
    {
      hide TableOk, Indexed, Probed, Holds;
      if channel < FIRST_CHANNEL {
        return None;
      }
      Unfold();
      ChannelSearch(Slots, Place, Entries, Channels, channel);
      var at := ChannelPosition(channel);
      if at == channelsCount || ChannelAt(at) != channel {
        return None;
      }
      return Some(InfoAt(at).record);
    }

    function InfoAt(at: nat): (info: Info)
      requires Arrays() && Within(Slots, Channels) && at < channelsCount && Slots[Channels[at]].Used?
      reads this, slots, orderedChannels, orderedIds
      ensures info == Slots[Channels[at]].info
    {
      assert orderedChannels[at] == Channels[at];
      assert slots[orderedChannels[at]] == Slots[orderedChannels[at]];
      slots[orderedChannels[at]].info
    }

    /** turn_find_bound_channel. */
    method FindBoundChannel(channel: nat, now: nat) returns (record: Option<Endpoint>)
      requires Valid()
      ensures record.Some? <==>
                channel >= FIRST_CHANNEL && exists key :: Binds(Entries, key, channel) && now < Entries[key].timestamp
      ensures forall key :: record.Some? && Binds(Entries, key, channel) ==> record.value == Entries[key].record
    {
      hide TableOk, Indexed, Probed, Holds;
      if channel < FIRST_CHANNEL {
        return None;
      }
      Unfold();
      ChannelSearch(Slots, Place, Entries, Channels, channel);
      var at := ChannelPosition(channel);
      if at == channelsCount || ChannelAt(at) != channel || now >= InfoAt(at).timestamp {
        return None;
      }
      return Some(InfoAt(at).record);
    }

    lemma Unfold()
      requires Valid()
      ensures Holds(Slots, Place, Entries) && Within(Slots, Channels) && Within(Slots, Ids)
      ensures forall p :: 0 <= p < |Slots| && Slots[p].Used? ==>
                Slots[p].key in Entries && Entries[Slots[p].key] == Slots[p].info
    {
    }
  }
}
