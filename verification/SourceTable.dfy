/**
 The open-addressed table from source address to agent of src/conn_mux.c, with tombstones.

 The table is an array of slots probed from the hash of the key. The first part of this module
 states on sequences of slots what makes such an array a partial function; the class keeps it.
 */
module SourceTable {
  import opened Addr
  import opened Basics

  type Agent = nat

  const INITIAL_MAP_SIZE: nat := 16

  /** A deleted slot keeps its record: the probe compares records before it looks at the type. */
  datatype Slot = Empty | Deleted(record: Endpoint) | Full(record: Endpoint, agent: Agent)

  /** Where probes start depends on the record alone; nothing below needs to know how. */
  type Hash = Endpoint -> nat

  function Home(f: Hash, n: nat, r: Endpoint): (h: nat)
    requires n > 0
    ensures h < n
  {
    f(r) % n
  }

  /** The slot reached from h after d steps of pos = (pos + 1) % n. */
  function At(n: nat, h: nat, d: nat): (p: nat)
    requires h < n && d < n
    ensures p < n
  {
    if h + d < n then h + d else h + d - n
  }

  /** How many steps the probe takes from h to p. */
  function Distance(n: nat, h: nat, p: nat): (d: nat)
    requires h < n && p < n
    ensures d < n && At(n, h, d) == p
  {
    if h <= p then p - h else p + n - h
  }

  predicate Passes(s: Slot, r: Endpoint) {
    !s.Empty? && s.record != r
  }

  /** The probe of r walks over the first d slots without stopping at one. */
  predicate PathClear(f: Hash, s: seq<Slot>, r: Endpoint, d: nat)
    requires 0 < |s| && d <= |s|
  {
    forall k :: 0 <= k < d ==> Passes(s[At(|s|, Home(f, |s|, r), k)], r)
  }

  predicate NoTombstone(f: Hash, s: seq<Slot>, r: Endpoint, d: nat)
    requires 0 < |s| && d <= |s|
  {
    forall k :: 0 <= k < d ==> !s[At(|s|, Home(f, |s|, r), k)].Deleted?
  }

  /** Every full slot is the one the probe of its own record stops at. */
  ghost predicate Probed(f: Hash, s: seq<Slot>) {
    forall p :: 0 <= p < |s| && s[p].Full? ==>
      PathClear(f, s, s[p].record, Distance(|s|, Home(f, |s|, s[p].record), p))
  }

  ghost predicate Stored(s: seq<Slot>, r: Endpoint) {
    exists p :: 0 <= p < |s| && s[p].Full? && s[p].record == r
  }

  ghost predicate Represents(s: seq<Slot>, m: map<Endpoint, Agent>) {
    && (forall p :: 0 <= p < |s| && s[p].Full? ==> s[p].record in m && m[s[p].record] == s[p].agent)
    && (forall r :: r in m ==> Stored(s, r))
  }

  /** What every operation keeps: a partial function, at most half full, counted exactly. */
  ghost predicate Good(f: Hash, s: seq<Slot>, count: nat, m: map<Endpoint, Agent>) {
    && |s| > 0 && |s| % 2 == 0
    && Probed(f, s)
    && Represents(s, m)
    && count == |m|
    && count * 2 <= |s|
  }

  /** No record sits in two full slots. */
  lemma FullSlotsDistinct(f: Hash, s: seq<Slot>, p: nat, q: nat)
    requires Probed(f, s) && p < |s| && q < |s| && p != q && s[p].Full? && s[q].Full?
    ensures s[p].record != s[q].record
  {
    var h := Home(f, |s|, s[p].record);
    var dp, dq := Distance(|s|, h, p), Distance(|s|, h, q);
    assert At(|s|, h, dp) == p && At(|s|, h, dq) == q;
  }

  lemma EmptyIsGood(f: Hash, n: nat)
    requires n > 0 && n % 2 == 0
    ensures Good(f, seq(n, _ => Empty), 0, map[])
  {
  }

  /** The records of the first n slots. */
  ghost function Records(s: seq<Slot>, n: nat): (rs: set<Endpoint>)
    requires n <= |s| && forall p :: 0 <= p < n ==> s[p].Full?
    ensures forall r :: r in rs <==> exists p :: 0 <= p < n && s[p].record == r
  {
    if n == 0 then {} else Records(s, n - 1) + {s[n - 1].record}
  }

  lemma {:induction false} RecordsSize(f: Hash, s: seq<Slot>, n: nat)
    requires Probed(f, s) && n <= |s| && forall p :: 0 <= p < |s| ==> s[p].Full?
    ensures |Records(s, n)| == n
  {
    hide Probed;
    if n > 0 {
      RecordsSize(f, s, n - 1);
      NewRecord(f, s, n - 1);
    }
  }

  lemma NewRecord(f: Hash, s: seq<Slot>, n: nat)
    requires Probed(f, s) && n < |s| && forall p :: 0 <= p < |s| ==> s[p].Full?
    ensures s[n].record !in Records(s, n)
  {
    hide Probed;
    forall q | 0 <= q < n ensures s[q].record != s[n].record {
      FullSlotsDistinct(f, s, q, n);
    }
  }

  /** A table without a free slot holds one mapping per slot. */
  lemma FullTableSize(f: Hash, s: seq<Slot>, m: map<Endpoint, Agent>)
    requires Probed(f, s) && Represents(s, m)
    requires forall p :: 0 <= p < |s| ==> s[p].Full?
    ensures |m| >= |s|
  {
    hide Probed;
    RecordsSize(f, s, |s|);
    SubsetSize(Records(s, |s|), m.Keys);
  }

  /** For an unmapped record the probe that accepts tombstones always finds room in a table that is
      at most half full. */
  lemma StopsAtRoom(f: Hash, s: seq<Slot>, count: nat, m: map<Endpoint, Agent>, r: Endpoint, d: nat)
    requires Good(f, s, count, m) && r !in m && d <= |s| && PathClear(f, s, r, d) && NoTombstone(f, s, r, d)
    requires d < |s| ==> var e := s[At(|s|, Home(f, |s|, r), d)]; e.Deleted? || !Passes(e, r)
    ensures d < |s| && !s[At(|s|, Home(f, |s|, r), d)].Full?
  {
    if d == |s| {
      var h := Home(f, |s|, r);
      forall p | 0 <= p < |s| ensures s[p].Full? {
        assert At(|s|, h, Distance(|s|, h, p)) == p;
      }
      FullTableSize(f, s, m);
      assert false;
    }
  }

  /** Storing an unmapped record where that probe stops keeps the table a partial function: no older
      copy of the record lies in front of the new one. */
  lemma InsertKeeps(f: Hash, s: seq<Slot>, count: nat, m: map<Endpoint, Agent>, r: Endpoint, a: Agent, d: nat)
    requires Good(f, s, count, m) && count * 2 < |s| && r !in m
    requires d < |s| && PathClear(f, s, r, d) && !s[At(|s|, Home(f, |s|, r), d)].Full?
    ensures Good(f, s[At(|s|, Home(f, |s|, r), d) := Full(r, a)], count + 1, m[r := a])
  {
    hide Probed, Represents, PathClear;
    var p := At(|s|, Home(f, |s|, r), d);
    InsertProbes(f, s, m, r, a, d);
    InsertRepresents(s, m, r, a, p);
  }

  lemma InsertProbes(f: Hash, s: seq<Slot>, m: map<Endpoint, Agent>, r: Endpoint, a: Agent, d: nat)
    requires 0 < |s| && d < |s| && Probed(f, s) && Represents(s, m) && r !in m
    requires PathClear(f, s, r, d) && !s[At(|s|, Home(f, |s|, r), d)].Full?
    ensures Probed(f, s[At(|s|, Home(f, |s|, r), d) := Full(r, a)])
  {
    var p := At(|s|, Home(f, |s|, r), d);
    var t := s[p := Full(r, a)];
    forall q | 0 <= q < |t| && t[q].Full?
      ensures PathClear(f, t, t[q].record, Distance(|t|, Home(f, |t|, t[q].record), q))
    {
      if q == p {
        assert Distance(|t|, Home(f, |t|, r), p) == d;
      } else {
        assert s[q].record in m;
        assert PathClear(f, s, s[q].record, Distance(|s|, Home(f, |s|, s[q].record), q));
      }
    }
  }

  lemma InsertRepresents(s: seq<Slot>, m: map<Endpoint, Agent>, r: Endpoint, a: Agent, p: nat)
    requires p < |s| && Represents(s, m) && !s[p].Full? && r !in m
    ensures Represents(s[p := Full(r, a)], m[r := a])
  {
    var t, m' := s[p := Full(r, a)], m[r := a];
    forall x | x in m' ensures Stored(t, x) {
      if x == r {
        assert t[p].Full? && t[p].record == x;
      } else {
        var q :| 0 <= q < |s| && s[q].Full? && s[q].record == x;
        assert t[q].Full? && t[q].record == x;
      }
    }
  }

  /** The probe that does not accept tombstones stops at a full slot exactly for the mapped records. */
  lemma LookupIsExact(f: Hash, s: seq<Slot>, m: map<Endpoint, Agent>, r: Endpoint, d: nat)
    requires 0 < |s| && d <= |s| && Probed(f, s) && Represents(s, m) && PathClear(f, s, r, d)
    requires d < |s| ==> !Passes(s[At(|s|, Home(f, |s|, r), d)], r)
    ensures (d < |s| && s[At(|s|, Home(f, |s|, r), d)].Full?) <==> r in m
    ensures r in m ==> s[At(|s|, Home(f, |s|, r), d)] == Full(r, m[r])
  {
    var h := Home(f, |s|, r);
    if r in m {
      var p :| 0 <= p < |s| && s[p].Full? && s[p].record == r;
      assert At(|s|, h, Distance(|s|, h, p)) == p;
    }
  }

  /** Storing a record that is already mapped overwrites its mapping if and only if no tombstone lies
      on its probe path; otherwise the tombstone is reused and the record sits in two full slots. */
  lemma InsertMappedIffNoTombstone(f: Hash, s: seq<Slot>, m: map<Endpoint, Agent>, r: Endpoint, a: Agent, p: nat, d: nat)
    requires Probed(f, s) && Represents(s, m) && p < |s| && s[p].Full? && s[p].record == r
    requires d <= Distance(|s|, Home(f, |s|, r), p) && PathClear(f, s, r, d)
    requires NoTombstone(f, s, r, d)
    requires var e := s[At(|s|, Home(f, |s|, r), d)]; e.Deleted? || (e.Full? && e.record == r)
    ensures var t := s[At(|s|, Home(f, |s|, r), d) := Full(r, a)];
            && (Probed(f, t) <==> NoTombstone(f, s, r, Distance(|s|, Home(f, |s|, r), p)))
            && (Probed(f, t) ==> Represents(t, m[r := a]))
  {
    var h := Home(f, |s|, r);
    var dp := Distance(|s|, h, p);
    var q := At(|s|, h, d);
    var t := s[q := Full(r, a)];
    if d < dp {
      assert PathClear(f, s, s[p].record, dp);
      assert Passes(s[At(|s|, h, d)], r);
      assert s[q].Deleted?;
      assert At(|s|, h, dp) == p && q != p;
      if Probed(f, t) {
        FullSlotsDistinct(f, t, p, q);
        assert false;
      }
    } else {
      assert q == p;
      forall x | 0 <= x < |t| && t[x].Full?
        ensures PathClear(f, t, t[x].record, Distance(|t|, Home(f, |t|, t[x].record), x))
      {
        assert PathClear(f, s, s[x].record, Distance(|s|, Home(f, |s|, s[x].record), x));
      }
      Overwritten(f, s, m, a, p);
    }
  }

  lemma Overwritten(f: Hash, s: seq<Slot>, m: map<Endpoint, Agent>, a: Agent, p: nat)
    requires Probed(f, s) && Represents(s, m) && p < |s| && s[p].Full?
    ensures Represents(s[p := Full(s[p].record, a)], m[s[p].record := a])
  {
    hide Probed;
    var r, t := s[p].record, s[p := Full(s[p].record, a)];
    forall x | 0 <= x < |t| && t[x].Full? && x != p ensures t[x].record in m && t[x].record != r {
      FullSlotsDistinct(f, s, x, p);
    }
    forall k | k in m[r := a] ensures Stored(t, k) {
      if k == r {
        assert t[p].record == r;
      } else {
        var x :| 0 <= x < |s| && s[x].Full? && s[x].record == k;
        assert t[x].record == k;
      }
    }
  }

  class Table {
    const hash: Hash
    var slots: array<Slot>
    var count: nat
    ghost var Slots: seq<Slot>
    ghost var Contents: map<Endpoint, Agent>

    ghost predicate Valid()
      reads this, slots
    {
      slots[..] == Slots && Good(hash, Slots, count, Contents)
    }

    constructor (hash: Hash)
      ensures this.hash == hash && Valid() && Contents == map[] && fresh(slots) && slots.Length == INITIAL_MAP_SIZE
    {
      this.hash := hash;
      slots := new Slot[INITIAL_MAP_SIZE](_ => Empty);
      Slots := seq(INITIAL_MAP_SIZE, _ => Empty);
      count := 0;
      Contents := map[];
      EmptyIsGood(hash, INITIAL_MAP_SIZE);
    }

    /** find_map_entry: the slot the probe stops at, or nothing after a full turn. */
    method Find(r: Endpoint, allowDeleted: bool) returns (found: bool, pos: nat, ghost d: nat)
      requires |Slots| > 0 && slots[..] == Slots
      ensures d <= |Slots| && PathClear(hash, Slots, r, d)
      ensures allowDeleted ==> NoTombstone(hash, Slots, r, d)
      ensures found <==> d < |Slots|
      ensures found ==> pos < |Slots| && pos == At(|Slots|, Home(hash, |Slots|, r), d)
      ensures found ==> (allowDeleted && Slots[pos].Deleted?) || !Passes(Slots[pos], r)
    {
      var n := slots.Length;
      var key := Home(hash, n, r);
      pos := key;
      d := 0;
      while true
        invariant n == |Slots| && d < n && pos == At(n, key, d)
        invariant PathClear(hash, Slots, r, d)
        invariant allowDeleted ==> NoTombstone(hash, Slots, r, d)
        decreases n - d
      {
        var s := slots[pos];
        assert s == Slots[pos];
        if s.Empty? || s.record == r {
          return true, pos, d;
        }
        if s.Deleted? && allowDeleted {
          return true, pos, d;
        }
        pos := if pos + 1 == n then 0 else pos + 1;
        d := d + 1;
        if pos == key {
          return false, pos, d;
        }
      }
    }

    /** The agent a datagram from r is routed to: the full slot the probe stops at, if any. */
    method Lookup(r: Endpoint) returns (mapped: bool, agent: Agent)
      requires Valid()
      ensures mapped <==> r in Contents
      ensures mapped ==> agent == Contents[r]
    {
      var found, pos, d := Find(r, false);
      LookupIsExact(hash, Slots, Contents, r, d);
      if found {
        var s := slots[pos];
        assert s == Slots[pos];
        if s.Full? {
          return true, s.agent;
        }
      }
      return false, 0;
    }

    /** insert_map_entry. Growing may fail for want of memory; it never happens twice in one call,
        because the grown table is at most one quarter full. */
    method Insert(r: Endpoint, agent: Agent, memory: bool) returns (ok: bool)
      requires Valid() && r !in Contents
      modifies this, slots
      ensures Valid() && (if old(count) * 2 < old(slots.Length) || !ok then slots == old(slots) else fresh(slots))
      ensures ok <==> old(count) * 2 < old(slots.Length) || memory
      ensures Contents == if ok then old(Contents)[r := agent] else old(Contents)
      ensures slots.Length == if old(count) * 2 < old(slots.Length) || !ok
                              then old(slots.Length) else old(slots.Length) * 2
      decreases if count * 2 < slots.Length then 0 else 2
    {
      var found, pos, d := Find(r, true);
      StopsAtRoom(hash, Slots, count, Contents, r, d);
      if !found || (!slots[pos].Full? && count * 2 >= slots.Length) {
        var grown := Grow(slots.Length * 2, memory);
        if !grown {
          return false;
        }
        ok := Insert(r, agent, memory);
        return;
      }
      InsertKeeps(hash, Slots, count, Contents, r, agent, d);
      if !slots[pos].Full? {
        count := count + 1;
      }
      slots[pos] := Full(r, agent);
      Slots := Slots[pos := Full(r, agent)];
      Contents := Contents[r := agent];
      return true;
    }

    /** grow_map: rehashes the full slots into a larger array and drops the tombstones. */
    method Grow(newSize: nat, memory: bool) returns (ok: bool)
      requires Valid() && newSize == slots.Length * 2
      modifies this
      ensures Valid() && Contents == old(Contents)
      ensures ok <==> memory
      ensures ok ==> fresh(slots) && slots.Length == newSize && count * 2 < slots.Length
      ensures !ok ==> slots == old(slots) && count == old(count)
      decreases 1, 1
    {
      hide Probed, Represents;
      if !memory {
        return false;
      }
      var oldSlots := slots;
      ghost var s, all := Slots, Contents;
      Clear(newSize);
      Rehash(oldSlots, s, all);
      return true;
    }

    method Clear(newSize: nat)
      requires newSize > 0 && newSize % 2 == 0
      modifies this
      ensures Valid() && Contents == map[] && fresh(slots) && slots.Length == newSize
    {
      slots := new Slot[newSize](_ => Empty);
      Slots := seq(newSize, _ => Empty);
      count := 0;
      Contents := map[];
      EmptyIsGood(hash, newSize);
    }

    /** The loop of grow_map: no insertion grows the table again. */
    method Rehash(oldSlots: array<Slot>, ghost s: seq<Slot>, ghost all: map<Endpoint, Agent>)
      requires Valid() && Contents == map[] && oldSlots != slots
      requires oldSlots[..] == s && Probed(hash, s) && Represents(s, all)
      requires |all| * 2 < slots.Length
      modifies this, slots
      ensures Valid() && Contents == all && slots == old(slots)
      decreases 1, 0
    {
      for i := 0 to oldSlots.Length
        invariant Valid() && slots == old(slots) && oldSlots[..] == s
        invariant Represents(s[..i], Contents)
      {
        PartSize(s, i, Contents, all);
        MoveNext(hash, s, i, Contents);
        var e := oldSlots[i];
        assert e == s[i];
        if e.Full? {
          var _ := Insert(e.record, e.agent, true);
        }
      }
      assert s[..|s|] == s;
      RepresentsUnique(s, Contents, all);
    }

    /** remove_map_entries: every slot of the agent becomes a tombstone. */
    method RemoveAgent(agent: Agent)
      requires Valid()
      modifies this, slots
      ensures Valid() && slots == old(slots)
      ensures Contents == Left(old(Contents), agent)
    {
      hide Good, BuriedTo, Left;
      ghost var s, m := Slots, Contents;
      var removed := Bury(agent);
      RemovedAll(hash, s, count, m, agent);
      count := count - removed;
      Contents := Left(m, agent);
    }

    /** The loop of remove_map_entries. */
    method Bury(agent: Agent) returns (removed: nat)
      requires slots[..] == Slots
      modifies slots, `Slots
      ensures slots[..] == Slots == BuriedTo(old(Slots), agent, |old(Slots)|)
      ensures removed == Owned(old(Slots), agent)
    {
      ghost var s := Slots;
      removed := 0;
      for i := 0 to slots.Length
        invariant slots[..] == Slots == BuriedTo(s, agent, i)
        invariant removed == Owned(s[..i], agent)
      {
        assert s[..i + 1][..i] == s[..i];
        var e := slots[i];
        assert e == s[i];
        if Owns(e, agent) {
          slots[i] := Deleted(e.record);
          removed := removed + 1;
        }
        Slots := BuriedTo(s, agent, i + 1);
      }
      assert s[..|s|] == s;
    }
  }

  predicate Owns(s: Slot, agent: Agent) {
    s.Full? && s.agent == agent
  }

  function BuriedTo(s: seq<Slot>, agent: Agent, n: nat): seq<Slot>
    requires n <= |s|
  {
    seq(|s|, i requires 0 <= i < |s| => if i < n && Owns(s[i], agent) then Deleted(s[i].record) else s[i])
  }

  /** How many slots the agent fills. */
  function Owned(s: seq<Slot>, agent: Agent): nat {
    if s == [] then 0
    else Owned(s[..|s| - 1], agent) + if Owns(s[|s| - 1], agent) then 1 else 0
  }

  function Left(m: map<Endpoint, Agent>, agent: Agent): map<Endpoint, Agent> {
    map r | r in m && m[r] != agent :: m[r]
  }

  /** Turning the agent's slots into tombstones one by one removes mappings of that agent only. */
  lemma {:induction false} BuryAll(f: Hash, s: seq<Slot>, count: nat, m: map<Endpoint, Agent>, agent: Agent, n: nat)
    returns (left: map<Endpoint, Agent>)
    requires Good(f, s, count, m) && n <= |s|
    ensures Owned(s[..n], agent) <= count && Between(m, left, agent)
    ensures Good(f, BuriedTo(s, agent, n), count - Owned(s[..n], agent), left)
    decreases n
  {
    hide Good, Between, BuriedTo, Owned;
    BuriedStep(s, agent, n);
    left := m;
    NothingLost(m, agent);
    if n > 0 {
      left := BuryAll(f, s, count, m, agent, n - 1);
      var t := BuriedTo(s, agent, n - 1);
      BuryOne(f, t, count - Owned(s[..n - 1], agent), left, n - 1);
      if Owns(s[n - 1], agent) {
        LosesOwn(f, t, count - Owned(s[..n - 1], agent), m, left, agent, n - 1);
        left := left - {t[n - 1].record};
      }
    }
  }

  lemma NothingLost(m: map<Endpoint, Agent>, agent: Agent)
    ensures Between(m, m, agent)
  {
  }

  lemma LosesOwn(f: Hash, s: seq<Slot>, count: nat, m: map<Endpoint, Agent>, left: map<Endpoint, Agent>, agent: Agent, i: nat)
    requires Good(f, s, count, left) && Between(m, left, agent) && i < |s| && Owns(s[i], agent)
    ensures Between(m, left - {s[i].record}, agent)
  {
  }

  lemma BuriedStep(s: seq<Slot>, agent: Agent, n: nat)
    requires n <= |s|
    ensures |BuriedTo(s, agent, n)| == |s| && (n > 0 ==> |BuriedTo(s, agent, n - 1)| == |s|)
    ensures n == 0 ==> BuriedTo(s, agent, n) == s && Owned(s[..n], agent) == 0
    ensures n > 0 ==>
              && BuriedTo(s, agent, n - 1)[n - 1] == s[n - 1]
              && BuriedTo(s, agent, n) == (if Owns(s[n - 1], agent)
                                           then BuriedTo(s, agent, n - 1)[n - 1 := Deleted(s[n - 1].record)]
                                           else BuriedTo(s, agent, n - 1))
              && Owned(s[..n], agent) == Owned(s[..n - 1], agent) + if Owns(s[n - 1], agent) then 1 else 0
  {
    if n > 0 {
      assert s[..n][..n - 1] == s[..n - 1];
    }
  }

  /** m' has lost nothing but mappings to the agent. */
  ghost predicate Between(m: map<Endpoint, Agent>, m': map<Endpoint, Agent>, agent: Agent) {
    && (forall r :: r in m' ==> r in m && m'[r] == m[r])
    && (forall r :: r in m && m[r] != agent ==> r in m')
  }

  lemma RemovedAll(f: Hash, s: seq<Slot>, count: nat, m: map<Endpoint, Agent>, agent: Agent)
    requires Good(f, s, count, m)
    ensures Owned(s, agent) <= count && Good(f, BuriedTo(s, agent, |s|), count - Owned(s, agent), Left(m, agent))
  {
    var left := BuryAll(f, s, count, m, agent, |s|);
    assert s[..|s|] == s;
    AllBuried(BuriedTo(s, agent, |s|), m, left, agent);
  }

  lemma AllBuried(s: seq<Slot>, m: map<Endpoint, Agent>, m': map<Endpoint, Agent>, agent: Agent)
    requires Represents(s, m') && Between(m, m', agent)
    requires forall p :: 0 <= p < |s| && s[p].Full? ==> s[p].agent != agent
    ensures m' == Left(m, agent)
  {
    forall r | r in m' ensures m'[r] != agent {
      assert Stored(s, r);
      var p :| 0 <= p < |s| && s[p].Full? && s[p].record == r;
    }
  }

  /** Burying one full slot under a tombstone that keeps its record leaves every probe as it was. */
  lemma BuryOne(f: Hash, s: seq<Slot>, count: nat, m: map<Endpoint, Agent>, i: nat)
    requires Good(f, s, count, m) && i < |s|
    ensures s[i].Full? ==> count > 0 && Good(f, s[i := Deleted(s[i].record)], count - 1, m - {s[i].record})
  {
    if s[i].Full? {
      var t, m' := s[i := Deleted(s[i].record)], m - {s[i].record};
      assert m'.Keys == m.Keys - {s[i].record};
      forall r | r in m' ensures Stored(t, r) {
        assert Stored(s, r);
        var p :| 0 <= p < |s| && s[p].Full? && s[p].record == r;
        assert t[p].record == r;
      }
      forall p | 0 <= p < |t| && t[p].Full? ensures t[p].record in m' {
        FullSlotsDistinct(f, s, p, i);
      }
      BuryKeepsProbes(f, s, i);
    }
  }

  lemma BuryKeepsProbes(f: Hash, s: seq<Slot>, i: nat)
    requires Probed(f, s) && i < |s| && s[i].Full?
    ensures Probed(f, s[i := Deleted(s[i].record)])
  {
    var t := s[i := Deleted(s[i].record)];
    forall q | 0 <= q < |t| && t[q].Full?
      ensures PathClear(f, t, t[q].record, Distance(|t|, Home(f, |t|, t[q].record), q))
    {
      assert PathClear(f, s, s[q].record, Distance(|s|, Home(f, |s|, s[q].record), q));
    }
  }

  /** One round of the rehashing loop: a full slot holds a record not moved yet. */
  lemma MoveNext(f: Hash, s: seq<Slot>, i: nat, m: map<Endpoint, Agent>)
    requires i < |s| && Probed(f, s) && Represents(s[..i], m)
    ensures s[i].Full? ==> s[i].record !in m && Represents(s[..i + 1], m[s[i].record := s[i].agent])
    ensures !s[i].Full? ==> Represents(s[..i + 1], m)
  {
    var t, u := s[..i + 1], s[..i];
    assert t == u + [s[i]];
    forall x | x in m ensures Stored(t, x) {
      assert Stored(u, x);
      var q :| 0 <= q < i && u[q].Full? && u[q].record == x;
      assert t[q].record == x;
      if s[i].Full? {
        FullSlotsDistinct(f, s, q, i);
      }
    }
    if s[i].Full? {
      assert t[i].record == s[i].record;
      assert Stored(t, s[i].record);
    }
  }

  lemma PartSize(s: seq<Slot>, i: nat, m: map<Endpoint, Agent>, all: map<Endpoint, Agent>)
    requires i <= |s| && Represents(s[..i], m) && Represents(s, all)
    ensures |m| <= |all|
  {
    forall r | r in m ensures r in all {
      assert Stored(s[..i], r);
      var q :| 0 <= q < i && s[..i][q].Full? && s[..i][q].record == r;
      assert s[q].record == r;
    }
    SubsetSize(m.Keys, all.Keys);
  }

  lemma RepresentsUnique(s: seq<Slot>, m: map<Endpoint, Agent>, m': map<Endpoint, Agent>)
    requires Represents(s, m) && Represents(s, m')
    ensures m == m'
  {
    RepresentsAgree(s, m, m');
    RepresentsAgree(s, m', m);
  }

  lemma RepresentsAgree(s: seq<Slot>, m: map<Endpoint, Agent>, m': map<Endpoint, Agent>)
    requires Represents(s, m) && Represents(s, m')
    ensures forall r :: r in m ==> r in m' && m[r] == m'[r]
  {
    forall r | r in m ensures r in m' && m[r] == m'[r] {
      assert Stored(s, r);
      var p :| 0 <= p < |s| && s[p].Full? && s[p].record == r;
    }
  }
}
