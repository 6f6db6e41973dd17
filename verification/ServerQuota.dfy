/** The TURN server's accounting of src/server.c: allocations, the quota of the credentials that own them, and
    their expiry. */
module ServerQuota {
  import opened Addr
  import opened Basics
  import SourceTable

  const ALLOCATION_LIFETIME := 600
  const IDLE_WAKE := 60000

  /** A slot of the allocation table. A deleted one keeps its record. */
  datatype Slot =
    | Empty
    | Deleted(record: Endpoint)
    | Full(record: Endpoint, owner: nat, tid: nat, expiry: nat)

  predicate Owned(s: Slot, c: nat) {
    s.Full? && s.owner == c
  }

  /** How many live allocations the credentials own. */
  function Held(slots: seq<Slot>, c: nat): nat {
    if slots == [] then 0
    else Held(slots[..|slots| - 1], c) + if Owned(slots[|slots| - 1], c) then 1 else 0
  }

  lemma {:induction false} HeldUpdate(slots: seq<Slot>, i: nat, s: Slot, c: nat)
    requires i < |slots|
    ensures Held(slots[i := s], c) + (if Owned(slots[i], c) then 1 else 0) == Held(slots, c) + if Owned(s, c) then 1 else 0
    decreases |slots|
  {
    var n := |slots| - 1;
    if i < n {
      HeldUpdate(slots[..n], i, s, c);
      assert slots[i := s][..n] == slots[..n][i := s];
    } else {
      assert slots[i := s][..n] == slots[..n];
    }
  }

  /** What is left and what is in use add up to what was granted, and nothing is overdrawn. */
  ghost predicate Conserved(slots: seq<Slot>, quota: seq<int>, granted: seq<nat>) {
    && |quota| == |granted|
    && (forall c :: 0 <= c < |quota| ==> quota[c] >= 0 && quota[c] + Held(slots, c) == granted[c])
    && (forall i :: 0 <= i < |slots| && slots[i].Full? ==> slots[i].owner < |quota|)
  }

  lemma {:induction false} NothingHeld(slots: seq<Slot>)
    requires forall i :: 0 <= i < |slots| ==> slots[i] == Empty
    ensures forall c: nat :: Held(slots, c) == 0
  {
    if slots != [] {
      NothingHeld(slots[..|slots| - 1]);
    }
  }

  /** An allocation taken over by credentials that have some quota left. */
  lemma TakeConserves(slots: seq<Slot>, quota: seq<int>, granted: seq<nat>, i: nat, s: Slot)
    requires Conserved(slots, quota, granted) && i < |slots| && !slots[i].Full?
    requires s.Full? && s.owner < |quota| && quota[s.owner] > 0
    ensures Conserved(slots[i := s], quota[s.owner := quota[s.owner] - 1], granted)
  {
    forall c | 0 <= c < |quota| ensures Held(slots[i := s], c) == Held(slots, c) + if c == s.owner then 1 else 0 {
      HeldUpdate(slots, i, s, c);
    }
  }

  lemma GiveBackConserves(slots: seq<Slot>, quota: seq<int>, granted: seq<nat>, i: nat)
    requires Conserved(slots, quota, granted) && i < |slots| && slots[i].Full?
    ensures slots[i].owner < |quota|
    ensures Conserved(slots[i := Deleted(slots[i].record)], quota[slots[i].owner := quota[slots[i].owner] + 1], granted)
  {
    var s := Deleted(slots[i].record);
    forall c | 0 <= c < |quota| ensures Held(slots[i := s], c) + (if c == slots[i].owner then 1 else 0) == Held(slots, c) {
      HeldUpdate(slots, i, s, c);
    }
  }

  lemma RenewConserves(slots: seq<Slot>, quota: seq<int>, granted: seq<nat>, i: nat, s: Slot)
    requires Conserved(slots, quota, granted) && i < |slots| && slots[i].Full? && s.Full? && s.owner == slots[i].owner
    ensures Conserved(slots[i := s], quota, granted)
  {
    forall c | 0 <= c < |quota| ensures Held(slots[i := s], c) == Held(slots, c) {
      HeldUpdate(slots, i, s, c);
    }
  }

  /** No live allocation is past its time, and the server wakes up when the first one is, or after a minute
      if that is sooner. */
  predicate InTime(slots: seq<Slot>, now: nat, wake: nat) {
    && wake <= now + IDLE_WAKE
    && (forall i :: 0 <= i < |slots| && slots[i].Full? ==> now < slots[i].expiry && wake <= slots[i].expiry)
    && (wake == now + IDLE_WAKE || exists i :: 0 <= i < |slots| && slots[i].Full? && wake == slots[i].expiry)
  }

  /** Exactly the allocations that are due are gone. */
  predicate Expired(before: seq<Slot>, after: seq<Slot>, now: nat, n: nat) {
    && n <= |after| == |before|
    && forall i :: 0 <= i < |before| ==>
         after[i] == if i < n && before[i].Full? && before[i].expiry <= now then Deleted(before[i].record) else before[i]
  }

  datatype Verb = Allocate | Refresh

  /** What the outside says: whether a socket, the map and an address to advertise could be had. */
  datatype Resources = Resources(socket: bool, map_: bool, address: bool)

  /** Success, or the error code of the answer. */
  datatype Reply = Success(lifetime: nat) | Error(code: nat)

  /** The lifetime in effect: the one asked for, up to the most the server gives. */
  function InEffect(lifetime: Option<nat>): nat {
    if lifetime.Some? && lifetime.value < ALLOCATION_LIFETIME then lifetime.value else ALLOCATION_LIFETIME
  }

  /** The request asks for something the server would give if its resources allow: a live allocation is for
      its owner, and for the request that made it; a new one takes quota. */
  predicate Entitled(slot: Slot, verb: Verb, credentials: nat, tid: nat, left: int) {
    if slot.Full? then slot.owner == credentials && (verb == Allocate ==> slot.tid == tid)
    else verb == Allocate && left > 0
  }

  class Server {
    var slots: seq<Slot>
    var quota: seq<int>
    ghost const granted: seq<nat>

    ghost predicate Valid()
      reads this
    {
      |slots| > 0 && Conserved(slots, quota, granted)
    }

    constructor (size: nat, granted: seq<nat>)
      requires size > 0
      ensures Valid() && this.granted == granted && quota == granted
    {
      slots := seq(size, _ => Empty);
      quota := granted;
      this.granted := granted;
      NothingHeld(seq(size, _ => Empty));
    }

    /** find_allocation, accepting a deleted slot. */
    method Find(hash: Endpoint -> nat, r: Endpoint) returns (pos: Option<nat>, ghost d: nat)
      requires |slots| > 0
      ensures pos.Some? ==> d < |slots| && pos.value == SourceTable.At(|slots|, hash(r) % |slots|, d)
      ensures pos.Some? ==> !Busy(slots[pos.value], r)
      ensures pos.Some? ==> forall k :: 0 <= k < d ==> Busy(slots[SourceTable.At(|slots|, hash(r) % |slots|, k)], r)
      ensures pos.None? ==> forall i :: 0 <= i < |slots| ==> Busy(slots[i], r)
    {
      var n := |slots|;
      var key := hash(r) % n;
      var p := key;
      d := 0;
      while true
        invariant d < n && p == SourceTable.At(n, key, d)
        invariant forall k :: 0 <= k < d ==> Busy(slots[SourceTable.At(n, key, k)], r)
        decreases n - d
      {
        if !Busy(slots[p], r) {
          return Some(p), d;
        }
        p := if p + 1 == n then 0 else p + 1;
        d := d + 1;
        if p == key {
          AllSeen(slots, key, r);
          return None, d;
        }
      }
    }

    /** delete_allocation. */
    method Delete(i: nat)
      requires Valid() && i < |slots|
      modifies `slots, `quota
      ensures Valid()
      ensures old(slots)[i].Full? ==>
                && slots == old(slots)[i := Deleted(old(slots)[i].record)]
                && old(slots)[i].owner < |old(quota)|
                && quota == old(quota)[old(slots)[i].owner := old(quota)[old(slots)[i].owner] + 1]
      ensures !old(slots)[i].Full? ==> slots == old(slots) && quota == old(quota)
    {
      if slots[i].Full? {
        GiveBackConserves(slots, quota, granted, i);
        var owner := slots[i].owner;
        quota := quota[owner := quota[owner] + 1];
        slots := slots[i := Deleted(slots[i].record)];
      }
    }

    /** server_process_turn_allocate: Allocate and Refresh requests, answered with success or an error, all
        of which keep the books. */
    method Process(hash: Endpoint -> nat, verb: Verb, src: Endpoint, credentials: nat, tid: nat, lifetime: Option<nat>, now: nat, has: Resources)
      returns (reply: Reply, ghost at: Option<nat>)
      requires Valid() && credentials < |quota|
      modifies `slots, `quota
      ensures Valid() && |quota| == |old(quota)|
      ensures at.Some? ==> exists d ::
                StopsAt(old(slots), hash(src) % |old(slots)|, src, d) && at.value == SourceTable.At(|old(slots)|, hash(src) % |old(slots)|, d)
      ensures if at.Some? then at.value < |old(slots)| && !Busy(old(slots)[at.value], src)
              else forall i :: 0 <= i < |old(slots)| ==> Busy(old(slots)[i], src)
      ensures reply == Error(486) <==>
                at.None? || (!old(slots)[at.value].Full? && verb == Allocate && old(quota)[credentials] == 0)
      ensures reply == Error(437) <==>
                at.Some? && (if old(slots)[at.value].Full? then verb == Allocate && old(slots)[at.value].tid != tid else verb == Refresh)
      ensures reply == Error(441) <==>
                && at.Some? && old(slots)[at.value].Full? && old(slots)[at.value].owner != credentials
                && (verb == Allocate ==> old(slots)[at.value].tid == tid)
      ensures reply.Success? <==>
                && at.Some? && Entitled(old(slots)[at.value], verb, credentials, tid, old(quota)[credentials])
                && (old(slots)[at.value].Full? || (has.socket && has.map_))
                && (InEffect(lifetime) == 0 || has.address)
      ensures reply.Success? ==> reply.lifetime == InEffect(lifetime)
      ensures reply.Success? ==>
                at.Some? && slots == old(slots)[at.value := if reply.lifetime == 0 then Deleted(src)
                                                            else Full(src, credentials, tid, now + reply.lifetime * 1000)]
      ensures reply.Error? ==> reply.code in {437, 441, 486, 500}
      ensures reply == Error(500) <==>
                && at.Some? && Entitled(old(slots)[at.value], verb, credentials, tid, old(quota)[credentials])
                && ((!old(slots)[at.value].Full? && !(has.socket && has.map_)) || (InEffect(lifetime) != 0 && !has.address))
      ensures reply == Error(500) && !old(slots)[at.value].Full? && !(has.socket && has.map_) ==>
                slots == old(slots) && quota == old(quota)
      ensures reply == Error(500) && (old(slots)[at.value].Full? || (has.socket && has.map_)) ==>
                && slots == old(slots)[at.value := Deleted(src)]
                && quota == if old(slots)[at.value].Full? then old(quota)[credentials := old(quota)[credentials] + 1] else old(quota)
      ensures reply.Error? && reply.code != 500 ==> slots == old(slots) && quota == old(quota)
    {
      var found, d := Find(hash, src);
      at := found;
      assert found.Some? ==> StopsAt(slots, hash(src) % |slots|, src, d);
      if found.None? {
        return Error(486), at;
      }
      var i := found.value;
      if slots[i].Full? {
        if verb == Allocate && slots[i].tid != tid {
          return Error(437), at;
        }
        if slots[i].owner != credentials {
          return Error(441), at;
        }
      } else {
        if verb == Refresh {
          return Error(437), at;
        }
        if quota[credentials] <= 0 {
          return Error(486), at;
        }
        if !has.socket || !has.map_ {
          return Error(500), at;
        }
        Take(i, Full(src, credentials, tid, 0));
      }
      var seconds := ALLOCATION_LIFETIME;
      if lifetime.Some? && lifetime.value < seconds {
        seconds := lifetime.value;
      }
      Renew(i, slots[i].(tid := tid, expiry := now + seconds * 1000));
      if seconds == 0 {
        Delete(i);
      } else if !has.address {
        Delete(i);
        return Error(500), at;
      }
      return Success(seconds), at;
    }

    method Take(i: nat, s: Slot)
      requires Valid() && i < |slots| && !slots[i].Full? && s.Full? && s.owner < |quota| && quota[s.owner] > 0
      modifies `slots, `quota
      ensures Valid() && slots == old(slots)[i := s] && quota == old(quota)[s.owner := old(quota)[s.owner] - 1]
    {
      TakeConserves(slots, quota, granted, i, s);
      quota := quota[s.owner := quota[s.owner] - 1];
      slots := slots[i := s];
    }

    method Renew(i: nat, s: Slot)
      requires Valid() && i < |slots| && slots[i].Full? && s.Full? && s.owner == slots[i].owner
      modifies `slots
      ensures Valid() && slots == old(slots)[i := s]
    {
      RenewConserves(slots, quota, granted, i, s);
      slots := slots[i := s];
    }

    /** The first loop of server_bookkeeping. */
    method Bookkeep(now: nat) returns (wake: nat)
      requires Valid()
      modifies `slots, `quota
      ensures Valid() && InTime(slots, now, wake) && Expired(old(slots), slots, now, |slots|)
    {
      ghost var before := slots;
      wake := now + IDLE_WAKE;
      for i := 0 to |slots|
        invariant Valid() && Expired(before, slots, now, i) && wake <= now + IDLE_WAKE
        invariant forall j :: 0 <= j < i && slots[j].Full? ==> now < slots[j].expiry && wake <= slots[j].expiry
        invariant wake == now + IDLE_WAKE || exists j :: 0 <= j < i && slots[j].Full? && wake == slots[j].expiry
      {
        if slots[i].Full? {
          if slots[i].expiry <= now {
            Delete(i);
          } else if slots[i].expiry < wake {
            wake := slots[i].expiry;
          }
        }
      }
    }
  }

  /** Taken by somebody else: the probe goes on. */
  predicate Busy(s: Slot, r: Endpoint) {
    s.Full? && s.record != r
  }

  /** Where the probe of a client stops: at the first slot on its path that no other client holds. */
  ghost predicate StopsAt(slots: seq<Slot>, key: nat, r: Endpoint, d: nat)
    requires key < |slots|
  {
    d < |slots| && !Busy(slots[SourceTable.At(|slots|, key, d)], r)
    && forall k :: 0 <= k < d ==> Busy(slots[SourceTable.At(|slots|, key, k)], r)
  }

  /** A client that has an allocation is led to it if and only if every slot before it on its path is in use;
      otherwise a request takes the free one, and a second Allocate can succeed beside the first. */
  lemma OwnFoundIff(slots: seq<Slot>, key: nat, r: Endpoint, own: nat, d: nat)
    requires key < |slots| && own < |slots| && StopsAt(slots, key, r, d)
    requires forall i :: 0 <= i < |slots| ==> (slots[i].Full? && slots[i].record == r <==> i == own)
    ensures SourceTable.At(|slots|, key, d) == own <==>
              forall k :: 0 <= k < SourceTable.Distance(|slots|, key, own) ==> slots[SourceTable.At(|slots|, key, k)].Full?
  {
    var n := SourceTable.Distance(|slots|, key, own);
    assert SourceTable.At(|slots|, key, n) == own;
    assert d <= n;
    assert forall k :: 0 <= k < n ==> SourceTable.At(|slots|, key, k) != own;
  }

  /** Such a case: a tombstone where the path starts, and the allocation behind it. */
  lemma OwnMissed(r: Endpoint, other: Endpoint, owner: nat, tid: nat, expiry: nat)
    requires other != r
    ensures var slots := [Deleted(other), Full(r, owner, tid, expiry)];
            StopsAt(slots, 0, r, 0) && !slots[SourceTable.At(2, 0, 0)].Full?
  {
  }

  lemma AllSeen(slots: seq<Slot>, key: nat, r: Endpoint)
    requires key < |slots| && forall k :: 0 <= k < |slots| ==> Busy(slots[SourceTable.At(|slots|, key, k)], r)
    ensures forall j :: 0 <= j < |slots| ==> Busy(slots[j], r)
  {
    forall j | 0 <= j < |slots| ensures Busy(slots[j], r) {
      assert SourceTable.At(|slots|, key, SourceTable.Distance(|slots|, key, j)) == j;
    }
  }
}
