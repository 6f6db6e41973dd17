/** What the TURN state map of src/turn.c means: a partial function from peers to permissions and channels.
    The operations are stated on that function alone; how the table and its sorted arrays carry it out is
    in TurnMap. */
module TurnSpec {
  import opened Addr
  import opened Basics

  type Tid = nat

  const FIRST_CHANNEL := 0x4000

  datatype Kind = Permission | Channel

  /** A permission is for an address, a channel for an address and port. */
  datatype Key = Key(kind: Kind, peer: Endpoint)

  /** A transaction id of zero means none, a channel of zero not bound. `recent` is set while the id has
      been issued and not yet been seen in a response. */
  datatype Info = Info(record: Endpoint, timestamp: nat, tid: Tid, channel: nat, recent: bool)

  type Entries = map<Key, Info>

  function WithoutPort(r: Endpoint): Endpoint {
    if r.addr.Inet? then r.(addr := r.addr.(port := 0)) else r.(addr := r.addr.(port6 := 0))
  }

  function KeyOf(kind: Kind, r: Endpoint): Key {
    Key(kind, if kind == Permission then WithoutPort(r) else r)
  }

  /** Where the probe of a key starts: the port counts for channels only. */
  function KeyHash(key: Key): nat {
    RecordHash(key.peer, key.kind != Permission)
  }

  /** Keys are equal exactly when the comparison the source makes says so, and then hash equally. */
  lemma KeysMatch(kind: Kind, a: Endpoint, b: Endpoint)
    ensures KeyOf(kind, a) == KeyOf(kind, b) <==> RecordIsEqual(a, b, kind != Permission)
    ensures RecordHash(a, kind != Permission) == KeyHash(KeyOf(kind, a))
  {
    EqualKeysHashEqually(a, KeyOf(kind, a).peer, kind != Permission, kind != Permission);
  }

  function Blank(r: Endpoint): Info {
    Info(r, 0, 0, 0, false)
  }

  function Current(m: Entries, key: Key, r: Endpoint): Info {
    if key in m then m[key] else Blank(r)
  }

  /** There is a place for the key: its own, or a free one. */
  predicate Room(m: Entries, capacity: nat, key: Key) {
    key in m || |m| < capacity
  }

  predicate Carries(m: Entries, key: Key, tid: Tid) {
    key in m && tid != 0 && m[key].tid == tid
  }

  predicate Binds(m: Entries, key: Key, channel: nat) {
    key in m && channel != 0 && m[key].channel == channel
  }

  ghost predicate Carried(m: Entries, tid: Tid) {
    exists key :: Carries(m, key, tid)
  }

  ghost predicate Bound(m: Entries, channel: nat) {
    exists key :: Binds(m, key, channel)
  }

  // ---------- operations ----------

  /** The server installs or refreshes a permission; a repeated request changes nothing. */
  function Permit(m: Entries, capacity: nat, r: Endpoint, tid: Tid, expiry: nat): Entries {
    var key := KeyOf(Permission, r);
    if !Room(m, capacity, key) || (key in m && m[key].tid == tid) then m
    else m[key := Current(m, key, r).(tid := tid, timestamp := expiry, recent := false)]
  }

  /** The client takes a success response: the entry of that kind whose id it carries becomes live. */
  function Confirm(m: Entries, kind: Kind, tid: Tid, expiry: nat): Entries {
    map key | key in m ::
      if key.kind == kind && Carries(m, key, tid) then m[key].(timestamp := expiry, recent := false) else m[key]
  }

  ghost predicate CanBind(m: Entries, capacity: nat, r: Endpoint, channel: nat) {
    var key := KeyOf(Channel, r);
    && channel >= FIRST_CHANNEL
    && Room(m, capacity, key)
    && (if Current(m, key, r).channel != 0 then m[key].channel == channel else !Bound(m, channel))
  }

  ghost function Bind(m: Entries, capacity: nat, r: Endpoint, tid: Option<Tid>, channel: nat, expiry: nat): Entries {
    var key := KeyOf(Channel, r);
    if !CanBind(m, capacity, r, channel) then m
    else if Current(m, key, r).channel != 0 then m[key := m[key].(timestamp := expiry)]
    else
      var bound := Current(m, key, r).(channel := channel, timestamp := expiry);
      m[key := if tid.None? then bound else bound.(tid := tid.value, recent := true)]
  }

  /** The client takes an id for a request about the peer: the one still waiting for an answer, or a new
      one. */
  function Issue(m: Entries, capacity: nat, kind: Kind, r: Endpoint, draw: Tid): (Entries, Option<Tid>) {
    var key := KeyOf(kind, r);
    if !Room(m, capacity, key) then (m, None)
    else if Current(m, key, r).recent then (m, Some(m[key].tid))
    else (m[key := Current(m, key, r).(tid := draw, recent := true)], Some(draw))
  }

  /** The client recognises the id of a response and takes it as answered. */
  function Retrieve(m: Entries, tid: Tid): Entries {
    map key | key in m :: if Carries(m, key, tid) then m[key].(recent := false) else m[key]
  }

  // ---------- lookups ----------

  predicate HasPermission(m: Entries, r: Endpoint, now: nat) {
    var key := KeyOf(Permission, r);
    key in m && now < m[key].timestamp
  }

  predicate HasBoundChannel(m: Entries, r: Endpoint, now: nat) {
    var key := KeyOf(Channel, r);
    key in m && m[key].channel != 0 && now < m[key].timestamp
  }

  // ---------- what both sides keep ----------

  /** Only channel entries have a channel, a valid one, and no two have the same. */
  predicate ChannelsUnique(m: Entries) {
    && (forall key :: key in m && m[key].channel != 0 ==> key.kind == Channel && m[key].channel >= FIRST_CHANNEL)
    && (forall k, l :: k in m && l in m && m[k].channel != 0 && m[k].channel == m[l].channel ==> k == l)
  }

  predicate RecordsMatch(m: Entries) {
    forall key :: key in m ==> key == KeyOf(key.kind, m[key].record)
  }

  predicate IdsUnique(m: Entries) {
    forall k, l :: k in m && l in m && m[k].tid != 0 && m[k].tid == m[l].tid ==> k == l
  }

  /** A binding once made is never moved: section 12 of RFC 8656. */
  predicate KeepsBindings(m: Entries, m': Entries) {
    forall key :: key in m && m[key].channel != 0 ==> key in m' && m'[key].channel == m[key].channel
  }

  lemma PutKeeps(m: Entries, key: Key, info: Info)
    requires ChannelsUnique(m) && RecordsMatch(m) && key == KeyOf(key.kind, info.record)
    requires key in m && m[key].channel != 0 ==> info.channel == m[key].channel
    requires info.channel != 0 ==> key.kind == Channel && info.channel >= FIRST_CHANNEL
    requires info.channel != 0 ==> forall l :: l in m && m[l].channel == info.channel ==> l == key
    ensures ChannelsUnique(m[key := info]) && RecordsMatch(m[key := info]) && KeepsBindings(m, m[key := info])
  {
  }

  lemma PutKeepsIds(m: Entries, key: Key, info: Info)
    requires IdsUnique(m)
    requires info.tid != 0 ==> forall l :: l in m && m[l].tid == info.tid ==> l == key
    ensures IdsUnique(m[key := info])
  {
  }

  lemma BindKeeps(m: Entries, capacity: nat, r: Endpoint, tid: Option<Tid>, channel: nat, expiry: nat)
    requires ChannelsUnique(m) && RecordsMatch(m)
    ensures ChannelsUnique(Bind(m, capacity, r, tid, channel, expiry)) && RecordsMatch(Bind(m, capacity, r, tid, channel, expiry))
    ensures KeepsBindings(m, Bind(m, capacity, r, tid, channel, expiry))
    ensures tid.None? && IdsUnique(m) ==> IdsUnique(Bind(m, capacity, r, tid, channel, expiry))
  {
    var key := KeyOf(Channel, r);
    var m' := Bind(m, capacity, r, tid, channel, expiry);
    if CanBind(m, capacity, r, channel) {
      assert key in m ==> key == KeyOf(Channel, m[key].record);
      forall l | l in m && m[l].channel == channel ensures l == key {
        assert Binds(m, l, channel);
      }
      PutKeeps(m, key, m'[key]);
      if tid.None? && IdsUnique(m) {
        assert m'[key].tid == Current(m, key, r).tid;
        PutKeepsIds(m, key, m'[key]);
      }
    }
  }

  lemma PermitKeeps(m: Entries, capacity: nat, r: Endpoint, tid: Tid, expiry: nat)
    requires ChannelsUnique(m) && RecordsMatch(m)
    ensures ChannelsUnique(Permit(m, capacity, r, tid, expiry)) && RecordsMatch(Permit(m, capacity, r, tid, expiry))
    ensures KeepsBindings(m, Permit(m, capacity, r, tid, expiry))
  {
  }

  lemma ConfirmKeeps(m: Entries, kind: Kind, tid: Tid, expiry: nat)
    requires ChannelsUnique(m) && RecordsMatch(m) && IdsUnique(m)
    ensures var m' := Confirm(m, kind, tid, expiry);
            ChannelsUnique(m') && RecordsMatch(m') && IdsUnique(m') && KeepsBindings(m, m')
  {
    var m' := Confirm(m, kind, tid, expiry);
    assert forall key :: key in m ==> m'[key].channel == m[key].channel && m'[key].tid == m[key].tid;
  }

  lemma RetrieveKeeps(m: Entries, tid: Tid)
    requires ChannelsUnique(m) && RecordsMatch(m) && IdsUnique(m)
    ensures var m' := Retrieve(m, tid);
            ChannelsUnique(m') && RecordsMatch(m') && IdsUnique(m') && KeepsBindings(m, m')
  {
    var m' := Retrieve(m, tid);
    assert forall key :: key in m ==> m'[key].channel == m[key].channel && m'[key].tid == m[key].tid;
  }

  lemma IssueKeeps(m: Entries, capacity: nat, kind: Kind, r: Endpoint, draw: Tid)
    requires ChannelsUnique(m) && RecordsMatch(m) && IdsUnique(m) && !Carried(m, draw)
    ensures var m' := Issue(m, capacity, kind, r, draw).0;
            ChannelsUnique(m') && RecordsMatch(m') && IdsUnique(m') && KeepsBindings(m, m')
  {
    var key := KeyOf(kind, r);
    var info := Current(m, key, r).(tid := draw, recent := true);
    assert key in m ==> key == KeyOf(kind, m[key].record);
    PutKeeps(m, key, info);
    forall l ensures l in m && draw != 0 ==> m[l].tid != draw {
      assert !Carries(m, l, draw);
    }
    PutKeepsIds(m, key, info);
  }

  // ---------- runs of a server ----------

  datatype ServerOp =
    | PermitOp(r: Endpoint, tid: Tid, expiry: nat)
    | BindOp(r: Endpoint, tid: Tid, channel: nat, expiry: nat)

  ghost function ServerStep(m: Entries, capacity: nat, op: ServerOp): Entries {
    match op
    case PermitOp(r, tid, expiry) => Permit(m, capacity, r, tid, expiry)
    case BindOp(r, tid, channel, expiry) => Bind(m, capacity, r, Some(tid), channel, expiry)
  }

  ghost predicate IsServerRun(run: seq<Entries>, capacity: nat, ops: seq<ServerOp>) {
    && |run| == |ops| + 1
    && run[0] == map[]
    && forall i :: 0 <= i < |ops| ==> run[i + 1] == ServerStep(run[i], capacity, ops[i])
  }

  /** On every run of a server each channel has at most one peer and each peer keeps the one channel it was
      first given. */
  lemma {:induction false} ServerRunKeeps(run: seq<Entries>, capacity: nat, ops: seq<ServerOp>, i: nat, j: nat)
    requires IsServerRun(run, capacity, ops) && i <= j < |run|
    ensures ChannelsUnique(run[j]) && RecordsMatch(run[j])
    ensures KeepsBindings(run[i], run[j])
    decreases j
  {
    if j > 0 {
      var k := if i < j then i else j - 1;
      ServerRunKeeps(run, capacity, ops, k, j - 1);
      match ops[j - 1]
      case PermitOp(r, tid, expiry) => PermitKeeps(run[j - 1], capacity, r, tid, expiry);
      case BindOp(r, tid, channel, expiry) => BindKeeps(run[j - 1], capacity, r, Some(tid), channel, expiry);
    }
  }

  // ---------- runs of a client ----------

  /** The client's map with the time of its last operation, the ids it issued and for which peers, and those
      of them that a response carried later on. */
  datatype Client = Client(m: Entries, now: nat, issued: set<(Key, Tid)>, confirmed: set<(Key, Tid)>)

  datatype ClientOp =
    | IssueOp(kind: Kind, r: Endpoint, draw: Tid)
    | AnswerOp(kind: Kind, tid: Tid, duration: nat)
    | BindRandomOp(r: Endpoint, channel: nat)
    | RetrieveOp(tid: Tid)

  /** Random ids and channels are drawn again until they are new. */
  ghost predicate CanDo(c: Client, at: nat, op: ClientOp) {
    && c.now <= at
    && (op.IssueOp? ==> op.draw != 0 && !Carried(c.m, op.draw))
    && (op.BindRandomOp? ==> !Bound(c.m, op.channel))
  }

  ghost function ClientStep(c: Client, capacity: nat, at: nat, op: ClientOp): Client {
    match op
    case IssueOp(kind, r, draw) =>
      var (m, id) := Issue(c.m, capacity, kind, r, draw);
      c.(m := m, now := at, issued := if id.None? then c.issued else c.issued + {(KeyOf(kind, r), id.value)})
    case AnswerOp(kind, tid, duration) =>
      c.(m := Confirm(c.m, kind, tid, at + duration), now := at,
         confirmed := c.confirmed + set x | x in c.issued && x.0.kind == kind && x.1 == tid)
    case BindRandomOp(r, channel) =>
      c.(m := Bind(c.m, capacity, r, None, channel, at), now := at)
    case RetrieveOp(tid) =>
      c.(m := Retrieve(c.m, tid), now := at)
  }

  ghost predicate ConfirmedKey(c: Client, key: Key) {
    exists tid :: (key, tid) in c.confirmed
  }

  ghost predicate Proven(c: Client, key: Key, info: Info) {
    && (info.tid != 0 ==> (key, info.tid) in c.issued)
    && (info.recent ==> info.tid != 0)
    && (c.now < info.timestamp ==> ConfirmedKey(c, key))
  }

  /** Every id in the map was issued for its peer, and nothing is live that no response confirmed. */
  ghost predicate ClientOk(c: Client) {
    && ChannelsUnique(c.m) && RecordsMatch(c.m) && IdsUnique(c.m)
    && forall key :: key in c.m ==> Proven(c, key, c.m[key])
  }

  lemma ClientStepKeeps(c: Client, capacity: nat, at: nat, op: ClientOp)
    requires ClientOk(c) && CanDo(c, at, op)
    ensures ClientOk(ClientStep(c, capacity, at, op))
    ensures KeepsBindings(c.m, ClientStep(c, capacity, at, op).m)
  {
    var c' := ClientStep(c, capacity, at, op);
    MapKeeps(c, capacity, at, op);
    forall key | key in c'.m ensures Proven(c', key, c'.m[key]) {
      StillProven(c, capacity, at, op, key);
    }
  }

  lemma MapKeeps(c: Client, capacity: nat, at: nat, op: ClientOp)
    requires ChannelsUnique(c.m) && RecordsMatch(c.m) && IdsUnique(c.m) && CanDo(c, at, op)
    ensures var m' := ClientStep(c, capacity, at, op).m;
            ChannelsUnique(m') && RecordsMatch(m') && IdsUnique(m') && KeepsBindings(c.m, m')
  {
    hide ChannelsUnique, RecordsMatch, IdsUnique, KeepsBindings, Bind, Issue, Confirm, Retrieve;
    match op
    case IssueOp(kind, r, draw) => IssueKeeps(c.m, capacity, kind, r, draw);
    case AnswerOp(kind, tid, duration) => ConfirmKeeps(c.m, kind, tid, at + duration);
    case BindRandomOp(r, channel) => BindKeeps(c.m, capacity, r, None, channel, at);
    case RetrieveOp(tid) => RetrieveKeeps(c.m, tid);
  }

  lemma StillProven(c: Client, capacity: nat, at: nat, op: ClientOp, key: Key)
    requires ClientOk(c) && CanDo(c, at, op) && key in ClientStep(c, capacity, at, op).m
    ensures Proven(ClientStep(c, capacity, at, op), key, ClientStep(c, capacity, at, op).m[key])
  {
    var c' := ClientStep(c, capacity, at, op);
    if key in c.m {
      assert Proven(c, key, c.m[key]);
      if ConfirmedKey(c, key) {
        var tid :| (key, tid) in c.confirmed;
        assert (key, tid) in c'.confirmed;
      }
      if op.AnswerOp? && key.kind == op.kind && Carries(c.m, key, op.tid) {
        assert (key, op.tid) in c'.confirmed;
      }
    }
  }

  ghost predicate IsClientRun(run: seq<Client>, capacity: nat, ops: seq<(nat, ClientOp)>) {
    && |run| == |ops| + 1
    && run[0] == Client(map[], 0, {}, {})
    && forall i :: 0 <= i < |ops| ==>
         CanDo(run[i], ops[i].0, ops[i].1) && run[i + 1] == ClientStep(run[i], capacity, ops[i].0, ops[i].1)
  }

  lemma {:induction false} ClientRunKeeps(run: seq<Client>, capacity: nat, ops: seq<(nat, ClientOp)>, i: nat, j: nat)
    requires IsClientRun(run, capacity, ops) && i <= j < |run|
    ensures ClientOk(run[j])
    ensures KeepsBindings(run[i].m, run[j].m)
    decreases j
  {
    if j > 0 {
      ClientRunKeeps(run, capacity, ops, if i < j then i else j - 1, j - 1);
      ClientStepKeeps(run[j - 1], capacity, ops[j - 1].0, ops[j - 1].1);
    }
  }

  predicate IssuesFor(c: Client, capacity: nat, op: ClientOp, key: Key, tid: Tid) {
    op.IssueOp? && key == KeyOf(op.kind, op.r) && Issue(c.m, capacity, op.kind, op.r, op.draw).1 == Some(tid)
  }

  /** The two histories are what they are named after. */
  lemma {:induction false} IssuedWhen(run: seq<Client>, capacity: nat, ops: seq<(nat, ClientOp)>, i: nat, key: Key, tid: Tid)
    returns (a: nat)
    requires IsClientRun(run, capacity, ops) && i < |run| && (key, tid) in run[i].issued
    ensures a < i && IssuesFor(run[a], capacity, ops[a].1, key, tid)
  {
    a := i - 1;
    if (key, tid) in run[i - 1].issued {
      a := IssuedWhen(run, capacity, ops, i - 1, key, tid);
    }
  }

  lemma {:induction false} ConfirmedWhen(run: seq<Client>, capacity: nat, ops: seq<(nat, ClientOp)>, i: nat, key: Key, tid: Tid)
    returns (a: nat, b: nat)
    requires IsClientRun(run, capacity, ops) && i < |run| && (key, tid) in run[i].confirmed
    ensures a < b < i
    ensures IssuesFor(run[a], capacity, ops[a].1, key, tid)
    ensures ops[b].1.AnswerOp? && ops[b].1.kind == key.kind && ops[b].1.tid == tid
  {
    if (key, tid) in run[i - 1].confirmed {
      a, b := ConfirmedWhen(run, capacity, ops, i - 1, key, tid);
    } else {
      b := i - 1;
      a := IssuedWhen(run, capacity, ops, b, key, tid);
    }
  }

  /** A permission or a channel the client reports live was confirmed: some id was issued for that very peer
      and a response carrying it came after. */
  lemma LiveOnlyAfterResponse(run: seq<Client>, capacity: nat, ops: seq<(nat, ClientOp)>, i: nat, kind: Kind, r: Endpoint, now: nat)
    returns (tid: Tid, a: nat, b: nat)
    requires IsClientRun(run, capacity, ops) && i < |run| && run[i].now <= now
    requires kind == Permission ==> HasPermission(run[i].m, r, now)
    requires kind == Channel ==> HasBoundChannel(run[i].m, r, now)
    ensures a < b < i
    ensures IssuesFor(run[a], capacity, ops[a].1, KeyOf(kind, r), tid)
    ensures ops[b].1.AnswerOp? && ops[b].1.kind == kind && ops[b].1.tid == tid
  {
    var key := KeyOf(kind, r);
    ClientRunKeeps(run, capacity, ops, i, i);
    assert Proven(run[i], key, run[i].m[key]);
    tid :| (key, tid) in run[i].confirmed;
    a, b := ConfirmedWhen(run, capacity, ops, i, key, tid);
  }
}
