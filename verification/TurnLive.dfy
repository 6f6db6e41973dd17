/** How long permissions and channels of the TURN state map live: for single operations, and on whole runs of
    a server and of a client. */
module TurnLive {
  import opened Addr
  import opened Basics
  import opened TurnSpec

  /** The same address, whatever the port. */
  predicate SameAddress(a: Endpoint, b: Endpoint) {
    RecordIsEqual(a, b, false)
  }

  /** Nothing but the entry of one key has changed. */
  ghost predicate OnlyAt(m: Entries, m': Entries, key: Key) {
    forall k :: k != key ==> (k in m' <==> k in m) && (k in m ==> m'[k] == m[k])
  }

  // ---------- single operations ----------

  /** The request is a new one and there is a place for it. */
  predicate Accepts(m: Entries, capacity: nat, r: Endpoint, tid: Tid) {
    var key := KeyOf(Permission, r);
    Room(m, capacity, key) && !(key in m && m[key].tid == tid)
  }

  /** An accepted permission is for the address at any port, and for exactly as long as it says; a request
      that is not accepted changes nothing. */
  lemma PermitLives(m: Entries, capacity: nat, r: Endpoint, tid: Tid, expiry: nat, s: Endpoint, now: nat)
    ensures var m' := Permit(m, capacity, r, tid, expiry);
            && OnlyAt(m, m', KeyOf(Permission, r))
            && (Accepts(m, capacity, r, tid) <==> m' != m)
            && (HasPermission(m', s, now) <==>
                  if Accepts(m, capacity, r, tid) && SameAddress(r, s) then now < expiry else HasPermission(m, s, now))
            && (HasBoundChannel(m', s, now) <==> HasBoundChannel(m, s, now))
            && (Accepts(m, capacity, r, tid) ==> !Accepts(m', capacity, s, tid) || !SameAddress(r, s))
  {
    KeysMatch(Permission, r, s);
  }

  /** A channel that can be bound is the peer's own from then on, for exactly as long as it says. */
  lemma BindLives(m: Entries, capacity: nat, r: Endpoint, tid: Option<Tid>, channel: nat, expiry: nat, s: Endpoint, now: nat)
    ensures var m' := Bind(m, capacity, r, tid, channel, expiry);
            && OnlyAt(m, m', KeyOf(Channel, r))
            && (HasBoundChannel(m', s, now) <==>
                  if CanBind(m, capacity, r, channel) && r == s then now < expiry else HasBoundChannel(m, s, now))
            && (HasPermission(m', s, now) <==> HasPermission(m, s, now))
            && (CanBind(m, capacity, r, channel) ==> KeyOf(Channel, r) in m' && m'[KeyOf(Channel, r)].channel == channel)
  {
    EqualIsIdentity(r, s);
    KeysMatch(Channel, r, s);
  }

  /** A channel can be bound to a peer exactly if it is a channel number, there is a place for the peer, and
      the peer has it already or neither of them is taken; a first binding by a request remembers its id. */
  lemma BindAllowed(m: Entries, capacity: nat, r: Endpoint, tid: Option<Tid>, channel: nat, expiry: nat)
    ensures var key := Key(Channel, r);
            var taken := key in m && m[key].channel != 0;
            var m' := Bind(m, capacity, r, tid, channel, expiry);
            && (CanBind(m, capacity, r, channel) <==>
                  && channel >= 0x4000 && (key in m || |m| < capacity)
                  && (if taken then m[key].channel == channel else forall k :: k in m ==> m[k].channel != channel))
            && (CanBind(m, capacity, r, channel) && !taken && tid.Some? ==> m'[key].tid == tid.value && m'[key].recent)
            && (CanBind(m, capacity, r, channel) && taken ==> m' == m[key := m[key].(timestamp := expiry)])
  {
    assert forall k :: Binds(m, k, channel) <==> k in m && channel != 0 && m[k].channel == channel;
  }

  predicate LiveAt(m: Entries, key: Key, now: nat) {
    key in m && now < m[key].timestamp
  }

  /** A response makes the entry of its kind that carries the id live for as long as it says, and leaves the
      life of every other entry, and all channels and ids, alone. */
  lemma ConfirmLives(m: Entries, kind: Kind, tid: Tid, expiry: nat, key: Key, now: nat)
    ensures var m' := Confirm(m, kind, tid, expiry);
            && m'.Keys == m.Keys
            && (LiveAt(m', key, now) <==> if key.kind == kind && Carries(m, key, tid) then now < expiry else LiveAt(m, key, now))
            && (key in m ==> m'[key].channel == m[key].channel && m'[key].tid == m[key].tid && m'[key].record == m[key].record)
  {
  }

  /** The address has a permission, at any port, until then and no longer. */
  ghost predicate PermittedUntil(m: Entries, r: Endpoint, expiry: nat) {
    forall s: Endpoint, now: nat :: SameAddress(r, s) ==> (HasPermission(m, s, now) <==> now < expiry)
  }

  lemma PermitGrants(m: Entries, capacity: nat, r: Endpoint, tid: Tid, expiry: nat)
    requires Accepts(m, capacity, r, tid)
    ensures PermittedUntil(Permit(m, capacity, r, tid, expiry), r, expiry)
  {
    var m' := Permit(m, capacity, r, tid, expiry);
    forall s: Endpoint, now: nat | SameAddress(r, s) ensures HasPermission(m', s, now) <==> now < expiry {
      PermitLives(m, capacity, r, tid, expiry, s, now);
    }
  }

  /** The peer has the channel until then and no longer. */
  ghost predicate ChannelUntil(m: Entries, r: Endpoint, channel: nat, expiry: nat) {
    && KeyOf(Channel, r) in m && m[KeyOf(Channel, r)].channel == channel
    && forall now: nat :: HasBoundChannel(m, r, now) <==> now < expiry
  }

  lemma BindGrants(m: Entries, capacity: nat, r: Endpoint, tid: Option<Tid>, channel: nat, expiry: nat)
    requires CanBind(m, capacity, r, channel)
    ensures ChannelUntil(Bind(m, capacity, r, tid, channel, expiry), r, channel, expiry)
  {
    var m' := Bind(m, capacity, r, tid, channel, expiry);
    forall now: nat ensures HasBoundChannel(m', r, now) <==> now < expiry {
      BindLives(m, capacity, r, tid, channel, expiry, r, now);
    }
    BindLives(m, capacity, r, tid, channel, expiry, r, 0);
  }

  // ---------- runs of a server ----------

  /** Step k gives a permission for the address: it is for it, and changes the map. */
  predicate GrantsAt(run: seq<Entries>, ops: seq<ServerOp>, k: nat, r: Endpoint)
    requires k < |ops| < |run|
  {
    ops[k].PermitOp? && SameAddress(ops[k].r, r) && run[k + 1] != run[k]
  }

  /** Step k is the last of the first i that did. */
  predicate LastGrant(run: seq<Entries>, ops: seq<ServerOp>, k: nat, i: nat, r: Endpoint)
    requires k < i <= |ops| < |run|
  {
    GrantsAt(run, ops, k, r) && forall j :: k < j < i ==> !GrantsAt(run, ops, j, r)
  }

  /** The last request that gave a permission for the address has not expired. */
  predicate Permitted(run: seq<Entries>, ops: seq<ServerOp>, i: nat, r: Endpoint, now: nat)
    requires i <= |ops| < |run|
  {
    exists k :: 0 <= k < i && LastGrant(run, ops, k, i, r) && now < ops[k].expiry
  }

  lemma PermittedStep(run: seq<Entries>, ops: seq<ServerOp>, i: nat, r: Endpoint, now: nat)
    requires i < |ops| < |run|
    ensures Permitted(run, ops, i + 1, r, now) <==>
              if GrantsAt(run, ops, i, r) then now < ops[i].expiry else Permitted(run, ops, i, r, now)
  {
    hide GrantsAt;
    if GrantsAt(run, ops, i, r) {
      assert LastGrant(run, ops, i, i + 1, r);
    } else {
      if Permitted(run, ops, i, r, now) {
        var k :| 0 <= k < i && LastGrant(run, ops, k, i, r) && now < ops[k].expiry;
        assert LastGrant(run, ops, k, i + 1, r);
      }
      if Permitted(run, ops, i + 1, r, now) {
        var k :| 0 <= k < i + 1 && LastGrant(run, ops, k, i + 1, r) && now < ops[k].expiry;
        assert LastGrant(run, ops, k, i, r);
      }
    }
  }

  /** On every run of a server a permission is live exactly if the last request that gave one for the address
      has not expired. */
  lemma {:induction false} ServerPermissions(run: seq<Entries>, capacity: nat, ops: seq<ServerOp>, i: nat, r: Endpoint, now: nat)
    requires IsServerRun(run, capacity, ops) && i < |run|
    ensures HasPermission(run[i], r, now) <==> Permitted(run, ops, i, r, now)
  {
    if i > 0 {
      hide Permit, Bind, Permitted, HasPermission, CanBind;
      ServerPermissions(run, capacity, ops, i - 1, r, now);
      PermittedStep(run, ops, i - 1, r, now);
      match ops[i - 1]
      case PermitOp(q, tid, expiry) => PermitLives(run[i - 1], capacity, q, tid, expiry, r, now);
      case BindOp(q, tid, channel, expiry) => BindLives(run[i - 1], capacity, q, Some(tid), channel, expiry, r, now);
    }
  }

  /** Step k binds or renews the channel of the peer. */
  ghost predicate BindsStep(run: seq<Entries>, capacity: nat, ops: seq<ServerOp>, k: nat, r: Endpoint)
    requires k < |ops| < |run|
  {
    ops[k].BindOp? && ops[k].r == r && CanBind(run[k], capacity, r, ops[k].channel)
  }

  ghost predicate LastBind(run: seq<Entries>, capacity: nat, ops: seq<ServerOp>, k: nat, i: nat, r: Endpoint)
    requires k < i <= |ops| < |run|
  {
    BindsStep(run, capacity, ops, k, r) && forall j :: k < j < i ==> !BindsStep(run, capacity, ops, j, r)
  }

  ghost predicate BoundUntil(run: seq<Entries>, capacity: nat, ops: seq<ServerOp>, i: nat, r: Endpoint, now: nat)
    requires i <= |ops| < |run|
  {
    exists k :: 0 <= k < i && LastBind(run, capacity, ops, k, i, r) && now < ops[k].expiry
  }

  lemma BoundUntilStep(run: seq<Entries>, capacity: nat, ops: seq<ServerOp>, i: nat, r: Endpoint, now: nat)
    requires i < |ops| < |run|
    ensures BoundUntil(run, capacity, ops, i + 1, r, now) <==>
              if BindsStep(run, capacity, ops, i, r) then now < ops[i].expiry else BoundUntil(run, capacity, ops, i, r, now)
  {
    hide BindsStep;
    if BindsStep(run, capacity, ops, i, r) {
      assert LastBind(run, capacity, ops, i, i + 1, r);
    } else {
      if BoundUntil(run, capacity, ops, i, r, now) {
        var k :| 0 <= k < i && LastBind(run, capacity, ops, k, i, r) && now < ops[k].expiry;
        assert LastBind(run, capacity, ops, k, i + 1, r);
      }
      if BoundUntil(run, capacity, ops, i + 1, r, now) {
        var k :| 0 <= k < i + 1 && LastBind(run, capacity, ops, k, i + 1, r) && now < ops[k].expiry;
        assert LastBind(run, capacity, ops, k, i, r);
      }
    }
  }

  /** A channel is live exactly if the last binding or renewal has not expired. */
  lemma {:induction false} ServerChannels(run: seq<Entries>, capacity: nat, ops: seq<ServerOp>, i: nat, r: Endpoint, now: nat)
    requires IsServerRun(run, capacity, ops) && i < |run|
    ensures HasBoundChannel(run[i], r, now) <==> BoundUntil(run, capacity, ops, i, r, now)
  {
    if i > 0 {
      hide CanBind, Bind, Permit, BoundUntil, HasBoundChannel;
      ServerChannels(run, capacity, ops, i - 1, r, now);
      BoundUntilStep(run, capacity, ops, i - 1, r, now);
      match ops[i - 1] {
        case PermitOp(q, tid, expiry) => PermitLives(run[i - 1], capacity, q, tid, expiry, r, now);
        case BindOp(q, tid, channel, expiry) => BindLives(run[i - 1], capacity, q, Some(tid), channel, expiry, r, now);
      }
    }
  }

  /** And it is the channel asked for then. */
  lemma {:induction false} ServerChannelIs(run: seq<Entries>, capacity: nat, ops: seq<ServerOp>, k: nat, i: nat, r: Endpoint)
    requires IsServerRun(run, capacity, ops) && k < i < |run| && LastBind(run, capacity, ops, k, i, r)
    ensures KeyOf(Channel, r) in run[i] && run[i][KeyOf(Channel, r)].channel == ops[k].channel
    decreases i
  {
    hide CanBind;
    if k < i - 1 {
      ServerChannelIs(run, capacity, ops, k, i - 1, r);
      assert !BindsStep(run, capacity, ops, i - 1, r);
      ChannelKept(run[i - 1], capacity, ops[i - 1], r);
    } else {
      BindLives(run[k], capacity, r, Some(ops[k].tid), ops[k].channel, ops[k].expiry, r, 0);
    }
  }

  lemma ChannelKept(m: Entries, capacity: nat, op: ServerOp, r: Endpoint)
    requires !(op.BindOp? && op.r == r && CanBind(m, capacity, r, op.channel))
    ensures var m', key := ServerStep(m, capacity, op), KeyOf(Channel, r);
            (key in m' <==> key in m) && (key in m ==> m'[key] == m[key])
  {
  }

  // ---------- runs of a client ----------

  /** The step answers the request about the peer: the response is of its kind and has its id. */
  predicate Answers(c: Client, op: ClientOp, key: Key) {
    op.AnswerOp? && op.kind == key.kind && Carries(c.m, key, op.tid)
  }

  /** The step binds a channel to the peer. */
  ghost predicate BindsTo(c: Client, capacity: nat, op: ClientOp, key: Key) {
    op.BindRandomOp? && KeyOf(Channel, op.r) == key && CanBind(c.m, capacity, op.r, op.channel)
  }

  predicate AnswersAt(run: seq<Client>, ops: seq<(nat, ClientOp)>, k: nat, key: Key)
    requires k < |ops| < |run|
  {
    Answers(run[k], ops[k].1, key)
  }

  ghost predicate BindsAt(run: seq<Client>, capacity: nat, ops: seq<(nat, ClientOp)>, k: nat, key: Key)
    requires k < |ops| < |run|
  {
    BindsTo(run[k], capacity, ops[k].1, key)
  }

  /** Step k is the last of the first i that answered, and the channel was not bound after it. */
  ghost predicate LastAnswer(run: seq<Client>, capacity: nat, ops: seq<(nat, ClientOp)>, k: nat, i: nat, key: Key)
    requires k < i <= |ops| < |run|
  {
    AnswersAt(run, ops, k, key)
    && forall j :: k < j < i ==> !AnswersAt(run, ops, j, key) && !BindsAt(run, capacity, ops, j, key)
  }

  function Until(op: (nat, ClientOp)): nat
    requires op.1.AnswerOp?
  {
    op.0 + op.1.duration
  }

  /** The last answer about the peer has not expired. */
  ghost predicate Answered(run: seq<Client>, capacity: nat, ops: seq<(nat, ClientOp)>, i: nat, key: Key, now: nat)
    requires i <= |ops| < |run|
  {
    exists k :: 0 <= k < i && LastAnswer(run, capacity, ops, k, i, key) && now < Until(ops[k])
  }

  lemma AnsweredStep(run: seq<Client>, capacity: nat, ops: seq<(nat, ClientOp)>, i: nat, key: Key, now: nat)
    requires i < |ops| < |run|
    ensures AnswersAt(run, ops, i, key) ==> ops[i].1.AnswerOp?
    ensures Answered(run, capacity, ops, i + 1, key, now) <==>
              if AnswersAt(run, ops, i, key) then now < Until(ops[i])
              else !BindsAt(run, capacity, ops, i, key) && Answered(run, capacity, ops, i, key, now)
  {
    hide BindsAt, Carries;
    if AnswersAt(run, ops, i, key) {
      assert LastAnswer(run, capacity, ops, i, i + 1, key);
    } else {
      if Answered(run, capacity, ops, i, key, now) && !BindsAt(run, capacity, ops, i, key) {
        var k :| 0 <= k < i && LastAnswer(run, capacity, ops, k, i, key) && now < Until(ops[k]);
        assert LastAnswer(run, capacity, ops, k, i + 1, key);
      }
      if Answered(run, capacity, ops, i + 1, key, now) {
        var k :| 0 <= k < i + 1 && LastAnswer(run, capacity, ops, k, i + 1, key) && now < Until(ops[k]);
        assert LastAnswer(run, capacity, ops, k, i, key);
      }
    }
  }

  lemma RunStep(run: seq<Client>, capacity: nat, ops: seq<(nat, ClientOp)>, i: nat)
    requires IsClientRun(run, capacity, ops) && i < |ops|
    ensures |run| == |ops| + 1 && CanDo(run[i], ops[i].0, ops[i].1) && run[i + 1] == ClientStep(run[i], capacity, ops[i].0, ops[i].1)
    ensures run[i].now <= ops[i].0 == run[i + 1].now
  {
  }

  /** What one step does to the life of an entry. */
  lemma ClientStepLives(c: Client, capacity: nat, at: nat, op: ClientOp, key: Key, now: nat)
    requires CanDo(c, at, op) && (key.kind == Channel ==> at <= now)
    ensures var m' := ClientStep(c, capacity, at, op).m;
            LiveAt(m', key, now) <==>
              if Answers(c, op, key) then now < Until((at, op)) else LiveAt(c.m, key, now) && !BindsTo(c, capacity, op, key)
  {
    match op
    case IssueOp(kind, r, draw) =>
    case AnswerOp(kind, tid, duration) => ConfirmLives(c.m, kind, tid, at + duration, key, now);
    case BindRandomOp(r, channel) => hide CanBind;
    case RetrieveOp(tid) =>
  }

  /** On every run of a client an entry is live exactly if the last answer about its peer has not expired. */
  lemma {:induction false} ClientLives(run: seq<Client>, capacity: nat, ops: seq<(nat, ClientOp)>, i: nat, key: Key, now: nat)
    requires IsClientRun(run, capacity, ops) && i < |run| && (key.kind == Channel ==> run[i].now <= now)
    ensures LiveAt(run[i].m, key, now) <==> Answered(run, capacity, ops, i, key, now)
  {
    if i > 0 {
      hide ClientStep, IsClientRun, CanDo, Answers, BindsTo, Answered, LiveAt;
      RunStep(run, capacity, ops, i - 1);
      ClientLives(run, capacity, ops, i - 1, key, now);
      ClientStepLives(run[i - 1], capacity, ops[i - 1].0, ops[i - 1].1, key, now);
      AnsweredStep(run, capacity, ops, i - 1, key, now);
      assert ops[i - 1] == (ops[i - 1].0, ops[i - 1].1);
    }
  }

  lemma ClientPermissions(run: seq<Client>, capacity: nat, ops: seq<(nat, ClientOp)>, i: nat, r: Endpoint, now: nat)
    requires IsClientRun(run, capacity, ops) && i < |run|
    ensures HasPermission(run[i].m, r, now) <==> Answered(run, capacity, ops, i, KeyOf(Permission, r), now)
  {
    ClientLives(run, capacity, ops, i, KeyOf(Permission, r), now);
  }

  /** A peer has a channel exactly from the step on that bound it. */
  lemma {:induction false} ClientBound(run: seq<Client>, capacity: nat, ops: seq<(nat, ClientOp)>, i: nat, r: Endpoint)
    requires IsClientRun(run, capacity, ops) && i < |run|
    ensures var key := KeyOf(Channel, r);
            key in run[i].m && run[i].m[key].channel != 0 <==> exists b :: 0 <= b < i && BindsAt(run, capacity, ops, b, key)
  {
    if i > 0 {
      var key := KeyOf(Channel, r);
      ClientBound(run, capacity, ops, i - 1, r);
      if BindsAt(run, capacity, ops, i - 1, key) {
        assert run[i].m[key].channel == ops[i - 1].1.channel;
      }
    }
  }

  /** A client's channel is live exactly if it was bound and the last answer since has not expired. */
  lemma ClientChannels(run: seq<Client>, capacity: nat, ops: seq<(nat, ClientOp)>, i: nat, r: Endpoint, now: nat)
    requires IsClientRun(run, capacity, ops) && i < |run| && run[i].now <= now
    ensures HasBoundChannel(run[i].m, r, now) <==>
              && Answered(run, capacity, ops, i, KeyOf(Channel, r), now)
              && exists b :: 0 <= b < i && BindsAt(run, capacity, ops, b, KeyOf(Channel, r))
  {
    hide CanBind, Answered, BindsAt;
    var key := KeyOf(Channel, r);
    ClientLives(run, capacity, ops, i, key, now);
    ClientBound(run, capacity, ops, i, r);
  }

  /** Step k issues an id for a request about the peer. */
  predicate IssuesAt(run: seq<Client>, capacity: nat, ops: seq<(nat, ClientOp)>, k: nat, key: Key)
    requires k < |ops| < |run|
  {
    IssuesTo(run[k], capacity, ops[k].1, key)
  }

  predicate IssuesTo(c: Client, capacity: nat, op: ClientOp, key: Key) {
    op.IssueOp? && key == KeyOf(op.kind, op.r) && Room(c.m, capacity, key)
  }

  /** The last id issued for the peer is this one. */
  predicate LastIssued(run: seq<Client>, capacity: nat, ops: seq<(nat, ClientOp)>, i: nat, key: Key, tid: Tid)
    requires i <= |ops| < |run|
  {
    exists k :: 0 <= k < i && IssuesFor(run[k], capacity, ops[k].1, key, tid) && NoneIssued(run, capacity, ops, k + 1, i, key)
  }

  predicate NoneIssued(run: seq<Client>, capacity: nat, ops: seq<(nat, ClientOp)>, from: nat, to: nat, key: Key)
    requires from <= to <= |ops| < |run|
  {
    forall j :: from <= j < to ==> !IssuesAt(run, capacity, ops, j, key)
  }

  lemma LastIssuedStep(run: seq<Client>, capacity: nat, ops: seq<(nat, ClientOp)>, i: nat, key: Key, tid: Tid)
    requires i < |ops| < |run|
    ensures LastIssued(run, capacity, ops, i + 1, key, tid) <==>
              if IssuesTo(run[i], capacity, ops[i].1, key) then IssuesFor(run[i], capacity, ops[i].1, key, tid)
              else LastIssued(run, capacity, ops, i, key, tid)
  {
    assert IssuesFor(run[i], capacity, ops[i].1, key, tid) ==> IssuesAt(run, capacity, ops, i, key);
    hide IssuesTo, IssuesFor;
    if IssuesAt(run, capacity, ops, i, key) {
      assert NoneIssued(run, capacity, ops, i + 1, i + 1, key);
    } else {
      if LastIssued(run, capacity, ops, i, key, tid) {
        var k :| 0 <= k < i && IssuesFor(run[k], capacity, ops[k].1, key, tid) && NoneIssued(run, capacity, ops, k + 1, i, key);
        assert NoneIssued(run, capacity, ops, k + 1, i + 1, key);
      }
      if LastIssued(run, capacity, ops, i + 1, key, tid) {
        var k :| 0 <= k < i + 1 && IssuesFor(run[k], capacity, ops[k].1, key, tid) && NoneIssued(run, capacity, ops, k + 1, i + 1, key);
        assert NoneIssued(run, capacity, ops, k + 1, i, key);
      }
    }
  }

  /** Only issuing changes which id an entry carries. */
  lemma StepCarries(c: Client, capacity: nat, at: nat, op: ClientOp, key: Key, tid: Tid)
    requires CanDo(c, at, op) && tid != 0
    ensures var m' := ClientStep(c, capacity, at, op).m;
            Carries(m', key, tid) <==>
              if IssuesTo(c, capacity, op, key) then IssuesFor(c, capacity, op, key, tid)
              else Carries(c.m, key, tid)
  {
    hide CanBind;
  }

  /** The id a response must have is the one issued last for the peer. */
  lemma {:induction false} CarriesLastIssued(run: seq<Client>, capacity: nat, ops: seq<(nat, ClientOp)>, i: nat, key: Key, tid: Tid)
    requires IsClientRun(run, capacity, ops) && i < |run| && tid != 0
    ensures Carries(run[i].m, key, tid) <==> LastIssued(run, capacity, ops, i, key, tid)
  {
    if i > 0 {
      hide LastIssued, ClientStep, IssuesFor, IssuesTo, Carries, IsClientRun, CanDo;
      RunStep(run, capacity, ops, i - 1);
      CarriesLastIssued(run, capacity, ops, i - 1, key, tid);
      LastIssuedStep(run, capacity, ops, i - 1, key, tid);
      StepCarries(run[i - 1], capacity, ops[i - 1].0, ops[i - 1].1, key, tid);
    }
  }

  /** The id has been answered by step i. */
  predicate Met(ops: seq<(nat, ClientOp)>, i: nat, tid: Tid)
    requires i < |ops|
  {
    (ops[i].1.AnswerOp? || ops[i].1.RetrieveOp?) && ops[i].1.tid == tid
  }

  /** Until a response comes, a request about the peer is made under the same id again. */
  lemma {:induction false} SameIdUntilMet(run: seq<Client>, capacity: nat, ops: seq<(nat, ClientOp)>, k: nat, i: nat, key: Key, tid: Tid)
    requires IsClientRun(run, capacity, ops) && k < i < |run| && IssuesFor(run[k], capacity, ops[k].1, key, tid)
    requires forall j :: k < j < i ==> !Met(ops, j, tid)
    ensures key in run[i].m && run[i].m[key].tid == tid && run[i].m[key].recent
    ensures i < |ops| && ops[i].1.IssueOp? && KeyOf(ops[i].1.kind, ops[i].1.r) == key ==> IssuesFor(run[i], capacity, ops[i].1, key, tid)
    decreases i
  {
    hide CanBind;
    if k < i - 1 {
      SameIdUntilMet(run, capacity, ops, k, i - 1, key, tid);
      assert !Met(ops, i - 1, tid);
    }
  }

  /** Once it has come, the next request takes a new id. */
  lemma NewIdAfterMet(c: Client, capacity: nat, at: nat, op: ClientOp, next: nat, kind: Kind, r: Endpoint, draw: Tid)
    requires ClientOk(c) && CanDo(c, at, op) && (op.AnswerOp? || op.RetrieveOp?) && Carries(c.m, KeyOf(kind, r), op.tid)
    requires op.AnswerOp? ==> op.kind == kind
    ensures Issue(ClientStep(c, capacity, at, op).m, capacity, kind, r, draw).1 == Some(draw)
  {
  }
}
