/** Role-conflict repair between two agents, as in sections 7.2.5.1 and 7.3.1.1 of RFC 8445.

    A peer is an agent and everything it ever sent. A sent message may be delivered any number of times, in
    any order, or never, so the network is just the two sets of sent messages. Only connectivity-check
    entries are kept, with the three fields that matter to roles. */
module RoleConflict {
  import opened Basics

  type Tid = nat

  const ROLE_CONFLICT := 487

  datatype Mode = Unknown | Controlling | Controlled

  datatype Entry = Entry(tid: Tid, expired: bool, mode: Mode)

  datatype Agent = Agent(mode: Mode, tiebreaker: nat, entries: seq<Entry>)

  /** A Binding request with its two role attributes, zero when absent, or a response with its error code,
      zero for success. */
  datatype Message =
    | Request(tid: Tid, controlling: nat, controlled: nat)
    | Response(tid: Tid, code: nat)

  /** How sending a request can end: no remote credentials yet, failure after the request was formed, or
      the request on the wire. */
  datatype Outcome = Dropped | Failed | Sent

  // ---------- what an agent does ----------

  function Expired(entries: seq<Entry>): (r: seq<Entry>)
    ensures |r| == |entries|
    ensures forall i :: 0 <= i < |r| ==> r[i] == entries[i].(expired := true)
  {
    seq(|entries|, i requires 0 <= i < |entries| => entries[i].(expired := true))
  }

  function RequestOf(a: Agent, tid: Tid): Message {
    Request(tid, if a.mode == Controlling then a.tiebreaker else 0, if a.mode == Controlled then a.tiebreaker else 0)
  }

  /** A transmission of entry `i`: a keepalive always takes a new id, a retransmission only when the id has
      expired. */
  function Transmit(a: Agent, i: nat, keepalive: bool, draw: Tid, outcome: Outcome): (Agent, Option<Message>)
    requires i < |a.entries|
  {
    var e := a.entries[i];
    var drawn := if keepalive || e.expired then Entry(draw, false, e.mode) else e;
    match outcome
    case Dropped => (a.(entries := a.entries[i := drawn]), None)
    case Failed => (a.(entries := a.entries[i := drawn.(mode := a.mode)]), None)
    case Sent => (a.(entries := a.entries[i := drawn.(mode := a.mode)]), Some(RequestOf(a, drawn.tid)))
  }

  function SwitchTo(a: Agent, mode: Mode): Agent {
    a.(mode := mode, entries := Expired(a.entries))
  }

  /** A Binding request received. `code` is the answer when the roles do not clash. */
  function OnRequest(a: Agent, m: Message, code: nat): (Agent, Option<Message>)
    requires m.Request?
  {
    if m.controlling == m.controlled then
      (a, Some(Response(m.tid, 400)))
    else if a.mode == Controlling && m.controlling != 0 then
      if a.tiebreaker >= m.controlling then (a, Some(Response(m.tid, ROLE_CONFLICT)))
      else (SwitchTo(a, Controlled), None)
    else if a.mode == Controlled && m.controlled != 0 then
      if a.tiebreaker >= m.controlling then (SwitchTo(a, Controlling), None)
      else (a, Some(Response(m.tid, ROLE_CONFLICT)))
    else
      (a, Some(Response(m.tid, code)))
  }

  /** The request says that its sender has the role of this agent too. */
  predicate Clashes(mode: Mode, m: Message)
    requires m.Request?
  {
    (mode == Controlling && m.controlling != 0) || (mode == Controlled && m.controlled != 0)
  }

  /** What a request is answered with: 400 if it does not name one role, the given code if the roles do not
      clash, and otherwise a conflict or, by an agent that gives way, nothing. */
  lemma AnswerIs(a: Agent, m: Message, code: nat)
    requires m.Request?
    ensures var (b, reply) := OnRequest(a, m, code);
            && (m.controlling == m.controlled ==> b == a && reply == Some(Response(m.tid, 400)))
            && (m.controlling != m.controlled && !Clashes(a.mode, m) ==> b == a && reply == Some(Response(m.tid, code)))
            && (m.controlling != m.controlled && Clashes(a.mode, m) ==>
                  if b.mode == a.mode then b == a && reply == Some(Response(m.tid, 487)) else reply == None)
  {
  }

  function Find(entries: seq<Entry>, tid: Tid): (i: nat)
    ensures i <= |entries|
    ensures i < |entries| ==> entries[i].tid == tid
    ensures forall j :: 0 <= j < i ==> entries[j].tid != tid
  {
    if entries == [] || entries[0].tid == tid then 0 else 1 + Find(entries[1..], tid)
  }

  /** A response received. Only a role-conflict error for the request an entry last sent can change the
      role; the tiebreaker is then redrawn. */
  function OnResponse(a: Agent, m: Message, redraw: nat): Agent
    requires m.Response?
  {
    var i := Find(a.entries, m.tid);
    if i < |a.entries| && m.code == ROLE_CONFLICT && a.entries[i].mode == a.mode then
      SwitchTo(a, if a.entries[i].mode == Controlling then Controlled else Controlling).(tiebreaker := redraw)
    else
      a
  }

  /** What a transmission does: a request under a new id if it is a keepalive or the old id has expired, with
      the tiebreaker under the role of the moment, which the entry remembers unless the sending was given up
      before; and nothing else. */
  lemma TransmitSends(a: Agent, i: nat, keepalive: bool, draw: Tid, outcome: Outcome)
    requires i < |a.entries|
    ensures var (b, m) := Transmit(a, i, keepalive, draw, outcome);
            var e := a.entries[i];
            var tid := if keepalive || e.expired then draw else e.tid;
            && (m.Some? <==> outcome == Sent)
            && (m.Some? ==> m.value.Request? && m.value.tid == tid
                            && m.value.controlling == (if a.mode == Controlling then a.tiebreaker else 0)
                            && m.value.controlled == (if a.mode == Controlled then a.tiebreaker else 0))
            && b == a.(entries := a.entries[i := Entry(tid, false, if outcome == Dropped then e.mode else a.mode)])
  {
  }

  // ---------- messages that come again ----------

  /** Until its id expires, sending an entry again sends the very same request. */
  lemma RetransmissionIsSame(a: Agent, i: nat, keepalive: bool, draw: Tid, redraw: Tid)
    requires i < |a.entries|
    ensures var (b, m) := Transmit(a, i, keepalive, draw, Sent);
            Transmit(b, i, false, redraw, Sent) == (b, m)
  {
    var (b, m) := Transmit(a, i, keepalive, draw, Sent);
    assert b.entries[i := b.entries[i]] == b.entries;
  }

  lemma {:induction false} FindExpired(entries: seq<Entry>, tid: Tid)
    ensures Find(Expired(entries), tid) == Find(entries, tid)
  {
    if entries != [] {
      assert Expired(entries)[1..] == Expired(entries[1..]);
      FindExpired(entries[1..], tid);
    }
  }

  /** A request that is delivered again does not move the agent a second time. */
  lemma RepeatedRequest(a: Agent, m: Message, code: nat, again: nat)
    requires m.Request?
    ensures var b := OnRequest(a, m, code).0; OnRequest(b, m, again).0 == b
  {
  }

  /** Neither does a conflict answer: the entry remembers the role the request was sent in. */
  lemma RepeatedConflict(a: Agent, m: Message, redraw: nat, again: nat)
    requires m.Response?
    ensures var b := OnResponse(a, m, redraw); OnResponse(b, m, again) == b
  {
    FindExpired(a.entries, m.tid);
  }

  // ---------- the rule of the standard ----------

  /** What section 7.3.1.1 of RFC 8445 asks of an agent with this role and tiebreaker when a request with these
      attributes arrives: the role afterwards, and whether the answer is a role conflict. */
  function Repair(mode: Mode, tiebreaker: nat, controlling: nat, controlled: nat): (Mode, bool) {
    if mode == Controlling && controlling != 0 then
      if tiebreaker >= controlling then (mode, true) else (Controlled, false)
    else if mode == Controlled && controlled != 0 then
      if tiebreaker >= controlled then (Controlling, false) else (mode, true)
    else
      (mode, false)
  }

  predicate Follows(a: Agent, m: Message, code: nat)
    requires m.Request?
  {
    var (b, reply) := OnRequest(a, m, code);
    (b.mode, reply == Some(Response(m.tid, ROLE_CONFLICT))) == Repair(a.mode, a.tiebreaker, m.controlling, m.controlled)
  }

  /** For requests with one role attribute, the agent does what the standard asks if and only if it is not a
      controlled agent that meets a controlled one with a larger tiebreaker. In that case it compares with the
      attribute that is absent, and takes the controlling role that belongs to the other. */
  lemma FollowsStandardIff(a: Agent, m: Message, code: nat)
    requires m.Request? && code != ROLE_CONFLICT && (m.controlling == 0 <==> m.controlled != 0)
    ensures Follows(a, m, code) <==> !(a.mode == Controlled && a.tiebreaker < m.controlled)
    ensures a.mode == Controlled && m.controlled != 0 ==> OnRequest(a, m, code).0.mode == Controlling
  {
  }

  /** Two controlled agents that hear each other both become controlling. */
  lemma BothControlledBothSwitch()
    ensures var a, b := Agent(Controlled, 1, []), Agent(Controlled, 2, []);
            && OnRequest(a, RequestOf(b, 7), 0).0.mode == Controlling
            && OnRequest(b, RequestOf(a, 8), 0).0.mode == Controlling
            && !Follows(a, RequestOf(b, 7), 0) && Follows(b, RequestOf(a, 8), 0)
  {
  }

  // ---------- the same, step by step on mutable state ----------

  class Endpoint {
    var mode: Mode
    var tiebreaker: nat
    var entries: seq<Entry>

    function View(): Agent
      reads this
    {
      Agent(mode, tiebreaker, entries)
    }

    /** Changes the role and expires every transaction id. */
    method Switch(to: Mode)
      modifies this
      ensures View() == SwitchTo(old(View()), to)
    {
      mode := to;
      var i := 0;
      while i < |entries|
        invariant 0 <= i <= |entries| == |old(entries)|
        invariant mode == to && tiebreaker == old(tiebreaker)
        invariant forall j :: 0 <= j < i ==> entries[j] == old(entries)[j].(expired := true)
        invariant forall j :: i <= j < |entries| ==> entries[j] == old(entries)[j]
      {
        entries := entries[i := entries[i].(expired := true)];
        i := i + 1;
      }
      assert entries == Expired(old(entries));
    }

    /** The first entry holding the id, by scanning. */
    method Lookup(tid: Tid) returns (i: nat)
      ensures i == Find(entries, tid)
    {
      i := 0;
      while i < |entries| && entries[i].tid != tid
        invariant 0 <= i <= |entries|
        invariant i + Find(entries[i..], tid) == Find(entries, tid)
      {
        assert entries[i..][1..] == entries[i + 1..];
        i := i + 1;
      }
    }

    method Send(i: nat, keepalive: bool, draw: Tid, outcome: Outcome) returns (sent: Option<Message>)
      requires i < |entries|
      modifies this
      ensures (View(), sent) == Transmit(old(View()), i, keepalive, draw, outcome)
      ensures entries[i].tid == (if keepalive || old(entries)[i].expired then draw else old(entries)[i].tid)
      ensures sent.Some? ==> sent.value == RequestOf(View(), entries[i].tid) && entries[i].mode == mode && !entries[i].expired
    {
      var e := entries[i];
      if keepalive || e.expired {
        e := e.(tid := draw, expired := false);
      }
      sent := None;
      if outcome != Dropped {
        e := e.(mode := mode);
        if outcome == Sent {
          sent := Some(RequestOf(View(), e.tid));
        }
      }
      entries := entries[i := e];
    }

    method ReceiveRequest(m: Message, code: nat) returns (reply: Option<Message>)
      requires m.Request?
      modifies this
      ensures (View(), reply) == OnRequest(old(View()), m, code)
      ensures mode != old(mode) <==> reply.None?
      ensures m.controlling != m.controlled && !Clashes(old(mode), m) ==> reply == Some(Response(m.tid, code)) && View() == old(View())
      ensures m.controlling == m.controlled ==> reply == Some(Response(m.tid, 400)) && View() == old(View())
      ensures mode != old(mode) ==> forall i :: 0 <= i < |entries| ==> entries[i].expired
    {
      if m.controlling == m.controlled {
        return Some(Response(m.tid, 400));
      }
      if mode == Controlling && m.controlling != 0 {
        if tiebreaker >= m.controlling {
          return Some(Response(m.tid, ROLE_CONFLICT));
        }
        Switch(Controlled);
        return None;
      }
      if mode == Controlled && m.controlled != 0 {
        if tiebreaker >= m.controlling {
          Switch(Controlling);
          return None;
        }
        return Some(Response(m.tid, ROLE_CONFLICT));
      }
      return Some(Response(m.tid, code));
    }

    method ReceiveResponse(m: Message, redraw: nat)
      requires m.Response?
      modifies this
      ensures View() == OnResponse(old(View()), m, redraw)
      ensures mode != old(mode) ==> m.code == ROLE_CONFLICT && forall i :: 0 <= i < |entries| ==> entries[i].expired
    {
      var i := Lookup(m.tid);
      if i < |entries| && m.code == ROLE_CONFLICT && entries[i].mode == mode {
        Switch(if entries[i].mode == Controlling then Controlled else Controlling);
        tiebreaker := redraw;
      }
    }
  }

  // ---------- two agents and the network ----------

  datatype Side = Left | Right

  function Other(side: Side): Side {
    if side == Left then Right else Left
  }

  /** An agent, all it ever sent, and all the transaction ids it ever drew. */
  datatype Peer = Peer(agent: Agent, sent: set<Message>, drawn: set<Tid>)

  datatype World = World(left: Peer, right: Peer) {
    function At(side: Side): Peer {
      if side == Left then left else right
    }

    function With(side: Side, p: Peer): World {
      if side == Left then this.(left := p) else this.(right := p)
    }
  }

  datatype Step =
    | NewEntry(tid: Tid)
    | Expire(i: nat)
    | TransmitEntry(i: nat, keepalive: bool, draw: Tid, outcome: Outcome)
    | GetRequest(m: Message, code: nat)
    | GetResponse(m: Message, redraw: nat)

  predicate IsFresh(w: World, tid: Tid) {
    tid !in w.left.drawn && tid !in w.right.drawn
  }

  predicate Enabled(w: World, side: Side, step: Step) {
    var p := w.At(side);
    match step
    case NewEntry(tid) => IsFresh(w, tid)
    case Expire(i) => i < |p.agent.entries|
    case TransmitEntry(i, _, draw, _) => i < |p.agent.entries| && IsFresh(w, draw)
    case GetRequest(m, code) => m.Request? && m in w.At(Other(side)).sent && code != ROLE_CONFLICT
    case GetResponse(m, _) => m.Response? && m in w.At(Other(side)).sent
  }

  function Record(p: Peer, a: Agent, m: Option<Message>): Peer {
    p.(agent := a, sent := if m.None? then p.sent else p.sent + {m.value})
  }

  function Act(p: Peer, step: Step): Peer
    requires step.Expire? || step.TransmitEntry? ==> step.i < |p.agent.entries|
    requires step.GetRequest? ==> step.m.Request?
    requires step.GetResponse? ==> step.m.Response?
  {
    var a := p.agent;
    match step
    case NewEntry(tid) =>
      Peer(a.(entries := a.entries + [Entry(tid, false, Unknown)]), p.sent, p.drawn + {tid})
    case Expire(i) =>
      p.(agent := a.(entries := a.entries[i := a.entries[i].(expired := true)]))
    case TransmitEntry(i, keepalive, draw, outcome) =>
      var (a', m) := Transmit(a, i, keepalive, draw, outcome);
      Record(p, a', m).(drawn := p.drawn + {draw})
    case GetRequest(m, code) =>
      var (a', reply) := OnRequest(a, m, code);
      Record(p, a', reply)
    case GetResponse(m, redraw) =>
      p.(agent := OnResponse(a, m, redraw))
  }

  function Apply(w: World, side: Side, step: Step): World
    requires Enabled(w, side, step)
  {
    w.With(side, Act(w.At(side), step))
  }

  // ---------- the invariant ----------

  /** An id is sent with one pair of role attributes only, and an entry's id, saved mode and expiry flag
      agree with what went out under that id. */
  predicate IdsOk(p: Peer) {
    && (forall i :: 0 <= i < |p.agent.entries| ==> p.agent.entries[i].tid in p.drawn)
    && (forall i, j :: 0 <= i < j < |p.agent.entries| ==> p.agent.entries[i].tid != p.agent.entries[j].tid)
    && (forall m :: m in p.sent && m.Request? ==> m.tid in p.drawn)
    && (forall m, n :: m in p.sent && n in p.sent && m.Request? && n.Request? && m.tid == n.tid ==> m == n)
    && (forall i, m :: 0 <= i < |p.agent.entries| && m in p.sent && m.Request? && m.tid == p.agent.entries[i].tid ==>
          Agrees(p.agent, p.agent.entries[i], m))
  }

  predicate Agrees(a: Agent, e: Entry, m: Message)
    requires m.Request?
  {
    && (m.controlling != 0 ==> e.mode == Controlling)
    && (m.controlling == 0 ==> e.mode == Controlled)
    && (!e.expired ==> m == RequestOf(a, m.tid))
  }

  /** The agent with the larger tiebreaker has not moved, and the other has at most given way. */
  predicate RolesOk(strong: Peer, weak: Peer, high: nat, low: nat) {
    && 0 < low < high
    && strong.agent.mode == Controlling && strong.agent.tiebreaker == high
    && (weak.agent.mode == Controlled || (weak.agent.mode == Controlling && weak.agent.tiebreaker == low))
    && (forall m :: m in strong.sent && m.Request? ==> m.controlling == high && m.controlled == 0)
    && (forall m :: m in weak.sent && m.Request? && m.controlling != 0 ==> m.controlling == low && m.controlled == 0)
    && (forall m :: m in weak.sent && m.Response? ==> m.code != ROLE_CONFLICT)
    && (forall m :: m in strong.sent && m.Response? && m.code == ROLE_CONFLICT ==>
          Request(m.tid, low, 0) in weak.sent)
  }

  predicate Inv(w: World, win: Side, high: nat, low: nat) {
    && IdsOk(w.left) && IdsOk(w.right)
    && w.left.drawn !! w.right.drawn
    && RolesOk(w.At(win), w.At(Other(win)), high, low)
  }

  // ---------- each step keeps it ----------

  lemma SwitchKeepsIds(p: Peer, mode: Mode, tiebreaker: nat)
    requires IdsOk(p)
    ensures IdsOk(p.(agent := SwitchTo(p.agent, mode).(tiebreaker := tiebreaker)))
  {
    var a := SwitchTo(p.agent, mode).(tiebreaker := tiebreaker);
    assert forall i :: 0 <= i < |a.entries| ==> a.entries[i] == p.agent.entries[i].(expired := true);
  }

  lemma ReplyKeepsIds(p: Peer, m: Message)
    requires IdsOk(p) && m.Response?
    ensures IdsOk(p.(sent := p.sent + {m}))
  {
  }

  lemma TransmitKeepsIds(p: Peer, i: nat, keepalive: bool, draw: Tid, outcome: Outcome)
    requires IdsOk(p) && i < |p.agent.entries| && draw !in p.drawn
    requires p.agent.mode != Unknown && (p.agent.mode == Controlling ==> p.agent.tiebreaker != 0)
    ensures IdsOk(Act(p, TransmitEntry(i, keepalive, draw, outcome)))
  {
    var p' := Act(p, TransmitEntry(i, keepalive, draw, outcome));
    var e := p.agent.entries[i];
    var e' := p'.agent.entries[i];
    assert forall j :: 0 <= j < |p.agent.entries| && j != i ==> p'.agent.entries[j] == p.agent.entries[j];
    assert e'.tid == draw || (e'.tid == e.tid && !e.expired);
    forall m | m in p'.sent && m.Request? && m.tid == e'.tid
      ensures Agrees(p'.agent, e', m) && m == RequestOf(p'.agent, e'.tid)
    {
      assert m in p.sent ==> m.tid in p.drawn;
      assert m in p.sent ==> Agrees(p.agent, e, m);
    }
  }

  lemma NewEntryKeepsIds(p: Peer, tid: Tid)
    requires IdsOk(p) && tid !in p.drawn
    ensures IdsOk(Act(p, NewEntry(tid)))
  {
  }

  lemma ExpireKeepsIds(p: Peer, i: nat)
    requires IdsOk(p) && i < |p.agent.entries|
    ensures IdsOk(Act(p, Expire(i)))
  {
    assert forall j :: 0 <= j < |p.agent.entries| && j != i ==> Act(p, Expire(i)).agent.entries[j] == p.agent.entries[j];
  }

  lemma ActKeepsIds(p: Peer, step: Step)
    requires IdsOk(p)
    requires p.agent.mode != Unknown && (p.agent.mode == Controlling ==> p.agent.tiebreaker != 0)
    requires step.Expire? || step.TransmitEntry? ==> step.i < |p.agent.entries|
    requires step.GetRequest? ==> step.m.Request?
    requires step.GetResponse? ==> step.m.Response?
    requires step.NewEntry? ==> step.tid !in p.drawn
    requires step.TransmitEntry? ==> step.draw !in p.drawn
    ensures IdsOk(Act(p, step))
  {
    hide IdsOk;
    match step
    case NewEntry(tid) =>
      NewEntryKeepsIds(p, tid);
    case Expire(i) =>
      ExpireKeepsIds(p, i);
    case TransmitEntry(i, keepalive, draw, outcome) =>
      TransmitKeepsIds(p, i, keepalive, draw, outcome);
    case GetRequest(m, code) =>
      SwitchKeepsIds(p, Controlled, p.agent.tiebreaker);
      SwitchKeepsIds(p, Controlling, p.agent.tiebreaker);
      ReplyKeepsIds(p, Response(m.tid, 400));
      ReplyKeepsIds(p, Response(m.tid, ROLE_CONFLICT));
      ReplyKeepsIds(p, Response(m.tid, code));
    case GetResponse(m, redraw) =>
      SwitchKeepsIds(p, Controlled, redraw);
      SwitchKeepsIds(p, Controlling, redraw);
  }

  /** The winning side never sees a reason to move. */
  lemma StrongStays(w: World, win: Side, step: Step, high: nat, low: nat)
    requires Inv(w, win, high, low) && Enabled(w, win, step)
    ensures RolesOk(Act(w.At(win), step), w.At(Other(win)), high, low)
  {
    var weak := w.At(Other(win));
    assert step.GetRequest? ==> step.m.controlling == 0 || step.m == Request(step.m.tid, low, 0);
  }

  /** A role-conflict answer reaching the losing side either names a request it sent as controlling from an
      entry that still remembers so, or finds no entry. */
  lemma ConflictAnswersControlling(w: World, win: Side, m: Message, high: nat, low: nat)
    requires Inv(w, win, high, low)
    requires m in w.At(win).sent && m.Response? && m.code == ROLE_CONFLICT
    ensures var a := w.At(Other(win)).agent;
            var i := Find(a.entries, m.tid);
            i < |a.entries| ==> a.entries[i].mode == Controlling
  {
    var weak := w.At(Other(win));
    var r := Request(m.tid, low, 0);
    assert r in weak.sent && IdsOk(weak);
    var i := Find(weak.agent.entries, m.tid);
    if i < |weak.agent.entries| {
      assert Agrees(weak.agent, weak.agent.entries[i], r);
    }
  }

  /** The losing side can only give way, and once it has it stays there. */
  lemma WeakYields(w: World, win: Side, step: Step, high: nat, low: nat)
    requires Inv(w, win, high, low) && Enabled(w, Other(win), step)
    ensures RolesOk(w.At(win), Act(w.At(Other(win)), step), high, low)
    ensures w.At(Other(win)).agent.mode == Controlled ==> Act(w.At(Other(win)), step).agent.mode == Controlled
  {
    if step.GetResponse? && step.m.code == ROLE_CONFLICT {
      ConflictAnswersControlling(w, win, step.m, high, low);
    }
  }

  lemma StepKeeps(w: World, side: Side, step: Step, win: Side, high: nat, low: nat)
    requires Inv(w, win, high, low) && Enabled(w, side, step)
    ensures Inv(Apply(w, side, step), win, high, low)
    ensures w.At(Other(win)).agent.mode == Controlled ==>
              Apply(w, side, step).At(Other(win)).agent.mode == Controlled
  {
    hide IdsOk, RolesOk, Act;
    var p' := Act(w.At(side), step);
    Settled(w, win, high, low);
    ActKeepsIds(w.At(side), step);
    ActDraws(w.At(side), step);
    if side == win {
      StrongStays(w, win, step, high, low);
    } else {
      assert side == Other(win);
      WeakYields(w, win, step, high, low);
    }
    assert p'.drawn !! w.At(Other(side)).drawn;
  }

  lemma Settled(w: World, win: Side, high: nat, low: nat)
    requires Inv(w, win, high, low)
    ensures forall side :: w.At(side).agent.mode != Unknown && (w.At(side).agent.mode == Controlling ==> w.At(side).agent.tiebreaker != 0)
  {
    forall side
      ensures w.At(side).agent.mode != Unknown
      ensures w.At(side).agent.mode == Controlling ==> w.At(side).agent.tiebreaker != 0
    {
      assert side == win || side == Other(win);
    }
  }

  lemma ActDraws(p: Peer, step: Step)
    requires step.Expire? || step.TransmitEntry? ==> step.i < |p.agent.entries|
    requires step.GetRequest? ==> step.m.Request?
    requires step.GetResponse? ==> step.m.Response?
    ensures Act(p, step).drawn == p.drawn + (if step.NewEntry? then {step.tid} else if step.TransmitEntry? then {step.draw} else {})
  {
  }

  // ---------- whole runs ----------

  /** Both controlling, different non-zero tiebreakers, nothing sent, distinct ids on the entries. */
  predicate Initial(w: World, win: Side) {
    && w.left.agent.mode == Controlling && w.right.agent.mode == Controlling
    && 0 < w.At(Other(win)).agent.tiebreaker < w.At(win).agent.tiebreaker
    && w.left.sent == {} && w.right.sent == {}
    && w.left.drawn !! w.right.drawn
    && IdsOk(w.left) && IdsOk(w.right)
  }

  predicate IsRun(run: seq<World>, moves: seq<(Side, Step)>) {
    && |run| == |moves| + 1
    && forall i :: 0 <= i < |moves| ==>
         Enabled(run[i], moves[i].0, moves[i].1) && run[i + 1] == Apply(run[i], moves[i].0, moves[i].1)
  }

  lemma StartsOk(w: World, win: Side)
    requires Initial(w, win)
    ensures Inv(w, win, w.At(win).agent.tiebreaker, w.At(Other(win)).agent.tiebreaker)
  {
  }

  lemma {:induction false} RunKeeps(run: seq<World>, moves: seq<(Side, Step)>, win: Side, i: nat)
    requires IsRun(run, moves) && Initial(run[0], win) && i < |run|
    ensures Inv(run[i], win, run[0].At(win).agent.tiebreaker, run[0].At(Other(win)).agent.tiebreaker)
  {
    hide IdsOk, RolesOk, Apply, Enabled;
    if i == 0 {
      StartsOk(run[0], win);
    } else {
      RunKeeps(run, moves, win, i - 1);
      StepKeeps(run[i - 1], moves[i - 1].0, moves[i - 1].1, win, run[0].At(win).agent.tiebreaker, run[0].At(Other(win)).agent.tiebreaker);
    }
  }

  /** Under any loss, duplication and reordering, the larger tiebreaker keeps controlling. */
  lemma LargerKeepsControlling(run: seq<World>, moves: seq<(Side, Step)>, win: Side, i: nat)
    requires IsRun(run, moves) && Initial(run[0], win) && i < |run|
    ensures run[i].At(win).agent.mode == Controlling
    ensures run[i].At(win).agent.tiebreaker == run[0].At(win).agent.tiebreaker
  {
    RunKeeps(run, moves, win, i);
  }

  /** The smaller one switches at most once and never back. */
  lemma {:induction false} SmallerYieldsOnce(run: seq<World>, moves: seq<(Side, Step)>, win: Side, i: nat, j: nat)
    requires IsRun(run, moves) && Initial(run[0], win) && i <= j < |run|
    ensures run[j].At(Other(win)).agent.mode == Controlling || run[j].At(Other(win)).agent.mode == Controlled
    ensures run[i].At(Other(win)).agent.mode == Controlled ==> run[j].At(Other(win)).agent.mode == Controlled
    decreases j
  {
    hide IdsOk, Apply, Enabled;
    RunKeeps(run, moves, win, j);
    if i < j {
      SmallerYieldsOnce(run, moves, win, i, j - 1);
      RunKeeps(run, moves, win, j - 1);
      StepKeeps(run[j - 1], moves[j - 1].0, moves[j - 1].1, win, run[0].At(win).agent.tiebreaker, run[0].At(Other(win)).agent.tiebreaker);
    }
  }

  /** No transaction id ever goes out with two different sets of role attributes, from one agent or from
      both. */
  lemma OneRolePerId(run: seq<World>, moves: seq<(Side, Step)>, win: Side, i: nat, s: Side, m: Message, t: Side, n: Message)
    requires IsRun(run, moves) && Initial(run[0], win) && i < |run|
    requires m in run[i].At(s).sent && n in run[i].At(t).sent && m.Request? && n.Request? && m.tid == n.tid
    ensures s == t && m == n
  {
    RunKeeps(run, moves, win, i);
    assert m.tid in run[i].At(s).drawn && n.tid in run[i].At(t).drawn;
  }

  /** Delivering any one request of the winner repairs the conflict at once. */
  lemma RequestRepairs(run: seq<World>, moves: seq<(Side, Step)>, win: Side, i: nat, m: Message, code: nat)
    requires IsRun(run, moves) && Initial(run[0], win) && i < |run|
    requires Enabled(run[i], Other(win), GetRequest(m, code))
    ensures Apply(run[i], Other(win), GetRequest(m, code)).At(Other(win)).agent.mode == Controlled
  {
    RunKeeps(run, moves, win, i);
    assert m.controlling == run[0].At(win).agent.tiebreaker && m.controlled == 0;
  }

  /** A request of the loser sent as controlling is always answered with a role conflict, and that answer
      repairs the conflict if it comes before the entry takes another id. */
  lemma ConflictAnswerRepairs(run: seq<World>, moves: seq<(Side, Step)>, win: Side, i: nat, m: Message, code: nat, redraw: nat)
    requires IsRun(run, moves) && Initial(run[0], win) && i < |run|
    requires Enabled(run[i], win, GetRequest(m, code)) && m.controlling != 0
    ensures var w := Apply(run[i], win, GetRequest(m, code));
            var answer := Response(m.tid, ROLE_CONFLICT);
            && Enabled(w, Other(win), GetResponse(answer, redraw))
            && (Find(w.At(Other(win)).agent.entries, m.tid) < |w.At(Other(win)).agent.entries| ==>
                  Apply(w, Other(win), GetResponse(answer, redraw)).At(Other(win)).agent.mode == Controlled)
  {
    hide IdsOk;
    var high, low := run[0].At(win).agent.tiebreaker, run[0].At(Other(win)).agent.tiebreaker;
    RunKeeps(run, moves, win, i);
    assert m == Request(m.tid, low, 0);
    StepKeeps(run[i], win, GetRequest(m, code), win, high, low);
    var w := Apply(run[i], win, GetRequest(m, code));
    var answer := Response(m.tid, ROLE_CONFLICT);
    assert answer in w.At(win).sent;
    ConflictAnswersControlling(w, win, answer, high, low);
  }
}
