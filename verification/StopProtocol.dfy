/**
 The stop barrier and the lifetime of a mux registry (src/conn.c, src/conn_mux.c).

 One bind address, any number of threads calling into the library, and the mux thread. Three mutexes
 guard them: the mode entry, the registry and the callback mutex. A step is what one thread does
 between taking or releasing mutexes; a run is any interleaving of such steps.
 */
module StopProtocol {
  import opened Basics

  type Tid = nat
  type Gen = nat
  type AgentId = nat

  /** Who holds a mutex. Thread 0 is the mux thread running user code inside a callback. */
  datatype Owner = Free | Held(t: Tid)

  /** Calls into the library. `Finish` is the second half of a stop. */
  datatype Op =
    | Request
    | Create(agent: AgentId)
    | Destroy(agent: AgentId)
    | Listen
    | ListenIncoming
    | StopIncoming
    | Stop
    | Finish(gen: Gen)

  /** Where a calling thread is. */
  datatype Pc =
    | Idle
    | AtEntry(op: Op)
    | Inside(op: Op)
    | Leaving(stopped: Option<Gen>)
    | Joining(stopped: Option<Gen>)
    | Detached(gen: Gen)
    | Waiting(gen: Gen)
    | HasCallbackMutex(gen: Gen)
    | Back(gen: Gen)

  /** Where the mux thread is. */
  datatype MuxPc =
    | Top
    | Working
    | Dispatching
    | Looking
    | Calling(gen: Gen)
    | Exited

  datatype Phase = Absent | Live | Dying

  datatype Sys = Sys(
    entry: Owner,
    registry: Owner,
    callback: Owner,
    muxHasCallback: bool,
    phase: Phase,
    agents: set<AgentId>,
    handles: set<AgentId>,
    pending: Option<Gen>,
    incoming: bool,
    required: bool,
    closing: Option<(Gen, Tid)>,
    mux: MuxPc,
    pcs: map<Tid, Pc>,
    nextGen: Gen,
    stopped: set<Gen>)
  {
    function Pc(t: Tid): Pc {
      if t in pcs then pcs[t] else Idle
    }

    function At(t: Tid, pc: Pc): Sys {
      this.(pcs := pcs[t := pc])
    }

    /** conn_mux_can_release_registry together with the agent count. */
    predicate Unused() {
      agents == {} && pending.None? && !incoming && closing.None?
    }
  }

  const INITIAL := Sys(Free, Free, Free, false, Absent, {}, {}, None, false, false, None, Exited, map[], 0, {})

  datatype Step =
    | Start(t: Tid, op: Op)
    | Enter(t: Tid)
    | Act(t: Tid, ok: bool)
    | Join(t: Tid)
    | Leave(t: Tid)
    | Detach(t: Tid)
    | TakeCallback(t: Tid)
    | DropCallback(t: Tid)
    | Return(t: Tid)
    | MuxPrepare
    | MuxWork(failed: bool)
    | MuxTakeCallback
    | MuxLook(found: bool, again: bool)
    | MuxReturn(again: bool)

  predicate Creates(op: Op) {
    op.Create? || op.Listen? || op.ListenIncoming? || op.StopIncoming?
  }

  /** When a thread can take a step: the mutexes it needs are free, and what it was told about holds. */
  predicate Enabled(s: Sys, step: Step) {
    match step
    case Start(t, op) =>
      && s.Pc(t).Idle? && s.entry.Free? && !op.Finish?
      && (t == 0 ==> s.mux.Calling?)
      && (op.Create? ==> op.agent !in s.agents)
      && (op.Destroy? ==> op.agent in s.handles)
    case Enter(t) => s.Pc(t).AtEntry? && (s.phase.Live? ==> s.registry.Free?)
    case Act(t, _) => s.Pc(t).Inside?
    case Join(t) => s.Pc(t).Joining? && s.mux.Exited?
    case Leave(t) => s.Pc(t).Leaving?
    case Detach(t) => s.Pc(t).Detached?
    case TakeCallback(t) => s.Pc(t).Waiting? && s.callback.Free? && !s.muxHasCallback
    case DropCallback(t) => s.Pc(t).HasCallbackMutex?
    case Return(t) => s.Pc(t).Back? && s.entry.Free?
    case MuxPrepare => s.mux.Top? && s.registry.Free?
    case MuxWork(_) => s.mux.Working? && s.registry.Free?
    case MuxTakeCallback => s.mux.Dispatching? && s.callback.Free?
    case MuxLook(_, _) => s.mux.Looking? && s.registry.Free?
    case MuxReturn(_) => s.mux.Calling? && s.Pc(0).Idle?
  }

  /** release_registry: an unused registry is given up, any other one is only unlocked. */
  function Release(s: Sys, t: Tid, stopped: Option<Gen>): Sys {
    if s.Unused()
    then s.(registry := Free, phase := Dying).At(t, Joining(stopped))
    else s.(registry := Free).At(t, Leaving(stopped))
  }

  function DoAct(s: Sys, t: Tid, ok: bool): Sys
    requires s.Pc(t).Inside?
  {
    match s.Pc(t).op
    case Request => s.(registry := Free).At(t, Leaving(None))
    case Create(a) =>
      if ok then s.(agents := s.agents + {a}, handles := s.handles + {a}, registry := Free).At(t, Leaving(None))
      else Release(s, t, None)
    case Destroy(a) => Release(s.(agents := s.agents - {a}), t, None)
    case Listen =>
      if ok && !s.incoming && s.pending.None? && s.closing.None?
      then Release(s.(pending := Some(s.nextGen), required := true, nextGen := s.nextGen + 1), t, None)
      else Release(s, t, None)
    case ListenIncoming =>
      if s.incoming || s.required then Release(s, t, None) else Release(s.(incoming := true), t, None)
    case StopIncoming => Release(s.(incoming := false), t, None)
    case Stop =>
      if t == 0 || s.pending.None? || s.closing.Some?
      then s.(registry := Free).At(t, Leaving(None))
      else s.(closing := Some((s.pending.value, t)), pending := None, registry := Free).At(t, Detached(s.pending.value))
    case Finish(g) => Release(s.(closing := None), t, Some(g))
  }

  function Apply(s: Sys, step: Step): Sys
    requires Enabled(s, step)
  {
    match step
    case Start(t, op) =>
      var s1 := s.(entry := Held(t)).At(t, AtEntry(op));
      if op.Destroy? then s1.(handles := s1.handles - {op.agent}) else s1
    case Enter(t) =>
      var op := s.Pc(t).op;
      if s.phase.Live? then s.(registry := Held(t)).At(t, Inside(op))
      else if Creates(op)
      then s.(phase := Live, registry := Held(t), mux := Top, required := false).At(t, Inside(op))
      else s.At(t, Leaving(None))
    case Act(t, ok) => DoAct(s, t, ok)
    case Join(t) => s.(phase := Absent).At(t, Leaving(s.Pc(t).stopped))
    case Leave(t) =>
      var s1 := s.(entry := Free).At(t, Idle);
      if s.Pc(t).stopped.Some? then s1.(stopped := s1.stopped + {s.Pc(t).stopped.value}) else s1
    case Detach(t) => s.(entry := Free).At(t, Waiting(s.Pc(t).gen))
    case TakeCallback(t) => s.(callback := Held(t)).At(t, HasCallbackMutex(s.Pc(t).gen))
    case DropCallback(t) => s.(callback := Free).At(t, Back(s.Pc(t).gen))
    case Return(t) => s.(entry := Held(t)).At(t, AtEntry(Finish(s.Pc(t).gen)))
    case MuxPrepare => s.(mux := if s.Unused() then Exited else Working)
    case MuxWork(failed) => s.(mux := if failed then Exited else Dispatching)
    case MuxTakeCallback => s.(mux := Looking, muxHasCallback := true)
    case MuxLook(found, again) =>
      if found && s.pending.Some? then s.(mux := Calling(s.pending.value))
      else s.(muxHasCallback := false, mux := if again then Dispatching else Top)
    case MuxReturn(again) => s.(muxHasCallback := false, mux := if again then Dispatching else Top)
  }

  // ---------- the invariant ----------

  predicate HoldsEntry(pc: Pc) {
    pc.AtEntry? || pc.Inside? || pc.Leaving? || pc.Joining? || pc.Detached?
  }

  /** The thread is between detaching listener g and finishing its stop. */
  predicate Stopping(pc: Pc, g: Gen) {
    || pc == Detached(g) || pc == Waiting(g) || pc == HasCallbackMutex(g) || pc == Back(g)
    || pc == AtEntry(Finish(g)) || pc == Inside(Finish(g))
  }

  /** Each mutex is held by the thread whose position says so. */
  ghost predicate Locks(s: Sys) {
    && (forall t :: s.entry == Held(t) <==> HoldsEntry(s.Pc(t)))
    && (forall t :: s.registry == Held(t) <==> s.Pc(t).Inside?)
    && (forall t :: s.callback == Held(t) <==> s.Pc(t).HasCallbackMutex?)
    && (s.muxHasCallback <==> s.mux.Looking? || s.mux.Calling?)
    && (s.muxHasCallback ==> s.callback.Free?)
    && (s.Pc(0).Idle? || s.mux.Calling?)
  }

  /** The closing flag belongs to one stopper, and is up exactly while that one is at work. */
  ghost predicate Stoppers(s: Sys) {
    && (forall t: Tid, g: Gen :: Stopping(s.Pc(t), g) <==> s.closing == Some((g, t)))
    && (s.closing.Some? ==> s.pending.None? && s.phase.Live? && s.closing.value.1 != 0)
  }

  /** A registry that nobody can be inside of is in use; one that is not live is unused. */
  ghost predicate Lifetime(s: Sys) {
    && (s.phase.Live? && s.registry.Free? ==> !s.Unused())
    && (!s.phase.Live? ==> s.Unused() && s.registry.Free?)
    && (s.phase.Absent? ==> s.mux.Exited?)
    && (s.phase.Dying? <==> exists t :: s.Pc(t).Joining?)
    && (forall t :: s.Pc(t).Inside? && !Creates(s.Pc(t).op) ==> !s.Unused())
    && s.handles <= s.agents
    && (forall t :: (s.Pc(t).AtEntry? || s.Pc(t).Inside?) && s.Pc(t).op.Destroy? ==>
          s.Pc(t).op.agent in s.agents && s.Pc(t).op.agent !in s.handles)
  }

  /** A callback runs only for the installed listener, or for one whose stopper has not got past it. */
  ghost predicate Callbacks(s: Sys) {
    s.mux.Calling? ==>
      && s.phase.Live?
      && (|| s.pending == Some(s.mux.gen)
          || (s.closing.Some? && s.closing.value.0 == s.mux.gen
              && (s.Pc(s.closing.value.1).Detached? || s.Pc(s.closing.value.1).Waiting?)))
  }

  ghost predicate Listeners(s: Sys) {
    && (s.pending.Some? ==> s.pending.value < s.nextGen && s.pending.value !in s.stopped)
    && (s.closing.Some? ==> s.closing.value.0 < s.nextGen && s.closing.value.0 !in s.stopped)
    && (forall g :: g in s.stopped ==> g < s.nextGen)
  }

  /** No callback of listener g is running or can start. */
  predicate Over(s: Sys, g: Gen) {
    && g < s.nextGen && s.pending != Some(g) && s.mux != Calling(g)
    && (s.closing.Some? ==> s.closing.value.0 != g)
  }

  /** A listener generation is used once, and is over when its stop returns. */
  ghost predicate Generations(s: Sys) {
    && Listeners(s)
    && (forall t :: (s.Pc(t).Leaving? || s.Pc(t).Joining?) && s.Pc(t).stopped.Some? ==> Over(s, s.Pc(t).stopped.value))
  }

  ghost predicate Inv(s: Sys) {
    Locks(s) && Stoppers(s) && Lifetime(s) && Callbacks(s) && Generations(s)
  }

  // ---------- every step keeps it ----------

  lemma StartKeeps(s: Sys, t: Tid, op: Op)
    requires Inv(s) && Enabled(s, Start(t, op))
    ensures Inv(Apply(s, Start(t, op)))
  {
    hide Locks, Stoppers, Lifetime, Callbacks, Generations;
    StartLocks(s, t, op);
    StartLifetime(s, t, op);
    StartCallbacks(s, t, op);
  }

  lemma StartLocks(s: Sys, t: Tid, op: Op)
    requires Inv(s) && Enabled(s, Start(t, op))
    ensures Locks(Apply(s, Start(t, op))) && Stoppers(Apply(s, Start(t, op)))
  {
    hide Lifetime, Callbacks, Generations;
  }

  lemma StartLifetime(s: Sys, t: Tid, op: Op)
    requires Inv(s) && Enabled(s, Start(t, op))
    ensures Lifetime(Apply(s, Start(t, op)))
  {
    hide Stoppers, Callbacks, Generations;
    var s' := Apply(s, Start(t, op));
    assert forall u :: s'.Pc(u) == if u == t then AtEntry(op) else s.Pc(u);
  }

  lemma StartCallbacks(s: Sys, t: Tid, op: Op)
    requires Inv(s) && Enabled(s, Start(t, op))
    ensures Callbacks(Apply(s, Start(t, op))) && Generations(Apply(s, Start(t, op)))
  {
    hide Locks, Lifetime;
    var s' := Apply(s, Start(t, op));
    assert forall u :: s'.Pc(u) == if u == t then AtEntry(op) else s.Pc(u);
  }

  lemma EnterLiveKeeps(s: Sys, t: Tid)
    requires Inv(s) && Enabled(s, Enter(t)) && s.phase.Live?
    ensures Inv(Apply(s, Enter(t)))
  {
  }

  lemma EnterAbsentKeeps(s: Sys, t: Tid)
    requires Inv(s) && Enabled(s, Enter(t)) && !s.phase.Live?
    ensures Inv(Apply(s, Enter(t)))
  {
    assert HoldsEntry(s.Pc(t));
    assert !s.phase.Dying?;
    assert forall g :: Stopping(s.Pc(t), g) ==> s.closing.Some?;
  }

  /** The invariant seen from inside: thread t holds entry and registry and may have broken what the
      invariant says of it alone. */
  ghost predicate Within(s: Sys, t: Tid) {
    && s.entry == Held(t) && s.registry == Held(t) && s.callback != Held(t) && s.phase.Live?
    && (forall u :: u != t ==> !HoldsEntry(s.Pc(u)))
    && (forall u :: u != t ==> (s.callback == Held(u) <==> s.Pc(u).HasCallbackMutex?))
    && (s.muxHasCallback <==> s.mux.Looking? || s.mux.Calling?)
    && (s.muxHasCallback ==> s.callback.Free?)
    && (if t == 0 then s.mux.Calling? else s.Pc(0).Idle? || s.mux.Calling?)
    && (forall u: Tid, g: Gen :: u != t ==> (Stopping(s.Pc(u), g) <==> s.closing == Some((g, u))))
    && (s.closing.Some? ==> s.pending.None? && s.closing.value.1 != 0 && s.closing.value.1 != t)
    && s.handles <= s.agents
    && Callbacks(s)
    && Listeners(s)
  }

  lemma InsideIsWithin(s: Sys, t: Tid)
    requires Inv(s) && s.Pc(t).Inside? && !s.Pc(t).op.Finish?
    ensures Within(s, t)
  {
    assert HoldsEntry(s.Pc(t));
    if s.closing.Some? {
      var (g, u) := s.closing.value;
      assert Stopping(s.Pc(u), g);
    }
  }

  /** Leaving the registry, given up or not, restores the invariant. */
  lemma ReleaseKeeps(s: Sys, t: Tid, stopped: Option<Gen>)
    requires Within(s, t)
    requires stopped.Some? ==> Over(s, stopped.value)
    ensures Inv(Release(s, t, stopped))
  {
    if s.Unused() {
      GiveUpKeeps(s, t, stopped);
    } else {
      UnlockKeeps(s, t, stopped);
    }
  }

  lemma GiveUpKeeps(s: Sys, t: Tid, stopped: Option<Gen>)
    requires Within(s, t) && s.Unused() && (stopped.Some? ==> Over(s, stopped.value))
    ensures Inv(Release(s, t, stopped))
  {
    var s' := Release(s, t, stopped);
    assert s'.Pc(t).Joining?;
    assert forall u :: u != t ==> s'.Pc(u) == s.Pc(u);
  }

  lemma UnlockKeeps(s: Sys, t: Tid, stopped: Option<Gen>)
    requires Within(s, t) && !s.Unused() && (stopped.Some? ==> Over(s, stopped.value))
    ensures Inv(Release(s, t, stopped))
  {
    var s' := Release(s, t, stopped);
    assert s'.Pc(t).Leaving?;
    assert forall u :: u != t ==> s'.Pc(u) == s.Pc(u);
  }

  lemma WithinFrame(s: Sys, s': Sys, t: Tid)
    requires Within(s, t) && s' == s.(agents := s'.agents, handles := s'.handles, incoming := s'.incoming)
    requires s'.handles <= s'.agents
    ensures Within(s', t)
  {
    assert forall u :: s'.Pc(u) == s.Pc(u);
  }

  lemma WithinListen(s: Sys, t: Tid)
    requires Within(s, t) && s.pending.None? && s.closing.None?
    ensures Within(s.(pending := Some(s.nextGen), required := true, nextGen := s.nextGen + 1), t)
  {
    var s' := s.(pending := Some(s.nextGen), required := true, nextGen := s.nextGen + 1);
    assert forall u :: s'.Pc(u) == s.Pc(u);
    assert s.nextGen !in s.stopped;
    assert !s.mux.Calling?;
  }

  lemma ActKeeps(s: Sys, t: Tid, ok: bool)
    requires Inv(s) && s.Pc(t).Inside? && !s.Pc(t).op.Stop? && !s.Pc(t).op.Finish?
    ensures Inv(DoAct(s, t, ok))
  {
    InsideIsWithin(s, t);
    InsideOp(s, t);
    ActIsRelease(s, t, ok);
    hide Inv, Within, DoAct, Release;
    var s1 := Acted(s, t, ok);
    if s.Pc(t).op.Listen? {
      if s1 != s {
        WithinListen(s, t);
      }
    } else {
      WithinFrame(s, s1, t);
    }
    ReleaseKeeps(s1, t, None);
  }

  lemma ActIsRelease(s: Sys, t: Tid, ok: bool)
    requires s.Pc(t).Inside? && !s.Pc(t).op.Stop? && !s.Pc(t).op.Finish?
    requires !Creates(s.Pc(t).op) ==> !s.Unused()
    ensures DoAct(s, t, ok) == Release(Acted(s, t, ok), t, None)
  {
    assert s.Pc(t).op.Create? ==> s.agents + {s.Pc(t).op.agent} != {};
  }

  /** What a call does before it releases the registry. */
  function Acted(s: Sys, t: Tid, ok: bool): Sys
    requires s.Pc(t).Inside?
  {
    match s.Pc(t).op
    case Create(a) => if ok then s.(agents := s.agents + {a}, handles := s.handles + {a}) else s
    case Destroy(a) => s.(agents := s.agents - {a})
    case Listen =>
      if ok && !s.incoming && s.pending.None? && s.closing.None?
      then s.(pending := Some(s.nextGen), required := true, nextGen := s.nextGen + 1) else s
    case ListenIncoming => if s.incoming || s.required then s else s.(incoming := true)
    case StopIncoming => s.(incoming := false)
    case _ => s
  }

  lemma InsideOp(s: Sys, t: Tid)
    requires Inv(s) && s.Pc(t).Inside?
    ensures s.phase.Live? && (!Creates(s.Pc(t).op) ==> !s.Unused())
    ensures s.Pc(t).op.Destroy? ==> s.Pc(t).op.agent !in s.handles
    ensures s.handles <= s.agents
  {
  }

  lemma StopKeeps(s: Sys, t: Tid)
    requires Inv(s) && s.Pc(t) == Inside(Stop)
    ensures Inv(DoAct(s, t, true)) && DoAct(s, t, false) == DoAct(s, t, true)
  {
    if t == 0 || s.pending.None? || s.closing.Some? {
      InsideIsWithin(s, t);
      InsideOp(s, t);
      ReleaseKeeps(s, t, None);
    } else {
      BeginStopKeeps(s, t);
    }
  }

  /** Taking the listener away: from here on the closing flag keeps the registry alive. */
  lemma BeginStopKeeps(s: Sys, t: Tid)
    requires Inv(s) && s.Pc(t) == Inside(Stop) && t != 0 && s.pending.Some? && s.closing.None?
    ensures Inv(DoAct(s, t, true))
  {
    var s' := DoAct(s, t, true);
    assert HoldsEntry(s.Pc(t));
    assert forall u :: u != t ==> s'.Pc(u) == s.Pc(u);
  }

  /** Coming back from the callback mutex: no callback of the listener is left to wait for. */
  lemma FinishKeeps(s: Sys, t: Tid, ok: bool)
    requires Inv(s) && s.Pc(t).Inside? && s.Pc(t).op.Finish?
    ensures Inv(DoAct(s, t, ok))
  {
    FinishIsWithin(s, t);
    hide Inv, Within;
    ReleaseKeeps(s.(closing := None), t, Some(s.Pc(t).op.gen));
  }

  lemma FinishIsWithin(s: Sys, t: Tid)
    requires Inv(s) && s.Pc(t).Inside? && s.Pc(t).op.Finish?
    ensures Within(s.(closing := None), t) && Over(s.(closing := None), s.Pc(t).op.gen)
  {
    var g := s.Pc(t).op.gen;
    assert Stopping(s.Pc(t), g) && HoldsEntry(s.Pc(t));
    assert s.closing == Some((g, t));
    assert forall u :: s.(closing := None).Pc(u) == s.Pc(u);
  }

  lemma JoinKeeps(s: Sys, t: Tid)
    requires Inv(s) && Enabled(s, Join(t))
    ensures Inv(Apply(s, Join(t)))
  {
  }

  lemma LeaveKeeps(s: Sys, t: Tid)
    requires Inv(s) && Enabled(s, Leave(t))
    ensures Inv(Apply(s, Leave(t)))
  {
    var s1 := s.(entry := Free).At(t, Idle);
    UnlockEntryKeeps(s, t);
    if s.Pc(t).stopped.Some? {
      hide Locks, Stoppers, Lifetime, Callbacks;
      RecordKeeps(s1, s.Pc(t).stopped.value);
    }
  }

  lemma UnlockEntryKeeps(s: Sys, t: Tid)
    requires Inv(s) && s.Pc(t).Leaving?
    ensures Inv(s.(entry := Free).At(t, Idle))
    ensures s.Pc(t).stopped.Some? ==> Over(s.(entry := Free).At(t, Idle), s.Pc(t).stopped.value)
  {
    assert HoldsEntry(s.Pc(t));
  }

  lemma RecordKeeps(s: Sys, g: Gen)
    requires Inv(s) && Over(s, g)
    ensures Inv(s.(stopped := s.stopped + {g}))
  {
    assert forall u :: s.(stopped := s.stopped + {g}).Pc(u) == s.Pc(u);
  }

  lemma DetachKeeps(s: Sys, t: Tid)
    requires Inv(s) && Enabled(s, Detach(t))
    ensures Inv(Apply(s, Detach(t)))
  {
  }

  lemma TakeCallbackKeeps(s: Sys, t: Tid)
    requires Inv(s) && Enabled(s, TakeCallback(t))
    ensures Inv(Apply(s, TakeCallback(t)))
  {
  }

  lemma DropCallbackKeeps(s: Sys, t: Tid)
    requires Inv(s) && Enabled(s, DropCallback(t))
    ensures Inv(Apply(s, DropCallback(t)))
  {
  }

  lemma ReturnKeeps(s: Sys, t: Tid)
    requires Inv(s) && Enabled(s, Return(t))
    ensures Inv(Apply(s, Return(t)))
  {
  }

  lemma MuxLoopKeeps(s: Sys, step: Step)
    requires Inv(s) && Enabled(s, step)
    requires step.MuxPrepare? || step.MuxWork? || step.MuxTakeCallback?
    ensures Inv(Apply(s, step))
  {
    assert forall u :: Apply(s, step).Pc(u) == s.Pc(u);
  }

  /** A callback starts only for a listener that is installed, with the callback mutex held. */
  lemma MuxLookKeeps(s: Sys, found: bool, again: bool)
    requires Inv(s) && Enabled(s, MuxLook(found, again))
    ensures Inv(Apply(s, MuxLook(found, again)))
  {
    assert forall u :: Apply(s, MuxLook(found, again)).Pc(u) == s.Pc(u);
  }

  lemma MuxReturnKeeps(s: Sys, again: bool)
    requires Inv(s) && Enabled(s, MuxReturn(again))
    ensures Inv(Apply(s, MuxReturn(again)))
  {
    assert forall u :: Apply(s, MuxReturn(again)).Pc(u) == s.Pc(u);
  }

  lemma StepKeeps(s: Sys, step: Step)
    requires Inv(s) && Enabled(s, step)
    ensures Inv(Apply(s, step))
  {
    hide Inv;
    match step
    case Start(t, op) => StartKeeps(s, t, op);
    case Enter(t) =>
      if s.phase.Live? {
        EnterLiveKeeps(s, t);
      } else {
        EnterAbsentKeeps(s, t);
      }
    case Act(t, ok) =>
      if s.Pc(t).op.Stop? {
        StopKeeps(s, t);
      } else if s.Pc(t).op.Finish? {
        FinishKeeps(s, t, ok);
      } else {
        ActKeeps(s, t, ok);
      }
    case Join(t) => JoinKeeps(s, t);
    case Leave(t) => LeaveKeeps(s, t);
    case Detach(t) => DetachKeeps(s, t);
    case TakeCallback(t) => TakeCallbackKeeps(s, t);
    case DropCallback(t) => DropCallbackKeeps(s, t);
    case Return(t) => ReturnKeeps(s, t);
    case MuxLook(found, again) => MuxLookKeeps(s, found, again);
    case MuxReturn(again) => MuxReturnKeeps(s, again);
    case _ => MuxLoopKeeps(s, step);
  }

  // ---------- runs ----------

  ghost predicate IsRun(run: seq<Sys>, steps: seq<Step>) {
    && |run| == |steps| + 1 && run[0] == INITIAL
    && forall i :: 0 <= i < |steps| ==> Enabled(run[i], steps[i]) && run[i + 1] == Apply(run[i], steps[i])
  }

  lemma {:induction false} RunKeeps(run: seq<Sys>, steps: seq<Step>, i: nat)
    requires IsRun(run, steps) && i < |run|
    ensures Inv(run[i])
    decreases i
  {
    if i == 0 {
      assert Inv(INITIAL);
    } else {
      RunKeeps(run, steps, i - 1);
      StepKeeps(run[i - 1], steps[i - 1]);
      assert run[i - 1 + 1] == Apply(run[i - 1], steps[i - 1]);
    }
  }

  lemma StoppedGrows(s: Sys, step: Step)
    requires Enabled(s, step)
    ensures s.stopped <= Apply(s, step).stopped
  {
    hide DoAct;
    if step.Act? {
      ActRecordsNothing(s, step.t, step.ok);
    }
  }

  lemma ActRecordsNothing(s: Sys, t: Tid, ok: bool)
    requires s.Pc(t).Inside?
    ensures DoAct(s, t, ok).stopped == s.stopped
  {
    assert forall s1: Sys, stopped: Option<Gen> :: Release(s1, t, stopped).stopped == s1.stopped;
  }

  lemma {:induction false} StoppedStays(run: seq<Sys>, steps: seq<Step>, i: nat, j: nat)
    requires IsRun(run, steps) && i <= j < |run|
    ensures run[i].stopped <= run[j].stopped
    decreases j - i
  {
    hide Enabled, Apply;
    if i < j {
      StoppedStays(run, steps, i, j - 1);
      StoppedGrows(run[j - 1], steps[j - 1]);
      assert run[j - 1 + 1] == Apply(run[j - 1], steps[j - 1]);
    }
  }

  /** The barrier: once a stop has returned, no callback of its listener runs at that moment or ever. */
  lemma StopIsABarrier(run: seq<Sys>, steps: seq<Step>, i: nat, j: nat, g: Gen)
    requires IsRun(run, steps) && i <= j < |run| && g in run[i].stopped
    ensures run[j].mux != Calling(g) && run[j].pending != Some(g)
  {
    RunKeeps(run, steps, j);
    StoppedStays(run, steps, i, j);
  }

  /** While a callback runs the registry is live and the listener it belongs to is installed or its stop
      has not returned; a registry that is gone has no mux thread. */
  lemma NeverDestroyedUnderACallback(run: seq<Sys>, steps: seq<Step>, i: nat)
    requires IsRun(run, steps) && i < |run|
    ensures var s := run[i];
            s.mux.Calling? ==>
              s.phase.Live? && (s.pending == Some(s.mux.gen) || (s.closing.Some? && s.closing.value.0 == s.mux.gen))
    ensures run[i].phase.Absent? ==> run[i].mux.Exited? && run[i].agents == {} && run[i].closing.None?
  {
    RunKeeps(run, steps, i);
  }

  /** Whenever the registry mutex is free, a registry in the table has an agent, a listener or the
      closing flag. */
  lemma NoAbandonedRegistry(run: seq<Sys>, steps: seq<Step>, i: nat)
    requires IsRun(run, steps) && i < |run| && run[i].phase.Live? && run[i].registry.Free?
    ensures run[i].agents != {} || run[i].pending.Some? || run[i].incoming || run[i].closing.Some?
  {
    RunKeeps(run, steps, i);
  }

  // ---------- nobody waits in a circle ----------

  function NextOf(s: Sys, t: Tid): Step
    requires !s.Pc(t).Idle?
  {
    match s.Pc(t)
    case AtEntry(_) => Enter(t)
    case Inside(_) => Act(t, true)
    case Leaving(_) => Leave(t)
    case Joining(_) => Join(t)
    case Detached(_) => Detach(t)
    case Waiting(_) => TakeCallback(t)
    case HasCallbackMutex(_) => DropCallback(t)
    case Back(_) => Return(t)
  }

  function MuxNext(s: Sys): Step
    requires !s.mux.Exited?
  {
    match s.mux
    case Top => MuxPrepare
    case Working => MuxWork(false)
    case Dispatching => MuxTakeCallback
    case Looking => MuxLook(true, true)
    case Calling(_) => MuxReturn(true)
  }

  predicate CanMove(s: Sys, t: Tid) {
    !s.Pc(t).Idle? && Enabled(s, NextOf(s, t))
  }

  predicate MuxCanMove(s: Sys) {
    !s.mux.Exited? && Enabled(s, MuxNext(s))
  }

  /** What can hold a calling thread up: another thread inside the entry, or the mux thread, by being
      joined or by having the callback mutex. */
  predicate HeldUpByMux(s: Sys, t: Tid) {
    || (s.Pc(t).Joining? && !s.mux.Exited?)
    || (s.Pc(t).Waiting? && s.muxHasCallback)
  }

  lemma EntryHolderMoves(s: Sys, t: Tid)
    requires Inv(s) && s.entry == Held(t)
    ensures CanMove(s, t) || (HeldUpByMux(s, t) && MuxCanMove(s))
  {
    assert HoldsEntry(s.Pc(t));
    assert forall u :: u != t ==> !s.Pc(u).Inside?;
    if s.Pc(t).Joining? && !s.mux.Exited? {
      assert s.phase.Dying?;
      if s.callback.Held? {
        StopperPins(s, s.callback.t);
        assert false;
      }
    }
  }

  lemma StopperPins(s: Sys, t: Tid)
    requires Inv(s) && s.Pc(t).HasCallbackMutex?
    ensures s.phase.Live?
  {
    assert Stopping(s.Pc(t), s.Pc(t).gen);
  }

  /** A thread inside the library can go on, or the one it waits for can: the lock order has no cycle,
      even while a callback calls back into the library. */
  lemma NobodyIsStuck(s: Sys, t: Tid)
    requires Inv(s) && !s.Pc(t).Idle?
    ensures || CanMove(s, t)
            || (s.entry.Held? && CanMove(s, s.entry.t))
            || ((HeldUpByMux(s, t) || (s.entry.Held? && HeldUpByMux(s, s.entry.t))) && MuxCanMove(s))
  {
    if s.entry.Held? {
      EntryHolderMoves(s, s.entry.t);
    } else if s.Pc(t).Waiting? && s.muxHasCallback {
      assert forall u :: !s.Pc(u).Inside?;
      assert !HoldsEntry(s.Pc(0));
      ThreadZeroDoesNotStop(s);
    } else if s.Pc(t).Waiting? && s.callback.Held? {
      OneStopper(s, t, s.callback.t);
    }
  }

  lemma ThreadZeroDoesNotStop(s: Sys)
    requires Inv(s) && !HoldsEntry(s.Pc(0))
    ensures s.Pc(0).Idle?
  {
    assert s.Pc(0).Waiting? || s.Pc(0).HasCallbackMutex? || s.Pc(0).Back? ==> Stopping(s.Pc(0), s.Pc(0).gen);
  }

  lemma OneStopper(s: Sys, t: Tid, u: Tid)
    requires Inv(s) && s.Pc(t).Waiting?
    ensures !s.Pc(u).HasCallbackMutex?
  {
    assert Stopping(s.Pc(t), s.Pc(t).gen);
    assert s.Pc(u).HasCallbackMutex? ==> Stopping(s.Pc(u), s.Pc(u).gen);
  }

  // ---------- what the calls come to ----------

  /** A listener can be installed. */
  predicate CanListen(s: Sys) {
    !s.incoming && s.pending.None? && s.closing.None?
  }

  /** The thread can stop the listener: it is not the mux thread, there is one, and nobody is stopping it. */
  predicate CanStop(s: Sys, t: Tid) {
    t != 0 && s.pending.Some? && s.closing.None?
  }

  /** What a call leaves alone: all but the registry mutex, the agents, the listeners and its own position. */
  predicate SameAround(s: Sys, s': Sys, t: Tid) {
    && s'.registry.Free? && s'.entry == s.entry && s'.callback == s.callback && s'.muxHasCallback == s.muxHasCallback
    && s'.mux == s.mux && s'.stopped == s.stopped
    && s'.pcs == s.pcs[t := s'.Pc(t)]
  }

  /** Agents come and go with the calls that create and destroy them, and with no other. */
  lemma ActOnAgents(s: Sys, t: Tid, ok: bool)
    requires s.Pc(t).Inside?
    ensures var s', op := DoAct(s, t, ok), s.Pc(t).op;
            && s'.agents == (if op.Create? && ok then s.agents + {op.agent} else if op.Destroy? then s.agents - {op.agent} else s.agents)
            && s'.handles == (if op.Create? && ok then s.handles + {op.agent} else s.handles)
            && SameAround(s, s', t)
  {
    hide DoAct, Release;
    ActForm(s, t, ok);
    ReleaseOutcome(Acted(s, t, ok), t, None);
    if s.Pc(t).op.Finish? {
      ReleaseOutcome(s.(closing := None), t, Some(s.Pc(t).op.gen));
    }
  }

  /** A listener of a new generation is installed, the other listener is set or cleared, a stop takes the
      listener out and puts the closing flag up, and its second half takes the flag down. */
  lemma ActOnListeners(s: Sys, t: Tid, ok: bool)
    requires s.Pc(t).Inside?
    ensures var s', op := DoAct(s, t, ok), s.Pc(t).op;
            && s'.pending == (if op.Listen? && ok && CanListen(s) then Some(s.nextGen)
                              else if op.Stop? && CanStop(s, t) then None else s.pending)
            && s'.nextGen == (if op.Listen? && ok && CanListen(s) then s.nextGen + 1 else s.nextGen)
            && s'.required == (s.required || (op.Listen? && ok && CanListen(s)))
            && s'.incoming == (if op.ListenIncoming? && !s.required then true else if op.StopIncoming? then false else s.incoming)
            && s'.closing == (if op.Stop? && CanStop(s, t) then Some((s.pending.value, t)) else if op.Finish? then None else s.closing)
  {
    hide DoAct, Release;
    ActForm(s, t, ok);
    ReleaseOutcome(Acted(s, t, ok), t, None);
    if s.Pc(t).op.Finish? {
      ReleaseOutcome(s.(closing := None), t, Some(s.Pc(t).op.gen));
    }
  }

  /** The call, and then the release of the registry, which some calls leave out. */
  lemma ActForm(s: Sys, t: Tid, ok: bool)
    requires s.Pc(t).Inside?
    ensures var s', op := DoAct(s, t, ok), s.Pc(t).op;
            if op.Request? || (op.Create? && ok) then s' == Acted(s, t, ok).(registry := Free).At(t, Leaving(None))
            else if op.Stop? && CanStop(s, t) then
              s' == s.(closing := Some((s.pending.value, t)), pending := None, registry := Free).At(t, Detached(s.pending.value))
            else if op.Stop? then s' == s.(registry := Free).At(t, Leaving(None))
            else if op.Finish? then s' == Release(s.(closing := None), t, Some(op.gen))
            else s' == Release(Acted(s, t, ok), t, None)
  {
    hide Release;
  }

  lemma ReleaseOutcome(s: Sys, t: Tid, stopped: Option<Gen>)
    ensures var s' := Release(s, t, stopped);
            && s' == s.(registry := Free, phase := s'.phase, pcs := s.pcs[t := s'.Pc(t)])
            && s'.Unused() == s.Unused()
            && s'.Pc(t) == (if s.Unused() then Joining(stopped) else Leaving(stopped))
            && s'.phase == (if s.Unused() then Dying else s.phase)
  {
  }

  /** Where the thread goes from there: a stop that has begun goes on, a registry that is no longer used is
      given up by the call that finds it so, and any other call is over. */
  lemma ActLeadsTo(s: Sys, t: Tid, ok: bool)
    requires Inv(s) && s.Pc(t).Inside?
    ensures var s', op := DoAct(s, t, ok), s.Pc(t).op;
            var result := if op.Finish? then Some(op.gen) else None;
            if op.Stop? && CanStop(s, t) then s'.Pc(t) == Detached(s.pending.value) && s'.phase == s.phase
            else if s'.Unused() then s'.Pc(t) == Joining(result) && s'.phase.Dying?
            else s'.Pc(t) == Leaving(result) && s'.phase == s.phase
  {
    InsideOp(s, t);
    hide Inv, DoAct, Release;
    ActForm(s, t, ok);
    ReleaseOutcome(Acted(s, t, ok), t, None);
    if s.Pc(t).op.Finish? {
      ReleaseOutcome(s.(closing := None), t, Some(s.Pc(t).op.gen));
    }
  }

  /** Any call can start whenever its thread is outside and nobody is in the entry: a new agent has a new
      name, one that is destroyed belongs to the caller, and the mux thread calls from its callbacks only. */
  lemma CallsStart(s: Sys, t: Tid, op: Op)
    requires !op.Finish?
    ensures Enabled(s, Start(t, op)) <==>
              && s.Pc(t) == Idle && s.entry == Free && (t == 0 ==> s.mux.Calling?)
              && (op.Create? ==> op.agent !in s.agents) && (op.Destroy? ==> op.agent in s.handles)
  {
  }

  /** A call gets into the registry that is there; where there is none, a call that needs one makes it, with a
      mux thread at the top of its loop, and any other call is over. */
  lemma EnterOutcome(s: Sys, t: Tid)
    requires Enabled(s, Enter(t))
    ensures var s', op := Apply(s, Enter(t)), s.Pc(t).op;
            if s.phase.Live? then s'.Pc(t) == Inside(op) && s'.registry == Held(t) && s'.phase == s.phase && s'.mux == s.mux
            else if op.Create? || op.Listen? || op.ListenIncoming? || op.StopIncoming? then
              s'.Pc(t) == Inside(op) && s'.registry == Held(t) && s'.phase.Live? && s'.mux.Top? && !s'.required
            else s'.Pc(t) == Leaving(None) && s'.phase == s.phase && s'.registry == s.registry && s'.mux == s.mux
  {
  }

  /** The loop of the mux thread: it ends exactly if the registry is no longer used or polling fails, calls the
      listener that is installed when it finds a request, and otherwise goes on. */
  lemma MuxLoop(s: Sys, step: Step)
    requires Enabled(s, step) && Taker(step).None?
    ensures var s' := Apply(s, step);
            && (s'.mux.Exited? <==> (step.MuxPrepare? && s.Unused()) || (step.MuxWork? && step.failed))
            && (step.MuxPrepare? && !s.Unused() ==> s'.mux.Working?)
            && (step.MuxWork? && !step.failed ==> s'.mux.Dispatching?)
            && (step.MuxTakeCallback? ==> s'.mux.Looking?)
            && (step.MuxLook? && step.found && s.pending.Some? ==> s'.mux == Calling(s.pending.value) && s'.muxHasCallback == s.muxHasCallback)
            && ((step.MuxLook? && !(step.found && s.pending.Some?)) || step.MuxReturn? ==>
                  !s'.muxHasCallback && s'.mux == if step.again then Dispatching else Top)
  {
  }

  /** How many steps of its own a thread is from being out of the library. */
  function StepsLeft(pc: Pc): nat {
    match pc
    case Idle => 0
    case Leaving(_) => 1
    case Joining(_) => 2
    case Inside(op) => if op.Stop? then 9 else 3
    case AtEntry(op) => if op.Stop? then 10 else 4
    case Back(_) => 5
    case HasCallbackMutex(_) => 6
    case Waiting(_) => 7
    case Detached(_) => 8
  }

  /** The thread that takes the step; none if it is the mux thread in its loop. */
  function Taker(step: Step): Option<Tid> {
    match step
    case Start(t, _) => Some(t)
    case Enter(t) => Some(t)
    case Act(t, _) => Some(t)
    case Join(t) => Some(t)
    case Leave(t) => Some(t)
    case Detach(t) => Some(t)
    case TakeCallback(t) => Some(t)
    case DropCallback(t) => Some(t)
    case Return(t) => Some(t)
    case _ => None
  }

  /** A call takes at most ten steps of its own: each brings it nearer to its return, and nobody else's step
      moves it. */
  lemma StepsAdvance(s: Sys, step: Step, t: Tid)
    requires Enabled(s, step) && !step.Start?
    ensures var s' := Apply(s, step);
            if Taker(step) == Some(t) then StepsLeft(s'.Pc(t)) < StepsLeft(s.Pc(t)) else s'.Pc(t) == s.Pc(t)
  {
    hide DoAct;
    if step.Act? {
      ActAdvances(s, step.t, step.ok);
      ActOnAgents(s, step.t, step.ok);
    }
  }

  lemma ActAdvances(s: Sys, t: Tid, ok: bool)
    requires s.Pc(t).Inside?
    ensures StepsLeft(DoAct(s, t, ok).Pc(t)) < StepsLeft(s.Pc(t))
  {
    hide DoAct, Release;
    ActForm(s, t, ok);
    ReleaseOutcome(Acted(s, t, ok), t, None);
    if s.Pc(t).op.Finish? {
      ReleaseOutcome(s.(closing := None), t, Some(s.Pc(t).op.gen));
    }
  }

  /** The thread is stopping listener g, is on its way out from having done so, or has done so. */
  predicate Committed(s: Sys, t: Tid, g: Gen) {
    Stopping(s.Pc(t), g) || s.Pc(t) == Leaving(Some(g)) || s.Pc(t) == Joining(Some(g)) || g in s.stopped
  }

  lemma StepKeepsCommitted(s: Sys, step: Step, t: Tid, g: Gen)
    requires Inv(s) && Enabled(s, step) && Committed(s, t, g)
    ensures Committed(Apply(s, step), t, g)
  {
    hide DoAct, Inv;
    StoppingIsLive(s, t, g);
    StoppedGrows(s, step);
    if step.Act? {
      ActKeepsCommitted(s, step.t, step.ok, t, g);
    }
  }

  lemma StoppingIsLive(s: Sys, t: Tid, g: Gen)
    requires Inv(s)
    ensures Stopping(s.Pc(t), g) ==> s.phase.Live?
  {
  }

  lemma ActKeepsCommitted(s: Sys, u: Tid, ok: bool, t: Tid, g: Gen)
    requires Inv(s) && s.Pc(u).Inside? && Committed(s, t, g)
    ensures Committed(DoAct(s, u, ok), t, g)
  {
    hide DoAct, Inv;
    ActOnAgents(s, u, ok);
    ActLeadsTo(s, u, ok);
  }

  lemma {:induction false} StaysCommitted(run: seq<Sys>, steps: seq<Step>, i: nat, j: nat, t: Tid, g: Gen)
    requires IsRun(run, steps) && i <= j < |run| && Committed(run[i], t, g)
    ensures Committed(run[j], t, g)
    decreases j - i
  {
    hide Enabled, Apply, Inv, Committed;
    if i < j {
      StaysCommitted(run, steps, i, j - 1, t, g);
      RunKeeps(run, steps, j - 1);
      StepKeepsCommitted(run[j - 1], steps[j - 1], t, g);
      assert run[j - 1 + 1] == Apply(run[j - 1], steps[j - 1]);
    }
  }

  /** A stop does stop: from the moment it takes the listener out, whatever else runs in between, when its
      thread is out of the library the listener is among the stopped ones, so the barrier holds for it. */
  lemma StopStops(run: seq<Sys>, steps: seq<Step>, i: nat, j: nat, t: Tid, g: Gen)
    requires IsRun(run, steps) && i < j < |run|
    requires steps[i].Act? && steps[i].t == t && run[i].Pc(t) == Inside(Stop) && CanStop(run[i], t) && run[i].pending == Some(g)
    requires run[j].Pc(t).Idle?
    ensures g in run[j].stopped
    ensures forall k :: j <= k < |run| ==> run[k].mux != Calling(g) && run[k].pending != Some(g)
  {
    assert run[i + 1] == Apply(run[i], steps[i]);
    RunKeeps(run, steps, i);
    ActLeadsTo(run[i], t, steps[i].ok);
    hide Enabled, Apply, Inv, DoAct;
    assert Committed(run[i + 1], t, g);
    StaysCommitted(run, steps, i + 1, j, t, g);
    forall k | j <= k < |run| ensures run[k].mux != Calling(g) && run[k].pending != Some(g) {
      StopIsABarrier(run, steps, j, k, g);
    }
  }
}
