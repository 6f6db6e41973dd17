/** agent_bookkeeping of src/agent.c: transmissions that are due, the choice of the pair to use, nomination,
    keepalives and the time to wake up again. */
module Bookkeeping {
  import opened Basics
  import opened AgentState
  import Pacing
  import StableSort

  const IDLE_WAKE := 6000000
  const LAST_TIMEOUT := 8000
  const FIRST_TIMEOUT := 500
  const NOMINATION_TIMEOUT := 2000
  const KEEPALIVE_PERIOD := 15000
  const CHECK_RETRANSMISSIONS := 6
  const SERVER_RETRANSMISSIONS := 5
  const MAX_ENTRIES := 92
  const PAC_TIMEOUT := 39500
  const CONSENT_TIMEOUT := 30000
  const PACING_TIME := 50

  datatype AgentStatus = Disconnected | Gathering | Connecting | Connected | Completed | GaveUp

  // ---------- well-formed agents ----------

  /** Entries check existing pairs, each its own, only check entries do, and relays are relay entries. */
  predicate Linked(entries: seq<Entry>, pairs: nat) {
    && |entries| <= MAX_ENTRIES
    && (forall i :: 0 <= i < |entries| && entries[i].pair.Some? ==> entries[i].pair.value < pairs && entries[i].kind == Check)
    && (forall i :: 0 <= i < |entries| && entries[i].relay.Some? ==>
          entries[i].relay.value < |entries| && entries[entries[i].relay.value].kind == Relay)
    && (forall i, j :: 0 <= i < j < |entries| && entries[i].pair.Some? ==> entries[j].pair != entries[i].pair)
  }

  /** What never changes about an entry. */
  predicate SameEntry(e: Entry, d: Entry) {
    d.kind == e.kind && d.pair == e.pair && d.relay == e.relay && d.tcp == e.tcp
  }

  predicate SameEntries(before: seq<Entry>, after: seq<Entry>) {
    |after| == |before| && forall i :: 0 <= i < |before| ==> SameEntry(before[i], after[i])
  }

  lemma LinkedFits(entries: seq<Entry>, pairs: nat)
    requires Linked(entries, pairs)
    ensures |entries| <= MAX_ENTRIES
  {
  }

  lemma SameStaysLinked(before: seq<Entry>, after: seq<Entry>, pairs: nat)
    requires Linked(before, pairs) && SameEntries(before, after)
    ensures Linked(after, pairs)
  {
  }

  // ---------- time ----------

  const WINDOW := 0x7800_0000
  const ERA := 0x7000_0000
  const SPAN := 0x10_0000
  const MAX_TIMEOUT := 32000

  /** How far a timeout can still grow: it doubles with every retransmission that is left. */
  function Doublings(left: int): (d: nat)
    ensures d > 0
    decreases left
  {
    if left <= 0 then 1 else 2 * Doublings(left - 1)
  }

  /** The timeout stays within what the retransmissions allow. */
  predicate Backoff(e: Entry) {
    e.timeout * Doublings(e.retransmissions) <= MAX_TIMEOUT && (e.state == Pending ==> e.timeout > 0)
  }

  lemma BackoffBounds(e: Entry)
    requires Backoff(e)
    ensures e.timeout <= MAX_TIMEOUT
  {
    assert e.timeout * Doublings(e.retransmissions) >= e.timeout;
  }

  lemma BackoffNext(e: Entry)
    requires Backoff(e) && e.retransmissions > 0
    ensures Backoff(e.(retransmissions := e.retransmissions - 1, timeout := e.timeout * 2))
  {
    var d := Doublings(e.retransmissions - 1);
    assert e.timeout * 2 * d == e.timeout * (2 * d);
  }

  lemma BackoffFirst()
    ensures FIRST_TIMEOUT * Doublings(CHECK_RETRANSMISSIONS) == MAX_TIMEOUT
    ensures FIRST_TIMEOUT * Doublings(SERVER_RETRANSMISSIONS) <= MAX_TIMEOUT
  {
    assert Doublings(3) == 8;
    assert Doublings(6) == 64;
  }

  /** Times are counted from an epoch and stay close enough to it for their differences to fit an int. */
  predicate Near(epoch: nat, e: Entry) {
    (e.next != 0 ==> epoch <= e.next <= epoch + WINDOW) && Backoff(e)
  }

  predicate AllNear(epoch: nat, entries: seq<Entry>) {
    forall i :: 0 <= i < |entries| ==> Near(epoch, entries[i])
  }

  /** The world outside: the epoch, the time, whether the k-th send succeeds, the time read for the k-th
      arming, and the random period it uses. */
  datatype Env = Env(epoch: nat, now: nat, sent: nat -> bool, clock: nat -> nat, period: nat -> nat)

  ghost predicate Sane(env: Env) {
    && 0 < env.epoch <= env.now <= env.epoch + ERA
    && (forall k :: env.now <= env.clock(k) <= env.now + SPAN)
    && (forall k :: 0 < env.period(k) <= SPAN)
  }

  lemma NearIsInRange(epoch: nat, entries: seq<Entry>, e: nat, start: nat)
    requires AllNear(epoch, entries) && e < |entries| <= MAX_ENTRIES && epoch <= start <= epoch + WINDOW
    ensures Pacing.InRange(entries, e, start)
  {
    hide Backoff;
  }

  lemma NearIsKept(epoch: nat, entries: seq<Entry>, i: nat)
    requires AllNear(epoch, entries) && i < |entries|
    ensures Near(epoch, entries[i].(state := Cancelled, next := 0))
  {
  }

  /** A transmission the agent is waiting to make. */
  predicate Transmits(e: Entry) {
    e.state == Pending || e.state == Keepalive
  }

  predicate AwaitsTcp(e: Entry) {
    e.state == Pending && e.tcp != NotTcp && e.tcp != TcpConnected
  }

  /** A transmission that its time has come for. */
  predicate Due(e: Entry, now: nat) {
    e.state == Pending && e.next <= now && !AwaitsTcp(e)
  }

  /** A step at the given time sends the request of the entry. */
  predicate Sends(e: Entry, now: nat) {
    Due(e, now) && e.retransmissions >= 0
  }

  /** What a step makes of a pending entry. */
  function Tick(e: Entry, now: nat, sent: bool): Entry {
    if !Due(e, now) then e
    else if e.retransmissions < 0 || !sent then e.(state := Failed, next := 0)
    else if e.retransmissions == 0 then e.(expired := false, retransmissions := -1, next := now + LAST_TIMEOUT)
    else e.(expired := false, retransmissions := e.retransmissions - 1, next := now + e.timeout, timeout := e.timeout * 2)
  }

  /** What arming sets a pending entry to. */
  predicate FreshlyArmed(e: Entry) {
    if e.tcp != NotTcp then e.timeout == LAST_TIMEOUT && e.retransmissions == 0
    else e.timeout == FIRST_TIMEOUT && e.retransmissions == if e.kind == Check then CHECK_RETRANSMISSIONS else SERVER_RETRANSMISSIONS
  }

  /** The slot of the entry is the first one from the start that keeps its distance from the others. */
  ghost predicate Earliest(entries: seq<Entry>, e: nat, start: nat)
    requires e < |entries|
  {
    entries[e].next >= start && Pacing.IsFree(entries, e, entries[e].next) && Pacing.NoneFree(entries, e, start, entries[e].next)
  }

  /** What a step makes of an entry that is kept alive, given when consent for its pair runs out: it fails,
      waits, or sends a keepalive and is armed again, sooner if the sending failed. */
  predicate KeptAlive(e: Entry, consent: Option<nat>, d: Entry, env: Env, i: nat) {
    if consent.Some? && consent.value <= env.now then d == e.(state := Failed, next := 0)
    else if e.next > env.now then d == e
    else
      && d == e.(expired := env.sent(i), next := d.next)
      && d.next >= env.clock(i) + if env.sent(i) then env.period(i) else KEEPALIVE_PERIOD
  }

  function Consent(e: Entry, pairs: seq<Pair>): Option<nat>
    requires e.pair.Some? ==> e.pair.value < |pairs|
  {
    if e.pair.Some? then Some(pairs[e.pair.value].consent) else None
  }

  /** What the first loop makes of an entry. */
  predicate Transmitted(e: Entry, consent: Option<nat>, d: Entry, env: Env, i: nat) {
    if e.state == Pending then d == Tick(e, env.now, env.sent(i))
    else if e.state == Keepalive then KeptAlive(e, consent, d, env, i)
    else d == e.(next := 0)
  }

  /** The step gives the entry up. */
  predicate Fails(e: Entry, d: Entry) {
    Transmits(e) && d.state == Failed
  }

  /** And with it the pair it checks. */
  function Lost(pairs: seq<Pair>, e: Entry, d: Entry): seq<Pair>
    requires e.pair.Some? ==> e.pair.value < |pairs|
  {
    if e.pair.Some? && Fails(e, d) then pairs[e.pair.value := pairs[e.pair.value].(state := PairFailed)] else pairs
  }

  predicate LinkedPairs(entries: seq<Entry>, pairs: nat) {
    forall i :: 0 <= i < |entries| && entries[i].pair.Some? ==> entries[i].pair.value < pairs
  }

  lemma LinkedKinds(entries: seq<Entry>, pairs: nat)
    requires Linked(entries, pairs)
    ensures forall i :: 0 <= i < |entries| && entries[i].pair.Some? ==> entries[i].kind == Check
  {
  }

  lemma LinkedHasPairs(entries: seq<Entry>, pairs: nat)
    requires Linked(entries, pairs)
    ensures LinkedPairs(entries, pairs)
  {
  }

  /** One of the first n entries is given up and checked the pair. */
  predicate LostIn(before: seq<Entry>, after: seq<Entry>, p: nat, n: nat)
    requires n <= |before| <= |after|
  {
    exists i :: 0 <= i < n && before[i].pair == Some(p) && Fails(before[i], after[i])
  }

  /** The pairs of the entries that are given up have failed, and nothing else has changed. */
  predicate LostWith(pairs: seq<Pair>, before: seq<Entry>, pairs': seq<Pair>, after: seq<Entry>, n: nat)
    requires n <= |before| <= |after|
  {
    && |pairs'| == |pairs|
    && forall p :: 0 <= p < |pairs| ==>
         pairs'[p] == if LostIn(before, after, p, n) then pairs[p].(state := PairFailed) else pairs[p]
  }

  lemma LostNothing(pairs: seq<Pair>, entries: seq<Entry>)
    ensures LostWith(pairs, entries, pairs, entries, 0)
  {
  }

  lemma ConsentStays(start: seq<Pair>, first: seq<Entry>, pairs: seq<Pair>, entries: seq<Entry>, i: nat)
    requires i < |first| == |entries| && LinkedPairs(first, |start|) && LostWith(start, first, pairs, entries, i)
    requires entries[i] == first[i]
    ensures |pairs| == |start| && Consent(entries[i], pairs) == Consent(first[i], start)
  {
  }

  lemma LostMore(start: seq<Pair>, first: seq<Entry>, p0: seq<Pair>, e0: seq<Entry>, p1: seq<Pair>, e1: seq<Entry>, i: nat)
    requires i < |first| == |e0| == |e1| && LinkedPairs(first, |start|) && LostWith(start, first, p0, e0, i)
    requires e0[i] == first[i] && forall j :: 0 <= j < |e1| && j != i ==> e1[j] == e0[j]
    requires |p0| == |start| && p1 == Lost(p0, first[i], e1[i])
    ensures LostWith(start, first, p1, e1, i + 1)
  {
    hide Fails;
    forall p | 0 <= p < |start|
      ensures p1[p] == if LostIn(first, e1, p, i + 1) then start[p].(state := PairFailed) else start[p]
    {
      assert LostIn(first, e1, p, i + 1) <==> LostIn(first, e0, p, i) || (first[i].pair == Some(p) && Fails(first[i], e1[i]));
    }
  }

  lemma NoServerFails(entries: seq<Entry>)
    ensures !ServerFails(entries, entries, 0)
  {
  }

  /** What fails stops gathering, what does not fail keeps pending or not. */
  lemma GatheringSame(first: seq<Entry>, before: seq<Entry>, after: seq<Entry>, env: Env, consent: Option<nat>, i: nat)
    requires i < |first| == |before| == |after| && before[i] == first[i]
    requires forall j :: 0 <= j < |after| && j != i ==> after[j] == before[j]
    requires SameEntry(before[i], after[i]) && Transmitted(before[i], consent, after[i], env, i)
    ensures !FailsServer(before[i], after[i]) ==> (NoneGathering(after) <==> NoneGathering(before))
    ensures NoneGathering(before) ==> NoneGathering(after)
    ensures ServerFails(first, after, i + 1) <==> ServerFails(first, before, i) || FailsServer(before[i], after[i])
  {
    if ServerFails(first, before, i) {
      var j :| 0 <= j < i && FailsServer(first[j], before[j]);
      assert FailsServer(first[j], after[j]);
    }
  }

  lemma TransmittedKeepsUsable(start: seq<Pair>, first: seq<Entry>, pairs: seq<Pair>, entries: seq<Entry>, env: Env)
    requires |entries| == |first| && Linked(first, |start|) && LinkedPairs(first, |start|) && KeptPairsUsable(first, start)
    requires SameEntries(first, entries) && Linked(entries, |pairs|) && LostWith(start, first, pairs, entries, |first|)
    requires forall i :: 0 <= i < |entries| ==> Transmitted(first[i], Consent(first[i], start), entries[i], env, i)
    ensures OnlyFailed(start, pairs) && KeptPairsUsable(entries, pairs)
    ensures forall i :: 0 <= i < |entries| && entries[i].state == Keepalive && entries[i].pair.Some? ==>
              pairs[entries[i].pair.value].consent > env.now
  {
    forall i | 0 <= i < |entries| && entries[i].state == Keepalive && entries[i].pair.Some?
      ensures Usable(pairs[entries[i].pair.value]) && pairs[entries[i].pair.value].consent > env.now
    {
      var p := entries[i].pair.value;
      assert first[i].state == Keepalive && first[i].pair == Some(p);
      assert !LostIn(first, entries, p, |first|);
    }
  }

  /** A server or relay fails: gathering may be done. */
  predicate FailsServer(e: Entry, d: Entry) {
    e.kind != Check && Fails(e, d)
  }

  predicate ServerFails(before: seq<Entry>, after: seq<Entry>, n: nat)
    requires n <= |before| <= |after|
  {
    exists i :: 0 <= i < n && FailsServer(before[i], after[i])
  }

  predicate NoneGathering(entries: seq<Entry>) {
    forall i :: 0 <= i < |entries| && entries[i].kind != Check ==> entries[i].state != Pending
  }

  /** An entry of a frozen pair is over, unless it had not begun. */
  function Cancelling(e: Entry, pairs: seq<Pair>): Entry
    requires e.pair.Some? ==> e.pair.value < |pairs|
  {
    if e.pair.Some? && pairs[e.pair.value].state == PairFrozen && e.state != Idle then e.(state := Cancelled, next := if e.state == Cancelled then e.next else 0)
    else e
  }

  /** What the passes before the choice is acted on make of an entry that is not kept alive. */
  predicate Stepped(e: Entry, d: Entry, pairs: seq<Pair>, env: Env, i: nat)
    requires e.pair.Some? ==> e.pair.value < |pairs|
  {
    d == Cancelling(if e.state == Pending then Tick(e, env.now, env.sent(i)) else e.(next := 0), pairs)
  }

  // ---------- a check that is not answered ----------

  /** How long the retransmissions that are left take, from a sending on. */
  function Patience(left: int, timeout: nat): nat
    decreases left
  {
    if left < 0 then 0 else if left == 0 then LAST_TIMEOUT else timeout + Patience(left - 1, timeout * 2)
  }

  /** Steps at the given times, with nothing received and every sending successful. */
  predicate IsUnanswered(run: seq<Entry>, times: seq<nat>) {
    |run| == |times| + 1 && forall k :: 0 <= k < |times| ==> run[k + 1] == Tick(run[k], times[k], true)
  }

  /** How often the request is sent in the first n steps. */
  function Sendings(run: seq<Entry>, times: seq<nat>, n: nat): nat
    requires n <= |times| <= |run|
  {
    if n == 0 then 0 else Sendings(run, times, n - 1) + if Sends(run[n - 1], times[n - 1]) then 1 else 0
  }

  function Dues(run: seq<Entry>, times: seq<nat>, n: nat): nat
    requires n <= |times| <= |run|
  {
    if n == 0 then 0 else Dues(run, times, n - 1) + if Due(run[n - 1], times[n - 1]) then 1 else 0
  }

  /** The retransmissions left count the sendings, and every due step is one until the last. */
  lemma {:induction false} UnansweredSoFar(run: seq<Entry>, times: seq<nat>, n: nat)
    requires IsUnanswered(run, times) && n <= |times|
    requires run[0].state == Pending && run[0].retransmissions >= 0 && !AwaitsTcp(run[0])
    ensures run[n].tcp == run[0].tcp
    ensures run[n].state == Pending ==>
              && -1 <= run[n].retransmissions == run[0].retransmissions - Sendings(run, times, n)
              && Dues(run, times, n) == Sendings(run, times, n)
    ensures run[n].state != Pending ==>
              && run[n].state == Failed && Sendings(run, times, n) == run[0].retransmissions + 1
              && Dues(run, times, n) == Sendings(run, times, n) + 1
    ensures Sendings(run, times, n) == 0 ==> run[n] == run[0]
  {
    if n > 0 {
      UnansweredSoFar(run, times, n - 1);
    }
  }

  /** A sending turns patience into waiting; any other step leaves both. */
  lemma TickWaits(e: Entry, now: nat)
    requires Tick(e, now, true).state == Pending
    ensures e.state == Pending
    ensures var d := Tick(e, now, true);
            if Sends(e, now) then d.next + Patience(d.retransmissions, d.timeout) == now + Patience(e.retransmissions, e.timeout)
            else d == e
  {
  }

  /** Once it has been sent the entry has waited for what the retransmissions made so far took. */
  lemma {:induction false} UnansweredWaits(run: seq<Entry>, times: seq<nat>, n: nat) returns (first: nat)
    requires IsUnanswered(run, times) && n <= |times| && run[n].state == Pending && Sendings(run, times, n) > 0
    requires run[0].state == Pending && run[0].retransmissions >= 0 && !AwaitsTcp(run[0])
    ensures first < n && Sends(run[first], times[first]) && Sendings(run, times, first) == 0
    ensures run[n].next + Patience(run[n].retransmissions, run[n].timeout) >=
              times[first] + Patience(run[0].retransmissions, run[0].timeout)
  {
    hide Patience, Tick;
    UnansweredSoFar(run, times, n - 1);
    TickWaits(run[n - 1], times[n - 1]);
    if Sendings(run, times, n - 1) == 0 {
      first := n - 1;
    } else {
      first := UnansweredWaits(run, times, n - 1);
    }
  }

  lemma PatienceOf()
    ensures Patience(CHECK_RETRANSMISSIONS, FIRST_TIMEOUT) == PAC_TIMEOUT
    ensures Patience(SERVER_RETRANSMISSIONS, FIRST_TIMEOUT) == PAC_TIMEOUT - 16000
    ensures Patience(0, LAST_TIMEOUT) == LAST_TIMEOUT
  {
    assert Patience(2, 8000) == 32000;
    assert Patience(4, 2000) == 38000;
    assert Patience(2, 4000) == 20000;
    assert Patience(4, 1000) == 23000;
  }

  /** A check that is never answered is sent seven times, and the step that gives it up comes no earlier
      than the connectivity timer counted from the first sending would end; a request to a server is sent
      six times, one over TCP once. */
  lemma UnansweredFails(run: seq<Entry>, times: seq<nat>, k: nat) returns (first: nat)
    requires IsUnanswered(run, times) && k < |times|
    requires run[0].state == Pending && FreshlyArmed(run[0]) && !AwaitsTcp(run[0])
    requires run[k].state == Pending && run[k + 1].state != Pending
    ensures first < k && Sends(run[first], times[first]) && Sendings(run, times, first) == 0
    ensures run[k + 1].state == Failed
    ensures run[0].tcp == NotTcp && run[0].kind == Check ==>
              Sendings(run, times, k) == 7 && times[k] >= times[first] + PAC_TIMEOUT
    ensures run[0].tcp == NotTcp && run[0].kind != Check ==>
              Sendings(run, times, k) == 6 && times[k] >= times[first] + 23500
    ensures run[0].tcp != NotTcp ==> Sendings(run, times, k) == 1 && times[k] >= times[first] + LAST_TIMEOUT
  {
    hide FreshlyArmed, Patience;
    ArmedPatience(run[0]);
    UnansweredSoFar(run, times, k);
    UnansweredSoFar(run, times, k + 1);
    assert Patience(-1, run[k].timeout) == 0 by { NoPatience(run[k].timeout); }
    first := UnansweredWaits(run, times, k);
  }

  lemma NoPatience(timeout: nat)
    ensures Patience(-1, timeout) == 0
  {
  }

  lemma ArmedPatience(e: Entry)
    requires FreshlyArmed(e)
    ensures e.retransmissions == if e.tcp != NotTcp then 0 else if e.kind == Check then 6 else 5
    ensures Patience(e.retransmissions, e.timeout) ==
              if e.tcp != NotTcp then LAST_TIMEOUT else if e.kind == Check then PAC_TIMEOUT else PAC_TIMEOUT - 16000
  {
    PatienceOf();
  }

  /** And it does end: one more due step than there are sendings. */
  lemma UnansweredEnds(run: seq<Entry>, times: seq<nat>, n: nat)
    requires IsUnanswered(run, times) && n <= |times|
    requires run[0].state == Pending && FreshlyArmed(run[0]) && !AwaitsTcp(run[0])
    ensures run[n].state == Failed <==>
              Dues(run, times, n) >= if run[0].tcp != NotTcp then 2 else if run[0].kind == Check then 8 else 7
  {
    UnansweredSoFar(run, times, n);
  }

  /** Nothing is overdue but what waits for a TCP connection, and what does not transmit is not armed. */
  predicate UpToDate(now: nat, e: Entry) {
    && (Transmits(e) && !AwaitsTcp(e) ==> e.next > now)
    && (!Transmits(e) ==> e.next == 0)
  }

  // ---------- pairs ----------

  /** Pairs may have failed, and nothing else. */
  predicate OnlyFailed(before: seq<Pair>, after: seq<Pair>) {
    |after| == |before|
    && forall p :: 0 <= p < |before| ==> after[p] == before[p] || after[p] == before[p].(state := PairFailed)
  }

  /** The pairs by descending priority, each once. */
  predicate Ranked(pairs: seq<Pair>, order: seq<nat>) {
    && |order| == |pairs|
    && (forall i :: 0 <= i < |order| ==> order[i] < |pairs|)
    && (forall i, j :: 0 <= i < j < |order| ==> order[i] != order[j])
    && (forall i, j :: 0 <= i < j < |order| ==> pairs[order[i]].priority >= pairs[order[j]].priority)
    && (forall p :: 0 <= p < |pairs| ==> p in order)
  }

  function Priorities(pairs: seq<Pair>): seq<nat> {
    seq(|pairs|, p requires 0 <= p < |pairs| => pairs[p].priority)
  }

  /** The order agent_update_ordered_pairs leaves behind is such a ranking. */
  lemma SortRanks(pairs: seq<Pair>, order: seq<nat>)
    requires order == StableSort.Sorted(StableSort.Upto(|pairs|), p => StableSort.Priority(Priorities(pairs), p))
    ensures Ranked(pairs, order)
  {
    StableSort.RankedPairs(Priorities(pairs), order);
  }

  /** The first of the n highest pairs that is nominated. */
  function NominatedIn(pairs: seq<Pair>, order: seq<nat>, n: nat): Option<nat>
    requires n <= |order| && forall i :: 0 <= i < |order| ==> order[i] < |pairs|
  {
    if n == 0 then None
    else
      var r := NominatedIn(pairs, order, n - 1);
      if r.None? && pairs[order[n - 1]].nominated then Some(order[n - 1]) else r
  }

  /** The first of them that succeeded without being nominated. */
  function SucceededIn(pairs: seq<Pair>, order: seq<nat>, n: nat): Option<nat>
    requires n <= |order| && forall i :: 0 <= i < |order| ==> order[i] < |pairs|
  {
    if n == 0 then None
    else
      var r := SucceededIn(pairs, order, n - 1);
      var p := pairs[order[n - 1]];
      if r.None? && !p.nominated && p.state == PairSucceeded then Some(order[n - 1]) else r
  }

  function ChosenIn(pairs: seq<Pair>, order: seq<nat>, n: nat): Option<nat>
    requires n <= |order| && forall i :: 0 <= i < |order| ==> order[i] < |pairs|
  {
    var nominated := NominatedIn(pairs, order, n);
    if nominated.Some? then nominated else SucceededIn(pairs, order, n)
  }

  predicate Usable(p: Pair) {
    p.nominated || p.state == PairSucceeded
  }

  /** The entry is for a server, or for a pair that is not in use and cannot come into use. */
  predicate Apart(e: Entry, pairs: seq<Pair>)
    requires e.pair.Some? ==> e.pair.value < |pairs|
  {
    e.kind == Server || (e.pair.Some? && !Usable(pairs[e.pair.value]))
  }

  /** What acting on the choice leaves alone. */
  predicate ApartKept(before: seq<Entry>, after: seq<Entry>, pairs: seq<Pair>)
    requires LinkedPairs(before, |pairs|)
  {
    |after| == |before| && forall i :: 0 <= i < |before| && Apart(before[i], pairs) && before[i].state != Keepalive ==> after[i] == before[i]
  }

  /** What the two scans find: the best nominated pair, else the best that succeeded. */
  lemma {:induction false} ChosenIsBest(pairs: seq<Pair>, order: seq<nat>, n: nat)
    requires Ranked(pairs, order) && n <= |order|
    ensures var r := NominatedIn(pairs, order, n);
            && (r.Some? ==> r.value < |pairs| && pairs[r.value].nominated)
            && (forall i :: 0 <= i < n && pairs[order[i]].nominated ==>
                  r.Some? && pairs[r.value].priority >= pairs[order[i]].priority)
    ensures var r := SucceededIn(pairs, order, n);
            && (r.Some? ==> r.value < |pairs| && pairs[r.value].state == PairSucceeded)
            && (forall i :: 0 <= i < n && !pairs[order[i]].nominated && pairs[order[i]].state == PairSucceeded ==>
                  r.Some? && pairs[r.value].priority >= pairs[order[i]].priority)
    ensures ChosenIn(pairs, order, n).None? ==> forall i :: 0 <= i < n ==> !Usable(pairs[order[i]])
  {
    if n > 0 {
      ChosenIsBest(pairs, order, n - 1);
      FoundBefore(pairs, order, n - 1);
    }
  }

  lemma {:induction false} FoundBefore(pairs: seq<Pair>, order: seq<nat>, n: nat)
    requires Ranked(pairs, order) && n <= |order|
    ensures var r := NominatedIn(pairs, order, n); r.Some? ==> exists i :: 0 <= i < n && order[i] == r.value
    ensures var r := SucceededIn(pairs, order, n); r.Some? ==> exists i :: 0 <= i < n && order[i] == r.value
  {
    if n > 0 {
      FoundBefore(pairs, order, n - 1);
    }
  }

  /** Only whether a pair is nominated or has succeeded matters to the choice. */
  lemma {:induction false} ChoiceDependsOn(before: seq<Pair>, after: seq<Pair>, order: seq<nat>, n: nat)
    requires |after| == |before| && n <= |order| && forall i :: 0 <= i < |order| ==> order[i] < |before|
    requires forall p :: 0 <= p < |before| ==>
               after[p].nominated == before[p].nominated && (after[p].state == PairSucceeded <==> before[p].state == PairSucceeded)
    ensures NominatedIn(after, order, n) == NominatedIn(before, order, n)
    ensures SucceededIn(after, order, n) == SucceededIn(before, order, n)
  {
    if n > 0 {
      ChoiceDependsOn(before, after, order, n - 1);
    }
  }

  /** Checks may have been stopped, and nothing else. */
  predicate OnlyFrozen(before: seq<Pair>, after: seq<Pair>) {
    |after| == |before|
    && forall p :: 0 <= p < |before| ==>
         after[p] == before[p] || (before[p].state == PairPending && after[p] == before[p].(state := PairFrozen))
  }

  lemma FrozenKeepsChoice(before: seq<Pair>, after: seq<Pair>, order: seq<nat>)
    requires Ranked(before, order) && OnlyFrozen(before, after)
    ensures Ranked(after, order)
    ensures NominatedIn(after, order, |order|) == NominatedIn(before, order, |order|)
    ensures ChosenIn(after, order, |order|) == ChosenIn(before, order, |order|)
  {
    ChoiceDependsOn(before, after, order, |order|);
  }

  lemma FailedStaysRanked(before: seq<Pair>, after: seq<Pair>, order: seq<nat>)
    requires Ranked(before, order) && OnlyFailed(before, after)
    ensures Ranked(after, order)
  {
  }

  /** A pair kept alive is one that can be used. */
  predicate KeptPairsUsable(entries: seq<Entry>, pairs: seq<Pair>)
    requires Linked(entries, |pairs|)
  {
    forall i :: 0 <= i < |entries| && entries[i].state == Keepalive && entries[i].pair.Some? ==> Usable(pairs[entries[i].pair.value])
  }

  /** The same for all entries but one. */
  predicate KeptPairsUsableBut(entries: seq<Entry>, pairs: seq<Pair>, e: nat)
    requires Linked(entries, |pairs|)
  {
    forall i :: 0 <= i < |entries| && i != e && entries[i].state == Keepalive && entries[i].pair.Some? ==> Usable(pairs[entries[i].pair.value])
  }

  function Reprioritized(pairs: seq<Pair>, priorities: seq<nat>): (r: seq<Pair>)
    requires |priorities| == |pairs|
    ensures |r| == |pairs| && forall p :: 0 <= p < |r| ==> r[p] == pairs[p].(priority := priorities[p])
  {
    seq(|pairs|, p requires 0 <= p < |pairs| => pairs[p].(priority := priorities[p]))
  }

  /** A pair k places down is ranked below the chosen one. */
  predicate RankedBelow(order: seq<nat>, chosen: nat, k: nat)
    requires k < |order|
  {
    exists i :: 0 <= i < k && order[i] == chosen
  }

  /** No check goes on for a pair ranked below the one in use, and none at all once a pair is nominated. */
  predicate ChecksStopped(pairs: seq<Pair>, order: seq<nat>)
    requires Ranked(pairs, order)
  {
    var nominated := NominatedIn(pairs, order, |order|);
    var chosen := ChosenIn(pairs, order, |order|);
    && (chosen.Some? ==>
          forall k :: 0 <= k < |order| && RankedBelow(order, chosen.value, k) ==> pairs[order[k]].state != PairPending)
    && (nominated.Some? ==>
          forall p :: 0 <= p < |pairs| && p != nominated.value ==> pairs[p].state != PairPending)
  }

  /** The check of the pair at place k is stopped: a pair above it can be used. */
  predicate Stops(pairs: seq<Pair>, order: seq<nat>, k: nat, controlling: bool)
    requires k < |order| && forall i :: 0 <= i < |order| ==> order[i] < |pairs|
  {
    controlling && ChosenIn(pairs, order, k).Some? && !pairs[order[k]].nominated && pairs[order[k]].state == PairPending
  }

  function Settled(pairs: seq<Pair>, order: seq<nat>, n: nat, controlling: bool): (r: seq<Pair>)
    requires n <= |order| && forall i :: 0 <= i < |order| ==> order[i] < |pairs|
    ensures |r| == |pairs|
  {
    if n == 0 then pairs
    else
      var r := Settled(pairs, order, n - 1, controlling);
      if Stops(pairs, order, n - 1, controlling) then r[order[n - 1] := pairs[order[n - 1]].(state := PairFrozen)] else r
  }

  /** How many checks go on. */
  function PendingIn(pairs: seq<Pair>, order: seq<nat>, n: nat, controlling: bool): nat
    requires n <= |order| && forall i :: 0 <= i < |order| ==> order[i] < |pairs|
  {
    if n == 0 then 0
    else
      var p := pairs[order[n - 1]];
      PendingIn(pairs, order, n - 1, controlling)
      + if !p.nominated && p.state == PairPending && !Stops(pairs, order, n - 1, controlling) then 1 else 0
  }

  predicate NoneChecking(pairs: seq<Pair>) {
    forall p :: 0 <= p < |pairs| && pairs[p].state == PairPending ==> pairs[p].nominated
  }

  lemma {:induction false} SettledAt(pairs: seq<Pair>, order: seq<nat>, n: nat, controlling: bool)
    requires Ranked(pairs, order) && n <= |order|
    ensures var r := Settled(pairs, order, n, controlling);
            && (forall k :: 0 <= k < n ==>
                  r[order[k]] == if Stops(pairs, order, k, controlling) then pairs[order[k]].(state := PairFrozen) else pairs[order[k]])
            && (forall k :: n <= k < |order| ==> r[order[k]] == pairs[order[k]])
  {
    hide ChosenIn;
    if n > 0 {
      SettledAt(pairs, order, n - 1, controlling);
    }
  }

  lemma {:induction false} PendingZero(pairs: seq<Pair>, order: seq<nat>, n: nat, controlling: bool)
    requires Ranked(pairs, order) && n <= |order|
    ensures PendingIn(pairs, order, n, controlling) == 0 <==>
            forall k :: 0 <= k < n && !pairs[order[k]].nominated && pairs[order[k]].state == PairPending ==> Stops(pairs, order, k, controlling)
  {
    hide ChosenIn;
    if n > 0 {
      PendingZero(pairs, order, n - 1, controlling);
    }
  }

  lemma SettledIsFrozen(pairs: seq<Pair>, order: seq<nat>, controlling: bool)
    requires Ranked(pairs, order)
    ensures var r := Settled(pairs, order, |order|, controlling);
            && OnlyFrozen(pairs, r)
            && (!controlling ==> r == pairs)
            && (PendingIn(pairs, order, |order|, controlling) == 0 <==> NoneChecking(r))
  {
    hide ChosenIn;
    var r := Settled(pairs, order, |order|, controlling);
    SettledAt(pairs, order, |order|, controlling);
    PendingZero(pairs, order, |order|, controlling);
    forall p | 0 <= p < |pairs|
      ensures r[p] == pairs[p] || (pairs[p].state == PairPending && r[p] == pairs[p].(state := PairFrozen))
      ensures !controlling ==> r[p] == pairs[p]
    {
      assert p in order;
      var k :| 0 <= k < |order| && order[k] == p;
    }
    if PendingIn(pairs, order, |order|, controlling) == 0 {
      forall p | 0 <= p < |r| && r[p].state == PairPending ensures r[p].nominated {
        assert p in order;
        var k :| 0 <= k < |order| && order[k] == p;
      }
    } else {
      var k :| 0 <= k < |order| && !pairs[order[k]].nominated && pairs[order[k]].state == PairPending && !Stops(pairs, order, k, controlling);
      assert r[order[k]] == pairs[order[k]];
    }
  }

  lemma FrozenTransitive(a: seq<Pair>, b: seq<Pair>, c: seq<Pair>)
    requires OnlyFrozen(a, b) && OnlyFrozen(b, c)
    ensures OnlyFrozen(a, c)
  {
  }

  lemma ChosenExists(pairs: seq<Pair>, order: seq<nat>)
    requires Ranked(pairs, order)
    ensures NominatedIn(pairs, order, |order|).Some? ==> NominatedIn(pairs, order, |order|).value < |pairs|
    ensures ChosenIn(pairs, order, |order|).Some? ==> ChosenIn(pairs, order, |order|).value < |pairs|
  {
    ChosenIsBest(pairs, order, |order|);
  }

  /** The check at place k gives way: to the nominated pair, else to a chosen pair ranked above it. */
  predicate GivesWay(pairs: seq<Pair>, order: seq<nat>, k: nat, controlling: bool)
    requires Ranked(pairs, order) && k < |order|
  {
    var nominated := NominatedIn(pairs, order, |order|);
    var chosen := ChosenIn(pairs, order, |order|);
    && controlling && pairs[order[k]].state == PairPending
    && (if nominated.Some? then order[k] != nominated.value else chosen.Some? && RankedBelow(order, chosen.value, k))
  }

  /** Exactly the checks that give way are stopped. */
  predicate StoppedOnly(before: seq<Pair>, after: seq<Pair>, order: seq<nat>, controlling: bool)
    requires Ranked(before, order)
  {
    |after| == |before| && forall k :: 0 <= k < |order| ==>
      after[order[k]] == if GivesWay(before, order, k, controlling) then before[order[k]].(state := PairFrozen) else before[order[k]]
  }

  /** What has been found above place k stays the choice, unless a nominated pair comes further down. */
  lemma {:induction false} ChosenStays(pairs: seq<Pair>, order: seq<nat>, k: nat, n: nat)
    requires Ranked(pairs, order) && k <= n <= |order|
    ensures NominatedIn(pairs, order, k).Some? ==> NominatedIn(pairs, order, n) == NominatedIn(pairs, order, k)
    ensures SucceededIn(pairs, order, k).Some? ==> SucceededIn(pairs, order, n) == SucceededIn(pairs, order, k)
    decreases n
  {
    if k < n {
      ChosenStays(pairs, order, k, n - 1);
    }
  }

  /** Without a nomination the pass stops exactly what is ranked below the choice. */
  lemma SettledOnly(pairs: seq<Pair>, order: seq<nat>, controlling: bool)
    requires Ranked(pairs, order) && (controlling ==> NominatedIn(pairs, order, |order|).None?)
    ensures StoppedOnly(pairs, Settled(pairs, order, |order|, controlling), order, controlling)
  {
    SettledAt(pairs, order, |order|, controlling);
    forall k | 0 <= k < |order| ensures Stops(pairs, order, k, controlling) <==> GivesWay(pairs, order, k, controlling) {
      StopsIffBelow(pairs, order, k, controlling);
    }
  }

  lemma StopsIffBelow(pairs: seq<Pair>, order: seq<nat>, k: nat, controlling: bool)
    requires Ranked(pairs, order) && k < |order| && (controlling ==> NominatedIn(pairs, order, |order|).None?)
    ensures Stops(pairs, order, k, controlling) <==> GivesWay(pairs, order, k, controlling)
  {
    if controlling {
      ChosenStays(pairs, order, k, |order|);
      FoundBefore(pairs, order, k);
      ChosenIsBest(pairs, order, |order|);
      assert !pairs[order[k]].nominated;
      if GivesWay(pairs, order, k, controlling) {
        ChosenBefore(pairs, order, k);
      }
    }
  }

  /** Both passes: what the first left pending the second stops, but for the nominated pair. */
  lemma FrozenOnly(before: seq<Pair>, mid: seq<Pair>, after: seq<Pair>, order: seq<nat>)
    requires Ranked(before, order) && NominatedIn(before, order, |order|).Some?
    requires mid == Settled(before, order, |order|, true) && |after| == |mid|
    requires forall p :: 0 <= p < |mid| ==>
               after[p] == if p != NominatedIn(before, order, |order|).value && mid[p].state == PairPending
                           then mid[p].(state := PairFrozen) else mid[p]
    ensures StoppedOnly(before, after, order, true)
  {
    hide ChosenIn;
    SettledAt(before, order, |order|, true);
    ChosenIsBest(before, order, |order|);
  }

  /** Without a nomination only the second loop stops checks. */
  lemma SettledStops(pairs: seq<Pair>, order: seq<nat>)
    requires Ranked(pairs, order) && NominatedIn(pairs, order, |order|).None?
    ensures var r := Settled(pairs, order, |order|, true);
            Ranked(r, order) && ChecksStopped(r, order)
  {
    var r := Settled(pairs, order, |order|, true);
    SettledIsFrozen(pairs, order, true);
    FrozenKeepsChoice(pairs, r, order);
    SettledAt(pairs, order, |order|, true);
    ChosenIsBest(pairs, order, |order|);
    var chosen := ChosenIn(pairs, order, |order|);
    forall k | chosen.Some? && 0 <= k < |order| && RankedBelow(order, chosen.value, k) ensures r[order[k]].state != PairPending {
      ChosenBefore(pairs, order, k);
    }
  }

  /** With a nomination all other checks have been stopped. */
  lemma NominatedStops(pairs: seq<Pair>, order: seq<nat>)
    requires Ranked(pairs, order) && NominatedIn(pairs, order, |order|).Some?
    requires forall p :: 0 <= p < |pairs| && p != NominatedIn(pairs, order, |order|).value ==> pairs[p].state != PairPending
    ensures ChecksStopped(pairs, order)
  {
    var n := NominatedIn(pairs, order, |order|).value;
    forall k | 0 <= k < |order| && RankedBelow(order, n, k) ensures pairs[order[k]].state != PairPending {
      var i :| 0 <= i < k && order[i] == n;
    }
  }

  /** The entry checks the pair, or is the relay of the entry that does. */
  ghost predicate KeptFor(entries: seq<Entry>, pair: nat, i: nat)
    requires i < |entries|
  {
    entries[i].pair == Some(pair) || exists e :: 0 <= e < |entries| && entries[e].pair == Some(pair) && entries[e].relay == Some(i)
  }

  /** An entry that starts to be kept alive. */
  predicate Enabled(e: Entry, d: Entry, now: nat) {
    if e.state == Keepalive then d == e
    else d == e.(state := Keepalive, expired := true, next := d.next) && d.next > now
  }

  /** What becomes of an entry when the pair is nominated. */
  ghost predicate Completing(before: seq<Entry>, after: seq<Entry>, pair: nat, i: nat, now: nat)
    requires i < |before| == |after|
  {
    if KeptFor(before, pair, i) then Enabled(before[i], after[i], now)
    else after[i] == if before[i].state == Keepalive then before[i].(state := Succeeded) else before[i]
  }

  /** Keepalives go out for the pair and for nothing else. */
  ghost predicate KeepaliveOnlyFor(entries: seq<Entry>, pair: nat) {
    && (forall i :: 0 <= i < |entries| && entries[i].state == Keepalive ==> KeptFor(entries, pair, i))
    && (forall i :: 0 <= i < |entries| && entries[i].pair == Some(pair) ==> entries[i].state == Keepalive)
  }

  /** Waking up is in time for every transmission that is armed. */
  predicate InTime(entries: seq<Entry>, wake: nat) {
    forall i :: 0 <= i < |entries| && entries[i].next != 0 ==> wake <= entries[i].next
  }

  /** Something is due at the time: a transmission, or the consent for the chosen pair. */
  predicate HasReason(entries: seq<Entry>, pairs: seq<Pair>, chosen: Option<nat>, wake: nat) {
    || (exists i :: 0 <= i < |entries| && entries[i].next != 0 && wake == entries[i].next)
    || (chosen.Some? && chosen.value < |pairs| && wake == pairs[chosen.value].consent)
  }

  /** Whether a nomination of the chosen pair is asked for: it is once the time has come, and then the
      check of the pair is due again under a new id. */
  predicate Nominating(before: seq<Pair>, after: seq<Pair>, entries: seq<Entry>, chosen: nat, over: bool) {
    && chosen < |before| == |after|
    && (after[chosen].requested <==> before[chosen].requested || over)
    && (after[chosen].requested != before[chosen].requested ==>
          forall i :: 0 <= i < |entries| && entries[i].pair == Some(chosen) ==>
            entries[i].state == Pending && entries[i].expired && FreshlyArmed(entries[i]))
  }

  /** The entry of a newly selected pair is the one to send from. */
  predicate SwitchedTo(entries: seq<Entry>, was: Option<nat>, is_: Option<nat>, entry: Option<nat>) {
    was != is_ ==> forall i :: 0 <= i < |entries| && entries[i].pair == is_ ==> entry == Some(i)
  }

  /** What an answer makes of its entry: kept alive from now on, unless a nominated pair is in use. */
  ghost predicate AnsweredEntry(before: seq<Entry>, after: seq<Entry>, e: nat, keep: bool, env: Env)
    requires e < |before| == |after|
  {
    if keep then
      && after[e] == before[e].(state := Keepalive, expired := true, next := after[e].next)
      && Earliest(after, e, env.clock(0) + env.period(0))
    else after[e] == if before[e].state == Keepalive then before[e] else before[e].(state := Succeeded, next := 0)
  }

  /** Relays check no pair, so what is kept alive and checks a pair checks this one. */
  lemma KeptCheckIsFor(entries: seq<Entry>, pairs: nat, pair: nat)
    requires Linked(entries, pairs) && KeepaliveOnlyFor(entries, pair)
    ensures forall i :: 0 <= i < |entries| && entries[i].state == Keepalive && entries[i].pair.Some? ==> entries[i].pair == Some(pair)
  {
    forall i | 0 <= i < |entries| && entries[i].state == Keepalive && entries[i].pair.Some?
      ensures entries[i].pair == Some(pair)
    {
      assert KeptFor(entries, pair, i);
      assert entries[i].kind == Check;
    }
  }

  lemma FrozenKeepsUsable(entries: seq<Entry>, before: seq<Pair>, after: seq<Pair>)
    requires Linked(entries, |before|) && OnlyFrozen(before, after) && KeptPairsUsable(entries, before)
    ensures KeptPairsUsable(entries, after)
  {
  }

  /** The choice stated on pairs: the nominated pair of highest priority, else the one that succeeded. */
  lemma ChoiceIsHighest(pairs: seq<Pair>, order: seq<nat>)
    requires Ranked(pairs, order)
    ensures var n := NominatedIn(pairs, order, |order|);
            && (n.Some? ==> n.value < |pairs| && pairs[n.value].nominated)
            && (forall p :: 0 <= p < |pairs| && pairs[p].nominated ==> n.Some? && pairs[n.value].priority >= pairs[p].priority)
    ensures var n, c := NominatedIn(pairs, order, |order|), ChosenIn(pairs, order, |order|);
            && (n.Some? ==> c == n)
            && (n.None? && c.Some? ==> c.value < |pairs| && pairs[c.value].state == PairSucceeded)
            && (n.None? ==> forall p :: 0 <= p < |pairs| && pairs[p].state == PairSucceeded ==>
                  c.Some? && pairs[c.value].priority >= pairs[p].priority)
  {
    ChosenIsBest(pairs, order, |order|);
    forall p | 0 <= p < |pairs| ensures exists k :: 0 <= k < |order| && order[k] == p && pairs[p] == pairs[order[k]] {
      assert p in order;
      var k :| 0 <= k < |order| && order[k] == p;
    }
  }

  lemma KeptMeansChosen(entries: seq<Entry>, pairs: seq<Pair>, order: seq<nat>)
    requires Linked(entries, |pairs|) && Ranked(pairs, order) && KeptPairsUsable(entries, pairs)
    ensures forall i :: 0 <= i < |entries| && entries[i].state == Keepalive && entries[i].pair.Some? ==> ChosenIn(pairs, order, |order|).Some?
  {
    ChosenIsBest(pairs, order, |order|);
    forall i | 0 <= i < |entries| && entries[i].state == Keepalive && entries[i].pair.Some?
      ensures ChosenIn(pairs, order, |order|).Some?
    {
      var p := entries[i].pair.value;
      assert p in order && Usable(pairs[p]);
    }
  }

  /** Only whether a nomination was asked for has changed. */
  predicate OnlyRequested(before: seq<Pair>, after: seq<Pair>) {
    |after| == |before| && forall p :: 0 <= p < |before| ==> after[p] == before[p].(requested := after[p].requested)
  }

  lemma RequestKeepsChoice(before: seq<Pair>, after: seq<Pair>, order: seq<nat>)
    requires Ranked(before, order) && OnlyRequested(before, after)
    ensures Ranked(after, order)
    ensures NominatedIn(after, order, |order|) == NominatedIn(before, order, |order|)
    ensures ChosenIn(after, order, |order|) == ChosenIn(before, order, |order|)
    ensures ChecksStopped(before, order) ==> ChecksStopped(after, order)
  {
    ChoiceDependsOn(before, after, order, |order|);
  }

  predicate IsIdle(status: AgentStatus) {
    status == Disconnected || status == Gathering
  }

  /** What a step owes: the best pair in use, or an end when the nominated pair is lost. */
  predicate Decided(pairs: seq<Pair>, order: seq<nat>, status: AgentStatus, selected: Option<nat>, entry: Option<nat>)
    requires Ranked(pairs, order)
  {
    var n := NominatedIn(pairs, order, |order|);
    var c := ChosenIn(pairs, order, |order|);
    ChosenExists(pairs, order);
    if n.Some? && pairs[n.value].state == PairFailed then status == GaveUp && entry.None?
    else if c.Some? then selected == c && status == (if n.Some? then Completed else AgentStatus.Connected)
    else true
  }

  /** A step that ends completed keeps one path alive and wakes up in time for it. */
  ghost predicate Maintained(pairs: seq<Pair>, order: seq<nat>, entries: seq<Entry>, wake: nat)
    requires Ranked(pairs, order)
  {
    var n := NominatedIn(pairs, order, |order|);
    ChosenExists(pairs, order);
    n.Some? && pairs[n.value].state != PairFailed ==>
      && KeepaliveOnlyFor(entries, n.value)
      && InTime(entries, wake)
      && forall i :: 0 <= i < |entries| && entries[i].pair == n ==> wake <= pairs[n.value].consent
  }

  class Agent {
    var mode: Mode
    var status: AgentStatus
    var pairs: seq<Pair>
    var order: seq<nat>
    var entries: seq<Entry>
    var selectedPair: Option<nat>
    var selectedEntry: Option<nat>
    var nominationAt: nat
    var pacAt: nat
    var gatheringDone: bool
    var remoteKnown: bool

    /** What every step and every response keeps. */
    ghost predicate Ok(epoch: nat)
      reads this
    {
      && Linked(entries, |pairs|) && Ranked(pairs, order) && AllNear(epoch, entries) && KeptPairsUsable(entries, pairs)
      && (selectedPair.Some? ==> selectedPair.value < |pairs|)
    }

    /** agent_update_gathering_done with agent_update_pac_timer. */
    method UpdateGathering(clock: nat)
      modifies `gatheringDone, `pacAt
      ensures gatheringDone <==> old(gatheringDone) || NoneGathering(entries)
      ensures pacAt == if gatheringDone && !old(gatheringDone) && old(pacAt) == 0 && remoteKnown then clock + PAC_TIMEOUT else old(pacAt)
    {
      for i := 0 to |entries|
        invariant forall j :: 0 <= j < i && entries[j].kind != Check ==> entries[j].state != Pending
      {
        if entries[i].kind != Check && entries[i].state == Pending {
          return;
        }
      }
      if !gatheringDone {
        gatheringDone := true;
        if pacAt == 0 && remoteKnown {
          pacAt := clock + PAC_TIMEOUT;
        }
      }
    }

    /** agent_arm_transmission. */
    method Arm(e: nat, epoch: nat, clock: nat, delay: nat)
      requires e < |entries| && Linked(entries, |pairs|) && AllNear(epoch, entries)
      requires 0 < epoch <= clock <= epoch + ERA + SPAN && delay <= SPAN
      modifies `entries
      ensures SameEntries(old(entries), entries) && forall i :: 0 <= i < |entries| && i != e ==> entries[i] == old(entries)[i]
      ensures entries[e].expired == old(entries)[e].expired
      ensures entries[e].state == if old(entries)[e].state == Keepalive then Keepalive else Pending
      ensures entries[e].state == Pending ==> FreshlyArmed(entries[e])
      ensures entries[e].state == Keepalive ==> entries[e] == old(entries)[e].(next := entries[e].next)
      ensures Earliest(entries, e, clock + delay)
      ensures Linked(entries, |pairs|) && AllNear(epoch, entries)
    {
      hide Linked, Pacing.IsFree, Pacing.NoneFree, Pacing.InRange;
      ghost var before := entries;
      LinkedFits(entries, |pairs|);
      var entry := entries[e];
      BackoffFirst();
      if entry.state != Keepalive {
        entry := entry.(state := Pending);
      }
      if entry.state == Pending {
        if entry.tcp != NotTcp {
          entry := entry.(timeout := LAST_TIMEOUT, retransmissions := 0);
        } else {
          entry := entry.(timeout := FIRST_TIMEOUT,
                          retransmissions := if entry.kind == Check then CHECK_RETRANSMISSIONS else SERVER_RETRANSMISSIONS);
        }
      }
      entries := entries[e := entry];
      ghost var armed := entries;
      NearIsInRange(epoch, entries, e, clock + delay);
      var slot, pushed := Pacing.FindSlot(entries, e, clock + delay);
      entries := entries[e := entry.(next := slot)];
      EarliestIgnoresSelf(armed, entries, e, clock + delay, slot);
      SameStaysLinked(before, entries, |pairs|);
    }

    /** agent_arm_keepalive. */
    method ArmKeepalive(e: nat, epoch: nat, clock: nat, period: nat)
      requires e < |entries| && Linked(entries, |pairs|) && AllNear(epoch, entries)
      requires 0 < epoch <= clock <= epoch + ERA + SPAN && period <= SPAN
      requires entries[e].state == Succeeded || entries[e].state == Keepalive
      modifies `entries
      ensures SameEntries(old(entries), entries) && forall i :: 0 <= i < |entries| && i != e ==> entries[i] == old(entries)[i]
      ensures entries[e] == old(entries)[e].(state := Keepalive, expired := true, next := entries[e].next)
      ensures Earliest(entries, e, clock + period)
      ensures Linked(entries, |pairs|) && AllNear(epoch, entries)
    {
      ghost var before := entries;
      entries := entries[e := entries[e].(state := Keepalive, expired := true)];
      SameStaysLinked(before, entries, |pairs|);
      Arm(e, epoch, clock, period);
    }

    /** The sending of one entry: a check that is due is sent again or fails, consent that has run out fails
        its pair, a keepalive that is due is sent and armed again. */
    method TransmitEntry(i: nat, env: Env)
      requires i < |entries| && Linked(entries, |pairs|) && AllNear(env.epoch, entries) && Sane(env)
      modifies `entries, `pairs, `gatheringDone, `pacAt
      ensures SameEntries(old(entries), entries) && Linked(entries, |pairs|) && AllNear(env.epoch, entries)
      ensures forall j :: 0 <= j < |entries| && j != i ==> entries[j] == old(entries)[j]
      ensures Transmitted(old(entries)[i], Consent(old(entries)[i], old(pairs)), entries[i], env, i)
      ensures UpToDate(env.now, entries[i]) && OnlyFailed(old(pairs), pairs)
      ensures pairs == Lost(old(pairs), old(entries)[i], entries[i])
      ensures gatheringDone <==> old(gatheringDone) || (FailsServer(old(entries)[i], entries[i]) && NoneGathering(entries))
      ensures pacAt == if gatheringDone && !old(gatheringDone) && old(pacAt) == 0 && remoteKnown then env.clock(i) + PAC_TIMEOUT else old(pacAt)
      ensures entries[i].state == Keepalive ==> old(entries)[i].state == Keepalive
      ensures entries[i].state == Keepalive && entries[i].pair.Some? ==> pairs[entries[i].pair.value].consent > env.now
    {
      hide AllNear, Sane, Tick, KeptAlive;
      if entries[i].state == Pending {
        TransmitPending(i, env);
      } else if entries[i].state == Keepalive {
        TransmitKeepalive(i, env);
      } else {
        Disarm(i, env.epoch);
      }
    }

    method Disarm(i: nat, epoch: nat)
      requires i < |entries| && Linked(entries, |pairs|) && AllNear(epoch, entries)
      modifies `entries
      ensures SameEntries(old(entries), entries) && Linked(entries, |pairs|) && AllNear(epoch, entries)
      ensures entries == old(entries)[i := old(entries)[i].(next := 0)]
    {
      Replace(i, epoch, entries[i].(next := 0));
    }

    method TransmitPending(i: nat, env: Env)
      requires i < |entries| && Linked(entries, |pairs|) && AllNear(env.epoch, entries) && Sane(env) && entries[i].state == Pending
      modifies `entries, `pairs, `gatheringDone, `pacAt
      ensures SameEntries(old(entries), entries) && Linked(entries, |pairs|) && AllNear(env.epoch, entries)
      ensures entries == old(entries)[i := Tick(old(entries)[i], env.now, env.sent(i))]
      ensures UpToDate(env.now, entries[i]) && OnlyFailed(old(pairs), pairs) && entries[i].state != Keepalive
      ensures pairs == Lost(old(pairs), old(entries)[i], entries[i])
      ensures gatheringDone <==> old(gatheringDone) || (FailsServer(old(entries)[i], entries[i]) && NoneGathering(entries))
      ensures pacAt == if gatheringDone && !old(gatheringDone) && old(pacAt) == 0 && remoteKnown then env.clock(i) + PAC_TIMEOUT else old(pacAt)
    {
      var now := env.now;
      var entry := entries[i];
      if entry.next > now || AwaitsTcp(entry) {
        return;
      }
      BackoffBounds(entry);
      if entry.retransmissions >= 0 && env.sent(i) {
        var left := entry.retransmissions - 1;
        if left < 0 {
          entry := entry.(expired := false, retransmissions := left, next := now + LAST_TIMEOUT);
        } else {
          BackoffNext(entry);
          entry := entry.(expired := false, retransmissions := left, next := now + entry.timeout, timeout := entry.timeout * 2);
        }
        Replace(i, env.epoch, entry);
        return;
      }
      FailEntry(i, env.epoch);
      if entry.kind != Check {
        UpdateGathering(env.clock(i));
      }
    }

    method TransmitKeepalive(i: nat, env: Env)
      requires i < |entries| && Linked(entries, |pairs|) && AllNear(env.epoch, entries) && Sane(env) && entries[i].state == Keepalive
      modifies `entries, `pairs
      ensures SameEntries(old(entries), entries) && Linked(entries, |pairs|) && AllNear(env.epoch, entries)
      ensures forall j :: 0 <= j < |entries| && j != i ==> entries[j] == old(entries)[j]
      ensures KeptAlive(old(entries)[i], Consent(old(entries)[i], old(pairs)), entries[i], env, i)
      ensures UpToDate(env.now, entries[i]) && OnlyFailed(old(pairs), pairs)
      ensures pairs == Lost(old(pairs), old(entries)[i], entries[i])
      ensures entries[i].state == Keepalive && entries[i].pair.Some? ==> pairs[entries[i].pair.value].consent > env.now
    {
      var entry := entries[i];
      if entry.pair.Some? && pairs[entry.pair.value].consent <= env.now {
        FailEntry(i, env.epoch);
        return;
      }
      if entry.next > env.now {
        return;
      }
      Replace(i, env.epoch, entry.(expired := false));
      SendKeepalive(i, env);
    }

    method SendKeepalive(i: nat, env: Env)
      requires i < |entries| && Linked(entries, |pairs|) && AllNear(env.epoch, entries) && Sane(env) && entries[i].state == Keepalive
      modifies `entries
      ensures SameEntries(old(entries), entries) && forall j :: 0 <= j < |entries| && j != i ==> entries[j] == old(entries)[j]
      ensures Linked(entries, |pairs|) && AllNear(env.epoch, entries)
      ensures entries[i] == old(entries)[i].(expired := env.sent(i) || old(entries)[i].expired, next := entries[i].next)
      ensures Earliest(entries, i, env.clock(i) + if env.sent(i) then env.period(i) else KEEPALIVE_PERIOD)
    {
      if env.sent(i) {
        ArmKeepalive(i, env.epoch, env.clock(i), env.period(i));
      } else {
        Arm(i, env.epoch, env.clock(i), KEEPALIVE_PERIOD);
      }
    }

    method Replace(i: nat, epoch: nat, entry: Entry)
      requires i < |entries| && Linked(entries, |pairs|) && AllNear(epoch, entries)
      requires SameEntry(entries[i], entry) && Near(epoch, entry)
      modifies `entries
      ensures entries == old(entries)[i := entry]
      ensures SameEntries(old(entries), entries) && Linked(entries, |pairs|) && AllNear(epoch, entries)
    {
      entries := entries[i := entry];
      SameStaysLinked(old(entries), entries, |pairs|);
    }

    /** The entry is over, and so is the pair it checks. */
    method FailEntry(i: nat, epoch: nat)
      requires i < |entries| && Linked(entries, |pairs|) && AllNear(epoch, entries)
      modifies `entries, `pairs
      ensures entries == old(entries)[i := old(entries)[i].(state := Failed, next := 0)]
      ensures SameEntries(old(entries), entries) && Linked(entries, |pairs|) && AllNear(epoch, entries)
      ensures pairs == if entries[i].pair.Some? then old(pairs)[entries[i].pair.value := old(pairs)[entries[i].pair.value].(state := PairFailed)]
                       else old(pairs)
    {
      if entries[i].pair.Some? {
        var p := entries[i].pair.value;
        pairs := pairs[p := pairs[p].(state := PairFailed)];
      }
      Replace(i, epoch, entries[i].(state := Failed, next := 0));
    }

    /** The first loop: every entry in turn. */
    method Transmit(env: Env)
      requires Linked(entries, |pairs|) && AllNear(env.epoch, entries) && Sane(env) && KeptPairsUsable(entries, pairs)
      modifies `entries, `pairs, `gatheringDone, `pacAt
      ensures SameEntries(old(entries), entries) && Linked(entries, |pairs|) && AllNear(env.epoch, entries)
      ensures forall i :: 0 <= i < |entries| ==>
                Transmitted(old(entries)[i], Consent(old(entries)[i], old(pairs)), entries[i], env, i)
      ensures forall i :: 0 <= i < |entries| ==> UpToDate(env.now, entries[i])
      ensures |pairs| == |old(pairs)| && LostWith(old(pairs), old(entries), pairs, entries, |entries|)
      ensures OnlyFailed(old(pairs), pairs) && KeptPairsUsable(entries, pairs)
      ensures forall i :: 0 <= i < |entries| && entries[i].state == Keepalive && entries[i].pair.Some? ==>
                pairs[entries[i].pair.value].consent > env.now
      ensures gatheringDone <==>
                old(gatheringDone) || (NoneGathering(entries) && ServerFails(old(entries), entries, |entries|))
      ensures old(pacAt) != 0 || !remoteKnown || gatheringDone == old(gatheringDone) ==> pacAt == old(pacAt)
      ensures old(pacAt) == 0 && remoteKnown && gatheringDone != old(gatheringDone) ==>
                exists i :: 0 <= i < |entries| && pacAt == env.clock(i) + PAC_TIMEOUT
    {
      hide Linked, AllNear, Sane, Transmitted, LostWith, OnlyFailed, KeptPairsUsable, UpToDate, NoneGathering, ServerFails;
      ghost var first, start := entries, pairs;
      LostNothing(start, first);
      NoServerFails(first);
      LinkedHasPairs(entries, |pairs|);
      for i := 0 to |entries|
        invariant SameEntries(first, entries) && Linked(entries, |pairs|) && AllNear(env.epoch, entries)
        invariant LinkedPairs(first, |start|) && LostWith(start, first, pairs, entries, i)
        invariant forall j :: 0 <= j < i ==> Transmitted(first[j], Consent(first[j], start), entries[j], env, j) && UpToDate(env.now, entries[j])
        invariant forall j :: i <= j < |entries| ==> entries[j] == first[j]
        invariant gatheringDone <==>
                    old(gatheringDone) || (NoneGathering(entries) && ServerFails(first, entries, i))
        invariant old(pacAt) != 0 || !remoteKnown || gatheringDone == old(gatheringDone) ==> pacAt == old(pacAt)
        invariant old(pacAt) == 0 && remoteKnown && gatheringDone != old(gatheringDone) ==>
                    exists j :: 0 <= j < i && pacAt == env.clock(j) + PAC_TIMEOUT
      {
        ghost var e0, p0 := entries, pairs;
        LinkedHasPairs(entries, |pairs|);
        ConsentStays(start, first, pairs, entries, i);
        TransmitEntry(i, env);
        SameTransitive(first, e0, entries);
        LostMore(start, first, p0, e0, pairs, entries, i);
        GatheringSame(first, e0, entries, env, Consent(e0[i], p0), i);
      }
      TransmittedKeepsUsable(start, first, pairs, entries, env);
    }

    /** The second loop: the pair to use, and an end to the checks that cannot improve on it. */
    method Select() returns (nominated: Option<nat>, chosen: Option<nat>, pending: nat)
      requires Ranked(pairs, order)
      modifies `pairs
      ensures pairs == Settled(old(pairs), order, |order|, mode == Controlling)
      ensures nominated == NominatedIn(old(pairs), order, |order|) && chosen == ChosenIn(old(pairs), order, |order|)
      ensures pending == PendingIn(old(pairs), order, |order|, mode == Controlling)
    {
      ghost var before := pairs;
      nominated, chosen, pending := None, None, 0;
      for i := 0 to |order|
        invariant pairs == Settled(before, order, i, mode == Controlling)
        invariant nominated == NominatedIn(before, order, i) && chosen == ChosenIn(before, order, i)
        invariant pending == PendingIn(before, order, i, mode == Controlling)
      {
        var p := order[i];
        var pair := pairs[p];
        SettledAt(before, order, i, mode == Controlling);
        assert pair == before[p];
        if pair.nominated {
          if nominated.None? {
            nominated, chosen := Some(p), Some(p);
          }
        } else if pair.state == PairSucceeded {
          if chosen.None? {
            chosen := Some(p);
          }
        } else if pair.state == PairPending {
          if mode == Controlling && chosen.Some? {
            pairs := pairs[p := pair.(state := PairFrozen)];
          } else {
            pending := pending + 1;
          }
        }
      }
    }

    /** Once a pair is nominated the controlling agent checks no other. */
    method FreezeRest(nominated: nat)
      requires Ranked(pairs, order) && nominated < |pairs|
      modifies `pairs
      ensures OnlyFrozen(old(pairs), pairs)
      ensures forall p :: 0 <= p < |pairs| ==>
                pairs[p] == if p != nominated && old(pairs)[p].state == PairPending then old(pairs)[p].(state := PairFrozen) else old(pairs)[p]
    {
      ghost var before := pairs;
      for i := 0 to |order|
        invariant |pairs| == |before|
        invariant forall k :: i <= k < |order| ==> pairs[order[k]] == before[order[k]]
        invariant forall k :: 0 <= k < i ==>
                    pairs[order[k]] == if order[k] != nominated && before[order[k]].state == PairPending
                                       then before[order[k]].(state := PairFrozen) else before[order[k]]
      {
        var p := order[i];
        if p != nominated && pairs[p].state == PairPending {
          pairs := pairs[p := pairs[p].(state := PairFrozen)];
        }
      }
      forall p | 0 <= p < |pairs|
        ensures pairs[p] == if p != nominated && before[p].state == PairPending then before[p].(state := PairFrozen) else before[p]
      {
        assert p in order;
        var k :| 0 <= k < |order| && order[k] == p;
      }
    }

    /** The second and third loops together. */
    method StopChecks() returns (nominated: Option<nat>, chosen: Option<nat>, pending: nat)
      requires Ranked(pairs, order)
      modifies `pairs
      ensures |pairs| == |old(pairs)| && OnlyFrozen(old(pairs), pairs) && Ranked(pairs, order)
      ensures StoppedOnly(old(pairs), pairs, order, mode == Controlling)
      ensures nominated == NominatedIn(pairs, order, |order|) && chosen == ChosenIn(pairs, order, |order|)
      ensures mode == Controlling ==> ChecksStopped(pairs, order)
      ensures mode != Controlling ==> pairs == old(pairs)
      ensures pending == 0 <==> (mode == Controlling && nominated.Some?) || NoneChecking(pairs)
    {
      hide ChosenIn, NominatedIn, Settled, PendingIn, Ranked, StoppedOnly;
      ghost var before := pairs;
      nominated, chosen, pending := Select();
      SettledIsFrozen(before, order, mode == Controlling);
      FrozenKeepsChoice(before, pairs, order);
      if mode == Controlling && nominated.Some? {
        ChosenExists(pairs, order);
        ghost var mid := pairs;
        FreezeRest(nominated.value);
        FrozenKeepsChoice(mid, pairs, order);
        FrozenTransitive(before, mid, pairs);
        FrozenOnly(before, mid, pairs, order);
        NominatedStops(pairs, order);
        pending := 0;
      } else {
        SettledOnly(before, order, mode == Controlling);
        if mode == Controlling {
          SettledStops(before, order);
        }
      }
    }

    /** Entries of frozen pairs are cancelled. */
    method CancelFrozen(epoch: nat)
      requires Linked(entries, |pairs|) && AllNear(epoch, entries)
      modifies `entries
      ensures SameEntries(old(entries), entries) && Linked(entries, |pairs|) && AllNear(epoch, entries)
      ensures forall i :: 0 <= i < |entries| ==> entries[i] == Cancelling(old(entries)[i], pairs)
    {
      hide AllNear;
      ghost var before := entries;
      for i := 0 to |entries|
        invariant SameEntries(before, entries) && Linked(entries, |pairs|) && AllNear(epoch, entries)
        invariant forall j :: i <= j < |entries| ==> entries[j] == before[j]
        invariant forall j :: 0 <= j < i ==> entries[j] == Cancelling(before[j], pairs)
      {
        var entry := entries[i];
        if entry.pair.Some? && pairs[entry.pair.value].state == PairFrozen && entry.state != Idle && entry.state != Cancelled {
          ghost var e0 := entries;
          NearIsKept(epoch, entries, i);
          Replace(i, epoch, entry.(state := Cancelled, next := 0));
          SameTransitive(before, e0, entries);
        }
      }
    }

    /** The entry that checks the pair. */
    method FindEntry(pair: nat) returns (e: Option<nat>)
      ensures e.Some? ==> e.value < |entries| && entries[e.value].pair == Some(pair)
      ensures e.None? ==> forall i :: 0 <= i < |entries| ==> entries[i].pair != Some(pair)
    {
      for i := 0 to |entries|
        invariant forall j :: 0 <= j < i ==> entries[j].pair != Some(pair)
      {
        if entries[i].pair == Some(pair) {
          return Some(i);
        }
      }
      return None;
    }

    method EnableKeepalive(e: nat, k: nat, env: Env)
      requires e < |entries| && Linked(entries, |pairs|) && AllNear(env.epoch, entries) && Sane(env)
      modifies `entries
      ensures SameEntries(old(entries), entries) && forall i :: 0 <= i < |entries| && i != e ==> entries[i] == old(entries)[i]
      ensures Linked(entries, |pairs|) && AllNear(env.epoch, entries) && Enabled(old(entries)[e], entries[e], env.now)
      ensures old(entries)[e].state != Keepalive ==> Earliest(entries, e, env.clock(k) + env.period(k))
    {
      if entries[e].state != Keepalive {
        ghost var before := entries;
        Replace(e, env.epoch, entries[e].(state := Keepalive));
        ghost var mid := entries;
        ArmKeepalive(e, env.epoch, env.clock(k), env.period(k));
        SameTransitive(before, mid, entries);
      }
    }

    method DisableOthers(epoch: nat, nominated: Option<nat>, relay: Option<nat>)
      requires Linked(entries, |pairs|) && AllNear(epoch, entries)
      modifies `entries
      ensures SameEntries(old(entries), entries) && Linked(entries, |pairs|) && AllNear(epoch, entries)
      ensures forall i :: 0 <= i < |entries| ==>
                entries[i] == if old(entries)[i].state == Keepalive && Some(i) != nominated && Some(i) != relay
                              then old(entries)[i].(state := Succeeded) else old(entries)[i]
    {
      ghost var before := entries;
      for i := 0 to |entries|
        invariant SameEntries(before, entries) && Linked(entries, |pairs|) && AllNear(epoch, entries)
        invariant forall j :: i <= j < |entries| ==> entries[j] == before[j]
        invariant forall j :: 0 <= j < i ==>
                    entries[j] == if before[j].state == Keepalive && Some(j) != nominated && Some(j) != relay
                                  then before[j].(state := Succeeded) else before[j]
      {
        if Some(i) != nominated && Some(i) != relay && entries[i].state == Keepalive {
          ghost var mid := entries;
          Replace(i, epoch, entries[i].(state := Succeeded));
          SameTransitive(before, mid, entries);
        }
      }
    }

    /** A pair is nominated: keep it alive, with the relay it goes through, and nothing else. */
    method Complete(nominated: nat, env: Env)
      requires Linked(entries, |pairs|) && AllNear(env.epoch, entries) && Sane(env) && nominated < |pairs|
      modifies `entries, `status, `selectedEntry
      ensures SameEntries(old(entries), entries) && Linked(entries, |pairs|) && AllNear(env.epoch, entries)
      ensures status == Completed && KeepaliveOnlyFor(entries, nominated)
      ensures forall i :: 0 <= i < |entries| ==> Completing(old(entries), entries, nominated, i, env.now)
      ensures forall i :: 0 <= i < |entries| && entries[i].pair == Some(nominated) ==>
                selectedEntry == if old(entries)[i].state == Keepalive then old(selectedEntry) else Some(i)
    {
      hide KeepaliveOnlyFor, AllNear, SameEntries, Linked, Completing, Enabled;
      status := Completed;
      ghost var first := entries;
      var e := FindEntry(nominated);
      var relay := None;
      if e.Some? {
        LinkedRelay(entries, |pairs|, e.value);
        OwnPair(entries, |pairs|, e.value);
        relay := entries[e.value].relay;
        if entries[e.value].state != Keepalive {
          selectedEntry := e;
        }
        KeepPath(e.value, relay, env);
      } else {
        SameReflexive(entries);
      }
      ghost var kept := entries;
      DisableOthers(env.epoch, e, relay);
      SameTransitive(first, kept, entries);
      SameKeepsPairs(first, entries);
      AllCompleting(first, kept, entries, |pairs|, nominated, e, relay, env.now);
    }

    method KeepPath(e: nat, relay: Option<nat>, env: Env)
      requires e < |entries| && Linked(entries, |pairs|) && AllNear(env.epoch, entries) && Sane(env)
      requires relay == entries[e].relay && (relay.Some? ==> relay.value < |entries|) && relay != Some(e)
      modifies `entries
      ensures SameEntries(old(entries), entries) && Linked(entries, |pairs|) && AllNear(env.epoch, entries)
      ensures forall i :: 0 <= i < |entries| ==>
                if i == e || relay == Some(i) then Enabled(old(entries)[i], entries[i], env.now) else entries[i] == old(entries)[i]
    {
      ghost var first := entries;
      LinkedRelay(entries, |pairs|, e);
      EnableKeepalive(e, |entries|, env);
      if relay.Some? {
        ghost var mid := entries;
        EnableKeepalive(relay.value, |entries| + 1, env);
        SameTransitive(first, mid, entries);
      }
    }

    /** The controlling agent asks for the pair to be nominated. */
    predicate Asks(chosen: nat, pending: nat, now: nat)
      requires chosen < |pairs|
      reads this
    {
      mode == Controlling && !pairs[chosen].requested && (pending == 0 || 0 < nominationAt <= now)
    }

    /** No nomination yet: the controlling agent asks for one when nothing is left to check or its patience
        has run out. */
    method Connect(chosen: nat, pending: nat, wake: nat, env: Env) returns (sooner: nat)
      requires Linked(entries, |pairs|) && AllNear(env.epoch, entries) && Sane(env) && chosen < |pairs|
      requires KeptPairsUsable(entries, pairs)
      modifies `entries, `pairs, `status
      ensures SameEntries(old(entries), entries) && Linked(entries, |pairs|) && AllNear(env.epoch, entries)
      ensures status == Connected && KeptPairsUsable(entries, pairs)
      ensures pairs == if old(Asks(chosen, pending, env.now)) then old(pairs)[chosen := old(pairs)[chosen].(requested := true)] else old(pairs)
      ensures forall i :: 0 <= i < |entries| ==>
                if old(Asks(chosen, pending, env.now)) && entries[i].pair == Some(chosen)
                then entries[i].state == Pending && entries[i].expired && FreshlyArmed(entries[i]) && Earliest(entries, i, env.clock(|entries|))
                else entries[i] == old(entries)[i]
      ensures sooner == if mode == Controlling && !pairs[chosen].requested && 0 < nominationAt < wake then nominationAt else wake
    {
      hide AllNear, SameEntries, Linked, KeptPairsUsable;
      SameReflexive(entries);
      status := Connected;
      sooner := wake;
      if mode == Controlling && !pairs[chosen].requested {
        if pending == 0 || (nominationAt != 0 && env.now >= nominationAt) {
          RequestedKeepsUsable(entries, pairs, chosen);
          pairs := pairs[chosen := pairs[chosen].(requested := true)];
          var e := FindEntry(chosen);
          if e.Some? {
            OwnPair(entries, |pairs|, e.value);
            SameKeepsPairs(entries, entries);
            RequestNomination(e.value, env);
            SameKeepsPairs(old(entries), entries);
          }
        } else if nominationAt != 0 && sooner > nominationAt {
          sooner := nominationAt;
        }
      }
    }

    method RequestNomination(e: nat, env: Env)
      requires e < |entries| && Linked(entries, |pairs|) && AllNear(env.epoch, entries) && Sane(env) && KeptPairsUsable(entries, pairs)
      modifies `entries
      ensures SameEntries(old(entries), entries) && Linked(entries, |pairs|) && AllNear(env.epoch, entries)
      ensures entries[e].state == Pending && entries[e].expired && KeptPairsUsable(entries, pairs)
      ensures FreshlyArmed(entries[e]) && Earliest(entries, e, env.clock(|entries|))
      ensures forall i :: 0 <= i < |entries| && i != e ==> entries[i] == old(entries)[i]
    {
      ghost var before := entries;
      Replace(e, env.epoch, entries[e].(state := Pending, expired := true, timeout := FIRST_TIMEOUT, retransmissions := 0));
      ghost var mid := entries;
      Arm(e, env.epoch, env.clock(|entries|), 0);
      SameTransitive(before, mid, entries);
    }

    /** The last loop: the earliest transmission, and the consent of what is kept alive. */
    method NextWake(start: nat, chosen: Option<nat>) returns (wake: nat)
      requires Linked(entries, |pairs|) && (chosen.Some? ==> chosen.value < |pairs|)
      requires forall i :: 0 <= i < |entries| && entries[i].state == Keepalive && entries[i].pair.Some? ==> chosen.Some?
      ensures wake == start || HasReason(entries, pairs, chosen, wake)
      ensures (forall i :: 0 <= i < |entries| && entries[i].state == Keepalive && entries[i].pair.Some? ==> entries[i].pair == chosen) ==>
                && wake <= start && InTime(entries, wake)
                && (forall i :: 0 <= i < |entries| && entries[i].state == Keepalive && entries[i].pair.Some? ==>
                      wake <= pairs[entries[i].pair.value].consent)
    {
      wake := start;
      ghost var one := forall i :: 0 <= i < |entries| && entries[i].state == Keepalive && entries[i].pair.Some? ==> entries[i].pair == chosen;
      for i := 0 to |entries|
        invariant wake == start || HasReason(entries, pairs, chosen, wake)
        invariant one ==> wake <= start
        invariant one ==> forall j :: 0 <= j < i && entries[j].next != 0 ==> wake <= entries[j].next
        invariant one ==> forall j :: 0 <= j < i && entries[j].state == Keepalive && entries[j].pair.Some? ==>
                    wake <= pairs[entries[j].pair.value].consent
      {
        var entry := entries[i];
        if entry.next != 0 && wake > entry.next {
          wake := entry.next;
        }
        if entry.state == Keepalive && entry.pair.Some? && wake > pairs[entry.pair.value].consent {
          wake := pairs[chosen.value].consent;
        }
      }
    }

    method UpdateSelected(chosen: nat, now: nat)
      requires chosen < |pairs| && Linked(entries, |pairs|)
      modifies `selectedPair, `selectedEntry, `nominationAt
      ensures selectedPair == Some(chosen) && SwitchedTo(entries, old(selectedPair), selectedPair, selectedEntry)
      ensures mode != Controlling ==> nominationAt == old(nominationAt)
      ensures old(selectedPair) == Some(chosen) ==> selectedEntry == old(selectedEntry) && nominationAt == old(nominationAt)
      ensures old(selectedPair) != Some(chosen) && mode == Controlling ==> nominationAt == now + 2000
    {
      if selectedPair != Some(chosen) {
        selectedPair := Some(chosen);
        if mode == Controlling {
          nominationAt := now + NOMINATION_TIMEOUT;
        }
        var e := FindEntry(chosen);
        if e.Some? {
          OwnPair(entries, |pairs|, e.value);
          selectedEntry := e;
        }
      }
    }

    /** What is done about the chosen pair; no pair was lost. */
    method UsePair(nominated: Option<nat>, chosen: nat, pending: nat, env: Env) returns (wake: nat)
      requires Linked(entries, |pairs|) && Ranked(pairs, order) && AllNear(env.epoch, entries) && Sane(env) && KeptPairsUsable(entries, pairs)
      requires nominated == NominatedIn(pairs, order, |order|) && ChosenIn(pairs, order, |order|) == Some(chosen) && chosen < |pairs|
      requires nominated.Some? ==> pairs[nominated.value].state != PairFailed
      modifies `entries, `pairs, `status, `selectedPair, `selectedEntry, `nominationAt
      ensures Linked(entries, |pairs|) && Ranked(pairs, order) && AllNear(env.epoch, entries) && KeptPairsUsable(entries, pairs)
      ensures OnlyRequested(old(pairs), pairs) && SameEntries(old(entries), entries)
      ensures LinkedPairs(old(entries), |old(pairs)|) && ApartKept(old(entries), entries, old(pairs))
      ensures selectedPair == Some(chosen) && SwitchedTo(entries, old(selectedPair), selectedPair, selectedEntry)
      ensures Decided(pairs, order, status, selectedPair, selectedEntry)
      ensures wake == env.now + IDLE_WAKE || (wake == nominationAt && wake <= env.now + IDLE_WAKE)
      ensures nominated.Some? ==> KeepaliveOnlyFor(entries, nominated.value)
      ensures nominated.None? ==>
                Nominating(old(pairs), pairs, entries, chosen, mode == Controlling && (pending == 0 || 0 < nominationAt <= env.now))
    {
      hide ChosenIn, NominatedIn, Ranked, ChecksStopped, SwitchedTo, ApartKept, Linked, SameEntries, AllNear, KeptPairsUsable,
           KeepaliveOnlyFor, Completing;
      wake := env.now + IDLE_WAKE;
      ghost var e0, was := entries, selectedPair;
      LinkedHasPairs(entries, |pairs|);
      UpdateSelected(chosen, env.now);
      ghost var entry := selectedEntry;
      ChoiceIsHighest(pairs, order);
      if nominated.Some? {
        Complete(nominated.value, env);
        SameKeepsPairs(e0, entries);
        KeptNominated(entries, pairs, nominated.value);
        CompletingLeavesApart(e0, entries, pairs, nominated.value, env.now);
        StillSwitched(e0, entries, was, selectedPair, entry, selectedEntry);
        assert OnlyRequested(old(pairs), pairs);
      } else {
        ghost var before := pairs;
        wake := Connect(chosen, pending, wake, env);
        RequestKeepsChoice(before, pairs, order);
        SameKeepsPairs(e0, entries);
        LinkedKinds(e0, |before|);
        ConnectingLeavesApart(e0, entries, before, chosen);
        StillSwitched(e0, entries, was, selectedPair, entry, selectedEntry);
      }
    }

    /** Everything before the choice is acted on. */
    method Checks(env: Env) returns (nominated: Option<nat>, chosen: Option<nat>, pending: nat)
      requires Ok(env.epoch) && Sane(env)
      modifies `entries, `pairs, `gatheringDone, `pacAt
      ensures Ok(env.epoch) && SameEntries(old(entries), entries) && (old(pacAt) != 0 ==> pacAt == old(pacAt))
      ensures nominated == NominatedIn(pairs, order, |order|) && chosen == ChosenIn(pairs, order, |order|)
      ensures mode == Controlling ==> ChecksStopped(pairs, order)
      ensures pending == 0 <==> (mode == Controlling && nominated.Some?) || NoneChecking(pairs)
      ensures LinkedPairs(old(entries), |pairs|) && SteppedAll(old(entries), entries, pairs, env)
      ensures StoppedForBetter(old(pairs), pairs, order, mode == Controlling)
      ensures |pairs| == |old(pairs)| && forall p :: 0 <= p < |pairs| ==> pairs[p].requested == old(pairs)[p].requested
      ensures GivenUp(old(entries), pairs, env)
    {
      hide Ranked, NominatedIn, ChosenIn, ChecksStopped, AllNear, SameEntries, OnlyFailed, OnlyFrozen, NoneChecking, Sane,
           UpToDate, Transmitted, LostWith, NoneGathering, ServerFails, StoppedOnly, StoppedForBetter, Linked, SteppedAll, KeptPairsUsable, Cancelling;
      ghost var e0, p0 := entries, pairs;
      LinkedHasPairs(entries, |pairs|);
      Transmit(env);
      FailedStaysRanked(p0, pairs, order);
      ghost var e1, lost := entries, pairs;
      SameKeepsPairs(e0, e1);
      LinkedHasPairs(e1, |pairs|);
      nominated, chosen, pending := StopChecks();
      FrozenKeepsUsable(entries, lost, pairs);
      OnlyStoppedForBetter(p0, lost, pairs, order, mode == Controlling);
      CancelFrozen(env.epoch);
      SameKeepsPairs(e1, entries);
      SameTransitive(e0, e1, entries);
      AllStepped(e0, p0, e1, lost, entries, pairs, env);
    }

    /** agent_bookkeeping. */
    method Bookkeep(env: Env) returns (wake: nat)
      requires Ok(env.epoch) && Sane(env)
      modifies `entries, `pairs, `status, `selectedPair, `selectedEntry, `nominationAt, `gatheringDone, `pacAt
      ensures Ok(env.epoch) && SameEntries(old(entries), entries) && (old(pacAt) != 0 ==> pacAt == old(pacAt))
      ensures IsIdle(old(status)) ==> entries == old(entries) && pairs == old(pairs) && status == old(status) && selectedPair == old(selectedPair)
      ensures !IsIdle(old(status)) && mode == Controlling ==> ChecksStopped(pairs, order)
      ensures !IsIdle(old(status)) ==> Decided(pairs, order, status, selectedPair, selectedEntry)
      ensures !IsIdle(old(status)) ==> Maintained(pairs, order, entries, wake)
      ensures !IsIdle(old(status)) && ChosenIn(pairs, order, |order|).None? ==>
                if NoneChecking(pairs) && 0 < pacAt <= env.now then status == GaveUp && selectedEntry.None?
                else status == old(status) && selectedEntry == old(selectedEntry)
      ensures !IsIdle(old(status)) && ChosenIn(pairs, order, |order|).None? && NoneChecking(pairs) && env.now < pacAt ==>
                wake <= pacAt
      ensures !IsIdle(old(status)) ==>
                LinkedPairs(old(entries), |pairs|) && SteppedApart(old(entries), entries, pairs, env) && GivenUp(old(entries), pairs, env)
      ensures !IsIdle(old(status)) ==> StoppedForBetter(old(pairs), pairs, order, mode == Controlling)
      ensures !IsIdle(old(status)) && NominatedIn(pairs, order, |order|).None? && ChosenIn(pairs, order, |order|).Some? ==>
                Nominating(old(pairs), pairs, entries, ChosenIn(pairs, order, |order|).value,
                           mode == Controlling && (NoneChecking(pairs) || 0 < nominationAt <= env.now))
      ensures !IsIdle(old(status)) && ChosenIn(pairs, order, |order|).Some? && status != GaveUp ==>
                SwitchedTo(entries, old(selectedPair), selectedPair, selectedEntry)
      ensures wake in {env.now + IDLE_WAKE, nominationAt, pacAt} || HasReason(entries, pairs, ChosenIn(pairs, order, |order|), wake)
    {
      hide Ranked, NominatedIn, ChosenIn, ChecksStopped, AllNear, SameEntries, OnlyFailed, OnlyFrozen, KeepaliveOnlyFor,
           NoneChecking, InTime, Sane, Decided, Maintained, SteppedAll, SteppedApart, ApartKept, GivenUp,
           StoppedForBetter, Nominating, SwitchedTo, HasReason, OnlyRequested;
      wake := env.now + IDLE_WAKE;
      if IsIdle(status) {
        SameReflexive(entries);
        return;
      }
      ghost var e0, p0 := entries, pairs;
      var nominated, chosen, pending := Checks(env);
      ghost var e1, p1 := entries, pairs;
      wake := Decide(nominated, chosen, pending, env);
      SameTransitive(e0, e1, entries);
      ApartStepped(e0, e1, entries, p1, pairs, env);
      StillGivenUp(e0, p1, pairs, env);
      RequestKeepsChoice(p1, pairs, order);
      if nominated.None? && chosen.Some? {
        NominatingSince(p0, p1, pairs, entries, chosen.value, mode == Controlling && (NoneChecking(pairs) || 0 < nominationAt <= env.now));
      }
      StillStoppedForBetter(p0, p1, pairs, order, mode == Controlling);
    }

    // ---------- what arrives between the steps ----------

    /** Only the pair at p has changed, and not in priority. */
    method SetPair(p: nat, pair: Pair)
      requires p < |pairs| && Linked(entries, |pairs|) && Ranked(pairs, order) && pair.priority == pairs[p].priority
      modifies `pairs
      ensures pairs == old(pairs)[p := pair] && Ranked(pairs, order)
    {
      pairs := pairs[p := pair];
    }

    /** A success response to a Binding request, for a check or for a server. `symmetric` says whether it came
        from where the check had gone. */
    method OnSuccess(e: nat, symmetric: bool, env: Env)
      requires Ok(env.epoch) && Sane(env) && e < |entries| && entries[e].kind != Relay
      modifies `entries, `pairs, `gatheringDone, `pacAt
      ensures Ok(env.epoch) && SameEntries(old(entries), entries) && |pairs| == |old(pairs)|
      ensures forall i :: 0 <= i < |entries| && i != e ==> entries[i] == old(entries)[i]
      ensures forall p :: 0 <= p < |pairs| && entries[e].pair != Some(p) ==> pairs[p] == old(pairs)[p]
      ensures entries[e].pair.Some? ==>
                var p, q := old(pairs)[entries[e].pair.value], pairs[entries[e].pair.value];
                if p.state == PairSucceeded || symmetric
                then q == p.(state := PairSucceeded, consent := env.clock(0) + CONSENT_TIMEOUT, nominated := p.nominated || p.requested)
                else q == p.(state := PairFailed) && entries[e].state == Failed && entries[e].next == 0
      ensures entries[e].state != Failed ==>
                AnsweredEntry(old(entries), entries, e, selectedPair.None? || !old(pairs)[selectedPair.value].nominated, env)
      ensures entries[e].kind == Server ==>
                && entries[e].state != Failed && pairs == old(pairs)
                && (gatheringDone <==> old(gatheringDone) || NoneGathering(entries))
      ensures entries[e].kind == Check ==> gatheringDone == old(gatheringDone) && pacAt == old(pacAt)
    {
      hide Ranked, AllNear, NoneGathering;
      Answered(e, env);
      if entries[e].kind == Check {
        if entries[e].pair.Some? {
          ghost var e1 := entries;
          PairAnswered(e, symmetric, env);
          SameTransitive(old(entries), e1, entries);
        }
      } else {
        UpdateGathering(env.clock(0));
      }
    }

    /** The entry has been answered, and is kept alive unless the pair in use is nominated. */
    method Answered(e: nat, env: Env)
      requires Ok(env.epoch) && Sane(env) && e < |entries|
      modifies `entries
      ensures Linked(entries, |pairs|) && AllNear(env.epoch, entries) && SameEntries(old(entries), entries)
      ensures forall i :: 0 <= i < |entries| && i != e ==> entries[i] == old(entries)[i]
      ensures AnsweredEntry(old(entries), entries, e, selectedPair.None? || !pairs[selectedPair.value].nominated, env)
      ensures KeptPairsUsableBut(entries, pairs, e)
    {
      hide Ranked;
      ghost var e0 := entries;
      if entries[e].state != Keepalive {
        Replace(e, env.epoch, entries[e].(state := Succeeded, next := 0));
      }
      ghost var e1 := entries;
      if selectedPair.None? || !pairs[selectedPair.value].nominated {
        Replace(e, env.epoch, entries[e].(state := Keepalive));
        ghost var e2 := entries;
        ArmKeepalive(e, env.epoch, env.clock(0), env.period(0));
        SameTransitive(e1, e2, entries);
      }
      SameTransitive(e0, e1, entries);
    }

    method PairAnswered(e: nat, symmetric: bool, env: Env)
      requires Linked(entries, |pairs|) && Ranked(pairs, order) && AllNear(env.epoch, entries) && Sane(env)
      requires e < |entries| && entries[e].pair.Some? && KeptPairsUsableBut(entries, pairs, e)
      requires entries[e].state == Succeeded || entries[e].state == Keepalive
      modifies `entries, `pairs
      ensures |pairs| == |old(pairs)| && Linked(entries, |pairs|) && Ranked(pairs, order) && AllNear(env.epoch, entries)
      ensures KeptPairsUsable(entries, pairs) && SameEntries(old(entries), entries)
      ensures forall i :: 0 <= i < |entries| && i != e ==> entries[i] == old(entries)[i]
      ensures forall p :: 0 <= p < |pairs| && entries[e].pair != Some(p) ==> pairs[p] == old(pairs)[p]
      ensures var p, q := old(pairs)[entries[e].pair.value], pairs[entries[e].pair.value];
              if p.state == PairSucceeded || symmetric
              then q == p.(state := PairSucceeded, consent := env.clock(0) + CONSENT_TIMEOUT, nominated := p.nominated || p.requested)
                   && entries == old(entries)
              else q == p.(state := PairFailed) && entries == old(entries)[e := old(entries)[e].(state := Failed, next := 0)]
    {
      hide Ranked;
      var p := entries[e].pair.value;
      var pair := pairs[p];
      if pair.state != PairSucceeded && !symmetric {
        Replace(e, env.epoch, entries[e].(state := Failed, next := 0));
        SetPair(p, pair.(state := PairFailed));
        return;
      }
      SetPair(p, pair.(state := PairSucceeded, consent := env.clock(0) + CONSENT_TIMEOUT, nominated := pair.nominated || pair.requested));
    }

    /** An error response to a check that cannot be recovered from. */
    method OnError(e: nat, epoch: nat)
      requires Ok(epoch) && e < |entries| && entries[e].kind == Check
      modifies `entries, `pairs
      ensures Ok(epoch) && SameEntries(old(entries), entries)
      ensures entries == old(entries)[e := old(entries)[e].(state := Failed, next := 0)]
      ensures OnlyFailed(old(pairs), pairs) && (entries[e].pair.Some? ==> pairs[entries[e].pair.value].state == PairFailed)
    {
      hide Ranked;
      ghost var p0 := pairs;
      FailEntry(e, epoch);
      FailedStaysRanked(p0, pairs, order);
    }

    /** A Binding request for the pair of a check: it may nominate the pair, and it triggers a check of a pair
        that has not succeeded. */
    method OnRequest(e: nat, useCandidate: bool, env: Env)
      requires Ok(env.epoch) && Sane(env) && e < |entries| && entries[e].pair.Some?
      modifies `entries, `pairs
      ensures Ok(env.epoch) && SameEntries(old(entries), entries) && |pairs| == |old(pairs)|
      ensures forall i :: 0 <= i < |entries| && i != e ==> entries[i] == old(entries)[i]
      ensures forall p :: 0 <= p < |pairs| && entries[e].pair != Some(p) ==> pairs[p] == old(pairs)[p]
      ensures var p, q := old(pairs)[entries[e].pair.value], pairs[entries[e].pair.value];
              && (q.nominated <==> p.nominated || (useCandidate && p.state == PairSucceeded))
              && (q.requested <==> p.requested || (useCandidate && p.state != PairSucceeded))
              && (if p.state == PairSucceeded || !remoteKnown then q.state == p.state && entries == old(entries)
                  else q.state == PairPending && entries[e].state == Pending && FreshlyArmed(entries[e])
                       && Earliest(entries, e, env.clock(0) + PACING_TIME))
    {
      hide Ranked;
      var p := entries[e].pair.value;
      var pair := pairs[p];
      if useCandidate {
        pair := if pair.state == PairSucceeded then pair.(nominated := true) else pair.(requested := true);
      }
      if pair.state != PairSucceeded && remoteKnown {
        SetPair(p, pair.(state := PairPending));
        Trigger(e, PACING_TIME, env);
      } else {
        SameReflexive(entries);
        SetPair(p, pair);
      }
    }

    method Trigger(e: nat, delay: nat, env: Env)
      requires Linked(entries, |pairs|) && AllNear(env.epoch, entries) && Sane(env) && e < |entries| && delay <= SPAN
      modifies `entries
      ensures Linked(entries, |pairs|) && AllNear(env.epoch, entries) && SameEntries(old(entries), entries)
      ensures forall i :: 0 <= i < |entries| && i != e ==> entries[i] == old(entries)[i]
      ensures entries[e].state == Pending && entries[e].expired == old(entries)[e].expired && FreshlyArmed(entries[e])
      ensures Earliest(entries, e, env.clock(0) + delay)
    {
      ghost var e0 := entries;
      Replace(e, env.epoch, entries[e].(state := Pending, timeout := FIRST_TIMEOUT, retransmissions := 0));
      ghost var e1 := entries;
      Arm(e, env.epoch, env.clock(0), delay);
      SameTransitive(e0, e1, entries);
    }

    /** A role-conflict answer to a check: the roles change and the check is sent again. */
    method OnConflict(e: nat, to: Mode, priorities: seq<nat>, order': seq<nat>, env: Env)
      requires Ok(env.epoch) && Sane(env) && |priorities| == |pairs| && e < |entries|
      requires order' == StableSort.Sorted(StableSort.Upto(|pairs|), p => StableSort.Priority(priorities, p))
      modifies `mode, `pairs, `order, `entries
      ensures Ok(env.epoch) && mode == to && order == order' && Priorities(pairs) == priorities
      ensures |entries| == |old(entries)| && entries[e].state == if old(entries)[e].state == Idle then Idle else Pending
      ensures old(entries)[e].state != Idle ==> FreshlyArmed(entries[e]) && Earliest(entries, e, env.clock(0))
      ensures forall i :: 0 <= i < |entries| && entries[i].kind == Check ==> entries[i].expired
      ensures forall i :: 0 <= i < |entries| && i != e ==>
                entries[i] == if old(entries)[i].kind == Check then old(entries)[i].(expired := true) else old(entries)[i]
    {
      hide Ranked, AllNear;
      OnRoleChange(to, priorities, order', env.epoch);
      if entries[e].state != Idle {
        Trigger(e, 0, env);
      }
    }

    /** agent_update_candidate_pairs: the pairs get the priorities of the new role and are ranked again, and no
        transaction of a check is answered any more. */
    method OnRoleChange(to: Mode, priorities: seq<nat>, order': seq<nat>, epoch: nat)
      requires Ok(epoch) && |priorities| == |pairs|
      requires order' == StableSort.Sorted(StableSort.Upto(|pairs|), p => StableSort.Priority(priorities, p))
      modifies `mode, `pairs, `order, `entries
      ensures Ok(epoch) && mode == to && order == order' && Priorities(pairs) == priorities
      ensures |entries| == |old(entries)| && forall i :: 0 <= i < |entries| ==>
                entries[i] == if old(entries)[i].kind == Check then old(entries)[i].(expired := true) else old(entries)[i]
    {
      hide Ranked, AllNear;
      mode := to;
      pairs, order := Reprioritized(pairs, priorities), order';
      assert Priorities(pairs) == priorities;
      SortRanks(pairs, order);
      ExpireChecks(epoch);
    }

    method ExpireChecks(epoch: nat)
      requires Linked(entries, |pairs|) && AllNear(epoch, entries)
      modifies `entries
      ensures Linked(entries, |pairs|) && AllNear(epoch, entries) && SameEntries(old(entries), entries)
      ensures forall i :: 0 <= i < |entries| ==>
                entries[i] == if old(entries)[i].kind == Check then old(entries)[i].(expired := true) else old(entries)[i]
    {
      ghost var before := entries;
      for i := 0 to |entries|
        invariant |entries| == |before|
        invariant forall j :: 0 <= j < i ==> entries[j] == if before[j].kind == Check then before[j].(expired := true) else before[j]
        invariant forall j :: i <= j < |entries| ==> entries[j] == before[j]
      {
        if entries[i].kind == Check {
          entries := entries[i := entries[i].(expired := true)];
        }
      }
      SameStaysLinked(before, entries, |pairs|);
    }

    /** What follows once the pair is chosen. */
    method Decide(nominated: Option<nat>, chosen: Option<nat>, pending: nat, env: Env) returns (wake: nat)
      requires Ok(env.epoch) && Sane(env)
      requires nominated == NominatedIn(pairs, order, |order|) && chosen == ChosenIn(pairs, order, |order|)
      requires pending == 0 <==> (mode == Controlling && nominated.Some?) || NoneChecking(pairs)
      modifies `entries, `pairs, `status, `selectedPair, `selectedEntry, `nominationAt
      ensures Ok(env.epoch) && SameEntries(old(entries), entries)
      ensures ChecksStopped(old(pairs), order) ==> ChecksStopped(pairs, order)
      ensures OnlyRequested(old(pairs), pairs) && LinkedPairs(old(entries), |pairs|) && ApartKept(old(entries), entries, old(pairs))
      ensures Decided(pairs, order, status, selectedPair, selectedEntry) && Maintained(pairs, order, entries, wake)
      ensures ChosenIn(pairs, order, |order|).None? ==>
                if NoneChecking(pairs) && 0 < pacAt <= env.now then status == GaveUp && selectedEntry.None?
                else status == old(status) && selectedEntry == old(selectedEntry)
      ensures ChosenIn(pairs, order, |order|).None? && NoneChecking(pairs) && env.now < pacAt ==> wake <= pacAt
      ensures nominated.None? && chosen.Some? ==>
                Nominating(old(pairs), pairs, entries, chosen.value, mode == Controlling && (NoneChecking(pairs) || 0 < nominationAt <= env.now))
      ensures chosen.Some? && status != GaveUp ==> SwitchedTo(entries, old(selectedPair), selectedPair, selectedEntry)
      ensures wake in {env.now + IDLE_WAKE, nominationAt, pacAt} || HasReason(entries, pairs, chosen, wake)
    {
      hide Ranked, NominatedIn, ChosenIn, ChecksStopped, AllNear, SameEntries, KeepaliveOnlyFor, NoneChecking, InTime, Sane,
           ApartKept, Linked, KeptPairsUsable, SwitchedTo, Nominating, HasReason;
      ApartReflexive(entries, pairs);
      wake := env.now + IDLE_WAKE;
      SameReflexive(entries);
      ChosenExists(pairs, order);
      ChoiceIsHighest(pairs, order);
      if nominated.Some? && pairs[nominated.value].state == PairFailed {
        status := GaveUp;
        selectedEntry := None;
        return;
      }
      if chosen.Some? {
        ghost var p2 := pairs;
        wake := UsePair(nominated, chosen.value, pending, env);
        RequestKeepsChoice(p2, pairs, order);
        RequestKeepsChecking(p2, pairs);
      } else if pending == 0 && pacAt != 0 {
        if env.now >= pacAt {
          status := GaveUp;
          selectedEntry := None;
          return;
        } else if wake > pacAt {
          wake := pacAt;
        }
      }
      wake := Wake(nominated, chosen, wake);
    }

    method Wake(nominated: Option<nat>, chosen: Option<nat>, start: nat) returns (wake: nat)
      requires Linked(entries, |pairs|) && Ranked(pairs, order) && KeptPairsUsable(entries, pairs)
      requires nominated == NominatedIn(pairs, order, |order|) && chosen == ChosenIn(pairs, order, |order|)
      requires nominated.Some? ==> nominated.value < |pairs| && KeepaliveOnlyFor(entries, nominated.value)
      ensures Maintained(pairs, order, entries, wake)
      ensures chosen.None? ==> wake <= start
      ensures wake == start || HasReason(entries, pairs, chosen, wake)
    {
      hide Ranked, NominatedIn, ChosenIn, KeepaliveOnlyFor, InTime, HasReason;
      ChosenExists(pairs, order);
      ChoiceIsHighest(pairs, order);
      KeptMeansChosen(entries, pairs, order);
      wake := NextWake(start, chosen);
      if nominated.Some? {
        KeptCheckIsFor(entries, |pairs|, nominated.value);
        KeptEntry(entries, nominated.value);
      }
    }
  }

  lemma FreeIgnoresSelf(before: seq<Entry>, after: seq<Entry>, e: nat, slot: nat)
    requires e < |before| == |after| && forall i :: 0 <= i < |before| && i != e ==> after[i] == before[i]
    ensures Pacing.IsFree(before, e, slot) ==> Pacing.IsFree(after, e, slot)
  {
    if Pacing.IsFree(before, e, slot) {
      forall j | 0 <= j < |after| ensures !Pacing.Blocks(after, e, j, slot) {
        assert !Pacing.Blocks(before, e, j, slot);
      }
    }
  }

  /** Where an entry stands itself does not matter to the slot it gets. */
  lemma EarliestIgnoresSelf(before: seq<Entry>, after: seq<Entry>, e: nat, start: nat, slot: nat)
    requires e < |before| == |after| && forall i :: 0 <= i < |before| && i != e ==> after[i] == before[i]
    requires start <= slot == after[e].next && Pacing.IsFree(before, e, slot) && Pacing.NoneFree(before, e, start, slot)
    ensures Earliest(after, e, start)
  {
    hide Pacing.IsFree;
    FreeIgnoresSelf(before, after, e, slot);
    forall t | start <= t < slot ensures !Pacing.IsFree(after, e, t) {
      FreeIgnoresSelf(after, before, e, t);
    }
  }

  /** If the pair chosen in the end stands above place k, some pair had been chosen before place k. */
  lemma ChosenBefore(pairs: seq<Pair>, order: seq<nat>, k: nat)
    requires Ranked(pairs, order) && k < |order|
    requires var chosen := ChosenIn(pairs, order, |order|); chosen.Some? && RankedBelow(order, chosen.value, k)
    ensures ChosenIn(pairs, order, k).Some?
  {
    ChosenIsBest(pairs, order, |order|);
    ChosenIsBest(pairs, order, k);
    var chosen := ChosenIn(pairs, order, |order|);
    var i :| 0 <= i < k && order[i] == chosen.value;
    assert Usable(pairs[order[i]]);
  }

  predicate SteppedAll(before: seq<Entry>, after: seq<Entry>, pairs: seq<Pair>, env: Env)
    requires LinkedPairs(before, |pairs|)
  {
    |after| == |before| && forall i :: 0 <= i < |before| && before[i].state != Keepalive ==> Stepped(before[i], after[i], pairs, env, i)
  }

  /** The same, for the entries that acting on the choice leaves alone. */
  predicate SteppedApart(before: seq<Entry>, after: seq<Entry>, pairs: seq<Pair>, env: Env)
    requires LinkedPairs(before, |pairs|)
  {
    |after| == |before| && forall i :: 0 <= i < |before| && Apart(before[i], pairs) && before[i].state != Keepalive ==>
      Stepped(before[i], after[i], pairs, env, i)
  }

  /** A check is stopped by a controlling agent only, and for a pair that is nominated or ranks no lower. */
  predicate StoppedForBetter(before: seq<Pair>, after: seq<Pair>, order: seq<nat>, controlling: bool)
    requires Ranked(after, order)
  {
    var n, c := NominatedIn(after, order, |order|), ChosenIn(after, order, |order|);
    ChosenExists(after, order);
    |after| == |before| && forall p :: 0 <= p < |after| && after[p].state == PairFrozen && before[p].state != PairFrozen ==>
      controlling && c.Some? && (n.Some? || after[c.value].priority >= after[p].priority)
  }

  lemma OnlyStoppedForBetter(before: seq<Pair>, lost: seq<Pair>, after: seq<Pair>, order: seq<nat>, controlling: bool)
    requires Ranked(lost, order) && OnlyFailed(before, lost) && StoppedOnly(lost, after, order, controlling) && OnlyFrozen(lost, after)
    ensures Ranked(after, order) && StoppedForBetter(before, after, order, controlling)
    ensures forall p :: 0 <= p < |after| ==> after[p].requested == before[p].requested
  {
    hide NominatedIn, ChosenIn;
    FrozenKeepsChoice(lost, after, order);
    ChoiceIsHighest(after, order);
    forall p | 0 <= p < |after| && after[p].state == PairFrozen && before[p].state != PairFrozen
      ensures var n, c := NominatedIn(after, order, |order|), ChosenIn(after, order, |order|);
              controlling && c.Some? && (n.Some? || after[c.value].priority >= after[p].priority)
    {
      assert p in order;
      var k :| 0 <= k < |order| && order[k] == p;
      assert GivesWay(lost, order, k, controlling);
    }
  }

  lemma StillStoppedForBetter(before: seq<Pair>, mid: seq<Pair>, after: seq<Pair>, order: seq<nat>, controlling: bool)
    requires Ranked(mid, order) && StoppedForBetter(before, mid, order, controlling) && OnlyRequested(mid, after)
    ensures Ranked(after, order) && StoppedForBetter(before, after, order, controlling)
  {
    hide NominatedIn, ChosenIn;
    RequestKeepsChoice(mid, after, order);
    ChosenExists(mid, order);
  }

  lemma NominatingSince(p0: seq<Pair>, p1: seq<Pair>, p2: seq<Pair>, entries: seq<Entry>, chosen: nat, over: bool)
    requires |p0| == |p1| && forall p :: 0 <= p < |p1| ==> p1[p].requested == p0[p].requested
    requires Nominating(p1, p2, entries, chosen, over)
    ensures Nominating(p0, p2, entries, chosen, over)
  {
  }

  lemma StillGivenUp(entries: seq<Entry>, before: seq<Pair>, after: seq<Pair>, env: Env)
    requires LinkedPairs(entries, |before|) && GivenUp(entries, before, env) && OnlyRequested(before, after)
    ensures GivenUp(entries, after, env)
  {
    hide Tick;
  }

  /** Pairs whose checks are given up have failed. */
  predicate GivenUp(before: seq<Entry>, pairs: seq<Pair>, env: Env)
    requires LinkedPairs(before, |pairs|)
  {
    forall i :: 0 <= i < |before| && before[i].pair.Some? && before[i].state == Pending && Tick(before[i], env.now, env.sent(i)).state == Failed ==>
      pairs[before[i].pair.value].state == PairFailed
  }

  lemma AllStepped(e0: seq<Entry>, p0: seq<Pair>, e1: seq<Entry>, p1: seq<Pair>, e2: seq<Entry>, p2: seq<Pair>, env: Env)
    requires |e0| == |e1| == |e2| && |p0| == |p2| && LinkedPairs(e0, |p0|) && SameEntries(e0, e1) && OnlyFrozen(p1, p2)
    requires forall i :: 0 <= i < |e1| ==> Transmitted(e0[i], Consent(e0[i], p0), e1[i], env, i)
    requires LostWith(p0, e0, p1, e1, |e1|) && LinkedPairs(e1, |p2|) && forall i :: 0 <= i < |e2| ==> e2[i] == Cancelling(e1[i], p2)
    requires Linked(e1, |p2|) && Linked(e2, |p2|) && KeptPairsUsable(e1, p2)
    ensures SteppedAll(e0, e2, p2, env) && GivenUp(e0, p2, env) && KeptPairsUsable(e2, p2)
  {
    forall i | 0 <= i < |e0| && e0[i].pair.Some? && e0[i].state == Pending && Tick(e0[i], env.now, env.sent(i)).state == Failed
      ensures p2[e0[i].pair.value].state == PairFailed
    {
      assert LostIn(e0, e1, e0[i].pair.value, |e1|);
    }
  }

  lemma ApartStepped(e0: seq<Entry>, e1: seq<Entry>, e2: seq<Entry>, p1: seq<Pair>, p2: seq<Pair>, env: Env)
    requires LinkedPairs(e0, |p1|) && LinkedPairs(e1, |p1|) && SameEntries(e0, e1)
    requires SteppedAll(e0, e1, p1, env) && OnlyRequested(p1, p2) && ApartKept(e1, e2, p1)
    ensures LinkedPairs(e0, |p2|) && SteppedApart(e0, e2, p2, env)
  {
  }

  lemma SameReflexive(a: seq<Entry>)
    ensures SameEntries(a, a)
  {
  }

  /** No other entry checks the pair. */
  lemma OwnPair(entries: seq<Entry>, pairs: nat, e: nat)
    requires Linked(entries, pairs) && e < |entries| && entries[e].pair.Some?
    ensures forall i :: 0 <= i < |entries| && i != e ==> entries[i].pair != entries[e].pair
  {
  }

  lemma RequestKeepsChecking(before: seq<Pair>, after: seq<Pair>)
    requires OnlyRequested(before, after)
    ensures NoneChecking(after) <==> NoneChecking(before)
  {
  }

  lemma ApartReflexive(entries: seq<Entry>, pairs: seq<Pair>)
    requires Linked(entries, |pairs|)
    ensures LinkedPairs(entries, |pairs|) && ApartKept(entries, entries, pairs)
  {
  }

  lemma RequestedKeepsUsable(entries: seq<Entry>, pairs: seq<Pair>, p: nat)
    requires Linked(entries, |pairs|) && KeptPairsUsable(entries, pairs) && p < |pairs|
    ensures KeptPairsUsable(entries, pairs[p := pairs[p].(requested := true)])
  {
  }

  lemma SameKeepsPairs(a: seq<Entry>, b: seq<Entry>)
    requires SameEntries(a, b)
    ensures |a| == |b| && forall i :: 0 <= i < |a| ==> b[i].pair == a[i].pair && b[i].relay == a[i].relay
  {
  }

  lemma LinkedRelay(entries: seq<Entry>, pairs: nat, e: nat)
    requires Linked(entries, pairs) && e < |entries|
    ensures entries[e].relay.Some? ==> entries[e].relay.value < |entries|
    ensures entries[e].pair.Some? ==> entries[e].relay != Some(e)
  {
  }

  lemma SameTransitive(a: seq<Entry>, b: seq<Entry>, c: seq<Entry>)
    requires SameEntries(a, b) && SameEntries(b, c)
    ensures SameEntries(a, c)
  {
  }

  /** With one entry for the pair, what is kept is that entry and its relay. */
  lemma AllCompleting(before: seq<Entry>, kept: seq<Entry>, after: seq<Entry>, pairs: nat, nominated: nat, e: Option<nat>, relay: Option<nat>, now: nat)
    requires Linked(before, pairs) && SameEntries(before, kept) && SameEntries(before, after)
    requires e.Some? ==> e.value < |before| && before[e.value].pair == Some(nominated) && relay == before[e.value].relay
    requires e.None? ==> relay.None? && forall i :: 0 <= i < |before| ==> before[i].pair != Some(nominated)
    requires forall i :: 0 <= i < |kept| ==>
               if Some(i) == e || Some(i) == relay then Enabled(before[i], kept[i], now) else kept[i] == before[i]
    requires forall i :: 0 <= i < |after| ==>
               after[i] == if kept[i].state == Keepalive && Some(i) != e && Some(i) != relay then kept[i].(state := Succeeded) else kept[i]
    ensures forall i :: 0 <= i < |after| ==> Completing(before, after, nominated, i, now)
    ensures KeepaliveOnlyFor(after, nominated)
  {
    forall i | 0 <= i < |after|
      ensures Completing(before, after, nominated, i, now)
      ensures after[i].state == Keepalive ==> KeptFor(after, nominated, i)
      ensures after[i].pair == Some(nominated) ==> after[i].state == Keepalive
    {
      KeptIsPath(before, pairs, nominated, e, relay, i);
      KeptIsPath(after, pairs, nominated, e, relay, i);
    }
  }

  lemma KeptIsPath(entries: seq<Entry>, pairs: nat, nominated: nat, e: Option<nat>, relay: Option<nat>, i: nat)
    requires |entries| <= MAX_ENTRIES && i < |entries|
    requires forall j, k :: 0 <= j < k < |entries| && entries[j].pair.Some? ==> entries[k].pair != entries[j].pair
    requires e.Some? ==> e.value < |entries| && entries[e.value].pair == Some(nominated) && relay == entries[e.value].relay
    requires e.None? ==> relay.None? && forall j :: 0 <= j < |entries| ==> entries[j].pair != Some(nominated)
    ensures KeptFor(entries, nominated, i) <==> Some(i) == e || Some(i) == relay
  {
    forall j | 0 <= j < |entries| && entries[j].pair == Some(nominated) ensures e == Some(j) {
    }
    if e.Some? && relay == Some(i) {
      assert entries[e.value].pair == Some(nominated) && entries[e.value].relay == Some(i);
    }
  }

  lemma KeptNominated(entries: seq<Entry>, pairs: seq<Pair>, n: nat)
    requires Linked(entries, |pairs|) && KeepaliveOnlyFor(entries, n) && n < |pairs| && pairs[n].nominated
    ensures KeptPairsUsable(entries, pairs)
  {
    KeptCheckIsFor(entries, |pairs|, n);
  }

  lemma CompletingLeavesApart(before: seq<Entry>, after: seq<Entry>, pairs: seq<Pair>, n: nat, now: nat)
    requires Linked(before, |pairs|) && LinkedPairs(before, |pairs|) && n < |pairs| && pairs[n].nominated
    requires |after| == |before| && forall i :: 0 <= i < |after| ==> Completing(before, after, n, i, now)
    ensures ApartKept(before, after, pairs)
  {
    forall i | 0 <= i < |before| && Apart(before[i], pairs) && before[i].state != Keepalive ensures after[i] == before[i] {
      assert Completing(before, after, n, i, now);
    }
  }

  lemma ConnectingLeavesApart(before: seq<Entry>, after: seq<Entry>, pairs: seq<Pair>, chosen: nat)
    requires LinkedPairs(before, |pairs|) && |after| == |before| && chosen < |pairs| && pairs[chosen].state == PairSucceeded
    requires forall i :: 0 <= i < |after| && before[i].pair == Some(chosen) ==> before[i].kind == Check
    requires forall i :: 0 <= i < |after| && before[i].pair != Some(chosen) ==> after[i] == before[i]
    ensures ApartKept(before, after, pairs)
  {
  }

  lemma StillSwitched(before: seq<Entry>, after: seq<Entry>, was: Option<nat>, is_: Option<nat>, entry: Option<nat>, entry': Option<nat>)
    requires |after| == |before| && SwitchedTo(before, was, is_, entry)
    requires forall i :: 0 <= i < |after| ==> after[i].pair == before[i].pair
    requires forall i :: 0 <= i < |after| && after[i].pair == is_ ==> entry' == entry || entry' == Some(i)
    ensures SwitchedTo(after, was, is_, entry')
  {
  }

  lemma KeptEntry(entries: seq<Entry>, pair: nat)
    requires KeepaliveOnlyFor(entries, pair)
    ensures forall i :: 0 <= i < |entries| && entries[i].pair == Some(pair) ==> entries[i].state == Keepalive
  {
  }
}
