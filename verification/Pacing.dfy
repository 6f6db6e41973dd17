/** The search for a transmission slot at the end of agent_arm_transmission: transmissions of different
    entries are kept 50 ms apart. */
module Pacing {
  import opened Basics
  import opened AgentState

  const PACING_TIME := 50
  const INT_LIMIT := 0x8000_0000

  /** The cast of a time difference to an int. */
  function ToInt(d: int): int {
    (d + INT_LIMIT) % (2 * INT_LIMIT) - INT_LIMIT
  }

  function Distance(a: int, b: int): nat {
    if a < b then b - a else a - b
  }

  /** Entry j, other than e, has a transmission due. */
  predicate Armed(entries: seq<Entry>, e: nat, j: int) {
    0 <= j < |entries| && j != e && entries[j].next != 0
  }

  /** And it is due within the pacing time of t. */
  predicate Blocks(entries: seq<Entry>, e: nat, j: int, t: int) {
    Armed(entries, e, j) && Distance(t, entries[j].next) < PACING_TIME
  }

  ghost predicate IsFree(entries: seq<Entry>, e: nat, t: int) {
    forall j :: 0 <= j < |entries| ==> !Blocks(entries, e, j, t)
  }

  ghost predicate NoneFree(entries: seq<Entry>, e: nat, from: int, to: int) {
    forall t :: from <= t < to ==> !IsFree(entries, e, t)
  }

  /** The differences the search can meet fit an int. */
  ghost predicate InRange(entries: seq<Entry>, e: nat, start: int) {
    forall j :: Armed(entries, e, j) ==> Distance(start, entries[j].next) + 100 * |entries| < INT_LIMIT
  }

  lemma CastIsExact(d: int)
    requires -INT_LIMIT < d < INT_LIMIT
    ensures ToInt(d) == d
  {
  }

  ghost function Others(n: nat, e: nat): (s: set<nat>)
    requires e < n
    ensures |s| == n - 1
    ensures forall j: nat :: j in s <==> j < n && j != e
  {
    Below(n) - {e}
  }

  /** The search restarts from the first entry after every move. It ends because an entry that has pushed
      the slot once lies 50 ms before it for good, and ends at the earliest free slot: everything a push
      skips is within 50 ms of the entry that pushes. */
  method FindSlot(entries: seq<Entry>, e: nat, start: nat) returns (slot: nat, ghost pushed: set<nat>)
    requires e < |entries| && InRange(entries, e, start)
    ensures slot >= start && IsFree(entries, e, slot) && NoneFree(entries, e, start, slot)
    ensures slot - start <= 99 * |pushed| && |pushed| < |entries|
    ensures forall j :: j in pushed ==> Armed(entries, e, j)
  {
    hide NoneFree;
    slot := start;
    pushed := {};
    var other := 0;
    ghost var others := Others(|entries|, e);
    NothingSkipped(entries, e, start);
    while other != |entries|
      invariant other <= |entries| && slot >= start
      invariant pushed <= others && |pushed| <= |others| && slot - start <= 99 * |pushed|
      invariant forall j :: j in pushed ==> Armed(entries, e, j) && entries[j].next + PACING_TIME <= slot
      invariant NoneFree(entries, e, start, slot)
      invariant forall j :: 0 <= j < other ==> !Blocks(entries, e, j, slot)
      decreases |others| - |pushed|, |entries| - other
    {
      if other != e {
        var next := entries[other].next;
        InRangeHere(entries, e, start, slot, |pushed|, other);
        if next != 0 && Distance(0, ToInt(slot - next)) < PACING_TIME {
          PushSkipsNothing(entries, e, start, slot, other);
          SubsetSize(pushed + {other}, others);
          slot := next + PACING_TIME;
          pushed := pushed + {other};
          other := 0;
          continue;
        }
      }
      other := other + 1;
    }
  }

  lemma InRangeHere(entries: seq<Entry>, e: nat, start: int, slot: int, pushes: nat, other: nat)
    requires InRange(entries, e, start) && start <= slot <= start + 99 * pushes && pushes < |entries| && other < |entries| && other != e
    ensures entries[other].next != 0 ==> ToInt(slot - entries[other].next) == slot - entries[other].next
  {
    if entries[other].next != 0 {
      assert Armed(entries, e, other);
      CastIsExact(slot - entries[other].next);
    }
  }

  lemma NothingSkipped(entries: seq<Entry>, e: nat, start: int)
    ensures NoneFree(entries, e, start, start)
  {
  }

  lemma PushSkipsNothing(entries: seq<Entry>, e: nat, start: int, slot: int, other: nat)
    requires Blocks(entries, e, other, slot) && NoneFree(entries, e, start, slot)
    ensures NoneFree(entries, e, start, entries[other].next + PACING_TIME)
  {
    forall t | start <= t < entries[other].next + PACING_TIME ensures !IsFree(entries, e, t) {
      if t >= slot {
        assert Blocks(entries, e, other, t);
      }
    }
  }

  /** The slot does not depend on the order in which the search meets the entries. */
  lemma SlotIsUnique(entries: seq<Entry>, e: nat, start: int, a: int, b: int)
    requires a >= start && IsFree(entries, e, a) && NoneFree(entries, e, start, a)
    requires b >= start && IsFree(entries, e, b) && NoneFree(entries, e, start, b)
    ensures a == b
  {
  }
}
