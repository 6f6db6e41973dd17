/** The insertion sort by descending priority that src/ice.c runs on candidates and src/agent.c on pointers
    to pairs. */
module StableSort {
  /** One insertion, from the end: past everything of smaller priority. */
  function Insert<T>(s: seq<T>, x: T, f: T -> nat): seq<T> {
    if s == [] || f(s[|s| - 1]) >= f(x) then s + [x]
    else Insert(s[..|s| - 1], x, f) + [s[|s| - 1]]
  }

  function Sorted<T>(s: seq<T>, f: T -> nat): seq<T> {
    if s == [] then [] else Insert(Sorted(s[..|s| - 1], f), s[|s| - 1], f)
  }

  predicate Descending<T>(s: seq<T>, f: T -> nat) {
    forall i, j :: 0 <= i < j < |s| ==> f(s[i]) >= f(s[j])
  }

  /** The elements of one priority, in order. */
  function OfPriority<T>(s: seq<T>, f: T -> nat, v: nat): seq<T> {
    if s == [] then []
    else OfPriority(s[..|s| - 1], f, v) + if f(s[|s| - 1]) == v then [s[|s| - 1]] else []
  }

  lemma {:induction false} InsertDescends<T>(s: seq<T>, x: T, f: T -> nat)
    requires Descending(s, f)
    ensures Descending(Insert(s, x, f), f) && |Insert(s, x, f)| == |s| + 1
    ensures forall i :: 0 <= i <= |s| ==> f(Insert(s, x, f)[i]) >= (if s == [] || f(x) < f(s[|s| - 1]) then f(x) else f(s[|s| - 1]))
  {
    if s != [] && f(s[|s| - 1]) < f(x) {
      InsertDescends(s[..|s| - 1], x, f);
    }
  }

  lemma {:induction false} SortedDescends<T>(s: seq<T>, f: T -> nat)
    ensures Descending(Sorted(s, f), f) && |Sorted(s, f)| == |s|
  {
    if s != [] {
      SortedDescends(s[..|s| - 1], f);
      InsertDescends(Sorted(s[..|s| - 1], f), s[|s| - 1], f);
    }
  }

  /** A later element of the same priority goes behind the earlier ones. */
  lemma {:induction false} InsertIsStable<T>(s: seq<T>, x: T, f: T -> nat, v: nat)
    requires Descending(s, f)
    ensures OfPriority(Insert(s, x, f), f, v) == OfPriority(s, f, v) + if f(x) == v then [x] else []
  {
    if s == [] || f(s[|s| - 1]) >= f(x) {
      assert (s + [x])[..|s|] == s;
    } else {
      var front, last := s[..|s| - 1], s[|s| - 1];
      InsertIsStable(front, x, f, v);
      assert (Insert(front, x, f) + [last])[..|Insert(front, x, f)|] == Insert(front, x, f);
      if f(x) == v {
        NoneAbove(front, f, v, last);
      }
    }
  }

  lemma NoneAbove<T>(front: seq<T>, f: T -> nat, v: nat, last: T)
    requires f(last) < v
    ensures OfPriority(front + [last], f, v) == OfPriority(front, f, v)
  {
    assert (front + [last])[..|front|] == front;
  }

  /** Sorting keeps the order of elements of equal priority, and so all elements. */
  lemma {:induction false} SortIsStable<T>(s: seq<T>, f: T -> nat, v: nat)
    ensures OfPriority(Sorted(s, f), f, v) == OfPriority(s, f, v)
  {
    if s != [] {
      SortIsStable(s[..|s| - 1], f, v);
      SortedDescends(s[..|s| - 1], f);
      InsertIsStable(Sorted(s[..|s| - 1], f), s[|s| - 1], f, v);
    }
  }

  lemma {:induction false} InsertPermutes<T>(s: seq<T>, x: T, f: T -> nat)
    ensures multiset(Insert(s, x, f)) == multiset(s) + multiset{x}
  {
    if s != [] && f(s[|s| - 1]) < f(x) {
      InsertPermutes(s[..|s| - 1], x, f);
      assert s == s[..|s| - 1] + [s[|s| - 1]];
    }
  }

  lemma {:induction false} SortPermutes<T>(s: seq<T>, f: T -> nat)
    ensures multiset(Sorted(s, f)) == multiset(s)
  {
    hide Insert;
    if s != [] {
      SortPermutes(s[..|s| - 1], f);
      InsertPermutes(Sorted(s[..|s| - 1], f), s[|s| - 1], f);
      assert s == s[..|s| - 1] + [s[|s| - 1]];
    }
  }

  /** The inner loop: smaller elements move up by one and leave a gap. */
  method MoveUp<T>(a: array<T>, i: nat, v: nat, f: T -> nat) returns (j: nat)
    requires i < a.Length
    modifies a
    ensures j <= i && (j == 0 || f(old(a[j - 1])) >= v) && forall k :: j <= k < i ==> f(old(a[k])) < v
    ensures forall k :: 0 <= k < a.Length ==> a[k] == old(if j < k <= i then a[k - 1] else a[k])
  {
    j := i;
    while j > 0 && f(a[j - 1]) < v
      invariant j <= i
      invariant forall k :: j <= k < i ==> f(old(a[k])) < v
      invariant forall k :: 0 <= k < a.Length ==> a[k] == old(if j < k <= i then a[k - 1] else a[k])
    {
      a[j] := a[j - 1];
      j := j - 1;
    }
  }

  method Shift<T>(a: array<T>, i: nat, x: T, f: T -> nat)
    requires i < a.Length
    modifies a
    ensures a[..i + 1] == Insert(old(a[..i]), x, f)
    ensures a[i + 1..] == old(a[i + 1..])
  {
    hide Insert;
    ghost var pre := a[..i];
    var j := MoveUp(a, i, f(x), f);
    InsertAt(pre, x, f, j);
    a[j] := x;
    assert a[..i + 1] == pre[..j] + [x] + pre[j..];
  }

  lemma {:induction false} InsertAt<T>(s: seq<T>, x: T, f: T -> nat, j: nat)
    requires j <= |s| && (j == 0 || f(s[j - 1]) >= f(x)) && forall k :: j <= k < |s| ==> f(s[k]) < f(x)
    ensures Insert(s, x, f) == s[..j] + [x] + s[j..]
  {
    if j < |s| {
      var front := s[..|s| - 1];
      InsertAt(front, x, f, j);
      assert s[..j] == front[..j] && s[j..] == front[j..] + [s[|s| - 1]];
    } else {
      assert s[..j] == s && s[j..] == [];
    }
  }

  /** ice_sort_candidates. */
  method SortInPlace<T>(a: array<T>, f: T -> nat)
    modifies a
    ensures a[..] == Sorted(old(a[..]), f)
  {
    ghost var s := a[..];
    var i := 0;
    while i < a.Length
      invariant 0 <= i <= a.Length
      invariant a[..i] == Sorted(s[..i], f) && a[i..] == s[i..]
    {
      assert s[..i + 1][..i] == s[..i];
      assert a[i] == a[i..][0] == s[i];
      assert a[i + 1..] == a[i..][1..];
      Shift(a, i, a[i], f);
      assert s[i..][1..] == s[i + 1..];
      i := i + 1;
    }
    assert s[..i] == s && a[..i] == a[..];
  }

  function Upto(n: nat): (s: seq<nat>)
    ensures |s| == n && forall i :: 0 <= i < n ==> s[i] == i
  {
    seq(n, i => i)
  }

  /** agent_update_ordered_pairs: the positions of the pairs, inserted one after the other. */
  method RankPairs(priorities: seq<nat>, ordered: array<nat>)
    requires |priorities| <= ordered.Length
    modifies ordered
    ensures ordered[..|priorities|] == Sorted(Upto(|priorities|), p => Priority(priorities, p))
  {
    ghost var n := |priorities|;
    var f := p => Priority(priorities, p);
    for i := 0 to |priorities|
      invariant ordered[..i] == Sorted(Upto(i), f)
    {
      assert Upto(i + 1)[..i] == Upto(i);
      Shift(ordered, i, i, f);
    }
  }

  function Priority(priorities: seq<nat>, p: nat): nat {
    if p < |priorities| then priorities[p] else 0
  }

  /** The order it produces: every pair once, by descending priority, pairs of equal priority as they were
      added. */
  lemma RankedPairs(priorities: seq<nat>, order: seq<nat>)
    requires order == Sorted(Upto(|priorities|), p => Priority(priorities, p))
    ensures |order| == |priorities|
    ensures forall i :: 0 <= i < |order| ==> order[i] < |priorities|
    ensures forall p :: 0 <= p < |priorities| ==> p in order
    ensures forall i, j :: 0 <= i < j < |order| ==> order[i] != order[j]
    ensures forall i, j :: 0 <= i < j < |order| ==> priorities[order[i]] >= priorities[order[j]]
  {
    var f := p => Priority(priorities, p);
    SortedDescends(Upto(|priorities|), f);
    SortPermutes(Upto(|priorities|), f);
    IndicesOnce(order, |priorities|);
    assert forall i :: 0 <= i < |order| ==> f(order[i]) == priorities[order[i]];
  }

  lemma IndicesOnce(order: seq<nat>, n: nat)
    requires multiset(order) == multiset(Upto(n))
    ensures forall i :: 0 <= i < |order| ==> order[i] < n
    ensures forall p :: 0 <= p < n ==> p in order
    ensures forall i, j :: 0 <= i < j < |order| ==> order[i] != order[j]
  {
    forall i | 0 <= i < |order| ensures order[i] < n {
      assert order[i] in multiset(order);
      UptoOnce(n, order[i]);
    }
    forall p | 0 <= p < n ensures p in order {
      UptoOnce(n, p);
      assert p in multiset(order);
    }
    forall i, j | 0 <= i < j < |order| ensures order[i] != order[j] {
      UptoOnce(n, order[i]);
      OnceApart(order, i, j);
    }
  }

  lemma {:induction false} UptoOnce(n: nat, p: nat)
    ensures multiset(Upto(n))[p] == if p < n then 1 else 0
  {
    if n > 0 {
      UptoOnce(n - 1, p);
      assert Upto(n) == Upto(n - 1) + [n - 1];
    }
  }

  lemma OnceApart(s: seq<nat>, i: nat, j: nat)
    requires i < j < |s| && multiset(s)[s[i]] == 1
    ensures s[i] != s[j]
  {
    assert s == s[..j] + [s[j]] + s[j + 1..];
    assert s[i] in s[..j];
    assert s[i] in multiset(s[..j]);
  }
}
