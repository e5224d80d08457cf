/** Which free slot the allocator hands out does not matter: memories that hold the
    same packets differ only by a renaming of slots. */
module SlotRenaming {
  import opened Options
  import opened MemPool
  import opened RxQueue
  import opened RxRuns

  /** b renames slot i to b[i]; it is a bijection on the slots below |b|. */
  ghost predicate IsRenaming(b: seq<nat>) {
    Distinct(b) && forall i :: 0 <= i < |b| ==> b[i] < |b|
  }

  function Renamed(b: seq<nat>, p: Ptr): Ptr {
    if InPool(|b|, p) then At(b[p.index]) else Null
  }

  /** q2 is q1 with its slots renamed. The contents of free slots do not count. */
  ghost predicate SameUpTo<P>(b: seq<nat>, q1: Queue<P>, q2: Queue<P>) {
    && IsRenaming(b) && |b| == |q1.slots| == |q2.slots|
    && q2.cnt == q1.cnt && q2.head == Renamed(b, q1.head)
    && (forall i :: 0 <= i < |b| ==> q2.slots[b[i]].state == q1.slots[i].state)
    && (forall i :: 0 <= i < |b| && q1.slots[i].state == Acquired ==>
          q2.slots[b[i]].pbuf == q1.slots[i].pbuf && q2.slots[b[i]].next == Renamed(b, q1.slots[i].next))
  }

  ghost predicate Below(n: nat, c: seq<nat>) {
    Distinct(c) && forall k :: 0 <= k < |c| ==> c[k] < n
  }

  lemma SomeSlotLeft(n: nat, c: seq<nat>) returns (i: nat)
    requires Below(n, c) && |c| < n
    ensures i < n && i !in c
  {
    DistinctSize(c);
    BelowSize(n, Elements(c));
    i :| i < n && i !in Elements(c);
  }

  /** Two lists of distinct slots of equal length are related by a renaming of all slots. */
  lemma {:induction false} ExtendToRenaming(n: nat, c1: seq<nat>, c2: seq<nat>) returns (b: seq<nat>)
    requires Below(n, c1) && Below(n, c2) && |c1| == |c2|
    ensures IsRenaming(b) && |b| == n
    ensures forall k :: 0 <= k < |c1| ==> b[c1[k]] == c2[k]
    decreases n - |c1|
  {
    DistinctSize(c1);
    BelowSize(n, Elements(c1));
    if |c1| < n {
      var i := SomeSlotLeft(n, c1);
      var j := SomeSlotLeft(n, c2);
      b := ExtendToRenaming(n, c1 + [i], c2 + [j]);
      assert forall k :: 0 <= k < |c1| ==> (c1 + [i])[k] == c1[k] && (c2 + [j])[k] == c2[k];
    } else {
      b := FullRenaming(n, c1, c2);
    }
  }

  lemma FullRenaming(n: nat, c1: seq<nat>, c2: seq<nat>) returns (b: seq<nat>)
    requires Below(n, c1) && Below(n, c2) && |c1| == |c2| == n
    ensures IsRenaming(b) && |b| == n
    ensures forall k :: 0 <= k < |c1| ==> b[c1[k]] == c2[k]
  {
    DistinctSize(c1);
    BelowSize(n, Elements(c1));
    forall i: nat | i < n
      ensures i in c1
    {
      assert i in Elements(c1);
    }
    var at := seq(n, i requires 0 <= i < n => IndexOf(c1, i));
    b := seq(n, i requires 0 <= i < n => c2[at[i]]);
  }

  ghost function IndexOf(c: seq<nat>, i: nat): (k: nat)
    requires i in c
    ensures k < |c| && c[k] == i
  {
    var k :| 0 <= k < |c| && c[k] == i; k
  }

  lemma AcquiredSlotsMatch<P>(q1: Queue<P>, q2: Queue<P>, b: seq<nat>, k: nat)
    requires Wf(true, q1) && Wf(true, q2) && |q1.slots| == |q2.slots| == |b|
    requires Contents(true, q1) == Contents(true, q2) && k < |Chain(q1)|
    requires forall k :: 0 <= k < |Chain(q1)| ==> b[Chain(q1)[k]] == Chain(q2)[k]
    ensures var i, j := Chain(q1)[k], Chain(q2)[k];
            && q2.slots[j].state == q1.slots[i].state && q2.slots[j].pbuf == q1.slots[i].pbuf
            && q2.slots[j].next == Renamed(b, q1.slots[i].next)
  {
    var c1, c2 := Chain(q1), Chain(q2);
    assert Contents(true, q1)[k] == Contents(true, q2)[k];
    if k + 1 < |c1| {
      assert q1.slots[c1[k]].next == At(c1[k + 1]) && q2.slots[c2[k]].next == At(c2[k + 1]);
    }
  }

  lemma FreeSlotsMatch<P>(q1: Queue<P>, q2: Queue<P>, b: seq<nat>, i: nat)
    requires Wf(true, q1) && Wf(true, q2) && |q1.slots| == |q2.slots| == |b|
    requires IsRenaming(b) && |Chain(q1)| == |Chain(q2)|
    requires forall k :: 0 <= k < |Chain(q1)| ==> b[Chain(q1)[k]] == Chain(q2)[k]
    requires i < |b| && i !in Chain(q1)
    ensures q1.slots[i].state == Free && q2.slots[b[i]].state == Free
  {
    assert i !in Out(q1.slots);
    forall k | 0 <= k < |Chain(q2)|
      ensures Chain(q2)[k] != b[i]
    {
      assert Chain(q1)[k] != i && b[Chain(q1)[k]] == Chain(q2)[k];
    }
    assert b[i] !in Out(q2.slots);
  }

  /** A well-formed queue is determined by its packets, up to a renaming of slots. */
  lemma SamePacketsSameMemory<P>(q1: Queue<P>, q2: Queue<P>)
    requires Wf(true, q1) && Wf(true, q2) && |q1.slots| == |q2.slots|
    requires Contents(true, q1) == Contents(true, q2)
    ensures exists b :: SameUpTo(b, q1, q2)
  {
    var c1, c2 := Chain(q1), Chain(q2);
    RepairedView(q1);
    RepairedView(q2);
    var b := ExtendToRenaming(|q1.slots|, c1, c2);
    forall i: nat | i < |b|
      ensures q2.slots[b[i]].state == q1.slots[i].state
      ensures q1.slots[i].state == Acquired ==>
                q2.slots[b[i]].pbuf == q1.slots[i].pbuf && q2.slots[b[i]].next == Renamed(b, q1.slots[i].next)
    {
      if i in c1 {
        var k :| 0 <= k < |c1| && c1[k] == i;
        AcquiredSlotsMatch(q1, q2, b, k);
      } else {
        FreeSlotsMatch(q1, q2, b, i);
      }
    }
    assert SameUpTo(b, q1, q2);
  }

  lemma FirstFitIsAPolicy<P(!new)>()
    ensures IsPolicy<P>((t, slots) => LowestFree(slots))
  {
  }

  /** Two runs of the same pushes and pops under any two slot policies, from memories
      that hold the same packets, return identical answers and stay related by a
      renaming of slots. */
  lemma PolicyIndependence<P(!new)>(f: Policy<P>, g: Policy<P>, q1: Queue<P>, q2: Queue<P>, ops: seq<Op<P>>)
    requires IsPolicy(f) && IsPolicy(g) && Wf(true, q1) && Wf(true, q2)
    requires |q1.slots| == |q2.slots| && Contents(true, q1) == Contents(true, q2)
    ensures Run(true, f, 0, q1, ops).1 == Run(true, g, 0, q2, ops).1
    ensures exists b :: SameUpTo(b, Run(true, f, 0, q1, ops).0, Run(true, g, 0, q2, ops).0)
  {
    RepairedIsFifo(f, 0, q1, ops);
    RepairedIsFifo(g, 0, q2, ops);
    SamePacketsSameMemory(Run(true, f, 0, q1, ops).0, Run(true, g, 0, q2, ops).0);
  }

  lemma FifoOne<P>(n: nat, s: seq<P>, op: Op<P>)
    ensures FifoRun(n, s, [op]) == (FifoStep(n, s, op).0, [FifoStep(n, s, op).1])
  {
    assert [op][1..] == [];
    assert FifoRun(n, s, [op]).1 == [FifoStep(n, s, op).1];
  }

  lemma FifoCommute<P>(n: nat, s: seq<P>, p: P)
    requires 0 < |s| < n
    ensures FifoRun(n, s, [PushOp(p), PopOp]) == (s[1..] + [p], [Pushed(true), Popped(Some(s[0]))])
    ensures FifoRun(n, s, [PopOp, PushOp(p)]) == (s[1..] + [p], [Popped(Some(s[0])), Pushed(true)])
  {
    assert (s + [p])[1..] == s[1..] + [p];
    FifoOne(n, s + [p], PopOp);
    FifoOne(n, s[1..], PushOp(p));
    assert [PushOp(p), PopOp][1..] == [PopOp] && [PopOp, PushOp(p)][1..] == [PushOp(p)];
    assert FifoRun(n, s, [PushOp(p), PopOp]).1 == [Pushed(true), Popped(Some(s[0]))];
    assert FifoRun(n, s, [PopOp, PushOp(p)]).1 == [Popped(Some(s[0])), Pushed(true)];
  }

  /** On a queue that is neither empty nor full a push and a pop commute: the push is
      accepted and the pop returns the same packet in either order, and the memories
      agree up to a renaming of slots. */
  lemma PushPopCommute<P(!new)>(f: Policy<P>, q: Queue<P>, p: P)
    requires IsPolicy(f) && Wf(true, q) && 0 < |Contents(true, q)| < |q.slots|
    ensures var first := Contents(true, q)[0];
            && Run(true, f, 0, q, [PushOp(p), PopOp]).1 == [Pushed(true), Popped(Some(first))]
            && Run(true, f, 0, q, [PopOp, PushOp(p)]).1 == [Popped(Some(first)), Pushed(true)]
    ensures exists b :: SameUpTo(b, Run(true, f, 0, q, [PushOp(p), PopOp]).0,
                                    Run(true, f, 0, q, [PopOp, PushOp(p)]).0)
  {
    FifoCommute(|q.slots|, Contents(true, q), p);
    RepairedIsFifo(f, 0, q, [PushOp(p), PopOp]);
    RepairedIsFifo(f, 0, q, [PopOp, PushOp(p)]);
    SamePacketsSameMemory(Run(true, f, 0, q, [PushOp(p), PopOp]).0, Run(true, f, 0, q, [PopOp, PushOp(p)]).0);
  }
}
