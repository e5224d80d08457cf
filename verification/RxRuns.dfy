/** Whole runs of the receive queue: any sequence of pushes and pops, any pool size,
    any rule for choosing a free slot. */
module RxRuns {
  import opened Options
  import opened MemPool
  import opened RxQueue

  datatype Op<+P> = PushOp(p: P) | PopOp
  datatype Outcome<+P> = Pushed(accepted: bool) | Popped(r: Option<P>)

  /** Which free slot push number t takes, given the memory. The code's own rule is
      first fit. */
  type Policy<!P> = (nat, seq<Slot<P>>) -> Ptr

  ghost predicate IsPolicy<P(!new)>(f: Policy<P>) {
    forall t, slots :: LegalChoice(slots, f(t, slots))
  }

  ghost function Step<P>(link: bool, at: Ptr, q: Queue<P>, op: Op<P>): (Queue<P>, Outcome<P>)
    requires LegalChoice(q.slots, at)
  {
    match op
    case PushOp(p) => var (q', accepted) := Push(link, at, q, p); (q', Pushed(accepted))
    case PopOp => var (q', r) := Pop(q); (q', Popped(r))
  }

  ghost function Run<P(!new)>(link: bool, f: Policy<P>, t: nat, q: Queue<P>, ops: seq<Op<P>>)
    : (Queue<P>, seq<Outcome<P>>)
    requires IsPolicy(f)
    decreases |ops|
  {
    if ops == [] then (q, [])
    else
      var (q1, out) := Step(link, f(t, q.slots), q, ops[0]);
      var (q2, outs) := Run(link, f, t + 1, q1, ops[1..]);
      (q2, [out] + outs)
  }

  function AbsStep<P>(link: bool, n: nat, v: View<P>, op: Op<P>): (View<P>, Outcome<P>) {
    match op
    case PushOp(p) => var (v', accepted) := AbsPush(link, n, v, p); (v', Pushed(accepted))
    case PopOp => var (v', r) := AbsPop(v); (v', Popped(r))
  }

  function AbsRun<P>(link: bool, n: nat, v: View<P>, ops: seq<Op<P>>): (View<P>, seq<Outcome<P>>)
    decreases |ops|
  {
    if ops == [] then (v, [])
    else
      var (v1, out) := AbsStep(link, n, v, ops[0]);
      var (v2, outs) := AbsRun(link, n, v1, ops[1..]);
      (v2, [out] + outs)
  }

  /** The bounded sequence that the queue is meant to be. */
  function FifoStep<P>(n: nat, s: seq<P>, op: Op<P>): (seq<P>, Outcome<P>) {
    match op
    case PushOp(p) => if |s| < n then (s + [p], Pushed(true)) else (s, Pushed(false))
    case PopOp => if s == [] then (s, Popped(None)) else (s[1..], Popped(Some(s[0])))
  }

  function FifoRun<P>(n: nat, s: seq<P>, ops: seq<Op<P>>): (seq<P>, seq<Outcome<P>>)
    decreases |ops|
  {
    if ops == [] then (s, [])
    else
      var (s1, out) := FifoStep(n, s, ops[0]);
      var (s2, outs) := FifoRun(n, s1, ops[1..]);
      (s2, [out] + outs)
  }

  // ---------------------------------------------------------------------------
  // The linked list in the pool, for every run

  lemma StepRefines<P>(link: bool, at: Ptr, q: Queue<P>, op: Op<P>)
    requires Wf(link, q) && LegalChoice(q.slots, at)
    ensures var (q', out) := Step(link, at, q, op);
            && Wf(link, q') && |q'.slots| == |q.slots|
            && (Abs(link, q'), out) == AbsStep(link, |q.slots|, Abs(link, q), op)
  {
    match op
    case PushOp(p) => PushRefines(link, at, q, p);
    case PopOp => PopRefines(link, q);
  }

  /** The representation invariant survives every run, through any recycling of slots,
      and the run's answers are those of the abstract queue. */
  lemma {:induction false} RunRefines<P(!new)>(link: bool, f: Policy<P>, t: nat, q: Queue<P>, ops: seq<Op<P>>)
    requires IsPolicy(f) && Wf(link, q)
    ensures var (q', outs) := Run(link, f, t, q, ops);
            && Wf(link, q') && |q'.slots| == |q.slots|
            && (Abs(link, q'), outs) == AbsRun(link, |q.slots|, Abs(link, q), ops)
    decreases |ops|
  {
    if ops != [] {
      var at := f(t, q.slots);
      StepRefines(link, at, q, ops[0]);
      RunRefines(link, f, t + 1, Step(link, at, q, ops[0]).0, ops[1..]);
    }
  }

  /** With the tail link repaired nothing is lost and the counter is the length. */
  lemma RepairedView<P>(q: Queue<P>)
    requires Wf(true, q)
    ensures var s := Contents(true, q);
            && Abs(true, q) == View(s, 0, |s|)
            && |Out(q.slots)| == |s| <= |q.slots|
            && (s == [] <==> q.head == Null)
  {
    RepAbs(true, q, Chain(q));
    assert Out(q.slots) - Elements(Chain(q)) == {};
  }

  lemma {:induction false} AbsRunIsFifo<P>(n: nat, s: seq<P>, ops: seq<Op<P>>)
    ensures var (s', outs) := FifoRun(n, s, ops);
            AbsRun(true, n, View(s, 0, |s|), ops) == (View(s', 0, |s'|), outs)
    decreases |ops|
  {
    if ops != [] {
      AbsRunIsFifo(n, FifoStep(n, s, ops[0]).0, ops[1..]);
    }
  }

  /** FIFO refinement: for every pool size, policy, starting queue and run, the repaired
      queue answers exactly as the bounded sequence of its packets does, and holds
      exactly that sequence afterwards. */
  lemma RepairedIsFifo<P(!new)>(f: Policy<P>, t: nat, q: Queue<P>, ops: seq<Op<P>>)
    requires IsPolicy(f) && Wf(true, q)
    ensures var (q', outs) := Run(true, f, t, q, ops);
            && Wf(true, q') && |q'.slots| == |q.slots|
            && (Contents(true, q'), outs) == FifoRun(|q.slots|, Contents(true, q), ops)
            && q'.cnt == |Contents(true, q')| == |Out(q'.slots)|
  {
    RunRefines(true, f, t, q, ops);
    RepairedView(q);
    RepairedView(Run(true, f, t, q, ops).0);
    AbsRunIsFifo(|q.slots|, Contents(true, q), ops);
  }

  // ---------------------------------------------------------------------------
  // Draining

  function Pops<P>(k: nat): seq<Op<P>> {
    seq(k, _ => PopOp)
  }

  lemma {:induction false} FifoDrain<P>(n: nat, s: seq<P>, k: nat)
    ensures var (s', outs) := FifoRun(n, s, Pops(k));
            && s' == (if k <= |s| then s[k..] else [])
            && |outs| == k
            && forall j :: 0 <= j < k ==> outs[j] == Popped(if j < |s| then Some(s[j]) else None)
  {
    if k > 0 {
      var s1 := if s == [] then s else s[1..];
      FifoDrain(n, s1, k - 1);
      assert Pops<P>(k)[1..] == Pops<P>(k - 1);
      var outs, rest := FifoRun(n, s, Pops(k)).1, FifoRun(n, s1, Pops(k - 1)).1;
      assert outs == [FifoStep(n, s, PopOp).1] + rest;
    }
  }

  /** From a queue of k packets the first k pops return them in order, the next returns
      NULL, and then the head is NULL, the counter is 0 and every slot is free. */
  lemma Drain<P(!new)>(f: Policy<P>, t: nat, q: Queue<P>)
    requires IsPolicy(f) && Wf(true, q)
    ensures var s := Contents(true, q);
            var (q', outs) := Run(true, f, t, q, Pops(|s| + 1));
            && |outs| == |s| + 1 && outs[|s|] == Popped(None)
            && (forall j :: 0 <= j < |s| ==> outs[j] == Popped(Some(s[j])))
            && q'.head == Null && q'.cnt == 0
            && forall i :: 0 <= i < |q'.slots| ==> q'.slots[i].state == Free
  {
    var s := Contents(true, q);
    var q' := Run(true, f, t, q, Pops(|s| + 1)).0;
    RepairedIsFifo(f, t, q, Pops(|s| + 1));
    FifoDrain(|q.slots|, s, |s| + 1);
    RepairedView(q');
    assert Out(q'.slots) == {};
    forall i | 0 <= i < |q'.slots|
      ensures q'.slots[i].state == Free
    {
      assert i !in Out(q'.slots);
    }
  }

  // ---------------------------------------------------------------------------
  // The queue as written

  function Accepted<P>(outs: seq<Outcome<P>>): nat {
    if outs == [] then 0
    else (if outs[0] == Pushed(true) then 1 else 0) + Accepted(outs[1..])
  }

  function Returned<P>(outs: seq<Outcome<P>>): nat {
    if outs == [] then 0
    else (if outs[0].Popped? && outs[0].r.Some? then 1 else 0) + Returned(outs[1..])
  }

  /** Pushes that take a slot while the list is not empty. */
  function Strandings<P>(n: nat, v: View<P>, ops: seq<Op<P>>): nat
    decreases |ops|
  {
    if ops == [] then 0
    else
      (if ops[0].PushOp? && v.packets != [] && |v.packets| + v.lost < n then 1 else 0)
      + Strandings(n, AbsStep(false, n, v, ops[0]).0, ops[1..])
  }

  /** Pops that find the counter positive and the head NULL. */
  function IdlePops<P>(n: nat, v: View<P>, ops: seq<Op<P>>): nat
    decreases |ops|
  {
    if ops == [] then 0
    else
      (if ops[0].PopOp? && v.packets == [] && v.cnt > 0 then 1 else 0)
      + IdlePops(n, AbsStep(false, n, v, ops[0]).0, ops[1..])
  }

  /** The view of a queue of n slots: never more packets and lost slots than slots, and
      a counter between the two. */
  ghost predicate Sane<P>(n: nat, v: View<P>) {
    |v.packets| <= v.cnt <= |v.packets| + v.lost <= n
  }

  lemma {:induction false} LedgerOfViews<P>(n: nat, v: View<P>, ops: seq<Op<P>>)
    requires Sane(n, v) && |v.packets| <= 1
    ensures var (v', outs) := AbsRun(false, n, v, ops);
            && Sane(n, v') && |v'.packets| <= 1
            && v'.lost == v.lost + Strandings(n, v, ops)
            && |v'.packets| + v'.lost - v'.cnt == |v.packets| + v.lost - v.cnt + IdlePops(n, v, ops)
            && |v'.packets| + v'.lost + Returned(outs) == |v.packets| + v.lost + Accepted(outs)
    decreases |ops|
  {
    if ops != [] {
      var (v1, out) := AbsStep(false, n, v, ops[0]);
      LedgerOfViews(n, v1, ops[1..]);
      assert ([out] + AbsRun(false, n, v1, ops[1..]).1)[1..] == AbsRun(false, n, v1, ops[1..]).1;
    }
  }

  lemma {:induction false} WedgeOfViews<P>(n: nat, v: View<P>, ops: seq<Op<P>>)
    requires Sane(n, v) && v.lost == n
    ensures var (v', outs) := AbsRun(false, n, v, ops);
            && v'.lost == n && v'.packets == []
            && Accepted(outs) == 0 && Returned(outs) == 0
    decreases |ops|
  {
    if ops != [] {
      var (v1, out) := AbsStep(false, n, v, ops[0]);
      WedgeOfViews(n, v1, ops[1..]);
      assert ([out] + AbsRun(false, n, v1, ops[1..]).1)[1..] == AbsRun(false, n, v1, ops[1..]).1;
    }
  }

  lemma ViewIsSane<P>(q: Queue<P>)
    requires Wf(false, q)
    ensures Sane(|q.slots|, Abs(false, q)) && |Contents(false, q)| <= 1
    ensures |Contents(false, q)| + |Stranded(q)| == |Out(q.slots)|
  {
    RepAbs(false, q, Chain(q));
  }

  /** Whole-run ledger of the code as written, in any reachable memory: the list never
      exceeds one node and every `next` stays NULL; the stranded slots only grow, by one
      for every push that meets a non-empty list; acquired slots equal the counter plus
      the idle pops; every accepted packet is returned, still listed or stranded. Once
      all slots are stranded no push is accepted and no pop returns a packet, for good. */
  lemma AsWrittenLedger<P(!new)>(f: Policy<P>, t: nat, q: Queue<P>, ops: seq<Op<P>>)
    requires IsPolicy(f) && Wf(false, q)
    ensures var (q', outs) := Run(false, f, t, q, ops);
            var n, v := |q.slots|, Abs(false, q);
            && Wf(false, q') && |Chain(q')| <= 1
            && (forall i :: 0 <= i < |q'.slots| ==> q'.slots[i].next == Null)
            && |Stranded(q')| == |Stranded(q)| + Strandings(n, v, ops)
            && |Out(q'.slots)| - q'.cnt == |Out(q.slots)| - q.cnt + IdlePops(n, v, ops)
            && |Out(q'.slots)| + Returned(outs) == |Out(q.slots)| + Accepted(outs)
            && (|Stranded(q)| == n ==> Accepted(outs) == 0 && Returned(outs) == 0)
  {
    var n, v := |q.slots|, Abs(false, q);
    RunRefines(false, f, t, q, ops);
    ViewIsSane(q);
    ViewIsSane(Run(false, f, t, q, ops).0);
    LedgerOfViews(n, v, ops);
    if |Stranded(q)| == n {
      WedgeOfViews(n, v, ops);
    }
  }

  /** Every push finds the queue either empty or full. */
  predicate EmptyOrFullAtPushes<P>(n: nat, s: seq<P>, ops: seq<Op<P>>)
    decreases |ops|
  {
    ops == [] ||
    ((ops[0].PushOp? ==> s == [] || |s| >= n) &&
     EmptyOrFullAtPushes(n, FifoStep(n, s, ops[0]).0, ops[1..]))
  }

  lemma {:induction false} StrandingsOrFifo<P>(n: nat, s: seq<P>, ops: seq<Op<P>>)
    requires |s| <= 1
    ensures EmptyOrFullAtPushes(n, s, ops) <==> Strandings(n, View(s, 0, |s|), ops) == 0
    ensures EmptyOrFullAtPushes(n, s, ops) ==>
              var (s', outs) := FifoRun(n, s, ops);
              AbsRun(false, n, View(s, 0, |s|), ops) == (View(s', 0, |s'|), outs) && |s'| <= 1
    decreases |ops|
  {
    if ops != [] && (ops[0].PushOp? ==> s == [] || |s| >= n) {
      StrandingsOrFifo(n, FifoStep(n, s, ops[0]).0, ops[1..]);
    }
  }

  lemma {:induction false} FifoLedger<P>(n: nat, s: seq<P>, ops: seq<Op<P>>)
    ensures var (s', outs) := FifoRun(n, s, ops);
            |s'| + Returned(outs) == |s| + Accepted(outs)
    decreases |ops|
  {
    if ops != [] {
      var (s1, out) := FifoStep(n, s, ops[0]);
      FifoLedger(n, s1, ops[1..]);
      assert ([out] + FifoRun(n, s1, ops[1..]).1)[1..] == FifoRun(n, s1, ops[1..]).1;
    }
  }

  lemma {:induction false} FifoRunAppend<P>(n: nat, s: seq<P>, ops: seq<Op<P>>, more: seq<Op<P>>)
    ensures var s1 := FifoRun(n, s, ops).0;
            && FifoRun(n, s, ops + more).0 == FifoRun(n, s1, more).0
            && (EmptyOrFullAtPushes(n, s, ops + more) <==>
                EmptyOrFullAtPushes(n, s, ops) && EmptyOrFullAtPushes(n, s1, more))
            && (|s| <= n ==> |s1| <= n)
    decreases |ops|
  {
    if ops == [] {
      assert ops + more == more;
    } else {
      assert (ops + more)[1..] == ops[1..] + more;
      FifoRunAppend(n, FifoStep(n, s, ops[0]).0, ops[1..], more);
    }
  }

  lemma {:induction false} PopsNeverStrand<P>(n: nat, s: seq<P>, k: nat)
    ensures EmptyOrFullAtPushes(n, s, Pops(k))
  {
    if k > 0 {
      assert Pops<P>(k)[1..] == Pops<P>(k - 1);
      PopsNeverStrand(n, FifoStep(n, s, PopOp).0, k - 1);
    }
  }

  /** The code as written, started empty, answers a run followed by a full drain as the
      bounded sequence would exactly when no push of the run meets a queue that is
      neither empty nor full. */
  lemma AsWrittenIsFifoExactlyWhen<P(!new)>(f: Policy<P>, q: Queue<P>, ops: seq<Op<P>>)
    requires IsPolicy(f) && Wf(false, q) && Abs(false, q) == View([], 0, 0)
    ensures var n := |q.slots|;
            var run := ops + Pops(n);
            Run(false, f, 0, q, run).1 == FifoRun(n, [], run).1 <==> EmptyOrFullAtPushes(n, [], ops)
  {
    var n := |q.slots|;
    var run, empty: seq<P> := ops + Pops(n), [];
    var s := FifoRun(n, empty, ops).0;
    RunRefines(false, f, 0, q, run);
    LedgerOfViews(n, View(empty, 0, 0), run);
    StrandingsOrFifo(n, empty, run);
    FifoLedger(n, empty, run);
    FifoRunAppend(n, empty, ops, Pops(n));
    FifoDrain(n, s, n);
    PopsNeverStrand(n, s, n);
  }

  lemma TwoPushesTwoPops<P>(n: nat, a: P, b: P)
    requires n >= 2
    ensures AbsRun(false, n, View([], 0, 0), [PushOp(a), PushOp(b), PopOp, PopOp]).1
         == [Pushed(true), Pushed(true), Popped(Some(a)), Popped(None)]
  {
    var ops := [PushOp(a), PushOp(b), PopOp, PopOp];
    var v1, v2 := View([a], 0, 1), View([a], 1, 2);
    var v0: View<P> := View([], 0, 0);
    var v3: View<P> := View([], 1, 1);
    assert ops[1..] == [PushOp(b), PopOp, PopOp] && ops[1..][1..] == [PopOp, PopOp];
    assert ops[1..][1..][1..] == [PopOp] && [] + [a] == [a];
    assert AbsRun(false, n, v3, [PopOp]).1 == [Popped(None)];
    assert AbsRun(false, n, v2, [PopOp, PopOp]).1 == [Popped(Some(a)), Popped(None)];
    assert AbsRun(false, n, v1, ops[1..]).1 == [Pushed(true), Popped(Some(a)), Popped(None)];
    assert AbsRun(false, n, v0, ops).1 == [Pushed(true), Pushed(true), Popped(Some(a)), Popped(None)];
  }

  lemma TwoPushesTwoPopsFifo<P>(n: nat, a: P, b: P)
    requires n >= 2
    ensures FifoRun(n, [], [PushOp(a), PushOp(b), PopOp, PopOp]).1
         == [Pushed(true), Pushed(true), Popped(Some(a)), Popped(Some(b))]
  {
    var ops := [PushOp(a), PushOp(b), PopOp, PopOp];
    assert ops[1..] == [PushOp(b), PopOp, PopOp] && ops[1..][1..] == [PopOp, PopOp];
    assert ops[1..][1..][1..] == [PopOp] && [] + [a] == [a];
    assert [a] + [b] == [a, b] && [a, b][1..] == [b];
    assert FifoRun(n, [b], [PopOp]).1 == [Popped(Some(b))];
    assert FifoRun(n, [a, b], [PopOp, PopOp]).1 == [Popped(Some(a)), Popped(Some(b))];
    assert FifoRun(n, [a], ops[1..]).1 == [Pushed(true), Popped(Some(a)), Popped(Some(b))];
  }

  /** A concrete run, for every pool of two slots or more: the second of two packets
      pushed back to back is never returned. */
  lemma AsWrittenLosesSecondPacket<P(!new)>(f: Policy<P>, q: Queue<P>, a: P, b: P)
    requires IsPolicy(f) && Wf(false, q) && Abs(false, q) == View([], 0, 0) && |q.slots| >= 2
    ensures var ops := [PushOp(a), PushOp(b), PopOp, PopOp];
            && Run(false, f, 0, q, ops).1 == [Pushed(true), Pushed(true), Popped(Some(a)), Popped(None)]
            && FifoRun(|q.slots|, [], ops).1 == [Pushed(true), Pushed(true), Popped(Some(a)), Popped(Some(b))]
  {
    RunRefines(false, f, 0, q, [PushOp(a), PushOp(b), PopOp, PopOp]);
    TwoPushesTwoPops(|q.slots|, a, b);
    TwoPushesTwoPopsFifo(|q.slots|, a, b);
  }
}
