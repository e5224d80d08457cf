/** The bytes and the receive window of the receive path over whole runs. */
module RxStreams {
  import opened Options
  import opened RxQueue
  import opened RxPath
  import opened RxLaws

  // ---------------------------------------------------------------------------
  // Bytes

  lemma {:induction false} PayloadAppend(s: seq<Pbuf>, p: Pbuf)
    ensures Payload(s + [p]) == Payload(s) + Bytes(p)
  {
    if s == [] {
      assert Payload([p]) == Bytes(p) + Payload([]);
    } else {
      assert (s + [p])[1..] == s[1..] + [p];
      PayloadAppend(s[1..], p);
    }
  }

  /** Copied bytes followed by queued bytes are the accepted bytes. */
  ghost predicate ByteLaw(s: Rx) {
    s.past.delivered + Payload(s.q.packets) == Payload(s.past.accepted)
  }

  /** The event drops no byte of an accepted packet and copies no byte of a released one:
      a push onto a non-empty list needs the tail link or an empty packet, a read that
      meets a packet needs it alive and copied to its end. */
  predicate ByteSafe(r: Repairs, n: nat, s: Rx, e: Event) {
    match e
    case Deliver(Some(p), true) => r.link || s.q.packets == [] || IsFull(n, s) || TotLen(p) == 0
    case Read(true, _) =>
      s.q.packets == [] || (r.hold && (r.gather || |s.q.packets[0].segs[0]| == TotLen(s.q.packets[0])))
    case _ => true
  }

  predicate AllByteSafe(r: Repairs, n: nat, s: Rx, es: seq<Event>)
    decreases |es|
  {
    es == [] || (ByteSafe(r, n, s, es[0]) && AllByteSafe(r, n, Step(r, n, s, es[0]), es[1..]))
  }

  /** The same calls, with any contents in the memory of released packets. */
  ghost predicate SameCalls(es: seq<Event>, es': seq<Event>) {
    |es| == |es'| &&
    forall k :: 0 <= k < |es| ==>
      if es[k].Read? then es'[k].Read? && es'[k].hasBuffer == es[k].hasBuffer else es'[k] == es[k]
  }

  /** Accepted bytes that are neither copied nor queued. */
  function Missing(s: Rx): int {
    |Payload(s.past.accepted)| - |s.past.delivered| - |Payload(s.q.packets)|
  }

  lemma CopiedIsPrefix(r: Repairs, p: Pbuf)
    ensures |CopiedBytes(r, p)| <= TotLen(p)
    ensures |CopiedBytes(r, p)| == TotLen(p) <==> CopiedBytes(r, p) == Bytes(p)
    ensures |CopiedBytes(r, p)| == TotLen(p) <==> r.gather || |p.segs[0]| == TotLen(p)
  {
    assert Bytes(p) == p.segs[0] + Flatten(p.segs[1..]);
  }

  lemma QueuedMissing(r: Repairs, s: Rx, p: Pbuf, s': Rx)
    requires s'.past.delivered == s.past.delivered && s'.past.accepted == s.past.accepted + [p]
    requires s'.q.packets == if r.link || s.q.packets == [] then s.q.packets + [p] else s.q.packets
    ensures Missing(s') == Missing(s) + if r.link || s.q.packets == [] then 0 else TotLen(p)
    ensures Missing(s') == Missing(s) && ByteLaw(s) ==> ByteLaw(s')
  {
    PayloadAppend(s.past.accepted, p);
    PayloadAppend(s.q.packets, p);
    assert s.past.delivered + (Payload(s.q.packets) + Bytes(p)) == s.past.delivered + Payload(s.q.packets) + Bytes(p);
    assert TotLen(p) == 0 ==> Payload(s.past.accepted) + Bytes(p) == Payload(s.past.accepted);
  }

  lemma AcceptMissing(r: Repairs, n: nat, s: Rx, p: Pbuf)
    ensures var s' := Step(r, n, s, Deliver(Some(p), true));
            && Missing(s') >= Missing(s)
            && (Missing(s') == Missing(s) <==> ByteSafe(r, n, s, Deliver(Some(p), true)))
            && (Missing(s') == Missing(s) && ByteLaw(s) ==> ByteLaw(s'))
  {
    var s' := Step(r, n, s, Deliver(Some(p), true));
    if IsFull(n, s) {
      assert s'.q == s.q && s'.past.accepted == s.past.accepted && s'.past.delivered == s.past.delivered;
    } else {
      QueuedMissing(r, s, p, s');
    }
  }

  lemma ConsumeMissing(r: Repairs, n: nat, s: Rx, found: Pbuf)
    requires Counted(r, s) && r.hold && s.q.packets != [] && s.q.cnt > 0
    ensures var s' := Step(r, n, s, Read(true, found));
            && Missing(s') >= Missing(s)
            && (Missing(s') == Missing(s) <==> ByteSafe(r, n, s, Read(true, found)))
            && (Missing(s') == Missing(s) && ByteLaw(s) ==> ByteLaw(s'))
  {
    var s', p := Step(r, n, s, Read(true, found)), s.q.packets[0];
    assert AsRead(s, p, found) == p;
    assert s'.past.delivered == s.past.delivered + CopiedBytes(r, p);
    assert s'.past.accepted == s.past.accepted && s'.q.packets == s.q.packets[1..];
    CopiedIsPrefix(r, p);
    assert Payload(s.q.packets) == Bytes(p) + Payload(s'.q.packets);
    assert s.past.delivered + (Bytes(p) + Payload(s'.q.packets)) == s.past.delivered + Bytes(p) + Payload(s'.q.packets);
  }

  lemma StepMissing(r: Repairs, n: nat, s: Rx, e: Event)
    requires Counted(r, s) && SaneQueue(s)
    requires r.hold || !e.Read? || !e.hasBuffer || s.q.packets == []
    ensures var s' := Step(r, n, s, e);
            && Missing(s') >= Missing(s)
            && (Missing(s') == Missing(s) <==> ByteSafe(r, n, s, e))
            && (Missing(s') == Missing(s) && ByteLaw(s) ==> ByteLaw(s'))
  {
    match e
    case Deliver(Some(p), true) => AcceptMissing(r, n, s, p);
    case Read(true, found) =>
      if s.q.packets != [] {
        ConsumeMissing(r, n, s, found);
      }
    case _ =>
  }

  /** While no released packet is read, bytes only go missing, and do so exactly at the
      unsafe events. */
  lemma {:induction false} RunMissing(r: Repairs, n: nat, s: Rx, es: seq<Event>)
    requires Counted(r, s) && SaneQueue(s) && FreshHandOvers(s.refs.Keys, es)
    requires r.hold || PacketReads(r, n, s, es) == 0
    ensures var s' := Run(r, n, s, es);
            && Missing(s') >= Missing(s)
            && (Missing(s') == Missing(s) <==> AllByteSafe(r, n, s, es))
            && (Missing(s') == Missing(s) && ByteLaw(s) ==> ByteLaw(s'))
    decreases |es|
  {
    if es != [] {
      StepMissing(r, n, s, es[0]);
      FirstStepOwns(r, n, s, es);
      RunMissing(r, n, Step(r, n, s, es[0]), es[1..]);
    }
  }

  /** What the memory of released packets holds moves no packet and no reference. */
  lemma {:induction false} SameCallsSameQueue(r: Repairs, n: nat, s: Rx, t: Rx, es: seq<Event>, es': seq<Event>)
    requires SameCalls(es, es') && SameQueue(s, t)
    ensures var s', t' := Run(r, n, s, es), Run(r, n, t, es');
            && SameQueue(s', t')
            && PacketReads(r, n, s, es) == PacketReads(r, n, t, es')
            && (AllByteSafe(r, n, s, es) <==> AllByteSafe(r, n, t, es'))
    ensures forall known :: FreshHandOvers(known, es) <==> FreshHandOvers(known, es')
    decreases |es|
  {
    if es != [] {
      assert es'[0] == es[0] || (es[0].Read? && es'[0].Read? && es'[0].hasBuffer == es[0].hasBuffer);
      SameStep(r, n, s, t, es[0], es'[0]);
      SameCallsSameQueue(r, n, Step(r, n, s, es[0]), Step(r, n, t, es'[0]), es[1..], es'[1..]);
    }
  }

  ghost predicate SameQueue(s: Rx, t: Rx) {
    s.q == t.q && s.refs == t.refs && s.past.accepted == t.past.accepted
  }

  lemma SameAccept(r: Repairs, n: nat, s: Rx, t: Rx, p: Pbuf)
    requires SameQueue(s, t)
    ensures SameQueue(AcceptPacket(r, n, s, p), AcceptPacket(r, n, t, p))
  {
    var (q, accepted) := AbsPush(r.link, n, s.q, p);
    var s1, t1 := if r.credit then s else TcpRecved(s, TotLen(p)), if r.credit then t else TcpRecved(t, TotLen(p));
    assert SameQueue(Enqueue(r, n, s1, p), Enqueue(r, n, t1, p));
    SameFree(Enqueue(r, n, s1, p), Enqueue(r, n, t1, p), p.id);
  }

  lemma SameFree(s: Rx, t: Rx, id: nat)
    requires SameQueue(s, t)
    ensures SameQueue(PbufFree(s, id), PbufFree(t, id))
  {
  }

  lemma SameConsume(r: Repairs, s: Rx, t: Rx, p: Pbuf, found: Pbuf, found': Pbuf)
    requires SameQueue(s, t)
    ensures SameQueue(ConsumePacket(r, s, p, found), ConsumePacket(r, t, p, found'))
  {
    SameFree(CopyPacket(r, s, p, found), CopyPacket(r, t, p, found'), p.id);
  }

  lemma SameStep(r: Repairs, n: nat, s: Rx, t: Rx, e: Event, e': Event)
    requires SameQueue(s, t)
    requires e' == e || (e.Read? && e'.Read? && e'.hasBuffer == e.hasBuffer)
    ensures SameQueue(Step(r, n, s, e), Step(r, n, t, e'))
    ensures ByteSafe(r, n, s, e) <==> ByteSafe(r, n, t, e')
  {
    match e
    case Deliver(Some(p), true) => SameAccept(r, n, HandOver(s, p), HandOver(t, p), p);
    case Deliver(Some(p), false) => SameFree(HandOver(s, p), HandOver(t, p), p.id);
    case Read(true, found) =>
      var (q, head) := AbsPop(s.q);
      if head.Some? {
        SameConsume(r, s.(q := q), t.(q := q), head.value, found, e'.found);
      }
    case _ =>
  }

  /** The run with one and the same contents in every released packet. */
  function WithFound(es: seq<Event>, found: Pbuf): (es': seq<Event>)
    ensures SameCalls(es, es')
    ensures forall e :: e in es' && e.Read? ==> e.found == found
  {
    seq(|es|, k requires 0 <= k < |es| => if es[k].Read? then es[k].(found := found) else es[k])
  }

  function ReadsPacket(s: Rx, e: Event): bool {
    e.Read? && e.hasBuffer && s.q.packets != []
  }

  /** As written every packet read is a released one, and what is copied is its memory. */
  lemma {:induction false} ReleasedBytes(r: Repairs, n: nat, s: Rx, es: seq<Event>, found: Pbuf)
    requires !r.hold && Counted(r, s) && SaneQueue(s) && FreshHandOvers(s.refs.Keys, es)
    requires forall e :: e in es && e.Read? ==> e.found == found
    requires |CopiedBytes(r, found)| <= 1
    ensures |Run(r, n, s, es).past.delivered| ==
              |s.past.delivered| + if CopiedBytes(r, found) == [] then 0 else PacketReads(r, n, s, es)
    decreases |es|
  {
    if es != [] {
      var s1 := Step(r, n, s, es[0]);
      FirstStepOwns(r, n, s, es);
      ReleasedBytes(r, n, s1, es[1..], found);
      DeliveredByStep(r, n, s, es[0], found);
    }
  }

  lemma DeliveredByStep(r: Repairs, n: nat, s: Rx, e: Event, found: Pbuf)
    requires !r.hold && Counted(r, s) && SaneQueue(s) && (e.Read? ==> e.found == found)
    ensures |Step(r, n, s, e).past.delivered| ==
              |s.past.delivered| + if ReadsPacket(s, e) then |CopiedBytes(r, found)| else 0
  {
  }

  /** Two contents of different length cannot both be the accepted bytes. */
  lemma ReleasedReadsBreakBytes(r: Repairs, n: nat, window: nat, es: seq<Event>)
    requires !r.hold && FreshHandOvers({}, es) && PacketReads(r, n, Initial(window), es) > 0
    ensures exists es' :: SameCalls(es, es') && !ByteLaw(Run(r, n, Initial(window), es'))
  {
    var s0, none, one := Initial(window), PbufChain(0, [[]]), PbufChain(0, [[0]]);
    assert s0.refs.Keys == {};
    SameCallsSameQueue(r, n, s0, s0, es, WithFound(es, none));
    SameCallsSameQueue(r, n, s0, s0, es, WithFound(es, one));
    assert CopiedBytes(r, none) == [] by { assert Bytes(none) == [] + Flatten([]); }
    assert CopiedBytes(r, one) == [0] by { assert Bytes(one) == [0] + Flatten([]); }
    ReleasedBytes(r, n, s0, WithFound(es, none), none);
    ReleasedBytes(r, n, s0, WithFound(es, one), one);
    var a, b := Run(r, n, s0, WithFound(es, none)), Run(r, n, s0, WithFound(es, one));
    assert a.q == b.q && a.past.accepted == b.past.accepted;
    assert |a.past.delivered| < |b.past.delivered|;
    assert !ByteLaw(a) || !ByteLaw(b);
  }

  lemma {:induction false} SafeReadsNothingReleased(r: Repairs, n: nat, s: Rx, es: seq<Event>)
    requires AllByteSafe(r, n, s, es)
    ensures r.hold || PacketReads(r, n, s, es) == 0
    decreases |es|
  {
    if es != [] {
      SafeReadsNothingReleased(r, n, Step(r, n, s, es[0]), es[1..]);
    }
  }

  /** Byte-stream preservation, for arbitrary chains of segments: whatever the memory of
      released packets holds, what was copied out followed by what is queued is what was
      accepted, in order, exactly when every event of the run is byte-safe. */
  lemma ByteLawExactlyWhen(r: Repairs, n: nat, window: nat, es: seq<Event>)
    requires FreshHandOvers({}, es)
    ensures (forall es' :: SameCalls(es, es') ==> ByteLaw(Run(r, n, Initial(window), es')))
            <==> AllByteSafe(r, n, Initial(window), es)
  {
    var s0 := Initial(window);
    assert s0.refs.Keys == {};
    if AllByteSafe(r, n, s0, es) {
      SafeReadsNothingReleased(r, n, s0, es);
      forall es' | SameCalls(es, es')
        ensures ByteLaw(Run(r, n, s0, es'))
      {
        SameCallsSameQueue(r, n, s0, s0, es, es');
        RunMissing(r, n, s0, es');
      }
    } else if r.hold || PacketReads(r, n, s0, es) == 0 {
      RunMissing(r, n, s0, es);
      assert SameCalls(es, es);
    } else {
      ReleasedReadsBreakBytes(r, n, window, es);
    }
  }

  /** With the tail link repaired, queued packets held and all segments copied no run
      loses a byte, and a drained queue has delivered everything. */
  lemma ByteStreamPreserved(r: Repairs, n: nat, window: nat, es: seq<Event>)
    requires r.link && r.hold && r.gather && FreshHandOvers({}, es)
    ensures var s := Run(r, n, Initial(window), es);
            && s.past.delivered + Payload(s.q.packets) == Payload(s.past.accepted)
            && (s.q.packets == [] ==> s.past.delivered == Payload(s.past.accepted))
  {
    AlwaysByteSafe(r, n, Initial(window), es);
    ByteLawExactlyWhen(r, n, window, es);
    assert SameCalls(es, es);
  }

  lemma {:induction false} AlwaysByteSafe(r: Repairs, n: nat, s: Rx, es: seq<Event>)
    requires r.link && r.hold && r.gather
    ensures AllByteSafe(r, n, s, es)
    decreases |es|
  {
    if es != [] {
      AlwaysByteSafe(r, n, Step(r, n, s, es[0]), es[1..]);
    }
  }

  // ---------------------------------------------------------------------------
  // Receive window

  function Total(s: seq<Pbuf>): nat {
    |Payload(s)|
  }

  /** Bytes accepted by the queue and not consumed. */
  function Unconsumed(s: Rx): int {
    Total(s.past.accepted) - Total(s.past.consumed)
  }

  ghost predicate WindowLedger(r: Repairs, window: nat, s: Rx) {
    && s.window + s.past.failed + (if r.credit then Unconsumed(s) else 0) == window
    && s.past.credited + s.past.failed + (if r.credit then Unconsumed(s) else 0) == Total(s.past.handed)
  }

  /** What one delivery adds to the books. */
  lemma DeliverEntries(r: Repairs, n: nat, s: Rx, p: Pbuf, ok: bool)
    ensures var past, s' := s.past, Step(r, n, s, Deliver(Some(p), ok));
            var taken := ok && !IsFull(n, s);
            var credit := if ok && !(r.credit && taken) then TotLen(p) else 0;
            && s'.past.handed == past.handed + [p] && s'.past.consumed == past.consumed
            && s'.past.accepted == (if taken then past.accepted + [p] else past.accepted)
            && s'.past.failed == past.failed + (if ok then 0 else TotLen(p))
            && s'.past.credited == past.credited + credit
            && s'.window == s.window - TotLen(p) + credit
  {
  }

  lemma DeliverKeepsLedger(r: Repairs, n: nat, window: nat, s: Rx, p: Pbuf, ok: bool)
    requires WindowLedger(r, window, s)
    ensures WindowLedger(r, window, Step(r, n, s, Deliver(Some(p), ok)))
  {
    PayloadAppend(s.past.accepted, p);
    PayloadAppend(s.past.handed, p);
    DeliverEntries(r, n, s, p, ok);
  }

  /** The event gives back no credit but that of the packet consumed: a released packet
      is taken for as long as its memory says. */
  predicate CreditSafe(r: Repairs, s: Rx, e: Event) {
    r.credit && e.Read? && e.hasBuffer && s.q.packets != [] ==>
      TotLen(AsRead(s, s.q.packets[0], e.found)) == TotLen(s.q.packets[0])
  }

  /** What one read adds to the books. */
  lemma ReadEntries(r: Repairs, n: nat, s: Rx, found: Pbuf)
    requires SaneQueue(s) && s.q.packets != []
    ensures var past, s', p := s.past, Step(r, n, s, Read(true, found)), s.q.packets[0];
            var credit := if r.credit then TotLen(AsRead(s, p, found)) else 0;
            && s'.past.handed == past.handed && s'.past.consumed == past.consumed + [p]
            && s'.past.accepted == past.accepted && s'.past.failed == past.failed
            && s'.past.credited == past.credited + credit && s'.window == s.window + credit
  {
  }

  lemma StepKeepsLedger(r: Repairs, n: nat, window: nat, s: Rx, e: Event)
    requires WindowLedger(r, window, s) && SaneQueue(s) && CreditSafe(r, s, e)
    ensures WindowLedger(r, window, Step(r, n, s, e)) && SaneQueue(Step(r, n, s, e))
  {
    StepKeepsSane(r, n, s, e);
    match e
    case Deliver(Some(p), ok) => DeliverKeepsLedger(r, n, window, s, p, ok);
    case Read(true, found) =>
      if s.q.packets != [] {
        ReadEntries(r, n, s, found);
        PayloadAppend(s.past.consumed, s.q.packets[0]);
      }
    case _ =>
  }

  lemma {:induction false} RunKeepsLedger(r: Repairs, n: nat, window: nat, s: Rx, es: seq<Event>)
    requires WindowLedger(r, window, s) && SaneQueue(s)
    requires r.credit ==> AllWindowSafe(r, n, s, es)
    ensures WindowLedger(r, window, Run(r, n, s, es))
    decreases |es|
  {
    if es != [] {
      StepKeepsLedger(r, n, window, s, es[0]);
      RunKeepsLedger(r, n, window, Step(r, n, s, es[0]), es[1..]);
    }
  }

  /** The window plus the bytes that are accepted and not consumed, plus those of failed
      deliveries, is the initial window. */
  ghost predicate WindowLaw(window: nat, s: Rx) {
    s.window + Unconsumed(s) + s.past.failed == window
  }

  ghost predicate AlwaysWindowLaw(r: Repairs, n: nat, window: nat, s: Rx, es: seq<Event>)
    decreases |es|
  {
    WindowLaw(window, s) && (es == [] || AlwaysWindowLaw(r, n, window, Step(r, n, s, es[0]), es[1..]))
  }

  /** The event keeps the window law: credit waits for consumption, or an accepted packet
      carries no bytes; and credit is not taken from a released packet, unless its memory
      still tells the length. */
  predicate WindowSafe(r: Repairs, n: nat, s: Rx, e: Event) {
    match e
    case Deliver(Some(p), true) => r.credit || IsFull(n, s) || TotLen(p) == 0
    case _ => CreditSafe(r, s, e)
  }

  predicate AllWindowSafe(r: Repairs, n: nat, s: Rx, es: seq<Event>)
    decreases |es|
  {
    es == [] || (WindowSafe(r, n, s, es[0]) && AllWindowSafe(r, n, Step(r, n, s, es[0]), es[1..]))
  }

  lemma UnsafeReadBreaks(r: Repairs, n: nat, window: nat, s: Rx, found: Pbuf)
    requires WindowLedger(r, window, s) && SaneQueue(s) && !CreditSafe(r, s, Read(true, found))
    ensures !WindowLaw(window, Step(r, n, s, Read(true, found)))
  {
    ReadEntries(r, n, s, found);
    PayloadAppend(s.past.consumed, s.q.packets[0]);
  }

  lemma {:induction false} LateCreditWindowLaw(r: Repairs, n: nat, window: nat, s: Rx, es: seq<Event>)
    requires r.credit && WindowLedger(r, window, s) && SaneQueue(s)
    ensures AlwaysWindowLaw(r, n, window, s, es) <==> AllWindowSafe(r, n, s, es)
    decreases |es|
  {
    if es != [] {
      var s' := Step(r, n, s, es[0]);
      if CreditSafe(r, s, es[0]) {
        StepKeepsLedger(r, n, window, s, es[0]);
        LateCreditWindowLaw(r, n, window, s', es[1..]);
      } else {
        UnsafeReadBreaks(r, n, window, s, es[0].found);
        assert !AlwaysWindowLaw(r, n, window, s', es[1..]);
      }
    }
  }

  lemma UnconsumedByDelivery(r: Repairs, n: nat, s: Rx, p: Pbuf, ok: bool)
    requires Payload(s.q.packets) == []
    ensures var s', taken := Step(r, n, s, Deliver(Some(p), ok)), ok && !IsFull(n, s);
            && Unconsumed(s') == Unconsumed(s) + (if taken then TotLen(p) else 0)
            && (!taken || TotLen(p) == 0 ==> Payload(s'.q.packets) == [])
  {
    var s' := Step(r, n, s, Deliver(Some(p), ok));
    DeliverEntries(r, n, s, p, ok);
    PayloadAppend(s.past.accepted, p);
    PayloadAppend(s.q.packets, p);
    assert s'.q.packets == s.q.packets || s'.q.packets == s.q.packets + [p];
    assert !(ok && !IsFull(n, s)) ==> s'.q == s.q;
  }

  lemma UnconsumedByRead(r: Repairs, n: nat, s: Rx, hasBuffer: bool, found: Pbuf)
    requires SaneQueue(s) && Payload(s.q.packets) == []
    ensures var s' := Step(r, n, s, Read(hasBuffer, found));
            Unconsumed(s') == Unconsumed(s) && Payload(s'.q.packets) == []
  {
    if hasBuffer && s.q.packets != [] {
      var s' := Step(r, n, s, Read(true, found));
      PayloadAppend(s.past.consumed, s.q.packets[0]);
      assert Payload(s.q.packets) == Bytes(s.q.packets[0]) + Payload(s.q.packets[1..]);
      assert s'.q.packets == s.q.packets[1..] && s'.past.consumed == s.past.consumed + [s.q.packets[0]];
      assert s'.past.accepted == s.past.accepted;
    }
  }

  /** How one event moves the unconsumed bytes while nothing unread carries any. */
  lemma UnconsumedByStep(r: Repairs, n: nat, s: Rx, e: Event)
    requires SaneQueue(s) && Payload(s.q.packets) == []
    ensures var s' := Step(r, n, s, e);
            && Unconsumed(s') == Unconsumed(s) +
                 (if e.Deliver? && e.ok && e.p.Some? && !IsFull(n, s) then TotLen(e.p.value) else 0)
            && (Unconsumed(s') == Unconsumed(s) ==> Payload(s'.q.packets) == [])
  {
    match e
    case Deliver(Some(p), ok) => UnconsumedByDelivery(r, n, s, p, ok);
    case Deliver(None, _) =>
    case Read(hasBuffer, found) => UnconsumedByRead(r, n, s, hasBuffer, found);
  }

  lemma {:induction false} EarlyCreditWindowLaw(r: Repairs, n: nat, window: nat, s: Rx, es: seq<Event>)
    requires !r.credit && WindowLedger(r, window, s) && SaneQueue(s)
    requires Unconsumed(s) == 0 && Payload(s.q.packets) == []
    ensures AlwaysWindowLaw(r, n, window, s, es) <==> AllWindowSafe(r, n, s, es)
    decreases |es|
  {
    if es != [] {
      var s' := Step(r, n, s, es[0]);
      StepKeepsLedger(r, n, window, s, es[0]);
      StepKeepsSane(r, n, s, es[0]);
      UnconsumedByStep(r, n, s, es[0]);
      if Unconsumed(s') == 0 {
        EarlyCreditWindowLaw(r, n, window, s', es[1..]);
      } else {
        assert !WindowLaw(window, s');
        assert !AlwaysWindowLaw(r, n, window, s', es[1..]);
      }
    }
  }

  /** Receive-window conservation (section 3.8.6 of RFC 9293): the law holds at every
      moment of a run exactly when every event of the run is window-safe. */
  lemma WindowLawExactlyWhen(r: Repairs, n: nat, window: nat, es: seq<Event>)
    ensures AlwaysWindowLaw(r, n, window, Initial(window), es) <==> AllWindowSafe(r, n, Initial(window), es)
  {
    if r.credit {
      LateCreditWindowLaw(r, n, window, Initial(window), es);
    } else {
      EarlyCreditWindowLaw(r, n, window, Initial(window), es);
    }
  }

  /** Credit on consumption, from packets that are held until then, is always safe. */
  lemma {:induction false} HeldIsWindowSafe(r: Repairs, n: nat, s: Rx, es: seq<Event>)
    requires r.credit && r.hold && Counted(r, s) && SaneQueue(s) && FreshHandOvers(s.refs.Keys, es)
    ensures AllWindowSafe(r, n, s, es)
    decreases |es|
  {
    if es != [] {
      FirstStepOwns(r, n, s, es);
      HeldIsWindowSafe(r, n, Step(r, n, s, es[0]), es[1..]);
    }
  }

  lemma {:induction false} PayloadConcat(a: seq<Pbuf>, b: seq<Pbuf>)
    ensures Payload(a + b) == Payload(a) + Payload(b)
  {
    if a == [] {
      assert a + b == b;
    } else {
      assert (a + b)[1..] == a[1..] + b;
      PayloadConcat(a[1..], b);
    }
  }

  lemma UnconsumedIsQueued(s: Rx)
    requires PlacedIn(s.q, s.past)
    ensures Unconsumed(s) == Total(s.q.packets)
  {
    PayloadConcat(s.past.consumed, s.q.packets);
  }

  lemma {:induction false} RunKeepsAccepted(r: Repairs, n: nat, s: Rx, es: seq<Event>)
    requires r.link && PlacedIn(s.q, s.past)
    ensures PlacedIn(Run(r, n, s, es).q, Run(r, n, s, es).past)
    decreases |es|
  {
    if es != [] {
      match es[0] {
        case Deliver(Some(p), ok) => DeliverKeepsPlacedIn(r, n, s, p, ok);
        case Read(true, _) => if s.q.packets != [] { ConsumedIsPlaced(s.q, s.past); }
        case _ =>
      }
      RunKeepsAccepted(r, n, Step(r, n, s, es[0]), es[1..]);
    }
  }

  /** Flow control: with credit on the consumption of held packets and a sender that
      stays within the window the unread bytes never exceed the initial window, and a
      drained queue without failed deliveries has given the whole window back. As written
      the window never shrinks, whatever stays unread. */
  lemma FlowControl(r: Repairs, n: nat, window: nat, es: seq<Event>)
    requires FreshHandOvers({}, es)
    ensures var s := Run(r, n, Initial(window), es);
            && (r.link && r.hold && r.credit && s.window >= 0 ==>
                  && Total(s.q.packets) <= window
                  && s.past.credited + Total(s.q.packets) + s.past.failed == Total(s.past.handed)
                  && (s.q.packets == [] && s.past.failed == 0 ==> s.window == window))
            && (!r.credit ==> s.window + s.past.failed == window)
  {
    var s0 := Initial(window);
    assert s0.refs.Keys == {};
    if r.credit && r.hold {
      HeldIsWindowSafe(r, n, s0, es);
    }
    if !r.credit || r.hold {
      RunKeepsLedger(r, n, window, s0, es);
    }
    if r.link {
      RunKeepsAccepted(r, n, s0, es);
      UnconsumedIsQueued(Run(r, n, s0, es));
    }
  }

  /** The code as written, on one packet of two one-byte segments: after the delivery the
      window law fails, and after the read a released packet has been read, and whatever
      its memory held is what was copied. */
  lemma AsWrittenBreaksTheLaws(window: nat, found: Pbuf)
    requires window >= 2
    ensures var p: Pbuf := PbufChain(1, [[65], [66]]);
            var s1 := Run(AS_WRITTEN, 1, Initial(window), [Deliver(Some(p), true)]);
            var s2 := Run(AS_WRITTEN, 1, Initial(window), [Deliver(Some(p), true), Read(true, found)]);
            && !WindowLaw(window, s1)
            && s2.past.releasedReads == 1 && s2.past.delivered == found.segs[0]
            && Payload(s2.past.accepted) == [65, 66] && s2.q.packets == []
  {
    var p: Pbuf := PbufChain(1, [[65], [66]]);
    assert Flatten([[66 as byte]]) == [66] + Flatten([]);
    assert p.segs[1..] == [[66]];
    assert Bytes(p) == [65, 66];
    assert Payload([p]) == Bytes(p) + Payload([]);
    var s0 := Initial(window);
    var s1 := Step(AS_WRITTEN, 1, s0, Deliver(Some(p), true));
    assert s1.q == View([p], 0, 1) && s1.past.accepted == [p] && s1.window == window;
    assert [Deliver(Some(p), true), Read(true, found)][1..] == [Read(true, found)];
    var s2 := Step(AS_WRITTEN, 1, s1, Read(true, found));
    assert Run(AS_WRITTEN, 1, s0, [Deliver(Some(p), true)]) == s1;
    assert Run(AS_WRITTEN, 1, s1, [Read(true, found)]) == s2;
    assert s2.past.delivered == found.segs[0];
  }

  /** One packet through an empty queue that holds it. */
  lemma OneHeldPacket(r: Repairs, window: nat, p: Pbuf, found: Pbuf)
    requires r.link && r.hold
    ensures var s := Run(r, 1, Initial(window), [Deliver(Some(p), true), Read(true, found)]);
            s.past.delivered == CopiedBytes(r, p) && s.past.accepted == [p] && s.q.packets == []
  {
    var s1 := Step(r, 1, Initial(window), Deliver(Some(p), true));
    assert s1.q == View([p], 0, 1) && s1.past.accepted == [p] && s1.past.delivered == [];
    assert RefCount(s1.refs, p.id) == 1;
    var s2 := Step(r, 1, s1, Read(true, found));
    assert s2.past.delivered == [] + CopiedBytes(r, p);
    assert [Deliver(Some(p), true), Read(true, found)][1..] == [Read(true, found)];
    assert Run(r, 1, s1, [Read(true, found)]) == s2;
  }

  /** Holding the packet is not enough without copying it to its end. */
  lemma FirstSegmentOnly(window: nat, found: Pbuf)
    ensures var p: Pbuf := PbufChain(1, [[65], [66]]);
            var es := [Deliver(Some(p), true), Read(true, found)];
            var s := Run(Repairs(true, true, true, false), 1, Initial(window), es);
            s.past.delivered == [65] && Payload(s.past.accepted) == [65, 66] && s.q.packets == []
  {
    var p: Pbuf := PbufChain(1, [[65], [66]]);
    OneHeldPacket(Repairs(true, true, true, false), window, p, found);
    assert Flatten([[66 as byte]]) == [66] + Flatten([]);
    assert p.segs[1..] == [[66]];
    assert Payload([p]) == Bytes(p) + Payload([]);
  }
}
