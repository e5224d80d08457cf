/** Laws of the receive path over whole runs: who owns a packet, which bytes arrive, and
    where the receive window went. Each says for which repairs, and for which runs of
    the code as written, it holds. */
module RxLaws {
  import opened Options
  import opened RxQueue
  import opened RxPath

  // ---------------------------------------------------------------------------
  // Ownership

  /** One reference per known packet at most; a packet is released when its count reaches
      0, once. */
  ghost predicate Balanced(refs: map<nat, nat>, freed: seq<nat>, handed: seq<Pbuf>) {
    && (forall p :: p in handed ==> p.id in refs)
    && (forall id :: id in refs ==> refs[id] <= 1)
    && (forall id :: id in freed <==> id in refs && refs[id] == 0)
    && (forall j, k :: 0 <= j < k < |freed| ==> freed[j] != freed[k])
  }

  /** The queued packets are known, distinct, and all with the same count. */
  ghost predicate Queued(refs: map<nat, nat>, packets: seq<Pbuf>, count: nat) {
    && (forall p :: p in packets ==> p.id in refs && refs[p.id] == count)
    && (forall j, k :: 0 <= j < k < |packets| ==> packets[j].id != packets[k].id)
  }

  /** With `hold` the queued packets are alive; as written they are all released already,
      and every read is one of released memory. */
  ghost predicate Counted(r: Repairs, s: Rx) {
    && Balanced(s.refs, s.past.freed, s.past.handed)
    && Queued(s.refs, s.q.packets, if r.hold then 1 else 0)
    && s.past.doubleFrees == 0
    && s.past.releasedReads == (if r.hold then 0 else |s.past.consumed|)
  }

  lemma ReleasedAtOnce(refs: map<nat, nat>, freed: seq<nat>, handed: seq<Pbuf>, p: Pbuf)
    requires Balanced(refs, freed, handed) && p.id !in refs
    ensures Balanced(refs[p.id := 0], freed + [p.id], handed + [p])
  {
  }

  lemma HeldOn(refs: map<nat, nat>, freed: seq<nat>, handed: seq<Pbuf>, p: Pbuf)
    requires Balanced(refs, freed, handed) && p.id !in refs
    ensures Balanced(refs[p.id := 1], freed, handed + [p])
  {
  }

  lemma AcceptRefused(r: Repairs, n: nat, s: Rx, p: Pbuf)
    requires Counted(r, s) && p.id !in s.refs && IsFull(n, s)
    ensures Counted(r, AcceptPacket(r, n, HandOver(s, p), p))
  {
    var s' := AcceptPacket(r, n, HandOver(s, p), p);
    ReleasedAtOnce(s.refs, s.past.freed, s.past.handed, p);
    assert s'.refs == s.refs[p.id := 0] && s'.q == s.q;
    assert s'.past.freed == s.past.freed + [p.id];
  }

  lemma AcceptReleasing(r: Repairs, n: nat, s: Rx, p: Pbuf)
    requires Counted(r, s) && p.id !in s.refs && !IsFull(n, s) && !r.hold
    ensures Counted(r, AcceptPacket(r, n, HandOver(s, p), p))
  {
    var s' := AcceptPacket(r, n, HandOver(s, p), p);
    ReleasedAtOnce(s.refs, s.past.freed, s.past.handed, p);
    assert s'.refs == s.refs[p.id := 0];
    assert s'.q.packets == s.q.packets || s'.q.packets == s.q.packets + [p];
    assert s'.past.freed == s.past.freed + [p.id];
  }

  lemma AcceptHolding(r: Repairs, n: nat, s: Rx, p: Pbuf)
    requires Counted(r, s) && p.id !in s.refs && !IsFull(n, s) && r.hold
    ensures Counted(r, AcceptPacket(r, n, HandOver(s, p), p))
  {
    var s' := AcceptPacket(r, n, HandOver(s, p), p);
    HeldOn(s.refs, s.past.freed, s.past.handed, p);
    assert s'.refs == s.refs[p.id := 1];
    assert s'.past.freed == s.past.freed;
  }

  lemma FailKeepsCounted(r: Repairs, s: Rx, p: Pbuf)
    requires Counted(r, s) && p.id !in s.refs
    ensures Counted(r, FailPacket(HandOver(s, p), p))
  {
  }

  lemma ConsumeKeepsCounted(r: Repairs, s: Rx, found: Pbuf)
    requires Counted(r, s) && s.q.packets != [] && s.q.cnt > 0
    ensures Counted(r, Step(r, 0, s, Read(true, found)))
  {
  }

  lemma StepKeepsCounted(r: Repairs, n: nat, s: Rx, e: Event)
    requires Counted(r, s) && s.q.cnt >= |s.q.packets|
    requires e.Deliver? && e.p.Some? ==> e.p.value.id !in s.refs
    ensures Counted(r, Step(r, n, s, e))
  {
    match e
    case Deliver(Some(p), true) =>
      if IsFull(n, s) {
        AcceptRefused(r, n, s, p);
      } else if r.hold {
        AcceptHolding(r, n, s, p);
      } else {
        AcceptReleasing(r, n, s, p);
      }
    case Deliver(Some(p), false) => FailKeepsCounted(r, s, p);
    case Read(true, found) =>
      if s.q.packets != [] {
        ConsumeKeepsCounted(r, s, found);
      }
    case _ =>
  }

  ghost predicate PlacedIn(q: View<Pbuf>, past: History) {
    && q.lost == 0 && q.cnt == |q.packets|
    && past.accepted == past.consumed + q.packets
    && multiset(past.handed) == multiset(past.accepted) + multiset(past.dropped)
  }

  /** With the tail link repaired every packet is somewhere: queued, consumed or dropped,
      the accepted ones in order; with `hold` the ones that are not queued are released. */
  ghost predicate Placed(r: Repairs, s: Rx) {
    && PlacedIn(s.q, s.past)
    && (r.hold ==> forall p :: p in s.past.consumed + s.past.dropped ==> RefCount(s.refs, p.id) == 0)
  }

  lemma PlacedAreKnown(r: Repairs, s: Rx)
    requires Counted(r, s) && Placed(r, s)
    ensures forall p :: p in s.past.consumed + s.past.dropped + s.q.packets ==> p.id in s.refs
  {
    forall p | p in s.past.consumed + s.past.dropped + s.q.packets
      ensures p.id in s.refs
    {
      assert p in s.past.accepted || p in s.past.dropped;
      assert p in multiset(s.past.handed);
    }
  }

  lemma QueuedIsPlaced(q: View<Pbuf>, past: History, p: Pbuf)
    requires PlacedIn(q, past)
    ensures PlacedIn(View(q.packets + [p], 0, q.cnt + 1),
                     past.(handed := past.handed + [p], accepted := past.accepted + [p]))
  {
    assert past.accepted + [p] == past.consumed + (q.packets + [p]);
  }

  lemma DroppedIsPlaced(q: View<Pbuf>, past: History, p: Pbuf)
    requires PlacedIn(q, past)
    ensures PlacedIn(q, past.(handed := past.handed + [p], dropped := past.dropped + [p]))
  {
  }

  lemma ConsumedIsPlaced(q: View<Pbuf>, past: History)
    requires PlacedIn(q, past) && q.packets != []
    ensures PlacedIn(View(q.packets[1..], 0, q.cnt - 1),
                     past.(consumed := past.consumed + [q.packets[0]]))
  {
    assert past.consumed + q.packets == past.consumed + [q.packets[0]] + q.packets[1..];
  }

  lemma DeliverKeepsPlacedIn(r: Repairs, n: nat, s: Rx, p: Pbuf, ok: bool)
    requires r.link && PlacedIn(s.q, s.past)
    ensures var s' := Step(r, n, s, Deliver(Some(p), ok));
            && PlacedIn(s'.q, s'.past) && s'.past.consumed == s.past.consumed
            && s'.past.dropped == if ok && !IsFull(n, s) then s.past.dropped else s.past.dropped + [p]
  {
    var s' := Step(r, n, s, Deliver(Some(p), ok));
    if ok && !IsFull(n, s) {
      QueuedIsPlaced(s.q, s.past, p);
      assert s'.q == View(s.q.packets + [p], 0, s.q.cnt + 1) && s'.past.handed == s.past.handed + [p]
             && s'.past.accepted == s.past.accepted + [p] && s'.past.dropped == s.past.dropped;
    } else {
      DroppedIsPlaced(s.q, s.past, p);
      assert s'.q == s.q && s'.past.handed == s.past.handed + [p]
             && s'.past.accepted == s.past.accepted && s'.past.dropped == s.past.dropped + [p];
    }
  }

  lemma DeliverTouchesOne(r: Repairs, n: nat, s: Rx, p: Pbuf, ok: bool)
    requires p.id !in s.refs
    ensures var s' := Step(r, n, s, Deliver(Some(p), ok));
            && (forall id :: id in s.refs ==> RefCount(s'.refs, id) == s.refs[id])
            && (r.hold ==> RefCount(s'.refs, p.id) == if ok && !IsFull(n, s) then 1 else 0)
  {
  }

  lemma DeliverKeepsPlaced(r: Repairs, n: nat, s: Rx, p: Pbuf, ok: bool)
    requires r.link && Counted(r, s) && Placed(r, s) && p.id !in s.refs
    ensures Placed(r, Step(r, n, s, Deliver(Some(p), ok)))
  {
    PlacedAreKnown(r, s);
    DeliverKeepsPlacedIn(r, n, s, p, ok);
    DeliverTouchesOne(r, n, s, p, ok);
  }

  lemma ConsumeKeepsPlaced(r: Repairs, n: nat, s: Rx, found: Pbuf)
    requires r.link && Counted(r, s) && Placed(r, s) && s.q.packets != []
    ensures Placed(r, Step(r, n, s, Read(true, found)))
  {
    PlacedAreKnown(r, s);
    ConsumedIsPlaced(s.q, s.past);
    assert r.hold ==> Step(r, n, s, Read(true, found)).refs == s.refs[s.q.packets[0].id := 0];
  }

  lemma StepKeepsPlaced(r: Repairs, n: nat, s: Rx, e: Event)
    requires r.link && Counted(r, s) && Placed(r, s)
    requires e.Deliver? && e.p.Some? ==> e.p.value.id !in s.refs
    ensures Placed(r, Step(r, n, s, e))
  {
    match e
    case Deliver(Some(p), ok) => DeliverKeepsPlaced(r, n, s, p, ok);
    case Read(true, found) =>
      if s.q.packets != [] {
        ConsumeKeepsPlaced(r, n, s, found);
      }
    case _ =>
  }

  ghost predicate SaneQueue(s: Rx) {
    |s.q.packets| <= s.q.cnt <= |s.q.packets| + s.q.lost
  }

  lemma StepKeepsSane(r: Repairs, n: nat, s: Rx, e: Event)
    requires SaneQueue(s)
    ensures SaneQueue(Step(r, n, s, e))
  {
  }

  lemma DeliveryIsKnown(r: Repairs, n: nat, s: Rx, p: Pbuf, ok: bool)
    ensures Step(r, n, s, Deliver(Some(p), ok)).refs.Keys == s.refs.Keys + {p.id}
  {
  }

  lemma StepKnows(r: Repairs, n: nat, s: Rx, e: Event)
    ensures Step(r, n, s, e).refs.Keys ==
              s.refs.Keys + if e.Deliver? && e.p.Some? then {e.p.value.id} else {}
  {
    match e
    case Deliver(Some(p), ok) => DeliveryIsKnown(r, n, s, p, ok);
    case Deliver(None, _) =>
    case Read(true, found) =>
      var (q, head) := AbsPop(s.q);
      if head.Some? {
        assert ConsumePacket(r, s.(q := q), head.value, found).refs.Keys == s.refs.Keys;
      }
    case Read(false, _) =>
  }

  /** What the first event of a run leaves for the rest of it. */
  lemma FirstStepOwns(r: Repairs, n: nat, s: Rx, es: seq<Event>)
    requires es != [] && Counted(r, s) && SaneQueue(s) && FreshHandOvers(s.refs.Keys, es)
    ensures var s' := Step(r, n, s, es[0]);
            Counted(r, s') && SaneQueue(s') && FreshHandOvers(s'.refs.Keys, es[1..])
  {
    StepKeepsCounted(r, n, s, es[0]);
    StepKeepsSane(r, n, s, es[0]);
    StepKnows(r, n, s, es[0]);
    assert s.refs.Keys + {} == s.refs.Keys;
  }

  lemma {:induction false} RunKeepsOwnership(r: Repairs, n: nat, s: Rx, es: seq<Event>)
    requires Counted(r, s) && SaneQueue(s) && FreshHandOvers(s.refs.Keys, es)
    requires r.link ==> Placed(r, s)
    ensures var s' := Run(r, n, s, es);
            Counted(r, s') && SaneQueue(s') && (r.link ==> Placed(r, s'))
    decreases |es|
  {
    if es != [] {
      FirstStepOwns(r, n, s, es);
      if r.link {
        StepKeepsPlaced(r, n, s, es[0]);
      }
      RunKeepsOwnership(r, n, Step(r, n, s, es[0]), es[1..]);
    }
  }

  lemma QueuedExactlyWhenHeld(r: Repairs, s: Rx)
    requires r.hold && Counted(r, s) && Placed(r, s)
    ensures forall p :: p in s.past.handed ==> (p in s.q.packets <==> p.id !in s.past.freed)
  {
    forall p | p in s.past.handed
      ensures p in s.q.packets <==> p.id !in s.past.freed
    {
      assert p in multiset(s.past.accepted) + multiset(s.past.dropped);
      assert p in s.q.packets || p in s.past.consumed + s.past.dropped;
    }
  }

  /** Ownership conservation: over every run of deliveries, failures and reads, each
      packet handed over is in exactly one of queued, consumed and dropped; accepted
      packets leave in order; exactly the packets no longer queued have been released,
      each once; and no released packet is read or released again. */
  lemma PacketOwnership(r: Repairs, n: nat, window: nat, es: seq<Event>)
    requires r.link && r.hold && FreshHandOvers({}, es)
    ensures var s := Run(r, n, Initial(window), es);
            && multiset(s.past.handed) ==
                 multiset(s.q.packets) + multiset(s.past.consumed) + multiset(s.past.dropped)
            && s.past.accepted == s.past.consumed + s.q.packets
            && (forall p :: p in s.past.handed ==> (p in s.q.packets <==> p.id !in s.past.freed))
            && (forall j, k :: 0 <= j < k < |s.past.freed| ==> s.past.freed[j] != s.past.freed[k])
            && s.past.doubleFrees == 0 && s.past.releasedReads == 0
  {
    assert Initial(window).refs.Keys == {};
    RunKeepsOwnership(r, n, Initial(window), es);
    var s := Run(r, n, Initial(window), es);
    assert multiset(s.past.accepted) == multiset(s.past.consumed) + multiset(s.q.packets);
    QueuedExactlyWhenHeld(r, s);
  }

  // ---------------------------------------------------------------------------
  // Releases, for every combination of repairs

  function Ids(s: seq<Pbuf>): seq<nat> {
    seq(|s|, k requires 0 <= k < |s| => s[k].id)
  }

  /** Without `hold` the packets are released in the order they are handed over; with it
      they are those consumed and those dropped. */
  ghost predicate Released(r: Repairs, past: History) {
    if r.hold then multiset(past.freed) == multiset(Ids(past.consumed)) + multiset(Ids(past.dropped))
    else past.freed == Ids(past.handed)
  }

  lemma IdsAppend(s: seq<Pbuf>, p: Pbuf)
    ensures Ids(s + [p]) == Ids(s) + [p.id]
  {
  }

  lemma DeliveryReleases(r: Repairs, n: nat, s: Rx, p: Pbuf, ok: bool)
    requires p.id !in s.refs
    ensures var past, past' := s.past, Step(r, n, s, Deliver(Some(p), ok)).past;
            var drops := !ok || IsFull(n, s);
            && past'.handed == past.handed + [p] && past'.consumed == past.consumed
            && past'.dropped == (if drops then past.dropped + [p] else past.dropped)
            && past'.freed == if drops || !r.hold then past.freed + [p.id] else past.freed
  {
  }

  lemma ReadReleases(r: Repairs, n: nat, s: Rx, found: Pbuf)
    requires Counted(r, s) && SaneQueue(s) && s.q.packets != []
    ensures var past, past', p := s.past, Step(r, n, s, Read(true, found)).past, s.q.packets[0];
            && past'.handed == past.handed && past'.dropped == past.dropped
            && past'.consumed == past.consumed + [p]
            && past'.freed == if r.hold then past.freed + [p.id] else past.freed
  {
    assert s.q.packets[0] in s.q.packets;
  }

  lemma StepReleases(r: Repairs, n: nat, s: Rx, e: Event)
    requires Counted(r, s) && SaneQueue(s) && Released(r, s.past)
    requires e.Deliver? && e.p.Some? ==> e.p.value.id !in s.refs
    ensures Released(r, Step(r, n, s, e).past)
  {
    match e
    case Deliver(Some(p), ok) =>
      DeliveryReleases(r, n, s, p, ok);
      IdsAppend(s.past.handed, p);
      IdsAppend(s.past.dropped, p);
    case Read(true, found) =>
      if s.q.packets != [] {
        ReadReleases(r, n, s, found);
        IdsAppend(s.past.consumed, s.q.packets[0]);
      }
    case _ =>
  }

  lemma {:induction false} RunReleases(r: Repairs, n: nat, s: Rx, es: seq<Event>)
    requires Counted(r, s) && SaneQueue(s) && Released(r, s.past) && FreshHandOvers(s.refs.Keys, es)
    ensures Released(r, Run(r, n, s, es).past)
    decreases |es|
  {
    if es != [] {
      StepReleases(r, n, s, es[0]);
      FirstStepOwns(r, n, s, es);
      RunReleases(r, n, Step(r, n, s, es[0]), es[1..]);
    }
  }

  /** Which packets are released, after every run and for every combination of repairs: as
      written each one handed over, in that order; with `hold` those consumed and those
      dropped, each once. */
  lemma ReleasedExactly(r: Repairs, n: nat, window: nat, es: seq<Event>)
    requires FreshHandOvers({}, es)
    ensures Released(r, Run(r, n, Initial(window), es).past)
  {
    assert Initial(window).refs.Keys == {};
    RunReleases(r, n, Initial(window), es);
  }

  // ---------------------------------------------------------------------------
  // The same laws without the repairs

  /** Reads that meet a packet. */
  function PacketReads(r: Repairs, n: nat, s: Rx, es: seq<Event>): nat
    decreases |es|
  {
    if es == [] then 0
    else
      (if es[0].Read? && es[0].hasBuffer && s.q.packets != [] then 1 else 0)
      + PacketReads(r, n, Step(r, n, s, es[0]), es[1..])
  }

  lemma {:induction false} ConsumedIsRead(r: Repairs, n: nat, s: Rx, es: seq<Event>)
    requires SaneQueue(s)
    ensures |Run(r, n, s, es).past.consumed| == |s.past.consumed| + PacketReads(r, n, s, es)
    decreases |es|
  {
    if es != [] {
      StepKeepsSane(r, n, s, es[0]);
      ConsumedIsRead(r, n, Step(r, n, s, es[0]), es[1..]);
    }
  }

  /** The code as written releases every packet once, on receipt; so a run reads released
      memory exactly when some read meets a non-empty list. */
  lemma NoReleasedReadExactlyWhen(r: Repairs, n: nat, window: nat, es: seq<Event>)
    requires FreshHandOvers({}, es)
    ensures var s := Run(r, n, Initial(window), es);
            && s.past.doubleFrees == 0
            && (s.past.releasedReads == 0 <==> r.hold || PacketReads(r, n, Initial(window), es) == 0)
  {
    assert Initial(window).refs.Keys == {};
    RunKeepsOwnership(r, n, Initial(window), es);
    ConsumedIsRead(r, n, Initial(window), es);
  }

  /** A delivery that takes a slot while the list is not empty, without the tail link. */
  predicate Strands(r: Repairs, n: nat, s: Rx, e: Event) {
    e.Deliver? && e.ok && e.p.Some? && !r.link && s.q.packets != [] && !IsFull(n, s)
  }

  predicate NeverStrands(r: Repairs, n: nat, s: Rx, es: seq<Event>)
    decreases |es|
  {
    es == [] || (!Strands(r, n, s, es[0]) && NeverStrands(r, n, Step(r, n, s, es[0]), es[1..]))
  }

  /** Without a stranding step the places stay as with the tail link; after one there is
      a packet in no place, and it stays so. */
  ghost predicate InPlace(s: Rx) {
    multiset(s.past.handed) == multiset(s.q.packets) + multiset(s.past.consumed) + multiset(s.past.dropped)
  }

  lemma PlacedIsInPlace(s: Rx)
    requires PlacedIn(s.q, s.past)
    ensures InPlace(s)
  {
  }

  ghost predicate LostOne(s: Rx) {
    |s.past.handed| > |s.q.packets| + |s.past.consumed| + |s.past.dropped|
  }

  lemma LostIsOutOfPlace(s: Rx)
    requires LostOne(s)
    ensures !InPlace(s)
  {
    var places := multiset(s.q.packets) + multiset(s.past.consumed) + multiset(s.past.dropped);
    assert |places| < |multiset(s.past.handed)|;
  }

  lemma StepPlaces(r: Repairs, n: nat, s: Rx, e: Event)
    requires SaneQueue(s)
    ensures var s' := Step(r, n, s, e);
            && (PlacedIn(s.q, s.past) && !Strands(r, n, s, e) ==> PlacedIn(s'.q, s'.past))
            && (PlacedIn(s.q, s.past) && Strands(r, n, s, e) ==> LostOne(s'))
            && (LostOne(s) ==> LostOne(s'))
  {
    match e
    case Deliver(Some(p), ok) =>
      if ok && !IsFull(n, s) {
        TakenPlaces(r, n, s, p);
      } else {
        DroppedPlaces(r, n, s, p, ok);
      }
    case Read(true, found) =>
      if s.q.packets != [] {
        ConsumedPlaces(r, n, s, found);
      }
    case _ =>
  }

  lemma TakenPlaces(r: Repairs, n: nat, s: Rx, p: Pbuf)
    requires SaneQueue(s) && !IsFull(n, s)
    ensures var e, s' := Deliver(Some(p), true), Step(r, n, s, Deliver(Some(p), true));
            && (PlacedIn(s.q, s.past) && !Strands(r, n, s, e) ==> PlacedIn(s'.q, s'.past))
            && (PlacedIn(s.q, s.past) && Strands(r, n, s, e) ==> LostOne(s'))
            && (LostOne(s) ==> LostOne(s'))
  {
    var s' := Step(r, n, s, Deliver(Some(p), true));
    assert s'.past.handed == s.past.handed + [p] && s'.past.accepted == s.past.accepted + [p];
    assert s'.past.consumed == s.past.consumed && s'.past.dropped == s.past.dropped;
    if r.link || s.q.packets == [] {
      assert s'.q == View(s.q.packets + [p], s.q.lost, s.q.cnt + 1);
      if PlacedIn(s.q, s.past) {
        QueuedIsPlaced(s.q, s.past, p);
      }
    } else {
      assert s'.q.packets == s.q.packets;
      if PlacedIn(s.q, s.past) {
        PlacedSize(s.q, s.past);
      }
    }
  }

  lemma PlacedSize(q: View<Pbuf>, past: History)
    requires PlacedIn(q, past)
    ensures |past.handed| == |q.packets| + |past.consumed| + |past.dropped|
  {
    assert |multiset(past.handed)| == |multiset(past.accepted) + multiset(past.dropped)|;
  }

  lemma DroppedPlaces(r: Repairs, n: nat, s: Rx, p: Pbuf, ok: bool)
    requires !ok || IsFull(n, s)
    ensures var s' := Step(r, n, s, Deliver(Some(p), ok));
            && (PlacedIn(s.q, s.past) ==> PlacedIn(s'.q, s'.past))
            && (LostOne(s) ==> LostOne(s'))
  {
    var s' := Step(r, n, s, Deliver(Some(p), ok));
    assert s'.q == s.q && s'.past.handed == s.past.handed + [p] && s'.past.dropped == s.past.dropped + [p];
    assert s'.past.accepted == s.past.accepted && s'.past.consumed == s.past.consumed;
    if PlacedIn(s.q, s.past) {
      DroppedIsPlaced(s.q, s.past, p);
    }
  }

  lemma ConsumedPlaces(r: Repairs, n: nat, s: Rx, found: Pbuf)
    requires SaneQueue(s) && s.q.packets != []
    ensures var s' := Step(r, n, s, Read(true, found));
            && (PlacedIn(s.q, s.past) ==> PlacedIn(s'.q, s'.past))
            && (LostOne(s) ==> LostOne(s'))
  {
    var s' := Step(r, n, s, Read(true, found));
    assert s'.q == View(s.q.packets[1..], s.q.lost, s.q.cnt - 1);
    assert s'.past.handed == s.past.handed && s'.past.dropped == s.past.dropped;
    assert s'.past.accepted == s.past.accepted && s'.past.consumed == s.past.consumed + [s.q.packets[0]];
    if PlacedIn(s.q, s.past) {
      ConsumedIsPlaced(s.q, s.past);
    }
  }

  lemma {:induction false} RunPlaces(r: Repairs, n: nat, s: Rx, es: seq<Event>)
    requires SaneQueue(s)
    ensures var s' := Run(r, n, s, es);
            && (LostOne(s) ==> LostOne(s'))
            && (PlacedIn(s.q, s.past) ==>
                  if NeverStrands(r, n, s, es) then PlacedIn(s'.q, s'.past) else LostOne(s'))
    decreases |es|
  {
    if es != [] {
      StepPlaces(r, n, s, es[0]);
      StepKeepsSane(r, n, s, es[0]);
      RunPlaces(r, n, Step(r, n, s, es[0]), es[1..]);
    }
  }

  /** Each packet handed over is queued, consumed or dropped, after a run, exactly when no
      delivery of the run takes a slot while the list is not empty and the tail link is
      missing. */
  lemma InPlaceExactlyWhen(r: Repairs, n: nat, window: nat, es: seq<Event>)
    ensures InPlace(Run(r, n, Initial(window), es)) <==> NeverStrands(r, n, Initial(window), es)
  {
    var s := Run(r, n, Initial(window), es);
    RunPlaces(r, n, Initial(window), es);
    if NeverStrands(r, n, Initial(window), es) {
      PlacedIsInPlace(s);
    } else {
      LostIsOutOfPlace(s);
    }
  }

  // ---------------------------------------------------------------------------

  /** The deliveries that end the connection: an error, or a NULL packet. */
  function Endings(es: seq<Event>): nat {
    if es == [] then 0
    else Endings(es[1..]) + if es[0].Deliver? && (!es[0].ok || es[0].p.None?) then 1 else 0
  }

  function NullDeliveries(es: seq<Event>): nat {
    if es == [] then 0
    else NullDeliveries(es[1..]) + if es[0].Deliver? && es[0].p.None? then 1 else 0
  }

  /** The connection is closed once for every such delivery and at no other time; a NULL
      packet is passed to pbuf_free all the same. */
  lemma {:induction false} ClosedOncePerEnding(r: Repairs, n: nat, s: Rx, es: seq<Event>)
    ensures var s' := Run(r, n, s, es);
            && s'.closes == s.closes + Endings(es)
            && s'.past.nullFrees == s.past.nullFrees + NullDeliveries(es)
    decreases |es|
  {
    if es != [] {
      ClosedOncePerEnding(r, n, Step(r, n, s, es[0]), es[1..]);
    }
  }
}
