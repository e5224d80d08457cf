/** Every interleaving of push and pop, for every variant of their steps, the code's own
    included: exactly which ones keep the law. */
module Interleavings {
  import opened Options
  import opened MemPool
  import opened RxQueue
  import opened MicroSteps
  import opened Trails

  // ---------------------------------------------------------------------------
  // What a schedule must avoid, told from its steps alone

  /** Decrements so far by pops that found no node. */
  function DebtStep<P>(w: World<P>, debt: nat, turn: Turn<P>): nat {
    if turn.Consume? && w.cons.FoundNone? then debt + 1 else debt
  }

  /** The slots popped since the push under way last read the head. */
  function GoneStep<P>(v: Variant, w: World<P>, gone: seq<nat>, turn: Turn<P>): seq<nat> {
    var w' := TurnStep(v, w, turn);
    match turn
    case Produce(_) =>
      var readsHead := w.prod.Outside? || (w.prod.Stored? && v.freshHead);
      if readsHead || w'.prod.Outside? then [] else gone
    case Consume =>
      if !w.prod.Outside? && w'.cons.Unlinked? && !w.cons.Unlinked? then gone + [w'.cons.slot] else gone
  }

  /** A link must be good, and nothing may have been linked behind the node that a pop is
      about to skip. */
  predicate Harmless<P>(v: Variant, w: World<P>, gone: seq<nat>, turn: Turn<P>) {
    match turn
    case Produce(_) =>
      (w.prod.Stored? && v.atomicLink && !v.freshHead) || w.prod.Found? ==>
        GoodLink(w.q.head, gone, w.prod.slot)
    case Consume =>
      w.cons.Loaded? && w.cons.slot < |w.q.slots| ==> w.q.slots[w.cons.slot].next == w.cons.next
  }

  /** At no moment do the empty-handed decrements outnumber the packets that are counted
      and not linked, or unlinked and not uncounted; and every step is harmless. */
  predicate AllHarmless<P>(v: Variant, w: World<P>, gone: seq<nat>, debt: nat, turns: seq<Turn<P>>)
    decreases |turns|
  {
    debt <= Ahead(w) &&
    (turns == [] ||
     (var turn, rest := turns[0], turns[1..];
      Harmless(v, w, gone, turn) &&
      AllHarmless(v, TurnStep(v, w, turn), GoneStep(v, w, gone, turn), DebtStep(w, debt, turn), rest)))
  }

  ghost predicate AlwaysLaw<P>(v: Variant, w: World<P>, turns: seq<Turn<P>>)
    decreases |turns|
  {
    Law(w) && (turns == [] || AlwaysLaw(v, TurnStep(v, w, turns[0]), turns[1..]))
  }

  // ---------------------------------------------------------------------------
  // The shadow: the same moment with the debt paid back and half-done steps not begun

  ghost function ShadowProducer<P>(prod: Producer<P>): Producer<P> {
    match prod
    case Walking(p, seen, slot, _) => Stored(p, seen, slot)
    case Found(p, seen, slot, _) => Stored(p, seen, slot)
    case _ => prod
  }

  ghost function ShadowConsumer<P>(cons: Consumer<P>): Consumer<P> {
    match cons
    case FoundNone => Idle
    case Loaded(slot, _, _) => Reading(At(slot))
    case _ => cons
  }

  ghost function Shadow<P>(w: World<P>, debt: nat): World<P>
    requires w.q.cnt + debt < COUNTER_MODULUS
  {
    World(w.q.(cnt := w.q.cnt + debt), ShadowProducer(w.prod), ShadowConsumer(w.cons), w.accepted, w.returned)
  }

  /** The walk stands on the trail, and ends where the trail ends. */
  ghost predicate WalkPlaced<P>(w: World<P>, c: seq<nat>, gone: seq<nat>) {
    match w.prod
    case Walking(_, _, slot, at) => at in Trail(gone, c, slot)
    case Found(_, _, slot, last) => last == End(Trail(gone, c, slot))
    case _ => true
  }

  /** What a pop has loaded is the node's packet, and its successor as it was. */
  ghost predicate LoadPlaced<P>(w: World<P>) {
    w.cons.Loaded? ==>
      && w.cons.slot < |w.q.slots| && w.cons.r == w.q.slots[w.cons.slot].pbuf
      && (w.cons.next == w.q.slots[w.cons.slot].next || w.cons.next == Null)
  }

  /** The invariant of every variant as long as all steps were harmless. */
  ghost predicate Tracked<P>(w: World<P>, c: seq<nat>, gone: seq<nat>, debt: nat) {
    && w.q.cnt + debt < COUNTER_MODULUS
    && Inv(Shadow(w, debt), c) && OnTrail(Shadow(w, debt), c, gone)
    && WalkPlaced(w, c, gone) && LoadPlaced(w)
    && (!w.cons.Idle? ==> w.q.cnt > 0)
  }

  lemma LawOfShadow<P>(w: World<P>, c: seq<nat>, gone: seq<nat>, debt: nat)
    requires Tracked(w, c, gone, debt)
    ensures Chain(w.q) == c && (Law(w) <==> debt <= Ahead(w))
  {
    var s := Shadow(w, debt);
    InvGivesChain(s, c);
    InvGivesLaw(s, c);
    assert w.q.cnt + debt == |c| + Ahead(w);
    if w.prod.Outside? && w.cons.Idle? {
      assert s.q.cnt == |c| == |Out(w.q.slots)|;
    }
  }

  // ---------------------------------------------------------------------------
  // Harmless steps keep the invariant

  ghost predicate IsEarly<P>(prod: Producer<P>) {
    prod.Outside? || prod.Entered? || prod.Holding? || prod.Counted?
  }

  /** Producer steps up to the walk are the repaired steps of the shadow. */
  lemma EarlyShadow<P>(v: Variant, w: World<P>, gone: seq<nat>, debt: nat, p: P)
    requires IsEarly(w.prod) && w.q.cnt + debt < COUNTER_MODULUS
    requires w.prod.Holding? ==> w.q.cnt + debt + 1 < COUNTER_MODULUS
    ensures var w' := ProducerStep(v, w, p);
            && w'.q.cnt + debt < COUNTER_MODULUS && w.q.cnt <= w'.q.cnt && w'.cons == w.cons
            && Shadow(w', debt) == ProducerStep(REPAIRED, Shadow(w, debt), p)
            && GoneStep(v, w, gone, Produce(p)) == (if w.prod.Outside? || w'.prod.Outside? then [] else gone)
            && (w'.prod.Outside? <==> ProducerStep(REPAIRED, Shadow(w, debt), p).prod.Outside?)
            && !w'.prod.Walking? && !w'.prod.Found?
  {
  }

  lemma EarlyKeepsNodes<P>(v: Variant, w: World<P>, c: seq<nat>, debt: nat, p: P)
    requires IsEarly(w.prod) && w.q.cnt + debt < COUNTER_MODULUS && Inv(Shadow(w, debt), c)
    ensures var w' := ProducerStep(v, w, p);
            && |w'.q.slots| == |w.q.slots|
            && forall i :: i in c && i < |w.q.slots| ==>
                 w'.q.slots[i].pbuf == w.q.slots[i].pbuf && w'.q.slots[i].next == w.q.slots[i].next
  {
    if w.prod.Counted? {
      assert OwnedByProducer(Shadow(w, debt).prod, w.prod.slot);
    }
  }

  lemma EarlyProducer<P>(v: Variant, w: World<P>, c: seq<nat>, gone: seq<nat>, debt: nat, p: P)
    requires Tracked(w, c, gone, debt) && IsEarly(w.prod)
    ensures Tracked(ProducerStep(v, w, p), c, GoneStep(v, w, gone, Produce(p)), debt)
  {
    var s := Shadow(w, debt);
    if w.prod.Holding? {
      CountRoom(s, c);
    }
    EarlyShadow(v, w, gone, debt, p);
    var c' := ProducerKeepsInv(s, c, p);
    ProducerKeepsTrail(s, c, gone, p);
    EarlyKeepsNodes(v, w, c, debt, p);
    LoadSurvives(w, ProducerStep(v, w, p), c, gone, debt);
  }

  lemma CountRoom<P>(s: World<P>, c: seq<nat>)
    requires Inv(s, c) && s.prod.Holding?
    ensures s.q.cnt + 1 < COUNTER_MODULUS
  {
    assert OwnedByProducer(s.prod, s.prod.slot);
    ListSize(|s.q.slots|, c + [s.prod.slot]);
  }

  lemma LoadSurvives<P>(w: World<P>, w': World<P>, c: seq<nat>, gone: seq<nat>, debt: nat)
    requires Tracked(w, c, gone, debt) && w'.cons == w.cons && |w'.q.slots| == |w.q.slots|
    requires forall i :: i in c && i < |w.q.slots| ==>
               w'.q.slots[i].pbuf == w.q.slots[i].pbuf &&
               (w'.q.slots[i].next == w.q.slots[i].next || w.q.slots[i].next == Null)
    ensures LoadPlaced(w')
  {
    if w.cons.Loaded? {
      assert Shadow(w, debt).cons.Reading?;
    }
  }

  /** The walk of the code goes along the trail and ends at its end. */
  lemma WalkOn<P>(v: Variant, w: World<P>, c: seq<nat>, gone: seq<nat>, debt: nat, p: P)
    requires Tracked(w, c, gone, debt) && w.prod.Walking?
    ensures Tracked(ProducerStep(v, w, p), c, gone, debt)
    ensures GoneStep(v, w, gone, Produce(p)) == gone
  {
    var t := Trail(gone, c, w.prod.slot);
    var k :| 0 <= k < |t| && t[k] == w.prod.at;
    assert Linked(w.q.slots, w.prod.seen, t);
    if k + 1 < |t| {
      assert w.q.slots[t[k]].next == At(t[k + 1]);
    }
    assert Shadow(ProducerStep(v, w, p), debt) == Shadow(w, debt);
  }

  ghost function WalkFrom<P>(v: Variant, w: World<P>): Ptr
    requires w.prod.Stored?
  {
    if v.freshHead then w.q.head else w.prod.seen
  }

  lemma WalkBeginsAs<P>(v: Variant, w: World<P>, gone: seq<nat>, debt: nat, p: P)
    requires w.prod.Stored? && !v.atomicLink && w.q.cnt + debt < COUNTER_MODULUS
    ensures var w', from := ProducerStep(v, w, p), WalkFrom(v, w);
            && w'.q == w.q && w'.cons == w.cons
            && Shadow(w', debt) == Shadow(w, debt).(prod := Stored(w.prod.p, from, w.prod.slot))
            && w'.prod == (if InPool(|w.q.slots|, from) then Walking(w.prod.p, from, w.prod.slot, from.index)
                           else Found(w.prod.p, from, w.prod.slot, Null))
            && GoneStep(v, w, gone, Produce(p)) == (if v.freshHead then [] else gone)
  {
  }

  lemma BeginsOnTrail<P>(v: Variant, w: World<P>, c: seq<nat>, gone: seq<nat>, debt: nat)
    requires Tracked(w, c, gone, debt) && w.prod.Stored?
    ensures var gone' := if v.freshHead then [] else gone;
            Distinct(gone' + c) && Linked(w.q.slots, WalkFrom(v, w), Trail(gone', c, w.prod.slot))
  {
    assert [] + c == c;
  }

  /** Without the repair the walk begins at a head read now or on entry. */
  lemma WalkBegins<P>(v: Variant, w: World<P>, c: seq<nat>, gone: seq<nat>, debt: nat, p: P)
    requires Tracked(w, c, gone, debt) && w.prod.Stored? && !v.atomicLink
    ensures Tracked(ProducerStep(v, w, p), c, GoneStep(v, w, gone, Produce(p)), debt)
  {
    WalkBeginsAs(v, w, gone, debt, p);
    BeginsOnTrail(v, w, c, gone, debt);
    SeenDoesNotMatter(Shadow(w, debt), c, WalkFrom(v, w));
  }

  lemma SeenDoesNotMatter<P>(s: World<P>, c: seq<nat>, seen: Ptr)
    requires Inv(s, c) && s.prod.Stored?
    ensures Inv(s.(prod := Stored(s.prod.p, seen, s.prod.slot)), c)
  {
    var prod := Stored(s.prod.p, seen, s.prod.slot);
    assert forall i: nat :: OwnedByProducer(prod, i) <==> OwnedByProducer(s.prod, i);
  }

  /** Where the link of a variant goes, once the walk is done. */
  function LinkEnd<P>(v: Variant, w: World<P>): Ptr
    requires w.prod.Found? || w.prod.Stored?
  {
    if w.prod.Found? then w.prod.last
    else End(ChainFrom(w.q.slots, if v.freshHead then w.q.head else w.prod.seen, |w.q.slots|))
  }

  ghost predicate Links<P>(v: Variant, w: World<P>) {
    w.prod.Found? || (w.prod.Stored? && v.atomicLink)
  }

  lemma WalkEndsOnTrail<P>(v: Variant, w: World<P>, c: seq<nat>, gone: seq<nat>, debt: nat)
    requires Tracked(w, c, gone, debt) && w.prod.Stored? && !v.freshHead
    ensures LinkEnd(v, w) == End(Trail(gone, c, w.prod.slot))
  {
    var t, n := Trail(gone, c, w.prod.slot), |w.q.slots|;
    TrailDistinct(gone, c, w.prod.slot);
    assert Linked(w.q.slots, w.prod.seen, t);
    ListSize(n, t);
    ChainIsLinked(w.q.slots, w.prod.seen, t, n);
  }

  lemma TrailInPool<P>(w: World<P>, c: seq<nat>, gone: seq<nat>, debt: nat)
    requires Tracked(w, c, gone, debt) && (w.prod.Found? || w.prod.Stored?)
    ensures var slot := w.prod.slot;
            && Distinct(gone + c) && slot !in c && (w.q.head == Null <==> c == [])
            && (forall i :: i in Trail(gone, c, slot) ==> i < |w.q.slots|)
  {
    assert OwnedByProducer(Shadow(w, debt).prod, w.prod.slot);
  }

  lemma LinkEndIs<P>(v: Variant, w: World<P>, c: seq<nat>, gone: seq<nat>, debt: nat)
    requires Tracked(w, c, gone, debt) && Links(v, w)
    ensures Harmless(v, w, gone, Produce(w.prod.p)) ==> LinkEnd(v, w) == End(c)
    ensures !Harmless(v, w, gone, Produce(w.prod.p)) ==>
              LinkEnd(v, w).At? && 0 <= LinkEnd(v, w).index < |w.q.slots| && LinkEnd(v, w).index !in c
  {
    var slot := w.prod.slot;
    TrailInPool(w, c, gone, debt);
    TrailEnds(gone, c, slot, w.q.head);
    if w.prod.Found? {
      assert LinkEnd(v, w) == End(Trail(gone, c, slot));
    } else if v.freshHead {
      InvGivesChain(Shadow(w, debt), c);
    } else {
      WalkEndsOnTrail(v, w, c, gone, debt);
    }
  }

  lemma LinkIsRepaired<P>(v: Variant, w: World<P>, c: seq<nat>, gone: seq<nat>, debt: nat, p: P)
    requires Links(v, w) && w.q.cnt + debt < COUNTER_MODULUS
    requires LinkEnd(v, w) == End(c) && ChainFrom(w.q.slots, w.q.head, |w.q.slots|) == c
    ensures var w' := ProducerStep(v, w, p);
            && w'.q == LinkAt(w.q, End(c), w.prod.slot) && w'.cons == w.cons && w'.prod == Outside
            && w'.q.cnt == w.q.cnt
            && Shadow(w', debt) == ProducerStep(REPAIRED, Shadow(w, debt), p)
            && GoneStep(v, w, gone, Produce(p)) == []
  {
  }

  lemma LinkKeepsNodes<P>(q: Queue<P>, c: seq<nat>, slot: nat)
    requires Linked(q.slots, q.head, c)
    ensures var slots' := LinkAt(q, End(c), slot).slots;
            forall i :: 0 <= i < |q.slots| ==>
              slots'[i].pbuf == q.slots[i].pbuf && (slots'[i].next == q.slots[i].next || q.slots[i].next == Null)
  {
  }

  lemma GoodLinkTracks<P>(v: Variant, w: World<P>, c: seq<nat>, gone: seq<nat>, debt: nat, p: P)
    requires Tracked(w, c, gone, debt) && Links(v, w) && Harmless(v, w, gone, Produce(p))
    ensures Tracked(ProducerStep(v, w, p), c + [w.prod.slot], GoneStep(v, w, gone, Produce(p)), debt)
  {
    var s := Shadow(w, debt);
    LinkEndIs(v, w, c, gone, debt);
    InvGivesChain(s, c);
    LinkIsRepaired(v, w, c, gone, debt, p);
    assert s.prod.Stored?;
    LinkKeepsInv(s, c, p);
    LinkKeepsNodes(w.q, c, w.prod.slot);
    LoadSurvives(w, ProducerStep(v, w, p), c, gone, debt);
  }

  lemma BadLinkBreaks<P>(v: Variant, w: World<P>, c: seq<nat>, gone: seq<nat>, debt: nat, p: P)
    requires Tracked(w, c, gone, debt) && Links(v, w) && !Harmless(v, w, gone, Produce(p))
    ensures !Law(ProducerStep(v, w, p))
  {
    var s, w', last := Shadow(w, debt), ProducerStep(v, w, p), LinkEnd(v, w);
    LinkEndIs(v, w, c, gone, debt);
    LinkOffList(s, c, last.index);
    assert w'.q == LinkAt(w.q, last, w.prod.slot);
    assert Chain(w'.q) == c && |Packets(w'.q.slots, c)| == |c|;
    assert |w.accepted| == |w.returned + InFlight(w.cons)| + |c|;
    assert |w'.accepted| == |w.accepted| + 1;
  }

  // ---------------------------------------------------------------------------
  // The consumer

  /** Steps that only look, and the empty-handed decrement, which the shadow pays back. */
  lemma LookTracks<P>(v: Variant, w: World<P>, c: seq<nat>, gone: seq<nat>, debt: nat)
    requires Tracked(w, c, gone, debt)
    requires w.cons.Idle? || w.cons.Tested? || w.cons == Reading(Null) || w.cons.FoundNone?
    ensures Tracked(ConsumerStep(v, w), c, GoneStep(v, w, gone, Consume), DebtStep(w, debt, Consume))
  {
    var s, w', debt' := Shadow(w, debt), ConsumerStep(v, w), DebtStep(w, debt, Consume);
    LookIsRepaired(v, w, gone, debt);
    LookKeepsInv(s, c);
    LookingKeepsNodes(s);
    SameTrail(s, ConsumerStep(REPAIRED, s), c, gone);
  }

  lemma LookIsRepaired<P>(v: Variant, w: World<P>, gone: seq<nat>, debt: nat)
    requires w.q.cnt + debt < COUNTER_MODULUS && (!w.cons.Idle? ==> w.q.cnt > 0)
    requires w.cons.Idle? || w.cons.Tested? || w.cons == Reading(Null) || w.cons.FoundNone?
    ensures var s, w', debt' := Shadow(w, debt), ConsumerStep(v, w), DebtStep(w, debt, Consume);
            && w'.q.cnt + debt' < COUNTER_MODULUS && w'.prod == w.prod && w'.q.slots == w.q.slots
            && !w'.cons.Loaded? && (!w'.cons.Idle? ==> w'.q.cnt > 0)
            && (Shadow(w', debt') == s || Shadow(w', debt') == ConsumerStep(REPAIRED, s))
            && GoneStep(v, w, gone, Consume) == gone
  {
  }

  /** Loading a node's packet and successor changes nothing yet. */
  lemma LoadTracks<P>(v: Variant, w: World<P>, c: seq<nat>, gone: seq<nat>, debt: nat)
    requires Tracked(w, c, gone, debt) && w.cons.Reading? && w.cons.head != Null && !v.atomicPop
    ensures Tracked(ConsumerStep(v, w), c, GoneStep(v, w, gone, Consume), debt)
  {
    assert Shadow(ConsumerStep(v, w), debt) == Shadow(w, debt);
  }

  ghost predicate Pops<P>(v: Variant, w: World<P>) {
    w.cons.Loaded? || (w.cons.Reading? && w.cons.head != Null && v.atomicPop)
  }

  lemma PopIsRepaired<P>(v: Variant, w: World<P>, c: seq<nat>, gone: seq<nat>, debt: nat)
    requires Pops(v, w) && Harmless(v, w, gone, Consume) && LoadPlaced(w)
    requires w.q.cnt + debt < COUNTER_MODULUS && c != [] && c[0] < |w.q.slots|
    requires ShadowConsumer(w.cons) == Reading(At(c[0]))
    ensures var w' := ConsumerStep(v, w);
            && w'.prod == w.prod && w'.cons.Unlinked? && w'.q == w.q.(head := w.q.slots[c[0]].next)
            && Shadow(w', debt) == ConsumerStep(REPAIRED, Shadow(w, debt))
            && GoneStep(v, w, gone, Consume) == (if w.prod.Outside? then gone else gone + [c[0]])
  {
  }

  lemma PopKeepsWalk<P>(w: World<P>, c: seq<nat>, gone: seq<nat>, debt: nat)
    requires Tracked(w, c, gone, debt) && c != [] && (w.prod.Walking? || w.prod.Found?)
    ensures Trail(gone + [c[0]], c[1..], w.prod.slot) == Trail(gone, c, w.prod.slot)
  {
    assert OwnedByProducer(Shadow(w, debt).prod, w.prod.slot);
    TrailSurvivesPop(gone, c, w.prod.slot);
  }

  lemma GoodPopTracks<P>(v: Variant, w: World<P>, c: seq<nat>, gone: seq<nat>, debt: nat)
    requires Tracked(w, c, gone, debt) && Pops(v, w) && Harmless(v, w, gone, Consume)
    ensures c != [] && Tracked(ConsumerStep(v, w), c[1..], GoneStep(v, w, gone, Consume), debt)
  {
    var s := Shadow(w, debt);
    PopIsRepaired(v, w, c, gone, debt);
    UnlinkKeepsInv(s, c);
    PopKeepsTrail(s, c, gone);
    if w.prod.Walking? || w.prod.Found? {
      PopKeepsWalk(w, c, gone, debt);
    }
  }

  /** Moving the head past packets linked meanwhile takes them off the list. */
  lemma BadPopBreaks<P>(v: Variant, w: World<P>, c: seq<nat>, gone: seq<nat>, debt: nat)
    requires Tracked(w, c, gone, debt) && Pops(v, w) && !Harmless(v, w, gone, Consume)
    ensures !Law(ConsumerStep(v, w))
  {
    var w' := ConsumerStep(v, w);
    assert w.cons.slot == c[0] && w.cons.next == Null && w.q.slots[c[0]].next != Null;
    assert |c| > 1;
    assert Chain(w'.q) == [];
    assert |w.accepted| == |w.returned| + |Packets(w.q.slots, c)|;
    assert |w'.returned + InFlight(w'.cons)| <= |w.returned| + 1;
  }

  lemma FreeKeepsShadow<P>(s: World<P>, c: seq<nat>, gone: seq<nat>)
    requires Inv(s, c) && OnTrail(s, c, gone) && (s.cons.Unlinked? || s.cons.Released?)
    ensures Inv(ConsumerStep(REPAIRED, s), c) && OnTrail(ConsumerStep(REPAIRED, s), c, gone)
  {
    if s.cons.Unlinked? {
      ReleaseKeepsInv(s, c);
      ReleaseKeepsTrail(s, c, gone);
    } else {
      UncountKeepsInv(s, c);
      LookingKeepsNodes(s);
      SameTrail(s, ConsumerStep(REPAIRED, s), c, gone);
    }
  }

  lemma FreeTracks<P>(v: Variant, w: World<P>, c: seq<nat>, gone: seq<nat>, debt: nat)
    requires Tracked(w, c, gone, debt) && (w.cons.Unlinked? || w.cons.Released?)
    ensures Tracked(ConsumerStep(v, w), c, GoneStep(v, w, gone, Consume), debt)
  {
    FreeIsRepaired(v, w, debt);
    FreeKeepsShadow(Shadow(w, debt), c, gone);
    assert GoneStep(v, w, gone, Consume) == gone;
  }

  lemma FreeIsRepaired<P>(v: Variant, w: World<P>, debt: nat)
    requires w.q.cnt > 0 && w.q.cnt + debt < COUNTER_MODULUS && (w.cons.Unlinked? || w.cons.Released?)
    ensures var w' := ConsumerStep(v, w);
            && w'.q.cnt + debt < COUNTER_MODULUS && w'.prod == w.prod && !w'.cons.Loaded?
            && Shadow(w', debt) == ConsumerStep(REPAIRED, Shadow(w, debt))
            && (w'.cons.Released? ==> w'.q.cnt > 0) && (w'.cons.Idle? || w'.cons.Released?)
  {
  }

  // ---------------------------------------------------------------------------

  lemma HarmlessTracks<P>(v: Variant, w: World<P>, c: seq<nat>, gone: seq<nat>, debt: nat, turn: Turn<P>)
    returns (c': seq<nat>)
    requires Tracked(w, c, gone, debt) && Harmless(v, w, gone, turn)
    ensures Tracked(TurnStep(v, w, turn), c', GoneStep(v, w, gone, turn), DebtStep(w, debt, turn))
  {
    c' := c;
    match turn
    case Produce(p) =>
      if Links(v, w) {
        GoodLinkTracks(v, w, c, gone, debt, p);
        c' := c + [w.prod.slot];
      } else if w.prod.Stored? {
        WalkBegins(v, w, c, gone, debt, p);
      } else if w.prod.Walking? {
        WalkOn(v, w, c, gone, debt, p);
      } else {
        EarlyProducer(v, w, c, gone, debt, p);
      }
    case Consume =>
      if Pops(v, w) {
        GoodPopTracks(v, w, c, gone, debt);
        c' := c[1..];
      } else if w.cons.Reading? && w.cons.head != Null {
        LoadTracks(v, w, c, gone, debt);
      } else if w.cons.Unlinked? || w.cons.Released? {
        FreeTracks(v, w, c, gone, debt);
      } else {
        LookTracks(v, w, c, gone, debt);
      }
  }

  lemma HarmfulBreaks<P>(v: Variant, w: World<P>, c: seq<nat>, gone: seq<nat>, debt: nat, turn: Turn<P>)
    requires Tracked(w, c, gone, debt) && !Harmless(v, w, gone, turn)
    ensures !Law(TurnStep(v, w, turn))
  {
    match turn
    case Produce(p) => BadLinkBreaks(v, w, c, gone, debt, p);
    case Consume => BadPopBreaks(v, w, c, gone, debt);
  }

  lemma {:induction false} LawWhileHarmless<P>(v: Variant, w: World<P>, c: seq<nat>, gone: seq<nat>, debt: nat,
                                              turns: seq<Turn<P>>)
    requires Tracked(w, c, gone, debt)
    ensures AlwaysLaw(v, w, turns) <==> AllHarmless(v, w, gone, debt, turns)
    decreases |turns|
  {
    LawOfShadow(w, c, gone, debt);
    if turns != [] && debt <= Ahead(w) {
      var w' := TurnStep(v, w, turns[0]);
      if Harmless(v, w, gone, turns[0]) {
        var c' := HarmlessTracks(v, w, c, gone, debt, turns[0]);
        LawWhileHarmless(v, w', c', GoneStep(v, w, gone, turns[0]), DebtStep(w, debt, turns[0]), turns[1..]);
      } else {
        HarmfulBreaks(v, w, c, gone, debt, turns[0]);
        assert !AlwaysLaw(v, w', turns[1..]);
      }
    }
  }

  /** For every variant of the steps, the code's own (AS_WRITTEN) included, every pool and
      every interleaving: the law holds at every moment exactly when no link goes astray,
      no pop skips a packet linked meanwhile, and the empty-handed decrements never
      outnumber the packets the counter runs ahead by. */
  lemma LawExactlyWhenHarmless<P>(v: Variant, n: nat, turns: seq<Turn<P>>)
    requires 0 < n < COUNTER_MODULUS - 1
    ensures AlwaysLaw(v, Start<P>(n), turns) <==> AllHarmless(v, Start<P>(n), [], 0, turns)
  {
    StartIsInv<P>(n);
    LawWhileHarmless(v, Start<P>(n), [], [], 0, turns);
  }
}
