/** One losing interleaving for each decision of the code, and the conclusion that all
    four repairs are needed. */
module Races {
  import opened Options
  import opened MemPool
  import opened RxQueue
  import opened MicroSteps

  const EMPTY: Slot<int> := Slot(Null, None, Free)

  function Full(p: int): Slot<int> {
    Slot(Null, Some(p), Acquired)
  }

  /** One packet, queued and counted, over a pool of two slots. */
  function One(): World<int> {
    World(Queue([Full(7), EMPTY], At(0), 1), Outside, Idle, [7], [])
  }

  /** Turns a push onto the empty list takes. */
  function FirstPush(v: Variant): nat {
    if v.atomicLink then 5 else 6
  }

  /** Turns a pop takes. */
  function OnePop(v: Variant): nat {
    if v.atomicPop then 5 else 6
  }

  lemma PushOne(v: Variant)
    ensures Schedule(v, Start(2), Turns(FirstPush(v), Produce(7))) == One()
  {
    var w0: World<int> := Start(2);
    var holding := w0.(q := Queue([EMPTY.(state := Acquired), EMPTY], Null, 0), prod := Holding(7, Null, 0));
    var stored := w0.(q := Queue([Full(7), EMPTY], Null, 1), prod := Stored(7, Null, 0));
    var k := FirstPush(v);
    Again(v, w0, k, Produce(7));
    Again(v, w0.(prod := Entered(7, Null)), k - 1, Produce(7));
    assert w0.q.slots == [EMPTY, EMPTY];
    assert TurnStep(v, w0.(prod := Entered(7, Null)), Produce(7)) == holding;
    Again(v, holding, k - 2, Produce(7));
    Again(v, TurnStep(v, holding, Produce(7)), k - 3, Produce(7));
    assert TurnStep(v, TurnStep(v, holding, Produce(7)), Produce(7)) == stored;
    LinkFirstOne(v, stored, 7);
  }

  /** The last steps of a push onto the empty list. */
  lemma LinkFirstOne(v: Variant, w: World<int>, p: int)
    requires w.prod.Stored? && w.prod.seen == w.q.head == Null
    ensures Schedule(v, w, Turns(if v.atomicLink then 1 else 2, Produce(p))) ==
              w.(q := w.q.(head := At(w.prod.slot)), prod := Outside, accepted := w.accepted + [w.prod.p])
  {
    if !v.atomicLink {
      Again(v, w, 2, Produce(p));
      assert TurnStep(v, w, Produce(p)) == w.(prod := Found(w.prod.p, Null, w.prod.slot, Null));
    }
    var w1 := if v.atomicLink then w else TurnStep(v, w, Produce(p));
    Again(v, w1, 1, Produce(p));
  }

  /** A pop of the only packet, whatever the producer is doing meanwhile. */
  lemma PopOnly(v: Variant, w: World<int>, h: nat, p: int)
    requires w.cons.Idle? && w.q.cnt == 1 && w.q.head == At(h) && h < |w.q.slots| && w.q.slots[h] == Full(p)
    ensures Schedule(v, w, Turns(OnePop(v), Consume)) ==
              w.(q := Queue(w.q.slots[h := Full(p).(state := Free)], Null, 0), returned := w.returned + [p])
  {
    var k := OnePop(v);
    var unlinked := w.(q := w.q.(head := Null), cons := Unlinked(h, Some(p)));
    Again(v, w, k, Consume);
    Again(v, w.(cons := Tested), k - 1, Consume);
    Again(v, w.(cons := Reading(At(h))), k - 2, Consume);
    if !v.atomicPop {
      Again(v, w.(cons := Loaded(h, Some(p), Null)), k - 3, Consume);
    }
    Again(v, unlinked, 2, Consume);
    Again(v, TurnStep(v, unlinked, Consume), 1, Consume);
  }

  lemma CountFirst(v: Variant)
    ensures Schedule(v, Start(2), Turns(3, Produce(7))) ==
              World(Queue([EMPTY.(state := Acquired), EMPTY], Null, 1), Counted(7, Null, 0), Idle, [], [])
  {
    var w0: World<int> := Start(2);
    var entered := w0.(prod := Entered(7, Null));
    assert w0.q.slots == [EMPTY, EMPTY];
    Again(v, w0, 3, Produce(7));
    Again(v, entered, 2, Produce(7));
    Again(v, TurnStep(v, entered, Produce(7)), 1, Produce(7));
  }

  /** A pop that tests a positive counter and finds no node. */
  lemma PopNothing(v: Variant, w: World<int>)
    requires !v.tiedCount && w.cons.Idle? && w.q.head == Null && w.q.cnt == 1
    ensures Schedule(v, w, Turns(4, Consume)) == w.(q := w.q.(cnt := 0))
  {
    Again(v, w, 4, Consume);
    Again(v, w.(cons := Tested), 3, Consume);
    Again(v, w.(cons := Reading(Null)), 2, Consume);
    Again(v, w.(cons := FoundNone), 1, Consume);
  }

  /** Counting before linking opens a window in which a pop finds the counter positive
      and the head NULL. When that pop decrements, the packet ends up on a list that
      the counter says is empty. */
  lemma UntiedCountBreaks(v: Variant)
    requires !v.tiedCount
    ensures var k := if v.atomicLink then 2 else 3;
            !Law(Schedule(v, Start(2), Turns(3, Produce(7)) + Turns(4, Consume) + Turns(k, Produce(7))))
  {
    var w0: World<int> := Start(2);
    var taken := [EMPTY.(state := Acquired), EMPTY];
    var w1 := w0.(q := Queue(taken, Null, 1), prod := Counted(7, Null, 0));
    var w2 := w1.(q := Queue(taken, Null, 0));
    var stored := w2.(q := Queue([Full(7), EMPTY], Null, 0), prod := Stored(7, Null, 0));
    var k := if v.atomicLink then 2 else 3;
    CountFirst(v);
    PopNothing(v, w1);
    Again(v, w2, k, Produce(7));
    assert TurnStep(v, w2, Produce(7)) == stored;
    LinkFirstOne(v, stored, 7);
    var w3 := stored.(q := stored.q.(head := At(0)), prod := Outside, accepted := [] + [7]);
    Then(v, w0, Turns(3, Produce(7)), w1, Turns(4, Consume), w2);
    Then(v, w0, Turns(3, Produce(7)) + Turns(4, Consume), w2, Turns(k, Produce(7)), w3);
    assert Chain(w3.q) == [0] && w3.q.cnt == 0;
  }

  /** A head read before the node is acquired may name a node that is popped meanwhile,
      freed, and acquired again by this very push. The node is then made its own
      successor and its packet is never on the list. */
  lemma StaleHeadBreaks(v: Variant)
    requires !v.freshHead
    ensures var k := if v.atomicLink then 4 else 6;
            !Law(Schedule(v, Start(2), Turns(FirstPush(v), Produce(7)) + Turns(1, Produce(8))
                                       + Turns(OnePop(v), Consume) + Turns(k, Produce(8))))
  {
    var w0: World<int> := Start(2);
    var w2 := One().(prod := Entered(8, At(0)));
    var w3 := w2.(q := Queue([Full(7).(state := Free), EMPTY], Null, 0), returned := [] + [7]);
    var w4 := w3.(q := Queue([Slot(At(0), Some(8), Acquired), EMPTY], Null, 1), prod := Outside, accepted := [7] + [8]);
    var k := if v.atomicLink then 4 else 6;
    PushOne(v);
    Again(v, One(), 1, Produce(8));
    PopOnly(v, w2, 0, 7);
    SelfLink(v, w3, w4);
    Then(v, w0, Turns(FirstPush(v), Produce(7)), One(), Turns(1, Produce(8)), w2);
    Then(v, w0, Turns(FirstPush(v), Produce(7)) + Turns(1, Produce(8)), w2, Turns(OnePop(v), Consume), w3);
    Then(v, w0, Turns(FirstPush(v), Produce(7)) + Turns(1, Produce(8)) + Turns(OnePop(v), Consume), w3,
         Turns(k, Produce(8)), w4);
    assert Chain(w4.q) == [];
  }

  lemma SelfLink(v: Variant, w3: World<int>, w4: World<int>)
    requires !v.freshHead && w3.prod == Entered(8, At(0))
    requires w3.q == Queue([Full(7).(state := Free), EMPTY], Null, 0)
    requires w4 == w3.(q := Queue([Slot(At(0), Some(8), Acquired), EMPTY], Null, 1), prod := Outside,
                       accepted := w3.accepted + [8])
    ensures Schedule(v, w3, Turns(if v.atomicLink then 4 else 6, Produce(8))) == w4
  {
    var k := if v.atomicLink then 4 else 6;
    var holding := w3.(q := Queue([Full(7), EMPTY], Null, 0), prod := Holding(8, At(0), 0));
    var counted := holding.(q := Queue([Full(7), EMPTY], Null, 1), prod := Counted(8, At(0), 0));
    var stored := counted.(q := Queue([Full(8), EMPTY], Null, 1), prod := Stored(8, At(0), 0));
    Again(v, w3, k, Produce(8));
    assert TurnStep(v, w3, Produce(8)) == holding;
    Again(v, holding, k - 1, Produce(8));
    Again(v, counted, k - 2, Produce(8));
    assert TurnStep(v, counted, Produce(8)) == stored;
    Again(v, stored, k - 3, Produce(8));
    if v.atomicLink {
      assert ChainFrom(stored.q.slots, At(0), 2) == [0];
    } else {
      Again(v, stored.(prod := Walking(8, At(0), 0, 0)), 2, Produce(8));
      Again(v, stored.(prod := Found(8, At(0), 0, At(0))), 1, Produce(8));
    }
  }

  lemma StoreSecond(v: Variant, w: World<int>, k: nat)
    requires w.prod.Outside? && w.q == Queue([Full(7), EMPTY], At(0), 1) && k > 0
    ensures var stored := w.(q := Queue([Full(7), Full(8)], At(0), 2), prod := Stored(8, At(0), 1));
            Schedule(v, w, Turns(k + 4, Produce(8))) == Schedule(v, stored, Turns(k, Produce(8)))
  {
    var entered := w.(prod := Entered(8, At(0)));
    var holding := w.(q := Queue([Full(7), EMPTY.(state := Acquired)], At(0), 1), prod := Holding(8, At(0), 1));
    var counted := holding.(q := holding.q.(cnt := 2), prod := Counted(8, At(0), 1));
    Again(v, w, k + 4, Produce(8));
    Again(v, entered, k + 3, Produce(8));
    assert TurnStep(v, entered, Produce(8)) == holding;
    Again(v, holding, k + 2, Produce(8));
    Again(v, counted, k + 1, Produce(8));
    assert TurnStep(v, counted, Produce(8)) ==
           w.(q := Queue([Full(7), Full(8)], At(0), 2), prod := Stored(8, At(0), 1));
  }

  /** The second push up to the point where it has found the last node. */
  lemma WalkToLast(v: Variant, w: World<int>)
    requires !v.atomicLink && w.prod.Outside?
    requires w.q == Queue([Full(7), EMPTY], At(0), 1)
    ensures Schedule(v, w, Turns(6, Produce(8))) ==
              w.(q := Queue([Full(7), Full(8)], At(0), 2), prod := Found(8, At(0), 1, At(0)))
  {
    var stored := w.(q := Queue([Full(7), Full(8)], At(0), 2), prod := Stored(8, At(0), 1));
    StoreSecond(v, w, 2);
    Again(v, stored, 2, Produce(8));
    Again(v, stored.(prod := Walking(8, At(0), 1, 0)), 1, Produce(8));
  }

  /** A pop as far as moving the head, while the producer is about to link. */
  lemma PopWhileLinking(v: Variant, w: World<int>)
    requires w.cons.Idle? && w.q == Queue([Full(7), Full(8)], At(0), 2)
    ensures Schedule(v, w, Turns(OnePop(v) - 2, Consume)) ==
              w.(q := w.q.(head := Null), cons := Unlinked(0, Some(7)))
  {
    var k := OnePop(v) - 2;
    Again(v, w, k, Consume);
    Again(v, w.(cons := Tested), k - 1, Consume);
    Again(v, w.(cons := Reading(At(0))), k - 2, Consume);
    if !v.atomicPop {
      Again(v, w.(cons := Loaded(0, Some(7), Null)), k - 3, Consume);
    }
  }

  lemma FourParts(v: Variant, w: seq<World<int>>, t: seq<seq<Turn<int>>>)
    requires |w| == 5 && |t| == 4
    requires forall k :: 0 <= k < 4 ==> Schedule(v, w[k], t[k]) == w[k + 1]
    ensures Schedule(v, w[0], t[0] + t[1] + t[2] + t[3]) == w[4]
  {
    Then(v, w[0], t[0], w[1], t[1], w[2]);
    Then(v, w[0], t[0] + t[1], w[2], t[2], w[3]);
    Then(v, w[0], t[0] + t[1] + t[2], w[3], t[3], w[4]);
  }

  lemma EmptiedTooEarly(w: World<int>)
    requires w.q.head == Null && |w.accepted| == 2 && w.returned == [] && w.cons == Unlinked(0, Some(7))
    ensures !Law(w)
  {
    assert Chain(w.q) == [];
  }

  /** A pop between the walk and the link takes the last node off the list, and the
      packet linked behind it with it. */
  lemma LateLinkBreaks(v: Variant)
    requires !v.atomicLink
    ensures !Law(Schedule(v, Start(2), Turns(6, Produce(7)) + Turns(6, Produce(8))
                                       + Turns(OnePop(v) - 2, Consume) + Turns(1, Produce(8))))
  {
    var w0: World<int> := Start(2);
    var w2 := One().(q := Queue([Full(7), Full(8)], At(0), 2), prod := Found(8, At(0), 1, At(0)));
    var w3 := w2.(q := w2.q.(head := Null), cons := Unlinked(0, Some(7)));
    var w4 := TurnStep(v, w3, Produce(8));
    assert w4.q.head == Null && |w4.accepted| == 2 && w4.returned == [] && w4.cons == w3.cons;
    PushOne(v);
    WalkToLast(v, One());
    PopWhileLinking(v, w2);
    Again(v, w3, 1, Produce(8));
    FourParts(v, [w0, One(), w2, w3, w4],
              [Turns(6, Produce(7)), Turns(6, Produce(8)), Turns(OnePop(v) - 2, Consume), Turns(1, Produce(8))]);
    EmptiedTooEarly(w4);
  }

  /** A link between loading a node's successor and moving the head is skipped by the
      head. */
  lemma LatePopBreaks(v: Variant)
    requires !v.atomicPop
    ensures var k := if v.atomicLink then 5 else 7;
            !Law(Schedule(v, Start(2), Turns(FirstPush(v), Produce(7)) + Turns(3, Consume)
                                       + Turns(k, Produce(8)) + Turns(1, Consume)))
  {
    var w0: World<int> := Start(2);
    var k := if v.atomicLink then 5 else 7;
    var w2 := One().(cons := Loaded(0, Some(7), Null));
    var w3 := w2.(q := Queue([Full(7).(next := At(1)), Full(8)], At(0), 2), accepted := [7] + [8]);
    var w4 := w3.(q := w3.q.(head := Null), cons := Unlinked(0, Some(7)));
    PushOne(v);
    Again(v, One(), 3, Consume);
    Again(v, One().(cons := Tested), 2, Consume);
    Again(v, One().(cons := Reading(At(0))), 1, Consume);
    PushSecond(v, w2);
    Again(v, w3, 1, Consume);
    FourParts(v, [w0, One(), w2, w3, w4],
              [Turns(FirstPush(v), Produce(7)), Turns(3, Consume), Turns(k, Produce(8)), Turns(1, Consume)]);
    EmptiedTooEarly(w4);
  }

  lemma PushSecond(v: Variant, w: World<int>)
    requires w.prod.Outside? && w.q == Queue([Full(7), EMPTY], At(0), 1)
    ensures Schedule(v, w, Turns(if v.atomicLink then 5 else 7, Produce(8))) ==
              w.(q := Queue([Full(7).(next := At(1)), Full(8)], At(0), 2), accepted := w.accepted + [8])
  {
    if v.atomicLink {
      var stored := w.(q := Queue([Full(7), Full(8)], At(0), 2), prod := Stored(8, At(0), 1));
      StoreSecond(v, w, 1);
      Again(v, stored, 1, Produce(8));
      assert ChainFrom(stored.q.slots, At(0), 2) == [0];
    } else {
      var found := w.(q := Queue([Full(7), Full(8)], At(0), 2), prod := Found(8, At(0), 1, At(0)));
      WalkToLast(v, w);
      Again(v, found, 1, Produce(8));
      Then(v, w, Turns(6, Produce(8)), found, Turns(1, Produce(8)), TurnStep(v, found, Produce(8)));
      assert Turns(7, Produce(8)) == Turns(6, Produce(8)) + Turns(1, Produce(8));
    }
  }

  lemma RepairedIsSafe()
    ensures Safe(REPAIRED)
  {
    forall n: nat, turns: seq<Turn<int>> | 0 < n < COUNTER_MODULUS - 1
      ensures Law(Schedule(REPAIRED, Start(n), turns))
    {
      StartIsInv<int>(n);
      EverySchedule(Start(n), [], turns);
    }
  }

  lemma OneBreaks(v: Variant, turns: seq<Turn<int>>)
    requires !Law(Schedule(v, Start(2), turns))
    ensures !Safe(v)
  {
  }

  lemma UnrepairedIsUnsafe(v: Variant)
    requires v != REPAIRED
    ensures !Safe(v)
  {
    var a, b := FirstPush(v), OnePop(v);
    if !v.tiedCount {
      UntiedCountBreaks(v);
      OneBreaks(v, Turns(3, Produce(7)) + Turns(4, Consume) + Turns(if v.atomicLink then 2 else 3, Produce(7)));
    } else if !v.freshHead {
      StaleHeadBreaks(v);
      OneBreaks(v, Turns(a, Produce(7)) + Turns(1, Produce(8)) + Turns(b, Consume)
                   + Turns(if v.atomicLink then 4 else 6, Produce(8)));
    } else if !v.atomicLink {
      LateLinkBreaks(v);
      OneBreaks(v, Turns(6, Produce(7)) + Turns(6, Produce(8)) + Turns(b - 2, Consume) + Turns(1, Produce(8)));
    } else {
      LatePopBreaks(v);
      OneBreaks(v, Turns(a, Produce(7)) + Turns(3, Consume) + Turns(5, Produce(8))
                   + Turns(1, Consume));
    }
  }

  /** Counting before linking is safe under every interleaving, over every pool, exactly
      with all four repairs. */
  lemma SafeExactlyWhenRepaired(v: Variant)
    ensures Safe(v) <==> v == REPAIRED
  {
    if v == REPAIRED {
      RepairedIsSafe();
    } else {
      UnrepairedIsUnsafe(v);
    }
  }
}
