/** Where a walk leads that starts at a head read earlier: through the slots popped since
    then into the list, or only as far as the push's own slot if that is one of them. */
module Trails {
  import opened Options
  import opened MemPool
  import opened RxQueue
  import opened MicroSteps

  ghost function IndexOf(s: seq<nat>, i: nat): (k: nat)
    requires i in s
    ensures k < |s| && s[k] == i
  {
    var k :| 0 <= k < |s| && s[k] == i; k
  }

  /** The walk's nodes, when `gone` was popped since the head was read, c is the list and
      the push fills `slot`, whose `next` it has cleared. */
  ghost function Trail(gone: seq<nat>, c: seq<nat>, slot: nat): (t: seq<nat>)
    ensures t <= gone + c
  {
    if slot in gone then gone[..IndexOf(gone, slot) + 1] else gone + c
  }

  /** The trail of a push under way; before the packet is stored no `next` is cleared. */
  ghost predicate OnTrail<P>(w: World<P>, c: seq<nat>, gone: seq<nat>) {
    match w.prod
    case Outside => gone == []
    case Stored(_, seen, slot) => Distinct(gone + c) && Linked(w.q.slots, seen, Trail(gone, c, slot))
    case prod => Distinct(gone + c) && Linked(w.q.slots, prod.seen, gone + c)
  }

  /** A link behind the end of the walk does no harm when nothing was popped since the
      head was read, or the list has not run empty and the push was not given a popped
      slot. */
  predicate GoodLink(head: Ptr, gone: seq<nat>, slot: nat) {
    gone == [] || (head != Null && slot !in gone)
  }

  lemma TrailDistinct(gone: seq<nat>, c: seq<nat>, slot: nat)
    requires Distinct(gone + c)
    ensures Distinct(Trail(gone, c, slot))
  {
    var t := Trail(gone, c, slot);
    forall x, y | 0 <= x < y < |t|
      ensures t[x] != t[y]
    {
      assert (gone + c)[x] == t[x] && (gone + c)[y] == t[y];
    }
  }

  /** A pop moves a node from the list to the popped ones and leaves the trail alone. */
  lemma TrailSurvivesPop(gone: seq<nat>, c: seq<nat>, slot: nat)
    requires Distinct(gone + c) && c != [] && slot != c[0]
    ensures gone + [c[0]] + c[1..] == gone + c
    ensures Trail(gone + [c[0]], c[1..], slot) == Trail(gone, c, slot)
  {
    var gone' := gone + [c[0]];
    assert slot in gone' <==> slot in gone;
    if slot in gone {
      var j, k := IndexOf(gone, slot), IndexOf(gone', slot);
      assert (gone + c)[j] == slot && (gone + c)[k] == slot;
      assert j == k;
    }
  }

  /** The end of the trail is the list's end after a good link, and off the list before
      any other. */
  lemma TrailEnds(gone: seq<nat>, c: seq<nat>, slot: nat, head: Ptr)
    requires Distinct(gone + c) && slot !in c && (head == Null <==> c == [])
    ensures var t := Trail(gone, c, slot);
            if GoodLink(head, gone, slot) then End(t) == End(c)
            else t != [] && t[|t| - 1] !in c
  {
    var t := Trail(gone, c, slot);
    if slot in gone {
      assert t[|t| - 1] == slot;
    } else if c == [] && gone != [] {
      assert t == gone;
    } else {
      assert c != [] ==> (gone + c)[|gone + c| - 1] == c[|c| - 1];
    }
  }

  lemma SameNexts<P>(slots: seq<Slot<P>>, slots': seq<Slot<P>>, p: Ptr, c: seq<nat>)
    requires Linked(slots, p, c) && |slots'| == |slots|
    requires forall k :: 0 <= k < |c| ==> slots'[c[k]].next == slots[c[k]].next
    ensures Linked(slots', p, c)
  {
  }

  lemma LinkedPrefix<P>(slots: seq<Slot<P>>, slots': seq<Slot<P>>, p: Ptr, c: seq<nat>, j: nat)
    requires Linked(slots, p, c) && Distinct(c) && j < |c| && |slots'| == |slots|
    requires slots'[c[j]].next == Null
    requires forall i :: 0 <= i < |slots| && i != c[j] ==> slots'[i].next == slots[i].next
    ensures Linked(slots', p, c[..j + 1])
  {
    var d := c[..j + 1];
    forall a, b | 0 <= a < b < |d| && b == a + 1
      ensures slots'[d[a]].next == At(d[b])
    {
      assert slots[c[a]].next == At(c[b]) && c[a] != c[j];
    }
  }

  // ---------------------------------------------------------------------------
  // The repaired steps keep the trail

  lemma StoreKeepsTrail<P>(w: World<P>, c: seq<nat>, gone: seq<nat>, p: P)
    requires Inv(w, c) && OnTrail(w, c, gone) && w.prod.Counted?
    ensures OnTrail(ProducerStep(REPAIRED, w, p), c, gone)
  {
    var w', i, seen := ProducerStep(REPAIRED, w, p), w.prod.slot, w.prod.seen;
    assert OwnedByProducer(w.prod, i);
    if i in gone {
      var j := IndexOf(gone, i);
      assert (gone + c)[j] == i;
      LinkedPrefix(w.q.slots, w'.q.slots, seen, gone + c, j);
      assert (gone + c)[..j + 1] == gone[..j + 1];
    } else {
      SameNexts(w.q.slots, w'.q.slots, seen, gone + c);
    }
  }

  lemma ProducerKeepsTrail<P>(w: World<P>, c: seq<nat>, gone: seq<nat>, p: P)
    requires Inv(w, c) && OnTrail(w, c, gone) && !w.prod.Stored?
    ensures var w' := ProducerStep(REPAIRED, w, p);
            OnTrail(w', c, if w.prod.Outside? || w'.prod.Outside? then [] else gone)
  {
    var w' := ProducerStep(REPAIRED, w, p);
    match w.prod
    case Outside => assert [] + c == c;
    case Entered(_, seen) =>
      if w'.prod.Holding? {
        SameNexts(w.q.slots, w'.q.slots, seen, gone + c);
      }
    case Counted(_, _, _) => StoreKeepsTrail(w, c, gone, p);
    case _ =>
  }

  lemma PopKeepsTrail<P>(w: World<P>, c: seq<nat>, gone: seq<nat>)
    requires Inv(w, c) && OnTrail(w, c, gone) && w.cons.Reading? && w.cons.head != Null
    ensures OnTrail(ConsumerStep(REPAIRED, w), c[1..], if w.prod.Outside? then [] else gone + [c[0]])
  {
    if w.prod.Stored? {
      assert OwnedByProducer(w.prod, w.prod.slot);
      TrailSurvivesPop(gone, c, w.prod.slot);
    } else {
      assert gone + [c[0]] + c[1..] == gone + c;
    }
  }

  lemma ReleaseKeepsTrail<P>(w: World<P>, c: seq<nat>, gone: seq<nat>)
    requires Inv(w, c) && OnTrail(w, c, gone) && w.cons.Unlinked?
    ensures OnTrail(ConsumerStep(REPAIRED, w), c, gone)
  {
    var w' := ConsumerStep(REPAIRED, w);
    if w.prod.Stored? {
      SameNexts(w.q.slots, w'.q.slots, w.prod.seen, Trail(gone, c, w.prod.slot));
    } else if !w.prod.Outside? {
      SameNexts(w.q.slots, w'.q.slots, w.prod.seen, gone + c);
    }
  }

  lemma SameTrail<P>(w: World<P>, w': World<P>, c: seq<nat>, gone: seq<nat>)
    requires OnTrail(w, c, gone) && w'.q.slots == w.q.slots && w'.prod == w.prod
    ensures OnTrail(w', c, gone)
  {
  }

  lemma LookingKeepsNodes<P>(w: World<P>)
    requires !w.cons.Unlinked? && !(w.cons.Reading? && w.cons.head != Null)
    ensures var w' := ConsumerStep(REPAIRED, w);
            w'.q.slots == w.q.slots && w'.prod == w.prod
  {
  }

  lemma ConsumerKeepsTrail<P>(w: World<P>, c: seq<nat>, gone: seq<nat>)
    requires Inv(w, c) && OnTrail(w, c, gone) && !(w.cons.Reading? && w.cons.head != Null)
    ensures OnTrail(ConsumerStep(REPAIRED, w), c, gone)
  {
    if w.cons.Unlinked? {
      ReleaseKeepsTrail(w, c, gone);
    } else {
      LookingKeepsNodes(w);
      SameTrail(w, ConsumerStep(REPAIRED, w), c, gone);
    }
  }

  /** A link behind a node off the list leaves its packet off the list. */
  lemma LinkOffList<P>(w: World<P>, c: seq<nat>, last: nat)
    requires Inv(w, c) && w.prod.Stored? && last < |w.q.slots| && last !in c
    ensures var q' := LinkAt(w.q, At(last), w.prod.slot);
            Chain(q') == c && Packets(q'.slots, c) == Packets(w.q.slots, c)
  {
    var q' := LinkAt(w.q, At(last), w.prod.slot);
    SameNexts(w.q.slots, q'.slots, w.q.head, c);
    ListSize(|w.q.slots|, c);
    ChainIsLinked(q'.slots, q'.head, c, |q'.slots|);
  }
}
