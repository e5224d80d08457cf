/** A push or pop of the interleaved steps that is left alone does what push and pop of the
    queue do, for every variant of the steps and whatever the other side is in the middle
    of. */
module Alone {
  import opened Options
  import opened MemPool
  import opened RxQueue
  import opened MicroSteps
  import opened Trails

  function Turnwise<P>(k: nat, turn: Turn<P>): seq<Turn<P>> {
    seq(k, _ => turn)
  }

  lemma OneTurn<P>(v: Variant, w: World<P>, k: nat, turn: Turn<P>)
    requires k > 0
    ensures Schedule(v, w, Turnwise(k, turn)) == Schedule(v, TurnStep(v, w, turn), Turnwise(k - 1, turn))
  {
    assert Turnwise(k, turn)[1..] == Turnwise(k - 1, turn);
  }

  /** Every variant gives up a push exactly when no slot is free, and takes the lowest one
      otherwise. */
  lemma GivesUpExactlyWhenFull<P>(v: Variant, w: World<P>, p: P)
    requires w.prod.Entered?
    ensures var w' := ProducerStep(v, w, p);
            && (w'.prod.Outside? <==> forall i :: 0 <= i < |w.q.slots| ==> w.q.slots[i].state != Free)
            && (w'.prod.Outside? ==> w' == w.(prod := Outside))
            && (!w'.prod.Outside? ==>
                  && w'.prod.Holding? && w'.prod.slot < |w.q.slots| && w.q.slots[w'.prod.slot].state == Free
                  && forall i :: 0 <= i < w'.prod.slot ==> w.q.slots[i].state != Free)
  {
  }

  // ---------------------------------------------------------------------------
  // The push

  /** How many turns a push takes when the list has len nodes. */
  function PushTurns(v: Variant, at: Ptr, len: nat): nat {
    if at.Null? then 2 else if v.atomicLink then 5 else 6 + len
  }

  /** The world once the slot i is taken, counted and filled. */
  function Filled<P>(w: World<P>, i: nat, p: P): World<P>
    requires i < |w.q.slots|
  {
    w.(q := Queue(w.q.slots[i := Slot(Null, Some(p), Acquired)], w.q.head, Increment(w.q.cnt)),
       prod := Stored(p, w.q.head, i))
  }

  lemma FillAlone<P>(v: Variant, w: World<P>, p: P, k: nat)
    requires w.prod.Outside? && LowestFree(w.q.slots).At?
    ensures Schedule(v, w, Turnwise(k + 4, Produce(p))) ==
              Schedule(v, Filled(w, LowestFree(w.q.slots).index, p), Turnwise(k, Produce(p)))
  {
    var i := LowestFree(w.q.slots).index;
    var entered := w.(prod := Entered(p, w.q.head));
    var holding := w.(q := w.q.(slots := SetState(w.q.slots, At(i), Acquired)), prod := Holding(p, w.q.head, i));
    var counted := holding.(q := holding.q.(cnt := Increment(w.q.cnt)), prod := Counted(p, w.q.head, i));
    OneTurn(v, w, k + 4, Produce(p));
    OneTurn(v, entered, k + 3, Produce(p));
    OneTurn(v, holding, k + 2, Produce(p));
    OneTurn(v, counted, k + 1, Produce(p));
    assert TurnStep(v, counted, Produce(p)) == Filled(w, i, p);
  }

  lemma {:induction false} WalkAlone<P>(v: Variant, w: World<P>, c: seq<nat>, j: nat, p: P, k: nat)
    requires w.prod.Walking? && j < |c| && w.prod.at == c[j] && Linked(w.q.slots, w.prod.seen, c)
    ensures Schedule(v, w, Turnwise(|c| - j + k, Produce(p))) ==
              Schedule(v, w.(prod := Found(w.prod.p, w.prod.seen, w.prod.slot, End(c))), Turnwise(k, Produce(p)))
    decreases |c| - j
  {
    OneTurn(v, w, |c| - j + k, Produce(p));
    if j + 1 < |c| {
      assert w.q.slots[c[j]].next == At(c[j + 1]);
      WalkAlone(v, w.(prod := w.prod.(at := c[j + 1])), c, j + 1, p, k);
    }
  }

  /** From the filled slot to the link. */
  lemma LinkAlone<P>(v: Variant, w: World<P>, c: seq<nat>, p: P)
    requires w.prod.Stored? && w.prod.seen == w.q.head && Linked(w.q.slots, w.q.head, c) && Distinct(c)
    ensures Schedule(v, w, Turnwise(if v.atomicLink then 1 else 2 + |c|, Produce(p))) ==
              w.(q := LinkAt(w.q, End(c), w.prod.slot), prod := Outside, accepted := w.accepted + [w.prod.p])
  {
    var slot := w.prod.slot;
    if v.atomicLink {
      ListSize(|w.q.slots|, c);
      ChainIsLinked(w.q.slots, w.q.head, c, |w.q.slots|);
      OneTurn(v, w, 1, Produce(p));
    } else {
      var found := w.(prod := Found(w.prod.p, w.q.head, slot, End(c)));
      OneTurn(v, w, 2 + |c|, Produce(p));
      if c != [] {
        WalkAlone(v, w.(prod := Walking(w.prod.p, w.q.head, slot, c[0])), c, 0, p, 1);
      }
      OneTurn(v, found, 1, Produce(p));
    }
  }

  /** What the link leaves is what the push of the queue stores. */
  lemma LinkIsPush<P>(w: World<P>, c: seq<nat>, i: nat, p: P)
    requires Linked(w.q.slots, w.q.head, c) && Distinct(c) && i < |w.q.slots| && i !in c
    ensures LinkAt(Filled(w, i, p).q, End(c), i) == Push(true, At(i), w.q, p).0
    ensures Linked(Filled(w, i, p).q.slots, w.q.head, c)
  {
    ListSize(|w.q.slots|, c);
    ChainIsLinked(w.q.slots, w.q.head, c, |w.q.slots|);
    SameNexts(w.q.slots, Filled(w, i, p).q.slots, w.q.head, c);
    if c != [] {
      assert c[|c| - 1] in c;
    }
  }

  /** From every moment at which the law holds and no push is under way, a push that runs
      alone is the queue's push, whatever a pop is in the middle of. */
  lemma PushAlone<P>(v: Variant, w: World<P>, p: P)
    requires Law(w) && w.prod.Outside?
    ensures var at := LowestFree(w.q.slots);
            var (q', accepted) := Push(true, at, w.q, p);
            Schedule(v, w, Turnwise(PushTurns(v, at, |Chain(w.q)|), Produce(p))) ==
              w.(q := q', accepted := if accepted then w.accepted + [p] else w.accepted)
  {
    var at, c := LowestFree(w.q.slots), Chain(w.q);
    if at.Null? {
      OneTurn(v, w, 2, Produce(p));
      OneTurn(v, w.(prod := Entered(p, w.q.head)), 1, Produce(p));
    } else {
      var filled := Filled(w, at.index, p);
      LinkIsPush(w, c, at.index, p);
      FillAlone(v, w, p, if v.atomicLink then 1 else 2 + |c|);
      LinkAlone(v, filled, c, p);
    }
  }

  // ---------------------------------------------------------------------------
  // The pop

  /** How many turns a pop takes. */
  function PopTurns<P>(v: Variant, q: Queue<P>): nat {
    if q.cnt == 0 then 1
    else if InPool(|q.slots|, q.head) then if v.atomicPop then 5 else 6
    else if v.tiedCount then 3 else 4
  }

  lemma TakeAlone<P>(v: Variant, w: World<P>)
    requires w.cons.Idle? && w.q.cnt > 0 && InPool(|w.q.slots|, w.q.head)
    ensures var (q', r) := Pop(w.q);
            Schedule(v, w, Turnwise(PopTurns(v, w.q), Consume)) == w.(q := q', returned := w.returned + Handed(r))
  {
    var i, k := w.q.head.index, PopTurns(v, w.q);
    var node := w.q.slots[i];
    var unlinked := w.(q := w.q.(head := node.next), cons := Unlinked(i, node.pbuf));
    var freed := unlinked.(q := unlinked.q.(slots := SetState(w.q.slots, At(i), Free)), cons := Released(node.pbuf));
    OneTurn(v, w, k, Consume);
    OneTurn(v, w.(cons := Tested), k - 1, Consume);
    OneTurn(v, w.(cons := Reading(w.q.head)), k - 2, Consume);
    if !v.atomicPop {
      OneTurn(v, w.(cons := Loaded(i, node.pbuf, node.next)), 3, Consume);
    }
    OneTurn(v, unlinked, 2, Consume);
    OneTurn(v, freed, 1, Consume);
  }

  /** From every moment at which no pop is under way, a pop that runs alone is the queue's
      pop, whatever a push is in the middle of; a tied counter is left alone where the
      code decrements it without a node. */
  lemma PopAlone<P>(v: Variant, w: World<P>)
    requires w.cons.Idle?
    ensures var (q', r) := Pop(w.q);
            Schedule(v, w, Turnwise(PopTurns(v, w.q), Consume)) ==
              w.(q := if v.tiedCount && !InPool(|w.q.slots|, w.q.head) then w.q else q',
                 returned := w.returned + Handed(r))
  {
    var k := PopTurns(v, w.q);
    if w.q.cnt > 0 && InPool(|w.q.slots|, w.q.head) {
      TakeAlone(v, w);
    } else {
      assert w.returned + [] == w.returned;
      OneTurn(v, w, k, Consume);
      if w.q.cnt > 0 {
        OneTurn(v, w.(cons := Tested), k - 1, Consume);
        OneTurn(v, w.(cons := Reading(w.q.head)), k - 2, Consume);
        if !v.tiedCount {
          OneTurn(v, w.(cons := FoundNone), 1, Consume);
        }
      }
    }
  }
}
