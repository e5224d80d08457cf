/** Push and pop of src/TcpIp.c interleaved: one producer (the lwIP receive callback) and
    one consumer (TcpIp_recv) whose steps alternate in any order.

    A push is the steps: read the head, acquire a node, count++, store the packet, walk
    node by node, link. A pop is the steps: test the counter, read the head, load its
    packet and successor, move the head, free the slot, count--. The tail link is
    repaired throughout. Four more decisions are left open as a variant; with all of
    them false the steps are the code's own:
      freshHead   the walk starts at the head as it is then; as written it starts at the
                  head that was read on entry, before the node was acquired
      tiedCount   a pop that found no node leaves the counter alone; as written it
                  decrements all the same
      atomicLink  the walk and the link are one step; as written a pop may come between
      atomicPop   loading the successor and moving the head are one step; as written a
                  link may come between */
module MicroSteps {
  import opened Options
  import opened MemPool
  import opened RxQueue

  datatype Variant = Variant(freshHead: bool, tiedCount: bool, atomicLink: bool, atomicPop: bool)

  datatype Producer<+P> =
    | Outside
    | Entered(p: P, seen: Ptr)
    | Holding(p: P, seen: Ptr, slot: nat)
    | Counted(p: P, seen: Ptr, slot: nat)
    | Stored(p: P, seen: Ptr, slot: nat)
    | Walking(p: P, seen: Ptr, slot: nat, at: nat)
    | Found(p: P, seen: Ptr, slot: nat, last: Ptr)

  datatype Consumer<+P> =
    | Idle
    | Tested
    | Reading(head: Ptr)
    | FoundNone
    | Loaded(slot: nat, r: Option<P>, next: Ptr)
    | Unlinked(slot: nat, r: Option<P>)
    | Released(r: Option<P>)

  /** `accepted` and `returned` record the packets linked and handed out so far. */
  datatype World<+P> = World(q: Queue<P>, prod: Producer<P>, cons: Consumer<P>, accepted: seq<P>, returned: seq<P>)

  datatype Turn<+P> = Produce(p: P) | Consume

  function Start<P>(n: nat): World<P> {
    World(Queue(seq(n, _ => Slot(Null, None, Free)), Null, 0), Outside, Idle, [], [])
  }

  /** count-- on a uint16_t. */
  function Decrement(cnt: uint16): uint16 {
    if cnt == 0 then COUNTER_MODULUS - 1 else cnt - 1
  }

  /** Make the slot the head, or let the node `last` lead to it. */
  function LinkAt<P>(q: Queue<P>, last: Ptr, slot: nat): (q': Queue<P>)
    ensures |q'.slots| == |q.slots|
  {
    if InPool(|q.slots|, last) then
      q.(slots := q.slots[last.index := q.slots[last.index].(next := At(slot))])
    else q.(head := At(slot))
  }

  function End(walk: seq<nat>): Ptr {
    if walk == [] then Null else At(walk[|walk| - 1])
  }

  /** The whole walk from `from` and the link behind its end. */
  function LinkStep<P>(q: Queue<P>, from: Ptr, slot: nat): Queue<P> {
    LinkAt(q, End(ChainFrom(q.slots, from, |q.slots|)), slot)
  }

  function ProducerStep<P>(v: Variant, w: World<P>, p: P): World<P> {
    match w.prod
    case Outside => w.(prod := Entered(p, w.q.head))
    case Entered(p, seen) =>
      var at := LowestFree(w.q.slots);
      if at.Null? then w.(prod := Outside)
      else w.(q := w.q.(slots := SetState(w.q.slots, at, Acquired)), prod := Holding(p, seen, at.index))
    case Holding(p, seen, slot) => w.(q := w.q.(cnt := Increment(w.q.cnt)), prod := Counted(p, seen, slot))
    case Counted(p, seen, slot) =>
      if slot < |w.q.slots| then
        w.(q := w.q.(slots := w.q.slots[slot := w.q.slots[slot].(next := Null, pbuf := Some(p))]),
           prod := Stored(p, seen, slot))
      else w
    case Stored(p, seen, slot) =>
      var from := if v.freshHead then w.q.head else seen;
      if v.atomicLink then
        w.(q := LinkStep(w.q, from, slot), prod := Outside, accepted := w.accepted + [p])
      else if InPool(|w.q.slots|, from) then w.(prod := Walking(p, from, slot, from.index))
      else w.(prod := Found(p, from, slot, Null))
    case Walking(p, seen, slot, at) =>
      var next := if at < |w.q.slots| then w.q.slots[at].next else Null;
      if InPool(|w.q.slots|, next) then w.(prod := Walking(p, seen, slot, next.index))
      else w.(prod := Found(p, seen, slot, At(at)))
    case Found(p, seen, slot, last) =>
      w.(q := LinkAt(w.q, last, slot), prod := Outside, accepted := w.accepted + [p])
  }

  function Handed<P>(r: Option<P>): seq<P> {
    if r.Some? then [r.value] else []
  }

  function ConsumerStep<P>(v: Variant, w: World<P>): World<P> {
    match w.cons
    case Idle => if w.q.cnt > 0 then w.(cons := Tested) else w
    case Tested => w.(cons := Reading(w.q.head))
    case Reading(h) =>
      if InPool(|w.q.slots|, h) then
        var node := w.q.slots[h.index];
        if v.atomicPop then w.(q := w.q.(head := node.next), cons := Unlinked(h.index, node.pbuf))
        else w.(cons := Loaded(h.index, node.pbuf, node.next))
      else if v.tiedCount then w.(cons := Idle)
      else w.(cons := FoundNone)
    case Loaded(slot, r, next) => w.(q := w.q.(head := next), cons := Unlinked(slot, r))
    case FoundNone => w.(q := w.q.(cnt := Decrement(w.q.cnt)), cons := Idle)
    case Unlinked(slot, r) => w.(q := w.q.(slots := SetState(w.q.slots, At(slot), Free)), cons := Released(r))
    case Released(r) =>
      w.(q := w.q.(cnt := Decrement(w.q.cnt)), cons := Idle, returned := w.returned + Handed(r))
  }

  function TurnStep<P>(v: Variant, w: World<P>, turn: Turn<P>): World<P> {
    match turn
    case Produce(p) => ProducerStep(v, w, p)
    case Consume => ConsumerStep(v, w)
  }

  function Schedule<P>(v: Variant, w: World<P>, turns: seq<Turn<P>>): World<P>
    decreases |turns|
  {
    if turns == [] then w else Schedule(v, TurnStep(v, w, turns[0]), turns[1..])
  }

  // ---------------------------------------------------------------------------

  ghost predicate Holds<P>(slots: seq<Slot<P>>, c: seq<nat>) {
    forall k :: 0 <= k < |c| ==> c[k] < |slots| && slots[c[k]].state == Acquired && slots[c[k]].pbuf.Some?
  }

  function InFlight<P>(cons: Consumer<P>): seq<P> {
    match cons
    case Unlinked(_, r) => Handed(r)
    case Released(r) => Handed(r)
    case _ => []
  }

  /** What must be true at every moment: the counter covers the list, and agrees with it
      and with the acquired slots when nobody is at work; every packet ever linked has
      been returned, is on its way out or is on the list, once and in order. */
  ghost predicate Law<P>(w: World<P>) {
    var c := Chain(w.q);
    && Linked(w.q.slots, w.q.head, c) && Distinct(c) && Holds(w.q.slots, c)
    && |c| <= w.q.cnt
    && (w.prod.Outside? && w.cons.Idle? ==> w.q.cnt == |c| == |Out(w.q.slots)|)
    && w.accepted == w.returned + InFlight(w.cons) + Packets(w.q.slots, c)
  }

  ghost predicate OwnedByProducer<P>(prod: Producer<P>, i: nat) {
    (prod.Holding? || prod.Counted? || prod.Stored?) && prod.slot == i
  }

  ghost predicate OwnedByConsumer<P>(cons: Consumer<P>, i: nat) {
    cons.Unlinked? && cons.slot == i
  }

  function Ahead<P>(w: World<P>): nat {
    (if w.prod.Counted? || w.prod.Stored? || w.prod.Walking? || w.prod.Found? then 1 else 0) +
    (if w.cons.Unlinked? || w.cons.Released? then 1 else 0)
  }

  /** The invariant of the repaired steps when c is the list: every acquired slot is on
      the list, in the producer's hands or in the consumer's, never two of these; the
      counter runs ahead of the list by the packets that are counted and not linked, or
      unlinked and not uncounted. */
  ghost predicate Inv<P>(w: World<P>, c: seq<nat>) {
    var slots := w.q.slots;
    && 0 < |slots| < COUNTER_MODULUS - 1
    && Linked(slots, w.q.head, c) && Distinct(c) && Holds(slots, c)
    && (forall i: nat :: i in Out(slots) <==> i in c || OwnedByProducer(w.prod, i) || OwnedByConsumer(w.cons, i))
    && (forall i: nat :: OwnedByProducer(w.prod, i) ==>
          i < |slots| && i !in c && !OwnedByConsumer(w.cons, i) && slots[i].state == Acquired)
    && (forall i: nat :: OwnedByConsumer(w.cons, i) ==> i < |slots| && i !in c)
    && !w.prod.Walking? && !w.prod.Found?
    && (w.prod.Stored? ==>
          w.prod.slot < |slots| && slots[w.prod.slot].next == Null && slots[w.prod.slot].pbuf == Some(w.prod.p))
    && (w.cons.Reading? && w.cons.head != Null ==> c != [] && w.cons.head == At(c[0]))
    && !w.cons.FoundNone? && !w.cons.Loaded?
    && (w.cons.Unlinked? || w.cons.Released? ==> w.cons.r.Some?)
    && w.q.cnt == |c| + Ahead(w)
    && w.accepted == w.returned + InFlight(w.cons) + Packets(slots, c)
  }

  const REPAIRED := Variant(true, true, true, true)
  const AS_WRITTEN := Variant(false, false, false, false)

  lemma ListSize(n: nat, c: seq<nat>)
    requires Distinct(c) && forall k :: 0 <= k < |c| ==> c[k] < n
    ensures |c| <= n
  {
    DistinctSize(c);
    BelowSize(n, Elements(c));
  }

  lemma InvGivesChain<P>(w: World<P>, c: seq<nat>)
    requires Inv(w, c)
    ensures ChainFrom(w.q.slots, w.q.head, |w.q.slots|) == c
  {
    ListSize(|w.q.slots|, c);
    ChainIsLinked(w.q.slots, w.q.head, c, |w.q.slots|);
  }

  lemma InvGivesLaw<P>(w: World<P>, c: seq<nat>)
    requires Inv(w, c)
    ensures Law(w)
  {
    InvGivesChain(w, c);
    DistinctSize(c);
    if w.prod.Outside? && w.cons.Idle? {
      assert Out(w.q.slots) == Elements(c);
    }
  }

  lemma TakingKeepsPackets<P>(slots: seq<Slot<P>>, head: Ptr, c: seq<nat>, i: nat)
    requires Linked(slots, head, c) && Holds(slots, c) && i < |slots| && slots[i].state == Free
    ensures var slots' := SetState(slots, At(i), Acquired);
            && Linked(slots', head, c) && Holds(slots', c) && Packets(slots', c) == Packets(slots, c)
            && Out(slots') == Out(slots) + {i} && slots'[i].state == Acquired
    ensures i !in c && i !in Out(slots)
  {
  }

  lemma AcquiredWorld<P>(w: World<P>, c: seq<nat>, i: nat, slots': seq<Slot<P>>)
    requires Inv(w, c) && w.prod.Entered? && |slots'| == |w.q.slots|
    requires Linked(slots', w.q.head, c) && Holds(slots', c) && Packets(slots', c) == Packets(w.q.slots, c)
    requires Out(slots') == Out(w.q.slots) + {i} && i < |slots'| && slots'[i].state == Acquired
    requires i !in c && i !in Out(w.q.slots)
    ensures Inv(w.(q := w.q.(slots := slots'), prod := Holding(w.prod.p, w.prod.seen, i)), c)
  {
    assert forall j: nat :: OwnedByConsumer(w.cons, j) ==> j in Out(w.q.slots);
  }

  lemma QuitKeepsInv<P>(w: World<P>, c: seq<nat>)
    requires Inv(w, c) && w.prod.Entered?
    ensures Inv(w.(prod := Outside), c)
  {
  }

  lemma AcquireKeepsInv<P>(w: World<P>, c: seq<nat>, p: P)
    requires Inv(w, c) && w.prod.Entered?
    ensures Inv(ProducerStep(REPAIRED, w, p), c)
  {
    var at := LowestFree(w.q.slots);
    if at.At? {
      TakingKeepsPackets(w.q.slots, w.q.head, c, at.index);
      AcquiredWorld(w, c, at.index, SetState(w.q.slots, at, Acquired));
    } else {
      QuitKeepsInv(w, c);
    }
  }

  lemma CountKeepsInv<P>(w: World<P>, c: seq<nat>, p: P)
    requires Inv(w, c) && w.prod.Holding?
    ensures Inv(ProducerStep(REPAIRED, w, p), c)
  {
    assert OwnedByProducer(w.prod, w.prod.slot);
    ListSize(|w.q.slots|, c + [w.prod.slot]);
  }

  lemma StoreKeepsInv<P>(w: World<P>, c: seq<nat>, p: P)
    requires Inv(w, c) && w.prod.Counted?
    ensures Inv(ProducerStep(REPAIRED, w, p), c)
  {
    var w' := ProducerStep(REPAIRED, w, p);
    assert OwnedByProducer(w.prod, w.prod.slot);
    assert Out(w'.q.slots) == Out(w.q.slots);
    assert Packets(w'.q.slots, c) == Packets(w.q.slots, c);
  }

  /** Making the last node of the list lead to a node that already holds p. */
  lemma AppendHeld<P>(slots: seq<Slot<P>>, head: Ptr, c: seq<nat>, i: nat, p: P)
    requires Linked(slots, head, c) && Distinct(c) && Holds(slots, c) && c != [] && i !in c
    requires i < |slots| && slots[i] == Slot(Null, Some(p), Acquired)
    ensures var last := c[|c| - 1];
            var slots' := slots[last := slots[last].(next := At(i))];
            && Linked(slots', head, c + [i]) && Distinct(c + [i]) && Holds(slots', c + [i])
            && Packets(slots', c + [i]) == Packets(slots, c) + [p]
            && Out(slots') == Out(slots)
  {
    var last := c[|c| - 1];
    var slots' := slots[last := slots[last].(next := At(i))];
    assert last in c;
    AppendNode(slots, slots', head, c, i);
    AppendKeepsPackets(slots, c, i, p, slots');
  }

  lemma LinkFirst<P>(w: World<P>, p: P)
    requires Inv(w, []) && w.prod.Stored?
    ensures Inv(ProducerStep(REPAIRED, w, p), [w.prod.slot])
  {
    assert OwnedByProducer(w.prod, w.prod.slot);
    assert Packets(w.q.slots, [w.prod.slot]) == [w.prod.p];
    assert Packets(w.q.slots, []) == [];
  }

  lemma LinkedWorld<P>(w: World<P>, c: seq<nat>, slots': seq<Slot<P>>)
    requires Inv(w, c) && w.prod.Stored? && c != [] && |slots'| == |w.q.slots|
    requires var c' := c + [w.prod.slot];
             && Linked(slots', w.q.head, c') && Distinct(c') && Holds(slots', c')
             && Packets(slots', c') == Packets(w.q.slots, c) + [w.prod.p]
             && Out(slots') == Out(w.q.slots)
    ensures Inv(w.(q := w.q.(slots := slots'), prod := Outside, accepted := w.accepted + [w.prod.p]),
                c + [w.prod.slot])
  {
    var i := w.prod.slot;
    assert OwnedByProducer(w.prod, i);
    assert forall j :: j in c + [i] <==> j in c || j == i;
  }

  lemma LinkBehind<P>(w: World<P>, c: seq<nat>, p: P)
    requires Inv(w, c) && w.prod.Stored? && c != []
    ensures Inv(ProducerStep(REPAIRED, w, p), c + [w.prod.slot])
  {
    var i, last := w.prod.slot, c[|c| - 1];
    assert OwnedByProducer(w.prod, i);
    InvGivesChain(w, c);
    AppendHeld(w.q.slots, w.q.head, c, i, w.prod.p);
    LinkedWorld(w, c, w.q.slots[last := w.q.slots[last].(next := At(i))]);
  }

  lemma EnterKeepsInv<P>(w: World<P>, c: seq<nat>, p: P)
    requires Inv(w, c) && w.prod.Outside?
    ensures Inv(ProducerStep(REPAIRED, w, p), c)
  {
  }

  lemma LinkKeepsInv<P>(w: World<P>, c: seq<nat>, p: P)
    requires Inv(w, c) && w.prod.Stored?
    ensures Inv(ProducerStep(REPAIRED, w, p), c + [w.prod.slot])
  {
    if c == [] {
      LinkFirst(w, p);
      assert c + [w.prod.slot] == [w.prod.slot];
    } else {
      LinkBehind(w, c, p);
    }
  }

  lemma ProducerKeepsInv<P>(w: World<P>, c: seq<nat>, p: P) returns (c': seq<nat>)
    requires Inv(w, c)
    ensures Inv(ProducerStep(REPAIRED, w, p), c')
    ensures c' == if w.prod.Stored? then c + [w.prod.slot] else c
  {
    c' := if w.prod.Stored? then c + [w.prod.slot] else c;
    assert !w.prod.Walking? && !w.prod.Found?;
    match w.prod
    case Outside => EnterKeepsInv(w, c, p);
    case Entered(_, _) => AcquireKeepsInv(w, c, p);
    case Holding(_, _, _) => CountKeepsInv(w, c, p);
    case Counted(_, _, _) => StoreKeepsInv(w, c, p);
    case Stored(_, _, _) => LinkKeepsInv(w, c, p);
  }

  lemma DropHead<P>(slots: seq<Slot<P>>, head: Ptr, c: seq<nat>)
    requires Linked(slots, head, c) && Distinct(c) && Holds(slots, c) && c != []
    ensures Linked(slots, slots[c[0]].next, c[1..]) && Distinct(c[1..]) && Holds(slots, c[1..])
    ensures c[0] !in c[1..] && forall i :: i in c <==> i == c[0] || i in c[1..]
    ensures Packets(slots, c) == [slots[c[0]].pbuf.value] + Packets(slots, c[1..])
  {
    assert c == [c[0]] + c[1..];
    assert |c| > 1 ==> slots[c[0]].next == At(c[1]);
    forall j, k | 0 <= j < k < |c[1..]| && k == j + 1
      ensures slots[c[1..][j]].next == At(c[1..][k])
    {
      assert slots[c[j + 1]].next == At(c[k + 1]);
    }
  }

  lemma UnlinkKeepsInv<P>(w: World<P>, c: seq<nat>)
    requires Inv(w, c) && w.cons.Reading? && w.cons.head != Null
    ensures Inv(ConsumerStep(REPAIRED, w), c[1..])
  {
    var w' := ConsumerStep(REPAIRED, w);
    DropHead(w.q.slots, w.q.head, c);
    assert w'.q.slots == w.q.slots && w'.q.head == w.q.slots[c[0]].next;
  }

  lemma ReleaseKeepsInv<P>(w: World<P>, c: seq<nat>)
    requires Inv(w, c) && w.cons.Unlinked?
    ensures Inv(ConsumerStep(REPAIRED, w), c)
  {
    var w' := ConsumerStep(REPAIRED, w);
    assert OwnedByConsumer(w.cons, w.cons.slot);
    assert Out(w'.q.slots) == Out(w.q.slots) - {w.cons.slot};
    assert Packets(w'.q.slots, c) == Packets(w.q.slots, c);
  }

  lemma LookKeepsInv<P>(w: World<P>, c: seq<nat>)
    requires Inv(w, c)
    requires w.cons.Idle? || w.cons.Tested? || w.cons == Reading(Null)
    ensures Inv(ConsumerStep(REPAIRED, w), c)
  {
  }

  lemma UncountKeepsInv<P>(w: World<P>, c: seq<nat>)
    requires Inv(w, c) && w.cons.Released?
    ensures Inv(ConsumerStep(REPAIRED, w), c)
  {
    var s, r := Packets(w.q.slots, c), Handed(w.cons.r);
    assert w.returned + r + s == (w.returned + r) + [] + s;
  }

  lemma ConsumerKeepsInv<P>(w: World<P>, c: seq<nat>) returns (c': seq<nat>)
    requires Inv(w, c)
    ensures Inv(ConsumerStep(REPAIRED, w), c')
    ensures c' == if w.cons.Reading? && w.cons.head != Null then c[1..] else c
  {
    c' := c;
    match w.cons
    case Reading(h) =>
      if h == Null {
        LookKeepsInv(w, c);
      } else {
        UnlinkKeepsInv(w, c);
        c' := c[1..];
      }
    case Unlinked(_, _) => ReleaseKeepsInv(w, c);
    case Released(_) => UncountKeepsInv(w, c);
    case _ => LookKeepsInv(w, c);
  }

  /** Every interleaving of the repaired push and pop keeps the law, at every moment. */
  lemma {:induction false} EverySchedule<P>(w: World<P>, c: seq<nat>, turns: seq<Turn<P>>)
    requires Inv(w, c)
    ensures Law(Schedule(REPAIRED, w, turns))
    decreases |turns|
  {
    if turns == [] {
      InvGivesLaw(w, c);
    } else {
      var c';
      match turns[0] {
        case Produce(p) => c' := ProducerKeepsInv(w, c, p);
        case Consume => c' := ConsumerKeepsInv(w, c);
      }
      EverySchedule(TurnStep(REPAIRED, w, turns[0]), c', turns[1..]);
    }
  }

  lemma StartIsInv<P>(n: nat)
    requires 0 < n < COUNTER_MODULUS - 1
    ensures Inv(Start<P>(n), [])
  {
    assert Out(Start<P>(n).q.slots) == {};
    assert Packets(Start<P>(n).q.slots, []) == [];
  }

  /** A variant is safe when no interleaving, over any pool, ever breaks the law. */
  ghost predicate Safe(v: Variant) {
    forall n: nat, turns: seq<Turn<int>> ::
      0 < n < COUNTER_MODULUS - 1 ==> Law(Schedule(v, Start(n), turns))
  }

  function Turns(k: nat, turn: Turn<int>): seq<Turn<int>> {
    seq(k, _ => turn)
  }

  lemma {:induction false} ScheduleAppend<P>(v: Variant, w: World<P>, first: seq<Turn<P>>, second: seq<Turn<P>>)
    ensures Schedule(v, w, first + second) == Schedule(v, Schedule(v, w, first), second)
    decreases |first|
  {
    if first == [] {
      assert first + second == second;
    } else {
      assert (first + second)[1..] == first[1..] + second;
      ScheduleAppend(v, TurnStep(v, w, first[0]), first[1..], second);
    }
  }

  /** Runs two pieces of a schedule one after the other. */
  lemma Then(v: Variant, w0: World<int>, first: seq<Turn<int>>, w1: World<int>, second: seq<Turn<int>>, w2: World<int>)
    requires Schedule(v, w0, first) == w1 && Schedule(v, w1, second) == w2
    ensures Schedule(v, w0, first + second) == w2
  {
    ScheduleAppend(v, w0, first, second);
  }

  lemma {:induction false} Again(v: Variant, w: World<int>, k: nat, turn: Turn<int>)
    requires k > 0
    ensures Schedule(v, w, Turns(k, turn)) == Schedule(v, TurnStep(v, w, turn), Turns(k - 1, turn))
  {
    assert Turns(k, turn)[1..] == Turns(k - 1, turn);
  }
}
