/** The receive queue of src/TcpIp.c: a singly linked list whose nodes are slots of the
    pool, with a head pointer and a separate counter.

    The switch `link` selects one repair. With link == false the code is the code as it
    stands: the tail walk assigns its result to a local, and no `next` is ever written.
    With link == true the last node is made to point at the new one, and a node taken
    from the pool starts with next == NULL. Everything else is the same code. */
module RxQueue {
  import opened Options
  import opened MemPool

  const COUNTER_MODULUS := 0x1_0000

  type uint16 = x: int | 0 <= x < COUNTER_MODULUS

  datatype Queue<+P> = Queue(slots: seq<Slot<P>>, head: Ptr, cnt: uint16)

  /** cnt++ on a uint16_t. */
  function Increment(cnt: uint16): uint16 {
    if cnt == COUNTER_MODULUS - 1 then 0 else cnt + 1
  }

  /** The slots met when `next` is followed from p for at most `fuel` steps. */
  function ChainFrom<P>(slots: seq<Slot<P>>, p: Ptr, fuel: nat): (c: seq<nat>)
    ensures forall i :: i in c ==> i < |slots|
    decreases fuel
  {
    if fuel == 0 || !InPool(|slots|, p) then []
    else [p.index] + ChainFrom(slots, slots[p.index].next, fuel - 1)
  }

  function Chain<P>(q: Queue<P>): seq<nat> {
    ChainFrom(q.slots, q.head, |q.slots|)
  }

  /** The slots once p is stored in slot i and, with the repair, the last node of the
      list c leads to it. */
  function Store<P>(link: bool, slots: seq<Slot<P>>, c: seq<nat>, i: nat, p: P): seq<Slot<P>>
    requires i < |slots| && forall k :: k in c ==> k < |slots|
  {
    var stored := slots[i := Slot(if link then Null else slots[i].next, Some(p), Acquired)];
    if link && c != [] then
      var last := c[|c| - 1];
      assert last in c;
      stored[last := stored[last].(next := At(i))]
    else stored
  }

  function Push<P>(link: bool, at: Ptr, q: Queue<P>, p: P): (Queue<P>, bool)
    requires at.Null? || InPool(|q.slots|, at)
  {
    if at.Null? then (q, false)
    else
      var slots := Store(link, q.slots, Chain(q), at.index, p);
      (Queue(slots, if q.head.Null? then at else q.head, Increment(q.cnt)), true)
  }

  function Pop<P>(q: Queue<P>): (Queue<P>, Option<P>) {
    if q.cnt == 0 then (q, None)
    else if !InPool(|q.slots|, q.head) then (q.(cnt := q.cnt - 1), None)
    else
      var node := q.slots[q.head.index];
      (Queue(SetState(q.slots, q.head, Free), node.next, q.cnt - 1), node.pbuf)
  }

  // ---------------------------------------------------------------------------
  // The representation invariant

  ghost predicate Distinct(c: seq<nat>) {
    forall j, k :: 0 <= j < k < |c| ==> c[j] != c[k]
  }

  /** From p, `next` leads through exactly the slots of c and then to NULL. */
  ghost predicate Linked<P>(slots: seq<Slot<P>>, p: Ptr, c: seq<nat>) {
    && (forall k :: 0 <= k < |c| ==> c[k] < |slots|)
    && (if c == [] then p == Null else p == At(c[0]) && slots[c[|c| - 1]].next == Null)
    && (forall j, k :: 0 <= j < k < |c| && k == j + 1 ==> slots[c[j]].next == At(c[k]))
  }

  ghost function Elements(c: seq<nat>): set<nat> {
    set i | i in c
  }

  /** The shape of the queue when c is the list its head leads to: the list is finite,
      visits distinct acquired slots that hold packets, and the counter lies between
      the listed and the acquired slots. With the repair the list holds every acquired
      slot; as written it never has more than one node and every `next` is NULL. */
  ghost predicate Rep<P>(link: bool, q: Queue<P>, c: seq<nat>) {
    && 0 < |q.slots| < COUNTER_MODULUS
    && Linked(q.slots, q.head, c)
    && Distinct(c)
    && (forall i :: 0 <= i < |q.slots| ==> q.slots[i].state != DataFilled)
    && (forall k :: 0 <= k < |c| ==> q.slots[c[k]].state == Acquired && q.slots[c[k]].pbuf.Some?)
    && |c| <= q.cnt <= |Out(q.slots)|
    && (link ==> forall i :: i in Out(q.slots) ==> i in c)
    && (!link ==> |c| <= 1 && forall i :: 0 <= i < |q.slots| ==> q.slots[i].next.Null?)
  }

  /** The representation invariant. */
  ghost predicate Wf<P>(link: bool, q: Queue<P>) {
    Rep(link, q, Chain(q))
  }

  ghost function Packets<P>(slots: seq<Slot<P>>, c: seq<nat>): (r: seq<P>)
    requires forall k :: 0 <= k < |c| ==> c[k] < |slots| && slots[c[k]].pbuf.Some?
    ensures |r| == |c|
  {
    seq(|c|, k requires 0 <= k < |c| => slots[c[k]].pbuf.value)
  }

  ghost function Contents<P>(link: bool, q: Queue<P>): seq<P>
    requires Wf(link, q)
  {
    Packets(q.slots, Chain(q))
  }

  /** Acquired slots that the list no longer reaches. */
  ghost function Stranded<P>(q: Queue<P>): set<nat> {
    Out(q.slots) - Elements(Chain(q))
  }

  lemma {:induction false} ChainIsLinked<P>(slots: seq<Slot<P>>, p: Ptr, c: seq<nat>, fuel: nat)
    requires Linked(slots, p, c) && |c| <= fuel
    ensures ChainFrom(slots, p, fuel) == c
    decreases |c|
  {
    if c != [] {
      ChainIsLinked(slots, slots[c[0]].next, c[1..], fuel - 1);
    }
  }

  lemma {:induction false} DistinctSize(c: seq<nat>)
    requires Distinct(c)
    ensures |Elements(c)| == |c|
  {
    if c != [] {
      var front := c[..|c| - 1];
      DistinctSize(front);
      assert Elements(c) == Elements(front) + {c[|c| - 1]};
    }
  }

  lemma {:induction false} BelowSize(n: nat, s: set<nat>)
    requires forall i :: i in s ==> i < n
    ensures |s| <= n
    ensures |s| == n <==> forall i: nat :: i < n ==> i in s
  {
    if n > 0 {
      var rest := s - {n - 1};
      BelowSize(n - 1, rest);
      assert s == if n - 1 in s then rest + {n - 1} else rest;
      assert forall i: nat :: i < n - 1 ==> (i in s <==> i in rest);
    }
  }

  lemma OutSize<P>(slots: seq<Slot<P>>)
    ensures |Out(slots)| <= |slots|
    ensures |Out(slots)| == |slots| <==> forall i :: 0 <= i < |slots| ==> slots[i].state != Free
  {
    BelowSize(|slots|, Out(slots));
    assert forall i: nat :: i < |slots| ==> (i in Out(slots) <==> slots[i].state != Free);
  }

  lemma RepSize<P>(link: bool, q: Queue<P>, c: seq<nat>)
    requires Rep(link, q, c)
    ensures Elements(c) <= Out(q.slots)
    ensures |Out(q.slots) - Elements(c)| == |Out(q.slots)| - |c|
    ensures |c| <= |Out(q.slots)| <= |q.slots|
  {
    DistinctSize(c);
    OutSize(q.slots);
    assert Out(q.slots) == Elements(c) + (Out(q.slots) - Elements(c));
  }

  lemma HeadIsLive<P>(link: bool, q: Queue<P>)
    requires Wf(link, q)
    ensures q.head != Null ==> q.cnt > 0 && InPool(|q.slots|, q.head)
  {
  }

  /** Taking a free slot leaves the list as it was. */
  lemma TakingKeepsList<P>(link: bool, q: Queue<P>, i: nat, p: P)
    requires Wf(link, q) && i < |q.slots| && q.slots[i].state == Free
    ensures i !in Chain(q)
    ensures Linked(SetState(q.slots, At(i), Acquired), q.head, Chain(q))
    ensures Store(link, SetState(q.slots, At(i), Acquired), Chain(q), i, p)
         == Store(link, q.slots, Chain(q), i, p)
  {
    StoreIgnoresState(link, q.slots, Chain(q), i, p);
  }

  lemma StoreIgnoresState<P>(link: bool, slots: seq<Slot<P>>, c: seq<nat>, i: nat, p: P)
    requires i < |slots| && forall k :: k in c ==> k < |slots|
    ensures Store(link, SetState(slots, At(i), Acquired), c, i, p) == Store(link, slots, c, i, p)
  {
    var node := Slot(if link then Null else slots[i].next, Some(p), Acquired);
    assert SetState(slots, At(i), Acquired)[i := node] == slots[i := node];
  }

  /** The list is determined by the memory. */
  lemma RepIsWf<P>(link: bool, q: Queue<P>, c: seq<nat>)
    requires Rep(link, q, c)
    ensures Chain(q) == c && Wf(link, q)
    ensures Contents(link, q) == Packets(q.slots, c)
    ensures |Stranded(q)| == |Out(q.slots)| - |c|
  {
    RepSize(link, q, c);
    ChainIsLinked(q.slots, q.head, c, |q.slots|);
  }

  // ---------------------------------------------------------------------------
  // What the queue is, seen from outside: packets in order, a number of slots that
  // are lost, and the counter.

  datatype View<+P> = View(packets: seq<P>, lost: nat, cnt: nat)

  ghost function Abs<P>(link: bool, q: Queue<P>): View<P>
    requires Wf(link, q)
  {
    View(Contents(link, q), |Stranded(q)|, q.cnt)
  }

  ghost function AbsOf<P>(link: bool, q: Queue<P>, c: seq<nat>): View<P>
    requires Rep(link, q, c)
  {
    View(Packets(q.slots, c), if |c| <= |Out(q.slots)| then |Out(q.slots)| - |c| else 0, q.cnt)
  }

  function AbsPush<P>(link: bool, n: nat, v: View<P>, p: P): (View<P>, bool) {
    if |v.packets| + v.lost >= n then (v, false)
    else if link || v.packets == [] then (View(v.packets + [p], v.lost, v.cnt + 1), true)
    else (View(v.packets, v.lost + 1, v.cnt + 1), true)
  }

  function AbsPop<P>(v: View<P>): (View<P>, Option<P>) {
    if v.cnt == 0 then (v, None)
    else if v.packets == [] then (v.(cnt := v.cnt - 1), None)
    else (View(v.packets[1..], v.lost, v.cnt - 1), Some(v.packets[0]))
  }

  /** NULL only when the pool is exhausted, otherwise some free slot. */
  ghost predicate LegalChoice<P>(slots: seq<Slot<P>>, at: Ptr) {
    match at
    case Null => forall i :: 0 <= i < |slots| ==> slots[i].state != Free
    case At(i) => 0 <= i < |slots| && slots[i].state == Free
  }

  lemma Occupy<P>(slots: seq<Slot<P>>, i: nat, slot: Slot<P>)
    requires i < |slots| && slots[i].state == Free && slot.state != Free
    ensures Out(slots[i := slot]) == Out(slots) + {i}
    ensures |Out(slots[i := slot])| == |Out(slots)| + 1
  {
  }

  lemma Vacate<P>(slots: seq<Slot<P>>, i: nat)
    requires i < |slots| && slots[i].state != Free
    ensures Out(SetState(slots, At(i), Free)) == Out(slots) - {i}
    ensures |Out(SetState(slots, At(i), Free))| == |Out(slots)| - 1
  {
  }

  /** Pushing onto an empty list. */
  lemma PushFirst<P>(link: bool, i: nat, q: Queue<P>, p: P)
    requires Rep(link, q, []) && LegalChoice(q.slots, At(i))
    ensures var q' := Push(link, At(i), q, p).0;
            Rep(link, q', [i]) && |Out(q'.slots)| == |Out(q.slots)| + 1
    ensures Packets(Push(link, At(i), q, p).0.slots, [i]) == [p]
  {
    var q' := Push(link, At(i), q, p).0;
    Occupy(q.slots, i, q'.slots[i]);
    OutSize(q'.slots);
  }

  lemma AppendNode<P>(slots: seq<Slot<P>>, slots': seq<Slot<P>>, head: Ptr, c: seq<nat>, i: nat)
    requires Linked(slots, head, c) && Distinct(c) && c != [] && i !in c
    requires i < |slots| == |slots'| && slots'[i].next == Null
    requires slots'[c[|c| - 1]].next == At(i)
    requires forall j :: 0 <= j < |slots| && j != i && j != c[|c| - 1] ==> slots'[j] == slots[j]
    ensures Linked(slots', head, c + [i]) && Distinct(c + [i])
  {
    var c' := c + [i];
    forall j, k | 0 <= j < k < |c'| && k == j + 1
      ensures slots'[c'[j]].next == At(c'[k])
    {
      if k < |c| {
        assert slots[c[j]].next == At(c[k]) && c[j] != c[|c| - 1];
      }
    }
  }

  lemma AppendKeepsPackets<P>(slots: seq<Slot<P>>, c: seq<nat>, i: nat, p: P, slots': seq<Slot<P>>)
    requires forall k :: 0 <= k < |c| ==> c[k] < |slots| && slots[c[k]].state == Acquired && slots[c[k]].pbuf.Some?
    requires i < |slots| == |slots'| && i !in c
    requires slots'[i].state == Acquired && slots'[i].pbuf == Some(p)
    requires forall j :: 0 <= j < |slots| && j != i ==> slots'[j].(next := slots[j].next) == slots[j]
    ensures forall k :: 0 <= k < |c + [i]| ==> slots'[(c + [i])[k]].state == Acquired && slots'[(c + [i])[k]].pbuf.Some?
    ensures Packets(slots', c + [i]) == Packets(slots, c) + [p]
    ensures slots[i].state == Free ==> Out(slots') == Out(slots) + {i}
  {
  }

  /** Pushing onto a non-empty list whose last node is linked to the new one. */
  lemma PushLinked<P>(i: nat, q: Queue<P>, p: P, c: seq<nat>)
    requires Rep(true, q, c) && Chain(q) == c != [] && LegalChoice(q.slots, At(i))
    ensures var q' := Push(true, At(i), q, p).0;
            Rep(true, q', c + [i]) && |Out(q'.slots)| == |Out(q.slots)| + 1
    ensures Packets(Push(true, At(i), q, p).0.slots, c + [i]) == Packets(q.slots, c) + [p]
  {
    var last := c[|c| - 1];
    assert last in c && i !in c;
    var slots' := q.slots[i := Slot(Null, Some(p), Acquired)][last := q.slots[last].(next := At(i))];
    LinkLast(i, q, p, c, slots');
  }

  lemma LinkLast<P>(i: nat, q: Queue<P>, p: P, c: seq<nat>, slots': seq<Slot<P>>)
    requires Rep(true, q, c) && c != [] && i !in c && LegalChoice(q.slots, At(i))
    requires var last := c[|c| - 1];
             slots' == q.slots[i := Slot(Null, Some(p), Acquired)][last := q.slots[last].(next := At(i))]
    ensures Rep(true, Queue(slots', q.head, Increment(q.cnt)), c + [i])
    ensures |Out(slots')| == |Out(q.slots)| + 1
    ensures Packets(slots', c + [i]) == Packets(q.slots, c) + [p]
  {
    AppendNode(q.slots, slots', q.head, c, i);
    AppendKeepsPackets(q.slots, c, i, p, slots');
    assert |Out(q.slots) + {i}| == |Out(q.slots)| + 1;
    OutSize(slots');
    assert i in c + [i] && forall j :: j in c ==> j in c + [i];
  }

  /** Pushing onto a non-empty list as the code is written. */
  lemma PushStrands<P>(i: nat, q: Queue<P>, p: P, c: seq<nat>)
    requires Rep(false, q, c) && Chain(q) == c != [] && LegalChoice(q.slots, At(i))
    ensures var q' := Push(false, At(i), q, p).0;
            Rep(false, q', c) && |Out(q'.slots)| == |Out(q.slots)| + 1
    ensures Packets(Push(false, At(i), q, p).0.slots, c) == Packets(q.slots, c)
  {
    var q' := Push(false, At(i), q, p).0;
    Occupy(q.slots, i, q'.slots[i]);
    OutSize(q'.slots);
    assert i !in c;
  }

  /** The packets and the acquired slots determine what is seen from outside. */
  lemma ViewOf<P>(link: bool, q: Queue<P>, c: seq<nat>, packets: seq<P>, out: nat)
    requires Rep(link, q, c) && Packets(q.slots, c) == packets && |Out(q.slots)| == out
    ensures |packets| == |c| <= out <= |q.slots|
    ensures AbsOf(link, q, c) == View(packets, out - |c|, q.cnt)
  {
    RepSize(link, q, c);
  }

  lemma PushRep<P>(link: bool, i: nat, q: Queue<P>, p: P, c: seq<nat>) returns (c': seq<nat>)
    requires Rep(link, q, c) && Chain(q) == c && LegalChoice(q.slots, At(i))
    ensures var q' := Push(link, At(i), q, p).0;
            && Rep(link, q', c') && |q'.slots| == |q.slots|
            && |Out(q'.slots)| == |Out(q.slots)| + 1 && q'.cnt == Increment(q.cnt)
            && (if link || c == [] then |c'| == |c| + 1 && Packets(q'.slots, c') == Packets(q.slots, c) + [p]
                else |c'| == |c| && Packets(q'.slots, c') == Packets(q.slots, c))
  {
    if c == [] {
      PushFirst(link, i, q, p);
      assert Packets(q.slots, c) + [p] == [p];
      c' := [i];
    } else if link {
      PushLinked(i, q, p, c);
      c' := c + [i];
    } else {
      PushStrands(i, q, p, c);
      c' := c;
    }
  }

  lemma PushView<P>(link: bool, i: nat, q: Queue<P>, p: P, c: seq<nat>) returns (c': seq<nat>)
    requires Rep(link, q, c) && Chain(q) == c && LegalChoice(q.slots, At(i))
    ensures var q' := Push(link, At(i), q, p).0;
            && Rep(link, q', c') && |q'.slots| == |q.slots|
            && AbsOf(link, q', c') == AbsPush(link, |q.slots|, AbsOf(link, q, c), p).0
  {
    c' := PushRep(link, i, q, p, c);
    var q', s, out := Push(link, At(i), q, p).0, Packets(q.slots, c), |Out(q.slots)|;
    ViewOf(link, q, c, s, out);
    ViewOf(link, q', c', Packets(q'.slots, c'), out + 1);
    CounterRises(q, out);
  }

  lemma CounterRises<P>(q: Queue<P>, out: nat)
    requires q.cnt <= out < |q.slots| < COUNTER_MODULUS
    ensures Increment(q.cnt) == q.cnt + 1
  {
  }

  lemma RepAbs<P>(link: bool, q: Queue<P>, c: seq<nat>)
    requires Rep(link, q, c)
    ensures Wf(link, q) && Chain(q) == c && Abs(link, q) == AbsOf(link, q, c)
    ensures AbsOf(link, q, c).lost + |c| == |Out(q.slots)| <= |q.slots|
  {
    RepIsWf(link, q, c);
    RepSize(link, q, c);
  }

  /** One push does to the memory what AbsPush says, whichever free slot is taken. */
  lemma PushRefines<P>(link: bool, at: Ptr, q: Queue<P>, p: P)
    requires Wf(link, q) && LegalChoice(q.slots, at)
    ensures var (q', accepted) := Push(link, at, q, p);
            && Wf(link, q') && |q'.slots| == |q.slots|
            && (Abs(link, q'), accepted) == AbsPush(link, |q.slots|, Abs(link, q), p)
  {
    var c := Chain(q);
    RepAbs(link, q, c);
    OutSize(q.slots);
    if at.At? {
      var c' := PushView(link, at.index, q, p, c);
      RepAbs(link, Push(link, at, q, p).0, c');
    }
  }

  lemma UnlinkHead<P>(slots: seq<Slot<P>>, head: Ptr, c: seq<nat>)
    requires Linked(slots, head, c) && Distinct(c) && c != []
    ensures Linked(SetState(slots, head, Free), slots[c[0]].next, c[1..]) && Distinct(c[1..])
    ensures c[0] !in c[1..]
  {
    var slots', c' := SetState(slots, head, Free), c[1..];
    assert |c| > 1 ==> slots[c[0]].next == At(c[1]);
    forall j, k | 0 <= j < k < |c'| && k == j + 1
      ensures slots'[c'[j]].next == At(c'[k])
    {
      assert slots[c[j + 1]].next == At(c[k + 1]);
    }
  }

  lemma UnlinkKeepsPackets<P>(slots: seq<Slot<P>>, c: seq<nat>, slots': seq<Slot<P>>)
    requires forall k :: 0 <= k < |c| ==> c[k] < |slots| && slots[c[k]].state == Acquired && slots[c[k]].pbuf.Some?
    requires c != [] && c[0] !in c[1..] && slots' == SetState(slots, At(c[0]), Free)
    ensures forall k :: 0 <= k < |c[1..]| ==> slots'[c[1..][k]].state == Acquired && slots'[c[1..][k]].pbuf.Some?
    ensures Packets(slots', c[1..]) == Packets(slots, c)[1..]
    ensures (forall i :: i in Out(slots) ==> i in c) ==> forall i :: i in Out(slots') ==> i in c[1..]
  {
    assert c == [c[0]] + c[1..];
    assert forall i :: i in c && i != c[0] ==> i in c[1..];
    assert forall i :: i in Out(slots') ==> i in Out(slots) && i != c[0];
    forall k | 0 <= k < |c[1..]|
      ensures slots'[c[1..][k]] == slots[c[k + 1]]
    {
      assert c[1..][k] in c[1..];
    }
  }

  lemma RemoveHead<P>(link: bool, q: Queue<P>, c: seq<nat>)
    requires Rep(link, q, c) && c != []
    ensures var (q', r) := Pop(q);
            && Rep(link, q', c[1..]) && |q'.slots| == |q.slots|
            && |Out(q'.slots)| == |Out(q.slots)| - 1 && q'.cnt == q.cnt - 1
            && Packets(q'.slots, c[1..]) == Packets(q.slots, c)[1..]
            && r == Some(Packets(q.slots, c)[0])
  {
    UnlinkHead(q.slots, q.head, c);
    UnlinkKeepsPackets(q.slots, c, Pop(q).0.slots);
    Vacate(q.slots, c[0]);
  }

  lemma PopView<P>(link: bool, q: Queue<P>, c: seq<nat>)
    requires Rep(link, q, c) && c != []
    ensures var (q', r) := Pop(q);
            && Rep(link, q', c[1..]) && |q'.slots| == |q.slots|
            && (AbsOf(link, q', c[1..]), r) == AbsPop(AbsOf(link, q, c))
  {
    RemoveHead(link, q, c);
    ViewOf(link, q, c, Packets(q.slots, c), |Out(q.slots)|);
    ViewOf(link, Pop(q).0, c[1..], Packets(q.slots, c)[1..], |Out(q.slots)| - 1);
  }

  lemma PopEmpty<P>(link: bool, q: Queue<P>)
    requires Rep(link, q, [])
    ensures Rep(link, Pop(q).0, [])
    ensures AbsOf(link, Pop(q).0, []) == AbsPop(AbsOf(link, q, [])).0
    ensures Pop(q).1 == None
  {
  }

  /** One pop does to the memory what AbsPop says. */
  lemma PopRefines<P>(link: bool, q: Queue<P>)
    requires Wf(link, q)
    ensures var (q', r) := Pop(q);
            && Wf(link, q') && |q'.slots| == |q.slots|
            && (Abs(link, q'), r) == AbsPop(Abs(link, q))
  {
    var c, q' := Chain(q), Pop(q).0;
    RepAbs(link, q, c);
    if c == [] {
      PopEmpty(link, q);
      RepAbs(link, q', []);
    } else {
      PopView(link, q, c);
      RepAbs(link, q', c[1..]);
    }
  }
}
