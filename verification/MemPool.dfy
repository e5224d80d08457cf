/** The static pool of list nodes of src/tcpip_mpool.c: a first-fit allocator over
    a fixed array, every slot carrying its own state flag. */
module MemPool {
  import opened Options

  datatype SlotState = Free | Acquired | DataFilled

  /** The address of a node, counted in slots from the start of the pool. */
  datatype Ptr = Null | At(index: int)

  datatype Slot<+P> = Slot(next: Ptr, pbuf: Option<P>, state: SlotState)

  /** The pool together with the memory that follows it, read as one more slot. */
  datatype Memory<+P> = Memory(slots: seq<Slot<P>>, behind: Slot<P>)

  predicate InPool(n: nat, p: Ptr) {
    p.At? && 0 <= p.index < n
  }

  /** The address comparison of free_tcpip_mpool, whose upper bound is inclusive. */
  predicate PassesBoundCheck(n: nat, p: Ptr) {
    p.At? && 0 <= p.index <= n
  }

  function LowestFree<P>(s: seq<Slot<P>>, from: nat := 0): (p: Ptr)
    requires from <= |s|
    ensures p.Null? ==> forall i :: from <= i < |s| ==> s[i].state != Free
    ensures p.At? ==> from <= p.index < |s| && s[p.index].state == Free
    ensures p.At? ==> forall i :: from <= i < p.index ==> s[i].state != Free
    decreases |s| - from
  {
    if from == |s| then Null
    else if s[from].state == Free then At(from)
    else LowestFree(s, from + 1)
  }

  function SetState<P>(s: seq<Slot<P>>, p: Ptr, state: SlotState): (r: seq<Slot<P>>)
    ensures |r| == |s|
  {
    if InPool(|s|, p) then s[p.index := s[p.index].(state := state)] else s
  }

  function Release<P>(m: Memory<P>, p: Ptr): Memory<P> {
    if p == At(|m.slots|) then m.(behind := m.behind.(state := Free))
    else m.(slots := SetState(m.slots, p, Free))
  }

  class Pool<P> {
    const slots: array<Slot<P>>
    var behind: Slot<P>

    ghost function Contents(): Memory<P>
      reads this, slots
    {
      Memory(slots[..], behind)
    }

    /** Static storage: every node starts zeroed. */
    constructor (n: nat, foreign: Slot<P>)
      ensures fresh(slots)
      ensures Contents() == Memory(seq(n, _ => Slot(Null, None, Free)), foreign)
    {
      slots := new Slot<P>[n](_ => Slot(Null, None, Free));
      behind := foreign;
      new;
      assert slots[..] == seq(n, _ => Slot(Null, None, Free));
    }

    /** get_new_tcpip_mpool. */
    method Get() returns (p: Ptr)
      modifies slots
      ensures p == LowestFree(old(slots[..]))
      ensures slots[..] == SetState(old(slots[..]), p, Acquired)
    {
      p := Null;
      var i := 0;
      while i < slots.Length
        invariant 0 <= i <= slots.Length
        invariant slots[..] == old(slots[..])
        invariant LowestFree(old(slots[..])) == LowestFree(old(slots[..]), i)
      {
        if slots[i].state == Free {
          slots[i] := slots[i].(state := Acquired);
          p := At(i);
          return;
        }
        i := i + 1;
      }
    }

    /** free_tcpip_mpool, with the inclusive upper bound it is written with. */
    method FreeSlot(p: Ptr) returns (ok: bool)
      modifies this, slots
      ensures ok == PassesBoundCheck(slots.Length, p)
      ensures Contents() == Release(old(Contents()), p)
      ensures p != At(slots.Length) ==>
                behind == old(behind) && slots[..] == SetState(old(slots[..]), p, Free)
    {
      if p.At? && 0 <= p.index && p.index <= slots.Length {
        if p.index < slots.Length {
          slots[p.index] := slots[p.index].(state := Free);
        } else {
          behind := behind.(state := Free);
        }
        ok := true;
      } else {
        ok := false;
      }
    }
  }

  // The allocator as a set: which slots are out, and nothing else.

  datatype Request = Get | FreeAt(p: Ptr)
  datatype Reply = Got(p: Ptr) | Done(ok: bool)

  function Serve<P>(m: Memory<P>, r: Request): (Memory<P>, Reply) {
    match r
    case Get =>
      var p := LowestFree(m.slots);
      (m.(slots := SetState(m.slots, p, Acquired)), Got(p))
    case FreeAt(p) => (Release(m, p), Done(PassesBoundCheck(|m.slots|, p)))
  }

  function ServeAll<P>(m: Memory<P>, rs: seq<Request>): (Memory<P>, seq<Reply>)
    decreases |rs|
  {
    if rs == [] then (m, [])
    else
      var (m1, r) := Serve(m, rs[0]);
      var (m2, rest) := ServeAll(m1, rs[1..]);
      (m2, [r] + rest)
  }

  ghost function Out<P>(s: seq<Slot<P>>): set<nat> {
    set i: nat | i < |s| && s[i].state != Free
  }

  /** What an allocator of n slots may answer, given which slots are out: the
      smallest number below n that is not out, NULL exactly when there is none,
      and a free that succeeds exactly for the n slots. */
  ghost predicate MayAnswer(n: nat, out: set<nat>, r: Request, a: Reply) {
    match r
    case Get =>
      a.Got? &&
      (match a.p
       case Null => forall i: nat :: i < n ==> i in out
       case At(k) => 0 <= k < n && k !in out && forall i: nat :: i < k ==> i in out)
    case FreeAt(p) => a == Done(InPool(n, p))
  }

  ghost function OutAfter(n: nat, out: set<nat>, r: Request, a: Reply): set<nat> {
    match r
    case Get => if a.Got? && InPool(n, a.p) then out + {a.p.index} else out
    case FreeAt(p) => if InPool(n, p) then out - {p.index} else out
  }

  ghost predicate Conforms(n: nat, out: set<nat>, rs: seq<Request>, answers: seq<Reply>)
    requires |rs| == |answers|
    decreases |rs|
  {
    rs == [] ||
    (MayAnswer(n, out, rs[0], answers[0]) &&
     Conforms(n, OutAfter(n, out, rs[0], answers[0]), rs[1..], answers[1..]))
  }

  lemma ServeTracksOut<P>(m: Memory<P>, r: Request)
    ensures var (m', a) := Serve(m, r);
            && |m'.slots| == |m.slots|
            && Out(m'.slots) == OutAfter(|m.slots|, Out(m.slots), r, a)
            && (MayAnswer(|m.slots|, Out(m.slots), r, a) <==> r != FreeAt(At(|m.slots|)))
  {
  }

  /** Every run of gets and frees, in any order and with any pointers, behaves as the
      set of free slots prescribes exactly when no free names the address one past
      the end of the pool. Such a free is also exactly what overwrites a non-free word
      behind the pool. */
  lemma {:induction false} AllocatorRefinesSets<P>(m: Memory<P>, rs: seq<Request>)
    ensures var (m', answers) := ServeAll(m, rs);
            && |answers| == |rs|
            && (Conforms(|m.slots|, Out(m.slots), rs, answers) <==> FreeAt(At(|m.slots|)) !in rs)
            && (m.behind.state != Free ==>
                (m'.behind == m.behind <==> FreeAt(At(|m.slots|)) !in rs))
    decreases |rs|
  {
    if rs != [] {
      var (m1, a) := Serve(m, rs[0]);
      ServeTracksOut(m, rs[0]);
      AllocatorRefinesSets(m1, rs[1..]);
      var (m', answers) := ServeAll(m, rs);
      assert answers == [a] + ServeAll(m1, rs[1..]).1;
      assert answers[1..] == ServeAll(m1, rs[1..]).1;
      assert rs == [rs[0]] + rs[1..];
      if rs[0] == FreeAt(At(|m.slots|)) {
        BehindStaysFree(m1, rs[1..]);
      }
    }
  }

  lemma {:induction false} BehindStaysFree<P>(m: Memory<P>, rs: seq<Request>)
    requires m.behind.state == Free
    ensures ServeAll(m, rs).0.behind == m.behind
    decreases |rs|
  {
    if rs != [] {
      BehindStaysFree(Serve(m, rs[0]).0, rs[1..]);
    }
  }
}
