/** struct rx_ctrl_blk of src/TcpIp.c and its two operations, updating the pool, the
    head pointer and the counter in place. */
module RxCtrlBlk {
  import opened Options
  import opened MemPool
  import opened RxQueue

  class RxCtrlBlk<P> {
    const link: bool  // the tail-link repair; false is the code as written
    const pool: Pool<P>
    var cnt: uint16
    var head: Ptr

    ghost function State(): Queue<P>
      reads this, pool, pool.slots
    {
      Queue(pool.slots[..], head, cnt)
    }

    ghost predicate Valid()
      reads this, pool, pool.slots
    {
      Wf(link, State())
    }

    /** What a client sees: the queued packets, the number of lost slots, the counter. */
    ghost function Seen(): View<P>
      requires Valid()
      reads this, pool, pool.slots
    {
      Abs(link, State())
    }

    constructor (link: bool, n: nat, foreign: Slot<P>)
      requires 0 < n < COUNTER_MODULUS
      ensures this.link == link && pool.slots.Length == n
      ensures fresh(pool) && fresh(pool.slots)
      ensures Valid() && Seen() == View([], 0, 0)
    {
      this.link := link;
      pool := new Pool<P>(n, foreign);
      cnt, head := 0, Null;
      new;
      assert Out(pool.slots[..]) == {};
      RepAbs(link, State(), []);
    }

    /** The tail walk of push_to_rx_ctrl_blk. It ends because the part of the list
        that is still ahead shrinks with every step. */
    method WalkToTail(first: Ptr, ghost c: seq<nat>) returns (tail: Ptr, last: Ptr)
      requires c != [] && Linked(pool.slots[..], first, c)
      ensures tail == At(c[|c| - 1]) && last == Null
    {
      tail, last := first, pool.slots[first.index].next;
      ghost var k := 0;
      while last != Null
        invariant 0 <= k < |c| && tail == At(c[k])
        invariant last == if k < |c| - 1 then At(c[k + 1]) else Null
        decreases |c| - k
      {
        tail := last;
        last := pool.slots[tail.index].next;
        k := k + 1;
      }
    }

    /** push_to_rx_ctrl_blk from the point where it holds a node: count, store, and
        make the node the head or walk to the tail. */
    method Append(at: Ptr, p: P, ghost c: seq<nat>)
      requires InPool(pool.slots.Length, at) && pool.slots[at.index].state == Acquired
      requires Linked(pool.slots[..], head, c) && at.index !in c
      modifies this, pool.slots
      ensures cnt == Increment(old(cnt))
      ensures head == if old(head).Null? then at else old(head)
      ensures pool.slots[..] == Store(link, old(pool.slots[..]), c, at.index, p)
    {
      var last := head;
      cnt := Increment(cnt);
      pool.slots[at.index] :=
        Slot(if link then Null else pool.slots[at.index].next, Some(p), pool.slots[at.index].state);
      if last.Null? {
        head := at;
        return;
      }
      var tail;
      tail, last := WalkToTail(last, c);
      if link {
        pool.slots[tail.index] := pool.slots[tail.index].(next := at);
      } else {
        last := at;
      }
    }

    /** push_to_rx_ctrl_blk. The packet is dropped when the pool is exhausted; the
        result tells the caller so. */
    method Push(p: P) returns (accepted: bool)
      requires Valid()
      modifies this, pool.slots
      ensures Valid() && pool.behind == old(pool.behind)
      ensures (State(), accepted) == RxQueue.Push(link, LowestFree(old(pool.slots[..])), old(State()), p)
      ensures (Seen(), accepted) == AbsPush(link, pool.slots.Length, old(Seen()), p)
    {
      ghost var q := State();
      PushRefines(link, LowestFree(q.slots), q, p);
      var at := pool.Get();
      if at.Null? {
        return false;
      }
      TakingKeepsList(link, q, at.index, p);
      Append(at, p, Chain(q));
      assert State() == RxQueue.Push(link, at, q, p).0;
      return true;
    }

    /** pop_pbuf_from_rx_ctrl_blk. */
    method Pop() returns (r: Option<P>)
      requires Valid()
      modifies this, pool, pool.slots
      ensures Valid() && pool.behind == old(pool.behind)
      ensures (State(), r) == RxQueue.Pop(old(State()))
      ensures (Seen(), r) == AbsPop(old(Seen()))
    {
      ghost var q := State();
      PopRefines(link, q);
      assert q.head == Null || (q.cnt > 0 && InPool(|q.slots|, q.head)) by { HeadIsLive(link, q); }
      r := None;
      if cnt != 0 {
        var p_head := head;
        if p_head != Null {
          r := pool.slots[p_head.index].pbuf;
          head := pool.slots[p_head.index].next;
          var _ := pool.FreeSlot(p_head);
        }
        cnt := cnt - 1;
      }
      assert State() == RxQueue.Pop(q).0;
    }
  }
}
