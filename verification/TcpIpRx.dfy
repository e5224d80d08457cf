/** tcpip_raw_recv and TcpIp_recv of src/TcpIp.c as they update the control block, the
    packets' reference counts, the window and the caller's buffer in place. */
module TcpIpRx {
  import opened Options
  import opened MemPool
  import opened RxQueue
  import opened RxCtrlBlk
  import opened RxPath

  /** What is in a buffer once `copied` is written from its start; what does not fit goes
      behind it. */
  function Overlaid(copied: seq<byte>, was: seq<byte>): (now: seq<byte>)
    ensures |now| == |was|
    ensures forall i :: 0 <= i < |was| ==> now[i] == if i < |copied| then copied[i] else was[i]
  {
    if |copied| <= |was| then copied + was[|copied|..] else copied[..|was|]
  }

  /** How many bytes go behind the buffer. */
  function Beyond(len: nat, room: nat): (beyond: nat)
    ensures room + beyond >= len
    ensures beyond == 0 <==> len <= room
    ensures beyond > 0 ==> room + beyond == len
  {
    if len <= room then 0 else len - room
  }

  /** Copies one segment into pdata from position at, byte by byte. The code has no length
      to stop at; `beyond` counts what is written behind the buffer. */
  method CopySegment(pdata: array<byte>, segment: seq<byte>, ghost copied: seq<byte>, at: nat, ghost was: seq<byte>)
    returns (ghost beyond: nat)
    requires at == |copied| && |was| == pdata.Length && pdata[..] == Overlaid(copied, was)
    modifies pdata
    ensures pdata[..] == Overlaid(copied + segment, was)
    ensures Beyond(at, |was|) + beyond == Beyond(at + |segment|, |was|)
  {
    var i := 0;
    beyond := 0;
    while i < |segment|
      invariant 0 <= i <= |segment|
      invariant pdata[..] == Overlaid(copied + segment[..i], was)
      invariant Beyond(at, |was|) + beyond == Beyond(at + i, |was|)
    {
      OneByte(copied + segment[..i], segment[i], was);
      assert copied + segment[..i] + [segment[i]] == copied + segment[..i + 1];
      if at + i < pdata.Length {
        pdata[at + i] := segment[i];
      } else {
        beyond := beyond + 1;
      }
      i := i + 1;
    }
    assert segment[..i] == segment;
  }

  lemma NothingCopied(was: seq<byte>)
    ensures Overlaid([], was) == was
  {
  }

  lemma OneByte(copied: seq<byte>, b: byte, was: seq<byte>)
    ensures Overlaid(copied + [b], was) ==
              if |copied| < |was| then Overlaid(copied, was)[|copied| := b] else Overlaid(copied, was)
  {
    if |copied| < |was| {
      assert was[|copied|..][0] == was[|copied|] && was[|copied|..][1..] == was[|copied| + 1..];
    }
  }

  lemma {:induction false} FlattenSnoc(segs: seq<seq<byte>>, k: nat)
    requires k < |segs|
    ensures Flatten(segs[..k + 1]) == Flatten(segs[..k]) + segs[k]
    ensures |Flatten(segs[..k + 1])| <= |Flatten(segs)|
    decreases |segs|
  {
    if k == 0 {
      assert segs[..1][1..] == [] && segs[..0] == [];
    } else {
      assert segs[..k + 1][1..] == segs[1..][..k] && segs[..k][1..] == segs[1..][..k - 1];
      FlattenSnoc(segs[1..], k - 1);
    }
  }

  /** How many segments of a packet are copied out. */
  function SegmentCount(r: Repairs, p: Pbuf): (count: nat)
    ensures 0 < count <= |p.segs|
    ensures Flatten(p.segs[..count]) == CopiedBytes(r, p)
  {
    FlattenSnoc(p.segs, 0);
    assert p.segs[..|p.segs|] == p.segs;
    if r.gather then |p.segs| else 1
  }

  /** The copy loop of TcpIp_recv; with `gather` it goes on through the chain. */
  method CopyOut(r: Repairs, pdata: array<byte>, p: Pbuf) returns (len: nat, ghost beyond: nat)
    modifies pdata
    ensures len == |CopiedBytes(r, p)|
    ensures pdata[..] == Overlaid(CopiedBytes(r, p), old(pdata[..]))
    ensures beyond == Beyond(len, pdata.Length)
  {
    ghost var was := pdata[..];
    var segs, count := p.segs, SegmentCount(r, p);
    len, beyond := 0, 0;
    var k := 0;
    assert segs[..0] == [];
    while k < count
      invariant 0 <= k <= count
      invariant len == |Flatten(segs[..k])| && beyond == Beyond(len, |was|)
      invariant pdata[..] == Overlaid(Flatten(segs[..k]), was)
    {
      FlattenSnoc(segs, k);
      ghost var more := CopySegment(pdata, segs[k], Flatten(segs[..k]), len, was);
      beyond := beyond + more;
      len := len + |segs[k]|;
      k := k + 1;
    }
  }

  /** What a read copies out: the bytes of the packet a pop returns, as it is met, or
      nothing. */
  function HeadBytes(r: Repairs, s: Rx, found: Pbuf): seq<byte> {
    match AbsPop(s.q).1
    case None => []
    case Some(p) => CopiedBytes(r, AsRead(s, p, found))
  }

  /** A read is a pop, followed by consuming what it returned. */
  lemma ReadIs(r: Repairs, n: nat, s: Rx, found: Pbuf)
    ensures var (q, head) := AbsPop(s.q);
            var popped := s.(q := q);
            && (head.None? ==> HeadBytes(r, s, found) == [] && Step(r, n, s, Read(true, found)) == popped)
            && (head.Some? ==>
                  && HeadBytes(r, s, found) == CopiedBytes(r, AsRead(popped, head.value, found))
                  && Step(r, n, s, Read(true, found)) == ConsumePacket(r, popped, head.value, found))
  {
  }

  class TcpIpRx {
    const r: Repairs
    const ctrl: RxCtrlBlk<Pbuf>
    var refs: map<nat, nat>   // lwIP: references per packet
    var window: int           // lwIP: receive window of the connection
    var closes: nat           // calls of tcpip_raw_close
    ghost var past: History

    ghost predicate Valid()
      reads ctrl, ctrl.pool, ctrl.pool.slots
    {
      ctrl.link == r.link && ctrl.Valid()
    }

    ghost function State(): Rx
      requires Valid()
      reads this, ctrl, ctrl.pool, ctrl.pool.slots
    {
      Rx(ctrl.Seen(), refs, window, closes, past)
    }

    constructor (r: Repairs, n: nat, window: nat, foreign: Slot<Pbuf>)
      requires 0 < n < COUNTER_MODULUS
      ensures this.r == r && ctrl.pool.slots.Length == n
      ensures fresh(ctrl) && fresh(ctrl.pool) && fresh(ctrl.pool.slots)
      ensures Valid() && State() == Initial(window)
    {
      this.r := r;
      ctrl := new RxCtrlBlk<Pbuf>(r.link, n, foreign);
      refs, this.window, closes := map[], window, 0;
      past := NOTHING_YET;
    }

    /** lwIP passes its one reference on; the bytes have left the window. */
    method LwipHandsOver(p: Pbuf)
      requires Valid()
      modifies `refs, `window, `past
      ensures Valid() && State() == HandOver(old(State()), p)
    {
      refs := refs[p.id := 1];
      window := window - |Bytes(p)|;
      past := past.(handed := past.handed + [p]);
    }

    method FreePbuf(p: Pbuf)
      requires Valid()
      modifies `refs, `past
      ensures Valid() && State() == PbufFree(old(State()), p.id)
    {
      var count := if p.id in refs then refs[p.id] else 0;
      if count == 0 {
        past := past.(doubleFrees := past.doubleFrees + 1);
      } else {
        refs := refs[p.id := count - 1];
        if count == 1 {
          past := past.(freed := past.freed + [p.id]);
        }
      }
    }

    method Received(len: nat)
      requires Valid()
      modifies `window, `past
      ensures Valid() && State() == TcpRecved(old(State()), len)
    {
      window := window + len;
      past := past.(credited := past.credited + len);
    }

    method QueuePacket(p: Pbuf) returns (accepted: bool)
      requires Valid()
      modifies `past, ctrl, ctrl.pool.slots
      ensures Valid() && State() == Enqueue(r, ctrl.pool.slots.Length, old(State()), p)
      ensures accepted == !IsFull(ctrl.pool.slots.Length, old(State()))
    {
      accepted := ctrl.Push(p);
      if accepted {
        past := past.(accepted := past.accepted + [p]);
      } else {
        past := past.(dropped := past.dropped + [p]);
      }
    }

    /** The branch of tcpip_raw_recv that takes a packet. */
    method TakePacket(p: Pbuf)
      requires Valid()
      modifies this, ctrl, ctrl.pool.slots
      ensures Valid() && State() == AcceptPacket(r, ctrl.pool.slots.Length, old(State()), p)
    {
      if !r.credit {
        Received(|Bytes(p)|);
      }
      var accepted := QueuePacket(p);
      if !r.hold || !accepted {
        FreePbuf(p);
      }
      if r.credit && !accepted {
        Received(|Bytes(p)|);
      }
    }

    /** tcpip_raw_recv; ok stands for err == ERR_OK, None for a NULL packet. */
    method RawRecv(packet: Option<Pbuf>, ok: bool)
      requires Valid()
      modifies this, ctrl, ctrl.pool.slots
      ensures Valid()
      ensures State() == Step(r, ctrl.pool.slots.Length, old(State()), Deliver(packet, ok))
    {
      if packet.Some? {
        LwipHandsOver(packet.value);
      }
      if ok && packet.Some? {
        TakePacket(packet.value);
      } else {
        if packet.Some? {
          FreeFailed(packet.value);
        } else {
          past := past.(nullFrees := past.nullFrees + 1);  // pbuf_free on NULL
        }
        closes := closes + 1;
      }
    }

    /** The packet of a failed delivery is freed. */
    method FreeFailed(p: Pbuf)
      requires Valid()
      modifies `refs, `past
      ensures Valid() && State().(closes := closes + 1) == FailPacket(old(State()), p)
    {
      FreePbuf(p);
      past := past.(dropped := past.dropped + [p], failed := past.failed + |Bytes(p)|);
    }

    /** Keeps the books on a copy; no code corresponds to it. */
    ghost method RecordCopy(p: Pbuf, found: Pbuf)
      requires Valid()
      modifies `past
      ensures Valid() && State() == CopyPacket(r, old(State()), p, found)
    {
      past := past.(
        releasedReads := past.releasedReads + if RefCount(refs, p.id) == 0 then 1 else 0,
        delivered := past.delivered + CopiedBytes(r, AsRead(State(), p, found)),
        consumed := past.consumed + [p]);
    }

    /** The pop of TcpIp_recv. */
    method TakeHead() returns (popped: Option<Pbuf>)
      requires Valid()
      modifies ctrl, ctrl.pool, ctrl.pool.slots
      ensures Valid() && State() == old(State()).(q := AbsPop(old(State()).q).0)
      ensures popped == AbsPop(old(State()).q).1
    {
      popped := ctrl.Pop();
    }

    /** The branch of TcpIp_recv that has a packet. What it reads is the packet while that
        is alive, and whatever its memory holds by now (found) once it is released. */
    method HandOut(pdata: array<byte>, p: Pbuf, found: Pbuf) returns (len: nat, ghost beyond: nat)
      requires Valid()
      modifies `refs, `window, `past, pdata
      ensures Valid() && State() == ConsumePacket(r, old(State()), p, found)
      ensures var copied := CopiedBytes(r, AsRead(old(State()), p, found));
              && len == |copied| && pdata[..] == Overlaid(copied, old(pdata[..]))
              && beyond == Beyond(len, pdata.Length)
    {
      var met := if p.id in refs && refs[p.id] > 0 then p else found;
      var totLen := |Bytes(met)|;
      len, beyond := CopyOut(r, pdata, met);
      RecordCopy(p, found);
      if r.hold {
        FreePbuf(p);
      }
      if r.credit {
        Received(totLen);
      }
    }

    /** TcpIp_recv behind its check for a NULL buffer. */
    method RecvInto(pdata: array<byte>, found: Pbuf) returns (len: nat, ghost beyond: nat)
      requires Valid()
      modifies this, ctrl, ctrl.pool, ctrl.pool.slots, pdata
      ensures Valid()
      ensures State() == Step(r, ctrl.pool.slots.Length, old(State()), Read(true, found))
      ensures var copied := HeadBytes(r, old(State()), found);
              && len == |copied| && pdata[..] == Overlaid(copied, old(pdata[..]))
              && beyond == Beyond(len, pdata.Length)
    {
      len, beyond := 0, 0;
      ReadIs(r, ctrl.pool.slots.Length, State(), found);
      var popped := TakeHead();
      if popped.Some? {
        len, beyond := HandOut(pdata, popped.value, found);
      } else {
        NothingCopied(pdata[..]);
      }
    }

    /** TcpIp_recv. Every byte of the packet is written, whether or not the buffer has room
        for it: the code is given no length to check against. */
    method Recv(pdata: array?<byte>, found: Pbuf) returns (len: nat, ghost beyond: nat)
      requires Valid()
      modifies this, ctrl, ctrl.pool, ctrl.pool.slots
      modifies if pdata == null then {} else {pdata}
      ensures Valid()
      ensures State() == Step(r, ctrl.pool.slots.Length, old(State()), Read(pdata != null, found))
      ensures pdata == null ==> len == 0 && beyond == 0
      ensures pdata != null ==>
                var copied := HeadBytes(r, old(State()), found);
                && len == |copied| && pdata[..] == Overlaid(copied, old(pdata[..]))
                && beyond == Beyond(len, pdata.Length)
    {
      if pdata == null {
        len, beyond := 0, 0;
      } else {
        len, beyond := RecvInto(pdata, found);
      }
    }
  }
}
