/** The receive path of src/TcpIp.c above the queue: the lwIP receive callback
    (tcpip_raw_recv) and TcpIp_recv, with the packets' reference counts, the bytes
    handed to the application and the receive window.

    Four switches select the repairs; with all of them false the code is the code as it
    stands.
      link    the tail-link repair of the queue
      hold    a queued packet is freed when it is consumed, not right after queueing
      credit  window credit is returned when a packet is consumed or dropped, not on
              receipt
      gather  every segment of a packet is copied out, not only the first */
module RxPath {
  import opened Options
  import opened RxQueue

  newtype byte = x: int | 0 <= x < 0x100

  datatype PbufChain = PbufChain(id: nat, segs: seq<seq<byte>>)

  /** A packet as lwIP hands it over: a non-empty chain of segments. `id` names the
      hand-over. */
  type Pbuf = c: PbufChain | c.segs != [] witness PbufChain(0, [[]])

  function Flatten(segs: seq<seq<byte>>): seq<byte> {
    if segs == [] then [] else segs[0] + Flatten(segs[1..])
  }

  function Bytes(p: Pbuf): seq<byte> {
    Flatten(p.segs)
  }

  /** pbuf->tot_len; pbuf->len is |p.segs[0]|. */
  function TotLen(p: Pbuf): nat {
    |Bytes(p)|
  }

  function Payload(s: seq<Pbuf>): seq<byte> {
    if s == [] then [] else Bytes(s[0]) + Payload(s[1..])
  }

  datatype Repairs = Repairs(link: bool, hold: bool, credit: bool, gather: bool)

  const AS_WRITTEN := Repairs(false, false, false, false)
  const INTENDED := Repairs(true, true, true, true)

  /** What happened so far: packets handed over, accepted by the queue, returned by it,
      and dropped; identities in the order they were released; bytes copied out; reads
      of released packets, releases of released packets and releases of NULL; credit
      given back; bytes of failed deliveries. */
  datatype History = History(
    handed: seq<Pbuf>, accepted: seq<Pbuf>, consumed: seq<Pbuf>, dropped: seq<Pbuf>,
    freed: seq<nat>, delivered: seq<byte>, releasedReads: nat, doubleFrees: nat, nullFrees: nat,
    credited: nat, failed: nat)

  /** The queue, lwIP's reference counts and receive window, the number of closes. */
  datatype Rx = Rx(q: View<Pbuf>, refs: map<nat, nat>, window: int, closes: nat, past: History)

  datatype Event =
    | Deliver(p: Option<Pbuf>, ok: bool)  // tcpip_raw_recv; ok stands for err == ERR_OK
    | Read(hasBuffer: bool, found: Pbuf)  // TcpIp_recv; found is what the memory of a
                                          // released packet holds by now

  const NOTHING_YET := History([], [], [], [], [], [], 0, 0, 0, 0, 0)

  function Initial(window: nat): Rx {
    Rx(View([], 0, 0), map[], window, 0, NOTHING_YET)
  }

  function RefCount(refs: map<nat, nat>, id: nat): nat {
    if id in refs then refs[id] else 0
  }

  /** pbuf_free on a non-NULL packet. */
  function PbufFree(s: Rx, id: nat): Rx {
    match RefCount(s.refs, id)
    case 0 => s.(past := s.past.(doubleFrees := s.past.doubleFrees + 1))
    case k =>
      s.(refs := s.refs[id := k - 1],
         past := s.past.(freed := if k == 1 then s.past.freed + [id] else s.past.freed))
  }

  /** tcp_recved. */
  function TcpRecved(s: Rx, len: nat): Rx {
    s.(window := s.window + len, past := s.past.(credited := s.past.credited + len))
  }

  /** lwIP hands over one reference; the bytes came out of the receive window. */
  function HandOver(s: Rx, p: Pbuf): Rx {
    s.(refs := s.refs[p.id := 1], window := s.window - TotLen(p),
       past := s.past.(handed := s.past.handed + [p]))
  }

  function Enqueue(r: Repairs, n: nat, s: Rx, p: Pbuf): Rx {
    var (q, accepted) := AbsPush(r.link, n, s.q, p);
    if accepted then s.(q := q, past := s.past.(accepted := s.past.accepted + [p]))
    else s.(past := s.past.(dropped := s.past.dropped + [p]))
  }

  function IsFull(n: nat, s: Rx): bool {
    |s.q.packets| + s.q.lost >= n
  }

  function AcceptPacket(r: Repairs, n: nat, s: Rx, p: Pbuf): Rx {
    var s1 := if r.credit then s else TcpRecved(s, TotLen(p));
    var s2 := Enqueue(r, n, s1, p);
    if IsFull(n, s) then
      var s3 := PbufFree(s2, p.id);
      if r.credit then TcpRecved(s3, TotLen(p)) else s3
    else if r.hold then s2
    else PbufFree(s2, p.id)
  }

  function FailPacket(s: Rx, p: Pbuf): Rx {
    var s1 := PbufFree(s, p.id);
    s1.(closes := s1.closes + 1,
        past := s1.past.(dropped := s1.past.dropped + [p], failed := s1.past.failed + TotLen(p)))
  }

  function CopiedBytes(r: Repairs, p: Pbuf): seq<byte> {
    if r.gather then Bytes(p) else p.segs[0]
  }

  /** The packet as a read meets it: itself while it is alive, anything once released. */
  function AsRead(s: Rx, p: Pbuf, found: Pbuf): Pbuf {
    if RefCount(s.refs, p.id) == 0 then found else p
  }

  function CopyPacket(r: Repairs, s: Rx, p: Pbuf, found: Pbuf): Rx {
    s.(past := s.past.(
      releasedReads := s.past.releasedReads + if RefCount(s.refs, p.id) == 0 then 1 else 0,
      delivered := s.past.delivered + CopiedBytes(r, AsRead(s, p, found)),
      consumed := s.past.consumed + [p]))
  }

  function ConsumePacket(r: Repairs, s: Rx, p: Pbuf, found: Pbuf): Rx {
    var s1 := CopyPacket(r, s, p, found);
    var s2 := if r.hold then PbufFree(s1, p.id) else s1;
    if r.credit then TcpRecved(s2, TotLen(AsRead(s, p, found))) else s2
  }

  function Step(r: Repairs, n: nat, s: Rx, e: Event): Rx {
    match e
    case Deliver(None, _) => s.(closes := s.closes + 1, past := s.past.(nullFrees := s.past.nullFrees + 1))
    case Deliver(Some(p), true) => AcceptPacket(r, n, HandOver(s, p), p)
    case Deliver(Some(p), false) => FailPacket(HandOver(s, p), p)
    case Read(false, _) => s
    case Read(true, found) =>
      var (q, head) := AbsPop(s.q);
      match head
      case None => s.(q := q)
      case Some(p) => ConsumePacket(r, s.(q := q), p, found)
  }

  function Run(r: Repairs, n: nat, s: Rx, es: seq<Event>): Rx
    decreases |es|
  {
    if es == [] then s else Run(r, n, Step(r, n, s, es[0]), es[1..])
  }

  /** Every hand-over has an identity that was not known before it. */
  ghost predicate FreshHandOvers(known: set<nat>, es: seq<Event>)
    decreases |es|
  {
    es == [] ||
    (if es[0].Deliver? && es[0].p.Some? then
       es[0].p.value.id !in known && FreshHandOvers(known + {es[0].p.value.id}, es[1..])
     else FreshHandOvers(known, es[1..]))
  }
}
