/** The socket table of src/tcpip_extensions.c above the pcb layer.

    Three switches select repairs; with all of them false the code is the code as it
    stands.
      bounds   a handle must be below the table size; as written it may equal it
      store    a successful bind is recorded in the table; as written it is recorded in
               a local variable
      ordered  handles are initialised in order, a repeated init is not counted again,
               and the other calls refuse handles that are not initialised */
module SocketTable {
  import opened Options
  import Pcb

  /** TcpIp_ConnStateType. */
  datatype ConnState =
    | ClosedSt | BindSt | ListenSt | AcceptSt | SynSent | SynRcvd | Established
    | FinWait1 | FinWait2 | CloseWait | Closing | LastAck | TimeWait

  function Rank(s: ConnState): nat {
    match s
    case ClosedSt => 0
    case BindSt => 1
    case ListenSt => 2
    case AcceptSt => 3
    case SynSent => 4
    case SynRcvd => 5
    case Established => 6
    case FinWait1 => 7
    case FinWait2 => 8
    case CloseWait => 9
    case Closing => 10
    case LastAck => 11
    case TimeWait => 12
  }

  datatype Fixes = Fixes(bounds: bool, store: bool, ordered: bool)

  const AS_WRITTEN := Fixes(false, false, false)
  const REPAIRED := Fixes(true, true, true)

  /** One entry; `woken` counts the wake-ups of its wait event. */
  datatype Socket = Socket(fd: int, id: nat, state: ConnState, woken: nat)

  /** The table, the memory behind it read as one more entry, TcpIp_No_Socket_Conn, the
      number of writes outside the table, and the handles that an init has succeeded for. */
  datatype Table = Table(conn: seq<Socket>, behind: Socket, count: nat, strays: nat, inits: set<nat>)

  const ZEROED := Socket(0, 0, ClosedSt, 0)

  function EmptyTable(n: nat, behind: Socket): Table {
    Table(seq(n, _ => ZEROED), behind, 0, 0, {})
  }

  predicate InRange(f: Fixes, n: nat, fd: int) {
    0 <= fd && (if f.bounds then fd < n else fd <= n)
  }

  /** The handle checks of every call but init. */
  predicate Admits(f: Fixes, t: Table, fd: int) {
    InRange(f, |t.conn|, fd) && (f.ordered ==> fd < t.count)
  }

  function Entry(t: Table, fd: nat): Socket {
    if fd < |t.conn| then t.conn[fd] else t.behind
  }

  function SetEntry(t: Table, fd: nat, s: Socket): (t': Table)
    ensures |t'.conn| == |t.conn|
  {
    if fd < |t.conn| then t.(conn := t.conn[fd := s])
    else t.(behind := if fd == |t.conn| then s else t.behind, strays := t.strays + 1)
  }

  function SetState(t: Table, fd: nat, state: ConnState): Table {
    SetEntry(t, fd, Entry(t, fd).(state := state))
  }

  function InitStep(f: Fixes, t: Table, fd: int): (Table, bool) {
    if !InRange(f, |t.conn|, fd) || (f.ordered && fd > t.count) then (t, false)
    else
      var t1 := SetEntry(t, fd, Entry(t, fd).(fd := fd, id := fd % 0x1_0000, state := ClosedSt));
      (t1.(count := if f.ordered && fd < t.count then t.count else t.count + 1, inits := t.inits + {fd}), true)
  }

  /** The whole system: the table above one pcb layer. */
  datatype World = World(table: Table, pcb: Pcb.World)

  datatype Call =
    | Init(fd: int)
    | Bind(fd: int, made: Option<nat>, bindOk: bool)
    | Listen(fd: int, swapped: Option<nat>)
    | Accept(fd: int)
    | Recv(fd: int)
    | Send(fd: int, length: nat)
    | MainLoop(poll: nat -> ConnState)  // the state the stack reports per socket id
    | Below(op: Pcb.Op)                 // a call or callback that by-passes the table

  function BindStep(f: Fixes, tidy: bool, w: World, fd: int, made: Option<nat>, bindOk: bool): (World, bool) {
    if !Admits(f, w.table, fd) || Entry(w.table, fd).state != ClosedSt then (w, false)
    else
      var (pcb, ok) := Pcb.BindStep(tidy, w.pcb, true, made, bindOk);
      (World(if ok && f.store then SetState(w.table, fd, BindSt) else w.table, pcb), ok)
  }

  function ListenStep(f: Fixes, tidy: bool, w: World, fd: int, swapped: Option<nat>): (World, bool) {
    if !Admits(f, w.table, fd) || Entry(w.table, fd).state !in {BindSt, ListenSt} then (w, false)
    else
      var (pcb, ok) := Pcb.ListenStep(tidy, w.pcb, swapped);
      (World(SetState(w.table, fd, if ok then AcceptSt else ListenSt), pcb), ok)
  }

  /** One turn of the main loop. */
  function PollOne(t: Table, con: nat, poll: nat -> ConnState): Table {
    var s := Entry(t, con);
    var state := poll(s.id);
    SetEntry(t, con, s.(state := state, woken := if state == AcceptSt then s.woken + 1 else s.woken))
  }

  function PollUpTo(t: Table, con: nat, poll: nat -> ConnState): Table {
    if con == 0 then t else PollOne(PollUpTo(t, con - 1, poll), con - 1, poll)
  }

  /** Whether a receive or send reaches the layer below. */
  predicate Reaches(f: Fixes, t: Table, fd: int) {
    Admits(f, t, fd) && Rank(Entry(t, fd).state) >= Rank(AcceptSt)
  }

  /** The call, if any, that reaches the pcb layer. */
  function Reaching(f: Fixes, w: World, c: Call): Option<Pcb.Op> {
    match c
    case Bind(fd, made, bindOk) =>
      if Admits(f, w.table, fd) && Entry(w.table, fd).state == ClosedSt then Some(Pcb.Bind(true, made, bindOk))
      else None
    case Listen(fd, swapped) =>
      if Admits(f, w.table, fd) && Entry(w.table, fd).state in {BindSt, ListenSt} then Some(Pcb.Listen(swapped))
      else None
    case Below(op) => Some(op)
    case _ => None
  }

  function Step(f: Fixes, tidy: bool, w: World, c: Call): (World, bool) {
    match c
    case Init(fd) => var (t, ok) := InitStep(f, w.table, fd); (w.(table := t), ok)
    case Bind(fd, made, bindOk) => BindStep(f, tidy, w, fd, made, bindOk)
    case Listen(fd, swapped) => ListenStep(f, tidy, w, fd, swapped)
    case Accept(fd) => (w, Admits(f, w.table, fd) && Entry(w.table, fd).state == AcceptSt)
    case Recv(fd) => (w, Reaches(f, w.table, fd))
    case Send(fd, length) => (w, Reaches(f, w.table, fd) && length > 0)
    case MainLoop(poll) => (w.(table := PollUpTo(w.table, w.table.count, poll)), true)
    case Below(op) => var (pcb, ok) := Pcb.Step(tidy, w.pcb, op); (w.(pcb := pcb), ok)
  }

  lemma StepReaches(f: Fixes, tidy: bool, w: World, c: Call)
    ensures var op := Reaching(f, w, c);
            Step(f, tidy, w, c).0.pcb == if op.Some? then Pcb.Step(tidy, w.pcb, op.value).0 else w.pcb
  {
  }

  function Run(f: Fixes, tidy: bool, w: World, cs: seq<Call>): World
    decreases |cs|
  {
    if cs == [] then w else Run(f, tidy, Step(f, tidy, w, cs[0]).0, cs[1..])
  }

  function Fresh(n: nat, behind: Socket): World {
    World(EmptyTable(n, behind), Pcb.START)
  }

  // ---------------------------------------------------------------------------
  // What single calls leave in the table

  ghost predicate OthersKept(t: Table, t': Table, fd: int) {
    && |t'.conn| == |t.conn|
    && (forall h :: 0 <= h < |t.conn| && h != fd ==> t'.conn[h] == t.conn[h])
    && (fd != |t.conn| ==> t'.behind == t.behind)
  }

  /** An init that succeeds makes its entry a closed one of that number; one that does not
      changes nothing. As written it succeeds for every handle up to and including the
      table size; with the repairs exactly when all smaller handles are initialised. */
  lemma InitAnswers(f: Fixes, t: Table, fd: int)
    ensures var (t', ok) := InitStep(f, t, fd);
            && (if ok then
                  && 0 <= fd <= |t.conn| && OthersKept(t, t', fd) && t'.inits == t.inits + {fd}
                  && Entry(t', fd) == Socket(fd, fd % 0x1_0000, ClosedSt, Entry(t, fd).woken)
                else t' == t)
            && (f == AS_WRITTEN ==> (ok <==> 0 <= fd <= |t.conn|))
            && (f == REPAIRED && Ordered(t) ==>
                  (ok <==> 0 <= fd < |t.conn| && forall h: nat :: h < fd ==> h in t.inits))
  {
    if f == REPAIRED && Ordered(t) && t.count < fd < |t.conn| {
      assert t.count !in t.inits;
    }
  }

  /** A bind of an admitted CLOSED handle leaves BIND when it succeeds and the table as it
      was when it fails; as written it leaves the table as it was in either case. */
  lemma BindLeaves(f: Fixes, tidy: bool, w: World, fd: int, made: Option<nat>, bindOk: bool)
    ensures var (w', ok) := Step(f, tidy, w, Bind(fd, made, bindOk));
            var t, t' := w.table, w'.table;
            if Reaching(f, w, Bind(fd, made, bindOk)).Some? then
              && ok == Pcb.Step(tidy, w.pcb, Pcb.Bind(true, made, bindOk)).1
              && (if ok && f.store then
                    && OthersKept(t, t', fd) && t'.count == t.count
                    && Entry(t', fd) == Entry(t, fd).(state := BindSt)
                  else t' == t)
            else w' == w && !ok
  {
  }

  /** A listen of an admitted handle at BIND or LISTEN leaves ACCEPT when it succeeds and
      LISTEN when it fails; nothing else makes a listen write the table. */
  lemma ListenLeaves(f: Fixes, tidy: bool, w: World, fd: int, swapped: Option<nat>)
    ensures var (w', ok) := Step(f, tidy, w, Listen(fd, swapped));
            var t, t' := w.table, w'.table;
            if Reaching(f, w, Listen(fd, swapped)).Some? then
              && OthersKept(t, t', fd) && t'.count == t.count
              && Entry(t', fd) == Entry(t, fd).(state := if ok then AcceptSt else ListenSt)
              && ok == Pcb.Step(tidy, w.pcb, Pcb.Listen(swapped)).1
            else w' == w && !ok
  {
  }

  // ---------------------------------------------------------------------------
  // The main loop

  lemma {:induction false} PolledEntries(t: Table, con: nat, poll: nat -> ConnState)
    ensures var t', n := PollUpTo(t, con, poll), |t.conn|;
            && |t'.conn| == n && t'.count == t.count && t'.inits == t.inits
            && (forall h :: 0 <= h < n ==>
                  t'.conn[h] == if h < con then PollOne(t, h, poll).conn[h] else t.conn[h])
            && (t'.behind == if con > n then PollOne(t, n, poll).behind else t.behind)
            && t'.strays == t.strays + if con > n then con - n else 0
  {
    if con > 0 {
      PolledEntries(t, con - 1, poll);
    }
  }

  /** One pass leaves every initialised handle in the state the stack reports, wakes
      exactly those that are accepting, and touches nothing else. */
  ghost predicate SyncsExactly(t: Table, poll: nat -> ConnState) {
    var t', n := PollUpTo(t, t.count, poll), |t.conn|;
    && |t'.conn| == n && t'.behind == t.behind && t'.strays == t.strays
    && forall h :: 0 <= h < n ==>
         var s := t.conn[h];
         var accepting := poll(s.id) == AcceptSt;
         t'.conn[h] == if h in t.inits
                       then Socket(s.fd, s.id, poll(s.id), if accepting then s.woken + 1 else s.woken)
                       else s
  }

  function Other(s: ConnState): ConnState {
    if s == ClosedSt then BindSt else ClosedSt
  }

  /** The loop is exact, whatever the stack reports, exactly when the counter is the
      number of the initialised handles and these are the first entries. */
  lemma SyncsExactlyWhenPrefix(t: Table)
    requires forall h :: h in t.inits ==> h <= |t.conn|
    ensures (forall poll :: SyncsExactly(t, poll)) <==>
              t.count <= |t.conn| && forall h :: 0 <= h < |t.conn| ==> (h in t.inits <==> h < t.count)
  {
    var n := |t.conn|;
    forall poll: nat -> ConnState
      ensures t.count <= n && (forall h :: 0 <= h < n ==> (h in t.inits <==> h < t.count)) ==> SyncsExactly(t, poll)
    {
      PolledEntries(t, t.count, poll);
    }
    if t.count > n {
      var poll := (id: nat) => Other(t.behind.state);
      PolledEntries(t, t.count, poll);
      assert !SyncsExactly(t, poll);
    } else if h: nat :| h < n && (h in t.inits) != (h < t.count) {
      var poll := (id: nat) => Other(t.conn[h].state);
      PolledEntries(t, t.count, poll);
      assert !SyncsExactly(t, poll);
    }
  }

  /** The handles of the inits that the code as written carries out, in call order. */
  function InitHandles(n: nat, cs: seq<Call>): seq<nat> {
    if cs == [] then []
    else
      (match cs[0] case Init(fd) => if 0 <= fd <= n then [fd] else [] case _ => [])
      + InitHandles(n, cs[1..])
  }

  lemma {:induction false} RunCountsInits(tidy: bool, w: World, cs: seq<Call>)
    ensures var t, t', hs := w.table, Run(AS_WRITTEN, tidy, w, cs).table, InitHandles(|w.table.conn|, cs);
            && |t'.conn| == |t.conn| && t'.count == t.count + |hs|
            && t'.inits == t.inits + (set h | h in hs)
    decreases |cs|
  {
    if cs != [] {
      var w1 := Step(AS_WRITTEN, tidy, w, cs[0]).0;
      StepCountsInits(tidy, w, cs[0]);
      RunCountsInits(tidy, w1, cs[1..]);
      var n := |w.table.conn|;
      assert InitHandles(n, cs) == InitHandles(n, [cs[0]]) + InitHandles(n, cs[1..]) by {
        assert [cs[0]][1..] == [];
      }
    }
  }

  lemma StepCountsInits(tidy: bool, w: World, c: Call)
    ensures var t, t', hs := w.table, Step(AS_WRITTEN, tidy, w, c).0.table, InitHandles(|w.table.conn|, [c]);
            && |t'.conn| == |t.conn| && t'.count == t.count + |hs|
            && t'.inits == t.inits + (set h | h in hs)
  {
    assert [c][1..] == [];
    if c.MainLoop? {
      PolledEntries(w.table, w.table.count, c.poll);
    }
  }

  lemma {:induction false} HandlesInRange(n: nat, cs: seq<Call>)
    ensures forall h :: h in InitHandles(n, cs) ==> h <= n
  {
    if cs != [] {
      HandlesInRange(n, cs[1..]);
    }
  }

  /** Main-loop synchronisation of the code as written, after any run of calls: exact,
      whatever the stack reports, exactly when the handles of the k inits carried out
      are the k first entries of the table, each once. */
  lemma AsWrittenSyncsExactlyWhen(n: nat, behind: Socket, tidy: bool, cs: seq<Call>)
    ensures var t, hs := Run(AS_WRITTEN, tidy, Fresh(n, behind), cs).table, InitHandles(n, cs);
            (forall poll :: SyncsExactly(t, poll)) <==>
              |hs| <= n && forall h :: 0 <= h < n ==> (h in hs <==> h < |hs|)
  {
    RunCountsInits(tidy, Fresh(n, behind), cs);
    HandlesInRange(n, cs);
    var t, hs := Run(AS_WRITTEN, tidy, Fresh(n, behind), cs).table, InitHandles(n, cs);
    assert forall h :: h in t.inits <==> h in hs;
    SyncsExactlyWhenPrefix(t);
  }

  /** Two inits of the same handle are enough for a pass that is not exact. */
  lemma AsWrittenLosesSync(n: nat, behind: Socket, tidy: bool)
    ensures exists poll ::
              !SyncsExactly(Run(AS_WRITTEN, tidy, Fresh(n, behind), [Init(0), Init(0)]).table, poll)
  {
    var cs := [Init(0), Init(0)];
    assert cs[1..] == [Init(0)] && cs[1..][1..] == [];
    assert InitHandles(n, cs) == [0, 0] by {
      assert InitHandles(n, cs[1..]) == [0] + InitHandles(n, []);
    }
    AsWrittenSyncsExactlyWhen(n, behind, tidy, cs);
    assert n >= 2 ==> 1 !in [0, 0];
  }

  // ---------------------------------------------------------------------------
  // The bounds of the table

  /** The call writes no entry outside the table: a handle equal to the table size is
      refused or finds a state that is not written, and the main loop counts no more
      entries than there are. */
  predicate Inside(f: Fixes, tidy: bool, w: World, c: Call) {
    var t := w.table;
    var n := |t.conn|;
    match c
    case Init(fd) => fd == n ==> f.bounds || (f.ordered && t.count < n)
    case Bind(fd, made, bindOk) =>
      fd == n && f.store && Admits(f, t, n) && t.behind.state == ClosedSt ==>
        if tidy then w.pcb.cur.Some? || made.None? || !bindOk else made.Some? && !bindOk
    case Listen(fd, _) => fd == n && Admits(f, t, n) ==> t.behind.state !in {BindSt, ListenSt}
    case MainLoop(_) => t.count <= n
    case _ => true
  }

  predicate AllInside(f: Fixes, tidy: bool, w: World, cs: seq<Call>)
    decreases |cs|
  {
    cs == [] || (Inside(f, tidy, w, cs[0]) && AllInside(f, tidy, Step(f, tidy, w, cs[0]).0, cs[1..]))
  }

  lemma StepStaysInsideExactlyWhen(f: Fixes, tidy: bool, w: World, c: Call)
    ensures var t' := Step(f, tidy, w, c).0.table;
            t'.strays >= w.table.strays && (t'.strays == w.table.strays <==> Inside(f, tidy, w, c))
  {
    if c.MainLoop? {
      PolledEntries(w.table, w.table.count, c.poll);
    }
  }

  /** For every combination of repairs and every run: nothing is written outside the
      table exactly when every call of the run is inside. */
  lemma {:induction false} StaysInsideExactlyWhen(f: Fixes, tidy: bool, w: World, cs: seq<Call>)
    ensures var t' := Run(f, tidy, w, cs).table;
            t'.strays >= w.table.strays && (t'.strays == w.table.strays <==> AllInside(f, tidy, w, cs))
    decreases |cs|
  {
    if cs != [] {
      StepStaysInsideExactlyWhen(f, tidy, w, cs[0]);
      StaysInsideExactlyWhen(f, tidy, Step(f, tidy, w, cs[0]).0, cs[1..]);
    }
  }

  /** As written one init of the handle that equals the table size overwrites what
      follows the table; and also with the bound repaired, inits repeated often enough
      make the main loop do so. */
  lemma AsWrittenLeavesTheTable(n: nat, behind: Socket, tidy: bool)
    ensures var t := Run(AS_WRITTEN, tidy, Fresh(n, behind), [Init(n)]).table;
            t.strays == 1 && t.behind == Socket(n, n % 0x1_0000, ClosedSt, behind.woken)
    ensures n > 0 ==>
              var cs := Repeated(Init(0), n + 1) + [MainLoop(_ => ClosedSt)];
              Run(Fixes(true, true, false), tidy, Fresh(n, behind), cs).table.strays == 1
  {
    assert [Init(n)][1..] == [];
    if n > 0 {
      RepeatedInits(tidy, Fresh(n, behind), n + 1, [MainLoop(_ => ClosedSt)]);
    }
  }

  function Repeated(c: Call, k: nat): seq<Call> {
    if k == 0 then [] else [c] + Repeated(c, k - 1)
  }

  lemma {:induction false} RepeatedInits(tidy: bool, w: World, k: nat, last: seq<Call>)
    requires |w.table.conn| > 0 && |last| == 1 && last[0].MainLoop?
    ensures var n, t := |w.table.conn|, Run(Fixes(true, true, false), tidy, w, Repeated(Init(0), k) + last).table;
            t.strays == w.table.strays + if w.table.count + k > n then w.table.count + k - n else 0
    decreases k
  {
    var cs := Repeated(Init(0), k) + last;
    if k == 0 {
      assert cs == last && last[1..] == [];
      PolledEntries(w.table, w.table.count, last[0].poll);
    } else {
      assert cs[0] == Init(0) && cs[1..] == Repeated(Init(0), k - 1) + last;
      RepeatedInits(tidy, Step(Fixes(true, true, false), tidy, w, Init(0)).0, k - 1, last);
    }
  }

  // ---------------------------------------------------------------------------

  /** The initialised handles are the first `count` entries and carry their own number;
      no other entry ever left CLOSED. */
  ghost predicate Ordered(t: Table) {
    && t.count <= |t.conn|
    && (forall h :: 0 <= h < |t.conn| ==> (h in t.inits <==> h < t.count))
    && (forall h :: h in t.inits ==> h < t.count && t.conn[h].fd == h && t.conn[h].id == h % 0x1_0000)
    && (forall h :: t.count <= h < |t.conn| ==> t.conn[h].state == ClosedSt)
  }

  lemma StepKeepsOrdered(tidy: bool, w: World, c: Call)
    requires Ordered(w.table)
    ensures var t := Step(REPAIRED, tidy, w, c).0.table;
            Ordered(t) && |t.conn| == |w.table.conn|
            && t.behind == w.table.behind && t.strays == w.table.strays
  {
    if c.MainLoop? {
      PolledEntries(w.table, w.table.count, c.poll);
    }
  }

  /** With the repairs every run, with any repeated or out-of-order inits, keeps the
      prefix, so the main loop is exact at any time, and no call ever leaves the table. */
  lemma {:induction false} RepairedAlwaysSyncs(tidy: bool, w: World, cs: seq<Call>)
    requires Ordered(w.table)
    ensures var t := Run(REPAIRED, tidy, w, cs).table;
            && Ordered(t) && |t.conn| == |w.table.conn| && t.behind == w.table.behind && t.strays == w.table.strays
            && forall poll :: SyncsExactly(t, poll)
    decreases |cs|
  {
    if cs == [] {
      SyncsExactlyWhenPrefix(w.table);
    } else {
      StepKeepsOrdered(tidy, w, cs[0]);
      RepairedAlwaysSyncs(tidy, Step(REPAIRED, tidy, w, cs[0]).0, cs[1..]);
    }
  }
}
