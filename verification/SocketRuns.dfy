/** Runs of the socket table over the pcb layer: how a handle can reach a state, and what
    that says about the pcb below. */
module SocketRuns {
  import opened Options
  import opened SocketTable
  import Pcb

  /** The successful calls on one handle and the states the stack reported for it. */
  datatype Mark = DidInit | DidBind | DidListen | Polled(s: ConnState)

  /** The marks since the last init or poll. */
  function MarksStep(f: Fixes, tidy: bool, w: World, fd: nat, marks: seq<Mark>, c: Call): seq<Mark> {
    var ok := Step(f, tidy, w, c).1;
    match c
    case Init(h) => if h == fd && ok then [DidInit] else marks
    case Bind(h, _, _) => if h == fd && ok then marks + [DidBind] else marks
    case Listen(h, _) => if h == fd && ok then marks + [DidListen] else marks
    case MainLoop(poll) => if fd < w.table.count then [Polled(poll(Entry(w.table, fd).id))] else marks
    case _ => marks
  }

  function Marks(f: Fixes, tidy: bool, w: World, fd: nat, marks: seq<Mark>, cs: seq<Call>): seq<Mark>
    decreases |cs|
  {
    if cs == [] then marks
    else Marks(f, tidy, Step(f, tidy, w, cs[0]).0, fd, MarksStep(f, tidy, w, fd, marks, cs[0]), cs[1..])
  }

  predicate StartsClosed(m: Mark) {
    m == DidInit || m == Polled(ClosedSt)
  }

  predicate StartsBound(m: Mark) {
    m == Polled(BindSt) || m == Polled(ListenSt)
  }

  /** The only ways a handle comes to a state: never touched; initialised; bound from
      CLOSED (a failed listen moves it on to LISTEN); listening successfully after that;
      or as the stack reported it. */
  predicate Reachable(marks: seq<Mark>, state: ConnState) {
    match |marks|
    case 0 => state == ClosedSt
    case 1 =>
      (marks[0] == DidInit && state == ClosedSt) ||
      (marks[0].Polled? && (state == marks[0].s || (StartsBound(marks[0]) && state == ListenSt)))
    case 2 =>
      (StartsClosed(marks[0]) && marks[1] == DidBind && state in {BindSt, ListenSt}) ||
      (StartsBound(marks[0]) && marks[1] == DidListen && state == AcceptSt)
    case 3 =>
      StartsClosed(marks[0]) && marks[1] == DidBind && marks[2] == DidListen && state == AcceptSt
    case _ => false
  }

  /** The marks tell how the handle came to its state, and whether it is initialised. */
  ghost predicate Marked(t: Table, fd: nat, marks: seq<Mark>)
    requires fd < |t.conn|
  {
    Reachable(marks, t.conn[fd].state) && (marks == [] <==> fd >= t.count)
  }

  lemma StepKeepsMarked(tidy: bool, w: World, fd: nat, marks: seq<Mark>, c: Call)
    requires Ordered(w.table) && fd < |w.table.conn| && Marked(w.table, fd, marks)
    ensures var t' := Step(REPAIRED, tidy, w, c).0.table;
            |t'.conn| == |w.table.conn| && Marked(t', fd, MarksStep(REPAIRED, tidy, w, fd, marks, c))
  {
    match c
    case Init(_) =>
    case Bind(_, _, _) =>
    case Listen(_, _) =>
    case MainLoop(poll) => PolledEntries(w.table, w.table.count, poll);
    case _ =>
  }

  lemma {:induction false} RunKeepsMarked(tidy: bool, w: World, fd: nat, marks: seq<Mark>, cs: seq<Call>)
    requires Ordered(w.table) && fd < |w.table.conn| && Marked(w.table, fd, marks)
    ensures var t' := Run(REPAIRED, tidy, w, cs).table;
            |t'.conn| == |w.table.conn| && Marked(t', fd, Marks(REPAIRED, tidy, w, fd, marks, cs))
    decreases |cs|
  {
    if cs != [] {
      StepKeepsMarked(tidy, w, fd, marks, cs[0]);
      StepKeepsOrdered(tidy, w, cs[0]);
      var marks' := MarksStep(REPAIRED, tidy, w, fd, marks, cs[0]);
      RunKeepsMarked(tidy, Step(REPAIRED, tidy, w, cs[0]).0, fd, marks', cs[1..]);
    }
  }

  /** The ways to ACCEPT: initialised (or reported CLOSED), then bound, then listened on;
      or reported in a state from which the rest of that follows. */
  predicate ListenedInOrder(marks: seq<Mark>) {
    || marks == [DidInit, DidBind, DidListen]
    || marks == [Polled(ClosedSt), DidBind, DidListen]
    || marks == [Polled(BindSt), DidListen] || marks == [Polled(ListenSt), DidListen]
  }

  predicate MayCarryData(marks: seq<Mark>) {
    ListenedInOrder(marks) || (|marks| == 1 && marks[0].Polled? && Rank(marks[0].s) >= Rank(AcceptSt))
  }

  predicate MayBind(marks: seq<Mark>) {
    marks == [DidInit] || marks == [Polled(ClosedSt)]
  }

  predicate MayListen(marks: seq<Mark>) {
    || marks == [DidInit, DidBind] || marks == [Polled(ClosedSt), DidBind]
    || marks == [Polled(BindSt)] || marks == [Polled(ListenSt)]
  }

  /** After any run a receive or send on a handle goes through exactly when, since the last
      init or poll, the handle was initialised (or reported CLOSED), then bound, then
      listened on, in that order and each successfully, or when the stack reported a state
      from which that follows; a send needs bytes to send besides. */
  lemma ReachesOnlyInOrder(n: nat, behind: Socket, tidy: bool, cs: seq<Call>, fd: nat, length: nat)
    requires fd < n
    ensures var w := Run(REPAIRED, tidy, Fresh(n, behind), cs);
            var marks := Marks(REPAIRED, tidy, Fresh(n, behind), fd, [], cs);
            && (Step(REPAIRED, tidy, w, Recv(fd)).1 <==> MayCarryData(marks))
            && (Step(REPAIRED, tidy, w, Send(fd, length)).1 <==> MayCarryData(marks) && length > 0)
  {
    RepairedAlwaysSyncs(tidy, Fresh(n, behind), cs);
    RunKeepsMarked(tidy, Fresh(n, behind), fd, [], cs);
  }

  /** And an accept exactly when it was listened on in order, or reported as accepting. */
  lemma AcceptsOnlyInOrder(n: nat, behind: Socket, tidy: bool, cs: seq<Call>, fd: nat)
    requires fd < n
    ensures var w := Run(REPAIRED, tidy, Fresh(n, behind), cs);
            var marks := Marks(REPAIRED, tidy, Fresh(n, behind), fd, [], cs);
            Step(REPAIRED, tidy, w, Accept(fd)).1 <==> ListenedInOrder(marks) || marks == [Polled(AcceptSt)]
  {
    RepairedAlwaysSyncs(tidy, Fresh(n, behind), cs);
    RunKeepsMarked(tidy, Fresh(n, behind), fd, [], cs);
  }

  /** And a bind or listen exactly when its turn has come and the layer below agrees. */
  lemma BindsAndListensInOrder(n: nat, behind: Socket, tidy: bool, cs: seq<Call>, fd: nat,
                               made: Option<nat>, bindOk: bool)
    requires fd < n
    ensures var w := Run(REPAIRED, tidy, Fresh(n, behind), cs);
            var marks := Marks(REPAIRED, tidy, Fresh(n, behind), fd, [], cs);
            && (Step(REPAIRED, tidy, w, Bind(fd, made, bindOk)).1 <==>
                  MayBind(marks) && Pcb.Step(tidy, w.pcb, Pcb.Bind(true, made, bindOk)).1)
            && (Step(REPAIRED, tidy, w, Listen(fd, made)).1 <==>
                  MayListen(marks) && Pcb.Step(tidy, w.pcb, Pcb.Listen(made)).1)
  {
    RepairedAlwaysSyncs(tidy, Fresh(n, behind), cs);
    RunKeepsMarked(tidy, Fresh(n, behind), fd, [], cs);
  }

  /** No handle outside the table ever gets through. */
  lemma OutsideIsRefused(n: nat, behind: Socket, tidy: bool, cs: seq<Call>, fd: int, c: Call)
    requires !(0 <= fd < n)
    requires c in {Init(fd), Accept(fd), Recv(fd)} ||
             (c.Bind? && c.fd == fd) || (c.Listen? && c.fd == fd) || (c.Send? && c.fd == fd)
    ensures var w := Run(REPAIRED, tidy, Fresh(n, behind), cs);
            Step(REPAIRED, tidy, w, c) == (w, false)
  {
    RepairedAlwaysSyncs(tidy, Fresh(n, behind), cs);
  }

  // ---------------------------------------------------------------------------
  // The table as written

  ghost predicate AllClosed(t: Table) {
    t.behind.state == ClosedSt && forall h :: 0 <= h < |t.conn| ==> t.conn[h].state == ClosedSt
  }

  /** As written no successful bind is recorded: until the main loop has run, every
      handle stays CLOSED, and no listen, accept, receive or send ever goes through. */
  lemma {:induction false} AsWrittenStaysClosed(tidy: bool, w: World, cs: seq<Call>, c: Call)
    requires AllClosed(w.table) && forall c :: c in cs ==> !c.MainLoop?
    ensures var w' := Run(AS_WRITTEN, tidy, w, cs);
            && AllClosed(w'.table)
            && (c.Listen? || c.Accept? || c.Recv? || c.Send? ==> !Step(AS_WRITTEN, tidy, w', c).1)
    decreases |cs|
  {
    if cs != [] {
      AsWrittenStaysClosed(tidy, Step(AS_WRITTEN, tidy, w, cs[0]).0, cs[1..], c);
    }
  }

  /** The ways to a state in the code as written, where a bind moves nothing: still as it
      was initialised or reported; or listened on after a report of BIND or LISTEN. */
  predicate ReachableAsWritten(marks: seq<Mark>, state: ConnState) {
    if marks == [] || marks[0] == DidBind || StartsClosed(marks[0]) then
      state == ClosedSt && forall k :: 0 < k < |marks| ==> marks[k] == DidBind
    else
      && marks[0].Polled?
      && match |marks|
         case 1 => state == marks[0].s || (StartsBound(marks[0]) && state == ListenSt)
         case 2 => StartsBound(marks[0]) && marks[1] == DidListen && state == AcceptSt
         case _ => false
  }

  lemma AsWrittenStepKeeps(tidy: bool, w: World, fd: nat, marks: seq<Mark>, c: Call)
    requires fd <= |w.table.conn| && ReachableAsWritten(marks, Entry(w.table, fd).state)
    ensures var t' := Step(AS_WRITTEN, tidy, w, c).0.table;
            && |t'.conn| == |w.table.conn|
            && ReachableAsWritten(MarksStep(AS_WRITTEN, tidy, w, fd, marks, c), Entry(t', fd).state)
  {
    match c
    case Init(_) =>
    case Bind(_, _, _) =>
    case Listen(_, _) =>
    case MainLoop(poll) => PolledEntries(w.table, w.table.count, poll);
    case _ =>
  }

  lemma {:induction false} AsWrittenRunKeeps(tidy: bool, w: World, fd: nat, marks: seq<Mark>, cs: seq<Call>)
    requires fd <= |w.table.conn| && ReachableAsWritten(marks, Entry(w.table, fd).state)
    ensures var t' := Run(AS_WRITTEN, tidy, w, cs).table;
            && |t'.conn| == |w.table.conn|
            && ReachableAsWritten(Marks(AS_WRITTEN, tidy, w, fd, marks, cs), Entry(t', fd).state)
    decreases |cs|
  {
    if cs != [] {
      AsWrittenStepKeeps(tidy, w, fd, marks, cs[0]);
      var marks' := MarksStep(AS_WRITTEN, tidy, w, fd, marks, cs[0]);
      AsWrittenRunKeeps(tidy, Step(AS_WRITTEN, tidy, w, cs[0]).0, fd, marks', cs[1..]);
    }
  }

  /** What a handle has been through at the start; the one equal to the table size is in
      whatever state the memory behind the table reads as. */
  function FirstMarks(n: nat, behind: Socket, fd: nat): seq<Mark> {
    if fd < n then [] else [Polled(behind.state)]
  }

  /** After any run of the code as written, for every handle it admits, the one equal to
      the table size included: receive, send and accept go through exactly when the stack
      reported the state they need (or the memory behind the table reads so), or reported
      BIND or LISTEN and a listen succeeded since. Init and bind never help. */
  lemma AsWrittenReachesExactlyWhen(n: nat, behind: Socket, tidy: bool, cs: seq<Call>, fd: nat, length: nat)
    requires fd <= n
    ensures var w := Run(AS_WRITTEN, tidy, Fresh(n, behind), cs);
            var marks := Marks(AS_WRITTEN, tidy, Fresh(n, behind), fd, FirstMarks(n, behind, fd), cs);
            var listened := marks == [Polled(BindSt), DidListen] || marks == [Polled(ListenSt), DidListen];
            var reported := |marks| == 1 && marks[0].Polled? && Rank(marks[0].s) >= Rank(AcceptSt);
            && (Step(AS_WRITTEN, tidy, w, Recv(fd)).1 <==> listened || reported)
            && (Step(AS_WRITTEN, tidy, w, Send(fd, length)).1 <==> (listened || reported) && length > 0)
            && (Step(AS_WRITTEN, tidy, w, Accept(fd)).1 <==> listened || marks == [Polled(AcceptSt)])
  {
    AsWrittenRunKeeps(tidy, Fresh(n, behind), fd, FirstMarks(n, behind, fd), cs);
  }

  /** A bind goes through exactly when nothing but CLOSED was reported since the last init,
      however often it was bound before, and a listen exactly on a report of BIND or LISTEN
      with none successful since; each if the layer below agrees. */
  lemma AsWrittenBindsExactlyWhen(n: nat, behind: Socket, tidy: bool, cs: seq<Call>, fd: nat,
                                  made: Option<nat>, bindOk: bool)
    requires fd <= n
    ensures var w := Run(AS_WRITTEN, tidy, Fresh(n, behind), cs);
            var marks := Marks(AS_WRITTEN, tidy, Fresh(n, behind), fd, FirstMarks(n, behind, fd), cs);
            && (Step(AS_WRITTEN, tidy, w, Bind(fd, made, bindOk)).1 <==>
                  && (marks == [] || marks[0] == DidBind || StartsClosed(marks[0]))
                  && Pcb.Step(tidy, w.pcb, Pcb.Bind(true, made, bindOk)).1)
            && (Step(AS_WRITTEN, tidy, w, Listen(fd, made)).1 <==>
                  && (marks == [Polled(BindSt)] || marks == [Polled(ListenSt)])
                  && Pcb.Step(tidy, w.pcb, Pcb.Listen(made)).1)
  {
    AsWrittenRunKeeps(tidy, Fresh(n, behind), fd, FirstMarks(n, behind, fd), cs);
  }

  // ---------------------------------------------------------------------------
  // The pcb below

  /** lwIP answers honestly in every call that reaches the pcb layer. */
  predicate LwipHonest(f: Fixes, tidy: bool, w: World, cs: seq<Call>)
    decreases |cs|
  {
    cs != [] ==>
    && (var op := Reaching(f, w, cs[0]); op.Some? ==> Pcb.Honest(w.pcb, op.value))
    && LwipHonest(f, tidy, Step(f, tidy, w, cs[0]).0, cs[1..])
  }

  /** The socket states that a pcb in the given phase may show: none but CLOSED without a
      pcb, none from ACCEPT on while the pcb is only bound, and any once it listens or is
      connected. */
  predicate MayShow(phase: Option<Pcb.Phase>, state: ConnState) {
    && (Rank(state) >= Rank(BindSt) ==> phase in {Some(Pcb.Fresh(true)), Some(Pcb.Listening), Some(Pcb.Connected)})
    && (Rank(state) >= Rank(AcceptSt) ==> phase in {Some(Pcb.Listening), Some(Pcb.Connected)})
  }

  /** The stack reports states that the current pcb may show. */
  ghost predicate PollHonest(f: Fixes, tidy: bool, w: World, cs: seq<Call>)
    decreases |cs|
  {
    cs != [] ==>
    && (cs[0].MainLoop? ==> forall id :: MayShow(Pcb.CurPhase(w.pcb), cs[0].poll(id)))
    && PollHonest(f, tidy, Step(f, tidy, w, cs[0]).0, cs[1..])
  }

  function SyncStep(sync: bool, c: Call): bool {
    match c
    case MainLoop(_) => true
    case Below(op) => sync && !op.Close?
    case _ => sync
  }

  /** No close has by-passed the table since the last pass of the main loop. */
  function InSync(sync: bool, cs: seq<Call>): bool
    decreases |cs|
  {
    if cs == [] then sync else InSync(SyncStep(sync, cs[0]), cs[1..])
  }

  /** Every handle is in a state that the current pcb may show. */
  ghost predicate Mapped(w: World) {
    forall h :: 0 <= h < |w.table.conn| ==> MayShow(Pcb.CurPhase(w.pcb), w.table.conn[h].state)
  }

  lemma TidyStepMoves(w: Pcb.World, op: Pcb.Op, state: ConnState)
    requires Pcb.Tidy(w) && Pcb.Honest(w, op)
    requires MayShow(Pcb.CurPhase(w), state) && !op.Close?
    ensures var (w', ok) := Pcb.Step(true, w, op);
            && MayShow(Pcb.CurPhase(w'), state)
            && (op.Bind? && ok ==> MayShow(Pcb.CurPhase(w'), BindSt))
            && (op.Listen? && ok ==> MayShow(Pcb.CurPhase(w'), AcceptSt))
  {
  }

  lemma StepKeepsMapped(w: World, c: Call)
    requires Ordered(w.table) && Pcb.Tidy(w.pcb) && Mapped(w)
    requires LwipHonest(REPAIRED, true, w, [c]) && PollHonest(REPAIRED, true, w, [c])
    requires !(c.Below? && c.op.Close?)
    ensures Mapped(Step(REPAIRED, true, w, c).0)
  {
    var w' := Step(REPAIRED, true, w, c).0;
    var op := Reaching(REPAIRED, w, c);
    StepReaches(REPAIRED, true, w, c);
    StepKeepsOrdered(true, w, c);
    if c.MainLoop? {
      PolledEntries(w.table, w.table.count, c.poll);
    }
    forall h | 0 <= h < |w'.table.conn|
      ensures MayShow(Pcb.CurPhase(w'.pcb), w'.table.conn[h].state)
    {
      if op.Some? {
        TidyStepMoves(w.pcb, op.value, w.table.conn[h].state);
      }
    }
  }

  /** A close that by-passes the table breaks the map exactly when a handle is at BIND or
      later. */
  lemma CloseKeepsMappedExactlyWhen(w: World)
    requires Mapped(w)
    ensures Mapped(Step(REPAIRED, true, w, Below(Pcb.Close)).0) <==>
              forall h :: 0 <= h < |w.table.conn| ==> Rank(w.table.conn[h].state) < Rank(BindSt)
  {
    var w' := Step(REPAIRED, true, w, Below(Pcb.Close)).0;
    assert w'.table == w.table && w'.pcb.cur == None;
    assert forall h :: 0 <= h < |w.table.conn| && Rank(w.table.conn[h].state) >= Rank(BindSt) ==>
             !MayShow(Pcb.CurPhase(w'.pcb), w'.table.conn[h].state);
  }

  lemma AnyPassMaps(w: World, c: Call)
    requires Ordered(w.table) && c.MainLoop? && PollHonest(REPAIRED, true, w, [c])
    ensures Mapped(Step(REPAIRED, true, w, c).0)
  {
    PolledEntries(w.table, w.table.count, c.poll);
  }

  lemma {:induction false} RunKeepsMapped(w: World, cs: seq<Call>, sync: bool)
    requires Ordered(w.table) && Pcb.Tidy(w.pcb) && (sync ==> Mapped(w))
    requires LwipHonest(REPAIRED, true, w, cs) && PollHonest(REPAIRED, true, w, cs)
    ensures var w' := Run(REPAIRED, true, w, cs);
            Pcb.Tidy(w'.pcb) && (InSync(sync, cs) ==> Mapped(w'))
    decreases |cs|
  {
    if cs != [] {
      var c, op := cs[0], Reaching(REPAIRED, w, cs[0]);
      assert LwipHonest(REPAIRED, true, w, [c]) && PollHonest(REPAIRED, true, w, [c]);
      StepReaches(REPAIRED, true, w, c);
      StepKeepsOrdered(true, w, c);
      if op.Some? {
        Pcb.TidyStepKeeps(w.pcb, op.value);
      }
      if c.MainLoop? {
        AnyPassMaps(w, c);
      } else if SyncStep(sync, c) {
        StepKeepsMapped(w, c);
      }
      RunKeepsMapped(Step(REPAIRED, true, w, c).0, cs[1..], SyncStep(sync, c));
    }
  }

  /** Cross-layer simulation: after every run of socket calls, callbacks, main-loop
      passes and direct calls of the layer below, no pcb is lost or used after its close;
      and unless a close has by-passed the table since the last pass, a handle at BIND or
      later stands for a pcb that is current, ours, open and bound, and a handle at ACCEPT
      or later for one that listens or is connected. */
  lemma HandlesStandForPcbs(n: nat, behind: Socket, cs: seq<Call>, h: nat)
    requires LwipHonest(REPAIRED, true, Fresh(n, behind), cs) && PollHonest(REPAIRED, true, Fresh(n, behind), cs)
    requires h < n
    ensures var w := Run(REPAIRED, true, Fresh(n, behind), cs);
            var state, phase := Entry(w.table, h).state, Pcb.CurPhase(w.pcb);
            && Pcb.Conserved(w.pcb)
            && (InSync(true, cs) && Rank(state) >= Rank(BindSt) ==>
                  && w.pcb.cur.Some? && w.pcb.cur.value in w.pcb.pcbs
                  && w.pcb.pcbs[w.pcb.cur.value].owner == Pcb.Ours
                  && phase in {Some(Pcb.Fresh(true)), Some(Pcb.Listening), Some(Pcb.Connected)})
            && (InSync(true, cs) && Rank(state) >= Rank(AcceptSt) ==>
                  phase in {Some(Pcb.Listening), Some(Pcb.Connected)})
  {
    RepairedAlwaysSyncs(true, Fresh(n, behind), cs);
    RunKeepsMapped(Fresh(n, behind), cs, true);
  }

  // ---------------------------------------------------------------------------
  // The pcbs of the code as written, through the table

  ghost predicate AlwaysConserved(f: Fixes, tidy: bool, w: World, cs: seq<Call>)
    decreases |cs|
  {
    Pcb.Conserved(w.pcb) && (cs == [] || AlwaysConserved(f, tidy, Step(f, tidy, w, cs[0]).0, cs[1..]))
  }

  /** Every call that gets past the table is clean where it meets the pcb layer. */
  predicate AllClean(f: Fixes, w: World, cs: seq<Call>)
    decreases |cs|
  {
    cs != [] ==>
    && (var op := Reaching(f, w, cs[0]); op.Some? ==> Pcb.Clean(w.pcb, op.value))
    && AllClean(f, Step(f, false, w, cs[0]).0, cs[1..])
  }

  /** Over the pcb layer as written, with any repairs of the table: the pcbs are conserved
      at every moment of a run exactly when every call that gets past the table is clean
      where it meets the pcb layer. */
  lemma {:induction false} ConservesExactlyWhen(f: Fixes, w: World, cs: seq<Call>)
    requires Pcb.Conserved(w.pcb) && w.pcb.listener == None && LwipHonest(f, false, w, cs)
    ensures AlwaysConserved(f, false, w, cs) <==> AllClean(f, w, cs)
    decreases |cs|
  {
    if cs != [] {
      var w', op := Step(f, false, w, cs[0]).0, Reaching(f, w, cs[0]);
      StepReaches(f, false, w, cs[0]);
      if op.Some? {
        Pcb.AsWrittenStepConservesExactlyWhen(w.pcb, op.value);
      }
      if op.Some? && !Pcb.Clean(w.pcb, op.value) {
        assert !AlwaysConserved(f, false, w', cs[1..]);
      } else {
        ConservesExactlyWhen(f, w', cs[1..]);
      }
    }
  }

  /** As written a second bind of the same handle goes through and loses the first pcb. */
  lemma AsWrittenBindsTwice(behind: Socket)
    ensures var cs := [Init(0), Bind(0, Some(1), true), Bind(0, Some(2), true)];
            var w := Run(AS_WRITTEN, false, Fresh(1, behind), cs);
            && w.pcb.cur == Some(2) && w.pcb.pcbs[1].owner == Pcb.Ours && w.table.conn[0].state == ClosedSt
  {
    var w0 := Fresh(1, behind);
    var w1 := Step(AS_WRITTEN, false, w0, Init(0)).0;
    var w2 := Step(AS_WRITTEN, false, w1, Bind(0, Some(1), true)).0;
    var cs := [Init(0), Bind(0, Some(1), true), Bind(0, Some(2), true)];
    assert cs[1..][1..][1..] == [];
    assert Run(AS_WRITTEN, false, w2, cs[1..][1..]) == Step(AS_WRITTEN, false, w2, Bind(0, Some(2), true)).0;
  }
}
