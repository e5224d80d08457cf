/** The life of lwIP protocol control blocks in src/TcpIp.c: bind, listen, accept
    callback, connect, close and error callback around the one global pointer
    tcpip_raw_pcb.

    With tidy == false the code is the code as written. With tidy == true the pointer is
    never overwritten while it owns a pcb: a connection that is accepted takes its place
    and the listener is kept in a second field, to which the pointer falls back when the
    connection ends. A pcb that is closed, or whose bind or connect fails, is not kept. */
module Pcb {
  import opened Options

  /** Where a pcb stands; `state < TCPIP_LISTEN` is read as Fresh. */
  datatype Phase = Fresh(bound: bool) | Listening | Connected

  /** Who has to dispose of a pcb: this layer, lwIP, or nobody any more. */
  datatype Owner = Ours | Lwip | Closed

  datatype Block = Block(phase: Phase, owner: Owner)

  /** tcpip_raw_pcb; the listener kept beside it (tidy only); every pcb ever obtained;
      uses of a closed pcb; reads of a NULL port. */
  datatype World = World(cur: Option<nat>, listener: Option<nat>, pcbs: map<nat, Block>, staleUses: nat, faults: nat)

  /** The calls, each with what the caller passes and what lwIP answers. */
  datatype Op =
    | Bind(hasPort: bool, made: Option<nat>, bindOk: bool)
    | Listen(swapped: Option<nat>)
    | AcceptCallback(newPcb: Option<nat>, ok: bool)
    | Connect(made: Option<nat>, connectOk: bool)
    | Close
    | PeerClose(id: nat)      // tcpip_raw_recv on an error or on a NULL packet
    | ErrorCallback(id: nat)  // tcpip_raw_error; lwIP has released the pcb already

  const START := World(None, None, map[], 0, 0)

  function SetOwner(w: World, id: nat, owner: Owner): World {
    if id in w.pcbs then w.(pcbs := w.pcbs[id := w.pcbs[id].(owner := owner)]) else w
  }

  predicate IsClosed(w: World, id: nat) {
    id in w.pcbs && w.pcbs[id].owner.Closed?
  }

  function Use(w: World, id: nat): World {
    if IsClosed(w, id) then w.(staleUses := w.staleUses + 1) else w
  }

  /** tcpip_raw_close. */
  function RawClose(w: World, id: nat): World {
    SetOwner(Use(w, id), id, Closed)
  }

  function Add(w: World, id: nat, phase: Phase): World {
    w.(pcbs := w.pcbs[id := Block(phase, Ours)])
  }

  function CurPhase(w: World): Option<Phase> {
    if w.cur.Some? && w.cur.value in w.pcbs then Some(w.pcbs[w.cur.value].phase) else None
  }

  function BindStep(tidy: bool, w: World, hasPort: bool, made: Option<nat>, bindOk: bool): (World, bool) {
    if tidy && (w.cur.Some? || !hasPort) then (w, false)
    else if !hasPort && w.cur.Some? then (w, false)
    else
      match made
      case None => (w.(cur := None), !tidy)
      case Some(id) =>
        var w1 := Add(w, id, Fresh(bindOk)).(cur := Some(id));
        var w2 := if hasPort then w1 else w1.(faults := w1.faults + 1);
        if bindOk then (w2, true)
        else if tidy then (RawClose(w2, id).(cur := None), false)
        else (w2, false)
  }

  function ListenStep(tidy: bool, w: World, swapped: Option<nat>): (World, bool) {
    if w.cur.None? then (w, false)
    else
      var w1 := Use(w, w.cur.value);
      if !(CurPhase(w).Some? && CurPhase(w).value.Fresh?) then (w1, false)
      else
        match swapped
        case Some(id) => (Add(SetOwner(w1, w.cur.value, Lwip), id, Listening).(cur := Some(id)), true)
        case None => if tidy then (w1, false) else (w1.(cur := None), true)
  }

  /** A connection that is refused is aborted by lwIP. */
  function AcceptStep(tidy: bool, w: World, newPcb: Option<nat>, ok: bool): (World, bool) {
    match newPcb
    case None => (if tidy then w else w.(cur := None), false)
    case Some(id) =>
      var w1 := Add(w, id, Connected);
      if tidy then
        if ok && CurPhase(w) == Some(Listening) then (w1.(cur := Some(id), listener := w.cur), true)
        else (SetOwner(w1, id, Closed), false)
      else
        var w2 := w1.(cur := Some(id));
        if ok then (w2, true) else (SetOwner(w2, id, Closed), false)
  }

  function ConnectStep(tidy: bool, w: World, made: Option<nat>, connectOk: bool): (World, bool) {
    match made
    case None => (w, false)
    case Some(id) =>
      var w1 := Add(w, id, Connected);
      if connectOk then (SetOwner(w1, id, Lwip), true)
      else (if tidy then RawClose(w1, id) else w1, false)
  }

  function CloseStep(tidy: bool, w: World): (World, bool) {
    match w.cur
    case None => (w, false)
    case Some(id) =>
      var w1 := RawClose(w, id);
      if tidy then
        var w2 := if w.listener.Some? then RawClose(w1, w.listener.value) else w1;
        (w2.(cur := None, listener := None), true)
      else (w1, true)
  }

  /** The end of a connection, as the pointer sees it. */
  function Forget(tidy: bool, w: World, id: nat): World {
    if tidy && w.cur == Some(id) then w.(cur := w.listener, listener := None) else w
  }

  function Step(tidy: bool, w: World, op: Op): (World, bool) {
    match op
    case Bind(hasPort, made, bindOk) => BindStep(tidy, w, hasPort, made, bindOk)
    case Listen(swapped) => ListenStep(tidy, w, swapped)
    case AcceptCallback(newPcb, ok) => AcceptStep(tidy, w, newPcb, ok)
    case Connect(made, connectOk) => ConnectStep(tidy, w, made, connectOk)
    case Close => CloseStep(tidy, w)
    case PeerClose(id) => (Forget(tidy, RawClose(w, id), id), true)
    case ErrorCallback(id) => (Forget(tidy, SetOwner(w, id, Closed), id), true)
  }

  function Obtained(op: Op): Option<nat> {
    match op
    case Bind(_, made, _) => made
    case Listen(swapped) => swapped
    case AcceptCallback(newPcb, _) => newPcb
    case Connect(made, _) => made
    case _ => None
  }

  /** What lwIP owes this layer: a pcb it returns is not one handed out before, and a
      callback that ends a connection names one that is open. */
  predicate Honest(w: World, op: Op) {
    && (Obtained(op).Some? ==> Obtained(op).value !in w.pcbs)
    && (op.PeerClose? || op.ErrorCallback? ==>
          op.id in w.pcbs && !w.pcbs[op.id].owner.Closed? && w.pcbs[op.id].phase == Connected)
  }

  predicate HonestRun(tidy: bool, w: World, ops: seq<Op>)
    decreases |ops|
  {
    ops == [] || (Honest(w, ops[0]) && HonestRun(tidy, Step(tidy, w, ops[0]).0, ops[1..]))
  }

  // ---------------------------------------------------------------------------

  /** Every pcb obtained is current, kept as the listener, handed over to lwIP, or closed:
      the two fields name pcbs of ours, and there is no other we have to dispose of; none
      was used after it was closed, and no NULL was dereferenced. */
  ghost predicate Conserved(w: World) {
    && (w.cur.Some? ==> w.cur.value in w.pcbs && w.pcbs[w.cur.value].owner == Ours)
    && (w.listener.Some? ==>
          w.listener.value in w.pcbs && w.pcbs[w.listener.value].owner == Ours && w.listener != w.cur)
    && (forall id :: id in w.pcbs && w.pcbs[id].owner == Ours ==> w.cur == Some(id) || w.listener == Some(id))
    && w.staleUses == 0 && w.faults == 0
  }

  /** The tidy code keeps a listener exactly while a connection is current, and never an
      unbound pcb. */
  ghost predicate Tidy(w: World) {
    && Conserved(w)
    && CurPhase(w) != Some(Fresh(false))
    && (w.listener.Some? <==> CurPhase(w) == Some(Connected))
    && (w.listener.Some? ==> w.pcbs[w.listener.value].phase == Listening)
  }

  ghost predicate AlwaysConserved(tidy: bool, w: World, ops: seq<Op>)
    decreases |ops|
  {
    Conserved(w) && (ops == [] || AlwaysConserved(tidy, Step(tidy, w, ops[0]).0, ops[1..]))
  }

  /** The calls of the code as written that lose no pcb: bind only while the pointer is
      NULL (or with a NULL port that is refused), listen only when lwIP has memory for
      the listener, accept only while the pointer is NULL and without an error, connect
      only successfully, and no close or end of the current pcb at all. */
  predicate Clean(w: World, op: Op) {
    match op
    case Bind(hasPort, made, _) => if w.cur.Some? then !hasPort else hasPort || made.None?
    case Listen(swapped) => CurPhase(w).None? || !CurPhase(w).value.Fresh? || swapped.Some?
    case AcceptCallback(newPcb, ok) => w.cur.None? && (newPcb.Some? ==> ok)
    case Connect(made, connectOk) => made.None? || connectOk
    case Close => w.cur.None?
    case PeerClose(id) => w.cur != Some(id)
    case ErrorCallback(id) => w.cur != Some(id)
  }

  predicate AllClean(w: World, ops: seq<Op>)
    decreases |ops|
  {
    ops == [] || (Clean(w, ops[0]) && AllClean(Step(false, w, ops[0]).0, ops[1..]))
  }

  lemma TidyObtainKeeps(w: World, op: Op)
    requires Tidy(w) && Honest(w, op) && Obtained(op).Some?
    ensures Tidy(Step(true, w, op).0)
  {
  }

  lemma TidyEndKeeps(w: World, op: Op)
    requires Tidy(w) && Honest(w, op) && Obtained(op).None?
    ensures Tidy(Step(true, w, op).0)
  {
  }

  lemma TidyStepKeeps(w: World, op: Op)
    requires Tidy(w) && Honest(w, op)
    ensures Tidy(Step(true, w, op).0)
  {
    if Obtained(op).Some? { TidyObtainKeeps(w, op); } else { TidyEndKeeps(w, op); }
  }

  lemma AsWrittenStepConservesExactlyWhen(w: World, op: Op)
    requires Conserved(w) && w.listener == None && Honest(w, op)
    ensures Conserved(Step(false, w, op).0) <==> Clean(w, op)
    ensures Step(false, w, op).0.listener == None
  {
  }

  /** pcb conservation: over every run of bind, listen, accept, connect, close and error
      callbacks, at every moment, each pcb obtained is current, kept as the listener,
      handed over or closed, and none is used again once closed. */
  lemma {:induction false} TidyAlwaysConserves(w: World, ops: seq<Op>)
    requires Tidy(w) && HonestRun(true, w, ops)
    ensures AlwaysConserved(true, w, ops)
    decreases |ops|
  {
    if ops != [] {
      TidyStepKeeps(w, ops[0]);
      TidyAlwaysConserves(Step(true, w, ops[0]).0, ops[1..]);
    }
  }

  /** The code as written conserves its pcbs throughout a run exactly when every call of
      the run is clean. */
  lemma {:induction false} AsWrittenConservesExactlyWhen(w: World, ops: seq<Op>)
    requires Conserved(w) && w.listener == None && HonestRun(false, w, ops)
    ensures AlwaysConserved(false, w, ops) <==> AllClean(w, ops)
    decreases |ops|
  {
    if ops != [] {
      AsWrittenStepConservesExactlyWhen(w, ops[0]);
      if Clean(w, ops[0]) {
        AsWrittenConservesExactlyWhen(Step(false, w, ops[0]).0, ops[1..]);
      } else {
        NotConservedNow(Step(false, w, ops[0]).0, ops[1..]);
      }
    }
  }

  lemma NotConservedNow(w: World, ops: seq<Op>)
    requires !Conserved(w)
    ensures !AlwaysConserved(false, w, ops)
  {
  }

  /** Four runs of the code as written: a second bind loses the first pcb, an accepted
      connection loses the listener, closing twice closes a closed pcb, and a failed
      connect loses its pcb. */
  lemma AsWrittenLosesPcbs()
    ensures var w := WorldAfter(false, START, [Bind(true, Some(1), true), Bind(true, Some(2), true)]);
            w.cur == Some(2) && w.pcbs[1].owner == Ours
    ensures var ops := [Bind(true, Some(1), true), Listen(Some(2)), AcceptCallback(Some(3), true)];
            var w := WorldAfter(false, START, ops);
            w.cur == Some(3) && w.pcbs[2] == Block(Listening, Ours)
    ensures WorldAfter(false, START, [Bind(true, Some(1), true), Close, Close]).staleUses == 1
    ensures var w := WorldAfter(false, START, [Connect(Some(1), false)]);
            w.cur == None && w.pcbs[1].owner == Ours
  {
    var bound := Step(false, START, Bind(true, Some(1), true)).0;
    var listening := Step(false, bound, Listen(Some(2))).0;
    var closed := Step(false, bound, Close).0;
    RunThree(START, Bind(true, Some(1), true), Listen(Some(2)), AcceptCallback(Some(3), true));
    RunThree(START, Bind(true, Some(1), true), Close, Close);
    assert [Bind(true, Some(1), true), Bind(true, Some(2), true)][1..] == [Bind(true, Some(2), true)];
  }

  lemma RunThree(w: World, a: Op, b: Op, c: Op)
    ensures WorldAfter(false, w, [a, b, c]) == Step(false, Step(false, Step(false, w, a).0, b).0, c).0
  {
    assert [a, b, c][1..] == [b, c] && [b, c][1..] == [c] && [c][1..] == [];
    var w1 := Step(false, w, a).0;
    assert WorldAfter(false, w1, [b, c]) == WorldAfter(false, Step(false, w1, b).0, [c]);
  }

  // ---------------------------------------------------------------------------
  // What an answer means for the pcbs, for both versions and in every state

  /** As written a bind succeeds when lwIP has no pcb, and otherwise exactly when the pcb
      that is current afterwards is bound; the tidy one only in the latter case. */
  lemma BindAnswers(tidy: bool, w: World, hasPort: bool, made: Option<nat>, bindOk: bool)
    requires Honest(w, Bind(hasPort, made, bindOk))
    ensures var (w', ok) := Step(tidy, w, Bind(hasPort, made, bindOk));
            && (tidy ==> (ok <==> w.cur.None? && CurPhase(w') == Some(Fresh(true))))
            && (!tidy ==>
                  if !hasPort && w.cur.Some? then !ok && w' == w
                  else (ok <==> w'.cur.None? || CurPhase(w') == Some(Fresh(true))) && w'.cur == made)
  {
  }

  /** A listen hands the pcb over to lwIP and makes the one lwIP returns current. As
      written it succeeds also without one, and then nothing is current. */
  lemma ListenAnswers(tidy: bool, w: World, swapped: Option<nat>)
    requires Honest(w, Listen(swapped))
    ensures var (w', ok) := Step(tidy, w, Listen(swapped));
            && (ok && swapped.Some? ==>
                  && w'.cur == swapped && w'.pcbs[swapped.value] == Block(Listening, Ours)
                  && w.cur.value in w'.pcbs && w'.pcbs[w.cur.value].owner == Lwip)
            && (ok && swapped.None? ==> !tidy && w'.cur == None && w'.pcbs == w.pcbs)
            && (!ok ==> w'.cur == w.cur && w'.pcbs == w.pcbs)
  {
  }

  /** The callback accepts exactly when the new pcb is a connection of ours afterwards. */
  lemma AcceptAnswers(tidy: bool, w: World, newPcb: Option<nat>, errOk: bool)
    requires Honest(w, AcceptCallback(newPcb, errOk))
    ensures var (w', ok) := Step(tidy, w, AcceptCallback(newPcb, errOk));
            ok <==> newPcb.Some? && newPcb.value in w'.pcbs && w'.pcbs[newPcb.value] == Block(Connected, Ours)
  {
  }

  /** A connect succeeds exactly when a pcb was made and now belongs to lwIP; the current
      pcb stays what it was. */
  lemma ConnectAnswers(tidy: bool, w: World, made: Option<nat>, connectOk: bool)
    requires Honest(w, Connect(made, connectOk))
    ensures var (w', ok) := Step(tidy, w, Connect(made, connectOk));
            && (ok <==> made.Some? && made.value in w'.pcbs && w'.pcbs[made.value] == Block(Connected, Lwip))
            && w'.cur == w.cur && w'.listener == w.listener
            && forall id :: id in w.pcbs ==> id in w'.pcbs && w'.pcbs[id] == w.pcbs[id]
  {
  }

  /** A close succeeds exactly when there is a current pcb, and leaves it closed. */
  lemma CloseAnswers(tidy: bool, w: World)
    ensures var (w', ok) := Step(tidy, w, Close);
            && (ok <==> w.cur.Some?)
            && (w.cur.Some? && w.cur.value in w.pcbs ==> IsClosed(w', w.cur.value))
            && (!ok ==> w' == w)
  {
  }

  /** A callback that ends a connection leaves its pcb closed and every other as it was. */
  lemma EndAnswers(tidy: bool, w: World, op: Op)
    requires (op.PeerClose? || op.ErrorCallback?) && Honest(w, op)
    ensures var (w', ok) := Step(tidy, w, op);
            && ok && IsClosed(w', op.id) && w'.staleUses == w.staleUses
            && forall id :: id in w.pcbs && id != op.id ==> id in w'.pcbs && w'.pcbs[id] == w.pcbs[id]
  {
  }

  /** The uses of a closed pcb in the code as written are the listens and closes while the
      current pcb is closed. */
  lemma AsWrittenStaleUseExactlyWhen(w: World, op: Op)
    requires Honest(w, op)
    ensures var w' := Step(false, w, op).0;
            w'.staleUses ==
              w.staleUses + if (op.Listen? || op.Close?) && w.cur.Some? && IsClosed(w, w.cur.value) then 1 else 0
  {
  }

  // ---------------------------------------------------------------------------
  // What a caller can tell from the calls and their results alone

  datatype Life = Unbound | IsBound | IsListening | IsConnected

  /** `own` tells whether a callback ended the current connection. */
  function LifeStep(l: Life, op: Op, result: bool, own: bool): Life {
    match op
    case Bind(_, _, _) => if result then IsBound else l
    case Listen(_) => if result then IsListening else l
    case AcceptCallback(_, _) => if result then IsConnected else l
    case Connect(_, _) => l
    case Close => if result then Unbound else l
    case _ => if own then IsListening else l
  }

  function Owns(w: World, op: Op): bool {
    (op.PeerClose? || op.ErrorCallback?) && w.cur == Some(op.id)
  }

  function LifeAfter(tidy: bool, w: World, l: Life, ops: seq<Op>): Life
    decreases |ops|
  {
    if ops == [] then l
    else
      var (w', result) := Step(tidy, w, ops[0]);
      LifeAfter(tidy, w', LifeStep(l, ops[0], result, Owns(w, ops[0])), ops[1..])
  }

  function WorldAfter(tidy: bool, w: World, ops: seq<Op>): World
    decreases |ops|
  {
    if ops == [] then w else WorldAfter(tidy, Step(tidy, w, ops[0]).0, ops[1..])
  }

  /** The pcb behind the pointer is where the calls say. */
  ghost predicate LifeMatches(w: World, l: Life) {
    match l
    case Unbound => w.cur == None
    case IsBound => CurPhase(w) == Some(Fresh(true))
    case IsListening => CurPhase(w) == Some(Listening)
    case IsConnected => CurPhase(w) == Some(Connected)
  }

  lemma {:induction false} TidyLifeMatches(w: World, l: Life, ops: seq<Op>)
    requires Tidy(w) && LifeMatches(w, l) && HonestRun(true, w, ops)
    ensures Tidy(WorldAfter(true, w, ops))
    ensures LifeMatches(WorldAfter(true, w, ops), LifeAfter(true, w, l, ops))
    decreases |ops|
  {
    if ops != [] {
      TidyStepKeeps(w, ops[0]);
      var (w', result) := Step(true, w, ops[0]);
      TidyLifeMatches(w', LifeStep(l, ops[0], result, Owns(w, ops[0])), ops[1..]);
    }
  }

  /** After any run, listen succeeds exactly when the last bind, listen, accept or close
      that succeeded was a bind and lwIP has memory for the listener. */
  lemma TidyListensExactlyWhenBound(ops: seq<Op>, swapped: Option<nat>)
    requires HonestRun(true, START, ops)
    ensures Step(true, WorldAfter(true, START, ops), Listen(swapped)).1
            <==> LifeAfter(true, START, Unbound, ops) == IsBound && swapped.Some?
  {
    TidyLifeMatches(START, Unbound, ops);
  }

  /** As written, listen reports success on a pcb whose bind failed, on a pcb that is
      closed, and when lwIP had no listener to give. */
  lemma AsWrittenListensUnbound()
    ensures var w := Step(false, START, Bind(true, Some(1), false));
            !w.1 && Step(false, w.0, Listen(Some(2))).1
    ensures var w := Step(false, Step(false, START, Bind(true, Some(1), true)).0, Close).0;
            IsClosed(w, 1) && Step(false, w, Listen(Some(2))).1
    ensures var w := Step(false, START, Bind(true, Some(1), true)).0;
            Step(false, w, Listen(None)) == (w.(cur := None), true)
  {
  }

  /** What the calls alone leave the pointer of the code as written with: nothing, the
      pcb of a bind that succeeded, of one that failed, one that was closed before it
      listened, or a listener or connection. */
  datatype Standing = Nothing | BoundPcb | FailedPcb | DeadPcb | LaterPcb

  function StandingStep(st: Standing, op: Op): Standing {
    match op
    case Bind(hasPort, made, bindOk) =>
      if !hasPort && st != Nothing then st
      else if made.None? then Nothing
      else if bindOk then BoundPcb
      else FailedPcb
    case Listen(swapped) =>
      if st in {Nothing, LaterPcb} then st else if swapped.Some? then LaterPcb else Nothing
    case AcceptCallback(newPcb, _) => if newPcb.Some? then LaterPcb else Nothing
    case Close => if st in {BoundPcb, FailedPcb} then DeadPcb else st
    case _ => st
  }

  function StandingAfter(st: Standing, ops: seq<Op>): Standing
    decreases |ops|
  {
    if ops == [] then st else StandingAfter(StandingStep(st, ops[0]), ops[1..])
  }

  ghost predicate Stands(w: World, st: Standing) {
    && (w.cur.Some? ==> w.cur.value in w.pcbs)
    && match st
       case Nothing => w.cur == None
       case BoundPcb => CurPhase(w) == Some(Fresh(true)) && !IsClosed(w, w.cur.value)
       case FailedPcb => CurPhase(w) == Some(Fresh(false)) && !IsClosed(w, w.cur.value)
       case DeadPcb => CurPhase(w).Some? && CurPhase(w).value.Fresh? && IsClosed(w, w.cur.value)
       case LaterPcb => CurPhase(w).Some? && !CurPhase(w).value.Fresh?
  }

  lemma {:induction false} RunStands(w: World, st: Standing, ops: seq<Op>)
    requires Stands(w, st) && HonestRun(false, w, ops)
    ensures Stands(WorldAfter(false, w, ops), StandingAfter(st, ops))
    decreases |ops|
  {
    if ops != [] {
      RunStands(Step(false, w, ops[0]).0, StandingStep(st, ops[0]), ops[1..]);
    }
  }

  /** A listen that succeeds on an open pcb that is bound, and comes back with a listener. */
  ghost predicate SoundListen(w: World, swapped: Option<nat>) {
    var (w', ok) := Step(false, w, Listen(swapped));
    && ok && CurPhase(w) == Some(Fresh(true)) && !IsClosed(w, w.cur.value)
    && CurPhase(w') == Some(Listening)
  }

  /** After every run of the code as written: listen reports success exactly when the last
      call that moved the pointer was a bind that made a pcb, closed since or not; and
      that success is sound exactly when the bind succeeded, no close followed, and lwIP
      had a listener to give. */
  lemma AsWrittenListenSoundExactlyWhen(ops: seq<Op>, swapped: Option<nat>)
    requires HonestRun(false, START, ops)
    ensures var w, st := WorldAfter(false, START, ops), StandingAfter(Nothing, ops);
            && (Step(false, w, Listen(swapped)).1 <==> st in {BoundPcb, FailedPcb, DeadPcb})
            && (SoundListen(w, swapped) <==> st == BoundPcb && swapped.Some?)
  {
    RunStands(START, Nothing, ops);
  }

  /** The calls on which the code as written and the tidy code do the same. */
  predicate Agreeable(w: World, op: Op) {
    match op
    case Bind(hasPort, made, bindOk) => if w.cur.Some? then !hasPort else hasPort && made.Some? && bindOk
    case AcceptCallback(newPcb, _) => newPcb.None? && w.cur.None?
    case _ => Clean(w, op)
  }

  predicate AllAgreeable(w: World, ops: seq<Op>)
    decreases |ops|
  {
    ops == [] || (Agreeable(w, ops[0]) && AllAgreeable(Step(false, w, ops[0]).0, ops[1..]))
  }

  /** World and result after every call of the run. */
  function Trace(tidy: bool, w: World, ops: seq<Op>): seq<(World, bool)>
    decreases |ops|
  {
    if ops == [] then []
    else [Step(tidy, w, ops[0])] + Trace(tidy, Step(tidy, w, ops[0]).0, ops[1..])
  }

  lemma StepsAgreeExactlyWhen(w: World, op: Op)
    requires Tidy(w) && w.listener == None && Honest(w, op)
    ensures Step(false, w, op) == Step(true, w, op) <==> Agreeable(w, op)
  {
    match op
    case Connect(Some(id), false) =>
      assert Step(false, w, op).0.pcbs[id].owner == Ours && Step(true, w, op).0.pcbs[id].owner == Closed;
    case _ =>
  }

  /** The code as written does what the tidy code does, in every state of a run and with
      every result, exactly when each call finds the state it needs. */
  lemma {:induction false} AsWrittenAgreesExactlyWhen(w: World, ops: seq<Op>)
    requires Tidy(w) && w.listener == None && HonestRun(false, w, ops)
    ensures Trace(false, w, ops) == Trace(true, w, ops) <==> AllAgreeable(w, ops)
    decreases |ops|
  {
    if ops != [] {
      var t0, t1 := Trace(false, w, ops), Trace(true, w, ops);
      StepsAgreeExactlyWhen(w, ops[0]);
      if Agreeable(w, ops[0]) {
        TidyStepKeeps(w, ops[0]);
        var w' := Step(false, w, ops[0]).0;
        AsWrittenAgreesExactlyWhen(w', ops[1..]);
        assert t0[1..] == Trace(false, w', ops[1..]) && t1[1..] == Trace(true, w', ops[1..]);
      } else {
        assert t0[0] == Step(false, w, ops[0]) && t1[0] == Step(true, w, ops[0]);
      }
    }
  }

  // ---------------------------------------------------------------------------

  /** tcpip_raw_pcb and the functions that move it. Each call takes what lwIP answers as
      an argument. */
  class PcbLayer {
    const tidy: bool
    var cur: Option<nat>
    var listener: Option<nat>
    var pcbs: map<nat, Block>  // lwIP's pcbs
    ghost var staleUses: nat
    ghost var faults: nat

    ghost function State(): World
      reads this
    {
      World(cur, listener, pcbs, staleUses, faults)
    }

    /** With the repair no pcb is ever lost or used after its close. */
    ghost predicate Valid()
      reads this
    {
      tidy ==> Tidy(State())
    }

    constructor (tidy: bool)
      ensures this.tidy == tidy && State() == START && Valid()
    {
      this.tidy := tidy;
      cur, listener, pcbs, staleUses, faults := None, None, map[], 0, 0;
    }

    method LwipMakes(id: nat, phase: Phase)
      modifies `pcbs
      ensures State() == Add(old(State()), id, phase)
    {
      pcbs := pcbs[id := Block(phase, Ours)];
    }

    method LwipOwns(id: nat, owner: Owner)
      modifies `pcbs
      ensures State() == SetOwner(old(State()), id, owner)
    {
      if id in pcbs {
        pcbs := pcbs[id := pcbs[id].(owner := owner)];
      }
    }

    /** tcpip_raw_close. */
    method CloseRaw(id: nat)
      modifies `pcbs, `staleUses
      ensures State() == RawClose(old(State()), id)
    {
      if IsClosed(State(), id) {
        staleUses := staleUses + 1;
      }
      LwipOwns(id, Closed);
    }

    /** An honest call keeps the layer valid. */
    ghost predicate Keeps(w: World, op: Op)
      reads this
    {
      (tidy ==> Tidy(w)) && Honest(w, op) ==> Valid()
    }

    lemma StepKeepsValid(w: World, op: Op)
      requires State() == Step(tidy, w, op).0
      ensures Keeps(w, op)
    {
      if tidy && Tidy(w) && Honest(w, op) {
        TidyStepKeeps(w, op);
      }
    }

    /** TcpIp_Bind. */
    method TcpIpBind(hasPort: bool, made: Option<nat>, bindOk: bool) returns (ok: bool)
      modifies this
      ensures (State(), ok) == BindStep(tidy, old(State()), hasPort, made, bindOk)
      ensures Keeps(old(State()), Bind(hasPort, made, bindOk))
    {
      ghost var w := State();
      ok := !((!hasPort && cur.Some?) || (tidy && (cur.Some? || !hasPort)));
      if ok {
        cur := made;
        if made.Some? {
          LwipMakes(made.value, Fresh(bindOk));
          if !hasPort {
            faults := faults + 1;
          }
          if !bindOk {
            ok := false;
            if tidy {
              CloseRaw(made.value);
              cur := None;
            }
          }
        } else if tidy {
          ok := false;
        }
      }
      StepKeepsValid(w, Bind(hasPort, made, bindOk));
    }

    /** TcpIp_TcpListen. */
    method TcpListen(swapped: Option<nat>) returns (ok: bool)
      modifies this
      ensures (State(), ok) == ListenStep(tidy, old(State()), swapped)
      ensures Keeps(old(State()), Listen(swapped))
    {
      ghost var w := State();
      ok := false;
      if cur.Some? {
        if IsClosed(State(), cur.value) {
          staleUses := staleUses + 1;
        }
        if cur.value in pcbs && pcbs[cur.value].phase.Fresh? {
          if swapped.Some? {
            LwipOwns(cur.value, Lwip);
            LwipMakes(swapped.value, Listening);
          }
          if swapped.Some? || !tidy {
            cur := swapped;
            ok := true;
          }
        }
      }
      StepKeepsValid(w, Listen(swapped));
    }

    /** tcpip_raw_accept. */
    method RawAccept(newPcb: Option<nat>, errOk: bool) returns (ok: bool)
      modifies this
      ensures (State(), ok) == AcceptStep(tidy, old(State()), newPcb, errOk)
      ensures Keeps(old(State()), AcceptCallback(newPcb, errOk))
    {
      ghost var w := State();
      var overListener := cur.Some? && cur.value in pcbs && pcbs[cur.value].phase == Listening;
      ok := newPcb.Some? && errOk && (!tidy || overListener);
      if newPcb.Some? {
        LwipMakes(newPcb.value, Connected);
        if !ok {
          LwipOwns(newPcb.value, Closed);
        }
      }
      if !tidy {
        cur := newPcb;
      } else if ok {
        listener := cur;
        cur := newPcb;
      }
      StepKeepsValid(w, AcceptCallback(newPcb, errOk));
    }

    /** TcpIp_TcpConnect. */
    method TcpConnect(made: Option<nat>, connectOk: bool) returns (ok: bool)
      modifies this
      ensures (State(), ok) == ConnectStep(tidy, old(State()), made, connectOk)
      ensures Keeps(old(State()), Connect(made, connectOk))
    {
      ghost var w := State();
      ok := made.Some? && connectOk;
      if made.Some? {
        LwipMakes(made.value, Connected);
        if connectOk {
          LwipOwns(made.value, Lwip);
        } else if tidy {
          CloseRaw(made.value);
        }
      }
      StepKeepsValid(w, Connect(made, connectOk));
    }

    /** TcpIp_Close. */
    method TcpIpClose() returns (ok: bool)
      modifies this
      ensures (State(), ok) == CloseStep(tidy, old(State()))
      ensures Keeps(old(State()), Close)
    {
      ghost var w := State();
      ok := cur.Some?;
      if ok {
        CloseRaw(cur.value);
        if tidy {
          if listener.Some? {
            CloseRaw(listener.value);
          }
          cur, listener := None, None;
        }
      }
      StepKeepsValid(w, Close);
    }

    method ForgetConnection(id: nat)
      modifies `cur, `listener
      ensures State() == Forget(tidy, old(State()), id)
    {
      if tidy && cur == Some(id) {
        cur, listener := listener, None;
      }
    }

    /** The close at the end of tcpip_raw_recv. */
    method PeerClosed(id: nat)
      modifies this
      ensures (State(), true) == Step(tidy, old(State()), PeerClose(id))
      ensures Keeps(old(State()), PeerClose(id))
    {
      ghost var w := State();
      CloseRaw(id);
      ForgetConnection(id);
      StepKeepsValid(w, PeerClose(id));
    }

    /** tcpip_raw_error. As written it only logs. */
    method RawError(id: nat)
      modifies this
      ensures (State(), true) == Step(tidy, old(State()), ErrorCallback(id))
      ensures Keeps(old(State()), ErrorCallback(id))
    {
      ghost var w := State();
      LwipOwns(id, Closed);
      ForgetConnection(id);
      StepKeepsValid(w, ErrorCallback(id));
    }
  }
}
