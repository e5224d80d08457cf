/** The functions of src/tcpip_extensions.c, writing the table in place and calling the
    pcb layer below. */
module SocketLayer {
  import opened Options
  import opened SocketTable
  import Pcb

  class SocketLayer {
    const f: Fixes
    const conn: array<Socket>
    const below: Pcb.PcbLayer
    var behind: Socket  // the memory that follows the table
    var count: nat      // TcpIp_No_Socket_Conn
    ghost var strays: nat
    ghost var inits: set<nat>

    ghost function TheTable(): Table
      reads this, conn
    {
      Table(conn[..], behind, count, strays, inits)
    }

    ghost function State(): World
      reads this, conn, below
    {
      World(TheTable(), below.State())
    }

    /** With the repairs the initialised handles are the first entries of the table, and
        the layer below loses no pcb. */
    ghost predicate Valid()
      reads this, conn, below
    {
      (f == REPAIRED ==> Ordered(TheTable())) && below.Valid()
    }

    /** A call that lwIP answers honestly keeps the layers valid. */
    ghost predicate Keeps(w: World, c: Call)
      reads this, conn, below
    {
      && (f == REPAIRED ==> Ordered(w.table))
      && (below.tidy ==> Pcb.Tidy(w.pcb))
      && (Reaching(f, w, c).Some? ==> Pcb.Honest(w.pcb, Reaching(f, w, c).value))
      ==> Valid()
    }

    lemma StepKeepsValid(w: World, c: Call)
      requires State() == Step(f, below.tidy, w, c).0
      ensures Keeps(w, c)
    {
      StepReaches(f, below.tidy, w, c);
      if f == REPAIRED && Ordered(w.table) {
        StepKeepsOrdered(below.tidy, w, c);
      }
      var op := Reaching(f, w, c);
      if below.tidy && Pcb.Tidy(w.pcb) && op.Some? && Pcb.Honest(w.pcb, op.value) {
        Pcb.TidyStepKeeps(w.pcb, op.value);
      }
    }

    constructor (f: Fixes, n: nat, foreign: Socket, below: Pcb.PcbLayer)
      ensures this.f == f && this.below == below && TheTable() == EmptyTable(n, foreign)
      ensures fresh(conn) && (below.Valid() ==> Valid())
    {
      this.f, this.below := f, below;
      conn := new Socket[n](_ => ZEROED);
      behind, count, strays, inits := foreign, 0, 0, {};
      new;
      assert conn[..] == seq(n, _ => ZEROED);
    }

    /** Reads through TcpIp_Socket_Conn[fd]. */
    method Load(fd: nat) returns (s: Socket)
      ensures s == Entry(TheTable(), fd)
    {
      s := if fd < conn.Length then conn[fd] else behind;
    }

    /** Writes through TcpIp_Socket_Conn[fd]. */
    method Save(fd: nat, s: Socket)
      modifies `behind, `strays, conn
      ensures TheTable() == SetEntry(old(TheTable()), fd, s)
    {
      if fd < conn.Length {
        conn[fd] := s;
      } else {
        if fd == conn.Length {
          behind := s;
        }
        strays := strays + 1;
      }
    }

    method CheckHandle(fd: int) returns (ok: bool)
      ensures ok == Admits(f, TheTable(), fd)
    {
      ok := 0 <= fd && (if f.bounds then fd < conn.Length else fd <= conn.Length) && (!f.ordered || fd < count);
    }

    /** TcpIp_Socket_Init. */
    method SocketInit(fd: int) returns (ok: bool)
      modifies this, conn
      ensures (State(), ok) == Step(f, below.tidy, old(State()), Init(fd))
      ensures Keeps(old(State()), Init(fd))
    {
      ghost var w := State();
      ok := true;
      if 0 > fd {
        ok := false;
      } else if (if f.bounds then conn.Length <= fd else conn.Length < fd) {
        ok := false;
      } else if f.ordered && fd > count {
        ok := false;
      } else {
        var s := Load(fd);
        Save(fd, s.(fd := fd, id := fd % 0x1_0000, state := ClosedSt));
        inits := inits + {fd};
        if !f.ordered || fd >= count {
          count := count + 1;
        }
      }
      StepKeepsValid(w, Init(fd));
    }

    /** TcpIp_Socket_Bind; made and bindOk are lwIP's answers. */
    method SocketBind(fd: int, made: Option<nat>, bindOk: bool) returns (ok: bool)
      modifies this, conn, below
      ensures (State(), ok) == BindStep(f, below.tidy, old(State()), fd, made, bindOk)
      ensures Keeps(old(State()), Bind(fd, made, bindOk))
    {
      ghost var w := State();
      ok := false;
      var admitted := CheckHandle(fd);
      if admitted {
        var s := Load(fd);
        if s.state == ClosedSt {
          ok := below.TcpIpBind(true, made, bindOk);
          if ok && f.store {
            Save(fd, s.(state := BindSt));
          }
        }
      }
      StepKeepsValid(w, Bind(fd, made, bindOk));
    }

    /** TcpIp_Socket_Listen; swapped is lwIP's answer. */
    method SocketListen(fd: int, swapped: Option<nat>) returns (ok: bool)
      modifies this, conn, below
      ensures (State(), ok) == ListenStep(f, below.tidy, old(State()), fd, swapped)
      ensures Keeps(old(State()), Listen(fd, swapped))
    {
      ghost var w := State();
      ok := false;
      var admitted := CheckHandle(fd);
      if admitted {
        var s := Load(fd);
        if s.state == BindSt || s.state == ListenSt {
          ok := below.TcpListen(swapped);
          Save(fd, s.(state := if ok then AcceptSt else ListenSt));
        }
      }
      StepKeepsValid(w, Listen(fd, swapped));
    }

    /** TcpIp_Socket_Accept. The wait for a wake-up returns at once. */
    method SocketAccept(fd: int) returns (ok: bool)
      ensures (State(), ok) == Step(f, below.tidy, State(), Accept(fd))
    {
      ok := false;
      var admitted := CheckHandle(fd);
      if admitted {
        var s := Load(fd);
        if s.state == ListenSt {
          s := Load(fd);
          ok := s.state == AcceptSt;
        } else {
          ok := s.state == AcceptSt;
        }
      }
    }

    /** The guards of TcpIp_Socket_Recv, and of TcpIp_Socket_Send without its length. */
    method MayTransfer(fd: int) returns (ok: bool)
      ensures (State(), ok) == Step(f, below.tidy, State(), Recv(fd))
      ensures forall length: nat :: (State(), ok && length > 0) == Step(f, below.tidy, State(), Send(fd, length))
    {
      ok := false;
      var admitted := CheckHandle(fd);
      if admitted {
        var s := Load(fd);
        ok := Rank(s.state) >= Rank(AcceptSt);
      }
    }

    /** TcpIp_Socket_Main_Loop. */
    method SocketMainLoop(poll: nat -> ConnState)
      modifies this, conn
      ensures (State(), true) == Step(f, below.tidy, old(State()), MainLoop(poll))
      ensures Keeps(old(State()), MainLoop(poll))
    {
      ghost var w := State();
      var con := 0;
      while con < count
        invariant 0 <= con <= count == old(count)
        invariant TheTable() == PollUpTo(old(TheTable()), con, poll)
      {
        var s := Load(con);
        var state := poll(s.id);
        Save(con, s.(state := state, woken := if state == AcceptSt then s.woken + 1 else s.woken));
        con := con + 1;
      }
      StepKeepsValid(w, MainLoop(poll));
    }
  }
}
