/** lwip_int_main of src/lwip_int.c: one received packet is handed to every interface.

    An interface's `input` takes over one reference when it returns ERR_OK and none
    otherwise. With refEach == false the code is the code as written: the packet starts
    with one reference and no further one is taken. With refEach == true the driver takes
    one reference per hand-off and gives its own up after the loop. */
module FanOut {
  /** What one `input` call does with the reference it is offered: refuse it, keep it, or
      take it and give it up before returning. */
  datatype Answer = Rejected | Kept | Used

  /** References on the packet, references the interfaces hold, and uses of a packet whose
      references are all gone. */
  datatype Count = Count(refs: int, held: nat, late: nat)

  function Touch(c: Count): Count {
    if c.refs <= 0 then c.(late := c.late + 1) else c
  }

  function Drop(c: Count): Count {
    var t := Touch(c);
    t.(refs := t.refs - 1)
  }

  function HandOff(refEach: bool, c: Count, a: Answer): Count {
    var offered := if refEach then Touch(c).(refs := c.refs + 1) else c;
    var t := Touch(offered);
    match a
    case Rejected => Drop(t)
    case Kept => t.(held := t.held + 1)
    case Used => t.(refs := t.refs - 1)
  }

  function HandOffs(refEach: bool, c: Count, answers: seq<Answer>): Count
    decreases |answers|
  {
    if answers == [] then c
    else
      var k := |answers| - 1;
      HandOff(refEach, HandOffs(refEach, c, answers[..k]), answers[k])
  }

  function Outcome(refEach: bool, answers: seq<Answer>): Count {
    var c := HandOffs(refEach, Count(1, 0, 0), answers);
    if refEach then Drop(c) else c
  }

  /** Every reference belongs to an interface that kept one, and the packet was never
      touched after its last reference was gone. */
  ghost predicate Balanced(c: Count) {
    c.refs == c.held && c.late == 0
  }

  class Driver {
    var refs: int
    var held: nat
    var late: nat

    ghost function State(): Count
      reads this
    {
      Count(refs, held, late)
    }

    constructor () {
      refs, held, late := 0, 0, 0;
    }

    method UsePacket()
      modifies this
      ensures State() == Touch(old(State()))
    {
      if refs <= 0 {
        late := late + 1;
      }
    }

    method PbufFree()
      modifies this
      ensures State() == Drop(old(State()))
    {
      UsePacket();
      refs := refs - 1;
    }

    /** One `input` call; the answer is the interface's. */
    method Input(a: Answer) returns (ok: bool)
      modifies this
      ensures ok == !a.Rejected?
      ensures var t := Touch(old(State()));
              State() == match a
                         case Rejected => t
                         case Kept => t.(held := t.held + 1)
                         case Used => t.(refs := t.refs - 1)
    {
      UsePacket();
      match a {
        case Rejected =>
        case Kept => held := held + 1;
        case Used => refs := refs - 1;
      }
      ok := !a.Rejected?;
    }

    /** The reception half of lwip_int_main: nothing arrived, or no pbuf was left, or the
        packet goes to every interface in turn. */
    method LwipIntMain(refEach: bool, packetLen: nat, gotPbuf: bool, answers: seq<Answer>)
      modifies this
      ensures State() == if packetLen > 0 && gotPbuf then Outcome(refEach, answers) else old(State())
    {
      if packetLen > 0 && gotPbuf {
        refs, held, late := 1, 0, 0;
        var i := 0;
        while i < |answers|
          invariant 0 <= i <= |answers|
          invariant State() == HandOffs(refEach, Count(1, 0, 0), answers[..i])
        {
          assert answers[..i + 1][..i] == answers[..i];
          if refEach {
            UsePacket();
            refs := refs + 1;
          }
          var ok := Input(answers[i]);
          if !ok {
            PbufFree();
          }
          i := i + 1;
        }
        assert answers[..i] == answers;
        if refEach {
          PbufFree();
        }
      }
    }
  }

  function KeptIn(answers: seq<Answer>): nat {
    if answers == [] then 0
    else KeptIn(answers[..|answers| - 1]) + if answers[|answers| - 1] == Kept then 1 else 0
  }

  /** Every hand-off of the code as written costs one reference, accepted or not. */
  lemma {:induction false} AsWrittenCosts(answers: seq<Answer>)
    ensures var c := HandOffs(false, Count(1, 0, 0), answers);
            c.refs - c.held == 1 - |answers| && c.held == KeptIn(answers)
    decreases |answers|
  {
    if answers != [] {
      AsWrittenCosts(answers[..|answers| - 1]);
    }
  }

  lemma {:induction false} OneReferenceEach(answers: seq<Answer>)
    ensures HandOffs(true, Count(1, 0, 0), answers) == Count(1 + KeptIn(answers), KeptIn(answers), 0)
    decreases |answers|
  {
    if answers != [] {
      OneReferenceEach(answers[..|answers| - 1]);
    }
  }

  /** For any number of interfaces and any pattern of answers, the packet's references are
      balanced exactly when there is one interface or one reference is taken per
      hand-off; then the interfaces that kept the packet hold all its references. */
  lemma BalancedExactlyWhen(refEach: bool, answers: seq<Answer>)
    ensures Balanced(Outcome(refEach, answers)) <==> refEach || |answers| == 1
    ensures refEach ==> Outcome(refEach, answers) == Count(KeptIn(answers), KeptIn(answers), 0)
  {
    if refEach {
      OneReferenceEach(answers);
    } else {
      AsWrittenCosts(answers);
      if |answers| == 1 {
        assert answers[..0] == [];
      }
    }
  }

  ghost predicate AllKept(answers: seq<Answer>) {
    forall k :: 0 <= k < |answers| ==> answers[k] == Kept
  }

  lemma {:induction false} AsWrittenGone(answers: seq<Answer>)
    ensures var c := HandOffs(false, Count(1, 0, 0), answers);
            && (if AllKept(answers) then c.refs == 1 else c.refs <= 0)
            && (c.late == 0 <==> answers == [] || AllKept(answers[..|answers| - 1]))
    decreases |answers|
  {
    if answers != [] {
      var before := answers[..|answers| - 1];
      AsWrittenGone(before);
      assert answers == before + [answers[|answers| - 1]];
      assert before != [] && AllKept(before) ==> AllKept(before[..|before| - 1]);
    }
  }

  /** The packet is touched after its last reference is gone exactly when, without a
      reference each, an interface before the last one does not keep it. */
  lemma TouchedTooLateExactlyWhen(refEach: bool, answers: seq<Answer>)
    ensures Outcome(refEach, answers).late > 0 <==>
              !refEach && exists k :: 0 <= k < |answers| - 1 && answers[k] != Kept
  {
    if refEach {
      OneReferenceEach(answers);
    } else {
      AsWrittenGone(answers);
      assert answers != [] ==> forall k :: 0 <= k < |answers| - 1 ==> answers[..|answers| - 1][k] == answers[k];
    }
  }

  /** Two interfaces, the code as written: the first uses the packet up, the second is
      handed memory that is already released. */
  lemma SecondInterfaceTooLate()
    ensures Outcome(false, [Used, Rejected]) == Count(-1, 0, 2)
  {
    assert [Used, Rejected][..1] == [Used] && [Used][..0] == [];
    assert HandOffs(false, Count(1, 0, 0), [Used]) == Count(0, 0, 0);
  }
}
