/** The switch controller (`LNs/CSWI.c`): position and interlock inputs, the check before an
    operation and the control handler that the server calls until it stops waiting. */
module SwitchControl {
  import opened Mms

  /** The fields of the instance, the published outputs, and how often each output was raised. */
  datatype State = State(
    currentValue: Dbpos,
    timeout: int,
    enaOpn: bool,
    enaCls: bool,
    loc: bool,
    opOpn: bool,
    opCls: bool,
    raisedOpn: nat,
    raisedCls: nat)

  const INITIAL := State(Intermediate, 0, true, true, false, false, false, 0, 0)

  datatype ControlResult = Ok | Failed | Waiting

  datatype CheckResult = Accepted | BlockedBySwitchingHierarchy | BlockedByInterlocking

  /** checkHandler: local operation first, then the interlock of the wanted direction. */
  function Check(s: State, close: bool): CheckResult {
    if s.loc then BlockedBySwitchingHierarchy
    else if !close && s.enaOpn then Accepted
    else if close && s.enaCls then Accepted
    else BlockedByInterlocking
  }

  function Pulse(s: State, pos: Dbpos, on: bool): State {
    match pos
    case Off => s.(opOpn := on, raisedOpn := s.raisedOpn + if on then 1 else 0)
    case On => s.(opCls := on, raisedCls := s.raisedCls + if on then 1 else 0)
    case _ => s
  }

  /** Both outputs lowered, the operation over. */
  function Lowered(s: State): State {
    s.(timeout := 0, opOpn := false, opCls := false)
  }

  /** controlHandlerForBinaryOutput. */
  function Handle(s: State, close: bool): (State, ControlResult) {
    var s1 := if s.timeout == 0 then Pulse(s, Target(close), true) else s;
    if s1.currentValue == Target(close) then
      (Pulse(s1.(timeout := 0), s1.currentValue, false), Ok)
    else if s1.currentValue == Bad then
      (Lowered(s1), Failed)
    else if s1.timeout + 1 < 1000 then
      (s1.(timeout := s1.timeout + 1), Waiting)
    else
      (Lowered(s1), Failed)
  }

  datatype AddCause = PositionReached | InvalidPosition

  /** The cause given with a final answer: the position was reached, or is bad, or time is up. */
  function CauseOf(s: State, close: bool): Option<AddCause> {
    match Handle(s, close).1
    case Ok => Some(PositionReached)
    case Failed => Some(InvalidPosition)
    case Waiting => None
  }

  class CSWI {
    var currentValue: Dbpos
    var timeout: int
    var EnaOpn: bool
    var EnaCls: bool
    var Loc: bool
    var OpOpn: bool
    var OpCls: bool
    ghost var raisedOpn: nat
    ghost var raisedCls: nat

    ghost function Value(): State
      reads this
    {
      State(currentValue, timeout, EnaOpn, EnaCls, Loc, OpOpn, OpCls, raisedOpn, raisedCls)
    }

    constructor ()
      ensures Value() == INITIAL
    {
      currentValue, timeout, EnaOpn, EnaCls, Loc := Intermediate, 0, true, true, false;
      OpOpn, OpCls := false, false;
      raisedOpn, raisedCls := 0, 0;
    }

    /** Pos.stVal is published when the position changed. */
    method CurrentValueCallback(value: Dbpos) returns (published: bool)
      modifies this
      ensures Value() == old(Value()).(currentValue := value)
      ensures published <==> old(currentValue) != value
    {
      var oldvalue := currentValue;
      currentValue := value;
      published := oldvalue != currentValue;
    }

    method EnaOpnCallback(value: bool)
      modifies this
      ensures Value() == old(Value()).(enaOpn := value)
    {
      EnaOpn := value;
    }

    method EnaClsCallback(value: bool)
      modifies this
      ensures Value() == old(Value()).(enaCls := value)
    {
      EnaCls := value;
    }

    method LocCallback(value: bool)
      modifies this
      ensures Value() == old(Value()).(loc := value)
    {
      Loc := value;
    }

    method CheckHandler(state: bool) returns (result: CheckResult)
      ensures result == Check(Value(), state)
      ensures result == Accepted <==> !Loc && (if state then EnaCls else EnaOpn)
      ensures result == BlockedBySwitchingHierarchy <==> Loc
    {
      if Loc {
        return BlockedBySwitchingHierarchy;
      }
      if state == false && EnaOpn == true {
        return Accepted;
      }
      if state == true && EnaCls == true {
        return Accepted;
      }
      return BlockedByInterlocking;
    }

    method PulseOp(pos: Dbpos, on: bool)
      modifies this
      ensures Value() == Pulse(old(Value()), pos, on)
    {
      if on {
        if pos == Off { OpOpn := true; raisedOpn := raisedOpn + 1; }
        if pos == On { OpCls := true; raisedCls := raisedCls + 1; }
      } else {
        if pos == Off { OpOpn := false; }
        if pos == On { OpCls := false; }
      }
    }

    method ControlHandler(state: bool) returns (result: ControlResult, addCause: Option<AddCause>)
      modifies this
      ensures (Value(), result) == Handle(old(Value()), state) && addCause == CauseOf(old(Value()), state)
      ensures addCause == Some(PositionReached) <==> currentValue == (if state then On else Off)
      ensures addCause == Some(InvalidPosition) <==>
              currentValue != (if state then On else Off) && (currentValue == Bad || old(timeout) >= 999)
      ensures addCause == None <==> result == Waiting
    {
      if timeout == 0 {
        if state {
          PulseOp(On, true);
        } else {
          PulseOp(Off, true);
        }
      }
      if (state && currentValue == On) || (!state && currentValue == Off) {
        timeout := 0;
        PulseOp(currentValue, false);
        return Ok, Some(PositionReached);
      }
      if currentValue == Bad {
        timeout := 0;
        PulseOp(On, false);
        PulseOp(Off, false);
        return Failed, Some(InvalidPosition);
      }
      timeout := timeout + 1;
      if timeout < 1000 {
        return Waiting, None;
      }
      timeout := 0;
      PulseOp(On, false);
      PulseOp(Off, false);
      return Failed, Some(InvalidPosition);
    }
  }

  // ---- A whole operation ----

  ghost predicate Idle(s: State) {
    s.timeout == 0 && !s.opOpn && !s.opCls
  }

  /** The server calls the handler while it answers Waiting; before call i the position is
      positions[i]. The third component counts the calls made. */
  function Operate(s: State, close: bool, positions: seq<Dbpos>): (r: (State, ControlResult, nat))
    ensures r.2 <= |positions|
    decreases |positions|
  {
    if positions == [] then (s, Waiting, 0)
    else
      var h := Handle(s.(currentValue := positions[0]), close);
      if h.1 != Waiting then (h.0, h.1, 1)
      else
        var rest := Operate(h.0, close, positions[1..]);
        (rest.0, rest.1, rest.2 + 1)
  }

  function Raised(s: State, close: bool): nat {
    if close then s.raisedCls else s.raisedOpn
  }

  /** In the middle of an operation: n calls made, the commanded output raised. */
  ghost predicate InProgress(s: State, close: bool, n: nat) {
    0 < n < 1000 && s.timeout == n && s.opOpn == !close && s.opCls == close
  }

  /** One more call in the middle of an operation. */
  lemma CallInProgress(s: State, close: bool, n: nat)
    requires InProgress(s, close, n)
    ensures var (s', result) := Handle(s, close);
            && s'.raisedOpn == s.raisedOpn && s'.raisedCls == s.raisedCls
            && (result == Waiting ==> n + 1 < 1000 && InProgress(s', close, n + 1))
            && (result != Waiting ==> Idle(s'))
            && (result == Ok <==> s.currentValue == Target(close))
            && (result == Failed <==> s.currentValue != Target(close) && (s.currentValue == Bad || n + 1 == 1000))
  {
  }

  lemma {:induction false} OperateInProgress(s: State, close: bool, positions: seq<Dbpos>, n: nat)
    requires InProgress(s, close, n)
    ensures var (s', result, calls) := Operate(s, close, positions);
            && s'.raisedOpn == s.raisedOpn && s'.raisedCls == s.raisedCls
            && n + calls <= 1000
            && (result == Waiting ==> calls == |positions| && InProgress(s', close, n + calls))
            && (result != Waiting ==> Idle(s') && calls > 0)
            && (result == Ok <==> calls > 0 && positions[calls - 1] == Target(close))
            && (result == Failed <==> calls > 0 && positions[calls - 1] != Target(close)
                                      && (positions[calls - 1] == Bad || n + calls == 1000))
    decreases |positions|
  {
    if positions == [] {
    } else {
      var s0 := s.(currentValue := positions[0]);
      CallInProgress(s0, close, n);
      var h := Handle(s0, close);
      if h.1 == Waiting {
        OperateInProgress(h.0, close, positions[1..], n + 1);
      }
    }
  }

  /** From idle, however the position moves: an answer within 1000 calls, the commanded output
      raised exactly once and the other never, everything back at rest; success is answered at
      the first call that finds the position reached. */
  lemma OperateOnce(s: State, close: bool, positions: seq<Dbpos>)
    requires Idle(s) && |positions| >= 1000
    ensures var (s', result, calls) := Operate(s, close, positions);
            && 0 < calls <= 1000 && result != Waiting && Idle(s')
            && Raised(s', close) == Raised(s, close) + 1 && Raised(s', !close) == Raised(s, !close)
            && (result == Ok <==> positions[calls - 1] == Target(close))
            && (result == Failed ==> positions[calls - 1] == Bad || calls == 1000)
  {
    var h := Handle(s.(currentValue := positions[0]), close);
    if h.1 == Waiting {
      OperateInProgress(h.0, close, positions[1..], 1);
    }
  }

  /** The handler stops at the first position that decides the matter. */
  lemma {:induction false} OperateStopsEarly(s: State, close: bool, positions: seq<Dbpos>)
    ensures var (s', result, calls) := Operate(s, close, positions);
            forall i :: 0 <= i < calls - 1 ==> positions[i] != Target(close) && positions[i] != Bad
    decreases |positions|
  {
    if positions == [] {
    } else {
      var h := Handle(s.(currentValue := positions[0]), close);
      if h.1 == Waiting {
        OperateStopsEarly(h.0, close, positions[1..]);
      }
    }
  }
}
