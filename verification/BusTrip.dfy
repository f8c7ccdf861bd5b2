/** Trip conditioning (`LNs/PTRC.c`) and the bus protection wired as in `cfg/BUS1.ext`: one
    differential protection feeds a conditioning node per feeder, and an interlocking node per
    feeder permits it from the position of that feeder's disconnector, received by GOOSE. */
module BusTrip {
  import opened Mms
  import Interlock

  /** An input of the node: an Op signal, which may not have arrived yet, or something else. */
  datatype Input = Op(value: Option<bool>) | Other

  datatype TripState = TripState(tripped: bool, enaOpn: bool)

  predicate AnyOp(inputs: seq<Input>) {
    exists k :: 0 <= k < |inputs| && inputs[k] == Op(Some(true))
  }

  /** The state after a callback of an Op input, and the value given to Op and Tr, if any. While
      tripped, a callback clears the trip whatever the inputs are. */
  function OpCallback(s: TripState, inputs: seq<Input>): (TripState, Option<bool>) {
    if !s.tripped && s.enaOpn && AnyOp(inputs) then (s.(tripped := true), Some(true))
    else if s.tripped then (s.(tripped := false), Some(false))
    else (s, None)
  }

  class PTRC {
    var tripstate: bool
    var EnaOpn: bool
    var inputs: seq<Input>

    ghost function Value(): TripState
      reads this
    {
      TripState(tripstate, EnaOpn)
    }

    /** Enabled at first, unless an EnaOpn input is wired. */
    constructor (inputs: seq<Input>, enaOpnWired: bool)
      ensures Value() == TripState(false, !enaOpnWired) && this.inputs == inputs
    {
      tripstate := false;
      EnaOpn := !enaOpnWired;
      this.inputs := inputs;
    }

    /** PTRC_input_Tr_callback; `published` is what Op.general and Tr.general are set to. */
    method InputTrCallback() returns (published: Option<bool>)
      modifies this
      ensures (Value(), published) == OpCallback(old(Value()), inputs) && inputs == old(inputs)
      ensures tripstate <==> !old(tripstate) && EnaOpn && exists k :: 0 <= k < |inputs| && inputs[k] == Op(Some(true))
      ensures published == if tripstate == old(tripstate) then None else Some(tripstate)
    {
      var i := 0;
      while i < |inputs|
        invariant i <= |inputs| && inputs == old(inputs) && Value() == old(Value())
        invariant !tripstate && EnaOpn ==> forall k :: 0 <= k < i ==> inputs[k] != Op(Some(true))
      {
        if inputs[i].Op? {
          if inputs[i].value == None {
            i := i + 1;
            continue;
          }
          if inputs[i].value.value == true && tripstate == false && EnaOpn == true {
            tripstate := true;
            return Some(true);
          }
        }
        i := i + 1;
      }
      if tripstate == true {
        tripstate := false;
        return Some(false);
      }
      return None;
    }

    method InputEnaOpnCallback(value: bool)
      modifies this`EnaOpn
      ensures Value() == old(Value()).(enaOpn := value)
    {
      EnaOpn := value;
    }
  }

  // ---- The bus ----

  /** The interlocking node of a feeder, with a single NOR input, its conditioning node, and every
      position received for the feeder's disconnector. */
  datatype Feeder = Feeder(ciloEna: bool, trip: TripState, received: seq<MmsValue>)

  /** A rising Tr of a feeder, with the position last received for its disconnector. */
  datatype Rising = Rising(feeder: nat, last: Option<MmsValue>)

  datatype State = State(feeders: seq<Feeder>, rises: seq<Rising>)

  const FEEDER := Feeder(true, TripState(false, false), [])

  ghost predicate Init(s: State) {
    s.rises == [] && forall i :: 0 <= i < |s.feeders| ==> s.feeders[i] == FEEDER
  }

  datatype Event =
    | Position(feeder: nat, value: MmsValue)
    | Operate(op: bool)

  ghost predicate Enabled(s: State, e: Event) {
    e.Position? ==> e.feeder < |s.feeders|
  }

  /** CILO_nor_callback and, if EnaOpn changes, its publication to the conditioning node. */
  function Receive(f: Feeder, value: MmsValue): Feeder {
    var ena := Interlock.ParsePos(value);
    Feeder(ena, if ena != f.ciloEna then f.trip.(enaOpn := ena) else f.trip, f.received + [value])
  }

  function Last(f: Feeder): Option<MmsValue> {
    if f.received == [] then None else Some(f.received[|f.received| - 1])
  }

  /** Op of the differential protection reaches the conditioning nodes one after the other. */
  function OperateFrom(s: State, i: nat, op: bool): State
    requires i <= |s.feeders|
    decreases |s.feeders| - i
  {
    if i == |s.feeders| then s
    else
      var (trip, published) := OpCallback(s.feeders[i].trip, [Op(Some(op)), Other]);
      var rises := if published == Some(true) then s.rises + [Rising(i, Last(s.feeders[i]))] else s.rises;
      OperateFrom(State(s.feeders[i := s.feeders[i].(trip := trip)], rises), i + 1, op)
  }

  function Next(s: State, e: Event): State
    requires Enabled(s, e)
  {
    match e
    case Position(i, value) => s.(feeders := s.feeders[i := Receive(s.feeders[i], value)])
    case Operate(op) => OperateFrom(s, 0, op)
  }

  ghost predicate Run(s: State, events: seq<Event>, s': State)
    decreases |events|
  {
    if events == [] then s' == s
    else Enabled(s, events[0]) && Run(Next(s, events[0]), events[1..], s')
  }

  /** Closed, moving or in a bad state: not known to be open. */
  predicate NotOpen(value: MmsValue) {
    Interlock.ParsePos(value)
  }

  ghost predicate OnceOpen(f: Feeder) {
    exists k :: 0 <= k < |f.received| && !NotOpen(f.received[k])
  }

  /** Trips are permitted exactly while the disconnector is not open, having been open before. */
  ghost predicate Permitted(f: Feeder) {
    Last(f).Some? && NotOpen(Last(f).value) && OnceOpen(f)
  }

  ghost predicate FeederInv(f: Feeder) {
    && f.ciloEna == (Last(f).Some? ==> NotOpen(Last(f).value))
    && (f.trip.enaOpn <==> Permitted(f))
  }

  ghost predicate RisesWell(rises: seq<Rising>) {
    forall k :: 0 <= k < |rises| ==> rises[k].last.Some? && NotOpen(rises[k].last.value)
  }

  ghost predicate Inv(s: State) {
    && (forall i :: 0 <= i < |s.feeders| ==> FeederInv(s.feeders[i]))
    && RisesWell(s.rises)
  }

  lemma ReceiveKeeps(f: Feeder, value: MmsValue)
    requires FeederInv(f)
    ensures FeederInv(Receive(f, value))
  {
    var f' := Receive(f, value);
    assert Last(f') == Some(value);
    assert forall k :: 0 <= k < |f.received| ==> f'.received[k] == f.received[k];
    assert OnceOpen(f') <==> OnceOpen(f) || !NotOpen(value) by {
      assert f'.received[|f.received|] == value;
    }
    if f.received != [] {
      assert !NotOpen(Last(f).value) ==> OnceOpen(f);
    }
  }

  lemma AnyOpSingle(op: bool)
    ensures AnyOp([Op(Some(op)), Other]) <==> op
  {
    assert [Op(Some(op)), Other][0] == Op(Some(op));
  }

  /** What one Op does to feeder j: it trips if it may and was not tripped, and clears otherwise. */
  function AfterOp(f: Feeder, op: bool): Feeder {
    f.(trip := f.trip.(tripped := !f.trip.tripped && f.trip.enaOpn && op))
  }

  lemma {:induction false} OperateEach(s: State, i: nat, op: bool)
    requires i <= |s.feeders|
    ensures var s' := OperateFrom(s, i, op);
            && |s'.feeders| == |s.feeders|
            && (forall j :: 0 <= j < i ==> s'.feeders[j] == s.feeders[j])
            && (forall j :: i <= j < |s.feeders| ==> s'.feeders[j] == AfterOp(s.feeders[j], op))
    decreases |s.feeders| - i
  {
    if i == |s.feeders| {
    } else {
      AnyOpSingle(op);
      var (trip, published) := OpCallback(s.feeders[i].trip, [Op(Some(op)), Other]);
      var rises := if published == Some(true) then s.rises + [Rising(i, Last(s.feeders[i]))] else s.rises;
      var s1 := State(s.feeders[i := s.feeders[i].(trip := trip)], rises);
      assert s1.feeders[i] == AfterOp(s.feeders[i], op);
      OperateEach(s1, i + 1, op);
    }
  }

  lemma {:induction false} OperateRises(s: State, i: nat, op: bool)
    requires i <= |s.feeders| && Inv(s)
    ensures RisesWell(OperateFrom(s, i, op).rises)
    decreases |s.feeders| - i
  {
    if i == |s.feeders| {
    } else {
      var (trip, published) := OpCallback(s.feeders[i].trip, [Op(Some(op)), Other]);
      var rises := if published == Some(true) then s.rises + [Rising(i, Last(s.feeders[i]))] else s.rises;
      var f' := s.feeders[i].(trip := trip);
      assert FeederInv(s.feeders[i]);
      assert OnceOpen(f') <==> OnceOpen(s.feeders[i]);
      assert FeederInv(f');
      OperateRises(State(s.feeders[i := f'], rises), i + 1, op);
    }
  }

  /** Feeder j has risen between two states. */
  ghost predicate Rose(before: seq<Rising>, after: seq<Rising>, j: nat) {
    exists k :: |before| <= k < |after| && after[k].feeder == j
  }

  /** Exactly the feeders that an Op leaves tripped have risen with it. */
  lemma {:induction false} RisesExactly(s: State, i: nat, op: bool, j: nat)
    requires i <= |s.feeders|
    ensures var s' := OperateFrom(s, i, op);
            && |s.rises| <= |s'.rises| && s'.rises[..|s.rises|] == s.rises
            && (Rose(s.rises, s'.rises, j) <==> i <= j < |s.feeders| && AfterOp(s.feeders[j], op).trip.tripped)
    decreases |s.feeders| - i
  {
    if i == |s.feeders| {
    } else {
      AnyOpSingle(op);
      var (trip, published) := OpCallback(s.feeders[i].trip, [Op(Some(op)), Other]);
      var rises := if published == Some(true) then s.rises + [Rising(i, Last(s.feeders[i]))] else s.rises;
      var s1 := State(s.feeders[i := s.feeders[i].(trip := trip)], rises);
      RisesExactly(s1, i + 1, op, j);
      RoseMore(s.rises, rises, OperateFrom(s1, i + 1, op).rises, i, j);
    }
  }

  lemma RoseMore(before: seq<Rising>, between: seq<Rising>, after: seq<Rising>, i: nat, j: nat)
    requires |before| <= |between| <= |after| && between[..|before|] == before && after[..|between|] == between
    requires |between| <= |before| + 1 && (|between| > |before| ==> between[|before|].feeder == i)
    ensures after[..|before|] == before
    ensures Rose(before, after, j) <==> Rose(between, after, j) || (|between| > |before| && j == i)
  {
    if |between| > |before| {
      assert after[|before|] == between[|before|];
    }
  }

  lemma InvNext(s: State, e: Event)
    requires Inv(s) && Enabled(s, e)
    ensures Inv(Next(s, e))
  {
    match e {
      case Position(i, value) => ReceiveKeeps(s.feeders[i], value);
      case Operate(op) =>
        OperateEach(s, 0, op);
        OperateRises(s, 0, op);
        forall j | 0 <= j < |s.feeders| ensures FeederInv(Next(s, e).feeders[j]) {
          assert FeederInv(s.feeders[j]);
          assert OnceOpen(AfterOp(s.feeders[j], op)) <==> OnceOpen(s.feeders[j]);
        }
    }
  }

  lemma {:induction false} InvRun(s: State, events: seq<Event>, s': State)
    requires Inv(s) && Run(s, events, s')
    ensures Inv(s')
    decreases |events|
  {
    if events == [] {
    } else {
      InvNext(s, events[0]);
      InvRun(Next(s, events[0]), events[1..], s');
    }
  }

  /** Over every run and for every feeder: the permission implies that of the interlocking node and
      a disconnector that is not open, and holds exactly if it was moreover seen open once. */
  lemma PermissionIsExact(init: State, events: seq<Event>, s: State, i: nat)
    requires Init(init) && Run(init, events, s) && i < |s.feeders|
    ensures s.feeders[i].trip.enaOpn ==>
              s.feeders[i].ciloEna && Last(s.feeders[i]).Some? && NotOpen(Last(s.feeders[i]).value)
    ensures s.feeders[i].trip.enaOpn <==> s.feeders[i].ciloEna && OnceOpen(s.feeders[i])
  {
    InvRun(init, events, s);
    assert FeederInv(s.feeders[i]);
    if OnceOpen(s.feeders[i]) {
      assert Last(s.feeders[i]).Some?;
    }
  }

  /** Every rising trip is one of a feeder whose disconnector is closed, moving or bad. */
  lemma TripsOnlyConnectedFeeders(init: State, events: seq<Event>, s: State, k: nat)
    requires Init(init) && Run(init, events, s) && k < |s.rises|
    ensures s.rises[k].last.Some? && NotOpen(s.rises[k].last.value)
  {
    InvRun(init, events, s);
  }

  /** A fault trips exactly the feeders that were not tripped yet, are not open and once were. */
  lemma FaultTripsExactly(init: State, events: seq<Event>, s: State, i: nat)
    requires Init(init) && Run(init, events, s) && i < |s.feeders|
    ensures var s' := Next(s, Operate(true));
            && |s'.feeders| == |s.feeders|
            && (s'.feeders[i].trip.tripped <==> !s.feeders[i].trip.tripped && Permitted(s.feeders[i]))
            && (Rose(s.rises, s'.rises, i) <==> s'.feeders[i].trip.tripped)
  {
    InvRun(init, events, s);
    assert FeederInv(s.feeders[i]);
    OperateEach(s, 0, true);
    RisesExactly(s, 0, true, i);
  }

  /** A feeder closed since the start, and so never reported open, is not tripped by a fault,
      although its interlocking node permits it. */
  lemma ClosedFromTheStartIsNotTripped() returns (init: State, s: State)
    ensures Init(init) && Run(init, [Position(0, BitString(On)), Operate(true)], s)
    ensures |s.feeders| == 1 && s.feeders[0].ciloEna && !s.feeders[0].trip.tripped && s.rises == []
    ensures Last(s.feeders[0]) == Some(BitString(On))
  {
    init := State([FEEDER], []);
    var s1 := Next(init, Position(0, BitString(On)));
    s := Next(s1, Operate(true));
    OperateEach(s1, 0, true);
    AnyOpSingle(true);
    var events := [Position(0, BitString(On)), Operate(true)];
    assert events[1..] == [Operate(true)] && events[1..][1..] == [];
  }
}
