/** What the interlock of a bay does not promise by itself. A command is checked when it is issued,
    but the switch moves later, on its own thread: here is exactly when a disconnector can be caught
    moving under a breaker that is not open, and which commands bring that about. */
module BayMotion {
  import opened Mms
  import opened Bay
  import Motion
  import Switchgear
  import SwitchControl

  /** A disconnector that moves, or that a thread under way is about to move. */
  ghost predicate Pending(d: Disconnector) {
    d.motion.Some? && Motion.Pending(d.motion.value)
  }

  ghost predicate SomePending(s: State) {
    exists i :: 0 <= i < |s.disconnectors| && Pending(s.disconnectors[i])
  }

  /** The breaker is not open, or a thread under way is about to move it. */
  ghost predicate BreakerPending(s: State) {
    s.breakerMotion.Some? && (s.breakerMotion.value.pos != Off || Motion.Pending(s.breakerMotion.value))
  }

  /** A disconnector is between its positions and the breaker is not open. */
  ghost predicate Violates(s: State) {
    && BreakerPos(s) != Some(Off)
    && exists i :: 0 <= i < |s.disconnectors| && s.disconnectors[i].motion.Some?
                   && s.disconnectors[i].motion.value.pos == Intermediate
  }

  ghost predicate Endangered(s: State) {
    SomePending(s) && BreakerPending(s)
  }

  predicate MotionOnly(events: seq<Event>) {
    forall k :: 0 <= k < |events| ==> events[k].BreakerStep? || events[k].DisconnectorStep?
  }

  lemma RunCons(s: State, e: Event, events: seq<Event>, s': State) returns (all: seq<Event>)
    requires Enabled(s, e) && Run(Next(s, e), events, s')
    ensures Run(s, all, s') && all == [e] + events
  {
    all := [e] + events;
    assert all[1..] == events;
  }

  /** Publishing a breaker position moves no disconnector. */
  lemma PublishMovesNothing(s: State, p: Dbpos)
    ensures var s' := PublishBreakerPos(s, p);
            |s'.disconnectors| == |s.disconnectors|
            && forall i :: 0 <= i < |s.disconnectors| ==> s'.disconnectors[i].motion == s.disconnectors[i].motion
  {
  }

  // ---- What the threads under way can do ----

  /** A run of the threads of the breaker is a run of the bay that moves no disconnector. */
  lemma {:induction false} LiftBreaker(s: State, steps: seq<Motion.Step>, m: Motion.State)
    returns (events: seq<Event>, s': State)
    requires s.breakerMotion.Some? && Motion.Run(s.breakerMotion.value, steps, m) && Motion.NoSpawn(steps)
    ensures Run(s, events, s') && MotionOnly(events) && s'.breakerMotion == Some(m)
    ensures |s'.disconnectors| == |s.disconnectors|
    ensures forall i :: 0 <= i < |s.disconnectors| ==> s'.disconnectors[i].motion == s.disconnectors[i].motion
    decreases |steps|
  {
    if steps == [] {
      events, s' := [], s;
    } else {
      var e := BreakerStep(steps[0]);
      var m1 := Motion.Next(s.breakerMotion.value, steps[0]);
      PublishMovesNothing(s.(breakerMotion := Some(m1)), m1.pos);
      PublishFrame(s.(breakerMotion := Some(m1)), m1.pos);
      events, s' := LiftBreaker(Next(s, e), steps[1..], m);
      events := RunCons(s, e, events, s');
    }
  }

  lemma {:induction false} LiftDisconnector(s: State, i: nat, steps: seq<Motion.Step>, m: Motion.State)
    returns (events: seq<Event>, s': State)
    requires i < |s.disconnectors| && s.disconnectors[i].motion.Some?
    requires Motion.Run(s.disconnectors[i].motion.value, steps, m) && Motion.NoSpawn(steps)
    ensures Run(s, events, s') && MotionOnly(events) && s'.breakerMotion == s.breakerMotion
    ensures i < |s'.disconnectors| && s'.disconnectors[i].motion == Some(m)
    decreases |steps|
  {
    if steps == [] {
      events, s' := [], s;
    } else {
      var e := DisconnectorStep(i, steps[0]);
      events, s' := LiftDisconnector(Next(s, e), i, steps[1..], m);
      events := RunCons(s, e, events, s');
    }
  }

  lemma {:induction false} RunAppend(s: State, first: seq<Event>, s': State, second: seq<Event>, s'': State)
    requires Run(s, first, s') && Run(s', second, s'')
    ensures Run(s, first + second, s'')
    decreases |first|
  {
    if first == [] {
      assert first + second == second;
    } else {
      RunAppend(Next(s, first[0]), first[1..], s', second, s'');
      assert (first + second)[1..] == first[1..] + second;
    }
  }

  /** Motion steps alone lead from s to a violation. */
  ghost predicate LeadsToViolation(s: State, events: seq<Event>, s': State) {
    MotionOnly(events) && Run(s, events, s') && Violates(s')
  }

  /** A pending disconnector can be caught moving wherever the breaker is. */
  lemma DisconnectorMoves(s: State, i: nat) returns (events: seq<Event>, s': State)
    requires Inv(s) && i < |s.disconnectors| && Pending(s.disconnectors[i]) && BreakerPos(s) != Some(Off)
    ensures LeadsToViolation(s, events, s')
  {
    assert Interlocked(s, s.disconnectors[i]);
    var steps, m := Motion.PendingMoves(s.disconnectors[i].motion.value);
    events, s' := LiftDisconnector(s, i, steps, m);
  }

  lemma EndangeredViolates(s: State) returns (events: seq<Event>, s': State)
    requires Inv(s) && Endangered(s)
    ensures LeadsToViolation(s, events, s')
  {
    var i :| 0 <= i < |s.disconnectors| && Pending(s.disconnectors[i]);
    if s.breakerMotion.value.pos != Off {
      events, s' := DisconnectorMoves(s, i);
    } else {
      var steps, m := Motion.PendingMoves(s.breakerMotion.value);
      var first, s1 := LiftBreaker(s, steps, m);
      InvRun(s, first, s1);
      var second;
      second, s' := DisconnectorMoves(s1, i);
      RunAppend(s, first, s1, second, s');
      events := first + second;
    }
  }

  lemma BreakerStepCalm(s: State, step: Motion.Step)
    requires Inv(s) && !Endangered(s) && Enabled(s, BreakerStep(step))
    ensures !Endangered(Next(s, BreakerStep(step)))
  {
    var m := Motion.Next(s.breakerMotion.value, step);
    PublishMovesNothing(s.(breakerMotion := Some(m)), m.pos);
    PublishFrame(s.(breakerMotion := Some(m)), m.pos);
    var s' := Next(s, BreakerStep(step));
    if SomePending(s) {
      Motion.NothingPendingStep(s.breakerMotion.value, step.t);
    } else {
      assert forall i :: 0 <= i < |s'.disconnectors| ==> Pending(s'.disconnectors[i]) == Pending(s.disconnectors[i]);
    }
  }

  lemma DisconnectorStepCalm(s: State, i: nat, step: Motion.Step)
    requires Inv(s) && !Endangered(s) && Enabled(s, DisconnectorStep(i, step))
    ensures !Endangered(Next(s, DisconnectorStep(i, step)))
  {
    if !SomePending(s) {
      assert Interlocked(s, s.disconnectors[i]) && !Pending(s.disconnectors[i]);
      Motion.NothingPendingStep(s.disconnectors[i].motion.value, step.t);
    }
  }

  lemma {:induction false} CalmRun(s: State, events: seq<Event>, s': State)
    requires Inv(s) && s.breakerMotion.Some? && !Endangered(s) && Run(s, events, s') && MotionOnly(events)
    ensures Inv(s') && s'.breakerMotion.Some? && !Endangered(s')
    decreases |events|
  {
    if events == [] {
    } else {
      InvNext(s, events[0]);
      match events[0] {
        case BreakerStep(step) =>
          BreakerStepCalm(s, step);
          var m := Motion.Next(s.breakerMotion.value, step);
          PublishFrame(s.(breakerMotion := Some(m)), m.pos);
        case DisconnectorStep(i, step) => DisconnectorStepCalm(s, i, step);
      }
      CalmRun(Next(s, events[0]), events[1..], s');
    }
  }

  lemma ViolationIsDanger(s: State)
    requires s.breakerMotion.Some? && Violates(s)
    ensures Endangered(s)
  {
  }

  lemma CalmStays(s: State, events: seq<Event>, s': State)
    requires Inv(s) && s.breakerMotion.Some? && !Endangered(s)
    ensures !LeadsToViolation(s, events, s')
  {
    if LeadsToViolation(s, events, s') {
      CalmRun(s, events, s');
      ViolationIsDanger(s');
    }
  }

  /** The threads under way can catch a disconnector moving under a breaker that is not open exactly
      if one of them is about to move a disconnector and the breaker is not open or about to move. */
  lemma EndangeredExactly(s: State)
    requires Inv(s) && s.breakerMotion.Some?
    ensures Endangered(s) <==> exists events, s' :: LeadsToViolation(s, events, s')
  {
    if Endangered(s) {
      var events, s' := EndangeredViolates(s);
      assert LeadsToViolation(s, events, s');
    } else {
      forall events, s' ensures !LeadsToViolation(s, events, s') {
        CalmStays(s, events, s');
      }
    }
  }

  // ---- Which commands bring the danger ----

  /** A command that reaches the drive of a disconnector and asks for another position, while the
      breaker is about to move. */
  ghost predicate CommandEndangers(s: State, i: nat, close: bool)
    requires i < |s.disconnectors|
  {
    var d := s.disconnectors[i];
    && Switchgear.Passes(d.xswi, close)
    && d.motion.Some? && d.motion.value.pos != Target(close)
    && s.breakerMotion.Some? && Motion.Pending(s.breakerMotion.value)
  }

  /** Or a command that closes the breaker while a disconnector is about to move. */
  ghost predicate Endangers(s: State, e: Event)
    requires Enabled(s, e)
  {
    match e
    case OperateBreaker(close) =>
      close && s.breakerCswi.timeout == 0 && Switchgear.Passes(s.xcbr, true) && SomePending(s)
    case Operate(i, close) => s.disconnectors[i].cswi.timeout == 0 && CommandEndangers(s, i, close)
    case LocalCommand(i, close) => CommandEndangers(s, i, close)
    case _ => false
  }

  lemma PendingKept(s: State, s': State)
    requires |s'.disconnectors| == |s.disconnectors|
    requires forall i :: 0 <= i < |s.disconnectors| ==> s'.disconnectors[i].motion == s.disconnectors[i].motion
    ensures SomePending(s') == SomePending(s)
  {
    forall i | 0 <= i < |s.disconnectors| ensures Pending(s'.disconnectors[i]) == Pending(s.disconnectors[i]) {}
  }

  /** A command to the breaker: closing makes an open one pending, opening does not. */
  lemma BreakerSpawnExactly(s: State, s': State, close: bool)
    requires Inv(s) && s.breakerMotion.Some? && !Endangered(s)
    requires s'.disconnectors == s.disconnectors && s'.breakerMotion == Spawned(s.breakerMotion, close)
    ensures Endangered(s') <==> close && SomePending(s)
  {
    PendingKept(s, s');
    Motion.SpawnPending(s.breakerMotion.value, close);
  }

  lemma CommandExactly(s: State, i: nat, close: bool)
    requires Inv(s) && s.breakerMotion.Some? && !Endangered(s) && i < |s.disconnectors|
    ensures Endangered(Command(s, i, close)) <==> CommandEndangers(s, i, close)
  {
    var d := s.disconnectors[i];
    assert Interlocked(s, d);
    if Switchgear.Passes(d.xswi, close) {
      var s' := Command(s, i, close);
      Motion.SpawnPending(d.motion.value, close);
      assert forall j :: 0 <= j < |s.disconnectors| && j != i ==> s'.disconnectors[j] == s.disconnectors[j];
      if SomePending(s) {
        var j :| 0 <= j < |s.disconnectors| && Pending(s.disconnectors[j]);
        assert Pending(s'.disconnectors[j]);
      }
      assert Pending(s'.disconnectors[i]) <==> Pending(d) || d.motion.value.pos != Target(close);
    }
  }

  lemma OperateExactly(s: State, i: nat, close: bool)
    requires Inv(s) && s.breakerMotion.Some? && !Endangered(s) && i < |s.disconnectors|
    ensures Endangered(Next(s, Operate(i, close))) <==>
            s.disconnectors[i].cswi.timeout == 0 && CommandEndangers(s, i, close)
  {
    var d := s.disconnectors[i];
    var d' := d.(cswi := SwitchControl.Handle(d.cswi, close).0);
    var s1 := s.(disconnectors := s.disconnectors[i := d']);
    HandleKeeps(d.cswi, close);
    assert Interlocked(s, d) && Interlocked(s, d');
    OneDisconnector(s, i, d');
    PendingKept(s, s1);
    CommandExactly(s1, i, close);
  }

  lemma InitDisconnectorCalm(s: State, i: nat, on: bool)
    requires s.breakerMotion.Some? && !Endangered(s) && Enabled(s, InitDisconnector(i, on))
    ensures !Endangered(Next(s, InitDisconnector(i, on)))
  {
    var s' := Next(s, InitDisconnector(i, on));
    assert !Motion.Pending(Started(on));
    forall j | 0 <= j < |s'.disconnectors| && Pending(s'.disconnectors[j]) ensures SomePending(s) {
      assert Pending(s.disconnectors[j]);
    }
  }

  /** From a state without the danger, exactly these commands bring it. */
  lemma EndangersExactly(s: State, e: Event)
    requires Inv(s) && s.breakerMotion.Some? && !Endangered(s) && Enabled(s, e)
    ensures Endangered(Next(s, e)) <==> Endangers(s, e)
  {
    match e {
      case InitBreaker(on) => assert false;
      case InitDisconnector(i, on) => InitDisconnectorCalm(s, i, on);
      case BreakerStep(step) => BreakerStepCalm(s, step);
      case DisconnectorStep(i, step) => DisconnectorStepCalm(s, i, step);
      case SetLoc(local) => PendingKept(s, Next(s, e));
      case OperateBreaker(close) =>
        PendingKept(s, Next(s, e));
        if s.breakerCswi.timeout == 0 && Switchgear.Passes(s.xcbr, close) {
          BreakerSpawnExactly(s, Next(s, e), close);
        }
      case Operate(i, close) => OperateExactly(s, i, close);
      case LocalCommand(i, close) => CommandExactly(s, i, close);
      case Trip(trip) =>
        if trip && s.xcbr.armed {
          BreakerSpawnExactly(s, Next(s, e), false);
        }
    }
  }

  lemma BreakerKnown(s: State, e: Event)
    requires s.breakerMotion.Some? && Enabled(s, e)
    ensures Next(s, e).breakerMotion.Some?
  {
    if e.BreakerStep? {
      var m := Motion.Next(s.breakerMotion.value, e.step);
      PublishFrame(s.(breakerMotion := Some(m)), m.pos);
    }
  }

  ghost predicate EndangeredOn(s: State, events: seq<Event>, s': State)
    requires Run(s, events, s')
    decreases |events|
  {
    Endangered(s) || (events != [] && EndangeredOn(Next(s, events[0]), events[1..], s'))
  }

  ghost predicate SomeEventEndangers(s: State, events: seq<Event>, s': State)
    requires Run(s, events, s')
    decreases |events|
  {
    events != [] && (Endangers(s, events[0]) || SomeEventEndangers(Next(s, events[0]), events[1..], s'))
  }

  lemma {:induction false} EndangeredRun(s: State, events: seq<Event>, s': State)
    requires Inv(s) && s.breakerMotion.Some? && !Endangered(s) && Run(s, events, s')
    ensures EndangeredOn(s, events, s') <==> SomeEventEndangers(s, events, s')
    ensures !SomeEventEndangers(s, events, s') ==> s'.breakerMotion.Some? && !Endangered(s')
    decreases |events|
  {
    if events == [] {
    } else {
      var s1 := Next(s, events[0]);
      InvNext(s, events[0]);
      BreakerKnown(s, events[0]);
      EndangersExactly(s, events[0]);
      if !Endangered(s1) {
        EndangeredRun(s1, events[1..], s');
      }
    }
  }

  /** If the breaker is initialised first: no state of a run is in danger exactly if no command on it
      brings the danger; and then a disconnector moves only under an open breaker. */
  lemma MovesOnlyUnderOpenBreaker(init: State, on: bool, events: seq<Event>, s: State)
    requires Init(init) && Run(Next(init, InitBreaker(on)), events, s)
    ensures EndangeredOn(Next(init, InitBreaker(on)), events, s)
       <==> SomeEventEndangers(Next(init, InitBreaker(on)), events, s)
    ensures !SomeEventEndangers(Next(init, InitBreaker(on)), events, s) ==> !Violates(s)
  {
    InitInv(init);
    InvNext(init, InitBreaker(on));
    var s1 := init.(xcbr := init.xcbr.(armed := true), breakerMotion := Some(Started(on)));
    PublishMovesNothing(s1, Target(on));
    PublishFrame(s1, Target(on));
    EndangeredRun(Next(init, InitBreaker(on)), events, s);
    if !SomeEventEndangers(Next(init, InitBreaker(on)), events, s) && Violates(s) {
      ViolationIsDanger(s);
    }
  }

  // ---- The danger is real ----

  /** One disconnector and the breaker, seen only through their motion threads. */
  ghost predicate Motions(s: State, breaker: Motion.State, disconnector: Motion.State) {
    && |s.disconnectors| == 1
    && s.breakerMotion == Some(breaker)
    && s.disconnectors[0].motion == Some(disconnector)
  }

  lemma BreakerMoves(s: State, breaker: Motion.State, disconnector: Motion.State, step: Motion.Step)
    requires Motions(s, breaker, disconnector) && step.Advance? && Motion.Enabled(breaker, step)
    ensures Motions(Next(s, BreakerStep(step)), Motion.Next(breaker, step), disconnector)
  {
    var m := Motion.Next(breaker, step);
    PublishMovesNothing(s.(breakerMotion := Some(m)), m.pos);
    PublishFrame(s.(breakerMotion := Some(m)), m.pos);
  }

  /** A thread that finds the switch elsewhere takes the semaphore and starts to move. */
  lemma Strokes(m: Motion.State, close: bool)
    requires m.sem == 1 && m.threads == [Motion.Thread(close, Motion.Waiting)] && m.pos != Target(close)
    ensures var step := Motion.Advance(0);
            && Motion.Enabled(m, step) && Motion.Enabled(Motion.Next(m, step), step)
            && var moving := Motion.Next(Motion.Next(m, step), step);
               moving.pos == Intermediate && Motion.Enabled(moving, step)
                   && Motion.Next(moving, step).pos == Target(close)
  {
  }

  /** Both commanded to close, neither thread has run yet. */
  ghost predicate BothCommanded(s: State) {
    && s.breakerMotion.Some? && |s.disconnectors| == 1 && s.disconnectors[0].motion.Some?
    && s.breakerMotion.value.sem == 1 && s.disconnectors[0].motion.value.sem == 1
    && s.breakerMotion.value.pos == s.disconnectors[0].motion.value.pos == Off
    && s.breakerMotion.value.threads == s.disconnectors[0].motion.value.threads == [Motion.Thread(true, Motion.Waiting)]
  }

  /** From there the breaker can close while the disconnector starts to move. */
  lemma BreakerOvertakes(s: State) returns (events: seq<Event>, s': State)
    requires BothCommanded(s)
    ensures Run(s, events, s') && BreakerPos(s') == Some(On)
    ensures |s'.disconnectors| == 1 && s'.disconnectors[0].motion.Some?
    ensures s'.disconnectors[0].motion.value.pos == Intermediate
  {
    var step := Motion.Advance(0);
    var b, d := s.breakerMotion.value, s.disconnectors[0].motion.value;
    Strokes(b, true);
    Strokes(d, true);
    var b1 := Motion.Next(b, step);
    var b2 := Motion.Next(b1, step);
    var s1 := Next(s, BreakerStep(step));
    BreakerMoves(s, b, d, step);
    var s2 := Next(s1, BreakerStep(step));
    BreakerMoves(s1, b1, d, step);
    var s3 := Next(s2, BreakerStep(step));
    BreakerMoves(s2, b2, d, step);
    var s4 := Next(s3, DisconnectorStep(0, step));
    s' := Next(s4, DisconnectorStep(0, step));
    events := [];
    events := RunCons(s4, DisconnectorStep(0, step), events, s');
    events := RunCons(s3, DisconnectorStep(0, step), events, s');
    events := RunCons(s2, BreakerStep(step), events, s');
    events := RunCons(s1, BreakerStep(step), events, s');
    events := RunCons(s, BreakerStep(step), events, s');
  }

  function OneFeeder(): State {
    State(Switchgear.INITIAL, SwitchControl.INITIAL, None, true, true, false,
          [Disconnector(Switchgear.INITIAL, SwitchControl.INITIAL, None)], [])
  }

  lemma CommandBoth(s: State) returns (events: seq<Event>, s': State)
    requires s == Next(OneFeeder(), InitBreaker(false))
    ensures Run(s, events, s') && BothCommanded(s')
  {
    PublishFrame(OneFeeder().(xcbr := OneFeeder().xcbr.(armed := true), breakerMotion := Some(Started(false))), Off);
    var s1 := Next(s, InitDisconnector(0, false));
    var s2 := Next(s1, LocalCommand(0, true));
    s' := Next(s2, OperateBreaker(true));
    events := [];
    events := RunCons(s2, OperateBreaker(true), events, s');
    events := RunCons(s1, LocalCommand(0, true), events, s');
    events := RunCons(s, InitDisconnector(0, false), events, s');
  }

  /** The interlock alone does not prevent it: a disconnector commanded while the breaker was open
      can be caught moving after the breaker closed. */
  lemma CanMoveUnderClosedBreaker() returns (init: State, events: seq<Event>, s: State)
    ensures Init(init) && Run(Next(init, InitBreaker(false)), events, s)
    ensures |s.disconnectors| == 1 && s.disconnectors[0].motion.Some?
    ensures s.disconnectors[0].motion.value.pos == Intermediate && BreakerPos(s) == Some(On)
  {
    init := OneFeeder();
    var s0 := Next(init, InitBreaker(false));
    var first, s1 := CommandBoth(s0);
    var second, s2 := BreakerOvertakes(s1);
    RunAppend(s0, first, s1, second, s2);
    events, s := first + second, s2;
  }

  /** A disconnector whose plugin line comes before the breaker's can be driven unseen. */
  lemma CanBeDrivenBeforeBreaker() returns (init: State, events: seq<Event>, s: State)
    ensures Init(init) && Run(init, events, s)
    ensures |s.drives| == 1 && s.drives[0].breaker == None
    ensures s.breakerMotion == Some(Started(true))
  {
    init := OneFeeder();
    var s1 := Next(init, InitDisconnector(0, false));
    var s2 := Next(s1, LocalCommand(0, true));
    s := Next(s2, InitBreaker(true));
    PublishFrame(s2.(xcbr := s2.xcbr.(armed := true), breakerMotion := Some(Started(true))), On);
    events := [];
    events := RunCons(s2, InitBreaker(true), events, s);
    events := RunCons(s1, LocalCommand(0, true), events, s);
    events := RunCons(init, InitDisconnector(0, false), events, s);
  }
}
