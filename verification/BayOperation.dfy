/** Operations of a bay from the command to its effect: a permitted command moves its switch and is
    answered with success, a refused one moves nothing, a trip opens the breaker whatever is blocked. */
module BayOperation {
  import opened Mms
  import opened Bay
  import opened BayMotion
  import Motion
  import Switchgear
  import SwitchControl

  // ---- What an event does to the motion of one switch ----

  /** The step of the motion of disconnector i that an event is: an advance of one of its threads, a
      new thread for a command that reaches its drive, or nothing. */
  function OnDisconnector(s: State, e: Event, i: nat): Option<Motion.Step>
    requires i < |s.disconnectors|
  {
    match e
    case DisconnectorStep(j, step) => if j == i then Some(step) else None
    case Operate(j, close) =>
      if j == i && s.disconnectors[i].cswi.timeout == 0 && Switchgear.Passes(s.disconnectors[i].xswi, close)
      then Some(Motion.Spawn(close)) else None
    case LocalCommand(j, close) =>
      if j == i && Switchgear.Passes(s.disconnectors[i].xswi, close) then Some(Motion.Spawn(close)) else None
    case _ => None
  }

  /** The same for the breaker; a trip is a command that nothing blocks. */
  function OnBreaker(s: State, e: Event): Option<Motion.Step> {
    match e
    case BreakerStep(step) => Some(step)
    case OperateBreaker(close) =>
      if s.breakerCswi.timeout == 0 && Switchgear.Passes(s.xcbr, close) then Some(Motion.Spawn(close)) else None
    case Trip(trip) => if trip && s.xcbr.armed then Some(Motion.Spawn(false)) else None
    case _ => None
  }

  ghost predicate Follows(m: Motion.State, step: Option<Motion.Step>, m': Motion.State) {
    match step
    case None => m' == m
    case Some(x) => Motion.Enabled(m, x) && m' == Motion.Next(m, x)
  }

  /** What publishes a breaker position, or none, moves no disconnector. */
  lemma BreakerEventsMoveNothing(s: State, e: Event, i: nat)
    requires Enabled(s, e) && (e.InitBreaker? || e.BreakerStep?) && i < |s.disconnectors|
    ensures |Next(s, e).disconnectors| == |s.disconnectors|
    ensures Next(s, e).disconnectors[i].motion == s.disconnectors[i].motion
  {
    match e {
      case InitBreaker(on) =>
        PublishMovesNothing(s.(xcbr := s.xcbr.(armed := true), breakerMotion := Some(Started(on))), Target(on));
      case BreakerStep(step) =>
        var m := Motion.Next(s.breakerMotion.value, step);
        PublishMovesNothing(s.(breakerMotion := Some(m)), m.pos);
    }
  }

  lemma CommandFollows(s: State, e: Event, i: nat)
    requires Enabled(s, e) && (e.Operate? || e.LocalCommand?) && i < |s.disconnectors|
        && s.disconnectors[i].motion.Some?
    ensures |Next(s, e).disconnectors| == |s.disconnectors| && Next(s, e).disconnectors[i].motion.Some?
    ensures Follows(s.disconnectors[i].motion.value, OnDisconnector(s, e, i), Next(s, e).disconnectors[i].motion.value)
  {
  }

  lemma DisconnectorFollows(s: State, e: Event, i: nat)
    requires Enabled(s, e) && i < |s.disconnectors| && s.disconnectors[i].motion.Some?
    ensures |Next(s, e).disconnectors| == |s.disconnectors| && Next(s, e).disconnectors[i].motion.Some?
    ensures Follows(s.disconnectors[i].motion.value, OnDisconnector(s, e, i), Next(s, e).disconnectors[i].motion.value)
  {
    if e.InitBreaker? || e.BreakerStep? {
      BreakerEventsMoveNothing(s, e, i);
    } else if e.Operate? || e.LocalCommand? {
      CommandFollows(s, e, i);
    }
  }

  lemma BreakerFollows(s: State, e: Event)
    requires Enabled(s, e) && s.breakerMotion.Some?
    ensures Next(s, e).breakerMotion.Some?
    ensures Follows(s.breakerMotion.value, OnBreaker(s, e), Next(s, e).breakerMotion.value)
  {
    if e.BreakerStep? {
      var m := Motion.Next(s.breakerMotion.value, e.step);
      PublishFrame(s.(breakerMotion := Some(m)), m.pos);
    }
  }

  /** On this run every command that reaches the drive of disconnector i is for one direction. */
  ghost predicate OnlyCommands(s: State, events: seq<Event>, s': State, i: nat, close: bool)
    requires Run(s, events, s')
    decreases |events|
  {
    events == [] ||
    (&& i < |s.disconnectors| && OnDisconnector(s, events[0], i) != Some(Motion.Spawn(!close))
     && OnlyCommands(Next(s, events[0]), events[1..], s', i, close))
  }

  ghost predicate BreakerOnlyOpens(s: State, events: seq<Event>, s': State)
    requires Run(s, events, s')
    decreases |events|
  {
    events == [] ||
    (OnBreaker(s, events[0]) != Some(Motion.Spawn(true)) && BreakerOnlyOpens(Next(s, events[0]), events[1..], s'))
  }

  lemma Extend(m: Motion.State, step: Option<Motion.Step>, m1: Motion.State, steps: seq<Motion.Step>, m': Motion.State,
               close: bool)
    returns (all: seq<Motion.Step>)
    requires Follows(m, step, m1) && Motion.Run(m1, steps, m')
    requires step != Some(Motion.Spawn(!close)) && Motion.OnlySpawns(steps, close)
    ensures Motion.Run(m, all, m') && Motion.OnlySpawns(all, close)
  {
    match step
    case None => all := steps;
    case Some(x) =>
      all := [x] + steps;
      assert all[1..] == steps;
  }

  /** Whatever else happens in the bay, a disconnector goes through a run of its own motion. */
  lemma {:induction false} DisconnectorRun(s: State, events: seq<Event>, s': State, i: nat, close: bool)
    returns (steps: seq<Motion.Step>)
    requires i < |s.disconnectors| && s.disconnectors[i].motion.Some?
    requires Run(s, events, s') && OnlyCommands(s, events, s', i, close)
    ensures |s'.disconnectors| == |s.disconnectors| && s'.disconnectors[i].motion.Some?
    ensures Motion.Run(s.disconnectors[i].motion.value, steps, s'.disconnectors[i].motion.value)
    ensures Motion.OnlySpawns(steps, close)
    decreases |events|
  {
    if events == [] {
      steps := [];
    } else {
      var s1 := Next(s, events[0]);
      DisconnectorFollows(s, events[0], i);
      steps := DisconnectorRun(s1, events[1..], s', i, close);
      steps := Extend(s.disconnectors[i].motion.value, OnDisconnector(s, events[0], i),
                      s1.disconnectors[i].motion.value, steps, s'.disconnectors[i].motion.value, close);
    }
  }

  lemma {:induction false} BreakerRun(s: State, events: seq<Event>, s': State) returns (steps: seq<Motion.Step>)
    requires s.breakerMotion.Some? && Run(s, events, s') && BreakerOnlyOpens(s, events, s')
    ensures s'.breakerMotion.Some? && Motion.OnlySpawns(steps, false)
    ensures Motion.Run(s.breakerMotion.value, steps, s'.breakerMotion.value)
    decreases |events|
  {
    if events == [] {
      steps := [];
    } else {
      var s1 := Next(s, events[0]);
      BreakerFollows(s, events[0]);
      steps := BreakerRun(s1, events[1..], s');
      steps := Extend(s.breakerMotion.value, OnBreaker(s, events[0]), s1.breakerMotion.value, steps,
                      s'.breakerMotion.value, false);
    }
  }

  // ---- Operations ----

  /** What the check handler accepts reaches the drive, what the interlock refuses does not. */
  lemma CheckDecides(s: State, i: nat, close: bool)
    requires Inv(s) && i < |s.disconnectors|
    requires var d := s.disconnectors[i]; d.motion.Some? && d.cswi.timeout == 0
    ensures SwitchControl.Check(s.disconnectors[i].cswi, close) == SwitchControl.Accepted ==>
      Next(s, Operate(i, close)).disconnectors[i].motion == Spawned(s.disconnectors[i].motion, close)
    ensures SwitchControl.Check(s.disconnectors[i].cswi, close) == SwitchControl.BlockedByInterlocking ==>
      Next(s, Operate(i, close)).disconnectors[i].motion == s.disconnectors[i].motion
  {
    assert Interlocked(s, s.disconnectors[i]);
  }

  /** The first call of a controller's handler raises the output of the wanted direction once, and never
      the other; the later calls of the operation raise none. */
  lemma OutputIsRaisedOnce(s: State, i: nat, close: bool)
    requires i < |s.disconnectors|
    ensures var c, c' := s.disconnectors[i].cswi, Next(s, Operate(i, close)).disconnectors[i].cswi;
            && c'.raisedCls == c.raisedCls + (if c.timeout == 0 && close then 1 else 0)
            && c'.raisedOpn == c.raisedOpn + (if c.timeout == 0 && !close then 1 else 0)
    ensures var c, c' := s.breakerCswi, Next(s, OperateBreaker(close)).breakerCswi;
            && c'.raisedCls == c.raisedCls + (if c.timeout == 0 && close then 1 else 0)
            && c'.raisedOpn == c.raisedOpn + (if c.timeout == 0 && !close then 1 else 0)
  {
    HandleRaises(s.disconnectors[i].cswi, close);
    HandleRaises(s.breakerCswi, close);
  }

  lemma HandleRaises(c: SwitchControl.State, close: bool)
    ensures var c' := SwitchControl.Handle(c, close).0;
            && c'.raisedCls == c.raisedCls + (if c.timeout == 0 && close then 1 else 0)
            && c'.raisedOpn == c.raisedOpn + (if c.timeout == 0 && !close then 1 else 0)
  {
    PulseRaises(c, Target(close), true);
    var c1 := if c.timeout == 0 then SwitchControl.Pulse(c, Target(close), true) else c;
    PulseRaises(c1.(timeout := 0), c1.currentValue, false);
  }

  lemma PulseRaises(c: SwitchControl.State, pos: Dbpos, on: bool)
    ensures var c' := SwitchControl.Pulse(c, pos, on);
            && c'.raisedCls == c.raisedCls + (if on && pos == On then 1 else 0)
            && c'.raisedOpn == c.raisedOpn + (if on && pos == Off then 1 else 0)
  {
  }

  /** Once the key is set to local, and until it is set again, the check handlers refuse every remote
      command; set to remote, or never set, they leave the decision to the interlock. */
  lemma KeyDecides(init: State, events: seq<Event>, s: State, local: bool, i: nat, close: bool)
    requires Init(init) && Run(init, events, s) && i < |s.disconnectors|
    requires SetLast(events, local) || (NeverSet(events) && !local)
    ensures SwitchControl.Check(s.disconnectors[i].cswi, close) ==
            if local then SwitchControl.BlockedBySwitchingHierarchy
            else if s.breakerMotion.Some? && s.breakerMotion.value.pos != Off then SwitchControl.BlockedByInterlocking
            else SwitchControl.Accepted
    ensures SwitchControl.Check(s.breakerCswi, close) == SwitchControl.BlockedBySwitchingHierarchy <==> local
  {
    EveryNodeFollowsKey(init, events, s, local);
    InitInv(init);
    InvRun(init, events, s);
    assert Interlocked(s, s.disconnectors[i]);
  }

  /** From any reachable state of the bay: an operation the check accepts, on a disconnector that no
      thread under way wants elsewhere. Whatever happens then, the calls of the handler while the
      switch travels included, but for commands the other way: once its threads have ended, the
      disconnector is in the wanted position, and the next call of the handler answers with success. */
  lemma PermittedOperationSucceeds(init: State, events: seq<Event>, s: State, i: nat, close: bool,
                                   later: seq<Event>, s': State)
    requires Init(init) && Run(init, events, s) && i < |s.disconnectors|
    requires var d := s.disconnectors[i];
             && d.motion.Some? && Motion.OneWay(d.motion.value, close) && d.cswi.timeout == 0
             && SwitchControl.Check(d.cswi, close) == SwitchControl.Accepted
    requires Run(Next(s, Operate(i, close)), later, s')
    requires OnlyCommands(Next(s, Operate(i, close)), later, s', i, close)
    requires i < |s'.disconnectors| && s'.disconnectors[i].motion.Some?
    requires Motion.AllFinished(s'.disconnectors[i].motion.value)
    ensures s'.disconnectors[i].motion.value.pos == Target(close)
    ensures SwitchControl.Handle(s'.disconnectors[i].cswi, close).1 == SwitchControl.Ok
  {
    InitInv(init);
    InvRun(init, events, s);
    CheckDecides(s, i, close);
    var s1 := Next(s, Operate(i, close));
    InvNext(s, Operate(i, close));
    InvRun(s1, later, s');
    assert Interlocked(s, s.disconnectors[i]) && Interlocked(s', s'.disconnectors[i]);
    var steps := DisconnectorRun(s1, later, s', i, close);
    Motion.CommandTakesEffect(s.disconnectors[i].motion.value, close, steps, s'.disconnectors[i].motion.value);
  }

  /** From any reachable state in which no thread under way closes the breaker: a trip opens it,
      whatever the controller, the local/remote key or the blocking inputs say, and whatever
      happens then but for a command to close it. */
  lemma TripOpensBreaker(init: State, events: seq<Event>, s: State, later: seq<Event>, s': State)
    requires Init(init) && Run(init, events, s)
    requires s.breakerMotion.Some? && Motion.OneWay(s.breakerMotion.value, false)
    requires Run(Next(s, Trip(true)), later, s') && BreakerOnlyOpens(Next(s, Trip(true)), later, s')
    requires s'.breakerMotion.Some? && Motion.AllFinished(s'.breakerMotion.value)
    ensures s'.breakerMotion.value.pos == Off && s'.enaOpn && s'.enaCls
  {
    InitInv(init);
    InvRun(init, events, s);
    var s1 := Next(s, Trip(true));
    InvNext(s, Trip(true));
    InvRun(s1, later, s');
    var steps := BreakerRun(s1, later, s');
    Motion.CommandTakesEffect(s.breakerMotion.value, false, steps, s'.breakerMotion.value);
  }
}
