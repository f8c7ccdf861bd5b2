/** A feeder bay wired as in `cfg/FEED1.ext`: one circuit breaker with its controller, one
    interlocking node, and any number of disconnectors, each with a controller.

    Every external event runs its chain of callbacks to the end as one step. The motion threads
    of each switch are those of module Motion, advanced one publication at a time. */
module Bay {
  import opened Mms
  import Interlock
  import Motion
  import Switchgear
  import SwitchControl

  /** A disconnector, its controller and, once the plugin is initialised, its motion threads. */
  datatype Disconnector = Disconnector(
    xswi: Switchgear.State,
    cswi: SwitchControl.State,
    motion: Option<Motion.State>)

  /** A command handed to the drive of a disconnector, with the breaker position last published. */
  datatype Drive = Drive(disconnector: nat, close: bool, breaker: Option<Dbpos>)

  datatype State = State(
    xcbr: Switchgear.State,
    breakerCswi: SwitchControl.State,
    breakerMotion: Option<Motion.State>,
    enaOpn: bool,
    enaCls: bool,
    loc: bool,
    disconnectors: seq<Disconnector>,
    drives: seq<Drive>)

  ghost predicate Init(s: State) {
    && s.xcbr == Switchgear.INITIAL && s.breakerCswi == SwitchControl.INITIAL && s.breakerMotion == None
    && s.enaOpn && s.enaCls && !s.loc && s.drives == []
    && forall i :: 0 <= i < |s.disconnectors| ==>
                     s.disconnectors[i] == Disconnector(Switchgear.INITIAL, SwitchControl.INITIAL, None)
  }

  /** The breaker position, once it was published. */
  function BreakerPos(s: State): Option<Dbpos> {
    if s.breakerMotion == None then None else Some(s.breakerMotion.value.pos)
  }

  datatype Event =
    | InitBreaker(on: bool)
    | InitDisconnector(i: nat, on: bool)
    | BreakerStep(step: Motion.Step)
    | DisconnectorStep(i: nat, step: Motion.Step)
    | SetLoc(local: bool)
    | OperateBreaker(close: bool)
    | Operate(i: nat, close: bool)
    | LocalCommand(i: nat, close: bool)
    | Trip(trip: bool)

  /** The motion of a switch as its plugin line leaves it. */
  function Started(on: bool): Motion.State {
    Motion.State(1, Target(on), [], [Target(on)], None)
  }

  ghost predicate Enabled(s: State, e: Event) {
    match e
    case InitBreaker(_) => s.breakerMotion == None
    case InitDisconnector(i, _) => i < |s.disconnectors| && s.disconnectors[i].motion == None
    case BreakerStep(step) => step.Advance? && s.breakerMotion.Some? && Motion.Enabled(s.breakerMotion.value, step)
    case DisconnectorStep(i, step) =>
      && i < |s.disconnectors| && step.Advance?
      && s.disconnectors[i].motion.Some? && Motion.Enabled(s.disconnectors[i].motion.value, step)
    case Operate(i, _) => i < |s.disconnectors|
    case LocalCommand(i, _) => i < |s.disconnectors|
    case _ => true
  }

  // ---- Chains of callbacks ----

  function MapAll(ds: seq<Disconnector>, f: Disconnector -> Disconnector): (r: seq<Disconnector>)
    ensures |r| == |ds| && forall i :: 0 <= i < |r| ==> r[i] == f(ds[i])
  {
    if ds == [] then [] else [f(ds[0])] + MapAll(ds[1..], f)
  }

  /** Subscribers of CILO1.EnaOpn: every disconnector controller, then every disconnector. */
  function PublishEnaOpn(s: State, ena: bool): State {
    var ds := MapAll(s.disconnectors, (d: Disconnector) => d.(cswi := d.cswi.(enaOpn := ena)));
    s.(disconnectors := MapAll(ds, (d: Disconnector) => d.(xswi := d.xswi.(blkOpn := !ena))), enaOpn := ena)
  }

  function PublishEnaCls(s: State, ena: bool): State {
    var ds := MapAll(s.disconnectors, (d: Disconnector) => d.(cswi := d.cswi.(enaCls := ena)));
    s.(disconnectors := MapAll(ds, (d: Disconnector) => d.(xswi := d.xswi.(blkCls := !ena))), enaCls := ena)
  }

  /** Subscribers of XCBR1.Pos: the breaker controller, then the interlocking node (its direct
      input, which publishes only what changes). */
  function PublishBreakerPos(s: State, p: Dbpos): State {
    var s1 := s.(breakerCswi := s.breakerCswi.(currentValue := p));
    var ena := Interlock.NotEnables(BitString(p));
    var s2 := if Interlock.Change(s1.enaOpn, ena).Some? then PublishEnaOpn(s1, ena) else s1;
    if Interlock.Change(s2.enaCls, ena).Some? then PublishEnaCls(s2, ena) else s2
  }

  /** Subscribers of LLN0.Loc: breaker and disconnectors, which publish their own Loc to the controllers. */
  function PublishLoc(s: State, local: bool): State {
    var s1 := s.(xcbr := s.xcbr.(loc := local), breakerCswi := s.breakerCswi.(loc := local));
    s1.(disconnectors := MapAll(s1.disconnectors,
          (d: Disconnector) => d.(xswi := d.xswi.(loc := local), cswi := d.cswi.(loc := local))),
        loc := local)
  }

  function Spawned(m: Option<Motion.State>, close: bool): Option<Motion.State> {
    if m == None then None else Some(Motion.Next(m.value, Motion.Spawn(close)))
  }

  /** A command reaching disconnector i, from its controller or from the user interface. */
  function Command(s: State, i: nat, close: bool): State
    requires i < |s.disconnectors|
  {
    var d := s.disconnectors[i];
    if Switchgear.Passes(d.xswi, close) then
      s.(disconnectors := s.disconnectors[i := d.(motion := Spawned(d.motion, close))],
         drives := s.drives + [Drive(i, close, BreakerPos(s))])
    else s
  }

  function CommandBreaker(s: State, close: bool): State {
    if Switchgear.Passes(s.xcbr, close) then s.(breakerMotion := Spawned(s.breakerMotion, close)) else s
  }

  function Next(s: State, e: Event): State
    requires Enabled(s, e)
  {
    match e
    case InitBreaker(on) =>
      PublishBreakerPos(s.(xcbr := s.xcbr.(armed := true), breakerMotion := Some(Started(on))), Target(on))
    case InitDisconnector(i, on) =>
      var d := s.disconnectors[i];
      s.(disconnectors := s.disconnectors[i :=
           Disconnector(d.xswi.(armed := true), d.cswi.(currentValue := Target(on)), Some(Started(on)))])
    case BreakerStep(step) =>
      var m := Motion.Next(s.breakerMotion.value, step);
      var s1 := s.(breakerMotion := Some(m));
      if |m.published| > |s.breakerMotion.value.published| then PublishBreakerPos(s1, m.pos) else s1
    case DisconnectorStep(i, step) =>
      var d := s.disconnectors[i];
      var m := Motion.Next(d.motion.value, step);
      var cswi := if |m.published| > |d.motion.value.published| then d.cswi.(currentValue := m.pos) else d.cswi;
      s.(disconnectors := s.disconnectors[i := d.(motion := Some(m), cswi := cswi)])
    case SetLoc(local) => PublishLoc(s, local)
    case OperateBreaker(close) =>
      var s1 := s.(breakerCswi := SwitchControl.Handle(s.breakerCswi, close).0);
      if s.breakerCswi.timeout == 0 then CommandBreaker(s1, close) else s1
    case Operate(i, close) =>
      var d := s.disconnectors[i];
      var s1 := s.(disconnectors := s.disconnectors[i := d.(cswi := SwitchControl.Handle(d.cswi, close).0)]);
      if d.cswi.timeout == 0 then Command(s1, i, close) else s1
    case LocalCommand(i, close) => Command(s, i, close)
    case Trip(trip) =>
      if trip && s.xcbr.armed then s.(breakerMotion := Spawned(s.breakerMotion, false)) else s
  }

  ghost predicate Run(s: State, events: seq<Event>, s': State)
    decreases |events|
  {
    if events == [] then s' == s
    else Enabled(s, events[0]) && Run(Next(s, events[0]), events[1..], s')
  }

  // ---- The interlock ----

  function Enabling(s: State): bool {
    BreakerPos(s) == None || BreakerPos(s) == Some(Off)
  }

  /** A controller and a switch agree with each other and with the local/remote key. */
  ghost predicate Agree(xswi: Switchgear.State, cswi: SwitchControl.State, motion: Option<Motion.State>, loc: bool) {
    && xswi.loc == cswi.loc == loc
    && (xswi.armed <==> motion.Some?)
    && cswi.currentValue == (if motion == None then Intermediate else motion.value.pos)
    && (motion.Some? ==> Motion.Inv(motion.value))
  }

  ghost predicate Interlocked(s: State, d: Disconnector) {
    && d.xswi.blkOpn == d.xswi.blkCls == !Enabling(s)
    && d.cswi.enaOpn == d.cswi.enaCls == Enabling(s)
    && Agree(d.xswi, d.cswi, d.motion, s.loc)
  }

  ghost predicate Inv(s: State) {
    && s.enaOpn == s.enaCls == Enabling(s)
    && Agree(s.xcbr, s.breakerCswi, s.breakerMotion, s.loc)
    && (forall i :: 0 <= i < |s.disconnectors| ==> Interlocked(s, s.disconnectors[i]))
    && (forall k :: 0 <= k < |s.drives| ==> s.drives[k].breaker == None || s.drives[k].breaker == Some(Off))
  }

  lemma StartedInv(on: bool)
    ensures Motion.Inv(Started(on))
  {
  }

  lemma SpawnedInv(m: Option<Motion.State>, close: bool)
    requires m.Some? ==> Motion.Inv(m.value)
    ensures m.Some? ==> Spawned(m, close).Some? && Motion.Inv(Spawned(m, close).value)
    ensures m.Some? ==> Spawned(m, close).value.pos == m.value.pos
  {
    if m.Some? {
      Motion.InvNext(m.value, Motion.Spawn(close));
    }
  }

  lemma PulseKeeps(c: SwitchControl.State, pos: Dbpos, on: bool)
    ensures var c' := SwitchControl.Pulse(c, pos, on);
            && c'.currentValue == c.currentValue && c'.loc == c.loc
            && c'.enaOpn == c.enaOpn && c'.enaCls == c.enaCls
  {
  }

  /** A controller's handler leaves its inputs as they are. */
  lemma HandleKeeps(c: SwitchControl.State, close: bool)
    ensures var c' := SwitchControl.Handle(c, close).0;
            && c'.currentValue == c.currentValue && c'.loc == c.loc
            && c'.enaOpn == c.enaOpn && c'.enaCls == c.enaCls
  {
    PulseKeeps(c, Target(close), true);
    var c1 := if c.timeout == 0 then SwitchControl.Pulse(c, Target(close), true) else c;
    PulseKeeps(c1.(timeout := 0), c1.currentValue, false);
  }

  /** One disconnector after a breaker position was published: enabled exactly if the breaker is
      open, provided it agreed with the interlocking node before. */
  lemma PublishReaches(s: State, p: Dbpos, i: nat)
    requires i < |s.disconnectors| && s.enaOpn == s.enaCls
    requires var d := s.disconnectors[i];
             d.cswi.enaOpn == d.cswi.enaCls == s.enaOpn && d.xswi.blkOpn == d.xswi.blkCls == !s.enaOpn
    ensures |PublishBreakerPos(s, p).disconnectors| == |s.disconnectors|
    ensures PublishBreakerPos(s, p).disconnectors[i]
         == s.disconnectors[i].(xswi := s.disconnectors[i].xswi.(blkOpn := p != Off, blkCls := p != Off),
                                cswi := s.disconnectors[i].cswi.(enaOpn := p == Off, enaCls := p == Off))
  {
  }

  lemma PublishFrame(s: State, p: Dbpos)
    ensures var s' := PublishBreakerPos(s, p);
            && s'.enaOpn == s'.enaCls == (p == Off)
            && s' == s.(breakerCswi := s.breakerCswi.(currentValue := p), enaOpn := p == Off, enaCls := p == Off,
                        disconnectors := s'.disconnectors)
            && |s'.disconnectors| == |s.disconnectors|
  {
  }

  /** A new breaker position reaches every controller and disconnector before the step ends. */
  lemma PublishBreakerKeeps(s: State, m: Motion.State)
    requires Inv(s) && Motion.Inv(m)
    ensures Inv(PublishBreakerPos(s.(xcbr := s.xcbr.(armed := true), breakerMotion := Some(m)), m.pos))
  {
    var s1 := s.(xcbr := s.xcbr.(armed := true), breakerMotion := Some(m));
    var s' := PublishBreakerPos(s1, m.pos);
    PublishFrame(s1, m.pos);
    forall i | 0 <= i < |s'.disconnectors| ensures Interlocked(s', s'.disconnectors[i]) {
      assert Interlocked(s, s.disconnectors[i]);
      PublishReaches(s1, m.pos, i);
    }
  }

  lemma MotionQuiet(m: Motion.State, step: Motion.Step)
    requires Motion.Enabled(m, step)
    ensures |Motion.Next(m, step).published| <= |m.published| ==> Motion.Next(m, step).pos == m.pos
  {
  }

  /** A step that publishes nothing leaves every agreement as it is. */
  lemma QuietBreakerStepKeeps(s: State, m: Motion.State)
    requires Inv(s) && s.breakerMotion.Some? && Motion.Inv(m) && m.pos == s.breakerMotion.value.pos
    ensures Inv(s.(breakerMotion := Some(m)))
  {
    BreakerCommandKeeps(s, s.breakerCswi, Some(m));
  }

  lemma BreakerStepKeeps(s: State, step: Motion.Step)
    requires Inv(s) && Enabled(s, BreakerStep(step))
    ensures Inv(Next(s, BreakerStep(step)))
  {
    var before := s.breakerMotion.value;
    var m := Motion.Next(before, step);
    Motion.InvNext(before, step);
    if |m.published| > |before.published| {
      assert s.xcbr == s.xcbr.(armed := true);
      PublishBreakerKeeps(s, m);
    } else {
      MotionQuiet(before, step);
      QuietBreakerStepKeeps(s, m);
    }
  }

  /** Replacing one disconnector by one that agrees. */
  lemma OneDisconnector(s: State, i: nat, d: Disconnector)
    requires Inv(s) && i < |s.disconnectors| && Interlocked(s, d)
    ensures Inv(s.(disconnectors := s.disconnectors[i := d]))
  {
  }

  lemma DisconnectorStepKeeps(s: State, i: nat, step: Motion.Step)
    requires Inv(s) && Enabled(s, DisconnectorStep(i, step))
    ensures Inv(Next(s, DisconnectorStep(i, step)))
  {
    var d := s.disconnectors[i];
    assert Interlocked(s, d);
    Motion.InvNext(d.motion.value, step);
    MotionQuiet(d.motion.value, step);
    OneDisconnector(s, i, Next(s, DisconnectorStep(i, step)).disconnectors[i]);
  }

  lemma CommandKeeps(s: State, i: nat, close: bool)
    requires Inv(s) && i < |s.disconnectors|
    ensures Inv(Command(s, i, close))
  {
    var d := s.disconnectors[i];
    assert Interlocked(s, d);
    SpawnedInv(d.motion, close);
    OneDisconnector(s, i, d.(motion := Spawned(d.motion, close)));
  }

  lemma OperateKeeps(s: State, i: nat, close: bool)
    requires Inv(s) && i < |s.disconnectors|
    ensures Inv(Next(s, Operate(i, close)))
  {
    var d := s.disconnectors[i];
    assert Interlocked(s, d);
    HandleKeeps(d.cswi, close);
    var d' := d.(cswi := SwitchControl.Handle(d.cswi, close).0);
    assert Interlocked(s, d');
    OneDisconnector(s, i, d');
    CommandKeeps(s.(disconnectors := s.disconnectors[i := d']), i, close);
  }

  lemma InitBreakerKeeps(s: State, on: bool)
    requires Inv(s) && Enabled(s, InitBreaker(on))
    ensures Inv(Next(s, InitBreaker(on)))
  {
    StartedInv(on);
    PublishBreakerKeeps(s, Started(on));
  }

  lemma InitDisconnectorKeeps(s: State, i: nat, on: bool)
    requires Inv(s) && Enabled(s, InitDisconnector(i, on))
    ensures Inv(Next(s, InitDisconnector(i, on)))
  {
    StartedInv(on);
    assert Interlocked(s, s.disconnectors[i]);
    OneDisconnector(s, i, Next(s, InitDisconnector(i, on)).disconnectors[i]);
  }

  lemma SetLocKeeps(s: State, local: bool)
    requires Inv(s)
    ensures Inv(Next(s, SetLoc(local)))
  {
    assert forall i :: 0 <= i < |s.disconnectors| ==> Interlocked(s, s.disconnectors[i]);
  }

  /** What changes only the breaker's controller or spawns a thread for it. */
  lemma BreakerCommandKeeps(s: State, cswi: SwitchControl.State, motion: Option<Motion.State>)
    requires Inv(s)
    requires Agree(s.xcbr, cswi, motion, s.loc)
    requires (if motion == None then None else Some(motion.value.pos)) == BreakerPos(s)
    ensures Inv(s.(breakerCswi := cswi, breakerMotion := motion))
  {
    var s' := s.(breakerCswi := cswi, breakerMotion := motion);
    assert BreakerPos(s') == BreakerPos(s);
    assert forall i :: 0 <= i < |s.disconnectors| ==> Interlocked(s, s.disconnectors[i]);
  }

  lemma OperateBreakerKeeps(s: State, close: bool)
    requires Inv(s)
    ensures Inv(Next(s, OperateBreaker(close)))
  {
    HandleKeeps(s.breakerCswi, close);
    SpawnedInv(s.breakerMotion, close);
    var cswi := SwitchControl.Handle(s.breakerCswi, close).0;
    BreakerCommandKeeps(s, cswi, s.breakerMotion);
    BreakerCommandKeeps(s, cswi, Spawned(s.breakerMotion, close));
  }

  lemma TripKeeps(s: State, trip: bool)
    requires Inv(s)
    ensures Inv(Next(s, Trip(trip)))
  {
    SpawnedInv(s.breakerMotion, false);
    BreakerCommandKeeps(s, s.breakerCswi, Spawned(s.breakerMotion, false));
  }

  lemma InvNext(s: State, e: Event)
    requires Inv(s) && Enabled(s, e)
    ensures Inv(Next(s, e))
  {
    match e {
      case InitBreaker(on) => InitBreakerKeeps(s, on);
      case InitDisconnector(i, on) => InitDisconnectorKeeps(s, i, on);
      case BreakerStep(step) => BreakerStepKeeps(s, step);
      case DisconnectorStep(i, step) => DisconnectorStepKeeps(s, i, step);
      case SetLoc(local) => SetLocKeeps(s, local);
      case OperateBreaker(close) => OperateBreakerKeeps(s, close);
      case Operate(i, close) => OperateKeeps(s, i, close);
      case LocalCommand(i, close) => CommandKeeps(s, i, close);
      case Trip(trip) => TripKeeps(s, trip);
    }
  }

  lemma {:induction false} InvRun(s: State, events: seq<Event>, s': State)
    requires Inv(s) && Run(s, events, s')
    ensures Inv(s')
    decreases |events|
  {
    if events == [] {
    } else {
      InvNext(s, events[0]);
      InvRun(Next(s, events[0]), events[1..], s');
    }
  }

  // ---- The theorems ----

  lemma InitInv(s: State)
    requires Init(s)
    ensures Inv(s)
  {
    forall i | 0 <= i < |s.disconnectors| ensures Interlocked(s, s.disconnectors[i]) {
      assert s.disconnectors[i] == Disconnector(Switchgear.INITIAL, SwitchControl.INITIAL, None);
    }
  }

  /** What the interlock promises of a disconnector once the breaker position is known. */
  ghost predicate Safe(s: State, d: Disconnector, breaker: Dbpos) {
    && d.xswi.blkOpn == d.xswi.blkCls == (breaker != Off)
    && d.cswi.enaOpn == d.cswi.enaCls == (breaker == Off)
    && d.xswi.loc == d.cswi.loc == s.loc
    && (d.motion.Some? ==> d.cswi.currentValue == d.motion.value.pos)
  }

  /** Whatever the events, with any number of disconnectors and of commands under way: blocking,
      enabling and the breaker position agree everywhere. */
  lemma WholeBay(init: State, events: seq<Event>, s: State)
    requires Init(init) && Run(init, events, s)
    requires s.breakerMotion.Some?
    ensures s.enaOpn == s.enaCls == (s.breakerMotion.value.pos == Off)
    ensures s.breakerCswi.currentValue == s.breakerMotion.value.pos
    ensures s.xcbr.loc == s.breakerCswi.loc == s.loc
    ensures forall i :: 0 <= i < |s.disconnectors| ==> Safe(s, s.disconnectors[i], s.breakerMotion.value.pos)
  {
    InitInv(init);
    InvRun(init, events, s);
    forall i | 0 <= i < |s.disconnectors| ensures Safe(s, s.disconnectors[i], s.breakerMotion.value.pos) {
      assert Interlocked(s, s.disconnectors[i]);
    }
  }

  /** A switch whose plugin is initialised is at rest in its default position, and its controller knows;
      the others are not moved. */
  lemma InitialPositions(s: State, i: nat, on: bool)
    requires Enabled(s, InitDisconnector(i, on))
    ensures var d, s' := s.disconnectors[i], Next(s, InitDisconnector(i, on));
            && s' == s.(disconnectors := s'.disconnectors) && |s'.disconnectors| == |s.disconnectors|
            && (forall j :: 0 <= j < |s.disconnectors| && j != i ==> s'.disconnectors[j] == s.disconnectors[j])
            && s'.disconnectors[i].cswi == d.cswi.(currentValue := if on then On else Off)
            && s'.disconnectors[i].xswi == d.xswi.(armed := true)
            && s'.disconnectors[i].motion.Some? && Motion.Init(s'.disconnectors[i].motion.value)
            && s'.disconnectors[i].motion.value.pos == (if on then On else Off)
  {
  }

  lemma InitialBreakerPosition(s: State, on: bool)
    requires Enabled(s, InitBreaker(on))
    ensures var s' := Next(s, InitBreaker(on));
            && s'.xcbr == s.xcbr.(armed := true) && s'.breakerMotion.Some? && Motion.Init(s'.breakerMotion.value)
            && s'.breakerMotion.value.pos == s'.breakerCswi.currentValue == (if on then On else Off)
  {
    PublishFrame(s.(xcbr := s.xcbr.(armed := true), breakerMotion := Some(Started(on))), Target(on));
  }

  /** Every node of the bay has this local/remote state. */
  ghost predicate AllLoc(s: State, local: bool) {
    && s.loc == s.xcbr.loc == s.breakerCswi.loc == local
    && forall i :: 0 <= i < |s.disconnectors| ==> s.disconnectors[i].xswi.loc == s.disconnectors[i].cswi.loc == local
  }

  lemma AgreementIsLoc(s: State)
    requires Inv(s)
    ensures AllLoc(s, s.loc)
  {
    forall i | 0 <= i < |s.disconnectors| ensures s.disconnectors[i].xswi.loc == s.disconnectors[i].cswi.loc == s.loc {
      assert Interlocked(s, s.disconnectors[i]);
    }
  }

  /** The key reaches every node before the step ends, and no other event changes its state. */
  lemma LocNext(s: State, e: Event)
    requires Inv(s) && Enabled(s, e)
    ensures AllLoc(Next(s, e), if e.SetLoc? then e.local else s.loc)
  {
    InvNext(s, e);
    AgreementIsLoc(Next(s, e));
    KeyState(s, e);
  }

  lemma KeyState(s: State, e: Event)
    requires Enabled(s, e)
    ensures Next(s, e).loc == if e.SetLoc? then e.local else s.loc
  {
  }

  /** The key was set to `local`, and not touched since. */
  predicate SetLast(events: seq<Event>, local: bool) {
    exists k :: 0 <= k < |events| && events[k] == SetLoc(local) && forall j :: k < j < |events| ==> !events[j].SetLoc?
  }

  predicate NeverSet(events: seq<Event>) {
    forall k :: 0 <= k < |events| ==> !events[k].SetLoc?
  }

  lemma {:induction false} LocRun(s: State, events: seq<Event>, s': State, local: bool)
    requires Inv(s) && AllLoc(s, s.loc) && Run(s, events, s')
    ensures NeverSet(events) ==> AllLoc(s', s.loc)
    ensures SetLast(events, local) ==> AllLoc(s', local)
    decreases |events|
  {
    if events == [] {
    } else {
      InvNext(s, events[0]);
      LocNext(s, events[0]);
      if SetLast(events, local) {
        LastOfTail(events, local);
      }
      LocRun(Next(s, events[0]), events[1..], s', local);
    }
  }

  lemma LastOfTail(events: seq<Event>, local: bool)
    requires events != [] && SetLast(events, local)
    ensures if NeverSet(events[1..]) then events[0] == SetLoc(local) else SetLast(events[1..], local)
  {
    var k :| 0 <= k < |events| && events[k] == SetLoc(local) && forall j :: k < j < |events| ==> !events[j].SetLoc?;
    if k == 0 {
      assert forall j :: 0 <= j < |events[1..]| ==> events[1..][j] == events[j + 1];
    } else {
      assert events[1..][k - 1] == events[k];
    }
  }

  /** At any time every node of the bay has the state the key was last set to, or is remote if it never was. */
  lemma EveryNodeFollowsKey(init: State, events: seq<Event>, s: State, local: bool)
    requires Init(init) && Run(init, events, s)
    ensures NeverSet(events) ==> AllLoc(s, false)
    ensures SetLast(events, local) ==> AllLoc(s, local)
  {
    InitInv(init);
    forall i | 0 <= i < |init.disconnectors|
      ensures init.disconnectors[i].xswi.loc == init.disconnectors[i].cswi.loc == false
    {
      assert init.disconnectors[i] == Disconnector(Switchgear.INITIAL, SwitchControl.INITIAL, None);
    }
    LocRun(init, events, s, local);
  }

  /** A command moves on to the drive exactly if the switch is initialised and the breaker is open
      or has not been heard of. */
  lemma CommandPassesExactly(init: State, events: seq<Event>, s: State, i: nat, close: bool)
    requires Init(init) && Run(init, events, s) && i < |s.disconnectors|
    ensures Command(s, i, close).drives ==
            if s.disconnectors[i].motion.Some? && (s.breakerMotion.Some? ==> s.breakerMotion.value.pos == Off)
            then s.drives + [Drive(i, close, BreakerPos(s))] else s.drives
  {
    InitInv(init);
    InvRun(init, events, s);
    assert Interlocked(s, s.disconnectors[i]);
  }

  ghost predicate DrivenOpen(s: State) {
    && s.breakerMotion.Some?
    && forall k :: 0 <= k < |s.drives| ==> s.drives[k].breaker == Some(Off)
  }

  lemma DrivenOpenNext(s: State, e: Event)
    requires Inv(s) && DrivenOpen(s) && Enabled(s, e)
    ensures DrivenOpen(Next(s, e))
  {
    match e {
      case InitBreaker(on) =>
      case BreakerStep(step) =>
        PublishFrame(s.(breakerMotion := Some(Motion.Next(s.breakerMotion.value, step))),
                     Motion.Next(s.breakerMotion.value, step).pos);
      case Operate(i, close) =>
        HandleKeeps(s.disconnectors[i].cswi, close);
        assert Interlocked(s, s.disconnectors[i]);
      case LocalCommand(i, close) => assert Interlocked(s, s.disconnectors[i]);
      case _ =>
    }
  }

  lemma {:induction false} DrivenOpenRun(s: State, events: seq<Event>, s': State)
    requires Inv(s) && DrivenOpen(s) && Run(s, events, s')
    ensures DrivenOpen(s')
    decreases |events|
  {
    if events == [] {
    } else {
      InvNext(s, events[0]);
      DrivenOpenNext(s, events[0]);
      DrivenOpenRun(Next(s, events[0]), events[1..], s');
    }
  }

  /** If the breaker is initialised first, no disconnector is ever driven unless the breaker is open. */
  lemma DrivenOnlyWhileOpen(init: State, on: bool, events: seq<Event>, s: State)
    requires Init(init) && Run(Next(init, InitBreaker(on)), events, s)
    ensures forall k :: 0 <= k < |s.drives| ==> s.drives[k].breaker == Some(Off)
  {
    InitInv(init);
    InvNext(init, InitBreaker(on));
    PublishFrame(init.(xcbr := init.xcbr.(armed := true), breakerMotion := Some(Started(on))), Target(on));
    DrivenOpenRun(Next(init, InitBreaker(on)), events, s);
  }
}
