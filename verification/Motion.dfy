/** The motion threads of one simulated switch (`plugin_src/cbr_simulation/cbr_simulation.c`).

    Every command spawns a detached thread; the threads of one switch share a semaphore and
    are interleaved at each semaphore operation and each publication of the position. */
module Motion {
  import opened Mms

  /** Where a thread is: before the wait, inside and about to test the position, asleep
      between the two publications, about to post, gone. */
  datatype Pc = Waiting | Entered | Moving | Leaving | Finished

  datatype Thread = Thread(close: bool, pc: Pc)

  /** `published` is every value given to Pos.stVal since the plugin was initialised;
      `lastTaken` is the direction of the last thread that took the semaphore. */
  datatype State = State(
    sem: int,
    pos: Dbpos,
    threads: seq<Thread>,
    published: seq<Dbpos>,
    lastTaken: Option<bool>)

  /** `init` publishes the default position; the semaphore starts at 1. */
  ghost predicate Init(s: State) {
    && s.sem == 1
    && (s.pos == On || s.pos == Off)
    && s.threads == []
    && s.published == [s.pos]
    && s.lastTaken == None
  }

  datatype Step = Spawn(close: bool) | Advance(t: nat)

  predicate Enabled(s: State, step: Step) {
    match step
    case Spawn(_) => true
    case Advance(t) =>
      && t < |s.threads|
      && s.threads[t].pc != Finished
      && (s.threads[t].pc == Waiting ==> s.sem > 0)
  }

  function Publish(s: State, p: Dbpos): State {
    s.(pos := p, published := s.published + [p])
  }

  function Goto(s: State, t: nat, pc: Pc): State
    requires t < |s.threads|
  {
    s.(threads := s.threads[t := s.threads[t].(pc := pc)])
  }

  function Next(s: State, step: Step): State
    requires Enabled(s, step)
  {
    match step
    case Spawn(close) => s.(threads := s.threads + [Thread(close, Waiting)])
    case Advance(t) =>
      var close := s.threads[t].close;
      match s.threads[t].pc
      case Waiting => Goto(s, t, Entered).(sem := s.sem - 1, lastTaken := Some(close))
      case Entered =>
        if s.pos != Target(close)
        then Publish(Goto(s, t, Moving), Intermediate)
        else Goto(s, t, Leaving)
      case Moving => Publish(Goto(s, t, Leaving), Target(close))
      case Leaving => Goto(s, t, Finished).(sem := s.sem + 1)
  }

  /** The state after a run of steps, each enabled when it is taken. */
  ghost predicate Run(s: State, steps: seq<Step>, s': State)
    decreases |steps|
  {
    if steps == [] then s' == s
    else Enabled(s, steps[0]) && Run(Next(s, steps[0]), steps[1..], s')
  }

  ghost predicate Reachable(s: State) {
    exists init, steps :: Init(init) && Run(init, steps, s)
  }

  predicate Inside(t: Thread) {
    t.pc == Entered || t.pc == Moving || t.pc == Leaving
  }

  // ---- The invariant ----

  ghost predicate AtMostOneInside(s: State) {
    forall t, u :: 0 <= t < |s.threads| && 0 <= u < |s.threads| && Inside(s.threads[t]) && Inside(s.threads[u]) ==>
        t == u
  }

  /** The semaphore is 1 exactly when nobody is inside. */
  ghost predicate SemaphoreCounts(s: State) {
    && (s.sem == 0 || s.sem == 1)
    && (s.sem == 1 <==> forall t :: 0 <= t < |s.threads| ==> !Inside(s.threads[t]))
  }

  ghost predicate Travelling(s: State) {
    exists t :: 0 <= t < |s.threads| && s.threads[t].pc == Moving
  }

  /** Published positions: end positions at even places, INTERMEDIATE between two different ones. */
  ghost predicate WellPublished(published: seq<Dbpos>) {
    && (forall i :: 0 <= i < |published| && i % 2 == 0 ==> published[i] == On || published[i] == Off)
    && (forall i :: 0 <= i < |published| && i % 2 == 1 ==> published[i] == Intermediate)
    && (forall i :: 0 <= i < |published| - 2 && i % 2 == 0 ==> published[i] != published[i + 2])
  }

  /** What a thread inside knows about the position. */
  ghost predicate ThreadPosition(s: State, t: Thread) {
    && (Inside(t) ==> s.lastTaken == Some(t.close))
    && (t.pc == Moving ==>
          s.pos == Intermediate && |s.published| >= 2 && s.published[|s.published| - 2] != Target(t.close))
    && (t.pc == Entered ==> s.pos == On || s.pos == Off)
    && (t.pc == Leaving ==> s.pos == Target(t.close))
  }

  ghost predicate Inv(s: State) {
    && AtMostOneInside(s)
    && SemaphoreCounts(s)
    && (s.pos == Intermediate <==> Travelling(s))
    && |s.published| > 0 && s.published[|s.published| - 1] == s.pos
    && WellPublished(s.published)
    && (forall t :: 0 <= t < |s.threads| ==> ThreadPosition(s, s.threads[t]))
    && (s.sem == 1 ==> match s.lastTaken
                       case None => |s.published| == 1
                       case Some(close) => s.pos == Target(close))
    && (s.lastTaken == None ==> forall t :: 0 <= t < |s.threads| ==> s.threads[t].pc == Waiting)
  }

  lemma WellPublishedAppend(published: seq<Dbpos>, p: Dbpos)
    requires WellPublished(published) && |published| > 0
    requires p == Intermediate <==> published[|published| - 1] != Intermediate
    requires p != Intermediate ==> |published| >= 2 && (p == On || p == Off) && published[|published| - 2] != p
    ensures WellPublished(published + [p])
  {
  }

  lemma InvNext(s: State, step: Step)
    requires Inv(s) && Enabled(s, step)
    ensures Inv(Next(s, step))
  {
    match step
    case Spawn(close) =>
      var s' := Next(s, step);
      assert forall t :: 0 <= t < |s.threads| ==> s'.threads[t] == s.threads[t];
      assert Travelling(s') <==> Travelling(s);
    case Advance(t) =>
      match s.threads[t].pc
      case Waiting => InvTake(s, t);
      case Entered => InvEntered(s, t);
      case Moving => InvMoving(s, t);
      case Leaving => InvPost(s, t);
  }

  lemma InvTake(s: State, t: nat)
    requires Inv(s) && Enabled(s, Advance(t)) && s.threads[t].pc == Waiting
    ensures Inv(Next(s, Advance(t)))
  {
    var s' := Next(s, Advance(t));
    assert forall u :: 0 <= u < |s.threads| && u != t ==> s'.threads[u] == s.threads[u];
    assert Inside(s'.threads[t]);
    assert Travelling(s') <==> Travelling(s);
  }

  lemma InvEntered(s: State, t: nat)
    requires Inv(s) && Enabled(s, Advance(t)) && s.threads[t].pc == Entered
    ensures Inv(Next(s, Advance(t)))
  {
    var s' := Next(s, Advance(t));
    assert forall u :: 0 <= u < |s.threads| && u != t ==> s'.threads[u] == s.threads[u];
    assert Inside(s.threads[t]) && Inside(s'.threads[t]);
    if s'.pos == Intermediate {
      assert s'.threads[t].pc == Moving;
      WellPublishedAppend(s.published, Intermediate);
    }
  }

  lemma InvMoving(s: State, t: nat)
    requires Inv(s) && Enabled(s, Advance(t)) && s.threads[t].pc == Moving
    ensures Inv(Next(s, Advance(t)))
  {
    var s' := Next(s, Advance(t));
    assert forall u :: 0 <= u < |s.threads| && u != t ==> s'.threads[u] == s.threads[u];
    assert Inside(s.threads[t]) && Inside(s'.threads[t]);
    WellPublishedAppend(s.published, s'.pos);
  }

  lemma InvPost(s: State, t: nat)
    requires Inv(s) && Enabled(s, Advance(t)) && s.threads[t].pc == Leaving
    ensures Inv(Next(s, Advance(t)))
  {
    var s' := Next(s, Advance(t));
    assert forall u :: 0 <= u < |s.threads| && u != t ==> s'.threads[u] == s.threads[u];
    assert Inside(s.threads[t]);
    assert Travelling(s') <==> Travelling(s);
  }

  lemma {:induction false} InvRun(s: State, steps: seq<Step>, s': State)
    requires Inv(s) && Run(s, steps, s')
    ensures Inv(s')
    decreases |steps|
  {
    if steps == [] {
    } else {
      InvNext(s, steps[0]);
      InvRun(Next(s, steps[0]), steps[1..], s');
    }
  }

  lemma ReachableInv(s: State)
    requires Reachable(s)
    ensures Inv(s)
  {
    var init, steps :| Init(init) && Run(init, steps, s);
    InvRun(init, steps, s);
  }

  // ---- The theorems ----

  /** Whatever the number of threads and their interleaving: one at a time, INTERMEDIATE exactly
      while a thread is between its two publications, and only whole strokes are published. */
  lemma Safety(s: State)
    requires Reachable(s)
    ensures AtMostOneInside(s)
    ensures s.pos == Intermediate <==> Travelling(s)
    ensures WellPublished(s.published) && s.published != [] && s.published[|s.published| - 1] == s.pos
  {
    ReachableInv(s);
  }

  ghost predicate AllFinished(s: State) {
    forall t :: 0 <= t < |s.threads| ==> s.threads[t].pc == Finished
  }

  /** Once every thread has ended, the last one to take the semaphore decided the position. */
  lemma LastTakerWins(s: State)
    requires Reachable(s) && AllFinished(s)
    ensures s.sem == 1
    ensures match s.lastTaken
            case None => s.published == [s.pos]
            case Some(close) => s.pos == Target(close)
  {
    ReachableInv(s);
  }

  /** The semaphore is never lost: while a thread has not ended, some thread can go on. */
  lemma NoDeadlock(s: State)
    requires Reachable(s) && !AllFinished(s)
    ensures exists t :: 0 <= t < |s.threads| && Enabled(s, Advance(t))
  {
    ReachableInv(s);
    var t :| 0 <= t < |s.threads| && s.threads[t].pc != Finished;
    if s.sem > 0 {
      assert Enabled(s, Advance(t));
    } else {
      var u :| 0 <= u < |s.threads| && Inside(s.threads[u]);
      assert Enabled(s, Advance(u));
    }
  }

  // ---- Every command terminates ----

  function StepsLeft(t: Thread): nat {
    match t.pc
    case Waiting => 4
    case Entered => 3
    case Moving => 2
    case Leaving => 1
    case Finished => 0
  }

  function Work(threads: seq<Thread>): nat {
    if threads == [] then 0 else StepsLeft(threads[0]) + Work(threads[1..])
  }

  lemma {:induction false} WorkUpdate(threads: seq<Thread>, t: nat, x: Thread)
    requires t < |threads|
    ensures Work(threads[t := x]) == Work(threads) - StepsLeft(threads[t]) + StepsLeft(x)
  {
    if t == 0 {
      assert threads[t := x][1..] == threads[1..];
    } else {
      assert threads[t := x][1..] == threads[1..][t - 1 := x];
      WorkUpdate(threads[1..], t - 1, x);
    }
  }

  ghost predicate NoSpawn(steps: seq<Step>) {
    forall i :: 0 <= i < |steps| ==> steps[i].Advance?
  }

  /** With no new command, the threads present take at most four steps each. */
  lemma {:induction false} ThreadsEnd(s: State, steps: seq<Step>, s': State)
    requires Run(s, steps, s') && NoSpawn(steps)
    ensures |steps| + Work(s'.threads) <= Work(s.threads)
    decreases |steps|
  {
    if steps == [] {
    } else {
      var t := steps[0].t;
      WorkUpdate(s.threads, t, Next(s, steps[0]).threads[t]);
      ThreadsEnd(Next(s, steps[0]), steps[1..], s');
    }
  }

  // ---- A command takes effect ----

  /** Every thread under way wants the same end position. */
  ghost predicate OneWay(s: State, close: bool) {
    forall t :: 0 <= t < |s.threads| && s.threads[t].pc != Finished ==> s.threads[t].close == close
  }

  ghost predicate OnlySpawns(steps: seq<Step>, close: bool) {
    forall i :: 0 <= i < |steps| ==> steps[i] != Spawn(!close)
  }

  lemma {:induction false} OneWayRun(s: State, n: nat, close: bool, steps: seq<Step>, s': State)
    requires OneWay(s, close) && n < |s.threads|
    requires s.threads[n].pc != Waiting ==> s.lastTaken == Some(close)
    requires Run(s, steps, s') && OnlySpawns(steps, close)
    ensures OneWay(s', close) && n < |s'.threads|
    ensures s'.threads[n].pc != Waiting ==> s'.lastTaken == Some(close)
    decreases |steps|
  {
    if steps == [] {
    } else {
      assert steps[0].Spawn? ==> steps[0].close == close;
      OneWayRun(Next(s, steps[0]), n, close, steps[1..], s');
    }
  }

  /** Given to a switch that no other thread wants elsewhere, neither now nor later, a command ends
      in its position. */
  lemma CommandTakesEffect(s: State, close: bool, steps: seq<Step>, s': State)
    requires Inv(s) && OneWay(s, close)
    requires Run(Next(s, Spawn(close)), steps, s') && OnlySpawns(steps, close) && AllFinished(s')
    ensures s'.pos == Target(close)
  {
    InvNext(s, Spawn(close));
    InvRun(Next(s, Spawn(close)), steps, s');
    OneWayRun(Next(s, Spawn(close)), |s.threads|, close, steps, s');
    assert s'.threads[|s.threads|].pc == Finished;
  }

  // ---- What the threads under way can still do ----

  /** A thread that has not tested the position yet and wants another one. */
  predicate Wants(s: State, t: Thread) {
    (t.pc == Waiting || t.pc == Entered) && Target(t.close) != s.pos
  }

  /** The switch is moving, or a thread under way wants it elsewhere. */
  ghost predicate Pending(s: State) {
    s.pos == Intermediate || exists t :: 0 <= t < |s.threads| && Wants(s, s.threads[t])
  }

  lemma RunCons(s: State, step: Step, steps: seq<Step>, s': State) returns (all: seq<Step>)
    requires Enabled(s, step) && Run(Next(s, step), steps, s') && step.Advance? && NoSpawn(steps)
    ensures Run(s, all, s') && NoSpawn(all)
  {
    all := [step] + steps;
    assert all[1..] == steps;
  }

  /** A thread inside that wants the switch elsewhere starts to move it. */
  lemma EnteredMoves(s: State, t: nat) returns (steps: seq<Step>, s': State)
    requires Inv(s) && t < |s.threads| && s.threads[t].pc == Entered && Wants(s, s.threads[t])
    ensures Run(s, steps, s') && NoSpawn(steps) && s'.pos == Intermediate
  {
    s' := Next(s, Advance(t));
    steps := RunCons(s, Advance(t), [], s');
  }

  lemma WaitingMoves(s: State, t: nat) returns (steps: seq<Step>, s': State)
    requires Inv(s) && s.sem > 0 && t < |s.threads| && s.threads[t].pc == Waiting && Wants(s, s.threads[t])
    ensures Run(s, steps, s') && NoSpawn(steps) && s'.pos == Intermediate
  {
    var s1 := Next(s, Advance(t));
    InvNext(s, Advance(t));
    steps, s' := EnteredMoves(s1, t);
    steps := RunCons(s, Advance(t), steps, s');
  }

  /** Whoever is inside, and does not move the switch, leaves. */
  lemma OthersLeave(s: State, u: nat, t: nat) returns (steps: seq<Step>, s': State)
    requires Inv(s) && u < |s.threads| && t < |s.threads|
    requires s.threads[u].pc == Leaving && s.threads[t].pc == Waiting && Wants(s, s.threads[t])
    ensures Run(s, steps, s') && NoSpawn(steps) && s'.pos == Intermediate
  {
    var s1 := Next(s, Advance(u));
    InvNext(s, Advance(u));
    steps, s' := WaitingMoves(s1, t);
    steps := RunCons(s, Advance(u), steps, s');
  }

  /** If anything is pending, the threads under way can bring the switch between its positions. */
  lemma PendingMoves(s: State) returns (steps: seq<Step>, s': State)
    requires Inv(s) && Pending(s)
    ensures Run(s, steps, s') && NoSpawn(steps) && s'.pos == Intermediate
  {
    if s.pos == Intermediate {
      steps, s' := [], s;
    } else {
      var t :| 0 <= t < |s.threads| && Wants(s, s.threads[t]);
      if s.threads[t].pc == Entered {
        steps, s' := EnteredMoves(s, t);
      } else if s.sem > 0 {
        steps, s' := WaitingMoves(s, t);
      } else {
        var u :| 0 <= u < |s.threads| && Inside(s.threads[u]);
        if s.threads[u].pc == Leaving {
          steps, s' := OthersLeave(s, u, t);
        } else {
          assert s.threads[u].pc == Entered;
          if Wants(s, s.threads[u]) {
            steps, s' := EnteredMoves(s, u);
          } else {
            var s1 := Next(s, Advance(u));
            InvNext(s, Advance(u));
            steps, s' := OthersLeave(s1, u, t);
            steps := RunCons(s, Advance(u), steps, s');
          }
        }
      }
    }
  }

  /** If nothing is, the next step of a thread neither moves the switch nor makes anything so. */
  lemma NothingPendingStep(s: State, t: nat)
    requires Inv(s) && !Pending(s) && Enabled(s, Advance(t))
    ensures Next(s, Advance(t)).pos == s.pos && !Pending(Next(s, Advance(t)))
  {
    assert !Wants(s, s.threads[t]);
    assert s.threads[t].pc != Moving;
    var s' := Next(s, Advance(t));
    forall u | 0 <= u < |s'.threads| ensures !Wants(s', s'.threads[u]) {
      assert !Wants(s, s.threads[u]);
    }
  }

  /** A new command makes something pending exactly if it asks for another position. */
  lemma SpawnPending(s: State, close: bool)
    ensures Pending(Next(s, Spawn(close))) <==> Pending(s) || s.pos != Target(close)
  {
    var s' := Next(s, Spawn(close));
    forall t | 0 <= t < |s.threads| ensures Wants(s', s'.threads[t]) <==> Wants(s, s.threads[t]) {}
    assert Wants(s', s'.threads[|s.threads|]) <==> s.pos != Target(close);
  }

  lemma {:induction false} NothingPendingStays(s: State, steps: seq<Step>, s': State)
    requires Inv(s) && !Pending(s) && Run(s, steps, s') && NoSpawn(steps)
    ensures s'.pos == s.pos && !Pending(s')
    decreases |steps|
  {
    if steps == [] {
    } else {
      NothingPendingStep(s, steps[0].t);
      InvNext(s, steps[0]);
      NothingPendingStays(Next(s, steps[0]), steps[1..], s');
    }
  }

  /** The threads under way can bring the switch between its positions exactly if something is pending. */
  lemma MovesExactly(s: State)
    requires Inv(s)
    ensures Pending(s) <==> exists steps, s' :: NoSpawn(steps) && Run(s, steps, s') && s'.pos == Intermediate
  {
    if Pending(s) {
      var steps, s' := PendingMoves(s);
    } else {
      forall steps, s' | NoSpawn(steps) && Run(s, steps, s') ensures s'.pos != Intermediate {
        NothingPendingStays(s, steps, s');
      }
    }
  }
}
