/** The automatic recloser (`LNs/RREC.c`): two input callbacks and three kinds of detached
    timer threads, which may fire in any order and however late. */
module Recloser {
  import opened Mms

  const RREC_MAX_TripCnt := 4

  /** The thread started on a trip, on the breaker opening, on the breaker closing. */
  datatype Timer = Timeout | Reclose | Reenable

  /** `pos` is the breaker position last received, `pending` the threads still asleep and
      `recloses` how often OpCls was published since the recloser was last armed. */
  datatype State = State(
    tripstate: int,
    tripCount: int,
    pos: Option<Dbpos>,
    pending: multiset<Timer>,
    recloses: nat)

  const INITIAL := State(0, 0, None, multiset{}, 0)

  datatype Event = TripReceived(trip: bool) | PositionReceived(p: Dbpos) | Fire(timer: Timer)

  predicate Enabled(s: State, e: Event) {
    e.Fire? ==> e.timer in s.pending
  }

  function Start(s: State, t: Timer): State {
    s.(pending := s.pending + multiset{t})
  }

  function OnTrip(s: State, trip: bool): State {
    if trip && s.tripstate == 0 then Start(s.(tripstate := 1), Timeout) else s
  }

  function OnPosition(s: State, p: Dbpos): State {
    var s1 := s.(pos := Some(p));
    var s2 :=
      if s1.tripstate == 1 && p == Off then
        if s1.tripCount < RREC_MAX_TripCnt then Start(s1.(tripstate := 2), Reclose)
        else s1.(tripCount := RREC_MAX_TripCnt + 1, tripstate := 0)
      else s1;
    if (s2.tripstate > 0 || s2.tripCount > 0) && p == On then Start(s2, Reenable) else s2
  }

  function OnTimer(s: State, t: Timer): State {
    match t
    case Timeout => if s.tripstate == 1 then s.(tripstate := 0) else s
    case Reclose =>
      if s.pos == Some(Off) && s.tripstate == 2
      then s.(tripCount := s.tripCount + 1, tripstate := 0, recloses := s.recloses + 1)
      else s
    case Reenable =>
      if s.pos == Some(On) && (s.tripstate > 0 || s.tripCount > 0)
      then s.(tripstate := 0, tripCount := 0, recloses := 0)
      else s
  }

  function Next(s: State, e: Event): State
    requires Enabled(s, e)
  {
    match e
    case TripReceived(trip) => OnTrip(s, trip)
    case PositionReceived(p) => OnPosition(s, p)
    case Fire(t) => OnTimer(s.(pending := s.pending - multiset{t}), t)
  }

  ghost predicate Run(s: State, events: seq<Event>, s': State)
    decreases |events|
  {
    if events == [] then s' == s
    else Enabled(s, events[0]) && Run(Next(s, events[0]), events[1..], s')
  }

  // ---- The C code ----

  /** `threads` stands for Thread_create: the threads started and not yet finished. */
  class RREC {
    var tripstate: int
    var tripCount: int
    var xcbrValue: Option<Dbpos>
    var threads: multiset<Timer>
    ghost var recloses: nat

    ghost function Value(): State
      reads this
    {
      State(tripstate, tripCount, xcbrValue, threads, recloses)
    }

    constructor ()
      ensures Value() == INITIAL
    {
      tripstate, tripCount := 0, 0;
      xcbrValue, threads := None, multiset{};
      recloses := 0;
    }

    method InputCallback(state: bool)
      modifies this
      ensures Value() == Next(old(Value()), TripReceived(state))
    {
      if state && tripstate == 0 {
        tripstate := 1;
        threads := threads + multiset{Timeout};
      }
    }

    method XcbrCallback(value: Dbpos)
      modifies this
      ensures Value() == Next(old(Value()), PositionReceived(value))
    {
      xcbrValue := Some(value);
      if tripstate == 1 && value == Off {
        tripstate := 2;
        if tripCount < RREC_MAX_TripCnt {
          threads := threads + multiset{Reclose};
        } else {
          tripCount := RREC_MAX_TripCnt + 1;
          tripstate := 0;
        }
      }
      if (tripstate > 0 || tripCount > 0) && value == On {
        threads := threads + multiset{Reenable};
      }
    }

    method RecloserTimer() returns (published: bool)
      requires Reclose in threads
      modifies this
      ensures Value() == Next(old(Value()), Fire(Reclose))
      ensures published <==> recloses == old(recloses) + 1
    {
      threads := threads - multiset{Reclose};
      published := false;
      if xcbrValue != None {
        if tripstate == 2 && xcbrValue.value == Off {
          published := true;
          recloses := recloses + 1;
          tripCount := tripCount + 1;
          tripstate := 0;
        }
      }
    }

    method ReenableTimer()
      requires Reenable in threads
      modifies this
      ensures Value() == Next(old(Value()), Fire(Reenable))
    {
      ghost var woken := Value().(pending := threads - multiset{Reenable});
      threads := threads - multiset{Reenable};
      if xcbrValue != None {
        if (tripstate > 0 || tripCount > 0) && xcbrValue.value == On {
          tripstate := 0;
          tripCount := 0;
          recloses := 0;
        }
      }
      assert Value() == OnTimer(woken, Reenable);
    }

    method TimeoutTimer()
      requires Timeout in threads
      modifies this
      ensures Value() == Next(old(Value()), Fire(Timeout))
    {
      threads := threads - multiset{Timeout};
      if tripstate == 1 {
        tripstate := 0;
      }
    }
  }

  // ---- Safety over every run ----

  function Min(a: int, b: int): int { if a < b then a else b }

  ghost predicate Safe(s: State) {
    && 0 <= s.tripstate <= 2
    && 0 <= s.tripCount <= RREC_MAX_TripCnt + 1
    && (s.tripstate == 2 ==> s.tripCount < RREC_MAX_TripCnt)
    && s.recloses == Min(s.tripCount, RREC_MAX_TripCnt)
    && (s.tripstate == 1 ==> Timeout in s.pending)
  }

  lemma SafeNext(s: State, e: Event)
    requires Safe(s) && Enabled(s, e)
    ensures Safe(Next(s, e))
  {
  }

  /** From power-up, and whatever timers are left over: at most four recloses between re-arms,
      and waiting for the breaker (state 1) always has its timeout running. */
  lemma {:induction false} SafeRun(s: State, events: seq<Event>, s': State)
    requires Safe(s) && Run(s, events, s')
    ensures Safe(s')
    decreases |events|
  {
    if events == [] {
    } else {
      SafeNext(s, events[0]);
      SafeRun(Next(s, events[0]), events[1..], s');
    }
  }

  /** Firing a re-arm timer while the breaker is closed is the only way back. */
  predicate Rearms(s: State, e: Event) {
    e == Fire(Reenable) && s.pos == Some(On)
  }

  ghost predicate NeverRearms(s: State, events: seq<Event>, s': State)
    requires Run(s, events, s')
    decreases |events|
  {
    events == [] || (!Rearms(s, events[0]) && NeverRearms(Next(s, events[0]), events[1..], s'))
  }

  /** After the fourth reclose nothing closes the breaker again until a re-arm. */
  lemma {:induction false} LockoutHolds(s: State, events: seq<Event>, s': State)
    requires Safe(s) && s.tripCount >= RREC_MAX_TripCnt
    requires Run(s, events, s') && NeverRearms(s, events, s')
    ensures s'.tripCount >= s.tripCount && s'.recloses == s.recloses == RREC_MAX_TripCnt
    decreases |events|
  {
    if events == [] {
    } else {
      SafeNext(s, events[0]);
      LockoutHolds(Next(s, events[0]), events[1..], s');
    }
  }

  // ---- One cycle ----

  /** A trip, the breaker opening, the reclose timer: one more reclose, and the recloser waits for the
      next trip. After four recloses without a re-arm the breaker stays open. */
  lemma OneCycle(s: State)
    requires Safe(s) && s.tripstate == 0
    ensures var s1 := Next(s, TripReceived(true));
            var s2 := Next(s1, PositionReceived(Off));
            && s1 == s.(tripstate := 1, pending := s.pending + multiset{Timeout})
            && (s.tripCount < 4 ==>
                  && Enabled(s2, Fire(Reclose))
                  && var s3 := Next(s2, Fire(Reclose));
                     && s3.recloses == s.recloses + 1 && s3.tripCount == s.tripCount + 1 && s3.tripstate == 0
                     && s3.pending == s1.pending && s3.pos == Some(Off))
            && (s.tripCount >= 4 ==>
                  && s2.tripCount == 5 && s2.tripstate == 0 && s2.recloses == s.recloses && s2.pending == s1.pending)
  {
    var s2 := Next(Next(s, TripReceived(true)), PositionReceived(Off));
    if s.tripCount < 4 {
      assert s2.pending - multiset{Reclose} == s.pending + multiset{Timeout};
    }
  }

  /** A trip that is not followed by the breaker opening is forgotten. */
  lemma TripTimesOut(s: State)
    requires s.tripstate == 0
    ensures var s1 := Next(s, TripReceived(true));
            Enabled(s1, Fire(Timeout)) && Next(s1, Fire(Timeout)) == s
  {
    assert s.pending + multiset{Timeout} - multiset{Timeout} == s.pending;
  }

  /** The timer thread an event starts. */
  function Started(s: State, e: Event): Option<Timer> {
    match e
    case TripReceived(trip) => if trip && s.tripstate == 0 then Some(Timeout) else None
    case PositionReceived(p) =>
      if p == Off && s.tripstate == 1 && s.tripCount < 4 then Some(Reclose)
      else if p == On && (s.tripstate > 0 || s.tripCount > 0) then Some(Reenable)
      else None
    case Fire(_) => None
  }

  /** No event starts another, and a timer that fires is gone. */
  lemma StartsExactly(s: State, e: Event)
    requires Enabled(s, e)
    ensures var left := if e.Fire? then s.pending - multiset{e.timer} else s.pending;
            Next(s, e).pending == match Started(s, e) case Some(t) => left + multiset{t} case None => left
    ensures Next(s, e).pos == if e.PositionReceived? then Some(e.p) else s.pos
  {
    match e {
      case TripReceived(_) =>
      case PositionReceived(p) => PositionStarts(s, p);
      case Fire(_) =>
    }
  }

  lemma PositionStarts(s: State, p: Dbpos)
    ensures OnPosition(s, p).pending == match Started(s, PositionReceived(p)) case Some(t) => s.pending + multiset{t}
                                                                             case None => s.pending
  {
  }

  /** The events that move a cycle on: a trip in state 0, the breaker opening in state 1, and the timer
      whose time has come. */
  predicate Counts(s: State, e: Event) {
    match e
    case TripReceived(trip) => trip && s.tripstate == 0
    case PositionReceived(p) => p == Off && s.tripstate == 1
    case Fire(timer) =>
      || (timer == Timeout && s.tripstate == 1)
      || (timer == Reclose && s.tripstate == 2 && s.pos == Some(Off))
      || (timer == Reenable && (s.tripstate > 0 || s.tripCount > 0) && s.pos == Some(On))
  }

  /** Exactly these change state or counts. */
  lemma CountsExactly(s: State, e: Event)
    requires Safe(s) && Enabled(s, e)
    ensures Counts(s, e) <==>
            var s' := Next(s, e);
            s'.tripstate != s.tripstate || s'.tripCount != s.tripCount || s'.recloses != s.recloses
  {
  }

  /** Once the breaker is closed again, and stays so, the recloser is armed anew. */
  lemma ClosedRearms(s: State)
    requires s.tripstate > 0 || s.tripCount > 0
    ensures var s1 := Next(s, PositionReceived(On));
            && Enabled(s1, Fire(Reenable))
            && Next(s1, Fire(Reenable)) == State(0, 0, Some(On), s.pending, 0)
  {
    assert s.pending + multiset{Reenable} - multiset{Reenable} == s.pending;
  }

  // ---- State 2 can stick ----

  /** Waiting to reclose with no timer left that could do it. */
  predicate Stuck(s: State) {
    s.tripstate == 2 && Reclose !in s.pending && Reenable !in s.pending
  }

  /** A timer of the two that could still leave state 2 fires in vain. */
  predicate FiresInVain(s: State, e: Event) {
    && s.tripstate == 2
    && ((e == Fire(Reclose) && s.pos != Some(Off)) || (e == Fire(Reenable) && s.pos != Some(On)))
  }

  /** It sticks exactly when the last such timer does. */
  lemma StuckExactly(s: State, e: Event)
    requires Safe(s) && Enabled(s, e) && !Stuck(s)
    ensures Stuck(Next(s, e)) <==> FiresInVain(s, e) && s.pending[Reclose] + s.pending[Reenable] == 1
  {
    if e == Fire(Reclose) {
      assert s.pending[Reclose] > 0;
    } else if e == Fire(Reenable) {
      assert s.pending[Reenable] > 0;
    }
  }

  /** The last such timer fires in vain somewhere on a run. */
  ghost predicate LastFiresInVain(s: State, events: seq<Event>, s': State)
    requires Run(s, events, s')
    decreases |events|
  {
    events != [] &&
    (|| (FiresInVain(s, events[0]) && s.pending[Reclose] + s.pending[Reenable] == 1)
     || LastFiresInVain(Next(s, events[0]), events[1..], s'))
  }

  ghost predicate SticksOn(s: State, events: seq<Event>, s': State)
    requires Run(s, events, s')
    decreases |events|
  {
    Stuck(s) || (events != [] && SticksOn(Next(s, events[0]), events[1..], s'))
  }

  /** Over whole runs: stuck somewhere exactly if the last timer fires in vain somewhere. */
  lemma {:induction false} SticksExactly(s: State, events: seq<Event>, s': State)
    requires Safe(s) && !Stuck(s) && Run(s, events, s')
    ensures SticksOn(s, events, s') <==> LastFiresInVain(s, events, s')
    decreases |events|
  {
    if events == [] {
    } else {
      var s1 := Next(s, events[0]);
      SafeNext(s, events[0]);
      StuckExactly(s, events[0]);
      if !Stuck(s1) {
        SticksExactly(s1, events[1..], s');
      }
    }
  }

  /** Every reclose timer that fires in state 2 finds the breaker open. */
  ghost predicate ReclosesInTime(s: State, events: seq<Event>, s': State)
    requires Run(s, events, s')
    decreases |events|
  {
    events == [] || ((s.tripstate == 2 && events[0] == Fire(Reclose) ==> s.pos == Some(Off))
                     && ReclosesInTime(Next(s, events[0]), events[1..], s'))
  }

  /** Then state 2 always has its reclose timer, and never sticks. */
  lemma {:induction false} InTimeNeverSticks(s: State, events: seq<Event>, s': State)
    requires Run(s, events, s') && ReclosesInTime(s, events, s')
    requires s.tripstate == 2 ==> Reclose in s.pending
    ensures !SticksOn(s, events, s') && (s'.tripstate == 2 ==> Reclose in s'.pending)
    decreases |events|
  {
    if events == [] {
    } else {
      InTimeNeverSticks(Next(s, events[0]), events[1..], s');
    }
  }

  /** Only a position ON leads out. */
  lemma UnstuckExactly(s: State, e: Event)
    requires Stuck(s) && Enabled(s, e)
    ensures !Stuck(Next(s, e)) <==> e == PositionReceived(On)
  {
  }

  /** A short closing and reopening of the breaker around the reclose timer leads there. */
  lemma StuckIsReachable()
    ensures exists events, s :: Run(INITIAL, events, s) && Stuck(s) && s.pos == Some(Off)
  {
    var s1 := Next(INITIAL, TripReceived(true));
    var s2 := Next(s1, PositionReceived(Off));
    var s3 := Next(s2, PositionReceived(On));
    var s4 := Next(s3, Fire(Reclose));
    var s5 := Next(s4, PositionReceived(Off));
    var s6 := Next(s5, Fire(Reenable));
    var e6 := RunCons(s5, Fire(Reenable), [], s6);
    var e5 := RunCons(s4, PositionReceived(Off), e6, s6);
    var e4 := RunCons(s3, Fire(Reclose), e5, s6);
    var e3 := RunCons(s2, PositionReceived(On), e4, s6);
    var e2 := RunCons(s1, PositionReceived(Off), e3, s6);
    var e1 := RunCons(INITIAL, TripReceived(true), e2, s6);
  }

  lemma RunCons(s: State, e: Event, events: seq<Event>, s': State) returns (all: seq<Event>)
    requires Enabled(s, e) && Run(Next(s, e), events, s')
    ensures all == [e] + events && Run(s, all, s')
  {
    all := [e] + events;
    assert all[1..] == events;
  }

  /** Once there, every trip is ignored and nothing recloses until the breaker reports ON. */
  lemma {:induction false} StuckStays(s: State, events: seq<Event>, s': State)
    requires Stuck(s) && Run(s, events, s')
    requires forall i :: 0 <= i < |events| ==> events[i] != PositionReceived(On)
    ensures Stuck(s') && s'.recloses == s.recloses && s'.tripCount == s.tripCount
    decreases |events|
  {
    if events == [] {
    } else {
      StuckStays(Next(s, events[0]), events[1..], s');
    }
  }
}
