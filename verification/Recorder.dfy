/** The disturbance recorder (`LNs/RDRE.c`): ring buffers filled by one thread, and a record
    written some time after a trip. */
module Recorder {
  import opened Mms

  const TRIP_RECORD_DELAY_MS := 1500
  const RDRE_MAX_SAMPLES: nat := 2 * 50 * 80
  const RDRE_SAMPLE_RATE := 4000

  // ---- The ring buffers ----

  /** The values of all analog and digital channels at one instant. */
  datatype Sample = Sample(analog: seq<int>, digital: seq<int>)

  /** One line of the data file: number, microseconds, channels. */
  datatype Row = Row(nr: nat, time: nat, sample: Sample)

  /** Where row i of a record is found when n samples preceded the one just stored. */
  lemma RowPlace(n: nat, i: nat)
    requires n + 1 + i >= RDRE_MAX_SAMPLES
    ensures (n + 1 - RDRE_MAX_SAMPLES + i) % RDRE_MAX_SAMPLES == (n % RDRE_MAX_SAMPLES + 1 + i) % RDRE_MAX_SAMPLES
  {
  }

  lemma NextPlace(n: nat)
    ensures (n + 1) % RDRE_MAX_SAMPLES ==
            if n % RDRE_MAX_SAMPLES + 1 >= RDRE_MAX_SAMPLES then 0 else n % RDRE_MAX_SAMPLES + 1
  {
  }

  /** The rows are the last RDRE_MAX_SAMPLES samples of a history, oldest first, 250 microseconds
      apart; rows from before its first sample are left over memory. */
  ghost predicate IsRecord(rows: seq<Row>, h: seq<Sample>) {
    && |rows| == RDRE_MAX_SAMPLES
    && (forall i :: 0 <= i < |rows| ==> rows[i].nr == i && rows[i].time == 250 * i)
    && (forall i :: 0 <= i < |rows| && |h| - RDRE_MAX_SAMPLES + i >= 0 ==>
                      rows[i].sample == h[|h| - RDRE_MAX_SAMPLES + i])
  }

  // ---- The start stamp ----

  datatype Stamp = Stamp(seconds: int, milliseconds: int) {
    function Ms(): int { seconds * 1000 + milliseconds }
  }

  /** The record starts half a second before the trip: two seconds of samples less the delay. */
  function StartTime(tv_sec: int, tv_nsec: int): (start: Stamp)
    requires 0 <= tv_nsec < 1_000_000_000
    ensures start.Ms() == Stamp(tv_sec, tv_nsec / 1_000_000).Ms() - 500
    ensures 0 <= start.milliseconds < 1000
  {
    var delta_ms := (RDRE_MAX_SAMPLES / RDRE_SAMPLE_RATE) * 1000 - TRIP_RECORD_DELAY_MS;
    var seconds := tv_sec - delta_ms / 1000;
    var millis := tv_nsec / 1_000_000 - delta_ms % 1000;
    if millis < 0 then Stamp(seconds - 1, millis + 1000) else Stamp(seconds, millis)
  }

  // ---- Triggers ----

  /** The recorder thread clears `recording` twice, at the end of write_comtrade and again on
      return; `clearing` is the moment in between. `delays` counts the sleeping delay threads.
      The last three fields count triggers accepted, records handed to write_comtrade and triggers
      overwritten. */
  datatype State = State(recording: int, clearing: bool, delays: nat, accepted: nat, written: nat, lost: nat)

  const INITIAL := State(0, false, 0, 0, 0, 0)

  datatype Event = Trip | DelayEnds | Write | ClearAgain

  predicate Enabled(s: State, e: Event) {
    match e
    case Trip => true
    case DelayEnds => s.delays > 0
    case Write => s.recording == 2 && !s.clearing
    case ClearAgain => s.clearing
  }

  function Next(s: State, e: Event): State
    requires Enabled(s, e)
  {
    match e
    case Trip =>
      if s.recording == 0 then s.(recording := 1, delays := s.delays + 1, accepted := s.accepted + 1) else s
    case DelayEnds =>
      var s1 := s.(delays := s.delays - 1);
      if s1.recording != 1 then s1 else s1.(recording := 2)
    case Write => s.(recording := 0, clearing := true, written := s.written + 1)
    case ClearAgain =>
      s.(recording := 0, clearing := false, lost := s.lost + (if s.recording != 0 then 1 else 0))
  }

  class RDRE {
    const analogbuffers: array2<int>
    const digitalbuffers: array2<int>
    var sampleIndex: nat
    var recording: int
    var tripTime: (int, int)
    /** The delay threads started and not yet finished. */
    var delays: nat
    /** Every sample taken so far. */
    ghost var taken: seq<Sample>
    ghost var clearing: bool
    ghost var accepted: nat
    ghost var written: nat
    ghost var lost: nat

    ghost function Value(): State
      reads this
    {
      State(recording, clearing, delays, accepted, written, lost)
    }

    ghost predicate Fits(s: Sample) {
      |s.analog| == analogbuffers.Length0 && |s.digital| == digitalbuffers.Length0
    }

    ghost predicate Stores(place: nat, s: Sample)
      requires analogbuffers.Length1 == digitalbuffers.Length1 == RDRE_MAX_SAMPLES && place < RDRE_MAX_SAMPLES
      reads analogbuffers, digitalbuffers
    {
      && Fits(s)
      && (forall c :: 0 <= c < |s.analog| ==> analogbuffers[c, place] == s.analog[c])
      && (forall c :: 0 <= c < |s.digital| ==> digitalbuffers[c, place] == s.digital[c])
    }

    /** The buffers hold the last RDRE_MAX_SAMPLES of a history; older places are whatever they were. */
    ghost predicate Holds(history: seq<Sample>)
      requires analogbuffers.Length1 == digitalbuffers.Length1 == RDRE_MAX_SAMPLES
      reads analogbuffers, digitalbuffers
    {
      forall k :: 0 <= k < |history| && |history| - RDRE_MAX_SAMPLES <= k ==> Stores(k % RDRE_MAX_SAMPLES, history[k])
    }

    ghost predicate Valid()
      reads this, analogbuffers, digitalbuffers
    {
      && analogbuffers.Length1 == digitalbuffers.Length1 == RDRE_MAX_SAMPLES
      && analogbuffers != digitalbuffers
      && sampleIndex == |taken| % RDRE_MAX_SAMPLES
      && Holds(taken)
    }

    constructor (analog: nat, digital: nat)
      ensures Valid() && fresh(analogbuffers) && fresh(digitalbuffers)
      ensures analogbuffers.Length0 == analog && digitalbuffers.Length0 == digital
      ensures taken == [] && Value() == INITIAL
    {
      analogbuffers, digitalbuffers := new int[analog, RDRE_MAX_SAMPLES], new int[digital, RDRE_MAX_SAMPLES];
      sampleIndex, recording, taken, tripTime := 0, 0, [], (0, 0);
      delays, clearing, accepted, written, lost := 0, false, 0, 0, 0;
    }

    /** RDRE_callback_trip: the time is taken and a delay thread started only if nothing is under way. */
    method CallbackTrip(now: (int, int))
      modifies this`recording, this`delays, this`tripTime, this`accepted
      ensures Value() == Next(old(Value()), Trip)
      ensures tripTime == if old(recording) == 0 then now else old(tripTime)
    {
      if recording == 0 {
        recording := 1;
        tripTime := now;
        delays := delays + 1;
        accepted := accepted + 1;
      }
    }

    /** What recorder_delay does when it wakes. */
    method RecorderDelay()
      requires delays > 0
      modifies this`recording, this`delays
      ensures Value() == Next(old(Value()), DelayEnds)
    {
      delays := delays - 1;
      if recording != 1 {
        return;
      }
      recording := 2;
    }

    /** The first half of the loop of recorder_callback. */
    method Store(s: Sample)
      requires Valid() && Fits(s)
      modifies analogbuffers, digitalbuffers
      ensures Holds(taken + [s])
    {
      WriteColumn(analogbuffers, sampleIndex, s.analog);
      WriteColumn(digitalbuffers, sampleIndex, s.digital);
      ghost var h := taken + [s];
      forall k | 0 <= k < |h| && |h| - RDRE_MAX_SAMPLES <= k
        ensures Stores(k % RDRE_MAX_SAMPLES, h[k])
      {
        if k < |taken| {
          assert old(Stores(k % RDRE_MAX_SAMPLES, taken[k]));
          assert k % RDRE_MAX_SAMPLES != sampleIndex;
        }
      }
    }

    static method WriteColumn(buffers: array2<int>, place: nat, values: seq<int>)
      requires place < buffers.Length1 && |values| == buffers.Length0
      modifies buffers
      ensures forall c :: 0 <= c < |values| ==> buffers[c, place] == values[c]
      ensures forall c, j :: 0 <= c < |values| && 0 <= j < buffers.Length1 && j != place ==>
          buffers[c, j] == old(buffers[c, j])
    {
      for c := 0 to buffers.Length0
        invariant forall d :: 0 <= d < c ==> buffers[d, place] == values[d]
        invariant forall d, j :: 0 <= d < |values| && 0 <= j < buffers.Length1 && j != place ==>
            buffers[d, j] == old(buffers[d, j])
      {
        buffers[c, place] := values[c];
      }
    }

    static lemma Wraps(a: nat, i: nat)
      ensures (a % RDRE_MAX_SAMPLES + i) % RDRE_MAX_SAMPLES == (a + i) % RDRE_MAX_SAMPLES
    {
    }

    method ReadSample(place: nat) returns (sample: Sample)
      requires analogbuffers.Length1 == digitalbuffers.Length1 == RDRE_MAX_SAMPLES && place < RDRE_MAX_SAMPLES
      ensures Stores(place, sample)
    {
      var analog := ReadColumn(analogbuffers, place);
      var digital := ReadColumn(digitalbuffers, place);
      sample := Sample(analog, digital);
    }

    /** The rows of the data file. */
    method WriteRows() returns (rows: seq<Row>)
      requires analogbuffers.Length1 == digitalbuffers.Length1 == RDRE_MAX_SAMPLES
      ensures |rows| == RDRE_MAX_SAMPLES
      ensures forall i :: 0 <= i < |rows| ==> rows[i].nr == i && rows[i].time == 250 * i
      ensures forall i :: 0 <= i < |rows| ==> Stores((sampleIndex + 1 + i) % RDRE_MAX_SAMPLES, rows[i].sample)
    {
      rows := [];
      var time := 0;
      var bufindex := (sampleIndex + 1) % RDRE_MAX_SAMPLES;
      for i := 0 to RDRE_MAX_SAMPLES
        invariant |rows| == i && time == 250 * i
        invariant forall j :: 0 <= j < i ==> rows[j].nr == j && rows[j].time == 250 * j
        invariant forall j :: 0 <= j < i ==> Stores((sampleIndex + 1 + j) % RDRE_MAX_SAMPLES, rows[j].sample)
      {
        Wraps(sampleIndex + 1, i);
        var sample := ReadSample((bufindex + i) % RDRE_MAX_SAMPLES);
        rows := rows + [Row(i, time, sample)];
        time := time + 250;
      }
    }

    static method ReadColumn(buffers: array2<int>, place: nat) returns (values: seq<int>)
      requires place < buffers.Length1
      ensures |values| == buffers.Length0
      ensures forall c :: 0 <= c < |values| ==> values[c] == buffers[c, place]
    {
      values := [];
      for c := 0 to buffers.Length0
        invariant |values| == c
        invariant forall d :: 0 <= d < c ==> values[d] == buffers[d, place]
      {
        values := values + [buffers[c, place]];
      }
    }

    lemma StoredIsUnique(place: nat, s: Sample, t: Sample)
      requires analogbuffers.Length1 == digitalbuffers.Length1 == RDRE_MAX_SAMPLES && place < RDRE_MAX_SAMPLES
      requires Stores(place, s) && Stores(place, t)
      ensures s == t
    {
      assert s.analog == t.analog && s.digital == t.digital;
    }

    /** write_comtrade, called when the last sample of a history h has just been stored; a file that
        cannot be opened ends it. The two stamps are the start of the record and the trip. */
    method WriteComtrade(datOpens: bool, cfgOpens: bool, ghost h: seq<Sample>)
      returns (rows: Option<seq<Row>>, stamps: Option<(Stamp, Stamp)>)
      requires analogbuffers.Length1 == digitalbuffers.Length1 == RDRE_MAX_SAMPLES
      requires h != [] && sampleIndex == (|h| - 1) % RDRE_MAX_SAMPLES && Holds(h)
      requires recording == 2 && !clearing && 0 <= tripTime.1 < 1_000_000_000
      modifies this`recording, this`clearing, this`written
      ensures Value() == Next(old(Value()), Write)
      ensures rows.Some? <==> datOpens
      ensures rows.Some? ==> IsRecord(rows.value, h)
      ensures stamps == if datOpens && cfgOpens
                        then Some((StartTime(tripTime.0, tripTime.1), Stamp(tripTime.0, tripTime.1 / 1_000_000)))
                        else None
    {
      clearing, written := true, written + 1;
      var triptime := Stamp(tripTime.0, tripTime.1 / 1_000_000);
      var starttime := StartTime(tripTime.0, tripTime.1);
      if !datOpens {
        recording := 0;
        return None, None;
      }
      var lines := WriteRows();
      forall i | 0 <= i < RDRE_MAX_SAMPLES && |h| - RDRE_MAX_SAMPLES + i >= 0
        ensures lines[i].sample == h[|h| - RDRE_MAX_SAMPLES + i]
      {
        RowPlace(|h| - 1, i);
        StoredIsUnique((sampleIndex + 1 + i) % RDRE_MAX_SAMPLES, lines[i].sample, h[|h| - RDRE_MAX_SAMPLES + i]);
      }
      rows, stamps := Some(lines), None;
      if cfgOpens {
        stamps := Some((starttime, triptime));
      }
      recording := 0;
    }

    /** One turn of recorder_callback, with no trip between its two clearings. */
    method Turn(s: Sample, datOpens: bool, cfgOpens: bool)
      returns (rows: Option<seq<Row>>, stamps: Option<(Stamp, Stamp)>)
      requires Valid() && Fits(s) && !clearing && 0 <= tripTime.1 < 1_000_000_000
      modifies this, analogbuffers, digitalbuffers
      ensures Valid() && taken == old(taken) + [s] && tripTime == old(tripTime)
      ensures Value() == if old(recording) == 2 then Next(Next(old(Value()), Write), ClearAgain) else old(Value())
      ensures rows.Some? <==> old(recording) == 2 && datOpens
      ensures rows.Some? ==> IsRecord(rows.value, taken)
      ensures stamps == if old(recording) == 2 && datOpens && cfgOpens
                        then Some((StartTime(tripTime.0, tripTime.1), Stamp(tripTime.0, tripTime.1 / 1_000_000)))
                        else None
    {
      Store(s);
      rows, stamps := None, None;
      ghost var h := taken + [s];
      if recording == 2 {
        rows, stamps := WriteComtrade(datOpens, cfgOpens, h);
        ClearRecording();
      }
      taken := h;
      NextPlace(|h| - 1);
      sampleIndex := sampleIndex + 1;
      if sampleIndex >= RDRE_MAX_SAMPLES {
        sampleIndex := 0;
      }
    }

    /** The second clearing, on return from write_comtrade. */
    method ClearRecording()
      requires clearing
      modifies this`recording, this`clearing, this`lost
      ensures Value() == Next(old(Value()), ClearAgain)
    {
      lost := lost + if recording != 0 then 1 else 0;
      clearing := false;
      recording := 0;
    }
  }

  // ---- Triggers over runs ----

  ghost predicate Run(s: State, events: seq<Event>, s': State)
    decreases |events|
  {
    if events == [] then s' == s
    else Enabled(s, events[0]) && Run(Next(s, events[0]), events[1..], s')
  }

  ghost predicate Inv(s: State) {
    && 0 <= s.recording <= 2
    && (s.recording == 1 ==> s.delays > 0)
    && s.accepted == s.written + s.lost + (if s.recording != 0 then 1 else 0)
  }

  /** From an accepted trip to its record: nothing is written before the delay ends, then one record is,
      and the recorder waits for the next trip. */
  lemma OneRecord(s: State)
    requires s.recording == 0 && !s.clearing
    ensures var s1 := Next(s, Trip);
            && s1.accepted == s.accepted + 1 && s1.delays == s.delays + 1 && !Enabled(s1, Write)
            && Enabled(s1, DelayEnds)
            && var s2 := Next(s1, DelayEnds);
               && s2.delays == s.delays && s2.written == s.written && Enabled(s2, Write)
               && var s3 := Next(s2, Write);
                  && s3.written == s.written + 1 && Enabled(s3, ClearAgain)
                  && Next(s3, ClearAgain) == s.(accepted := s.accepted + 1, written := s.written + 1)
  {
  }

  /** A trip while something is under way changes nothing; a delay that ends late does not either. */
  lemma LateEventsChangeNothing(s: State)
    ensures s.recording != 0 ==> Next(s, Trip) == s
    ensures s.recording != 1 && Enabled(s, DelayEnds) ==> Next(s, DelayEnds) == s.(delays := s.delays - 1)
  {
  }

  /** How many stretches between two clearings a trip falls into; `tripped` says that one has
      already fallen into the present stretch. */
  function Overtaken(events: seq<Event>, clearing: bool, tripped: bool): nat {
    if events == [] then 0
    else
      match events[0]
      case Trip => Overtaken(events[1..], clearing, clearing)
      case DelayEnds => Overtaken(events[1..], clearing, tripped)
      case Write => Overtaken(events[1..], true, false)
      case ClearAgain => (if tripped then 1 else 0) + Overtaken(events[1..], false, false)
  }

  /** A recorder waiting for its delay never waits in vain, and exactly the triggers are lost that
      arrive between the two clearings, one for each time that happens. */
  lemma {:induction false} TriggersAccounted(s: State, events: seq<Event>, s': State)
    requires Inv(s) && Run(s, events, s')
    ensures Inv(s')
    ensures s'.lost == s.lost + Overtaken(events, s.clearing, s.clearing && s.recording != 0)
    decreases |events|
  {
    if events == [] {
    } else {
      TriggersAccounted(Next(s, events[0]), events[1..], s');
    }
  }

  ghost predicate NoTripWhileClearing(s: State, events: seq<Event>, s': State)
    requires Run(s, events, s')
    decreases |events|
  {
    events == [] || ((s.clearing ==> events[0] != Trip) && NoTripWhileClearing(Next(s, events[0]), events[1..], s'))
  }

  lemma {:induction false} LostNeverShrinks(s: State, events: seq<Event>, s': State)
    requires Run(s, events, s')
    ensures s'.lost >= s.lost
    ensures s.clearing && s.recording != 0 && !s'.clearing ==> s'.lost > s.lost
    decreases |events|
  {
    if events == [] {
    } else {
      LostNeverShrinks(Next(s, events[0]), events[1..], s');
    }
  }

  /** Over a run that ends outside that moment, nothing is lost exactly if no trip fell into it. */
  lemma {:induction false} NothingLost(s: State, events: seq<Event>, s': State)
    requires Inv(s) && (s.clearing ==> s.recording == 0)
    requires Run(s, events, s')
    ensures NoTripWhileClearing(s, events, s') ==> s'.lost == s.lost && (s'.clearing ==> s'.recording == 0)
    ensures !s'.clearing ==> (s'.lost == s.lost <==> NoTripWhileClearing(s, events, s'))
    decreases |events|
  {
    if events == [] {
    } else {
      var s1 := Next(s, events[0]);
      if s.clearing && events[0] == Trip {
        LostNeverShrinks(s1, events[1..], s');
      } else {
        NothingLost(s1, events[1..], s');
      }
    }
  }

  lemma RunCons(s: State, e: Event, events: seq<Event>, s': State) returns (all: seq<Event>)
    requires Enabled(s, e) && Run(Next(s, e), events, s')
    ensures all == [e] + events && Run(s, all, s')
  {
    all := [e] + events;
    assert all[1..] == events;
  }

  /** A trip in that moment is accepted and then overwritten. */
  lemma TriggerCanBeLost()
    ensures exists events, s :: Run(INITIAL, events, s) && s.accepted == 2 && s.written == 1 && s.recording == 0
  {
    var s1 := Next(INITIAL, Trip);
    var s2 := Next(s1, DelayEnds);
    var s3 := Next(s2, Write);
    var s4 := Next(s3, Trip);
    var s5 := Next(s4, ClearAgain);
    var e5 := RunCons(s4, ClearAgain, [], s5);
    var e4 := RunCons(s3, Trip, e5, s5);
    var e3 := RunCons(s2, Write, e4, s5);
    var e2 := RunCons(s1, DelayEnds, e3, s5);
    var e1 := RunCons(INITIAL, Trip, e2, s5);
  }
}
