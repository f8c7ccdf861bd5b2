/** The streaming transform while inputs are still without a value. Such an input is passed over, and
    the values present move up: channel i takes the value in place i among those present. A channel is
    published and cleared at the end of a window only if the last sample of the window has a value for
    it; otherwise it goes on collecting. */
module DftGaps {
  import opened Mms
  import opened Dft

  // ---- One sample with any number of values ----

  function Joined(n: Phasor, acc: Phasor, terms: seq<Phasor>, i: nat): Phasor {
    if i < |terms| then n.Add(acc.Add(terms[i])) else n
  }

  /** What the neutral holds after the other channels of a last sample were added to it. */
  function Gathered(s: State, terms: seq<Phasor>): Phasor {
    Joined(Joined(Joined(s.neutral, s.x0, terms, 0), s.x1, terms, 1), s.x2, terms, 2)
  }

  function Added(acc: Phasor, terms: seq<Phasor>, i: nat): Phasor {
    if i < |terms| then acc.Add(terms[i]) else acc
  }

  function Cleared(acc: Phasor, terms: seq<Phasor>, i: nat): Phasor {
    if i < |terms| then ZERO else acc
  }

  /** The phasors of the channels that have a value. */
  function Phasors(s: State, terms: seq<Phasor>): (r: seq<Phasor>)
    ensures |r| == if |terms| < 4 then |terms| else 4
  {
    (if |terms| > 0 then [s.x0.Add(terms[0])] else [])
    + (if |terms| > 1 then [s.x1.Add(terms[1])] else [])
    + (if |terms| > 2 then [s.x2.Add(terms[2])] else [])
    + (if |terms| > 3 then [Gathered(s, terms).Add(terms[3])] else [])
  }

  /** What one sample does to the accumulators, and what it publishes. */
  function Fed(s: State, terms: seq<Phasor>): (State, seq<Phasor>) {
    if s.index < WINDOW_SIZE - 1 then
      (State(Added(s.x0, terms, 0), Added(s.x1, terms, 1), Added(s.x2, terms, 2), Added(s.neutral, terms, 3),
             s.index), [])
    else
      (State(Cleared(s.x0, terms, 0), Cleared(s.x1, terms, 1), Cleared(s.x2, terms, 2),
             Cleared(Gathered(s, terms), terms, 3), s.index),
       Phasors(s, terms))
  }

  lemma FewChannels(s: State, terms: seq<Phasor>)
    requires s.Valid() && |terms| < 3
    ensures FeedAll(s, terms, 0) == Fed(s, terms)
  {
    if |terms| == 0 {
    } else if |terms| == 1 {
      var f0 := Feed(s, 0, terms[0]);
      assert FeedAll(f0.0, terms, 1) == (f0.0, []);
      assert FeedAll(s, terms, 0) == (f0.0, Listed(f0.1) + []);
      assert Listed(f0.1) + [] == if s.index < WINDOW_SIZE - 1 then [] else Phasors(s, terms);
    } else {
      var f0 := Feed(s, 0, terms[0]);
      var f1 := Feed(f0.0, 1, terms[1]);
      assert FeedAll(f1.0, terms, 2) == (f1.0, []);
      assert FeedAll(f0.0, terms, 1) == (f1.0, Listed(f1.1) + []);
      assert FeedAll(s, terms, 0) == (f1.0, Listed(f0.1) + (Listed(f1.1) + []));
      assert Listed(f0.1) + (Listed(f1.1) + []) == if s.index < WINDOW_SIZE - 1 then [] else Phasors(s, terms);
    }
  }

  lemma ThreeChannels(s: State, terms: seq<Phasor>)
    requires s.Valid() && |terms| == 3
    ensures FeedAll(s, terms, 0) == Fed(s, terms)
  {
    var f0 := Feed(s, 0, terms[0]);
    var f1 := Feed(f0.0, 1, terms[1]);
    var f2 := Feed(f1.0, 2, terms[2]);
    assert FeedAll(f2.0, terms, 3) == (f2.0, []);
    assert FeedAll(f1.0, terms, 2) == (f2.0, Listed(f2.1) + []);
    assert FeedAll(f0.0, terms, 1) == (f2.0, Listed(f1.1) + (Listed(f2.1) + []));
    assert FeedAll(s, terms, 0) == (f2.0, Listed(f0.1) + (Listed(f1.1) + (Listed(f2.1) + [])));
    if s.index < WINDOW_SIZE - 1 {
      assert Listed(f0.1) + (Listed(f1.1) + (Listed(f2.1) + [])) == [];
    } else {
      assert Listed(f0.1) + (Listed(f1.1) + (Listed(f2.1) + [])) == [f0.1.value, f1.1.value, f2.1.value];
      assert Phasors(s, terms) == [f0.1.value, f1.1.value, f2.1.value];
    }
  }

  lemma AnyChannels(s: State, terms: seq<Phasor>)
    requires s.Valid()
    ensures FeedAll(s, terms, 0) == Fed(s, terms)
  {
    if |terms| < 3 {
      FewChannels(s, terms);
    } else if |terms| == 3 {
      ThreeChannels(s, terms);
    } else {
      FourChannels(s, terms);
      if s.index == WINDOW_SIZE - 1 {
        var a, b, c := s.x0.Add(terms[0]), s.x1.Add(terms[1]), s.x2.Add(terms[2]);
        assert Gathered(s, terms) == s.neutral.Add(a).Add(b).Add(c);
        assert Phasors(s, terms) == [a, b, c, Gathered(s, terms).Add(terms[3])];
      }
    }
  }

  // ---- What a channel has collected ----

  /** The last sample of the stream ends a window. */
  predicate Closes(stream: seq<seq<real>>) {
    stream != [] && |stream| % WINDOW_SIZE == 0
  }

  function Last(stream: seq<seq<real>>): seq<real>
    requires stream != []
  {
    stream[|stream| - 1]
  }

  function Before(stream: seq<seq<real>>): seq<seq<real>>
    requires stream != []
  {
    stream[..|stream| - 1]
  }

  /** The sample from which on channel i has collected: the one behind the end of the last window
      whose last sample had a value for it. */
  function Since(stream: seq<seq<real>>, i: nat): (a: nat)
    ensures a <= |stream| && a % WINDOW_SIZE == 0
  {
    if stream == [] then 0
    else if Closes(stream) && i < |Last(stream)| then |stream|
    else Since(Before(stream), i)
  }

  /** The weighted sum of the values in place i, from sample a on. */
  function Own(t: Tables, stream: seq<seq<real>>, i: nat, a: nat): Phasor
    requires t.Valid() && a <= |stream|
    decreases |stream|
  {
    if |stream| == a then ZERO
    else
      var sum := Own(t, Before(stream), i, a);
      if i < |Last(stream)| then sum.Add(t.Term(Last(stream)[i], (|stream| - 1) % WINDOW_SIZE)) else sum
  }

  /** The phasor of channel i at the end of a window: what it collected since it was last published. */
  function PhasorOf(t: Tables, stream: seq<seq<real>>, i: nat): Phasor
    requires t.Valid() && stream != []
  {
    Own(t, stream, i, Since(Before(stream), i))
  }

  /** The phasors of the first three channels that a window end has a value for, added to n. */
  function WithPhasors(t: Tables, stream: seq<seq<real>>, n: Phasor): Phasor
    requires t.Valid() && stream != []
  {
    var n1 := if |Last(stream)| > 0 then n.Add(PhasorOf(t, stream, 0)) else n;
    var n2 := if |Last(stream)| > 1 then n1.Add(PhasorOf(t, stream, 1)) else n1;
    if |Last(stream)| > 2 then n2.Add(PhasorOf(t, stream, 2)) else n2
  }

  /** What the neutral has collected from sample a on: its own values, and at each window end the
      phasors published of the other channels. */
  function Collected(t: Tables, stream: seq<seq<real>>, a: nat): Phasor
    requires t.Valid() && a <= |stream|
    decreases |stream|
  {
    if |stream| == a then ZERO
    else
      var sum := Collected(t, Before(stream), a);
      var others := if Closes(stream) then WithPhasors(t, stream, sum) else sum;
      if 3 < |Last(stream)| then others.Add(t.Term(Last(stream)[3], (|stream| - 1) % WINDOW_SIZE)) else others
  }

  /** What the accumulators hold after a stream. */
  ghost predicate HoldsCollected(t: Tables, s: State, stream: seq<seq<real>>)
    requires t.Valid()
  {
    && s.index == |stream| % WINDOW_SIZE
    && s.x0 == Own(t, stream, 0, Since(stream, 0))
    && s.x1 == Own(t, stream, 1, Since(stream, 1))
    && s.x2 == Own(t, stream, 2, Since(stream, 2))
    && s.neutral == Collected(t, stream, Since(stream, 3))
  }

  /** One channel of one sample, inside a window or at its end. */
  lemma OwnStep(t: Tables, stream: seq<seq<real>>, i: nat, acc: Phasor, terms: seq<Phasor>)
    requires t.Valid() && stream != [] && acc == Own(t, Before(stream), i, Since(Before(stream), i))
    requires terms == Terms(t, (|stream| - 1) % WINDOW_SIZE, Last(stream))
    ensures PhasorOf(t, stream, i) == Added(acc, terms, i)
    ensures Own(t, stream, i, Since(stream, i)) == if Closes(stream) then Cleared(acc, terms, i)
        else Added(acc, terms, i)
  {
  }

  lemma CollectedStep(t: Tables, stream: seq<seq<real>>, s: State, terms: seq<Phasor>)
    requires t.Valid() && stream != [] && HoldsCollected(t, s, Before(stream))
    requires terms == Terms(t, (|stream| - 1) % WINDOW_SIZE, Last(stream))
    ensures !Closes(stream) ==> Collected(t, stream, Since(stream, 3)) == Added(s.neutral, terms, 3)
    ensures Closes(stream) ==> WithPhasors(t, stream, s.neutral) == Gathered(s, terms)
    ensures Closes(stream) ==> Collected(t, stream, Since(stream, 3)) == Cleared(Gathered(s, terms), terms, 3)
  {
    OwnStep(t, stream, 0, s.x0, terms);
    OwnStep(t, stream, 1, s.x1, terms);
    OwnStep(t, stream, 2, s.x2, terms);
  }

  lemma IndexStep(stream: seq<seq<real>>)
    requires stream != []
    ensures var index := (|stream| - 1) % WINDOW_SIZE;
            && (index == WINDOW_SIZE - 1 <==> Closes(stream))
            && |stream| % WINDOW_SIZE == (index + 1) % WINDOW_SIZE
  {
  }

  lemma CollectedNext(t: Tables, stream: seq<seq<real>>, s: State)
    requires t.Valid() && stream != [] && HoldsCollected(t, s, Before(stream))
    ensures HoldsCollected(t, Next(t, s, Last(stream)).0, stream)
  {
    var terms := Terms(t, s.index, Last(stream));
    AnyChannels(s, terms);
    IndexStep(stream);
    OwnStep(t, stream, 0, s.x0, terms);
    OwnStep(t, stream, 1, s.x1, terms);
    OwnStep(t, stream, 2, s.x2, terms);
    CollectedStep(t, stream, s, terms);
  }

  lemma {:induction false} CollectedRun(t: Tables, stream: seq<seq<real>>)
    requires t.Valid()
    ensures HoldsCollected(t, After(t, stream), stream)
  {
    if stream == [] {
    } else {
      CollectedRun(t, Before(stream));
      CollectedNext(t, stream, After(t, Before(stream)));
    }
  }

  lemma WindowEnd(t: Tables, stream: seq<seq<real>>, s: State)
    requires t.Valid() && Closes(stream) && HoldsCollected(t, s, Before(stream))
    ensures var terms := Terms(t, WINDOW_SIZE - 1, Last(stream));
            && Next(t, s, Last(stream)).1 == Phasors(s, terms)
            && (|terms| > 0 ==> PhasorOf(t, stream, 0) == s.x0.Add(terms[0]))
            && (|terms| > 1 ==> PhasorOf(t, stream, 1) == s.x1.Add(terms[1]))
            && (|terms| > 2 ==> PhasorOf(t, stream, 2) == s.x2.Add(terms[2]))
            && WithPhasors(t, stream, s.neutral) == Gathered(s, terms)
  {
    IndexStep(stream);
    var terms := Terms(t, WINDOW_SIZE - 1, Last(stream));
    AnyChannels(s, terms);
    OwnStep(t, stream, 0, s.x0, terms);
    OwnStep(t, stream, 1, s.x1, terms);
    OwnStep(t, stream, 2, s.x2, terms);
    CollectedStep(t, stream, s, terms);
  }

  /** For every stream, gaps or not: a phasor is published exactly at the end of a window and for
      exactly the channels its last sample has a value for. It is the sum of everything the channel
      got since it was last published; of the neutral, the phasors of the others included. */
  lemma PublishedWithGaps(t: Tables, stream: seq<seq<real>>)
    requires t.Valid() && stream != []
    ensures !Closes(stream) ==> Published(t, stream) == []
    ensures Closes(stream) ==>
      var p := Published(t, stream);
      && |p| == (if |Last(stream)| < 4 then |Last(stream)| else 4)
      && (forall i :: 0 <= i < |p| && i < 3 ==> p[i] == PhasorOf(t, stream, i))
      && (|p| == 4 ==> p[3] == Collected(t, stream, Since(Before(stream), 3)))
  {
    var s := After(t, Before(stream));
    CollectedRun(t, Before(stream));
    IndexStep(stream);
    if Closes(stream) {
      WindowEnd(t, stream, s);
    } else {
      AnyChannels(s, Terms(t, s.index, Last(stream)));
    }
  }

  // ---- Inputs that all get their values at once ----

  /** A sample without values counts as one of zeros. */
  function Filled(v: seq<real>): (r: seq<real>)
    ensures |v| >= 4 || v == [] ==> |r| >= 4
  {
    if v == [] then [0.0, 0.0, 0.0, 0.0] else v
  }

  function FilledStream(stream: seq<seq<real>>): (r: seq<seq<real>>)
    ensures |r| == |stream| && forall n :: 0 <= n < |r| ==> r[n] == Filled(stream[n])
  {
    seq(|stream|, n requires 0 <= n < |stream| => Filled(stream[n]))
  }

  /** The first k samples have no values, all others have all. */
  predicate StartsEmpty(stream: seq<seq<real>>, k: nat) {
    && (forall n :: 0 <= n < |stream| && n < k ==> stream[n] == [])
    && (forall n :: 0 <= n < |stream| && k <= n ==> |stream[n]| >= 4)
  }

  /** The accumulators with nothing in them, at a place of the window. */
  function Empty(index: nat): State {
    State(ZERO, ZERO, ZERO, ZERO, index)
  }

  const ZEROS := [ZERO, ZERO, ZERO, ZERO]

  lemma ZerosAddNothing(index: nat)
    requires index < WINDOW_SIZE
    ensures Fed(Empty(index), []).0 == Empty(index) && Fed(Empty(index), ZEROS).0 == Empty(index)
  {
    assert ZERO.Add(ZERO) == ZERO;
    assert Gathered(Empty(index), ZEROS) == ZERO;
  }

  /** With nothing accumulated, a sample of zeros leaves the accumulators as no values do. */
  lemma EmptySample(t: Tables, index: nat)
    requires t.Valid() && index < WINDOW_SIZE
    ensures Next(t, Empty(index), []).0 == Empty((index + 1) % WINDOW_SIZE)
    ensures Next(t, Empty(index), Filled([])).0 == Empty((index + 1) % WINDOW_SIZE)
  {
    assert t.Term(0.0, index) == ZERO;
    assert Terms(t, index, []) == [] && Terms(t, index, Filled([])) == ZEROS;
    AnyChannels(Empty(index), []);
    AnyChannels(Empty(index), ZEROS);
    ZerosAddNothing(index);
  }

  lemma {:induction false} FilledIsSame(t: Tables, stream: seq<seq<real>>, k: nat)
    requires t.Valid() && StartsEmpty(stream, k)
    ensures After(t, stream) == After(t, FilledStream(stream))
    ensures |stream| <= k ==> After(t, stream) == Empty(|stream| % WINDOW_SIZE)
  {
    if stream == [] {
    } else {
      FilledIsSame(t, Before(stream), k);
      FilledStep(t, stream, After(t, Before(stream)), k);
    }
  }

  lemma AfterMore(t: Tables, stream: seq<seq<real>>, before: seq<seq<real>>, v: seq<real>)
    requires t.Valid() && stream == before + [v]
    ensures After(t, stream) == Next(t, After(t, before), v).0
  {
    assert stream[..|stream| - 1] == before;
  }

  lemma FilledMore(stream: seq<seq<real>>)
    requires stream != []
    ensures stream == Before(stream) + [Last(stream)]
    ensures FilledStream(stream) == FilledStream(Before(stream)) + [Filled(Last(stream))]
  {
  }

  lemma StepOfEmpty(t: Tables, stream: seq<seq<real>>, k: nat)
    requires t.Valid() && stream != [] && StartsEmpty(stream, k) && |stream| <= k
    ensures Last(stream) == []
    ensures Next(t, Empty((|stream| - 1) % WINDOW_SIZE), []).0 == Empty(|stream| % WINDOW_SIZE)
    ensures Next(t, Empty((|stream| - 1) % WINDOW_SIZE), Filled([])).0 == Empty(|stream| % WINDOW_SIZE)
  {
    IndexStep(stream);
    EmptySample(t, (|stream| - 1) % WINDOW_SIZE);
  }

  /** The same without and with a further sample. */
  lemma FilledStep(t: Tables, stream: seq<seq<real>>, before: State, k: nat)
    requires t.Valid() && stream != [] && StartsEmpty(stream, k)
    requires before == After(t, Before(stream)) == After(t, FilledStream(Before(stream)))
    requires |stream| <= k ==> before == Empty((|stream| - 1) % WINDOW_SIZE)
    ensures After(t, stream) == After(t, FilledStream(stream)) == Next(t, before, Last(stream)).0
    ensures |stream| <= k ==> After(t, stream) == Empty(|stream| % WINDOW_SIZE)
  {
    FilledMore(stream);
    AfterMore(t, stream, Before(stream), Last(stream));
    AfterMore(t, FilledStream(stream), FilledStream(Before(stream)), Filled(Last(stream)));
    if |stream| <= k {
      StepOfEmpty(t, stream, k);
    } else {
      assert Filled(Last(stream)) == Last(stream);
    }
  }

  lemma PublishedFilled(t: Tables, stream: seq<seq<real>>, k: nat)
    requires t.Valid() && |stream| > k && StartsEmpty(stream, k)
    ensures Published(t, stream) == Published(t, FilledStream(stream))
  {
    var before, filled := Before(stream), FilledStream(stream);
    FilledIsSame(t, before, k);
    assert filled[..|stream| - 1] == FilledStream(before);
    assert filled[|stream| - 1] == Last(stream);
  }

  /** Until the values arrive nothing is published; from then on each window end publishes the
      transform of the last WINDOW_SIZE samples, those before the arrival counting as zeros. */
  lemma FirstWindows(t: Tables, stream: seq<seq<real>>, k: nat)
    requires t.Valid() && stream != [] && StartsEmpty(stream, k)
    ensures |stream| <= k || !Closes(stream) ==> Published(t, stream) == []
    ensures |stream| > k && Closes(stream) ==>
            Published(t, stream) == WindowPhasors(t, FilledStream(stream)[|stream| - WINDOW_SIZE..])
  {
    if |stream| <= k {
      assert Last(stream) == [];
      PublishedWithGaps(t, stream);
    } else {
      PublishedFilled(t, stream, k);
      StreamingRefinesBatch(t, FilledStream(stream));
    }
  }
}
