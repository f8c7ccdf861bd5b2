/** The streaming Fourier transform of `functions/dft.c`, EVERY_WINDOW_SIZE variant: one phasor
    per channel for each window of samples, the fourth channel being the neutral.

    Samples are reals; cosines and sines are any two tables with one entry per sample of a window. */
module Dft {
  import opened Mms

  const WINDOW_SIZE: nat := 80

  /** The fourth of the four channels collects the other three. */
  const NEUTRAL := 3

  datatype Phasor = Phasor(re: real, im: real) {
    function Add(b: Phasor): Phasor { Phasor(re + b.re, im + b.im) }
  }

  const ZERO := Phasor(0.0, 0.0)

  datatype Tables = Tables(cos: seq<real>, sin: seq<real>) {
    ghost predicate Valid() { |cos| == |sin| == WINDOW_SIZE }

    /** One term of the transform. */
    function Term(v: real, n: nat): Phasor
      requires Valid() && n < WINDOW_SIZE
    {
      Phasor(v * cos[n], -(v * sin[n]))
    }
  }

  // ---- The batch transform ----

  /** The weighted sum of the samples of (part of) a window. */
  function Transform(t: Tables, v: seq<real>): Phasor
    requires t.Valid() && |v| <= WINDOW_SIZE
  {
    if v == [] then ZERO else Transform(t, v[..|v| - 1]).Add(t.Term(v[|v| - 1], |v| - 1))
  }

  /** The product sum of samples and weights. */
  function Dot(v: seq<real>, w: seq<real>): real
    requires |v| <= |w|
  {
    if v == [] then 0.0 else Dot(v[..|v| - 1], w) + v[|v| - 1] * w[|v| - 1]
  }

  /** A window against both tables: the real part against the cosines, the imaginary part against the
      sines with the opposite sign. */
  function Correlation(t: Tables, v: seq<real>): Phasor
    requires |v| <= |t.cos| && |v| <= |t.sin|
  {
    Phasor(Dot(v, t.cos), -Dot(v, t.sin))
  }

  lemma OneMoreTerm(s: Phasor, term: Phasor, c: real, d: real, x: real, y: real)
    requires s == Phasor(c, -d) && term == Phasor(x, -y)
    ensures s.Add(term) == Phasor(c + x, -(d + y))
  {
  }

  /** The transform is the correlation with the tables. */
  lemma {:induction false} TransformIsCorrelation(t: Tables, v: seq<real>)
    requires t.Valid() && |v| <= WINDOW_SIZE
    ensures Transform(t, v) == Correlation(t, v)
  {
    if v == [] {
    } else {
      var n := |v| - 1;
      TransformIsCorrelation(t, v[..n]);
      OneMoreTerm(Transform(t, v[..n]), t.Term(v[n], n), Dot(v[..n], t.cos), Dot(v[..n], t.sin),
                  v[n] * t.cos[n], v[n] * t.sin[n]);
    }
  }

  ghost function PointwiseSum(a: seq<real>, b: seq<real>): (s: seq<real>)
    requires |a| == |b|
    ensures |s| == |a| && forall i :: 0 <= i < |s| ==> s[i] == a[i] + b[i]
  {
    seq(|a|, i requires 0 <= i < |a| => a[i] + b[i])
  }

  /** Sums of sums, and of one term more each. */
  lemma Interchange(s: Phasor, a: Phasor, b: Phasor, z: Phasor, x: Phasor, y: Phasor)
    requires s == a.Add(b) && z == x.Add(y)
    ensures s.Add(z) == a.Add(x).Add(b.Add(y))
  {
  }

  lemma TransformLast(t: Tables, v: seq<real>, before: Phasor, term: Phasor)
    requires t.Valid() && v != [] && |v| <= WINDOW_SIZE
    requires before == Transform(t, v[..|v| - 1]) && term == t.Term(v[|v| - 1], |v| - 1)
    ensures Transform(t, v) == before.Add(term)
  {
  }

  lemma {:induction false} TransformIsLinear(t: Tables, a: seq<real>, b: seq<real>)
    requires t.Valid() && |a| == |b| <= WINDOW_SIZE
    ensures Transform(t, PointwiseSum(a, b)) == Transform(t, a).Add(Transform(t, b))
  {
    if a == [] {
      assert b == [] && PointwiseSum(a, b) == [];
    } else {
      var n := |a| - 1;
      TransformIsLinear(t, a[..n], b[..n]);
      assert PointwiseSum(a, b)[..n] == PointwiseSum(a[..n], b[..n]);
      LinearStep(t, a, b);
    }
  }

  lemma LinearStep(t: Tables, a: seq<real>, b: seq<real>)
    requires t.Valid() && 0 < |a| == |b| <= WINDOW_SIZE
    requires var n := |a| - 1;
             Transform(t, PointwiseSum(a, b)[..n]) == Transform(t, a[..n]).Add(Transform(t, b[..n]))
    ensures Transform(t, PointwiseSum(a, b)) == Transform(t, a).Add(Transform(t, b))
  {
    var n := |a| - 1;
    var sum := PointwiseSum(a, b);
    var s, x, y := Transform(t, sum[..n]), Transform(t, a[..n]), Transform(t, b[..n]);
    var z, u, v := t.Term(a[n] + b[n], n), t.Term(a[n], n), t.Term(b[n], n);
    TermIsLinear(t, a[n], b[n], n);
    Interchange(s, x, y, z, u, v);
    TransformLast(t, sum, s, z);
    TransformLast(t, a, x, u);
    TransformLast(t, b, y, v);
  }

  lemma TermIsLinear(t: Tables, a: real, b: real, n: nat)
    requires t.Valid() && n < WINDOW_SIZE
    ensures t.Term(a + b, n) == t.Term(a, n).Add(t.Term(b, n))
  {
    assert (a + b) * t.cos[n] == a * t.cos[n] + b * t.cos[n];
    assert (a + b) * t.sin[n] == a * t.sin[n] + b * t.sin[n];
  }

  // ---- The streaming computation ----

  /** The accumulators of the four channels and the place in the window. */
  datatype State = State(x0: Phasor, x1: Phasor, x2: Phasor, neutral: Phasor, index: nat) {
    ghost predicate Valid() { index < WINDOW_SIZE }

    function Acc(i: nat): Phasor
      requires i < 4
    {
      if i == 0 then x0 else if i == 1 then x1 else if i == 2 then x2 else neutral
    }

    function With(i: nat, x: Phasor): State
      requires i < 4
    {
      if i == 0 then this.(x0 := x) else if i == 1 then this.(x1 := x) else if i == 2 then this.(x2 := x)
      else this.(neutral := x)
    }
  }

  const INITIAL := State(ZERO, ZERO, ZERO, ZERO, 0)

  /** One channel of one sample: the accumulators and what is published for the channel. */
  function Feed(s: State, i: nat, term: Phasor): (r: (State, Option<Phasor>))
    requires s.Valid() && i < 4
    ensures r.0.index == s.index
  {
    var x := s.Acc(i).Add(term);
    if s.index != WINDOW_SIZE - 1 then (s.With(i, x), None)
    else if i < NEUTRAL then (s.With(i, ZERO).(neutral := s.neutral.Add(x)), Some(x))
    else (s.With(i, ZERO), Some(x))
  }

  /** The terms of one sample, in order; only the first four count. */
  function FeedAll(s: State, terms: seq<Phasor>, i: nat): (r: (State, seq<Phasor>))
    requires s.Valid() && i <= |terms|
    ensures r.0.index == s.index
    decreases |terms| - i
  {
    if i == |terms| || i >= 4 then (s, [])
    else
      var f := Feed(s, i, terms[i]);
      var rest := FeedAll(f.0, terms, i + 1);
      (rest.0, Listed(f.1) + rest.1)
  }

  function Listed(p: Option<Phasor>): seq<Phasor> {
    if p == None then [] else [p.value]
  }

  function Terms(t: Tables, index: nat, values: seq<real>): (terms: seq<Phasor>)
    requires t.Valid() && index < WINDOW_SIZE
    ensures |terms| == |values| && forall i :: 0 <= i < |terms| ==> terms[i] == t.Term(values[i], index)
  {
    seq(|values|, i requires 0 <= i < |values| => t.Term(values[i], index))
  }

  /** One sample, given by the values present. */
  function Next(t: Tables, s: State, values: seq<real>): (r: (State, seq<Phasor>))
    requires t.Valid() && s.Valid()
    ensures r.0.Valid()
  {
    var f := FeedAll(s, Terms(t, s.index, values), 0);
    (f.0.(index := (s.index + 1) % WINDOW_SIZE), f.1)
  }

  /** Input references without a value are passed over. */
  function Present(refs: seq<Option<real>>): seq<real> {
    if refs == [] then []
    else Present(refs[..|refs| - 1]) + (if refs[|refs| - 1] == None then [] else [refs[|refs| - 1].value])
  }

  /** `at` lists, in order, all places of references that have a value. */
  ghost predicate PresentPlaces(refs: seq<Option<real>>, at: seq<nat>) {
    && (forall n :: 0 <= n < |at| ==> at[n] < |refs| && refs[at[n]].Some?)
    && (forall m, n :: 0 <= m < n < |at| ==> at[m] < at[n])
    && (forall r :: 0 <= r < |refs| && refs[r].Some? ==> r in at)
  }

  ghost predicate PickedFrom(values: seq<real>, refs: seq<Option<real>>, at: seq<nat>) {
    |values| == |at| && forall n :: 0 <= n < |at| ==> at[n] < |refs| && refs[at[n]] == Some(values[n])
  }

  lemma PlacesMore(refs: seq<Option<real>>, at: seq<nat>)
    requires refs != [] && PresentPlaces(refs[..|refs| - 1], at)
    ensures PresentPlaces(refs, if refs[|refs| - 1].Some? then at + [|refs| - 1] else at)
  {
    var n := |refs| - 1;
    var more := if refs[n].Some? then at + [n] else at;
    forall r | 0 <= r < |refs| && refs[r].Some? ensures r in more {
      if r < n {
        assert refs[..n][r].Some? && r in at;
      }
    }
  }

  lemma PickedMore(values: seq<real>, refs: seq<Option<real>>, at: seq<nat>)
    requires refs != [] && PickedFrom(values, refs[..|refs| - 1], at)
    ensures PickedFrom(values, refs, at)
    ensures refs[|refs| - 1].Some? ==> PickedFrom(values + [refs[|refs| - 1].value], refs, at + [|refs| - 1])
  {
  }

  /** The values present are those of all references that have one, in their order. */
  lemma {:induction false} PresentExactly(refs: seq<Option<real>>) returns (at: seq<nat>)
    ensures PresentPlaces(refs, at) && PickedFrom(Present(refs), refs, at)
    decreases |refs|
  {
    if refs == [] {
      at := [];
    } else {
      var n := |refs| - 1;
      at := PresentExactly(refs[..n]);
      PlacesMore(refs, at);
      PickedMore(Present(refs[..n]), refs, at);
      if refs[n].Some? {
        at := at + [n];
      }
    }
  }

  lemma FeedAssociates(a: seq<Phasor>, b: seq<Phasor>, c: seq<Phasor>)
    ensures (a + b) + c == a + (b + c)
  {
  }

  /** An accumulator after one more sample v at place n of the window: its cosine part is added to the
      real part, its sine part taken from the imaginary part. */
  ghost predicate Adds(before: Phasor, after: Phasor, v: real, t: Tables, n: nat)
    requires t.Valid() && n < WINDOW_SIZE
  {
    after.re == before.re + v * t.cos[n] && after.im == before.im - v * t.sin[n]
  }

  lemma TermAdds(x: Phasor, v: real, t: Tables, n: nat)
    requires t.Valid() && n < WINDOW_SIZE
    ensures Adds(x, x.Add(t.Term(v, n)), v, t, n)
  {
  }

  /** One sample of four values inside a window. */
  lemma FullSample(t: Tables, s: State, values: seq<real>)
    requires t.Valid() && s.Valid()
    ensures |values| >= 4 && s.index < WINDOW_SIZE - 1 ==>
              var n := Next(t, s, values);
              && n.1 == [] && n.0.index == s.index + 1
              && forall i :: 0 <= i < 4 ==> Adds(s.Acc(i), n.0.Acc(i), values[i], t, s.index)
  {
    if |values| >= 4 && s.index < WINDOW_SIZE - 1 {
      FourChannels(s, Terms(t, s.index, values));
      TermAdds(s.x0, values[0], t, s.index);
      TermAdds(s.x1, values[1], t, s.index);
      TermAdds(s.x2, values[2], t, s.index);
      TermAdds(s.neutral, values[3], t, s.index);
    }
  }

  // ---- The C code ----

  class DFT {
    const tables: Tables
    const Xr: array<real>
    const Xi: array<real>
    var sampleIndex: nat

    ghost predicate Valid()
      reads this, Xr, Xi
    {
      tables.Valid() && Xr.Length == Xi.Length == 4 && Xr != Xi && sampleIndex < WINDOW_SIZE
    }

    ghost function Value(): (s: State)
      requires Valid()
      reads this, Xr, Xi
      ensures s.Valid()
    {
      State(Phasor(Xr[0], Xi[0]), Phasor(Xr[1], Xi[1]), Phasor(Xr[2], Xi[2]), Phasor(Xr[3], Xi[3]), sampleIndex)
    }

    constructor (tables: Tables)
      requires tables.Valid()
      ensures Valid() && this.tables == tables && Value() == INITIAL
      ensures fresh(Xr) && fresh(Xi)
    {
      this.tables, sampleIndex := tables, 0;
      Xr, Xi := new real[4](_ => 0.0), new real[4](_ => 0.0);
    }

    /** The values from i on are still to be fed. */
    ghost predicate Remaining(start: State, terms: seq<Phasor>, i: nat, published: seq<Phasor>)
      requires Valid() && start.Valid() && i <= |terms|
      reads this, Xr, Xi
    {
      var f := FeedAll(start, terms, 0);
      var g := FeedAll(Value(), terms, i);
      f.0 == g.0 && f.1 == published + g.1
    }

    lemma NothingRemains(start: State, terms: seq<Phasor>, published: seq<Phasor>)
      requires Valid() && start.Valid() && Remaining(start, terms, |terms|, published)
      ensures FeedAll(start, terms, 0) == (Value(), published)
    {
      assert published + [] == published;
    }

    /** One input that has a value; only the first four count. */
    method FeedInput(vv: real, i: nat, published0: seq<Phasor>, ghost start: State, ghost terms: seq<Phasor>)
      returns (published: seq<Phasor>)
      requires Valid() && start.Valid() && i < |terms| && terms[i] == tables.Term(vv, sampleIndex)
      requires Remaining(start, terms, i, published0)
      modifies Xr, Xi
      ensures Valid() && Remaining(start, terms, i + 1, published)
    {
      published := published0;
      if i < 4 {
        var p := Accumulate(i, tables.Term(vv, sampleIndex));
        FeedAssociates(published, p, FeedAll(Value(), terms, i + 1).1);
        published := published + p;
      }
    }

    /** The loop of CALC_DFT over the inputs. */
    method FeedInputs(extRefs: seq<Option<real>>) returns (published: seq<Phasor>)
      requires Valid()
      modifies Xr, Xi
      ensures Valid()
      ensures FeedAll(old(Value()), Terms(tables, sampleIndex, Present(extRefs)), 0) == (Value(), published)
    {
      published := [];
      var i := 0;
      var r := 0;
      ghost var values, start := Present(extRefs), Value();
      ghost var terms := Terms(tables, sampleIndex, values);
      while r < |extRefs|
        invariant Valid()
        invariant 0 <= r <= |extRefs| && i <= |values| && Present(extRefs[..r]) == values[..i]
        invariant Remaining(start, terms, i, published)
      {
        PresentNext(extRefs, r, i);
        if extRefs[r] != None {
          published := FeedInput(extRefs[r].value, i, published, start, terms);
          i := i + 1;
        }
        r := r + 1;
      }
      assert extRefs[..r] == extRefs;
      NothingRemains(start, terms, published);
    }

    /** CALC_DFT. */
    method CalcDft(extRefs: seq<Option<real>>) returns (published: seq<Phasor>)
      requires Valid()
      modifies this, Xr, Xi
      ensures Valid()
      ensures var n := Next(tables, old(Value()), Present(extRefs));
              Value() == n.0 && published == n.1
      ensures |Present(extRefs)| >= 4 && old(sampleIndex) < WINDOW_SIZE - 1 ==>
                && published == [] && sampleIndex == old(sampleIndex) + 1
                && forall i :: 0 <= i < 4 ==>
                     Adds(old(Value()).Acc(i), Value().Acc(i), Present(extRefs)[i], tables, old(sampleIndex))
    {
      FullSample(tables, Value(), Present(extRefs));
      published := FeedInputs(extRefs);
      sampleIndex := (sampleIndex + 1) % WINDOW_SIZE;
    }

    /** The real and the imaginary part of channel i. */
    function Cell(i: nat): (x: Phasor)
      requires Valid() && i < 4
      reads this, Xr, Xi
      ensures x == Value().Acc(i)
    {
      Phasor(Xr[i], Xi[i])
    }

    method Store(i: nat, x: Phasor)
      requires Valid() && i < 4
      modifies Xr, Xi
      ensures Valid() && Value() == old(Value()).With(i, x)
    {
      Xr[i] := x.re;
      Xi[i] := x.im;
    }

    /** The body of the loop for one of the four values, given its cosine and sine parts. */
    method Accumulate(i: nat, term: Phasor) returns (published: seq<Phasor>)
      requires Valid() && i < 4
      modifies Xr, Xi
      ensures Valid()
      ensures var f := Feed(old(Value()), i, term);
              Value() == f.0 && published == Listed(f.1)
    {
      published := [];
      ghost var s := Value();
      var x := Cell(i).Add(term);
      Store(i, x);
      if sampleIndex % WINDOW_SIZE == WINDOW_SIZE - 1 {
        FeedAtEnd(s, i, term, x);
        published := Publish(i);
      }
    }

    /** The end of a window: the neutral collects the phasor, which is published and cleared. */
    method Publish(i: nat) returns (published: seq<Phasor>)
      requires Valid() && i < 4
      modifies Xr, Xi
      ensures Valid() && Value() == Emptied(old(Value()), i) && published == [old(Value()).Acc(i)]
    {
      published := [Cell(i)];
      if i < 3 {
        Store(3, Cell(3).Add(Cell(i)));
      }
      Store(i, ZERO);
    }
  }

  function Emptied(s: State, i: nat): State
    requires i < 4
  {
    (if i < NEUTRAL then s.(neutral := s.neutral.Add(s.Acc(i))) else s).With(i, ZERO)
  }

  lemma FeedAtEnd(s: State, i: nat, term: Phasor, x: Phasor)
    requires s.index == WINDOW_SIZE - 1 && i < 4 && x == s.Acc(i).Add(term)
    ensures Feed(s, i, term) == (Emptied(s.With(i, x), i), Some(x))
  {
  }

  lemma {:induction false} PresentPrefix(refs: seq<Option<real>>, r: nat)
    requires r <= |refs|
    ensures |Present(refs[..r])| <= |Present(refs)| && Present(refs[..r]) == Present(refs)[..|Present(refs[..r])|]
  {
    if r < |refs| {
      var n := |refs| - 1;
      assert refs[..n][..r] == refs[..r];
      PresentPrefix(refs[..n], r);
    } else {
      assert refs[..r] == refs;
    }
  }

  /** The values of the first r references are the first i; what follows with reference r. */
  lemma PresentNext(refs: seq<Option<real>>, r: nat, i: nat)
    requires r < |refs| && i <= |Present(refs)| && Present(refs[..r]) == Present(refs)[..i]
    ensures refs[r] == None ==> Present(refs[..r + 1]) == Present(refs)[..i]
    ensures refs[r].Some? ==>
              && i < |Present(refs)| && Present(refs)[i] == refs[r].value
              && Present(refs[..r + 1]) == Present(refs)[..i + 1]
  {
    assert refs[..r + 1][..r] == refs[..r];
    PresentPrefix(refs, r + 1);
    if refs[r].Some? {
      assert Present(refs[..r + 1]) == Present(refs)[..i] + [refs[r].value];
      assert Present(refs[..r + 1])[i] == refs[r].value;
    }
  }

  // ---- Streams ----

  /** Every sample carries the four values. */
  ghost predicate Full(stream: seq<seq<real>>) {
    forall n :: 0 <= n < |stream| ==> |stream[n]| >= 4
  }

  function After(t: Tables, stream: seq<seq<real>>): (s: State)
    requires t.Valid()
    ensures s.Valid()
  {
    if stream == [] then INITIAL else Next(t, After(t, stream[..|stream| - 1]), stream[|stream| - 1]).0
  }

  /** What the last sample of a stream makes the component publish. */
  function Published(t: Tables, stream: seq<seq<real>>): seq<Phasor>
    requires t.Valid() && stream != []
  {
    Next(t, After(t, stream[..|stream| - 1]), stream[|stream| - 1]).1
  }

  ghost function Column(stream: seq<seq<real>>, i: nat): (c: seq<real>)
    requires Full(stream) && i < 4
    ensures |c| == |stream| && forall n :: 0 <= n < |c| ==> c[n] == stream[n][i]
  {
    seq(|stream|, n requires 0 <= n < |stream| => stream[n][i])
  }

  /** The samples since the last full window. */
  ghost function Window(stream: seq<seq<real>>): seq<seq<real>> {
    stream[|stream| - |stream| % WINDOW_SIZE..]
  }

  /** One sample of four terms, channel by channel. */
  lemma FourChannels(s: State, terms: seq<Phasor>)
    requires s.Valid() && |terms| >= 4
    ensures var a, b, c := s.x0.Add(terms[0]), s.x1.Add(terms[1]), s.x2.Add(terms[2]);
            FeedAll(s, terms, 0) ==
            if s.index < WINDOW_SIZE - 1 then (State(a, b, c, s.neutral.Add(terms[3]), s.index), [])
            else (INITIAL.(index := s.index), [a, b, c, s.neutral.Add(a).Add(b).Add(c).Add(terms[3])])
  {
    var f0 := Feed(s, 0, terms[0]);
    var f1 := Feed(f0.0, 1, terms[1]);
    var f2 := Feed(f1.0, 2, terms[2]);
    var f3 := Feed(f2.0, 3, terms[3]);
    assert FeedAll(f3.0, terms, 4) == (f3.0, []);
    assert FeedAll(f2.0, terms, 3) == (f3.0, Listed(f3.1) + []);
    assert FeedAll(f1.0, terms, 2) == (f3.0, Listed(f2.1) + (Listed(f3.1) + []));
    assert FeedAll(f0.0, terms, 1) == (f3.0, Listed(f1.1) + (Listed(f2.1) + (Listed(f3.1) + [])));
    assert FeedAll(s, terms, 0) == (f3.0, Listed(f0.1) + (Listed(f1.1) + (Listed(f2.1) + (Listed(f3.1) + []))));
    if s.index < WINDOW_SIZE - 1 {
      assert Listed(f0.1) + (Listed(f1.1) + (Listed(f2.1) + (Listed(f3.1) + []))) == [];
    } else {
      assert Listed(f0.1) + (Listed(f1.1) + (Listed(f2.1) + (Listed(f3.1) + [])))
          == [f0.1.value, f1.1.value, f2.1.value, f3.1.value];
    }
  }

  /** The accumulators hold the transforms of the columns of the unfinished window. */
  ghost predicate Accumulates(t: Tables, s: State, w: seq<seq<real>>)
    requires t.Valid() && Full(w) && |w| < WINDOW_SIZE
  {
    && s.index == |w|
    && forall i :: 0 <= i < 4 ==> s.Acc(i) == Transform(t, Column(w, i))
  }

  ghost function Neutral(w: seq<seq<real>>): (c: seq<real>)
    requires Full(w)
    ensures |c| == |w| && forall n :: 0 <= n < |c| ==> c[n] == w[n][0] + w[n][1] + w[n][2] + w[n][3]
  {
    seq(|w|, n requires 0 <= n < |w| => w[n][0] + w[n][1] + w[n][2] + w[n][3])
  }

  lemma ColumnAppend(t: Tables, w: seq<seq<real>>, v: seq<real>, i: nat)
    requires t.Valid() && Full(w) && |w| < WINDOW_SIZE && |v| >= 4 && i < 4
    ensures Full(w + [v])
    ensures Transform(t, Column(w + [v], i)) == Transform(t, Column(w, i)).Add(t.Term(v[i], |w|))
  {
    var c := Column(w + [v], i);
    assert c[..|c| - 1] == Column(w, i);
  }

  /** The neutral accumulates the transforms of all four columns. */
  lemma NeutralTransform(t: Tables, w: seq<seq<real>>)
    requires t.Valid() && Full(w) && |w| <= WINDOW_SIZE
    ensures Transform(t, Neutral(w)) ==
            Transform(t, Column(w, 0)).Add(Transform(t, Column(w, 1)))
            .Add(Transform(t, Column(w, 2))).Add(Transform(t, Column(w, 3)))
  {
    var s01 := PointwiseSum(Column(w, 0), Column(w, 1));
    var s012 := PointwiseSum(s01, Column(w, 2));
    assert Neutral(w) == PointwiseSum(s012, Column(w, 3));
    TransformIsLinear(t, Column(w, 0), Column(w, 1));
    TransformIsLinear(t, s01, Column(w, 2));
    TransformIsLinear(t, s012, Column(w, 3));
  }

  /** The phasors of one whole window: three channels, and the sum of all four. */
  ghost function WindowPhasors(t: Tables, w: seq<seq<real>>): seq<Phasor>
    requires t.Valid() && Full(w) && |w| <= WINDOW_SIZE
  {
    [Correlation(t, Column(w, 0)), Correlation(t, Column(w, 1)), Correlation(t, Column(w, 2)),
     Correlation(t, Neutral(w))]
  }

  lemma WindowTransforms(t: Tables, w: seq<seq<real>>)
    requires t.Valid() && Full(w) && |w| <= WINDOW_SIZE
    ensures WindowPhasors(t, w) == [Transform(t, Column(w, 0)), Transform(t, Column(w, 1)), Transform(t, Column(w, 2)),
                                    Transform(t, Neutral(w))]
  {
    TransformIsCorrelation(t, Column(w, 0));
    TransformIsCorrelation(t, Column(w, 1));
    TransformIsCorrelation(t, Column(w, 2));
    TransformIsCorrelation(t, Neutral(w));
  }

  /** A sample inside a window. */
  lemma InsideWindow(t: Tables, s: State, w: seq<seq<real>>, v: seq<real>)
    requires t.Valid() && Full(w) && |w| + 1 < WINDOW_SIZE && |v| >= 4
    requires Accumulates(t, s, w)
    ensures Full(w + [v])
    ensures Next(t, s, v).1 == [] && Accumulates(t, Next(t, s, v).0, w + [v])
  {
    var terms := Terms(t, s.index, v);
    FourChannels(s, terms);
    AppendedColumns(t, s, w, v, terms);
  }

  /** The last sample of a window. */
  lemma EndOfWindow(t: Tables, s: State, w: seq<seq<real>>, v: seq<real>)
    requires t.Valid() && Full(w) && |w| + 1 == WINDOW_SIZE && |v| >= 4
    requires Accumulates(t, s, w)
    ensures Full(w + [v])
    ensures Next(t, s, v) == (INITIAL, WindowPhasors(t, w + [v]))
  {
    var terms := Terms(t, s.index, v);
    FourChannels(s, terms);
    AppendedColumns(t, s, w, v, terms);
    NeutralTransform(t, w + [v]);
    WindowTransforms(t, w + [v]);
    AddCommutes(s.neutral, s.x0.Add(terms[0]), s.x1.Add(terms[1]), s.x2.Add(terms[2]), terms[3]);
  }

  lemma OneSample(t: Tables, s: State, w: seq<seq<real>>, v: seq<real>)
    requires t.Valid() && Full(w) && |w| < WINDOW_SIZE && |v| >= 4
    requires Accumulates(t, s, w)
    ensures Full(w + [v])
    ensures var n := Next(t, s, v);
            if |w| + 1 < WINDOW_SIZE then n.1 == [] && Accumulates(t, n.0, w + [v])
            else n == (INITIAL, WindowPhasors(t, w + [v]))
  {
    if |w| + 1 < WINDOW_SIZE {
      InsideWindow(t, s, w, v);
    } else {
      EndOfWindow(t, s, w, v);
    }
  }

  lemma AppendedColumns(t: Tables, s: State, w: seq<seq<real>>, v: seq<real>, terms: seq<Phasor>)
    requires t.Valid() && Full(w) && |w| < WINDOW_SIZE && |v| >= 4
    requires Accumulates(t, s, w) && terms == Terms(t, s.index, v)
    ensures Full(w + [v])
    ensures Transform(t, Column(w + [v], 0)) == s.x0.Add(terms[0])
    ensures Transform(t, Column(w + [v], 1)) == s.x1.Add(terms[1])
    ensures Transform(t, Column(w + [v], 2)) == s.x2.Add(terms[2])
    ensures Transform(t, Column(w + [v], 3)) == s.neutral.Add(terms[3])
  {
    assert s.Acc(0) == s.x0 && s.Acc(1) == s.x1 && s.Acc(2) == s.x2 && s.Acc(3) == s.neutral;
    ColumnAppend(t, w, v, 0);
    ColumnAppend(t, w, v, 1);
    ColumnAppend(t, w, v, 2);
    ColumnAppend(t, w, v, 3);
  }

  lemma AddCommutes(n: Phasor, a: Phasor, b: Phasor, c: Phasor, d: Phasor)
    ensures n.Add(a).Add(b).Add(c).Add(d) == a.Add(b).Add(c).Add(n.Add(d))
  {
  }

  lemma {:induction false} StreamInvariant(t: Tables, stream: seq<seq<real>>)
    requires t.Valid() && Full(stream)
    ensures Full(Window(stream)) && Accumulates(t, After(t, stream), Window(stream))
  {
    if stream == [] {
      assert forall i :: 0 <= i < 4 ==> Column([], i) == [];
    } else {
      var n := |stream| - 1;
      StreamInvariant(t, stream[..n]);
      WindowStep(stream);
      OneSample(t, After(t, stream[..n]), Window(stream[..n]), stream[n]);
    }
  }

  lemma WindowStep(stream: seq<seq<real>>)
    requires stream != []
    ensures var n := |stream| - 1;
            var w := Window(stream[..n]) + [stream[n]];
            if |w| < WINDOW_SIZE then Window(stream) == w
            else Window(stream) == [] && w == stream[|stream| - WINDOW_SIZE..]
  {
    var n := |stream| - 1;
    var k := n % WINDOW_SIZE;
    var w := Window(stream[..n]) + [stream[n]];
    PlaceAfter(n);
    assert stream[..n][n - k..] == stream[n - k..n];
    assert w == stream[n - k..];
  }

  lemma PlaceAfter(n: nat)
    ensures (n + 1) % WINDOW_SIZE == if n % WINDOW_SIZE + 1 == WINDOW_SIZE then 0 else n % WINDOW_SIZE + 1
  {
  }

  /** A phasor is published exactly with the last sample of each window, and it is the transform
      of the last WINDOW_SIZE samples and of nothing else. */
  lemma StreamingRefinesBatch(t: Tables, stream: seq<seq<real>>)
    requires t.Valid() && Full(stream) && stream != []
    ensures |stream| % WINDOW_SIZE != 0 ==> Published(t, stream) == []
    ensures |stream| % WINDOW_SIZE == 0 ==>
              Published(t, stream) == WindowPhasors(t, stream[|stream| - WINDOW_SIZE..])
  {
    var n := |stream| - 1;
    StreamInvariant(t, stream[..n]);
    WindowStep(stream);
    OneSample(t, After(t, stream[..n]), Window(stream[..n]), stream[n]);
  }
}
