/** What a received GOOSE dataset does, end to end: from the subscriber entries to the values of
    the references (`input/inputs.c`). */
module RoutingTheorems {
  import opened Mms
  import opened Inputs
  import opened Routing

  /** The entries lo..hi are all those of one control block, and one dataset; the entry before
      them, if any, belongs to another dataset. */
  ghost predicate OneRun(subs: seq<SubscriberEntry>, lo: nat, hi: nat) {
    && lo < hi <= |subs|
    && (forall k :: 0 <= k < |subs| ==> (SameBlock(subs[k], subs[lo]) <==> lo <= k < hi))
    && (forall k :: lo < k < hi ==> SameDataset(subs[k - 1], subs[k]))
    && (0 < lo ==> !SameDataset(subs[lo - 1], subs[lo]))
  }

  /** Along neighbouring entries of one dataset the place counts up; it is the place from entry lo on
      exactly if the entry before lo is of another dataset. */
  lemma {:induction false} IndexFrom(subs: seq<SubscriberEntry>, lo: nat, k: nat)
    requires lo <= k < |subs| && forall i :: lo < i <= k ==> SameDataset(subs[i - 1], subs[i])
    ensures Index(subs, k) == Index(subs, lo) + k - lo
    ensures Index(subs, k) == k - lo <==> lo == 0 || !SameDataset(subs[lo - 1], subs[lo])
    decreases k
  {
    if lo == k {
    } else {
      IndexFrom(subs, lo, k - 1);
    }
  }

  // ---- The list of all matches ----

  ghost predicate NoRepeats(refs: seq<InputEntry>) {
    forall i, j :: 0 <= i < j < |refs| ==> refs[i] != refs[j]
  }

  ghost predicate Sound(subs: seq<SubscriberEntry>, refs: seq<InputEntry>, ms: seq<Match>) {
    forall j :: 0 <= j < |ms| ==> ms[j].sub < |subs| && ms[j].extRef in refs && Wants(subs[ms[j].sub], ms[j].extRef)
  }

  ghost predicate Ordered(ms: seq<Match>) {
    forall i, j :: 0 <= i < j < |ms| ==> ms[i].sub <= ms[j].sub
  }

  ghost predicate Unique(ms: seq<Match>) {
    forall i, j :: 0 <= i < j < |ms| ==> ms[i] != ms[j]
  }

  lemma {:induction false} MatchRefsSound(subs: seq<SubscriberEntry>, k: nat, refs: seq<InputEntry>, m: Match)
    requires k < |subs|
    ensures m in MatchRefs(subs, k, refs) <==> m.sub == k && m.extRef in refs && Wants(subs[k], m.extRef)
    decreases |refs|
  {
    if refs == [] {
    } else {
      MatchRefsSound(subs, k, refs[..|refs| - 1], m);
    }
  }

  /** Every match is of a reference that wants its entry, and none is missed. */
  lemma {:induction false} MatchesExactly(subs: seq<SubscriberEntry>, n: nat, refs: seq<InputEntry>, m: Match)
    requires n <= |subs|
    ensures m in Matches(subs, n, refs) <==> m.sub < n && m.extRef in refs && Wants(subs[m.sub], m.extRef)
  {
    if n == 0 {
    } else {
      MatchesExactly(subs, n - 1, refs, m);
      MatchRefsSound(subs, n - 1, refs, m);
    }
  }

  lemma MatchesSound(subs: seq<SubscriberEntry>, refs: seq<InputEntry>)
    ensures Sound(subs, refs, Matches(subs, |subs|, refs))
  {
    var ms := Matches(subs, |subs|, refs);
    forall j | 0 <= j < |ms| ensures ms[j].extRef in refs && Wants(subs[ms[j].sub], ms[j].extRef) {
      assert ms[j] in ms;
      MatchesExactly(subs, |subs|, refs, ms[j]);
    }
  }

  lemma {:induction false} MatchesOrdered(subs: seq<SubscriberEntry>, n: nat, refs: seq<InputEntry>)
    requires n <= |subs|
    ensures Ordered(Matches(subs, n, refs))
  {
    if n == 0 {
    } else {
      MatchesOrdered(subs, n - 1, refs);
    }
  }

  lemma {:induction false} MatchRefsOnce(subs: seq<SubscriberEntry>, k: nat, refs: seq<InputEntry>)
    requires k < |subs| && NoRepeats(refs)
    ensures Unique(MatchRefs(subs, k, refs))
    decreases |refs|
  {
    if refs == [] {
    } else {
      var init, last := refs[..|refs| - 1], refs[|refs| - 1];
      MatchRefsOnce(subs, k, init);
      MatchRefsSound(subs, k, init, Match(k, last));
    }
  }

  lemma {:induction false} MatchesOnce(subs: seq<SubscriberEntry>, n: nat, refs: seq<InputEntry>)
    requires n <= |subs| && NoRepeats(refs)
    ensures Unique(Matches(subs, n, refs))
  {
    if n == 0 {
    } else {
      MatchesOnce(subs, n - 1, refs);
      MatchRefsOnce(subs, n - 1, refs);
      var r := Matches(subs, n - 1, refs);
      assert forall j :: 0 <= j < |r| ==> r[j].sub < n - 1;
    }
  }

  /** The matches a..b are those of the entries lo..hi. */
  ghost predicate Span(ms: seq<Match>, lo: nat, hi: nat, a: nat, b: nat) {
    && a <= b <= |ms|
    && (forall j :: 0 <= j < |ms| ==> (ms[j].sub < lo <==> j < a))
    && (forall j :: 0 <= j < |ms| ==> (ms[j].sub < hi <==> j < b))
  }

  lemma Boundary(ms: seq<Match>, n: nat, from: nat) returns (a: nat)
    requires Ordered(ms) && from <= |ms| && forall j :: 0 <= j < from ==> ms[j].sub < n
    ensures from <= a <= |ms| && forall j :: 0 <= j < |ms| ==> (ms[j].sub < n <==> j < a)
  {
    a := from;
    while a < |ms| && ms[a].sub < n
      invariant from <= a <= |ms| && forall j :: 0 <= j < a ==> ms[j].sub < n
    {
      a := a + 1;
    }
  }

  /** Every run of entries has its span of matches. */
  lemma SpanExists(subs: seq<SubscriberEntry>, refs: seq<InputEntry>, lo: nat, hi: nat) returns (a: nat, b: nat)
    requires lo <= hi <= |subs|
    ensures Span(Matches(subs, |subs|, refs), lo, hi, a, b)
  {
    var ms := Matches(subs, |subs|, refs);
    MatchesOrdered(subs, |subs|, refs);
    a := Boundary(ms, lo, 0);
    b := Boundary(ms, hi, a);
  }

  // ---- The chain of a run ----

  /** A run gives exactly one chain: it starts with its first match and ends with its last. */
  lemma RunIsOneChain(subs: seq<SubscriberEntry>, ms: seq<Match>, lo: nat, hi: nat, a: nat, b: nat)
    requires forall i :: 0 <= i < |ms| ==> ms[i].sub < |subs|
    requires OneRun(subs, lo, hi) && Span(ms, lo, hi, a, b) && a < b
    ensures Starts(subs, ms, a)
    ensures forall j :: a < j < b ==> !Starts(subs, ms, j)
    ensures b < |ms| ==> Starts(subs, ms, b)
  {
    assert forall j :: a <= j < b ==> SameBlock(subs[ms[j].sub], subs[lo]);
    if 0 < a {
      assert !SameBlock(subs[ms[a - 1].sub], subs[lo]);
    }
    if b < |ms| {
      assert !SameBlock(subs[ms[b].sub], subs[lo]);
    }
  }

  /** In the memory the loops leave behind, it is the chain found from its first record. */
  lemma RunIsLinked(subs: seq<SubscriberEntry>, ms: seq<Match>, lo: nat, hi: nat, a: nat, b: nat, list: seq<InputValue>)
    requires forall i :: 0 <= i < |ms| ==> ms[i].sub < |subs|
    requires OneRun(subs, lo, hi) && Span(ms, lo, hi, a, b) && a < b
    requires Built(subs, ms, list)
    ensures IsChain(list[a], list[a..b])
  {
    RunIsOneChain(subs, ms, lo, hi, a, b);
    var chain := list[a..b];
    forall i | 0 <= i < |chain| ensures chain[i].sibling == At(chain, i + 1) {
      LinkInRun(subs, ms, list, a, b, a + i);
    }
  }

  lemma LinkInRun(subs: seq<SubscriberEntry>, ms: seq<Match>, list: seq<InputValue>, a: nat, b: nat, j: nat)
    requires forall i :: 0 <= i < |ms| ==> ms[i].sub < |subs|
    requires Built(subs, ms, list) && a <= j < b <= |ms|
    requires forall j :: a < j < b ==> !Starts(subs, ms, j)
    requires b < |ms| ==> Starts(subs, ms, b)
    ensures list[j].sibling == At(list[a..b], j - a + 1)
  {
    assert LinkedAt(subs, ms, list, j);
  }

  /** The records of a run: entry k has place k - lo. */
  ghost predicate Placed(subs: seq<SubscriberEntry>, ms: seq<Match>, list: seq<InputValue>, lo: nat, a: nat, b: nat)
    requires a <= b <= |ms| == |list|
  {
    forall j :: a <= j < b ==> ms[j].sub == lo + list[j].index && list[j].extRef == ms[j].extRef
  }

  lemma RunPlaces(subs: seq<SubscriberEntry>, ms: seq<Match>, lo: nat, hi: nat, a: nat, b: nat, list: seq<InputValue>)
    requires forall i :: 0 <= i < |ms| ==> ms[i].sub < |subs|
    requires OneRun(subs, lo, hi) && Span(ms, lo, hi, a, b) && Recorded(subs, ms, list)
    ensures Placed(subs, ms, list, lo, a, b)
  {
    forall j | a <= j < b ensures ms[j].sub == lo + list[j].index && list[j].extRef == ms[j].extRef {
      assert Records(subs, ms[j], list[j]);
      IndexFrom(subs, lo, ms[j].sub);
    }
  }

  // ---- What a reference holds afterwards ----

  /** Among the first p records, only record j is for `e`. */
  ghost predicate OnlyRecord(chain: seq<InputValue>, p: nat, j: nat, e: InputEntry)
    requires p <= |chain|
  {
    j < p && forall i :: 0 <= i < p ==> (chain[i].extRef == e <==> i == j)
  }

  lemma {:induction false} SettledWithout(was: Option<MmsValue>, chain: seq<InputValue>, p: nat,
                                          values: seq<Option<MmsValue>>, e: InputEntry)
    requires Deliverable(chain, values, p) && forall i :: 0 <= i < p ==> chain[i].extRef != e
    ensures Settled(was, chain, p, values, e) == was
  {
    if p == 0 {
    } else {
      SettledWithout(was, chain, p - 1, values, e);
    }
  }

  lemma {:induction false} SettledOnce(was: Option<MmsValue>, chain: seq<InputValue>, p: nat,
                                       values: seq<Option<MmsValue>>, j: nat, e: InputEntry)
    requires Deliverable(chain, values, p) && OnlyRecord(chain, p, j, e)
    ensures Settled(was, chain, p, values, e) == Updated(was, values[chain[j].index].value)
  {
    if j < p - 1 {
      SettledOnce(was, chain, p - 1, values, j, e);
    } else {
      SettledWithout(was, chain, p - 1, values, e);
    }
  }

  ghost predicate DistinctNames(subs: seq<SubscriberEntry>, lo: nat, hi: nat)
    requires lo <= hi <= |subs|
  {
    forall i, j :: lo <= i < j < hi ==> subs[i].variableName != subs[j].variableName
  }

  /** A reference that wants an entry of a run whose names differ has exactly one record there. */
  lemma OneRecord(subs: seq<SubscriberEntry>, refs: seq<InputEntry>, ms: seq<Match>, lo: nat, hi: nat, a: nat, b: nat,
                  list: seq<InputValue>, k: nat, e: InputEntry) returns (j: nat)
    requires Sound(subs, refs, ms) && Unique(ms) && Match(k, e) in ms
    requires lo <= hi <= |subs| && DistinctNames(subs, lo, hi) && Span(ms, lo, hi, a, b)
    requires |list| == |ms| && Placed(subs, ms, list, lo, a, b)
    requires lo <= k < hi && e in refs && Wants(subs[k], e)
    ensures OnlyRecord(list[a..b], b - a, j, e) && list[a..b][j].index == k - lo
  {
    var i :| 0 <= i < |ms| && ms[i] == Match(k, e);
    j := i - a;
    forall l | a <= l < b && list[l].extRef == e ensures l == i {
      assert Wants(subs[ms[l].sub], ms[l].extRef);
      assert ms[l].sub == k;
      assert ms[l] == Match(k, e);
    }
  }

  /** A dataset at least as long as the run serves its whole chain. */
  lemma LongEnough(subs: seq<SubscriberEntry>, ms: seq<Match>, lo: nat, hi: nat, a: nat, b: nat,
                   list: seq<InputValue>, values: seq<Option<MmsValue>>, p: nat)
    requires Ordered(ms) && lo <= hi && Span(ms, lo, hi, a, b) && |list| == |ms| && Placed(subs, ms, list, lo, a, b)
    requires hi - lo <= |values| && forall i :: 0 <= i < hi - lo ==> values[i].Some?
    requires Covers(list[a..b], values, p)
    ensures p == b - a
  {
    var chain := list[a..b];
    assert forall l :: 0 <= l < b - a ==> chain[l] == list[a + l] && chain[l].index == ms[a + l].sub - lo;
    assert Deliverable(chain, values, b - a);
  }

  lemma WholeRunServed(subs: seq<SubscriberEntry>, refs: seq<InputEntry>, lo: nat, hi: nat, a: nat, b: nat,
                       list: seq<InputValue>, values: seq<Option<MmsValue>>, p: nat)
    requires OneRun(subs, lo, hi) && Span(Matches(subs, |subs|, refs), lo, hi, a, b)
    requires Recorded(subs, Matches(subs, |subs|, refs), list)
    requires hi - lo <= |values| && forall i :: 0 <= i < hi - lo ==> values[i].Some?
    requires Covers(list[a..b], values, p)
    ensures p == b - a
  {
    var ms := Matches(subs, |subs|, refs);
    MatchesOrdered(subs, |subs|, refs);
    RunPlaces(subs, ms, lo, hi, a, b, list);
    LongEnough(subs, ms, lo, hi, a, b, list, values, p);
  }

  lemma OneRecordInRun(subs: seq<SubscriberEntry>, refs: seq<InputEntry>, lo: nat, hi: nat, a: nat, b: nat,
                       list: seq<InputValue>, k: nat, e: InputEntry) returns (j: nat)
    requires OneRun(subs, lo, hi) && DistinctNames(subs, lo, hi) && NoRepeats(refs)
    requires Span(Matches(subs, |subs|, refs), lo, hi, a, b)
    requires Recorded(subs, Matches(subs, |subs|, refs), list)
    requires lo <= k < hi && e in refs && Wants(subs[k], e)
    ensures OnlyRecord(list[a..b], b - a, j, e) && list[a..b][j].index == k - lo
  {
    var ms := Matches(subs, |subs|, refs);
    MatchesSound(subs, refs);
    MatchesExactly(subs, |subs|, refs, Match(k, e));
    MatchesOnce(subs, |subs|, refs);
    RunPlaces(subs, ms, lo, hi, a, b, list);
    j := OneRecord(subs, refs, ms, lo, hi, a, b, list, k, e);
  }

  lemma ServedOnce(chain: seq<InputValue>, values: seq<Option<MmsValue>>, was: map<InputEntry, Option<MmsValue>>,
                   calls: seq<InputEntry>, j: nat, e: InputEntry)
    requires Served(chain, |chain|, values, was, calls) && OnlyRecord(chain, |chain|, j, e)
    ensures e in was && e.value == Updated(was[e], values[chain[j].index].value)
  {
    assert chain[j].extRef == e && e in ExtRefs(chain);
    SettledOnce(was[e], chain, |chain|, values, j, e);
  }

  /** End to end. `list` is what subscribeToGOOSEInputs built for the entries; a dataset covering
      the run lo..hi was merged against the run's chain, list[a..b]. Then a reference that wants
      entry k has one record there, was given the member at place k - lo, and all the chain was
      called back in order. */
  lemma EveryReferenceIsServed(subs: seq<SubscriberEntry>, refs: seq<InputEntry>, lo: nat, hi: nat, a: nat, b: nat,
                               list: seq<InputValue>, values: seq<Option<MmsValue>>, p: nat,
                               was: map<InputEntry, Option<MmsValue>>, calls: seq<InputEntry>, k: nat, e: InputEntry)
    returns (j: nat)
    requires OneRun(subs, lo, hi) && DistinctNames(subs, lo, hi) && NoRepeats(refs)
    requires Span(Matches(subs, |subs|, refs), lo, hi, a, b)
    requires Recorded(subs, Matches(subs, |subs|, refs), list)
    requires hi - lo <= |values| && forall i :: 0 <= i < hi - lo ==> values[i].Some?
    requires Covers(list[a..b], values, p) && Served(list[a..b], p, values, was, calls)
    requires lo <= k < hi && e in refs && Wants(subs[k], e)
    ensures e in was
    ensures e.value == if Takes(was[e], values[k - lo].value) then values[k - lo] else was[e]
    ensures calls == Callbacks(list[a..b])
    ensures OnlyRecord(list[a..b], b - a, j, e)
  {
    var chain := list[a..b];
    WholeRunServed(subs, refs, lo, hi, a, b, list, values, p);
    assert p == |chain| && chain[..p] == chain;
    j := OneRecordInRun(subs, refs, lo, hi, a, b, list, k, e);
    ServedOnce(chain, values, was, calls, j, e);
  }

  /** The chain of any records, met in the order of the places only if these never decrease: a later
      entry that starts its dataset anew is not served behind an earlier one. */
  lemma ServedExactlyWhile(chain: seq<InputValue>, values: seq<Option<MmsValue>>, p: nat)
    requires Covers(chain, values, p)
    ensures p == |chain| <==>
      && (forall i :: 0 <= i < |chain| ==> chain[i].index < |values| && values[chain[i].index].Some?)
      && (forall i :: 0 < i < |chain| ==> chain[i - 1].index <= chain[i].index)
  {
    if Deliverable(chain, values, |chain|) && p < |chain| {
      assert !Deliverable(chain, values, p + 1);
    }
  }
}
