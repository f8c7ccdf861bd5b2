/** The way of a GOOSE message: which subscriber it reaches, which chain that serves, and what the
    references hold afterwards (`input/inputs.c`; the receiver that compares the control block
    reference and the APPID of a message is library code, of which only that comparison is modelled). */
module Delivery {
  import opened Mms
  import opened Inputs
  import opened Routing
  import opened RoutingTheorems

  predicate Listens(s: Subscriber, cbRef: string, appId: nat) {
    s.cbRef == cbRef && s.appId == appId
  }

  /** Exactly one subscriber listens to the control block, and it is number q. */
  predicate OnlyListener(subscribers: seq<Subscriber>, q: nat, cbRef: string, appId: nat) {
    q < |subscribers| && forall i :: 0 <= i < |subscribers| ==> (Listens(subscribers[i], cbRef, appId) <==> i == q)
  }

  predicate NoListener(subscribers: seq<Subscriber>, cbRef: string, appId: nat) {
    forall i :: 0 <= i < |subscribers| ==> !Listens(subscribers[i], cbRef, appId)
  }

  /** A subscriber made for a match listens to the block of a run exactly if the match is in its span. */
  lemma ListensInSpan(subs: seq<SubscriberEntry>, ms: seq<Match>, list: seq<InputValue>, lo: nat, hi: nat, a: nat,
                      b: nat,
                      i: nat)
    requires forall j :: 0 <= j < |ms| ==> ms[j].sub < |subs|
    requires OneRun(subs, lo, hi) && Span(ms, lo, hi, a, b) && i < |ms| == |list|
    ensures Listens(SubscriberAt(subs, ms, list, i), subs[lo].cbRef, subs[lo].appId) <==> a <= i < b
  {
    var k := ms[i].sub;
    assert SameBlock(subs[lo], subs[lo]);
    assert SameBlock(subs[k], subs[lo]) <==> subs[k].cbRef == subs[lo].cbRef && subs[k].appId == subs[lo].appId;
  }

  /** Whether the list of subscribers has the one of the span a..b, at place q, or none yet. */
  predicate Listening(r: seq<Subscriber>, cbRef: string, appId: nat, found: bool, q: nat, head: InputValue?) {
    if found then OnlyListener(r, q, cbRef, appId) && r[q].parameter == head else NoListener(r, cbRef, appId)
  }

  lemma OneMore(r: seq<Subscriber>, s: Subscriber, cbRef: string, appId: nat, found: bool, q: nat, head: InputValue?)
    returns (q': nat)
    requires Listening(r, cbRef, appId, found, q, head)
    requires Listens(s, cbRef, appId) ==> !found && s.parameter == head
    ensures Listening(r + [s], cbRef, appId, found || Listens(s, cbRef, appId), q', head)
  {
    q' := if found then q else |r|;
  }

  /** The subscribers of the first n matches: none listens to the block of a run before its span is
      reached, and exactly one afterwards, with the head of the chain of the run. */
  lemma {:induction false} ListenersOf(subs: seq<SubscriberEntry>, ms: seq<Match>, list: seq<InputValue>, lo: nat,
                                       hi: nat,
                                       a: nat, b: nat, n: nat)
    returns (q: nat)
    requires forall j :: 0 <= j < |ms| ==> ms[j].sub < |subs|
    requires OneRun(subs, lo, hi) && Span(ms, lo, hi, a, b) && n <= |ms| == |list|
    ensures Listening(Subscribers(subs, ms, list, n), subs[lo].cbRef, subs[lo].appId, a < b && a < n, q, At(list, a))
  {
    if n == 0 {
      q := 0;
    } else {
      q := ListenersOf(subs, ms, list, lo, hi, a, b, n - 1);
      if Starts(subs, ms, n - 1) {
        ListensInSpan(subs, ms, list, lo, hi, a, b, n - 1);
        if a < b {
          RunIsOneChain(subs, ms, lo, hi, a, b);
        }
        q := OneMore(Subscribers(subs, ms, list, n - 1), SubscriberAt(subs, ms, list, n - 1),
                     subs[lo].cbRef, subs[lo].appId, a < b && a < n - 1, q, At(list, a));
      } else if n - 1 == a && a < b {
        RunIsOneChain(subs, ms, lo, hi, a, b);
      }
    }
  }

  /** A run of entries that somebody wants has exactly one subscriber, which holds the head of its
      chain; a run that nobody wants has none. */
  lemma OneSubscriber(subs: seq<SubscriberEntry>, ms: seq<Match>, list: seq<InputValue>, lo: nat, hi: nat, a: nat,
                      b: nat)
    returns (q: nat)
    requires forall j :: 0 <= j < |ms| ==> ms[j].sub < |subs|
    requires OneRun(subs, lo, hi) && Span(ms, lo, hi, a, b) && |ms| == |list|
    ensures var r := Subscribers(subs, ms, list, |list|);
            if a < b then OnlyListener(r, q, subs[lo].cbRef, subs[lo].appId) && r[q].parameter == list[a]
            else NoListener(r, subs[lo].cbRef, subs[lo].appId)
  {
    q := ListenersOf(subs, ms, list, lo, hi, a, b, |list|);
  }

  /** The subscriber a message is handed to: the first that listens to its control block. */
  method ChooseSubscriber(subscribers: seq<Subscriber>, cbRef: string, appId: nat) returns (parameter: InputValue?)
    ensures NoListener(subscribers, cbRef, appId) ==> parameter == null
    ensures forall q: nat :: OnlyListener(subscribers, q, cbRef, appId) ==> parameter == subscribers[q].parameter
  {
    var i := 0;
    while i < |subscribers|
      invariant i <= |subscribers| && forall j :: 0 <= j < i ==> !Listens(subscribers[j], cbRef, appId)
    {
      if Listens(subscribers[i], cbRef, appId) {
        return subscribers[i].parameter;
      }
      i := i + 1;
    }
    return null;
  }

  function Refs(refs: seq<InputEntry>): set<InputEntry> {
    set e | e in refs
  }

  /** What a reference holds after the block of the run lo..hi sent `values`: the member whose name it
      has, if it held nothing or a value of the same type, and otherwise what it held before. */
  ghost predicate Holds(subs: seq<SubscriberEntry>, lo: nat, hi: nat, values: seq<Option<MmsValue>>,
                        was: Option<MmsValue>, e: InputEntry)
    requires lo <= hi <= |subs| && hi - lo <= |values| && forall x :: 0 <= x < hi - lo ==> values[x].Some?
    reads e
  {
    && (forall k :: lo <= k < hi && Wants(subs[k], e) ==>
          e.value == if Takes(was, values[k - lo].value) then values[k - lo] else was)
    && ((forall k :: lo <= k < hi ==> !Wants(subs[k], e)) ==> e.value == was)
  }

  /** The reference has the name of an entry of the run. */
  ghost predicate Wanted(subs: seq<SubscriberEntry>, lo: nat, hi: nat, e: InputEntry)
    requires lo <= hi <= |subs|
  {
    exists k :: lo <= k < hi && Wants(subs[k], e)
  }

  /** The entry that has the name of d is not behind the one that has the name of e. */
  ghost predicate NotAfter(subs: seq<SubscriberEntry>, lo: nat, hi: nat, d: InputEntry, e: InputEntry)
    requires lo <= hi <= |subs|
  {
    forall k, l :: lo <= k < hi && lo <= l < hi && Wants(subs[k], d) && Wants(subs[l], e) ==> k <= l
  }

  /** Called back are exactly the references with a callback that have the name of an entry of the run,
      each once, those of an earlier entry first. */
  ghost predicate Calls(subs: seq<SubscriberEntry>, refs: seq<InputEntry>, lo: nat, hi: nat, calls: seq<InputEntry>)
    requires lo <= hi <= |subs|
  {
    && (forall e :: e in calls ==> e in refs && e.hasCallback && Wanted(subs, lo, hi, e))
    && (forall e :: e in refs && e.hasCallback && Wanted(subs, lo, hi, e) ==> e in calls)
    && NoRepeats(calls)
    && (forall m, n :: 0 <= m < n < |calls| ==> NotAfter(subs, lo, hi, calls[m], calls[n]))
  }

  /** The records of a chain are for references of the list. */
  lemma ChainRefs(subs: seq<SubscriberEntry>, refs: seq<InputEntry>, list: seq<InputValue>, a: nat, b: nat)
    requires Recorded(subs, Matches(subs, |subs|, refs), list) && a <= b <= |list|
    ensures ExtRefs(list[a..b]) <= Refs(refs)
  {
    var ms := Matches(subs, |subs|, refs);
    MatchesSound(subs, refs);
    forall j | a <= j < b ensures list[j].extRef in refs {
      assert Records(subs, ms[j], list[j]);
    }
  }

  /** A reference that wants no entry of the run has no record in its chain. */
  lemma NotInChain(subs: seq<SubscriberEntry>, refs: seq<InputEntry>, list: seq<InputValue>, lo: nat, hi: nat, a: nat,
                   b: nat,
                   e: InputEntry)
    requires lo <= hi <= |subs| && Span(Matches(subs, |subs|, refs), lo, hi, a, b)
    requires Recorded(subs, Matches(subs, |subs|, refs), list)
    requires forall k :: lo <= k < hi ==> !Wants(subs[k], e)
    ensures e !in ExtRefs(list[a..b])
  {
    var ms := Matches(subs, |subs|, refs);
    MatchesSound(subs, refs);
    forall j | a <= j < b ensures list[j].extRef != e {
      assert Records(subs, ms[j], list[j]);
    }
  }

  /** What was served, seen from one reference; those without a record hold what they held. */
  lemma AllHold(subs: seq<SubscriberEntry>, refs: seq<InputEntry>, list: seq<InputValue>, lo: nat, hi: nat, a: nat,
                b: nat,
                values: seq<Option<MmsValue>>, p: nat, was: map<InputEntry, Option<MmsValue>>, calls: seq<InputEntry>,
                e: InputEntry)
    requires OneRun(subs, lo, hi) && DistinctNames(subs, lo, hi) && NoRepeats(refs)
    requires Span(Matches(subs, |subs|, refs), lo, hi, a, b) && Recorded(subs, Matches(subs, |subs|, refs), list)
    requires hi - lo <= |values| && forall x :: 0 <= x < hi - lo ==> values[x].Some?
    requires Covers(list[a..b], values, p) && Served(list[a..b], p, values, was, calls)
    requires e in refs && e in was && (e !in ExtRefs(list[a..b]) ==> e.value == was[e])
    ensures Holds(subs, lo, hi, values, was[e], e)
  {
    forall k | lo <= k < hi && Wants(subs[k], e)
      ensures e.value == if Takes(was[e], values[k - lo].value) then values[k - lo] else was[e]
    {
      var j := EveryReferenceIsServed(subs, refs, lo, hi, a, b, list, values, p, was, calls, k, e);
    }
    if forall k :: lo <= k < hi ==> !Wants(subs[k], e) {
      NotInChain(subs, refs, list, lo, hi, a, b, e);
    }
  }

  /** A record of a run is for a reference of the list that wants one entry of the run. */
  lemma RecordOfRun(subs: seq<SubscriberEntry>, refs: seq<InputEntry>, list: seq<InputValue>, lo: nat, hi: nat, a: nat,
                    b: nat, j: nat)
    requires OneRun(subs, lo, hi) && DistinctNames(subs, lo, hi)
    requires Span(Matches(subs, |subs|, refs), lo, hi, a, b) && Recorded(subs, Matches(subs, |subs|, refs), list)
    requires a <= j < b
    ensures var m := Matches(subs, |subs|, refs)[j];
            && list[j].extRef == m.extRef && m.extRef in refs && lo <= m.sub < hi
            && Wants(subs[m.sub], m.extRef) && forall k :: lo <= k < hi && Wants(subs[k], m.extRef) ==> k == m.sub
  {
    var ms := Matches(subs, |subs|, refs);
    MatchesSound(subs, refs);
    assert Records(subs, ms[j], list[j]);
  }

  /** The records of a chain are for different references, in the order of their entries. */
  ghost predicate InOrder(subs: seq<SubscriberEntry>, lo: nat, hi: nat, chain: seq<InputValue>)
    requires lo <= hi <= |subs|
  {
    forall i, j :: 0 <= i < j < |chain| ==>
      chain[i].extRef != chain[j].extRef && NotAfter(subs, lo, hi, chain[i].extRef, chain[j].extRef)
  }

  lemma RunInOrder(subs: seq<SubscriberEntry>, refs: seq<InputEntry>, list: seq<InputValue>, lo: nat, hi: nat,
                   a: nat, b: nat)
    requires OneRun(subs, lo, hi) && DistinctNames(subs, lo, hi) && NoRepeats(refs)
    requires Span(Matches(subs, |subs|, refs), lo, hi, a, b) && Recorded(subs, Matches(subs, |subs|, refs), list)
    ensures InOrder(subs, lo, hi, list[a..b])
  {
    var ms := Matches(subs, |subs|, refs);
    MatchesOrdered(subs, |subs|, refs);
    MatchesOnce(subs, |subs|, refs);
    forall i, j | a <= i < j < b
      ensures list[i].extRef != list[j].extRef && NotAfter(subs, lo, hi, list[i].extRef, list[j].extRef)
    {
      RecordOfRun(subs, refs, list, lo, hi, a, b, i);
      RecordOfRun(subs, refs, list, lo, hi, a, b, j);
      assert ms[i] != ms[j];
    }
  }

  lemma CalledInOrder(subs: seq<SubscriberEntry>, lo: nat, hi: nat, chain: seq<InputValue>)
    requires lo <= hi <= |subs| && InOrder(subs, lo, hi, chain)
    ensures var calls := Callbacks(chain);
            && NoRepeats(calls)
            && forall m, n :: 0 <= m < n < |calls| ==> NotAfter(subs, lo, hi, calls[m], calls[n])
  {
    var at := CalledExactly(chain);
  }

  /** The references with a record in the chain of a run are those that have the name of an entry. */
  lemma RunIsWanted(subs: seq<SubscriberEntry>, refs: seq<InputEntry>, list: seq<InputValue>, lo: nat, hi: nat,
                    a: nat, b: nat, e: InputEntry)
    requires OneRun(subs, lo, hi) && DistinctNames(subs, lo, hi) && NoRepeats(refs)
    requires Span(Matches(subs, |subs|, refs), lo, hi, a, b) && Recorded(subs, Matches(subs, |subs|, refs), list)
    ensures e in ExtRefs(list[a..b]) <==> e in refs && Wanted(subs, lo, hi, e)
  {
    if e in ExtRefs(list[a..b]) {
      var j :| a <= j < b && list[j].extRef == e;
      RecordOfRun(subs, refs, list, lo, hi, a, b, j);
    }
    if e in refs && Wanted(subs, lo, hi, e) {
      var k :| lo <= k < hi && Wants(subs[k], e);
      var j := OneRecordInRun(subs, refs, lo, hi, a, b, list, k, e);
      assert list[a..b][j].extRef == e;
    }
  }

  /** The references called back along the chain of a run. */
  lemma RunIsCalled(subs: seq<SubscriberEntry>, refs: seq<InputEntry>, list: seq<InputValue>, lo: nat, hi: nat, a: nat,
                    b: nat)
    requires OneRun(subs, lo, hi) && DistinctNames(subs, lo, hi) && NoRepeats(refs)
    requires Span(Matches(subs, |subs|, refs), lo, hi, a, b) && Recorded(subs, Matches(subs, |subs|, refs), list)
    ensures Calls(subs, refs, lo, hi, Callbacks(list[a..b]))
  {
    var chain := list[a..b];
    RunInOrder(subs, refs, list, lo, hi, a, b);
    CalledInOrder(subs, lo, hi, chain);
    forall e | e in Callbacks(chain) ensures e in refs && e.hasCallback && Wanted(subs, lo, hi, e) {
      CalledReferences(chain, e);
      RunIsWanted(subs, refs, list, lo, hi, a, b, e);
    }
    forall e | e in refs && e.hasCallback && Wanted(subs, lo, hi, e) ensures e in Callbacks(chain) {
      CalledReferences(chain, e);
      RunIsWanted(subs, refs, list, lo, hi, a, b, e);
    }
  }

  /** A message of the control block of the run lo..hi. Whatever the references held: each that has the
      name of a member is given that member, and no other changes. */
  method ReceiveMessage(subs: seq<SubscriberEntry>, ghost refs: seq<InputEntry>, ghost list: seq<InputValue>,
                        subscribers: seq<Subscriber>, cbRef: string, appId: nat, values: seq<Option<MmsValue>>,
                        ghost lo: nat, ghost hi: nat)
    returns (calls: seq<InputEntry>)
    requires OneRun(subs, lo, hi) && DistinctNames(subs, lo, hi) && NoRepeats(refs)
    requires Built(subs, Matches(subs, |subs|, refs), list)
    requires subscribers == Subscribers(subs, Matches(subs, |subs|, refs), list, |list|)
    requires cbRef == subs[lo].cbRef && appId == subs[lo].appId
    requires hi - lo <= |values| && forall x :: 0 <= x < hi - lo ==> values[x].Some?
    modifies Refs(refs)
    ensures forall e :: e in refs ==> Holds(subs, lo, hi, values, old(e.value), e)
    ensures Calls(subs, refs, lo, hi, calls)
  {
    ghost var ms := Matches(subs, |subs|, refs);
    ghost var a, b := SpanExists(subs, refs, lo, hi);
    ghost var q := OneSubscriber(subs, ms, list, lo, hi, a, b);
    ghost var chain := list[a..b];
    ghost var was: map<InputEntry, Option<MmsValue>> := map e: InputEntry | e in refs :: e.value;
    var head := ChooseSubscriber(subscribers, cbRef, appId);
    if a < b {
      RunIsLinked(subs, ms, lo, hi, a, b, list);
    }
    ChainRefs(subs, refs, list, a, b);
    ghost var p;
    calls, p := ReceiveDataset(head, chain, Some(values), was);
    forall e | e in refs ensures Holds(subs, lo, hi, values, was[e], e) {
      AllHold(subs, refs, list, lo, hi, a, b, values, p, was, calls, e);
    }
    WholeRunServed(subs, refs, lo, hi, a, b, list, values, p);
    assert chain[..p] == chain;
    RunIsCalled(subs, refs, list, lo, hi, a, b);
  }
}
