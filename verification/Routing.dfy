/** Routing of received GOOSE datasets (`input/inputs.c`): the subscriber entries and the external
    references are matched into one chain of records per control block, and a received dataset is
    merged against a chain, both walked once. */
module Routing {
  import opened Mms
  import opened Inputs

  /** A line `SD(...)` of the extended model: a member of a dataset sent by a control block. */
  datatype SubscriberEntry = SubscriberEntry(
    variableName: string,
    dataset: string,
    appId: nat,
    ethAddr: seq<nat>,
    cbRef: string)

  /** Two entries counted as members of the same dataset. */
  predicate SameDataset(a: SubscriberEntry, b: SubscriberEntry) {
    SameText(a.dataset, b.dataset) && a.appId == b.appId && a.ethAddr == b.ethAddr
  }

  /** Two entries served by the same subscriber. */
  predicate SameBlock(a: SubscriberEntry, b: SubscriberEntry) {
    a.appId == b.appId && SameText(a.cbRef, b.cbRef)
  }

  /** The position an entry is taken to have in its dataset. */
  function Index(subs: seq<SubscriberEntry>, k: nat): (r: nat)
    requires k < |subs|
  {
    if k == 0 || !SameDataset(subs[k - 1], subs[k]) then 0 else Index(subs, k - 1) + 1
  }

  predicate Wants(sub: SubscriberEntry, extRef: InputEntry) {
    SameText(sub.variableName, extRef.Ref) && SameText(extRef.serviceType, "GOOSE")
  }

  /** Entry number `sub` meets a reference that wants it. */
  datatype Match = Match(sub: nat, extRef: InputEntry)

  // ---- The matches, in the order of the three nested loops ----

  function MatchRefs(subs: seq<SubscriberEntry>, k: nat, refs: seq<InputEntry>): (r: seq<Match>)
    requires k < |subs|
    ensures forall j :: 0 <= j < |r| ==> r[j].sub == k
  {
    if refs == [] then []
    else
      var last := refs[|refs| - 1];
      var before := MatchRefs(subs, k, refs[..|refs| - 1]);
      if Wants(subs[k], last) then before + [Match(k, last)] else before
  }

  /** The references of all nodes, node after node. */
  function Flat(inputs: seq<seq<InputEntry>>): seq<InputEntry> {
    if inputs == [] then [] else Flat(inputs[..|inputs| - 1]) + inputs[|inputs| - 1]
  }

  function Matches(subs: seq<SubscriberEntry>, n: nat, refs: seq<InputEntry>): (r: seq<Match>)
    requires n <= |subs|
    ensures forall j :: 0 <= j < |r| ==> r[j].sub < n
  {
    if n == 0 then [] else Matches(subs, n - 1, refs) + MatchRefs(subs, n - 1, refs)
  }

  /** Whether a match opens a chain: it is the first, or the block changes. */
  predicate Starts(subs: seq<SubscriberEntry>, ms: seq<Match>, j: nat)
    requires j < |ms| && forall i :: 0 <= i < |ms| ==> ms[i].sub < |subs|
  {
    j == 0 || !SameBlock(subs[ms[j].sub], subs[ms[j - 1].sub])
  }

  datatype Subscriber = Subscriber(cbRef: string, appId: nat, parameter: InputValue)

  /** The subscriber made for match i, with the head of the chain it opens. */
  function SubscriberAt(subs: seq<SubscriberEntry>, ms: seq<Match>, list: seq<InputValue>, i: nat): Subscriber
    requires i < |ms| == |list| && forall i :: 0 <= i < |ms| ==> ms[i].sub < |subs|
  {
    Subscriber(subs[ms[i].sub].cbRef, subs[ms[i].sub].appId, list[i])
  }

  /** The subscribers of the first n matches: one for each that opens a chain. */
  function Subscribers(subs: seq<SubscriberEntry>, ms: seq<Match>, list: seq<InputValue>, n: nat): (r: seq<Subscriber>)
    requires n <= |ms| == |list| && forall i :: 0 <= i < |ms| ==> ms[i].sub < |subs|
  {
    if n == 0 then []
    else
      var before := Subscribers(subs, ms, list, n - 1);
      if Starts(subs, ms, n - 1) then before + [SubscriberAt(subs, ms, list, n - 1)] else before
  }

  /** The record that follows record j in its chain. */
  function Follower(subs: seq<SubscriberEntry>, ms: seq<Match>, list: seq<InputValue>, j: nat): InputValue?
    requires j < |list| == |ms| && forall i :: 0 <= i < |ms| ==> ms[i].sub < |subs|
  {
    if j + 1 < |list| && !Starts(subs, ms, j + 1) then list[j + 1] else null
  }

  /** One record for each match. */
  ghost predicate Recorded(subs: seq<SubscriberEntry>, ms: seq<Match>, list: seq<InputValue>)
    requires forall i :: 0 <= i < |ms| ==> ms[i].sub < |subs|
  {
    |list| == |ms|
    && forall j {:trigger Records(subs, ms[j], list[j])} :: 0 <= j < |list| ==> Records(subs, ms[j], list[j])
  }

  ghost predicate LinkedAt(subs: seq<SubscriberEntry>, ms: seq<Match>, list: seq<InputValue>, j: nat)
    requires j < |list| == |ms| && forall i :: 0 <= i < |ms| ==> ms[i].sub < |subs|
    reads list[j]
  {
    list[j].sibling == Follower(subs, ms, list, j)
  }

  /** The records built for the matches: one each, in order, linked up to the next chain. */
  ghost predicate Built(subs: seq<SubscriberEntry>, ms: seq<Match>, list: seq<InputValue>)
    requires forall i :: 0 <= i < |ms| ==> ms[i].sub < |subs|
    reads Nodes(list)
  {
    && Recorded(subs, ms, list)
    && forall j {:trigger LinkedAt(subs, ms, list, j)} :: 0 <= j < |list| ==> LinkedAt(subs, ms, list, j)
  }

  predicate Records(subs: seq<SubscriberEntry>, m: Match, node: InputValue)
    requires m.sub < |subs|
  {
    node.index == Index(subs, m.sub) && node.extRef == m.extRef && node.DA == None
  }

  // ---- subscribeToGOOSEInputs ----

  /** The variables of the loops: what was made so far, and the last record and entry. */
  datatype Locals = Locals(
    list: seq<InputValue>,
    subscribers: seq<Subscriber>,
    previousValue: InputValue?,
    previousEntry: Option<SubscriberEntry>)

  const NOTHING := Locals([], [], null, None)

  function LastMatch(ms: seq<Match>): Match
    requires ms != []
  {
    ms[|ms| - 1]
  }

  function LastRecord(list: seq<InputValue>): InputValue
    requires list != []
  {
    list[|list| - 1]
  }

  /** What the loops remember of the last record made. */
  ghost predicate Remembers(subs: seq<SubscriberEntry>, ms: seq<Match>, v: Locals)
    requires |v.list| == |ms| && forall i :: 0 <= i < |ms| ==> ms[i].sub < |subs|
  {
    if ms == [] then v.previousValue == null && v.previousEntry == None
    else
      var last := subs[LastMatch(ms).sub];
      && v.previousValue == LastRecord(v.list)
      && v.previousEntry.Some? && v.previousEntry.value.appId == last.appId && v.previousEntry.value.cbRef == last.cbRef
  }

  /** The loops have dealt with the matches `ms`. */
  ghost predicate Subscribed(subs: seq<SubscriberEntry>, ms: seq<Match>, v: Locals)
    requires forall i :: 0 <= i < |ms| ==> ms[i].sub < |subs|
    reads Nodes(v.list)
  {
    && Built(subs, ms, v.list) && Remembers(subs, ms, v) && v.subscribers == Subscribers(subs, ms, v.list, |ms|)
    && (v.list != [] ==> LastRecord(v.list) !in v.list[..|v.list| - 1])
  }

  function Previous(v: Locals): set<InputValue> {
    if v.previousValue == null then {} else {v.previousValue}
  }

  lemma SubscribersStable(subs: seq<SubscriberEntry>, ms: seq<Match>, list: seq<InputValue>, n: nat,
                          m: Match, node: InputValue)
    requires n <= |ms| == |list| && m.sub < |subs| && forall i :: 0 <= i < |ms| ==> ms[i].sub < |subs|
    ensures Subscribers(subs, ms + [m], list + [node], n) == Subscribers(subs, ms, list, n)
  {
  }

  /** A further match changes at most what follows the last record. */
  lemma FollowerStable(subs: seq<SubscriberEntry>, ms: seq<Match>, list: seq<InputValue>, m: Match, node: InputValue)
    requires |list| == |ms| && m.sub < |subs| && forall i :: 0 <= i < |ms| ==> ms[i].sub < |subs|
    ensures forall j :: 0 <= j < |ms| - 1 ==>
      Follower(subs, ms + [m], list + [node], j) == Follower(subs, ms, list, j)
    ensures ms != [] ==> Follower(subs, ms + [m], list + [node], |ms| - 1)
                         == if SameBlock(subs[m.sub], subs[ms[|ms| - 1].sub]) then node else null
    ensures Follower(subs, ms + [m], list + [node], |ms|) == null
  {
  }

  lemma RecordedMore(subs: seq<SubscriberEntry>, ms: seq<Match>, list: seq<InputValue>, m: Match, node: InputValue)
    requires m.sub < |subs| && forall i :: 0 <= i < |ms| ==> ms[i].sub < |subs|
    requires Recorded(subs, ms, list) && Records(subs, m, node)
    ensures Recorded(subs, ms + [m], list + [node])
  {
  }

  /** One more record, in the chain of the previous one or at the head of a new chain. */
  method AddRecord(subs: seq<SubscriberEntry>, k: nat, index: nat, extRef: InputEntry, v: Locals, ghost ms: seq<Match>)
    returns (v': Locals)
    requires k < |subs| && index == Index(subs, k)
    requires forall i :: 0 <= i < |ms| ==> ms[i].sub < |subs|
    requires Subscribed(subs, ms, v)
    modifies Previous(v)
    ensures Subscribed(subs, ms + [Match(k, extRef)], v') && fresh(Previous(v'))
  {
    ghost var m := Match(k, extRef);
    var inputValue := new InputValue(index, None, extRef);
    var previousValue, previousEntry, subscribers := v.previousValue, v.previousEntry, v.subscribers;
    if previousEntry == None {
      previousEntry := Some(subs[k]);
      previousValue := null;
    }
    if subs[k].appId != previousEntry.value.appId || !SameText(subs[k].cbRef, previousEntry.value.cbRef) {
      previousValue := null;
    }
    if previousValue == null {
      subscribers := subscribers + [Subscriber(subs[k].cbRef, subs[k].appId, inputValue)];
      previousEntry := Some(subs[k]);
    } else {
      previousValue.sibling := inputValue;
    }
    v' := Locals(v.list + [inputValue], subscribers, inputValue, previousEntry);
    FollowerStable(subs, ms, v.list, m, inputValue);
    forall j | 0 <= j < |v'.list| ensures LinkedAt(subs, ms + [m], v'.list, j) {
      if j < |ms| {
        assert old(LinkedAt(subs, ms, v.list, j));
      }
    }
    RecordedMore(subs, ms, v.list, m, inputValue);
    SubscribersStable(subs, ms, v.list, |ms|, m, inputValue);
  }

  lemma MatchRefsSnoc(subs: seq<SubscriberEntry>, k: nat, refs: seq<InputEntry>, e: InputEntry)
    requires k < |subs|
    ensures MatchRefs(subs, k, refs + [e]) ==
            if Wants(subs[k], e) then MatchRefs(subs, k, refs) + [Match(k, e)] else MatchRefs(subs, k, refs)
  {
    assert (refs + [e])[..|refs|] == refs;
  }

  /** The matches of the entries before k, and those of entry k with the references `done` so far. */
  function Before(subs: seq<SubscriberEntry>, k: nat, all: seq<InputEntry>, done: seq<InputEntry>): (r: seq<Match>)
    requires k < |subs|
    ensures forall j :: 0 <= j < |r| ==> r[j].sub < |subs|
  {
    Matches(subs, k, all) + MatchRefs(subs, k, done)
  }

  lemma BeforeSnoc(subs: seq<SubscriberEntry>, k: nat, all: seq<InputEntry>, done: seq<InputEntry>, e: InputEntry)
    requires k < |subs|
    ensures Before(subs, k, all, done + [e]) ==
            if Wants(subs[k], e) then Before(subs, k, all, done) + [Match(k, e)] else Before(subs, k, all, done)
  {
    MatchRefsSnoc(subs, k, done, e);
  }

  lemma TakeSnoc(before: seq<InputEntry>, refs: seq<InputEntry>, l: nat)
    requires l < |refs|
    ensures before + refs[..l + 1] == before + refs[..l] + [refs[l]]
  {
  }

  lemma FlatSnoc(inputs: seq<seq<InputEntry>>, i: nat)
    requires i < |inputs|
    ensures Flat(inputs[..i + 1]) == Flat(inputs[..i]) + inputs[i]
  {
    assert inputs[..i + 1][..i] == inputs[..i];
  }

  /** The body of the innermost loop. */
  method SubscribeRef(subs: seq<SubscriberEntry>, k: nat, index: nat, extRef: InputEntry, v: Locals,
                      ghost all: seq<InputEntry>, ghost done: seq<InputEntry>)
    returns (v': Locals)
    requires k < |subs| && index == Index(subs, k) && Subscribed(subs, Before(subs, k, all, done), v)
    modifies Previous(v)
    ensures Subscribed(subs, Before(subs, k, all, done + [extRef]), v')
    ensures v'.previousValue == v.previousValue || fresh(v'.previousValue)
  {
    v' := v;
    BeforeSnoc(subs, k, all, done, extRef);
    if SameText(subs[k].variableName, extRef.Ref) {
      if SameText(extRef.serviceType, "GOOSE") {
        v' := AddRecord(subs, k, index, extRef, v, Before(subs, k, all, done));
      }
    }
  }

  /** The innermost loop: the references of one node. */
  method SubscribeRefs(subs: seq<SubscriberEntry>, k: nat, index: nat, refs: seq<InputEntry>, v0: Locals,
                       ghost all: seq<InputEntry>, ghost before: seq<InputEntry>)
    returns (v: Locals)
    requires k < |subs| && index == Index(subs, k) && Subscribed(subs, Before(subs, k, all, before), v0)
    modifies Previous(v0)
    ensures Subscribed(subs, Before(subs, k, all, before + refs), v)
    ensures v.previousValue == v0.previousValue || fresh(v.previousValue)
  {
    v := v0;
    ghost var done := before;
    assert before + refs[..0] == before && before + refs[..|refs|] == before + refs;
    var l := 0;
    while l < |refs|
      invariant l <= |refs| && (v.previousValue == v0.previousValue || fresh(v.previousValue))
      invariant done == before + refs[..l] && Subscribed(subs, Before(subs, k, all, done), v)
    {
      v := SubscribeRef(subs, k, index, refs[l], v, all, done);
      TakeSnoc(before, refs, l);
      done := done + [refs[l]];
      l := l + 1;
    }
  }

  /** The loop over the nodes: every reference that wants entry k. */
  method SubscribeEntry(subs: seq<SubscriberEntry>, k: nat, index: nat, inputs: seq<seq<InputEntry>>, v0: Locals)
    returns (v: Locals)
    requires k < |subs| && index == Index(subs, k) && Subscribed(subs, Matches(subs, k, Flat(inputs)), v0)
    modifies Previous(v0)
    ensures Subscribed(subs, Matches(subs, k + 1, Flat(inputs)), v)
    ensures v.previousValue == v0.previousValue || fresh(v.previousValue)
  {
    v := v0;
    ghost var done := [];
    assert Before(subs, k, Flat(inputs), done) == Matches(subs, k, Flat(inputs));
    var i := 0;
    while i < |inputs|
      invariant i <= |inputs| && (v.previousValue == v0.previousValue || fresh(v.previousValue))
      invariant done == Flat(inputs[..i]) && Subscribed(subs, Before(subs, k, Flat(inputs), done), v)
    {
      v := SubscribeRefs(subs, k, index, inputs[i], v, Flat(inputs), done);
      FlatSnoc(inputs, i);
      done := done + inputs[i];
      i := i + 1;
    }
    assert inputs[..i] == inputs;
  }

  /** What identifies the dataset of the entries seen last: name, APPID and address. */
  datatype Group = Group(dataset: string, appId: nat, ethAddr: seq<nat>)

  /** The first lines of the outer loop: the place of entry k in its dataset. */
  method NextIndex(subs: seq<SubscriberEntry>, k: nat, previous: Option<Group>, dataSetIndex: nat)
    returns (group: Option<Group>, index: nat)
    requires k < |subs| && Indexed(subs, k, previous, dataSetIndex)
    ensures group == Some(Group(subs[k].dataset, subs[k].appId, subs[k].ethAddr)) && index == Index(subs, k)
  {
    var sub := subs[k];
    if previous.Some? && SameText(previous.value.dataset, sub.dataset) && previous.value.appId == sub.appId
       && previous.value.ethAddr == sub.ethAddr
    {
      return previous, dataSetIndex + 1;
    }
    return Some(Group(sub.dataset, sub.appId, sub.ethAddr)), 0;
  }

  /** What the index variables hold before entry k. */
  ghost predicate Indexed(subs: seq<SubscriberEntry>, k: nat, previous: Option<Group>, dataSetIndex: nat)
    requires k <= |subs|
  {
    if k == 0 then previous == None
    else
      && previous == Some(Group(subs[k - 1].dataset, subs[k - 1].appId, subs[k - 1].ethAddr))
      && dataSetIndex == Index(subs, k - 1)
  }

  /** The outer loop has dealt with the entries before k. */
  ghost predicate DealtWith(subs: seq<SubscriberEntry>, all: seq<InputEntry>, k: nat, v: Locals,
                            previous: Option<Group>, dataSetIndex: nat)
    requires k <= |subs|
    reads Nodes(v.list)
  {
    Subscribed(subs, Matches(subs, k, all), v) && Indexed(subs, k, previous, dataSetIndex)
  }

  /** The body of the outer loop. */
  method SubscribeNext(subs: seq<SubscriberEntry>, k: nat, inputs: seq<seq<InputEntry>>, v: Locals,
                       previous: Option<Group>, dataSetIndex: nat, ghost all: seq<InputEntry>)
    returns (v': Locals, group: Option<Group>, index: nat)
    requires k < |subs| && all == Flat(inputs) && DealtWith(subs, all, k, v, previous, dataSetIndex)
    modifies Previous(v)
    ensures DealtWith(subs, all, k + 1, v', group, index)
    ensures v'.previousValue == v.previousValue || fresh(v'.previousValue)
  {
    group, index := NextIndex(subs, k, previous, dataSetIndex);
    v' := SubscribeEntry(subs, k, index, inputs, v);
  }

  lemma NothingYet(subs: seq<SubscriberEntry>, all: seq<InputEntry>)
    ensures DealtWith(subs, all, 0, NOTHING, None, 0)
  {
  }

  /** The outer loop. */
  method SubscribeAll(subs: seq<SubscriberEntry>, inputs: seq<seq<InputEntry>>, ghost all: seq<InputEntry>)
    returns (v: Locals)
    requires all == Flat(inputs)
    ensures Subscribed(subs, Matches(subs, |subs|, all), v)
  {
    v := NOTHING;
    var previous: Option<Group>, dataSetIndex: nat := None, 0;
    NothingYet(subs, all);
    var k := 0;
    while k < |subs|
      invariant k <= |subs| && (v.previousValue == null || fresh(v.previousValue))
      invariant DealtWith(subs, all, k, v, previous, dataSetIndex)
    {
      v, previous, dataSetIndex := SubscribeNext(subs, k, inputs, v, previous, dataSetIndex, all);
      k := k + 1;
    }
  }

  /** subscribeToGOOSEInputs, given a receiver. */
  method SubscribeToGOOSEInputs(subs: seq<SubscriberEntry>, inputs: seq<seq<InputEntry>>)
    returns (list: seq<InputValue>, subscribers: seq<Subscriber>)
    ensures Built(subs, Matches(subs, |subs|, Flat(inputs)), list)
    ensures subscribers == Subscribers(subs, Matches(subs, |subs|, Flat(inputs)), list, |list|)
  {
    var v := SubscribeAll(subs, inputs, Flat(inputs));
    list, subscribers := v.list, v.subscribers;
  }

  // ---- A received dataset ----

  predicate SameType(a: MmsValue, b: MmsValue) {
    (a.Boolean? <==> b.Boolean?) && (a.BitString? <==> b.BitString?)
  }

  /** The reference holds nothing yet, or a value of the type received. */
  predicate Takes(was: Option<MmsValue>, v: MmsValue) {
    || was == None
    || (was.value.Boolean? && v.Boolean?) || (was.value.BitString? && v.BitString?)
    || (was.value.OtherType? && v.OtherType?)
  }

  /** What is held after a value was received. */
  function Updated(was: Option<MmsValue>, v: MmsValue): Option<MmsValue> {
    if was.Some? && !SameType(was.value, v) then was else Some(v)
  }

  /** The first p records of a chain can be served by one walk over the dataset: their places exist
      and do not decrease. */
  ghost predicate Deliverable(chain: seq<InputValue>, values: seq<Option<MmsValue>>, p: nat) {
    && p <= |chain|
    && (forall i :: 0 <= i < p ==> chain[i].index < |values| && values[chain[i].index].Some?)
    && (forall i :: 0 < i < p ==> chain[i - 1].index <= chain[i].index)
  }

  ghost predicate Covers(chain: seq<InputValue>, values: seq<Option<MmsValue>>, p: nat) {
    Deliverable(chain, values, p) && (p < |chain| ==> !Deliverable(chain, values, p + 1))
  }

  /** The value of `e` after the first p records of the chain were served, in order. */
  ghost function Settled(was: Option<MmsValue>, chain: seq<InputValue>, p: nat, values: seq<Option<MmsValue>>,
                         e: InputEntry): Option<MmsValue>
    requires Deliverable(chain, values, p)
  {
    if p == 0 then was
    else
      var v := Settled(was, chain, p - 1, values, e);
      if chain[p - 1].extRef == e then Updated(v, values[chain[p - 1].index].value) else v
  }

  /** The first p records of the chain are served: their references, which held `was` before, hold
      what they were given, and were called back in order. */
  ghost predicate Served(chain: seq<InputValue>, p: nat, values: seq<Option<MmsValue>>,
                         was: map<InputEntry, Option<MmsValue>>, calls: seq<InputEntry>)
    reads ExtRefs(chain)
  {
    && Deliverable(chain, values, p) && calls == Callbacks(chain[..p])
    && forall e :: e in ExtRefs(chain) ==> e in was && e.value == Settled(was[e], chain, p, values, e)
  }

  /** At a record with a place in the dataset, not before the previous one, the walk goes on exactly
      if there is an element. */
  lemma GoesOn(chain: seq<InputValue>, values: seq<Option<MmsValue>>, p: nat)
    requires p < |chain| && chain[p].index < |values| && Deliverable(chain, values, p)
    requires 0 < p ==> chain[p - 1].index <= chain[p].index
    requires values[chain[p].index].Some?
    ensures Deliverable(chain, values, p + 1)
  {
  }

  lemma Ends(chain: seq<InputValue>, values: seq<Option<MmsValue>>, p: nat)
    requires Deliverable(chain, values, p)
    requires p < |chain| ==>
      || chain[p].index >= |values| || values[chain[p].index] == None
      || (0 < p && chain[p].index < chain[p - 1].index)
    ensures Covers(chain, values, p)
  {
  }

  /** Where the merge is with p records served: at the next record, or at the last one when all
      are served. The places below `floor` are done with. */
  ghost predicate CursorAt(chain: seq<InputValue>, cur: InputValue, p: nat, floor: nat) {
    && 0 < |chain| && p <= |chain| && (0 < p ==> chain[p - 1].index <= floor)
    && (p < |chain| ==> cur == chain[p] && (cur.index >= floor || (0 < p && cur.index < chain[p - 1].index)))
    && (p == |chain| ==> cur == chain[p - 1] && cur.index < floor)
  }

  method CopyElement(extRef: InputEntry, value: MmsValue)
    modifies extRef
    ensures extRef.value == Updated(old(extRef.value), value)
    ensures Takes(old(extRef.value), value) ==> extRef.value == Some(value)
    ensures !Takes(old(extRef.value), value) ==> extRef.value == old(extRef.value)
  {
    if extRef.value == None {
      extRef.value := Some(value);
    } else if SameType(extRef.value.value, value) {
      extRef.value := Some(value);
    }
  }

  /** The body of the inner loop: the element is copied to the reference of record p, which is called
      back; `more` says whether the chain goes on. */
  method ServeRecord(cur0: InputValue, value: MmsValue, calls0: seq<InputEntry>,
                     ghost chain: seq<InputValue>, ghost p: nat, ghost values: seq<Option<MmsValue>>,
                     ghost was: map<InputEntry, Option<MmsValue>>)
    returns (cur: InputValue, calls: seq<InputEntry>, more: bool)
    requires p < |chain| && cur0 == chain[p] && IsChain(chain[0], chain)
    requires Served(chain, p, values, was, calls0)
    requires Deliverable(chain, values, p + 1) && values[cur0.index] == Some(value)
    modifies ExtRefs(chain)
    ensures Served(chain, p + 1, values, was, calls)
    ensures IsChain(chain[0], chain) && (more <==> p + 1 < |chain|)
    ensures cur == chain[if more then p + 1 else p]
    ensures cur0.extRef.value == if Takes(old(cur0.extRef.value), value) then Some(value) else old(cur0.extRef.value)
    ensures forall e :: e in ExtRefs(chain) && e != cur0.extRef ==> e.value == old(e.value)
    ensures calls == if cur0.extRef.hasCallback then calls0 + [cur0.extRef] else calls0
  {
    cur, calls := cur0, calls0;
    assert chain[..p + 1][..p] == chain[..p];
    assert cur.extRef in ExtRefs(chain);
    assert cur.sibling == At(chain, p + 1);
    CopyElement(cur.extRef, value);
    if cur.extRef.hasCallback {
      calls := calls + [cur.extRef];
    }
    more := cur.sibling != null;
    if cur.sibling != null {
      cur := cur.sibling;
    }
  }

  /** The inner loop: all records of one place. */
  method ServePlace(cur0: InputValue, arrayIndex: nat, value: Option<MmsValue>, calls0: seq<InputEntry>,
                    ghost chain: seq<InputValue>, ghost p0: nat, ghost values: seq<Option<MmsValue>>,
                    ghost was: map<InputEntry, Option<MmsValue>>)
    returns (cur: InputValue, calls: seq<InputEntry>, failed: bool, ghost p: nat)
    requires CursorAt(chain, cur0, p0, arrayIndex) && IsChain(chain[0], chain)
    requires arrayIndex < |values| && value == values[arrayIndex]
    requires Served(chain, p0, values, was, calls0)
    modifies ExtRefs(chain)
    ensures Served(chain, p, values, was, calls) && IsChain(chain[0], chain)
    ensures if failed then Covers(chain, values, p) else CursorAt(chain, cur, p, arrayIndex + 1)
  {
    cur, calls, failed, p := cur0, calls0, false, p0;
    var more := true;
    while more && cur.index == arrayIndex
      invariant CursorAt(chain, cur, p, if more then arrayIndex else arrayIndex + 1)
      invariant Served(chain, p, values, was, calls) && IsChain(chain[0], chain)
      decreases |chain| - p
    {
      if value == None {
        Ends(chain, values, p);
        failed := true;
        return;
      }
      GoesOn(chain, values, p);
      cur, calls, more := ServeRecord(cur, value.value, calls, chain, p, values, was);
      p := p + 1;
    }
  }

  /** subscriber_callback_inputs_GOOSE from the dataset on; `values` is None if it is no structure.
      Exactly the longest prefix of the chain that one walk can serve is served, in chain order. */
  method ReceiveDataset(head: InputValue?, ghost chain: seq<InputValue>, values: Option<seq<Option<MmsValue>>>,
                        ghost was: map<InputEntry, Option<MmsValue>>)
    returns (calls: seq<InputEntry>, ghost p: nat)
    requires IsChain(head, chain)
    requires forall e :: e in ExtRefs(chain) ==> e in was && was[e] == e.value
    modifies ExtRefs(chain)
    ensures p <= |chain| && calls == Callbacks(chain[..p])
    ensures values == None ==> p == 0 && forall e :: e in ExtRefs(chain) ==> e.value == was[e]
    ensures values.Some? ==> Covers(chain, values.value, p) && Served(chain, p, values.value, was, calls)
  {
    calls, p := [], 0;
    if head != null && values.Some? {
      var cur: InputValue := head;
      var vs := values.value;
      var arrayIndex := 0;
      while arrayIndex < |vs|
        invariant arrayIndex <= |vs| && IsChain(head, chain)
        invariant CursorAt(chain, cur, p, arrayIndex)
        invariant Served(chain, p, vs, was, calls)
      {
        var failed;
        cur, calls, failed, p := ServePlace(cur, arrayIndex, vs[arrayIndex], calls, chain, p, vs, was);
        if failed {
          return;
        }
        arrayIndex := arrayIndex + 1;
      }
    }
  }
}
