/** From the printed text of an extended model to the values of its references: what the generator
    writes is read, subscribed to and served as one run of entries per data set. */
module EndToEnd {
  import opened Mms
  import opened Inputs
  import opened ExtModel
  import opened ExtPrinter
  import opened ExtReading
  import opened RoundTrip
  import Delivery
  import Routing
  import RoutingTheorems

  /** The entry of the routing for one SD line. */
  function RoutingEntry(s: Subscriber): Routing.SubscriberEntry {
    Routing.SubscriberEntry(s.variableName, s.dataset, s.appId, s.ethAddr, s.cbRef)
  }

  function RoutingEntries(subs: seq<Subscriber>): (r: seq<Routing.SubscriberEntry>)
    ensures |r| == |subs| && forall k :: 0 <= k < |r| ==> r[k] == RoutingEntry(subs[k])
  {
    seq(|subs|, k requires 0 <= k < |subs| => RoutingEntry(subs[k]))
  }

  // ---- Where the entries of a data set are ----

  lemma {:induction false} MemberEntryAt(sent: SentSet, names: seq<string>, k: nat)
    requires k < |names|
    ensures MemberEntries(sent, names)[k] == SubscriberOf(sent, names[k])
    decreases |names|
  {
    var init := names[..|names| - 1];
    if k < |init| {
      MemberEntryAt(sent, init, k);
    }
  }

  lemma SetEntriesSnoc(init: seq<SentSet>, last: SentSet)
    ensures SetEntries(init + [last]) == SetEntries(init) + MemberEntries(last, last.names)
  {
    assert (init + [last])[..|init|] == init;
  }

  lemma {:induction false} SetEntriesAppend(a: seq<SentSet>, b: seq<SentSet>)
    ensures SetEntries(a + b) == SetEntries(a) + SetEntries(b)
    decreases |b|
  {
    if b == [] {
      assert a + b == a;
    } else {
      var init, last := b[..|b| - 1], b[|b| - 1];
      assert a + b == a + init + [last];
      SetEntriesAppend(a, init);
      SetEntriesSnoc(a + init, last);
      ThreeEntries(SetEntries(a), SetEntries(init), MemberEntries(last, last.names));
    }
  }

  lemma ThreeEntries(a: seq<Subscriber>, b: seq<Subscriber>, c: seq<Subscriber>)
    ensures a + b + c == a + (b + c)
  {
  }

  /** Every entry belongs to one of the data sets. */
  lemma {:induction false} Owner(sets: seq<SentSet>, p: nat) returns (j: nat, name: string)
    requires p < |SetEntries(sets)|
    ensures j < |sets| && SetEntries(sets)[p] == SubscriberOf(sets[j], name)
    decreases |sets|
  {
    var init, last := sets[..|sets| - 1], sets[|sets| - 1];
    if p < |SetEntries(init)| {
      j, name := Owner(init, p);
    } else {
      j := |init|;
      var k := p - |SetEntries(init)|;
      MemberEntryAt(last, last.names, k);
      name := last.names[k];
    }
  }

  /** Data set i is sent by a control block of its own and has a name and address of its own. */
  ghost predicate Apart(sets: seq<SentSet>, i: nat)
    requires i < |sets|
  {
    forall j :: 0 <= j < |sets| && j != i ==>
                  && (sets[j].header.appId != sets[i].header.appId || sets[j].header.cbRef != sets[i].header.cbRef)
                  && (sets[j].header.appId != sets[i].header.appId || sets[j].dataset != sets[i].dataset
                      || sets[j].header.ethAddr != sets[i].header.ethAddr)
  }

  /** The entries lo..hi are those of data set i, and no other entry is of its block or name. */
  ghost predicate RunOf(sets: seq<SentSet>, i: nat, lo: nat, hi: nat)
    requires i < |sets|
  {
    var all := SetEntries(sets);
    && lo <= hi <= |all| && hi - lo == |sets[i].names|
    && (forall k :: lo <= k < hi ==> all[k] == SubscriberOf(sets[i], sets[i].names[k - lo]))
    && (forall k :: 0 <= k < |all| && !(lo <= k < hi) ==> exists j, name {:trigger SubscriberOf(sets[j], name)} ::
          0 <= j < |sets| && j != i && all[k] == SubscriberOf(sets[j], name))
  }

  lemma RunExists(sets: seq<SentSet>, i: nat) returns (lo: nat, hi: nat)
    requires i < |sets|
    ensures RunOf(sets, i, lo, hi)
  {
    var before, mine, after := sets[..i], [sets[i]], sets[i + 1..];
    assert sets == before + mine + after;
    SetEntriesAppend(before + mine, after);
    SetEntriesAppend(before, mine);
    assert mine[..0] == [];
    assert SetEntries(mine) == MemberEntries(sets[i], sets[i].names);
    var all := SetEntries(sets);
    lo := |SetEntries(before)|;
    hi := lo + |sets[i].names|;
    forall k | lo <= k < hi ensures all[k] == SubscriberOf(sets[i], sets[i].names[k - lo]) {
      MemberEntryAt(sets[i], sets[i].names, k - lo);
    }
    forall k | 0 <= k < |all| && !(lo <= k < hi)
      ensures exists j, name {:trigger SubscriberOf(sets[j], name)} ::
          0 <= j < |sets| && j != i && all[k] == SubscriberOf(sets[j], name)
    {
      if k < lo {
        var j, name := Owner(before, k);
        assert all[k] == SubscriberOf(sets[j], name);
      } else {
        var j, name := Owner(after, k - hi);
        assert all[k] == SubscriberOf(sets[i + 1 + j], name);
      }
    }
  }

  /** An entry of another data set has neither the block nor the name of set i. */
  lemma OtherEntry(sets: seq<SentSet>, i: nat, s: Subscriber, mine: Subscriber, name: string)
    requires i < |sets| && Apart(sets, i) && mine == SubscriberOf(sets[i], name)
    requires exists j, n {:trigger SubscriberOf(sets[j], n)} ::
               0 <= j < |sets| && j != i && s == SubscriberOf(sets[j], n)
    ensures !Routing.SameBlock(RoutingEntry(s), RoutingEntry(mine))
    ensures !Routing.SameDataset(RoutingEntry(s), RoutingEntry(mine))
  {
  }

  /** Two entries of one good set have the block and the name in common. */
  lemma SameSet(sent: SentSet, a: string, b: string)
    requires Token(sent.dataset) && Token(sent.header.cbRef)
    ensures Routing.SameBlock(RoutingEntry(SubscriberOf(sent, a)), RoutingEntry(SubscriberOf(sent, b)))
    ensures Routing.SameDataset(RoutingEntry(SubscriberOf(sent, a)), RoutingEntry(SubscriberOf(sent, b)))
  {
  }

  lemma SetTokens(sent: SentSet)
    requires GoodSet(sent) && sent.names != []
    ensures Token(sent.dataset) && Token(sent.header.cbRef)
  {
    assert GoodMember(sent, sent.names[0]);
  }

  /** So the printed entries of a data set are one run for the routing. */
  lemma PrintedRun(sets: seq<SentSet>, i: nat, lo: nat, hi: nat)
    requires i < |sets| && GoodSet(sets[i]) && sets[i].names != [] && Apart(sets, i) && RunOf(sets, i, lo, hi)
    ensures RoutingTheorems.OneRun(RoutingEntries(SetEntries(sets)), lo, hi)
  {
    SetTokens(sets[i]);
    EntriesAreRun(sets, i, lo, hi);
  }

  lemma EntriesAreRun(sets: seq<SentSet>, i: nat, lo: nat, hi: nat)
    requires i < |sets| && sets[i].names != [] && Apart(sets, i) && RunOf(sets, i, lo, hi)
    requires Token(sets[i].dataset) && Token(sets[i].header.cbRef)
    ensures RoutingTheorems.OneRun(RoutingEntries(SetEntries(sets)), lo, hi)
  {
    var all := SetEntries(sets);
    var subs := RoutingEntries(all);
    var names := sets[i].names;
    assert all[lo] == SubscriberOf(sets[i], names[0]);
    forall k | 0 <= k < |subs| ensures Routing.SameBlock(subs[k], subs[lo]) <==> lo <= k < hi {
      if lo <= k < hi {
        SameSet(sets[i], names[k - lo], names[0]);
      } else {
        OtherEntry(sets, i, all[k], all[lo], names[0]);
      }
    }
    forall k | lo < k < hi ensures Routing.SameDataset(subs[k - 1], subs[k]) {
      assert all[k - 1] == SubscriberOf(sets[i], names[k - 1 - lo]) && all[k] == SubscriberOf(sets[i], names[k - lo]);
      SameSet(sets[i], names[k - 1 - lo], names[k - lo]);
    }
    if 0 < lo {
      OtherEntry(sets, i, all[lo - 1], all[lo], names[0]);
    }
  }

  lemma DistinctInRun(sets: seq<SentSet>, i: nat, lo: nat, hi: nat)
    requires i < |sets| && RunOf(sets, i, lo, hi)
    requires forall x, y :: 0 <= x < y < |sets[i].names| ==> sets[i].names[x] != sets[i].names[y]
    ensures RoutingTheorems.DistinctNames(RoutingEntries(SetEntries(sets)), lo, hi)
  {
    var all := SetEntries(sets);
    forall x, y | lo <= x < y < hi ensures all[x].variableName != all[y].variableName {
      assert all[x] == SubscriberOf(sets[i], sets[i].names[x - lo]);
      assert all[y] == SubscriberOf(sets[i], sets[i].names[y - lo]);
    }
  }

  // ---- The references of the parsed model ----

  /** The object made for a parsed reference, before anything was received. */
  ghost predicate MadeOf(e: InputEntry, r: ExtRef) {
    e.Ref == r.ref && e.serviceType == r.serviceType
  }

  ghost predicate RowMadeOf(row: seq<InputEntry>, refs: seq<ExtRef>) {
    |row| == |refs| && forall y :: 0 <= y < |row| ==> MadeOf(row[y], refs[y])
  }

  lemma FlatMore(inputs: seq<seq<InputEntry>>, row: seq<InputEntry>)
    ensures Routing.Flat(inputs + [row]) == Routing.Flat(inputs) + row
  {
    assert (inputs + [row])[..|inputs|] == inputs;
  }

  lemma {:induction false} InFlat(inputs: seq<seq<InputEntry>>, x: nat, y: nat)
    requires x < |inputs| && y < |inputs[x]|
    ensures inputs[x][y] in Routing.Flat(inputs)
    decreases |inputs|
  {
    if x == |inputs| - 1 {
    } else {
      InFlat(inputs[..|inputs| - 1], x, y);
    }
  }

  lemma NoRepeatsMore(refs: seq<InputEntry>, e: InputEntry)
    requires RoutingTheorems.NoRepeats(refs) && e !in refs
    ensures RoutingTheorems.NoRepeats(refs + [e])
  {
  }

  /** The references of one list, each a new object; which of them a node wants to be told of is up to
      the nodes. */
  method CreateRow(refs: seq<ExtRef>, hasCallback: ExtRef -> bool, ghost before: seq<InputEntry>)
    returns (row: seq<InputEntry>)
    requires RoutingTheorems.NoRepeats(before)
    ensures RowMadeOf(row, refs) && RoutingTheorems.NoRepeats(before + row)
    ensures forall e :: e in row ==> fresh(e) && e.value == None
  {
    row := [];
    assert before + row == before;
    var y := 0;
    while y < |refs|
      invariant y <= |refs| && RowMadeOf(row, refs[..y]) && RoutingTheorems.NoRepeats(before + row)
      invariant forall e :: e in row ==> fresh(e) && e.value == None
    {
      var e := new InputEntry(refs[y].ref, refs[y].serviceType, hasCallback(refs[y]));
      NoRepeatsMore(before + row, e);
      assert before + row + [e] == before + (row + [e]);
      row := row + [e];
      y := y + 1;
    }
  }

  ghost predicate AllMadeOf(inputs: seq<seq<InputEntry>>, parsed: seq<ExtModel.Inputs>) {
    |inputs| == |parsed| && forall x :: 0 <= x < |inputs| ==> RowMadeOf(inputs[x], parsed[x].extRefs)
  }

  method CreateEntries(parsed: seq<ExtModel.Inputs>, hasCallback: ExtRef -> bool) returns (inputs: seq<seq<InputEntry>>)
    ensures AllMadeOf(inputs, parsed) && RoutingTheorems.NoRepeats(Routing.Flat(inputs))
    ensures forall e :: e in Routing.Flat(inputs) ==> fresh(e) && e.value == None
  {
    inputs := [];
    ghost var all: seq<InputEntry> := [];
    var x := 0;
    while x < |parsed|
      invariant x <= |parsed| && AllMadeOf(inputs, parsed[..x])
      invariant all == Routing.Flat(inputs) && RoutingTheorems.NoRepeats(all)
      invariant forall e :: e in all ==> fresh(e) && e.value == None
    {
      var row := CreateRow(parsed[x].extRefs, hasCallback, all);
      FlatMore(inputs, row);
      inputs := inputs + [row];
      all := all + row;
      x := x + 1;
    }
  }

  // ---- From the printed text to the values ----

  /** A reference names a member of the data set and is served by GOOSE. */
  predicate Names(r: ExtRef, name: string) {
    r.serviceType == "GOOSE" && r.ref == name
  }

  /** The reference made of r holds exactly the member it names, or nothing. */
  ghost predicate HoldsMember(e: InputEntry, r: ExtRef, names: seq<string>, values: seq<Option<MmsValue>>)
    requires |names| <= |values|
    reads e
  {
    && (forall k :: 0 <= k < |names| && Names(r, names[k]) ==> e.value == values[k])
    && ((forall k :: 0 <= k < |names| ==> !Names(r, names[k])) ==> e.value == None)
  }

  lemma WantsIsNames(sent: SentSet, k: nat, e: InputEntry, r: ExtRef)
    requires GoodSet(sent) && k < |sent.names| && MadeOf(e, r)
    ensures Routing.Wants(RoutingEntry(SubscriberOf(sent, sent.names[k])), e) <==> Names(r, sent.names[k])
  {
    assert GoodMember(sent, sent.names[k]);
  }

  lemma HoldsIsHoldsMember(sets: seq<SentSet>, i: nat, lo: nat, hi: nat, values: seq<Option<MmsValue>>, e: InputEntry,
                           r: ExtRef)
    requires i < |sets| && GoodSet(sets[i]) && RunOf(sets, i, lo, hi) && MadeOf(e, r)
    requires |sets[i].names| <= |values| && forall k :: 0 <= k < |sets[i].names| ==> values[k].Some?
    requires Delivery.Holds(RoutingEntries(SetEntries(sets)), lo, hi, values, None, e)
    ensures HoldsMember(e, r, sets[i].names, values)
  {
    var names, all := sets[i].names, SetEntries(sets);
    var subs := RoutingEntries(all);
    forall k | 0 <= k < |names| ensures Routing.Wants(subs[lo + k], e) <==> Names(r, names[k]) {
      assert all[lo + k] == SubscriberOf(sets[i], names[k]);
      WantsIsNames(sets[i], k, e, r);
    }
    forall k | 0 <= k < |names| && Names(r, names[k]) ensures e.value == values[k] {
      assert Routing.Wants(subs[lo + k], e);
    }
    if forall k :: 0 <= k < |names| ==> !Names(r, names[k]) {
      forall x | lo <= x < hi ensures !Routing.Wants(subs[x], e) {
        assert !Names(r, names[x - lo]);
      }
    }
  }

  predicate NamesOne(r: ExtRef, names: seq<string>) {
    exists k :: 0 <= k < |names| && Names(r, names[k])
  }

  lemma WantedIsNamed(sets: seq<SentSet>, i: nat, lo: nat, hi: nat, e: InputEntry, r: ExtRef)
    requires i < |sets| && GoodSet(sets[i]) && RunOf(sets, i, lo, hi) && MadeOf(e, r)
    ensures Delivery.Wanted(RoutingEntries(SetEntries(sets)), lo, hi, e) <==> NamesOne(r, sets[i].names)
  {
    var names, all := sets[i].names, SetEntries(sets);
    var subs := RoutingEntries(all);
    forall k | 0 <= k < |names| ensures Routing.Wants(subs[lo + k], e) <==> Names(r, names[k]) {
      assert all[lo + k] == SubscriberOf(sets[i], names[k]);
      WantsIsNames(sets[i], k, e, r);
    }
    if x :| lo <= x < hi && Routing.Wants(subs[x], e) {
      assert Names(r, names[x - lo]);
    }
    if k :| 0 <= k < |names| && Names(r, names[k]) {
      assert Routing.Wants(subs[lo + k], e);
    }
  }

  /** The whole way. A model is printed and its text parsed; its references are subscribed to the
      entries parsed; the control block of data set i sends `values`. Then every reference of the model
      that names a member of that data set holds the element in the place of that member, and every
      other holds nothing; and exactly those that name one and have a callback were called back. */
  method SentIsServed(m: Printed, nl: string, i: nat, values: seq<Option<MmsValue>>, hasCallback: ExtRef -> bool)
    returns (inputs: seq<seq<InputEntry>>, calls: seq<InputEntry>)
    requires CalmModel(m) && Good(m) && LineEnd(nl) && i < |m.sets| && m.sets[i].names != [] && Apart(m.sets, i)
    requires forall x, y :: 0 <= x < y < |m.sets[i].names| ==> m.sets[i].names[x] != m.sets[i].names[y]
    requires |m.sets[i].names| <= |values| && forall x :: 0 <= x < |m.sets[i].names| ==> values[x].Some?
    ensures AllMadeOf(inputs, DeviceInputs(m.devices))
    ensures forall x, y :: 0 <= x < |inputs| && 0 <= y < |inputs[x]| ==>
      HoldsMember(inputs[x][y], DeviceInputs(m.devices)[x].extRefs[y], m.sets[i].names, values)
    ensures forall x, y :: 0 <= x < |inputs| && 0 <= y < |inputs[x]| ==>
      (inputs[x][y] in calls <==>
       inputs[x][y].hasCallback && NamesOne(DeviceInputs(m.devices)[x].extRefs[y], m.sets[i].names))
  {
    var outcome := WriteAndRead(m, nl);
    var subs := RoutingEntries(outcome.model.subRefs);
    inputs := CreateEntries(outcome.model.inputs, hasCallback);
    var list, subscribers := Routing.SubscribeToGOOSEInputs(subs, inputs);
    ghost var lo, hi := RunExists(m.sets, i);
    PrintedRun(m.sets, i, lo, hi);
    DistinctInRun(m.sets, i, lo, hi);
    assert SetEntries(m.sets)[lo] == SubscriberOf(m.sets[i], m.sets[i].names[0]);
    ghost var refs := Routing.Flat(inputs);
    calls := Delivery.ReceiveMessage(subs, refs, list, subscribers, m.sets[i].header.cbRef, m.sets[i].header.appId,
                                     values, lo, hi);
    forall x, y | 0 <= x < |inputs| && 0 <= y < |inputs[x]|
      ensures HoldsMember(inputs[x][y], DeviceInputs(m.devices)[x].extRefs[y], m.sets[i].names, values)
    {
      InFlat(inputs, x, y);
      HoldsIsHoldsMember(m.sets, i, lo, hi, values, inputs[x][y], DeviceInputs(m.devices)[x].extRefs[y]);
    }
    forall x, y | 0 <= x < |inputs| && 0 <= y < |inputs[x]|
      ensures inputs[x][y] in calls <==>
              inputs[x][y].hasCallback && NamesOne(DeviceInputs(m.devices)[x].extRefs[y], m.sets[i].names)
    {
      InFlat(inputs, x, y);
      WantedIsNamed(m.sets, i, lo, hi, inputs[x][y], DeviceInputs(m.devices)[x].extRefs[y]);
    }
  }
}
