/** The index from data attributes to the callbacks subscribed to them (`input/inputs.c`,
    `plugin_src/python/python.c`): a list with one chain head per data attribute. */
module CallbackIndex {
  import opened Mms
  import opened Inputs

  /** The records of one data attribute, in the order in which they were registered. */
  function For(log: seq<InputValue>, da: nat): (r: seq<InputValue>)
    ensures forall n :: n in r ==> n in log && n.DA == Some(da)
  {
    if log == [] then []
    else
      var before, last := For(log[..|log| - 1], da), log[|log| - 1];
      if last.DA == Some(da) then before + [last] else before
  }

  /** The records that are the first of their data attribute. */
  function Firsts(log: seq<InputValue>): (r: seq<InputValue>)
    ensures forall n :: n in r ==> n in log
  {
    if log == [] then []
    else
      var before, last := Firsts(log[..|log| - 1]), log[|log| - 1];
      if last.DA.Some? && For(log[..|log| - 1], last.DA.value) == [] then before + [last] else before
  }

  lemma {:induction false} ForAppend(log: seq<InputValue>, more: seq<InputValue>, da: nat)
    ensures For(log + more, da) == For(log, da) + For(more, da)
    decreases |more|
  {
    if more == [] {
      assert log + more == log;
    } else {
      var init := more[..|more| - 1];
      assert (log + more)[..|log + more| - 1] == log + init;
      ForAppend(log, init, da);
    }
  }

  lemma ForMore(log: seq<InputValue>, node: InputValue, da: nat)
    requires node.DA == Some(da)
    ensures For(log + [node], da) == For(log, da) + [node]
    ensures forall d: nat :: d != da ==> For(log + [node], d) == For(log, d)
    ensures Firsts(log + [node]) == if For(log, da) == [] then Firsts(log) + [node] else Firsts(log)
  {
    assert (log + [node])[..|log|] == log;
  }

  /** A head kept by a component agrees with a fresh lookup, whatever was registered since, exactly
      if there was one or nothing was registered for its data attribute. */
  lemma CachedHeadAgrees(log: seq<InputValue>, more: seq<InputValue>, da: nat)
    requires Distinct(log + more)
    ensures At(For(log, da), 0) == At(For(log + more, da), 0) <==> For(log, da) != [] || For(more, da) == []
  {
    ForAppend(log, more, da);
  }

  /** The heads are one for each data attribute that has records: the first of them. */
  lemma {:induction false} FirstsAreHeads(log: seq<InputValue>, da: nat)
    ensures forall n :: n in Firsts(log) && n.DA == Some(da) ==> n == At(For(log, da), 0)
    ensures For(log, da) != [] ==> For(log, da)[0] in Firsts(log)
    decreases |log|
  {
    if log == [] {
    } else {
      FirstsAreHeads(log[..|log| - 1], da);
    }
  }

  /** In the whole list too, the head is the only entry with its data attribute. */
  lemma InList(log: seq<InputValue>, others: seq<InputValue?>, da: nat)
    requires Unrelated(others)
    ensures For(log, da) != [] ==> For(log, da)[0] in others + Firsts(log)
    ensures forall n :: n in others + Firsts(log) && n != null && n.DA == Some(da) ==> n == At(For(log, da), 0)
  {
    FirstsAreHeads(log, da);
  }

  /** No data attribute has two heads. */
  lemma {:induction false} HeadsDiffer(log: seq<InputValue>, i: nat, j: nat)
    requires i < j < |Firsts(log)|
    ensures Firsts(log)[i].DA != Firsts(log)[j].DA
    decreases |log|
  {
    var init := log[..|log| - 1];
    if j < |Firsts(init)| {
      HeadsDiffer(init, i, j);
    } else {
      var last := log[|log| - 1];
      assert Firsts(log)[j] == last && Firsts(log)[i] == Firsts(init)[i];
      FirstsAreHeads(init, last.DA.value);
      assert Firsts(init)[i] in Firsts(init);
    }
  }

  /** InputValueHandleExtensionCallbacks: every callback of a chain, in order. */
  method HandleExtensionCallbacks(head: InputValue?, ghost chain: seq<InputValue>) returns (calls: seq<InputEntry>)
    requires IsChain(head, chain)
    ensures calls == Callbacks(chain)
  {
    calls := [];
    var inputValue := head;
    ghost var i := 0;
    while inputValue != null
      invariant i <= |chain| && inputValue == At(chain, i)
      invariant calls == Callbacks(chain[..i])
      decreases |chain| - i
    {
      assert chain[..i + 1][..i] == chain[..i];
      if inputValue.extRef.hasCallback {
        calls := calls + [inputValue.extRef];
      }
      inputValue := inputValue.sibling;
      i := i + 1;
    }
    assert chain[..i] == chain;
  }

  /** Entries of the list that belong to no data attribute of the model. */
  ghost predicate Unrelated(others: seq<InputValue?>) {
    forall i :: 0 <= i < |others| ==> others[i] == null || others[i].DA == None
  }

  /** The next record from number j on of a data attribute. */
  function NextFrom(log: seq<InputValue>, da: Option<nat>, j: nat): InputValue?
    decreases |log| - j
  {
    if j >= |log| then null else if log[j].DA == da then log[j] else NextFrom(log, da, j + 1)
  }

  function Follower(log: seq<InputValue>, k: nat): InputValue?
    requires k < |log|
  {
    NextFrom(log, log[k].DA, k + 1)
  }

  /** Every record is linked to the next one of its data attribute. */
  ghost predicate Linked(log: seq<InputValue>)
    reads Nodes(log)
  {
    forall k {:trigger log[k].sibling} :: 0 <= k < |log| ==> log[k].sibling == Follower(log, k)
  }

  lemma {:induction false} NextMore(log: seq<InputValue>, node: InputValue, da: Option<nat>, j: nat)
    requires j <= |log|
    ensures NextFrom(log + [node], da, j) ==
            if NextFrom(log, da, j) != null then NextFrom(log, da, j) else if node.DA == da then node else null
    decreases |log| - j
  {
    if j == |log| {
    } else {
      NextMore(log, node, da, j + 1);
    }
  }

  /** What follows a record in the log is what follows it among those of its data attribute. */
  lemma {:induction false} ForFollows(log: seq<InputValue>, da: nat, i: nat, k: nat)
    requires Distinct(log) && k < |log| && i < |For(log, da)| && For(log, da)[i] == log[k]
    ensures At(For(log, da), i + 1) == Follower(log, k)
    decreases |log|
  {
    var init, last := log[..|log| - 1], log[|log| - 1];
    assert log == init + [last];
    if k < |init| {
      NextMore(init, last, log[k].DA, k + 1);
      assert i < |For(init, da)|;
      ForFollows(init, da, i, k);
    } else {
      assert last !in init;
    }
  }

  lemma ForIsChain(log: seq<InputValue>, da: nat)
    requires Distinct(log) && Linked(log)
    ensures IsChain(At(For(log, da), 0), For(log, da))
  {
    var chain := For(log, da);
    forall i | 0 <= i < |chain| ensures chain[i].sibling == At(chain, i + 1) {
      assert chain[i] in log;
      var k :| 0 <= k < |log| && log[k] == chain[i];
      ForFollows(log, da, i, k);
    }
  }

  /** Only the last record of a data attribute is followed by none. */
  lemma NoFollower(log: seq<InputValue>, da: nat, k: nat)
    requires Distinct(log) && k < |log| && log[k].DA == Some(da) && Follower(log, k) == null
    ensures For(log, da) != [] && log[k] == For(log, da)[|For(log, da)| - 1]
  {
    var i := PlaceIn(log, da, k);
    ForFollows(log, da, i, k);
  }

  lemma {:induction false} PlaceIn(log: seq<InputValue>, da: nat, k: nat) returns (i: nat)
    requires k < |log| && log[k].DA == Some(da)
    ensures i < |For(log, da)| && For(log, da)[i] == log[k]
    decreases |log|
  {
    if k < |log| - 1 {
      i := PlaceIn(log[..|log| - 1], da, k);
    } else {
      i := |For(log, da)| - 1;
    }
  }

  function FollowerMore(log: seq<InputValue>, node: InputValue, da: nat, k: nat): InputValue?
    requires k < |log|
  {
    if For(log, da) != [] && log[k] == For(log, da)[|For(log, da)| - 1] then node else Follower(log, k)
  }

  /** What follows each record once a new one was registered. */
  lemma FollowersMore(log: seq<InputValue>, node: InputValue, da: nat)
    requires Distinct(log) && node.DA == Some(da)
    ensures Follower(log + [node], |log|) == null
    ensures forall k :: 0 <= k < |log| ==> Follower(log + [node], k) == FollowerMore(log, node, da, k)
  {
    forall k | 0 <= k < |log| ensures Follower(log + [node], k) == FollowerMore(log, node, da, k) {
      NextMore(log, node, log[k].DA, k + 1);
      if Follower(log, k) == null && log[k].DA == Some(da) {
        NoFollower(log, da, k);
      }
      if For(log, da) != [] && log[k] == For(log, da)[|For(log, da)| - 1] {
        ForFollows(log, da, |For(log, da)| - 1, k);
      }
    }
  }

  /** The search of _findAttributeValueEx, given that only `target` belongs to the data attribute. */
  method FindFirst(list: seq<InputValue?>, da: nat, ghost target: InputValue?) returns (head: InputValue?)
    requires forall n :: n in list && n != null && n.DA == Some(da) ==> n == target
    requires target != null ==> target in list && target.DA == Some(da)
    ensures head == target
  {
    var i := 0;
    while i < |list|
      invariant i <= |list|
      invariant forall k :: 0 <= k < i && list[k] != null ==> list[k].DA != Some(da)
    {
      if list[i] != null && list[i].DA == Some(da) {
        return list[i];
      }
      i := i + 1;
    }
    return null;
  }

  /** The walk to the last record of a chain, and the new record behind it. */
  method Link(head: InputValue, node: InputValue, ghost chain: seq<InputValue>)
    requires IsChain(head, chain) && chain != []
    modifies chain[|chain| - 1]
    ensures chain[|chain| - 1].sibling == node
  {
    var last := head;
    ghost var i := 0;
    while last.sibling != null
      invariant i < |chain| && last == chain[i]
      decreases |chain| - i
    {
      last := last.sibling;
      i := i + 1;
    }
    last.sibling := node;
  }

  /** A new record of a data attribute, linked behind those it has. */
  method AddNode(head: InputValue?, da: nat, entry: InputEntry, ghost log: seq<InputValue>) returns (node: InputValue)
    requires Distinct(log) && Linked(log) && head == At(For(log, da), 0)
    modifies Nodes(log)
    ensures fresh(node) && node.DA == Some(da) && node.extRef == entry
    ensures Linked(log + [node])
  {
    ghost var chain := For(log, da);
    node := new InputValue(0, Some(da), entry);
    ForIsChain(log, da);
    if head != null {
      Link(head, node, chain);
    }
    FollowersMore(log, node, da);
    assert forall k :: 0 <= k < |log| ==> log[k].sibling == FollowerMore(log, node, da, k);
    LinkedMore(log, node, da);
  }

  lemma LinkedMore(log: seq<InputValue>, node: InputValue, da: nat)
    requires forall k :: 0 <= k < |log| ==> log[k].sibling == FollowerMore(log, node, da, k)
    requires forall k :: 0 <= k < |log| ==> Follower(log + [node], k) == FollowerMore(log, node, da, k)
    requires node.sibling == null && Follower(log + [node], |log|) == null
    ensures Linked(log + [node])
  {
    var all := log + [node];
    forall k | 0 <= k < |all| ensures all[k].sibling == Follower(all, k) {
      assert k < |log| ==> all[k] == log[k];
    }
  }

  /** The list is that of the heads of a log, behind entries that belong to no data attribute. */
  ghost predicate ListsHeads(list: seq<InputValue?>, others: seq<InputValue?>, log: seq<InputValue>) {
    && list == others + Firsts(log) && Unrelated(others)
    && Distinct(log) && (forall n :: n in log ==> n.DA.Some?)
  }

  lemma DistinctMore(log: seq<InputValue>, node: InputValue)
    requires Distinct(log) && node !in log
    ensures Distinct(log + [node])
  {
  }

  lemma ListsHeadsMore(list: seq<InputValue?>, others: seq<InputValue?>, log: seq<InputValue>, node: InputValue,
                       da: nat)
    requires ListsHeads(list, others, log) && node !in log && node.DA == Some(da)
    ensures For(log, da) == [] ==> ListsHeads(list + [node], others, log + [node])
    ensures For(log, da) != [] ==> ListsHeads(list, others, log + [node])
  {
    ForMore(log, node, da);
    assert others + (Firsts(log) + [node]) == others + Firsts(log) + [node];
    DistinctMore(log, node);
  }

  /** The list of all records kept by the server: `others` are the entries in front that belong to no
      data attribute, `log` is every record ever registered for one. */
  ghost predicate Indexed(list: seq<InputValue?>, others: seq<InputValue?>, log: seq<InputValue>)
    reads Nodes(log)
  {
    ListsHeads(list, others, log) && Linked(log)
  }

  /** _findAttributeValueEx: the head of the chain of a data attribute, if there is one. */
  method Find(list: seq<InputValue?>, da: nat, ghost others: seq<InputValue?>, ghost log: seq<InputValue>)
    returns (head: InputValue?)
    requires Indexed(list, others, log)
    ensures head == At(For(log, da), 0)
  {
    InList(log, others, da);
    head := FindFirst(list, da, At(For(log, da), 0));
  }

  /** registerDaCallback, and the innermost body of subscribeToLocalDAInputs: one more record, at the
      end of the chain of its data attribute or at the head of a new one. */
  method Register(list: seq<InputValue?>, da: nat, entry: InputEntry,
                  ghost others: seq<InputValue?>, ghost log: seq<InputValue>)
    returns (list': seq<InputValue?>, node: InputValue)
    requires Indexed(list, others, log)
    modifies Nodes(log)
    ensures Indexed(list', others, log + [node])
    ensures fresh(node) && node.DA == Some(da) && node.extRef == entry
  {
    var head := Find(list, da, others, log);
    node := AddNode(head, da, entry, log);
    ListsHeadsMore(list, others, log, node, da);
    list' := if head == null then list + [node] else list;
  }

  /** AttributeValueHandleExtensionCallbacks: calls back exactly what was registered for the data
      attribute, in that order. */
  method HandleCallbacks(list: seq<InputValue?>, da: nat, ghost others: seq<InputValue?>, ghost log: seq<InputValue>)
    returns (calls: seq<InputEntry>)
    requires Indexed(list, others, log)
    ensures calls == Callbacks(For(log, da))
  {
    var head := Find(list, da, others, log);
    ForIsChain(log, da);
    calls := [];
    if head != null {
      calls := HandleExtensionCallbacks(head, For(log, da));
    }
  }

  /** A walk from a head kept since the log was shorter calls back what a fresh lookup would. */
  method HandleCached(cached: InputValue, da: nat, ghost before: seq<InputValue>, ghost more: seq<InputValue>)
    returns (calls: seq<InputEntry>)
    requires Distinct(before + more) && Linked(before + more) && cached == At(For(before, da), 0)
    ensures calls == Callbacks(For(before + more, da))
  {
    CachedHeadAgrees(before, more, da);
    ForIsChain(before + more, da);
    calls := HandleExtensionCallbacks(cached, For(before + more, da));
  }

  /** Entries put in front keep the index an index: the records of received datasets belong to none. */
  lemma BehindOthers(front: seq<InputValue?>, list: seq<InputValue?>, others: seq<InputValue?>, log: seq<InputValue>)
    requires Unrelated(front) && Indexed(list, others, log)
    ensures Indexed(front + list, front + others, log)
  {
    assert front + (others + Firsts(log)) == front + others + Firsts(log);
  }

  // ---- subscribeToLocalDAInputs ----

  /** The part of a reference before its first slash. */
  function DeviceOf(ref: string): (r: Option<string>)
    ensures r.Some? ==> '/' !in r.value && r.value + "/" <= ref
    ensures r == None ==> '/' !in ref
  {
    if ref == "" then None
    else if ref[0] == '/' then Some("")
    else match DeviceOf(ref[1..])
      case None => None
      case Some(rest) => Some([ref[0]] + rest)
  }

  /** The data attribute a reference names in logical device `ld` of the own model. */
  function LocalDA(ied: string, ld: string, attributes: map<string, nat>, ref: string): Option<nat> {
    var device := DeviceOf(ref);
    if device.Some? && SameText(device.value, ied + ld) && ref in attributes then Some(attributes[ref]) else None
  }

  datatype Use = Use(da: nat, extRef: InputEntry)

  function WithUse(uses: seq<Use>, da: Option<nat>, extRef: InputEntry): seq<Use> {
    if da.Some? then uses + [Use(da.value, extRef)] else uses
  }

  /** The uses of own data attributes, device after device and reference after reference. */
  function Uses(ied: string, ld: string, attributes: map<string, nat>, refs: seq<InputEntry>): seq<Use> {
    if refs == [] then []
    else
      var last := refs[|refs| - 1];
      var da := LocalDA(ied, ld, attributes, last.Ref);
      WithUse(Uses(ied, ld, attributes, refs[..|refs| - 1]), da, last)
  }

  function AllUses(ied: string, lds: seq<string>, attributes: map<string, nat>, refs: seq<InputEntry>): seq<Use> {
    if lds == [] then []
    else AllUses(ied, lds[..|lds| - 1], attributes, refs) + Uses(ied, lds[|lds| - 1], attributes, refs)
  }

  /** The reference names an attribute of the own model in logical device `ld`: the device is written
      before its first slash, and not empty or too long. */
  ghost predicate Local(ied: string, ld: string, attributes: map<string, nat>, ref: string) {
    && ref in attributes && 0 < |ied + ld| < 140
    && '/' !in ied + ld && exists rest :: ref == ied + ld + "/" + rest
  }

  lemma {:induction false} DeviceBefore(device: string, rest: string, ref: string)
    requires '/' !in device && ref == device + "/" + rest
    ensures DeviceOf(ref) == Some(device)
  {
    if device == "" {
      assert ref[0] == '/';
    } else {
      assert device[0] in device && ref[0] == device[0] && ref[1..] == device[1..] + "/" + rest;
      DeviceBefore(device[1..], rest, ref[1..]);
      assert [device[0]] + device[1..] == device;
    }
  }

  lemma LocalExactly(ied: string, ld: string, attributes: map<string, nat>, ref: string)
    ensures LocalDA(ied, ld, attributes, ref) ==
            if Local(ied, ld, attributes, ref) then Some(attributes[ref]) else None
  {
    if rest :| ref == ied + ld + "/" + rest && '/' !in ied + ld {
      DeviceBefore(ied + ld, rest, ref);
    }
    var device := DeviceOf(ref);
    if device.Some? && SameText(device.value, ied + ld) {
      assert ref == ied + ld + "/" + ref[|ied + ld| + 1..];
    }
  }

  lemma {:induction false} DeviceUsesExactly(ied: string, ld: string, attributes: map<string, nat>,
                                             refs: seq<InputEntry>, use: Use)
    ensures use in Uses(ied, ld, attributes, refs) <==>
            use.extRef in refs && Local(ied, ld, attributes, use.extRef.Ref) && use.da == attributes[use.extRef.Ref]
    decreases |refs|
  {
    if refs == [] {
    } else {
      var init, last := refs[..|refs| - 1], refs[|refs| - 1];
      assert refs == init + [last];
      DeviceUsesExactly(ied, ld, attributes, init, use);
      LocalExactly(ied, ld, attributes, last.Ref);
    }
  }

  /** Registered are exactly the references that name an attribute of one of the own logical devices. */
  lemma {:induction false} UsesExactly(ied: string, lds: seq<string>, attributes: map<string, nat>,
                                       refs: seq<InputEntry>, use: Use)
    ensures use in AllUses(ied, lds, attributes, refs) <==>
            use.extRef in refs && use.extRef.Ref in attributes && use.da == attributes[use.extRef.Ref]
            && exists ld :: ld in lds && Local(ied, ld, attributes, use.extRef.Ref)
    decreases |lds|
  {
    if lds == [] {
    } else {
      var init, last := lds[..|lds| - 1], lds[|lds| - 1];
      assert lds == init + [last];
      UsesExactly(ied, init, attributes, refs, use);
      DeviceUsesExactly(ied, last, attributes, refs, use);
    }
  }

  ghost predicate Registers(log: seq<InputValue>, uses: seq<Use>) {
    |log| == |uses| && forall k :: 0 <= k < |log| ==> log[k].DA == Some(uses[k].da) && log[k].extRef == uses[k].extRef
  }

  lemma RegistersMore(log: seq<InputValue>, node: InputValue, uses: seq<Use>, use: Use)
    requires Registers(log, uses) && node.DA == Some(use.da) && node.extRef == use.extRef
    ensures Registers(log + [node], uses + [use])
  {
  }

  lemma UsesMore(ied: string, ld: string, attributes: map<string, nat>, refs: seq<InputEntry>, i: nat, before: seq<Use>)
    requires i < |refs|
    ensures before + Uses(ied, ld, attributes, refs[..i + 1])
         == WithUse(before + Uses(ied, ld, attributes, refs[..i]), LocalDA(ied, ld, attributes, refs[i].Ref), refs[i])
  {
    assert refs[..i + 1][..i] == refs[..i];
  }

  /** What the loops have registered so far. */
  ghost predicate Registered(list: seq<InputValue?>, log: seq<InputValue>, uses: seq<Use>)
    reads Nodes(log)
  {
    Indexed(list, [null], log) && Registers(log, uses)
  }

  /** One reference, if it names an own data attribute. */
  method SubscribeReference(da: Option<nat>, extRef: InputEntry, list0: seq<InputValue?>,
                            ghost log0: seq<InputValue>, ghost uses: seq<Use>)
    returns (list: seq<InputValue?>, ghost log: seq<InputValue>)
    requires Registered(list0, log0, uses)
    modifies Nodes(log0)
    ensures Registered(list, log, WithUse(uses, da, extRef))
    ensures forall n :: n in log ==> n in log0 || fresh(n)
  {
    list, log := list0, log0;
    if da.Some? {
      var node;
      list, node := Register(list, da.value, extRef, [null], log);
      RegistersMore(log, node, uses, Use(da.value, extRef));
      log := log + [node];
    }
  }

  /** One logical device: every reference into it is registered. */
  method SubscribeDevice(ied: string, ld: string, attributes: map<string, nat>, refs: seq<InputEntry>,
                         list0: seq<InputValue?>, ghost log0: seq<InputValue>, ghost uses0: seq<Use>)
    returns (list: seq<InputValue?>, ghost log: seq<InputValue>)
    requires Registered(list0, log0, uses0)
    modifies Nodes(log0)
    ensures Registered(list, log, uses0 + Uses(ied, ld, attributes, refs))
    ensures forall n :: n in log ==> n in log0 || fresh(n)
  {
    list, log := list0, log0;
    ghost var uses := uses0;
    assert uses0 + Uses(ied, ld, attributes, refs[..0]) == uses0;
    var i := 0;
    while i < |refs|
      invariant i <= |refs| && uses == uses0 + Uses(ied, ld, attributes, refs[..i])
      invariant Registered(list, log, uses)
      invariant forall n :: n in log ==> n in log0 || fresh(n)
    {
      var da := LocalDA(ied, ld, attributes, refs[i].Ref);
      list, log := SubscribeReference(da, refs[i], list, log, uses);
      UsesMore(ied, ld, attributes, refs, i, uses0);
      uses := WithUse(uses, da, refs[i]);
      i := i + 1;
    }
    assert refs[..i] == refs;
  }

  /** subscribeToLocalDAInputs: one record per use of an own data attribute, in order. */
  method SubscribeToLocalDAInputs(ied: string, lds: seq<string>, attributes: map<string, nat>, refs: seq<InputEntry>)
    returns (list: seq<InputValue?>, ghost log: seq<InputValue>)
    ensures Registered(list, log, AllUses(ied, lds, attributes, refs))
  {
    list, log := [null], [];
    var d := 0;
    while d < |lds|
      invariant d <= |lds|
      invariant Registered(list, log, AllUses(ied, lds[..d], attributes, refs))
      invariant forall n :: n in log ==> fresh(n)
    {
      assert lds[..d + 1][..d] == lds[..d];
      list, log := SubscribeDevice(ied, lds[d], attributes, refs, list, log, AllUses(ied, lds[..d], attributes, refs));
      d := d + 1;
    }
    assert lds[..d] == lds;
  }
}
