/** Printing an extended model and reading the text: exactly which models come back. */
module RoundTrip {
  import opened Mms
  import opened Lines
  import opened Scan
  import opened ExtModel
  import opened ExtPrinter
  import opened ExtReading

  // ---- Names that survive ----

  predicate Plain(w: string) {
    forall k :: 0 <= k < |w| ==> !IsSpace(w[k]) && w[k] != '\0'
  }

  /** A name that is printed between others. */
  predicate Token(w: string) {
    0 < |w| < NAME_SIZE && Plain(w)
  }

  /** A name that is printed last, before a parenthesis and one more character. */
  predicate Ending(w: string) {
    |w| + 2 < NAME_SIZE && Plain(w) && ')' !in w
  }

  lemma {:induction false} InsideWord(s: string, k: nat)
    requires k < WordLength(s)
    ensures !IsSpace(s[k])
  {
    if k == 0 {
    } else {
      InsideWord(s[1..], k - 1);
    }
  }

  lemma ScanWordIsWord(s: string)
    requires ScanWord(s).Some?
    ensures IsWord(ScanWord(s).value.0)
  {
    var t := SkipSpaces(s);
    forall k | 0 <= k < WordLength(t) ensures !IsSpace(t[k]) {
      InsideWord(t, k);
    }
  }

  lemma {:induction false} ScanWordsAreWords(s: string, n: nat)
    ensures AllWords(ScanWords(s, n).0)
    decreases n
  {
    if n == 0 || ScanWord(s) == None {
    } else {
      ScanWordIsWord(s);
      ScanWordsAreWords(ScanWord(s).value.1, n - 1);
    }
  }

  /** Scanning some words and then more. */
  lemma {:induction false} ScanWordsThen(s: string, k: nat, n: nat)
    requires k <= n && |ScanWords(s, k).0| == k
    ensures ScanWords(s, n).0 == ScanWords(s, k).0 + ScanWords(ScanWords(s, k).1, n - k).0
    decreases k
  {
    if k == 0 {
    } else {
      var (word, rest) := ScanWord(s).value;
      ScanWordsCons(s, k, word, rest);
      ScanWordsCons(s, n, word, rest);
      ScanWordsThen(rest, k - 1, n - 1);
      var (a, left) := ScanWords(rest, k - 1);
      assert [word] + (a + ScanWords(left, n - k).0) == [word] + a + ScanWords(left, n - k).0;
    }
  }

  lemma BlankBefore(s: string)
    ensures ScanWord(" " + s) == ScanWord(s) && FirstWord(" " + s) == FirstWord(s)
  {
    assert (" " + s)[1..] == s;
  }

  /** A name printed last comes back exactly if it is an ending. */
  lemma ReadNameExactly(w: string, close: string)
    requires Calm(w) && Closing(close)
    ensures |FirstWord(w + close)| < NAME_SIZE && ReadName(w, close) == w <==> Ending(w)
    ensures Ending(w) ==> FirstWord(w + close) == w + close
  {
    var first := FirstWord(w + close);
    WordFound(w, close);
    ScanWordIsWord(w + close);
    if ReadName(w, close) == w {
      assert forall k :: 0 <= k < |w| ==> w[k] == first[k];
    }
    if Plain(w) {
      assert IsWord(w + close);
      ScanWordIs(w + close, "");
      assert w + close + "" == w + close;
      if ')' !in w {
        assert (w + close)[..|w|] == w;
        CutIs(w + close, ')', |w|);
      }
    }
  }

  lemma NameExactly(literal: string, w: string, close: string)
    requires Calm(w) && Closing(close) && |literal| < 100
    ensures Fits(literal, w, close) && ReadName(w, close) == w <==> Ending(w)
  {
    ReadNameExactly(w, close);
  }

  // ---- References ----

  predicate GoodRef(e: ExtRef) {
    Token(e.desc) && Token(e.ref) && Token(e.intAddr) && Token(e.serviceType) && Ending(e.srcRef)
  }

  function Firsts(e: ExtRef): seq<string> {
    [e.desc, e.ref, e.intAddr, e.serviceType]
  }

  lemma JoinedFour(a: string, b: string, c: string, d: string)
    ensures Joined([a, b, c, d]) == a + " " + b + " " + c + " " + d
  {
    assert [a, b, c, d][1..] == [b, c, d];
    JoinedThree(b, c, d);
    assert a + " " + (b + " " + c + " " + d) == a + " " + b + " " + c + " " + d;
  }

  lemma RefParts(e: ExtRef)
    ensures RefLine(e).text == "ER(" + (Joined(Firsts(e)) + (" " + (e.srcRef + ");")))
    ensures |RefLine(e).text| == |e.desc| + |e.ref| + |e.intAddr| + |e.serviceType| + |e.srcRef| + 9
  {
    JoinedFive(e.desc, e.ref, e.intAddr, e.serviceType, e.srcRef);
    JoinedFour(e.desc, e.ref, e.intAddr, e.serviceType);
    Regroup("ER(", Joined(Firsts(e)), e.srcRef);
  }

  lemma Regroup(p: string, a: string, b: string)
    ensures p + (a + " " + b) + ");" == p + (a + (" " + (b + ");")))
  {
    assert p + (a + " " + b) + ");" == p + (a + " " + b + ");");
    assert a + " " + b + ");" == a + (" " + (b + ");"));
  }

  /** If the first four names are words, they are read as they are. */
  lemma RefWordsAre(e: ExtRef)
    requires AllWords(Firsts(e))
    ensures RefWords(e) == Firsts(e) + [FirstWord(e.srcRef + ");")]
  {
    var line, last := RefLine(e).text, e.srcRef + ");";
    RefParts(e);
    assert line[..3] == "ER(" && line[3..] == Joined(Firsts(e)) + (" " + last);
    ScanJoined(line[3..], Firsts(e), " " + last);
    ScanWordsThen(line[3..], 4, 5);
    WordFound(e.srcRef, ");");
    BlankBefore(last);
    assert ScanWords(" " + last, 1).0 == [FirstWord(last)];
  }

  lemma GoodRefBack(e: ExtRef)
    requires CalmRef(e) && GoodRef(e)
    ensures RefFits(e) && ReadRef(e) == e
  {
    ReadNameExactly(e.srcRef, ");");
    RefParts(e);
    RefWordsAre(e);
  }

  lemma BackRefWords(e: ExtRef)
    requires RefFits(e) && ReadRef(e) == e
    ensures AllWords(Firsts(e))
    ensures |e.desc| < NAME_SIZE && |e.ref| < NAME_SIZE && |e.intAddr| < NAME_SIZE && |e.serviceType| < NAME_SIZE
  {
    var words := RefWords(e);
    ScanWordsAreWords(RefLine(e).text[3..], 5);
    assert AllWords(words);
    assert Firsts(e) == words[..4];
  }

  lemma BackRefGood(e: ExtRef)
    requires CalmRef(e) && RefFits(e) && ReadRef(e) == e
    ensures GoodRef(e)
  {
    BackRefWords(e);
    RefWordsAre(e);
    assert RefWords(e)[4] == FirstWord(e.srcRef + ");");
    ReadNameExactly(e.srcRef, ");");
    assert Firsts(e)[0] == e.desc && Firsts(e)[1] == e.ref && Firsts(e)[2] == e.intAddr
        && Firsts(e)[3] == e.serviceType;
  }

  /** A reference comes back exactly if its first four names are words that fit and its last one is
      an ending. */
  lemma RefExactly(e: ExtRef)
    requires CalmRef(e)
    ensures RefFits(e) && ReadRef(e) == e <==> GoodRef(e)
  {
    if GoodRef(e) {
      GoodRefBack(e);
    } else if RefFits(e) && ReadRef(e) == e {
      BackRefGood(e);
    }
  }

  // ---- Members of data sets ----

  predicate GoodMember(sent: SentSet, name: string) {
    && Token(name) && Token(sent.dataset) && Token(sent.header.cbRef) && Ending(sent.header.id)
    && sent.header.appId < 0x1_0000
  }

  function Lasts(sent: SentSet): seq<string> {
    [HexText(sent.header.ethAddr), sent.header.cbRef]
  }

  function AfterNumber(sent: SentSet): string {
    " " + Joined(Lasts(sent)) + (" " + (sent.header.id + ");"))
  }

  lemma MemberParts(sent: SentSet, name: string)
    ensures MemberLine(sent, name).text ==
            "SD(" + (Joined([name, sent.dataset]) + (" " + Decimal(sent.header.appId) + AfterNumber(sent)))
    ensures |MemberLine(sent, name).text| == |name| + |sent.dataset| + |Decimal(sent.header.appId)|
                                             + |HexText(sent.header.ethAddr)| + |sent.header.cbRef| + |sent.header.id|
                                                 + 10
  {
    var h := sent.header;
    JoinedTwo(name, sent.dataset);
    JoinedTwo(HexText(h.ethAddr), h.cbRef);
    JoinedThree(HexText(h.ethAddr), h.cbRef, h.id);
    RegroupMember(Joined([name, sent.dataset]), Decimal(h.appId), Joined(Lasts(sent)), h.id);
  }

  lemma RegroupMember(a: string, b: string, c: string, d: string)
    ensures "SD(" + a + " " + b + " " + (c + " " + d) + ");" == "SD(" + (a + (" " + b + (" " + c + (" " + (d + ");")))))
  {
    var p := "SD(" + a + " " + b;
    assert p + " " + (c + " " + d) + ");" == p + (" " + c + (" " + (d + ");")));
    var q := " " + c + (" " + (d + ");"));
    assert "SD(" + a + " " + b + q == "SD(" + (a + (" " + b + q));
  }

  lemma AddressBack(bytes: MacAddress)
    ensures |HexText(bytes)| == 12 && !OverrunsAddress(HexText(bytes)) && Address(HexText(bytes)) == Some(bytes)
    ensures IsWord(HexText(bytes))
  {
    HexRoundTrip(bytes);
  }

  /** If the names before the last one are words, they are read as they are. */
  lemma ItemsAre(sent: SentSet, name: string)
    requires IsWord(name) && IsWord(sent.dataset) && IsWord(sent.header.cbRef)
    ensures Items(sent, name) == SdItems([name, sent.dataset], Some(sent.header.appId),
                                         Lasts(sent) + [FirstWord(sent.header.id + ");")])
  {
    var h := sent.header;
    var line, last := MemberLine(sent, name).text, h.id + ");";
    var rest := " " + Decimal(h.appId) + AfterNumber(sent);
    MemberParts(sent, name);
    assert line[..3] == "SD(" && line[3..] == Joined([name, sent.dataset]) + rest;
    ScanJoined(line[3..], [name, sent.dataset], rest);
    ScanDecimal(h.appId, AfterNumber(sent));
    LastsAre(sent);
  }

  lemma LastsAre(sent: SentSet)
    requires IsWord(sent.header.cbRef)
    ensures ScanWords(AfterNumber(sent), 3).0 == Lasts(sent) + [FirstWord(sent.header.id + ");")]
  {
    var last := sent.header.id + ");";
    AddressBack(sent.header.ethAddr);
    ScanJoined(AfterNumber(sent), Lasts(sent), " " + last);
    ScanWordsThen(AfterNumber(sent), 2, 3);
    WordFound(sent.header.id, ");");
    BlankBefore(last);
    assert ScanWords(" " + last, 1).0 == [FirstWord(last)];
  }

  lemma DecimalShort(n: nat)
    requires n < 0x1_0000
    ensures |Decimal(n)| <= 5
  {
    assert |Decimal(n / 10 / 10 / 10 / 10)| == 1;
    assert |Decimal(n / 10 / 10 / 10)| <= 2;
    assert |Decimal(n / 10 / 10)| <= 3;
    assert |Decimal(n / 10)| <= 4;
  }

  lemma NotOverlong(words: seq<string>)
    requires forall k :: 0 <= k < |words| ==> |words[k]| < NAME_SIZE
    ensures !Overlong(words)
  {
  }

  /** The items of a good member, and what is made of them. */
  lemma ItemsAreRight(sent: SentSet, name: string, items: SdItems)
    requires GoodMember(sent, name)
    requires items == SdItems([name, sent.dataset], Some(sent.header.appId), Lasts(sent) + [sent.header.id + ");"])
    requires Cut(sent.header.id + ");", ')') == sent.header.id
    ensures !ScanFails(items) && |items.last| == 3 && items.last[0] == HexText(sent.header.ethAddr)
    ensures Entry(items, sent.header.ethAddr) == SubscriberOf(sent, name)
  {
    AddressBack(sent.header.ethAddr);
    NotOverlong(items.first);
    NotOverlong(items.last);
  }

  lemma GoodMemberBack(sent: SentSet, name: string)
    requires GoodMember(sent, name)
    ensures MemberFits(sent, name) && ReadMember(sent, name) == SubscriberOf(sent, name)
  {
    ItemsAre(sent, name);
    ReadNameExactly(sent.header.id, ");");
    ItemsAreRight(sent, name, Items(sent, name));
    AddressBack(sent.header.ethAddr);
    MemberParts(sent, name);
    DecimalShort(sent.header.appId);
  }

  lemma MemberWords(sent: SentSet, name: string)
    requires MemberFits(sent, name) && ReadMember(sent, name) == SubscriberOf(sent, name)
    ensures IsWord(name) && IsWord(sent.dataset) && IsWord(sent.header.cbRef)
  {
    var line := MemberLine(sent, name).text;
    var first := ScanWords(line[3..], 2);
    ScanWordsAreWords(line[3..], 2);
    ScanWordsAreWords(ScanUnsigned(first.1).value.1, 3);
  }

  lemma BackMemberGood(sent: SentSet, name: string)
    requires CalmMember(sent, name)
    requires MemberFits(sent, name) && ReadMember(sent, name) == SubscriberOf(sent, name)
    ensures GoodMember(sent, name)
  {
    MemberWords(sent, name);
    ItemsAre(sent, name);
    ReadNameExactly(sent.header.id, ");");
    var items := Items(sent, name);
    assert items.first[0] == name && items.first[1] == sent.dataset;
    assert items.last[1] == sent.header.cbRef && items.last[2] == FirstWord(sent.header.id + ");");
  }

  /** A member comes back exactly if all its names do and its number has 16 bits. */
  lemma MemberExactly(sent: SentSet, name: string)
    requires CalmMember(sent, name)
    ensures MemberFits(sent, name) && ReadMember(sent, name) == SubscriberOf(sent, name) <==> GoodMember(sent, name)
  {
    if GoodMember(sent, name) {
      GoodMemberBack(sent, name);
    } else if MemberFits(sent, name) && ReadMember(sent, name) == SubscriberOf(sent, name) {
      BackMemberGood(sent, name);
    }
  }

  // ---- Models ----

  predicate GoodRefs(refs: seq<ExtRef>) {
    forall k :: 0 <= k < |refs| ==> GoodRef(refs[k])
  }

  predicate GoodNode(n: Node) {
    Ending(n.name) && Ending(n.cls) && forall k :: 0 <= k < |n.inputs| ==> GoodRefs(n.inputs[k])
  }

  predicate GoodNodes(nodes: seq<Node>) {
    forall k :: 0 <= k < |nodes| ==> GoodNode(nodes[k])
  }

  /** The name of a device without nodes is read, but kept nowhere. */
  predicate GoodDevice(d: Device) {
    GoodNodes(d.nodes) && if d.nodes == [] then Fits("LD(", d.inst, "){") else Ending(d.inst)
  }

  predicate GoodDevices(devices: seq<Device>) {
    forall k :: 0 <= k < |devices| ==> GoodDevice(devices[k])
  }

  predicate GoodMembers(sent: SentSet, names: seq<string>) {
    forall k :: 0 <= k < |names| ==> GoodMember(sent, names[k])
  }

  predicate GoodSet(sent: SentSet) {
    GoodMembers(sent, sent.names)
  }

  predicate GoodSets(sets: seq<SentSet>) {
    forall k :: 0 <= k < |sets| ==> GoodSet(sets[k])
  }

  /** The name of the model is compared, but not kept. */
  predicate Good(m: Printed) {
    Fits("MODEL(", m.ied, "){") && GoodDevices(m.devices) && GoodSets(m.sets)
  }

  // The same of all but the last, and of the last.

  lemma DevicesGoodMore(devices: seq<Device>)
    requires devices != []
    ensures GoodDevices(devices) <==> GoodDevices(devices[..|devices| - 1]) && GoodDevice(devices[|devices| - 1])
    ensures CalmDevices(devices) <==> CalmDevices(devices[..|devices| - 1]) && CalmDevice(devices[|devices| - 1])
  {
    assert devices == devices[..|devices| - 1] + [devices[|devices| - 1]];
  }

  lemma MembersGoodMore(sent: SentSet, names: seq<string>)
    requires names != []
    ensures GoodMembers(sent, names) <==>
        GoodMembers(sent, names[..|names| - 1]) && GoodMember(sent, names[|names| - 1])
    ensures CalmMembers(sent, names) <==>
        CalmMembers(sent, names[..|names| - 1]) && CalmMember(sent, names[|names| - 1])
  {
    assert names == names[..|names| - 1] + [names[|names| - 1]];
  }

  lemma SetsGoodMore(sets: seq<SentSet>)
    requires sets != []
    ensures GoodSets(sets) <==> GoodSets(sets[..|sets| - 1]) && GoodSet(sets[|sets| - 1])
    ensures CalmSets(sets) <==> CalmSets(sets[..|sets| - 1]) && CalmSet(sets[|sets| - 1])
  {
    assert sets == sets[..|sets| - 1] + [sets[|sets| - 1]];
  }

  // ---- Good models come back ----

  lemma GoodRefsBack(refs: seq<ExtRef>)
    requires CalmRefs(refs) && GoodRefs(refs)
    ensures RefsFit(refs) && ReadRefs(refs) == refs
  {
    forall k | 0 <= k < |refs| ensures RefFits(refs[k]) && ReadRef(refs[k]) == refs[k] {
      RefExactly(refs[k]);
    }
  }

  lemma GoodNodeBack(n: Node)
    requires CalmNode(n) && GoodNode(n)
    ensures NodeFits(n) && ReadNode(n) == n
  {
    NameExactly("LN(", n.name, "){");
    NameExactly("CL(", n.cls, ");");
    forall k | 0 <= k < |n.inputs| ensures RefsFit(n.inputs[k]) && ReadRefs(n.inputs[k]) == n.inputs[k] {
      GoodRefsBack(n.inputs[k]);
    }
    assert ReadInputs(n.inputs) == n.inputs;
  }

  lemma GoodDeviceBack(d: Device)
    requires CalmDevice(d) && GoodDevice(d)
    ensures DeviceFits(d) && ReadNodes(d.nodes) == d.nodes
    ensures d.nodes != [] ==> ReadName(d.inst, "){") == d.inst
  {
    NameExactly("LD(", d.inst, "){");
    forall k | 0 <= k < |d.nodes| ensures NodeFits(d.nodes[k]) && ReadNode(d.nodes[k]) == d.nodes[k] {
      GoodNodeBack(d.nodes[k]);
    }
  }

  lemma {:induction false} GoodDevicesBack(devices: seq<Device>)
    requires CalmDevices(devices) && GoodDevices(devices)
    ensures DevicesFit(devices)
    ensures DeviceClasses(ReadDevices(devices)) == DeviceClasses(devices)
    ensures DeviceInputs(ReadDevices(devices)) == DeviceInputs(devices)
    decreases |devices|
  {
    if devices == [] {
      assert ReadDevices(devices) == [];
    } else {
      var init, last := devices[..|devices| - 1], devices[|devices| - 1];
      DevicesGoodMore(devices);
      GoodDevicesBack(init);
      GoodDeviceBack(last);
      DevicesMore(devices);
      DevicesSnoc(ReadDevices(init), ReadDevice(last));
      if last.nodes == [] {
        assert NodeClasses(ReadDevice(last).inst, []) == [] && NodeInputs(ReadDevice(last).inst, []) == [];
      }
    }
  }

  lemma DevicesSnoc(init: seq<Device>, last: Device)
    ensures DeviceClasses(init + [last]) == DeviceClasses(init) + NodeClasses(last.inst, last.nodes)
    ensures DeviceInputs(init + [last]) == DeviceInputs(init) + NodeInputs(last.inst, last.nodes)
  {
    assert (init + [last])[..|init|] == init;
  }

  lemma {:induction false} GoodMembersBack(sent: SentSet, names: seq<string>)
    requires GoodMembers(sent, names)
    ensures MembersFit(sent, names) && ReadMembers(sent, names) == MemberEntries(sent, names)
    decreases |names|
  {
    if names == [] {
    } else {
      MembersGoodMore(sent, names);
      GoodMembersBack(sent, names[..|names| - 1]);
      GoodMemberBack(sent, names[|names| - 1]);
      MembersMore(sent, names);
    }
  }

  lemma {:induction false} GoodSetsBack(sets: seq<SentSet>)
    requires GoodSets(sets)
    ensures SetsFit(sets) && ReadSets(sets) == SetEntries(sets)
    decreases |sets|
  {
    if sets == [] {
    } else {
      var last := sets[|sets| - 1];
      SetsGoodMore(sets);
      GoodSetsBack(sets[..|sets| - 1]);
      GoodMembersBack(last, last.names);
      SetsMore(sets);
    }
  }

  // ---- What comes back is good ----

  lemma SplitEqual<T>(a: seq<T>, b: seq<T>, c: seq<T>, d: seq<T>)
    requires a + b == c + d && |b| == |d|
    ensures a == c && b == d
  {
    assert a == (a + b)[..|a|] && c == (c + d)[..|c|];
    assert b == (a + b)[|a|..] && d == (c + d)[|c|..];
  }

  lemma BackRefsGood(refs: seq<ExtRef>)
    requires CalmRefs(refs) && RefsFit(refs) && ReadRefs(refs) == refs
    ensures GoodRefs(refs)
  {
    forall k | 0 <= k < |refs| ensures GoodRef(refs[k]) {
      RefExactly(refs[k]);
      assert ReadRefs(refs)[k] == ReadRef(refs[k]);
    }
  }

  lemma {:induction false} InputsOfInjective(ld: string, ln: string, a: seq<seq<ExtRef>>, ld': string, ln': string,
                                             b: seq<seq<ExtRef>>)
    requires |a| == |b| && InputsOf(ld, ln, a) == InputsOf(ld', ln', b)
    ensures a == b
    decreases |a|
  {
    if a == [] {
    } else {
      var n := |a| - 1;
      SplitEqual(InputsOf(ld, ln, a[..n]), [Inputs(ld, ln, a[n])], InputsOf(ld', ln', b[..n]),
                 [Inputs(ld', ln', b[n])]);
      assert [Inputs(ld, ln, a[n])][0] == [Inputs(ld', ln', b[n])][0];
      InputsOfInjective(ld, ln, a[..n], ld', ln', b[..n]);
      assert a == a[..n] + [a[n]] && b == b[..n] + [b[n]];
    }
  }

  lemma {:induction false} InputsOfLength(ld: string, ln: string, inputs: seq<seq<ExtRef>>)
    ensures |InputsOf(ld, ln, inputs)| == |inputs|
  {
    if inputs == [] {
    } else {
      InputsOfLength(ld, ln, inputs[..|inputs| - 1]);
    }
  }

  lemma {:induction false} NodeLengths(ld: string, ld': string, nodes: seq<Node>)
    requires NodesFit(nodes)
    ensures |NodeClasses(ld, ReadNodes(nodes))| == |NodeClasses(ld', nodes)| == |nodes|
    ensures |NodeInputs(ld, ReadNodes(nodes))| == |NodeInputs(ld', nodes)|
    decreases |nodes|
  {
    if nodes == [] {
    } else {
      var init, last := nodes[..|nodes| - 1], nodes[|nodes| - 1];
      NodeLengths(ld, ld', init);
      NodesMore(nodes);
      NodesSnoc(ld, ReadNodes(init), ReadNode(last));
      InputsOfLength(ld, ReadNode(last).name, ReadNode(last).inputs);
      InputsOfLength(ld', last.name, last.inputs);
    }
  }

  lemma NodesSnoc(ld: string, init: seq<Node>, last: Node)
    ensures NodeClasses(ld, init + [last]) == NodeClasses(ld, init) + [LnClass(ld, last.name, last.cls)]
    ensures NodeInputs(ld, init + [last]) == NodeInputs(ld, init) + InputsOf(ld, last.name, last.inputs)
  {
    assert (init + [last])[..|init|] == init;
  }

  /** One node: if its class and its references are the same, it is good. */
  lemma BackNodeGood(n: Node)
    requires CalmNode(n) && NodeFits(n) && ReadNode(n) == n
    ensures GoodNode(n)
  {
    NameExactly("LN(", n.name, "){");
    NameExactly("CL(", n.cls, ");");
    forall k | 0 <= k < |n.inputs| ensures GoodRefs(n.inputs[k]) {
      assert ReadInputs(n.inputs)[k] == ReadRefs(n.inputs[k]);
      BackRefsGood(n.inputs[k]);
    }
  }

  /** The last of some nodes whose classes and references are the same, and what is left. */
  lemma NodesSplit(ld: string, ld': string, init: seq<Node>, read: Node, init': seq<Node>, last: Node)
    requires |read.inputs| == |last.inputs|
    requires NodeClasses(ld, init + [read]) == NodeClasses(ld', init' + [last])
    requires NodeInputs(ld, init + [read]) == NodeInputs(ld', init' + [last])
    ensures ld == ld' && read == last
    ensures NodeClasses(ld, init) == NodeClasses(ld', init') && NodeInputs(ld, init) == NodeInputs(ld', init')
  {
    var c, c' := LnClass(ld, read.name, read.cls), LnClass(ld', last.name, last.cls);
    NodesSnoc(ld, init, read);
    NodesSnoc(ld', init', last);
    SplitEqual(NodeClasses(ld, init), [c], NodeClasses(ld', init'), [c']);
    assert [c][0] == [c'][0];
    InputsOfLength(ld, read.name, read.inputs);
    InputsOfLength(ld', last.name, last.inputs);
    SplitEqual(NodeInputs(ld, init), InputsOf(ld, read.name, read.inputs),
               NodeInputs(ld', init'), InputsOf(ld', last.name, last.inputs));
    InputsOfInjective(ld, read.name, read.inputs, ld', last.name, last.inputs);
  }

  lemma {:induction false} NodesInjective(ld: string, ld': string, read: seq<Node>, nodes: seq<Node>)
    requires |read| == |nodes| && forall k :: 0 <= k < |nodes| ==> |read[k].inputs| == |nodes[k].inputs|
    requires NodeClasses(ld, read) == NodeClasses(ld', nodes) && NodeInputs(ld, read) == NodeInputs(ld', nodes)
    ensures read == nodes && (nodes != [] ==> ld == ld')
    decreases |nodes|
  {
    if nodes == [] {
    } else {
      var n := |nodes| - 1;
      assert read == read[..n] + [read[n]] && nodes == nodes[..n] + [nodes[n]];
      NodesSplit(ld, ld', read[..n], read[n], nodes[..n], nodes[n]);
      NodesInjective(ld, ld', read[..n], nodes[..n]);
    }
  }

  lemma BackNodesGood(ld: string, ld': string, nodes: seq<Node>)
    requires NodesFit(nodes) && CalmNodes(nodes)
    requires NodeClasses(ld, ReadNodes(nodes)) == NodeClasses(ld', nodes)
    requires NodeInputs(ld, ReadNodes(nodes)) == NodeInputs(ld', nodes)
    ensures GoodNodes(nodes) && (nodes != [] ==> ld == ld')
  {
    NodesInjective(ld, ld', ReadNodes(nodes), nodes);
    forall k | 0 <= k < |nodes| ensures GoodNode(nodes[k]) {
      assert ReadNodes(nodes)[k] == ReadNode(nodes[k]);
      BackNodeGood(nodes[k]);
    }
  }

  lemma DevicesSplit(init: seq<Device>, read: Device, init': seq<Device>, last: Device)
    requires |NodeClasses(read.inst, read.nodes)| == |NodeClasses(last.inst, last.nodes)|
    requires |NodeInputs(read.inst, read.nodes)| == |NodeInputs(last.inst, last.nodes)|
    requires DeviceClasses(init + [read]) == DeviceClasses(init' + [last])
    requires DeviceInputs(init + [read]) == DeviceInputs(init' + [last])
    ensures NodeClasses(read.inst, read.nodes) == NodeClasses(last.inst, last.nodes)
    ensures NodeInputs(read.inst, read.nodes) == NodeInputs(last.inst, last.nodes)
    ensures DeviceClasses(init) == DeviceClasses(init') && DeviceInputs(init) == DeviceInputs(init')
  {
    DevicesSnoc(init, read);
    DevicesSnoc(init', last);
    SplitEqual(DeviceClasses(init), NodeClasses(read.inst, read.nodes),
               DeviceClasses(init'), NodeClasses(last.inst, last.nodes));
    SplitEqual(DeviceInputs(init), NodeInputs(read.inst, read.nodes),
               DeviceInputs(init'), NodeInputs(last.inst, last.nodes));
  }

  /** What a device contributes to the lists comes back. */
  predicate SameDevice(read: Device, d: Device) {
    && NodeClasses(read.inst, read.nodes) == NodeClasses(d.inst, d.nodes)
    && NodeInputs(read.inst, read.nodes) == NodeInputs(d.inst, d.nodes)
  }

  predicate SameLengths(read: Device, d: Device) {
    && |NodeClasses(read.inst, read.nodes)| == |NodeClasses(d.inst, d.nodes)|
    && |NodeInputs(read.inst, read.nodes)| == |NodeInputs(d.inst, d.nodes)|
  }

  lemma {:induction false} DevicesInjective(read: seq<Device>, devices: seq<Device>)
    requires |read| == |devices| && forall k :: 0 <= k < |devices| ==> SameLengths(read[k], devices[k])
    requires DeviceClasses(read) == DeviceClasses(devices) && DeviceInputs(read) == DeviceInputs(devices)
    ensures forall k :: 0 <= k < |devices| ==> SameDevice(read[k], devices[k])
    decreases |devices|
  {
    if devices == [] {
    } else {
      var n := |devices| - 1;
      assert read == read[..n] + [read[n]] && devices == devices[..n] + [devices[n]];
      DevicesSplit(read[..n], read[n], devices[..n], devices[n]);
      DevicesInjective(read[..n], devices[..n]);
    }
  }

  lemma BackDeviceGood(d: Device)
    requires CalmDevice(d) && DeviceFits(d) && SameDevice(ReadDevice(d), d)
    ensures GoodDevice(d)
  {
    BackNodesGood(ReadName(d.inst, "){"), d.inst, d.nodes);
    NameExactly("LD(", d.inst, "){");
  }

  lemma BackDevicesGood(devices: seq<Device>)
    requires DevicesFit(devices) && CalmDevices(devices)
    requires DeviceClasses(ReadDevices(devices)) == DeviceClasses(devices)
    requires DeviceInputs(ReadDevices(devices)) == DeviceInputs(devices)
    ensures GoodDevices(devices)
  {
    forall k | 0 <= k < |devices| ensures SameLengths(ReadDevices(devices)[k], devices[k]) {
      NodeLengths(ReadDevice(devices[k]).inst, devices[k].inst, devices[k].nodes);
    }
    DevicesInjective(ReadDevices(devices), devices);
    forall k | 0 <= k < |devices| ensures GoodDevice(devices[k]) {
      assert SameDevice(ReadDevices(devices)[k], devices[k]);
      BackDeviceGood(devices[k]);
    }
  }

  lemma {:induction false} BackMembersGood(sent: SentSet, names: seq<string>)
    requires MembersFit(sent, names) && CalmMembers(sent, names)
    requires ReadMembers(sent, names) == MemberEntries(sent, names)
    ensures GoodMembers(sent, names)
    decreases |names|
  {
    if names == [] {
    } else {
      var init, last := names[..|names| - 1], names[|names| - 1];
      var a, b := [ReadMember(sent, last)], [SubscriberOf(sent, last)];
      MembersMore(sent, names);
      MembersGoodMore(sent, names);
      SplitEqual(ReadMembers(sent, init), a, MemberEntries(sent, init), b);
      assert a[0] == b[0];
      BackMemberGood(sent, last);
      BackMembersGood(sent, init);
    }
  }

  lemma {:induction false} BackSetsGood(sets: seq<SentSet>)
    requires SetsFit(sets) && CalmSets(sets)
    requires ReadSets(sets) == SetEntries(sets)
    ensures GoodSets(sets)
    decreases |sets|
  {
    if sets == [] {
    } else {
      var init, last := sets[..|sets| - 1], sets[|sets| - 1];
      SetsMore(sets);
      SetsGoodMore(sets);
      SplitEqual(ReadSets(init), ReadMembers(last, last.names), SetEntries(init), MemberEntries(last, last.names));
      BackSetGood(last);
      BackSetsGood(init);
    }
  }

  lemma BackSetGood(sent: SentSet)
    requires CalmSet(sent) && MembersFit(sent, sent.names)
    requires ReadMembers(sent, sent.names) == MemberEntries(sent, sent.names)
    ensures GoodSet(sent)
  {
    BackMembersGood(sent, sent.names);
  }

  // ---- The round trip ----

  lemma GoodBack(m: Printed)
    requires CalmModel(m) && Good(m)
    ensures ModelFits(m) && ReadMeaning(m) == Meaning(m)
  {
    GoodDevicesBack(m.devices);
    GoodSetsBack(m.sets);
  }

  /** Reading what was printed, character by character and with either kind of line end, gives the
      three lists back, complete and in order, exactly if every name in them is good. */
  lemma PrintThenParse(m: Printed, nl: string)
    requires CalmModel(m) && LineEnd(nl)
    ensures Parse(INITIAL, Text(PrintedLines(m, nl))) == Accepted(Meaning(m)) <==> Good(m)
  {
    ReadPrinted(m, nl);
    if Good(m) {
      GoodBack(m);
    } else if ModelFits(m) && ReadMeaning(m) == Meaning(m) {
      BackDevicesGood(m.devices);
      BackSetsGood(m.sets);
    }
  }

  /** Every line of a good model is shorter than the buffer. */
  lemma ModelPrintable(m: Printed, nl: string)
    requires CalmModel(m) && Good(m) && LineEnd(nl)
    ensures AllPrintable(PrintedLines(m, nl))
  {
    GoodBack(m);
    ModelSound(m, nl);
    ParsePrinted(m, nl);
    LinesAreShort(INITIAL, PrintedLines(m, nl));
  }

  /** The same for the code: what the printer writes, the reader reads back, if and only if. */
  method WriteAndRead(m: Printed, nl: string) returns (outcome: Outcome)
    requires CalmModel(m) && LineEnd(nl)
    ensures outcome == Accepted(Meaning(m)) <==> Good(m)
    ensures outcome.Accepted? <==> ModelFits(m)
    ensures ModelFits(m) ==> outcome == Accepted(ReadMeaning(m))
  {
    var output := new PrintStream(nl);
    PrintModel(output, m);
    ReadPrinted(m, nl);
    PrintThenParse(m, nl);
    assert output.text == Text(PrintedLines(m, nl));
    var file := new FileHandle(output.text);
    var parser := new ConfigFileParser();
    outcome := parser.CreateModel(file);
  }

  /** A name with a space in it is not rejected: the fields shift, and the source is lost. */
  lemma SpaceShiftsFields(a: string, b: string, e: ExtRef)
    requires GoodRef(e) && Token(a) && Token(b) && |e.serviceType| + 2 < NAME_SIZE
    ensures var printed := e.(desc := a + " " + b);
            RefFits(printed) && ReadRef(printed) == ExtRef(a, b, e.ref, e.intAddr, Cut(e.serviceType, ')'))
  {
    var printed := e.(desc := a + " " + b);
    var words := [a, b, e.ref, e.intAddr, e.serviceType];
    var line, rest := RefLine(printed).text, " " + (e.srcRef + ");");
    RefParts(printed);
    JoinedFour(a + " " + b, e.ref, e.intAddr, e.serviceType);
    JoinedFive(a, b, e.ref, e.intAddr, e.serviceType);
    assert line[..3] == "ER(" && line[3..] == Joined(words) + rest;
    ScanJoined(line[3..], words, rest);
  }
}
