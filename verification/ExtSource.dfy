/** From the substation description to what is printed: the names of external references
    (`ExtRef.java`) and, for every data set, the control block that sends it
    (`DynamicModelGenerator_input.java`, printSubscribeDataSets). */
module ExtSource {
  import opened Mms
  import opened ExtModel
  import opened ExtPrinter
  import opened Scan
  import CallbackIndex
  import Lines

  // ---- External references ----

  datatype SclExtRef = SclExtRef(
    desc: Option<string>,
    iedName: Option<string>,
    ldInst: Option<string>,
    prefix: Option<string>,
    lnClass: Option<string>,
    lnInst: Option<string>,
    doName: Option<string>,
    daName: Option<string>,
    intAddr: Option<string>,
    serviceType: Option<string>,
    srcLDInst: Option<string>,
    srcPrefix: Option<string>,
    srcLNClass: Option<string>,
    srcLNInst: Option<string>,
    srcCBName: Option<string>)

  function OrEmpty(o: Option<string>): string {
    if o == None then "" else o.value
  }

  /** Appending a null reference to a string in Java. */
  function OrNull(o: Option<string>): string {
    if o == None then "null" else o.value
  }

  /** The name of a logical node and the dot behind it, whatever parts are given. */
  function NodePart(prefix: Option<string>, lnClass: Option<string>, lnInst: Option<string>): string {
    (if lnClass.Some? then OrEmpty(prefix) + lnClass.value else "")
    + OrEmpty(lnInst)
    + (if lnClass.Some? || lnInst.Some? then "." else "")
  }

  /** Device, node, data object and data attribute. */
  function RefName(e: SclExtRef): string {
    OrEmpty(e.iedName) + OrEmpty(e.ldInst) + "/" + NodePart(e.prefix, e.lnClass, e.lnInst)
    + OrEmpty(e.doName) + (if e.daName.Some? then "." + e.daName.value else "")
  }

  function SourceName(e: SclExtRef): string {
    OrEmpty(e.iedName) + OrEmpty(e.srcLDInst) + "/" + NodePart(e.srcPrefix, e.srcLNClass, e.srcLNInst)
        + OrEmpty(e.srcCBName)
  }

  /** The lines ExtRefToString and srcToString share: the node is appended part by part. */
  method AppendNode(s0: string, prefix: Option<string>, lnClass: Option<string>, lnInst: Option<string>)
    returns (s: string)
    ensures s == s0 + NodePart(prefix, lnClass, lnInst)
  {
    var t := "";
    if lnClass.Some? {
      if prefix.Some? { t := t + prefix.value; }
      t := t + lnClass.value;
      if lnInst == None { t := t + "."; }
    }
    if lnInst.Some? { t := t + (lnInst.value + "."); }
    s := s0 + t;
  }

  method ExtRefToString(e: SclExtRef) returns (s: string)
    ensures s == RefName(e)
  {
    s := "";
    if e.iedName.Some? { s := s + e.iedName.value; }
    if e.ldInst.Some? { s := s + e.ldInst.value; }
    assert s == OrEmpty(e.iedName) + OrEmpty(e.ldInst);
    s := s + "/";
    s := AppendNode(s, e.prefix, e.lnClass, e.lnInst);
    ghost var node := s;
    if e.doName.Some? { s := s + e.doName.value; }
    assert s == node + OrEmpty(e.doName);
    if e.daName.Some? { s := s + ("." + e.daName.value); }
  }

  method SrcToString(e: SclExtRef) returns (s: string)
    ensures s == SourceName(e)
  {
    s := "";
    if e.iedName.Some? { s := s + e.iedName.value; }
    if e.srcLDInst.Some? { s := s + e.srcLDInst.value; }
    assert s == OrEmpty(e.iedName) + OrEmpty(e.srcLDInst);
    s := s + "/";
    s := AppendNode(s, e.srcPrefix, e.srcLNClass, e.srcLNInst);
    if e.srcCBName.Some? { s := s + e.srcCBName.value; }
  }

  /** The node of a name: a prefix is dropped with the class, and the dot only without both parts. */
  lemma NodePartIs(prefix: Option<string>, cls: Option<string>, inst: Option<string>)
    ensures cls.Some? && inst.Some? ==>
              NodePart(prefix, cls, inst) == (if prefix.Some? then prefix.value else "") + cls.value + inst.value + "."
    ensures cls.Some? && inst == None ==>
              NodePart(prefix, cls, inst) == (if prefix.Some? then prefix.value else "") + cls.value + "."
    ensures cls == None && inst.Some? ==> NodePart(prefix, cls, inst) == inst.value + "."
    ensures cls == None && inst == None ==> NodePart(prefix, cls, inst) == ""
  {
  }

  /** The printed names of a reference all parts of which are given. */
  lemma FullNames(e: SclExtRef, ied: string, ld: string, prefix: string, cls: string, inst: string, dataObject: string,
                  dataAttribute: string, cb: string)
    requires e.iedName == Some(ied)
    ensures e.ldInst == Some(ld) && e.prefix == Some(prefix) && e.lnClass == Some(cls) && e.lnInst == Some(inst)
            && e.doName == Some(dataObject) && e.daName == Some(dataAttribute) ==>
              RefName(e) == ied + ld + "/" + (prefix + cls + inst + ".") + dataObject + ("." + dataAttribute)
    ensures e.srcLDInst == Some(ld) && e.srcPrefix == Some(prefix) && e.srcLNClass == Some(cls)
            && e.srcLNInst == Some(inst) && e.srcCBName == Some(cb) ==>
              SourceName(e) == ied + ld + "/" + (prefix + cls + inst + ".") + cb
  {
    NodePartIs(Some(prefix), Some(cls), Some(inst));
  }

  function Printable(e: SclExtRef): ExtRef {
    ExtRef(OrNull(e.desc), RefName(e), OrNull(e.intAddr), OrNull(e.serviceType), SourceName(e))
  }

  /** The body of exportInputs for one reference: its names are made and printed. */
  method ExportRef(output: PrintStream, e: SclExtRef)
    modifies output
    ensures output.text == old(output.text) + Lines.Text([RefLine(Printable(e))])
    ensures output.text == old(output.text)
                           + Lines.Text([Lines.Line("ER(" + (OrNull(e.desc) + " " + RefName(e) + " " + OrNull(e.intAddr)
                                                             + " " + OrNull(e.serviceType) + " " + SourceName(e))
                                                    + ");", "\n")])
  {
    var ref := ExtRefToString(e);
    var src := SrcToString(e);
    PrintRef(output, ExtRef(OrNull(e.desc), ref, OrNull(e.intAddr), OrNull(e.serviceType), src));
  }

  /** The reader finds in a printed reference the device it was made from. */
  lemma DeviceComesBack(e: SclExtRef)
    requires '/' !in OrEmpty(e.iedName) && '/' !in OrEmpty(e.ldInst)
    ensures CallbackIndex.DeviceOf(RefName(e)) == Some(OrEmpty(e.iedName) + OrEmpty(e.ldInst))
  {
    var device, name := OrEmpty(e.iedName) + OrEmpty(e.ldInst), RefName(e);
    assert name[|device|] == '/' && name[..|device|] == device;
    var found := CallbackIndex.DeviceOf(name);
    CutIs(name, '/', |device|);
    assert found.value == name[..|found.value|];
    CutIs(name, '/', |found.value|);
  }

  // ---- Members of data sets ----

  /** A member of a data set; a data object is always given. */
  datatype Fcda = Fcda(
    ldInst: Option<string>,
    prefix: Option<string>,
    lnClass: Option<string>,
    lnInst: Option<string>,
    doName: string,
    daName: Option<string>)

  /** toMmsString: dots become dollar signs. */
  function MmsString(s: string): (r: string)
    ensures |r| == |s| && forall k :: 0 <= k < |s| ==> r[k] == if s[k] == '.' then '$' else s[k]
  {
    if s == "" then "" else [if s[0] == '.' then '$' else s[0]] + MmsString(s[1..])
  }

  /** The name a member is printed with. */
  function MemberName(ied: string, f: Fcda): string {
    ied + OrNull(f.ldInst) + "/" + (OrEmpty(f.prefix) + OrNull(f.lnClass) + OrEmpty(f.lnInst) + ".")
    + MmsString(f.doName) + (if f.daName.Some? then "." + MmsString(f.daName.value) else "")
  }

  /** The part of the name between the slash and the data object. */
  method AppendMemberNode(s0: string, f: Fcda) returns (s: string)
    ensures s == s0 + (OrEmpty(f.prefix) + OrNull(f.lnClass) + OrEmpty(f.lnInst) + ".")
  {
    var t := "";
    if f.prefix.Some? { t := t + f.prefix.value; }
    t := t + OrNull(f.lnClass);
    if f.lnInst.Some? { t := t + f.lnInst.value; }
    t := t + ".";
    assert t == OrEmpty(f.prefix) + OrNull(f.lnClass) + OrEmpty(f.lnInst) + ".";
    s := s0 + t;
  }

  method MmsVariableName(ied: string, f: Fcda) returns (s: string)
    ensures s == MemberName(ied, f)
  {
    s := AppendMemberNode(ied + OrNull(f.ldInst) + "/", f);
    s := s + MmsString(f.doName);
    if f.daName.Some? { s := s + ("." + MmsString(f.daName.value)); }
  }

  /** A member without device or class has the text of a null reference in its name; prefix, instance and
      data attribute may be missing. */
  lemma MemberNameIs(ied: string, f: Fcda)
    ensures f.ldInst == None && f.lnClass == None ==>
              MemberName(ied, f) == ied + "null" + "/" + (OrEmpty(f.prefix) + "null" + OrEmpty(f.lnInst) + ".")
                                    + MmsString(f.doName) + (match f.daName case Some(a) => "." + MmsString(a)
                                                                            case None => "")
    ensures OrEmpty(None) == "" && forall s :: OrEmpty(Some(s)) == s
  {
  }

  /** A reference and a member that designate the same signal of the same device. */
  predicate SameSignal(e: SclExtRef, ied: string, f: Fcda) {
    && e.iedName == Some(ied) && e.ldInst == f.ldInst && f.ldInst.Some?
    && e.prefix == f.prefix && e.lnClass == f.lnClass && f.lnClass.Some? && e.lnInst == f.lnInst
    && e.doName == Some(f.doName) && e.daName == f.daName
  }

  lemma MmsStringExactly(s: string)
    ensures MmsString(s) == s <==> '.' !in s
  {
    if k :| 0 <= k < |s| && s[k] == '.' {
      assert MmsString(s)[k] != s[k];
    }
  }

  lemma SamePrefix(p: string, a: string, b: string, c: string, d: string)
    requires |a| == |c|
    ensures p + a + b == p + c + d <==> a == c && b == d
  {
    if p + a + b == p + c + d {
      assert a == (p + a + b)[|p|..|p| + |a|] && c == (p + c + d)[|p|..|p| + |c|];
      assert b == (p + a + b)[|p| + |a|..] && d == (p + c + d)[|p| + |c|..];
    }
  }

  /** The two names of one signal are the same exactly if neither its data object nor its data attribute
      has a dot in it: only member names are printed with dollar signs. */
  lemma NamesAgreeExactly(e: SclExtRef, ied: string, f: Fcda)
    requires SameSignal(e, ied, f)
    ensures RefName(e) == MemberName(ied, f) <==> '.' !in f.doName && (f.daName.Some? ==> '.' !in f.daName.value)
  {
    var node := NodePart(e.prefix, e.lnClass, e.lnInst);
    assert node == OrEmpty(f.prefix) + OrNull(f.lnClass) + OrEmpty(f.lnInst) + ".";
    var start := ied + OrNull(f.ldInst) + "/" + node;
    MmsStringExactly(f.doName);
    if f.daName.Some? {
      MmsStringExactly(f.daName.value);
      var a, b := "." + f.daName.value, "." + MmsString(f.daName.value);
      SamePrefix(start, f.doName, a, MmsString(f.doName), b);
      assert a == b <==> f.daName.value == MmsString(f.daName.value) by {
        assert a[1..] == f.daName.value && b[1..] == MmsString(f.daName.value);
      }
    } else {
      SamePrefix(start, f.doName, "", MmsString(f.doName), "");
    }
  }

  // ---- Which control block sends a data set ----

  datatype Address = Address(appId: nat, mac: MacAddress)

  /** A GOOSE or sampled value control block; `kind` is what its reference contains. */
  datatype Control = Control(kind: string, name: string, dataset: Option<string>, id: Option<string>,
                             address: Option<Address>)

  datatype SclDataSet = SclDataSet(name: string, members: seq<Fcda>)

  datatype SclNode = SclNode(name: string, gse: seq<Control>, sv: seq<Control>, dataSets: seq<SclDataSet>)

  datatype SclDevice = SclDevice(inst: string, nodes: seq<SclNode>)

  datatype SclIed = SclIed(name: string, devices: seq<SclDevice>)

  const NO_SENDER := Header(0, [0, 0, 0, 0, 0, 0], "NULL", "NULL")

  /** What one control block changes if it sends the data set. */
  function Apply(h: Header, device: string, node: string, dataset: string, c: Control): Header {
    if c.dataset != Some(dataset) then h
    else Header(
           if c.address.Some? then c.address.value.appId else h.appId,
           if c.address.Some? then c.address.value.mac else h.ethAddr,
           device + "/" + node + c.kind + c.name,
           if c.id.Some? then c.id.value else h.id)
  }

  function ApplyAll(h: Header, device: string, node: string, dataset: string, controls: seq<Control>): Header {
    if controls == [] then h
    else Apply(ApplyAll(h, device, node, dataset, controls[..|controls| - 1]), device, node, dataset,
               controls[|controls| - 1])
  }

  function HeaderOf(device: string, nodes: seq<SclNode>, dataset: string): Header {
    if nodes == [] then NO_SENDER
    else
      var n := nodes[|nodes| - 1];
      ApplyAll(ApplyAll(HeaderOf(device, nodes[..|nodes| - 1], dataset), device, n.name, dataset, n.gse),
               device, n.name, dataset, n.sv)
  }

  /** One of the two inner loops over control blocks. */
  method ReadControls(h0: Header, device: string, node: string, dataset: string, controls: seq<Control>)
    returns (h: Header)
    ensures h == ApplyAll(h0, device, node, dataset, controls)
  {
    var appId, ethAddr, cbRef, id := h0.appId, h0.ethAddr, h0.cbRef, h0.id;
    var i := 0;
    while i < |controls|
      invariant i <= |controls|
      invariant Header(appId, ethAddr, cbRef, id) == ApplyAll(h0, device, node, dataset, controls[..i])
    {
      assert controls[..i + 1][..i] == controls[..i];
      var c := controls[i];
      if c.dataset == Some(dataset) {
        if c.address.Some? {
          appId, ethAddr := c.address.value.appId, c.address.value.mac;
        }
        if c.id.Some? {
          id := c.id.value;
        }
        cbRef := device + "/" + node + c.kind + c.name;
      }
      i := i + 1;
    }
    assert controls[..i] == controls;
    h := Header(appId, ethAddr, cbRef, id);
  }

  /** The search for the sender of one data set. */
  method FindHeader(device: string, nodes: seq<SclNode>, dataset: string) returns (h: Header)
    ensures h == HeaderOf(device, nodes, dataset)
  {
    h := NO_SENDER;
    var i := 0;
    while i < |nodes|
      invariant i <= |nodes| && h == HeaderOf(device, nodes[..i], dataset)
    {
      assert nodes[..i + 1][..i] == nodes[..i];
      h := ReadControls(h, device, nodes[i].name, dataset, nodes[i].gse);
      h := ReadControls(h, device, nodes[i].name, dataset, nodes[i].sv);
      i := i + 1;
    }
    assert nodes[..i] == nodes;
  }

  ghost predicate Sends(controls: seq<Control>, dataset: string) {
    exists k :: 0 <= k < |controls| && controls[k].dataset == Some(dataset)
  }

  lemma {:induction false} NotSending(h: Header, device: string, node: string, dataset: string, controls: seq<Control>)
    requires !Sends(controls, dataset)
    ensures ApplyAll(h, device, node, dataset, controls) == h
    decreases |controls|
  {
    if controls == [] {
    } else {
      assert controls[|controls| - 1].dataset != Some(dataset);
      NotSending(h, device, node, dataset, controls[..|controls| - 1]);
    }
  }

  /** Control block k of a list is the only one that sends the data set. */
  ghost predicate OnlySender(controls: seq<Control>, k: nat, dataset: string) {
    k < |controls| && forall i :: 0 <= i < |controls| ==> (controls[i].dataset == Some(dataset) <==> i == k)
  }

  lemma {:induction false} OneSending(h: Header, device: string, node: string, dataset: string,
                                      controls: seq<Control>, k: nat)
    requires OnlySender(controls, k, dataset)
    ensures ApplyAll(h, device, node, dataset, controls) == Apply(h, device, node, dataset, controls[k])
    decreases |controls|
  {
    var init := controls[..|controls| - 1];
    if k < |init| {
      OneSending(h, device, node, dataset, init, k);
    } else {
      NotSending(h, device, node, dataset, init);
    }
  }

  ghost predicate Silent(n: SclNode, dataset: string) {
    !Sends(n.gse, dataset) && !Sends(n.sv, dataset)
  }

  /** A data set no control block of its device sends is printed with placeholders. */
  lemma {:induction false} NoSender(device: string, nodes: seq<SclNode>, dataset: string)
    requires forall i :: 0 <= i < |nodes| ==> Silent(nodes[i], dataset)
    ensures HeaderOf(device, nodes, dataset) == NO_SENDER == Header(0, [0, 0, 0, 0, 0, 0], "NULL", "NULL")
    decreases |nodes|
  {
    if nodes == [] {
    } else {
      var n := nodes[|nodes| - 1];
      assert Silent(n, dataset);
      NoSender(device, nodes[..|nodes| - 1], dataset);
      NotSending(NO_SENDER, device, n.name, dataset, n.gse);
      NotSending(NO_SENDER, device, n.name, dataset, n.sv);
    }
  }

  /** The header of a control block of a node: address and identifier if it has them, and its name
      behind that of the node and the kind of block. */
  function SentBy(node: string, c: Control): Header {
    Header(match c.address case Some(a) => a.appId case None => 0,
           match c.address case Some(a) => a.mac case None => [0, 0, 0, 0, 0, 0],
           node + c.kind + c.name,
           match c.id case Some(id) => id case None => "NULL")
  }

  /** A data set sent by exactly one GOOSE control block gets the address, the reference and the
      identifier of that block, whatever node of the device it is in. */
  lemma {:induction false} OneSender(device: string, nodes: seq<SclNode>, dataset: string, i: nat, k: nat)
    requires i < |nodes| && OnlySender(nodes[i].gse, k, dataset) && !Sends(nodes[i].sv, dataset)
    requires forall j :: 0 <= j < |nodes| && j != i ==> Silent(nodes[j], dataset)
    ensures HeaderOf(device, nodes, dataset) == SentBy(device + "/" + nodes[i].name, nodes[i].gse[k])
    decreases |nodes|
  {
    var n, init := nodes[|nodes| - 1], nodes[..|nodes| - 1];
    if i < |init| {
      OneSender(device, init, dataset, i, k);
      assert Silent(n, dataset);
      NotSending(HeaderOf(device, init, dataset), device, n.name, dataset, n.gse);
    } else {
      NoSender(device, init, dataset);
      OneSending(NO_SENDER, device, n.name, dataset, n.gse, k);
    }
    NotSending(ApplyAll(HeaderOf(device, init, dataset), device, n.name, dataset, n.gse), device, n.name, dataset,
               n.sv);
  }

  // ---- All data sets of all devices ----

  function MemberNames(ied: string, members: seq<Fcda>): (r: seq<string>)
    ensures |r| == |members| && forall k :: 0 <= k < |r| ==> r[k] == MemberName(ied, members[k])
  {
    seq(|members|, k requires 0 <= k < |members| => MemberName(ied, members[k]))
  }

  /** A data set as it is printed: its own members, and the header found for its name. */
  function Sent(ied: string, d: SclDevice, ds: SclDataSet): SentSet {
    SentSet(ds.name, HeaderOf(ied + d.inst, d.nodes, ds.name), MemberNames(ied, ds.members))
  }

  function SetsOfNode(ied: string, d: SclDevice, dataSets: seq<SclDataSet>): seq<SentSet> {
    if dataSets == [] then []
    else SetsOfNode(ied, d, dataSets[..|dataSets| - 1]) + [Sent(ied, d, dataSets[|dataSets| - 1])]
  }

  function SetsOfNodes(ied: string, d: SclDevice, nodes: seq<SclNode>): seq<SentSet> {
    if nodes == [] then []
    else SetsOfNodes(ied, d, nodes[..|nodes| - 1]) + SetsOfNode(ied, d, nodes[|nodes| - 1].dataSets)
  }

  function SetsOfDevices(ied: string, devices: seq<SclDevice>): seq<SentSet> {
    if devices == [] then []
    else SetsOfDevices(ied, devices[..|devices| - 1])
         + SetsOfNodes(ied, devices[|devices| - 1], devices[|devices| - 1].nodes)
  }

  function SetsOfIeds(ieds: seq<SclIed>): seq<SentSet> {
    if ieds == [] then []
    else SetsOfIeds(ieds[..|ieds| - 1]) + SetsOfDevices(ieds[|ieds| - 1].name, ieds[|ieds| - 1].devices)
  }

  lemma {:induction false} InNode(ied: string, d: SclDevice, dataSets: seq<SclDataSet>, k: nat)
    requires k < |dataSets|
    ensures Sent(ied, d, dataSets[k]) in SetsOfNode(ied, d, dataSets)
    decreases |dataSets|
  {
    if k == |dataSets| - 1 {
    } else {
      InNode(ied, d, dataSets[..|dataSets| - 1], k);
    }
  }

  lemma {:induction false} InNodes(ied: string, d: SclDevice, nodes: seq<SclNode>, n: nat, k: nat)
    requires n < |nodes| && k < |nodes[n].dataSets|
    ensures Sent(ied, d, nodes[n].dataSets[k]) in SetsOfNodes(ied, d, nodes)
    decreases |nodes|
  {
    if n == |nodes| - 1 {
      InNode(ied, d, nodes[n].dataSets, k);
    } else {
      InNodes(ied, d, nodes[..|nodes| - 1], n, k);
    }
  }

  lemma {:induction false} InDevices(ied: string, devices: seq<SclDevice>, d: nat, n: nat, k: nat)
    requires d < |devices| && n < |devices[d].nodes| && k < |devices[d].nodes[n].dataSets|
    ensures Sent(ied, devices[d], devices[d].nodes[n].dataSets[k]) in SetsOfDevices(ied, devices)
    decreases |devices|
  {
    if d == |devices| - 1 {
      InNodes(ied, devices[d], devices[d].nodes, n, k);
    } else {
      InDevices(ied, devices[..|devices| - 1], d, n, k);
    }
  }

  lemma {:induction false} InIeds(ieds: seq<SclIed>, i: nat, d: nat, n: nat, k: nat)
    requires i < |ieds| && d < |ieds[i].devices| && n < |ieds[i].devices[d].nodes|
    requires k < |ieds[i].devices[d].nodes[n].dataSets|
    ensures Sent(ieds[i].name, ieds[i].devices[d], ieds[i].devices[d].nodes[n].dataSets[k]) in SetsOfIeds(ieds)
    decreases |ieds|
  {
    if i == |ieds| - 1 {
      InDevices(ieds[i].name, ieds[i].devices, d, n, k);
    } else {
      InIeds(ieds[..|ieds| - 1], i, d, n, k);
    }
  }

  /** Every data set is printed with its own name and members; if one GOOSE control block of its device
      sends it, then with the header of that block, whose reference starts with the names of the device
      and the node of the block. */
  lemma SetIsPrinted(ieds: seq<SclIed>, i: nat, d: nat, n: nat, k: nat, sender: nat, c: nat) returns (s: SentSet)
    requires i < |ieds| && d < |ieds[i].devices| && n < |ieds[i].devices[d].nodes|
    requires k < |ieds[i].devices[d].nodes[n].dataSets|
    requires var nodes, name := ieds[i].devices[d].nodes, ieds[i].devices[d].nodes[n].dataSets[k].name;
             && sender < |nodes| && OnlySender(nodes[sender].gse, c, name) && !Sends(nodes[sender].sv, name)
             && forall j :: 0 <= j < |nodes| && j != sender ==> Silent(nodes[j], name)
    ensures s in SetsOfIeds(ieds)
    ensures var device, ds := ieds[i].devices[d], ieds[i].devices[d].nodes[n].dataSets[k];
            && s.dataset == ds.name && |s.names| == |ds.members|
            && s.header == SentBy(ieds[i].name + device.inst + "/" + device.nodes[sender].name,
                                  device.nodes[sender].gse[c])
            && forall x :: 0 <= x < |ds.members| ==> s.names[x] == MemberName(ieds[i].name, ds.members[x])
  {
    var device, ds := ieds[i].devices[d], ieds[i].devices[d].nodes[n].dataSets[k];
    s := Sent(ieds[i].name, device, ds);
    InIeds(ieds, i, d, n, k);
    OneSender(ieds[i].name + device.inst, device.nodes, ds.name, sender, c);
  }

  lemma {:induction false} SetsLinesAppend(a: seq<SentSet>, b: seq<SentSet>)
    ensures SetsLines(a + b) == SetsLines(a) + SetsLines(b)
    decreases |b|
  {
    if b == [] {
      assert a + b == a;
    } else {
      var init, last := b[..|b| - 1], b[|b| - 1];
      assert (a + b)[..|a + b| - 1] == a + init && (a + b)[|a + b| - 1] == last;
      SetsLinesAppend(a, init);
      AppendLast(SetsLines(a), SetsLines(init), SetLines(last));
    }
  }

  lemma AppendLast(a: seq<Lines.Line>, b: seq<Lines.Line>, c: seq<Lines.Line>)
    ensures a + b + c == a + (b + c)
  {
  }

  /** What is printed after some sets and some more of them. */
  lemma PrintedMore(start: string, a: seq<SentSet>, b: seq<SentSet>)
    ensures start + Lines.Text(SetsLines(a)) + Lines.Text(SetsLines(b)) == start + Lines.Text(SetsLines(a + b))
  {
    SetsLinesAppend(a, b);
    Lines.TextAppend(SetsLines(a), SetsLines(b));
    ThreeTexts(start, Lines.Text(SetsLines(a)), Lines.Text(SetsLines(b)));
  }

  lemma OneSetLines(s: SentSet)
    ensures SetsLines([s]) == SetLines(s)
  {
    assert [s][..0] == [] && SetsLines([]) == [];
  }

  /** The body of the innermost loop over data sets: the sender is searched for, the members are named
      and printed. */
  method PrintDataSet(output: PrintStream, ied: string, d: SclDevice, ds: SclDataSet)
    modifies output
    ensures output.text == old(output.text) + Lines.Text(SetsLines([Sent(ied, d, ds)]))
  {
    var header := FindHeader(ied + d.inst, d.nodes, ds.name);
    var names: seq<string> := [];
    var k := 0;
    while k < |ds.members|
      invariant k <= |ds.members| && names == MemberNames(ied, ds.members[..k]) && output.text == old(output.text)
    {
      var name := MmsVariableName(ied, ds.members[k]);
      names := names + [name];
      k := k + 1;
    }
    assert ds.members[..k] == ds.members;
    OneSetLines(Sent(ied, d, ds));
    PrintMembers(output, SentSet(ds.name, header, names));
  }

  method PrintNodeSets(output: PrintStream, ied: string, d: SclDevice, dataSets: seq<SclDataSet>)
    modifies output
    ensures output.text == old(output.text) + Lines.Text(SetsLines(SetsOfNode(ied, d, dataSets)))
  {
    ghost var start := output.text;
    var k := 0;
    while k < |dataSets|
      invariant k <= |dataSets| && output.text == start + Lines.Text(SetsLines(SetsOfNode(ied, d, dataSets[..k])))
    {
      PrintDataSet(output, ied, d, dataSets[k]);
      assert dataSets[..k + 1][..k] == dataSets[..k];
      PrintedMore(start, SetsOfNode(ied, d, dataSets[..k]), [Sent(ied, d, dataSets[k])]);
      k := k + 1;
    }
    assert dataSets[..k] == dataSets;
  }

  method PrintNodesSets(output: PrintStream, ied: string, d: SclDevice, nodes: seq<SclNode>)
    modifies output
    ensures output.text == old(output.text) + Lines.Text(SetsLines(SetsOfNodes(ied, d, nodes)))
  {
    ghost var start := output.text;
    var k := 0;
    while k < |nodes|
      invariant k <= |nodes| && output.text == start + Lines.Text(SetsLines(SetsOfNodes(ied, d, nodes[..k])))
    {
      PrintNodeSets(output, ied, d, nodes[k].dataSets);
      assert nodes[..k + 1][..k] == nodes[..k];
      PrintedMore(start, SetsOfNodes(ied, d, nodes[..k]), SetsOfNode(ied, d, nodes[k].dataSets));
      k := k + 1;
    }
    assert nodes[..k] == nodes;
  }

  method PrintDevicesSets(output: PrintStream, ied: string, devices: seq<SclDevice>)
    modifies output
    ensures output.text == old(output.text) + Lines.Text(SetsLines(SetsOfDevices(ied, devices)))
  {
    ghost var start := output.text;
    var k := 0;
    while k < |devices|
      invariant k <= |devices| && output.text == start + Lines.Text(SetsLines(SetsOfDevices(ied, devices[..k])))
    {
      PrintNodesSets(output, ied, devices[k], devices[k].nodes);
      assert devices[..k + 1][..k] == devices[..k];
      PrintedMore(start, SetsOfDevices(ied, devices[..k]), SetsOfNodes(ied, devices[k], devices[k].nodes));
      k := k + 1;
    }
    assert devices[..k] == devices;
  }

  /** printSubscribeDataSets: the entries of all data sets of all devices, each with its sender. */
  method PrintSubscribeDataSets(output: PrintStream, ieds: seq<SclIed>)
    modifies output
    ensures output.text == old(output.text) + Lines.Text(SetsLines(SetsOfIeds(ieds)))
  {
    ghost var start := output.text;
    var k := 0;
    while k < |ieds|
      invariant k <= |ieds| && output.text == start + Lines.Text(SetsLines(SetsOfIeds(ieds[..k])))
    {
      PrintDevicesSets(output, ieds[k].name, ieds[k].devices);
      assert ieds[..k + 1][..k] == ieds[..k];
      PrintedMore(start, SetsOfIeds(ieds[..k]), SetsOfDevices(ieds[k].name, ieds[k].devices));
      k := k + 1;
    }
    assert ieds[..k] == ieds;
  }

  /** The constructor of the generator, given the station: the same text as that of the flat list. */
  method Generate(output: PrintStream, ied: string, devices: seq<Device>, ieds: seq<SclIed>)
    modifies output
    ensures output.text == old(output.text)
                           + Lines.Text(PrintedLines(Printed(ied, devices, SetsOfIeds(ieds)), output.separator))
  {
    ghost var m := Printed(ied, devices, SetsOfIeds(ieds));
    ghost var nl := output.separator;
    PrintedText(m, nl);
    Concatenation(output.text, Lines.Text([Lines.Line("MODEL(" + ied + "){", nl)]),
                  Lines.Text(DevicesLines(devices, nl)),
                  Lines.Text(SetsLines(m.sets)), Lines.Text([Lines.Line("}", nl)]));
    output.Println("MODEL(" + ied + "){");
    PrintDevices(output, devices);
    PrintSubscribeDataSets(output, ieds);
    output.Println("}");
  }
}
