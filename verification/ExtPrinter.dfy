/** The printer of the `.ext` language, as lines and as the calls that write them
    (`DynamicModelGenerator_input.java`, `ExtRef.java`). */
module ExtPrinter {
  import opened Mms
  import opened Lines
  import opened Scan
  import opened ExtModel

  // ---- What is printed ----

  predicate ValidAddress(bytes: seq<nat>) {
    |bytes| == 6 && forall k :: 0 <= k < |bytes| ==> bytes[k] < 256
  }

  type MacAddress = bytes: seq<nat> | ValidAddress(bytes) witness [0, 0, 0, 0, 0, 0]

  /** The members of one data set and what the control block that sends it contributes. */
  datatype Header = Header(appId: nat, ethAddr: MacAddress, cbRef: string, id: string)

  datatype SentSet = SentSet(dataset: string, header: Header, names: seq<string>)

  datatype Node = Node(name: string, cls: string, inputs: seq<seq<ExtRef>>)

  datatype Device = Device(inst: string, nodes: seq<Node>)

  datatype Printed = Printed(ied: string, devices: seq<Device>, sets: seq<SentSet>)

  function RefLine(e: ExtRef): Line {
    Line("ER(" + Joined([e.desc, e.ref, e.intAddr, e.serviceType, e.srcRef]) + ");", "\n")
  }

  function RefLines(refs: seq<ExtRef>): seq<Line> {
    if refs == [] then [] else RefLines(refs[..|refs| - 1]) + [RefLine(refs[|refs| - 1])]
  }

  function InputsLines(refs: seq<ExtRef>, nl: string): seq<Line> {
    [Line("IN{", "\n")] + RefLines(refs) + [Line("}", nl)]
  }

  function AllInputsLines(inputs: seq<seq<ExtRef>>, nl: string): seq<Line> {
    if inputs == [] then []
    else AllInputsLines(inputs[..|inputs| - 1], nl) + InputsLines(inputs[|inputs| - 1], nl)
  }

  function NodeLines(n: Node, nl: string): seq<Line> {
    [Line("LN(" + n.name + "){", "\n"), Line("CL(" + n.cls + ");", nl)] + AllInputsLines(n.inputs, nl) + [Line("}", nl)]
  }

  function NodesLines(nodes: seq<Node>, nl: string): seq<Line> {
    if nodes == [] then []
    else NodesLines(nodes[..|nodes| - 1], nl) + NodeLines(nodes[|nodes| - 1], nl)
  }

  function DeviceLines(d: Device, nl: string): seq<Line> {
    [Line("LD(" + d.inst + "){", "\n")] + NodesLines(d.nodes, nl) + [Line("}", nl)]
  }

  function DevicesLines(devices: seq<Device>, nl: string): seq<Line> {
    if devices == [] then []
    else DevicesLines(devices[..|devices| - 1], nl) + DeviceLines(devices[|devices| - 1], nl)
  }

  function MemberLine(sent: SentSet, name: string): Line {
    var h := sent.header;
    Line("SD(" + Joined([name, sent.dataset]) + " " + Decimal(h.appId) + " "
         + Joined([HexText(h.ethAddr), h.cbRef, h.id]) + ");", "\n")
  }

  function MemberLines(sent: SentSet, names: seq<string>): seq<Line> {
    if names == [] then [] else MemberLines(sent, names[..|names| - 1]) + [MemberLine(sent, names[|names| - 1])]
  }

  function SetLines(sent: SentSet): seq<Line> {
    MemberLines(sent, sent.names)
  }

  function SetsLines(sets: seq<SentSet>): seq<Line> {
    if sets == [] then [] else SetsLines(sets[..|sets| - 1]) + SetLines(sets[|sets| - 1])
  }

  function PrintedLines(m: Printed, nl: string): seq<Line> {
    [Line("MODEL(" + m.ied + "){", nl)] + DevicesLines(m.devices, nl) + SetsLines(m.sets) + [Line("}", nl)]
  }

  // ---- The calls that print it ----

  lemma TextOne(l: Line)
    ensures Text([l]) == l.text + l.eol
  {
    assert Text([l][1..]) == "";
  }

  lemma JoinedTwo(a: string, b: string)
    ensures Joined([a, b]) == a + " " + b
  {
    assert [a, b][1..] == [b];
  }

  lemma JoinedThree(a: string, b: string, c: string)
    ensures Joined([a, b, c]) == a + " " + b + " " + c
  {
    assert [a, b, c][1..] == [b, c];
    JoinedTwo(b, c);
    assert a + " " + (b + " " + c) == a + " " + b + " " + c;
  }

  lemma JoinedFive(a: string, b: string, c: string, d: string, e: string)
    ensures Joined([a, b, c, d, e]) == a + " " + b + " " + c + " " + d + " " + e
  {
    var cde := c + " " + d + " " + e;
    assert [a, b, c, d, e][1..] == [b, c, d, e] && [b, c, d, e][1..] == [c, d, e];
    JoinedThree(c, d, e);
    assert Joined([b, c, d, e]) == b + " " + cde;
    assert a + " " + (b + " " + cde) == a + " " + b + " " + cde;
    assert a + " " + b + " " + cde == a + " " + b + " " + c + " " + d + " " + e;
  }

  class PrintStream {
    const separator: string
    var text: string

    constructor (separator: string)
      ensures this.separator == separator && text == ""
    {
      this.separator, text := separator, "";
    }

    /** print of one line that ends with `\n` whatever the platform. */
    method PrintLine(s: string)
      modifies this
      ensures text == old(text) + Text([Line(s, "\n")])
    {
      TextOne(Line(s, "\n"));
      text := text + s + "\n";
    }

    method Println(s: string)
      modifies this
      ensures text == old(text) + Text([Line(s, separator)])
    {
      TextOne(Line(s, separator));
      text := text + s + separator;
    }
  }

  method PrintRef(output: PrintStream, e: ExtRef)
    modifies output
    ensures output.text == old(output.text) + Text([RefLine(e)])
    ensures output.text == old(output.text)
                           + Text([Line("ER(" + (e.desc + " " + e.ref + " " + e.intAddr + " " + e.serviceType + " "
                                                 + e.srcRef) + ");", "\n")])
  {
    JoinedFive(e.desc, e.ref, e.intAddr, e.serviceType, e.srcRef);
    output.PrintLine("ER(" + (e.desc + " " + e.ref + " " + e.intAddr + " " + e.serviceType + " " + e.srcRef) + ");");
  }

  lemma RefsText(start: string, refs: seq<ExtRef>, i: nat)
    requires i < |refs|
    ensures start + Text(RefLines(refs[..i])) + Text([RefLine(refs[i])]) == start + Text(RefLines(refs[..i + 1]))
  {
    assert refs[..i + 1][..i] == refs[..i];
    TextAppend(RefLines(refs[..i]), [RefLine(refs[i])]);
    ThreeTexts(start, Text(RefLines(refs[..i])), Text([RefLine(refs[i])]));
  }

  method ExportRefs(output: PrintStream, refs: seq<ExtRef>)
    modifies output
    ensures output.text == old(output.text) + Text(RefLines(refs))
  {
    ghost var start := output.text;
    var i := 0;
    while i < |refs|
      invariant i <= |refs| && output.text == start + Text(RefLines(refs[..i]))
    {
      PrintRef(output, refs[i]);
      RefsText(start, refs, i);
      i := i + 1;
    }
    assert refs[..i] == refs;
  }

  lemma ThreeParts(start: string, a: seq<Line>, b: seq<Line>, c: seq<Line>)
    ensures start + Text(a) + Text(b) + Text(c) == start + Text(a + b + c)
  {
    TextAppend(a, b);
    TextAppend(a + b, c);
    ThreeTexts(start, Text(a), Text(b));
    ThreeTexts(start, Text(a + b), Text(c));
  }

  method ExportInputs(output: PrintStream, refs: seq<ExtRef>)
    modifies output
    ensures output.text == old(output.text) + Text(InputsLines(refs, output.separator))
  {
    ThreeParts(output.text, [Line("IN{", "\n")], RefLines(refs), [Line("}", output.separator)]);
    output.PrintLine("IN{");
    ExportRefs(output, refs);
    output.Println("}");
  }

  lemma InputsText(start: string, inputs: seq<seq<ExtRef>>, i: nat, nl: string)
    requires i < |inputs|
    ensures start + Text(AllInputsLines(inputs[..i], nl)) + Text(InputsLines(inputs[i], nl))
         == start + Text(AllInputsLines(inputs[..i + 1], nl))
  {
    assert inputs[..i + 1][..i] == inputs[..i];
    TextAppend(AllInputsLines(inputs[..i], nl), InputsLines(inputs[i], nl));
    ThreeTexts(start, Text(AllInputsLines(inputs[..i], nl)), Text(InputsLines(inputs[i], nl)));
  }

  method ExportAllInputs(output: PrintStream, inputs: seq<seq<ExtRef>>)
    modifies output
    ensures output.text == old(output.text) + Text(AllInputsLines(inputs, output.separator))
  {
    ghost var start, nl := output.text, output.separator;
    var i := 0;
    while i < |inputs|
      invariant i <= |inputs| && output.text == start + Text(AllInputsLines(inputs[..i], nl))
    {
      ExportInputs(output, inputs[i]);
      InputsText(start, inputs, i, nl);
      i := i + 1;
    }
    assert inputs[..i] == inputs;
  }

  method ExportLogicalNode(output: PrintStream, n: Node)
    modifies output
    ensures output.text == old(output.text)
                           + Text([Line("CL(" + n.cls + ");", output.separator)]
                                  + AllInputsLines(n.inputs, output.separator))
  {
    ghost var head, rest := [Line("CL(" + n.cls + ");", output.separator)], AllInputsLines(n.inputs, output.separator);
    TextAppend(head, rest);
    ThreeTexts(output.text, Text(head), Text(rest));
    output.Println("CL(" + n.cls + ");");
    ExportAllInputs(output, n.inputs);
  }

  lemma NodeText(n: Node, nl: string)
    ensures Text(NodeLines(n, nl)) ==
            Text([Line("LN(" + n.name + "){", "\n")])
            + Text([Line("CL(" + n.cls + ");", nl)] + AllInputsLines(n.inputs, nl)) + Text([Line("}", nl)])
  {
    var a, b, c := [Line("LN(" + n.name + "){", "\n")], [Line("CL(" + n.cls + ");", nl)]
        + AllInputsLines(n.inputs, nl), [Line("}", nl)];
    TextAppend(a, b);
    TextAppend(a + b, c);
    assert NodeLines(n, nl) == a + b + c;
  }

  /** The body of the loop over the nodes of a device. */
  method ExportNode(output: PrintStream, n: Node)
    modifies output
    ensures output.text == old(output.text) + Text(NodeLines(n, output.separator))
  {
    NodeText(n, output.separator);
    output.PrintLine("LN(" + n.name + "){");
    ExportLogicalNode(output, n);
    output.Println("}");
  }

  lemma NodesText(start: string, nodes: seq<Node>, i: nat, nl: string)
    requires i < |nodes|
    ensures start + Text(NodesLines(nodes[..i], nl)) + Text(NodeLines(nodes[i], nl))
         == start + Text(NodesLines(nodes[..i + 1], nl))
  {
    assert nodes[..i + 1][..i] == nodes[..i];
    TextAppend(NodesLines(nodes[..i], nl), NodeLines(nodes[i], nl));
    ThreeTexts(start, Text(NodesLines(nodes[..i], nl)), Text(NodeLines(nodes[i], nl)));
  }

  method ExportLogicalNodes(output: PrintStream, d: Device)
    modifies output
    ensures output.text == old(output.text) + Text(NodesLines(d.nodes, output.separator))
  {
    ghost var start, nl := output.text, output.separator;
    var i := 0;
    while i < |d.nodes|
      invariant i <= |d.nodes| && output.text == start + Text(NodesLines(d.nodes[..i], nl))
    {
      ExportNode(output, d.nodes[i]);
      NodesText(start, d.nodes, i, nl);
      i := i + 1;
    }
    assert d.nodes[..i] == d.nodes;
  }

  method ExportDevice(output: PrintStream, d: Device)
    modifies output
    ensures output.text == old(output.text) + Text(DeviceLines(d, output.separator))
  {
    ghost var a, b, c := [Line("LD(" + d.inst + "){", "\n")], NodesLines(d.nodes, output.separator),
        [Line("}", output.separator)];
    TextAppend(a, b);
    TextAppend(a + b, c);
    output.PrintLine("LD(" + d.inst + "){");
    ExportLogicalNodes(output, d);
    output.Println("}");
  }

  method PrintMember(output: PrintStream, sent: SentSet, name: string)
    modifies output
    ensures output.text == old(output.text) + Text([MemberLine(sent, name)])
  {
    var h := sent.header;
    MemberText(sent, name);
    output.PrintLine("SD(" + name + " " + sent.dataset + " " + Decimal(h.appId) + " "
                     + HexText(h.ethAddr) + " " + h.cbRef + " " + h.id + ");");
  }

  lemma MembersText(start: string, sent: SentSet, i: nat)
    requires i < |sent.names|
    ensures start + Text(MemberLines(sent, sent.names[..i])) + Text([MemberLine(sent, sent.names[i])])
         == start + Text(MemberLines(sent, sent.names[..i + 1]))
  {
    assert sent.names[..i + 1][..i] == sent.names[..i];
    TextAppend(MemberLines(sent, sent.names[..i]), [MemberLine(sent, sent.names[i])]);
    ThreeTexts(start, Text(MemberLines(sent, sent.names[..i])), Text([MemberLine(sent, sent.names[i])]));
  }

  /** The members of one data set. */
  method PrintMembers(output: PrintStream, sent: SentSet)
    modifies output
    ensures output.text == old(output.text) + Text(SetLines(sent))
  {
    ghost var start := output.text;
    var i := 0;
    while i < |sent.names|
      invariant i <= |sent.names| && output.text == start + Text(MemberLines(sent, sent.names[..i]))
    {
      PrintMember(output, sent, sent.names[i]);
      MembersText(start, sent, i);
      i := i + 1;
    }
    assert sent.names[..i] == sent.names;
  }

  lemma MemberText(sent: SentSet, name: string)
    ensures MemberLine(sent, name).text ==
            "SD(" + name + " " + sent.dataset + " " + Decimal(sent.header.appId) + " "
            + HexText(sent.header.ethAddr) + " " + sent.header.cbRef + " " + sent.header.id + ");"
  {
    JoinedTwo(name, sent.dataset);
    JoinedThree(HexText(sent.header.ethAddr), sent.header.cbRef, sent.header.id);
    Reassociate("SD(", name, sent.dataset, Decimal(sent.header.appId), HexText(sent.header.ethAddr),
                sent.header.cbRef, sent.header.id);
  }

  lemma Reassociate(p: string, a: string, b: string, c: string, d: string, e: string, f: string)
    ensures p + (a + " " + b) + " " + c + " " + (d + " " + e + " " + f) + ");"
         == p + a + " " + b + " " + c + " " + d + " " + e + " " + f + ");"
  {
    assert p + (a + " " + b) == p + a + " " + b;
    var q := p + a + " " + b + " " + c + " ";
    assert q + (d + " " + e + " " + f) == q + d + " " + e + " " + f;
  }

  lemma DevicesText(start: string, devices: seq<Device>, i: nat, nl: string)
    requires i < |devices|
    ensures start + Text(DevicesLines(devices[..i], nl)) + Text(DeviceLines(devices[i], nl))
         == start + Text(DevicesLines(devices[..i + 1], nl))
  {
    assert devices[..i + 1][..i] == devices[..i];
    TextAppend(DevicesLines(devices[..i], nl), DeviceLines(devices[i], nl));
    ThreeTexts(start, Text(DevicesLines(devices[..i], nl)), Text(DeviceLines(devices[i], nl)));
  }

  method PrintDevices(output: PrintStream, devices: seq<Device>)
    modifies output
    ensures output.text == old(output.text) + Text(DevicesLines(devices, output.separator))
  {
    ghost var start, nl := output.text, output.separator;
    var i := 0;
    while i < |devices|
      invariant i <= |devices| && output.text == start + Text(DevicesLines(devices[..i], nl))
    {
      ExportDevice(output, devices[i]);
      DevicesText(start, devices, i, nl);
      i := i + 1;
    }
    assert devices[..i] == devices;
  }

  lemma SetsText(start: string, sets: seq<SentSet>, i: nat)
    requires i < |sets|
    ensures start + Text(SetsLines(sets[..i])) + Text(SetLines(sets[i])) == start + Text(SetsLines(sets[..i + 1]))
  {
    assert sets[..i + 1][..i] == sets[..i];
    TextAppend(SetsLines(sets[..i]), SetLines(sets[i]));
    ThreeTexts(start, Text(SetsLines(sets[..i])), Text(SetLines(sets[i])));
  }

  lemma ThreeTexts(a: string, b: string, c: string)
    ensures a + b + c == a + (b + c)
  {
  }

  method PrintSets(output: PrintStream, sets: seq<SentSet>)
    modifies output
    ensures output.text == old(output.text) + Text(SetsLines(sets))
  {
    ghost var start := output.text;
    var i := 0;
    while i < |sets|
      invariant i <= |sets| && output.text == start + Text(SetsLines(sets[..i]))
    {
      PrintMembers(output, sets[i]);
      SetsText(start, sets, i);
      i := i + 1;
    }
    assert sets[..i] == sets;
  }

  lemma PrintedText(m: Printed, nl: string)
    ensures Text(PrintedLines(m, nl)) == Text([Line("MODEL(" + m.ied + "){", nl)]) + Text(DevicesLines(m.devices, nl))
                                         + Text(SetsLines(m.sets)) + Text([Line("}", nl)])
  {
    var a, b, c, d := [Line("MODEL(" + m.ied + "){", nl)], DevicesLines(m.devices, nl), SetsLines(m.sets),
        [Line("}", nl)];
    TextAppend(a, b);
    TextAppend(a + b, c);
    TextAppend(a + b + c, d);
  }

  lemma Concatenation(s: string, a: string, b: string, c: string, d: string)
    ensures s + (a + b + c + d) == s + a + b + c + d
  {
    assert s + (a + b + c + d) == s + (a + b + c) + d;
  }

  /** The constructor of the generator: the whole file. */
  method PrintModel(output: PrintStream, m: Printed)
    modifies output
    ensures output.text == old(output.text) + Text(PrintedLines(m, output.separator))
  {
    PrintedText(m, output.separator);
    Concatenation(output.text, Text([Line("MODEL(" + m.ied + "){", output.separator)]),
                  Text(DevicesLines(m.devices, output.separator)), Text(SetsLines(m.sets)),
                      Text([Line("}", output.separator)]));
    output.Println("MODEL(" + m.ied + "){");
    PrintDevices(output, m.devices);
    PrintSets(output, m.sets);
    output.Println("}");
  }
}
