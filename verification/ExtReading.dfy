/** What the reader makes of a printed model. Every name is read up to its first space; if nothing
    stops the reading, the lists read are those of the model with every name as it was read. */
module ExtReading {
  import opened Mms
  import opened Lines
  import opened Scan
  import opened ExtModel
  import opened ExtPrinter

  // ---- From text to lines ----

  /** Reading one line: a line that is too long overruns the buffer. */
  function Take(s: State, l: Line): Next {
    if |l.text| >= READ_BUFFER_MAX_SIZE then Stop(Undefined) else Step(s, l.text)
  }

  function ParseLines(s: State, lines: seq<Line>): Next
    decreases |lines|
  {
    if lines == [] then Go(s)
    else match Take(s, lines[0])
      case Stop(outcome) => Stop(outcome)
      case Go(s') => ParseLines(s', lines[1..])
  }

  /** No character that ends a line or a C string. */
  predicate Calm(t: string) {
    forall k :: 0 <= k < |t| ==> !IsEol(t[k]) && t[k] != '\0'
  }

  predicate LineEnd(nl: string) {
    nl == "\n" || nl == "\r\n"
  }

  /** A line that is one: characters that do not end it, and an end. */
  predicate Sound(l: Line) {
    l.text != "" && Calm(l.text) && LineEnd(l.eol)
  }

  predicate AllSound(lines: seq<Line>) {
    forall k :: 0 <= k < |lines| ==> Sound(lines[k])
  }

  predicate Printable(l: Line) {
    Readable(l) && Calm(l.text)
  }

  predicate AllPrintable(lines: seq<Line>) {
    forall k :: 0 <= k < |lines| ==> Printable(lines[k])
  }

  lemma CutCalm(t: string)
    requires Calm(t)
    ensures Cut(t, '\0') == t
  {
    assert t[..|t|] == t;
    CutIs(t, '\0', |t|);
  }

  function Continue(next: Next, rest: string): Outcome {
    match next
    case Stop(outcome) => outcome
    case Go(t) => Parse(t, rest)
  }

  /** Reading a sound line is taking its step, whatever follows. */
  lemma ParseLine(s: State, l: Line, rest: string)
    requires Sound(l)
    ensures Parse(s, l.text + l.eol + rest) == Continue(Take(s, l), rest)
  {
    if |l.text| >= READ_BUFFER_MAX_SIZE {
      LongLine(l, rest);
    } else {
      ReadBack(l, rest);
      CutCalm(l.text);
      LeftOver(l, rest);
      var next := Step(s, l.text);
      if next.Go? {
        assert Parse(next.state, l.eol[1..] + rest) == Parse(next.state, rest);
      }
    }
  }

  /** Reading a text of sound lines is taking their steps one after the other. */
  lemma {:induction false} ParseText(s: State, lines: seq<Line>)
    requires AllSound(lines)
    ensures Parse(s, Text(lines)) == match ParseLines(s, lines) case Stop(o) => o case Go(s') => Finish(s')
    decreases |lines|
  {
    if lines == [] {
    } else {
      ParseLine(s, lines[0], Text(lines[1..]));
      match Take(s, lines[0]) {
        case Stop(_) =>
        case Go(s') => ParseText(s', lines[1..]);
      }
    }
  }

  lemma {:induction false} ParseAppend(s: State, a: seq<Line>, b: seq<Line>)
    ensures ParseLines(s, a + b) == match ParseLines(s, a) case Stop(o) => Stop(o) case Go(s') => ParseLines(s', b)
    decreases |a|
  {
    if a == [] {
      assert a + b == b;
    } else {
      assert (a + b)[1..] == a[1..] + b;
      match Take(s, a[0]) {
        case Stop(_) =>
        case Go(s') => ParseAppend(s', a[1..], b);
      }
    }
  }

  lemma ParseOne(s: State, l: Line)
    ensures ParseLines(s, [l]) == Take(s, l)
  {
  }

  lemma StepNeverAccepts(s: State, line: string)
    ensures Step(s, line).Stop? ==> !Step(s, line).outcome.Accepted?
  {
  }

  /** Where the reading stops, no model comes out. */
  lemma {:induction false} StopIsNotAccepted(s: State, lines: seq<Line>)
    requires ParseLines(s, lines).Stop?
    ensures !ParseLines(s, lines).outcome.Accepted?
    decreases |lines|
  {
    if Take(s, lines[0]).Stop? {
      StepNeverAccepts(s, lines[0].text);
    } else {
      StopIsNotAccepted(Take(s, lines[0]).state, lines[1..]);
    }
  }

  /** A reading that does not stop has met no line that is too long. */
  lemma {:induction false} LinesAreShort(s: State, lines: seq<Line>)
    requires ParseLines(s, lines).Go?
    ensures forall k :: 0 <= k < |lines| ==> |lines[k].text| < READ_BUFFER_MAX_SIZE
    decreases |lines|
  {
    if lines == [] {
    } else {
      LinesAreShort(Take(s, lines[0]).state, lines[1..]);
      assert forall k :: 1 <= k < |lines| ==> lines[k] == lines[1..][k - 1];
    }
  }

  // ---- Names as they are read ----

  /** What closes a line of names. */
  predicate Closing(close: string) {
    close == "){" || close == ");"
  }

  /** The first word of a text that has one. */
  function FirstWord(s: string): string {
    match ScanWord(s)
    case None => ""
    case Some((word, rest)) => word
  }

  /** A name printed last, as it is read: up to its first space and without the parenthesis. */
  function ReadName(w: string, close: string): string {
    Cut(FirstWord(w + close), ')')
  }

  /** It fits the buffers: the line that of a line, its first word that of a name. */
  predicate Fits(literal: string, w: string, close: string) {
    |literal + w + close| < READ_BUFFER_MAX_SIZE && |FirstWord(w + close)| < NAME_SIZE
  }

  lemma {:induction false} SkipSpacesKeeps(s: string, k: nat)
    requires k < |s| && !IsSpace(s[k])
    ensures SkipSpaces(s) != ""
    decreases k
  {
    if k > 0 && IsSpace(s[0]) {
      SkipSpacesKeeps(s[1..], k - 1);
    }
  }

  /** With what closes the line there always is a word. */
  lemma WordFound(w: string, close: string)
    requires Closing(close)
    ensures ScanWord(w + close).Some? && ScanWords(w + close, 1).0 == [FirstWord(w + close)]
  {
    assert (w + close)[|w|] == ')';
    SkipSpacesKeeps(w + close, |w|);
    var rest := ScanWord(w + close).value.1;
    assert ScanWords(rest, 0).0 == [];
  }

  lemma OneArg(literal: string, w: string, close: string)
    requires Closing(close)
    ensures Args(literal + w + close, literal, 1) == [FirstWord(w + close)]
    ensures Overlong([FirstWord(w + close)]) <==> |FirstWord(w + close)| >= NAME_SIZE
  {
    var line := literal + w + close;
    assert line[..|literal|] == literal && line[|literal|..] == w + close;
    WordFound(w, close);
    assert [FirstWord(w + close)][0] == FirstWord(w + close);
  }

  lemma StartsWithTwo(line: string, p: string)
    requires |p| == 2 && |line| >= 2
    ensures p <= line <==> line[0] == p[0] && line[1] == p[1]
  {
    if line[0] == p[0] && line[1] == p[1] {
      assert line[..2] == p;
    }
  }

  /** Which step a line is, by its first two characters. */
  lemma Dispatch(s: State, line: string)
    requires s.inModel && |line| >= 2 && line[0] != '}'
    ensures s.indentation == 1 && line[0] == 'L' && line[1] == 'D' ==> Step(s, line) == OpenDevice(s, line)
    ensures s.indentation == 1 && line[0] == 'S' && line[1] == 'D' ==> Step(s, line) == AddSubscriber(s, line)
    ensures s.indentation == 2 && line[0] == 'L' && line[1] == 'N' ==> Step(s, line) == OpenNode(s, line)
    ensures s.indentation == 3 && line[0] == 'I' && line[1] == 'N' ==> Step(s, line) == OpenInputs(s)
    ensures s.indentation == 3 && line[0] == 'C' && line[1] == 'L' ==> Step(s, line) == AddClass(s, line)
    ensures s.indentation == 4 && line[0] == 'E' && line[1] == 'R' ==> Step(s, line) == AddRef(s, line)
  {
    StartsWithTwo(line, "LD");
    StartsWithTwo(line, "SD");
    StartsWithTwo(line, "LN");
    StartsWithTwo(line, "IN");
    StartsWithTwo(line, "CL");
    StartsWithTwo(line, "ER");
  }

  // ---- Lines of one name ----

  lemma StepModel(ied: string)
    ensures Take(INITIAL, Line("MODEL(" + ied + "){", "")) ==
            if Fits("MODEL(", ied, "){")
            then Go(INITIAL.(model := Some(EMPTY), inModel := true, indentation := 1,
                             name := Some(ReadName(ied, "){"))))
            else Stop(Undefined)
  {
    var line := "MODEL(" + ied + "){";
    OneArg("MODEL(", ied, "){");
    assert line[5] == '(';
    assert line[..6] == "MODEL(";
  }

  lemma StepDevice(s: State, inst: string)
    requires s.inModel && s.indentation == 1
    ensures Take(s, Line("LD(" + inst + "){", "")) ==
            if Fits("LD(", inst, "){")
            then Go(s.(indentation := 2, ld := ReadName(inst, "){"), name := Some(ReadName(inst, "){"))))
                else Stop(Undefined)
  {
    OneArg("LD(", inst, "){");
    Dispatch(s, "LD(" + inst + "){");
  }

  lemma StepNode(s: State, ln: string)
    requires s.inModel && s.indentation == 2
    ensures Take(s, Line("LN(" + ln + "){", "")) ==
            if Fits("LN(", ln, "){")
            then Go(s.(indentation := 3, ln := ReadName(ln, "){"), name := Some(ReadName(ln, "){"))))
                else Stop(Undefined)
  {
    OneArg("LN(", ln, "){");
    Dispatch(s, "LN(" + ln + "){");
  }

  function PlusClass(m: Model, c: LnClass): Model {
    m.(classes := m.classes + [c])
  }

  lemma StepClass(s: State, cls: string)
    requires s.inModel && s.indentation == 3 && s.model.Some?
    ensures Take(s, Line("CL(" + cls + ");", "")) ==
            if Fits("CL(", cls, ");")
            then Go(s.(model := Some(PlusClass(s.model.value, LnClass(s.ld, s.ln, ReadName(cls, ");")))),
                       name := Some(ReadName(cls, ");"))))
            else Stop(Undefined)
  {
    OneArg("CL(", cls, ");");
    Dispatch(s, "CL(" + cls + ");");
  }

  lemma StepClose(s: State)
    requires s.inModel && s.indentation > 0
    ensures Step(s, "}") == Close(s)
  {
  }

  lemma StepInputs(s: State)
    requires s.inModel && s.indentation == 3 && s.model.Some?
    ensures Step(s, "IN{") ==
            Go(s.(indentation := 4,
                  model := Some(s.model.value.(inputs := s.model.value.inputs + [Inputs(s.ld, s.ln, [])]))))
  {
    Dispatch(s, "IN{");
  }

  // ---- Lines of several names ----

  function RefWords(e: ExtRef): seq<string> {
    Args(RefLine(e).text, "ER(", 5)
  }

  predicate RefFits(e: ExtRef) {
    |RefLine(e).text| < READ_BUFFER_MAX_SIZE && |RefWords(e)| == 5 && !Overlong(RefWords(e))
  }

  /** A reference as it is read. */
  function ReadRef(e: ExtRef): ExtRef
    requires RefFits(e)
  {
    var words := RefWords(e);
    ExtRef(words[0], words[1], words[2], words[3], Cut(words[4], ')'))
  }

  lemma StepRef(s: State, e: ExtRef)
    requires s.inModel && s.indentation == 4 && s.model.Some? && s.model.value.inputs != []
    ensures Take(s, RefLine(e)) ==
            if RefFits(e)
            then Go(s.(model := Some(s.model.value.(inputs := WithRef(s.model.value.inputs, ReadRef(e)))),
                       name := Some(ReadRef(e).desc)))
            else Stop(Undefined)
  {
    var line := RefLine(e).text;
    assert line[0] == 'E' && line[1] == 'R';
    Dispatch(s, line);
  }

  function Items(sent: SentSet, name: string): SdItems {
    ScanSd(MemberLine(sent, name).text)
  }

  predicate MemberFits(sent: SentSet, name: string) {
    var items := Items(sent, name);
    && |MemberLine(sent, name).text| < READ_BUFFER_MAX_SIZE && !ScanFails(items) && |items.last| == 3
    && !OverrunsAddress(items.last[0]) && Address(items.last[0]).Some?
  }

  /** A member as it is read. */
  function ReadMember(sent: SentSet, name: string): Subscriber
    requires MemberFits(sent, name)
  {
    Entry(Items(sent, name), Address(Items(sent, name).last[0]).value)
  }

  lemma StepMember(s: State, sent: SentSet, name: string)
    requires s.inModel && s.indentation == 1 && s.model.Some?
    ensures MemberFits(sent, name) ==>
            Take(s, MemberLine(sent, name)) ==
            Go(s.(model := Some(s.model.value.(subRefs := s.model.value.subRefs + [ReadMember(sent, name)])),
                  name := Some(ReadMember(sent, name).variableName)))
    ensures !MemberFits(sent, name) ==> Take(s, MemberLine(sent, name)).Stop?
  {
    var line := MemberLine(sent, name).text;
    assert line[0] == 'S' && line[1] == 'D';
    Dispatch(s, line);
  }

  // ---- A printed model as it is read ----

  predicate RefsFit(refs: seq<ExtRef>) {
    forall k :: 0 <= k < |refs| ==> RefFits(refs[k])
  }

  function ReadRefs(refs: seq<ExtRef>): (r: seq<ExtRef>)
    requires RefsFit(refs)
    ensures |r| == |refs| && forall k :: 0 <= k < |r| ==> r[k] == ReadRef(refs[k])
  {
    seq(|refs|, k requires 0 <= k < |refs| => ReadRef(refs[k]))
  }

  predicate InputsFit(inputs: seq<seq<ExtRef>>) {
    forall k :: 0 <= k < |inputs| ==> RefsFit(inputs[k])
  }

  function ReadInputs(inputs: seq<seq<ExtRef>>): (r: seq<seq<ExtRef>>)
    requires InputsFit(inputs)
    ensures |r| == |inputs| && forall k :: 0 <= k < |r| ==> r[k] == ReadRefs(inputs[k])
  {
    seq(|inputs|, k requires 0 <= k < |inputs| => ReadRefs(inputs[k]))
  }

  predicate NodeFits(n: Node) {
    Fits("LN(", n.name, "){") && Fits("CL(", n.cls, ");") && InputsFit(n.inputs)
  }

  function ReadNode(n: Node): Node
    requires NodeFits(n)
  {
    Node(ReadName(n.name, "){"), ReadName(n.cls, ");"), ReadInputs(n.inputs))
  }

  predicate NodesFit(nodes: seq<Node>) {
    forall k :: 0 <= k < |nodes| ==> NodeFits(nodes[k])
  }

  function ReadNodes(nodes: seq<Node>): (r: seq<Node>)
    requires NodesFit(nodes)
    ensures |r| == |nodes| && forall k :: 0 <= k < |r| ==> r[k] == ReadNode(nodes[k])
  {
    seq(|nodes|, k requires 0 <= k < |nodes| => ReadNode(nodes[k]))
  }

  predicate DeviceFits(d: Device) {
    Fits("LD(", d.inst, "){") && NodesFit(d.nodes)
  }

  function ReadDevice(d: Device): Device
    requires DeviceFits(d)
  {
    Device(ReadName(d.inst, "){"), ReadNodes(d.nodes))
  }

  predicate DevicesFit(devices: seq<Device>) {
    forall k :: 0 <= k < |devices| ==> DeviceFits(devices[k])
  }

  function ReadDevices(devices: seq<Device>): (r: seq<Device>)
    requires DevicesFit(devices)
    ensures |r| == |devices| && forall k :: 0 <= k < |r| ==> r[k] == ReadDevice(devices[k])
  {
    seq(|devices|, k requires 0 <= k < |devices| => ReadDevice(devices[k]))
  }

  predicate MembersFit(sent: SentSet, names: seq<string>) {
    forall k :: 0 <= k < |names| ==> MemberFits(sent, names[k])
  }

  function ReadMembers(sent: SentSet, names: seq<string>): (r: seq<Subscriber>)
    requires MembersFit(sent, names)
    ensures |r| == |names| && forall k :: 0 <= k < |r| ==> r[k] == ReadMember(sent, names[k])
  {
    seq(|names|, k requires 0 <= k < |names| => ReadMember(sent, names[k]))
  }

  predicate SetsFit(sets: seq<SentSet>) {
    forall k :: 0 <= k < |sets| ==> MembersFit(sets[k], sets[k].names)
  }

  function ReadSets(sets: seq<SentSet>): seq<Subscriber>
    requires SetsFit(sets)
  {
    if sets == [] then []
    else ReadSets(sets[..|sets| - 1]) + ReadMembers(sets[|sets| - 1], sets[|sets| - 1].names)
  }

  predicate ModelFits(m: Printed) {
    Fits("MODEL(", m.ied, "){") && DevicesFit(m.devices) && SetsFit(m.sets)
  }

  // ---- What a printed model means ----

  function InputsOf(ld: string, ln: string, inputs: seq<seq<ExtRef>>): seq<Inputs> {
    if inputs == [] then []
    else InputsOf(ld, ln, inputs[..|inputs| - 1]) + [Inputs(ld, ln, inputs[|inputs| - 1])]
  }

  function NodeClasses(ld: string, nodes: seq<Node>): seq<LnClass> {
    if nodes == [] then []
    else NodeClasses(ld, nodes[..|nodes| - 1]) + [LnClass(ld, nodes[|nodes| - 1].name, nodes[|nodes| - 1].cls)]
  }

  function NodeInputs(ld: string, nodes: seq<Node>): seq<Inputs> {
    if nodes == [] then []
    else NodeInputs(ld, nodes[..|nodes| - 1]) + InputsOf(ld, nodes[|nodes| - 1].name, nodes[|nodes| - 1].inputs)
  }

  function DeviceClasses(devices: seq<Device>): seq<LnClass> {
    if devices == [] then []
    else
      var last := devices[|devices| - 1];
      DeviceClasses(devices[..|devices| - 1]) + NodeClasses(last.inst, last.nodes)
  }

  function DeviceInputs(devices: seq<Device>): seq<Inputs> {
    if devices == [] then []
    else DeviceInputs(devices[..|devices| - 1]) + NodeInputs(devices[|devices| - 1].inst, devices[|devices| - 1].nodes)
  }

  /** The entry of a data set member. */
  function SubscriberOf(sent: SentSet, name: string): Subscriber {
    Subscriber(name, sent.dataset, sent.header.appId, sent.header.cbRef, sent.header.id, sent.header.ethAddr)
  }

  function MemberEntries(sent: SentSet, names: seq<string>): (r: seq<Subscriber>)
    ensures |r| == |names|
  {
    if names == [] then []
    else MemberEntries(sent, names[..|names| - 1]) + [SubscriberOf(sent, names[|names| - 1])]
  }

  function SetEntries(sets: seq<SentSet>): seq<Subscriber> {
    if sets == [] then []
    else SetEntries(sets[..|sets| - 1]) + MemberEntries(sets[|sets| - 1], sets[|sets| - 1].names)
  }

  /** The three lists a printed model stands for, each in printed order. */
  function Meaning(m: Printed): Model {
    Model(DeviceClasses(m.devices), DeviceInputs(m.devices), SetEntries(m.sets))
  }

  /** What comes out of a printed model whose names fit their buffers. */
  function ReadMeaning(m: Printed): Model
    requires ModelFits(m)
  {
    Model(DeviceClasses(ReadDevices(m.devices)), DeviceInputs(ReadDevices(m.devices)), ReadSets(m.sets))
  }

  // ---- Parsing what was printed, from the inside out ----

  /** Reading some lines in a state goes well and leads to the given level and model. */
  ghost predicate Leads(s: State, lines: seq<Line>, indentation: nat, model: Model) {
    match ParseLines(s, lines)
    case Stop(_) => false
    case Go(t) => t.inModel && t.indentation == indentation && t.model == Some(model)
  }

  /** The same, and the logical device (and node) are those the reading started with. */
  ghost predicate LeadsAt(s: State, lines: seq<Line>, indentation: nat, model: Model, node: bool) {
    && Leads(s, lines, indentation, model)
    && ParseLines(s, lines).state.ld == s.ld
    && (node ==> ParseLines(s, lines).state.ln == s.ln)
  }

  function WithRefs(inputs: seq<Inputs>, refs: seq<ExtRef>): seq<Inputs>
    requires inputs != []
  {
    var last := inputs[|inputs| - 1];
    inputs[..|inputs| - 1] + [last.(extRefs := last.extRefs + refs)]
  }

  lemma WithRefsMore(inputs: seq<Inputs>, refs: seq<ExtRef>, e: ExtRef)
    requires inputs != []
    ensures WithRef(WithRefs(inputs, refs), e) == WithRefs(inputs, refs + [e])
  {
    var last := inputs[|inputs| - 1];
    assert last.extRefs + refs + [e] == last.extRefs + (refs + [e]);
  }

  function PlusRefs(m: Model, refs: seq<ExtRef>): Model
    requires m.inputs != []
  {
    m.(inputs := WithRefs(m.inputs, refs))
  }

  lemma RefsMore(refs: seq<ExtRef>)
    requires refs != []
    ensures var init, last := refs[..|refs| - 1], refs[|refs| - 1];
            && (RefsFit(refs) <==> RefsFit(init) && RefFits(last))
            && (RefsFit(refs) ==> ReadRefs(refs) == ReadRefs(init) + [ReadRef(last)])
  {
    var init, last := refs[..|refs| - 1], refs[|refs| - 1];
    assert refs == init + [last];
  }

  lemma {:induction false} ParseRefs(s: State, refs: seq<ExtRef>)
    requires s.inModel && s.indentation == 4 && s.model.Some? && s.model.value.inputs != []
    ensures RefsFit(refs) ==> LeadsAt(s, RefLines(refs), 4, PlusRefs(s.model.value, ReadRefs(refs)), true)
    ensures !RefsFit(refs) ==> ParseLines(s, RefLines(refs)).Stop?
    decreases |refs|
  {
    if refs == [] {
      var inputs := s.model.value.inputs;
      assert inputs[|inputs| - 1].extRefs + [] == inputs[|inputs| - 1].extRefs;
      assert WithRefs(inputs, []) == inputs;
    } else {
      var init, last := refs[..|refs| - 1], refs[|refs| - 1];
      RefsMore(refs);
      ParseRefs(s, init);
      ParseAppend(s, RefLines(init), [RefLine(last)]);
      if RefsFit(init) {
        var t := ParseLines(s, RefLines(init)).state;
        ParseOne(t, RefLine(last));
        StepRef(t, last);
        if RefFits(last) {
          WithRefsMore(s.model.value.inputs, ReadRefs(init), ReadRef(last));
        }
      }
    }
  }

  /** One node's block of references. */
  lemma ParseInputs(s: State, refs: seq<ExtRef>, nl: string)
    requires s.inModel && s.indentation == 3 && s.model.Some?
    ensures RefsFit(refs) ==>
            LeadsAt(s, InputsLines(refs, nl), 3, PlusInputs(s.model.value, Inputs(s.ld, s.ln, ReadRefs(refs))), true)
    ensures !RefsFit(refs) ==> ParseLines(s, InputsLines(refs, nl)).Stop?
  {
    var open, close := Line("IN{", "\n"), Line("}", nl);
    ParseOne(s, open);
    StepInputs(s);
    var t := Step(s, "IN{").state;
    ParseRefs(t, refs);
    ParseAppend(s, [open], RefLines(refs));
    ParseAppend(s, [open] + RefLines(refs), [close]);
    if RefsFit(refs) {
      var u := ParseLines(t, RefLines(refs)).state;
      ParseOne(u, close);
      StepClose(u);
      var inputs := s.model.value.inputs;
      assert (inputs + [Inputs(s.ld, s.ln, [])])[..|inputs|] == inputs;
      assert [] + ReadRefs(refs) == ReadRefs(refs);
    }
  }

  function PlusInputs(m: Model, i: Inputs): Model {
    m.(inputs := m.inputs + [i])
  }

  function PlusAllInputs(m: Model, ld: string, ln: string, inputs: seq<seq<ExtRef>>): Model {
    m.(inputs := m.inputs + InputsOf(ld, ln, inputs))
  }

  lemma PlusInputsMore(m: Model, ld: string, ln: string, init: seq<seq<ExtRef>>, last: seq<ExtRef>)
    ensures PlusInputs(PlusAllInputs(m, ld, ln, init), Inputs(ld, ln, last)) == PlusAllInputs(m, ld, ln, init + [last])
  {
    assert (init + [last])[..|init|] == init;
    assert m.inputs + InputsOf(ld, ln, init) + [Inputs(ld, ln, last)]
        == m.inputs + (InputsOf(ld, ln, init) + [Inputs(ld, ln, last)]);
  }

  lemma AllInputsMore(inputs: seq<seq<ExtRef>>)
    requires inputs != []
    ensures var init, last := inputs[..|inputs| - 1], inputs[|inputs| - 1];
            && (InputsFit(inputs) <==> InputsFit(init) && RefsFit(last))
            && (InputsFit(inputs) ==> ReadInputs(inputs) == ReadInputs(init) + [ReadRefs(last)])
  {
    var init, last := inputs[..|inputs| - 1], inputs[|inputs| - 1];
    assert inputs == init + [last];
  }

  lemma {:induction false} ParseAllInputs(s: State, inputs: seq<seq<ExtRef>>, nl: string)
    requires s.inModel && s.indentation == 3 && s.model.Some?
    ensures InputsFit(inputs) ==>
            LeadsAt(s, AllInputsLines(inputs, nl), 3, PlusAllInputs(s.model.value, s.ld, s.ln, ReadInputs(inputs)),
                    true)
    ensures !InputsFit(inputs) ==> ParseLines(s, AllInputsLines(inputs, nl)).Stop?
    decreases |inputs|
  {
    if inputs == [] {
      assert s.model.value.inputs + [] == s.model.value.inputs;
    } else {
      var init, last := inputs[..|inputs| - 1], inputs[|inputs| - 1];
      AllInputsMore(inputs);
      ParseAllInputs(s, init, nl);
      ParseAppend(s, AllInputsLines(init, nl), InputsLines(last, nl));
      if InputsFit(init) {
        ParseInputs(ParseLines(s, AllInputsLines(init, nl)).state, last, nl);
        if RefsFit(last) {
          PlusInputsMore(s.model.value, s.ld, s.ln, ReadInputs(init), ReadRefs(last));
        }
      }
    }
  }

  function PlusNode(m: Model, ld: string, n: Node): Model {
    m.(classes := m.classes + [LnClass(ld, n.name, n.cls)], inputs := m.inputs + InputsOf(ld, n.name, n.inputs))
  }

  /** The first two lines of a node. */
  lemma ParseNodeHead(s: State, n: Node, nl: string)
    requires s.inModel && s.indentation == 2 && s.model.Some?
    ensures var fits := Fits("LN(", n.name, "){") && Fits("CL(", n.cls, ");");
            var ln, cls := ReadName(n.name, "){"), ReadName(n.cls, ");");
            ParseLines(s, [Line("LN(" + n.name + "){", "\n"), Line("CL(" + n.cls + ");", nl)]) ==
            if fits then Go(s.(indentation := 3, ln := ln, name := Some(cls),
                               model := Some(PlusClass(s.model.value, LnClass(s.ld, ln, cls))))) else Stop(Undefined)
  {
    var open, class_ := Line("LN(" + n.name + "){", "\n"), Line("CL(" + n.cls + ");", nl);
    assert [open, class_] == [open] + [class_];
    ParseAppend(s, [open], [class_]);
    StepNode(s, n.name);
    ParseOne(s, open);
    if Fits("LN(", n.name, "){") {
      var t := Take(s, open).state;
      StepClass(t, n.cls);
      ParseOne(t, class_);
    }
  }

  lemma ParseNode(s: State, n: Node, nl: string)
    requires s.inModel && s.indentation == 2 && s.model.Some?
    ensures NodeFits(n) ==> LeadsAt(s, NodeLines(n, nl), 2, PlusNode(s.model.value, s.ld, ReadNode(n)), false)
    ensures !NodeFits(n) ==> ParseLines(s, NodeLines(n, nl)).Stop?
  {
    var head, close := [Line("LN(" + n.name + "){", "\n"), Line("CL(" + n.cls + ");", nl)], Line("}", nl);
    ParseNodeHead(s, n, nl);
    ParseAppend(s, head, AllInputsLines(n.inputs, nl));
    ParseAppend(s, head + AllInputsLines(n.inputs, nl), [close]);
    if ParseLines(s, head).Go? {
      var u := ParseLines(s, head).state;
      ParseAllInputs(u, n.inputs, nl);
      if InputsFit(n.inputs) {
        var v := ParseLines(u, AllInputsLines(n.inputs, nl)).state;
        StepClose(v);
        ParseOne(v, close);
      }
    }
  }

  function PlusNodes(m: Model, ld: string, nodes: seq<Node>): Model {
    m.(classes := m.classes + NodeClasses(ld, nodes), inputs := m.inputs + NodeInputs(ld, nodes))
  }

  lemma PlusNodesMore(m: Model, ld: string, init: seq<Node>, last: Node)
    ensures PlusNode(PlusNodes(m, ld, init), ld, last) == PlusNodes(m, ld, init + [last])
  {
    assert (init + [last])[..|init|] == init;
    assert m.inputs + NodeInputs(ld, init) + InputsOf(ld, last.name, last.inputs)
        == m.inputs + (NodeInputs(ld, init) + InputsOf(ld, last.name, last.inputs));
    assert m.classes + NodeClasses(ld, init) + [LnClass(ld, last.name, last.cls)]
        == m.classes + (NodeClasses(ld, init) + [LnClass(ld, last.name, last.cls)]);
  }

  lemma NodesMore(nodes: seq<Node>)
    requires nodes != []
    ensures var init, last := nodes[..|nodes| - 1], nodes[|nodes| - 1];
            && (NodesFit(nodes) <==> NodesFit(init) && NodeFits(last))
            && (NodesFit(nodes) ==> ReadNodes(nodes) == ReadNodes(init) + [ReadNode(last)])
  {
    var init, last := nodes[..|nodes| - 1], nodes[|nodes| - 1];
    assert nodes == init + [last];
  }

  lemma {:induction false} ParseNodes(s: State, nodes: seq<Node>, nl: string)
    requires s.inModel && s.indentation == 2 && s.model.Some?
    ensures NodesFit(nodes) ==>
        LeadsAt(s, NodesLines(nodes, nl), 2, PlusNodes(s.model.value, s.ld, ReadNodes(nodes)), false)
    ensures !NodesFit(nodes) ==> ParseLines(s, NodesLines(nodes, nl)).Stop?
    decreases |nodes|
  {
    if nodes == [] {
      assert PlusNodes(s.model.value, s.ld, []) == s.model.value;
    } else {
      var init, last := nodes[..|nodes| - 1], nodes[|nodes| - 1];
      NodesMore(nodes);
      ParseNodes(s, init, nl);
      ParseAppend(s, NodesLines(init, nl), NodeLines(last, nl));
      if NodesFit(init) {
        ParseNode(ParseLines(s, NodesLines(init, nl)).state, last, nl);
        if NodeFits(last) {
          PlusNodesMore(s.model.value, s.ld, ReadNodes(init), ReadNode(last));
        }
      }
    }
  }

  lemma ParseDevice(s: State, d: Device, nl: string)
    requires s.inModel && s.indentation == 1 && s.model.Some?
    ensures DeviceFits(d) ==>
            Leads(s, DeviceLines(d, nl), 1, PlusNodes(s.model.value, ReadName(d.inst, "){"), ReadNodes(d.nodes)))
    ensures !DeviceFits(d) ==> ParseLines(s, DeviceLines(d, nl)).Stop?
  {
    var open, close := Line("LD(" + d.inst + "){", "\n"), Line("}", nl);
    StepDevice(s, d.inst);
    ParseOne(s, open);
    ParseAppend(s, [open], NodesLines(d.nodes, nl));
    ParseAppend(s, [open] + NodesLines(d.nodes, nl), [close]);
    if Fits("LD(", d.inst, "){") {
      var t := Take(s, open).state;
      ParseNodes(t, d.nodes, nl);
      if NodesFit(d.nodes) {
        var u := ParseLines(t, NodesLines(d.nodes, nl)).state;
        StepClose(u);
        ParseOne(u, close);
      }
    }
  }

  function PlusDevices(m: Model, devices: seq<Device>): Model {
    m.(classes := m.classes + DeviceClasses(devices), inputs := m.inputs + DeviceInputs(devices))
  }

  lemma PlusDevicesMore(m: Model, init: seq<Device>, last: Device)
    ensures PlusNodes(PlusDevices(m, init), last.inst, last.nodes) == PlusDevices(m, init + [last])
  {
    assert (init + [last])[..|init|] == init;
    assert m.inputs + DeviceInputs(init) + NodeInputs(last.inst, last.nodes)
        == m.inputs + (DeviceInputs(init) + NodeInputs(last.inst, last.nodes));
    assert m.classes + DeviceClasses(init) + NodeClasses(last.inst, last.nodes)
        == m.classes + (DeviceClasses(init) + NodeClasses(last.inst, last.nodes));
  }

  lemma DevicesMore(devices: seq<Device>)
    requires devices != []
    ensures var init, last := devices[..|devices| - 1], devices[|devices| - 1];
            && (DevicesFit(devices) <==> DevicesFit(init) && DeviceFits(last))
            && (DevicesFit(devices) ==> ReadDevices(devices) == ReadDevices(init) + [ReadDevice(last)])
  {
    var init, last := devices[..|devices| - 1], devices[|devices| - 1];
    assert devices == init + [last];
  }

  lemma {:induction false} ParseDevices(s: State, devices: seq<Device>, nl: string)
    requires s.inModel && s.indentation == 1 && s.model.Some?
    ensures DevicesFit(devices) ==>
        Leads(s, DevicesLines(devices, nl), 1, PlusDevices(s.model.value, ReadDevices(devices)))
    ensures !DevicesFit(devices) ==> ParseLines(s, DevicesLines(devices, nl)).Stop?
    decreases |devices|
  {
    if devices == [] {
      assert PlusDevices(s.model.value, []) == s.model.value;
    } else {
      var init, last := devices[..|devices| - 1], devices[|devices| - 1];
      DevicesMore(devices);
      ParseDevices(s, init, nl);
      ParseAppend(s, DevicesLines(init, nl), DeviceLines(last, nl));
      if DevicesFit(init) {
        ParseDevice(ParseLines(s, DevicesLines(init, nl)).state, last, nl);
        if DeviceFits(last) {
          PlusDevicesMore(s.model.value, ReadDevices(init), ReadDevice(last));
        }
      }
    }
  }

  function PlusEntries(m: Model, entries: seq<Subscriber>): Model {
    m.(subRefs := m.subRefs + entries)
  }

  lemma PlusEntriesMore(m: Model, a: seq<Subscriber>, b: seq<Subscriber>)
    ensures PlusEntries(PlusEntries(m, a), b) == PlusEntries(m, a + b)
    ensures PlusEntries(m, []) == m
  {
    assert m.subRefs + a + b == m.subRefs + (a + b);
    assert m.subRefs + [] == m.subRefs;
  }

  lemma MembersMore(sent: SentSet, names: seq<string>)
    requires names != []
    ensures var init, last := names[..|names| - 1], names[|names| - 1];
            && (MembersFit(sent, names) <==> MembersFit(sent, init) && MemberFits(sent, last))
            && (MembersFit(sent, names) ==>
                ReadMembers(sent, names) == ReadMembers(sent, init) + [ReadMember(sent, last)])
  {
    var init, last := names[..|names| - 1], names[|names| - 1];
    assert names == init + [last];
  }

  lemma {:induction false} ParseMembers(s: State, sent: SentSet, names: seq<string>)
    requires s.inModel && s.indentation == 1 && s.model.Some?
    ensures MembersFit(sent, names) ==>
            Leads(s, MemberLines(sent, names), 1, PlusEntries(s.model.value, ReadMembers(sent, names)))
    ensures !MembersFit(sent, names) ==> ParseLines(s, MemberLines(sent, names)).Stop?
    decreases |names|
  {
    if names == [] {
      PlusEntriesMore(s.model.value, [], []);
    } else {
      var init, last := names[..|names| - 1], names[|names| - 1];
      MembersMore(sent, names);
      ParseMembers(s, sent, init);
      ParseAppend(s, MemberLines(sent, init), [MemberLine(sent, last)]);
      if MembersFit(sent, init) {
        var t := ParseLines(s, MemberLines(sent, init)).state;
        StepMember(t, sent, last);
        ParseOne(t, MemberLine(sent, last));
        if MemberFits(sent, last) {
          PlusEntriesMore(s.model.value, ReadMembers(sent, init), [ReadMember(sent, last)]);
        }
      }
    }
  }

  lemma SetsMore(sets: seq<SentSet>)
    requires sets != []
    ensures var init, last := sets[..|sets| - 1], sets[|sets| - 1];
            && (SetsFit(sets) <==> SetsFit(init) && MembersFit(last, last.names))
            && (SetsFit(sets) ==> ReadSets(sets) == ReadSets(init) + ReadMembers(last, last.names))
            && SetsLines(sets) == SetsLines(init) + SetLines(last)
  {
    var init, last := sets[..|sets| - 1], sets[|sets| - 1];
    assert sets == init + [last];
  }

  lemma {:induction false} ParseSets(s: State, sets: seq<SentSet>)
    requires s.inModel && s.indentation == 1 && s.model.Some?
    ensures SetsFit(sets) ==> Leads(s, SetsLines(sets), 1, PlusEntries(s.model.value, ReadSets(sets)))
    ensures !SetsFit(sets) ==> ParseLines(s, SetsLines(sets)).Stop?
    decreases |sets|
  {
    if sets == [] {
      PlusEntriesMore(s.model.value, [], []);
    } else {
      var init, last := sets[..|sets| - 1], sets[|sets| - 1];
      SetsMore(sets);
      ParseSets(s, init);
      ParseAppend(s, SetsLines(init), SetLines(last));
      if SetsFit(init) {
        ParseMembers(ParseLines(s, SetsLines(init)).state, last, last.names);
        if MembersFit(last, last.names) {
          PlusEntriesMore(s.model.value, ReadSets(init), ReadMembers(last, last.names));
        }
      }
    }
  }

  lemma DevicesFromEmpty(devices: seq<Device>)
    ensures PlusDevices(EMPTY, devices) == Model(DeviceClasses(devices), DeviceInputs(devices), [])
  {
  }

  lemma SetsBehindDevices(devices: seq<Device>, entries: seq<Subscriber>)
    ensures PlusEntries(Model(DeviceClasses(devices), DeviceInputs(devices), []), entries)
         == Model(DeviceClasses(devices), DeviceInputs(devices), entries)
  {
  }

  /** The lines between the first and the last. */
  lemma ParseBody(t: State, m: Printed, nl: string)
    requires t.inModel && t.indentation == 1 && t.model == Some(EMPTY)
    ensures var body := DevicesLines(m.devices, nl) + SetsLines(m.sets);
            && (DevicesFit(m.devices) && SetsFit(m.sets) ==>
                  Leads(t, body, 1, Model(DeviceClasses(ReadDevices(m.devices)), DeviceInputs(ReadDevices(m.devices)),
                                          ReadSets(m.sets))))
            && (!(DevicesFit(m.devices) && SetsFit(m.sets)) ==> ParseLines(t, body).Stop?)
  {
    ParseDevices(t, m.devices, nl);
    ParseAppend(t, DevicesLines(m.devices, nl), SetsLines(m.sets));
    if DevicesFit(m.devices) {
      var u := ParseLines(t, DevicesLines(m.devices, nl)).state;
      ParseSets(u, m.sets);
      DevicesFromEmpty(ReadDevices(m.devices));
      if SetsFit(m.sets) {
        SetsBehindDevices(ReadDevices(m.devices), ReadSets(m.sets));
      }
    }
  }

  lemma ParseBodyAndClose(t: State, m: Printed, nl: string)
    requires t.inModel && t.indentation == 1 && t.model == Some(EMPTY)
    ensures var lines := DevicesLines(m.devices, nl) + SetsLines(m.sets) + [Line("}", nl)];
            && (DevicesFit(m.devices) && SetsFit(m.sets) ==>
                  ParseLines(t, lines).Go?
                  && ParseLines(t, lines).state.model == Some(Model(DeviceClasses(ReadDevices(m.devices)),
                                                                    DeviceInputs(ReadDevices(m.devices)),
                                                                        ReadSets(m.sets))))
            && (!(DevicesFit(m.devices) && SetsFit(m.sets)) ==> ParseLines(t, lines).Stop?)
  {
    var body, close := DevicesLines(m.devices, nl) + SetsLines(m.sets), Line("}", nl);
    ParseBody(t, m, nl);
    ParseAppend(t, body, [close]);
    if ParseLines(t, body).Go? {
      var v := ParseLines(t, body).state;
      StepClose(v);
      ParseOne(v, close);
    }
  }

  lemma PrintedFirst(open: Line, a: seq<Line>, b: seq<Line>, c: seq<Line>)
    ensures [open] + a + b + c == [open] + (a + b + c)
  {
  }

  lemma ParseFirst(s: State, l: Line, rest: seq<Line>)
    ensures ParseLines(s, [l] + rest) == if Take(s, l).Go? then ParseLines(Take(s, l).state, rest) else Take(s, l)
  {
    assert ([l] + rest)[1..] == rest;
  }

  /** Reading all lines of a printed model: it stops exactly if a name does not fit. */
  lemma ParsePrinted(m: Printed, nl: string)
    ensures ModelFits(m) ==>
            ParseLines(INITIAL, PrintedLines(m, nl)).Go?
            && ParseLines(INITIAL, PrintedLines(m, nl)).state.model == Some(ReadMeaning(m))
    ensures !ModelFits(m) ==> ParseLines(INITIAL, PrintedLines(m, nl)).Stop?
  {
    var open := Line("MODEL(" + m.ied + "){", nl);
    var rest := DevicesLines(m.devices, nl) + SetsLines(m.sets) + [Line("}", nl)];
    PrintedFirst(open, DevicesLines(m.devices, nl), SetsLines(m.sets), [Line("}", nl)]);
    StepModel(m.ied);
    ParseFirst(INITIAL, open, rest);
    if Fits("MODEL(", m.ied, "){") {
      ParseBodyAndClose(Take(INITIAL, open).state, m, nl);
    }
  }

  // ---- Names without line ends and zeros ----

  predicate CalmRef(e: ExtRef) {
    Calm(e.desc) && Calm(e.ref) && Calm(e.intAddr) && Calm(e.serviceType) && Calm(e.srcRef)
  }

  predicate CalmRefs(refs: seq<ExtRef>) {
    forall k :: 0 <= k < |refs| ==> CalmRef(refs[k])
  }

  predicate CalmNode(n: Node) {
    Calm(n.name) && Calm(n.cls) && forall k :: 0 <= k < |n.inputs| ==> CalmRefs(n.inputs[k])
  }

  predicate CalmNodes(nodes: seq<Node>) {
    forall k :: 0 <= k < |nodes| ==> CalmNode(nodes[k])
  }

  predicate CalmDevice(d: Device) {
    Calm(d.inst) && CalmNodes(d.nodes)
  }

  predicate CalmDevices(devices: seq<Device>) {
    forall k :: 0 <= k < |devices| ==> CalmDevice(devices[k])
  }

  predicate CalmMember(sent: SentSet, name: string) {
    Calm(name) && Calm(sent.dataset) && Calm(sent.header.cbRef) && Calm(sent.header.id)
  }

  predicate CalmMembers(sent: SentSet, names: seq<string>) {
    forall k :: 0 <= k < |names| ==> CalmMember(sent, names[k])
  }

  predicate CalmSet(sent: SentSet) {
    CalmMembers(sent, sent.names)
  }

  predicate CalmSets(sets: seq<SentSet>) {
    forall k :: 0 <= k < |sets| ==> CalmSet(sets[k])
  }

  predicate CalmModel(m: Printed) {
    Calm(m.ied) && CalmDevices(m.devices) && CalmSets(m.sets)
  }

  lemma CalmConcat(a: string, b: string)
    requires Calm(a) && Calm(b)
    ensures Calm(a + b)
  {
  }

  lemma {:induction false} JoinedCalm(words: seq<string>)
    requires forall k :: 0 <= k < |words| ==> Calm(words[k])
    ensures Calm(Joined(words))
    decreases |words|
  {
    if |words| <= 1 {
    } else {
      JoinedCalm(words[1..]);
      CalmConcat(words[0], " ");
      CalmConcat(words[0] + " ", Joined(words[1..]));
    }
  }

  lemma OneNameSound(literal: string, w: string, close: string, eol: string)
    requires Calm(w) && Closing(close) && Calm(literal) && LineEnd(eol)
    ensures Sound(Line(literal + w + close, eol))
  {
    CalmConcat(literal, w);
    CalmConcat(literal + w, close);
  }

  lemma RefSound(e: ExtRef)
    requires CalmRef(e)
    ensures Sound(RefLine(e))
  {
    var words := [e.desc, e.ref, e.intAddr, e.serviceType, e.srcRef];
    JoinedCalm(words);
    CalmConcat("ER(", Joined(words));
    CalmConcat("ER(" + Joined(words), ");");
  }

  lemma MemberSound(sent: SentSet, name: string)
    requires CalmMember(sent, name)
    ensures Sound(MemberLine(sent, name))
  {
    var h := sent.header;
    var a, c := Joined([name, sent.dataset]), Joined([HexText(h.ethAddr), h.cbRef, h.id]);
    JoinedCalm([name, sent.dataset]);
    JoinedCalm([HexText(h.ethAddr), h.cbRef, h.id]);
    CalmConcat("SD(", a);
    CalmConcat("SD(" + a, " ");
    CalmConcat("SD(" + a + " ", Decimal(h.appId));
    CalmConcat("SD(" + a + " " + Decimal(h.appId), " ");
    CalmConcat("SD(" + a + " " + Decimal(h.appId) + " ", c);
    CalmConcat("SD(" + a + " " + Decimal(h.appId) + " " + c, ");");
  }

  lemma SoundAppend(a: seq<Line>, b: seq<Line>)
    requires AllSound(a) && AllSound(b)
    ensures AllSound(a + b)
  {
  }

  lemma {:induction false} RefsSound(refs: seq<ExtRef>)
    requires CalmRefs(refs)
    ensures AllSound(RefLines(refs))
    decreases |refs|
  {
    if refs == [] {
    } else {
      RefsSound(refs[..|refs| - 1]);
      RefSound(refs[|refs| - 1]);
    }
  }

  lemma InputsSound(refs: seq<ExtRef>, nl: string)
    requires CalmRefs(refs) && LineEnd(nl)
    ensures AllSound(InputsLines(refs, nl))
  {
    RefsSound(refs);
    SoundAppend([Line("IN{", "\n")], RefLines(refs));
    SoundAppend([Line("IN{", "\n")] + RefLines(refs), [Line("}", nl)]);
  }

  lemma {:induction false} AllInputsSound(inputs: seq<seq<ExtRef>>, nl: string)
    requires LineEnd(nl) && forall k :: 0 <= k < |inputs| ==> CalmRefs(inputs[k])
    ensures AllSound(AllInputsLines(inputs, nl))
    decreases |inputs|
  {
    if inputs == [] {
    } else {
      AllInputsSound(inputs[..|inputs| - 1], nl);
      InputsSound(inputs[|inputs| - 1], nl);
      SoundAppend(AllInputsLines(inputs[..|inputs| - 1], nl), InputsLines(inputs[|inputs| - 1], nl));
    }
  }

  lemma NodeSound(n: Node, nl: string)
    requires CalmNode(n) && LineEnd(nl)
    ensures AllSound(NodeLines(n, nl))
  {
    OneNameSound("LN(", n.name, "){", "\n");
    OneNameSound("CL(", n.cls, ");", nl);
    var head := [Line("LN(" + n.name + "){", "\n"), Line("CL(" + n.cls + ");", nl)];
    AllInputsSound(n.inputs, nl);
    SoundAppend(head, AllInputsLines(n.inputs, nl));
    SoundAppend(head + AllInputsLines(n.inputs, nl), [Line("}", nl)]);
  }

  lemma {:induction false} NodesSound(nodes: seq<Node>, nl: string)
    requires CalmNodes(nodes) && LineEnd(nl)
    ensures AllSound(NodesLines(nodes, nl))
    decreases |nodes|
  {
    if nodes == [] {
    } else {
      NodesSound(nodes[..|nodes| - 1], nl);
      NodeSound(nodes[|nodes| - 1], nl);
      SoundAppend(NodesLines(nodes[..|nodes| - 1], nl), NodeLines(nodes[|nodes| - 1], nl));
    }
  }

  lemma {:induction false} DevicesSound(devices: seq<Device>, nl: string)
    requires CalmDevices(devices) && LineEnd(nl)
    ensures AllSound(DevicesLines(devices, nl))
    decreases |devices|
  {
    if devices == [] {
    } else {
      var init, d := devices[..|devices| - 1], devices[|devices| - 1];
      DevicesSound(init, nl);
      OneNameSound("LD(", d.inst, "){", "\n");
      NodesSound(d.nodes, nl);
      SoundAppend([Line("LD(" + d.inst + "){", "\n")], NodesLines(d.nodes, nl));
      SoundAppend([Line("LD(" + d.inst + "){", "\n")] + NodesLines(d.nodes, nl), [Line("}", nl)]);
      SoundAppend(DevicesLines(init, nl), DeviceLines(d, nl));
    }
  }

  lemma {:induction false} MembersSound(sent: SentSet, names: seq<string>)
    requires CalmMembers(sent, names)
    ensures AllSound(MemberLines(sent, names))
    decreases |names|
  {
    if names == [] {
    } else {
      MembersSound(sent, names[..|names| - 1]);
      MemberSound(sent, names[|names| - 1]);
    }
  }

  lemma {:induction false} SetsSound(sets: seq<SentSet>)
    requires CalmSets(sets)
    ensures AllSound(SetsLines(sets))
    decreases |sets|
  {
    if sets == [] {
    } else {
      var init, last := sets[..|sets| - 1], sets[|sets| - 1];
      SetsSound(init);
      MembersSound(last, last.names);
      SoundAppend(SetsLines(init), SetLines(last));
    }
  }

  lemma ModelSound(m: Printed, nl: string)
    requires CalmModel(m) && LineEnd(nl)
    ensures AllSound(PrintedLines(m, nl))
  {
    var head := [Line("MODEL(" + m.ied + "){", nl)];
    OneNameSound("MODEL(", m.ied, "){", nl);
    DevicesSound(m.devices, nl);
    SetsSound(m.sets);
    SoundAppend(head, DevicesLines(m.devices, nl));
    SoundAppend(head + DevicesLines(m.devices, nl), SetsLines(m.sets));
    SoundAppend(head + DevicesLines(m.devices, nl) + SetsLines(m.sets), [Line("}", nl)]);
  }

  /** Reading what was printed, whatever the names are but for line ends and zeros: a model comes out
      exactly if every name fits its buffers, and it is the one whose names are as they were read. */
  lemma ReadPrinted(m: Printed, nl: string)
    requires CalmModel(m) && LineEnd(nl)
    ensures ModelFits(m) ==> Parse(INITIAL, Text(PrintedLines(m, nl))) == Accepted(ReadMeaning(m))
    ensures !ModelFits(m) ==> !Parse(INITIAL, Text(PrintedLines(m, nl))).Accepted?
  {
    var lines := PrintedLines(m, nl);
    ModelSound(m, nl);
    ParseText(INITIAL, lines);
    ParsePrinted(m, nl);
    if !ModelFits(m) {
      StopIsNotAccepted(INITIAL, lines);
    }
  }
}
