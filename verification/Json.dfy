/** The text sent to the user interface (`plugin_src/ui_connector/ui_connector.c`): a linked list of
    values is measured in one pass and written in a second one, into a buffer of the size measured. */
module Json {
  import opened Mms
  import opened Scan
  import opened JsonGrammar

  /** A value as it is when the text is built; of a float only its printed form matters. */
  datatype Value = Boolean(b: bool) | Integer(i: int) | BitString(bits: int) | Float(text: string)

  datatype Entry = Entry(name: string, value: Value, general: bool, measurement: bool, diagram: bool)

  /** What the values are before they are printed: integers of 32 bits, and floats in the form that
      `%g` gives them, which has far less than 30 characters and may be `nan` or `inf`. */
  predicate Representable(v: Value) {
    match v
    case Boolean(_) => true
    case Integer(i) => -0x8000_0000 <= i < 0x8000_0000
    case BitString(i) => -0x8000_0000 <= i < 0x8000_0000
    case Float(text) => |text| <= 30
  }

  predicate AllRepresentable(entries: seq<Entry>) {
    forall k :: 0 <= k < |entries| ==> Representable(entries[k].value)
  }

  predicate Selected(e: Entry, measurements: bool, diagram: bool) {
    e.general || (measurements && e.measurement) || (diagram && e.diagram)
  }

  function ValueText(v: Value): string {
    match v
    case Boolean(b) => if b then "true" else "false"
    case Integer(i) => Signed(i)
    case BitString(i) => Signed(i)
    case Float(text) => text
  }

  /** What the text of a value stands for: the words of the two truth values, a number that is scanned as
      the integer, and of a float its printed form. */
  lemma ValueMeans(v: Value)
    ensures match v
            case Boolean(b) => b <==> ValueText(v) == "true"
            case Integer(i) => ScanUnsigned(ValueText(v)) == Some((i, ""))
            case BitString(i) => ScanUnsigned(ValueText(v)) == Some((i, ""))
            case Float(text) => ValueText(v) == text
    ensures v.Boolean? ==> ValueText(v) in ["true", "false"]
  {
    match v {
      case Boolean(b) => assert "true" != "false";
      case Integer(i) => SignedIsScanned(i);
      case BitString(i) => SignedIsScanned(i);
      case Float(_) =>
    }
  }

  lemma SignedIsScanned(i: int)
    ensures ScanUnsigned(Signed(i)) == Some((i, ""))
  {
    var d := Decimal(if i < 0 then -i else i);
    DigitsLengthIs(d, "");
    assert d + "" == d && d[..|d|] == d && d[|d|..] == "";
    if i < 0 {
      ScanMinus(d, |d|);
    } else {
      ScanDigits(d, |d|);
    }
  }

  lemma ScanMinus(t: string, n: nat)
    requires 0 < n == DigitsLength(t)
    ensures var value: int := DecimalValue(t[..n]); ScanUnsigned("-" + t) == Some((-value, t[n..]))
  {
    var s := "-" + t;
    assert s[1..] == t && SkipSpaces(s) == s;
  }

  /** What the first pass reserves for a value. */
  function Room(v: Value): nat {
    match v
    case Boolean(_) => 5
    case BitString(_) => 20
    case Integer(_) => 20
    case Float(_) => 30
  }

  lemma {:induction false} DecimalLength(n: nat, digits: nat, bound: nat)
    requires n < bound && digits >= 1 && bound == Power10(digits)
    ensures |Decimal(n)| <= digits
    decreases digits
  {
    if n < 10 {
    } else {
      assert digits >= 2;
      DecimalLength(n / 10, digits - 1, bound / 10);
    }
  }

  function Power10(k: nat): nat {
    if k == 0 then 1 else 10 * Power10(k - 1)
  }

  lemma ValueFits(v: Value)
    requires Representable(v)
    ensures |ValueText(v)| <= Room(v)
  {
    if v.Integer? || v.BitString? {
      var i := if v.Integer? then v.i else v.bits;
      var n := if i < 0 then -i else i;
      assert Power10(10) == 10 * (10 * (10 * (10 * (10 * (10 * (10 * (10 * (10 * 10))))))));
      DecimalLength(n, 10, Power10(10));
    }
  }

  // ---- The two passes ----

  function Cost(e: Entry, more: bool, measurements: bool, diagram: bool): nat {
    if Selected(e, measurements, diagram) then |e.name| + 4 + Room(e.value) + (if more then 2 else 0) else 0
  }

  function PairText(e: Entry): string {
    "\"" + e.name + "\": " + ValueText(e.value)
  }

  function Piece(e: Entry, more: bool, measurements: bool, diagram: bool): string {
    if !Selected(e, measurements, diagram) then "" else if more then PairText(e) + ", " else PairText(e)
  }

  /** The size computed for the first n entries. */
  function Total(entries: seq<Entry>, n: nat, measurements: bool, diagram: bool): nat
    requires n <= |entries|
  {
    if n == 0 then 4
    else Total(entries, n - 1, measurements, diagram) + Cost(entries[n - 1], n < |entries|, measurements, diagram)
  }

  /** The text written for the first n entries. */
  function Written(entries: seq<Entry>, n: nat, measurements: bool, diagram: bool): string
    requires n <= |entries|
  {
    if n == 0 then "{"
    else Written(entries, n - 1, measurements, diagram) + Piece(entries[n - 1], n < |entries|, measurements, diagram)
  }

  /** A comma left over at the end becomes a space. */
  function Mended(s: string): string {
    if |s| >= 2 && s[|s| - 2] == ',' && s[|s| - 1] == ' ' then s[|s| - 2 := ' '] else s
  }

  function JsonText(entries: seq<Entry>, measurements: bool, diagram: bool): string {
    Mended(Written(entries, |entries|, measurements, diagram)) + "}\n"
  }

  lemma PieceFits(e: Entry, more: bool, measurements: bool, diagram: bool)
    requires Representable(e.value)
    ensures |Piece(e, more, measurements, diagram)| <= Cost(e, more, measurements, diagram)
  {
    ValueFits(e.value);
  }

  /** At every moment of the second pass, what is written and what closes it fit into what the first
      pass measured. */
  lemma WrittenFits(entries: seq<Entry>, n: nat, measurements: bool, diagram: bool)
    requires n <= |entries| && AllRepresentable(entries)
    ensures |Written(entries, n, measurements, diagram)| + 3 <= Total(entries, n, measurements, diagram)
    ensures Total(entries, n, measurements, diagram) <= Total(entries, |entries|, measurements, diagram)
  {
    TotalGrows(entries, n, measurements, diagram);
    WrittenBounded(entries, n, measurements, diagram);
  }

  lemma {:induction false} TotalGrows(entries: seq<Entry>, n: nat, measurements: bool, diagram: bool)
    requires n <= |entries|
    ensures Total(entries, n, measurements, diagram) <= Total(entries, |entries|, measurements, diagram)
    decreases |entries| - n
  {
    if n == |entries| {
    } else {
      TotalGrows(entries, n + 1, measurements, diagram);
    }
  }

  lemma {:induction false} WrittenBounded(entries: seq<Entry>, n: nat, measurements: bool, diagram: bool)
    requires n <= |entries| && AllRepresentable(entries)
    ensures |Written(entries, n, measurements, diagram)| + 3 <= Total(entries, n, measurements, diagram)
  {
    if n == 0 {
    } else {
      WrittenBounded(entries, n - 1, measurements, diagram);
      PieceFits(entries[n - 1], n < |entries|, measurements, diagram);
    }
  }

  // ---- The list and the buffer ----

  class JsonNode {
    const entry: Entry
    const next: JsonNode?

    constructor (entry: Entry, next: JsonNode?)
      ensures this.entry == entry && this.next == next
    {
      this.entry, this.next := entry, next;
    }
  }

  function At(list: seq<JsonNode>, i: nat): JsonNode? {
    if i < |list| then list[i] else null
  }

  /** `list` is what is met from `head` on. */
  ghost predicate IsList(head: JsonNode?, list: seq<JsonNode>) {
    && head == At(list, 0)
    && forall i {:trigger list[i].next} :: 0 <= i < |list| ==> list[i].next == At(list, i + 1)
  }

  function Entries(list: seq<JsonNode>): (r: seq<Entry>)
    ensures |r| == |list| && forall i :: 0 <= i < |r| ==> r[i] == list[i].entry
  {
    seq(|list|, i requires 0 <= i < |list| => list[i].entry)
  }

  /** create_node: the new node comes first; no link is ever changed afterwards. */
  method CreateNode(head: JsonNode?, entry: Entry, ghost list: seq<JsonNode>) returns (node: JsonNode)
    requires IsList(head, list)
    ensures fresh(node) && IsList(node, [node] + list) && node.entry == entry
    ensures Entries([node] + list) == [entry] + Entries(list)
  {
    node := new JsonNode(entry, head);
    forall i | 0 <= i < |list| + 1 ensures ([node] + list)[i].next == At([node] + list, i + 1) {
      if i > 0 {
        assert ([node] + list)[i] == list[i - 1];
      }
    }
  }

  /** A character buffer that holds a string and the zero behind it. */
  class Buffer {
    const data: array<char>
    var length: nat

    ghost predicate Valid()
      reads this, data
    {
      length < data.Length && data[length] == '\0'
    }

    ghost function Content(): string
      requires Valid()
      reads this, data
    {
      data[..length]
    }

    constructor (size: nat, c: char)
      requires size >= 2
      ensures Valid() && fresh(data) && data.Length == size && Content() == [c]
    {
      var a := new char[size];
      a[0], a[1] := c, '\0';
      data, length := a, 1;
    }

    /** strcat; it does not check that there is room. */
    method Strcat(s: string)
      requires Valid() && length + |s| < data.Length
      modifies this, data
      ensures Valid() && Content() == old(Content()) + s && length == old(length) + |s|
    {
      ghost var was := Content();
      var i := 0;
      while i < |s|
        invariant i <= |s| && length == old(length) && data[..length + i] == was + s[..i]
      {
        data[length + i] := s[i];
        assert s[..i + 1] == s[..i] + [s[i]];
        i := i + 1;
      }
      assert s[..i] == s;
      length := length + |s|;
      data[length] := '\0';
    }

    /** The repair of a comma at the end. */
    method Mend()
      requires Valid()
      modifies data
      ensures Valid() && Content() == Mended(old(Content()))
    {
      ghost var was := Content();
      if length >= 2 && data[length - 2] == ',' && data[length - 1] == ' ' {
        data[length - 2] := ' ';
        assert Content() == was[length - 2 := ' '];
      }
    }
  }

  /** The body of the first pass: a node that is not selected adds nothing. */
  method MeasureEntry(e: Entry, more: bool, measurements: bool, diagram: bool) returns (size: nat)
    ensures size == Cost(e, more, measurements, diagram)
    ensures e.general || (measurements && e.measurement) || (diagram && e.diagram) ==>
              size == |e.name| + (match e.value case Boolean(_) => 9 case Float(_) => 34 case _ => 24)
                      + (if more then 2 else 0)
    ensures !e.general && !(measurements && e.measurement) && !(diagram && e.diagram) ==> size == 0
  {
    if !e.general {
      if !((measurements && e.measurement) || (diagram && e.diagram)) {
        return 0;
      }
    }
    size := |e.name| + 4;
    match e.value {
      case Boolean(_) => size := size + 5;
      case BitString(_) => size := size + 20;
      case Integer(_) => size := size + 20;
      case Float(_) => size := size + 30;
    }
    if more {
      size := size + 2;
    }
  }

  /** The first pass. */
  method Measure(head: JsonNode?, measurements: bool, diagram: bool, ghost list: seq<JsonNode>,
                 ghost entries: seq<Entry>)
    returns (totalSize: nat)
    requires IsList(head, list) && entries == Entries(list)
    ensures totalSize == Total(entries, |entries|, measurements, diagram)
  {
    totalSize := 4;
    var current := head;
    ghost var i := 0;
    while current != null
      invariant i <= |list| && current == At(list, i)
      invariant totalSize == Total(entries, i, measurements, diagram)
      decreases |list| - i
    {
      var size := MeasureEntry(current.entry, current.next != null, measurements, diagram);
      totalSize := totalSize + size;
      current := current.next;
      i := i + 1;
    }
  }

  method WriteValue(json: Buffer, v: Value)
    requires json.Valid() && json.length + |ValueText(v)| < json.data.Length
    modifies json, json.data
    ensures json.Valid() && json.Content() == old(json.Content()) + ValueText(v)
    ensures json.length == old(json.length) + |ValueText(v)|
  {
    match v {
      case Boolean(b) => json.Strcat(if b then "true" else "false");
      case Integer(i) => json.Strcat(Signed(i));
      case BitString(i) => json.Strcat(Signed(i));
      case Float(text) => json.Strcat(text);
    }
  }

  lemma PairConcat(s: string, e: Entry, more: bool)
    ensures s + "\"" + e.name + "\": " + ValueText(e.value) == s + PairText(e)
    ensures s + PairText(e) + ", " == s + (PairText(e) + ", ")
    ensures |PairText(e)| == |e.name| + 4 + |ValueText(e.value)|
  {
    var q, c, v := "\"", "\": ", ValueText(e.value);
    assert s + q + e.name + c + v == s + (q + e.name + c + v);
  }

  method WritePair(json: Buffer, e: Entry, more: bool)
    requires json.Valid() && json.length + |PairText(e)| + (if more then 2 else 0) < json.data.Length
    modifies json, json.data
    ensures json.Valid() && json.Content() == old(json.Content()) + (if more then PairText(e) + ", " else PairText(e))
  {
    ghost var was := json.Content();
    PairConcat(was, e, more);
    json.Strcat("\"");
    json.Strcat(e.name);
    json.Strcat("\": ");
    WriteValue(json, e.value);
    assert json.Content() == was + PairText(e);
    if more {
      json.Strcat(", ");
    }
  }

  /** The body of the second pass. */
  method WriteEntry(json: Buffer, e: Entry, more: bool, measurements: bool, diagram: bool)
    requires json.Valid() && json.length + |Piece(e, more, measurements, diagram)| < json.data.Length
    modifies json, json.data
    ensures json.Valid() && json.Content() == old(json.Content()) + Piece(e, more, measurements, diagram)
  {
    if !e.general {
      if !((measurements && e.measurement) || (diagram && e.diagram)) {
        return;
      }
    }
    WritePair(json, e, more);
  }

  lemma RoomForPiece(entries: seq<Entry>, i: nat, measurements: bool, diagram: bool)
    requires i < |entries| && AllRepresentable(entries)
    ensures var piece := Piece(entries[i], i + 1 < |entries|, measurements, diagram);
            && Written(entries, i + 1, measurements, diagram) == Written(entries, i, measurements, diagram) + piece
            && |Written(entries, i, measurements, diagram)|
                + |piece| < Total(entries, |entries|, measurements, diagram) + 1
  {
    WrittenFits(entries, i + 1, measurements, diagram);
  }

  /** The buffer holds the text of the first n entries and has the size measured for all. */
  ghost predicate Holds(json: Buffer, entries: seq<Entry>, n: nat, measurements: bool, diagram: bool)
    requires n <= |entries|
    reads json, json.data
  {
    && json.Valid() && json.Content() == Written(entries, n, measurements, diagram)
    && json.data.Length == Total(entries, |entries|, measurements, diagram) + 1
  }

  /** One node of the second pass: there is room for it. */
  method WriteNext(json: Buffer, e: Entry, more: bool, measurements: bool, diagram: bool, ghost entries: seq<Entry>,
                   ghost i: nat)
    requires AllRepresentable(entries) && i < |entries| && e == entries[i] && more == (i + 1 < |entries|)
    requires Holds(json, entries, i, measurements, diagram)
    modifies json, json.data
    ensures Holds(json, entries, i + 1, measurements, diagram)
  {
    RoomForPiece(entries, i, measurements, diagram);
    assert json.length == |json.Content()|;
    WriteEntry(json, e, more, measurements, diagram);
  }

  /** The second pass; no write ever leaves a buffer whose size is one more than the first pass measured. */
  method WriteAll(json: Buffer, head: JsonNode?, measurements: bool, diagram: bool,
                  ghost list: seq<JsonNode>, ghost entries: seq<Entry>)
    requires IsList(head, list) && entries == Entries(list) && AllRepresentable(entries)
    requires Holds(json, entries, 0, measurements, diagram)
    modifies json, json.data
    ensures Holds(json, entries, |entries|, measurements, diagram)
  {
    var current := head;
    ghost var i := 0;
    while current != null
      invariant i <= |list| && current == At(list, i)
      invariant Holds(json, entries, i, measurements, diagram)
      decreases |list| - i
    {
      WriteNext(json, current.entry, current.next != null, measurements, diagram, entries, i);
      current := current.next;
      i := i + 1;
    }
  }

  /** to_json_string. */
  method ToJsonString(head: JsonNode?, measurements: bool, diagram: bool, ghost list: seq<JsonNode>)
    returns (text: string)
    requires IsList(head, list) && AllRepresentable(Entries(list))
    ensures text == JsonText(Entries(list), measurements, diagram)
  {
    if head == null {
      return "{}\n";
    }
    var totalSize := Measure(head, measurements, diagram, list, Entries(list));
    WrittenFits(Entries(list), 0, measurements, diagram);
    WrittenFits(Entries(list), |list|, measurements, diagram);
    var json := new Buffer(totalSize + 1, '{');
    WriteAll(json, head, measurements, diagram, list, Entries(list));
    json.Mend();
    json.Strcat("}\n");
    text := json.data[..json.length];
  }
}
