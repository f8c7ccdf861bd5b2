/** A reader of flat objects, and what it makes of the text sent to the user interface. It accepts
    exactly the objects of RFC 8259 whose values are booleans, null or numbers: a dangling or doubled
    comma, a control character in a name or a number that is none is refused. */
module JsonReader {
  import opened Mms
  import opened Scan
  import opened Json
  import opened JsonGrammar

  /** A name as it is written between its quotes, and a value as it is written. */
  datatype Pair = Pair(name: string, value: string)

  function SkipBlanks(s: string): (r: string)
    ensures |r| <= |s| && (r != "" ==> !IsBlank(r[0]))
  {
    if s != "" && IsBlank(s[0]) then SkipBlanks(s[1..]) else s
  }

  function ScalarLength(s: string): (n: nat)
    ensures n <= |s|
  {
    if s == "" || !InScalar(s[0]) then 0 else 1 + ScalarLength(s[1..])
  }

  /** A quoted name, a colon and a scalar; the pair and what follows it. */
  function ReadPair(s: string): (r: Option<(Pair, string)>)
    ensures r.Some? ==> |r.value.1| < |s|
  {
    if s == "" || s[0] != '"' then None
    else
      var n := StringLength(s[1..]);
      if n + 1 >= |s| || s[n + 1] != '"' then None else ReadValue(s[1..n + 1], SkipBlanks(s[n + 2..]))
  }

  function ReadValue(name: string, s: string): (r: Option<(Pair, string)>)
    ensures r.Some? ==> |r.value.1| < |s|
  {
    if s == "" || s[0] != ':' then None
    else
      var t := SkipBlanks(s[1..]);
      var n := ScalarLength(t);
      if IsScalar(t[..n]) then Some((Pair(name, t[..n]), t[n..])) else None
  }

  /** The closing brace, and nothing but blanks behind it. */
  predicate Closes(s: string) {
    s != "" && s[0] == '}' && SkipBlanks(s[1..]) == ""
  }

  /** Pairs separated by one comma each, up to the closing brace. */
  function ReadPairs(s: string): Option<seq<Pair>>
    decreases |s|
  {
    match ReadPair(s)
    case None => None
    case Some((pair, rest)) =>
      var t := SkipBlanks(rest);
      if Closes(t) then Some([pair])
      else if t != "" && t[0] == ',' then
        match ReadPairs(SkipBlanks(t[1..]))
        case None => None
        case Some(more) => Some([pair] + more)
      else None
  }

  function ReadObject(s: string): Option<seq<Pair>> {
    var u := SkipBlanks(s);
    if u == "" || u[0] != '{' then None
    else
      var t := SkipBlanks(u[1..]);
      if Closes(t) then Some([]) else ReadPairs(t)
  }

  // ---- What is read is well-formed ----

  predicate WellFormed(p: Pair) {
    IsBody(p.name) && IsScalar(p.value)
  }

  lemma ReadPairSound(s: string)
    requires ReadPair(s).Some?
    ensures WellFormed(ReadPair(s).value.0)
  {
    var n := StringLength(s[1..]);
    StringIsBody(s[1..]);
    assert s[1..n + 1] == s[1..][..n];
  }

  lemma {:induction false} ReadPairsSound(s: string)
    requires ReadPairs(s).Some?
    ensures forall p :: p in ReadPairs(s).value ==> WellFormed(p)
    decreases |s|
  {
    ReadPairSound(s);
    var (pair, rest) := ReadPair(s).value;
    var t := SkipBlanks(rest);
    if Closes(t) {
    } else {
      ReadPairsSound(SkipBlanks(t[1..]));
    }
  }

  // ---- Reading one printed pair ----

  function PairOf(e: Entry): Pair {
    Pair(e.name, ValueText(e.value))
  }

  /** A name that may stand between quotes, a value that is one. */
  predicate Proper(e: Entry) {
    IsBody(e.name) && IsScalar(ValueText(e.value))
  }

  predicate AllProper(entries: seq<Entry>) {
    forall k :: 0 <= k < |entries| ==> Proper(entries[k])
  }

  /** Booleans and integers always are; a float is unless it is printed as something else than a number. */
  lemma ProperExactly(e: Entry)
    ensures Proper(e) <==> IsBody(e.name) && (e.value.Float? ==> IsScalar(e.value.text))
  {
    match e.value {
      case Boolean(b) =>
      case Integer(i) => SignedIsNumber(i);
      case BitString(i) => SignedIsNumber(i);
      case Float(text) =>
    }
  }

  /** What `%g` prints of a float that is not a finite number. */
  lemma NotANumber(text: string)
    requires text in ["nan", "-nan", "inf", "-inf"]
    ensures !IsScalar(text)
  {
    assert Unsigned("-nan") == "nan" && Unsigned("-inf") == "inf";
  }

  lemma {:induction false} ScalarLengthIs(v: string, rest: string)
    requires forall k :: 0 <= k < |v| ==> InScalar(v[k])
    requires rest != "" ==> !InScalar(rest[0])
    ensures ScalarLength(v + rest) == |v|
  {
    if v == "" {
      assert v + rest == rest;
    } else {
      assert (v + rest)[1..] == v[1..] + rest;
      ScalarLengthIs(v[1..], rest);
    }
  }

  /** The text of a printed pair, part by part. */
  lemma PairParts(e: Entry, rest: string)
    ensures var s := PairText(e) + rest;
            && |s| >= |e.name| + 4 && s[0] == '"' && s[1..][..|e.name|] == e.name && s[1..][|e.name|] == '"'
            && s[1..] == e.name + s[|e.name| + 1..] && s[1..|e.name| + 1] == e.name
            && s[|e.name| + 2..] == ": " + (ValueText(e.value) + rest)
  {
  }

  lemma ReadPrintedValue(name: string, v: string, rest: string)
    requires IsScalar(v) && (rest != "" ==> !InScalar(rest[0]))
    ensures ReadValue(name, ": " + (v + rest)) == Some((Pair(name, v), rest))
  {
    var s := ": " + (v + rest);
    ScalarHasChars(v);
    assert s[1..] == " " + (v + rest) && (" " + (v + rest))[1..] == v + rest;
    assert SkipBlanks(v + rest) == v + rest by {
      assert (v + rest)[0] == v[0];
    }
    ScalarLengthIs(v, rest);
    assert (v + rest)[..|v|] == v && (v + rest)[|v|..] == rest;
  }

  lemma ReadPrintedPair(e: Entry, rest: string)
    requires Proper(e) && (rest != "" ==> !InScalar(rest[0]))
    ensures ReadPair(PairText(e) + rest) == Some((PairOf(e), rest))
  {
    var s := PairText(e) + rest;
    PairParts(e, rest);
    BodyThenQuote(e.name, s[|e.name| + 1..]);
    assert SkipBlanks(s[|e.name| + 2..]) == s[|e.name| + 2..];
    ReadPrintedValue(e.name, ValueText(e.value), rest);
  }

  // ---- What the second pass writes, as a list of pairs ----

  /** Entries with a separator behind each. */
  function Separated(chosen: seq<Entry>): string {
    if chosen == [] then "" else PairText(chosen[0]) + ", " + Separated(chosen[1..])
  }

  function Chosen(entries: seq<Entry>, n: nat, measurements: bool, diagram: bool): (r: seq<Entry>)
    requires n <= |entries|
  {
    if n == 0 then []
    else
      var before := Chosen(entries, n - 1, measurements, diagram);
      if Selected(entries[n - 1], measurements, diagram) then before + [entries[n - 1]] else before
  }

  lemma {:induction false} SeparatedSnoc(chosen: seq<Entry>, e: Entry)
    ensures Separated(chosen + [e]) == Separated(chosen) + PairText(e) + ", "
    decreases |chosen|
  {
    if chosen == [] {
      assert [] + [e] == [e] && [e][1..] == [];
    } else {
      assert (chosen + [e])[1..] == chosen[1..] + [e];
      SeparatedSnoc(chosen[1..], e);
      var a, b, c := PairText(chosen[0]) + ", ", Separated(chosen[1..]), PairText(e);
      assert a + (b + c + ", ") == a + b + c + ", ";
    }
  }

  lemma Regroup(a: string, b: string, c: string, d: string)
    ensures a + b + (c + d) == a + (b + c + d) && a + b + c + d == a + (b + c + d)
  {
  }

  lemma WrittenStep(entries: seq<Entry>, n: nat, measurements: bool, diagram: bool)
    requires 0 < n <= |entries|
    ensures Selected(entries[n - 1], measurements, diagram) && n < |entries| ==>
      Written(entries, n, measurements, diagram)
      == Written(entries, n - 1, measurements, diagram) + (PairText(entries[n - 1]) + ", ")
    ensures Selected(entries[n - 1], measurements, diagram) && n == |entries| ==>
      Written(entries, n, measurements, diagram) == Written(entries, n - 1, measurements, diagram)
          + PairText(entries[n - 1])
    ensures !Selected(entries[n - 1], measurements, diagram) ==>
      Written(entries, n, measurements, diagram) == Written(entries, n - 1, measurements, diagram)
  {
  }

  lemma ChosenStep(entries: seq<Entry>, n: nat, measurements: bool, diagram: bool)
    requires 0 < n <= |entries|
    ensures Chosen(entries, n, measurements, diagram) ==
            if Selected(entries[n - 1], measurements, diagram)
                then Chosen(entries, n - 1, measurements, diagram) + [entries[n - 1]]
            else Chosen(entries, n - 1, measurements, diagram)
  {
  }

  lemma SeparatedMore(written: string, before: seq<Entry>, e: Entry)
    requires written == "{" + Separated(before)
    ensures written + (PairText(e) + ", ") == "{" + Separated(before + [e])
  {
    SeparatedSnoc(before, e);
    Regroup("{", Separated(before), PairText(e), ", ");
  }

  /** Before the last entry, every selected one is followed by a separator. */
  lemma {:induction false} WrittenIs(entries: seq<Entry>, n: nat, measurements: bool, diagram: bool)
    requires n <= |entries| && (n < |entries| || n == 0 || !Selected(entries[n - 1], measurements, diagram))
    ensures Written(entries, n, measurements, diagram) == "{" + Separated(Chosen(entries, n, measurements, diagram))
    decreases n
  {
    if n == 0 {
    } else {
      WrittenIs(entries, n - 1, measurements, diagram);
      WrittenStep(entries, n, measurements, diagram);
      ChosenStep(entries, n, measurements, diagram);
      SeparatedMore(Written(entries, n - 1, measurements, diagram), Chosen(entries, n - 1, measurements, diagram),
                    entries[n - 1]);
      assert n < |entries| || !Selected(entries[n - 1], measurements, diagram);
    }
  }

  /** What the object holds: all separators but the last, blanks in place of the last one. */
  function Body(chosen: seq<Entry>, blanks: string): string {
    if chosen == [] then ""
    else Separated(chosen[..|chosen| - 1]) + PairText(chosen[|chosen| - 1]) + blanks
  }

  lemma LastCharacter(e: Entry)
    requires Proper(e)
    ensures PairText(e)[|PairText(e)| - 1] != ' '
  {
    ScalarHasChars(ValueText(e.value));
    var v := ValueText(e.value);
    assert PairText(e)[|PairText(e)| - 1] == v[|v| - 1];
  }

  lemma MendedSeparator(s: string)
    ensures Mended(s + ", ") == s + "  "
  {
    var t := s + ", ";
    assert t[|t| - 2] == ',' && t[|t| - 1] == ' ';
    assert t[|t| - 2 := ' '] == s + "  ";
  }

  /** The text if the last entry is selected: nothing is left over. */
  lemma TextWithLast(w: string, init: seq<Entry>, last: Entry)
    requires w == "{" + Separated(init) && Proper(last)
    ensures Mended(w + PairText(last)) == "{" + Body(init + [last], "")
  {
    LastKept(w, last);
    BodySnoc(init, last);
  }

  lemma BodySnoc(init: seq<Entry>, last: Entry)
    ensures "{" + Body(init + [last], "") == "{" + Separated(init) + PairText(last)
  {
    assert (init + [last])[..|init|] == init;
    EmptyTail(Separated(init), PairText(last));
  }

  lemma EmptyTail(a: string, b: string)
    ensures "{" + (a + b + "") == "{" + a + b
  {
  }

  lemma LastKept(s: string, e: Entry)
    requires Proper(e)
    ensures Mended(s + PairText(e)) == s + PairText(e)
  {
    LastCharacter(e);
    var t := s + PairText(e);
    assert t[|t| - 1] == PairText(e)[|PairText(e)| - 1];
  }

  /** The text if the last entry is not selected, but another is: the separator left over is mended. */
  lemma TextWithoutLast(chosen: seq<Entry>)
    requires chosen != []
    ensures Mended("{" + Separated(chosen)) == "{" + Body(chosen, "  ")
  {
    var init, last := chosen[..|chosen| - 1], chosen[|chosen| - 1];
    assert init + [last] == chosen;
    SeparatedSnoc(init, last);
    Regroup("{", Separated(init), PairText(last), ", ");
    Regroup("{", Separated(init), PairText(last), "  ");
    MendedSeparator("{" + Separated(init) + PairText(last));
  }

  lemma TextIfLastChosen(entries: seq<Entry>, measurements: bool, diagram: bool)
    requires entries != [] && Selected(entries[|entries| - 1], measurements, diagram)
    requires Proper(entries[|entries| - 1])
    ensures Mended(Written(entries, |entries|, measurements, diagram))
         == "{" + Body(Chosen(entries, |entries|, measurements, diagram), "")
  {
    var n := |entries|;
    var w, init := Written(entries, n - 1, measurements, diagram), Chosen(entries, n - 1, measurements, diagram);
    WrittenIs(entries, n - 1, measurements, diagram);
    TextWithLast(w, init, entries[n - 1]);
    WrittenStep(entries, n, measurements, diagram);
    ChosenStep(entries, n, measurements, diagram);
  }

  lemma TextIfLastNotChosen(entries: seq<Entry>, measurements: bool, diagram: bool)
    requires entries == [] || !Selected(entries[|entries| - 1], measurements, diagram)
    ensures Mended(Written(entries, |entries|, measurements, diagram))
         == "{" + Body(Chosen(entries, |entries|, measurements, diagram), "  ")
  {
    WrittenIs(entries, |entries|, measurements, diagram);
    var chosen := Chosen(entries, |entries|, measurements, diagram);
    if chosen != [] {
      TextWithoutLast(chosen);
    }
  }

  /** The text, with or without blanks before the closing brace. */
  lemma JsonTextIs(entries: seq<Entry>, measurements: bool, diagram: bool) returns (blanks: string)
    requires AllProper(Chosen(entries, |entries|, measurements, diagram))
    ensures blanks == "" || blanks == "  "
    ensures JsonText(entries, measurements, diagram) ==
            "{" + Body(Chosen(entries, |entries|, measurements, diagram), blanks) + "}\n"
  {
    var n := |entries|;
    if n > 0 && Selected(entries[n - 1], measurements, diagram) {
      blanks := "";
      var chosen := Chosen(entries, n, measurements, diagram);
      ChosenStep(entries, n, measurements, diagram);
      assert chosen[|chosen| - 1] == entries[n - 1];
      TextIfLastChosen(entries, measurements, diagram);
    } else {
      blanks := "  ";
      TextIfLastNotChosen(entries, measurements, diagram);
    }
  }

  // ---- Reading it back ----

  function PairsOf(chosen: seq<Entry>): (r: seq<Pair>)
    ensures |r| == |chosen| && forall k :: 0 <= k < |r| ==> r[k] == PairOf(chosen[k])
  {
    seq(|chosen|, k requires 0 <= k < |chosen| => PairOf(chosen[k]))
  }

  lemma SkipNoBlank(s: string)
    requires s != "" && !IsBlank(s[0])
    ensures SkipBlanks(s) == s && SkipBlanks(" " + s) == s && SkipBlanks("  " + s) == s
  {
    assert (" " + s)[1..] == s && ("  " + s)[1..] == " " + s;
  }

  lemma ClosingIs()
    ensures Closes("}\n")
  {
    assert "}\n"[1..] == "\n" && "\n"[1..] == "";
  }

  lemma ReadLast(e: Entry, blanks: string)
    requires Proper(e) && (blanks == "" || blanks == "  ")
    ensures ReadPairs(PairText(e) + (blanks + "}\n")) == Some([PairOf(e)])
  {
    ReadPrintedPair(e, blanks + "}\n");
    SkipNoBlank("}\n");
    ClosingIs();
    assert "" + "}\n" == "}\n";
  }

  lemma SkipSeparator(more: string)
    requires more != "" && more[0] == '"'
    ensures SkipBlanks(", " + more) == ", " + more && SkipBlanks((", " + more)[1..]) == more
  {
    SkipNoBlank(", " + more);
    SkipNoBlank(more);
    assert (", " + more)[1..] == " " + more;
  }

  lemma ReadFirst(e: Entry, more: string)
    requires Proper(e) && more != "" && more[0] == '"'
    ensures ReadPairs(PairText(e) + (", " + more)) ==
            match ReadPairs(more) case None => None case Some(pairs) => Some([PairOf(e)] + pairs)
  {
    var rest := ", " + more;
    ReadPrintedPair(e, rest);
    SkipSeparator(more);
    assert rest[0] == ',';
  }

  lemma PairsFirst(chosen: seq<Entry>)
    requires chosen != []
    ensures PairsOf(chosen) == [PairOf(chosen[0])] + PairsOf(chosen[1..])
  {
  }

  lemma ReadMore(chosen: seq<Entry>, blanks: string)
    requires |chosen| > 1 && AllProper(chosen)
    requires ReadPairs(Body(chosen[1..], blanks) + "}\n") == Some(PairsOf(chosen[1..]))
    ensures ReadPairs(Body(chosen, blanks) + "}\n") == Some(PairsOf(chosen))
  {
    var more := Body(chosen[1..], blanks) + "}\n";
    BodyStarts(chosen[1..], blanks);
    ReadFirst(chosen[0], more);
    BodyFirst(chosen, blanks);
    PairsFirst(chosen);
  }

  lemma {:induction false} ReadBody(chosen: seq<Entry>, blanks: string)
    requires chosen != [] && AllProper(chosen) && (blanks == "" || blanks == "  ")
    ensures ReadPairs(Body(chosen, blanks) + "}\n") == Some(PairsOf(chosen))
    decreases |chosen|
  {
    var e := chosen[0];
    if |chosen| == 1 {
      BodyOne(e, blanks);
      assert chosen == [e];
      ReadLast(e, blanks);
      assert PairsOf(chosen) == [PairOf(e)];
    } else {
      ReadBody(chosen[1..], blanks);
      ReadMore(chosen, blanks);
    }
  }

  lemma BodyOne(e: Entry, blanks: string)
    ensures Body([e], blanks) + "}\n" == PairText(e) + (blanks + "}\n")
  {
    assert [e][..0] == [];
  }

  lemma BodyFirst(chosen: seq<Entry>, blanks: string)
    requires |chosen| > 1
    ensures Body(chosen, blanks) + "}\n" == PairText(chosen[0]) + (", " + (Body(chosen[1..], blanks) + "}\n"))
  {
    var n := |chosen| - 1;
    var first, last := PairText(chosen[0]), PairText(chosen[n]);
    var between := Separated(chosen[..n][1..]);
    assert chosen[..n][1..] == chosen[1..][..n - 1];
    assert Separated(chosen[..n]) == first + ", " + between;
    assert Body(chosen[1..], blanks) == between + last + blanks;
    Regroup4(first, between, last, blanks);
  }

  lemma Regroup4(a: string, b: string, c: string, d: string)
    ensures a + ", " + b + c + d + "}\n" == a + (", " + (b + c + d + "}\n"))
  {
    var e := b + c + d + "}\n";
    assert a + ", " + b + c + d + "}\n" == a + ", " + e;
  }

  lemma BodyStarts(chosen: seq<Entry>, blanks: string)
    requires chosen != []
    ensures Body(chosen, blanks) != "" && Body(chosen, blanks)[0] == '"'
  {
    if |chosen| == 1 {
      assert Separated(chosen[..0]) == "";
      assert PairText(chosen[0])[0] == '"';
    } else {
      assert chosen[..|chosen| - 1][0] == chosen[0];
      assert PairText(chosen[0])[0] == '"';
    }
  }

  lemma ReadsEmpty()
    ensures ReadObject("{}\n") == Some([])
  {
    SkipNoBlank("{}\n");
    assert "{}\n"[1..] == "}\n";
    SkipNoBlank("}\n");
    ClosingIs();
  }

  lemma ReadsAll(chosen: seq<Entry>, blanks: string)
    requires chosen != [] && AllProper(chosen) && (blanks == "" || blanks == "  ")
    ensures ReadObject("{" + Body(chosen, blanks) + "}\n") == Some(PairsOf(chosen))
  {
    var rest := Body(chosen, blanks) + "}\n";
    assert "{" + Body(chosen, blanks) + "}\n" == "{" + rest && ("{" + rest)[1..] == rest;
    SkipNoBlank("{" + rest);
    BodyStarts(chosen, blanks);
    SkipNoBlank(rest);
    assert rest[0] == '"';
    ReadBody(chosen, blanks);
  }

  lemma ReadsBack(entries: seq<Entry>, measurements: bool, diagram: bool)
    requires AllProper(Chosen(entries, |entries|, measurements, diagram))
    ensures ReadObject(JsonText(entries, measurements, diagram))
         == Some(PairsOf(Chosen(entries, |entries|, measurements, diagram)))
  {
    var chosen := Chosen(entries, |entries|, measurements, diagram);
    var blanks := JsonTextIs(entries, measurements, diagram);
    if chosen == [] {
      assert "{" + "" + "}\n" == "{}\n";
      assert PairsOf(chosen) == [];
      ReadsEmpty();
    } else {
      ReadsAll(chosen, blanks);
    }
  }

  /** For every list and all flags: the text is a well-formed object that holds exactly the selected
      entries, in the order of the list, exactly if each of these has a name that may stand between
      quotes and a value that is a boolean or a number. */
  lemma TextIsWellFormed(entries: seq<Entry>, measurements: bool, diagram: bool)
    ensures ReadObject(JsonText(entries, measurements, diagram))
         == Some(PairsOf(Chosen(entries, |entries|, measurements, diagram)))
       <==> AllProper(Chosen(entries, |entries|, measurements, diagram))
  {
    var chosen := Chosen(entries, |entries|, measurements, diagram);
    var text := JsonText(entries, measurements, diagram);
    if AllProper(chosen) {
      ReadsBack(entries, measurements, diagram);
    } else if ReadObject(text) == Some(PairsOf(chosen)) {
      var t := SkipBlanks(SkipBlanks(text)[1..]);
      if !Closes(t) {
        ReadPairsSound(t);
      }
      forall k | 0 <= k < |chosen| ensures Proper(chosen[k]) {
        assert PairsOf(chosen)[k] == PairOf(chosen[k]);
        assert PairsOf(chosen)[k] in PairsOf(chosen);
      }
    }
  }

  /** And then each name read stands for the name of its entry exactly if that has no backslash. */
  lemma NamesMeanThemselves(e: Entry)
    requires Proper(e)
    ensures Meaning(PairOf(e).name) == Codes(e.name) <==> '\\' !in e.name
  {
    MeansItself(e.name);
  }

  lemma {:induction false} ChosenAre(entries: seq<Entry>, n: nat, measurements: bool, diagram: bool, e: Entry)
    requires n <= |entries|
    ensures e in Chosen(entries, n, measurements, diagram) <==>
            e in entries[..n] && (e.general || (e.measurement && measurements) || (e.diagram && diagram))
  {
    if n == 0 {
    } else {
      ChosenAre(entries, n - 1, measurements, diagram, e);
      assert entries[..n] == entries[..n - 1] + [entries[n - 1]];
    }
  }
}
