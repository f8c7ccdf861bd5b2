/** What the `.ext` reader does with any text, printed or not: which of its steps C leaves undefined,
    and when it finds nothing (`model/config_file_parser_extensions.c`). */
module ReaderSafety {
  import opened Mms
  import opened Lines
  import opened Scan
  import opened ExtModel

  /** Kept by every line: the level says what there is to append to. */
  ghost predicate Inv(s: State) {
    && s.indentation <= 4
    && (s.inModel <==> 1 <= s.indentation)
    && (s.inModel ==> s.model.Some?)
    && (2 <= s.indentation ==> s.name.Some?)
    && (s.indentation == 4 ==> s.model.value.inputs != [])
  }

  lemma InvStep(s: State, line: string)
    requires Inv(s) && Step(s, line).Go?
    ensures Inv(Step(s, line).state)
  {
    if !s.inModel {
    } else if "}" <= line {
    } else if s.indentation == 1 {
      if "LD" <= line {
      } else {
        assert AddSubscriber(s, line).Go? ==> Inv(AddSubscriber(s, line).state);
      }
    } else if s.indentation == 4 {
      assert AddRef(s, line).Go? ==> Inv(AddRef(s, line).state);
    }
  }

  /** What a class line without a class would take over: the name kept is always the one appended or
      opened last, until a list is opened or closed. */
  lemma NameIsLast(s: State, line: string)
    requires Inv(s) && Step(s, line).Go?
    ensures var s' := Step(s, line).state;
            if "}" <= line || s'.indentation == 4 > s.indentation then s.inModel ==> s'.name == s.name
            else if !s.inModel then "MODEL{" <= line ==> s'.name == s.name
            else if s'.indentation == 2 then s'.name == Some(s'.ld)
            else if s'.indentation == 3 && s.indentation == 2 then s'.name == Some(s'.ln)
            else if s'.indentation == 3 then
              var classes := s'.model.value.classes;
              |classes| == |s.model.value.classes| + 1 && s'.name == Some(classes[|classes| - 1].cls)
            else if s'.indentation == 1 then
              var subRefs := s'.model.value.subRefs;
              |subRefs| == |s.model.value.subRefs| + 1 && s'.name == Some(subRefs[|subRefs| - 1].variableName)
            else
              var refs := s'.model.value.inputs[|s'.model.value.inputs| - 1].extRefs;
              refs != [] && s'.name == Some(refs[|refs| - 1].desc)
  {
  }

  /** A class line without a class repeats the name read last. */
  lemma ClassTakesLastName(s: State, line: string)
    requires Inv(s) && s.inModel && s.indentation == 3 && "CL" <= line && Args(line, "CL(", 1) == []
    ensures Step(s, line) == Go(s.(model := Some(s.model.value.(classes := s.model.value.classes
                                                 + [LnClass(s.ld, s.ln, Cut(s.name.value, ')'))])),
                                   name := Some(Cut(s.name.value, ')'))))
  {
    assert line[0] == 'C';
  }

  /** A line that makes the reader overrun a buffer, use one never written, or follow a null reference:
      too long a name, too few names in a reference line, a number or an address too large, or anything
      but the opening line of a model before there is one. Never for want of something to append to. */
  predicate Wild(s: State, line: string) {
    if !s.inModel then
      if "MODEL{" <= line then false
      else if "MODEL(" <= line then
        Overlong(Args(line, "MODEL(", 1)) || (Args(line, "MODEL(", 1) == [] && s.name == None)
      else s.model == None
    else if "}" <= line then false
    else if s.indentation == 1 then
      if "LD" <= line then Overlong(Args(line, "LD(", 1))
      else "SD" <= line && WildSubscriber(ScanSd(line))
    else if s.indentation == 2 then "LN" <= line && Overlong(Args(line, "LN(", 1))
    else if s.indentation == 3 then !("IN" <= line) && "CL" <= line && Overlong(Args(line, "CL(", 1))
    else "ER" <= line && (Overlong(Args(line, "ER(", 5)) || |Args(line, "ER(", 5)| < 5)
  }

  predicate WildSubscriber(items: SdItems) {
    ScanFails(items) || (|items.last| == 3 && OverrunsAddress(items.last[0]))
  }

  lemma SubscriberUndefined(s: State, line: string)
    requires s.model.Some?
    ensures AddSubscriber(s, line) == Stop(Undefined) <==> WildSubscriber(ScanSd(line))
  {
  }

  lemma NamesUndefined(s: State, line: string)
    requires s.model.Some? && s.name.Some?
    ensures OpenNode(s, line) == Stop(Undefined) <==> Overlong(Args(line, "LN(", 1))
    ensures AddClass(s, line) == Stop(Undefined) <==> Overlong(Args(line, "CL(", 1))
  {
  }

  lemma DeviceUndefined(s: State, line: string)
    requires s.model.Some?
    ensures OpenDevice(s, line) == Stop(Undefined) <==> Overlong(Args(line, "LD(", 1))
  {
  }

  lemma RefUndefined(s: State, line: string)
    requires s.model.Some? && s.model.value.inputs != []
    ensures AddRef(s, line) == Stop(Undefined) <==> Overlong(Args(line, "ER(", 5)) || |Args(line, "ER(", 5)| < 5
  {
  }

  /** Exactly the wild lines are left undefined, in every state the reader can be in. */
  lemma UndefinedExactly(s: State, line: string)
    requires Inv(s)
    ensures Step(s, line) == Stop(Undefined) <==> Wild(s, line)
  {
    if s.inModel {
      SubscriberUndefined(s, line);
      DeviceUndefined(s, line);
      if s.indentation == 2 || s.indentation == 3 {
        NamesUndefined(s, line);
      }
      if s.indentation == 4 {
        RefUndefined(s, line);
      }
    }
  }

  /** A line that is not wild and does not belong where it stands: another one than those its level
      allows, or one of these that lacks its name, one of its items or a proper address. */
  predicate Misplaced(s: State, line: string) {
    if !s.inModel then s.model.Some? && !("MODEL{" <= line) && !("MODEL(" <= line)
    else if "}" <= line then false
    else if s.indentation == 1 then
      if "LD" <= line then Args(line, "LD(", 1) == []
      else if "SD" <= line then Lacking(ScanSd(line))
      else true
    else if s.indentation == 2 then !("LN" <= line) || Args(line, "LN(", 1) == []
    else if s.indentation == 3 then !("IN" <= line) && !("CL" <= line)
    else !("ER" <= line)
  }

  predicate Lacking(items: SdItems) {
    !WildSubscriber(items) && (|items.last| < 3 || Address(items.last[0]) == None)
  }

  lemma SubscriberRejected(s: State, line: string)
    requires s.model.Some?
    ensures AddSubscriber(s, line) == Stop(Rejected) <==> Lacking(ScanSd(line))
  {
  }

  lemma NamesRejected(s: State, line: string)
    requires s.model.Some? && s.name.Some?
    ensures OpenNode(s, line) == Stop(Rejected) <==> Args(line, "LN(", 1) == []
    ensures AddClass(s, line) != Stop(Rejected) && OpenInputs(s) != Stop(Rejected)
  {
  }

  lemma DeviceRejected(s: State, line: string)
    requires s.model.Some?
    ensures OpenDevice(s, line) == Stop(Rejected) <==> Args(line, "LD(", 1) == []
  {
  }

  lemma OpeningRejected(s: State, line: string)
    requires Inv(s) && !s.inModel
    ensures Step(s, line) == Stop(Rejected) <==> s.model.Some? && !("MODEL{" <= line) && !("MODEL(" <= line)
  {
  }

  /** Exactly the misplaced lines are rejected. */
  lemma RejectedExactly(s: State, line: string)
    requires Inv(s)
    ensures Step(s, line) == Stop(Rejected) <==> Misplaced(s, line)
  {
    if !s.inModel {
      OpeningRejected(s, line);
    } else if s.indentation == 1 {
      DeviceRejected(s, line);
      SubscriberRejected(s, line);
    } else if s.indentation <= 3 {
      NamesRejected(s, line);
    }
  }

  /** A text no line of which is wild when it is read. */
  ghost predicate Tame(s: State, text: string)
    decreases |text|
  {
    var (line, rest) := NextLine(text, READ_BUFFER_MAX_SIZE);
    line == "" ||
    (&& |line| < READ_BUFFER_MAX_SIZE && !Wild(s, Cut(line, '\0'))
     && match Step(s, Cut(line, '\0')) case Stop(_) => true case Go(t) => Tame(t, rest))
  }

  /** Reading is defined exactly for tame texts. */
  lemma {:induction false} DefinedExactly(s: State, text: string)
    requires Inv(s)
    ensures Parse(s, text) != Undefined <==> Tame(s, text)
    decreases |text|
  {
    var (line, rest) := NextLine(text, READ_BUFFER_MAX_SIZE);
    if line == "" || |line| == READ_BUFFER_MAX_SIZE {
    } else {
      var next := Step(s, Cut(line, '\0'));
      UndefinedExactly(s, Cut(line, '\0'));
      if next.Go? {
        InvStep(s, Cut(line, '\0'));
        DefinedExactly(next.state, rest);
      }
    }
  }

  /** From the first line on. */
  lemma FileDefinedExactly(text: string)
    ensures Parse(INITIAL, text) != Undefined <==> Tame(INITIAL, text)
  {
    assert Inv(INITIAL);
    DefinedExactly(INITIAL, text);
  }

  lemma {:induction false} NeverNothingAgain(s: State, text: string)
    requires s.model.Some?
    ensures Parse(s, text) != Nothing
    decreases |text|
  {
    var (line, rest) := NextLine(text, READ_BUFFER_MAX_SIZE);
    if line == "" || |line| == READ_BUFFER_MAX_SIZE {
    } else {
      var next := Step(s, Cut(line, '\0'));
      if next.Go? {
        ModelStays(s, Cut(line, '\0'));
        NeverNothingAgain(next.state, rest);
      } else {
        StopIsNotNothing(s, Cut(line, '\0'));
      }
    }
  }

  lemma ModelStays(s: State, line: string)
    requires Step(s, line).Go? && (s.model.Some? || !s.inModel)
    ensures Step(s, line).state.model.Some?
  {
  }

  lemma StopIsNotNothing(s: State, line: string)
    ensures Step(s, line) != Stop(Nothing)
  {
  }

  /** No model comes out of a file exactly if it holds nothing but line ends. */
  lemma NothingExactly(text: string)
    ensures Parse(INITIAL, text) == Nothing <==> SkipEols(text) == ""
  {
    var (line, rest) := NextLine(text, READ_BUFFER_MAX_SIZE);
    if line != "" && |line| < READ_BUFFER_MAX_SIZE {
      var next := Step(INITIAL, Cut(line, '\0'));
      StopIsNotNothing(INITIAL, Cut(line, '\0'));
      if next.Go? {
        ModelStays(INITIAL, Cut(line, '\0'));
        NeverNothingAgain(next.state, rest);
      }
    }
  }
}
