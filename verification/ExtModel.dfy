/** The extended model and the reader of its text form, the `.ext` language
    (`model/config_file_parser_extensions.c`, `model/dynamic_model_extensions.c`). */
module ExtModel {
  import opened Mms
  import opened Lines
  import opened Scan

  datatype ExtRef = ExtRef(desc: string, ref: string, intAddr: string, serviceType: string, srcRef: string)

  datatype LnClass = LnClass(ld: string, ln: string, cls: string)

  datatype Inputs = Inputs(ld: string, ln: string, extRefs: seq<ExtRef>)

  datatype Subscriber = Subscriber(
    variableName: string, dataset: string, appId: nat, cbRef: string, id: string, ethAddr: seq<nat>)

  /** The three lists of the extended model, in the order in which entries were appended. */
  datatype Model = Model(classes: seq<LnClass>, inputs: seq<Inputs>, subRefs: seq<Subscriber>)

  const EMPTY := Model([], [], [])

  /** A name buffer of the reader holds 130 characters, the last one a zero. */
  const NAME_SIZE: nat := 130

  /** What the reader remembers between lines; `name` is what the first name buffer holds. */
  datatype State = State(
    inModel: bool,
    indentation: nat,
    model: Option<Model>,
    ld: string,
    ln: string,
    name: Option<string>)

  const INITIAL := State(false, 0, None, "", "", None)

  /** How reading can end. `Undefined` stands for a step that C leaves undefined: a buffer overrun,
      a buffer read before it was written, a null reference followed. */
  datatype Outcome = Accepted(model: Model) | Nothing | Rejected | Undefined

  datatype Next = Go(state: State) | Stop(outcome: Outcome)

  predicate Overlong(words: seq<string>) {
    exists k :: 0 <= k < |words| && |words[k]| >= NAME_SIZE
  }

  /** exit_error: the model built so far is destroyed; without one a null reference is followed. */
  function Fail(s: State): Next {
    Stop(if s.model == None then Undefined else Rejected)
  }

  /** sscanf with a format that starts with literal text and goes on with n words. */
  function Args(line: string, literal: string, n: nat): (r: seq<string>)
    ensures |r| <= n
  {
    if literal <= line then ScanWords(line[|literal|..], n).0 else []
  }

  // ---- One line, by level ----

  function Close(s: State): Next {
    if s.indentation <= 1 then Go(s.(inModel := false, indentation := 0))
    else Go(s.(indentation := s.indentation - 1))
  }

  function OpenModel(s: State, line: string): Next {
    if "MODEL{" <= line then Go(s.(model := Some(EMPTY), inModel := true, indentation := 1))
    else if "MODEL(" <= line then
      var words := Args(line, "MODEL(", 1);
      if Overlong(words) then Stop(Undefined)
      else if words == [] && s.name == None then Stop(Undefined)
      else
        var name := Cut(if words == [] then s.name.value else words[0], ')');
        Go(s.(model := Some(EMPTY), inModel := true, indentation := 1, name := Some(name)))
    else Fail(s)
  }

  function OpenDevice(s: State, line: string): Next {
    var words := Args(line, "LD(", 1);
    if Overlong(words) then Stop(Undefined)
    else if words == [] then Fail(s)
    else
      var name := Cut(words[0], ')');
      Go(s.(indentation := 2, ld := name, name := Some(name)))
  }

  function OpenNode(s: State, line: string): Next {
    var words := Args(line, "LN(", 1);
    if Overlong(words) then Stop(Undefined)
    else if words == [] then Fail(s)
    else
      var name := Cut(words[0], ')');
      Go(s.(indentation := 3, ln := name, name := Some(name)))
  }

  /** The six items of an SD line, as far as they are found: two words, a number, three words. */
  datatype SdItems = SdItems(first: seq<string>, appId: Option<int>, last: seq<string>)

  function ScanSd(line: string): (r: SdItems)
    ensures |r.first| <= 2 && |r.last| <= 3
    ensures r.last != [] ==> |r.first| == 2 && r.appId.Some?
  {
    if "SD(" <= line then
      var first := ScanWords(line[3..], 2);
      if |first.0| < 2 then SdItems(first.0, None, [])
      else match ScanUnsigned(first.1)
        case None => SdItems(first.0, None, [])
        case Some((appId, rest)) => SdItems(first.0, Some(appId), ScanWords(rest, 3).0)
    else SdItems([], None, [])
  }

  /** The six bytes of an address; a longer text overruns their buffer. */
  function Address(hex: string): (r: Option<seq<nat>>)
    ensures r.Some? ==> |r.value| == 6
  {
    match FromHex(hex)
    case None => None
    case Some(bytes) => if |bytes| == 6 then Some(bytes) else None
  }

  predicate OverrunsAddress(hex: string) {
    |hex| % 2 == 0 && |hex| > 12 && FromHex(hex[..14]).Some?
  }

  /** Whether sscanf itself goes wrong on the items of an SD line. */
  predicate ScanFails(items: SdItems) {
    || Overlong(items.first) || Overlong(items.last)
    || (items.appId.Some? && !(-0x1_0000_0000 < items.appId.value < 0x1_0000_0000))
  }

  /** The entry of a full SD line. */
  function Entry(items: SdItems, ethAddr: seq<nat>): Subscriber
    requires |items.last| == 3 && |items.first| == 2 && items.appId.Some?
  {
    Subscriber(items.first[0], items.first[1], items.appId.value % 0x1_0000, items.last[1], Cut(items.last[2], ')'),
               ethAddr)
  }

  function Append(s: State, subscriber: Subscriber): Next {
    if s.model == None then Stop(Undefined)
    else Go(s.(model := Some(s.model.value.(subRefs := s.model.value.subRefs + [subscriber])),
               name := Some(subscriber.variableName)))
  }

  function AddSubscriber(s: State, line: string): Next {
    var items := ScanSd(line);
    if ScanFails(items) then Stop(Undefined)
    else if |items.last| < 3 then Fail(s)
    else if OverrunsAddress(items.last[0]) then Stop(Undefined)
    else
      var ethAddr := Address(items.last[0]);
      if ethAddr == None then Fail(s) else Append(s, Entry(items, ethAddr.value))
  }

  function OpenInputs(s: State): Next {
    if s.model == None then Stop(Undefined)
    else Go(s.(indentation := 4,
               model := Some(s.model.value.(inputs := s.model.value.inputs + [Inputs(s.ld, s.ln, [])]))))
  }

  /** A class line is read without checking that there is a class: the last name is used again. */
  function AddClass(s: State, line: string): Next {
    var words := Args(line, "CL(", 1);
    if Overlong(words) || s.model == None || (words == [] && s.name == None) then Stop(Undefined)
    else
      var cls := Cut(if words == [] then s.name.value else words[0], ')');
      Go(s.(model := Some(s.model.value.(classes := s.model.value.classes + [LnClass(s.ld, s.ln, cls)])),
            name := Some(cls)))
  }

  function WithRef(inputs: seq<Inputs>, e: ExtRef): seq<Inputs>
    requires inputs != []
  {
    var last := inputs[|inputs| - 1];
    inputs[..|inputs| - 1] + [last.(extRefs := last.extRefs + [e])]
  }

  /** A reference line is read without counting its words; missing ones are buffers never written. */
  function AddRef(s: State, line: string): Next {
    var words := Args(line, "ER(", 5);
    if Overlong(words) || |words| < 5 || s.model == None || s.model.value.inputs == [] then Stop(Undefined)
    else
      var e := ExtRef(words[0], words[1], words[2], words[3], Cut(words[4], ')'));
      Go(s.(model := Some(s.model.value.(inputs := WithRef(s.model.value.inputs, e))), name := Some(words[0])))
  }

  /** One line of the file, up to a zero in it. */
  function Step(s: State, line: string): Next {
    if !s.inModel then OpenModel(s, line)
    else if "}" <= line then Close(s)
    else if s.indentation == 1 then
      if "LD" <= line then OpenDevice(s, line) else if "SD" <= line then AddSubscriber(s, line) else Fail(s)
    else if s.indentation == 2 then
      if "LN" <= line then OpenNode(s, line) else Fail(s)
    else if s.indentation == 3 then
      if "IN" <= line then OpenInputs(s) else if "CL" <= line then AddClass(s, line) else Fail(s)
    else if "ER" <= line then AddRef(s, line) else Fail(s)
  }

  function Finish(s: State): Outcome {
    if s.model == None then Nothing else Accepted(s.model.value)
  }

  /** The whole file. */
  function Parse(s: State, text: string): Outcome
    decreases |text|
  {
    var (line, rest) := NextLine(text, READ_BUFFER_MAX_SIZE);
    if line == "" then Finish(s)
    else if |line| == READ_BUFFER_MAX_SIZE then Undefined
    else match Step(s, Cut(line, '\0'))
      case Stop(outcome) => outcome
      case Go(s') => Parse(s', rest)
  }

  // ---- The reader ----

  /** The reader with its state as it is updated line by line. */
  class ConfigFileParser {
    var stateInModel: bool
    var indendation: nat
    var model: Option<Model>
    var currentLD: string
    var currentLN: string
    var nameString: Option<string>

    ghost function Value(): State
      reads this
    {
      State(stateInModel, indendation, model, currentLD, currentLN, nameString)
    }

    constructor ()
      ensures Value() == INITIAL
    {
      stateInModel, indendation, model := false, 0, None;
      currentLD, currentLN, nameString := "", "", None;
    }

    /** The effect of one step on the reader: a new state, or the end of the reading. */
    ghost predicate Follows(next: Next, stop: Option<Outcome>)
      reads this
    {
      match next
      case Go(s') => stop == None && Value() == s'
      case Stop(outcome) => stop == Some(outcome)
    }

    method ExitError() returns (stop: Option<Outcome>)
      ensures stop == Some(Fail(Value()).outcome)
    {
      return Some(if model == None then Undefined else Rejected);
    }

    method HandleClose()
      modifies this
      ensures Close(old(Value())) == Go(Value())
    {
      if indendation <= 1 {
        stateInModel := false;
        indendation := 0;
      } else {
        indendation := indendation - 1;
      }
    }

    method HandleModel(line: string) returns (stop: Option<Outcome>)
      modifies this
      ensures Follows(OpenModel(old(Value()), line), stop)
    {
      var braces := StartsWith(line, "MODEL{");
      var parentheses := StartsWith(line, "MODEL(");
      if braces {
        model := Some(EMPTY);
        stateInModel := true;
        indendation := 1;
        return None;
      } else if parentheses {
        var words := Args(line, "MODEL(", 1);
        if Overlong(words) {
          return Some(Undefined);
        }
        if words != [] {
          nameString := Some(words[0]);
        }
        if nameString == None {
          return Some(Undefined);
        }
        nameString := Some(Cut(nameString.value, ')'));
        model := Some(EMPTY);
        stateInModel := true;
        indendation := 1;
        return None;
      } else {
        stop := ExitError();
      }
    }

    method HandleDevice(line: string) returns (stop: Option<Outcome>)
      modifies this
      ensures Follows(OpenDevice(old(Value()), line), stop)
    {
      var words := Args(line, "LD(", 1);
      if Overlong(words) {
        return Some(Undefined);
      }
      if |words| < 1 {
        stop := ExitError();
        return;
      }
      indendation := 2;
      nameString := Some(Cut(words[0], ')'));
      currentLD := nameString.value;
      return None;
    }

    method HandleNode(line: string) returns (stop: Option<Outcome>)
      modifies this
      ensures Follows(OpenNode(old(Value()), line), stop)
    {
      var words := Args(line, "LN(", 1);
      if Overlong(words) {
        return Some(Undefined);
      }
      if |words| < 1 {
        stop := ExitError();
        return;
      }
      indendation := 3;
      nameString := Some(Cut(words[0], ')'));
      currentLN := nameString.value;
      return None;
    }

    method HandleSubscriber(line: string) returns (stop: Option<Outcome>)
      modifies this
      ensures Follows(AddSubscriber(old(Value()), line), stop)
    {
      var items := ScanSd(line);
      if ScanFails(items) {
        return Some(Undefined);
      }
      if |items.last| < 3 {
        stop := ExitError();
        return;
      }
      if OverrunsAddress(items.last[0]) {
        return Some(Undefined);
      }
      var ethAddr := Address(items.last[0]);
      if ethAddr == None {
        stop := ExitError();
        return;
      }
      if model == None {
        return Some(Undefined);
      }
      var subscriber := Entry(items, ethAddr.value);
      nameString := Some(items.first[0]);
      model := Some(model.value.(subRefs := model.value.subRefs + [subscriber]));
      return None;
    }

    method HandleInputs() returns (stop: Option<Outcome>)
      modifies this
      ensures Follows(OpenInputs(old(Value())), stop)
    {
      if model == None {
        return Some(Undefined);
      }
      indendation := 4;
      model := Some(model.value.(inputs := model.value.inputs + [Inputs(currentLD, currentLN, [])]));
      return None;
    }

    method HandleClass(line: string) returns (stop: Option<Outcome>)
      modifies this
      ensures Follows(AddClass(old(Value()), line), stop)
    {
      var words := Args(line, "CL(", 1);
      if Overlong(words) || model == None {
        return Some(Undefined);
      }
      if words != [] {
        nameString := Some(words[0]);
      }
      if nameString == None {
        return Some(Undefined);
      }
      nameString := Some(Cut(nameString.value, ')'));
      model := Some(model.value.(classes := model.value.classes + [LnClass(currentLD, currentLN, nameString.value)]));
      return None;
    }

    method HandleRef(line: string) returns (stop: Option<Outcome>)
      modifies this
      ensures Follows(AddRef(old(Value()), line), stop)
    {
      var words := Args(line, "ER(", 5);
      if Overlong(words) || |words| < 5 || model == None || model.value.inputs == [] {
        return Some(Undefined);
      }
      var e := ExtRef(words[0], words[1], words[2], words[3], Cut(words[4], ')'));
      nameString := Some(words[0]);
      model := Some(model.value.(inputs := WithRef(model.value.inputs, e)));
      return None;
    }

    /** The body of the loop for a line that is not empty. */
    method HandleLine(line: string) returns (stop: Option<Outcome>)
      modifies this
      ensures Follows(Step(old(Value()), line), stop)
    {
      stop := None;
      if !stateInModel {
        stop := HandleModel(line);
        return;
      }
      var closes := StartsWith(line, "}");
      if closes {
        HandleClose();
      } else if indendation == 1 {
        var ld := StartsWith(line, "LD");
        var sd := StartsWith(line, "SD");
        if ld {
          stop := HandleDevice(line);
        } else if sd {
          stop := HandleSubscriber(line);
        } else {
          stop := ExitError();
        }
      } else if indendation == 2 {
        var ln := StartsWith(line, "LN");
        if ln {
          stop := HandleNode(line);
        } else {
          stop := ExitError();
        }
      } else if indendation == 3 {
        var input := StartsWith(line, "IN");
        var cl := StartsWith(line, "CL");
        if input {
          stop := HandleInputs();
        } else if cl {
          stop := HandleClass(line);
        } else {
          stop := ExitError();
        }
      } else {
        var er := StartsWith(line, "ER");
        if er {
          stop := HandleRef(line);
        } else {
          stop := ExitError();
        }
      }
    }

    /** ConfigFileParser_createModelFromConfigFile_inputs. */
    method CreateModel(file: FileHandle) returns (outcome: Outcome)
      requires Value() == INITIAL
      modifies this, file
      ensures outcome == Parse(INITIAL, old(file.unread))
    {
      var lineBuffer := new char[READ_BUFFER_MAX_SIZE];
      ghost var text := file.unread;
      var bytesRead: nat := 1;
      while bytesRead > 0
        invariant bytesRead > 0 ==> Parse(Value(), file.unread) == Parse(INITIAL, text)
        invariant bytesRead == 0 ==> Finish(Value()) == Parse(INITIAL, text)
        decreases bytesRead > 0, |file.unread|
      {
        ghost var was := file.unread;
        bytesRead := ReadLine(file, lineBuffer, READ_BUFFER_MAX_SIZE);
        if bytesRead > 0 {
          if bytesRead == READ_BUFFER_MAX_SIZE {
            return Undefined;
          }
          var stop := HandleLine(Cut(lineBuffer[..bytesRead], '\0'));
          if stop.Some? {
            return stop.value;
          }
        }
      }
      return if model == None then Nothing else Accepted(model.value);
    }
  }
}
