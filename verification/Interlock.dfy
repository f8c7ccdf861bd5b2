/** The interlocking node (`LNs/CILO.c`): enables operation of a switch from the positions of
    others, through one direct input or four groups of inputs. */
module Interlock {
  import opened Mms

  const CILO_MAX_INPUT: nat := 16

  /** true unless the switch is known to be open: moving or bad counts as closed. */
  function ParsePos(pos: MmsValue): bool {
    match pos
    case Boolean(b) => b
    case BitString(p) => p != Off
    case OtherType => false
  }

  /** Not known to be open: a true value, or a position other than OFF. */
  predicate Closed(value: MmsValue) {
    (value.Boolean? && value.value) || (value.BitString? && value.pos != Off)
  }

  /** The four groups together: what blocks the operation. */
  ghost predicate Blocked(and: seq<bool>, or: seq<bool>, nand: seq<bool>, nor: seq<bool>) {
    || (and != [] && forall i :: 0 <= i < |and| ==> and[i])
    || (exists i :: 0 <= i < |or| && or[i])
    || (exists i :: 0 <= i < |nand| && !nand[i])
    || (nor != [] && forall i :: 0 <= i < |nor| ==> !nor[i])
  }

  /** The direct input enables operation exactly while the other switch is open. */
  function NotEnables(value: MmsValue): bool {
    !ParsePos(value)
  }

  /** What is published when an enable that was `before` is set to `ena`: only a change. */
  function Change(before: bool, ena: bool): Option<bool> {
    if before == ena then None else Some(ena)
  }

  datatype Gate = And | Nand | Or | Nor

  class CILO {
    var EnaOpn: bool
    var EnaCls: bool
    const andValues: array<bool>
    const andCount: nat
    const orValues: array<bool>
    const orCount: nat
    const nandValues: array<bool>
    const nandCount: nat
    const norValues: array<bool>
    const norCount: nat

    ghost function Inputs(): set<object> {
      {andValues, orValues, nandValues, norValues}
    }

    ghost predicate Valid()
      reads this, andValues, orValues, nandValues, norValues
    {
      && andValues.Length == orValues.Length == nandValues.Length == norValues.Length == CILO_MAX_INPUT
      && andValues != orValues && andValues != nandValues && andValues != norValues
      && orValues != nandValues && orValues != norValues && nandValues != norValues
      && andCount <= CILO_MAX_INPUT && orCount <= CILO_MAX_INPUT
      && nandCount <= CILO_MAX_INPUT && norCount <= CILO_MAX_INPUT
    }

    /** The inputs as the gates see them. */
    ghost predicate Blocks()
      requires Valid()
      reads this, andValues, orValues, nandValues, norValues
    {
      Blocked(andValues[..andCount], orValues[..orCount], nandValues[..nandCount], norValues[..norCount])
    }

    /** CILO_init, given how many inputs of each group are wired. */
    constructor (andCount: nat, orCount: nat, nandCount: nat, norCount: nat)
      requires andCount <= CILO_MAX_INPUT && orCount <= CILO_MAX_INPUT
      requires nandCount <= CILO_MAX_INPUT && norCount <= CILO_MAX_INPUT
      ensures Valid() && EnaOpn && EnaCls && fresh(Inputs())
      ensures this.andCount == andCount && this.orCount == orCount
      ensures this.nandCount == nandCount && this.norCount == norCount
      ensures forall i :: 0 <= i < CILO_MAX_INPUT ==> !andValues[i] && !orValues[i] && !nandValues[i] && !norValues[i]
    {
      EnaOpn, EnaCls := true, true;
      this.andCount, this.orCount, this.nandCount, this.norCount := andCount, orCount, nandCount, norCount;
      andValues, orValues := new bool[CILO_MAX_INPUT](_ => false), new bool[CILO_MAX_INPUT](_ => false);
      nandValues, norValues := new bool[CILO_MAX_INPUT](_ => false), new bool[CILO_MAX_INPUT](_ => false);
    }

    method AndInputsAllTrue() returns (block: bool)
      requires Valid()
      ensures block <==> andCount != 0 && forall i :: 0 <= i < andCount ==> andValues[i]
    {
      if andCount == 0 {
        return false;
      }
      for i := 0 to andCount
        invariant forall j :: 0 <= j < i ==> andValues[j]
      {
        if !andValues[i] {
          return false;
        }
      }
      return true;
    }

    method NandResult() returns (block: bool)
      requires Valid()
      ensures block <==> exists i :: 0 <= i < nandCount && !nandValues[i]
    {
      if nandCount == 0 {
        return false;
      }
      for i := 0 to nandCount
        invariant forall j :: 0 <= j < i ==> nandValues[j]
      {
        if !nandValues[i] {
          return true;
        }
      }
      return false;
    }

    method AnyOrInputTrue() returns (block: bool)
      requires Valid()
      ensures block <==> exists i :: 0 <= i < orCount && orValues[i]
    {
      if orCount == 0 {
        return false;
      }
      for i := 0 to orCount
        invariant forall j :: 0 <= j < i ==> !orValues[j]
      {
        if orValues[i] {
          return true;
        }
      }
      return false;
    }

    method NorResult() returns (block: bool)
      requires Valid()
      ensures block <==> norCount != 0 && forall i :: 0 <= i < norCount ==> !norValues[i]
    {
      if norCount == 0 {
        return false;
      }
      for i := 0 to norCount
        invariant forall j :: 0 <= j < i ==> !norValues[j]
      {
        if norValues[i] {
          return false;
        }
      }
      return true;
    }

    /** SetEnaOpn and SetEnaCls where the wanted value differs; `opn` and `cls` are what is published. */
    method SetEna(ena: bool) returns (opn: Option<bool>, cls: Option<bool>)
      modifies this
      ensures EnaOpn == EnaCls == ena
      ensures opn == Change(old(EnaOpn), ena) && cls == Change(old(EnaCls), ena)
      ensures opn == (if old(EnaOpn) == ena then None else Some(ena))
      ensures cls == (if old(EnaCls) == ena then None else Some(ena))
    {
      opn, cls := None, None;
      if ena != EnaOpn {
        opn := Some(ena);
        EnaOpn := ena;
      }
      if ena != EnaCls {
        cls := Some(ena);
        EnaCls := ena;
      }
    }

    method ProcessAllConditions() returns (opn: Option<bool>, cls: Option<bool>)
      requires Valid()
      modifies this
      ensures Valid() && EnaOpn == EnaCls == !Blocks()
      ensures opn == Change(old(EnaOpn), EnaOpn) && cls == Change(old(EnaCls), EnaCls)
    {
      var and := AndInputsAllTrue();
      var or := AnyOrInputTrue();
      var nand := NandResult();
      var nor := NorResult();
      var block := and || or || nand || nor;
      opn, cls := SetEna(!block);
    }

    /** The direct input: enabled exactly while the other switch is open. */
    method NotCallback(value: MmsValue) returns (opn: Option<bool>, cls: Option<bool>)
      modifies this
      ensures EnaOpn == EnaCls == NotEnables(value)
      ensures EnaOpn == EnaCls == !Closed(value)
      ensures opn == Change(old(EnaOpn), EnaOpn) && cls == Change(old(EnaCls), EnaCls)
    {
      opn, cls := SetEna(!ParsePos(value));
    }

    ghost function Values(gate: Gate): array<bool> {
      match gate
      case And => andValues
      case Nand => nandValues
      case Or => orValues
      case Nor => norValues
    }

    /** The four group callbacks differ in the array they write; the index comes from the name of
        the input, and -1 stands for a name without one. */
    method GateCallback(gate: Gate, index: int, value: MmsValue) returns (opn: Option<bool>, cls: Option<bool>)
      requires Valid() && -1 <= index < CILO_MAX_INPUT
      modifies this, Inputs()
      ensures Valid()
      ensures index == -1 ==> EnaOpn == old(EnaOpn) && EnaCls == old(EnaCls)
      ensures index == -1 ==> Values(gate)[..] == old(Values(gate)[..])
      ensures index != -1 ==> EnaOpn == EnaCls == !Blocks()
      ensures index != -1 ==> Values(gate)[..] == old(Values(gate)[..])[index := ParsePos(value)]
      ensures index != -1 && gate == And ==> andValues[index] == Closed(value)
      ensures index != -1 && gate == Nand ==> nandValues[index] == Closed(value)
      ensures index != -1 && gate == Or ==> orValues[index] == Closed(value)
      ensures index != -1 && gate == Nor ==> norValues[index] == Closed(value)
      ensures forall g :: g != gate ==> Values(g)[..] == old(Values(g)[..])
      ensures opn == Change(old(EnaOpn), EnaOpn) && cls == Change(old(EnaCls), EnaCls)
    {
      opn, cls := None, None;
      if index != -1 {
        match gate {
          case And => andValues[index] := ParsePos(value);
          case Nand => nandValues[index] := ParsePos(value);
          case Or => orValues[index] := ParsePos(value);
          case Nor => norValues[index] := ParsePos(value);
        }
        opn, cls := ProcessAllConditions();
      }
    }
  }

  /** A single NOR input: enabled exactly while the other switch is not known to be open. */
  lemma SingleNor(value: bool)
    ensures Blocked([], [], [], [value]) <==> !value
  {
    assert [value][0] == value;
  }

  /** Every wired group must agree for the operation to be enabled. */
  lemma EnabledWhen(and: seq<bool>, or: seq<bool>, nand: seq<bool>, nor: seq<bool>)
    ensures !Blocked(and, or, nand, nor) <==>
            && (and == [] || false in and)
            && true !in or
            && false !in nand
            && (nor == [] || true in nor)
  {
  }
}
