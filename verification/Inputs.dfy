/** The objects of the input layer (`input/inputs.c`): references to signals of other nodes, and
    the records, linked in chains, through which received or published values reach them. */
module Inputs {
  import opened Mms

  /** strcmp_p answers 0: equal, not empty and below the length limit. */
  predicate SameText(a: string, b: string) {
    |a| == |b| && |a| != 0 && |a| < 140 && a == b
  }

  /** An external reference of a logical node. */
  class InputEntry {
    const Ref: string
    const serviceType: string
    const hasCallback: bool
    var value: Option<MmsValue>

    constructor (Ref: string, serviceType: string, hasCallback: bool)
      ensures this.Ref == Ref && this.serviceType == serviceType && this.hasCallback == hasCallback
      ensures value == None
    {
      this.Ref, this.serviceType, this.hasCallback := Ref, serviceType, hasCallback;
      value := None;
    }
  }

  /** One use of a signal: a data attribute of the own model or a place in a received dataset. */
  class InputValue {
    const DA: Option<nat>
    const index: nat
    const extRef: InputEntry
    var sibling: InputValue?

    constructor (index: nat, da: Option<nat>, extRef: InputEntry)
      ensures this.index == index && DA == da && this.extRef == extRef && sibling == null
    {
      this.index, DA, this.extRef := index, da, extRef;
      sibling := null;
    }
  }

  function Nodes(chain: seq<InputValue>): set<InputValue> {
    set n | n in chain
  }

  function ExtRefs(chain: seq<InputValue>): set<InputEntry> {
    set n | n in chain :: n.extRef
  }

  /** No record is listed twice. */
  ghost predicate Distinct(chain: seq<InputValue>) {
    chain != [] ==> chain[|chain| - 1] !in chain[..|chain| - 1] && Distinct(chain[..|chain| - 1])
  }

  /** Record number i, or null past the end. */
  function At(chain: seq<InputValue>, i: nat): InputValue? {
    if i < |chain| then chain[i] else null
  }

  /** `chain` lists the nodes met from `head` on. */
  ghost predicate IsChain(head: InputValue?, chain: seq<InputValue>)
    reads Nodes(chain)
  {
    && head == At(chain, 0)
    && forall i {:trigger chain[i].sibling} :: 0 <= i < |chain| ==> chain[i].sibling == At(chain, i + 1)
  }

  /** The references called back by a walk along records. */
  function Callbacks(chain: seq<InputValue>): seq<InputEntry> {
    if chain == [] then []
    else
      var before, last := Callbacks(chain[..|chain| - 1]), chain[|chain| - 1].extRef;
      if last.hasCallback then before + [last] else before
  }

  /** `at` lists, in order, all places of records whose reference has a callback. */
  ghost predicate CallbackPlaces(chain: seq<InputValue>, at: seq<nat>) {
    && (forall n :: 0 <= n < |at| ==> at[n] < |chain| && chain[at[n]].extRef.hasCallback)
    && (forall m, n :: 0 <= m < n < |at| ==> at[m] < at[n])
    && (forall i :: 0 <= i < |chain| && chain[i].extRef.hasCallback ==> i in at)
  }

  /** Called back are exactly the references with a callback, once for each of their records, in the
      order of the records. */
  lemma {:induction false} CalledExactly(chain: seq<InputValue>) returns (at: seq<nat>)
    ensures CallbackPlaces(chain, at)
    ensures |Callbacks(chain)| == |at| && forall n :: 0 <= n < |at| ==> Callbacks(chain)[n] == chain[at[n]].extRef
    decreases |chain|
  {
    if chain == [] {
      at := [];
    } else {
      var n := |chain| - 1;
      at := CalledExactly(chain[..n]);
      if chain[n].extRef.hasCallback {
        at := at + [n];
      }
    }
  }

  /** A reference is called back exactly if it has a record and a callback. */
  lemma CalledReferences(chain: seq<InputValue>, e: InputEntry)
    ensures e in Callbacks(chain) <==> e.hasCallback && e in ExtRefs(chain)
  {
    var at := CalledExactly(chain);
    if e.hasCallback && e in ExtRefs(chain) {
      var i :| 0 <= i < |chain| && chain[i].extRef == e;
      var n :| 0 <= n < |at| && at[n] == i;
      assert Callbacks(chain)[n] == e;
    }
  }
}
