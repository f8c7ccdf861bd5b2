/** The in-place insertion sort of a linked list of names
    (`StringUtils_sortList` in `utils/string_utilities.c`). */
module SortList {
  import opened Collation

  class Node {
    const data: CString
    var next: Node?

    constructor (data: CString)
      ensures this.data == data && next == null
    {
      this.data := data;
      next := null;
    }
  }

  ghost function Nodes(nodes: seq<Node>): set<Node> {
    set n | n in nodes
  }

  /** The nodes of a list, in order, down to null; a list has no cycle. */
  ghost predicate Chain(nodes: seq<Node>)
    reads Nodes(nodes)
  {
    && (forall i, j :: 0 <= i < j < |nodes| ==> nodes[i] != nodes[j])
    && (forall i :: 0 <= i < |nodes| - 1 ==> nodes[i].next == nodes[i + 1])
    && (|nodes| > 0 ==> nodes[|nodes| - 1].next == null)
  }

  ghost predicate Sorted(nodes: seq<Node>) {
    forall i, j :: 0 <= i < j < |nodes| ==> !Precedes(nodes[j].data, nodes[i].data)
  }

  lemma NotPrecedesIsTransitive(a: CString, b: CString, c: CString)
    requires !Precedes(b, a) && !Precedes(c, b)
    ensures !Precedes(c, a)
  {
    if Precedes(c, a) {
      if a == b || b == c {
        assert false;
      } else {
        PrecedesIsTotal(a, b);
        PrecedesIsTotal(b, c);
        PrecedesIsTransitive(a, b, c);
        PrecedesIsTransitive(a, c, a);
        PrecedesIsIrreflexive(a);
      }
    }
  }

  ghost function Inserted(s: seq<Node>, i: nat, x: Node): seq<Node>
    requires i <= |s|
  {
    s[..i] + [x] + s[i..]
  }

  lemma InsertedKeepsSorted(s: seq<Node>, i: nat, x: Node)
    requires Sorted(s) && i <= |s|
    requires forall k :: 0 <= k < i ==> !Precedes(x.data, s[k].data)
    requires i < |s| ==> !Precedes(s[i].data, x.data)
    ensures Sorted(Inserted(s, i, x))
  {
    forall k | i <= k < |s|
      ensures !Precedes(s[k].data, x.data)
    {
      if k > i {
        NotPrecedesIsTransitive(x.data, s[i].data, s[k].data);
      }
    }
  }

  lemma InsertedMultiset(s: seq<Node>, i: nat, x: Node)
    requires i <= |s|
    ensures multiset(Inserted(s, i, x)) == multiset(s) + multiset{x}
    ensures Nodes(Inserted(s, i, x)) == Nodes(s) + {x}
  {
    assert s == s[..i] + s[i..];
  }

  /** A chain with x linked in behind node i. */
  lemma ChainInserted(all: seq<Node>, i: nat, x: Node)
    requires i < |all| && x !in Nodes(all)
    requires forall j, k :: 0 <= j < k < |all| ==> all[j] != all[k]
    requires forall k :: 0 <= k < |all| - 1 && k != i ==> all[k].next == all[k + 1]
    requires i < |all| - 1 ==> all[|all| - 1].next == null
    requires all[i].next == x
    requires x.next == if i < |all| - 1 then all[i + 1] else null
    ensures Chain(Inserted(all, i + 1, x))
  {
    var t := Inserted(all, i + 1, x);
    forall k | 0 <= k < |t| - 1
      ensures t[k].next == t[k + 1]
    {
      if k > i + 1 {
        assert t[k] == all[k - 1];
      }
    }
  }

  /** A chain with the node behind its head taken out. */
  lemma ChainUnlinked(all: seq<Node>, rest: seq<Node>)
    requires |all| >= 2 && rest == all[2..]
    requires forall j, k :: 0 <= j < k < |all| ==> all[j] != all[k]
    requires forall k :: 2 <= k < |all| - 1 ==> all[k].next == all[k + 1]
    requires |all| > 2 ==> all[|all| - 1].next == null
    requires all[0].next == if |all| > 2 then all[2] else null
    ensures Chain([all[0]] + rest) && all[1] !in Nodes(rest)
  {
    var t := [all[0]] + rest;
    assert forall k :: 1 <= k < |t| ==> t[k] == all[k + 1];
    forall k | 0 <= k < |t| - 1
      ensures t[k].next == t[k + 1]
    {
      if k > 0 {
        assert t[k + 1] == all[k + 2];
      }
    }
  }

  /** Replacing the head of a list keeps the rest. */
  lemma ChainReheaded(head: Node, other: Node, nodes: seq<Node>)
    requires Chain([head] + nodes) && other !in Nodes(nodes)
    requires other.next == head.next
    ensures Chain([other] + nodes)
  {
    var all, t := [head] + nodes, [other] + nodes;
    assert forall k :: 1 <= k < |t| ==> t[k] == all[k] && t[k] in Nodes(nodes);
    assert |nodes| > 0 ==> all[0].next == all[1] && t[1] == all[1];
  }

  /** Unlinks and relinks the nodes behind the head; no data moves. */
  method SortList(list: Node, weights: CharWeights, ghost nodes: seq<Node>) returns (ghost sorted: seq<Node>)
    requires Chain([list] + nodes) && weights.Valid()
    modifies list, Nodes(nodes), weights, weights.lookupTable
    ensures Chain([list] + sorted)
    ensures multiset(sorted) == multiset(nodes)
    ensures Sorted(sorted)
  {
    sorted := [];
    HeadLink(list, nodes);
    var selectedElement := list.next;
    if selectedElement == null {
      return;
    }
    ghost var rest := UnlinkFirst(list, selectedElement, nodes);
    var sortedList := new Node([]);
    sortedList.next := selectedElement;
    sorted := [selectedElement];
    selectedElement := list.next;
    while selectedElement != null
      invariant weights.Valid()
      invariant Nodes(sorted) + Nodes(rest) <= Nodes(nodes)
      invariant Nodes(sorted) !! Nodes(rest) + {list}
      invariant fresh(sortedList) && sortedList !in Nodes(nodes) + {list}
      invariant Chain([list] + rest) && Chain([sortedList] + sorted)
      invariant multiset(sorted) + multiset(rest) == multiset(nodes)
      invariant Sorted(sorted)
      invariant selectedElement == list.next
      decreases |rest|
    {
      HeadLink(list, rest);
      rest, sorted := MoveFirst(list, sortedList, selectedElement, weights, rest, sorted);
      selectedElement := list.next;
    }
    HeadLink(list, rest);
    list.next := sortedList.next;
    ChainReheaded(sortedList, list, sorted);
  }

  lemma HeadLink(list: Node, nodes: seq<Node>)
    requires Chain([list] + nodes)
    ensures list.next == (if nodes == [] then null else nodes[0])
    ensures nodes != [] ==> nodes[0] in Nodes(nodes)
    ensures list !in Nodes(nodes)
  {
    var all := [list] + nodes;
    assert all[0] == list && (nodes != [] ==> all[0].next == all[1]);
    assert forall k :: 0 <= k < |nodes| ==> nodes[k] == all[k + 1];
  }

  /** The two assignments at the head of both loops: takes the first node off the list. */
  method UnlinkFirst(list: Node, selectedElement: Node, ghost nodes: seq<Node>) returns (ghost rest: seq<Node>)
    requires Chain([list] + nodes) && list.next == selectedElement
    modifies list, selectedElement
    ensures nodes == [selectedElement] + rest
    ensures multiset(nodes) == multiset(rest) + multiset{selectedElement}
    ensures Nodes(nodes) == Nodes(rest) + {selectedElement}
    ensures Chain([list] + rest) && selectedElement.next == null
    ensures selectedElement !in Nodes(rest) + {list}
  {
    ghost var all := [list] + nodes;
    assert all[0] == list && nodes != [] && all[0].next == all[1] == nodes[0];
    assert |all| > 2 ==> all[1].next == all[2];
    rest := nodes[1..];
    assert rest == all[2..] && nodes == [selectedElement] + rest;
    list.next := selectedElement.next;
    selectedElement.next := null;
    ChainUnlinked(all, rest);
  }

  /** Walks the sorted list to the node behind which the new element belongs. */
  method FindPlace(sortedList: Node, selectedElement: Node, weights: CharWeights, ghost s: seq<Node>)
    returns (prevElement: Node, ghost i: nat)
    requires Chain([sortedList] + s) && weights.Valid()
    modifies weights, weights.lookupTable
    ensures weights.Valid()
    ensures i <= |s| && prevElement == ([sortedList] + s)[i]
    ensures forall k :: 0 <= k < i ==> !Precedes(selectedElement.data, s[k].data)
    ensures i < |s| ==> !Precedes(s[i].data, selectedElement.data)
  {
    prevElement := sortedList;
    i := 0;
    ghost var all := [sortedList] + s;
    while true
      invariant weights.Valid() && Chain(all)
      invariant i <= |s| && prevElement == all[i]
      invariant forall k :: 0 <= k < i ==> !Precedes(selectedElement.data, s[k].data)
      decreases |s| - i
    {
      assert i < |s| ==> all[i].next == all[i + 1] == s[i];
      if prevElement.next == null {
        break;
      }
      var tie: int := *;
      var diff := weights.CompareStrings(selectedElement.data, prevElement.next.data, tie);
      if diff < 0 {
        NotAfter(selectedElement.data, s[i].data);
        break;
      }
      prevElement := prevElement.next;
      i := i + 1;
    }
  }

  /** The three ways of linking in an element behind a node. */
  method LinkBehind(sortedList: Node, prevElement: Node, selectedElement: Node)
    requires selectedElement != prevElement && selectedElement.next == null
    modifies prevElement`next, selectedElement`next
    ensures prevElement.next == selectedElement && selectedElement.next == old(prevElement.next)
  {
    if prevElement.next == null {
      prevElement.next := selectedElement;
    } else {
      if sortedList == prevElement {
        selectedElement.next := sortedList.next;
        sortedList.next := selectedElement;
      } else {
        selectedElement.next := prevElement.next;
        prevElement.next := selectedElement;
      }
    }
  }

  /** What the insertion of x at place i makes of a sorted list. */
  lemma InsertedIs(sortedList: Node, s: seq<Node>, i: nat, x: Node)
    requires i <= |s| && Sorted(s)
    requires forall k :: 0 <= k < i ==> !Precedes(x.data, s[k].data)
    requires i < |s| ==> !Precedes(s[i].data, x.data)
    ensures var s' := Inserted(s, i, x);
            && [sortedList] + s' == Inserted([sortedList] + s, i + 1, x)
            && multiset(s') == multiset(s) + multiset{x} && Nodes(s') == Nodes(s) + {x} && Sorted(s')
  {
    InsertedKeepsSorted(s, i, x);
    InsertedMultiset(s, i, x);
  }

  /** One element moves into the sorted list. */
  method Insert(sortedList: Node, selectedElement: Node, weights: CharWeights, ghost s: seq<Node>)
    returns (ghost s': seq<Node>)
    requires Chain([sortedList] + s) && selectedElement !in Nodes(s) + {sortedList}
    requires selectedElement.next == null
    requires Sorted(s) && weights.Valid()
    modifies sortedList, Nodes(s), selectedElement, weights, weights.lookupTable
    ensures weights.Valid()
    ensures Chain([sortedList] + s')
    ensures multiset(s') == multiset(s) + multiset{selectedElement}
    ensures Nodes(s') == Nodes(s) + {selectedElement}
    ensures Sorted(s')
  {
    var prevElement, i := FindPlace(sortedList, selectedElement, weights, s);
    ghost var all := [sortedList] + s;
    assert Chain(all) && Nodes(all) == Nodes(s) + {sortedList};
    assert prevElement in Nodes(all);
    LinkBehind(sortedList, prevElement, selectedElement);
    ChainInserted(all, i, selectedElement);
    s' := Inserted(s, i, selectedElement);
    InsertedIs(sortedList, s, i, selectedElement);
  }

  /** The body of the outer loop: the first unsorted element moves to its place. */
  method MoveFirst(list: Node, sortedList: Node, selectedElement: Node, weights: CharWeights,
                   ghost rest: seq<Node>, ghost sorted: seq<Node>)
    returns (ghost rest': seq<Node>, ghost sorted': seq<Node>)
    requires weights.Valid() && Sorted(sorted)
    requires Chain([list] + rest) && Chain([sortedList] + sorted)
    requires Nodes(sorted) + {sortedList} !! Nodes(rest) + {list}
    requires list.next == selectedElement
    modifies list, sortedList, Nodes(rest), Nodes(sorted), weights, weights.lookupTable
    ensures weights.Valid() && Sorted(sorted')
    ensures Chain([list] + rest') && Chain([sortedList] + sorted')
    ensures multiset(sorted') + multiset(rest') == multiset(sorted) + multiset(rest)
    ensures Nodes(sorted') + Nodes(rest') == Nodes(sorted) + Nodes(rest)
    ensures Nodes(sorted') !! Nodes(rest') + {list}
    ensures |rest'| < |rest|
  {
    HeadLink(list, rest);
    assert Nodes([sortedList] + sorted) == Nodes(sorted) + {sortedList};
    rest' := UnlinkFirst(list, selectedElement, rest);
    assert Nodes([list] + rest') == Nodes(rest') + {list};
    sorted' := Insert(sortedList, selectedElement, weights, sorted);
  }

  lemma NotAfter(a: CString, b: CString)
    requires a != b ==> Precedes(a, b)
    ensures !Precedes(b, a)
  {
    if a != b {
      PrecedesIsTotal(a, b);
    }
  }
}
