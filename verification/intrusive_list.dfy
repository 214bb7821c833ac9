/**
 Circular doubly linked lists whose links are embedded in the elements:
 src/common/intrusive.h.

 A list is a sentinel `head` and the sequence of nodes reached from it.  A
 node's `owner` is the structure its link is embedded in; a sentinel has none.
 */
module IntrusiveList {
  import opened Machine
  import opened Segments

  class ListHead {
    var prev: ListHead?
    var next: ListHead?
    const owner: Option<Segment>

    /** A link not yet on any list. */
    constructor (owner: Option<Segment>)
      ensures this.owner == owner && prev == null && next == null
    {
      this.owner := owner;
      prev, next := null, null;
    }
  }

  /** The element at position `i` of the circle, the sentinel being both -1 and
      the length. */
  ghost function At(head: ListHead, nodes: seq<ListHead>, i: int): ListHead
    requires -1 <= i <= |nodes|
  {
    if 0 <= i < |nodes| then nodes[i] else head
  }

  ghost predicate Distinct(head: ListHead, nodes: seq<ListHead>) {
    && head !in nodes
    && forall i, j :: 0 <= i < j < |nodes| ==> nodes[i] != nodes[j]
  }

  /** `next` from every element and back by `prev`. */
  ghost predicate IsList(head: ListHead, nodes: seq<ListHead>)
    reads head, nodes
  {
    && Distinct(head, nodes)
    && forall i :: -1 <= i < |nodes| ==>
         At(head, nodes, i).next == At(head, nodes, i + 1) && At(head, nodes, i + 1).prev == At(head, nodes, i)
  }

  ghost function Footprint(head: ListHead, nodes: seq<ListHead>): set<ListHead> {
    {head} + set n | n in nodes
  }

  /** Two elements are the same only at the same place of the circle. */
  lemma AtDistinct(head: ListHead, nodes: seq<ListHead>, i: int, j: int)
    requires Distinct(head, nodes) && -1 <= i < |nodes| && -1 <= j < |nodes| && i != j
    ensures At(head, nodes, i) != At(head, nodes, j)
  {
  }

  method Empty(list: ListHead, ghost nodes: seq<ListHead>) returns (r: bool)
    requires IsList(list, nodes)
    ensures r <==> nodes == []
  {
    assert list.next == At(list, nodes, 0) by { assert At(list, nodes, -1) == list; }
    r := list.next == list;
  }

  /** A fresh sentinel points at itself. */
  method Init(list: ListHead)
    modifies list
    ensures IsList(list, [])
  {
    list.prev, list.next := list, list;
  }

  method InsertImpl(node: ListHead, prev: ListHead, next: ListHead)
    requires node != prev && node != next
    modifies node, prev, next
    ensures node.prev == prev && node.next == next && prev.next == node && next.prev == node
    ensures prev != next ==> prev.prev == old(prev.prev) && next.next == old(next.next)
  {
    node.prev := prev;
    node.next := next;
    prev.next := node;
    next.prev := node;
  }

  ghost function Inserted(nodes: seq<ListHead>, k: nat, node: ListHead): seq<ListHead>
    requires k <= |nodes|
  {
    nodes[..k] + [node] + nodes[k..]
  }

  ghost function Removed(nodes: seq<ListHead>, k: nat): seq<ListHead>
    requires k < |nodes|
  {
    nodes[..k] + nodes[k + 1..]
  }

  /** Links a new node between positions `k - 1` and `k` of the circle. */
  method InsertBetween(node: ListHead, ghost head: ListHead, ghost nodes: seq<ListHead>, ghost k: nat,
                       prev: ListHead, next: ListHead)
    requires IsList(head, nodes) && node != head && node !in nodes
    requires k <= |nodes| && prev == At(head, nodes, k - 1) && next == At(head, nodes, k)
    modifies node, prev, next
    ensures IsList(head, Inserted(nodes, k, node))
  {
    InsertImpl(node, prev, next);
    ghost var after := Inserted(nodes, k, node);
    if nodes != [] {
      AtDistinct(head, nodes, k - 1, if k == |nodes| then -1 else k);
    }
    forall i | -1 <= i < |after|
      ensures At(head, after, i).next == At(head, after, i + 1) && At(head, after, i + 1).prev == At(head, after, i)
    {
      if i < k - 1 {
        AtDistinct(head, nodes, i, k - 1);
        assert At(head, after, i) == At(head, nodes, i) && At(head, after, i + 1) == At(head, nodes, i + 1);
        assert old(At(head, nodes, i).next) == At(head, nodes, i + 1);
        assert old(At(head, nodes, i + 1).prev) == At(head, nodes, i);
        if k < |nodes| { AtDistinct(head, nodes, i + 1, k); }
      } else if i > k {
        assert At(head, after, i) == At(head, nodes, i - 1) && At(head, after, i + 1) == At(head, nodes, i);
        assert old(At(head, nodes, i - 1).next) == At(head, nodes, i);
        assert old(At(head, nodes, i).prev) == At(head, nodes, i - 1);
        AtDistinct(head, nodes, i - 1, k - 1);
        if i < |nodes| { AtDistinct(head, nodes, i, k); } else { AtDistinct(head, nodes, -1, k); }
      }
    }
  }

  /** `list_insert_after`: behind the element at position `k`. */
  method InsertAfter(node: ListHead, next: ListHead, ghost head: ListHead, ghost nodes: seq<ListHead>, ghost k: int)
    requires IsList(head, nodes) && node != head && node !in nodes
    requires -1 <= k < |nodes| && next == At(head, nodes, k)
    modifies node, Footprint(head, nodes)
    ensures IsList(head, Inserted(nodes, k + 1, node))
  {
    assert next.next == At(head, nodes, k + 1);
    InsertBetween(node, head, nodes, k + 1, next, next.next);
  }

  /** `list_insert_before`: in front of the element at position `k`. */
  method InsertBefore(node: ListHead, prev: ListHead, ghost head: ListHead, ghost nodes: seq<ListHead>, ghost k: nat)
    requires IsList(head, nodes) && node != head && node !in nodes
    requires k <= |nodes| && prev == At(head, nodes, k)
    modifies node, Footprint(head, nodes)
    ensures IsList(head, Inserted(nodes, k, node))
  {
    assert At(head, nodes, k - 1 + 1).prev == At(head, nodes, k - 1);
    InsertBetween(node, head, nodes, k, prev.prev, prev);
  }

  /** `list_insert`: at the front of a list. */
  method Insert(list: ListHead, node: ListHead, ghost nodes: seq<ListHead>)
    requires IsList(list, nodes) && node != list && node !in nodes
    modifies node, Footprint(list, nodes)
    ensures IsList(list, [node] + nodes)
  {
    assert At(list, nodes, -1).next == At(list, nodes, 0);
    InsertBetween(node, list, nodes, 0, list, list.next);
    assert Inserted(nodes, 0, node) == [node] + nodes;
  }

  /** How the socket queues: behind the last element. */
  method Append(node: ListHead, list: ListHead, ghost nodes: seq<ListHead>)
    requires IsList(list, nodes) && node != list && node !in nodes
    modifies node, Footprint(list, nodes)
    ensures IsList(list, nodes + [node])
  {
    assert At(list, nodes, |nodes| - 1 + 1).prev == At(list, nodes, |nodes| - 1);
    InsertAfter(node, list.prev, list, nodes, |nodes| - 1);
    assert Inserted(nodes, |nodes|, node) == nodes + [node];
  }

  /** `list_remove`: unlinks exactly the node at position `k`, whose own links
      stay as they were. */
  method Remove(node: ListHead, ghost head: ListHead, ghost nodes: seq<ListHead>, ghost k: nat)
    requires IsList(head, nodes) && k < |nodes| && nodes[k] == node
    modifies Footprint(head, nodes) - {node}
    ensures IsList(head, Removed(nodes, k))
  {
    assert At(head, nodes, k) == node;
    assert At(head, nodes, k - 1 + 1).prev == At(head, nodes, k - 1);
    assert At(head, nodes, k).next == At(head, nodes, k + 1);
    AtDistinct(head, nodes, k - 1, k);
    if k + 1 < |nodes| { AtDistinct(head, nodes, k, k + 1); } else { AtDistinct(head, nodes, -1, k); }
    var prev, next := node.prev, node.next;
    prev.next := next;
    next.prev := prev;
    ghost var after := Removed(nodes, k);
    forall i | -1 <= i < |after|
      ensures At(head, after, i).next == At(head, after, i + 1) && At(head, after, i + 1).prev == At(head, after, i)
    {
      if i < k - 1 {
        AtDistinct(head, nodes, i, k - 1);
        assert At(head, after, i) == At(head, nodes, i) && At(head, after, i + 1) == At(head, nodes, i + 1);
        assert old(At(head, nodes, i).next) == At(head, nodes, i + 1);
        assert old(At(head, nodes, i + 1).prev) == At(head, nodes, i);
        if k + 1 < |nodes| { AtDistinct(head, nodes, i + 1, k + 1); }
      } else if i >= k {
        assert At(head, after, i) == At(head, nodes, i + 1) && At(head, after, i + 1) == At(head, nodes, i + 2);
        assert old(At(head, nodes, i + 1).next) == At(head, nodes, i + 2);
        assert old(At(head, nodes, i + 2).prev) == At(head, nodes, i + 1);
        AtDistinct(head, nodes, i + 1, k - 1);
        if i + 2 < |nodes| { AtDistinct(head, nodes, i + 2, k + 1); } else { AtDistinct(head, nodes, -1, k + 1); }
      }
    }
  }
}
