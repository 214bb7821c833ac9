/**
 The send queue and the retransmit queue of a socket: two circular intrusive
 lists whose nodes are the links of the queued buffers
 (src/transport/socket_impl.cc:11-108, socket_impl.h:265-273).

 `send` and `rtx` are the queues as sequences of buffers; every operation is
 proved to be the sequence operation of the same meaning.
 */
module SegmentQueues {
  import opened Machine
  import opened Segments
  import opened IntrusiveList

  /** The buffers a list of links is embedded in. */
  ghost function Owners(nodes: seq<ListHead>): (r: seq<Segment>)
    requires Owned(nodes)
    ensures |r| == |nodes|
  {
    seq(|nodes|, i requires 0 <= i < |nodes| => nodes[i].owner.value)
  }

  ghost predicate Owned(nodes: seq<ListHead>) {
    forall i :: 0 <= i < |nodes| ==> nodes[i].owner.Some?
  }

  /** The list operations of one turn of `RetransmitExtend`: unlink the front of
      one list and queue it on the other. */
  method MoveFront(node: ListHead, source: ListHead, target: ListHead, ghost s: seq<ListHead>, ghost t: seq<ListHead>)
    requires IsList(source, s) && IsList(target, t) && s != [] && node == s[0]
    requires Footprint(source, s) !! Footprint(target, t)
    modifies Footprint(source, s) + Footprint(target, t)
    ensures IsList(source, s[1..]) && IsList(target, t + [node])
    ensures Footprint(source, s[1..]) !! Footprint(target, t + [node])
    ensures Footprint(source, s[1..]) + Footprint(target, t + [node]) == Footprint(source, s) + Footprint(target, t)
  {
    assert node in Footprint(source, s);
    Remove(node, source, s, 0);
    assert Removed(s, 0) == s[1..];
    assert node !in s[1..];
    Append(node, target, t);
    assert Footprint(source, s[1..]) == Footprint(source, s) - {node};
    assert Footprint(target, t + [node]) == Footprint(target, t) + {node};
  }

  class Queues {
    const retransmitQueue: ListHead
    const sendQueue: ListHead
    ghost var rtxNodes: seq<ListHead>
    ghost var sendNodes: seq<ListHead>

    /** The buffers on the retransmit queue and on the send queue, in order. */
    ghost var rtx: seq<Segment>
    ghost var send: seq<Segment>
    /** Every link in use, the sentinels included. */
    ghost var links: set<ListHead>

    ghost predicate Valid()
      reads this, links
      ensures Valid() ==> |rtx| == |rtxNodes| && |send| == |sendNodes|
    {
      && links == Footprint(retransmitQueue, rtxNodes) + Footprint(sendQueue, sendNodes)
      && Footprint(retransmitQueue, rtxNodes) !! Footprint(sendQueue, sendNodes)
      && IsList(retransmitQueue, rtxNodes) && IsList(sendQueue, sendNodes)
      && Owned(rtxNodes) && rtx == Owners(rtxNodes)
      && Owned(sendNodes) && send == Owners(sendNodes)
    }

    constructor ()
      ensures Valid() && fresh(links) && rtx == [] && send == []
    {
      var r := new ListHead(None);
      var s := new ListHead(None);
      retransmitQueue, sendQueue := r, s;
      rtxNodes, sendNodes, rtx, send := [], [], [], [];
      links := {r, s};
      new;
      Init(retransmitQueue);
      Init(sendQueue);
    }

    /** Where a scan of the send queue starts; the sentinel when it is empty. */
    method FirstToSend() returns (node: ListHead)
      requires Valid()
      ensures node == At(sendQueue, sendNodes, 0)
      ensures node == sendQueue <==> send == []
    {
      assert At(sendQueue, sendNodes, -1).next == At(sendQueue, sendNodes, 0);
      node := sendQueue.next;
    }

    /** Where a scan of the retransmit queue starts. */
    method FirstUnacked() returns (node: ListHead)
      requires Valid()
      ensures node == At(retransmitQueue, rtxNodes, 0)
      ensures node == retransmitQueue <==> rtx == []
    {
      assert At(retransmitQueue, rtxNodes, -1).next == At(retransmitQueue, rtxNodes, 0);
      node := retransmitQueue.next;
    }

    /** The next link of a scan of the retransmit queue. */
    method NextUnacked(node: ListHead, ghost i: nat) returns (next: ListHead)
      requires Valid() && i < |rtx| && node == At(retransmitQueue, rtxNodes, i)
      ensures next == At(retransmitQueue, rtxNodes, i + 1)
      ensures next == retransmitQueue <==> i + 1 == |rtx|
    {
      assert At(retransmitQueue, rtxNodes, i).next == At(retransmitQueue, rtxNodes, i + 1);
      next := node.next;
    }

    /** `container_of` on the front link of the send queue. */
    method HeadToSend(node: ListHead) returns (buffer: Segment)
      requires Valid() && send != [] && node == At(sendQueue, sendNodes, 0)
      ensures buffer == send[0]
    {
      buffer := node.owner.value;
    }

    /** `container_of` on a link of the retransmit queue. */
    method Unacked(node: ListHead, ghost i: nat) returns (buffer: Segment)
      requires Valid() && i < |rtx| && node == At(retransmitQueue, rtxNodes, i)
      ensures buffer == rtx[i]
    {
      buffer := node.owner.value;
    }

    /** `TxEnqueue`, before it extends. */
    method TxEnqueue(buffer: Segment)
      requires Valid()
      modifies this, links
      ensures Valid() && fresh(links - old(links))
      ensures send == old(send) + [buffer] && rtx == old(rtx)
    {
      var node := new ListHead(Some(buffer));
      Append(node, sendQueue, sendNodes);
      sendNodes, send, links := sendNodes + [node], send + [buffer], links + {node};
    }

    /** Lines 43 to 46 of `RetransmitExtend`: remember the next link, unlink this
        one and queue it for retransmission. */
    method MoveHead(node: ListHead) returns (next: ListHead)
      requires Valid() && send != [] && node == At(sendQueue, sendNodes, 0)
      modifies this, links
      ensures Valid() && links == old(links)
      ensures send == old(send)[1..] && rtx == old(rtx) + [old(send)[0]]
      ensures rtx + send == old(rtx + send)
      ensures next == At(sendQueue, sendNodes, 0) && (next == sendQueue <==> send == [])
    {
      assert At(sendQueue, sendNodes, 0).next == At(sendQueue, sendNodes, 1);
      next := node.next;
      MoveFront(node, sendQueue, retransmitQueue, sendNodes, rtxNodes);
      hide IsList;
      rtxNodes, sendNodes := rtxNodes + [node], sendNodes[1..];
      rtx, send := rtx + [send[0]], send[1..];
    }

    /** `RtxDequeue`. */
    method RtxDequeue()
      requires Valid()
      modifies this, links
      ensures Valid() && links <= old(links)
      ensures rtx == (if old(rtx) == [] then [] else old(rtx)[1..]) && send == old(send)
      ensures old(rtx) != [] ==> rtxNodes == old(rtxNodes)[1..]
    {
      var empty := Empty(retransmitQueue, rtxNodes);
      if !empty {
        assert At(retransmitQueue, rtxNodes, -1).next == At(retransmitQueue, rtxNodes, 0);
        var head := retransmitQueue.next;
        Remove(head, retransmitQueue, rtxNodes, 0);
        hide IsList;
        assert Removed(rtxNodes, 0) == rtxNodes[1..];
        rtxNodes, rtx := rtxNodes[1..], rtx[1..];
        links := Footprint(retransmitQueue, rtxNodes) + Footprint(sendQueue, sendNodes);
      }
    }

    /** Lines 80 to 82 of `RetransmitShrink`: remember the next link and drop
        this one. */
    method DropFront(node: ListHead) returns (next: ListHead)
      requires Valid() && rtx != [] && node == At(retransmitQueue, rtxNodes, 0)
      modifies this, links
      ensures Valid() && links <= old(links)
      ensures rtx == old(rtx)[1..] && send == old(send)
      ensures next == At(retransmitQueue, rtxNodes, 0) && (next == retransmitQueue <==> rtx == [])
    {
      assert At(retransmitQueue, rtxNodes, 0).next == At(retransmitQueue, rtxNodes, 1);
      next := node.next;
      RtxDequeue();
    }
  }
}
