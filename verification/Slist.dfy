/** The pointer-linked queue of tb_itch.h and the message FIFO of tb_itch.c on top of it. */
module Slist {
  import opened Bytes

  /** What a queue element stands for: a message and the id it must come out with. */
  datatype Entry = Entry(debugId: seq<Byte>, message: seq<Byte>)

  /** An element, with the list node that is embedded in it. */
  class Node {
    var next: Node?
    const entry: Entry

    constructor (entry: Entry)
      ensures this.entry == entry && next == null
    {
      this.entry := entry;
      next := null;
    }
  }

  predicate Distinct(s: seq<Node>) {
    forall i, j | 0 <= i < j < |s| :: s[i] != s[j]
  }

  function EntriesOf(s: seq<Node>): (e: seq<Entry>)
    ensures |e| == |s| && forall k | 0 <= k < |s| :: e[k] == s[k].entry
  {
    seq(|s|, k requires 0 <= k < |s| => s[k].entry)
  }

  class Head {
    var write: Node?
    var read: Node?
    /** The elements not pulled yet, oldest first. */
    ghost var nodes: seq<Node>

    /** The chain from read to write is exactly nodes, each of them once. */
    ghost predicate Valid()
      reads this, nodes
    {
      && Distinct(nodes)
      && (nodes == [] ==> read == null && write == null)
      && (nodes != [] ==> read == nodes[0] && write == nodes[|nodes| - 1] && nodes[|nodes| - 1].next == null)
      && (forall k {:trigger nodes[k].next} | 0 <= k < |nodes| - 1 :: nodes[k].next == nodes[k + 1])
    }

    ghost function Entries(): seq<Entry>
      reads this
    {
      EntriesOf(nodes)
    }

    /** slisth_init */
    constructor ()
      ensures Valid() && nodes == []
    {
      read, write, nodes := null, null, [];
    }

    /** slisth_push */
    method Push(a: Node)
      requires Valid() && a !in nodes
      modifies this, nodes, a
      ensures Valid() && nodes == old(nodes) + [a]
    {
      assert (read == null) == (write == null);
      if write != null {
        write.next := a;
      }
      a.next := null;
      write := a;
      if read == null {
        read := a;
      }
      nodes := nodes + [a];
    }

    /** slisth_pull: the oldest element, unlinked, or null from an empty queue. */
    method Pull() returns (a: Node?)
      requires Valid()
      modifies this, nodes
      ensures Valid()
      ensures if old(nodes) == [] then a == null && nodes == []
              else a == old(nodes)[0] && nodes == old(nodes)[1..] && a.next == null
    {
      assert (read == null) == (write == null);
      a := read;
      if a == null {
        return;
      }
      assert |nodes| == 1 <==> a.next == null by {
        if |nodes| > 1 { assert nodes[0].next == nodes[1]; }
      }
      read := a.next;
      if read == null {
        write := null;
      }
      a.next := null;
      nodes := nodes[1..];
    }

    /**
     slisth_unpull: a becomes the next element to be pulled.  On an empty queue the write
     pointer stays null, so the queue is left broken.
     */
    method Unpull(a: Node)
      requires Valid() && a !in nodes
      modifies this, a
      ensures nodes == [a] + old(nodes) && read == a && write == old(write) && a.next == old(read)
      ensures Valid() <==> old(nodes) != []
    {
      a.next := read;
      read := a;
      if write == null {
        read := a;
      }
      nodes := [a] + nodes;
    }

    /** tb_itch_fifo_push: an element of its own for the message. */
    method FifoPush(message: seq<Byte>, debugId: seq<Byte>) returns (ghost node: Node)
      requires Valid()
      modifies this, nodes
      ensures Valid() && fresh(node) && nodes == old(nodes) + [node]
      ensures Entries() == old(Entries()) + [Entry(debugId, message)]
    {
      var elem := new Node(Entry(debugId, message));
      Push(elem);
      node := elem;
    }

    /** tb_itch_fifo_pop: None stands for the null of an empty queue. */
    method FifoPop() returns (found: bool, message: seq<Byte>, debugId: seq<Byte>)
      requires Valid()
      modifies this, nodes
      ensures Valid() && found == (old(nodes) != [])
      ensures found ==> Entry(debugId, message) == old(Entries())[0] && Entries() == old(Entries())[1..]
      ensures nodes == if found then old(nodes)[1..] else []
    {
      var nod := Pull();
      if nod == null {
        return false, [], [];
      }
      return true, nod.entry.message, nod.entry.debugId;
    }

    /** tb_itch_fifo_free: the elements released, in order. */
    method FifoFree() returns (freed: seq<Node>)
      requires Valid()
      modifies this, nodes
      ensures Valid() && nodes == [] && freed == old(nodes) && Distinct(freed)
    {
      freed := [];
      var nod := Pull();
      while nod != null
        invariant Valid()
        invariant |freed| <= |old(nodes)| && freed == old(nodes)[..|freed|]
        invariant nod == null ==> |freed| == |old(nodes)| && nodes == []
        invariant nod != null ==>
          |freed| < |old(nodes)| && nod == old(nodes)[|freed|] && nodes == old(nodes)[|freed| + 1..]
        decreases |old(nodes)| - |freed|
      {
        freed := freed + [nod];
        nod := Pull();
      }
    }
  }

  // ----- any sequence of operations -----

  datatype Op = PushOp(entry: Entry) | PullOp

  /** The queue as a sequence. */
  function After(q: seq<Entry>, ops: seq<Op>): seq<Entry>
    decreases |ops|
  {
    if ops == [] then q
    else match ops[0]
      case PushOp(e) => After(q + [e], ops[1..])
      case PullOp => After(if q == [] then q else q[1..], ops[1..])
  }

  function Pulled(q: seq<Entry>, ops: seq<Op>): seq<Entry>
    decreases |ops|
  {
    if ops == [] then []
    else match ops[0]
      case PushOp(e) => Pulled(q + [e], ops[1..])
      case PullOp => (if q == [] then [] else [q[0]]) + Pulled(if q == [] then q else q[1..], ops[1..])
  }

  function Pushed(ops: seq<Op>): seq<Entry> {
    if ops == [] then [] else (if ops[0].PushOp? then [ops[0].entry] else []) + Pushed(ops[1..])
  }

  /** Nothing is lost, repeated or reordered, whatever the operations. */
  lemma {:induction false} FifoOrder(q: seq<Entry>, ops: seq<Op>)
    ensures Pulled(q, ops) + After(q, ops) == q + Pushed(ops)
    decreases |ops|
  {
    if ops != [] {
      match ops[0]
      case PushOp(e) =>
        FifoOrder(q + [e], ops[1..]);
        assert q + [e] + Pushed(ops[1..]) == q + ([e] + Pushed(ops[1..]));
      case PullOp =>
        var q' := if q == [] then q else q[1..];
        var first := if q == [] then [] else [q[0]];
        FifoOrder(q', ops[1..]);
        assert q == first + q';
        assert first + Pulled(q', ops[1..]) + After(q', ops[1..])
            == first + (Pulled(q', ops[1..]) + After(q', ops[1..]));
    }
  }

  /** The pointer-linked queue does what the sequence does, for any operations. */
  method Perform(h: Head, ops: seq<Op>) returns (out: seq<Entry>)
    requires h.Valid()
    modifies h, h.nodes
    ensures h.Valid()
    ensures h.Entries() == After(old(h.Entries()), ops)
    ensures out == Pulled(old(h.Entries()), ops)
    decreases |ops|
  {
    if ops == [] {
      return [];
    }
    match ops[0] {
      case PushOp(e) =>
        ghost var node := h.FifoPush(e.message, e.debugId);
        out := Perform(h, ops[1..]);
      case PullOp =>
        var found, m, id := h.FifoPop();
        assert h.Entries() == if old(h.Entries()) == [] then [] else old(h.Entries())[1..];
        out := Perform(h, ops[1..]);
        if found {
          out := [Entry(id, m)] + out;
        }
    }
  }
}
