/**
 How a consumer of the receiver's outputs puts messages together: a message begins at
 each start flag and at each overlap chunk; other valid beats continue the open one.
 */
module Delivery {
  import opened Bytes
  import opened Receiver

  /** A message as delivered, with the ids seen on its primary beats. */
  datatype Record = Record(bytes: seq<Byte>, ids: set<MessageId>)

  /** The len bytes that are taken; those that are not driven are taken too, as zeros. */
  function Driven(data: seq<Byte>, len: nat): (s: seq<Byte>)
    ensures |s| == len
  {
    if len <= |data| then data[..len] else data + seq(len - |data|, _ => 0)
  }

  function Extend(got: seq<Record>, bytes: seq<Byte>, id: MessageId): seq<Record> {
    if got == [] then got
    else
      var open := got[|got| - 1];
      got[..|got| - 1] + [Record(open.bytes + bytes, open.ids + {id})]
  }

  function DeliverPrimary(got: seq<Record>, o: Output): seq<Record> {
    if !o.pipe.valid then got
    else if o.pipe.start then got + [Record(Driven(o.pipe.data, o.pipe.len), {o.id})]
    else Extend(got, Driven(o.pipe.data, o.pipe.len), o.id)
  }

  function Deliver(got: seq<Record>, o: Output): seq<Record> {
    var g := DeliverPrimary(got, o);
    if o.pipe.ovValid then g + [Record(Driven(o.pipe.ovData, o.pipe.ovLen), {})] else g
  }

  function Collect(got: seq<Record>, outs: seq<Output>): seq<Record>
    decreases outs
  {
    if outs == [] then got else Collect(Deliver(got, outs[0]), outs[1..])
  }

  lemma {:induction false} CollectConcat(got: seq<Record>, a: seq<Output>, b: seq<Output>)
    ensures Collect(got, a + b) == Collect(Collect(got, a), b)
    decreases a
  {
    if a == [] {
      assert a + b == b;
    } else {
      assert (a + b)[1..] == a[1..] + b;
      CollectConcat(Deliver(got, a[0]), a[1..], b);
    }
  }

  /** Message bytes shown on both outputs. */
  function BytesShown(outs: seq<Output>): nat {
    if outs == [] then 0
    else
      var o := outs[0].pipe;
      (if o.valid then o.len else 0) + (if o.ovValid then o.ovLen else 0) + BytesShown(outs[1..])
  }

  // ----- runs of the receiver -----

  function Run(m: Regs, bs: seq<Beat>): Regs
    decreases bs
  {
    if bs == [] then m else Run(Next(m, bs[0]), bs[1..])
  }

  function Shown(m: Regs, bs: seq<Beat>): seq<Output>
    decreases bs
  {
    if bs == [] then [] else [Outputs(m, bs[0])] + Shown(Next(m, bs[0]), bs[1..])
  }

  lemma {:induction false} RunConcat(m: Regs, a: seq<Beat>, b: seq<Beat>)
    ensures Run(m, a + b) == Run(Run(m, a), b)
    ensures Shown(m, a + b) == Shown(m, a) + Shown(Run(m, a), b)
    decreases a
  {
    hide Next, Outputs;
    if a == [] {
      assert a + b == b;
    } else {
      assert (a + b)[1..] == a[1..] + b;
      RunConcat(Next(m, a[0]), a[1..], b);
    }
  }

  /** Delivery of one run behind another. */
  lemma DeliveryConcat(m: Regs, a: seq<Beat>, b: seq<Beat>, got: seq<Record>)
    ensures Run(m, a + b) == Run(Run(m, a), b)
    ensures Collect(got, Shown(m, a + b)) == Collect(Collect(got, Shown(m, a)), Shown(Run(m, a), b))
  {
    RunConcat(m, a, b);
    CollectConcat(got, Shown(m, a), Shown(Run(m, a), b));
  }
}
