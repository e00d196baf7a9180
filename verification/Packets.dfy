/**
 The receiver on whole packets: what it delivers, when that is right, and the state it
 is left in.
 */
module Packets {
  import opened Bytes
  import opened MoldFormat
  import opened Receiver
  import opened Delivery
  import opened DispatchSteps
  import opened PacketProof
  import opened Headers
  import opened Straddle
  import opened Unready
  import D = Dispatch

  function Last(ms: seq<Message>): Message
    requires ms != []
  {
    ms[|ms| - 1]
  }

  // ----- results -----

  lemma HeaderDelivers(o: seq<Output>, p: Packet, got: seq<Record>)
    requires HeaderOutputs(o, p)
    ensures Collect(got, o) == got + [Record(p.messages[0][..2], {FirstId(p)})]
    ensures BytesShown(o) == 2
  {
    hide Next, Outputs;
    assert o[1..][1..] == [o[2]];
    assert Deliver(got, o[0]) == got && Deliver(got, o[1]) == got;
    assert Driven(o[2].pipe.data, 2) == p.messages[0][..2];
    assert Collect(got, [o[2]]) == Deliver(got, o[2]);
    assert BytesShown([o[2]]) == 2;
    assert Collect(got, o[1..]) == Collect(got, [o[2]]) && BytesShown(o[1..]) == BytesShown([o[2]]);
  }

  /** The packet's first message is open, with two bytes. */
  function Open(got: seq<Record>, p: Packet): seq<Record>
    requires Deliverable(p)
  {
    got + [Record(p.messages[0][..2], {FirstId(p)})]
  }

  lemma FinishFirst(got: seq<Record>, p: Packet)
    requires Deliverable(p) && FirstView(p).Ok()
    ensures Finish(Open(got, p), FirstView(p), FirstId(p)) == got + Tagged(p.messages, FirstId(p))
    ensures Opened(Open(got, p), FirstView(p), FirstId(p))
  {
    var ms, id := p.messages, FirstId(p);
    ExtendNew(got, Record(ms[0][..2], {id}), ms[0][2..], id);
    assert ms[0][..2] + ms[0][2..] == ms[0] && {id} + {id} == {id};
    TaggedFirst(got, ms, id);
  }

  /** A packet's delivery, cut behind its header. */
  lemma CutDelivery(m: Regs, bs: seq<Beat>, p: Packet, got: seq<Record>)
      returns (m3: Regs, tail: seq<Beat>)
    requires CleanIdle(m) && Deliverable(p) && CarriesAll(bs, Encode(p))
    ensures |bs| > 3 && tail == bs[3..] && m3 == Run(m, bs[..3])
    ensures var v := FirstView(p);
            && Live(m3, v, FirstId(p)) && CarriesAll(tail, v.Unread())
            && v.Trusts(m3.dispatch.lenHeld, true) == HeldSuffices(HeldBehindHeader(m, p), p, true)
            && |v.Unread()| == |Encode(p)| - 24
            && Opened(Open(got, p), v, FirstId(p))
            && Finish(Open(got, p), v, FirstId(p)) == got + Tagged(p.messages, FirstId(p))
    ensures Collect(got, Shown(m, bs)) == Collect(Open(got, p), Shown(m3, tail))
  {
    hide Next, Outputs, Encode, CleanIdle, Live, Finish, Opened, HeldBehindHeader, HeldSuffices, View.Trusts;
    var head;
    m3, tail, head := CutHeader(m, bs, p);
    HeaderDelivers(head, p, got);
    CollectConcat(got, head, Shown(m3, tail));
    LiveOk(m3, FirstView(p), FirstId(p));
    FinishFirst(got, p);
  }

  lemma LiveOk(m: Regs, v: View, id: MessageId)
    requires Live(m, v, id)
    ensures v.Ok()
  {}

  /** The last message starts on the last beat, where start flags are masked. */
  predicate LosesLastStart(p: Packet)
    requires p.messages != []
  {
    OnLastBeat(Last(p.messages), |Encode(p)|)
  }

  lemma LosesLastStartView(p: Packet)
    requires Deliverable(p) && FirstView(p).Ok() && |FirstView(p).Unread()| == |Encode(p)| - 24
    ensures StartLost(FirstView(p)) == LosesLastStart(p)
  {
    hide Encode;
    var n := |Encode(p)|;
    if |p.messages| == 1 {
      OneMessageLength(p);
    } else {
      var l := Last(p.messages);
      assert l == Last(p.messages[1..]);
      assert (n - 24 - |l|) % 8 == (n - |l|) % 8;
    }
  }

  lemma OneMessageLength(p: Packet)
    requires p.Fits() && |p.messages| == 1
    ensures |Encode(p)| == 22 + |p.messages[0]|
  {
    EncodeFields(p);
    assert Blocks(p.messages) == Block(p.messages[0]) + Blocks([]);
  }

  /** The receiver is ready, the held length suffices, and the last start is not masked. */
  predicate Arrives(m: Regs, p: Packet)
    requires Deliverable(p)
  {
    CleanIdle(m) && HeldSuffices(HeldBehindHeader(m, p), p, true) && !LosesLastStart(p)
  }

  /**
   The receiver against the format.  Fed the packet's bytes, it delivers exactly the
   packet's messages, in order, each with its id, if and only if it was ready, the held
   length suffices, and the last message does not start on the last beat.
   */
  lemma DeliversPacket(m: Regs, bs: seq<Beat>, p: Packet, got: seq<Record>)
    requires Between(m) && Deliverable(p) && CarriesAll(bs, Encode(p))
    ensures Collect(got, Shown(m, bs)) == got + Tagged(p.messages, FirstId(p))
       <==> CleanIdle(m) && HeldSuffices(HeldBehindHeader(m, p), p, true) && !LosesLastStart(p)
  {
    hide Next, Outputs, HeldBehindHeader, HeldSuffices, View.Trusts;
    BusyOrReady(m);
    if CleanIdle(m) {
      var m3, tail := CutDelivery(m, bs, p, got);
      DrainDelivers(m3, tail, FirstView(p), FirstId(p), Open(got, p));
      LosesLastStartView(p);
    } else {
      BusyMisdelivers(m, bs, p, got);
      TaggedFirst(got, p.messages, FirstId(p));
    }
  }

  /** Without straddled messages, readiness and the last start are all that matters. */
  lemma DeliversUnstraddled(m: Regs, bs: seq<Beat>, p: Packet, got: seq<Record>)
    requires Between(m) && Deliverable(p) && Unstraddled(p) && CarriesAll(bs, Encode(p))
    ensures Collect(got, Shown(m, bs)) == got + Tagged(p.messages, FirstId(p)) <==> CleanIdle(m) && !LosesLastStart(p)
  {
    hide Next, Outputs, HeldBehindHeader, HeldSuffices;
    DeliversPacket(m, bs, p, got);
    UnstraddledSuffices(HeldBehindHeader(m, p), p, true);
  }

  /**
   The same against the recursive parser, on the bytes alone: any that parse to a data packet
   of messages of seven bytes or more.
   */
  lemma RefinesParser(m: Regs, bs: seq<Beat>, s: seq<Byte>, got: seq<Record>)
    requires Between(m) && CarriesAll(bs, s) && Parse(s).Some?
    requires var ms := Parse(s).value.messages; 1 <= |ms| < 0xFFFF && forall k | 0 <= k < |ms| :: |ms[k]| >= 7
    ensures var p := Parse(s).value;
            Deliverable(p) &&
            (Collect(got, Shown(m, bs)) == got + Tagged(p.messages, FirstId(p))
            <==> CleanIdle(m) && HeldSuffices(HeldBehindHeader(m, p), p, true) && !OnLastBeat(Last(p.messages), |s|))
  {
    hide Next, Outputs, HeldBehindHeader, HeldSuffices, CleanIdle, Parse, Encode;
    var p := Parse(s).value;
    ParseIffEncode(s, p);
    DeliversPacket(m, bs, p, got);
  }

  /** Once the length register has counted down, header beats leave the held length alone. */
  lemma HeldFromReset(m: Regs, p: Packet)
    requires Deliverable(p) && m.dispatch.msgLen == 0
    ensures HeldBehindHeader(m, p) == m.dispatch.lenHeld
  {}

  /** Message k of a packet carries the packet's sequence number plus k, modulo 2^64. */
  lemma {:induction false} TaggedAt(ms: seq<Message>, id: MessageId, k: nat)
    requires k < |ms| && id.seqNum < TWO_64
    ensures |Tagged(ms, id)| == |ms|
    ensures Tagged(ms, id)[k] == Record(ms[k], {MessageId(id.sid, (id.seqNum + k) % TWO_64)})
  {
    if |ms| == 1 {
      assert Tagged(ms[1..], Later(id, 1)) == [];
    } else {
      TaggedAt(ms[1..], Later(id, 1), if k == 0 then 0 else k - 1);
      if k > 0 { LaterTwice(id, 1, k - 1); }
    }
  }

  /** Every length taken from the mux is right. */
  predicate HeldRight(m: Regs, p: Packet)
    requires Deliverable(p)
  {
    HeldSuffices(HeldBehindHeader(m, p), p, false)
  }

  /** Every length taken from the mux is right, or as good as right. */
  predicate HeldEnough(m: Regs, p: Packet)
    requires Deliverable(p)
  {
    HeldSuffices(HeldBehindHeader(m, p), p, true)
  }

  lemma UnstraddledRight(m: Regs, p: Packet)
    requires Deliverable(p) && Unstraddled(p)
    ensures HeldRight(m, p)
  {
    hide HeldBehindHeader, HeldSuffices;
    UnstraddledSuffices(HeldBehindHeader(m, p), p, false);
  }

  lemma RightEnough(m: Regs, p: Packet)
    requires Deliverable(p) && HeldRight(m, p)
    ensures HeldEnough(m, p)
  {
    hide HeldBehindHeader;
    KeptWeaker(HeldBehindHeader(m, p), p.messages[1..], Onward(HEADER_LENGTH, p.messages[0]));
  }

  /** Exactly one state bit of dispatch is set: its own assertion. */
  predicate OneHot(r: D.Regs) {
    Count(r.invalid) + Count(r.msg) + Count(r.lenAlign) + Count(r.lenSplit) == 1
  }

  /**
   The receiver is ready for the next packet if and only if the last beat brought one to
   six bytes, or the last message was taken to be longer than it is.
   */
  lemma LeavesCleanIdle(m: Regs, bs: seq<Beat>, p: Packet)
    requires CleanIdle(m) && Deliverable(p) && HeldEnough(m, p) && CarriesAll(bs, Encode(p))
    ensures Between(Run(m, bs))
    ensures CleanIdle(Run(m, bs)) <==> 1 <= |Encode(p)| % 8 <= 6 || !HeldRight(m, p)
  {
    hide Next, Outputs, HeldRight, HeldEnough;
    var m' := PacketEnds(m, bs, p);
    if HeldRight(m, p) {
      EndedIdle(m', Later(FirstId(p), |p.messages|), |Encode(p)| - 24, |Encode(p)|);
    }
  }

  /** After a packet the one-hot assertion of dispatch holds in the same cases. */
  lemma LeavesOneHot(m: Regs, bs: seq<Beat>, p: Packet)
    requires CleanIdle(m) && Deliverable(p) && HeldEnough(m, p) && CarriesAll(bs, Encode(p))
    ensures OneHot(Run(m, bs).dispatch) <==> 1 <= |Encode(p)| % 8 <= 6 || !HeldRight(m, p)
  {
    hide Next, Outputs, HeldRight, HeldEnough;
    var m' := PacketEnds(m, bs, p);
    if HeldRight(m, p) {
      EndedIdle(m', Later(FirstId(p), |p.messages|), |Encode(p)| - 24, |Encode(p)|);
    }
  }

  lemma {:induction false} LastOnLast(bs: seq<Beat>, s: seq<Byte>)
    requires CarriesAll(bs, s)
    ensures forall k | 0 <= k < |bs| :: bs[k].valid && (bs[k].last <==> k == |bs| - 1)
    decreases |bs|
  {
    if s != [] {
      LastOnLast(bs[1..], Behind(s));
      assert |s| > D.BEAT ==> bs[1..] != [];
    }
  }

  /**
   The one-hot assertion on the machine around the dispatch module: it holds on every beat
   of a packet, and behind a packet whose held length suffices, from a state in which it held.
   */
  lemma OuterOnEveryBeat(m: Regs, bs: seq<Beat>, p: Packet, k: nat)
    requires CleanIdle(m) && OuterOneHot(m) && Deliverable(p) && CarriesAll(bs, Encode(p)) && k <= |bs|
    requires k == |bs| ==> HeldEnough(m, p)
    ensures OuterOneHot(Run(m, bs[..k]))
  {
    hide Next, Outputs, HeldRight, HeldEnough, Deliverable;
    LastOnLast(bs, Encode(p));
    if k < |bs| {
      OuterRun(m, bs[..k]);
    } else {
      var m' := PacketEnds(m, bs, p);
      assert bs[..k] == bs;
    }
  }

  /**
   Behind a packet the sequence number has advanced by its messages and the counter is
   spent; or, when the last message was taken to be longer than it is, both lack one, and
   the packet's length is a whole number of beats.
   */
  lemma PacketEnds(m: Regs, bs: seq<Beat>, p: Packet) returns (m': Regs)
    requires CleanIdle(m) && Deliverable(p) && HeldEnough(m, p) && CarriesAll(bs, Encode(p))
    ensures m' == Run(m, bs) && |Encode(p)| >= 24
    ensures HeldRight(m, p) ==> Ended(m', Later(FirstId(p), |p.messages|), |Encode(p)| - 24)
    ensures !HeldRight(m, p) ==> EndedShort(m', Later(FirstId(p), |p.messages| - 1)) && |Encode(p)| % 8 == 0
  {
    hide Next, Outputs, Ended, EndedShort, Live, Encode, CleanIdle, HeldBehindHeader, HeldSuffices, View.Trusts;
    var m3, tail, _ := CutHeader(m, bs, p);
    m' := Run(m3, tail);
    if HeldRight(m, p) {
      DrainEnds(m3, tail, FirstView(p), FirstId(p));
    } else {
      DrainEndsShort(m3, tail, FirstView(p), FirstId(p));
      assert (|Encode(p)| - 24) % 8 == |Encode(p)| % 8;
    }
  }

  lemma EndedIdle(m: Regs, id: MessageId, n: nat, total: nat)
    requires Ended(m, id, n) && n == total - 24
    ensures CleanIdle(m) <==> 1 <= total % 8 <= 6
    ensures OneHot(m.dispatch) <==> 1 <= total % 8 <= 6
    ensures m.seqNum == id.seqNum && m.msgCnt == 0 && !m.msg
  {
    assert total % 8 == n % 8;
  }

  /**
   The register invariant holds on every beat behind the header if and only if no
   seven-byte message has its length field across two beats.
   */
  lemma InvariantOfPacket(m: Regs, bs: seq<Beat>, p: Packet)
    requires CleanIdle(m) && Deliverable(p) && CarriesAll(bs, Encode(p))
    ensures |bs| > 3
    ensures AllBeatsHold(Run(m, bs[..3]), bs[3..]) <==> Unstraddled(p)
  {
    hide Next, Outputs;
    var m3, tail, _ := CutHeader(m, bs, p);
    if Unstraddled(p) {
      DrainHolds(m3, tail, FirstView(p), FirstId(p));
    } else {
      StraddleBreaks(m3, tail, FirstView(p), FirstId(p));
    }
  }

  /**
   The registers on every beat behind the header.  While a message is open, msgLen is the
   number of its unread bytes; otherwise the next length field starts with this beat, or
   one byte earlier with that byte held; and what is unread is the packet from byte
   24 + 8k on.
   */
  lemma RegistersOnEveryBeat(m: Regs, bs: seq<Beat>, p: Packet, k: nat) returns (v: View)
    requires CleanIdle(m) && Deliverable(p) && HeldRight(m, p) && CarriesAll(bs, Encode(p)) && 3 + k < |bs|
    ensures 24 + 8 * k < |Encode(p)| && v.Ok() && v.Unread() == Encode(p)[24 + 8 * k..]
    ensures v.Owed() <= |p.messages|
    ensures Live(Run(m, bs[..3 + k]), v, Later(FirstId(p), |p.messages| - v.Owed()))
  {
    hide Next, Outputs, Live, CleanIdle, HeldBehindHeader, HeldSuffices, View.Trusts, CarriesAll, Encode, Blocks;
    FirstUnread(p);
    FirstOwed(p);
    var m3, tail, _ := CutHeader(m, bs, p);
    v := LiveBehind(m3, tail, Encode(p), FirstView(p), FirstId(p), k);
    assert bs[..3 + k] == bs[..3] + tail[..k];
    RunConcat(m, bs[..3], tail[..k]);
  }

  lemma FirstOwed(p: Packet)
    requires Deliverable(p)
    ensures FirstView(p).Owed() == |p.messages|
  {}

  lemma LiveBehind(m3: Regs, tail: seq<Beat>, s: seq<Byte>, v: View, id: MessageId, k: nat) returns (v': View)
    requires Live(m3, v, id) && v.Trusts(m3.dispatch.lenHeld, false) && |s| > 24 && v.Unread() == s[24..]
    requires CarriesAll(tail, s[24..]) && k < |tail|
    ensures 24 + 8 * k < |s| && v'.Ok() && v'.Unread() == s[24 + 8 * k..] && v'.Owed() <= v.Owed()
    ensures Live(Run(m3, tail[..k]), v', Later(id, v.Owed() - v'.Owed()))
  {
    hide Next, Outputs, CarriesAll, View.Trusts, View.Unread;
    assert s[24..][0..] == s[24..];
    v' := DrainLive(m3, tail, s[24..], v, id, k);
    assert s[24..][8 * k..] == s[24 + 8 * k..];
  }

  /** The two outputs show as many bytes as the packet has message bytes. */
  lemma BytesOfPacket(m: Regs, bs: seq<Beat>, p: Packet)
    requires CleanIdle(m) && Deliverable(p) && HeldEnough(m, p) && CarriesAll(bs, Encode(p))
    ensures BytesShown(Shown(m, bs)) == |Encode(p)| - HEADER_LENGTH - 2 * |p.messages|
  {
    hide Next, Outputs, HeldBehindHeader, HeldSuffices, View.Trusts;
    var m3, tail, head := CutHeader(m, bs, p);
    if HeldRight(m, p) {
      DrainBytes(m3, tail, FirstView(p), FirstId(p));
    } else {
      DrainEndsShort(m3, tail, FirstView(p), FirstId(p));
    }
    HeaderDelivers(head, p, []);
    BytesShownConcat(head, Shown(m3, tail));
    BlocksLength(p.messages);
    EncodeFields(p);
  }

  lemma {:induction false} BytesShownConcat(a: seq<Output>, b: seq<Output>)
    ensures BytesShown(a + b) == BytesShown(a) + BytesShown(b)
    decreases a
  {
    if a == [] {
      assert a + b == b;
    } else {
      assert (a + b)[1..] == a[1..] + b;
      BytesShownConcat(a[1..], b);
    }
  }
}
