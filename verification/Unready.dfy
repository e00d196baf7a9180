/**
 A packet that comes while the dispatch module is not ready, as it is left behind a packet
 whose last beat brought seven or eight bytes: its first message comes out too long.
 */
module Unready {
  import opened Bytes
  import opened MoldFormat
  import opened Receiver
  import opened Delivery
  import opened DispatchSteps
  import opened PacketProof
  import opened Headers
  import opened Straddle
  import D = Dispatch

  /** Nothing is shown, but the state machine is not waiting. */
  predicate Busy(r: D.Regs) {
    r.invalid && (r.msg || r.lenAlign || r.lenSplit)
  }

  lemma BusyOrReady(m: Regs)
    requires Between(m)
    ensures CleanIdle(m) <==> !Busy(m.dispatch)
  {}

  /** Without a last beat, that stays so. */
  lemma GatesBusy(r: D.Regs, i: D.Input)
    requires Busy(r) && !i.init && !i.last
    ensures Busy(D.Next(r, i))
    ensures !D.Outputs(r, i).valid && !D.Outputs(r, i).ovValid
  {}

  // ----- the length that is loaded, or-ed with others -----

  predicate PowerOfTwo(n: nat) {
    n == 1 || (n > 0 && n % 2 == 0 && PowerOfTwo(n / 2))
  }

  lemma {:induction false} OrBitsBound(a: nat, b: nat, limit: nat)
    requires a < limit && b < limit && PowerOfTwo(limit)
    ensures a <= D.OrBits(a, b) < limit
    decreases a + b
  {
    if a != 0 || b != 0 { OrBitsBound(a / 2, b / 2, limit / 2); }
  }

  lemma OrAbove(a: Word, b: Word)
    ensures D.Or(a, b) >= a
  {
    assert PowerOfTwo(0x1_0000);
    OrBitsBound(a, b, 0x1_0000);
  }

  lemma InitLenAbove(r: D.Regs, i: D.Input)
    requires i.init
    ensures D.InitLen(r, i) >= D.Sub16(D.Pair(i.data[4], i.data[5]), 2)
  {
    hide D.Or, D.Pair;
    OrAbove(D.Sub16(D.Pair(i.data[4], i.data[5]), 2),
      D.Or(D.Mask(r.msg && D.LenAlignEnd(r), D.Pair(i.data[6], i.data[7])),
      D.Or(D.Mask(r.msg && D.PloadOverlap(r, i), D.InitOverlapLen(r, i)),
      D.Or(D.Mask(r.lenAlign, D.Sub16(D.Pair(i.data[0], i.data[1]), 6)),
           D.Mask(r.lenSplit, D.Sub16(D.Pair(r.splitHalf, i.data[0]), 7))))));
  }

  /** The third header beat: at least six bytes are shown where two are. */
  lemma GatesBusyInit(r: D.Regs, i: D.Input)
    requires Busy(r) && i.init && i.valid && !i.last
    ensures InBody(D.Next(r, i), D.InitLen(r, i)) && !D.Next(r, i).alignEnd
    ensures var o := D.Outputs(r, i); o.valid && o.start && !o.ovValid && o.len >= 6
  {
    hide D.InitLen;
  }

  /** What the header beats show, and the state that they leave. */
  predicate BusyHeader(m3: Regs, o: seq<Output>, n: nat) {
    && Misread(m3, n, MessageId(m3.sid, m3.seqNum)) && n < 0x1_0000
    && |o| == 3 && ShowsNothing(o[0]) && ShowsNothing(o[1])
    && o[2].pipe.valid && o[2].pipe.start && !o[2].pipe.ovValid && o[2].pipe.len >= 6
  }

  lemma ThreeBusy(m: Regs, bs: seq<Beat>) returns (n: nat)
    requires Between(m) && Busy(m.dispatch) && Three(bs) && BigEndian(bs[2].data[2..4]) > 0
    requires AfterH2(Run(m, bs), bs[0].data, bs[1].data, bs[2].data) ==> Run(m, bs).seqNum < TWO_64
    ensures BusyHeader(Run(m, bs), Shown(m, bs), n)
    ensures n >= D.Sub16(D.Pair(bs[2].data[4], bs[2].data[5]), 2)
  {
    hide D.Next, D.Outputs, D.InitLen, D.Sub16, D.Pair;
    var m1, m2 := ThreeOuter(m, bs);
    GatesBusy(m.dispatch, ToDispatch(m, bs[0]));
    GatesBusy(m1.dispatch, ToDispatch(m1, bs[1]));
    GatesBusyInit(m2.dispatch, ToDispatch(m2, bs[2]));
    InitLenAbove(m2.dispatch, ToDispatch(m2, bs[2]));
    n := D.InitLen(m2.dispatch, ToDispatch(m2, bs[2]));
  }

  lemma BusyDelivers(m3: Regs, o: seq<Output>, n: nat, got: seq<Record>)
    requires BusyHeader(m3, o, n)
    ensures var g := Collect(got, o); |g| == |got| + 1 && g[..|got|] == got && |g[|got|].bytes| >= 6
  {
    hide Misread;
    assert o[1..][1..] == [o[2]];
    assert Deliver(got, o[0]) == got && Deliver(got, o[1]) == got;
    assert Collect(got, [o[2]]) == Deliver(got, o[2]);
    assert Collect(got, o[1..]) == Collect(got, [o[2]]);
  }

  /** Some message is longer than the packet's first one, at its place behind got. */
  predicate TooLong(all: seq<Record>, place: nat, m: Message) {
    place < |all| && |all[place].bytes| > |m|
  }

  /** What the header beats of such a packet show, and the rest. */
  lemma BusyOpens(m: Regs, bs: seq<Beat>, p: Packet, got: seq<Record>) returns (open: seq<Record>, outs: seq<Output>)
    requires Between(m) && Busy(m.dispatch) && Deliverable(p) && CarriesAll(bs, Encode(p))
    ensures |open| == |got| + 1 && open[..|got|] == got
    ensures Collect(got, Shown(m, bs)) == Collect(open, outs)
    ensures |Collect(open, outs)| > |got| && |Collect(open, outs)[|got|].bytes| > |p.messages[0]|
  {
    hide Next, Outputs, Misread, CarriesAll, Encode, Runs;
    FirstUnread(p);
    ThreeBeats(bs, Encode(p));
    var h, tail, s := bs[..3], bs[3..], Encode(p)[24..];
    BusyFields(m, h, p);
    var n := ThreeBusy(m, h);
    var m3 := Run(m, h);
    assert h + tail == bs;
    RunConcat(m, h, tail);
    open, outs := Collect(got, Shown(m, h)), Shown(m3, tail);
    CollectConcat(got, Shown(m, h), outs);
    BusyDelivers(m3, Shown(m, h), n, got);
    MisreadRun(m3, tail, s, n, MessageId(m3.sid, m3.seqNum), open);
    BeatCount(tail, s);
    FirstUnreadLength(p);
    RunsLonger(open, Collect(open, outs), n, D.BEAT * |tail|, MessageId(m3.sid, m3.seqNum), s);
  }

  /** A packet that finds the dispatch module busy: the first message is delivered too long. */
  lemma BusyMisdelivers(m: Regs, bs: seq<Beat>, p: Packet, got: seq<Record>)
    requires Between(m) && Busy(m.dispatch) && Deliverable(p) && CarriesAll(bs, Encode(p))
    ensures TooLong(Collect(got, Shown(m, bs)), |got|, p.messages[0])
  {
    hide Next, Outputs, CarriesAll, Encode;
    var open, outs := BusyOpens(m, bs, p, got);
  }

  lemma RunsLonger(g: seq<Record>, all: seq<Record>, n: nat, c: nat, id: MessageId, s: seq<Byte>)
    requires Runs(g, all, n, c, id, s)
    ensures |g| <= |all|
    ensures |all[|g| - 1].bytes| >= |g[|g| - 1].bytes| + (if n <= c then n else c)
  {}

  lemma FirstUnreadLength(p: Packet)
    requires Deliverable(p)
    ensures |Encode(p)| >= 24 && |Encode(p)[24..]| >= |p.messages[0]| - 2
  {
    FirstUnread(p);
  }

  /** The fields of the third beat that count here. */
  lemma BusyFields(m: Regs, h: seq<Beat>, p: Packet)
    requires Between(m) && Deliverable(p) && HeaderLanes(h, Encode(p))
    ensures Three(h) && BigEndian(h[2].data[2..4]) > 0
    ensures D.Sub16(D.Pair(h[2].data[4], h[2].data[5]), 2) == |p.messages[0]| - 2
    ensures AfterH2(Run(m, h), h[0].data, h[1].data, h[2].data) ==> Run(m, h).seqNum < TWO_64
  {
    hide Next, Outputs, Encode;
    var d2 := h[2].data;
    HeaderValues(p, h[0].data, h[1].data, d2);
    FirstUnread(p);
    assert d2[4] == Encode(p)[20] && d2[5] == Encode(p)[21];
    ShortBy(|p.messages[0]|, 2);
    assert Radix(8) == TWO_64;
  }
}
