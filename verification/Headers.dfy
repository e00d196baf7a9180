/**
 The three header beats of a packet: what they load and show, from clean idle and from a
 state in which the dispatch module was left in the middle of something.
 */
module Headers {
  import opened Bytes
  import opened MoldFormat
  import opened Receiver
  import opened Delivery
  import opened DispatchSteps
  import opened PacketProof
  import D = Dispatch

  /** A data packet (a count of 0xFFFF ends the session) of messages that the gates are written for. */
  predicate Deliverable(p: Packet) {
    && p.Fits()
    && 1 <= |p.messages| < 0xFFFF
    && AllLong(p.messages)
  }

  /** No seven-byte message of the packet has its length field across two beats. */
  predicate Unstraddled(p: Packet) {
    NoStraddle(p.messages, HEADER_LENGTH)
  }

  /**
   The length that the mux holds behind the header is right, or as good as right, wherever
   it is taken.  The first length is not taken from the mux.
   */
  predicate HeldSuffices(held: Word, p: Packet, overrun: bool)
    requires Deliverable(p)
  {
    Kept(held, p.messages[1..], Onward(HEADER_LENGTH, p.messages[0]), overrun)
  }

  lemma UnstraddledSuffices(held: Word, p: Packet, overrun: bool)
    requires Deliverable(p) && Unstraddled(p)
    ensures HeldSuffices(held, p, overrun)
  {
    UnstraddledKept(held, p.messages[1..], Onward(HEADER_LENGTH, p.messages[0]), overrun);
  }

  function FirstId(p: Packet): MessageId {
    MessageId(BigEndian(p.session), p.seqNum)
  }
  // ----- the header -----

  predicate Waiting(r: D.Regs) {
    r.invalid && !r.msg && !r.lenAlign && !r.lenSplit
  }

  /** The length register while nothing is received: it counts down to zero, whatever it holds. */
  function Countdown(msgLen: Word): Word {
    if msgLen <= D.BEAT then 0 else msgLen - D.BEAT
  }

  /** The length mux: a selection, or the value held. */
  function Select(msgLen: Word, held: Word, data: D.Lane): Word {
    var s := msgLen % 16;
    if 1 <= s <= 6 then D.Pair(data[s], data[s + 1]) else held
  }

  /** What the mux holds behind the three beats of a header. */
  function HeldBehind(r: D.Regs, d0: D.Lane, d1: D.Lane, d2: D.Lane): Word {
    var one := Select(r.msgLen, r.lenHeld, d0);
    var two := Select(Countdown(r.msgLen), one, d1);
    Select(Countdown(Countdown(r.msgLen)), two, d2)
  }

  /** The same for a packet. */
  function HeldBehindHeader(m: Regs, p: Packet): Word
    requires Deliverable(p)
  {
    var s := Encode(p);
    EncodeFields(p);
    BlocksLength(p.messages);
    FirstBytes(p.messages);
    HeldBehind(m.dispatch, s[..8], s[8..16], s[16..24])
  }

  lemma FirstBytes(ms: seq<Message>)
    requires ms != [] && AllLong(ms)
    ensures MessageBytes(ms) >= SHORTEST
  {}

  lemma GatesIdle(r: D.Regs, i: D.Input)
    requires Waiting(r) && !i.init
    ensures Waiting(D.Next(r, i)) && D.Next(r, i).msgLen == Countdown(r.msgLen)
    ensures !D.Outputs(r, i).valid && !D.Outputs(r, i).ovValid
  {}

  /** The beat that brings the first length field and two message bytes. */
  lemma GatesInit(r: D.Regs, i: D.Input)
    requires Waiting(r) && i.init && i.valid && !i.last
    ensures InBody(D.Next(r, i), D.Sub16(D.Pair(i.data[4], i.data[5]), 2)) && !D.Next(r, i).alignEnd
    ensures var o := D.Outputs(r, i);
            o.valid && o.start && o.data == i.data[6..] && o.len == 2 && !o.ovValid
  {}

  lemma GatesInitEnd(r: D.Regs, i: D.Input)
    requires i.init
    ensures !D.Outputs(r, i).msgEnd
  {}

  lemma FlippedValue(s: seq<Byte>)
    ensures Flipped(s) == BigEndian(s)
  {
    ReverseTwice(s);
  }

  /** A clock without input. */
  lemma IdleStep(m: Regs, b: Beat)
    requires Between(m) && !b.valid
    ensures Between(Next(m, b)) && ShowsNothing(Outputs(m, b))
    ensures CleanIdle(m) ==> CleanIdle(Next(m, b))
  {}

  /**
   When the next beat with input is taken for the first of a packet: behind the last beat, on
   which tlast is high; behind a beat on which the count was used up, outside the header; and
   as before behind a clock without input.
   */
  lemma HeaderSearch(m: Regs, b: Beat, b2: Beat)
    requires b2.valid
    ensures Next(Next(m, b), b2).h1 <==>
              || b.last
              || (if b.valid then m.msgCnt == 0 && !m.invalid && !m.tlast && !m.h1 && !m.h2 else m.invalid)
  {
    hide D.Next, D.Outputs;
  }

  /** Exactly one state of the machine around the dispatch module is active. */
  predicate OuterOneHot(m: Regs) {
    Count(m.invalid) + Count(m.h1) + Count(m.h2) + Count(m.msg) == 1
  }

  /** When that carries over a clock, from each of the four states. */
  lemma OuterStep(m: Regs, b: Beat)
    requires OuterOneHot(m)
    ensures OuterOneHot(Next(m, b)) <==>
              || (m.invalid && !(b.valid && b.last))
              || (m.h1 && b.valid && !b.last && !m.tlast)
              || (m.h2 && (b.valid ==> !b.last && !m.tlast))
              || (m.msg && if b.valid then m.tlast ==> m.msgCnt == 0 && !b.last else m.msgCnt > 0 && !b.last)
  {
    hide D.Next, D.Outputs;
  }

  /** A stream of beats without an end keeps it, whatever it carries. */
  lemma {:induction false} OuterRun(m: Regs, bs: seq<Beat>)
    requires OuterOneHot(m) && (m.tlast ==> m.invalid)
    requires forall k | 0 <= k < |bs| :: bs[k].valid && !bs[k].last
    ensures OuterOneHot(Run(m, bs))
    decreases |bs|
  {
    hide Next, OuterOneHot;
    if bs != [] {
      OuterStep(m, bs[0]);
      LastFlag(m, bs[0]);
      OuterStates(m);
      OuterRun(Next(m, bs[0]), bs[1..]);
    }
  }

  lemma OuterStates(m: Regs)
    requires OuterOneHot(m)
    ensures m.invalid || m.h1 || m.h2 || m.msg
  {}

  lemma LastFlag(m: Regs, b: Beat)
    ensures Next(m, b).tlast == b.last
  {
    hide D.Next, D.Outputs;
  }

  /** After the first header beat. */
  predicate AfterH0(m: Regs, d0: D.Lane) {
    !m.invalid && m.h1 && !m.h2 && !m.tlast && m.sid / 0x1_0000 == BigEndian(d0)
  }

  /** After the second header beat. */
  predicate AfterH1(m: Regs, d0: D.Lane, d1: D.Lane) {
    && !m.invalid && !m.h1 && m.h2 && !m.tlast
    && m.sid == BigEndian(d0) * 0x1_0000 + BigEndian(d1[..2])
    && m.seqNum / 0x1_0000 == BigEndian(d1[2..])
  }

  /** After the third header beat. */
  predicate AfterH2(m: Regs, d0: D.Lane, d1: D.Lane, d2: D.Lane) {
    && m.sid == BigEndian(d0) * 0x1_0000 + BigEndian(d1[..2])
    && m.seqNum == BigEndian(d1[2..]) * 0x1_0000 + BigEndian(d2[..2])
    && m.msgCnt == BigEndian(d2[2..4])
    && m.msg && !m.tlast && !m.invalid && !m.h1 && !m.h2
  }

  /** The header registers do not depend on what the dispatch module and the counter hold. */
  lemma StepH0(m: Regs, b: Beat)
    requires Between(m) && b.valid && !b.last
    ensures AfterH0(Next(m, b), b.data)
  {
    hide D.Next, D.Outputs;
    FlippedValue(b.data);
    assert WithHigh(m.sid, Flipped(b.data)) / 0x1_0000 == Flipped(b.data);
  }

  lemma StepH1(m: Regs, b: Beat, d0: D.Lane)
    requires AfterH0(m, d0) && b.valid && !b.last
    ensures AfterH1(Next(m, b), d0, b.data)
  {
    hide D.Next, D.Outputs;
    FlippedValue(b.data[..2]);
    FlippedValue(b.data[2..]);
  }

  lemma StepH2(m: Regs, b: Beat, d0: D.Lane, d1: D.Lane)
    requires AfterH1(m, d0, d1) && b.valid && !b.last
    ensures AfterH2(Next(m, b), d0, d1, b.data)
    ensures Outputs(m, b).id == MessageId(Next(m, b).sid, Next(m, b).seqNum)
  {
    hide D.Next, D.Outputs;
    GatesInitEnd(m.dispatch, ToDispatch(m, b));
    FlippedValue(b.data[..2]);
    FlippedValue(b.data[2..4]);
  }

  predicate ShowsNothing(o: Output) {
    !o.pipe.valid && !o.pipe.ovValid
  }

  /** Two bytes of a new message. */
  predicate ShowsFirst(o: Output, id: MessageId, bytes: seq<Byte>) {
    o.id == id && o.pipe.valid && o.pipe.start && !o.pipe.ovValid && o.pipe.len == 2 && o.pipe.data == bytes
  }

  predicate Three(bs: seq<Beat>) {
    |bs| == 3 && forall k | 0 <= k < 3 :: bs[k].valid && !bs[k].last
  }

  /** The registers between three header beats; the last beat is taken as the third. */
  lemma ThreeOuter(m: Regs, bs: seq<Beat>) returns (m1: Regs, m2: Regs)
    requires Between(m) && Three(bs)
    ensures m1 == Next(m, bs[0]) && m2 == Next(m1, bs[1]) && Run(m, bs) == Next(m2, bs[2])
    ensures AfterH2(Run(m, bs), bs[0].data, bs[1].data, bs[2].data)
    ensures Shown(m, bs) == [Outputs(m, bs[0]), Outputs(m1, bs[1]), Outputs(m2, bs[2])]
    ensures !m.h2 && !m1.h2 && m2.h2
    ensures Outputs(m2, bs[2]).id == MessageId(Run(m, bs).sid, Run(m, bs).seqNum)
  {
    hide Next, Outputs;
    m1 := Next(m, bs[0]);
    m2 := Next(m1, bs[1]);
    StepH0(m, bs[0]);
    StepH1(m1, bs[1], bs[0].data);
    StepH2(m2, bs[2], bs[0].data, bs[1].data);
    RunThree(m, bs);
  }

  /** Three beats from clean idle: two message bytes are shown, and the length mux goes with the beats. */
  lemma ThreeSteps(m: Regs, bs: seq<Beat>)
    requires CleanIdle(m) && Three(bs)
    ensures var m3 := Run(m, bs);
            var o := Shown(m, bs);
            var d2 := bs[2].data;
            && AfterH2(m3, bs[0].data, bs[1].data, d2)
            && InBody(m3.dispatch, D.Sub16(D.Pair(d2[4], d2[5]), 2)) && !m3.dispatch.alignEnd
            && m3.dispatch.lenHeld == HeldBehind(m.dispatch, bs[0].data, bs[1].data, d2)
            && |o| == 3 && ShowsNothing(o[0]) && ShowsNothing(o[1])
            && ShowsFirst(o[2], MessageId(m3.sid, m3.seqNum), d2[6..])
  {
    hide D.Next, D.Outputs, Select;
    var m1, m2 := ThreeOuter(m, bs);
    GatesIdle(m.dispatch, ToDispatch(m, bs[0]));
    GatesIdle(m1.dispatch, ToDispatch(m1, bs[1]));
    GatesInit(m2.dispatch, ToDispatch(m2, bs[2]));
    GatesSelect(m.dispatch, ToDispatch(m, bs[0]));
    GatesSelect(m1.dispatch, ToDispatch(m1, bs[1]));
    GatesSelect(m2.dispatch, ToDispatch(m2, bs[2]));
  }

  lemma GatesSelect(r: D.Regs, i: D.Input)
    ensures D.Next(r, i).lenHeld == Select(r.msgLen, r.lenHeld, i.data)
  {}

  lemma RunThree(m: Regs, t: seq<Beat>)
    requires |t| == 3
    ensures var m1 := Next(m, t[0]);
            var m2 := Next(m1, t[1]);
            && Run(m, t) == Next(m2, t[2])
            && Shown(m, t) == [Outputs(m, t[0]), Outputs(m1, t[1]), Outputs(m2, t[2])]
  {
    hide Next, Outputs;
    assert t[1..][1..] == [t[2]] && t[1..][0] == t[1];
    var m2 := Next(Next(m, t[0]), t[1]);
    assert Run(m2, [t[2]]) == Next(m2, t[2]) && Shown(m2, [t[2]]) == [Outputs(m2, t[2])];
    assert Run(m, t) == Run(m2, [t[2]]);
    assert Shown(m, t) == [Outputs(m, t[0])] + ([Outputs(Next(m, t[0]), t[1])] + Shown(m2, [t[2]]));
  }

  /** The view behind the header beats, of which the third brings two message bytes. */
  function FirstView(p: Packet): View
    requires Deliverable(p)
  {
    View(Body(p.messages[0][2..], false), p.messages[1..])
  }

  lemma FirstUnread(p: Packet)
    requires Deliverable(p)
    ensures FirstView(p).Ok() && FirstView(p).Unread() == Encode(p)[24..]
    ensures |Encode(p)| >= 29
    ensures Encode(p)[22..24] == p.messages[0][..2]
    ensures D.Pair(Encode(p)[20], Encode(p)[21]) == |p.messages[0]|
  {
    var ms, s := p.messages, Encode(p);
    EncodeFields(p);
    BlocksDrop(ms, 2);
    BlocksDrop(ms, 0);
    LengthField(ms);
    hide Encode, Blocks;
    assert s[24..] == Blocks(ms)[4..];
    assert s[22..24] == Blocks(ms)[2..][..2];
  }

  lemma FirstSmooth(p: Packet)
    requires Deliverable(p)
    ensures FirstView(p).Smooth() == Unstraddled(p)
  {
    var n := |p.messages[0]|;
    assert (n - 2) % D.BEAT == (HEADER_LENGTH + 2 + n) % D.BEAT;
  }

  lemma FirstTrusts(p: Packet)
    requires Deliverable(p) && FirstView(p).Ok()
    ensures forall held, o :: FirstView(p).Trusts(held, o) == HeldSuffices(held, p, o)
  {
    var n := |p.messages[0]|;
    assert (n - 2) % D.BEAT == (HEADER_LENGTH + 2 + n) % D.BEAT;
  }

  /** A value cut before its last two bytes. */
  lemma SplitValue(a: seq<Byte>, b: seq<Byte>)
    requires |b| == 2
    ensures BigEndian(a + b) == BigEndian(a) * 0x1_0000 + BigEndian(b)
  {
    BigEndianConcat(a, b);
    Radix2();
  }

  lemma HeaderValues(p: Packet, d0: D.Lane, d1: D.Lane, d2: D.Lane)
    requires p.Fits() && |Encode(p)| >= 24 && d0 + d1 + d2 == Encode(p)[..24]
    ensures BigEndian(d0) * 0x1_0000 + BigEndian(d1[..2]) == BigEndian(p.session)
    ensures BigEndian(d1[2..]) * 0x1_0000 + BigEndian(d2[..2]) == p.seqNum
    ensures BigEndian(d2[2..4]) == |p.messages|
    ensures d2[4..] == Encode(p)[20..24]
  {
    hide BigEndian, Encode;
    var s := Encode(p);
    EncodeFields(p);
    SplitValue(d0, d1[..2]);
    SplitValue(d1[2..], d2[..2]);
    var t := d0 + d1 + d2;
    assert s[..10] == t[..10] == d0 + d1[..2];
    assert s[10..18] == t[10..18] == d1[2..] + d2[..2];
    assert s[18..20] == t[18..20] == d2[2..4];
    assert s[20..24] == t[20..24] == d2[4..];
  }

  /** The lanes of the three header beats. */
  predicate HeaderLanes(h: seq<Beat>, s: seq<Byte>) {
    && |h| == 3 && |s| >= 24
    && (forall k | 0 <= k < 3 :: h[k].valid && !h[k].last)
    && h[0].data + h[1].data + h[2].data == s[..24]
  }

  lemma HeaderBytes(h: seq<Beat>, s: seq<Byte>)
    requires HeaderLanes(h, s)
    ensures h[0].data == s[..8] && h[1].data == s[8..16] && h[2].data == s[16..24]
  {
    var t := h[0].data + h[1].data + h[2].data;
    assert s[..8] == t[..8] && s[8..16] == t[8..16] && s[16..24] == t[16..24];
  }

  lemma FirstBeat(bs: seq<Beat>, s: seq<Byte>)
    requires |s| > 8 && CarriesAll(bs, s)
    ensures bs != [] && CarriesBeat(bs[0], s) && CarriesAll(bs[1..], s[8..])
    ensures bs[0].valid && !bs[0].last && bs[0].data == s[..8]
  {}

  lemma NotYetAll(bs: seq<Beat>, s: seq<Byte>)
    requires s != [] && CarriesAll(bs, s)
    ensures bs != []
  {}

  lemma ThreeBeats(bs: seq<Beat>, s: seq<Byte>)
    requires |s| > 24 && CarriesAll(bs, s)
    ensures |bs| > 3 && HeaderLanes(bs[..3], s) && CarriesAll(bs[3..], s[24..])
  {
    hide CarriesAll;
    FirstBeat(bs, s);
    FirstBeat(bs[1..], s[8..]);
    assert s[8..][8..] == s[16..] && bs[1..][1..] == bs[2..];
    FirstBeat(bs[2..], s[16..]);
    assert s[16..][8..] == s[24..] && bs[2..][1..] == bs[3..];
    NotYetAll(bs[3..], s[24..]);
    assert s[..8] + s[8..][..8] + s[16..][..8] == s[..24];
  }

  /** What a packet's three header beats show. */
  ghost predicate HeaderOutputs(o: seq<Output>, p: Packet) {
    && |o| == 3 && ShowsNothing(o[0]) && ShowsNothing(o[1])
    && p.messages != [] && |p.messages[0]| >= 2
    && ShowsFirst(o[2], FirstId(p), p.messages[0][..2])
  }

  lemma HeaderSteps(m: Regs, h: seq<Beat>, p: Packet)
    requires CleanIdle(m) && Deliverable(p) && HeaderLanes(h, Encode(p)) && FirstView(p).Ok()
    requires Encode(p)[22..24] == p.messages[0][..2]
    requires D.Pair(Encode(p)[20], Encode(p)[21]) == |p.messages[0]|
    ensures Live(Run(m, h), FirstView(p), FirstId(p)) && HeaderOutputs(Shown(m, h), p)
    ensures Run(m, h).dispatch.lenHeld == HeldBehindHeader(m, p)
  {
    hide Next, Outputs, HeldBehind;
    var d2 := h[2].data;
    HeaderValues(p, h[0].data, h[1].data, d2);
    assert d2[4] == Encode(p)[20] && d2[5] == Encode(p)[21];
    assert d2[6..] == d2[4..][2..] == p.messages[0][..2];
    ThreeSteps(m, h);
    HeaderBytes(h, Encode(p));
    HeaderLive(Run(m, h), d2, p);
  }

  /** A packet's run, cut behind its header. */
  lemma CutHeader(m: Regs, bs: seq<Beat>, p: Packet)
      returns (m3: Regs, tail: seq<Beat>, head: seq<Output>)
    requires CleanIdle(m) && Deliverable(p) && CarriesAll(bs, Encode(p))
    ensures |bs| > 3 && tail == bs[3..] && m3 == Run(m, bs[..3])
    ensures Run(m, bs) == Run(m3, tail) && Shown(m, bs) == head + Shown(m3, tail)
    ensures var v := FirstView(p);
            && Live(m3, v, FirstId(p)) && CarriesAll(tail, v.Unread())
            && v.Smooth() == Unstraddled(p)
            && |v.Unread()| == |Encode(p)| - 24
            && (forall o :: v.Trusts(m3.dispatch.lenHeld, o) == HeldSuffices(HeldBehindHeader(m, p), p, o))
    ensures HeaderOutputs(head, p)
  {
    hide Next, Outputs, HeldBehind;
    FirstUnread(p);
    FirstTrusts(p);
    FirstSmooth(p);
    ThreeBeats(bs, Encode(p));
    tail := bs[3..];
    m3 := Run(m, bs[..3]);
    head := Shown(m, bs[..3]);
    HeaderSteps(m, bs[..3], p);
    assert bs[..3] + tail == bs;
    RunConcat(m, bs[..3], tail);
  }

  lemma HeaderLive(m: Regs, d2: D.Lane, p: Packet)
    requires Deliverable(p) && FirstView(p).Ok()
    requires m.sid == BigEndian(p.session) && m.seqNum == p.seqNum && m.msgCnt == |p.messages|
    requires m.msg && !m.tlast && !m.invalid && !m.h1 && !m.h2
    requires D.Pair(d2[4], d2[5]) == |p.messages[0]|
    requires InBody(m.dispatch, D.Sub16(D.Pair(d2[4], d2[5]), 2)) && !m.dispatch.alignEnd
    ensures Live(m, FirstView(p), FirstId(p))
  {
    hide Blocks, Encode, View.Unread;
    assert Radix(8) == TWO_64;
    ShortBy(|p.messages[0]|, 2);
  }
}
