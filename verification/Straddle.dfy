/**
 A seven-byte message whose length field lies across two beats is over before its end is
 signalled, and the length of the next message is then the one that the length mux last
 selected.  What is delivered when that is the wrong one, and with it the exact delivery
 of whatever is left of a packet.
 */
module Straddle {
  import opened Bytes
  import opened MoldFormat
  import opened Receiver
  import opened Delivery
  import opened DispatchSteps
  import opened PacketProof
  import D = Dispatch

  /** In a message that the registers take to have n bytes left, under the given id. */
  predicate Misread(m: Regs, n: nat, id: MessageId) {
    && InBody(m.dispatch, n) && !m.dispatch.alignEnd
    && m.msg && !m.tlast && !m.invalid && !m.h1 && !m.h2 && m.msgCnt > 0
    && m.sid == id.sid && m.seqNum == id.seqNum < TWO_64
  }

  lemma MisreadOutputs(m: Regs, b: Beat, n: nat, id: MessageId)
    requires Misread(m, n, id) && b.valid && n < 0x1_0000
    ensures var o := Outputs(m, b); o.id == id && BodyOutputs(o.pipe, b.data, n, false, b.last)
  {
    hide D.Next, D.Outputs;
    GatesBodyOutputs(m.dispatch, ToDispatch(m, b), n);
  }

  /** The registers behind a beat on which such a message ends or not. */
  lemma MisreadNext(m: Regs, b: Beat, n: nat, id: MessageId)
    requires Misread(m, n, id) && b.valid && !b.last && n < 0x1_0000
    ensures AfterBody(Next(m, b).dispatch, b.data, m.dispatch.lenHeld, n)
    ensures var m' := Next(m, b);
            && m'.sid == id.sid && m'.seqNum == Later(id, Count(n <= D.BEAT)).seqNum
            && m'.msgCnt == m.msgCnt - Count(n <= D.BEAT)
            && m'.msg && !m'.tlast && !m'.invalid && !m'.h1 && !m'.h2
  {
    hide D.Next, D.Outputs;
    GatesBody(m.dispatch, ToDispatch(m, b), n);
    MisreadOutputs(m, b, n, id);
    StepControl(m, b, n <= D.BEAT);
  }

  /** A message starts with this beat. */
  predicate Starting(m: Regs, id: MessageId) {
    var r := m.dispatch;
    && !r.invalid && (r.alignEnd || r.lenAlign || r.lenSplit)
    && m.sid == id.sid && m.seqNum == id.seqNum && !m.h2
  }

  /** On the last beat the start is masked. */
  lemma StartingOutputs(m: Regs, b: Beat, id: MessageId)
    requires Starting(m, id) && b.valid
    ensures var o := Outputs(m, b);
            o.id == id && o.pipe.valid && o.pipe.start == !b.last && (b.last ==> !o.pipe.ovValid)
  {}

  /** Only the last record is still open. */
  lemma {:induction false} ClosedStay(got: seq<Record>, outs: seq<Output>, k: nat)
    requires k + 1 < |got|
    ensures k + 1 < |Collect(got, outs)| && Collect(got, outs)[k] == got[k]
    decreases outs
  {
    if outs != [] {
      ClosedStay(Deliver(got, outs[0]), outs[1..], k);
    }
  }

  /**
   What n bytes under one id make of the open record of got: another record follows, or
   more bytes under another id do, or, if left says that it may be so, it is left open.
   */
  predicate Ran(got: seq<Record>, all: seq<Record>, n: nat, id: MessageId, left: bool) {
    && 0 < |got| <= |all|
    && var before, after := got[|got| - 1], all[|got| - 1];
       && |after.bytes| >= |before.bytes| + n
       && ((|after.bytes| == |before.bytes| + n && (left || |all| > |got|)) || Later(id, 1) in after.ids)
  }

  /** With c bytes in all beats, n bytes end on the last one. */
  predicate OnLast(n: nat, c: nat) {
    n <= c && (n + D.BEAT > c || (n == 0 && c == D.BEAT))
  }

  /** The message ends on the beat, behind which there are others. */
  lemma MisreadEnd(m: Regs, bs: seq<Beat>, n: nat, id: MessageId, got: seq<Record>)
    requires Misread(m, n, id) && n <= D.BEAT && got != []
    requires |bs| >= 2 && bs[0].valid && !bs[0].last && bs[1].valid && (bs[1].last ==> |bs| == 2)
    ensures Ran(got, Collect(got, Shown(m, bs)), n, id, false)
  {
    hide Next, Outputs;
    var b := bs[0];
    var m', g := Next(m, b), Deliver(got, Outputs(m, b));
    MisreadOutputs(m, b, n, id);
    CollectFirst(m, bs, got);
    if n <= 5 {
      ClosedStay(g, Shown(m', bs[1..]), |got| - 1);
    } else {
      MisreadNext(m, b, n, id);
      StartingOutputs(m', bs[1], Later(id, 1));
      CollectFirst(m', bs[1..], g);
      if bs[1].last {
        assert bs[1..][1..] == [];
      } else {
        ClosedStay(Deliver(g, Outputs(m', bs[1])), Shown(Next(m', bs[1]), bs[1..][1..]), |got| - 1);
      }
    }
  }

  lemma ThisBeat(bs: seq<Beat>, s: seq<Byte>)
    requires CarriesAll(bs, s) && s != []
    ensures bs != [] && CarriesBeat(bs[0], s) && CarriesAll(bs[1..], Behind(s))
    ensures bs[0].last ==> |bs| == 1
    ensures !bs[0].last ==> |bs| >= 2 && |s| > D.BEAT && bs[1].valid && (bs[1].last ==> |bs| == 2)
  {
    if !bs[0].last {
      var t := Behind(s);
      assert CarriesBeat(bs[1..][0], t);
      assert bs[1..][0].last ==> CarriesAll(bs[1..][1..], []);
    } else {
      assert CarriesAll(bs[1..], []);
    }
  }

  /** The records of such a run. */
  predicate Runs(open: seq<Record>, all: seq<Record>, n: nat, c: nat, id: MessageId, s: seq<Byte>) {
    && open != []
    && (n <= c ==> Ran(open, all, n, id, OnLast(n, c)))
    && (n > c ==> |all| == |open| && |all[|open| - 1].bytes| == |open[|open| - 1].bytes| + c)
    && (n > c == |s| ==> all == Extend(open, s, id))
  }

  lemma RunsOver(got: seq<Record>, all: seq<Record>, n: nat, c: nat, id: MessageId, s: seq<Byte>)
    requires Ran(got, all, n, id, false) && n <= c
    ensures Runs(got, all, n, c, id, s)
  {}

  /** One full beat ahead of a run. */
  lemma RunsMore(got: seq<Record>, all: seq<Record>, n: nat, c: nat, id: MessageId, data: D.Lane, s: seq<Byte>)
    requires got != [] && n > D.BEAT && c >= D.BEAT && |s| > D.BEAT && data == s[..D.BEAT]
    requires Runs(Extend(got, data, id), all, n - D.BEAT, c - D.BEAT, id, Behind(s))
    ensures Runs(got, all, n, c, id, s)
  {
    ExtendTwice(got, data, Behind(s), id);
    assert s == data + Behind(s);
  }

  /** The message ends on the last beat, or not at all. */
  lemma MisreadLast(m: Regs, bs: seq<Beat>, s: seq<Byte>, n: nat, id: MessageId, got: seq<Record>)
    requires Misread(m, n, id) && n < 0x1_0000 && got != []
    requires |bs| == 1 && bs[0].last && CarriesBeat(bs[0], s)
    ensures Runs(got, Collect(got, Shown(m, bs)), n, D.BEAT, id, s)
  {
    hide Next, Outputs;
    MisreadOutputs(m, bs[0], n, id);
    CollectFirst(m, bs, got);
    assert bs[1..] == [];
    assert bs[0].data[..D.BEAT] == bs[0].data;
    assert |s| == D.BEAT ==> s[..D.BEAT] == s;
  }

  /**
   A message that the registers take to have n bytes left: it gets those n bytes, and more
   only with a second id; or, when the packet is over before, all bytes of all beats.
   */
  lemma {:induction false} MisreadRun(m: Regs, bs: seq<Beat>, s: seq<Byte>, n: nat, id: MessageId, got: seq<Record>)
    requires Misread(m, n, id) && CarriesAll(bs, s) && s != [] && got != [] && n < 0x1_0000
    ensures Runs(got, Collect(got, Shown(m, bs)), n, D.BEAT * |bs|, id, s)
    decreases |bs|
  {
    hide Next, Outputs, CarriesAll, Misread, Runs, Ran;
    ThisBeat(bs, s);
    var b := bs[0];
    if b.last {
      MisreadLast(m, bs, s, n, id, got);
    } else if n <= D.BEAT {
      MisreadEnd(m, bs, n, id, got);
      RunsOver(got, Collect(got, Shown(m, bs)), n, D.BEAT * |bs|, id, s);
    } else {
      MisreadMore(m, b, n, id, got);
      CollectFirst(m, bs, got);
      MisreadRun(Next(m, b), bs[1..], Behind(s), n - D.BEAT, id, Extend(got, b.data, id));
      RunsMore(got, Collect(got, Shown(m, bs)), n, D.BEAT * |bs|, id, b.data, s);
    }
  }

  lemma MisreadMore(m: Regs, b: Beat, n: nat, id: MessageId, got: seq<Record>)
    requires Misread(m, n, id) && b.valid && !b.last && D.BEAT < n < 0x1_0000
    ensures Misread(Next(m, b), n - D.BEAT, id) && Deliver(got, Outputs(m, b)) == Extend(got, b.data, id)
  {
    hide Next, Outputs;
    MisreadOutputs(m, b, n, id);
    MisreadNext(m, b, n, id);
    assert b.data[..D.BEAT] == b.data;
  }

  lemma {:induction false} BeatCount(bs: seq<Beat>, s: seq<Byte>)
    requires CarriesAll(bs, s)
    ensures |s| <= D.BEAT * |bs| < |s| + D.BEAT && (D.BEAT * |bs|) % D.BEAT == 0
    decreases |s|
  {
    if s != [] { BeatCount(bs[1..], Behind(s)); }
  }

  lemma SpentDelivers(got: seq<Record>, o: Output, v: View, id: MessageId)
    requires v.Ok() && v.Spent() && o.id == id && Shows(o.pipe, v, false)
    ensures Deliver(got, o) == Extend(got, [], id) + [Record(v.rest[0][..6], {})]
  {}

  lemma SpentNext(m: Regs, b: Beat, v: View, id: MessageId)
    requires Live(m, v, id) && v.Spent() && b.valid && !b.last
    ensures Misread(Next(m, b), D.Sub16(m.dispatch.lenHeld, 6), Later(id, 1))
  {
    hide Next, Outputs, View.Unread, Blocks;
    assert Misread(m, 0, id);
    MisreadNext(m, b, 0, id);
  }

  lemma SpentFinish(got: seq<Record>, v: View, id: MessageId)
    requires v.Ok() && v.Spent()
    ensures Finish(got, v, id) == Extend(got, [], id) + Tagged(v.rest, Later(id, 1))
  {}

  lemma SpentUnread(v: View)
    requires v.Ok() && v.Spent()
    ensures |v.Unread()| > D.BEAT && |v.rest[0]| >= 6
    ensures Behind(v.Unread()) == v.rest[0][6..] + Blocks(v.rest[1..])
  {
    LengthField(v.rest);
    BlocksDrop(v.rest, 6);
    assert v.Unread() == Blocks(v.rest);
  }

  /** The beat that takes the next length from the mux: six bytes of the next message are shown. */
  lemma SpentStep(m: Regs, b: Beat, v: View, id: MessageId, got: seq<Record>)
    requires Live(m, v, id) && v.Spent() && CarriesBeat(b, v.Unread()) && |v.Unread()| > D.BEAT
    requires |v.rest[0]| >= 6
    ensures !b.last && Misread(Next(m, b), D.Sub16(m.dispatch.lenHeld, 6), Later(id, 1))
    ensures Deliver(got, Outputs(m, b)) == Extend(got, [], id) + [Record(v.rest[0][..6], {})]
  {
    hide Next, Outputs, View.Unread, Blocks, Misread, Deliver, Extend;
    StepOutputs(m, b, v, id);
    SpentDelivers(got, Outputs(m, b), v, id);
    SpentNext(m, b, v, id);
  }

  /** A wrong length is delivered right only if the message fills the rest of the packet and its last beat. */
  lemma SpentExact(m: Regs, bs: seq<Beat>, v: View, id: MessageId, got: seq<Record>)
    requires Live(m, v, id) && v.Spent() && !v.Guesses(m.dispatch.lenHeld)
    requires CarriesAll(bs, v.Unread()) && Opened(got, v, id)
    ensures Collect(got, Shown(m, bs)) == Finish(got, v, id) <==> Overrun(m.dispatch.lenHeld, v.rest)
  {
    hide Next, Outputs, CarriesAll, Live, Misread, Runs, Finish, Extend, View.Unread, Tagged, Blocks;
    LiveBasics(m, v, id);
    ThisBeat(bs, v.Unread());
    SpentUnread(v);
    SpentStep(m, bs[0], v, id, got);
    CollectFirst(m, bs, got);
    var n, id', s := D.Sub16(m.dispatch.lenHeld, 6), Later(id, 1), Behind(v.Unread());
    var g := Extend(got, [], id);
    MisreadRun(Next(m, bs[0]), bs[1..], s, n, id', g + [Record(v.rest[0][..6], {})]);
    BeatCount(bs[1..], s);
    SpentFinish(got, v, id);
    Misjudged(g, v.rest, n, D.BEAT * |bs[1..]|, id', s, Collect(got, Shown(m, bs)));
  }

  /** A run of a wrong length never makes the record of the message, unless it just fills the last beat. */
  lemma RunsWrong(g: seq<Record>, m: Message, n: nat, c: nat, id: MessageId, s: seq<Byte>, all: seq<Record>)
    requires |m| >= SHORTEST && n != |m| - 6 && c >= |m| - 6 && !(n > c == |m| - 6)
    requires Runs(g + [Record(m[..6], {})], all, n, c, id, s) && id.seqNum < TWO_64
    ensures |all| <= |g| || all[|g|] != Record(m, {id})
  {
    assert Later(id, 1) != id;
  }

  lemma RunsFull(g: seq<Record>, m: Message, n: nat, c: nat, id: MessageId, all: seq<Record>)
    requires |m| >= SHORTEST && n > c == |m| - 6 && Runs(g + [Record(m[..6], {})], all, n, c, id, m[6..])
    ensures all == g + [Record(m, {id})]
  {
    ExtendNew(g, Record(m[..6], {}), m[6..], id);
    assert m[..6] + m[6..] == m && {} + {id} == {id};
  }

  lemma FullBeats(t: nat, c: nat)
    requires t <= c < t + D.BEAT && c % D.BEAT == 0
    ensures c == t <==> (t + 6) % D.BEAT == 6
  {}

  /** The records of the run against those of the packet, with other messages behind. */
  lemma MisjudgedInner(g: seq<Record>, ms: seq<Message>, n: nat, c: nat, id: MessageId, s: seq<Byte>, all: seq<Record>)
    requires |ms| > 1 && |ms[0]| >= SHORTEST && c > |ms[0]| - 6 && id.seqNum < TWO_64 && n != |ms[0]| - 6
    requires Runs(g + [Record(ms[0][..6], {})], all, n, c, id, s)
    ensures all != g + Tagged(ms, id)
  {
    hide Runs;
    TaggedFirst(g, ms, id);
    RunsWrong(g, ms[0], n, c, id, s, all);
    assert (g + Tagged(ms, id))[|g|] == Record(ms[0], {id});
  }

  /** The same, with none behind. */
  lemma MisjudgedLast(g: seq<Record>, m: Message, n: nat, c: nat, id: MessageId, all: seq<Record>)
    requires |m| >= SHORTEST && c >= |m| - 6 && id.seqNum < TWO_64 && n != |m| - 6
    requires Runs(g + [Record(m[..6], {})], all, n, c, id, m[6..])
    ensures all == g + [Record(m, {id})] <==> n > c == |m| - 6
  {
    hide Runs;
    if n > c == |m| - 6 {
      RunsFull(g, m, n, c, id, all);
    } else {
      RunsWrong(g, m, n, c, id, m[6..], all);
      assert (g + [Record(m, {id})])[|g|] == Record(m, {id});
    }
  }

  lemma TaggedOne(ms: seq<Message>, id: MessageId)
    requires |ms| == 1
    ensures Tagged(ms, id) == [Record(ms[0], {id})] && Blocks(ms[1..]) == []
  {
    assert ms[1..] == [];
  }

  lemma BlocksLonger(ms: seq<Message>)
    requires |ms| > 1
    ensures |Blocks(ms[1..])| > 0
  {}

  /** The records of the run against those of the packet. */
  lemma Misjudged(g: seq<Record>, ms: seq<Message>, n: nat, c: nat, id: MessageId, s: seq<Byte>, all: seq<Record>)
    requires ms != [] && |ms[0]| >= SHORTEST && s == ms[0][6..] + Blocks(ms[1..]) && id.seqNum < TWO_64
    requires n != |ms[0]| - 6 && |s| <= c < |s| + D.BEAT && c % D.BEAT == 0
    requires Runs(g + [Record(ms[0][..6], {})], all, n, c, id, s)
    ensures all == g + Tagged(ms, id) <==> |ms| == 1 && |ms[0]| % D.BEAT == 6 && n > |ms[0]| - 6
  {
    hide Runs, Tagged, Blocks;
    if |ms| > 1 {
      BlocksLonger(ms);
      MisjudgedInner(g, ms, n, c, id, s, all);
    } else {
      TaggedOne(ms, id);
      assert s == ms[0][6..];
      FullBeats(|ms[0]| - 6, c);
      MisjudgedLast(g, ms[0], n, c, id, all);
    }
  }

  /** A straddled message that is the last of its packet is taken for more of the one before it. */
  lemma SilentLast(m: Regs, b: Beat, v: View, id: MessageId, got: seq<Record>)
    requires Live(m, v, id) && !v.Clear() && CarriesBeat(b, v.Unread())
    ensures b.last && |Deliver(got, Outputs(m, b))| == |got|
  {
    hide Next, Outputs;
    LengthField(v.rest);
    OnlyBlock(v.rest);
    StartingOutputs(m, b, id);
  }

  lemma LastExact(m: Regs, bs: seq<Beat>, v: View, id: MessageId, got: seq<Record>)
    requires Live(m, v, id) && CarriesAll(bs, v.Unread()) && |v.Unread()| <= D.BEAT && Opened(got, v, id)
    ensures var right := Collect(got, Shown(m, bs)) == Finish(got, v, id);
            right <==> v.Trusts(m.dispatch.lenHeld, true) && !StartLost(v)
  {
    hide Next, Outputs;
    var b := bs[0];
    assert bs[1..] == [];
    CollectFirst(m, bs, got);
    if v.Clear() {
      LastBeatIsBody(v);
      StepOutputs(m, b, v, id);
      DeliverLast(got, v, id, Outputs(m, b));
    } else {
      SilentLast(m, b, v, id, got);
    }
  }

  /**
   The rest of a packet, from any position in it, is delivered exactly if and only if the
   held length is right, or as good as right, wherever it is taken, and the last message
   does not start on the last beat.
   */
  lemma {:induction false} DrainDelivers(m: Regs, bs: seq<Beat>, v: View, id: MessageId, got: seq<Record>)
    requires Live(m, v, id) && CarriesAll(bs, v.Unread()) && Opened(got, v, id)
    ensures var right := Collect(got, Shown(m, bs)) == Finish(got, v, id);
            right <==> v.Trusts(m.dispatch.lenHeld, true) && !StartLost(v)
    decreases |v.Unread()|
  {
    hide Next, Outputs, View.Trusts, CarriesBeat, StartLost;
    LiveBasics(m, v, id);
    if |v.Unread()| <= D.BEAT {
      LastExact(m, bs, v, id, got);
    } else if v.Spent() && !v.Guesses(m.dispatch.lenHeld) {
      SpentExact(m, bs, v, id, got);
      SpentTrusts(m.dispatch.lenHeld, v);
    } else {
      NotLastClear(v);
      DrainStep(m, bs, v, id, got);
      var b := bs[0];
      DrainDelivers(Next(m, b), bs[1..], v.Advance(), Later(id, Count(v.Ends())), Deliver(got, Outputs(m, b)));
    }
  }

  lemma NotLastClear(v: View)
    requires v.Ok() && |v.Unread()| > D.BEAT
    ensures v.Clear()
  {
    if v.pos.MidLength? && |v.rest| == 1 { OnlyBlock(v.rest); }
  }

  /** With a wrong length only the overrun is left, and then no start is lost. */
  lemma SpentTrusts(held: Word, v: View)
    requires v.Ok() && v.Spent() && !v.Guesses(held) && |v.Unread()| > D.BEAT
    ensures v.Trusts(held, true) && !StartLost(v) <==> Overrun(held, v.rest)
  {
    if Overrun(held, v.rest) {
      assert v.rest[1..] == [] && Kept(held, [], Onward(0, v.rest[0]), true);
      assert |v.rest[0]| > D.BEAT;
    }
  }

  lemma DrainStep(m: Regs, bs: seq<Beat>, v: View, id: MessageId, got: seq<Record>)
    requires Live(m, v, id) && v.Clear() && v.Guesses(m.dispatch.lenHeld)
    requires CarriesAll(bs, v.Unread()) && Opened(got, v, id) && |v.Unread()| > D.BEAT && id.seqNum < TWO_64
    ensures bs != []
    ensures var m', v', id' := Next(m, bs[0]), v.Advance(), Later(id, Count(v.Ends()));
            var got' := Deliver(got, Outputs(m, bs[0]));
            && Live(m', v', id') && v'.Unread() == Behind(v.Unread()) && CarriesAll(bs[1..], v'.Unread())
            && v'.Trusts(m'.dispatch.lenHeld, true) == v.Trusts(m.dispatch.lenHeld, true)
            && StartLost(v') == StartLost(v)
            && Opened(got', v', id') && Finish(got', v', id') == Finish(got, v, id)
            && Collect(got, Shown(m, bs)) == Collect(got', Shown(m', bs[1..]))
  {
    hide Next, Outputs, View.Trusts, StartLost, Finish, Opened;
    var b := bs[0];
    StepOutputs(m, b, v, id);
    StepLive(m, b, v, id);
    StepTrusts(m, b, v, id, true);
    DeliverStep(got, v, id, Outputs(m, b));
    AdvanceReads(v);
    StartLostKept(v);
    CollectFirst(m, bs, got);
  }

  // ----- the end of a packet whose last length was taken to be longer -----

  /** The packet has ended before its last message: one is still counted, and dispatch waits. */
  predicate EndedShort(m: Regs, id: MessageId) {
    && m.sid == id.sid && m.seqNum == id.seqNum && m.msgCnt == 1
    && CleanIdle(m) && !m.msg
  }

  lemma GatesLongLast(r: D.Regs, i: D.Input, n: nat)
    requires InBody(r, n) && D.BEAT < n < 0x1_0000 && Plain(i) && i.last
    ensures var r' := D.Next(r, i); r'.invalid && !r'.msg && !r'.lenAlign && !r'.lenSplit
  {}

  lemma MisreadShort(m: Regs, b: Beat, n: nat, id: MessageId)
    requires Misread(m, n, id) && b.valid && b.last && D.BEAT < n < 0x1_0000 && m.msgCnt == 1
    ensures EndedShort(Next(m, b), id)
  {
    hide D.Next, D.Outputs;
    MisreadOutputs(m, b, n, id);
    GatesLongLast(m.dispatch, ToDispatch(m, b), n);
    StepControl(m, b, false);
  }

  /** One output ahead of others. */
  lemma BytesFirst(m: Regs, bs: seq<Beat>)
    requires bs != []
    ensures var o := Outputs(m, bs[0]).pipe;
            BytesShown(Shown(m, bs))
            == (if o.valid then o.len else 0) + (if o.ovValid then o.ovLen else 0)
               + BytesShown(Shown(Next(m, bs[0]), bs[1..]))
  {
    hide Next, Outputs;
    assert Shown(m, bs)[1..] == Shown(Next(m, bs[0]), bs[1..]);
  }

  /** Full beats to the end of the packet. */
  lemma {:induction false} LongRun(m: Regs, bs: seq<Beat>, s: seq<Byte>, n: nat, id: MessageId)
    requires Misread(m, n, id) && CarriesAll(bs, s) && s != [] && D.BEAT * |bs| < n < 0x1_0000 && m.msgCnt == 1
    ensures EndedShort(Run(m, bs), id) && BytesShown(Shown(m, bs)) == D.BEAT * |bs|
    decreases |bs|
  {
    hide Next, Outputs, CarriesAll, Misread, EndedShort;
    ThisBeat(bs, s);
    var b := bs[0];
    MisreadOutputs(m, b, n, id);
    BytesFirst(m, bs);
    if b.last {
      MisreadShort(m, b, n, id);
      assert bs[1..] == [];
    } else {
      MisreadMore(m, b, n, id, []);
      MisreadCount(m, b, n, id);
      LongRun(Next(m, b), bs[1..], Behind(s), n - D.BEAT, id);
    }
  }

  lemma MisreadCount(m: Regs, b: Beat, n: nat, id: MessageId)
    requires Misread(m, n, id) && b.valid && !b.last && n < 0x1_0000
    ensures Next(m, b).msgCnt == m.msgCnt - Count(n <= D.BEAT)
  {
    hide Next;
    MisreadNext(m, b, n, id);
  }

  /** An overrun from the beat on which the wrong length is taken. */
  lemma SpentShort(m: Regs, bs: seq<Beat>, v: View, id: MessageId)
    requires Live(m, v, id) && v.Spent() && Overrun(m.dispatch.lenHeld, v.rest) && CarriesAll(bs, v.Unread())
    ensures EndedShort(Run(m, bs), Later(id, 1)) && BytesShown(Shown(m, bs)) == BytesOwed(v)
    ensures |v.Unread()| % D.BEAT == 0
  {
    hide Next, Outputs, CarriesAll, Misread, EndedShort, View.Unread, Blocks;
    LiveBasics(m, v, id);
    ThisBeat(bs, v.Unread());
    SpentUnread(v);
    SpentStep(m, bs[0], v, id, []);
    TaggedOne(v.rest, id);
    var b, s, t := bs[0], Behind(v.Unread()), |v.rest[0]| - 6;
    assert s == v.rest[0][6..];
    BeatCount(bs[1..], s);
    FullBeats(t, D.BEAT * |bs[1..]|);
    SpentCount(m, b, v, id);
    LongRun(Next(m, b), bs[1..], s, D.Sub16(m.dispatch.lenHeld, 6), Later(id, 1));
    BytesFirst(m, bs);
    SpentBytes(m, b, v, id);
  }

  lemma SpentCount(m: Regs, b: Beat, v: View, id: MessageId)
    requires Live(m, v, id) && v.Spent() && |v.rest| == 1 && b.valid && !b.last
    ensures Next(m, b).msgCnt == 1
  {
    hide Next;
    assert Misread(m, 0, id);
    MisreadNext(m, b, 0, id);
  }

  lemma SpentBytes(m: Regs, b: Beat, v: View, id: MessageId)
    requires Live(m, v, id) && v.Spent() && |v.rest| == 1 && b.valid && !b.last
    ensures var o := Outputs(m, b).pipe; o.valid && o.len == 0 && o.ovValid && o.ovLen == 6
    ensures BytesOwed(v) == |v.rest[0]|
  {
    hide Next, Outputs;
    assert Misread(m, 0, id);
    MisreadOutputs(m, b, 0, id);
    assert MessageBytes(v.rest[1..]) == 0;
  }

  lemma LastTrusts(v: View, held: Word)
    requires v.Ok() && v.Trusts(held, true) && |v.Unread()| <= D.BEAT
    ensures v.Trusts(held, false)
  {
    TrustsClear(v, held, true);
    LastBeatIsBody(v);
  }

  /** The end of any packet whose lengths taken from the mux suffice. */
  lemma {:induction false} DrainEndsShort(m: Regs, bs: seq<Beat>, v: View, id: MessageId)
    requires Live(m, v, id) && v.Trusts(m.dispatch.lenHeld, true) && !v.Trusts(m.dispatch.lenHeld, false)
    requires CarriesAll(bs, v.Unread())
    ensures EndedShort(Run(m, bs), Later(id, v.Owed() - 1)) && BytesShown(Shown(m, bs)) == BytesOwed(v)
    ensures |v.Unread()| % D.BEAT == 0
    decreases |v.Unread()|
  {
    hide Next, Outputs, View.Trusts, CarriesBeat, EndedShort, Live, View.Unread, View.Advance, View.Owed;
    hide Later, BytesOwed, BytesShown, CarriesAll, Count, View.Ok;
    var held := m.dispatch.lenHeld;
    LiveBasics(m, v, id);
    if |v.Unread()| <= D.BEAT { LastTrusts(v, held); }
    if v.Spent() && !v.Guesses(held) {
      SpentOverruns(held, v);
      SpentOwed(held, v);
      SpentShort(m, bs, v, id);
    } else {
      NotLastClear(v);
      StepShort(m, bs, v, id);
      var b, n := bs[0], Count(v.Ends());
      DrainEndsShort(Next(m, b), bs[1..], v.Advance(), Later(id, n));
      LaterTwice(id, n, v.Advance().Owed() - 1);
      assert (|v.Unread()| - D.BEAT) % D.BEAT == |v.Unread()| % D.BEAT;
    }
  }

  lemma SpentOwed(held: Word, v: View)
    requires v.Ok() && v.Spent() && Overrun(held, v.rest)
    ensures v.Owed() == 2
  {}

  lemma SpentOverruns(held: Word, v: View)
    requires v.Ok() && v.Spent() && !v.Guesses(held) && v.Trusts(held, true)
    ensures Overrun(held, v.rest)
  {}

  /** One beat of such a packet. */
  lemma StepShort(m: Regs, bs: seq<Beat>, v: View, id: MessageId)
    requires Live(m, v, id) && v.Clear() && v.Guesses(m.dispatch.lenHeld)
    requires CarriesAll(bs, v.Unread()) && |v.Unread()| > D.BEAT
    ensures bs != []
    ensures var m', v' := Next(m, bs[0]), v.Advance();
            && Live(m', v', Later(id, Count(v.Ends()))) && CarriesAll(bs[1..], v'.Unread())
            && (forall o :: v'.Trusts(m'.dispatch.lenHeld, o) == v.Trusts(m.dispatch.lenHeld, o))
            && v'.Ok() && |v'.Unread()| == |v.Unread()| - D.BEAT
            && v'.Owed() == v.Owed() - Count(v.Ends()) && v'.Owed() >= 1
            && BytesShown(Shown(m, bs)) == BytesOwed(v) - BytesOwed(v') + BytesShown(Shown(m', bs[1..]))
  {
    hide Next, Outputs, View.Trusts;
    var b := bs[0];
    StepOutputs(m, b, v, id);
    StepLive(m, b, v, id);
    StepTrusts(m, b, v, id, true);
    StepTrusts(m, b, v, id, false);
    AdvanceOk(v);
    AdvanceReads(v);
    BytesFirst(m, bs);
    StepBytes(v, Outputs(m, b).pipe);
  }
}
