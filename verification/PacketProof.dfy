/**
 One packet through the receiver: from clean idle, eight bytes per clock, the outputs
 put together are the packet's messages with their ids.
 */
module PacketProof {
  import opened Bytes
  import opened MoldFormat
  import opened Receiver
  import opened Delivery
  import opened DispatchSteps
  import D = Dispatch

  // ----- statements -----

  /** The beat carries the next bytes of s, and says whether they are the last. */
  predicate CarriesBeat(b: Beat, s: seq<Byte>) {
    b.valid && Carries(b.data, s) && b.last == (|s| <= D.BEAT)
  }

  function Behind(s: seq<Byte>): seq<Byte> {
    if |s| <= D.BEAT then [] else s[D.BEAT..]
  }

  /** The beats carry s, one behind the other, with no gap. */
  predicate CarriesAll(bs: seq<Beat>, s: seq<Byte>)
    decreases |s|
  {
    if s == [] then bs == []
    else bs != [] && CarriesBeat(bs[0], s) && CarriesAll(bs[1..], Behind(s))
  }

  /** n messages further. */
  function Later(id: MessageId, n: nat): MessageId {
    MessageId(id.sid, (id.seqNum + n) % TWO_64)
  }

  /** The records of messages that carry consecutive ids. */
  function Tagged(ms: seq<Message>, id: MessageId): seq<Record> {
    if ms == [] then [] else [Record(ms[0], {id})] + Tagged(ms[1..], Later(id, 1))
  }

  /** The registers on a beat of a packet, after the header. */
  ghost predicate Live(m: Regs, v: View, id: MessageId) {
    && v.Ok() && Matches(m.dispatch, v)
    && m.sid == id.sid && m.seqNum == id.seqNum < TWO_64
    && m.msgCnt == v.Owed()
    && m.msg && !m.tlast && !m.invalid && !m.h1 && !m.h2
  }

  /** The registers after the last beat of a packet of n bytes. */
  ghost predicate Ended(m: Regs, id: MessageId, n: nat) {
    && m.sid == id.sid && m.seqNum == id.seqNum
    && m.msgCnt == 0
    && m.invalid && !m.msg && !m.h1 && !m.h2
    && Drained(m.dispatch, n)
  }

  /**
   Between packets: the header state machine waits, and dispatch shows nothing.  Counter,
   ids, lengths and fsm_msg_q, which feeds nothing but itself, hold anything.
   */
  predicate Between(m: Regs) {
    m.invalid && !m.h1 && !m.h2 && m.dispatch.invalid
  }

  /** And the dispatch state machine waits as well: the receiver is ready for a packet. */
  predicate CleanIdle(m: Regs) {
    Between(m) && !m.dispatch.msg && !m.dispatch.lenAlign && !m.dispatch.lenSplit
  }

  function Count(b: bool): nat {
    if b then 1 else 0
  }

  // ----- one beat -----

  /** Counter, sequence number and state machine on a beat behind the header. */
  lemma StepControl(m: Regs, b: Beat, msgEnd: bool)
    requires b.valid && m.msg && !m.tlast && !m.invalid && !m.h1 && !m.h2
    requires m.msgCnt > 0 && m.seqNum < TWO_64
    ensures Control(m, b, msgEnd)
         == Regs(m.sid, (m.seqNum + Count(msgEnd)) % TWO_64, m.msgCnt - Count(msgEnd),
                 b.last, b.last, false, false, !b.last, m.dispatch)
  {}

  lemma StepOutputs(m: Regs, b: Beat, v: View, id: MessageId)
    requires Live(m, v, id) && v.Clear() && CarriesBeat(b, v.Unread())
    ensures var o := Outputs(m, b); o.id == id && Shows(o.pipe, v, b.last)
  {
    hide D.Next, D.Outputs;
    StepShows(m.dispatch, ToDispatch(m, b), v);
  }

  /** A beat that is not the last. */
  lemma StepLive(m: Regs, b: Beat, v: View, id: MessageId)
    requires Live(m, v, id) && v.Clear() && v.Guesses(m.dispatch.lenHeld) && CarriesBeat(b, v.Unread()) && !b.last
    ensures Live(Next(m, b), v.Advance(), Later(id, Count(v.Ends())))
  {
    hide D.Next, D.Outputs;
    StepOutputs(m, b, v, id);
    StepMatches(m.dispatch, ToDispatch(m, b), v);
    AdvanceOk(v);
    StepControl(m, b, v.Ends());
  }

  /** The last beat. */
  lemma StepEnded(m: Regs, b: Beat, v: View, id: MessageId)
    requires Live(m, v, id) && v.Clear() && CarriesBeat(b, v.Unread()) && b.last
    ensures Ended(Next(m, b), Later(id, 1), |v.Unread()|)
  {
    hide D.Next, D.Outputs;
    LastBeatIsBody(v);
    StepOutputs(m, b, v, id);
    StepDrained(m.dispatch, ToDispatch(m, b), v);
    StepControl(m, b, true);
  }

  // ----- the whole of what is unread -----

  /** What has been delivered when all that the view promises has arrived. */
  function Finish(got: seq<Record>, v: View, id: MessageId): seq<Record>
    requires v.Ok()
  {
    match v.pos
    case Body(rem, whole) =>
      (if whole then got + [Record(rem, {id})] else Extend(got, rem, id)) + Tagged(v.rest, Later(id, 1))
    case _ => got + Tagged(v.rest, id)
  }

  /** A message is open exactly when the view continues one. */
  predicate Opened(got: seq<Record>, v: View, id: MessageId) {
    v.pos.Body? && !v.pos.whole ==> got != [] && got[|got| - 1].ids <= {id}
  }

  /** The last message starts on the last beat, where start flags are masked. */
  predicate StartLost(v: View)
    requires v.Ok()
  {
    if v.rest == [] then v.pos.Body? && v.pos.whole && |v.pos.rem| <= D.BEAT
    else OnLastBeat(v.rest[|v.rest| - 1], |v.Unread()|)
  }

  /** A byte string of n bytes, read in beats, whose last beat holds just the message m. */
  predicate OnLastBeat(m: Message, n: nat) {
    |m| <= D.BEAT && (n - |m|) % D.BEAT == 0
  }

  lemma ExtendTwice(got: seq<Record>, a: seq<Byte>, b: seq<Byte>, id: MessageId)
    ensures Extend(Extend(got, a, id), b, id) == Extend(got, a + b, id)
  {
    if got != [] {
      assert got[|got| - 1].bytes + a + b == got[|got| - 1].bytes + (a + b);
    }
  }

  lemma ExtendNew(got: seq<Record>, r: Record, b: seq<Byte>, id: MessageId)
    ensures Extend(got + [r], b, id) == got + [Record(r.bytes + b, r.ids + {id})]
  {}

  /** The first of several tagged messages, added separately. */
  lemma TaggedFirst(got: seq<Record>, ms: seq<Message>, id: MessageId)
    requires ms != []
    ensures got + Tagged(ms, id) == got + [Record(ms[0], {id})] + Tagged(ms[1..], Later(id, 1))
  {}

  lemma DeliverLong(got: seq<Record>, v: View, id: MessageId, o: Output)
    requires v.Ok() && v.Clear() && |v.Unread()| > D.BEAT && Opened(got, v, id) && id.seqNum < TWO_64
    requires o.id == id && Shows(o.pipe, v, false) && v.Advance().Ok()
    requires v.pos.Body? && |v.pos.rem| > D.BEAT
    ensures var got' := Deliver(got, o);
            var v' := v.Advance();
            var id' := Later(id, Count(v.Ends()));
            Opened(got', v', id') && Finish(got', v', id') == Finish(got, v, id)
  {
    var a, b := v.Primary(), v.pos.rem[D.BEAT..];
    assert v.pos.rem == a + b;
    assert Later(id, 0) == id;
    if v.pos.whole {
      assert Deliver(got, o) == got + [Record(a, {id})];
      ExtendNew(got, Record(a, {id}), b, id);
      assert {id} + {id} == {id};
    } else {
      assert Deliver(got, o) == Extend(got, a, id);
      ExtendTwice(got, a, b, id);
      assert Opened(Deliver(got, o), v.Advance(), id);
    }
  }

  /** The first bytes of the next message come on the overlap pipe. */
  lemma DeliverOverlap(g: seq<Record>, v: View, next: MessageId)
    requires v.Ok() && v.Overlaps()
    ensures var g', b := g + [Record(v.Overlap(), {})], v.rest[0][|v.Overlap()|..];
            Extend(g', b, next) + Tagged(v.rest[1..], Later(next, 1)) == g + Tagged(v.rest, next)
  {
    var a, b := v.Overlap(), v.rest[0][|v.Overlap()|..];
    assert v.rest[0] == a + b;
    ExtendNew(g, Record(a, {}), b, next);
    assert {} + {next} == {next};
    TaggedFirst(g, v.rest, next);
  }

  /** The open message with the last of its bytes. */
  function Closed(got: seq<Record>, v: View, id: MessageId): seq<Record>
    requires v.pos.Body?
  {
    if v.pos.whole then got + [Record(v.pos.rem, {id})] else Extend(got, v.pos.rem, id)
  }

  lemma DeliverClosed(got: seq<Record>, v: View, id: MessageId, o: Output)
    requires v.Ok() && v.Clear() && |v.Unread()| > D.BEAT
    requires o.id == id && Shows(o.pipe, v, false) && v.pos.Body? && |v.pos.rem| <= D.BEAT
    ensures v.rest != []
    ensures DeliverPrimary(got, o) == Closed(got, v, id)
    ensures Deliver(got, o) == Closed(got, v, id) + (if v.Overlaps() then [Record(v.Overlap(), {})] else [])
  {
    assert v.rest != [];
    hide Blocks, Extend;
  }

  lemma DeliverEnd(got: seq<Record>, v: View, id: MessageId, o: Output)
    requires v.Ok() && v.Clear() && |v.Unread()| > D.BEAT && Opened(got, v, id) && id.seqNum < TWO_64
    requires o.id == id && Shows(o.pipe, v, false) && v.Advance().Ok()
    requires v.pos.Body? && |v.pos.rem| <= D.BEAT
    ensures var got' := Deliver(got, o);
            var v' := v.Advance();
            var id' := Later(id, Count(v.Ends()));
            Opened(got', v', id') && Finish(got', v', id') == Finish(got, v, id)
  {
    DeliverClosed(got, v, id, o);
    FinishClosed(got, v, id);
    hide Blocks, Tagged, Deliver, Shows, Extend, Closed, Finish, Opened, View.Ok;
    var g, next := Closed(got, v, id), Later(id, 1);
    var v' := AdvanceEnd(v);
    if v.Overlaps() {
      DeliverOverlap(g, v, next);
      FinishOpen(g + [Record(v.Overlap(), {})], v', next);
    } else if |v.pos.rem| == 6 {
      TaggedFirst(g, v.rest, next);
      FinishWhole(g, v', next);
    } else {
      assert g + [] == g;
      FinishAt(g, v', next);
    }
  }

  /** The view behind a beat that ends a message and is not the last. */
  lemma AdvanceEnd(v: View) returns (v': View)
    requires v.Ok() && v.Clear() && |v.Unread()| > D.BEAT && v.pos.Body? && |v.pos.rem| <= D.BEAT
    ensures v.rest != [] && v' == v.Advance()
    ensures var n := |v.pos.rem|;
            if n <= 5 then |v.rest[0]| >= 6 - n && v' == View(Body(v.rest[0][6 - n..], false), v.rest[1..])
            else if n == 6 then v' == View(Body(v.rest[0], true), v.rest[1..])
            else !v'.pos.Body? && v'.rest == v.rest
  {
    v' := v.Advance();
  }

  lemma FinishOpen(got: seq<Record>, v: View, id: MessageId)
    requires v.Ok() && v.pos.Body? && !v.pos.whole && got != [] && got[|got| - 1].ids == {}
    ensures Opened(got, v, id) && Finish(got, v, id) == Extend(got, v.pos.rem, id) + Tagged(v.rest, Later(id, 1))
  {}

  lemma FinishWhole(got: seq<Record>, v: View, id: MessageId)
    requires v.Ok() && v.pos.Body? && v.pos.whole
    ensures Opened(got, v, id)
    ensures Finish(got, v, id) == got + [Record(v.pos.rem, {id})] + Tagged(v.rest, Later(id, 1))
  {}

  lemma FinishAt(got: seq<Record>, v: View, id: MessageId)
    requires v.Ok() && !v.pos.Body?
    ensures Opened(got, v, id) && Finish(got, v, id) == got + Tagged(v.rest, id)
  {}

  lemma FinishClosed(got: seq<Record>, v: View, id: MessageId)
    requires v.Ok() && v.pos.Body?
    ensures Finish(got, v, id) == Closed(got, v, id) + Tagged(v.rest, Later(id, 1))
  {}

  lemma DeliverStart(got: seq<Record>, v: View, id: MessageId, o: Output)
    requires v.Ok() && v.Clear() && |v.Unread()| > D.BEAT && Opened(got, v, id) && id.seqNum < TWO_64
    requires o.id == id && Shows(o.pipe, v, false) && v.Advance().Ok()
    requires !v.pos.Body?
    ensures var got' := Deliver(got, o);
            var v' := v.Advance();
            var id' := Later(id, Count(v.Ends()));
            Opened(got', v', id') && Finish(got', v', id') == Finish(got, v, id)
  {
    var a, b := v.Primary(), v.rest[0][|v.Primary()|..];
    assert v.rest[0] == a + b;
    assert Later(id, 0) == id;
    assert Deliver(got, o) == got + [Record(a, {id})];
    assert v.Advance() == View(Body(b, false), v.rest[1..]);
    assert {id} + {id} == {id};
    ExtendNew(got, Record(a, {id}), b, id);
    TaggedFirst(got, v.rest, id);
  }

  lemma DeliverStep(got: seq<Record>, v: View, id: MessageId, o: Output)
    requires v.Ok() && v.Clear() && |v.Unread()| > D.BEAT && Opened(got, v, id) && id.seqNum < TWO_64
    requires o.id == id && Shows(o.pipe, v, false)
    ensures var got' := Deliver(got, o);
            var v' := v.Advance();
            var id' := Later(id, Count(v.Ends()));
            v'.Ok() && Opened(got', v', id') && Finish(got', v', id') == Finish(got, v, id)
  {
    AdvanceOk(v);
    var got' := Deliver(got, o);
    var v' := v.Advance();
    if v.pos.Body? && |v.pos.rem| > D.BEAT {
      DeliverLong(got, v, id, o);
    } else if v.pos.Body? {
      DeliverEnd(got, v, id, o);
    } else {
      DeliverStart(got, v, id, o);
    }
  }

  /** The last beat: whatever starts on it is taken for more of the open message. */
  lemma DeliverLast(got: seq<Record>, v: View, id: MessageId, o: Output)
    requires v.Ok() && v.Clear() && |v.Unread()| <= D.BEAT && Opened(got, v, id)
    requires o.id == id && Shows(o.pipe, v, true)
    ensures !StartLost(v) ==> Deliver(got, o) == Finish(got, v, id)
    ensures StartLost(v) ==> |Deliver(got, o)| == |Finish(got, v, id)| - 1
  {
    LastBeatIsBody(v);
    assert Deliver(got, o) == Extend(got, v.pos.rem, id);
    assert Tagged(v.rest, Later(id, 1)) == [];
  }

  lemma OnlyBlock(ms: seq<Message>)
    requires |ms| == 1
    ensures |Blocks(ms)| == 2 + |ms[0]|
  {
    assert Blocks(ms[1..]) == [];
  }

  /** The last message is next: it fills its last beat alone only when it starts on a beat. */
  lemma StartLostLast(v: View)
    requires v.Ok() && v.Clear() && |v.Unread()| > D.BEAT && v.Advance().Ok()
    requires |v.rest| == 1 && v.Advance().rest == []
    ensures StartLost(v.Advance()) == StartLost(v)
  {
    OnlyBlock(v.rest);
    var before := |v.Unread()| - |v.rest[0]|;
    assert before == if v.pos.Body? then |v.pos.rem| + 2 else if v.pos.AtLength? then 2 else 1;
    assert before % D.BEAT == 0 <==> v.pos.Body? && |v.pos.rem| == 6;
  }

  lemma OnLastBeatShift(m: Message, n: nat)
    requires n >= D.BEAT
    ensures OnLastBeat(m, n - D.BEAT) == OnLastBeat(m, n)
  {}

  lemma LastKept(v: View)
    requires v.Ok() && v.Clear() && |v.Unread()| > D.BEAT && v.rest != [] && v.Advance().rest != []
    ensures var r, r' := v.rest, v.Advance().rest; r'[|r'| - 1] == r[|r| - 1]
  {}

  lemma StartLostKept(v: View)
    requires v.Ok() && v.Clear() && |v.Unread()| > D.BEAT && v.Advance().Ok()
    ensures StartLost(v.Advance()) == StartLost(v)
  {
    hide OnLastBeat;
    var v' := v.Advance();
    if v.rest == [] {
      assert v'.pos.Body? && !v'.pos.whole;
    } else if v'.rest == [] {
      StartLostLast(v);
    } else {
      AdvanceReads(v);
      LastKept(v);
      OnLastBeatShift(v.rest[|v.rest| - 1], |v.Unread()|);
    }
  }

  // ----- all beats behind the header -----

  /** Trust in the held length goes on. */
  lemma StepTrusts(m: Regs, b: Beat, v: View, id: MessageId, overrun: bool)
    requires Live(m, v, id) && v.Clear() && v.Guesses(m.dispatch.lenHeld) && CarriesBeat(b, v.Unread()) && !b.last
    ensures v.Advance().Ok()
    ensures v.Advance().Trusts(Next(m, b).dispatch.lenHeld, overrun) == v.Trusts(m.dispatch.lenHeld, overrun)
  {
    hide D.Next, D.Outputs;
    AdvanceTrusts(m.dispatch, ToDispatch(m, b), v, overrun);
  }

  lemma TrustsClear(v: View, held: Word, overrun: bool)
    requires v.Ok() && v.Trusts(held, overrun)
    ensures v.Clear() && (!overrun ==> v.Guesses(held))
  {}

  /** One beat ahead of others. */
  lemma CollectFirst(m: Regs, bs: seq<Beat>, got: seq<Record>)
    requires bs != []
    ensures Collect(got, Shown(m, bs))
         == Collect(Deliver(got, Outputs(m, bs[0])), Shown(Next(m, bs[0]), bs[1..]))
  {
    hide Next, Outputs;
    assert Shown(m, bs)[1..] == Shown(Next(m, bs[0]), bs[1..]);
  }

  /** What is trusted on a beat that is not the last. */
  lemma StepOn(m: Regs, b: Beat, v: View, id: MessageId)
    requires Live(m, v, id) && v.Trusts(m.dispatch.lenHeld, false) && CarriesBeat(b, v.Unread())
    requires |v.Unread()| > D.BEAT
    ensures v.Clear() && !b.last
    ensures var v' := v.Advance();
            && Live(Next(m, b), v', Later(id, Count(v.Ends())))
            && v'.Trusts(Next(m, b).dispatch.lenHeld, false)
            && v'.Unread() == Behind(v.Unread()) && |v'.Unread()| < |v.Unread()|
            && v'.Owed() == v.Owed() - Count(v.Ends())
            && v'.Ok() && v'.Unread() != []
  {
    hide Next, Outputs, View.Trusts;
    TrustsClear(v, m.dispatch.lenHeld, false);
    StepLive(m, b, v, id);
    StepTrusts(m, b, v, id, false);
    AdvanceOk(v);
    AdvanceReads(v);
    LiveBasics(Next(m, b), v.Advance(), Later(id, Count(v.Ends())));
  }

  lemma LaterTwice(id: MessageId, a: nat, b: nat)
    ensures Later(Later(id, a), b) == Later(id, a + b)
  {}

  /** The end, seen from one beat earlier, on which n messages end. */
  lemma EndedLater(m: Regs, id: MessageId, n: nat, owed: nat, s: seq<Byte>)
    requires |s| > D.BEAT && Ended(m, Later(Later(id, n), owed), |Behind(s)|)
    ensures Ended(m, Later(id, n + owed), |s|)
  {
    LaterTwice(id, n, owed);
    assert (|s| - D.BEAT) % D.BEAT == |s| % D.BEAT;
  }

  lemma RunLast(m: Regs, bs: seq<Beat>, v: View, id: MessageId)
    requires Live(m, v, id) && v.Clear() && CarriesAll(bs, v.Unread()) && |v.Unread()| <= D.BEAT
    ensures Ended(Run(m, bs), Later(id, v.Owed()), |v.Unread()|)
  {
    hide Next, Outputs;
    LastBeatIsBody(v);
    StepEnded(m, bs[0], v, id);
    assert bs[1..] == [];
  }

  lemma {:induction false} DrainEnds(m: Regs, bs: seq<Beat>, v: View, id: MessageId)
    requires Live(m, v, id) && v.Trusts(m.dispatch.lenHeld, false) && CarriesAll(bs, v.Unread())
    ensures Ended(Run(m, bs), Later(id, v.Owed()), |v.Unread()|)
    decreases |v.Unread()|
  {
    hide Next, Outputs, Ended, View.Trusts, CarriesBeat;
    TrustsClear(v, m.dispatch.lenHeld, false);
    if |v.Unread()| <= D.BEAT {
      RunLast(m, bs, v, id);
    } else {
      hide Live, View.Unread, View.Advance, View.Ok, View.Owed, Later, Count, Behind;
      var v', n := v.Advance(), Count(v.Ends());
      StepOn(m, bs[0], v, id);
      DrainEnds(Next(m, bs[0]), bs[1..], v', Later(id, n));
      EndedLater(Run(m, bs), id, n, v'.Owed(), v.Unread());
    }
  }

  /** The view is that of k beats into s. */
  predicate AtBeat(v: View, s: seq<Byte>, k: nat) {
    v.Ok() && D.BEAT * k < |s| && v.Unread() == s[D.BEAT * k..]
  }

  /** Where the registers are after k beats behind the header. */
  lemma {:induction false} DrainLive(m: Regs, bs: seq<Beat>, s: seq<Byte>, v: View, id: MessageId, k: nat)
      returns (v': View)
    requires Live(m, v, id) && v.Trusts(m.dispatch.lenHeld, false) && AtBeat(v, s, 0)
    requires CarriesAll(bs, s) && k < |bs|
    ensures AtBeat(v', s, k) && v'.Owed() <= v.Owed()
    ensures Live(Run(m, bs[..k]), v', Later(id, v.Owed() - v'.Owed()))
    decreases k
  {
    hide Next, Outputs, Live, View.Trusts, CarriesBeat, View.Unread, View.Ok, View.Advance, View.Owed;
    LiveBasics(m, v, id);
    assert s[0..] == s;
    if k == 0 {
      v' := v;
    } else {
      MoreBeats(bs, s);
      StepOn(m, bs[0], v, id);
      var id1 := Later(id, Count(v.Ends()));
      assert Behind(s)[0..] == Behind(s);
      v' := DrainLive(Next(m, bs[0]), bs[1..], Behind(s), v.Advance(), id1, k - 1);
      assert bs[..k] == [bs[0]] + bs[1..][..k - 1] && bs[..k][1..] == bs[1..][..k - 1];
      LaterTwice(id, Count(v.Ends()), v.Advance().Owed() - v'.Owed());
      BeatLater(v', s, k);
    }
  }

  lemma LiveBasics(m: Regs, v: View, id: MessageId)
    requires Live(m, v, id)
    ensures v.Ok() && id.seqNum < TWO_64 && v.Unread() != [] && Later(id, 0) == id
  {
    if v.rest != [] { LengthField(v.rest); }
  }

  lemma MoreBeats(bs: seq<Beat>, s: seq<Byte>)
    requires CarriesAll(bs, s) && |bs| > 1
    ensures |s| > D.BEAT && CarriesBeat(bs[0], s) && CarriesAll(bs[1..], Behind(s))
  {}

  lemma BeatLater(v: View, s: seq<Byte>, k: nat)
    requires |s| > D.BEAT && k > 0 && AtBeat(v, Behind(s), k - 1)
    ensures AtBeat(v, s, k)
  {
    assert s[D.BEAT..][D.BEAT * (k - 1)..] == s[D.BEAT * k..];
  }

  // ----- what holds on every beat behind the header -----

  /**
   One of the three active states, no length subtraction below zero, lengths in range,
   and a counter that reaches zero on the last beat and not before.
   */
  ghost predicate BeatHolds(m: Regs, b: Beat) {
    var r := m.dispatch;
    var o := Outputs(m, b).pipe;
    && !r.invalid && Count(r.msg) + Count(r.lenAlign) + Count(r.lenSplit) == 1
    && NoWrap(r, ToDispatch(m, b))
    && (r.msg ==> r.msgLen >= 1) && (!r.msg ==> r.msgLen == 0)
    && o.valid && 1 <= o.len <= 8 && (o.ovValid ==> 1 <= o.ovLen <= 5)
    && m.msgCnt >= 1
    && (Next(m, b).msgCnt == 0 <==> b.last)
    && (b.last ==> m.msgCnt == 1)
  }

  ghost predicate AllBeatsHold(m: Regs, bs: seq<Beat>)
    decreases bs
  {
    bs == [] || (BeatHolds(m, bs[0]) && AllBeatsHold(Next(m, bs[0]), bs[1..]))
  }

  lemma StepHolds(m: Regs, b: Beat, v: View, id: MessageId)
    requires Live(m, v, id) && v.Clear() && !v.Spent() && CarriesBeat(b, v.Unread())
    ensures BeatHolds(m, b)
  {
    hide D.Next, D.Outputs;
    StepOutputs(m, b, v, id);
    StepNoWrap(m.dispatch, ToDispatch(m, b), v);
    if b.last {
      LastBeatIsBody(v);
      StepEnded(m, b, v, id);
    } else {
      StepLive(m, b, v, id);
      AdvanceOk(v);
    }
  }

  /** Message bytes that the view still owes. */
  function BytesOwed(v: View): nat {
    (if v.pos.Body? then |v.pos.rem| else 0) + MessageBytes(v.rest)
  }

  lemma StepBytes(v: View, o: D.Output)
    requires v.Ok() && v.Clear() && |v.Unread()| > D.BEAT && Shows(o, v, false)
    ensures BytesOwed(v) == o.len + (if o.ovValid then o.ovLen else 0) + BytesOwed(v.Advance())
  {}

  lemma {:induction false} DrainHolds(m: Regs, bs: seq<Beat>, v: View, id: MessageId)
    requires Live(m, v, id) && v.Smooth() && CarriesAll(bs, v.Unread())
    ensures AllBeatsHold(m, bs)
    decreases |v.Unread()|
  {
    hide Next, Outputs, BeatHolds;
    var b := bs[0];
    StepHolds(m, b, v, id);
    if b.last {
      LastBeatIsBody(v);
    } else {
      StepLive(m, b, v, id);
      AdvanceSmooth(v);
      AdvanceReads(v);
      DrainHolds(Next(m, b), bs[1..], v.Advance(), Later(id, Count(v.Ends())));
    }
  }

  lemma {:induction false} DrainBytes(m: Regs, bs: seq<Beat>, v: View, id: MessageId)
    requires Live(m, v, id) && v.Trusts(m.dispatch.lenHeld, false) && CarriesAll(bs, v.Unread())
    ensures BytesShown(Shown(m, bs)) == BytesOwed(v)
    decreases |v.Unread()|
  {
    hide Next, Outputs, View.Trusts;
    var b := bs[0];
    TrustsClear(v, m.dispatch.lenHeld, false);
    StepOutputs(m, b, v, id);
    assert Shown(m, bs)[1..] == Shown(Next(m, b), bs[1..]);
    if b.last {
      LastBeatIsBody(v);
    } else {
      StepOn(m, b, v, id);
      StepBytes(v, Outputs(m, b).pipe);
      DrainBytes(Next(m, b), bs[1..], v.Advance(), Later(id, Count(v.Ends())));
    }
  }

  lemma GatesSplitSilent(r: D.Regs, i: D.Input)
    requires r.lenSplit
    ensures !D.Outputs(r, i).msgEnd
  {}

  /** The invariant fails with an empty remainder, and on a last beat that leaves the counter alone. */
  lemma EmptyFails(m: Regs, b: Beat)
    requires InBody(m.dispatch, 0)
    ensures !BeatHolds(m, b)
  {}

  lemma SilentFails(m: Regs, b: Beat)
    requires b.valid && b.last && m.msg && !m.tlast && !m.invalid && !m.h1 && !m.h2
    requires m.msgCnt > 0 && m.seqNum < TWO_64 && m.dispatch.lenSplit
    ensures !BeatHolds(m, b)
  {
    GatesSplitSilent(m.dispatch, ToDispatch(m, b));
    StepControl(m, b, false);
  }

  /** On the beat that holds just a straddled seven-byte message, or on the next, the invariant fails. */
  lemma {:induction false} StraddleBreaks(m: Regs, bs: seq<Beat>, v: View, id: MessageId)
    requires Live(m, v, id) && !v.Smooth() && CarriesAll(bs, v.Unread())
    ensures !AllBeatsHold(m, bs)
    decreases |v.Unread()|
  {
    hide Next, Outputs, BeatHolds;
    var b := bs[0];
    LiveBasics(m, v, id);
    if v.Spent() {
      EmptyFails(m, b);
    } else if !v.Clear() {
      LengthField(v.rest);
      SilentFails(m, b);
    } else {
      if |v.Unread()| <= D.BEAT { LastBeatIsBody(v); }
      StepLive(m, b, v, id);
      AdvanceSmooth(v);
      AdvanceReads(v);
      StraddleBreaks(Next(m, b), bs[1..], v.Advance(), Later(id, Count(v.Ends())));
    }
  }
}
