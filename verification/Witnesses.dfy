/**
 Packets on each side of the conditions of module Packets: every packet has beats, and
 for each way in which the receiver can fail there is a packet that makes it fail.
 */
module Witnesses {
  import opened Bytes
  import opened MoldFormat
  import opened Receiver
  import opened Delivery
  import opened DispatchSteps
  import opened PacketProof
  import opened Headers
  import opened Packets
  import opened ReceiverRuns
  import opened Straddle
  import D = Dispatch

  /** The next beat of s. */
  function BeatOf(s: seq<Byte>): (b: Beat)
    ensures CarriesBeat(b, s)
  {
    var pad := seq(D.BEAT, _ => 0);
    var data := if |s| >= D.BEAT then s[..D.BEAT] else s + pad[|s|..];
    assert |s| < D.BEAT ==> data[..|s|] == s;
    Beat(true, data, [], |s| <= D.BEAT)
  }

  /** Beats for any byte string. */
  function Frames(s: seq<Byte>): (bs: seq<Beat>)
    ensures CarriesAll(bs, s)
    decreases |s|
  {
    if s == [] then [] else [BeatOf(s)] + Frames(Behind(s))
  }

  /** A message of n zero bytes. */
  function Blank(n: nat): (m: Message)
    ensures |m| == n
  {
    seq(n, _ => 0)
  }

  function Sample(ms: seq<Message>): Packet {
    Packet(Blank(10), 0, ms)
  }

  lemma SampleFits(ms: seq<Message>)
    requires 1 <= |ms| < 0xFFFF && AllLong(ms)
    ensures Deliverable(Sample(ms))
    ensures |Encode(Sample(ms))| == HEADER_LENGTH + 2 * |ms| + MessageBytes(ms)
  {
    assert Radix(8) > 0;
    EncodeFields(Sample(ms));
    BlocksLength(ms);
  }

  ghost predicate Delivered(m: Regs, bs: seq<Beat>, p: Packet, got: seq<Record>) {
    Collect(got, Shown(m, bs)) == got + Tagged(p.messages, FirstId(p))
  }

  /** One message of the condition on the held length. */
  lemma KeptStep(held: Word, m: Message, ms: seq<Message>, offset: nat, overrun: bool)
    requires SHORTEST <= |m| < 0x1_0000 && AllLong(ms) && AllLong([m] + ms)
    ensures var now: Word := if 1 <= offset % D.BEAT <= 6 then |m| else held;
            Kept(held, [m] + ms, offset, overrun)
            == ((Straddled(m, offset) ==> Guessed(now, ms, overrun)) && Kept(now, ms, Onward(offset, m), overrun))
  {
    assert ([m] + ms)[1..] == ms;
  }

  lemma KeptNone(held: Word, offset: nat, overrun: bool)
    ensures Kept(held, [], offset, overrun) && NoStraddle([], offset)
  {}

  /** One message of the condition on straddled messages. */
  lemma NoStraddleStep(m: Message, ms: seq<Message>, offset: nat)
    ensures NoStraddle([m] + ms, offset) == (!Straddled(m, offset) && NoStraddle(ms, Onward(offset, m)))
  {
    assert ([m] + ms)[1..] == ms;
  }

  // ----- a straddled message behind a length that the mux has selected -----

  function FourMessages(last: nat): seq<Message> {
    [Blank(11)] + ([Blank(12)] + ([Blank(7)] + [Blank(last)]))
  }

  lemma FourLong(last: nat)
    requires SHORTEST <= last < 100
    ensures AllLong(FourMessages(last))
    ensures MessageBytes(FourMessages(last)) == 30 + last
    ensures FourMessages(last)[1..] == [Blank(12)] + ([Blank(7)] + [Blank(last)])
  {
    var a := [Blank(12)] + ([Blank(7)] + [Blank(last)]);
    assert FourMessages(last)[1..] == a;
    assert a[1..] == [Blank(7)] + [Blank(last)];
    assert a[1..][1..] == [Blank(last)];
    assert MessageBytes([Blank(last)]) == last + MessageBytes([]);
    assert MessageBytes(a[1..]) == 7 + last;
  }

  /** The seven-byte message's successor is taken to have 12 bytes. */
  lemma FourSuffices(held: Word, last: nat, overrun: bool)
    requires SHORTEST <= last < 100
    ensures Deliverable(Sample(FourMessages(last))) && !Unstraddled(Sample(FourMessages(last)))
    ensures HeldSuffices(held, Sample(FourMessages(last)), overrun) <==> Guessed(12, [Blank(last)], overrun)
  {
    var ms, l := FourMessages(last), Blank(last);
    FourLong(last);
    SampleFits(ms);
    hide Kept, NoStraddle;
    KeptNone(12, Onward(0, l), overrun);
    assert AllLong([Blank(12)] + ([Blank(7)] + [l])) && AllLong([Blank(7)] + [l]) && AllLong([l] + []);
    KeptStep(held, Blank(12), [Blank(7)] + [l], 1, overrun);
    KeptStep(12, Blank(7), [l], 7, overrun);
    KeptStep(12, l, [], 0, overrun);
    assert [l] + [] == [l];
    NoStraddleStep(Blank(11), [Blank(12)] + ([Blank(7)] + [l]), HEADER_LENGTH);
    NoStraddleStep(Blank(12), [Blank(7)] + [l], 1);
    NoStraddleStep(Blank(7), [l], 7);
  }

  /** Messages of 11, 12, 7 and 13 bytes are never delivered, whatever the registers hold. */
  lemma StraddledFails(m: Regs, bs: seq<Beat>, got: seq<Record>)
    requires CleanIdle(m) && CarriesAll(bs, Encode(Sample(FourMessages(13))))
    ensures var p := Sample(FourMessages(13));
            Deliverable(p) && !Unstraddled(p) && !Delivered(m, bs, p, got)
  {
    hide Next, Outputs, HeldBehindHeader, HeldSuffices;
    var p := Sample(FourMessages(13));
    FourSuffices(0, 13, true);
    FourSuffices(HeldBehindHeader(m, p), 13, true);
    DeliversPacket(m, bs, p, got);
  }

  /** Messages of 11, 12, 7 and 12 bytes always are: the length that is held happens to be right. */
  lemma StraddledPasses(m: Regs, bs: seq<Beat>, got: seq<Record>)
    requires CleanIdle(m) && CarriesAll(bs, Encode(Sample(FourMessages(12))))
    ensures var p := Sample(FourMessages(12));
            Deliverable(p) && !Unstraddled(p) && Delivered(m, bs, p, got)
  {
    hide Next, Outputs, HeldBehindHeader, HeldSuffices;
    var p := Sample(FourMessages(12));
    FourSuffices(0, 12, true);
    FourSuffices(HeldBehindHeader(m, p), 12, true);
    FourLong(12);
    SampleFits(FourMessages(12));
    assert Last(p.messages) == Blank(12);
    DeliversPacket(m, bs, p, got);
  }

  // ----- a straddled message behind the header -----

  function ThreeMessages(last: nat): seq<Message> {
    [Blank(9)] + ([Blank(7)] + [Blank(last)])
  }

  lemma ThreeSuffices(held: Word, last: nat, overrun: bool)
    requires SHORTEST <= last < 100
    ensures Deliverable(Sample(ThreeMessages(last))) && !Unstraddled(Sample(ThreeMessages(last)))
    ensures HeldSuffices(held, Sample(ThreeMessages(last)), overrun) <==> Guessed(held, [Blank(last)], overrun)
    ensures |Encode(Sample(ThreeMessages(last)))| == 42 + last
  {
    var ms, l := ThreeMessages(last), Blank(last);
    assert ms[1..] == [Blank(7)] + [l] && ms[1..][1..] == [l];
    assert MessageBytes([l]) == last + MessageBytes([]);
    assert MessageBytes(ms[1..]) == 7 + last && MessageBytes(ms) == 16 + last;
    assert AllLong(ms) && AllLong([Blank(7)] + [l]) && AllLong([l] + []);
    SampleFits(ms);
    hide Kept, NoStraddle, MessageBytes, Encode, Packet.Fits;
    KeptNone(held, Onward(0, l), overrun);
    KeptStep(held, Blank(7), [l], 7, overrun);
    KeptStep(held, l, [], 0, overrun);
    assert [l] + [] == [l];
    NoStraddleStep(Blank(9), [Blank(7)] + [l], HEADER_LENGTH);
    NoStraddleStep(Blank(7), [l], 7);
  }

  /** Messages of 9, 7 and 10 bytes: delivered only if the mux holds a 10 from before the packet. */
  lemma HeldFromBefore(m: Regs, bs: seq<Beat>, got: seq<Record>)
    requires CleanIdle(m) && m.dispatch.msgLen == 0 && CarriesAll(bs, Encode(Sample(ThreeMessages(10))))
    ensures Delivered(m, bs, Sample(ThreeMessages(10)), got) <==> m.dispatch.lenHeld == 10
  {
    hide Next, Outputs, HeldBehindHeader, HeldSuffices;
    var p := Sample(ThreeMessages(10));
    ThreeSuffices(0, 10, true);
    HeldFromReset(m, p);
    ThreeSuffices(HeldBehindHeader(m, p), 10, true);
    assert Last(p.messages) == Blank(10);
    DeliversPacket(m, bs, p, got);
  }

  /**
   Messages of 9, 7 and 14 bytes are delivered with a length of 100 held, though that is
   wrong; and though the packet is a whole number of beats, the receiver is ready behind it.
   */
  lemma OverrunPasses(m: Regs, bs: seq<Beat>, got: seq<Record>)
    requires CleanIdle(m) && m.dispatch.msgLen == 0 && m.dispatch.lenHeld == 100
    requires CarriesAll(bs, Encode(Sample(ThreeMessages(14))))
    ensures var p := Sample(ThreeMessages(14));
            Deliverable(p) && Delivered(m, bs, p, got) && !HeldRight(m, p) && |Encode(p)| == 56
    ensures CleanIdle(Run(m, bs)) && OneHot(Run(m, bs).dispatch)
  {
    hide Next, Outputs, HeldBehindHeader, HeldSuffices, OneHot, Encode, Deliverable, Unstraddled, NoStraddle;
    var p := Sample(ThreeMessages(14));
    ThreeSuffices(0, 14, true);
    HeldFromReset(m, p);
    ThreeSuffices(HeldBehindHeader(m, p), 14, true);
    ThreeSuffices(HeldBehindHeader(m, p), 14, false);
    assert p.messages != [] && Last(p.messages) == Blank(14);
    DeliversPacket(m, bs, p, got);
    LeavesCleanIdle(m, bs, p);
    LeavesOneHot(m, bs, p);
  }

  // ----- no straddled message -----

  lemma TwoLengths(a: nat, b: nat)
    requires SHORTEST <= a < 100 && SHORTEST <= b < 100 && (HEADER_LENGTH + 2 + a) % D.BEAT != 7
    ensures var p := Sample([Blank(a)] + [Blank(b)]);
            && Deliverable(p) && Unstraddled(p) && |Encode(p)| == 24 + a + b
  {
    var ms := [Blank(a)] + [Blank(b)];
    assert ms[1..] == [Blank(b)] && MessageBytes([Blank(b)]) == b + MessageBytes([]);
    SampleFits(ms);
    NoStraddleStep(Blank(a), [Blank(b)], HEADER_LENGTH);
    assert [Blank(b)] + [] == [Blank(b)];
    NoStraddleStep(Blank(b), [], Onward(HEADER_LENGTH, Blank(a)));
  }

  /** Messages of 8 and 7 bytes: the second starts on the last beat and is lost. */
  lemma LastStartFails(m: Regs, bs: seq<Beat>, got: seq<Record>)
    requires CleanIdle(m) && CarriesAll(bs, Encode(Sample([Blank(8)] + [Blank(7)])))
    ensures var p := Sample([Blank(8)] + [Blank(7)]);
            Deliverable(p) && Unstraddled(p) && !Delivered(m, bs, p, got)
  {
    hide Next, Outputs, Encode, Deliverable, Unstraddled;
    var p := Sample([Blank(8)] + [Blank(7)]);
    TwoLengths(8, 7);
    assert p.messages != [];
    assert Last(p.messages) == Blank(7);
    DeliversUnstraddled(m, bs, p, got);
  }

  /** Packets of 55 and 56 bytes are delivered and leave the receiver not ready for another. */
  lemma NotReadyBehind(m: Regs, bs: seq<Beat>, got: seq<Record>, total: nat)
    requires 55 <= total <= 56 && CleanIdle(m)
    requires CarriesAll(bs, Encode(Sample([Blank(12)] + [Blank(total - 36)])))
    ensures var p := Sample([Blank(12)] + [Blank(total - 36)]);
            Deliverable(p) && |Encode(p)| == total && Delivered(m, bs, p, got) && !CleanIdle(Run(m, bs))
  {
    hide Next, Outputs, HeldRight, HeldEnough, Encode, Deliverable, Unstraddled;
    var p := Sample([Blank(12)] + [Blank(total - 36)]);
    TwoLengths(12, total - 36);
    assert Last(p.messages) == Blank(total - 36);
    DeliversUnstraddled(m, bs, p, got);
    UnstraddledRight(m, p);
    RightEnough(m, p);
    LeavesCleanIdle(m, bs, p);
  }

  /** Two such packets in a row: both are delivered exactly when the gap brings a late last flag. */
  lemma BackToBack(m: Regs, gap: seq<Beat>, got: seq<Record>)
    requires CleanIdle(m) && AllIdle(gap)
    ensures var p := Sample([Blank(12)] + [Blank(20)]);
            var x := Burst(p, Frames(Encode(p)), gap);
            Collect(got, Shown(m, Line([x, x]))) == got + Expected([x, x]) <==> LateLast(gap)
  {
    hide Next, Outputs, Encode, Deliverable, Unstraddled, LateLast, CarriesAll, CleanIdle, NoStraddle, Line, Expected;
    var p := Sample([Blank(12)] + [Blank(20)]);
    TwoLengths(12, 20);
    assert p.messages != [] && Last(p.messages) == Blank(20);
    var x := Burst(p, Frames(Encode(p)), gap);
    assert x.Proper() && Acceptable(p);
    DeliversRestored(m, [], [x, x], got);
    assert [] + Line([x, x]) == Line([x, x]);
    assert AllRestored([x, x]) <==> [x, x][0].Restored();
  }
}
