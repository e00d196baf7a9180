/**
 The C test bench: packets from a list of messages (tv.c), and its loop against the
 receiver, a beat per clock.
 */
module TestBench {
  import opened Bytes
  import opened MoldFormat
  import opened Receiver
  import opened Delivery
  import opened DispatchSteps
  import opened PacketProof
  import opened Headers
  import opened Packets
  import opened ReceiverRuns
  import opened Encoder
  import opened Axis
  import opened Slist
  import D = Dispatch

  /** ITCH_MSG_MAX_LEN */
  const ITCH_MSG_MAX_LEN := 50

  /** The queue entries of messages sent under consecutive sequence numbers. */
  function EntriesFrom(sid: seq<Byte>, seqNum: nat, ms: seq<Message>): seq<Entry>
    requires |sid| == 10 && seqNum + |ms| <= TWO_64
    decreases |ms|
  {
    if ms == [] then []
    else [Entry(DebugIdBytes(sid, seqNum, 0), ms[0])] + EntriesFrom(sid, seqNum + 1, ms[1..])
  }

  lemma DebugIdFrom(sid: seq<Byte>, seqNum: nat, k: nat)
    requires |sid| == 10 && seqNum + k < TWO_64
    ensures k > 0 ==> DebugIdBytes(sid, seqNum, k) == DebugIdBytes(sid, seqNum + 1, k - 1)
  {}

  /** The k-th message of a list carries the k-th sequence number after the first. */
  lemma {:induction false} EntriesAt(sid: seq<Byte>, seqNum: nat, ms: seq<Message>, k: nat)
    requires |sid| == 10 && seqNum + |ms| <= TWO_64 && k < |ms|
    ensures |EntriesFrom(sid, seqNum, ms)| == |ms|
    ensures EntriesFrom(sid, seqNum, ms)[k] == Entry(DebugIdBytes(sid, seqNum, k), ms[k])
    decreases |ms|
  {
    hide DebugIdBytes;
    DebugIdFrom(sid, seqNum, k);
    if |ms| == 1 {
      assert EntriesFrom(sid, seqNum + 1, ms[1..]) == [];
    } else {
      EntriesAt(sid, seqNum + 1, ms[1..], if k == 0 then 0 else k - 1);
    }
  }

  lemma {:induction false} EntriesConcat(sid: seq<Byte>, seqNum: nat, a: seq<Message>, b: seq<Message>)
    requires |sid| == 10 && seqNum + |a| + |b| <= TWO_64
    ensures EntriesFrom(sid, seqNum, a + b) == EntriesFrom(sid, seqNum, a) + EntriesFrom(sid, seqNum + |a|, b)
    decreases |a|
  {
    hide DebugIdBytes;
    if a == [] {
      assert a + b == b;
    } else {
      assert (a + b)[1..] == a[1..] + b;
      EntriesConcat(sid, seqNum + 1, a[1..], b);
    }
  }

  /** tv_t.  file holds the messages that are still to be read. */
  class Tv {
    const mold: Mold
    const fifo: Head
    var flat: array?<Byte>
    var flatIdx: nat
    var file: seq<Message>

    ghost predicate Valid()
      reads this, mold, mold.msg, fifo, fifo.nodes
    {
      && mold.Valid() && mold.cnt == 0
      && fifo.Valid()
      && (forall k | 0 <= k < |file| :: 0 < |file[k]| <= ITCH_MSG_MAX_LEN)
    }

    constructor (sid: seq<Byte>, seqNum: nat, file: seq<Message>)
      requires |sid| == 10 && seqNum < TWO_64
      requires forall k | 0 <= k < |file| :: 0 < |file[k]| <= 50
      ensures Valid() && this.file == file && fifo.nodes == [] && flat == null && flatIdx == 0
      ensures mold.sid == sid && mold.seqNum == seqNum
      ensures fresh(mold) && fresh(mold.msg) && fresh(fifo)
    {
      mold := new Mold(sid, seqNum);
      fifo := new Head();
      flat, flatIdx, this.file := null, 0, file;
    }

    /** Messages that a packet of itchN takes: fewer at the end of the file. */
    function Take(itchN: nat): (n: nat)
      reads this
      ensures n <= itchN && n <= |file| && (n == itchN || n == |file|)
    {
      if itchN <= |file| then itchN else |file|
    }

    /** k messages are gone from the file: as many as asked for, or all that were left. */
    ghost predicate TakenFrom(before: seq<Message>, itchN: nat, k: nat)
      reads this
    {
      k <= itchN && k <= |before| && file == before[k..] && (k == itchN || file == [])
    }

    /** k messages of all are in the packet, and on the queue behind start. */
    ghost predicate Reading(sid: seq<Byte>, seqNum: nat, all: seq<Message>, k: nat, start: seq<Entry>)
      reads this, mold, mold.msg, fifo, fifo.nodes
    {
      && mold.Valid() && mold.sid == sid && mold.seqNum == seqNum && mold.cnt == k
      && fifo.Valid()
      && k <= |all| && seqNum + k < TWO_64
      && mold.Messages() == all[..k] && file == all[k..]
      && fifo.Entries() == start + EntriesFrom(sid, seqNum, all[..k])
    }

    /** One message from the file into the packet and, with its id, on the queue. */
    method ReadMessage(msgCnt: nat, ghost all: seq<Message>, ghost start: seq<Entry>) returns (ghost node: Node)
      requires Reading(mold.sid, mold.seqNum, all, msgCnt, start)
      requires file != [] && 0 < |file[0]| <= ITCH_MSG_MAX_LEN
      requires msgCnt < MSG_CNT_MAX && mold.seqNum + msgCnt + 1 < TWO_64
      modifies this`file, mold, mold.msg, fifo, fifo.nodes
      ensures mold.sid == old(mold.sid) && mold.seqNum == old(mold.seqNum)
      ensures Reading(mold.sid, mold.seqNum, all, msgCnt + 1, start)
      ensures fresh(node) && fifo.nodes == old(fifo.nodes) + [node]
    {
      hide EntriesFrom, Head.Valid;
      var buff := file[0];
      file := file[1..];
      mold.AddMsg(buff);
      EntriesNext(mold.sid, mold.seqNum, all, msgCnt, start);
      assert all[..msgCnt + 1] == all[..msgCnt] + [buff];
      node := fifo.FifoPush(buff, DebugIdBytes(mold.sid, mold.seqNum, msgCnt));
    }

    /** Up to itchN messages. */
    method ReadMessages(itchN: nat) returns (ghost added: seq<Node>)
      requires Valid() && Take(itchN) <= MSG_CNT_MAX && mold.seqNum + Take(itchN) < TWO_64
      modifies this`file, mold, mold.msg, fifo, fifo.nodes
      ensures mold.sid == old(mold.sid) && mold.seqNum == old(mold.seqNum)
      ensures Reading(mold.sid, mold.seqNum, old(file), old(Take(itchN)), old(fifo.Entries()))
      ensures TakenFrom(old(file), itchN, mold.cnt)
      ensures fresh(added) && fifo.nodes == old(fifo.nodes) + added
    {
      hide EntriesFrom, Head.Valid, Head.Entries;
      ghost var start, all := fifo.Entries(), file;
      added := [];
      NoEntries(mold.sid, mold.seqNum, all, start);
      for msgCnt := 0 to itchN
        invariant mold.sid == old(mold.sid) && mold.seqNum == old(mold.seqNum)
        invariant Reading(mold.sid, mold.seqNum, all, msgCnt, start)
        invariant fresh(added) && fifo.nodes == old(fifo.nodes) + added
      {
        if file == [] {
          break;
        }
        assert file[0] == all[msgCnt];
        ghost var node := ReadMessage(msgCnt, all, start);
        added := added + [node];
      }
    }

    /** The flat form of the messages read, and the structure cleared for the next packet. */
    method FlattenAndClear()
      requires mold.Valid() && mold.seqNum + mold.cnt < TWO_64
      modifies this`flat, this`flatIdx, mold, mold.msg
      ensures mold.Valid() && mold.cnt == 0 && mold.sid == old(mold.sid)
      ensures mold.seqNum == old(mold.seqNum) + old(mold.cnt) && flatIdx == 0
      ensures old(mold.cnt) == 0 ==> flat == null
      ensures old(mold.cnt) > 0 ==> flat != null && fresh(flat) && flat[..] == old(Encode(mold.AsPacket()))
    {
      if mold.cnt > 0 {
        flat := mold.Flatten();
      } else {
        flat := null;
      }
      flatIdx := 0;
      mold.Clear();
    }

    /** tv_create_packet */
    method CreatePacket(itchN: nat) returns (ghost added: seq<Node>)
      requires Valid() && Take(itchN) <= MSG_CNT_MAX && mold.seqNum + Take(itchN) < TWO_64
      modifies this, mold, mold.msg, fifo, fifo.nodes
      ensures Valid() && mold.sid == old(mold.sid) && flatIdx == 0
      ensures var n := old(Take(itchN));
              var taken := old(file[..n]);
              && TakenFrom(old(file), itchN, n)
              && mold.seqNum == old(mold.seqNum) + n && file == old(file[n..])
              && fifo.Entries() == old(fifo.Entries()) + EntriesFrom(mold.sid, old(mold.seqNum), taken)
              && (n == 0 ==> flat == null)
              && (n > 0 ==> flat != null && fresh(flat))
              && (n > 0 ==> flat[..] == Encode(Packet(Reverse(mold.sid), old(mold.seqNum), taken)))
      ensures fresh(added) && fifo.nodes == old(fifo.nodes) + added
    {
      hide Encode, Head.Valid;
      added := ReadMessages(itchN);
      FlattenAndClear();
    }

    /** The beat at the index, which moves on. */
    method TakeBeat() returns (tdata: D.Lane, tkeep: seq<bool>, tlast: bool)
      requires flat != null && flatIdx < flat.Length < TWO_64 - 8
      modifies this`flatIdx
      ensures flatIdx == old(flatIdx) + D.BEAT
      ensures var ahead := flat[old(flatIdx)..];
              Carries(tdata, ahead) && Thermometer(tkeep, |ahead|) && tlast == (|ahead| <= D.BEAT)
    {
      hide Carries, Thermometer;
      tlast := AxisMsgLast(flatIdx, flat.Length);
      var next;
      tdata, tkeep, next := AxisGetNext64b(flat, flatIdx);
      flatIdx := next;
    }

    /** flat_l */
    function FlatL(): nat
      reads this
    {
      if flat == null then 0 else flat.Length
    }

    /**
     tv_axis_get_next_64b: the next beat of the packet, or the first of a new packet of up
     to itchN messages when the packet is finished.  At the end of the file there is no
     packet, tdata is not initialised and tkeep is left alone.
     */
    method NextBeat(itchN: nat) returns (tdata: D.Lane, tkeep: seq<bool>, tlast: bool, ghost added: seq<Node>)
      requires Valid() && flatIdx < TWO_64 && FlatL() < TWO_64 - 8
      requires if flat == null then flatIdx == 0 else flat.Length > 0
      requires FinishedNow() ==> Take(itchN) <= MSG_CNT_MAX && mold.seqNum + Take(itchN) < TWO_64
      modifies this, mold, mold.msg, fifo, fifo.nodes
      ensures Valid() && mold.sid == old(mold.sid)
      ensures var n := if old(FinishedNow()) then old(Take(itchN)) else 0;
              && (if old(FinishedNow()) then TakenFrom(old(file), itchN, n) else file == old(file))
              && mold.seqNum == old(mold.seqNum) + n && file == old(file[n..])
              && fifo.Entries() == old(fifo.Entries()) + EntriesFrom(mold.sid, old(mold.seqNum), old(file[..n]))
              && (flat == null <==> if old(FinishedNow()) then n == 0 else old(flat) == null)
      ensures flat == null ==> !tlast && flatIdx == 0
      ensures flat != null ==>
                var ahead :=
                  if old(FinishedNow())
                  then old(Encode(PacketAhead(mold.sid, mold.seqNum, file, Take(itchN)))) else old(Ahead());
                && D.BEAT <= flatIdx < flat.Length + D.BEAT
                && Carries(tdata, ahead) && Thermometer(tkeep, |ahead|) && tlast == (|ahead| <= D.BEAT)
                && flat[flatIdx - D.BEAT..] == ahead
      ensures fresh(added) && fifo.nodes == old(fifo.nodes) + added
    {
      hide Encode, EntriesFrom, Head.Valid, Carries, Thermometer;
      added := [];
      NoEntries(mold.sid, mold.seqNum, file, fifo.Entries());
      FinishedMeaning(flatIdx, FlatL());
      if AxisMsgFinished(flatIdx, FlatL()) {
        AheadBound(mold.sid, mold.seqNum, file, Take(itchN));
        added := CreatePacket(itchN);
        assert flat != null ==> flat[0..] == flat[..];
      }
      tdata, tkeep, tlast := *, *, *;
      if flat != null {
        tdata, tkeep, tlast := TakeBeat();
      } else {
        tlast := AxisMsgLast(flatIdx, FlatL());
      }
    }

    /** The packet is read to its end. */
    predicate FinishedNow()
      reads this
    {
      flat != null && flatIdx >= flat.Length
    }

    /** What is left of the packet. */
    function Ahead(): seq<Byte>
      requires !FinishedNow()
      reads this, flat
    {
      if flat == null then [] else flat[flatIdx..]
    }
  }

  lemma NoEntries(sid: seq<Byte>, seqNum: nat, all: seq<Message>, start: seq<Entry>)
    requires |sid| == 10 && seqNum <= TWO_64
    ensures start + EntriesFrom(sid, seqNum, all[..0]) == start
  {}

  /** One more message. */
  lemma EntriesNext(sid: seq<Byte>, seqNum: nat, all: seq<Message>, k: nat, start: seq<Entry>)
    requires |sid| == 10 && k < |all| && seqNum + k < TWO_64
    ensures start + EntriesFrom(sid, seqNum, all[..k + 1])
         == start + EntriesFrom(sid, seqNum, all[..k]) + [Entry(DebugIdBytes(sid, seqNum, k), all[k])]
  {
    hide DebugIdBytes;
    assert all[..k + 1] == all[..k] + [all[k]];
    EntriesConcat(sid, seqNum, all[..k], [all[k]]);
    OneEntry(sid, seqNum, k, all[k]);
    var es, e := EntriesFrom(sid, seqNum, all[..k]), Entry(DebugIdBytes(sid, seqNum, k), all[k]);
    assert start + (es + [e]) == start + es + [e];
  }

  lemma OneEntry(sid: seq<Byte>, seqNum: nat, k: nat, m: Message)
    requires |sid| == 10 && seqNum + k < TWO_64
    ensures EntriesFrom(sid, seqNum + k, [m]) == [Entry(DebugIdBytes(sid, seqNum, k), m)]
  {
    assert EntriesFrom(sid, seqNum + k + 1, [m][1..]) == [];
    assert DebugIdBytes(sid, seqNum + k, 0) == DebugIdBytes(sid, seqNum, k);
  }

  /** The id that a debug id, read as a number { sid, seq }, stands for. */
  function DecodeDebugId(bytes: seq<Byte>): MessageId {
    MessageId(LittleEndian(bytes) / TWO_64, LittleEndian(bytes) % TWO_64)
  }

  /** The record with the message and just the id of a queue entry. */
  function RecordOf(e: Entry): Record {
    Record(e.message, {DecodeDebugId(e.debugId)})
  }

  function AsExpected(es: seq<Entry>): seq<Record> {
    if es == [] then [] else [RecordOf(es[0])] + AsExpected(es[1..])
  }

  lemma DecodedId(sid: seq<Byte>, seqNum: nat, offset: nat)
    requires |sid| == 10 && seqNum + offset < TWO_64
    ensures DecodeDebugId(DebugIdBytes(sid, seqNum, offset))
         == MessageId(BigEndian(Reverse(sid)), (seqNum + offset) % TWO_64)
  {
    DebugIdValue(sid, seqNum, offset);
  }

  lemma FirstExpectation(sid: seq<Byte>, seqNum: nat, m: Message)
    requires |sid| == 10 && seqNum < TWO_64
    ensures RecordOf(Entry(DebugIdBytes(sid, seqNum, 0), m)) == Record(m, {MessageId(BigEndian(Reverse(sid)), seqNum)})
  {
    DecodedId(sid, seqNum, 0);
  }

  /** What the queue expects is what the format promises; id is that of the first message. */
  lemma {:induction false} ExpectationsAgree(sid: seq<Byte>, seqNum: nat, ms: seq<Message>, id: MessageId)
    requires |sid| == 10 && seqNum + |ms| <= TWO_64 && id == MessageId(BigEndian(Reverse(sid)), seqNum)
    ensures AsExpected(EntriesFrom(sid, seqNum, ms)) == Tagged(ms, id)
    decreases |ms|
  {
    hide DebugIdBytes, RecordOf, BigEndian, Reverse;
    if ms != [] {
      FirstExpectation(sid, seqNum, ms[0]);
      EntriesTail(sid, seqNum, ms);
      TaggedTail(ms, id);
      if |ms| == 1 {
        assert EntriesFrom(sid, seqNum + 1, ms[1..]) == [] && Tagged(ms[1..], Later(id, 1)) == [];
      } else {
        ExpectationsAgree(sid, seqNum + 1, ms[1..], Later(id, 1));
      }
    }
  }

  /** The first tag of a list of messages. */
  lemma TaggedTail(ms: seq<Message>, id: MessageId)
    requires ms != []
    ensures Tagged(ms, id) == [Record(ms[0], {id})] + Tagged(ms[1..], Later(id, 1))
  {}

  lemma EntriesTail(sid: seq<Byte>, seqNum: nat, ms: seq<Message>)
    requires |sid| == 10 && seqNum + |ms| <= TWO_64 && ms != []
    ensures AsExpected(EntriesFrom(sid, seqNum, ms))
         == [RecordOf(Entry(DebugIdBytes(sid, seqNum, 0), ms[0]))] + AsExpected(EntriesFrom(sid, seqNum + 1, ms[1..]))
  {
    hide DebugIdBytes, RecordOf;
    var e, es := Entry(DebugIdBytes(sid, seqNum, 0), ms[0]), EntriesFrom(sid, seqNum + 1, ms[1..]);
    assert EntriesFrom(sid, seqNum, ms) == [e] + es;
    assert ([e] + es)[1..] == es;
  }

  /**
   End to end, on values: build, flatten, frame, receive.  The receiver returns the
   messages that were put in, each with the debug id that the test bench expects.
   */
  lemma EndToEnd(m: Regs, sid: seq<Byte>, seqNum: nat, ms: seq<Message>, bs: seq<Beat>)
    requires CleanIdle(m) && |sid| == 10 && seqNum + |ms| <= TWO_64 && seqNum < TWO_64
    requires 1 <= |ms| <= MSG_CNT_MAX
    requires forall k | 0 <= k < |ms| :: 9 <= |ms[k]| < 0x1_0000
    requires CarriesAll(bs, Encode(Packet(Reverse(sid), seqNum, ms)))
    ensures Collect([], Shown(m, bs)) == AsExpected(EntriesFrom(sid, seqNum, ms))
  {
    var p := Packet(Reverse(sid), seqNum, ms);
    Radix8();
    LongIsUnstraddled(ms, HEADER_LENGTH);
    DeliversUnstraddled(m, bs, p, []);
    assert [] + Tagged(ms, FirstId(p)) == Tagged(ms, FirstId(p));
    ExpectationsAgree(sid, seqNum, ms, FirstId(p));
  }

  lemma {:induction false} LongIsUnstraddled(ms: seq<Message>, offset: nat)
    requires forall k | 0 <= k < |ms| :: 8 <= |ms[k]|
    ensures NoStraddle(ms, offset)
  {
    if ms != [] { LongIsUnstraddled(ms[1..], Onward(offset, ms[0])); }
  }

  // ----- the loop against the receiver -----

  /** One beat of the buffer, clocked into the receiver. */
  method SendBeat(flat: array<Byte>, idx: nat, rx: MoldUdp64, got0: seq<Record>)
      returns (b: Beat, next: nat, got: seq<Record>)
    requires idx < flat.Length < TWO_64 - 8
    modifies rx, rx.dispatch
    ensures flat[..] == old(flat[..]) && next == idx + 8
    ensures CarriesBeat(b, flat[idx..]) && Thermometer(b.keep, flat.Length - idx)
    ensures rx.State() == Next(old(rx.State()), b)
    ensures got == Deliver(got0, Outputs(old(rx.State()), b))
  {
    hide Next, Outputs;
    var last := AxisMsgLast(idx, flat.Length);
    var data, keep, n := AxisGetNext64b(flat, idx);
    b, next := Beat(true, data, keep, last), n;
    var o := rx.Clock(b);
    got := Deliver(got0, o);
  }

  /**
   A packet's beats, one per clock, into the receiver, whose outputs are put together on
   the way.
   */
  method Transmit(flat: array<Byte>, rx: MoldUdp64, got0: seq<Record>)
      returns (bs: seq<Beat>, got: seq<Record>)
    requires 0 < flat.Length < TWO_64 - 8
    modifies rx, rx.dispatch
    ensures Framed(bs, flat[..])
    ensures rx.State() == Run(old(rx.State()), bs)
    ensures got == Collect(got0, Shown(old(rx.State()), bs))
  {
    hide Next, Outputs, Continues, CarriesBeat, Thermometer, MoldUdp64.State;
    ghost var m0, all := rx.State(), flat[..];
    bs, got := [], got0;
    var idx := 0;
    assert flat[0..] == all;
    ContinuesStart(all);
    while !AxisMsgFinished(idx, flat.Length)
      invariant flat[..] == all && idx == 8 * |bs| && idx < flat.Length + 8
      invariant Continues(bs, all[Min(idx, |all|)..], all)
      invariant rx.State() == Run(m0, bs) && got == Collect(got0, Shown(m0, bs))
      decreases flat.Length + 8 - idx
    {
      var b, next, got' := SendBeat(flat, idx, rx, got);
      ClockBehind(m0, bs, b, got0);
      assert flat[idx..] == all[idx..];
      BeatBehind(bs, b, all, idx);
      bs, idx, got := bs + [b], next, got';
    }
    assert all[Min(idx, |all|)..] == [];
    ContinuesEnd(bs, all);
  }

  lemma BeatBehind(bs: seq<Beat>, b: Beat, all: seq<Byte>, idx: nat)
    requires idx < |all| && Continues(bs, all[idx..], all)
    requires CarriesBeat(b, all[idx..]) && Thermometer(b.keep, |all| - idx)
    ensures Continues(bs + [b], all[Min(idx + 8, |all|)..], all)
  {
    ContinuesStep(bs, b, all[idx..], all);
    assert Behind(all[idx..]) == all[Min(idx + 8, |all|)..];
  }

  lemma ClockBehind(m: Regs, bs: seq<Beat>, b: Beat, got: seq<Record>)
    ensures Run(m, bs + [b]) == Next(Run(m, bs), b)
    ensures Collect(got, Shown(m, bs + [b])) == Deliver(Collect(got, Shown(m, bs)), Outputs(Run(m, bs), b))
  {
    DeliveryConcat(m, bs, [b], got);
    var m' := Run(m, bs);
    assert [b][1..] == [] && Shown(m', [b]) == [Outputs(m', b)];
    var got' := Collect(got, Shown(m, bs));
    assert Collect(got', [Outputs(m', b)]) == Deliver(got', Outputs(m', b));
  }

  lemma {:induction false} BlocksBound(ms: seq<Message>)
    requires forall k | 0 <= k < |ms| :: |ms[k]| <= ITCH_MSG_MAX_LEN
    ensures |Blocks(ms)| <= 52 * |ms|
  {
    if ms != [] { BlocksBound(ms[1..]); }
  }

  lemma {:induction false} BlocksFit(ms: seq<Message>)
    requires AllFit(ms)
    ensures |Blocks(ms)| <= 0x1_0002 * |ms|
  {
    if ms != [] { BlocksFit(ms[1..]); }
  }

  lemma FlatBound(p: Packet)
    requires p.Fits() && |p.messages| <= MSG_CNT_MAX
    ensures 0 < |Encode(p)| < TWO_64 - 8
  {
    BlocksFit(p.messages);
  }

  /**
   End to end, by the routines: the packet is flattened, cut into beats and received, and
   what comes out are its messages, each with the debug id of the test bench.
   */
  method RoundTrip(mold: Mold, rx: MoldUdp64) returns (got: seq<Record>)
    requires mold.Valid() && mold.cnt >= 1 && mold.seqNum + mold.cnt <= TWO_64
    requires forall k | 0 <= k < mold.cnt :: |mold.Messages()[k]| >= 9
    requires CleanIdle(rx.State())
    modifies rx, rx.dispatch
    ensures got == AsExpected(EntriesFrom(mold.sid, mold.seqNum, mold.Messages()))
  {
    hide Next, Outputs, Encode, Framed, Mold.Messages, CleanIdle;
    ghost var m, p := rx.State(), mold.AsPacket();
    PacketFits(mold);
    FlatBound(p);
    var flat := mold.Flatten();
    var bs;
    bs, got := Transmit(flat, rx, []);
    FramedExact(bs, Encode(p));
    EndToEnd(m, mold.sid, mold.seqNum, p.messages, bs);
  }

  lemma PacketFits(mold: Mold)
    requires mold.Valid()
    ensures mold.AsPacket().Fits() && |mold.Messages()| == mold.cnt <= MSG_CNT_MAX
    ensures forall k | 0 <= k < mold.cnt :: |mold.Messages()[k]| < 0x1_0000
  {
    Radix8();
  }

  /** The packet made of the first n messages of the file. */
  function PacketAhead(sid: seq<Byte>, seqNum: nat, file: seq<Message>, n: nat): Packet
    requires n <= |file|
  {
    Packet(Reverse(sid), seqNum, file[..n])
  }

  /** The bench's loop: three clocks with valid low and everything else held. */
  const GAP := 3

  lemma ReadyBetween(m: Regs)
    requires CleanIdle(m)
    ensures Between(m)
  {}

  /** Behind them the receiver is ready, whatever the packet's length. */
  lemma ReceivesAcceptable(m: Regs, bs: seq<Beat>, p: Packet, gap: seq<Beat>)
    requires CleanIdle(m) && Acceptable(p) && Framed(bs, Encode(p))
    requires |gap| == GAP && AllIdle(gap) && gap[1].last
    ensures Collect([], Shown(m, bs + gap)) == Tagged(p.messages, FirstId(p))
    ensures CleanIdle(Run(m, bs + gap))
  {
    FramedExact(bs, Encode(p));
    var x := Burst(p, bs, gap);
    assert x.Proper();
    hide Next, Outputs, Encode, Acceptable, Deliverable, Framed, CarriesAll, Arrives, CleanIdle;
    AcceptableArrives(m, p);
    ReadyBetween(m);
    BurstRun(m, x, []);
    assert [] + x.Records() == x.Records();
  }

  /** The clocks behind a packet, with tlast still high. */
  method Pause(rx: MoldUdp64, quiet: Beat, got0: seq<Record>) returns (gap: seq<Beat>, got: seq<Record>)
    requires !quiet.valid
    modifies rx, rx.dispatch
    ensures gap == [quiet, quiet, quiet]
    ensures rx.State() == Run(old(rx.State()), gap)
    ensures got == Collect(got0, Shown(old(rx.State()), gap))
  {
    hide Next, Outputs;
    ghost var m := rx.State();
    gap, got := [], got0;
    for i := 0 to GAP
      invariant |gap| == i && (forall k | 0 <= k < i :: gap[k] == quiet)
      invariant rx.State() == Run(m, gap) && got == Collect(got0, Shown(m, gap))
    {
      ClockBehind(m, gap, quiet, got0);
      var o := rx.Clock(quiet);
      gap, got := gap + [quiet], Deliver(got, o);
    }
    assert gap == [quiet, quiet, quiet];
  }

  /** A flat packet transmitted and received, and the clocks behind it. */
  method ReceivePacket(flat: array<Byte>, ghost p: Packet, rx: MoldUdp64) returns (got: seq<Record>)
    requires CleanIdle(rx.State()) && Acceptable(p)
    requires flat[..] == Encode(p) && 0 < flat.Length < TWO_64 - 8
    modifies rx, rx.dispatch
    ensures got == Tagged(p.messages, FirstId(p)) && CleanIdle(rx.State())
  {
    hide Next, Outputs, Acceptable, CleanIdle, Framed, Encode;
    ghost var m := rx.State();
    var bs, gap;
    bs, got := Transmit(flat, rx, []);
    FramedExact(bs, Encode(p));
    var quiet := bs[|bs| - 1].(valid := false);
    gap, got := Pause(rx, quiet, got);
    DeliveryConcat(m, bs, gap, []);
    ReceivesAcceptable(m, bs, p, gap);
  }

  lemma AheadBound(sid: seq<Byte>, seqNum: nat, file: seq<Message>, n: nat)
    requires n <= |file| && n <= MSG_CNT_MAX && |sid| == 10
    requires forall k | 0 <= k < |file| :: 0 < |file[k]| <= ITCH_MSG_MAX_LEN
    ensures 0 < |Encode(PacketAhead(sid, seqNum, file, n))| < TWO_64 - 8
  {
    BlocksBound(file[..n]);
  }

  /** One packet: built, queued, transmitted, received. */
  method SimulatePacket(tv: Tv, rx: MoldUdp64, n: nat)
      returns (got: seq<Record>, ghost added: seq<Node>)
    requires tv.Valid() && 1 <= n <= MSG_CNT_MAX && n <= |tv.file| && tv.mold.seqNum + n < TWO_64
    requires CleanIdle(rx.State())
    requires Acceptable(PacketAhead(tv.mold.sid, tv.mold.seqNum, tv.file, n))
    modifies tv, tv.mold, tv.mold.msg, tv.fifo, tv.fifo.nodes, rx, rx.dispatch
    ensures tv.Valid() && CleanIdle(rx.State())
    ensures tv.mold.sid == old(tv.mold.sid) && tv.mold.seqNum == old(tv.mold.seqNum) + n
    ensures tv.file == old(tv.file[n..])
    ensures var sent := EntriesSent(tv.mold.sid, old(tv.mold.seqNum), old(tv.file), n);
            got == AsExpected(sent) && tv.fifo.Entries() == old(tv.fifo.Entries()) + sent
    ensures fresh(added) && tv.fifo.nodes == old(tv.fifo.nodes) + added
  {
    ghost var p := PacketAhead(tv.mold.sid, tv.mold.seqNum, tv.file, n);
    AheadBound(tv.mold.sid, tv.mold.seqNum, tv.file, n);
    added := tv.CreatePacket(n);
    got := ReceivePacket(tv.flat, p, rx);
    ExpectationsAgree(tv.mold.sid, p.seqNum, p.messages, FirstId(p));
  }

  /** Every packet of the run has its messages in the file and is acceptable. */
  predicate Sendable(sid: seq<Byte>, seqNum: nat, file: seq<Message>, counts: seq<nat>)
    decreases |counts|
  {
    counts == []
    || (var n := counts[0];
        && 1 <= n <= MSG_CNT_MAX && n <= |file| && seqNum + n < TWO_64
        && Acceptable(PacketAhead(sid, seqNum, file, n))
        && Sendable(sid, seqNum + n, file[n..], counts[1..]))
  }

  lemma AcceptableLong(sid: seq<Byte>, seqNum: nat, file: seq<Message>, n: nat)
    requires |sid| == 10 && 1 <= n <= MSG_CNT_MAX && n <= |file| && seqNum < TWO_64
    requires forall k | 0 <= k < |file| :: 9 <= |file[k]| <= ITCH_MSG_MAX_LEN
    ensures Acceptable(PacketAhead(sid, seqNum, file, n))
  {
    Radix8();
    LongIsUnstraddled(file[..n], HEADER_LENGTH);
  }

  /** Messages of nine bytes and more, as all of ITCH are, can be sent in packets of any sizes. */
  lemma {:induction false} SendableLong(sid: seq<Byte>, seqNum: nat, file: seq<Message>, counts: seq<nat>)
    requires |sid| == 10 && seqNum + Sum(counts) < TWO_64 && Sum(counts) <= |file|
    requires forall k | 0 <= k < |counts| :: 1 <= counts[k] <= 100
    requires forall k | 0 <= k < |file| :: 9 <= |file[k]| <= 50
    ensures Sendable(sid, seqNum, file, counts)
    decreases |counts|
  {
    hide Acceptable;
    if counts != [] {
      var n := counts[0];
      AcceptableLong(sid, seqNum, file, n);
      SendableLong(sid, seqNum + n, file[n..], counts[1..]);
    }
  }

  lemma SendableNext(sid: seq<Byte>, seqNum: nat, file: seq<Message>, counts: seq<nat>, i: nat)
    requires i < |counts| && Sendable(sid, seqNum, file, counts[i..])
    ensures var n := counts[i];
            && 1 <= n <= MSG_CNT_MAX && n <= |file| && seqNum + n < TWO_64
            && Acceptable(PacketAhead(sid, seqNum, file, n))
            && Sendable(sid, seqNum + n, file[n..], counts[i + 1..])
    ensures Sum(counts[i..]) == counts[i] + Sum(counts[i + 1..])
  {
    assert counts[i..][0] == counts[i] && counts[i..][1..] == counts[i + 1..];
  }

  function Sum(counts: seq<nat>): nat {
    if counts == [] then 0 else counts[0] + Sum(counts[1..])
  }

  lemma {:induction false} AsExpectedConcat(a: seq<Entry>, b: seq<Entry>)
    ensures AsExpected(a + b) == AsExpected(a) + AsExpected(b)
  {
    if a == [] {
      assert a + b == b;
    } else {
      assert (a + b)[1..] == a[1..] + b;
      AsExpectedConcat(a[1..], b);
    }
  }

  /** The entries that the run sends: the first n messages of the file. */
  function EntriesSent(sid: seq<Byte>, first: nat, file: seq<Message>, n: nat): seq<Entry>
    requires |sid| == 10 && n <= |file| && first + n <= TWO_64
  {
    EntriesFrom(sid, first, file[..n])
  }

  lemma EntriesSentConcat(sid: seq<Byte>, first: nat, file: seq<Message>, n: nat, k: nat)
    requires |sid| == 10 && n + k <= |file| && first + n + k <= TWO_64
    ensures EntriesSent(sid, first, file, n + k)
         == EntriesSent(sid, first, file, n) + EntriesSent(sid, first + n, file[n..], k)
  {
    assert file[..n + k] == file[..n] + file[n..][..k];
    EntriesConcat(sid, first, file[..n], file[n..][..k]);
  }

  /** n messages of the file are sent; each has its record and its entry on the queue. */
  ghost predicate Progress(tv: Tv, got: seq<Record>, sid: seq<Byte>, first: nat,
                           file: seq<Message>, queued: seq<Entry>, n: nat)
    reads tv, tv.mold, tv.mold.msg, tv.fifo, tv.fifo.nodes
  {
    && tv.Valid()
    && |sid| == 10 && n <= |file| && first + n < TWO_64
    && tv.mold.sid == sid && tv.mold.seqNum == first + n && tv.file == file[n..]
    && got == AsExpected(EntriesSent(sid, first, file, n))
    && tv.fifo.Entries() == queued + EntriesSent(sid, first, file, n)
  }

  /** One packet more. */
  method SimulateNext(tv: Tv, rx: MoldUdp64, count: nat, got0: seq<Record>,
                      ghost first: nat, ghost file: seq<Message>, ghost queued: seq<Entry>, ghost n: nat)
      returns (got: seq<Record>, ghost added: seq<Node>)
    requires Progress(tv, got0, tv.mold.sid, first, file, queued, n) && CleanIdle(rx.State())
    requires 1 <= count <= MSG_CNT_MAX && count <= |tv.file| && tv.mold.seqNum + count < TWO_64
    requires Acceptable(PacketAhead(tv.mold.sid, tv.mold.seqNum, tv.file, count))
    modifies tv, tv.mold, tv.mold.msg, tv.fifo, tv.fifo.nodes, rx, rx.dispatch
    ensures tv.mold.sid == old(tv.mold.sid) && tv.mold.seqNum == old(tv.mold.seqNum) + count
    ensures tv.file == old(tv.file[count..])
    ensures Progress(tv, got, tv.mold.sid, first, file, queued, n + count) && CleanIdle(rx.State())
    ensures fresh(added) && tv.fifo.nodes == old(tv.fifo.nodes) + added
  {
    hide Acceptable, CleanIdle, EntriesSent, AsExpected, Head.Entries, MoldUdp64.State;
    ghost var sid := tv.mold.sid;
    got, added := SimulatePacket(tv, rx, count);
    SentConcat(sid, first, file, n, first + n, file[n..], count, queued);
    assert file[n..][count..] == file[n + count..];
    got := got0 + got;
  }

  /**
   A whole run of packets of any lengths, from clean idle: the receiver returns one record
   per message sent, and each agrees with its entry on the queue.  The k-th message of the run carries the
   starting sequence number plus k.
   */
  method Simulate(tv: Tv, rx: MoldUdp64, counts: seq<nat>)
      returns (got: seq<Record>)
    requires tv.Valid() && CleanIdle(rx.State())
    requires Sendable(tv.mold.sid, tv.mold.seqNum, tv.file, counts)
    modifies tv, tv.mold, tv.mold.msg, tv.fifo, tv.fifo.nodes, rx, rx.dispatch
    ensures CleanIdle(rx.State()) && tv.Valid()
    ensures var n := Sum(counts);
            && n <= |old(tv.file)| && old(tv.mold.seqNum) + n < TWO_64
            && tv.mold.sid == old(tv.mold.sid) && tv.mold.seqNum == old(tv.mold.seqNum) + n
            && tv.file == old(tv.file)[n..]
            && var sent := EntriesFrom(tv.mold.sid, old(tv.mold.seqNum), old(tv.file)[..n]);
               got == AsExpected(sent) && tv.fifo.Entries() == old(tv.fifo.Entries()) + sent
  {
    hide Acceptable, CleanIdle, Sendable, EntriesSent, EntriesFrom, AsExpected, Tv.Valid, Head.Entries, MoldUdp64.State;
    hide Progress, Encode;
    ghost var sid, first, file, queued := tv.mold.sid, tv.mold.seqNum, tv.file, tv.fifo.Entries();
    ghost var n: nat, added: seq<Node> := 0, [];
    got := [];
    NothingSent(tv);
    for i := 0 to |counts|
      invariant CleanIdle(rx.State())
      invariant tv.mold.sid == sid && Progress(tv, got, sid, first, file, queued, n)
      invariant n + Sum(counts[i..]) == Sum(counts)
      invariant Sendable(sid, tv.mold.seqNum, tv.file, counts[i..])
      invariant fresh(added) && tv.fifo.nodes == old(tv.fifo.nodes) + added
    {
      SendableNext(sid, tv.mold.seqNum, tv.file, counts, i);
      ghost var more;
      got, more := SimulateNext(tv, rx, counts[i], got, first, file, queued, n);
      n, added := n + counts[i], added + more;
    }
    AllSent(tv, got, sid, first, file, queued, n);
  }

  lemma AllSent(tv: Tv, got: seq<Record>, sid: seq<Byte>, first: nat, file: seq<Message>, queued: seq<Entry>, n: nat)
    requires Progress(tv, got, sid, first, file, queued, n)
    ensures tv.Valid() && |sid| == 10 && n <= |file| && first + n < TWO_64
    ensures tv.mold.sid == sid && tv.mold.seqNum == first + n && tv.file == file[n..]
    ensures var sent := EntriesFrom(sid, first, file[..n]);
            got == AsExpected(sent) && tv.fifo.Entries() == queued + sent
  {}

  lemma NothingSent(tv: Tv)
    requires tv.Valid()
    ensures Progress(tv, [], tv.mold.sid, tv.mold.seqNum, tv.file, tv.fifo.Entries(), 0)
  {
    assert EntriesSent(tv.mold.sid, tv.mold.seqNum, tv.file, 0) == [];
  }

  lemma SentConcat(sid: seq<Byte>, first: nat, file: seq<Message>, n: nat,
                   first': nat, file': seq<Message>, k: nat, q: seq<Entry>)
    requires |sid| == 10 && n + k <= |file| && first + n + k <= TWO_64
    requires first' == first + n && file' == file[n..]
    ensures var a, b := EntriesSent(sid, first, file, n), EntriesSent(sid, first', file', k);
            var all := EntriesSent(sid, first, file, n + k);
            AsExpected(a) + AsExpected(b) == AsExpected(all) && q + a + b == q + all
  {
    var a, b := EntriesSent(sid, first, file, n), EntriesSent(sid, first', file', k);
    EntriesSentConcat(sid, first, file, n, k);
    AsExpectedConcat(a, b);
    assert q + a + b == q + (a + b);
  }
}
