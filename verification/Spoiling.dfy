/**
 A packet that is not delivered right leaves a record behind that no later packet makes
 right again.
 */
module Spoiling {
  import opened Bytes
  import opened MoldFormat
  import opened Receiver
  import opened Delivery
  import opened DispatchSteps
  import opened PacketProof
  import opened Headers
  import opened Straddle
  import opened Unready
  import opened Packets
  import D = Dispatch

  /**
   The record at place k is not the expected one: it is too long, has an id too many, or
   has another length and is closed.  sealed says that the last record is closed as well.
   */
  predicate Spoiled(all: seq<Record>, expected: seq<Record>, k: nat, sealed: bool) {
    && k < |all| && k < |expected|
    && (|| |all[k].bytes| > |expected[k].bytes|
        || !(all[k].ids <= expected[k].ids)
        || ((sealed || k + 1 < |all|) && |all[k].bytes| != |expected[k].bytes|))
  }

  /** Bytes and ids are never taken back. */
  lemma {:induction false} RecordsGrow(got: seq<Record>, outs: seq<Output>, k: nat)
    requires k < |got|
    ensures var all := Collect(got, outs);
            k < |all| && |all[k].bytes| >= |got[k].bytes| && got[k].ids <= all[k].ids && |all| >= |got|
    decreases outs
  {
    if outs != [] { RecordsGrow(Deliver(got, outs[0]), outs[1..], k); }
  }

  /** Whatever comes later, as long as a last record that counts as closed stays as it is. */
  lemma SpoiledStays(got: seq<Record>, expected: seq<Record>, k: nat, sealed: bool, outs: seq<Output>,
                     more: seq<Record>)
    requires Spoiled(got, expected, k, sealed)
    requires sealed && k + 1 == |got| ==> k < |Collect(got, outs)| && Collect(got, outs)[k] == got[k]
    ensures Spoiled(Collect(got, outs), expected + more, k, sealed)
  {
    RecordsGrow(got, outs, k);
    if k + 1 < |got| { ClosedStay(got, outs, k); }
  }

  lemma SpoiledDiffers(all: seq<Record>, expected: seq<Record>, k: nat, sealed: bool)
    requires Spoiled(all, expected, k, sealed)
    ensures all != expected
  {}

  // ----- behind a wrong held length -----

  lemma RunsSpoil(g: seq<Record>, m: Message, n: nat, c: nat, id: MessageId, s: seq<Byte>,
                  all: seq<Record>, expected: seq<Record>, sealed: bool)
    requires |m| >= SHORTEST && n != |m| - 6 && c >= |m| - 6 && !(n > c == |m| - 6)
    requires Runs(g + [Record(m[..6], {})], all, n, c, id, s) && id.seqNum < TWO_64
    requires |expected| > |g| && expected[|g|] == Record(m, {id}) && (OnLast(n, c) ==> sealed)
    ensures Spoiled(all, expected, |g|, sealed)
  {
    assert Later(id, 1) != id;
  }

  /** A message that ends on the last beat is followed by the state between packets. */
  lemma {:induction false} MisreadSeals(m: Regs, bs: seq<Beat>, s: seq<Byte>, n: nat, id: MessageId)
    requires Misread(m, n, id) && CarriesAll(bs, s) && s != [] && n < 0x1_0000 && OnLast(n, D.BEAT * |bs|)
    ensures Between(Run(m, bs))
    decreases |bs|
  {
    hide Next, Outputs, CarriesAll, Misread;
    ThisBeat(bs, s);
    var b := bs[0];
    if b.last {
      LastBetween(m, b, n, id);
      assert bs[1..] == [];
    } else {
      MisreadMore(m, b, n, id, []);
      MisreadSeals(Next(m, b), bs[1..], Behind(s), n - D.BEAT, id);
    }
  }

  lemma LastBetween(m: Regs, b: Beat, n: nat, id: MessageId)
    requires Misread(m, n, id) && b.valid && b.last && n < 0x1_0000
    ensures Between(Next(m, b))
  {
    hide D.Next, D.Outputs;
    LastInvalid(m.dispatch, ToDispatch(m, b));
    MisreadOutputs(m, b, n, id);
    StepControl(m, b, n <= D.BEAT);
  }

  lemma LastInvalid(r: D.Regs, i: D.Input)
    requires i.valid && i.last
    ensures D.Next(r, i).invalid
  {}

  /** Unless the packet ends with it, a wrong held length spoils the message. */
  lemma SpentSpoils(m: Regs, bs: seq<Beat>, v: View, id: MessageId, got: seq<Record>)
    requires Live(m, v, id) && v.Spent() && !v.Guesses(m.dispatch.lenHeld) && !Overrun(m.dispatch.lenHeld, v.rest)
    requires CarriesAll(bs, v.Unread())
    ensures Spoiled(Collect(got, Shown(m, bs)), Finish(got, v, id), |got|, Between(Run(m, bs)))
  {
    hide Next, Outputs, CarriesAll, Live, Misread, Runs, Finish, Extend, View.Unread, Tagged, Blocks, Spoiled, Between;
    hide Overrun, Behind, D.Sub16, Collect, AllLong, NoStraddle;
    LiveBasics(m, v, id);
    ThisBeat(bs, v.Unread());
    SpentUnread(v);
    SpentStep(m, bs[0], v, id, got);
    CollectFirst(m, bs, got);
    var m1, n, id', s := Next(m, bs[0]), D.Sub16(m.dispatch.lenHeld, 6), Later(id, 1), Behind(v.Unread());
    var g, c := Extend(got, [], id), D.BEAT * |bs[1..]|;
    MisreadRun(m1, bs[1..], s, n, id', g + [Record(v.rest[0][..6], {})]);
    BeatCount(bs[1..], s);
    SpentFinish(got, v, id);
    ExtendSize(got, [], id);
    TaggedHead(v.rest, id');
    WrongLength(v, m.dispatch.lenHeld);
    NotOverrun(m.dispatch.lenHeld, v.rest, c, s);
    if OnLast(n, c) { MisreadSeals(m1, bs[1..], s, n, id'); }
    RunsSpoil(g, v.rest[0], n, c, id', s, Collect(got, Shown(m, bs)), Finish(got, v, id), Between(Run(m, bs)));
  }

  lemma WrongLength(v: View, held: Word)
    requires v.Ok() && v.Spent() && !v.Guesses(held)
    ensures AllLong(v.rest) && |v.rest[0]| >= SHORTEST && D.Sub16(held, 6) != |v.rest[0]| - 6
  {}

  lemma ExtendSize(got: seq<Record>, bytes: seq<Byte>, id: MessageId)
    ensures |Extend(got, bytes, id)| == |got|
  {}

  lemma TaggedHead(ms: seq<Message>, id: MessageId)
    requires ms != []
    ensures Tagged(ms, id) != [] && Tagged(ms, id)[0] == Record(ms[0], {id})
  {}

  lemma NotOverrun(held: Word, ms: seq<Message>, c: nat, s: seq<Byte>)
    requires ms != [] && AllLong(ms) && s == ms[0][6..] + Blocks(ms[1..]) && !Overrun(held, ms)
    requires |s| <= c < |s| + D.BEAT && c % D.BEAT == 0
    ensures c >= |ms[0]| - 6 && !(D.Sub16(held, 6) > c == |ms[0]| - 6)
  {
    if |ms| > 1 {
      BlocksLonger(ms);
    } else {
      assert ms[1..] == [];
      FullBeats(|ms[0]| - 6, c);
    }
  }

  // ----- on the last beat -----

  /** The open record gets more bytes, though it should be left alone. */
  lemma LongerSpoils(got: seq<Record>, all: seq<Record>, expected: seq<Record>, sealed: bool)
    requires got != [] && |all| >= |got| && |expected| >= |got| && expected[|got| - 1] == got[|got| - 1]
    requires |all[|got| - 1].bytes| > |got[|got| - 1].bytes|
    ensures Spoiled(all, expected, |got| - 1, sealed)
  {}

  /** What starts on the last beat is taken for more of the message before it. */
  lemma LostLonger(got: seq<Record>, v: View, id: MessageId, o: Output)
    requires v.Ok() && v.Clear() && |v.Unread()| <= D.BEAT && got != [] && StartLost(v)
    requires o.id == id && Shows(o.pipe, v, true)
    ensures var all := Deliver(got, o);
            |all| == |got| && |all[|got| - 1].bytes| > |got[|got| - 1].bytes|
    ensures var e := Finish(got, v, id); |e| >= |got| && e[|got| - 1] == got[|got| - 1]
  {
    LastBeatIsBody(v);
  }

  lemma LastSpoils(m: Regs, bs: seq<Beat>, v: View, id: MessageId, got: seq<Record>)
    requires Live(m, v, id) && CarriesAll(bs, v.Unread()) && |v.Unread()| <= D.BEAT && got != []
    requires !(v.Trusts(m.dispatch.lenHeld, true) && !StartLost(v))
    ensures Spoiled(Collect(got, Shown(m, bs)), Finish(got, v, id), |got| - 1, Between(Run(m, bs)))
  {
    hide Next, Outputs, Spoiled, Between;
    var b := bs[0];
    assert bs[1..] == [];
    CollectFirst(m, bs, got);
    if v.Clear() {
      LastBeatIsBody(v);
      StepOutputs(m, b, v, id);
      LostLonger(got, v, id, Outputs(m, b));
    } else {
      SilentLonger(m, b, v, id, got);
    }
    LongerSpoils(got, Collect(got, Shown(m, bs)), Finish(got, v, id), Between(Run(m, bs)));
  }

  lemma SilentLonger(m: Regs, b: Beat, v: View, id: MessageId, got: seq<Record>)
    requires Live(m, v, id) && !v.Clear() && CarriesBeat(b, v.Unread()) && got != []
    ensures var g := Deliver(got, Outputs(m, b));
            |g| == |got| && |g[|g| - 1].bytes| > |got[|g| - 1].bytes|
  {
    hide Next, Outputs;
    LengthField(v.rest);
    OnlyBlock(v.rest);
    StartingOutputs(m, b, id);
    SplitLength(m, b);
  }

  lemma SplitLength(m: Regs, b: Beat)
    requires m.dispatch.lenSplit && !m.dispatch.msg && !m.dispatch.lenAlign && !m.h2
    ensures Outputs(m, b).pipe.len == 7
  {}

  // ----- in a packet -----

  /** Where the rest of a packet is not delivered, there is a spoiled record. */
  lemma {:induction false} DrainSpoils(m: Regs, bs: seq<Beat>, v: View, id: MessageId, got: seq<Record>)
      returns (k: nat)
    requires Live(m, v, id) && CarriesAll(bs, v.Unread()) && Opened(got, v, id) && got != []
    requires !(v.Trusts(m.dispatch.lenHeld, true) && !StartLost(v))
    ensures Spoiled(Collect(got, Shown(m, bs)), Finish(got, v, id), k, Between(Run(m, bs)))
    decreases |v.Unread()|
  {
    hide Next, Outputs, View.Trusts, CarriesBeat, StartLost, Spoiled, Between;
    LiveBasics(m, v, id);
    if |v.Unread()| <= D.BEAT {
      LastSpoils(m, bs, v, id, got);
      k := |got| - 1;
    } else if v.Spent() && !v.Guesses(m.dispatch.lenHeld) {
      SpentTrusts(m.dispatch.lenHeld, v);
      SpentSpoils(m, bs, v, id, got);
      k := |got|;
    } else {
      NotLastClear(v);
      DrainStep(m, bs, v, id, got);
      var b := bs[0];
      var got' := Deliver(got, Outputs(m, b));
      DeliverSize(got, Outputs(m, b));
      k := DrainSpoils(Next(m, b), bs[1..], v.Advance(), Later(id, Count(v.Ends())), got');
    }
  }

  lemma DeliverSize(got: seq<Record>, o: Output)
    ensures |Deliver(got, o)| >= |got|
  {}

  /** A packet that is not delivered right has a spoiled record. */
  lemma PacketSpoils(m: Regs, bs: seq<Beat>, p: Packet, got: seq<Record>) returns (k: nat)
    requires Between(m) && Deliverable(p) && CarriesAll(bs, Encode(p)) && !Arrives(m, p)
    ensures Spoiled(Collect(got, Shown(m, bs)), got + Tagged(p.messages, FirstId(p)), k, Between(Run(m, bs)))
  {
    hide Next, Outputs, HeldBehindHeader, HeldSuffices, View.Trusts, Between;
    BusyIsNotReady(m);
    if CleanIdle(m) {
      var m3, tail := CutDelivery(m, bs, p, got);
      LosesLastStartView(p);
      RunCut(m, bs, m3, tail);
      k := DrainSpoils(m3, tail, FirstView(p), FirstId(p), Open(got, p));
    } else {
      BusyMisdelivers(m, bs, p, got);
      TaggedHead(p.messages, FirstId(p));
      k := |got|;
    }
  }

  lemma BusyIsNotReady(m: Regs)
    requires Between(m)
    ensures CleanIdle(m) <==> !Busy(m.dispatch)
  {
    BusyOrReady(m);
  }

  lemma RunCut(m: Regs, bs: seq<Beat>, m3: Regs, tail: seq<Beat>)
    requires |bs| > 3 && tail == bs[3..] && m3 == Run(m, bs[..3])
    ensures Run(m, bs) == Run(m3, tail)
  {
    hide Next, Outputs;
    assert bs[..3] + tail == bs;
    RunConcat(m, bs[..3], tail);
  }

  /** One more record, open, and whatever follows. */
  lemma OpenKeeps(got: seq<Record>, open: seq<Record>, outs: seq<Output>)
    requires |open| == |got| + 1 && open[..|got|] == got
    ensures var all := Collect(open, outs); |all| > |got| && all[..|got|] == got
  {
    RecordsGrow(open, outs, |got|);
    forall k | 0 <= k < |got| ensures Collect(open, outs)[k] == got[k] {
      ClosedStay(open, outs, k);
      assert open[k] == open[..|got|][k];
    }
  }

  lemma ReadyOpens(m: Regs, bs: seq<Beat>, p: Packet, got: seq<Record>)
      returns (open: seq<Record>, outs: seq<Output>)
    requires CleanIdle(m) && Deliverable(p) && CarriesAll(bs, Encode(p))
    ensures |open| == |got| + 1 && open[..|got|] == got
    ensures Collect(got, Shown(m, bs)) == Collect(open, outs)
  {
    hide Next, Outputs, HeldBehindHeader, HeldSuffices, View.Trusts, Encode, Live, Finish, Opened, CarriesAll;
    hide CleanIdle;
    var m3, tail := CutDelivery(m, bs, p, got);
    open, outs := Open(got, p), Shown(m3, tail);
  }

  /** A packet leaves the records before it alone. */
  lemma PacketOpensNew(m: Regs, bs: seq<Beat>, p: Packet, got: seq<Record>)
    requires Between(m) && Deliverable(p) && CarriesAll(bs, Encode(p))
    ensures var all := Collect(got, Shown(m, bs)); |all| > |got| && all[..|got|] == got
  {
    hide Next, Outputs, Between, Encode, CarriesAll, Deliverable, Busy, CleanIdle;
    BusyIsNotReady(m);
    var open, outs;
    if CleanIdle(m) {
      open, outs := ReadyOpens(m, bs, p, got);
    } else {
      open, outs := BusyOpens(m, bs, p, got);
    }
    OpenKeeps(got, open, outs);
  }
}
