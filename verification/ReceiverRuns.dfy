/** The receiver over runs of packets, with idle clocks between them, from reset on. */
module ReceiverRuns {
  import opened Bytes
  import opened MoldFormat
  import opened Receiver
  import opened Delivery
  import opened DispatchSteps
  import opened PacketProof
  import opened Headers
  import opened Packets
  import opened Spoiling
  import opened Straddle
  import D = Dispatch

  /** A packet that a receiver that is ready delivers, whatever its registers hold. */
  predicate Acceptable(p: Packet) {
    Deliverable(p) && Unstraddled(p) && !LosesLastStart(p)
  }

  predicate AllIdle(gap: seq<Beat>) {
    forall k | 0 <= k < |gap| :: !gap[k].valid
  }

  /** A packet with no gap inside, and the idle clocks behind it. */
  datatype Burst = Burst(packet: Packet, beats: seq<Beat>, gap: seq<Beat>) {
    predicate Proper() {
      CarriesAll(beats, Encode(packet)) && AllIdle(gap) && Deliverable(packet)
    }

    /** The last beat brought one to six bytes, or the last flag is high on an idle clock behind the first. */
    predicate Restored() {
      1 <= |Encode(packet)| % D.BEAT <= 6 || LateLast(gap)
    }

    function Clocks(): seq<Beat> {
      beats + gap
    }

    function Records(): seq<Record> {
      Tagged(packet.messages, FirstId(packet))
    }
  }

  predicate LateLast(gap: seq<Beat>) {
    exists k :: 1 <= k < |gap| && gap[k].last
  }

  predicate AllProper(xs: seq<Burst>) {
    forall k | 0 <= k < |xs| :: xs[k].Proper()
  }

  /** Every packet but the last leaves the receiver ready. */
  predicate AllRestored(xs: seq<Burst>) {
    forall k | 0 <= k < |xs| - 1 :: xs[k].Restored()
  }

  /** The clocks of a run. */
  function Line(xs: seq<Burst>): seq<Beat> {
    if xs == [] then [] else xs[0].Clocks() + Line(xs[1..])
  }

  /** The messages of all packets, each with its id. */
  function Expected(xs: seq<Burst>): seq<Record> {
    if xs == [] then [] else xs[0].Records() + Expected(xs[1..])
  }

  // ----- idle clocks -----

  /** They show nothing, and a receiver that is ready stays so. */
  lemma {:induction false} IdleRun(m: Regs, gap: seq<Beat>, got: seq<Record>)
    requires Between(m) && AllIdle(gap)
    ensures Between(Run(m, gap)) && Collect(got, Shown(m, gap)) == got
    ensures CleanIdle(m) ==> CleanIdle(Run(m, gap))
    decreases |gap|
  {
    hide Next, Outputs, Between, CleanIdle;
    if gap != [] {
      var b := gap[0];
      IdleStep(m, b);
      CollectFirst(m, gap, got);
      IdleRun(Next(m, b), gap[1..], got);
    }
  }

  /** Behind the first idle clock, with the message state left over and nothing to count down. */
  predicate Adrift(m: Regs) {
    Between(m) && m.dispatch.msg && !m.dispatch.lenAlign && !m.dispatch.lenSplit && m.dispatch.msgLen == 0
  }

  lemma AdriftStep(m: Regs, b: Beat)
    requires Adrift(m) && !b.valid
    ensures if b.last then CleanIdle(Next(m, b)) else Adrift(Next(m, b))
  {}

  lemma {:induction false} AdriftRun(m: Regs, gap: seq<Beat>)
    requires Adrift(m) && AllIdle(gap)
    ensures CleanIdle(Run(m, gap)) <==> exists k :: 0 <= k < |gap| && gap[k].last
    decreases |gap|
  {
    hide Next, Outputs;
    if gap != [] {
      var b, rest := gap[0], gap[1..];
      AdriftStep(m, b);
      if b.last {
        IdleRun(Next(m, b), rest, []);
      } else {
        AdriftRun(Next(m, b), rest);
        assert forall k | 1 <= k < |gap| :: gap[k] == rest[k - 1];
        if k :| 0 <= k < |rest| && rest[k].last { assert gap[k + 1].last; }
      }
    }
  }

  /** As a packet whose last beat brought seven or eight bytes leaves it. */
  predicate Stuck(m: Regs) {
    var r := m.dispatch;
    Between(m) && !r.msg && (r.lenAlign || r.lenSplit) && r.msgLen == 0
  }

  lemma StuckStep(m: Regs, b: Beat)
    requires Stuck(m) && !b.valid
    ensures Adrift(Next(m, b))
  {}

  /** Behind such a packet, exactly a last flag behind the first idle clock restores the receiver. */
  lemma GapRestores(m: Regs, gap: seq<Beat>)
    requires Stuck(m) && AllIdle(gap)
    ensures CleanIdle(Run(m, gap)) <==> LateLast(gap)
  {
    hide Next, Outputs;
    if gap != [] {
      var rest := gap[1..];
      StuckStep(m, gap[0]);
      AdriftRun(Next(m, gap[0]), rest);
      assert forall k | 1 <= k < |gap| :: gap[k] == rest[k - 1];
      if k :| 0 <= k < |rest| && rest[k].last { assert gap[k + 1].last; }
      if k :| 1 <= k < |gap| && gap[k].last { assert rest[k - 1].last; }
    }
  }

  /** The state behind a packet whose lengths taken from the mux suffice. */
  lemma EndsStuck(m: Regs, bs: seq<Beat>, p: Packet)
    requires CleanIdle(m) && Deliverable(p) && HeldEnough(m, p) && CarriesAll(bs, Encode(p))
    ensures if 1 <= |Encode(p)| % D.BEAT <= 6 || !HeldRight(m, p) then CleanIdle(Run(m, bs)) else Stuck(Run(m, bs))
  {
    hide Next, Outputs, HeldRight, HeldEnough, Encode;
    var m' := PacketEnds(m, bs, p);
    assert (|Encode(p)| - 24) % D.BEAT == |Encode(p)| % D.BEAT;
  }

  // ----- a packet and the clocks behind it -----

  /** The receiver is ready behind a packet that arrived and the clocks behind it. */
  predicate Leaves(m: Regs, x: Burst)
    requires Deliverable(x.packet)
  {
    x.Restored() || !HeldRight(m, x.packet)
  }

  lemma BurstRun(m: Regs, x: Burst, got: seq<Record>)
    requires Between(m) && x.Proper() && Arrives(m, x.packet)
    ensures Between(Run(m, x.Clocks())) && (CleanIdle(Run(m, x.Clocks())) <==> Leaves(m, x))
    ensures Collect(got, Shown(m, x.Clocks())) == got + x.Records()
  {
    hide Next, Outputs, Encode, LosesLastStart, LateLast, HeldRight, HeldSuffices, HeldBehindHeader;
    var m1 := Run(m, x.beats);
    EndsStuck(m, x.beats, x.packet);
    DeliversPacket(m, x.beats, x.packet, got);
    DeliveryConcat(m, x.beats, x.gap, got);
    IdleRun(m1, x.gap, got + x.Records());
    if !CleanIdle(m1) { GapRestores(m1, x.gap); }
  }

  /** Each packet arrives in the state that those before it and their gaps leave. */
  predicate AllArrive(m: Regs, xs: seq<Burst>)
    requires AllProper(xs)
    decreases |xs|
  {
    xs == []
    || (assert xs[0].Proper();
        Arrives(m, xs[0].packet) && AllArrive(Run(m, xs[0].Clocks()), xs[1..]))
  }

  /** Packets from the state between packets leave the records before them alone. */
  lemma LineKeeps(m: Regs, xs: seq<Burst>, got: seq<Record>)
    requires Between(m) && AllProper(xs)
    ensures var all := Collect(got, Shown(m, Line(xs))); |all| >= |got| && all[..|got|] == got
  {
    hide Next, Outputs, Encode, Between;
    if xs != [] {
      var x := xs[0];
      assert x.Proper();
      var rest := x.gap + Line(xs[1..]);
      PacketOpensNew(m, x.beats, x.packet, got);
      assert Line(xs) == x.beats + rest;
      DeliveryConcat(m, x.beats, rest, got);
      var g, outs := Collect(got, Shown(m, x.beats)), Shown(Run(m, x.beats), rest);
      forall k | 0 <= k < |got| ensures k < |Collect(g, outs)| && Collect(g, outs)[k] == got[k] {
        ClosedStay(g, outs, k);
      }
      RecordsGrow(g, outs, |got|);
    }
  }

  /** Idle clocks and packets leave the last record before them alone. */
  lemma GapKeeps(m: Regs, gap: seq<Beat>, xs: seq<Burst>, g: seq<Record>, k: nat)
    requires Between(m) && AllIdle(gap) && AllProper(xs)
    ensures var all := Collect(g, Shown(m, gap + Line(xs)));
            k + 1 == |g| ==> k < |all| && all[k] == g[k]
  {
    hide Next, Outputs, Between, AllProper, AllIdle, Line;
    IdleRun(m, gap, g);
    DeliveryConcat(m, gap, Line(xs), g);
    LineKeeps(Run(m, gap), xs, g);
    var all := Collect(g, Shown(m, gap + Line(xs)));
    if k + 1 == |g| { assert all[k] == all[..|g|][k]; }
  }

  lemma LineFirst(xs: seq<Burst>, got: seq<Record>)
    requires xs != []
    ensures Line(xs) == xs[0].beats + (xs[0].gap + Line(xs[1..]))
    ensures got + Expected(xs) == got + xs[0].Records() + Expected(xs[1..])
  {
    hide Burst.Records;
  }

  /** A packet that does not arrive, with whatever comes behind it. */
  lemma FirstFails(m: Regs, xs: seq<Burst>, got: seq<Record>)
    requires Between(m) && AllProper(xs) && xs != [] && Deliverable(xs[0].packet) && !Arrives(m, xs[0].packet)
    ensures Collect(got, Shown(m, Line(xs))) != got + Expected(xs)
  {
    var x := xs[0];
    assert x.Proper();
    assert AllProper(xs[1..]);
    hide Next, Outputs, Encode, Between, CleanIdle, Spoiled, Arrives, AllProper, Line, Expected, Deliverable;
    hide CarriesAll, AllIdle;
    var k := PacketSpoils(m, x.beats, x.packet, got);
    var m1, rest := Run(m, x.beats), x.gap + Line(xs[1..]);
    LineFirst(xs, got);
    DeliveryConcat(m, x.beats, rest, got);
    var g, outs := Collect(got, Shown(m, x.beats)), Shown(m1, rest);
    if Between(m1) { GapKeeps(m1, x.gap, xs[1..], g, k); }
    SpoiledStays(g, got + x.Records(), k, Between(m1), outs, Expected(xs[1..]));
    SpoiledDiffers(Collect(g, outs), got + x.Records() + Expected(xs[1..]), k, Between(m1));
  }

  /** A packet that arrives, and the others. */
  lemma FirstArrives(m: Regs, xs: seq<Burst>, got: seq<Record>) returns (m': Regs, got': seq<Record>)
    requires Between(m) && AllProper(xs) && xs != [] && Deliverable(xs[0].packet) && Arrives(m, xs[0].packet)
    ensures AllProper(xs[1..]) && m' == Run(m, xs[0].Clocks()) && Between(m')
    ensures got' + Expected(xs[1..]) == got + Expected(xs)
    ensures Collect(got, Shown(m, Line(xs))) == Collect(got', Shown(m', Line(xs[1..])))
  {
    var x := xs[0];
    assert x.Proper();
    assert AllProper(xs[1..]);
    hide Next, Outputs, CleanIdle, Between, Arrives, Leaves, AllProper, Burst.Proper, Burst.Clocks, Burst.Records;
    hide Deliverable;
    BurstRun(m, x, got);
    m', got' := Run(m, x.Clocks()), got + x.Records();
    LineFirst(xs, got);
    DeliveryConcat(m, x.Clocks(), Line(xs[1..]), got);
  }

  /**
   A run of any length: what is delivered is exactly the messages of all packets in order,
   if and only if each packet arrives in the state that it finds.
   */
  lemma {:induction false} DeliversLine(m: Regs, xs: seq<Burst>, got: seq<Record>)
    requires Between(m) && AllProper(xs)
    ensures Collect(got, Shown(m, Line(xs))) == got + Expected(xs) <==> AllArrive(m, xs)
    decreases |xs|
  {
    hide Next, Outputs, CleanIdle, Between, Arrives, Burst.Clocks;
    if xs == [] {
      assert got + Expected(xs) == got;
    } else {
      assert xs[0].Proper();
      hide Line, Expected;
      if Arrives(m, xs[0].packet) {
        var m', got' := FirstArrives(m, xs, got);
        DeliversLine(m', xs[1..], got');
      } else {
        FirstFails(m, xs, got);
      }
    }
  }

  /** The same with idle clocks in front. */
  lemma DeliversRun(m: Regs, lead: seq<Beat>, xs: seq<Burst>, got: seq<Record>)
    requires Between(m) && AllIdle(lead) && AllProper(xs)
    ensures Collect(got, Shown(m, lead + Line(xs))) == got + Expected(xs) <==> AllArrive(Run(m, lead), xs)
  {
    hide Next, Outputs;
    IdleRun(m, lead, got);
    DeliveryConcat(m, lead, Line(xs), got);
    DeliversLine(Run(m, lead), xs, got);
  }

  /** The receiver is ready behind a run exactly when its last packet leaves it so. */
  lemma {:induction false} RunLeavesReady(m: Regs, xs: seq<Burst>, x: Burst)
    requires Between(m) && AllProper(xs + [x]) && AllArrive(m, xs + [x])
    ensures Deliverable(x.packet) && AllProper(xs)
    ensures CleanIdle(Run(m, Line(xs + [x]))) <==> Leaves(Run(m, Line(xs)), x)
    decreases |xs|
  {
    hide Next, Outputs, CleanIdle, Between, Arrives, Burst.Clocks, Burst.Records, Leaves;
    var all := xs + [x];
    assert forall k | 0 <= k < |xs| :: xs[k] == all[k];
    assert all[|xs|].Proper() && all[0].Proper();
    if xs == [] {
      assert all == [x] && all[1..] == [] && Line(all) == x.Clocks() + [];
      assert x.Clocks() + [] == x.Clocks();
      BurstRun(m, x, []);
    } else {
      assert all[1..] == xs[1..] + [x];
      BurstRun(m, xs[0], []);
      var m' := Run(m, xs[0].Clocks());
      RunLeavesReady(m', xs[1..], x);
      RunConcat(m, xs[0].Clocks(), Line(all[1..]));
      RunConcat(m, xs[0].Clocks(), Line(xs[1..]));
    }
  }

  // ----- packets that do not depend on the registers -----

  predicate AllAcceptable(xs: seq<Burst>) {
    forall k | 0 <= k < |xs| :: Acceptable(xs[k].packet)
  }

  lemma AcceptableArrives(m: Regs, p: Packet)
    requires CleanIdle(m) && Acceptable(p)
    ensures Arrives(m, p) && HeldRight(m, p)
  {
    hide HeldBehindHeader, HeldSuffices;
    UnstraddledSuffices(HeldBehindHeader(m, p), p, true);
    UnstraddledRight(m, p);
  }

  /** Then what counts is that every packet but the last leaves the receiver ready. */
  lemma {:induction false} ArriveRestored(m: Regs, xs: seq<Burst>)
    requires CleanIdle(m) && AllProper(xs) && AllAcceptable(xs)
    ensures AllArrive(m, xs) <==> AllRestored(xs)
    decreases |xs|
  {
    hide Next, Outputs, Between, Arrives, Burst.Clocks, Burst.Records, Burst.Restored, AllRestored, HeldRight;
    hide Acceptable;
    if xs == [] {
      NothingToRestore(xs);
    } else {
      var x, rest := xs[0], xs[1..];
      assert x.Proper() && Acceptable(x.packet);
      AcceptableArrives(m, x.packet);
      BurstRun(m, x, []);
      RestoredTail(xs);
      var m' := Run(m, x.Clocks());
      if rest == [] {
        NothingToRestore(rest);
      } else if CleanIdle(m') {
        ArriveRestored(m', rest);
      } else {
        assert rest[0].Proper();
        NotReady(m', rest[0].packet);
      }
    }
  }

  lemma NotReady(m: Regs, p: Packet)
    requires !CleanIdle(m) && Deliverable(p)
    ensures !Arrives(m, p)
  {}

  lemma RestoredTail(xs: seq<Burst>)
    requires xs != []
    ensures AllRestored(xs) <==> (|xs| == 1 || (xs[0].Restored() && AllRestored(xs[1..])))
  {
    assert forall k | 1 <= k < |xs| :: xs[k] == xs[1..][k - 1];
    if |xs| > 1 && xs[0].Restored() && AllRestored(xs[1..]) {
      forall k | 0 <= k < |xs| - 1 ensures xs[k].Restored() {
        if k > 0 { assert xs[1..][k - 1].Restored(); }
      }
    }
    if AllRestored(xs) {
      forall k | 0 <= k < |xs[1..]| - 1 ensures xs[1..][k].Restored() {
        assert xs[k + 1].Restored();
      }
    }
  }

  lemma NothingToRestore(xs: seq<Burst>)
    requires xs == []
    ensures AllRestored(xs)
  {}

  /** Packets without straddled messages and masked starts: the condition on their gaps. */
  lemma DeliversRestored(m: Regs, lead: seq<Beat>, xs: seq<Burst>, got: seq<Record>)
    requires CleanIdle(m) && AllIdle(lead) && AllProper(xs) && AllAcceptable(xs)
    ensures Collect(got, Shown(m, lead + Line(xs))) == got + Expected(xs) <==> AllRestored(xs)
  {
    hide Next, Outputs;
    DeliversRun(m, lead, xs, got);
    IdleRun(m, lead, got);
    ArriveRestored(Run(m, lead), xs);
  }

  // ----- reset -----

  /** Clocks in reset. */
  function ResetRun(m: Regs, rs: seq<Beat>): Regs
    decreases rs
  {
    if rs == [] then m else ResetRun(ResetNext(m, rs[0]), rs[1..])
  }

  /** One clock in reset, with any input and from any registers, makes the receiver ready. */
  lemma OneReset(m: Regs, b: Beat)
    ensures CleanIdle(ResetNext(m, b)) && !ResetNext(m, b).msg && ResetNext(m, b).dispatch.msgLen == 0
  {}

  lemma {:induction false} ResetReachesIdle(m: Regs, rs: seq<Beat>)
    requires rs != []
    ensures CleanIdle(ResetRun(m, rs)) && ResetRun(m, rs).dispatch.msgLen == 0
    decreases |rs|
  {
    hide ResetNext;
    OneReset(m, rs[0]);
    if |rs| == 1 {
      assert rs[1..] == [];
    } else {
      ResetReachesIdle(ResetNext(m, rs[0]), rs[1..]);
    }
  }

  /** From power-up: any reset, then any run. */
  lemma DeliversFromReset(m: Regs, rs: seq<Beat>, lead: seq<Beat>, xs: seq<Burst>)
    requires rs != [] && AllIdle(lead) && AllProper(xs)
    ensures var m0 := ResetRun(m, rs);
            var right := Collect([], Shown(m0, lead + Line(xs))) == Expected(xs);
            (right <==> AllArrive(Run(m0, lead), xs)) && (AllAcceptable(xs) ==> (right <==> AllRestored(xs)))
  {
    hide Next, Outputs, ResetNext, AllAcceptable, AllRestored, AllProper;
    var m0 := ResetRun(m, rs);
    ResetReachesIdle(m, rs);
    DeliversRun(m0, lead, xs, []);
    if AllAcceptable(xs) { DeliversRestored(m0, lead, xs, []); }
    assert [] + Expected(xs) == Expected(xs);
  }

  // ----- the message counter in reset, on which no packet depends -----

  /**
   The counter behind one clock in reset: its enable comes behind its reset, so the third
   beat of a header still loads it and the end of a message still counts it down.
   */
  function CountBehindReset(m: Regs, b: Beat): nat {
    var r := m.dispatch;
    if m.h2 then BigEndian(b.data[2..4])
    else if b.valid && r.msgLen <= D.BEAT && !r.lenAlign && !r.lenSplit && m.msgCnt > 0 then m.msgCnt - 1
    else 0
  }

  lemma OneResetCount(m: Regs, b: Beat)
    ensures ResetNext(m, b).msgCnt == CountBehindReset(m, b)
  {
    FlippedValue(b.data[2..4]);
  }

  /** In reset, every clock with input counts one down, and a clock without clears the counter. */
  lemma {:induction false} MoreResets(m: Regs, rs: seq<Beat>)
    requires CleanIdle(m) && m.dispatch.msgLen == 0
    ensures ResetRun(m, rs).msgCnt == 0 <==> m.msgCnt <= |rs| || exists k | 0 <= k < |rs| :: !rs[k].valid
    decreases |rs|
  {
    hide Next, ResetNext;
    if rs != [] {
      var m' := ResetNext(m, rs[0]);
      OneReset(m, rs[0]);
      OneResetCount(m, rs[0]);
      MoreResets(m', rs[1..]);
      assert forall k | 0 <= k < |rs| - 1 :: rs[1..][k] == rs[k + 1];
    }
  }

  /**
   When a reset clears the counter: the clocks behind the first are as many as it holds
   then, or one of them comes without input.
   */
  lemma ResetClearsCount(m: Regs, rs: seq<Beat>)
    requires rs != []
    ensures ResetRun(m, rs).msgCnt == 0
       <==> CountBehindReset(m, rs[0]) < |rs| || exists k | 1 <= k < |rs| :: !rs[k].valid
  {
    hide Next, ResetNext, CountBehindReset;
    OneReset(m, rs[0]);
    OneResetCount(m, rs[0]);
    MoreResets(ResetNext(m, rs[0]), rs[1..]);
    assert forall k | 1 <= k < |rs| :: rs[1..][k - 1] == rs[k];
    assert forall k | 0 <= k < |rs| - 1 :: rs[1..][k] == rs[k + 1];
  }
}
