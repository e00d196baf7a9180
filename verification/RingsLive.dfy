/**
 Nothing is stuck: from every state that a paced sender leads to, kernel and NIC can get to
 rest without another arrival, and then every order is out.
 */
module RingsLive {
  import opened Bytes
  import opened MoldFormat
  import opened Rings
  import opened RingsProof
  import opened RingRuns
  import B = Book

  /** The NIC is idle, everything posted is sent, and the kernel has decided on every packet. */
  predicate Quiet(s: State) {
    && s.rxNic.RxIdle? && NicDone(s)
    && s.kernel.LoopTop? && s.released == |s.injected|
  }

  predicate NicDone(s: State) {
    s.txNic.TxIdle? && |s.sent| == |s.posted|
  }

  // ----- what is left to do -----

  /** The receiving NIC's steps. */
  function RxWork(nic: RxNic): nat {
    match nic
    case RxIdle => 0
    case RxLength(p) => |p| + 4
    case RxWrite(p, n) => if n <= |p| then |p| - n + 3 else 3
    case RxTailReg => 2
    case RxAdvance => 1
  }

  /** The transmitting NIC's steps. */
  function TxWork(s: State): int {
    5 * (|s.posted| - |s.sent|) - (if s.txNic.TxRead? then s.txNic.n + 1 else 0)
  }

  /** A bound on one search for a free slot. */
  const SPIN := 40

  /** From send_ouch to the end of the packet, when so many orders are reclaimed. */
  function SendWork(s: State, reclaimed: nat): nat {
    10 + (if |s.posted| + 1 < reclaimed + RING then 0 else SPIN)
  }

  /** The kernel's steps to the next top of the loop. */
  function PassWork(s: State): int {
    match s.kernel
    case LoopTop => if s.released == |s.injected| then 0 else 190
    case Reclaim(_, count, caller) =>
      count - s.reclaimed + 1 + (if caller.PollLoop? then 150 else SendWork(s, count))
    case Poll => 150
    case ReadLength => 149
    case ClearDD(_) => 148
    case Load(_, got) => 140 - |got|
    case Send(_) => SendWork(s, s.reclaimed)
    case SpinRead(_) => 9 + SPIN
    case Fill(_, n) => 9 - n
    case Bell(_) => 5
    case NextTx => 4
    case Advance => 3
  }

  /** And the passes for the packets that wait. */
  function KernelWork(s: State): int {
    200 * (|s.injected| - s.released) + PassWork(s)
  }

  lemma WorkLeft(s: State)
    requires Inv(s)
    ensures KernelWork(s) >= 0 && TxWork(s) >= 0
  {
    hide DecisionInv, KernelStep;
    ReleasedBound(s);
  }

  lemma ReleasedBound(s: State)
    requires RxInv(s)
    ensures s.released <= |s.injected|
    ensures HasPacket(s.kernel) || Decided(s.kernel) ==> s.released < |s.injected|
  {}

  // ----- who does it -----

  /** The NIC first, then the kernel. */
  function Turn(s: State): Event {
    if !s.rxNic.RxIdle? then RxEvent else if !NicDone(s) then TxEvent else KernelEvent
  }

  lemma TurnEnabled(s: State)
    requires Inv(s)
    ensures Enabled(s, Turn(s)) && Paced(s, Turn(s), RING)
  {
    hide DecisionInv, Window, KernelStep;
  }

  lemma RxTurn(s: State)
    requires Inv(s) && !s.rxNic.RxIdle? && Enabled(s, RxEvent)
    ensures RxWork(RxStep(s).rxNic) < RxWork(s.rxNic)
  {
    hide TxInv, DecisionInv, Window, KernelStep;
  }

  lemma TxTurn(s: State)
    requires TxInv(s) && !NicDone(s)
    ensures var t := TxStep(s);
            && TxWork(t) < TxWork(s) && t.rxNic == s.rxNic && KernelWork(t) == KernelWork(s)
  {
    hide KernelStep, Slot, WriteField;
  }

  lemma KernelTurnPoll(s: State)
    requires RxInv(s) && s.kernel.Poll?
    ensures KernelWork(KernelStep(s)) < KernelWork(s)
  {
    hide LoadStep, NicRx;
    var r := s.released;
    assert s.rx[Slot(r)].dd <==> r < |s.injected|;
  }

  lemma KernelTurnReclaim(s: State)
    requires TxInv(s) && s.kernel.Reclaim?
    ensures KernelWork(KernelStep(s)) < KernelWork(s)
  {
    hide LoadStep, Slot;
    if s.reclaimed != s.kernel.count { SlotsDiffer(s.reclaimed, s.kernel.count); }
  }

  lemma KernelTurnSend(s: State)
    requires TxInv(s) && s.kernel.Send?
    ensures KernelWork(KernelStep(s)) < KernelWork(s)
  {
    hide LoadStep, Slot;
    SlotStep(|s.posted|);
    if |s.posted| + 1 < s.reclaimed + RING {
      SlotsDiffer(|s.posted| + 1, s.reclaimed);
    }
  }

  lemma KernelTurnLoad(s: State)
    requires RxInv(s) && s.kernel.Load?
    ensures KernelWork(KernelStep(s)) < KernelWork(s)
  {
    LoadLeavesRest(s);
    if KernelStep(s).kernel.Load? { LoadCounts(s); }
    hide KernelStep, Window, NicRx, Slot;
  }

  lemma LoadCounts(s: State)
    requires Shape(s) && s.kernel.Load? && KernelStep(s).kernel.Load?
    ensures |KernelStep(s).kernel.got| == |s.kernel.got| + 1
  {}

  lemma KernelTurnElse(s: State)
    requires Inv(s) && NicDone(s) && !Quiet(s) && s.rxNic.RxIdle?
    requires !(s.kernel.Poll? || s.kernel.Reclaim? || s.kernel.Send? || s.kernel.Load?)
    ensures KernelWork(KernelStep(s)) < KernelWork(s)
  {
    hide LoadStep, Window, NicRx, Slot, WriteField, DecisionInv;
    ReleasedBound(s);
    KernelPlace(s);
  }

  lemma KernelPlace(s: State)
    requires TxInv(s)
    ensures s.reclaimed <= |s.sent| <= |s.posted| < s.reclaimed + RING
    ensures s.kernel.Fill? ==> s.kernel.n <= 2
  {}

  /** The kernel's turn: with the NIC done, there is less to do behind each of its steps. */
  lemma KernelTurn(s: State)
    requires Inv(s) && NicDone(s) && !Quiet(s) && s.rxNic.RxIdle?
    ensures KernelWork(KernelStep(s)) < KernelWork(s) && KernelStep(s).rxNic.RxIdle?
  {
    hide RxInv, TxInv, DecisionInv, KernelStep, KernelWork;
    KernelLeavesRxNic(s);
    if s.kernel.Poll? { KernelTurnPoll(s); }
    else if s.kernel.Reclaim? { KernelTurnReclaim(s); }
    else if s.kernel.Send? { KernelTurnSend(s); }
    else if s.kernel.Load? { KernelTurnLoad(s); }
    else { KernelTurnElse(s); }
  }

  lemma KernelLeavesRxNic(s: State)
    requires Inv(s)
    ensures Shape(s) && KernelStep(s).rxNic == s.rxNic && KernelStep(s).injected == s.injected
  {
    hide TxInv, DecisionInv, Window, LoadStep, Slot, WriteField;
    if s.kernel.Load? { LoadLeavesRest(s); }
  }

  // ----- to rest -----

  /** No packet comes. */
  predicate NoArrivals(events: seq<Event>) {
    forall k | 0 <= k < |events| :: !events[k].Arrival?
  }

  /** One step to the rest, and there is less to do behind it. */
  lemma TurnProgress(s: State)
    requires Inv(s) && !Quiet(s)
    ensures var e := Turn(s);
            Enabled(s, e) && Paced(s, e, RING) && !e.Arrival? && Inv(Apply(s, e)) && Less(Apply(s, e), s)
  {
    hide RxInv, TxInv, DecisionInv, KernelStep, KernelWork, TxWork, RxWork;
    TurnEnabled(s);
    StepKeeps(s, Turn(s));
    if !s.rxNic.RxIdle? { RxTurn(s); }
    else if !NicDone(s) { TxTurn(s); }
    else { KernelTurn(s); }
  }

  /** Less work for the receiving NIC, or as much and less for the kernel, or for the transmitting NIC. */
  predicate Less(t: State, s: State) {
    RxWork(t.rxNic) < RxWork(s.rxNic)
    || (RxWork(t.rxNic) == RxWork(s.rxNic)
        && (KernelWork(t) < KernelWork(s) || (KernelWork(t) == KernelWork(s) && TxWork(t) < TxWork(s))))
  }

  lemma {:induction false} ComesToRest(s: State) returns (events: seq<Event>)
    requires Inv(s)
    ensures Possible(s, events, RING) && NoArrivals(events) && Quiet(Run(s, events))
    decreases RxWork(s.rxNic), KernelWork(s), TxWork(s)
  {
    hide Inv, Enabled, Paced, Apply, Turn, RxWork, KernelWork, TxWork;
    if Quiet(s) {
      events := [];
    } else {
      var e := Turn(s);
      TurnProgress(s);
      var t := Apply(s, e);
      WorkLeft(s);
      WorkLeft(t);
      var rest := ComesToRest(t);
      events := [e] + rest;
      assert events[1..] == rest;
    }
  }

  /**
   From every state of every run under the paced sender, kernel and NIC can go on without
   an arrival to a state in which all that was received is decided on, and exactly the
   strict running maxima of its quotes are out.
   */
  lemma EverythingCanBeSent(before: seq<Event>) returns (events: seq<Event>)
    requires Possible(Init(), before, RING)
    ensures NoArrivals(events) && Possible(Init(), before + events, RING)
    ensures var s := Run(Init(), before + events);
            Quiet(s) && s.sent == B.Numbered(B.RunningBests(B.Quotes(s.injected)))
  {
    hide Inv, Quiet, Enabled, Paced, Apply, B.Numbered, B.RunningBests, B.Quotes;
    InitHolds();
    RunKeeps(Init(), before);
    events := ComesToRest(Run(Init(), before));
    RunConcat(Init(), before, events, RING);
    QuiescentSendsAll(before + events);
    QuietMeans(Run(Init(), before + events));
  }

  lemma QuietMeans(s: State)
    requires Quiet(s)
    ensures s.released == |s.injected| && |s.sent| == |s.posted| && s.kernel.LoopTop?
  {}
}
