/** What every step of the machine keeps. */
module RingsProof {
  import opened Bytes
  import opened MoldFormat
  import opened Rings
  import B = Book

  /** Slots of a window no longer than the ring are different. */
  lemma SlotsDiffer(a: nat, b: nat)
    requires a != b && a < b + RING && b < a + RING
    ensures Slot(a) != Slot(b)
  {}

  lemma SlotStep(k: nat)
    ensures Step(Slot(k)) == Slot(k + 1)
  {}

  lemma SlotWraps(k: nat)
    ensures Slot(k + RING) == Slot(k)
  {}

  // ----- receive ring -----

  predicate Holds(slot: RxSlot, p: Datagram) {
    slot.length == |p| <= |slot.buf| && slot.buf[..|p|] == p
  }

  /**
   Of the next RING packets to be decided on, DD is set on exactly those that are
   completely there and not taken yet, and their slots hold them.
   */
  ghost predicate Window(rx: seq<RxSlot>, injected: seq<Datagram>, next: nat, taken: bool) {
    && |rx| == RING
    && next <= |injected| <= next + RING
    && (forall k | next <= k < next + RING ::
          rx[Slot(k)].dd <==> k < |injected| && !(k == next && taken))
    && (forall k | next <= k < |injected| :: Holds(rx[Slot(k)], injected[k]))
  }

  /** The kernel is reading its packet. */
  predicate HasPacket(k: Kernel) {
    k.ReadLength? || k.ClearDD? || k.Load?
  }

  /** The kernel's view of its packet. */
  ghost predicate KernelRx(kernel: Kernel, injected: seq<Datagram>, released: nat) {
    && (HasPacket(kernel) || Decided(kernel) ==> released < |injected|)
    && (kernel.ClearDD? ==> kernel.plen == |injected[released]|)
    && (kernel.Load? ==> kernel.plen == |injected[released]| && ReadSoFar(kernel.got, injected[released]))
  }

  /** The NIC's view of the slot it writes. */
  ghost predicate NicRx(rx: seq<RxSlot>, rxTail: nat, nic: RxNic, injected: seq<Datagram>, next: nat) {
    && |rx| == RING
    && (forall k | 0 <= k < |injected| :: 0 < |injected[k]| <= B.PKT_BUF_SIZE)
    && match nic
       case RxIdle => rxTail == Slot(|injected|)
       case RxLength(p) =>
         rxTail == Slot(|injected|) && |injected| < next + RING && 0 < |p| <= B.PKT_BUF_SIZE
       case RxWrite(p, n) =>
         && rxTail == Slot(|injected|) && |injected| < next + RING && 0 < |p| <= B.PKT_BUF_SIZE
         && n <= |p| && rx[rxTail].length == |p|
         && |rx[rxTail].buf| == B.PKT_BUF_SIZE && rx[rxTail].buf[..n] == p[..n]
       case RxTailReg => |injected| > 0 && rxTail == Slot(|injected| - 1)
       case RxAdvance => |injected| > 0 && rxTail == Slot(|injected| - 1)
  }

  ghost predicate RxInv(s: State) {
    && Shape(s)
    && s.rxHead == Slot(s.released)
    && Window(s.rx, s.injected, Handled(s), s.kernel.Load?)
    && KernelRx(s.kernel, s.injected, s.released)
    && NicRx(s.rx, s.rxTail, s.rxNic, s.injected, Handled(s))
  }

  /** The kernel clears DD on its packet. */
  lemma WindowClear(rx: seq<RxSlot>, injected: seq<Datagram>, released: nat)
    requires Window(rx, injected, released, false) && released < |injected|
    ensures var j := Slot(released); Window(rx[j := rx[j].(dd := false)], injected, released, true)
  {
    var j := Slot(released);
    var rx' := rx[j := rx[j].(dd := false)];
    forall k | released <= k < released + RING
      ensures rx'[Slot(k)].dd <==> k < |injected| && k != released
    {
      if k != released { SlotsDiffer(k, released); }
    }
    forall k | released <= k < |injected| ensures Holds(rx'[Slot(k)], injected[k]) {
      if k != released { SlotsDiffer(k, released); }
    }
  }

  /** The kernel decides on its packet: the slot can be written again. */
  lemma WindowDecide(rx: seq<RxSlot>, injected: seq<Datagram>, next: nat)
    requires Window(rx, injected, next, true) && next < |injected|
    ensures Window(rx, injected, next + 1, false)
  {
    assert Slot(next + RING) == Slot(next);
    forall k | next + 1 <= k < next + 1 + RING ensures rx[Slot(k)].dd <==> k < |injected| {
      if k == next + RING { assert !rx[Slot(next)].dd; }
    }
  }

  /** The NIC changes its slot without setting DD. */
  lemma WindowWrite(rx: seq<RxSlot>, injected: seq<Datagram>, released: nat, cleared: bool, slot: RxSlot)
    requires Window(rx, injected, released, cleared) && |injected| < released + RING
    requires slot.dd == rx[Slot(|injected|)].dd
    ensures Window(rx[Slot(|injected|) := slot], injected, released, cleared)
  {
    var w := |injected|;
    var rx' := rx[Slot(w) := slot];
    forall k | released <= k < released + RING && k != w ensures rx'[Slot(k)] == rx[Slot(k)] {
      SlotsDiffer(k, w);
    }
  }

  /** The NIC sets DD on a complete packet. */
  lemma WindowInject(rx: seq<RxSlot>, injected: seq<Datagram>, released: nat, cleared: bool, p: Datagram)
    requires Window(rx, injected, released, cleared) && |injected| < released + RING
    requires Holds(rx[Slot(|injected|)], p) && (cleared ==> released < |injected|)
    ensures var j := Slot(|injected|); Window(rx[j := rx[j].(dd := true)], injected + [p], released, cleared)
  {
    var w := |injected|;
    var j := Slot(w);
    var rx' := rx[j := rx[j].(dd := true)];
    forall k | released <= k < released + RING && k != w ensures rx'[Slot(k)] == rx[Slot(k)] {
      SlotsDiffer(k, w);
    }
    forall k | released <= k < |injected + [p]| ensures Holds(rx'[Slot(k)], (injected + [p])[k]) {
      if k == w { assert Holds(rx'[j], p); }
    }
  }

  lemma KernelShape(s: State)
    requires Shape(s)
    ensures Shape(KernelStep(s))
  {}

  lemma KernelKeepsRxPoll(s: State)
    requires RxInv(s) && (s.kernel.Poll? || s.kernel.ReadLength?)
    ensures RxInv(KernelStep(s))
  {
    hide LoadStep, NicRx;
    KernelShape(s);
    var r := s.released;
    assert s.rx[Slot(r)].dd <==> r < |s.injected|;
    if r < |s.injected| { assert Holds(s.rx[Slot(r)], s.injected[r]); }
  }

  lemma KernelKeepsRxClear(s: State)
    requires RxInv(s) && s.kernel.ClearDD?
    ensures RxInv(KernelStep(s))
  {
    hide LoadStep, Window, Slot;
    KernelShape(s);
    WindowClear(s.rx, s.injected, s.released);
    if s.rxNic.RxWrite? { NicElsewhere(s); }
  }

  /** The slot that the NIC writes is not the one that the kernel reads. */
  lemma NicElsewhere(s: State)
    requires RxInv(s) && HasPacket(s.kernel) && (s.rxNic.RxLength? || s.rxNic.RxWrite?)
    ensures s.rxTail != s.rxHead
  {
    SlotsDiffer(s.released, |s.injected|);
  }

  /** One more byte of the packet is read. */
  lemma LoadGrows(s: State)
    requires RxInv(s) && s.kernel.Load? && KernelStep(s).kernel.Load?
    ensures KernelRx(KernelStep(s).kernel, s.injected, s.released)
  {
    var r, got := s.released, s.kernel.got;
    var slot := s.rx[Slot(r)];
    assert Holds(slot, s.injected[r]);
    var at := B.MOLD_OFFSET_LEN + |got|;
    assert slot.buf[at] == slot.buf[..s.kernel.plen][at];
    assert s.injected[r][B.MOLD_OFFSET_LEN..at + 1] == s.injected[r][B.MOLD_OFFSET_LEN..at] + [slot.buf[at]];
  }

  /** The steps of handle_packet up to the decision change its own place and the decision only. */
  lemma LoadLeavesRest(s: State)
    requires Shape(s) && s.kernel.Load?
    ensures var t := KernelStep(s);
            && (t.kernel.Advance? || t.kernel.Load? || t.kernel.Send?)
            && t == s.(kernel := t.kernel, book := t.book, seen := t.seen)
  {}

  lemma KernelKeepsRxLoad(s: State)
    requires RxInv(s) && s.kernel.Load?
    ensures RxInv(KernelStep(s))
  {
    KernelShape(s);
    LoadLeavesRest(s);
    if KernelStep(s).kernel.Load? {
      LoadGrows(s);
    } else {
      WindowDecide(s.rx, s.injected, s.released);
    }
  }

  lemma KernelKeepsRxElse(s: State)
    requires RxInv(s)
    requires !(s.kernel.Poll? || s.kernel.ReadLength? || s.kernel.ClearDD? || s.kernel.Load?)
    ensures RxInv(KernelStep(s))
  {
    hide Window, NicRx, Slot;
    KernelShape(s);
    SlotStep(s.released);
    var t := KernelStep(s);
    assert t.rx == s.rx && Handled(t) == Handled(s);
  }

  lemma RxNicKeepsRxLength(s: State)
    requires RxInv(s) && Enabled(s, RxEvent) && s.rxNic.RxLength?
    ensures RxInv(RxStep(s))
  {
    hide Window, KernelStep, KernelRx;
    var w, p := |s.injected|, s.rxNic.packet;
    var slot := s.rx[Slot(w)].(length := |p|);
    WindowWrite(s.rx, s.injected, Handled(s), s.kernel.Load?, slot);
  }

  lemma RxNicKeepsRxByte(s: State)
    requires RxInv(s) && Enabled(s, RxEvent) && s.rxNic.RxWrite? && s.rxNic.n < |s.rxNic.packet|
    ensures RxInv(RxStep(s))
  {
    hide Window, KernelStep, KernelRx;
    var w, p, n := |s.injected|, s.rxNic.packet, s.rxNic.n;
    var slot := s.rx[Slot(w)].(buf := s.rx[Slot(w)].buf[n := p[n]]);
    assert slot.buf[..n + 1] == s.rx[Slot(w)].buf[..n] + [p[n]];
    assert p[..n + 1] == p[..n] + [p[n]];
    WindowWrite(s.rx, s.injected, Handled(s), s.kernel.Load?, slot);
  }

  lemma RxNicKeepsRxDone(s: State)
    requires RxInv(s) && Enabled(s, RxEvent) && s.rxNic.RxWrite? && s.rxNic.n >= |s.rxNic.packet|
    ensures RxInv(RxStep(s))
  {
    hide Window, KernelStep;
    var p := s.rxNic.packet;
    assert p[..s.rxNic.n] == p;
    WindowInject(s.rx, s.injected, Handled(s), s.kernel.Load?, p);
  }

  lemma RxNicKeepsRx(s: State)
    requires RxInv(s) && Enabled(s, RxEvent)
    ensures RxInv(RxStep(s))
  {
    hide Window, KernelStep, KernelRx;
    match s.rxNic
    case RxLength(p) => RxNicKeepsRxLength(s);
    case RxWrite(p, n) =>
      if n < |p| { RxNicKeepsRxByte(s); } else { RxNicKeepsRxDone(s); }
    case RxTailReg =>
    case RxAdvance => SlotStep(|s.injected| - 1);
  }

  // ----- transmit ring -----

  /** The first n fields agree. */
  predicate FieldsMatch(a: B.Order, b: B.Order, n: nat) {
    (n >= 1 ==> a.id == b.id) && (n >= 2 ==> a.price == b.price) && (n >= 3 ==> a.shares == b.shares)
  }

  /** Reclaimed, sent and posted orders; the posted and unsent ones are in their slots. */
  ghost predicate TxWindow(s: State) {
    var r, k, p := s.reclaimed, |s.sent|, |s.posted|;
    && |s.tx| == RING
    && r <= k <= p < r + RING
    && s.sent == s.posted[..k]
    && s.txHead == Slot(r) && s.txHeadReg == Slot(k)
    && (p > 0 ==> s.txTailReg == Slot(p - 1))
    && (forall j | k <= j < p :: s.tx[Slot(j)] == s.posted[j])
  }

  /** The kernel's place in the transmit path. */
  ghost predicate KernelTx(s: State)
    requires |s.tx| == RING
  {
    var r, p := s.reclaimed, |s.posted|;
    && (if s.kernel.NextTx? then p > 0 && s.txIdx == Slot(p - 1) else s.txIdx == Slot(p))
    && match s.kernel
       case Reclaim(hw, count, _) => hw == Slot(count) && r <= count <= |s.sent|
       case Fill(order, n) => n <= 2 && p + 1 < r + RING && FieldsMatch(s.tx[Slot(p)], order, n)
       case Bell(order) => p + 1 < r + RING && s.tx[Slot(p)] == order
       case _ => true
  }

  /** The transmit side's place. */
  ghost predicate NicTx(s: State) {
    match s.txNic
    case TxIdle => true
    case TxRead(n, o) =>
      n <= 3 && |s.sent| < |s.posted| && FieldsMatch(o, s.posted[|s.sent|], n)
  }

  ghost predicate TxInv(s: State) {
    Shape(s) && TxWindow(s) && KernelTx(s) && NicTx(s)
  }

  lemma KernelKeepsTxReclaim(s: State)
    requires TxInv(s) && s.kernel.Reclaim?
    ensures TxInv(KernelStep(s))
    ensures KernelStep(s).kernel.Reclaim? || s.reclaimed == s.kernel.count
  {
    hide LoadStep, Slot;
    KernelShape(s);
    SlotStep(s.reclaimed);
    if s.reclaimed != s.kernel.count { SlotsDiffer(s.reclaimed, s.kernel.count); }
  }

  lemma KernelKeepsTxSend(s: State)
    requires TxInv(s) && s.kernel.Send?
    ensures TxInv(KernelStep(s))
  {
    hide LoadStep, Slot;
    KernelShape(s);
    SlotStep(|s.posted|);
    if |s.posted| + 1 == s.reclaimed + RING { SlotWraps(s.reclaimed); }
  }

  lemma KernelKeepsTxFill(s: State)
    requires TxInv(s) && s.kernel.Fill?
    ensures TxInv(KernelStep(s))
  {
    hide LoadStep;
    KernelShape(s);
    var p, k := |s.posted|, |s.sent|;
    var t := KernelStep(s);
    forall j | k <= j < p ensures t.tx[Slot(j)] == s.tx[Slot(j)] {
      SlotsDiffer(j, p);
    }
  }

  lemma KernelKeepsTxBell(s: State)
    requires TxInv(s) && s.kernel.Bell?
    ensures TxInv(KernelStep(s))
  {
    hide LoadStep, Slot;
    KernelShape(s);
    var t := KernelStep(s);
    assert t.posted[|s.posted|] == s.kernel.order && forall j | 0 <= j < |s.posted| :: t.posted[j] == s.posted[j];
  }

  lemma KernelKeepsTxNext(s: State)
    requires TxInv(s) && s.kernel.NextTx?
    ensures TxInv(KernelStep(s))
  {
    hide LoadStep, Slot;
    KernelShape(s);
    SlotStep(|s.posted| - 1);
  }

  lemma KernelKeepsTxLoad(s: State)
    requires TxInv(s) && s.kernel.Load?
    ensures TxInv(KernelStep(s))
  {
    hide LoadStep, Slot, FieldsMatch;
    KernelShape(s);
    LoadLeavesRest(s);
  }

  /** reclaim_tx reads the head register. */
  lemma KernelKeepsTxRead(s: State)
    requires TxInv(s) && (s.kernel.LoopTop? || s.kernel.SpinRead?)
    ensures TxInv(KernelStep(s))
  {
    hide LoadStep, Slot, FieldsMatch;
    KernelShape(s);
  }

  /** The steps on the receive ring have no effect on the transmit path. */
  lemma KernelKeepsTxElse(s: State)
    requires TxInv(s) && (s.kernel.Poll? || s.kernel.ReadLength? || s.kernel.ClearDD? || s.kernel.Advance?)
    ensures TxInv(KernelStep(s))
  {
    hide LoadStep, Slot, FieldsMatch;
    KernelShape(s);
    var t := KernelStep(s);
    assert t == s.(kernel := t.kernel, rx := t.rx, rxHead := t.rxHead, released := t.released, seen := t.seen);
  }

  lemma TxNicKeepsTx(s: State)
    requires TxInv(s) && Enabled(s, TxEvent)
    ensures TxInv(TxStep(s))
  {
    var k := |s.sent|;
    if s.txNic.TxRead? {
      assert s.tx[Slot(k)] == s.posted[k];
      SlotStep(k);
      if s.txNic.n == 3 {
        assert s.txNic.order == s.posted[k];
        assert s.posted[..k + 1] == s.posted[..k] + [s.posted[k]];
      }
    }
  }

  // ----- decisions -----

  function Pending(k: Kernel): seq<B.Order> {
    match k
    case Send(o) => [o]
    case SpinRead(o) => [o]
    case Fill(o, _) => [o]
    case Bell(o) => [o]
    case Reclaim(_, _, SendSpin(o)) => [o]
    case _ => []
  }

  function Decoded(ps: seq<Datagram>): (qs: seq<Option<B.Quote>>)
    ensures |qs| == |ps|
  {
    seq(|ps|, k requires 0 <= k < |ps| => B.Decode(ps[k]))
  }

  /** What the kernel read, decided and posted is what the packets injected so far call for. */
  ghost predicate DecisionInv(s: State) {
    && Handled(s) <= |s.injected|
    && var ps := s.injected[..Handled(s)];
       && s.seen == Decoded(ps)
       && s.book == B.After(ps)
       && s.posted + Pending(s.kernel) == B.Orders(ps)
  }

  lemma DecodedMore(ps: seq<Datagram>, p: Datagram)
    ensures Decoded(ps + [p]) == Decoded(ps) + [B.Decode(p)]
  {}

  /** One packet more is decided on. */
  lemma Decides(s: State, t: State, q: Option<B.Quote>)
    requires DecisionInv(s) && Handled(s) < |s.injected| && Pending(s.kernel) == []
    requires t.injected == s.injected && t.posted == s.posted && Handled(t) == Handled(s) + 1
    requires q == B.Decode(s.injected[Handled(s)]) && t.seen == s.seen + [q]
    requires var (book, order) := if q.None? then (s.book, None) else B.Offer(s.book, q.value);
             t.book == book && Pending(t.kernel) == B.AsSeq(order)
    ensures DecisionInv(t)
  {
    hide B.Decode, B.Offer, B.After, B.Orders, B.Quotes, B.Quoting, Decoded;
    var h := Handled(s);
    var ps, p := s.injected[..h], s.injected[h];
    B.OneMore(ps, p);
    DecodedMore(ps, p);
    assert s.injected[..h + 1] == ps + [p];
    assert s.posted + [] == s.posted;
  }

  /** What has been read of the packet. */
  predicate ReadSoFar(got: seq<Byte>, p: Datagram) {
    got == []
    || (B.MOLD_OFFSET_LEN + |got| <= B.PKT_MIN_LEN <= |p|
        && got == p[B.MOLD_OFFSET_LEN..B.MOLD_OFFSET_LEN + |got|])
  }

  /** The decision is the one that the packet calls for. */
  lemma LoadDecides(s: State, p: Datagram)
    requires Shape(s) && s.kernel.Load? && s.kernel.plen == |p| && ReadSoFar(s.kernel.got, p)
    requires !KernelStep(s).kernel.Load?
    ensures KernelStep(s) == Deciding(s, B.Decode(p))
  {
    var got := s.kernel.got;
    if |p| >= B.PKT_MIN_LEN && |got| == 4 && BigEndian(got) != B.ITCH_PAYLOAD_LEN {
      assert p[B.MOLD_OFFSET_LEN..B.PKT_MIN_LEN][..4] == got;
    }
  }

  lemma KernelKeepsDecisionLoad(s: State)
    requires RxInv(s) && DecisionInv(s) && s.kernel.Load?
    ensures DecisionInv(KernelStep(s))
  {
    hide Window, NicRx, B.Decode, B.After, B.Orders, Decoded;
    var p := s.injected[s.released];
    var t := KernelStep(s);
    LoadLeavesRest(s);
    hide KernelStep, LoadStep;
    if !t.kernel.Load? {
      LoadDecides(s, p);
      Decides(s, t, B.Decode(p));
    }
  }

  lemma KernelKeepsDecisionElse(s: State)
    requires RxInv(s) && DecisionInv(s) && !s.kernel.Load?
    ensures DecisionInv(KernelStep(s))
  {
    hide B.Decode, B.After, B.Orders, Decoded, Window, LoadStep, Slot, WriteField;
    if s.kernel.Bell? {
      assert s.posted + [s.kernel.order] + [] == s.posted + [s.kernel.order];
    }
  }

  /** A packet injected later changes nothing that was decided. */
  lemma InjectKeepsDecision(s: State)
    requires DecisionInv(s) && Enabled(s, RxEvent)
    ensures DecisionInv(RxStep(s))
  {
    hide B.After, B.Orders, Decoded;
    var t := RxStep(s);
    assert t.injected[..Handled(s)] == s.injected[..Handled(s)];
  }

  // ----- every run -----

  ghost predicate Inv(s: State) {
    RxInv(s) && TxInv(s) && DecisionInv(s)
  }

  lemma InitHolds()
    ensures Inv(Init())
  {
    assert [] + [] == B.Orders([]);
    assert Decoded([]) == [];
  }

  lemma KernelKeepsRx(s: State)
    requires RxInv(s)
    ensures RxInv(KernelStep(s))
  {
    hide RxInv, KernelStep;
    if s.kernel.Load? { KernelKeepsRxLoad(s); }
    else if s.kernel.Poll? || s.kernel.ReadLength? { KernelKeepsRxPoll(s); }
    else if s.kernel.ClearDD? { KernelKeepsRxClear(s); }
    else { KernelKeepsRxElse(s); }
  }

  lemma KernelKeepsTx(s: State)
    requires TxInv(s)
    ensures TxInv(KernelStep(s))
  {
    hide TxInv, KernelStep;
    if s.kernel.Reclaim? { KernelKeepsTxReclaim(s); }
    else if s.kernel.Send? { KernelKeepsTxSend(s); }
    else if s.kernel.Fill? { KernelKeepsTxFill(s); }
    else if s.kernel.Bell? { KernelKeepsTxBell(s); }
    else if s.kernel.NextTx? { KernelKeepsTxNext(s); }
    else if s.kernel.Load? { KernelKeepsTxLoad(s); }
    else if s.kernel.LoopTop? || s.kernel.SpinRead? { KernelKeepsTxRead(s); }
    else { KernelKeepsTxElse(s); }
  }

  lemma KernelKeepsDecision(s: State)
    requires RxInv(s) && DecisionInv(s)
    ensures DecisionInv(KernelStep(s))
  {
    hide DecisionInv, KernelStep;
    if s.kernel.Load? { KernelKeepsDecisionLoad(s); } else { KernelKeepsDecisionElse(s); }
  }

  /** The two sides of the NIC do not touch each other's part, nor what the kernel has decided. */
  lemma RxNicKeepsTx(s: State)
    requires TxInv(s) && Enabled(s, RxEvent)
    ensures TxInv(RxStep(s))
  {
    RxLeavesRest(s);
    hide Slot, FieldsMatch, KernelStep, RxStep;
  }

  lemma RxLeavesRest(s: State)
    requires Enabled(s, RxEvent)
    ensures var t := RxStep(s);
            && Shape(t)
            && t == s.(rx := t.rx, rxTailReg := t.rxTailReg, rxTail := t.rxTail, rxNic := t.rxNic,
                       injected := t.injected)
  {
    hide KernelStep;
  }

  lemma TxNicKeepsRx(s: State)
    requires RxInv(s) && DecisionInv(s) && Enabled(s, TxEvent)
    ensures RxInv(TxStep(s)) && DecisionInv(TxStep(s))
  {
    hide Window, B.After, B.Orders, Decoded;
  }

  lemma ArrivalKeeps(s: State, p: Datagram)
    requires Inv(s) && Enabled(s, Arrival(p)) && Paced(s, Arrival(p), RING)
    ensures Inv(Apply(s, Arrival(p)))
  {
    hide Window, B.After, B.Orders, Decoded;
  }

  /** Every step, whoever takes it, keeps the invariant. */
  lemma StepKeeps(s: State, e: Event)
    requires Inv(s) && Enabled(s, e) && Paced(s, e, RING)
    ensures Inv(Apply(s, e))
  {
    hide RxInv, TxInv, DecisionInv;
    match e
    case KernelEvent =>
      KernelKeepsRx(s);
      KernelKeepsTx(s);
      KernelKeepsDecision(s);
    case Arrival(p) =>
      ArrivalKeeps(s, p);
    case RxEvent =>
      RxNicKeepsRx(s);
      RxNicKeepsTx(s);
      InjectKeepsDecision(s);
    case TxEvent =>
      TxNicKeepsRx(s);
      TxNicKeepsTx(s);
  }

  lemma {:induction false} RunKeeps(s: State, events: seq<Event>)
    requires Inv(s) && Possible(s, events, RING)
    ensures Inv(Run(s, events))
    decreases |events|
  {
    hide Inv;
    if events != [] {
      StepKeeps(s, events[0]);
      RunKeeps(Apply(s, events[0]), events[1..]);
    }
  }

  // ----- every run, paced or not -----

  /** The transmit path does not depend on what the sender does. */
  lemma TxStepKeeps(s: State, e: Event)
    requires TxInv(s) && Enabled(s, e)
    ensures TxInv(Apply(s, e))
  {
    hide KernelStep;
    match e
    case KernelEvent => KernelKeepsTx(s);
    case Arrival(p) => hide Slot;
    case RxEvent => RxNicKeepsTx(s);
    case TxEvent => TxNicKeepsTx(s);
  }

  lemma {:induction false} TxRunKeeps(s: State, events: seq<Event>)
    requires TxInv(s)
    ensures TxInv(Run(s, events))
    decreases |events|
  {
    hide TxInv, Apply, Enabled;
    if events != [] && Enabled(s, events[0]) {
      TxStepKeeps(s, events[0]);
      TxRunKeeps(Apply(s, events[0]), events[1..]);
    }
  }

  /** The quotes that the kernel decided on. */
  function Given(seen: seq<Option<B.Quote>>): seq<B.Quote> {
    if seen == [] then []
    else
      var q := seen[|seen| - 1];
      Given(seen[..|seen| - 1]) + (if q.Some? then [q.value] else [])
  }

  lemma GivenMore(seen: seq<Option<B.Quote>>, q: Option<B.Quote>)
    ensures Given(seen + [q]) == Given(seen) + (if q.Some? then [q.value] else [])
  {
    assert (seen + [q])[..|seen|] == seen;
  }

  /** What is posted goes with what the kernel saw, whatever that was. */
  ghost predicate OrdersInv(s: State) {
    Shape(s) && B.Tracks(s.book, Given(s.seen), s.posted + Pending(s.kernel))
  }

  lemma FieldsBound(f: seq<Byte>)
    requires |f| == B.PKT_MIN_LEN - B.MOLD_OFFSET_LEN
    ensures B.DecodeFields(f).Some? ==> B.DecodeFields(f).value.price < B.TWO_32
  {
    B.FieldBound(f[7..11]);
  }

  lemma DecidingKeepsOrders(s: State, q: Option<B.Quote>)
    requires OrdersInv(s) && Pending(s.kernel) == [] && (q.Some? ==> q.value.price < B.TWO_32)
    ensures var t := Deciding(s, q); B.Tracks(t.book, Given(t.seen), t.posted + Pending(t.kernel))
  {
    hide B.Tracks, B.Offer, Given;
    GivenMore(s.seen, q);
    assert s.posted + [] == s.posted;
    if q.Some? {
      B.TracksOffer(s.book, Given(s.seen), s.posted, q.value);
    } else {
      assert Given(s.seen) + [] == Given(s.seen);
    }
  }

  /** handle_packet decides on nothing, or on fields with a 32-bit price. */
  lemma LoadDecidesSome(s: State) returns (q: Option<B.Quote>)
    requires Shape(s) && s.kernel.Load? && !KernelStep(s).kernel.Load?
    ensures KernelStep(s) == Deciding(s, q) && (q.Some? ==> q.value.price < B.TWO_32)
  {
    var got := s.kernel.got;
    if |got| == B.PKT_MIN_LEN - B.MOLD_OFFSET_LEN && s.kernel.plen >= B.PKT_MIN_LEN {
      FieldsBound(got);
      q := B.DecodeFields(got);
    } else {
      q := None;
    }
  }

  lemma ClearDecidesNone(s: State)
    requires Shape(s) && s.kernel.ClearDD? && !KernelStep(s).kernel.Load?
    ensures var t := KernelStep(s);
            t == Deciding(s, None).(rx := t.rx)
  {}

  /** The other kernel steps move an order from pending to posted at most. */
  lemma KernelKeepsPosted(s: State)
    requires Shape(s) && !s.kernel.Load? && !(s.kernel.ClearDD? && !KernelStep(s).kernel.Load?)
    ensures var t := KernelStep(s);
            t.book == s.book && t.seen == s.seen && t.posted + Pending(t.kernel) == s.posted + Pending(s.kernel)
  {
    hide LoadStep, Slot, WriteField;
    if s.kernel.Bell? {
      assert s.posted + [s.kernel.order] + [] == s.posted + [s.kernel.order];
    }
  }

  lemma KernelKeepsOrders(s: State)
    requires OrdersInv(s)
    ensures OrdersInv(KernelStep(s))
  {
    hide KernelStep, B.Tracks, Given;
    KernelShape(s);
    if s.kernel.Load? {
      if KernelStep(s).kernel.Load? {
        LoadLeavesRest(s);
        LoadStays(s);
      } else {
        var q := LoadDecidesSome(s);
        DecidingKeepsOrders(s, q);
      }
    } else if s.kernel.ClearDD? && !KernelStep(s).kernel.Load? {
      ClearDecidesNone(s);
      DecidingKeepsOrders(s, None);
    } else {
      KernelKeepsPosted(s);
    }
  }

  lemma LoadStays(s: State)
    requires Shape(s) && s.kernel.Load? && KernelStep(s).kernel.Load?
    ensures KernelStep(s).book == s.book && KernelStep(s).seen == s.seen && KernelStep(s).posted == s.posted
  {}

  /** The NIC has no part in it. */
  lemma NicLeavesOrders(s: State, e: Event)
    requires Enabled(s, e) && !e.KernelEvent?
    ensures var t := Apply(s, e);
            Shape(t) && t.book == s.book && t.seen == s.seen && t.posted == s.posted && t.kernel == s.kernel
  {
    hide KernelStep;
  }

  lemma {:induction false} OrdersRunKeeps(s: State, events: seq<Event>)
    requires OrdersInv(s)
    ensures OrdersInv(Run(s, events))
    decreases |events|
  {
    hide B.Tracks, Given, Enabled, KernelStep;
    if events != [] && Enabled(s, events[0]) {
      var e := events[0];
      if e.KernelEvent? { KernelKeepsOrders(s); } else { NicLeavesOrders(s, e); }
      OrdersRunKeeps(Apply(s, e), events[1..]);
    }
  }

  // ----- results, for every run from the start -----

  /** The packets received have been decided on in order, each once, on what was in them. */
  ghost predicate Right(s: State) {
    |s.seen| <= |s.injected| && s.seen == Decoded(s.injected[..|s.seen|])
  }

  /**
   The kernel decides on the injected packets exactly once each, in the order they were
   injected, on what was in them; the sender's count of those that wait is right.
   */
  lemma HandlesEachPacketOnce(events: seq<Event>)
    requires Possible(Init(), events, RING)
    ensures Right(Run(Init(), events))
    ensures var s := Run(Init(), events); Backlog(s) == |s.injected| - |s.seen|
  {
    hide B.After, B.Orders, RxInv, TxInv;
    InitHolds();
    RunKeeps(Init(), events);
  }

  /** The receive slot that the NIC writes is never the one that the kernel reads. */
  lemma ReceiveSlotsDisjoint(events: seq<Event>)
    requires Possible(Init(), events, RING)
    ensures var s := Run(Init(), events);
            (s.rxNic.RxLength? || s.rxNic.RxWrite?) && HasPacket(s.kernel) ==> s.rxTail != s.rxHead
  {
    hide TxInv, DecisionInv;
    InitHolds();
    RunKeeps(Init(), events);
    var s := Run(Init(), events);
    if (s.rxNic.RxLength? || s.rxNic.RxWrite?) && HasPacket(s.kernel) { NicElsewhere(s); }
  }

  /** DD is set only on a slot with a complete packet that the kernel has not decided on. */
  lemma DescriptorDoneMeansComplete(events: seq<Event>, k: nat)
    requires Possible(Init(), events, RING)
    ensures var s := Run(Init(), events);
            var next := Handled(s);
            && |s.rx| == RING && next <= |s.injected| <= next + RING
            && (next <= k < next + RING && s.rx[Slot(k)].dd ==>
                  k < |s.injected| && Holds(s.rx[Slot(k)], s.injected[k]))
  {
    hide TxInv, DecisionInv;
    InitHolds();
    RunKeeps(Init(), events);
  }

  /**
   Transmit ring, in every run, paced or not: reclaimed <= sent <= posted <= reclaimed + 15, the NIC sends the orders
   in the order posted, and the slot being filled is not the one being read.
   */
  lemma TransmitRingSafe(events: seq<Event>)
    ensures var s := Run(Init(), events);
            && |s.tx| == 16
            && s.reclaimed <= |s.sent| <= |s.posted| <= s.reclaimed + 15
            && s.sent == s.posted[..|s.sent|]
            && (s.kernel.Fill? && s.txNic.TxRead? ==> s.txIdx != s.txHeadReg)
  {
    InitHolds();
    TxRunKeeps(Init(), events);
    var s := Run(Init(), events);
    if s.kernel.Fill? && s.txNic.TxRead? { SlotsDiffer(|s.sent|, |s.posted|); }
  }

  lemma {:induction false} OrdersOfPrefix(ps: seq<Datagram>, n: nat)
    requires n <= |ps|
    ensures B.Orders(ps[..n]) <= B.Orders(ps)
    decreases |ps|
  {
    if n == |ps| {
      assert ps[..n] == ps;
    } else {
      var before, p := ps[..|ps| - 1], ps[|ps| - 1];
      OrdersOfPrefix(before, n);
      assert before[..n] == ps[..n] && before + [p] == ps;
      B.OneMore(before, p);
    }
  }

  /**
   What goes out of the NIC is a beginning of the strict running maxima of the AAPL
   prices that came in, numbered from 1, whatever the interleaving.
   */
  lemma SendsRunningBests(events: seq<Event>)
    requires Possible(Init(), events, RING)
    ensures var s := Run(Init(), events);
            s.sent <= s.posted <= B.Numbered(B.RunningBests(B.Quotes(s.injected)))
  {
    hide RxInv, B.After, Decoded, B.Orders, B.RunningBests, B.Quotes, B.Numbered;
    InitHolds();
    RunKeeps(Init(), events);
    var s := Run(Init(), events);
    OrdersOfPrefix(s.injected, Handled(s));
    B.OrdersAreRunningBests(s.injected);
  }

  /**
   In every run, paced or not: what goes out is a beginning of what is posted, and that of
   the strict running maxima of the quotes that the kernel saw, numbered from 1.  So even
   behind an overrun no id is used twice and prices rise strictly.
   */
  lemma SendsOwnBests(events: seq<Event>)
    ensures var s := Run(Init(), events);
            s.sent <= s.posted <= B.Numbered(B.RunningBests(Given(s.seen)))
  {
    hide Given, B.RunningBests, B.Numbered, B.IsBest, B.Climbs;
    InitHolds();
    TxRunKeeps(Init(), events);
    OrdersAtStart();
    OrdersRunKeeps(Init(), events);
  }

  lemma OrdersAtStart()
    ensures OrdersInv(Init())
  {
    B.TracksRun([]);
    assert [] + [] == B.Orders([]);
  }

  /**
   reclaim_tx: each pass brings tx_head one slot nearer to the value read, (hw - tx_head)
   modulo the ring size passes are left, and it stops with exactly the orders reclaimed
   that had been sent when the register was read.
   */
  lemma ReclaimExact(events: seq<Event>)
    ensures var s := Run(Init(), events);
            s.kernel.Reclaim? ==>
              && s.reclaimed <= s.kernel.count <= |s.sent|
              && (s.kernel.hw - s.txHead) % 16 == s.kernel.count - s.reclaimed
              && (s.txHead == s.kernel.hw <==> s.reclaimed == s.kernel.count)
  {
    hide TxInv, Run;
    InitHolds();
    TxRunKeeps(Init(), events);
    var s := Run(Init(), events);
    if s.kernel.Reclaim? { PassesLeft(s); }
  }

  lemma PassesLeft(s: State)
    requires TxInv(s) && s.kernel.Reclaim?
    ensures s.reclaimed <= s.kernel.count <= |s.sent|
    ensures (s.kernel.hw - s.txHead) % RING == s.kernel.count - s.reclaimed
    ensures s.txHead == s.kernel.hw <==> s.reclaimed == s.kernel.count
  {
    SlotDistance(s.reclaimed, s.kernel.count);
  }

  lemma SlotDistance(a: nat, b: nat)
    requires a <= b < a + RING
    ensures (Slot(b) - Slot(a)) % RING == b - a
  {}

  /**
   What the two registers tell the transmit side: the orders that wait are tail + 1 - head
   modulo the ring, but not before the first order, which leaves both registers at zero.
   */
  lemma TailTellsWaiting(events: seq<Event>)
    ensures var s := Run(Init(), events);
            && (|s.posted| - |s.sent| == (s.txTailReg + 1 - s.txHeadReg) % 16 <==> |s.posted| > 0)
            && (s.posted == [] ==> s.txTailReg == 0)
  {
    hide TxInv, Run, Slot;
    InitHolds();
    TxRunKeeps(Init(), events);
    TailBeforeFirst(Init(), events);
    RegistersTell(Run(Init(), events));
  }

  lemma RegistersTell(s: State)
    requires TxInv(s) && (s.posted == [] ==> s.txTailReg == 0)
    ensures |s.posted| - |s.sent| == (s.txTailReg + 1 - s.txHeadReg) % RING <==> |s.posted| > 0
  {
    if |s.posted| > 0 { WaitingDistance(|s.sent|, |s.posted|); }
  }

  lemma WaitingDistance(k: nat, p: nat)
    requires 0 < p && k <= p < k + RING
    ensures (Slot(p - 1) + 1 - Slot(k)) % RING == p - k
  {
    Modulo(p - 1, (p - 1) / RING, Slot(p - 1));
    Modulo(k, k / RING, Slot(k));
    var a, b := (p - 1) / RING, k / RING;
    assert Slot(p - 1) + 1 - Slot(k) == p - k - RING * (a - b);
    RemoveTurns(p - k, a - b);
  }

  lemma Modulo(n: nat, turns: nat, rest: nat)
    requires turns == n / RING && rest == Slot(n)
    ensures n == RING * turns + rest
  {}

  lemma RemoveTurns(n: nat, turns: int)
    requires n < RING
    ensures (n - RING * turns) % RING == n
  {}

  lemma {:induction false} TailBeforeFirst(s: State, events: seq<Event>)
    requires s.posted == [] ==> s.txTailReg == 0
    ensures var t := Run(s, events); t.posted == [] ==> t.txTailReg == 0
    decreases |events|
  {
    if events != [] && Enabled(s, events[0]) {
      TailStays(s, events[0]);
      TailBeforeFirst(Apply(s, events[0]), events[1..]);
    }
  }

  lemma TailStays(s: State, e: Event)
    requires Enabled(s, e) && (s.posted == [] ==> s.txTailReg == 0)
    ensures var t := Apply(s, e); t.posted == [] ==> t.txTailReg == 0
  {
    hide LoadStep;
    if e.KernelEvent? && s.kernel.Load? { LoadLeavesRest(s); }
  }

  /** The tail and its register go with the number of packets that have come. */
  predicate RxTailInv(s: State) {
    && Shape(s)
    && var n := |s.injected|;
       match s.rxNic
       case RxTailReg => n > 0 && s.rxTail == (n - 1) % 16 && s.rxTailReg == if n == 1 then 0 else (n - 2) % 16
       case RxAdvance => n > 0 && s.rxTail == (n - 1) % 16 && s.rxTailReg == (n - 1) % 16
       case _ => s.rxTail == n % 16 && s.rxTailReg == if n == 0 then 0 else (n - 1) % 16
  }

  lemma RxTailStepKeeps(s: State, e: Event)
    requires RxTailInv(s) && Enabled(s, e)
    ensures RxTailInv(Apply(s, e))
  {
    match e
    case KernelEvent =>
      hide KernelStep;
      KernelShape(s);
      KernelLeavesTail(s);
    case RxEvent =>
      hide KernelStep;
      var n := |s.injected|;
      if s.rxNic.RxAdvance? { SlotStep(n - 1); }
    case TxEvent => hide KernelStep, RxStep, WriteField;
    case Arrival(p) => hide KernelStep;
  }

  lemma KernelLeavesTail(s: State)
    requires Shape(s)
    ensures var t := KernelStep(s);
            t.rxTail == s.rxTail && t.rxTailReg == s.rxTailReg && t.rxNic == s.rxNic && t.injected == s.injected
  {
    hide LoadStep, Slot;
    if s.kernel.Load? { LoadLeavesRest(s); }
  }

  lemma {:induction false} RxTailRunKeeps(s: State, events: seq<Event>)
    requires RxTailInv(s)
    ensures RxTailInv(Run(s, events))
    decreases |events|
  {
    hide RxTailInv, Apply, Enabled;
    if events != [] && Enabled(s, events[0]) {
      RxTailStepKeeps(s, events[0]);
      RxTailRunKeeps(Apply(s, events[0]), events[1..]);
    }
  }

  /**
   The receive tail, in every run, paced or not: before a packet is complete the NIC's index
   is that of the slot it will fill next, and the register names the last slot filled; it
   is one behind only until the NIC has written it.
   */
  lemma ReceiveTailRegister(events: seq<Event>)
    ensures var s := Run(Init(), events);
            var n := |s.injected|;
            && (s.rxNic.RxIdle? ==> s.rxTail == n % 16)
            && (n > 0 && !s.rxNic.RxTailReg? ==> s.rxTailReg == (n - 1) % 16)
            && (n > 1 && s.rxNic.RxTailReg? ==> s.rxTailReg == (n - 2) % 16)
            && (n == 0 ==> s.rxTailReg == 0)
  {
    hide Run;
    RxTailRunKeeps(Init(), events);
  }

  /**
   And nothing is held back: once the kernel has caught up and the NIC has sent what was
   posted, all of them are out.
   */
  lemma QuiescentSendsAll(events: seq<Event>)
    requires Possible(Init(), events, RING)
    ensures var s := Run(Init(), events);
            s.released == |s.injected| && |s.sent| == |s.posted| && s.kernel.LoopTop?
            ==> s.sent == B.Numbered(B.RunningBests(B.Quotes(s.injected)))
  {
    hide RxInv, B.After, Decoded, B.Orders, B.RunningBests, B.Quotes, B.Numbered;
    InitHolds();
    RunKeeps(Init(), events);
    var s := Run(Init(), events);
    B.OrdersAreRunningBests(s.injected);
    if s.released == |s.injected| && s.kernel.LoopTop? {
      assert s.injected[..Handled(s)] == s.injected;
      assert s.posted + [] == s.posted;
    }
  }
}
