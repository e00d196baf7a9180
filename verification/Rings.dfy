/**
 The kernel and the two sides of the NIC as one machine: poll_rx_loop, handle_packet,
 send_ouch and reclaim_tx of kernel.c, the receive side of hw_nic_sim.c, and a transmit
 side that reads posted slots.  Each takes one memory access or register access at a
 time, in any interleaving.
 */
module Rings {
  import opened Bytes
  import opened MoldFormat
  import B = Book

  type Datagram = seq<Byte>

  /** RX_RING_SIZE and TX_RING_SIZE */
  const RING := 16

  /** The ring slot of the k-th packet or order. */
  function Slot(k: nat): nat {
    k % RING
  }

  function Step(i: nat): nat {
    (i + 1) % RING
  }

  datatype RxSlot = RxSlot(dd: bool, length: nat, buf: seq<Byte>)

  /** Where reclaim_tx returns to. */
  datatype Caller = PollLoop | SendSpin(order: B.Order)

  /** Where the kernel is. */
  datatype Kernel =
    | LoopTop                                   // reads the transmit head register
    | Reclaim(hw: nat, count: nat, caller: Caller)   // compares, advances tx_head; count is history
    | Poll                                      // tests DD
    | ReadLength
    | ClearDD(plen: nat)
    | Load(plen: nat, got: seq<Byte>)           // handle_packet, got read from offset 8 on
    | Send(order: B.Order)                      // tests for a free slot
    | SpinRead(order: B.Order)                  // reads the transmit head register
    | Fill(order: B.Order, n: nat)              // n fields written
    | Bell(order: B.Order)                      // writes the transmit tail register
    | NextTx                                    // advances tx_idx
    | Advance                                   // advances rx_head

  /** Where the receive side of the NIC is. */
  datatype RxNic =
    | RxIdle
    | RxLength(packet: Datagram)
    | RxWrite(packet: Datagram, n: nat)           // n bytes written
    | RxTailReg
    | RxAdvance

  /** Where the transmit side of the NIC is. */
  datatype TxNic =
    | TxIdle
    | TxRead(n: nat, order: B.Order)            // n fields read

  datatype State = State(
    // memory and registers
    rx: seq<RxSlot>, tx: seq<B.Order>, rxTailReg: nat, txTailReg: nat, txHeadReg: nat,
    // the kernel's globals and control
    rxHead: nat, txIdx: nat, txHead: nat, book: B.State, kernel: Kernel,
    // the NIC's
    rxTail: nat, rxNic: RxNic, txNic: TxNic,
    // history: packets received, slots given back, quotes decided on, orders posted and
    // sent, slots reclaimed
    injected: seq<Datagram>, released: nat, seen: seq<Option<B.Quote>>,
    posted: seq<B.Order>, sent: seq<B.Order>, reclaimed: nat)

  const EMPTY_BUFFER: seq<Byte> := seq(B.PKT_BUF_SIZE, _ => 0)
  const NO_ORDER := B.Order(0, 0, 0)

  /** After init_rx_ring and init_tx_ring. */
  function Init(): State {
    State(
      seq(RING, _ => RxSlot(false, B.PKT_BUF_SIZE, EMPTY_BUFFER)), seq(RING, _ => NO_ORDER), 0, 0, 0,
      0, 0, 0, B.START, LoopTop,
      0, RxIdle, TxIdle,
      [], 0, [], [], [], 0)
  }

  predicate Shape(s: State) {
    && |s.rx| == RING && |s.tx| == RING
    && (forall j | 0 <= j < RING :: |s.rx[j].buf| == B.PKT_BUF_SIZE)
    && s.rxHead < RING && s.txIdx < RING && s.txHead < RING && s.rxTail < RING && s.txHeadReg < RING
    && (s.kernel.Load? ==> |s.kernel.got| <= B.PKT_MIN_LEN - B.MOLD_OFFSET_LEN)
  }

  // ----- the kernel -----

  /** handle_packet is done with the packet without an order. */
  function Pass(s: State): State {
    s.(kernel := Advance, seen := s.seen + [None])
  }

  /** handle_packet has decided on the packet. */
  function Deciding(s: State, q: Option<B.Quote>): State {
    if q.None? then Pass(s)
    else
      var (book, order) := B.Offer(s.book, q.value);
      s.(book := book, seen := s.seen + [q], kernel := if order.None? then Advance else Send(order.value))
  }

  function LoadStep(s: State, plen: nat, got: seq<Byte>): State
    requires Shape(s) && |got| <= B.PKT_MIN_LEN - B.MOLD_OFFSET_LEN
  {
    if plen < B.PKT_MIN_LEN then Pass(s)
    else if |got| == 4 && BigEndian(got) != B.ITCH_PAYLOAD_LEN then Pass(s)
    else if |got| < B.PKT_MIN_LEN - B.MOLD_OFFSET_LEN then
      s.(kernel := Load(plen, got + [s.rx[s.rxHead].buf[B.MOLD_OFFSET_LEN + |got|]]))
    else Deciding(s, B.DecodeFields(got))
  }

  /** The n-th field of the order at the transmit index. */
  function WriteField(o: B.Order, from: B.Order, n: nat): B.Order {
    if n == 0 then o.(id := from.id)
    else if n == 1 then o.(price := from.price)
    else o.(shares := from.shares)
  }

  function KernelStep(s: State): State
    requires Shape(s)
  {
    match s.kernel
    case LoopTop => s.(kernel := Reclaim(s.txHeadReg, |s.sent|, PollLoop))
    case Reclaim(hw, _, caller) =>
      if s.txHead != hw then s.(txHead := Step(s.txHead), reclaimed := s.reclaimed + 1)
      else s.(kernel := if caller.PollLoop? then Poll else Send(caller.order))
    case Poll => s.(kernel := if s.rx[s.rxHead].dd then ReadLength else LoopTop)
    case ReadLength => s.(kernel := ClearDD(s.rx[s.rxHead].length))
    case ClearDD(plen) =>
      var t := s.(rx := s.rx[s.rxHead := s.rx[s.rxHead].(dd := false)]);
      if 0 < plen <= B.PKT_BUF_SIZE then t.(kernel := Load(plen, [])) else Pass(t)
    case Load(plen, got) => LoadStep(s, plen, got)
    case Send(order) => s.(kernel := if Step(s.txIdx) == s.txHead then SpinRead(order) else Fill(order, 0))
    case SpinRead(order) => s.(kernel := Reclaim(s.txHeadReg, |s.sent|, SendSpin(order)))
    case Fill(order, n) =>
      s.(tx := s.tx[s.txIdx := WriteField(s.tx[s.txIdx], order, n)],
         kernel := if n < 2 then Fill(order, n + 1) else Bell(order))
    case Bell(order) => s.(txTailReg := s.txIdx, posted := s.posted + [order], kernel := NextTx)
    case NextTx => s.(txIdx := Step(s.txIdx), kernel := Advance)
    case Advance => s.(rxHead := Step(s.rxHead), released := s.released + 1, kernel := LoopTop)
  }

  // ----- the NIC -----

  /** handle_packet has decided on the packet, and the slot is not given back. */
  predicate Decided(k: Kernel) {
    k.Send? || k.SpinRead? || k.Fill? || k.Bell? || k.NextTx? || k.Advance? || (k.Reclaim? && k.caller.SendSpin?)
  }

  /** Packets that the kernel has decided on. */
  function Handled(s: State): nat {
    s.released + (if Decided(s.kernel) then 1 else 0)
  }

  /** Packets received and not decided on. */
  function Backlog(s: State): int {
    |s.injected| - Handled(s)
  }

  function RxStep(s: State): State
    requires Shape(s) && !s.rxNic.RxIdle?
    requires s.rxNic.RxWrite? ==> |s.rxNic.packet| <= B.PKT_BUF_SIZE
  {
    var j := s.rxTail;
    match s.rxNic
    case RxLength(p) => s.(rx := s.rx[j := s.rx[j].(length := |p|)], rxNic := RxWrite(p, 0))
    case RxWrite(p, n) =>
      if n < |p| then s.(rx := s.rx[j := s.rx[j].(buf := s.rx[j].buf[n := p[n]])], rxNic := RxWrite(p, n + 1))
      else s.(rx := s.rx[j := s.rx[j].(dd := true)], injected := s.injected + [p], rxNic := RxTailReg)
    case RxTailReg => s.(rxTailReg := j, rxNic := RxAdvance)
    case RxAdvance => s.(rxTail := Step(j), rxNic := RxIdle)
  }

  function TxStep(s: State): State
    requires Shape(s)
  {
    match s.txNic
    case TxIdle => s.(txNic := TxRead(0, NO_ORDER))
    case TxRead(n, o) =>
      if n < 3 then s.(txNic := TxRead(n + 1, WriteField(o, s.tx[s.txHeadReg], n)))
      else s.(sent := s.sent + [o], txHeadReg := Step(s.txHeadReg), txNic := TxIdle)
  }

  // ----- runs -----

  datatype Event = KernelEvent | Arrival(packet: Datagram) | RxEvent | TxEvent

  /** The NIC never looks at DD, so that it can receive whenever it is idle. */
  predicate Enabled(s: State, e: Event) {
    && Shape(s)
    && match e
       case KernelEvent => true
       case Arrival(p) => s.rxNic.RxIdle? && 0 < |p| <= B.PKT_BUF_SIZE
       case RxEvent => !s.rxNic.RxIdle? && (s.rxNic.RxWrite? ==> |s.rxNic.packet| <= B.PKT_BUF_SIZE)
       case TxEvent => s.txNic.TxIdle? ==> |s.sent| < |s.posted|
  }

  function Apply(s: State, e: Event): State
    requires Enabled(s, e)
  {
    match e
    case KernelEvent => KernelStep(s)
    case Arrival(p) => s.(rxNic := RxLength(p))
    case RxEvent => RxStep(s)
    case TxEvent => TxStep(s)
  }

  /** The sender's part: it sends only while fewer than bound packets wait for a decision. */
  predicate Paced(s: State, e: Event, bound: nat) {
    e.Arrival? ==> Backlog(s) < bound
  }

  /** A run under such a sender: each event can happen when it does. */
  predicate Possible(s: State, events: seq<Event>, bound: nat)
    decreases |events|
  {
    events == []
    || (Enabled(s, events[0]) && Paced(s, events[0], bound) && Possible(Apply(s, events[0]), events[1..], bound))
  }

  /** The state behind the events, as far as they can happen. */
  function Run(s: State, events: seq<Event>): State
    decreases |events|
  {
    if events == [] || !Enabled(s, events[0]) then s else Run(Apply(s, events[0]), events[1..])
  }
}
