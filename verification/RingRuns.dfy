/**
 Runs of the ring machine put together from undisturbed passes: what the NIC does with
 packets that come while the kernel stands still, what the kernel does in one pass while
 the NIC stands still, and with both the exact bound on the sender.
 */
module RingRuns {
  import opened Bytes
  import opened MoldFormat
  import opened Rings
  import opened RingsProof
  import B = Book
  import G = Generator

  lemma {:induction false} RunConcat(s: State, a: seq<Event>, b: seq<Event>, bound: nat)
    requires Possible(s, a, bound) && Possible(Run(s, a), b, bound)
    ensures Possible(s, a + b, bound) && Run(s, a + b) == Run(Run(s, a), b)
    decreases |a|
  {
    hide Enabled, Paced, Apply;
    if a == [] {
      assert a + b == b;
    } else {
      assert (a + b)[1..] == a[1..] + b;
      RunConcat(Apply(s, a[0]), a[1..], b, bound);
    }
  }

  /** A sender that is stricter takes part in fewer runs. */
  lemma {:induction false} StricterSender(s: State, events: seq<Event>, bound: nat, looser: nat)
    requires Possible(s, events, bound) && bound <= looser
    ensures Possible(s, events, looser)
    decreases |events|
  {
    hide Enabled, Apply;
    if events != [] { StricterSender(Apply(s, events[0]), events[1..], bound, looser); }
  }

  // ----- the NIC receives -----

  /** A packet in a slot, in front of what the buffer held, with DD set. */
  function Delivered(slot: RxSlot, p: Datagram): RxSlot
    requires |p| <= |slot.buf|
  {
    RxSlot(true, |p|, p + slot.buf[|p|..])
  }

  /** The machine behind the reception of a packet. */
  function Received(s: State, p: Datagram): State
    requires Shape(s) && |p| <= B.PKT_BUF_SIZE
  {
    var j := s.rxTail;
    s.(rx := s.rx[j := Delivered(s.rx[j], p)], rxTailReg := j, rxTail := Step(j), rxNic := RxIdle,
       injected := s.injected + [p])
  }

  function Repeat(e: Event, n: nat): (es: seq<Event>)
    ensures |es| == n
  {
    seq(n, _ => e)
  }

  lemma RepeatFirst(e: Event, n: nat)
    requires n > 0
    ensures Repeat(e, n)[0] == e && Repeat(e, n)[1..] == Repeat(e, n - 1)
  {}

  function ReceiveEvents(p: Datagram): seq<Event> {
    [Arrival(p)] + Repeat(RxEvent, |p| + 4)
  }

  /** The buffer when n bytes of p are written in front of buf. */
  function Written(buf: seq<Byte>, p: Datagram, n: nat): seq<Byte>
    requires n <= |p| <= |buf|
  {
    p[..n] + buf[n..]
  }

  /** Behind the length, with n bytes written. */
  function Writing(s: State, p: Datagram, n: nat): State
    requires Shape(s) && n <= |p| <= B.PKT_BUF_SIZE
  {
    var j := s.rxTail;
    s.(rx := s.rx[j := s.rx[j].(length := |p|, buf := Written(s.rx[j].buf, p, n))], rxNic := RxWrite(p, n))
  }

  lemma WriteByte(s: State, p: Datagram, n: nat)
    requires Shape(s) && n < |p| <= B.PKT_BUF_SIZE
    ensures Enabled(Writing(s, p, n), RxEvent) && RxStep(Writing(s, p, n)) == Writing(s, p, n + 1)
  {
    hide KernelStep;
    var buf := s.rx[s.rxTail].buf;
    assert Written(buf, p, n)[n := p[n]] == Written(buf, p, n + 1);
    assert RxStep(Writing(s, p, n)).rx == Writing(s, p, n + 1).rx;
  }

  /** The three steps behind the last byte. */
  lemma FinishWrite(s: State, p: Datagram, bound: nat)
    requires Shape(s) && |p| <= B.PKT_BUF_SIZE
    ensures var es := Repeat(RxEvent, 3);
            Possible(Writing(s, p, |p|), es, bound) && Run(Writing(s, p, |p|), es) == Received(s, p)
  {
    var t := Writing(s, p, |p|);
    assert Written(s.rx[s.rxTail].buf, p, |p|) == p + s.rx[s.rxTail].buf[|p|..];
    RepeatFirst(RxEvent, 3);
    RepeatFirst(RxEvent, 2);
    RepeatFirst(RxEvent, 1);
    var t1 := RxStep(t);
    var t2 := RxStep(t1);
    assert t1.rx == Received(s, p).rx;
    assert Run(t2, Repeat(RxEvent, 1)) == RxStep(t2);
    assert Possible(t2, Repeat(RxEvent, 1), bound);
    assert Run(t1, Repeat(RxEvent, 2)) == RxStep(t2);
  }

  lemma {:induction false} WriteAll(s: State, p: Datagram, n: nat, bound: nat)
    requires Shape(s) && n <= |p| <= B.PKT_BUF_SIZE
    ensures var es := Repeat(RxEvent, |p| - n + 3);
            Possible(Writing(s, p, n), es, bound) && Run(Writing(s, p, n), es) == Received(s, p)
    decreases |p| - n
  {
    hide RxStep, Writing, Received, KernelStep;
    if n == |p| {
      FinishWrite(s, p, bound);
    } else {
      WriteByte(s, p, n);
      WriteAll(s, p, n + 1, bound);
      RepeatFirst(RxEvent, |p| - n + 3);
    }
  }

  /** From arrival to idle again, with the kernel standing still. */
  lemma ReceivesPacket(s: State, p: Datagram, bound: nat)
    requires Enabled(s, Arrival(p)) && Paced(s, Arrival(p), bound)
    ensures Possible(s, ReceiveEvents(p), bound) && Run(s, ReceiveEvents(p)) == Received(s, p)
  {
    hide KernelStep, Received;
    var s1 := Apply(s, Arrival(p));
    var j := s.rxTail;
    assert Written(s.rx[j].buf, p, 0) == s.rx[j].buf;
    assert RxStep(s1).rx == Writing(s1, p, 0).rx;
    assert RxStep(s1) == Writing(s1, p, 0);
    RepeatFirst(RxEvent, |p| + 4);
    WriteAll(s1, p, 0, bound);
    ReceivedHere(s, p);
    assert ReceiveEvents(p)[1..] == Repeat(RxEvent, |p| + 4);
  }

  lemma ReceivedHere(s: State, p: Datagram)
    requires Shape(s) && |p| <= B.PKT_BUF_SIZE && s.rxNic.RxIdle?
    ensures Received(s.(rxNic := RxLength(p)), p) == Received(s, p)
  {}

  function ReceiveAllEvents(ps: seq<Datagram>): seq<Event> {
    if ps == [] then [] else ReceiveEvents(ps[0]) + ReceiveAllEvents(ps[1..])
  }

  predicate FullSize(rx: seq<RxSlot>) {
    |rx| == RING && forall j | 0 <= j < RING :: |rx[j].buf| == B.PKT_BUF_SIZE
  }

  predicate Receivable(ps: seq<Datagram>) {
    forall k | 0 <= k < |ps| :: 0 < |ps[k]| <= B.PKT_BUF_SIZE
  }

  /** Packets into consecutive slots from the tail on. */
  function DeliveredAll(rx: seq<RxSlot>, tail: nat, ps: seq<Datagram>): (r: seq<RxSlot>)
    requires FullSize(rx) && tail < RING && Receivable(ps)
    ensures FullSize(r)
    decreases |ps|
  {
    if ps == [] then rx
    else DeliveredAll(rx[tail := Delivered(rx[tail], ps[0])], Step(tail), ps[1..])
  }

  /** The machine behind the reception of several packets. */
  function ReceivedAll(s: State, ps: seq<Datagram>): (t: State)
    requires Shape(s) && Receivable(ps)
    ensures Shape(t)
    decreases |ps|
  {
    if ps == [] then s
    else
      ReceivedShape(s, ps[0]);
      ReceivedAll(Received(s, ps[0]), ps[1..])
  }

  /** Packets received one behind the other, with the kernel standing still. */
  lemma {:induction false} ReceivesAll(s: State, ps: seq<Datagram>, bound: nat)
    requires Shape(s) && s.rxNic.RxIdle? && Receivable(ps) && Backlog(s) + |ps| <= bound
    ensures Possible(s, ReceiveAllEvents(ps), bound) && Run(s, ReceiveAllEvents(ps)) == ReceivedAll(s, ps)
    decreases |ps|
  {
    hide Received, Enabled, Paced, ReceiveEvents;
    if ps != [] {
      MayArrive(s, ps[0], bound);
      ReceivesPacket(s, ps[0], bound);
      ReceivedShape(s, ps[0]);
      ReceivesAll(Received(s, ps[0]), ps[1..], bound);
      RunConcat(s, ReceiveEvents(ps[0]), ReceiveAllEvents(ps[1..]), bound);
    }
  }

  /** They lie in consecutive slots, and nothing else has changed. */
  lemma {:induction false} ReceivedAllRx(s: State, ps: seq<Datagram>)
    requires Shape(s) && s.rxNic.RxIdle? && Receivable(ps)
    ensures var t := ReceivedAll(s, ps);
            && t.rx == DeliveredAll(s.rx, s.rxTail, ps) && t.rxTail == (s.rxTail + |ps|) % 16
            && t.rxTailReg == (if ps == [] then s.rxTailReg else (s.rxTail + |ps| - 1) % 16)
            && t.injected == s.injected + ps
            && t == s.(rx := t.rx, rxTailReg := t.rxTailReg, rxTail := t.rxTail, injected := t.injected)
    decreases |ps|
  {
    hide Delivered, Received;
    if ps == [] {
      assert s.injected + [] == s.injected;
    } else {
      ReceivedShape(s, ps[0]);
      ReceivedAllRx(Received(s, ps[0]), ps[1..]);
      assert s.injected + [ps[0]] + ps[1..] == s.injected + ps;
      TailOnward(s.rxTail, |ps|);
    }
  }

  lemma ReceivedShape(s: State, p: Datagram)
    requires Shape(s) && |p| <= B.PKT_BUF_SIZE
    ensures var t := Received(s, p);
            && Shape(t) && Handled(t) == Handled(s) && t.injected == s.injected + [p]
            && t.rx == s.rx[s.rxTail := Delivered(s.rx[s.rxTail], p)]
            && t.rxTail == Step(s.rxTail) && t.rxTailReg == s.rxTail && t.rxNic.RxIdle?
            && t == s.(rx := t.rx, rxTailReg := t.rxTailReg, rxTail := t.rxTail, rxNic := RxIdle,
                       injected := t.injected)
  {}

  lemma MayArrive(s: State, p: Datagram, bound: nat)
    requires Shape(s) && s.rxNic.RxIdle? && 0 < |p| <= B.PKT_BUF_SIZE && Backlog(s) < bound
    ensures Enabled(s, Arrival(p)) && Paced(s, Arrival(p), bound)
  {}

  lemma TailOnward(tail: nat, n: nat)
    requires n > 0 && tail < 16
    ensures (Step(tail) + (n - 1)) % 16 == (tail + n) % 16
    ensures n == 1 ==> tail == (tail + n - 1) % 16
    ensures n > 1 ==> (Step(tail) + (n - 1) - 1) % 16 == (tail + n - 1) % 16
  {}

  // ----- the kernel passes -----

  function KernelRun(s: State, n: nat): (t: State)
    requires Shape(s)
    ensures Shape(t)
    decreases n
  {
    if n == 0 then s
    else
      KernelShape(s);
      KernelRun(KernelStep(s), n - 1)
  }

  lemma {:induction false} KernelRunIsRun(s: State, n: nat, bound: nat)
    requires Shape(s)
    ensures Possible(s, Repeat(KernelEvent, n), bound)
    ensures Run(s, Repeat(KernelEvent, n)) == KernelRun(s, n)
    decreases n
  {
    hide KernelStep;
    if n > 0 {
      KernelShape(s);
      RepeatFirst(KernelEvent, n);
      KernelRunIsRun(KernelStep(s), n - 1, bound);
    }
  }

  /** The kernel alone gets from s to t. */
  ghost predicate Reaches(s: State, t: State)
    requires Shape(s)
  {
    exists n: nat :: KernelRun(s, n) == t
  }

  lemma {:induction false} KernelRunAdd(s: State, a: nat, b: nat)
    requires Shape(s)
    ensures KernelRun(s, a + b) == KernelRun(KernelRun(s, a), b)
    decreases a
  {
    hide KernelStep;
    if a > 0 {
      KernelShape(s);
      KernelRunAdd(KernelStep(s), a - 1, b);
    }
  }

  lemma ReachesThrough(s: State, t: State, u: State)
    requires Shape(s) && Reaches(s, t) && Shape(t) && Reaches(t, u)
    ensures Reaches(s, u)
  {
    var a: nat :| KernelRun(s, a) == t;
    var b: nat :| KernelRun(t, b) == u;
    KernelRunAdd(s, a, b);
  }

  /** One step, then on. */
  lemma ReachesStep(s: State, u: State)
    requires Shape(s) && Shape(KernelStep(s)) && Reaches(KernelStep(s), u)
    ensures Reaches(s, u)
  {
    hide KernelStep;
    var n: nat :| KernelRun(KernelStep(s), n) == u;
    assert KernelRun(s, n + 1) == u;
  }

  lemma ReachesSelf(s: State)
    requires Shape(s)
    ensures Reaches(s, s)
  {
    assert KernelRun(s, 0) == s;
  }

  /** The passes that reclaim_tx makes. */
  function Passes(head: nat, hw: nat): nat {
    (hw - head) % RING
  }

  lemma PassLess(a: nat, b: nat)
    requires a < RING && b < RING && a != b
    ensures Passes(a, b) == Passes(Step(a), b) + 1
  {
    if a + 1 == RING {
      assert (b - a) % RING == b - a + RING;
    } else if a < b {
      assert (b - a) % RING == b - a && (b - (a + 1)) % RING == b - (a + 1);
    } else {
      assert (b - a) % RING == b - a + RING && (b - (a + 1)) % RING == b - (a + 1) + RING;
    }
  }

  /** Where reclaim_tx returns to. */
  function Return(caller: Caller): Kernel {
    if caller.PollLoop? then Poll else Send(caller.order)
  }

  /** reclaim_tx from the value read to the return. */
  lemma {:induction false} ReclaimPass(s: State)
    requires Shape(s) && s.kernel.Reclaim? && s.kernel.hw < RING
    ensures var hw := s.kernel.hw;
            Reaches(s, s.(kernel := Return(s.kernel.caller), txHead := hw,
                          reclaimed := s.reclaimed + Passes(s.txHead, hw)))
    decreases Passes(s.txHead, s.kernel.hw)
  {
    hide LoadStep, Passes;
    var hw, back := s.kernel.hw, Return(s.kernel.caller);
    KernelShape(s);
    var t := KernelStep(s);
    if s.txHead == hw {
      assert Passes(hw, hw) == 0 by { NoPasses(hw); }
      assert t == s.(kernel := back, txHead := hw, reclaimed := s.reclaimed + 0);
      ReachesSelf(t);
      ReachesStep(s, t);
    } else {
      PassLess(s.txHead, hw);
      ReclaimPass(t);
      ReachesStep(s, s.(kernel := back, txHead := hw, reclaimed := s.reclaimed + Passes(s.txHead, hw)));
    }
  }

  lemma NoPasses(a: nat)
    ensures Passes(a, a) == 0
  {}

  /** handle_packet reads the packet byte by byte and decides. */
  lemma {:induction false} LoadPass(s: State, p: seq<Byte>)
    requires Shape(s) && s.kernel.Load? && s.kernel.plen == |p| <= B.PKT_BUF_SIZE && s.rx[s.rxHead].buf[..|p|] == p
    requires ReadSoFar(s.kernel.got, p)
    ensures Reaches(s, Deciding(s, B.Decode(p)))
    decreases B.PKT_MIN_LEN - |s.kernel.got|
  {
    KernelShape(s);
    var got, t := s.kernel.got, KernelStep(s);
    if t.kernel.Load? {
      LoadByte(s, p);
      LoadPass(t, p);
      assert Deciding(t, B.Decode(p)) == Deciding(s, B.Decode(p));
      ReachesStep(s, Deciding(s, B.Decode(p)));
    } else {
      LoadDecides(s, p);
      ReachesSelf(t);
      ReachesStep(s, t);
    }
  }

  lemma LoadByte(s: State, p: seq<Byte>)
    requires Shape(s) && s.kernel.Load? && s.kernel.plen == |p| <= B.PKT_BUF_SIZE && s.rx[s.rxHead].buf[..|p|] == p
    requires ReadSoFar(s.kernel.got, p)
    requires KernelStep(s).kernel.Load?
    ensures var t, at := KernelStep(s), B.MOLD_OFFSET_LEN + |s.kernel.got|;
            && at < B.PKT_MIN_LEN <= |p| && t == s.(kernel := Load(|p|, p[B.MOLD_OFFSET_LEN..at + 1]))
  {
    var at, buf := B.MOLD_OFFSET_LEN + |s.kernel.got|, s.rx[s.rxHead].buf;
    assert buf[at] == buf[..|p|][at];
    assert p[B.MOLD_OFFSET_LEN..at + 1] == p[B.MOLD_OFFSET_LEN..at] + [p[at]];
  }

  /** send_ouch with a free slot. */
  lemma SendPass(s: State)
    requires Shape(s) && s.kernel.Send? && Step(s.txIdx) != s.txHead
    ensures var o := s.kernel.order;
            Reaches(s, s.(tx := s.tx[s.txIdx := o], txTailReg := s.txIdx, posted := s.posted + [o],
                          txIdx := Step(s.txIdx), kernel := Advance))
  {
    hide LoadStep;
    KernelShape(s);
    var t1 := KernelStep(s);
    var t2 := KernelStep(t1);
    var t3 := KernelStep(t2);
    var t4 := KernelStep(t3);
    assert t4.tx == s.tx[s.txIdx := s.kernel.order];
    var t5 := KernelStep(t4);
    var t6 := KernelStep(t5);
    hide KernelStep;
    ReachesSelf(t6);
    ReachesStep(t5, t6);
    ReachesStep(t4, t6);
    ReachesStep(t3, t6);
    ReachesStep(t2, t6);
    ReachesStep(t1, t6);
    ReachesStep(s, t6);
  }

  /** What the kernel takes from the slot at its head: the packet in it, if its length is in range. */
  function Taken(slot: RxSlot): Option<B.Quote>
    requires |slot.buf| == B.PKT_BUF_SIZE
  {
    if 0 < slot.length <= B.PKT_BUF_SIZE then B.Decode(slot.buf[..slot.length]) else None
  }

  /** The order that goes out for a quote. */
  function Ordered(book: B.State, q: Option<B.Quote>): Option<B.Order> {
    if q.None? then None else B.Offer(book, q.value).1
  }

  function Booked(book: B.State, q: Option<B.Quote>): B.State {
    if q.None? then book else B.Offer(book, q.value).0
  }

  /** The machine behind one pass of poll_rx_loop in which the kernel does not have to wait. */
  function Polled(s: State): State
    requires Shape(s)
  {
    var j, slot := s.rxHead, s.rx[s.rxHead];
    var t := s.(txHead := s.txHeadReg, reclaimed := s.reclaimed + Passes(s.txHead, s.txHeadReg));
    if !slot.dd then t
    else
      var q := Taken(slot);
      var order := Ordered(s.book, q);
      var u := t.(rx := s.rx[j := slot.(dd := false)], rxHead := Step(j), released := s.released + 1,
                  book := Booked(s.book, q), seen := s.seen + [q]);
      if order.None? then u
      else u.(tx := s.tx[s.txIdx := order.value], txTailReg := s.txIdx, txIdx := Step(s.txIdx),
              posted := s.posted + [order.value])
  }

  /** From the decision to the top of the loop. */
  lemma DecisionPass(s: State, q: Option<B.Quote>)
    requires Shape(s) && !s.kernel.Load? && (Ordered(s.book, q).None? || Step(s.txIdx) != s.txHead)
    ensures var order := Ordered(s.book, q);
            var u := s.(rxHead := Step(s.rxHead), released := s.released + 1, kernel := LoopTop,
                        book := Booked(s.book, q), seen := s.seen + [q]);
            var v := if order.None? then u
                     else u.(tx := s.tx[s.txIdx := order.value], txTailReg := s.txIdx, txIdx := Step(s.txIdx),
                             posted := s.posted + [order.value]);
            Shape(Deciding(s, q)) && Reaches(Deciding(s, q), v)
  {
    hide LoadStep;
    var d := Deciding(s, q);
    if Ordered(s.book, q).None? {
      AdvancePass(d);
    } else {
      SendPass(d);
      var o := d.kernel.order;
      var a := d.(tx := d.tx[d.txIdx := o], txTailReg := d.txIdx, posted := d.posted + [o],
                  txIdx := Step(d.txIdx), kernel := Advance);
      AdvancePass(a);
      var v := KernelStep(a);
      ReachesThrough(d, a, v);
    }
  }

  lemma AdvancePass(s: State)
    requires Shape(s) && s.kernel.Advance?
    ensures Shape(KernelStep(s)) && Reaches(s, KernelStep(s))
    ensures KernelStep(s) == s.(rxHead := Step(s.rxHead), released := s.released + 1, kernel := LoopTop)
  {
    KernelShape(s);
    hide LoadStep;
    ReachesSelf(KernelStep(s));
    ReachesStep(s, KernelStep(s));
  }

  /** The packet is taken from its slot. */
  function Cleared(s: State): State
    requires Shape(s)
  {
    s.(rx := s.rx[s.rxHead := s.rx[s.rxHead].(dd := false)])
  }

  /** From the test of DD on a packet to the decision. */
  lemma TakeDecides(s: State)
    requires Shape(s) && s.kernel.Poll? && s.rx[s.rxHead].dd
    ensures Reaches(s, Deciding(Cleared(s), Taken(s.rx[s.rxHead])))
  {
    hide LoadStep, Reaches, Deciding;
    KernelShape(s);
    var s1 := KernelStep(s);
    KernelShape(s1);
    var s2 := KernelStep(s1);
    KernelShape(s2);
    var s3 := KernelStep(s2);
    var slot := s.rx[s.rxHead];
    var u := Deciding(Cleared(s), Taken(slot));
    if 0 < slot.length <= B.PKT_BUF_SIZE {
      LoadPass(s3, slot.buf[..slot.length]);
      DecidingAlike(s3, Cleared(s), Taken(slot));
    } else {
      PassDecides(Cleared(s));
      ReachesSelf(s3);
    }
    ReachesStep(s2, u);
    ReachesStep(s1, u);
    ReachesStep(s, u);
  }

  lemma DecidingAlike(s: State, t: State, q: Option<B.Quote>)
    requires s.(kernel := t.kernel) == t
    ensures Deciding(s, q) == Deciding(t, q)
  {}

  lemma PassDecides(s: State)
    ensures Deciding(s, None) == Pass(s)
  {}

  /** From the test of DD on a packet to the top of the loop. */
  lemma TakePass(s: State)
    requires Shape(s) && s.kernel.Poll? && s.rx[s.rxHead].dd && s.txHead == s.txHeadReg
    requires Ordered(s.book, Taken(s.rx[s.rxHead])).None? || Step(s.txIdx) != s.txHead
    ensures Reaches(s, Polled(s).(kernel := LoopTop))
  {
    hide LoadStep, KernelStep, Reaches, Ordered, Booked, Deciding;
    NoPasses(s.txHead);
    var q := Taken(s.rx[s.rxHead]);
    TakeDecides(s);
    DecisionPass(Cleared(s), q);
    ReachesThrough(s, Deciding(Cleared(s), q), Polled(s).(kernel := LoopTop));
  }

  /** The pass posts an order and finds the ring full. */
  predicate HasToWait(s: State)
    requires Shape(s)
  {
    && s.rx[s.rxHead].dd && Ordered(s.book, Taken(s.rx[s.rxHead])).Some?
    && Step(s.txIdx) == s.txHeadReg
  }

  /** One pass of the polling loop that does not have to wait. */
  lemma PollPass(s: State)
    requires Shape(s) && s.kernel.LoopTop? && !HasToWait(s)
    ensures Reaches(s, Polled(s))
  {
    hide LoadStep, Reaches, Ordered, Booked, Taken, Passes;
    KernelShape(s);
    var s1 := KernelStep(s);
    ReclaimPass(s1);
    var s2 := s.(kernel := Poll, txHead := s.txHeadReg, reclaimed := s.reclaimed + Passes(s.txHead, s.txHeadReg));
    NoPasses(s.txHeadReg);
    if s.rx[s.rxHead].dd {
      TakePass(s2);
      assert Polled(s2).(kernel := LoopTop) == Polled(s);
    } else {
      KernelShape(s2);
      ReachesSelf(KernelStep(s2));
      ReachesStep(s2, KernelStep(s2));
    }
    ReachesThrough(s1, s2, Polled(s));
    ReachesStep(s, Polled(s));
  }

  // ----- the transmitting NIC sends, and a pass that waits for it -----

  /** The machine when the NIC has sent the first c orders. */
  function SentUpTo(s: State, c: nat): State
    requires c <= |s.posted|
  {
    s.(sent := s.posted[..c], txHeadReg := Slot(c))
  }

  predicate CanSend(s: State, c: nat) {
    && Shape(s) && s.txNic.TxIdle?
    && |s.sent| <= c <= |s.posted| && s.sent == s.posted[..|s.sent|] && s.txHeadReg == Slot(|s.sent|)
    && forall j | |s.sent| <= j < |s.posted| :: s.tx[Slot(j)] == s.posted[j]
  }

  /** One order: its three fields are read, and then it is sent. */
  lemma SendsOne(s: State, bound: nat)
    requires CanSend(s, |s.sent| + 1)
    ensures Possible(s, Repeat(TxEvent, 5), bound)
    ensures Run(s, Repeat(TxEvent, 5)) == SentUpTo(s, |s.sent| + 1)
  {
    hide KernelStep;
    var k := |s.sent|;
    var o := s.tx[Slot(k)];
    assert o == s.posted[k];
    var t1 := TxStep(s);
    var t2 := TxStep(t1);
    var t3 := TxStep(t2);
    var t4 := TxStep(t3);
    assert t4 == s.(txNic := TxRead(3, o));
    var t5 := TxStep(t4);
    SlotStep(k);
    assert s.posted[..k + 1] == s.posted[..k] + [s.posted[k]];
    hide TxStep;
    RepeatFirst(TxEvent, 5);
    RepeatFirst(TxEvent, 4);
    RepeatFirst(TxEvent, 3);
    RepeatFirst(TxEvent, 2);
    RepeatFirst(TxEvent, 1);
    assert Possible(t4, Repeat(TxEvent, 1), bound) && Run(t4, Repeat(TxEvent, 1)) == t5;
    assert Possible(t3, Repeat(TxEvent, 2), bound) && Run(t3, Repeat(TxEvent, 2)) == t5;
    assert Possible(t2, Repeat(TxEvent, 3), bound) && Run(t2, Repeat(TxEvent, 3)) == t5;
    assert Possible(t1, Repeat(TxEvent, 4), bound) && Run(t1, Repeat(TxEvent, 4)) == t5;
  }

  lemma {:induction false} SendsUpTo(s: State, c: nat, bound: nat) returns (events: seq<Event>)
    requires CanSend(s, c)
    ensures Possible(s, events, bound) && Run(s, events) == SentUpTo(s, c)
    decreases c - |s.sent|
  {
    hide Enabled;
    if |s.sent| == c {
      events := [];
    } else {
      SendsOne(s, bound);
      var first, t := Repeat(TxEvent, 5), SentUpTo(s, |s.sent| + 1);
      var rest := SendsUpTo(t, c, bound);
      RunConcat(s, first, rest, bound);
      events := first + rest;
    }
  }

  /** Some run of kernel and transmitting NIC gets from s to t. */
  ghost predicate Gets(s: State, t: State, bound: nat) {
    exists events :: Possible(s, events, bound) && Run(s, events) == t
  }

  lemma GetsThrough(s: State, t: State, u: State, bound: nat)
    requires Gets(s, t, bound) && Gets(t, u, bound)
    ensures Gets(s, u, bound)
  {
    var a :| Possible(s, a, bound) && Run(s, a) == t;
    var b :| Possible(t, b, bound) && Run(t, b) == u;
    RunConcat(s, a, b, bound);
  }

  lemma ReachesGets(s: State, t: State, bound: nat)
    requires Shape(s) && Reaches(s, t)
    ensures Gets(s, t, bound)
  {
    var n: nat :| KernelRun(s, n) == t;
    KernelRunIsRun(s, n, bound);
  }

  /**
   send_ouch with a full ring: the NIC sends up to the c-th order, the spin reads the
   register, reclaims, and goes on.
   */
  lemma SpinPass(s: State, c: nat, bound: nat)
    requires TxInv(s) && s.kernel.Send? && s.txNic.TxIdle? && Step(s.txIdx) == s.txHead
    requires |s.sent| <= c <= |s.posted| && s.reclaimed < c
    ensures var o := s.kernel.order;
            Gets(s, SentUpTo(s, c).(txHead := Slot(c), reclaimed := c, tx := s.tx[s.txIdx := o], txTailReg := s.txIdx,
                                    posted := s.posted + [o], txIdx := Step(s.txIdx), kernel := Advance), bound)
  {
    hide LoadStep, KernelStep, Reaches, Gets, Passes, RxInv;
    var o := s.kernel.order;
    var events := SendsUpTo(s, c, bound);
    var s1 := SentUpTo(s, c);
    assert Gets(s, s1, bound) by { GetsBy(s, s1, events, bound); }
    SpinReads(s1);
    var s3 := s1.(kernel := Reclaim(Slot(c), c, SendSpin(o)));
    ReclaimPass(s3);
    SlotDistance(s.reclaimed, c);
    assert Passes(s.txHead, Slot(c)) == c - s.reclaimed by { PassesAre(s.txHead, Slot(c)); }
    var s4 := s1.(kernel := Send(o), txHead := Slot(c), reclaimed := c);
    ReachesThrough(s1, s3, s4);
    SlotStep(|s.posted|);
    StillFull(s);
    SlotsDiffer(c, |s.posted| + 1);
    SendPass(s4);
    var u := s4.(tx := s4.tx[s4.txIdx := o], txTailReg := s4.txIdx, posted := s4.posted + [o],
                 txIdx := Step(s4.txIdx), kernel := Advance);
    ReachesThrough(s1, s4, u);
    ReachesGets(s1, u, bound);
    GetsThrough(s, s1, u, bound);
  }

  lemma GetsBy(s: State, t: State, events: seq<Event>, bound: nat)
    requires Possible(s, events, bound) && Run(s, events) == t
    ensures Gets(s, t, bound)
  {}

  lemma PassesAre(a: nat, b: nat)
    ensures Passes(a, b) == (b - a) % RING
  {}

  /** The ring is full when fifteen orders are not reclaimed. */
  lemma StillFull(s: State)
    requires TxInv(s) && s.kernel.Send? && Step(s.txIdx) == s.txHead
    ensures |s.posted| + 1 == s.reclaimed + RING
  {
    if |s.posted| + 1 < s.reclaimed + RING {
      SlotStep(|s.posted|);
      SlotsDiffer(|s.posted| + 1, s.reclaimed);
    }
  }

  lemma SpinReads(s: State)
    requires Shape(s) && s.kernel.Send? && Step(s.txIdx) == s.txHead
    ensures var t := s.(kernel := Reclaim(s.txHeadReg, |s.sent|, SendSpin(s.kernel.order)));
            Shape(t) && Reaches(s, t)
  {
    hide LoadStep;
    KernelShape(s);
    var s1 := KernelStep(s);
    KernelShape(s1);
    var t := KernelStep(s1);
    ReachesSelf(t);
    ReachesStep(s1, t);
    ReachesStep(s, t);
  }

  lemma {:induction false} KernelRunKeepsTx(s: State, n: nat)
    requires TxInv(s)
    ensures TxInv(KernelRun(s, n))
    decreases n
  {
    hide TxInv, KernelStep;
    if n > 0 {
      TxShape(s);
      KernelShape(s);
      KernelKeepsTx(s);
      KernelRunKeepsTx(KernelStep(s), n - 1);
    }
  }

  lemma TxShape(s: State)
    requires TxInv(s)
    ensures Shape(s)
  {}

  lemma ReachesKeepsTx(s: State, t: State)
    requires TxInv(s) && Shape(s) && Reaches(s, t)
    ensures TxInv(t)
  {
    hide TxInv, KernelStep;
    var n: nat :| KernelRun(s, n) == t;
    KernelRunKeepsTx(s, n);
  }

  /** The machine behind a pass that had to wait until the c-th order was sent. */
  function PolledLate(s: State, c: nat): State
    requires Shape(s) && c <= |s.posted|
  {
    Polled(s).(sent := s.posted[..c], txHeadReg := Slot(c), txHead := Slot(c), reclaimed := c)
  }

  /** One pass of the polling loop that posts an order and finds the ring full. */
  lemma PollWaits(s: State, c: nat, bound: nat)
    requires TxInv(s) && s.kernel.LoopTop? && s.txNic.TxIdle? && HasToWait(s)
    requires |s.sent| < c <= |s.posted|
    ensures Gets(s, PolledLate(s, c), bound)
  {
    hide LoadStep, KernelStep, Reaches, Gets, Passes, Taken, TxInv;
    TxShape(s);
    var s2 := ReclaimedAtTop(s);
    var q := Taken(s.rx[s.rxHead]);
    TakeDecides(s2);
    var d := Deciding(Cleared(s2), q);
    ReachesThrough(s, s2, d);
    ReachesKeepsTx(s, d);
    ReachesGets(s, d, bound);
    TxShape(d);
    SpinPass(d, c, bound);
    var o := d.kernel.order;
    var a := SentUpTo(d, c).(txHead := Slot(c), reclaimed := c, tx := d.tx[d.txIdx := o], txTailReg := d.txIdx,
                             posted := d.posted + [o], txIdx := Step(d.txIdx), kernel := Advance);
    GetsThrough(s, d, a, bound);
    AdvancePass(a);
    ReachesGets(a, KernelStep(a), bound);
    GetsThrough(s, a, KernelStep(a), bound);
    assert KernelStep(a) == PolledLate(s, c);
  }

  /** At the top of the loop everything sent is reclaimed. */
  lemma ReclaimedAtTop(s: State) returns (t: State)
    requires TxInv(s) && s.kernel.LoopTop?
    ensures t == s.(kernel := Poll, txHead := s.txHeadReg, reclaimed := |s.sent|)
    ensures Shape(s) && Shape(t) && Reaches(s, t)
  {
    hide LoadStep;
    KernelShape(s);
    var s1 := KernelStep(s);
    ReclaimPass(s1);
    SlotDistance(s.reclaimed, |s.sent|);
    t := s.(kernel := Poll, txHead := s.txHeadReg, reclaimed := |s.sent|);
    ReachesStep(s, t);
  }

  // ----- the bound on the sender -----

  function Foreign(n: nat): seq<Datagram> {
    seq(n, _ => [0])
  }

  /** A packet that quotes. */
  function Quoting(): Datagram {
    G.RawPacket(G.Fields(0, 'A' as int, B.AAPL_LOCATE, 1, 1), false, false)
  }

  /** Sixteen packets wait, the kernel standing at the top of its loop. */
  lemma FullRing() returns (events: seq<Event>, s: State)
    ensures Possible(Init(), events, RING) && s == Run(Init(), events)
    ensures Shape(s) && s.injected == Foreign(RING) && s.rxTail == 0 && s.rxNic.RxIdle?
    ensures s == Init().(rx := s.rx, rxTailReg := s.rxTailReg, rxTail := 0, rxNic := RxIdle, injected := s.injected)
  {
    hide DeliveredAll;
    events := ReceiveAllEvents(Foreign(RING));
    ReceivesAll(Init(), Foreign(RING), RING);
    ReceivedAllRx(Init(), Foreign(RING));
    s := Run(Init(), events);
    assert [] + Foreign(RING) == Foreign(RING);
  }

  /**
   With sixteen packets waiting, one packet more overwrites the oldest, and the kernel's
   first decision is on the wrong packet.
   */
  lemma OneTooMany() returns (events: seq<Event>)
    ensures Possible(Init(), events, RING + 1) && !Right(Run(Init(), events))
  {
    var before, s := FullRing();
    StricterSender(Init(), before, RING, RING + 1);
    G.PacketFields(G.Fields(0, 'A' as int, B.AAPL_LOCATE, 1, 1), false, false);
    var q := Quoting();
    ReceivesPacket(s, q, RING + 1);
    var t := Received(s, q);
    ReceivedShape(s, q);
    RunConcat(Init(), before, ReceiveEvents(q), RING + 1);
    PollPass(t);
    var n: nat :| KernelRun(t, n) == Polled(t);
    KernelRunIsRun(t, n, RING + 1);
    events := before + ReceiveEvents(q) + Repeat(KernelEvent, n);
    RunConcat(Init(), before + ReceiveEvents(q), Repeat(KernelEvent, n), RING + 1);
    WrongDecision(s, t, q);
  }

  lemma WrongDecision(s: State, t: State, q: Datagram)
    requires Shape(s) && s.injected == Foreign(RING) && s.rxTail == 0 && s.rxHead == 0 && s.seen == []
    requires q == Quoting() && |q| == B.PKT_MIN_LEN && t == Received(s, q) && Shape(t)
    ensures !Right(Polled(t))
  {
    hide B.Decode, G.RawPacket, Passes;
    var u := Polled(t);
    assert t.rx[0] == Delivered(s.rx[0], q);
    assert t.rx[0].buf[..|q|] == q;
    assert u.seen == [B.Decode(q)];
    G.KernelDecodesPacket(G.Fields(0, 'A' as int, B.AAPL_LOCATE, 1, 1), false, false);
    assert u.injected[..1] == [[0]];
    ShortQuotesNothing([0]);
    assert Decoded([[0]])[0] == None;
  }

  lemma ShortQuotesNothing(p: Datagram)
    requires |p| < B.PKT_MIN_LEN
    ensures B.Decode(p) == None
  {}

  /**
   The exact bound on the sender.  The kernel decides rightly in every run if and only if
   the sender never sends while sixteen packets wait for a decision.
   */
  lemma PacingIsExact(bound: nat)
    ensures (forall events :: Possible(Init(), events, bound) ==> Right(Run(Init(), events))) <==> bound <= 16
  {
    hide Possible, Right, Run;
    if bound <= RING {
      forall events | Possible(Init(), events, bound) ensures Right(Run(Init(), events)) {
        StricterSender(Init(), events, bound, RING);
        HandlesEachPacketOnce(events);
      }
    } else {
      var events := OneTooMany();
      StricterSender(Init(), events, RING + 1, bound);
    }
  }
}
