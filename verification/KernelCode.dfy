/**
 The kernel's routines as kernel.c writes them: loops and stores on the rings in place,
 with the values read from the NIC's head register as parameters.
 */
module KernelCode {
  import opened Bytes
  import opened MoldFormat
  import opened Rings
  import RingsProof
  import opened RingRuns
  import B = Book

  class Kernel {
    var rxHead: nat
    var txIdx: nat
    var txHead: nat
    var nextOrderId: nat
    var bestBidPrice: nat
    var bestBidShares: nat
    var txTailReg: nat
    const rx: array<RxSlot>
    const tx: array<B.Order>

    ghost predicate Valid()
      reads this, rx, tx
    {
      && rx.Length == RING && tx.Length == RING
      && rxHead < RING && txIdx < RING && txHead < RING
      && (forall j | 0 <= j < RING :: |rx[j].buf| == B.PKT_BUF_SIZE)
      && nextOrderId < B.TWO_32
    }

    ghost function Book(): B.State
      reads this
    {
      B.State(bestBidPrice, bestBidShares, nextOrderId)
    }

    /** init_rx_ring, init_tx_ring and the initial values. */
    constructor ()
      ensures Valid() && Shows(Init()) && fresh(rx) && fresh(tx)
      ensures rx.Length == 16 && tx.Length == 16
      ensures forall j | 0 <= j < 16 :: !rx[j].dd && rx[j].length == |rx[j].buf| == 64
      ensures rxHead == 0 && txIdx == 0 && txHead == 0 && txTailReg == 0
      ensures nextOrderId == 1 && bestBidPrice == 0 && bestBidShares == 0
    {
      rxHead, txIdx, txHead := 0, 0, 0;
      nextOrderId, bestBidPrice, bestBidShares := 1, 0, 0;
      txTailReg := 0;
      rx := new RxSlot[RING](_ => RxSlot(false, B.PKT_BUF_SIZE, EMPTY_BUFFER));
      tx := new B.Order[RING](_ => NO_ORDER);
    }

    /** reclaim_tx: as many passes as the register is ahead, modulo the ring. */
    method ReclaimTx(hw: nat) returns (passes: nat)
      requires Valid() && hw < RING
      modifies this`txHead
      ensures Valid() && txHead == hw && passes == (hw - old(txHead)) % 16
    {
      passes := 0;
      while txHead != hw
        invariant Valid() && passes + Passes(txHead, hw) == Passes(old(txHead), hw)
        decreases Passes(txHead, hw)
      {
        PassLess(txHead, hw);
        txHead := (txHead + 1) % RING;
        passes := passes + 1;
      }
    }

    /** One of the register values shows that the ring is not full. */
    static predicate SomeFree(heads: seq<nat>, full: nat) {
      exists i :: 0 <= i < |heads| && heads[i] != full
    }

    /**
     send_ouch.  heads are the register values that the spin has read so far; when all of
     them show a full ring, the call is still spinning, and nothing is written.
     */
    method SendOuch(orderId: nat, price: nat, shares: nat, heads: seq<nat>) returns (done: bool)
      requires Valid() && InRing(heads)
      modifies this`txHead, this`txIdx, this`txTailReg, tx
      ensures Valid()
      ensures var next := (old(txIdx) + 1) % 16;
              && (done <==> old(txHead) != next || exists i :: 0 <= i < |heads| && heads[i] != next)
              && (done ==> txTailReg == old(txIdx) && txIdx == next && txHead != next)
              && (!done || old(txHead) != next ==> txHead == old(txHead))
              && (done && old(txHead) == next ==> txHead in heads)
      ensures done ==> tx[..] == old(tx[..])[old(txIdx) := B.Order(orderId, price, shares)]
      ensures !done ==> tx[..] == old(tx[..]) && txTailReg == old(txTailReg) && txIdx == old(txIdx)
    {
      var next := (txIdx + 1) % RING;
      var i := 0;
      while next == txHead && i < |heads|
        invariant Valid() && i <= |heads| && txIdx == old(txIdx) && tx[..] == old(tx[..])
        invariant txTailReg == old(txTailReg)
        invariant i == 0 ==> txHead == old(txHead)
        invariant i > 0 ==> txHead == heads[i - 1] && old(txHead) == next
        invariant forall k | 0 <= k < i - 1 :: heads[k] == next
        decreases |heads| - i
      {
        var passes := ReclaimTx(heads[i]);
        i := i + 1;
      }
      if next == txHead {
        return false;
      }
      tx[txIdx] := tx[txIdx].(id := orderId);
      tx[txIdx] := tx[txIdx].(price := price);
      tx[txIdx] := tx[txIdx].(shares := shares);
      txTailReg := txIdx;
      txIdx := (txIdx + 1) % RING;
      return true;
    }

    /**
     handle_packet: the book and the transmit ring change as the packet calls for, the
     packet being the first plen bytes of the slot's buffer; or the book has changed and
     the call is still spinning.
     */
    method HandlePacket(idx: nat, plen: nat, heads: seq<nat>) returns (done: bool)
      requires Valid() && idx < RING && plen <= B.PKT_BUF_SIZE && InRing(heads)
      modifies this`txHead, this`txIdx, this`txTailReg, tx,
               this`nextOrderId, this`bestBidPrice, this`bestBidShares
      ensures Valid()
      ensures var (book, order) := old(B.Handle(Book(), rx[idx].buf[..plen]));
              && Book() == book
              && (done <==> order.None? || old(txHead) != Step(old(txIdx)) || SomeFree(heads, Step(old(txIdx))))
              && Posted(old(tx[..]), old(txIdx), old(txTailReg), if done then order else None)
              && (if order.Some? && done && old(txHead) == Step(old(txIdx)) then txHead in heads
                  else txHead == old(txHead))
    {
      if plen < B.PKT_MIN_LEN {
        return true;
      }
      var pkt := rx[idx].buf;
      B.DecodeIgnoresRest(pkt, plen);
      ghost var f := pkt[B.MOLD_OFFSET_LEN..B.PKT_MIN_LEN];
      B.FieldsWithin(pkt);
      var payloadLen := BigEndian(pkt[8..12]);
      if payloadLen != B.ITCH_PAYLOAD_LEN {
        return true;
      }
      var msgType := pkt[12];
      var stockLocate := LittleEndian(pkt[13..15]);
      var price := LittleEndian(pkt[15..19]);
      var shares := LittleEndian(pkt[19..23]);
      if msgType != 'A' as int || stockLocate != B.AAPL_LOCATE {
        return true;
      }
      assert B.Decode(rx[idx].buf[..plen]) == Some(B.Quote(price, shares));
      if price <= bestBidPrice {
        return true;
      }
      hide B.Decode;
      bestBidPrice := price;
      bestBidShares := shares;
      var orderId := nextOrderId;
      nextOrderId := (nextOrderId + 1) % B.TWO_32;
      done := SendOuch(orderId, bestBidPrice, bestBidShares, heads);
    }

    /** The transmit ring behind a posted order, or as it was. */
    ghost predicate Posted(tx0: seq<B.Order>, idx0: nat, tail0: nat, order: Option<B.Order>)
      requires idx0 < |tx0|
      reads this, tx
    {
      if order.None? then tx[..] == tx0 && txIdx == idx0 && txTailReg == tail0
      else tx[..] == tx0[idx0 := order.value] && txIdx == Step(idx0) && txTailReg == idx0
    }

    static predicate InRing(heads: seq<nat>) {
      forall i | 0 <= i < |heads| :: heads[i] < RING
    }

    /**
     One pass of poll_rx_loop: taken when there was a packet, done when the pass is over and
     not spinning for a free slot.
     */
    method PollOnce(hw: nat, heads: seq<nat>) returns (taken: bool, done: bool)
      requires Valid() && hw < RING && InRing(heads)
      modifies this, rx, tx
      ensures Valid()
      ensures taken == old(rx[rxHead].dd)
      ensures rx[..] == (if taken then old(rx[..])[old(rxHead) := old(rx[rxHead]).(dd := false)] else old(rx[..]))
      ensures rxHead == (if taken && done then Step(old(rxHead)) else old(rxHead))
      ensures var slot := old(rx[rxHead]);
              var (book, order) :=
                if taken && 0 < slot.length <= 64 then B.Handle(old(Book()), slot.buf[..slot.length])
                else (old(Book()), None);
              && Book() == book
              && (done <==> order.None? || hw != Step(old(txIdx)) || SomeFree(heads, Step(old(txIdx))))
              && Posted(old(tx[..]), old(txIdx), old(txTailReg), if done then order else None)
              && (if order.Some? && done && hw == Step(old(txIdx)) then txHead in heads else txHead == hw)
    {
      var passes := ReclaimTx(hw);
      taken, done := rx[rxHead].dd, true;
      if taken {
        var plen := rx[rxHead].length;
        rx[rxHead] := rx[rxHead].(dd := false);
        if 0 < plen && plen <= B.PKT_BUF_SIZE {
          done := HandlePacket(rxHead, plen, heads);
        }
        if done {
          rxHead := (rxHead + 1) % RING;
        }
      }
    }

    /** The kernel's memory and globals are those of the ring machine. */
    ghost predicate Shows(s: State)
      reads this, rx, tx
    {
      && rx[..] == s.rx && tx[..] == s.tx
      && rxHead == s.rxHead && txIdx == s.txIdx && txHead == s.txHead && txTailReg == s.txTailReg
      && Book() == s.book
    }

    /**
     A pass in which the kernel does not have to wait is a run of the ring machine's kernel
     steps: the routines written out here and the machine's steps do the same.
     */
    method PollUndisturbed(ghost s: State, hw: nat) returns (taken: bool, ghost n: nat)
      requires Valid() && Shape(s) && s.kernel.LoopTop? && Shows(s)
      requires hw == s.txHeadReg && !HasToWait(s)
      modifies this, rx, tx
      ensures Valid() && Shows(KernelRun(s, n)) && KernelRun(s, n).kernel.LoopTop?
      ensures taken == s.rx[s.rxHead].dd
    {
      hide KernelStep, B.Decode, Passes;
      var done;
      taken, done := PollOnce(hw, []);
      PollPass(s);
      n :| KernelRun(s, n) == Polled(s);
    }

    /**
     A pass that posts an order while the ring is full is a run as well: the register value
     head that ends the spin is the one that the NIC shows when it has sent c orders.
     */
    method PollWaiting(ghost s: State, hw: nat, head: nat, ghost c: nat) returns (ghost events: seq<Event>)
      requires Valid() && RingsProof.TxInv(s) && s.kernel.LoopTop? && s.txNic.TxIdle? && Shows(s)
      requires hw == s.txHeadReg && HasToWait(s)
      requires |s.sent| < c <= |s.posted| && head == Slot(c)
      modifies this, rx, tx
      ensures Valid() && Possible(s, events, RING) && Shows(Run(s, events)) && Run(s, events).kernel.LoopTop?
    {
      hide KernelStep, B.Decode, Passes;
      FreeAgain(s, c);
      PollWaits(s, c, RING);
      var taken, done := PollOnce(hw, [head]);
      assert [head][0] == head;
      events :| Possible(s, events, RING) && Run(s, events) == PolledLate(s, c);
    }
  }

  /** The register shows a free slot when one more order is sent. */
  lemma FreeAgain(s: State, c: nat)
    requires RingsProof.TxInv(s) && s.kernel.LoopTop? && s.txHeadReg == Step(s.txIdx)
    requires |s.sent| < c <= |s.posted|
    ensures Slot(c) != Step(s.txIdx)
  {
    RingsProof.SlotStep(|s.posted|);
    RingsProof.SlotsDiffer(c, |s.posted| + 1);
  }

  // ----- the NIC's receive routine -----

  /** A burst that fits the ring: every packet is in its own slot, and no other slot changes. */
  lemma {:induction false} BurstIsHeld(rx: seq<RxSlot>, start: nat, ps: seq<Datagram>, k: nat)
    requires FullSize(rx) && Receivable(ps) && |ps| <= 16 && k < 16
    ensures var before, slot := rx[(start + k) % 16], DeliveredAll(rx, start % 16, ps)[(start + k) % 16];
            if k < |ps|
            then slot == RxSlot(true, |ps[k]|, ps[k] + before.buf[|ps[k]|..])
            else slot == before
    decreases |ps|
  {
    if ps != [] {
      hide Delivered;
      var rx' := rx[Slot(start) := Delivered(rx[Slot(start)], ps[0])];
      RingsProof.SlotStep(start);
      if k == 0 {
        RingsProof.SlotWraps(start);
        BurstIsHeld(rx', start + 1, ps[1..], RING - 1);
      } else {
        RingsProof.SlotsDiffer(start, start + k);
        BurstIsHeld(rx', start + 1, ps[1..], k - 1);
      }
    }
  }

  class NicSim {
    var rxTail: nat
    var rxTailReg: nat

    constructor ()
      ensures rxTail == 0 && rxTailReg == 0
    {
      rxTail, rxTailReg := 0, 0;
    }

    /** One packet: length, payload, DD, tail register, tail. */
    method RxOne(rx: array<RxSlot>, p: Datagram)
      requires FullSize(rx[..]) && rxTail < RING && 0 < |p| <= B.PKT_BUF_SIZE
      modifies this, rx
      ensures rx[..] == old(rx[..])[old(rxTail) := Delivered(old(rx[rxTail]), p)]
      ensures rx[old(rxTail)] == RxSlot(true, |p|, p + old(rx[rxTail].buf[|p|..]))
      ensures rxTailReg == old(rxTail) && rxTail == (old(rxTail) + 1) % 16
    {
      rx[rxTail] := rx[rxTail].(length := |p|);
      rx[rxTail] := rx[rxTail].(buf := p + rx[rxTail].buf[|p|..]);
      rx[rxTail] := rx[rxTail].(dd := true);
      rxTailReg := rxTail;
      rxTail := (rxTail + 1) % RING;
    }

    /** nic_sim_rx_bh for the packets that are waiting. */
    method RxBh(rx: array<RxSlot>, waiting: seq<Datagram>)
      requires FullSize(rx[..]) && rxTail < RING && Receivable(waiting)
      modifies this, rx
      ensures rx[..] == old(DeliveredAll(rx[..], rxTail, waiting))
      ensures rxTail == (old(rxTail) + |waiting|) % 16
      ensures rxTailReg == if waiting == [] then old(rxTailReg) else (old(rxTail) + |waiting| - 1) % 16
    {
      var left := waiting;
      while left != []
        invariant FullSize(rx[..]) && rxTail < RING && Receivable(left) && |left| <= |waiting|
        invariant DeliveredAll(rx[..], rxTail, left) == old(DeliveredAll(rx[..], rxTail, waiting))
        invariant rxTail == Slot(old(rxTail) + (|waiting| - |left|))
        invariant |left| == |waiting| ==> rxTailReg == old(rxTailReg)
        invariant |left| < |waiting| ==> rxTailReg == Slot(old(rxTail) + (|waiting| - |left|) - 1)
        decreases |left|
      {
        hide Delivered, Slot;
        RingsProof.SlotStep(old(rxTail) + (|waiting| - |left|));
        RxOne(rx, left[0]);
        left := left[1..];
      }
    }
  }
}
