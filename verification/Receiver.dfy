/**
 Module `moldudp64` (with `header` and `endian_flip`): header fields, sequence number
 and message counter around the dispatch module, one AXI-stream beat per clock.
 */
module Receiver {
  import opened Bytes
  import D = Dispatch

  const TWO_64 := 0x1_0000_0000_0000_0000

  /**
   One clock of the AXI-stream input.  data[k] is tdata[8k+7:8k].  keep is tkeep, which
   no gate of either module reads.
   */
  datatype Beat = Beat(valid: bool, data: D.Lane, keep: seq<bool>, last: bool)

  datatype Regs = Regs(
    sid: nat,        // sid_q
    seqNum: nat,     // seq_q
    msgCnt: Word,    // msg_cnt_q
    tlast: bool,     // tlast_q
    invalid: bool,   // fsm_invalid_q
    h1: bool,        // fsm_h1_q
    h2: bool,        // fsm_h2_q
    msg: bool,       // fsm_msg_q
    dispatch: D.Regs)

  /** The message outputs of dispatch with the id that accompanies them. */
  datatype Output = Output(pipe: D.Output, id: MessageId)

  /** mold_msg_debug_id_o is { sid, seqNum }. */
  datatype MessageId = MessageId(sid: nat, seqNum: nat) {
    function DebugId(): nat {
      sid * TWO_64 + seqNum
    }
  }

  // ----- header -----

  /**
   The value of the vector that endian_flip makes of these bytes: it reverses them,
   and the first byte of a vector is its least significant.
   */
  function Flipped(bytes: seq<Byte>): nat {
    LittleEndian(Reverse(bytes))
  }

  /** Replaces the 16 low bits. */
  function WithLow(v: nat, low: nat): nat {
    v / 0x1_0000 * 0x1_0000 + low
  }

  /** Replaces everything above the 16 low bits. */
  function WithHigh(v: nat, high: nat): nat {
    high * 0x1_0000 + v % 0x1_0000
  }

  // ----- wires -----

  predicate H0(m: Regs, b: Beat) {
    b.valid && (m.invalid || m.tlast)
  }

  function ToDispatch(m: Regs, b: Beat): D.Input {
    D.Input(b.valid, b.data, m.h2, b.last)
  }

  predicate MsgEnd(m: Regs, b: Beat) {
    D.Outputs(m.dispatch, ToDispatch(m, b)).msgEnd
  }

  predicate CntEnd(m: Regs) {
    m.msgCnt == 0
  }

  function SidNext(m: Regs, b: Beat): nat {
    var s := if m.h1 then WithLow(m.sid, Flipped(b.data[..2])) else m.sid;
    if H0(m, b) then WithHigh(s, Flipped(b.data)) else s
  }

  function SeqAdd(m: Regs): nat {
    (m.seqNum + 1) % TWO_64
  }

  function SeqNext(m: Regs, b: Beat, msgEnd: bool): nat {
    var add := if msgEnd then SeqAdd(m) else m.seqNum;
    var s := if m.h2 then WithLow(add, Flipped(b.data[..2])) else add;
    if m.h1 then WithHigh(s, Flipped(b.data[2..])) else s
  }

  /** seq: the sequence number, already complete on the beat that brings its low bytes. */
  function SeqWire(m: Regs, b: Beat): nat {
    if m.h2 then WithLow(m.seqNum, Flipped(b.data[..2])) else m.seqNum
  }

  function InitMsgCnt(b: Beat): Word {
    Radix2();
    BigEndianBound(Reverse(Reverse(b.data[2..4])));
    Flipped(b.data[2..4])
  }

  function MsgCntNext(m: Regs, b: Beat, msgEnd: bool): Word {
    if m.h2 then InitMsgCnt(b)
    else if msgEnd && !CntEnd(m) then m.msgCnt - 1
    else m.msgCnt
  }

  predicate InvalidNext(m: Regs, b: Beat) {
    || (b.valid && (b.last || (CntEnd(m) && !(H0(m, b) || m.h1 || m.h2))))
    || (m.invalid && !b.valid)
  }

  predicate MsgNext(m: Regs, b: Beat) {
    m.h2 || (m.msg && !(CntEnd(m) || b.last))
  }

  /** Everything but the dispatch module, whose msg_end_v_o is an input here. */
  function Control(m: Regs, b: Beat, msgEnd: bool): Regs {
    Regs(
      SidNext(m, b),
      SeqNext(m, b, msgEnd),
      MsgCntNext(m, b, msgEnd),
      b.last,
      InvalidNext(m, b),
      H0(m, b),
      m.h1 && b.valid,
      MsgNext(m, b),
      m.dispatch)
  }

  function Next(m: Regs, b: Beat): Regs {
    Control(m, b, MsgEnd(m, b)).(dispatch := D.Next(m.dispatch, ToDispatch(m, b)))
  }

  function Outputs(m: Regs, b: Beat): Output {
    Output(D.Outputs(m.dispatch, ToDispatch(m, b)), MessageId(m.sid, SeqWire(m, b)))
  }

  /** A clock edge with nreset low: the ids have no reset. */
  function ResetNext(m: Regs, b: Beat): Regs {
    Next(m, b).(msgCnt := MsgCntReset(m, b), tlast := false, invalid := true, h1 := false, h2 := false,
                msg := false, dispatch := D.ResetNext(m.dispatch, ToDispatch(m, b)))
  }

  /** The count's reset and its enable are separate statements; the enable comes last. */
  function MsgCntReset(m: Regs, b: Beat): Word {
    if m.h2 || MsgEnd(m, b) then MsgCntNext(m, b, MsgEnd(m, b)) else 0
  }

  lemma SeqKept(m: Regs, b: Beat)
    requires !m.h1 && !m.h2
    ensures SeqNext(m, b, false) == m.seqNum
  {}

  class MoldUdp64 {
    var sid: nat
    var seqNum: nat
    var msgCnt: Word
    var tlast: bool
    var invalid: bool
    var h1: bool
    var h2: bool
    var msg: bool
    const dispatch: D.DispatchModule

    ghost function State(): Regs
      reads this, dispatch
    {
      Regs(sid, seqNum, msgCnt, tlast, invalid, h1, h2, msg, dispatch.State())
    }

    /** Power-up: nothing is known of the registers. */
    constructor (m: Regs)
      ensures State() == m && fresh(dispatch)
    {
      sid, seqNum, msgCnt, tlast := m.sid, m.seqNum, m.msgCnt, m.tlast;
      invalid, h1, h2, msg := m.invalid, m.h1, m.h2, m.msg;
      dispatch := new D.DispatchModule(m.dispatch);
    }

    method Read() returns (m: Regs)
      ensures m == State()
    {
      var r := dispatch.Read();
      m := Regs(sid, seqNum, msgCnt, tlast, invalid, h1, h2, msg, r);
    }

    /** All registers of this module sample their inputs at the same edge. */
    method Latch(n: Regs)
      modifies this
      ensures State() == n.(dispatch := old(dispatch.State()))
    {
      sid, seqNum, msgCnt, tlast := n.sid, n.seqNum, n.msgCnt, n.tlast;
      invalid, h1, h2, msg := n.invalid, n.h1, n.h2, n.msg;
    }

    method Reset(b: Beat)
      modifies this, dispatch
      ensures State() == ResetNext(old(State()), b)
      ensures invalid && !tlast && !h1 && !h2 && !msg
      ensures !old(h1) && !(b.valid && (old(invalid) || old(tlast))) ==> sid == old(sid)
      ensures !old(h1) && !old(h2) && !MsgEnd(old(State()), b) ==> seqNum == old(seqNum)
    {
      hide D.Next, D.Outputs, WithLow, WithHigh, Flipped, SeqNext, InvalidNext, MsgNext, ToDispatch, SeqWire;
      hide InitMsgCnt;
      var m := Read();
      var msgEnd := MsgEnd(m, b);
      if !m.h1 && !m.h2 { SeqKept(m, b); }
      var cntNext := 0;
      if m.h2 || msgEnd {
        cntNext := MsgCntNext(m, b, msgEnd);
      }
      dispatch.Reset(ToDispatch(m, b));
      Latch(Regs(SidNext(m, b), SeqNext(m, b, msgEnd), cntNext, false, true, false, false, false, m.dispatch));
    }

    /** The outputs during a cycle, and the clock edge that ends it. */
    method Clock(b: Beat) returns (o: Output)
      modifies this, dispatch
      ensures o == Outputs(old(State()), b)
      ensures State() == Next(old(State()), b)
    {
      hide D.Next, D.Outputs, WithLow, WithHigh, Flipped, SeqNext, InvalidNext, MsgNext, ToDispatch, SeqWire;
      hide InitMsgCnt;
      var m := Read();
      var pipe := dispatch.Clock(ToDispatch(m, b));
      o := Output(pipe, MessageId(m.sid, SeqWire(m, b)));
      var sidNext, cntNext := m.sid, m.msgCnt;
      if m.h1 {
        sidNext := WithLow(sidNext, Flipped(b.data[..2]));
      }
      if H0(m, b) {
        sidNext := WithHigh(sidNext, Flipped(b.data));
      }
      if m.h2 || pipe.msgEnd {
        cntNext := MsgCntNext(m, b, pipe.msgEnd);
      }
      Latch(Regs(sidNext, SeqNext(m, b, pipe.msgEnd), cntNext, b.last,
                 InvalidNext(m, b), H0(m, b), m.h1 && b.valid, MsgNext(m, b), m.dispatch));
    }
  }
}
