/**
 Module `dispatch`: cuts the byte stream behind a MoldUDP64 header into messages,
 eight bytes per clock.  Every wire is a function of the registers and the inputs,
 with the widths of the instance inside `moldudp64` (KEEP_LW = 4, LEN_W = 16); the
 registers are the fields of class DispatchModule, updated by Clock.
 */
module Dispatch {
  import opened Bytes

  /** Bytes per beat (AXI_KEEP_W). */
  const BEAT := 8
  /** Message bytes start here in the third header beat (HEADER_DATA_OFF). */
  const HEADER_DATA_OFF := 6

  type Lane = d: seq<Byte> | |d| == BEAT witness [0, 0, 0, 0, 0, 0, 0, 0]

  /** One clock's inputs; data[k] is data_i[8k+7:8k]. */
  datatype Input = Input(valid: bool, data: Lane, init: bool, last: bool)

  /**
   lenHeld is no declared register: the length mux is assigned in some cases only, so in
   the others len_shifted keeps what it was last assigned.
   */
  datatype Regs = Regs(
    msgLen: Word,        // sel_msg_len_q
    splitHalf: Byte,     // init_len_split_half_q
    alignEnd: bool,      // msg_len_align_end_q
    lenHeld: Word,       // len_shifted, at the end of the last cycle
    invalid: bool,       // fsm_invalid_q
    msg: bool,           // fsm_msg_q
    lenAlign: bool,      // fsm_len_align_q
    lenSplit: bool       // fsm_len_split_q
  )

  /** The outputs.  data and ovData list only the bytes that are driven. */
  datatype Output = Output(
    valid: bool, start: bool, data: seq<Byte>, len: nat,
    ovValid: bool, ovData: seq<Byte>, ovLen: nat,
    msgEnd: bool)

  // ----- gates -----

  function Sub16(a: int, b: int): Word {
    (a - b) % 0x1_0000
  }

  function Mask(enable: bool, v: Word): Word {
    if enable then v else 0
  }

  /** Bitwise or of two 16-bit vectors. */
  function Or(a: Word, b: Word): Word {
    if a == 0 then b else if b == 0 then a else OrBits(a, b) % 0x1_0000
  }

  function OrBits(a: nat, b: nat): nat {
    if a == 0 && b == 0 then 0
    else 2 * OrBits(a / 2, b / 2) + (if a % 2 == 1 || b % 2 == 1 then 1 else 0)
  }

  /** Bit k of a number. */
  predicate Bit(v: nat, k: nat) {
    if k == 0 then v % 2 == 1 else Bit(v / 2, k - 1)
  }

  lemma {:induction false} OrBitsBit(a: nat, b: nat, k: nat)
    ensures Bit(OrBits(a, b), k) <==> Bit(a, k) || Bit(b, k)
    decreases k
  {
    OrBitsHalves(a, b);
    hide OrBits;
    if k > 0 { OrBitsBit(a / 2, b / 2, k - 1); }
  }

  lemma Doubled(n: nat, c: nat)
    requires c < 2
    ensures (2 * n + c) / 2 == n && (2 * n + c) % 2 == c
  {}

  /** The lowest bit, and the bits above it. */
  lemma OrBitsHalves(a: nat, b: nat)
    ensures OrBits(a, b) / 2 == OrBits(a / 2, b / 2)
    ensures OrBits(a, b) % 2 == 1 <==> a % 2 == 1 || b % 2 == 1
  {
    Doubled(OrBits(a / 2, b / 2), if a % 2 == 1 || b % 2 == 1 then 1 else 0);
  }

  function Power2(n: nat): nat {
    if n == 0 then 1 else 2 * Power2(n - 1)
  }

  lemma {:induction false} OrBitsBound(a: nat, b: nat, n: nat)
    requires a < Power2(n) && b < Power2(n)
    ensures OrBits(a, b) < Power2(n)
    decreases n
  {
    if n > 0 { OrBitsBound(a / 2, b / 2, n - 1); }
  }

  lemma {:induction false} NoBit(k: nat)
    ensures !Bit(0, k)
  {
    if k > 0 { NoBit(k - 1); }
  }

  /** Every bit of the or is the or of the bits. */
  lemma OrBit(a: Word, b: Word, k: nat)
    ensures Bit(Or(a, b), k) <==> Bit(a, k) || Bit(b, k)
  {
    NoBit(k);
    OrBitsBit(a, b, k);
    assert Power2(8) == 256;
    assert Power2(16) == 0x1_0000;
    OrBitsBound(a, b, 16);
  }

  /** The value of a 4-bit vector. */
  function Bits(b3: bool, b2: bool, b1: bool, b0: bool): nat {
    (if b3 then 8 else 0) + (if b2 then 4 else 0) + (if b1 then 2 else 0) + (if b0 then 1 else 0)
  }

  function Pair(hi: Byte, lo: Byte): Word {
    256 * (hi as int) + lo
  }

  // ----- wires -----

  /** sel_msg_len_q[3:0], which is also len_shift. */
  function LenNibble(r: Regs): nat {
    r.msgLen % 16
  }

  predicate SelMsgEnd(r: Regs, i: Input) {
    r.msgLen / 16 == 0 && LenNibble(r) <= BEAT && !i.init
  }

  /** { sel_len_inc2_overflow, sel_len_inc2 } */
  function LenInc2Sum(r: Regs): nat {
    LenNibble(r) + 2
  }

  function LenInc2(r: Regs): nat {
    LenInc2Sum(r) % 16
  }

  function MsgOverlapLen(r: Regs): nat {
    (BEAT - LenInc2(r)) % 16
  }

  predicate LenSplit(r: Regs) { r.msgLen == 7 }

  predicate LenAlign(r: Regs) { r.msgLen == 8 }

  predicate LenAlignEnd(r: Regs) {
    LenInc2(r) == BEAT && LenInc2Sum(r) < 16
  }

  predicate LenInner(r: Regs) {
    BEAT > LenNibble(r) && !LenAlignEnd(r)
  }

  predicate PloadOverlap(r: Regs, i: Input) {
    i.valid && LenInner(r) && SelMsgEnd(r, i) && !r.lenAlign && !(LenSplit(r) || r.lenSplit)
  }

  /** The length mux has entries for shifts 1..6 only; for the others it holds its value. */
  function LenShifted(r: Regs, i: Input): Word {
    var s := LenNibble(r);
    if 1 <= s < BEAT - 1 then Pair(i.data[s], i.data[s + 1]) else r.lenHeld
  }

  function InitOverlapLen(r: Regs, i: Input): Word {
    Sub16(LenShifted(r, i), Mask(PloadOverlap(r, i), MsgOverlapLen(r)))
  }

  function InitLen(r: Regs, i: Input): Word {
    Or(Mask(i.init, Sub16(Pair(i.data[4], i.data[5]), 2)),
    Or(Mask(r.msg && LenAlignEnd(r), Pair(i.data[6], i.data[7])),
    Or(Mask(r.msg && PloadOverlap(r, i), InitOverlapLen(r, i)),
    Or(Mask(r.lenAlign, Sub16(Pair(i.data[0], i.data[1]), 6)),
       Mask(r.lenSplit, Sub16(Pair(r.splitHalf, i.data[0]), 7))))))
  }

  predicate InitLenValid(r: Regs, i: Input) {
    i.valid && (SelMsgEnd(r, i) || i.init || r.lenSplit)
  }

  function MsgLenNext(r: Regs, i: Input): Word {
    if InitLenValid(r, i) then InitLen(r, i)
    else if SelMsgEnd(r, i) then 0
    else Sub16(r.msgLen, 8)
  }

  predicate LenAlignNext(r: Regs, i: Input) {
    r.msg && SelMsgEnd(r, i) && LenAlign(r)
  }

  predicate LenSplitNext(r: Regs, i: Input) {
    r.msg && SelMsgEnd(r, i) && LenSplit(r)
  }

  predicate MsgNext(r: Regs, i: Input) {
    && (|| (i.valid && i.init)
        || r.lenAlign
        || r.lenSplit
        || (r.msg && !(LenSplitNext(r, i) || LenAlignNext(r, i) || i.last)))
    && !(i.valid && i.last)
  }

  predicate InvalidNext(r: Regs, i: Input) {
    (r.invalid && !(i.valid && i.init)) || (i.valid && i.last)
  }

  /** The values that the registers take at the clock edge. */
  function Next(r: Regs, i: Input): Regs {
    Regs(
      MsgLenNext(r, i),
      i.data[7],
      LenAlignEnd(r) && SelMsgEnd(r, i) && r.msg,
      LenShifted(r, i),
      InvalidNext(r, i),
      MsgNext(r, i),
      LenAlignNext(r, i),
      LenSplitNext(r, i))
  }

  /** The or of 7, 6, 8 and 2, each under its own enable, bit by bit. */
  function SelDataLenStart(r: Regs, i: Input): nat {
    var init := i.valid && i.init;
    Bits(r.msg, r.lenSplit || r.lenAlign, r.lenSplit || r.lenAlign || init, r.lenSplit)
  }

  /** The or of 1, 2 and 6 (HEADER_DATA_OFF), each under its own enable, bit by bit. */
  function SelDataShift(r: Regs, i: Input): nat {
    var init := i.valid && i.init;
    Bits(false, init, r.lenAlign || init, r.lenSplit)
  }

  function Outputs(r: Regs, i: Input): Output {
    var shift := SelDataShift(r, i);
    var ovShift := LenInc2(r);
    Output(
      (!r.invalid || i.init) && i.valid,
      (r.lenSplit || r.lenAlign || r.alignEnd || i.init) && !i.last,
      if shift <= 2 || shift == HEADER_DATA_OFF then i.data[shift..] else [],
      if r.msg && SelMsgEnd(r, i) then LenNibble(r) else SelDataLenStart(r, i),
      !r.invalid && PloadOverlap(r, i) && i.valid && !i.last,
      if ovShift < BEAT then i.data[ovShift..] else [],
      MsgOverlapLen(r) % 8,
      SelMsgEnd(r, i) && !(r.lenSplit || r.lenAlign) && i.valid)
  }

  /** The registers, clocked in place. */
  class DispatchModule {
    var msgLen: Word
    var splitHalf: Byte
    var alignEnd: bool
    var lenHeld: Word
    var invalid: bool
    var msg: bool
    var lenAlign: bool
    var lenSplit: bool

    ghost function State(): Regs
      reads this
    {
      Regs(msgLen, splitHalf, alignEnd, lenHeld, invalid, msg, lenAlign, lenSplit)
    }

    /** Power-up: nothing is known of the registers. */
    constructor (r: Regs)
      ensures State() == r
    {
      msgLen, splitHalf, alignEnd, lenHeld := r.msgLen, r.splitHalf, r.alignEnd, r.lenHeld;
      invalid, msg, lenAlign, lenSplit := r.invalid, r.msg, r.lenAlign, r.lenSplit;
    }

    method Read() returns (r: Regs)
      ensures r == State()
    {
      r := Regs(msgLen, splitHalf, alignEnd, lenHeld, invalid, msg, lenAlign, lenSplit);
    }

    /** All registers sample their inputs at the same edge. */
    method Latch(n: Regs)
      modifies this
      ensures State() == n
    {
      msgLen, splitHalf, alignEnd, lenHeld := n.msgLen, n.splitHalf, n.alignEnd, n.lenHeld;
      invalid, msg, lenAlign, lenSplit := n.invalid, n.msg, n.lenAlign, n.lenSplit;
    }

    /** A clock edge with nreset low; two registers and the length mux have no reset. */
    method Reset(i: Input)
      modifies this
      ensures State() == ResetNext(old(State()), i)
      ensures msgLen == 0 && invalid && !msg && !lenAlign && !lenSplit
      ensures splitHalf == i.data[7]
      ensures alignEnd <==> old(msg) && old(msgLen) == 6 && !i.init
      ensures var k := old(msgLen) % 16;
              lenHeld == if 1 <= k <= 6 then 256 * (i.data[k] as int) + i.data[k + 1] else old(lenHeld)
    {
      var r := Read();
      var alignEndNext := LenAlignEnd(r) && SelMsgEnd(r, i) && r.msg;
      Latch(Regs(0, i.data[7], alignEndNext, LenShifted(r, i), true, false, false, false));
    }

    /** The outputs during a cycle, and the clock edge that ends it. */
    method Clock(i: Input) returns (o: Output)
      modifies this
      ensures o == Outputs(old(State()), i)
      ensures State() == Next(old(State()), i)
    {
      var r := Read();
      o := Outputs(r, i);
      var alignEndNext := LenAlignEnd(r) && SelMsgEnd(r, i) && r.msg;
      Latch(Regs(MsgLenNext(r, i), i.data[7], alignEndNext, LenShifted(r, i),
                 InvalidNext(r, i), MsgNext(r, i), LenAlignNext(r, i), LenSplitNext(r, i)));
    }
  }

  function ResetNext(r: Regs, i: Input): Regs {
    Next(r, i).(msgLen := 0, invalid := true, msg := false, lenAlign := false, lenSplit := false)
  }
}
