/**
 What the dispatch gates do on one beat, by the alignment at which the beat finds the
 stream.  A View says which bytes of a packet are still unread and where the next
 beat starts among them; Matches ties the registers to it.
 */
module DispatchSteps {
  import opened Bytes
  import opened MoldFormat
  import opened Dispatch

  /** The message length that the gates are written for, by their own comment. */
  const SHORTEST := 7

  /**
   Where the next beat starts:
   - Body: with the unread bytes rem of a message; whole when none was delivered yet;
     with none left when the end of the message is still to be signalled;
   - AtLength: with a length field;
   - MidLength: with the second byte of a length field.
   */
  datatype Position = Body(rem: seq<Byte>, whole: bool) | AtLength | MidLength

  /** A position, and the messages whose length field is not read yet. */
  datatype View = View(pos: Position, rest: seq<Message>) {

    predicate Ok() {
      && AllLong(rest)
      && match pos
         case Body(rem, whole) =>
           |rem| < 0x1_0000 && (whole ==> |rem| >= SHORTEST) && (rem == [] ==> rest != [])
         case AtLength => rest != []
         case MidLength => rest != []
    }

    function Unread(): seq<Byte>
      requires Ok()
    {
      match pos
      case Body(rem, _) => rem + Blocks(rest)
      case AtLength => Blocks(rest)
      case MidLength => Blocks(rest)[1..]
    }

    /** The next beat does not end the packet with half a length field and just seven bytes. */
    predicate Clear()
      requires Ok()
    {
      pos.MidLength? ==> |rest[0]| > SHORTEST || |rest| > 1
    }

    /** A straddled seven-byte message is read, and its end not signalled. */
    predicate Spent() {
      pos.Body? && pos.rem == []
    }

    /** Where the next length field begins, within its beat. */
    function FieldOffset(): nat {
      match pos
      case Body(rem, _) => |rem| % BEAT
      case AtLength => 0
      case MidLength => 7
    }

    predicate Smooth() {
      !Spent() && NoStraddle(rest, FieldOffset())
    }

    /** The next length is taken from the held value, and that is right. */
    predicate Guesses(held: Word)
      requires Ok()
    {
      Spent() ==> held == |rest[0]|
    }

    /** The held length is good enough wherever it will be taken. */
    predicate Trusts(held: Word, overrun: bool)
      requires Ok()
    {
      (Spent() ==> Guessed(held, rest, overrun)) && Kept(held, rest, FieldOffset(), overrun)
    }

    /** Messages that have not ended. */
    function Owed(): nat {
      |rest| + (if pos.Body? then 1 else 0)
    }

    /** The bytes that the next beat adds on the primary output. */
    function Primary(): seq<Byte>
      requires Ok()
    {
      match pos
      case Body(rem, _) => if |rem| <= BEAT then rem else rem[..BEAT]
      case AtLength => rest[0][..6]
      case MidLength => rest[0][..7]
    }

    predicate Starts() {
      !pos.Body? || pos.whole
    }

    /** The next beat brings the end of a message. */
    predicate Ends() {
      pos.Body? && |pos.rem| <= BEAT
    }

    /** The next beat brings a message end, a whole length field, and more bytes. */
    predicate Overlaps() {
      pos.Body? && |pos.rem| <= 5 && rest != []
    }

    /** The bytes of the message that begins behind that length field. */
    function Overlap(): seq<Byte>
      requires Ok() && Overlaps()
    {
      rest[0][..6 - |pos.rem|]
    }

    /** The view after a beat that is not the last. */
    function Advance(): View
      requires Ok() && Clear() && |Unread()| > BEAT
    {
      match pos
      case Body(rem, _) =>
        if |rem| > BEAT then View(Body(rem[BEAT..], false), rest)
        else
          assert rest != [];
          if |rem| == 8 then View(AtLength, rest)
          else if |rem| == 7 then View(MidLength, rest)
          else if |rem| == 6 then View(Body(rest[0], true), rest[1..])
          else View(Body(rest[0][6 - |rem|..], false), rest[1..])
      case AtLength => View(Body(rest[0][6..], false), rest[1..])
      case MidLength => View(Body(rest[0][7..], false), rest[1..])
    }
  }

  predicate AllLong(ms: seq<Message>) {
    forall k | 0 <= k < |ms| :: SHORTEST <= |ms[k]| < 0x1_0000
  }

  /** The message's length field lies across two beats, and the message ends with the second. */
  predicate Straddled(m: Message, offset: nat) {
    offset % BEAT == 7 && |m| == SHORTEST
  }

  /** Where the next length field begins. */
  function Onward(offset: nat, m: Message): nat {
    (offset + 2 + |m|) % BEAT
  }

  /** No message is straddled; offset is where the first length field begins. */
  predicate NoStraddle(ms: seq<Message>, offset: nat) {
    ms == [] || (!Straddled(ms[0], offset) && NoStraddle(ms[1..], Onward(offset, ms[0])))
  }

  // ----- the held length -----

  /** Taken for longer than it is, a last message that fills its last beat is delivered all the same. */
  predicate Overrun(held: Word, ms: seq<Message>) {
    |ms| == 1 && |ms[0]| >= SHORTEST && |ms[0]| % BEAT == 6 && Sub16(held, 6) > |ms[0]| - 6
  }

  /** held is the length of the first message, or as good as that. */
  predicate Guessed(held: Word, ms: seq<Message>, overrun: bool) {
    ms != [] && (held == |ms[0]| || (overrun && Overrun(held, ms)))
  }

  /**
   Behind every straddled message there is another one, whose length is the one held: the
   last that the mux selected.  The mux selects a length field that begins with the second
   to seventh byte of a beat.
   */
  predicate Kept(held: Word, ms: seq<Message>, offset: nat, overrun: bool)
    requires AllLong(ms)
    decreases |ms|
  {
    ms == []
    || (var now: Word := if 1 <= offset % BEAT <= 6 then |ms[0]| else held;
        && (Straddled(ms[0], offset) ==> Guessed(now, ms[1..], overrun))
        && Kept(now, ms[1..], Onward(offset, ms[0]), overrun))
  }

  /** Without straddled messages the held value does not matter. */
  lemma {:induction false} UnstraddledKept(held: Word, ms: seq<Message>, offset: nat, overrun: bool)
    requires AllLong(ms) && NoStraddle(ms, offset)
    ensures Kept(held, ms, offset, overrun)
    decreases |ms|
  {
    if ms != [] {
      var now: Word := if 1 <= offset % BEAT <= 6 then |ms[0]| else held;
      UnstraddledKept(now, ms[1..], Onward(offset, ms[0]), overrun);
    }
  }

  lemma {:induction false} KeptWeaker(held: Word, ms: seq<Message>, offset: nat)
    requires AllLong(ms) && Kept(held, ms, offset, false)
    ensures Kept(held, ms, offset, true)
    decreases |ms|
  {
    if ms != [] {
      var now: Word := if 1 <= offset % BEAT <= 6 then |ms[0]| else held;
      KeptWeaker(now, ms[1..], Onward(offset, ms[0]));
    }
  }

  /** The lane holds the first bytes of s; behind the end of s it holds anything. */
  predicate Carries(data: Lane, s: seq<Byte>) {
    if |s| >= BEAT then data == s[..BEAT] else data[..|s|] == s
  }

  /** The registers during a packet, after the header. */
  ghost predicate Matches(r: Regs, v: View)
    requires v.Ok()
  {
    && !r.invalid
    && match v.pos
       case Body(rem, whole) =>
         r.msg && !r.lenAlign && !r.lenSplit && r.msgLen == |rem| && r.alignEnd == whole
       case AtLength =>
         !r.msg && r.lenAlign && !r.lenSplit && r.msgLen == 0
       case MidLength =>
         !r.msg && !r.lenAlign && r.lenSplit && r.msgLen == 0 && r.splitHalf == Block(v.rest[0])[0]
  }

  /** The outputs during a beat of a packet, after the header. */
  ghost predicate Shows(o: Output, v: View, last: bool)
    requires v.Ok()
  {
    && o.valid
    && o.start == (v.Starts() && !last)
    && o.len == |v.Primary()| <= |o.data|
    && o.data[..o.len] == v.Primary()
    && o.msgEnd == v.Ends()
    && o.ovValid == (v.Overlaps() && !last)
    && (o.ovValid ==> o.ovLen == |v.Overlap()| <= |o.ovData| && o.ovData[..o.ovLen] == v.Overlap())
  }

  /** The registers after the last beat, which ends n bytes, or n bytes less a whole number of beats. */
  predicate Drained(r: Regs, n: nat) {
    && r.invalid && !r.msg && r.lenAlign == (n % BEAT == 0) && r.lenSplit == (n % BEAT == 7)
    && (r.lenAlign || r.lenSplit ==> r.msgLen == 0)
  }

  /** The length field at the head of a list of blocks. */
  lemma LengthField(ms: seq<Message>)
    requires ms != [] && AllLong(ms)
    ensures var s := Blocks(ms); |s| >= 2 + |ms[0]| && Pair(s[0], s[1]) == |ms[0]|
    ensures Blocks(ms)[0] == Block(ms[0])[0]
  {
    var f := Block(ms[0])[..2];
    BlockLengthField(ms[0]);
    BigEndian2(f);
    assert f[0] == Blocks(ms)[0] && f[1] == Blocks(ms)[1];
  }

  /** What is left of a list of blocks behind its first length field and k bytes more. */
  lemma BlocksDrop(ms: seq<Message>, k: nat)
    requires ms != [] && k <= |ms[0]|
    ensures Blocks(ms)[2 + k..] == ms[0][k..] + Blocks(ms[1..])
  {
    var f := ToBigEndian(|ms[0]|, 2);
    assert Blocks(ms) == f + (ms[0] + Blocks(ms[1..]));
    assert Blocks(ms)[2 + k..] == (ms[0] + Blocks(ms[1..]))[k..];
  }

  lemma DropConcat(a: seq<Byte>, b: seq<Byte>, k: nat)
    requires k <= |a| + |b|
    ensures (a + b)[k..] == if k <= |a| then a[k..] + b else b[k - |a|..]
  {}

  lemma AdvanceOk(v: View)
    requires v.Ok() && v.Clear() && |v.Unread()| > BEAT
    ensures v.Advance().Ok()
    ensures v.Advance().Owed() == v.Owed() - (if v.Ends() then 1 else 0)
  {
  }

  lemma AdvanceReadsBody(v: View)
    requires v.Ok() && v.Clear() && |v.Unread()| > BEAT && v.Advance().Ok() && v.pos.Body?
    ensures v.Advance().Unread() == v.Unread()[BEAT..]
  {
    var n := |v.pos.rem|;
    DropConcat(v.pos.rem, Blocks(v.rest), BEAT);
    if n <= 6 { BlocksDrop(v.rest, 6 - n); }
  }

  lemma AdvanceReadsLength(v: View)
    requires v.Ok() && v.Clear() && |v.Unread()| > BEAT && v.Advance().Ok() && !v.pos.Body?
    ensures v.Advance().Unread() == v.Unread()[BEAT..]
  {
    BlocksDrop(v.rest, if v.pos.AtLength? then 6 else 7);
    assert v.pos.MidLength? ==> Blocks(v.rest)[1..][8..] == Blocks(v.rest)[9..];
  }

  /** One beat reads eight bytes of the stream. */
  lemma AdvanceReads(v: View)
    requires v.Ok() && v.Clear() && |v.Unread()| > BEAT && v.Advance().Ok()
    ensures v.Advance().Unread() == v.Unread()[BEAT..]
  {
    if v.pos.Body? { AdvanceReadsBody(v); } else { AdvanceReadsLength(v); }
  }

  /** The place of the next length field, one beat later. */
  lemma AdvanceOffset(v: View)
    requires v.Ok() && v.Clear() && |v.Unread()| > BEAT && v.Advance().Ok()
    ensures var v' := v.Advance();
            if v'.rest == v.rest then v'.FieldOffset() == v.FieldOffset()
            else
              && v.rest != [] && v'.rest == v.rest[1..]
              && v'.FieldOffset() == Onward(v.FieldOffset(), v.rest[0])
              && (v.FieldOffset() == 7 ==> v.pos.MidLength?)
  {
    match v.pos
    case Body(rem, _) =>
      if |rem| > BEAT { Beatwise(|rem| - BEAT, |rem|, 1); }
      else if |rem| <= 6 { Beatwise(|v.Advance().pos.rem|, |rem| + 2 + |v.rest[0]|, 1); }
    case AtLength => Beatwise(|v.rest[0]| - 6, |v.rest[0]| + 2, 1);
    case MidLength => Beatwise(|v.rest[0]| - 7, 7 + 2 + |v.rest[0]|, 2);
  }

  /** A whole number of beats does not change the place within a beat. */
  lemma Beatwise(a: nat, b: nat, k: nat)
    requires b == a + k * BEAT
    ensures a % BEAT == b % BEAT
  {}

  lemma AdvanceSmooth(v: View)
    requires v.Ok() && v.Clear() && |v.Unread()| > BEAT && v.Advance().Ok() && !v.Spent()
    ensures v.Advance().Smooth() == v.Smooth()
  {
    AdvanceOffset(v);
  }

  /** Only the last message of a packet can end on its last beat. */
  lemma LastBeatIsBody(v: View)
    requires v.Ok() && v.Clear() && |v.Unread()| <= BEAT
    ensures v.pos.Body? && v.rest == [] && v.Unread() == v.pos.rem && v.Ends()
  {
    if v.rest != [] { LengthField(v.rest); }
  }

  // ----- the gates, case by case -----

  /** An input of the message part of a packet: init_v_i is low. */
  predicate Plain(i: Input) {
    i.valid && !i.init
  }

  predicate InBody(r: Regs, n: nat) {
    !r.invalid && r.msg && !r.lenAlign && !r.lenSplit && r.msgLen == n
  }

  /** The length field that the mux shows behind n bytes: none, when no byte is left. */
  function FieldSeen(data: Lane, held: Word, n: nat): Word
    requires n <= 6
  {
    if n == 0 then held else Pair(data[n], data[n + 1])
  }

  /** The registers after a beat, not the last, that found n unread bytes of a message. */
  predicate AfterBody(r': Regs, data: Lane, held: Word, n: nat)
    requires n < 0x1_0000
  {
    !r'.invalid &&
    if n > BEAT then InBody(r', n - BEAT) && !r'.alignEnd
    else if n == 8 then !r'.msg && r'.lenAlign && !r'.lenSplit && r'.msgLen == 0
    else if n == 7 then !r'.msg && !r'.lenAlign && r'.lenSplit && r'.msgLen == 0 && r'.splitHalf == data[7]
    else if n == 6 then InBody(r', Pair(data[6], data[7])) && r'.alignEnd
    else InBody(r', Sub16(FieldSeen(data, held, n), 6 - n)) && !r'.alignEnd
  }

  lemma WiresEnd(r: Regs, i: Input, n: nat)
    requires InBody(r, n) && n <= BEAT && Plain(i)
    ensures SelMsgEnd(r, i) && LenNibble(r) == n && LenInc2(r) == n + 2
    ensures PloadOverlap(r, i) <==> n <= 5
    ensures n <= 5 ==> MsgOverlapLen(r) == 6 - n
    ensures LenAlignEnd(r) <==> n == 6
  {}

  lemma GatesLong(r: Regs, i: Input, n: nat)
    requires InBody(r, n) && BEAT < n < 0x1_0000 && Plain(i) && !i.last
    ensures AfterBody(Next(r, i), i.data, r.lenHeld, n)
  {}

  lemma GatesEndOverlap(r: Regs, i: Input, n: nat)
    requires InBody(r, n) && n <= 5 && Plain(i) && !i.last
    ensures AfterBody(Next(r, i), i.data, r.lenHeld, n)
  {
    WiresEnd(r, i, n);
    assert InitLen(r, i) == Sub16(FieldSeen(i.data, r.lenHeld, n), 6 - n);
  }

  lemma GatesEndField(r: Regs, i: Input)
    requires InBody(r, 6) && Plain(i) && !i.last
    ensures AfterBody(Next(r, i), i.data, r.lenHeld, 6)
  {
    WiresEnd(r, i, 6);
    assert InitLen(r, i) == Pair(i.data[6], i.data[7]);
  }

  lemma GatesEndShort(r: Regs, i: Input, n: nat)
    requires InBody(r, n) && 7 <= n <= BEAT && Plain(i) && !i.last
    ensures AfterBody(Next(r, i), i.data, r.lenHeld, n)
  {
    WiresEnd(r, i, n);
    assert InitLen(r, i) == 0;
  }

  lemma GatesBody(r: Regs, i: Input, n: nat)
    requires InBody(r, n) && n < 0x1_0000 && Plain(i) && !i.last
    ensures AfterBody(Next(r, i), i.data, r.lenHeld, n)
  {
    if n > BEAT { GatesLong(r, i, n); }
    else if n >= 7 { GatesEndShort(r, i, n); }
    else if n == 6 { GatesEndField(r, i); }
    else { GatesEndOverlap(r, i, n); }
  }

  /** The outputs during a beat that finds n unread bytes of a message. */
  predicate BodyOutputs(o: Output, data: Lane, n: nat, whole: bool, last: bool) {
    && o.valid && o.start == (whole && !last) && o.data == data
    && o.len == (if n <= BEAT then n else BEAT)
    && o.msgEnd == (n <= BEAT)
    && o.ovValid == (n <= 5 && !last)
    && (n <= 5 ==> o.ovData == data[n + 2..] && o.ovLen == 6 - n)
  }

  lemma GatesBodyOutputs(r: Regs, i: Input, n: nat)
    requires InBody(r, n) && n < 0x1_0000 && Plain(i)
    ensures BodyOutputs(Outputs(r, i), i.data, n, r.alignEnd, i.last)
  {
    if n <= BEAT { WiresEnd(r, i, n); }
    assert SelDataShift(r, i) == 0;
  }

  /** A beat that starts with a length field. */
  lemma GatesAlign(r: Regs, i: Input)
    requires !r.invalid && !r.msg && r.lenAlign && !r.lenSplit && r.msgLen == 0 && Plain(i) && !i.last
    ensures InBody(Next(r, i), Sub16(Pair(i.data[0], i.data[1]), 6)) && !Next(r, i).alignEnd
    ensures var o := Outputs(r, i);
            o.valid && o.start && o.data == i.data[2..] && o.len == 6 && !o.msgEnd && !o.ovValid
  {}

  /** A beat that starts with the second byte of a length field. */
  lemma GatesSplit(r: Regs, i: Input)
    requires !r.invalid && !r.msg && !r.lenAlign && r.lenSplit && r.msgLen == 0 && Plain(i) && !i.last
    ensures InBody(Next(r, i), Sub16(Pair(r.splitHalf, i.data[0]), 7)) && !Next(r, i).alignEnd
    ensures var o := Outputs(r, i);
            o.valid && o.start && o.data == i.data[1..] && o.len == 7 && !o.msgEnd && !o.ovValid
  {}

  /** The mux selects the two bytes behind 1 to 6 unread bytes, whether a message ends there or not. */
  lemma GatesHeld(r: Regs, i: Input, n: nat)
    requires r.msgLen == n
    ensures Next(r, i).lenHeld == if 1 <= n % 16 <= 6 then Pair(i.data[n % 16], i.data[n % 16 + 1]) else r.lenHeld
  {}

  // ----- one beat -----

  /** The length field that follows the n last bytes of a message in a lane. */
  lemma FieldInLane(data: Lane, rem: seq<Byte>, ms: seq<Message>)
    requires |rem| <= 7 && ms != [] && AllLong(ms) && Carries(data, rem + Blocks(ms))
    ensures |rem| <= 6 ==> Pair(data[|rem|], data[|rem| + 1]) == |ms[0]|
    ensures |rem| == 7 ==> data[7] == Block(ms[0])[0]
  {
    LengthField(ms);
    var n := |rem|;
    var s := rem + Blocks(ms);
    assert s[n] == Blocks(ms)[0] && s[n + 1] == Blocks(ms)[1];
    assert data == s[..BEAT];
    assert data[n] == s[n];
    if n <= 6 { assert data[n + 1] == s[n + 1]; }
  }

  lemma ShortBy(a: Word, b: nat)
    requires b <= a
    ensures Sub16(a, b) == a - b
  {}

  lemma BodyMatchesEnd(r': Regs, data: Lane, held: Word, v: View)
    requires v.Ok() && v.pos.Body? && v.Clear() && |v.Unread()| > BEAT && v.Advance().Ok() && |v.pos.rem| <= 7
    requires v.Guesses(held)
    requires Carries(data, v.Unread()) && AfterBody(r', data, held, |v.pos.rem|)
    ensures Matches(r', v.Advance())
  {
    hide Carries;
    var n := |v.pos.rem|;
    FieldInLane(data, v.pos.rem, v.rest);
    hide Blocks, View.Unread, Sub16, Pair;
    if n <= 5 {
      assert FieldSeen(data, held, n) == |v.rest[0]|;
      ShortBy(|v.rest[0]|, 6 - n);
    }
  }

  lemma BodyMatches(r': Regs, data: Lane, held: Word, v: View)
    requires v.Ok() && v.pos.Body? && v.Clear() && |v.Unread()| > BEAT && v.Advance().Ok() && v.Guesses(held)
    requires Carries(data, v.Unread()) && AfterBody(r', data, held, |v.pos.rem|)
    ensures Matches(r', v.Advance())
  {
    if |v.pos.rem| <= 7 { BodyMatchesEnd(r', data, held, v); }
  }

  /** The length field that a beat starts with, whole or in its second half. */
  lemma FieldAtStart(data: Lane, v: View)
    requires v.Ok() && !v.pos.Body? && Carries(data, v.Unread()) && |v.Unread()| >= BEAT
    ensures v.pos.AtLength? ==> Pair(data[0], data[1]) == |v.rest[0]|
    ensures v.pos.MidLength? ==> Pair(Block(v.rest[0])[0], data[0]) == |v.rest[0]|
  {
    LengthField(v.rest);
    var s := Blocks(v.rest);
    assert data == v.Unread()[..BEAT];
    if v.pos.MidLength? {
      assert s[1..][0] == s[1];
    } else {
      assert data[0] == s[0] && data[1] == s[1];
    }
  }

  lemma AlignMatches(r': Regs, v: View)
    requires v.Ok() && v.pos.AtLength? && v.Clear() && |v.Unread()| > BEAT && v.Advance().Ok()
    requires InBody(r', |v.rest[0]| - 6) && !r'.alignEnd
    ensures Matches(r', v.Advance())
  {}

  lemma SplitMatches(r': Regs, v: View)
    requires v.Ok() && v.pos.MidLength? && v.Clear() && |v.Unread()| > BEAT && v.Advance().Ok()
    requires InBody(r', |v.rest[0]| - 7) && !r'.alignEnd
    ensures Matches(r', v.Advance())
  {}

  lemma StepAlign(r: Regs, i: Input, v: View)
    requires v.Ok() && v.Clear() && |v.Unread()| > BEAT && Matches(r, v) && v.pos.AtLength?
    requires Plain(i) && !i.last && Carries(i.data, v.Unread()) && v.Advance().Ok()
    ensures Matches(Next(r, i), v.Advance())
  {
    hide Carries, Next, View.Advance, Sub16, Pair, Outputs, Block, Blocks;
    FieldAtStart(i.data, v);
    GatesAlign(r, i);
    ShortBy(|v.rest[0]|, 6);
    AlignMatches(Next(r, i), v);
  }

  lemma StepSplit(r: Regs, i: Input, v: View)
    requires v.Ok() && v.Clear() && |v.Unread()| > BEAT && Matches(r, v) && v.pos.MidLength?
    requires Plain(i) && !i.last && Carries(i.data, v.Unread()) && v.Advance().Ok()
    ensures Matches(Next(r, i), v.Advance())
  {
    hide Carries, Next, View.Advance, Sub16, Pair, Outputs, Block, Blocks;
    FieldAtStart(i.data, v);
    GatesSplit(r, i);
    ShortBy(|v.rest[0]|, 7);
    SplitMatches(Next(r, i), v);
  }

  /** During a packet the registers follow the view. */
  lemma StepMatches(r: Regs, i: Input, v: View)
    requires v.Ok() && v.Clear() && |v.Unread()| > BEAT && Matches(r, v) && v.Guesses(r.lenHeld)
    requires Plain(i) && !i.last && Carries(i.data, v.Unread())
    ensures v.Advance().Ok() && Matches(Next(r, i), v.Advance())
  {
    hide Carries, Next, View.Advance, AfterBody, Blocks;
    AdvanceOk(v);
    match v.pos
    case Body(rem, _) =>
      GatesBody(r, i, |rem|);
      BodyMatches(Next(r, i), i.data, r.lenHeld, v);
    case AtLength => StepAlign(r, i, v);
    case MidLength => StepSplit(r, i, v);
  }

  lemma Nibble(n: nat)
    ensures 1 <= n % 16 <= 6 ==> 1 <= n % BEAT <= 6
    ensures n <= BEAT ==> n % 16 == n
    ensures n <= 6 ==> n % BEAT == n
  {
    assert n == 16 * (n / 16) + n % 16;
    assert n % BEAT == (n % 16) % BEAT;
  }

  /** A message that goes on, or ends with 7 or 8 bytes, is followed by its own beat's end. */
  lemma RestKept(v: View)
    requires v.Ok() && v.Clear() && |v.Unread()| > BEAT && v.pos.Body?
    ensures v.Advance().rest == if |v.pos.rem| > 6 then v.rest else v.rest[1..]
  {}

  /** A length field in the second to seventh byte of a lane is what the mux holds from then on. */
  lemma StepHeld(r: Regs, i: Input, v: View)
    requires v.Ok() && v.Clear() && |v.Unread()| > BEAT && Matches(r, v) && v.Advance().Ok()
    requires Plain(i) && !i.last && Carries(i.data, v.Unread())
    ensures var held := Next(r, i).lenHeld;
            && (!(1 <= v.FieldOffset() <= 6) ==> held == r.lenHeld)
            && (1 <= v.FieldOffset() <= 6 && v.Advance().rest != v.rest ==> held == |v.rest[0]|)
  {
    hide Next, Carries, View.Advance;
    match v.pos
    case Body(rem, _) =>
      var n := |rem|;
      GatesHeld(r, i, n);
      Nibble(n);
      RestKept(v);
      if n <= 6 { FieldInLane(i.data, rem, v.rest); }
    case _ => GatesHeld(r, i, 0);
  }

  /** Behind a length field that the mux will select, what it held before does not matter. */
  lemma KeptAnyway(a: Word, b: Word, ms: seq<Message>, offset: nat, overrun: bool)
    requires AllLong(ms) && 1 <= offset % BEAT <= 6
    ensures Kept(a, ms, offset, overrun) == Kept(b, ms, offset, overrun)
  {}

  /** Trust in the held length goes on from beat to beat. */
  lemma AdvanceTrusts(r: Regs, i: Input, v: View, overrun: bool)
    requires v.Ok() && v.Clear() && |v.Unread()| > BEAT && Matches(r, v) && v.Guesses(r.lenHeld)
    requires Plain(i) && !i.last && Carries(i.data, v.Unread())
    ensures v.Advance().Ok()
    ensures v.Advance().Trusts(Next(r, i).lenHeld, overrun) == v.Trusts(r.lenHeld, overrun)
  {
    hide Next, Carries, Matches;
    AdvanceOk(v);
    StepHeld(r, i, v);
    AdvanceOffset(v);
    var v', held := v.Advance(), Next(r, i).lenHeld;
    if v'.rest == v.rest {
      if 1 <= v.FieldOffset() <= 6 { KeptAnyway(held, r.lenHeld, v.rest, v.FieldOffset(), overrun); }
    } else {
      AdvanceSpent(v);
    }
  }

  /** A message's end is left over exactly behind a straddled message. */
  lemma AdvanceSpent(v: View)
    requires v.Ok() && v.Clear() && |v.Unread()| > BEAT && v.Advance().Ok()
    ensures v.Advance().Spent() <==> v.Advance().rest != v.rest && Straddled(v.rest[0], v.FieldOffset())
  {
    match v.pos
    case Body(rem, _) =>
      RestKept(v);
      Nibble(|rem|);
    case AtLength =>
    case MidLength =>
  }

  lemma LaneEnd(data: Lane, s: seq<Byte>, k: nat, a: seq<Byte>, b: seq<Byte>)
    requires k <= BEAT <= |s| && data == s[..BEAT] && s[k..] == a + b && |a| >= BEAT - k
    ensures data[k..] == a[..BEAT - k]
  {
    assert data[k..] == s[k..][..BEAT - k];
  }

  /** The bytes behind a length field that ends inside a lane. */
  lemma OverlapInLane(data: Lane, v: View)
    requires v.Ok() && v.Overlaps() && Carries(data, v.Unread())
    ensures data[|v.pos.rem| + 2..] == v.Overlap()
  {
    var n, s := |v.pos.rem|, v.Unread();
    LengthField(v.rest);
    BlocksDrop(v.rest, 0);
    DropConcat(v.pos.rem, Blocks(v.rest), n + 2);
    hide Blocks, View.Unread;
    LaneEnd(data, s, n + 2, v.rest[0], Blocks(v.rest[1..]));
  }

  lemma PrimaryInLane(data: Lane, v: View)
    requires v.Ok() && Carries(data, v.Unread())
    requires v.pos.Body? || |v.Unread()| > BEAT
    ensures match v.pos
            case Body(rem, _) => data[..|v.Primary()|] == v.Primary()
            case AtLength => data[2..] == v.Primary()
            case MidLength => data[1..] == v.Primary()
  {
    if !v.pos.Body? {
      BlocksDrop(v.rest, 0);
      LengthField(v.rest);
      assert v.pos.AtLength? ==> data[2..] == Blocks(v.rest)[2..][..6];
      assert v.pos.MidLength? ==> data[1..] == Blocks(v.rest)[2..][..7];
    }
  }

  lemma BodyShows(o: Output, data: Lane, v: View, last: bool)
    requires v.Ok() && v.pos.Body? && Carries(data, v.Unread()) && last == (|v.Unread()| <= BEAT)
    requires BodyOutputs(o, data, |v.pos.rem|, v.pos.whole, last)
    ensures Shows(o, v, last)
  {
    PrimaryInLane(data, v);
    if v.Overlaps() {
      OverlapInLane(data, v);
    } else if v.rest == [] && |v.pos.rem| <= 5 {
      assert last;
    }
  }

  /** The outputs show what the view says, on the last beat too. */
  lemma StepShows(r: Regs, i: Input, v: View)
    requires v.Ok() && v.Clear() && Matches(r, v) && Plain(i)
    requires Carries(i.data, v.Unread()) && i.last == (|v.Unread()| <= BEAT)
    ensures Shows(Outputs(r, i), v, i.last)
  {
    if i.last { LastBeatIsBody(v); }
    match v.pos
    case Body(rem, _) =>
      GatesBodyOutputs(r, i, |rem|);
      BodyShows(Outputs(r, i), i.data, v, i.last);
    case AtLength =>
      PrimaryInLane(i.data, v);
      GatesAlign(r, i);
    case MidLength =>
      PrimaryInLane(i.data, v);
      GatesSplit(r, i);
  }

  lemma GatesLast(r: Regs, i: Input, n: nat)
    requires InBody(r, n) && 1 <= n <= BEAT && Plain(i) && i.last
    ensures Drained(Next(r, i), n)
  {
    assert n % BEAT == if n == BEAT then 0 else n;
  }

  /**
   A clock without input, in any state: nothing is shown, but the length counts down and the
   state goes on as if a beat had come, so that a gap inside a packet loses eight bytes.
   */
  lemma GatesQuiet(r: Regs, i: Input)
    requires !i.valid
    ensures var n, ends := Next(r, i), r.msgLen <= 8 && !i.init;
            && n.msgLen == (if ends then 0 else (r.msgLen - 8) % 0x1_0000)
            && n.invalid == r.invalid
            && (n.lenAlign <==> r.msg && ends && r.msgLen == 8)
            && (n.lenSplit <==> r.msg && ends && r.msgLen == 7)
            && (n.msg <==> r.lenAlign || r.lenSplit || (r.msg && !(ends && 7 <= r.msgLen <= 8) && !i.last))
    ensures var o := Outputs(r, i); !o.valid && !o.ovValid && !o.msgEnd
  {
    hide InitLen, LenShifted;
  }

  /**
   The state behind a last beat, whatever came before: waiting, and beside that align or split
   if a message of eight or seven bytes was open; no message stays open.
   */
  lemma GatesLastAny(r: Regs, i: Input)
    requires i.valid && i.last
    ensures var n := Next(r, i);
            && n.invalid && !n.msg
            && (n.lenAlign <==> r.msg && r.msgLen == 8 && !i.init)
            && (n.lenSplit <==> r.msg && r.msgLen == 7 && !i.init)
  {
    hide MsgLenNext, LenShifted;
  }

  lemma StepDrained(r: Regs, i: Input, v: View)
    requires v.Ok() && v.Clear() && Matches(r, v) && Plain(i) && i.last && |v.Unread()| <= BEAT
    ensures Drained(Next(r, i), |v.Unread()|)
  {
    LastBeatIsBody(v);
    GatesLast(r, i, |v.pos.rem|);
  }

  /** No selected subtraction of the length logic goes below zero. */
  predicate NoWrap(r: Regs, i: Input) {
    && (i.init ==> Pair(i.data[4], i.data[5]) >= 2)
    && (r.msg && PloadOverlap(r, i) && !i.last ==> LenShifted(r, i) >= MsgOverlapLen(r))
    && (r.lenAlign ==> Pair(i.data[0], i.data[1]) >= 6)
    && (r.lenSplit ==> Pair(r.splitHalf, i.data[0]) >= 7)
    && (r.msg && !SelMsgEnd(r, i) ==> r.msgLen >= 8)
  }

  lemma StepNoWrap(r: Regs, i: Input, v: View)
    requires v.Ok() && v.Clear() && Matches(r, v) && Plain(i) && !v.Spent()
    requires Carries(i.data, v.Unread()) && i.last == (|v.Unread()| <= BEAT)
    ensures NoWrap(r, i)
  {
    if i.last { LastBeatIsBody(v); }
    match v.pos
    case Body(rem, _) =>
      if |rem| <= BEAT { WiresEnd(r, i, |rem|); }
      if |rem| <= 5 && !i.last { FieldInLane(i.data, rem, v.rest); }
    case AtLength => LengthField(v.rest);
    case MidLength => LengthField(v.rest);
  }
}
