/** The packet builder of the test bench, moldudp64.c. */
module Encoder {
  import opened Bytes
  import opened MoldFormat
  import opened Receiver

  /** MOLDUDP64_MSG_CNT_MAX */
  const MSG_CNT_MAX := 100

  predicate AllSome(s: seq<Option<Message>>) {
    forall k | 0 <= k < |s| :: s[k].Some?
  }

  function Values(s: seq<Option<Message>>): (ms: seq<Message>)
    requires AllSome(s)
    ensures |ms| == |s| && forall k | 0 <= k < |s| :: ms[k] == s[k].value
  {
    seq(|s|, k requires 0 <= k < |s| => s[k].value)
  }

  /** moldudp64_get_debug_id: sequence number, then session id, both least significant byte first. */
  function DebugIdBytes(sid: seq<Byte>, seqNum: nat, offset: nat): seq<Byte>
    requires |sid| == 10 && seqNum + offset < TWO_64
  {
    ToLittleEndian(seqNum + offset, 8) + sid
  }

  lemma Radix8()
    ensures Radix(8) == TWO_64
  {}

  lemma ReverseConcat(a: seq<Byte>, b: seq<Byte>)
    ensures Reverse(a + b) == Reverse(b) + Reverse(a)
  {}

  /** As a number it is { sid, seq } of the receiver, on the message of that offset. */
  lemma DebugIdValue(sid: seq<Byte>, seqNum: nat, offset: nat)
    requires |sid| == 10 && seqNum + offset < TWO_64
    ensures LittleEndian(DebugIdBytes(sid, seqNum, offset))
         == MessageId(BigEndian(Reverse(sid)), (seqNum + offset) % TWO_64).DebugId()
  {
    hide ToBigEndian;
    var n := seqNum + offset;
    var low := ToLittleEndian(n, 8);
    ReverseConcat(low, sid);
    BigEndianConcat(Reverse(sid), Reverse(low));
    Radix8();
    LittleEndianRoundTrip(n, 8);
    assert LittleEndian(low) == n && n % TWO_64 == n;
  }

  /** memcpy of a whole byte string into dst at position at. */
  method CopyBytes(dst: array<Byte>, at: nat, src: seq<Byte>)
    requires at + |src| <= dst.Length
    modifies dst
    ensures dst[..at + |src|] == old(dst[..at]) + src
    ensures dst[at + |src|..] == old(dst[at + |src|..])
  {
    for k := 0 to |src|
      invariant dst[..at + k] == old(dst[..at]) + src[..k]
      invariant forall j | at + k <= j < dst.Length :: dst[j] == old(dst[j])
    {
      dst[at + k] := src[k];
      assert dst[..at + k + 1] == dst[..at + k] + [src[k]];
    }
  }

  /** moldudp64_s.  msg[k] is set exactly for k below cnt. */
  class Mold {
    var sid: seq<Byte>
    var seqNum: nat
    var cnt: nat
    const msg: array<Option<Message>>

    ghost predicate Valid()
      reads this, msg
    {
      && msg.Length == MSG_CNT_MAX && cnt <= MSG_CNT_MAX
      && |sid| == 10 && seqNum < TWO_64
      && AllSome(msg[..cnt])
      && (forall k | 0 <= k < cnt :: msg[k].Some? && 0 < |msg[k].value| < 0x1_0000)
      && (forall k | cnt <= k < msg.Length :: msg[k] == None)
    }

    ghost function Messages(): seq<Message>
      requires Valid()
      reads this, msg
    {
      Values(msg[..cnt])
    }

    /** The packet that the structure stands for: the wire has the session id reversed. */
    ghost function AsPacket(): Packet
      requires Valid()
      reads this, msg
    {
      Packet(Reverse(sid), seqNum, Messages())
    }

    constructor (sid: seq<Byte>, seqNum: nat)
      requires |sid| == 10 && seqNum < TWO_64
      ensures Valid() && fresh(msg) && msg.Length == 100 && cnt == 0
      ensures this.sid == sid && this.seqNum == seqNum
    {
      this.sid, this.seqNum, cnt := sid, seqNum, 0;
      msg := new Option<Message>[MSG_CNT_MAX](_ => None);
    }

    method AddMsg(data: Message)
      requires Valid() && cnt < 100 && 0 < |data| < 0x1_0000
      modifies this, msg
      ensures Valid() && cnt == old(cnt) + 1 && sid == old(sid) && seqNum == old(seqNum)
      ensures Messages() == old(Messages()) + [data]
    {
      var k := cnt;
      cnt := cnt + 1;
      msg[k] := Some(data);
      assert msg[..cnt] == old(msg[..cnt]) + [Some(data)];
    }

    /** Drops the messages and counts them into the sequence number. */
    method Clear()
      requires Valid() && seqNum + cnt < TWO_64
      modifies this, msg
      ensures Valid() && cnt == 0 && Messages() == [] && sid == old(sid)
      ensures seqNum == old(seqNum) + old(cnt)
    {
      for i := 0 to cnt
        invariant cnt == old(cnt) && sid == old(sid) && seqNum == old(seqNum)
        invariant forall k | 0 <= k < i :: msg[k] == None
        invariant forall k | i <= k < msg.Length :: msg[k] == old(msg[k])
      {
        msg[i] := None;
      }
      seqNum := seqNum + cnt;
      cnt := 0;
      assert Messages() == [];
    }

    /** The session id with its bytes swapped end for end, two at a time. */
    method SwapSid() returns (be: array<Byte>)
      requires Valid()
      ensures fresh(be) && be[..] == Reverse(sid)
    {
      be := new Byte[10];
      var l, h := 0, 9;
      while l < h
        invariant l + h == 9 && 0 <= l <= 5
        invariant forall k | 0 <= k < l :: be[k] == sid[9 - k] && be[9 - k] == sid[k]
      {
        be[h] := sid[l];
        be[l] := sid[h];
        l, h := l + 1, h - 1;
      }
      assert forall k | 0 <= k < 10 :: be[k] == sid[9 - k];
    }

    /** The size of the flat packet. */
    method FlatSize() returns (size: nat)
      requires Valid()
      ensures size == |Encode(AsPacket())|
    {
      size := HEADER_LENGTH;
      for k := 0 to cnt
        invariant size == HEADER_LENGTH + |Blocks(Messages()[..k])|
      {
        size := size + 2;
        size := size + |msg[k].value|;
        assert Messages()[..k + 1] == Messages()[..k] + [msg[k].value];
        BlocksAppend(Messages()[..k], msg[k].value);
      }
      assert Messages()[..cnt] == Messages();
    }

    method WriteHeader(flat: array<Byte>) returns (pktCnt: nat)
      requires Valid() && flat.Length >= HEADER_LENGTH
      modifies flat
      ensures pktCnt == HEADER_LENGTH && flat[..pktCnt] == Header(AsPacket())
    {
      var sidBe := SwapSid();
      pktCnt := 0;
      CopyBytes(flat, pktCnt, sidBe[..]);
      pktCnt := pktCnt + 10;
      CopyBytes(flat, pktCnt, ToBigEndian(seqNum, 8));
      pktCnt := pktCnt + 8;
      CopyBytes(flat, pktCnt, ToBigEndian(cnt, 2));
      pktCnt := pktCnt + 2;
    }

    /** The blocks behind the header. */
    method WriteMessages(flat: array<Byte>, at: nat) returns (pktCnt: nat)
      requires Valid() && flat.Length == at + |Blocks(Messages())|
      modifies flat
      ensures pktCnt == flat.Length && flat[..] == old(flat[..at]) + Blocks(Messages())
    {
      hide Blocks, Block, Values;
      ghost var ms, head := Messages(), flat[..at];
      NoBlocks(ms);
      pktCnt := at;
      for k := 0 to cnt
        invariant Messages() == ms && flat.Length == at + |Blocks(ms)|
        invariant pktCnt == at + |Blocks(ms[..k])| <= flat.Length
        invariant flat[..pktCnt] == head + Blocks(ms[..k])
      {
        BlocksSplit(ms, k);
        MessageAt(k);
        pktCnt := WriteBlock(flat, pktCnt, msg[k].value);
        assert head + Blocks(ms[..k]) + Block(ms[k]) == head + (Blocks(ms[..k]) + Block(ms[k]));
      }
      assert ms[..cnt] == ms;
      assert flat[..] == flat[..pktCnt];
    }

    lemma MessageAt(k: nat)
      requires Valid() && k < cnt
      ensures |Messages()| == cnt && msg[k].Some? && msg[k].value == Messages()[k]
    {}

    /** Writes the packet into a buffer of its own. */
    method Flatten() returns (flat: array<Byte>)
      requires Valid()
      ensures fresh(flat) && flat[..] == Encode(AsPacket())
    {
      hide Header, Blocks, Values;
      var size := FlatSize();
      flat := new Byte[size];
      var pktCnt := WriteHeader(flat);
      HeaderLength();
      pktCnt := WriteMessages(flat, pktCnt);
    }

    lemma HeaderLength()
      requires Valid()
      ensures |Encode(AsPacket())| == HEADER_LENGTH + |Blocks(Messages())|
    {}
  }

  lemma NoBlocks(ms: seq<Message>)
    ensures Blocks(ms[..0]) == []
  {}

  method WriteBlock(flat: array<Byte>, at: nat, m: Message) returns (pktCnt: nat)
    requires at + 2 + |m| <= flat.Length
    modifies flat
    ensures pktCnt == at + 2 + |m| && flat[..pktCnt] == old(flat[..at]) + Block(m)
  {
    pktCnt := at;
    CopyBytes(flat, pktCnt, ToBigEndian(|m|, 2));
    pktCnt := pktCnt + 2;
    CopyBytes(flat, pktCnt, m);
    pktCnt := pktCnt + |m|;
  }

  /** The blocks up to message k, the block of message k, and room for both. */
  lemma BlocksSplit(ms: seq<Message>, k: nat)
    requires k < |ms|
    ensures Blocks(ms[..k + 1]) == Blocks(ms[..k]) + Block(ms[k])
    ensures |Blocks(ms[..k + 1])| <= |Blocks(ms)|
  {
    assert ms[..k + 1] == ms[..k] + [ms[k]];
    BlocksAppend(ms[..k], ms[k]);
    assert ms == ms[..k + 1] + ms[k + 1..];
    BlocksConcat(ms[..k + 1], ms[k + 1..]);
  }

  lemma {:induction false} BlocksConcat(a: seq<Message>, b: seq<Message>)
    ensures Blocks(a + b) == Blocks(a) + Blocks(b)
  {
    if a == [] {
      assert a + b == b;
    } else {
      assert (a + b)[1..] == a[1..] + b;
      BlocksConcat(a[1..], b);
    }
  }
}
