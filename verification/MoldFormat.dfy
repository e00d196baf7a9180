/**
 The downstream packet of MoldUDP64: a 20-byte header (session, sequence number,
 message count, all big endian) and then one block per message, a 2-byte length
 followed by that many bytes.  Encode is the format; Parse is the reader against
 which the streaming receiver is judged.
 */
module MoldFormat {
  import opened Bytes

  datatype Option<+T> = None | Some(value: T)

  type Message = seq<Byte>

  /** session holds the ten bytes in the order they have on the wire. */
  datatype Packet = Packet(session: seq<Byte>, seqNum: nat, messages: seq<Message>) {
    /** Every field fits its place in the format. */
    predicate Fits() {
      && |session| == 10
      && seqNum < Radix(8)
      && |messages| < 0x1_0000
      && AllFit(messages)
    }
  }

  predicate AllFit(ms: seq<Message>) {
    forall k | 0 <= k < |ms| :: |ms[k]| < 0x1_0000
  }

  function Block(m: Message): (s: seq<Byte>)
    ensures |s| == 2 + |m|
  {
    ToBigEndian(|m|, 2) + m
  }

  function Blocks(ms: seq<Message>): seq<Byte> {
    if ms == [] then [] else Block(ms[0]) + Blocks(ms[1..])
  }

  const HEADER_LENGTH := 20

  function Header(p: Packet): (s: seq<Byte>)
    ensures |s| == |p.session| + 10
  {
    p.session + ToBigEndian(p.seqNum, 8) + ToBigEndian(|p.messages|, 2)
  }

  function Encode(p: Packet): seq<Byte> {
    Header(p) + Blocks(p.messages)
  }

  /** Reads exactly n message blocks that fill s. */
  function ParseBlocks(s: seq<Byte>, n: nat): Option<seq<Message>> {
    if n == 0 then
      if s == [] then Some([]) else None
    else if |s| < 2 then
      None
    else
      var end := 2 + BigEndian(s[..2]);
      if |s| < end then None
      else match ParseBlocks(s[end..], n - 1)
        case None => None
        case Some(ms) => Some([s[2..end]] + ms)
  }

  function Parse(s: seq<Byte>): Option<Packet> {
    if |s| < HEADER_LENGTH then None
    else match ParseBlocks(s[HEADER_LENGTH..], BigEndian(s[18..20]))
      case None => None
      case Some(ms) => Some(Packet(s[..10], BigEndian(s[10..18]), ms))
  }

  function MessageBytes(ms: seq<Message>): nat {
    if ms == [] then 0 else |ms[0]| + MessageBytes(ms[1..])
  }

  lemma {:induction false} BlocksLength(ms: seq<Message>)
    ensures |Blocks(ms)| == 2 * |ms| + MessageBytes(ms)
  {
    if ms != [] { BlocksLength(ms[1..]); }
  }

  lemma {:induction false} BlocksAppend(ms: seq<Message>, m: Message)
    ensures Blocks(ms + [m]) == Blocks(ms) + Block(m)
  {
    if ms == [] {
      assert ms + [m] == [m];
      assert Blocks([m]) == Block(m) + Blocks([]);
    } else {
      BlocksAppend(ms[1..], m);
      assert (ms + [m])[1..] == ms[1..] + [m];
    }
  }

  lemma BlockLengthField(m: Message)
    requires |m| < 0x1_0000
    ensures BigEndian(Block(m)[..2]) == |m|
  {
    Radix2();
    assert Block(m)[..2] == ToBigEndian(|m|, 2);
    BigEndianRoundTrip(|m|, 2);
  }

  lemma {:induction false} ParseBlocksOfBlocks(ms: seq<Message>)
    requires AllFit(ms)
    ensures ParseBlocks(Blocks(ms), |ms|) == Some(ms)
  {
    if ms != [] {
      var s := Blocks(ms);
      BlockLengthField(ms[0]);
      assert s[..2] == Block(ms[0])[..2];
      assert s[2..2 + |ms[0]|] == ms[0];
      assert s[2 + |ms[0]|..] == Blocks(ms[1..]);
      ParseBlocksOfBlocks(ms[1..]);
      assert [ms[0]] + ms[1..] == ms;
    }
  }

  /** The two length bytes and the bytes they announce are a block again. */
  lemma BlockOfSlice(s: seq<Byte>)
    requires |s| >= 2 && |s| >= 2 + BigEndian(s[..2])
    ensures var end := 2 + BigEndian(s[..2]);
            |s[2..end]| < 0x1_0000 && Block(s[2..end]) == s[..end]
  {
    var end := 2 + BigEndian(s[..2]);
    Radix2();
    BigEndianBound(s[..2]);
    ToBigEndianRoundTrip(s[..2]);
    assert s[..2] + s[2..end] == s[..end];
  }

  lemma {:induction false} BlocksOfParseBlocks(s: seq<Byte>, n: nat)
    requires ParseBlocks(s, n).Some?
    ensures var ms := ParseBlocks(s, n).value; |ms| == n && AllFit(ms) && Blocks(ms) == s
  {
    if n > 0 {
      var end := 2 + BigEndian(s[..2]);
      BlocksOfParseBlocks(s[end..], n - 1);
      var rest := ParseBlocks(s[end..], n - 1).value;
      var ms := [s[2..end]] + rest;
      assert ParseBlocks(s, n) == Some(ms);
      assert ms[1..] == rest;
      BlockOfSlice(s);
      assert Blocks(ms) == s[..end] + s[end..];
    }
  }

  lemma EncodeFields(p: Packet)
    requires p.Fits()
    ensures var s := Encode(p);
            && |s| == HEADER_LENGTH + |Blocks(p.messages)|
            && s[..10] == p.session
            && BigEndian(s[10..18]) == p.seqNum
            && BigEndian(s[18..20]) == |p.messages|
            && s[HEADER_LENGTH..] == Blocks(p.messages)
  {
    Radix2();
    var s := Encode(p);
    assert s[10..18] == ToBigEndian(p.seqNum, 8);
    assert s[18..20] == ToBigEndian(|p.messages|, 2);
    BigEndianRoundTrip(p.seqNum, 8);
    BigEndianRoundTrip(|p.messages|, 2);
  }

  lemma ParseOfEncode(p: Packet)
    requires p.Fits()
    ensures Parse(Encode(p)) == Some(p)
  {
    EncodeFields(p);
    ParseBlocksOfBlocks(p.messages);
  }

  lemma EncodeOfParse(s: seq<Byte>)
    requires Parse(s).Some?
    ensures Parse(s).value.Fits() && Encode(Parse(s).value) == s
  {
    BlocksOfParseBlocks(s[HEADER_LENGTH..], BigEndian(s[18..20]));
    Radix2();
    BigEndianBound(s[18..20]);
    BigEndianBound(s[10..18]);
    ToBigEndianRoundTrip(s[18..20]);
    ToBigEndianRoundTrip(s[10..18]);
    assert s == s[..10] + s[10..18] + s[18..20] + s[HEADER_LENGTH..];
  }

  /**
   Parsing inverts encoding and encoding inverts parsing: a byte string parses to p
   exactly when it is the encoding of p.
   */
  lemma ParseIffEncode(s: seq<Byte>, p: Packet)
    ensures Parse(s) == Some(p) <==> p.Fits() && s == Encode(p)
  {
    hide Parse, Encode, Packet.Fits;
    if p.Fits() { ParseOfEncode(p); }
    if Parse(s).Some? { EncodeOfParse(s); }
  }

  /** Two packets that fit the format and have the same encoding are the same packet. */
  lemma EncodeInjective(p: Packet, q: Packet)
    requires p.Fits() && q.Fits() && Encode(p) == Encode(q)
    ensures p == q
  {
    ParseIffEncode(Encode(p), p);
    ParseIffEncode(Encode(p), q);
  }
}
