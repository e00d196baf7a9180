/** The packet generator, moldudp64generator.py, against the kernel's decoder. */
module Generator {
  import opened Bytes
  import opened MoldFormat
  import opened Book

  const TOTAL_BYTES := 128
  const TWO_64 := 0x1_0000_0000_0000_0000

  datatype Fields = Fields(session: int, msgType: int, locate: int, price: int, shares: int) {
    /** Each field fits its bytes; the message type is one ASCII character. */
    predicate InRange() {
      && 0 <= session < TWO_64
      && 0 <= msgType < 128
      && 0 <= locate < 0x1_0000
      && 0 <= price < TWO_32
      && 0 <= shares < TWO_32
    }
  }

  /** The packet's bytes: session and length big endian, price and shares little endian. */
  function RawPacket(f: Fields, malformed: bool, corrupt: bool): seq<Byte>
    requires f.InRange()
  {
    ToBigEndian(f.session, 8)
    + ToBigEndian(if malformed then TOTAL_BYTES + 1 else ITCH_PAYLOAD_LEN, 4)
    + [if corrupt then 255 - f.msgType else f.msgType]
    + ToLittleEndian(f.locate, 2) + ToLittleEndian(f.price, 4) + ToLittleEndian(f.shares, 4)
  }

  /** The packet has each field where the kernel looks for it. */
  predicate Holds(p: seq<Byte>, f: Fields, malformed: bool, corrupt: bool) {
    && |p| == 23
    && BigEndian(p[..8]) == f.session
    && BigEndian(p[8..12]) == (if malformed then 129 else 11)
    && p[12] == (if corrupt then 255 - f.msgType else f.msgType)
    && LittleEndian(p[13..15]) == f.locate
    && LittleEndian(p[15..19]) == f.price
    && LittleEndian(p[19..23]) == f.shares
  }

  /** Fields that some packet holds fit their bytes. */
  lemma HeldInRange(p: seq<Byte>, f: Fields, malformed: bool, corrupt: bool)
    requires 0 <= f.msgType < 128 && Holds(p, f, malformed, corrupt)
    ensures f.InRange()
  {
    Radixes();
    BigEndianBound(p[..8]);
    BigEndianBound(Reverse(p[13..15]));
    BigEndianBound(Reverse(p[15..19]));
    BigEndianBound(Reverse(p[19..23]));
    hide BigEndian;
  }

  /** make_raw_packet; None stands for the exception on a field that does not fit. */
  method MakeRawPacket(f: Fields, malformed: bool, corrupt: bool) returns (packet: Option<seq<Byte>>)
    ensures packet.Some? <==> 0 <= f.msgType < 128 && exists p :: Holds(p, f, malformed, corrupt)
    ensures packet.Some? <==> f.InRange()
    ensures packet.Some? ==> packet.value == RawPacket(f, malformed, corrupt)
    ensures packet.Some? ==> Holds(packet.value, f, malformed, corrupt)
  {
    hide BigEndian, ToBigEndian, ToLittleEndian, LittleEndian;
    if !f.InRange() {
      forall p | 0 <= f.msgType < 128 && Holds(p, f, malformed, corrupt) ensures false {
        HeldInRange(p, f, malformed, corrupt);
      }
      return None;
    }
    var pkt := ToBigEndian(f.session, 8);
    var length := 1 + 2 + 4 + 4;
    if malformed {
      length := TOTAL_BYTES + 1;
    }
    pkt := pkt + ToBigEndian(length, 4);
    var payload: seq<Byte> := [];
    payload := payload + [f.msgType];
    payload := payload + ToLittleEndian(f.locate, 2);
    payload := payload + ToLittleEndian(f.price, 4);
    payload := payload + ToLittleEndian(f.shares, 4);
    if corrupt {
      payload := payload[0 := 255 - payload[0]];   // exclusive or with 0xFF
    }
    pkt := pkt + payload;
    assert pkt == RawPacket(f, malformed, corrupt);
    PacketFields(f, malformed, corrupt);
    hide Holds, RawPacket;
    return Some(pkt);
  }

  lemma Radixes()
    ensures Radix(2) == 0x1_0000 && Radix(4) == TWO_32 && Radix(8) == TWO_64
  {}

  /** Where the fields lie in the packet. */
  lemma PacketFields(f: Fields, malformed: bool, corrupt: bool)
    requires f.InRange()
    ensures Holds(RawPacket(f, malformed, corrupt), f, malformed, corrupt)
  {
    hide BigEndian;
    Radixes();
    var length := if malformed then TOTAL_BYTES + 1 else ITCH_PAYLOAD_LEN;
    var kind := if corrupt then 255 - f.msgType else f.msgType;
    Slices(ToBigEndian(f.session, 8), ToBigEndian(length, 4), kind,
           ToLittleEndian(f.locate, 2), ToLittleEndian(f.price, 4), ToLittleEndian(f.shares, 4));
    BigEndianRoundTrip(f.session, 8);
    BigEndianRoundTrip(length, 4);
    LittleEndianRoundTrip(f.locate, 2);
    LittleEndianRoundTrip(f.price, 4);
    LittleEndianRoundTrip(f.shares, 4);
  }

  lemma Slices(session: seq<Byte>, length: seq<Byte>, kind: Byte,
               locate: seq<Byte>, price: seq<Byte>, shares: seq<Byte>)
    requires |session| == 8 && |length| == 4 && |locate| == 2 && |price| == 4 && |shares| == 4
    ensures var p := session + length + [kind] + locate + price + shares;
            && |p| == 23 && p[..8] == session && p[8..12] == length && p[12] == kind
            && p[13..15] == locate && p[15..19] == price && p[19..23] == shares
  {
    var p := session + length + [kind] + locate + price + shares;
    assert p[13..15] == locate;
    assert p[15..19] == price;
    assert p[19..23] == shares;
  }

  /**
   The kernel reads back exactly the price and shares that went in, and only from an
   intact 'A' packet for AAPL; every malformed or corrupted packet quotes nothing.
   */
  lemma KernelDecodesPacket(f: Fields, malformed: bool, corrupt: bool)
    requires f.InRange()
    ensures Decode(RawPacket(f, malformed, corrupt))
         == if !malformed && !corrupt && f.msgType == 65 && f.locate == 0x42
            then Some(Quote(f.price, f.shares)) else None
  {
    PacketFields(f, malformed, corrupt);
    FieldsWithin(RawPacket(f, malformed, corrupt));
  }

  /** Malformed and corrupted packets, at any places of a run, change neither best bid nor orders. */
  lemma FaultsAreIgnored(before: seq<seq<Byte>>, f: Fields, malformed: bool, corrupt: bool, behind: seq<seq<Byte>>)
    requires f.InRange() && (malformed || corrupt)
    ensures var with := before + [RawPacket(f, malformed, corrupt)] + behind;
            After(with) == After(before + behind) && Orders(with) == Orders(before + behind)
  {
    KernelDecodesPacket(f, malformed, corrupt);
    var packet := RawPacket(f, malformed, corrupt);
    OthersAreIgnored(before + [packet] + behind);
    OthersAreIgnored(before + behind);
    QuotingWithout(before, packet, behind);
  }

  lemma {:induction false} QuotingWithout(before: seq<seq<Byte>>, packet: seq<Byte>, behind: seq<seq<Byte>>)
    requires Decode(packet).None?
    ensures Quoting(before + [packet] + behind) == Quoting(before + behind)
    decreases |behind|
  {
    hide Decode, RawPacket;
    if behind == [] {
      OneMore(before, packet);
      assert before + [packet] + behind == before + [packet] && before + behind == before;
    } else {
      var most, last := behind[..|behind| - 1], behind[|behind| - 1];
      QuotingWithout(before, packet, most);
      assert before + [packet] + behind == before + [packet] + most + [last];
      assert before + behind == before + most + [last];
      OneMore(before + [packet] + most, last);
      OneMore(before + most, last);
    }
  }
}
