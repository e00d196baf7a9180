/**
 The trading decision of handle_packet in kernel.c: what a packet quotes, when a quote
 becomes an order, and what a whole run of packets sends.
 */
module Book {
  import opened Bytes
  import opened MoldFormat

  const TWO_32 := 0x1_0000_0000

  const AAPL_LOCATE := 0x0042
  const MOLD_OFFSET_LEN := 8
  const MOLD_OFFSET_PAYLOAD := 12
  const ITCH_PAYLOAD_LEN := 11
  const PKT_MIN_LEN := MOLD_OFFSET_PAYLOAD + ITCH_PAYLOAD_LEN
  const PKT_BUF_SIZE := 64

  datatype Quote = Quote(price: nat, shares: nat)

  /** The fields of OuchEnter that vary. */
  datatype Order = Order(id: nat, price: nat, shares: nat)

  /** best_bid_price, best_bid_shares, next_order_id */
  datatype State = State(best: nat, bestShares: nat, nextId: nat)

  const START := State(0, 0, 1)

  /** The 15 bytes that handle_packet reads, from the length field on. */
  function DecodeFields(f: seq<Byte>): Option<Quote>
    requires |f| == PKT_MIN_LEN - MOLD_OFFSET_LEN
  {
    if BigEndian(f[..4]) != ITCH_PAYLOAD_LEN then None
    else if f[4] != 'A' as int || LittleEndian(f[5..7]) != AAPL_LOCATE then None
    else Some(Quote(LittleEndian(f[7..11]), LittleEndian(f[11..15])))
  }

  /** The quote of a packet, if it is long enough, well formed, an 'A' message and for AAPL. */
  function Decode(packet: seq<Byte>): Option<Quote> {
    if |packet| < PKT_MIN_LEN then None else DecodeFields(packet[MOLD_OFFSET_LEN..PKT_MIN_LEN])
  }

  /** A quote above the best bid becomes the best bid, and an order. */
  function Offer(s: State, q: Quote): (State, Option<Order>) {
    if q.price <= s.best then (s, None)
    else (State(q.price, q.shares, (s.nextId + 1) % TWO_32), Some(Order(s.nextId, q.price, q.shares)))
  }

  function Handle(s: State, packet: seq<Byte>): (State, Option<Order>) {
    match Decode(packet)
    case None => (s, None)
    case Some(q) => Offer(s, q)
  }

  function AsSeq(o: Option<Order>): seq<Order> {
    if o.Some? then [o.value] else []
  }

  /** The state after a run of packets, latest last. */
  function After(packets: seq<seq<Byte>>): State {
    if packets == [] then START
    else Handle(After(packets[..|packets| - 1]), packets[|packets| - 1]).0
  }

  /** The orders of a run of packets. */
  function Orders(packets: seq<seq<Byte>>): seq<Order> {
    if packets == [] then []
    else
      var before := packets[..|packets| - 1];
      Orders(before) + AsSeq(Handle(After(before), packets[|packets| - 1]).1)
  }

  // ----- what the orders of a run are -----

  /** The quotes among the packets, in order. */
  function Quotes(packets: seq<seq<Byte>>): seq<Quote> {
    if packets == [] then []
    else
      var q := Decode(packets[|packets| - 1]);
      Quotes(packets[..|packets| - 1]) + (if q.Some? then [q.value] else [])
  }

  /** A price above zero and above all prices before it. */
  predicate NewBest(qs: seq<Quote>, j: nat)
    requires j < |qs|
  {
    qs[j].price > 0 && forall i | 0 <= i < j :: qs[i].price < qs[j].price
  }

  /** The strict running maxima. */
  function RunningBests(qs: seq<Quote>): seq<Quote> {
    if qs == [] then []
    else
      var n := |qs| - 1;
      RunningBests(qs[..n]) + (if NewBest(qs, n) then [qs[n]] else [])
  }

  /** Quotes as orders, numbered from 1. */
  function Numbered(qs: seq<Quote>): (os: seq<Order>)
    ensures |os| == |qs|
  {
    seq(|qs|, k requires 0 <= k < |qs| => Order(k + 1, qs[k].price, qs[k].shares))
  }

  /** A price bound that every quote meets and, unless it is zero, some quote attains. */
  predicate IsBest(qs: seq<Quote>, best: nat) {
    && (forall i | 0 <= i < |qs| :: qs[i].price <= best)
    && (best > 0 ==> exists i :: 0 <= i < |qs| && qs[i].price == best)
  }

  /** Prices increase strictly, so the k-th is more than k. */
  predicate Climbs(qs: seq<Quote>, best: nat) {
    && (forall i, j | 0 <= i < j < |qs| :: qs[i].price < qs[j].price)
    && (forall k | 0 <= k < |qs| :: k < qs[k].price <= best)
    && (qs == [] ==> best == 0) && (qs != [] ==> qs[|qs| - 1].price == best)
  }

  lemma FieldBound(s: seq<Byte>)
    requires |s| == 4
    ensures LittleEndian(s) < TWO_32
  {
    BigEndianBound(Reverse(s));
    assert Radix(4) == TWO_32;
  }

  /** Where handle_packet's fields lie among the bytes from the length field on. */
  lemma FieldsWithin(p: seq<Byte>)
    requires |p| >= 23
    ensures var f := p[MOLD_OFFSET_LEN..PKT_MIN_LEN];
            && f[..4] == p[8..12] && f[4] == p[12] && f[5..7] == p[13..15]
            && f[7..11] == p[15..19] && f[11..15] == p[19..23]
  {
    var f := p[MOLD_OFFSET_LEN..PKT_MIN_LEN];
    assert forall k | 0 <= k < 15 :: f[k] == p[8 + k];
    assert f[..4] == p[8..12];
    assert f[5..7] == p[13..15];
    assert f[7..11] == p[15..19];
    assert f[11..15] == p[19..23];
  }

  lemma DecodeBound(packet: seq<Byte>)
    requires Decode(packet).Some?
    ensures Decode(packet).value.price < TWO_32
  {
    FieldBound(packet[MOLD_OFFSET_LEN..PKT_MIN_LEN][7..11]);
  }

  /** A run cut before its last packet. */
  lemma OneMore(packets: seq<seq<Byte>>, packet: seq<Byte>)
    ensures var s := After(packets);
            var q := Decode(packet);
            && After(packets + [packet]) == Handle(s, packet).0
            && Orders(packets + [packet]) == Orders(packets) + AsSeq(Handle(s, packet).1)
            && Quotes(packets + [packet]) == Quotes(packets) + (if q.Some? then [q.value] else [])
            && Quoting(packets + [packet]) == Quoting(packets) + (if q.Some? then [packet] else [])
  {
    hide Handle, Decode;
    assert (packets + [packet])[..|packets|] == packets;
  }

  /** What the state, the quotes and the orders of a run have to do with each other. */
  ghost predicate Tracks(s: State, qs: seq<Quote>, orders: seq<Order>) {
    var bests := RunningBests(qs);
    && s.best < TWO_32 && IsBest(qs, s.best) && Climbs(bests, s.best)
    && orders == Numbered(bests)
    && |bests| <= s.best
    && s.nextId == (|bests| + 1) % TWO_32
    && s.bestShares == (if bests == [] then 0 else bests[|bests| - 1].shares)
  }

  lemma NewBestIff(qs: seq<Quote>, q: Quote, best: nat)
    requires IsBest(qs, best)
    ensures NewBest(qs + [q], |qs|) <==> q.price > best
    ensures IsBest(qs + [q], if q.price > best then q.price else best)
    ensures RunningBests(qs + [q]) == RunningBests(qs) + (if q.price > best then [q] else [])
  {
    var all := qs + [q];
    assert all[..|qs|] == qs && all[|qs|] == q;
    assert forall i | 0 <= i < |qs| :: all[i] == qs[i];
    if best > 0 {
      var i :| 0 <= i < |qs| && qs[i].price == best;
      assert all[i].price == best;
    }
  }

  lemma ClimbsHigher(bests: seq<Quote>, best: nat, q: Quote)
    requires Climbs(bests, best) && q.price > best && |bests| <= best
    ensures Climbs(bests + [q], q.price) && |bests + [q]| <= q.price
  {}

  lemma NumberedMore(qs: seq<Quote>, q: Quote)
    ensures Numbered(qs + [q]) == Numbered(qs) + [Order(|qs| + 1, q.price, q.shares)]
  {}

  lemma TracksOffer(s: State, qs: seq<Quote>, orders: seq<Order>, q: Quote)
    requires Tracks(s, qs, orders) && q.price < TWO_32
    ensures Tracks(Offer(s, q).0, qs + [q], orders + AsSeq(Offer(s, q).1))
  {
    hide IsBest, Climbs, RunningBests, NewBest;
    NewBestIff(qs, q, s.best);
    var bests := RunningBests(qs);
    if q.price > s.best {
      ClimbsHigher(bests, s.best, q);
      NumberedMore(bests, q);
      assert Offer(s, q).1 == Some(Order(|bests| + 1, q.price, q.shares));
    } else {
      assert bests + [] == bests && orders + [] == orders;
    }
  }

  lemma TracksHandle(s: State, qs: seq<Quote>, orders: seq<Order>, packet: seq<Byte>)
    requires Tracks(s, qs, orders)
    ensures var q := Decode(packet);
            Tracks(Handle(s, packet).0, qs + (if q.Some? then [q.value] else []),
                   orders + AsSeq(Handle(s, packet).1))
  {
    hide Tracks, Decode, Offer;
    if Decode(packet).Some? {
      DecodeBound(packet);
      TracksOffer(s, qs, orders, Decode(packet).value);
    } else {
      assert qs + [] == qs && orders + [] == orders;
    }
  }

  lemma {:induction false} TracksRun(packets: seq<seq<Byte>>)
    ensures Tracks(After(packets), Quotes(packets), Orders(packets))
  {
    hide Decode, Offer;
    if packets == [] {
      assert Numbered([]) == [];
    } else {
      hide Tracks, RunningBests, NewBest, Numbered, Handle;
      var before, packet := packets[..|packets| - 1], packets[|packets| - 1];
      TracksRun(before);
      OneMore(before, packet);
      assert packets == before + [packet];
      TracksHandle(After(before), Quotes(before), Orders(before), packet);
    }
  }

  /**
   Over any run, the orders are exactly the strict running maxima of the quoted prices,
   each with the shares of its own quote, numbered 1, 2, 3, ...
   */
  lemma OrdersAreRunningBests(packets: seq<seq<Byte>>)
    ensures Orders(packets) == Numbered(RunningBests(Quotes(packets)))
  {
    TracksRun(packets);
  }

  /** The best bid is the last running maximum, with its own shares; nothing is bid before the first. */
  lemma BestBid(packets: seq<seq<Byte>>)
    ensures var bests, s := RunningBests(Quotes(packets)), After(packets);
            if bests == [] then s == State(0, 0, 1)
            else s.best == bests[|bests| - 1].price && s.bestShares == bests[|bests| - 1].shares
                 && s.nextId == (|bests| + 1) % 0x1_0000_0000
  {
    hide After, Orders, Quotes, RunningBests, IsBest;
    TracksRun(packets);
  }

  /** Order prices strictly increase. */
  lemma OrderPricesIncrease(packets: seq<seq<Byte>>, i: nat, j: nat)
    requires i < j < |Orders(packets)|
    ensures Orders(packets)[i].price < Orders(packets)[j].price
  {
    hide After, Orders, Quotes, RunningBests, IsBest;
    TracksRun(packets);
  }

  /**
   No order id is used twice, in a run of any length: the ids are numbers from 1 to the
   best price, and the 32-bit counter has wrapped only when no higher price is left.
   */
  lemma OrderIdsNeverWrap(packets: seq<seq<Byte>>)
    ensures |Orders(packets)| <= After(packets).best < TWO_32
    ensures forall k | 0 <= k < |Orders(packets)| :: Orders(packets)[k].id == k + 1 < TWO_32
    ensures After(packets).nextId == 0 ==> After(packets).best == TWO_32 - 1
  {
    hide After, Orders, Quotes, RunningBests, IsBest, Climbs;
    TracksRun(packets);
  }

  // ----- packets that quote nothing -----

  function Quoting(packets: seq<seq<Byte>>): seq<seq<Byte>> {
    if packets == [] then []
    else
      var packet := packets[|packets| - 1];
      Quoting(packets[..|packets| - 1]) + (if Decode(packet).Some? then [packet] else [])
  }

  lemma IgnoredHere(s: State, packet: seq<Byte>)
    requires Decode(packet).None?
    ensures Handle(s, packet) == (s, None) && AsSeq(Handle(s, packet).1) == []
  {}

  /** Short, malformed, corrupted or foreign packets change neither the best bid nor the orders. */
  lemma {:induction false} OthersAreIgnored(packets: seq<seq<Byte>>)
    ensures After(packets) == After(Quoting(packets)) && Orders(packets) == Orders(Quoting(packets))
  {
    hide Handle, Decode;
    if packets != [] {
      var before, packet := packets[..|packets| - 1], packets[|packets| - 1];
      OthersAreIgnored(before);
      assert packets == before + [packet];
      OneMore(before, packet);
      if Decode(packet).Some? {
        OneMore(Quoting(before), packet);
      } else {
        IgnoredHere(After(before), packet);
        assert Quoting(before) + [] == Quoting(before) && Orders(before) + [] == Orders(before);
      }
    }
  }

  /** A 32-bit number by its bytes, most significant first. */
  function Word32(b3: int, b2: int, b1: int, b0: int): int {
    0x100_0000 * b3 + 0x1_0000 * b2 + 0x100 * b1 + b0
  }

  lemma FourBytes(s: seq<Byte>)
    requires |s| == 4
    ensures BigEndian(s) == Word32(s[0], s[1], s[2], s[3])
  {
    BigEndian2(s[..2]);
    assert s[..3][..2] == s[..2];
    assert BigEndian(s[..3]) == 256 * BigEndian(s[..2]) + s[2];
  }

  lemma FourBytesLittle(s: seq<Byte>)
    requires |s| == 4
    ensures LittleEndian(s) == Word32(s[3], s[2], s[1], s[0])
  {
    FourBytes(Reverse(s));
  }

  /**
   Which packets quote, and what: 23 bytes or more, of which the length field is 11, the
   type is 'A' and the locate code 0x0042; price and shares lie behind, low byte first.
   */
  lemma DecodeExactly(p: seq<Byte>)
    ensures Decode(p).Some? <==>
              |p| >= 23 && p[8..12] == [0, 0, 0, 11] && p[12] == 65 && p[13..15] == [0x42, 0]
    ensures Decode(p).Some? ==>
              && Decode(p).value.price == Word32(p[18], p[17], p[16], p[15])
              && Decode(p).value.shares == Word32(p[22], p[21], p[20], p[19])
  {
    if |p| >= 23 {
      FieldsWithin(p);
      FourBytes(p[8..12]);
      BigEndian2(Reverse(p[13..15]));
      FourBytesLittle(p[15..19]);
      FourBytesLittle(p[19..23]);
      hide BigEndian, LittleEndian;
    }
  }

  /** Only the length that was delivered matters, not what lies behind it in the buffer. */
  lemma DecodeIgnoresRest(buffer: seq<Byte>, n: nat)
    requires PKT_MIN_LEN <= n <= |buffer|
    ensures Decode(buffer[..n]) == DecodeFields(buffer[MOLD_OFFSET_LEN..PKT_MIN_LEN])
  {
    assert buffer[..n][MOLD_OFFSET_LEN..PKT_MIN_LEN] == buffer[MOLD_OFFSET_LEN..PKT_MIN_LEN];
  }
}
