/** The beat splitter of the test bench, axis.c and axis.h. */
module Axis {
  import opened Bytes
  import opened Receiver
  import opened PacketProof
  import opened DispatchSteps
  import D = Dispatch

  /** size_t arithmetic wraps. */
  function SizeT(x: int): nat {
    x % TWO_64
  }

  predicate AxisMsgFinished(idx: nat, len: nat) {
    idx > SizeT(len - 1)
  }

  /** Whether the next beat is the last; the C code asserts the precondition. */
  predicate AxisMsgLast(idx: nat, len: nat)
    requires SizeT(len - 1) >= idx
  {
    SizeT(len - 1) - idx < 8
  }

  /** Finished means read to the end, except that an empty buffer is never finished. */
  lemma FinishedMeaning(idx: nat, len: nat)
    requires idx < TWO_64 && len < TWO_64
    ensures AxisMsgFinished(idx, len) <==> len > 0 && idx >= len
  {}

  /** The first n of eight keep bits. */
  predicate Thermometer(keep: seq<bool>, n: nat) {
    |keep| == 8 && forall k | 0 <= k < 8 :: keep[k] == (k < n)
  }

  function Min(a: nat, b: nat): nat {
    if a < b then a else b
  }

  /** Reads up to eight bytes at idx into a lane that is zero elsewhere. */
  method AxisGetNext64b(flat: array<Byte>, idx: nat) returns (buff: D.Lane, mask: seq<bool>, next: nat)
    requires idx < flat.Length < TWO_64 - 8
    ensures next == idx + 8
    ensures Carries(buff, flat[idx..])
    ensures forall k | flat.Length - idx <= k < 8 :: buff[k] == 0
    ensures Thermometer(mask, flat.Length - idx)
  {
    buff := [0, 0, 0, 0, 0, 0, 0, 0];
    mask := [false, false, false, false, false, false, false, false];
    var maxIdx := flat.Length - 1;
    next := idx + 8;
    var keep := if maxIdx <= next then (if maxIdx == next then 8 else maxIdx + 1 - idx) else 8;
    assert keep == Min(8, flat.Length - idx);
    var src := flat[idx..idx + keep];
    buff := src + buff[keep..];
    assert Carries(buff, flat[idx..]) by {
      assert keep < 8 ==> src == flat[idx..];
    }
    hide Carries;
    for i := 0 to keep
      invariant Thermometer(mask, i)
    {
      mask := mask[i := true];
    }
  }

  /** The beats are s cut in eights, with the keep bits of the bytes that belong to it. */
  predicate Framed(bs: seq<Beat>, s: seq<Byte>)
    decreases |s|
  {
    if s == [] then bs == []
    else bs != [] && CarriesBeat(bs[0], s) && Thermometer(bs[0].keep, |s|) && Framed(bs[1..], Behind(s))
  }

  /** The bytes whose keep bit is set. */
  function KeptBytes(data: seq<Byte>, keep: seq<bool>): seq<Byte>
    requires |data| == |keep|
  {
    if data == [] then [] else (if keep[0] then [data[0]] else []) + KeptBytes(data[1..], keep[1..])
  }

  function Gather(bs: seq<Beat>): seq<Byte>
    requires forall k | 0 <= k < |bs| :: |bs[k].keep| == 8
  {
    if bs == [] then [] else KeptBytes(bs[0].data, bs[0].keep) + Gather(bs[1..])
  }

  lemma {:induction false} KeptPrefix(data: seq<Byte>, keep: seq<bool>, n: nat)
    requires |data| == |keep| && n <= |data|
    requires forall k | 0 <= k < |keep| :: keep[k] == (k < n)
    ensures KeptBytes(data, keep) == data[..n]
  {
    if data != [] {
      KeptPrefix(data[1..], keep[1..], if n == 0 then 0 else n - 1);
      if n > 0 {
        assert data[..n] == [data[0]] + data[1..][..n - 1];
      }
    }
  }

  /** The beats of a framing, without what they carry. */
  predicate Marked(bs: seq<Beat>) {
    && (forall k | 0 <= k < |bs| :: |bs[k].keep| == 8 && bs[k].last == (k == |bs| - 1))
    && (forall k | 0 <= k < |bs| - 1 :: Thermometer(bs[k].keep, 8))
  }

  lemma MarkedMore(b: Beat, bs: seq<Beat>)
    requires Marked(bs) && bs != [] && !b.last && Thermometer(b.keep, 8)
    ensures Marked([b] + bs)
  {
    var all := [b] + bs;
    assert forall k | 1 <= k < |all| :: all[k] == bs[k - 1];
  }

  lemma {:induction false} FramedMarked(bs: seq<Beat>, s: seq<Byte>)
    requires Framed(bs, s)
    ensures |bs| == (|s| + 7) / 8 && CarriesAll(bs, s) && Marked(bs)
    decreases |s|
  {
    hide CarriesBeat, Thermometer, Marked;
    if s == [] {
      NothingMarked();
    } else {
      FramedMarked(bs[1..], Behind(s));
      FirstMark(bs[0], s);
      if |s| <= 8 {
        assert bs == [bs[0]];
        OneMarked(bs[0]);
      } else {
        MarkedMore(bs[0], bs[1..]);
        assert bs == [bs[0]] + bs[1..];
      }
    }
  }

  lemma NothingMarked()
    ensures Marked([])
  {}

  lemma OneMarked(b: Beat)
    requires b.last && |b.keep| == 8
    ensures Marked([b])
  {}

  lemma FirstMark(b: Beat, s: seq<Byte>)
    requires CarriesBeat(b, s) && Thermometer(b.keep, |s|)
    ensures b.last == (|s| <= 8) && |b.keep| == 8
    ensures |s| >= 8 ==> Thermometer(b.keep, 8)
    ensures KeptBytes(b.data, b.keep) == s[..Min(8, |s|)]
  {
    KeptPrefix(b.data, b.keep, Min(8, |s|));
  }

  lemma {:induction false} FramedGather(bs: seq<Beat>, s: seq<Byte>)
    requires Framed(bs, s) && forall k | 0 <= k < |bs| :: |bs[k].keep| == 8
    ensures Gather(bs) == s
    decreases |s|
  {
    hide CarriesBeat, Thermometer, KeptBytes;
    if s != [] {
      FramedGather(bs[1..], Behind(s));
      FirstMark(bs[0], s);
      assert s == s[..Min(8, |s|)] + Behind(s);
    }
  }

  /**
   Framing is exact: ceil(|s| / 8) beats, every beat but the last full and unmarked, and
   the kept bytes are s.
   */
  lemma FramedExact(bs: seq<Beat>, s: seq<Byte>)
    requires Framed(bs, s)
    ensures |bs| == (|s| + 7) / 8
    ensures CarriesAll(bs, s)
    ensures forall k | 0 <= k < |bs| :: bs[k].last == (k == |bs| - 1)
    ensures forall k | 0 <= k < |bs| :: |bs[k].keep| == 8
    ensures forall k | 0 <= k < |bs| - 1 :: Thermometer(bs[k].keep, 8)
    ensures Gather(bs) == s
  {
    hide Framed, CarriesAll, Gather, Thermometer;
    FramedMarked(bs, s);
    FramedGather(bs, s);
  }

  /** With bs behind us and s ahead, whatever frames s completes a framing of all. */
  ghost predicate Continues(bs: seq<Beat>, s: seq<Byte>, all: seq<Byte>) {
    forall rest :: Framed(rest, s) ==> Framed(bs + rest, all)
  }

  lemma ContinuesStart(s: seq<Byte>)
    ensures Continues([], s, s)
  {
    assert forall rest: seq<Beat> :: [] + rest == rest;
  }

  lemma ContinuesStep(bs: seq<Beat>, b: Beat, s: seq<Byte>, all: seq<Byte>)
    requires Continues(bs, s, all) && s != []
    requires CarriesBeat(b, s) && Thermometer(b.keep, |s|)
    ensures Continues(bs + [b], Behind(s), all)
  {
    forall rest | Framed(rest, Behind(s)) ensures Framed(bs + [b] + rest, all) {
      assert ([b] + rest)[1..] == rest;
      assert Framed([b] + rest, s);
      assert bs + [b] + rest == bs + ([b] + rest);
    }
  }

  lemma ContinuesEnd(bs: seq<Beat>, all: seq<Byte>)
    requires Continues(bs, [], all)
    ensures Framed(bs, all)
  {
    assert Framed([], []) && bs + [] == bs;
  }
}
