/** The wire format of internal/frame/frame.go, and streams of frames written back to back. */
module Framing {
  import opened Base

  const HEADER_SIZE: nat := 4 + 8 + 2
  const MAX_PAYLOAD: nat := 65535

  type U32 = n: nat | n < 0x1_0000_0000

  type I64 = n: int | -0x8000_0000_0000_0000 <= n < 0x8000_0000_0000_0000

  datatype Frame = Frame(sn: U32, timestampMS: I64, payload: Bytes)

  // ---------------------------------------------------------------- big-endian numbers

  function Pow256(k: nat): nat {
    if k == 0 then 1 else 256 * Pow256(k - 1)
  }

  function BigEndian(v: nat, k: nat): (b: Bytes)
    ensures |b| == k
  {
    if k == 0 then [] else BigEndian(v / 256, k - 1) + [v % 256]
  }

  function FromBigEndian(b: Bytes): nat {
    if b == [] then 0 else FromBigEndian(b[..|b| - 1]) * 256 + b[|b| - 1]
  }

  lemma QuotientBelow(v: nat, n: nat)
    requires v < 256 * n
    ensures v / 256 < n
  {
  }

  lemma {:induction false} BigEndianRoundTrip(v: nat, k: nat)
    requires v < Pow256(k)
    ensures FromBigEndian(BigEndian(v, k)) == v
  {
    if k > 0 {
      var b := BigEndian(v, k);
      assert b[..k - 1] == BigEndian(v / 256, k - 1);
      assert Pow256(k) == 256 * Pow256(k - 1);
      QuotientBelow(v, Pow256(k - 1));
      BigEndianRoundTrip(v / 256, k - 1);
      hide Pow256, BigEndian;
    }
  }

  lemma {:induction false} FromBigEndianBound(b: Bytes)
    ensures FromBigEndian(b) < Pow256(|b|)
  {
    if b != [] {
      FromBigEndianBound(b[..|b| - 1]);
    }
  }

  /** Go's conversions between int64 and uint64. */
  function ToUnsigned(ts: I64): nat {
    if ts < 0 then ts + 0x1_0000_0000_0000_0000 else ts
  }

  function ToSigned(u: nat): (ts: I64)
    requires u < 0x1_0000_0000_0000_0000
    ensures ToUnsigned(ts) == u
  {
    if u >= 0x8000_0000_0000_0000 then u - 0x1_0000_0000_0000_0000 else u
  }

  // ---------------------------------------------------------------- one frame

  function Header(f: Frame): (h: Bytes)
    requires |f.payload| <= MAX_PAYLOAD
    ensures |h| == HEADER_SIZE
  {
    BigEndian(f.sn, 4) + BigEndian(ToUnsigned(f.timestampMS), 8) + BigEndian(|f.payload|, 2)
  }

  /** A frame whose payload does not fit is nothing on the wire. */
  function Encode(f: Frame): Bytes {
    if |f.payload| > MAX_PAYLOAD then [] else Header(f) + f.payload
  }

  /** The frame a stream starts with, and the rest of the stream; None when it ends too early. */
  function Decode(stream: Bytes): Option<(Frame, Bytes)> {
    if |stream| < HEADER_SIZE then None
    else
      FromBigEndianBound(stream[..4]);
      FromBigEndianBound(stream[4..12]);
      var n := FromBigEndian(stream[12..14]);
      var rest := stream[HEADER_SIZE..];
      if |rest| < n then None
      else
        assert Pow256(4) == 0x1_0000_0000 && Pow256(8) == 0x1_0000_0000_0000_0000;
        Some((Frame(FromBigEndian(stream[..4]), ToSigned(FromBigEndian(stream[4..12])), rest[..n]), rest[n..]))
  }

  lemma HeaderParts(f: Frame, rest: Bytes)
    requires |f.payload| <= MAX_PAYLOAD
    ensures var s := Header(f) + rest;
            && s[..4] == BigEndian(f.sn, 4)
            && s[4..12] == BigEndian(ToUnsigned(f.timestampMS), 8)
            && s[12..14] == BigEndian(|f.payload|, 2)
            && s[HEADER_SIZE..] == rest
  {
  }

  /** Reading a written frame gives it back, and leaves what follows untouched. */
  lemma FrameRoundTrip(f: Frame, rest: Bytes)
    requires |f.payload| <= MAX_PAYLOAD
    ensures Decode(Encode(f) + rest) == Some((f, rest))
  {
    var s := Header(f) + (f.payload + rest);
    assert Encode(f) + rest == s;
    HeaderParts(f, f.payload + rest);
    assert Pow256(2) == 0x1_0000 && Pow256(4) == 0x1_0000_0000 && Pow256(8) == 0x1_0000_0000_0000_0000;
    BigEndianRoundTrip(f.sn, 4);
    BigEndianRoundTrip(ToUnsigned(f.timestampMS), 8);
    BigEndianRoundTrip(|f.payload|, 2);
  }

  lemma {:induction false} BigEndianInverse(b: Bytes)
    ensures BigEndian(FromBigEndian(b), |b|) == b
  {
    if b != [] {
      var init := b[..|b| - 1];
      BigEndianInverse(init);
      assert FromBigEndian(b) / 256 == FromBigEndian(init) && FromBigEndian(b) % 256 == b[|b| - 1];
      assert b == init + [b[|b| - 1]];
    }
  }

  lemma DecodedHeader(stream: Bytes, f: Frame, rest: Bytes)
    requires Decode(stream) == Some((f, rest))
    ensures |f.payload| <= MAX_PAYLOAD
    ensures Header(f) == stream[..HEADER_SIZE]
    ensures f.payload + rest == stream[HEADER_SIZE..]
  {
    BigEndianInverse(stream[..4]);
    BigEndianInverse(stream[4..12]);
    BigEndianInverse(stream[12..14]);
    FromBigEndianBound(stream[12..14]);
    assert Pow256(2) == 0x1_0000;
    assert stream[..HEADER_SIZE] == stream[..4] + stream[4..12] + stream[12..14];
  }

  /** Main result: a stream reads as frame f followed by `rest` exactly when it is the written f
      followed by `rest`. */
  lemma DecodesExactlyWrittenFrames(stream: Bytes, f: Frame, rest: Bytes)
    ensures Decode(stream) == Some((f, rest)) <==> |f.payload| <= MAX_PAYLOAD && stream == Encode(f) + rest
  {
    if |f.payload| <= MAX_PAYLOAD && stream == Encode(f) + rest {
      FrameRoundTrip(f, rest);
    }
    if Decode(stream) == Some((f, rest)) {
      DecodedHeader(stream, f, rest);
      assert stream == stream[..HEADER_SIZE] + stream[HEADER_SIZE..];
      assert Encode(f) + rest == Header(f) + (f.payload + rest);
    }
  }

  /** The number of four digits, the most significant one first. */
  function Digits(a: nat, b: nat, c: nat, d: nat): nat {
    a * 0x100_0000 + b * 0x1_0000 + c * 0x100 + d
  }

  lemma LastFour(b: Bytes)
    requires |b| >= 4
    ensures FromBigEndian(b) == FromBigEndian(b[..|b| - 4]) * 0x1_0000_0000
                                + Digits(b[|b| - 4], b[|b| - 3], b[|b| - 2], b[|b| - 1])
  {
    var n := |b|;
    assert b[..n - 1][..n - 2] == b[..n - 2];
    assert b[..n - 2][..n - 3] == b[..n - 3];
    assert b[..n - 3][..n - 4] == b[..n - 4];
  }

  /** What the bytes of a written frame are: the most significant byte of each number comes first,
      and a negative timestamp is in two's complement. */
  predicate FrameBytes(w: Bytes, f: Frame) {
    && |w| == 14 + |f.payload|
    && Digits(w[0], w[1], w[2], w[3]) == f.sn
    && Digits(w[4], w[5], w[6], w[7]) * 0x1_0000_0000 + Digits(w[8], w[9], w[10], w[11])
       == (if f.timestampMS < 0 then 0x1_0000_0000_0000_0000 else 0) + f.timestampMS
    && Digits(0, 0, w[12], w[13]) == |f.payload|
    && w[14..] == f.payload
  }

  lemma HeaderNumbers(w: Bytes)
    requires |w| >= HEADER_SIZE
    ensures FromBigEndian(w[..4]) == Digits(w[0], w[1], w[2], w[3])
    ensures FromBigEndian(w[4..12])
         == Digits(w[4], w[5], w[6], w[7]) * 0x1_0000_0000 + Digits(w[8], w[9], w[10], w[11])
    ensures FromBigEndian(w[12..14]) == Digits(0, 0, w[12], w[13])
  {
    var stamp := w[4..12];
    LastFour(w[..4]);
    LastFour(stamp);
    assert stamp[..4] == w[4..8];
    LastFour(stamp[..4]);
    assert w[..4][..0] == [] && stamp[..4][..0] == [];
    assert w[12..14][..1] == [w[12]] && [w[12]][..0] == [];
  }

  /** What reading gives, by the numbers in the header. */
  lemma ReadsExactlyWhen(w: Bytes, sn: nat, stamp: nat, n: nat, f: Frame)
    requires |w| >= HEADER_SIZE
    requires sn == FromBigEndian(w[..4]) && stamp == FromBigEndian(w[4..12]) && n == FromBigEndian(w[12..14])
    ensures Decode(w) == Some((f, [])) <==>
              f.sn == sn && ToUnsigned(f.timestampMS) == stamp && |w| == 14 + n && f.payload == w[14..]
  {
    FromBigEndianBound(w[..4]);
    FromBigEndianBound(w[4..12]);
    assert Pow256(4) == 0x1_0000_0000 && Pow256(8) == 0x1_0000_0000_0000_0000;
    hide FromBigEndian, Pow256;
    if |w| == 14 + n {
      assert w[14..][..n] == w[14..] && w[14..][n..] == [];
    }
  }

  /** Main result: a byte string is the written frame exactly when its bytes are these. */
  lemma WrittenExactlyWhen(w: Bytes, f: Frame)
    requires |f.payload| <= MAX_PAYLOAD
    ensures w == Encode(f) <==> FrameBytes(w, f)
  {
    assert |w| < HEADER_SIZE ==> Decode(w) == None;
    hide Encode, Decode, FromBigEndian, Digits;
    assert Encode(f) + [] == Encode(f);
    DecodesExactlyWrittenFrames(w, f, []);
    if |w| >= HEADER_SIZE {
      HeaderNumbers(w);
      ReadsExactlyWhen(w, FromBigEndian(w[..4]), FromBigEndian(w[4..12]), FromBigEndian(w[12..14]), f);
    }
  }

  // ---------------------------------------------------------------- the program's methods

  /** binary.BigEndian.PutUint16/32/64. */
  method PutUint(buf: array<Byte>, at: nat, width: nat, v: nat)
    requires at + width <= buf.Length
    modifies buf
    ensures buf[at..at + width] == BigEndian(v, width)
    ensures buf[..at] == old(buf[..at]) && buf[at + width..] == old(buf[at + width..])
  {
    var i, rest := width, v;
    while i > 0
      invariant 0 <= i <= width
      invariant BigEndian(v, width) == BigEndian(rest, i) + buf[at + i..at + width]
      invariant buf[..at] == old(buf[..at]) && buf[at + width..] == old(buf[at + width..])
    {
      i := i - 1;
      ghost var tail := buf[at + i + 1..at + width];
      buf[at + i] := rest % 256;
      assert buf[at + i..at + width] == [rest % 256] + tail;
      rest := rest / 256;
    }
  }

  method Marshal(f: Frame) returns (wire: Bytes)
    ensures wire == Encode(f)
  {
    if |f.payload| > MAX_PAYLOAD {
      return [];
    }
    hide Pow256, ToUnsigned, BigEndian;
    var buf := new Byte[HEADER_SIZE + |f.payload|];
    PutUint(buf, 0, 4, f.sn);
    ghost var first := buf[..4];
    PutUint(buf, 4, 8, ToUnsigned(f.timestampMS));
    assert buf[..4] == first;
    ghost var second := buf[..12];
    assert second == first + buf[4..12];
    PutUint(buf, 12, 2, |f.payload|);
    assert buf[..12] == second;
    assert buf[..HEADER_SIZE] == second + buf[12..14];
    forall i | 0 <= i < |f.payload| {
      buf[HEADER_SIZE + i] := f.payload[i];
    }
    assert buf[..HEADER_SIZE] == Header(f);
    assert buf[HEADER_SIZE..] == f.payload;
    assert buf[..] == buf[..HEADER_SIZE] + buf[HEADER_SIZE..];
    wire := buf[..];
  }

  /** A connection as its reader sees it: the bytes still to come. */
  class Reader {
    var rest: Bytes

    constructor (stream: Bytes)
      ensures rest == stream
    {
      rest := stream;
    }

    /** io.ReadFull: a short stream is used up and gives an error. */
    method ReadFull(n: nat) returns (data: Option<Bytes>)
      modifies this
      ensures n <= |old(rest)| ==> data == Some(old(rest)[..n]) && rest == old(rest)[n..]
      ensures n > |old(rest)| ==> data == None && rest == []
    {
      if n <= |rest| {
        data := Some(rest[..n]);
        rest := rest[n..];
      } else {
        data := None;
        rest := [];
      }
    }

    method ReadFrame() returns (f: Option<Frame>)
      modifies this
      ensures match Decode(old(rest))
              case None => f == None && rest == []
              case Some((frame, left)) => f == Some(frame) && rest == left
    {
      ghost var stream := rest;
      var header := ReadFull(HEADER_SIZE);
      if header == None {
        return None;
      }
      var h := header.value;
      assert h[..4] == stream[..4] && h[4..12] == stream[4..12] && h[12..14] == stream[12..14];
      FromBigEndianBound(h[..4]);
      FromBigEndianBound(h[4..12]);
      assert Pow256(4) == 0x1_0000_0000 && Pow256(8) == 0x1_0000_0000_0000_0000;
      var payload := ReadFull(FromBigEndian(h[12..14]));
      if payload == None {
        return None;
      }
      f := Some(Frame(FromBigEndian(h[..4]), ToSigned(FromBigEndian(h[4..12])), payload.value));
    }
  }

  // ---------------------------------------------------------------- streams

  /** The packets written back to back. */
  function Flatten(packets: seq<Bytes>): Bytes {
    if packets == [] then [] else packets[0] + Flatten(packets[1..])
  }

  lemma {:induction false} FlattenConcat(a: seq<Bytes>, b: seq<Bytes>)
    ensures Flatten(a + b) == Flatten(a) + Flatten(b)
  {
    if a == [] {
      assert a + b == b;
    } else {
      assert (a + b)[1..] == a[1..] + b;
      FlattenConcat(a[1..], b);
    }
  }

  /** Reading frames until the stream ends. */
  function DecodeAll(stream: Bytes): seq<Frame>
    decreases |stream|
  {
    match Decode(stream)
    case None => []
    case Some((f, rest)) => [f] + DecodeAll(rest)
  }

  ghost predicate IsWire(data: Bytes) {
    exists f :: data == Encode(f)
  }

  /** The frames the packets were made of, oversized ones left out. */
  function FramesOf(packets: seq<Bytes>): seq<Frame> {
    if packets == [] then []
    else
      (match Decode(packets[0])
       case None => []
       case Some((f, _)) => [f]) + FramesOf(packets[1..])
  }

  /** Main result: the reader of a stream of packets gets exactly their frames, in order; an
      oversized frame vanishes without shifting the stream. */
  lemma {:induction false} StreamCarriesFrames(packets: seq<Bytes>)
    requires forall p :: p in packets ==> IsWire(p)
    ensures DecodeAll(Flatten(packets)) == FramesOf(packets)
  {
    if packets != [] {
      var p, rest := packets[0], Flatten(packets[1..]);
      StreamCarriesFrames(packets[1..]);
      assert IsWire(p);
      var f :| p == Encode(f);
      if |f.payload| <= MAX_PAYLOAD {
        FrameRoundTrip(f, rest);
        FrameRoundTrip(f, []);
        assert p + [] == p;
      } else {
        assert p == [] && [] + rest == rest;
      }
    }
  }
}
