/** Building and parsing IPv4/UDP packets (internal/pktfilter/build.go, internal/pktfilter/pktfilter.go). */
module Ipv4Udp {
  import opened Base

  const MAX_UDP_PAYLOAD: nat := 65507
  const HEADER_LEN: nat := 20
  const UDP: Byte := 17

  function AddressBytes(a: Address): Bytes {
    [a.b0, a.b1, a.b2, a.b3]
  }

  /** A big-endian 16-bit word. */
  function Word(hi: Byte, lo: Byte): (w: Port)
    ensures w / 256 == hi && w % 256 == lo
  {
    hi * 256 + lo
  }

  function Uint16(b: Bytes, i: nat): Port
    requires i + 1 < |b|
  {
    Word(b[i], b[i + 1])
  }

  // ---------------------------------------------------------------- checksum

  /** The exact sum of the first n 16-bit words; an odd last byte is ignored. */
  function WordSum(b: Bytes, n: nat): nat
    requires 2 * n <= |b|
  {
    if n == 0 then 0 else WordSum(b, n - 1) + Uint16(b, 2 * n - 2)
  }

  lemma {:induction false} WordSumBound(b: Bytes, n: nat)
    requires 2 * n <= |b|
    ensures WordSum(b, n) <= 0xFFFF * n
  {
    if n > 0 {
      WordSumBound(b, n - 1);
    }
  }

  /** The end-around-carry sum of RFC 791: the representative of `sum` modulo 65535 that is zero
      only for zero. */
  function Folded(sum: nat): nat {
    if sum == 0 then 0 else (sum - 1) % 0xFFFF + 1
  }

  lemma FoldedInRange(sum: nat)
    ensures Folded(sum) <= 0xFFFF
  {
  }

  function Checksum(b: Bytes): Port {
    FoldedInRange(WordSum(b, |b| / 2));
    0xFFFF - Folded(WordSum(b, |b| / 2))
  }

  lemma FoldStep(sum: nat)
    ensures Folded(sum % 0x1_0000 + sum / 0x1_0000) == Folded(sum)
    ensures sum / 0x1_0000 != 0 ==> sum % 0x1_0000 + sum / 0x1_0000 < sum
    ensures sum / 0x1_0000 == 0 ==> Folded(sum) == sum
  {
  }

  lemma NoWrap(b: Bytes, n: nat)
    requires 2 * n + 2 <= |b|
    ensures n < 0x1_0001 ==> (WordSum(b, n) + Uint16(b, 2 * n)) % 0x1_0000_0000 == WordSum(b, n + 1)
  {
    WordSumBound(b, n + 1);
  }

  method Fold(sum: nat) returns (f: nat)
    ensures f == Folded(sum) <= 0xFFFF
  {
    f := sum;
    hide Folded;
    while f / 0x1_0000 != 0
      invariant Folded(f) == Folded(sum)
      decreases f
    {
      FoldStep(f);
      f := f % 0x1_0000 + f / 0x1_0000;
    }
    FoldStep(f);
  }

  /** The checksum of any byte string up to 65537 words: the uint32 accumulator does not wrap, and
      folding ends. A header has 10 words. */
  method HeaderChecksum(header: Bytes) returns (c: Port)
    ensures |header| / 2 <= 0x1_0001 ==> c == Checksum(header)
  {
    var sum: nat := 0;
    var i := 0;
    ghost var n := 0;
    while i + 1 < |header|
      invariant i == 2 * n <= |header|
      invariant n <= 0x1_0001 ==> sum == WordSum(header, n)
    {
      NoWrap(header, n);
      sum := (sum + Uint16(header, i)) % 0x1_0000_0000;
      i := i + 2;
      n := n + 1;
    }
    sum := Fold(sum);
    c := 0xFFFF - sum;
  }

  // ---------------------------------------------------------------- build

  /** The 20 header bytes with the given checksum field. */
  function HeaderWith(src: Address, dst: Address, total: Port, id: Port, checksum: Port): (h: Bytes)
    ensures |h| == HEADER_LEN
  {
    [0x45, 0, total / 256, total % 256, id / 256, id % 256, 0x40, 0, 64, UDP, checksum / 256, checksum % 256]
    + AddressBytes(src) + AddressBytes(dst)
  }

  function Header(src: Address, dst: Address, total: Port, id: Port): (h: Bytes)
    ensures |h| == HEADER_LEN
  {
    HeaderWith(src, dst, total, id, Checksum(HeaderWith(src, dst, total, id, 0)))
  }

  function UdpHeader(srcPort: Port, dstPort: Port, n: Port): (h: Bytes)
    ensures |h| == 8
  {
    [srcPort / 256, srcPort % 256, dstPort / 256, dstPort % 256, n / 256, n % 256, 0, 0]
  }

  function Packet(src: Address, dst: Address, srcPort: Port, dstPort: Port, payload: Bytes, id: Port): Bytes
    requires |payload| <= MAX_UDP_PAYLOAD
  {
    Header(src, dst, 28 + |payload|, id) + (UdpHeader(srcPort, dstPort, 8 + |payload|) + payload)
  }

  /** The fields before the checksum. */
  method FillFields(pkt: array<Byte>, total: Port, id: Port)
    requires pkt.Length >= 20 && pkt[10] == pkt[11] == 0
    modifies pkt
    ensures pkt[0] == 0x45 && pkt[1] == 0 && Word(pkt[2], pkt[3]) == total && Word(pkt[4], pkt[5]) == id
    ensures pkt[6] == 0x40 && pkt[7] == 0 && pkt[8] == 64 && pkt[9] == UDP
    ensures pkt[10..] == old(pkt[10..])
  {
    pkt[0] := 0x45;
    pkt[1] := 0;
    pkt[2], pkt[3] := total / 256, total % 256;
    pkt[4], pkt[5] := id / 256, id % 256;
    pkt[6] := 0x40;
    pkt[7] := 0;
    pkt[8] := 64;
    pkt[9] := UDP;
  }

  method PutAddress(pkt: array<Byte>, at: nat, a: Address)
    requires at + 4 <= pkt.Length
    modifies pkt
    ensures pkt[..at] == old(pkt[..at]) && pkt[at + 4..] == old(pkt[at + 4..])
    ensures pkt[at..at + 4] == AddressBytes(a)
  {
    pkt[at], pkt[at + 1], pkt[at + 2], pkt[at + 3] := a.b0, a.b1, a.b2, a.b3;
  }

  method FillHeader(pkt: array<Byte>, src: Address, dst: Address, total: Port, id: Port)
    requires pkt.Length >= 20 && forall i :: 0 <= i < 20 ==> pkt[i] == 0
    modifies pkt
    ensures pkt[..20] == Header(src, dst, total, id) && pkt[20..] == old(pkt[20..])
  {
    FillFields(pkt, total, id);
    PutAddress(pkt, 12, src);
    ghost var start := pkt[..16];
    PutAddress(pkt, 16, dst);
    assert pkt[..20] == start + pkt[16..20];
    assert start == start[..12] + start[12..16];
    assert pkt[..20] == HeaderWith(src, dst, total, id, 0);
    var c := HeaderChecksum(pkt[..20]);
    pkt[10], pkt[11] := c / 256, c % 256;
    assert pkt[..20] == HeaderWith(src, dst, total, id, 0)[10 := c / 256][11 := c % 256];
  }

  method FillUdp(pkt: array<Byte>, srcPort: Port, dstPort: Port, payload: Bytes)
    requires pkt.Length == 28 + |payload| && |payload| <= MAX_UDP_PAYLOAD
    requires forall i :: 20 <= i < 28 ==> pkt[i] == 0
    modifies pkt
    ensures pkt[20..] == UdpHeader(srcPort, dstPort, 8 + |payload|) + payload && pkt[..20] == old(pkt[..20])
  {
    var n := 8 + |payload|;
    pkt[20], pkt[21] := srcPort / 256, srcPort % 256;
    pkt[22], pkt[23] := dstPort / 256, dstPort % 256;
    pkt[24], pkt[25] := n / 256, n % 256;
    forall i | 0 <= i < |payload| {
      pkt[28 + i] := payload[i];
    }
  }

  /** Fills the packet by index; `id` is the packet counter's next value. */
  method BuildIPv4UDP(src: Address, dst: Address, srcPort: Port, dstPort: Port, payload: Bytes, id: Port)
    returns (packet: array?<Byte>)
    ensures packet == null <==> |payload| > MAX_UDP_PAYLOAD
    ensures packet != null ==> fresh(packet) && packet[..] == Packet(src, dst, srcPort, dstPort, payload, id)
  {
    if |payload| > MAX_UDP_PAYLOAD {
      return null;
    }
    var total := 20 + 8 + |payload|;
    var pkt := new Byte[total](_ => 0);
    FillHeader(pkt, src, dst, total, id);
    FillUdp(pkt, srcPort, dstPort, payload);
    hide Header, UdpHeader;
    assert pkt[..20] == Header(src, dst, total, id);
    assert pkt[20..] == UdpHeader(srcPort, dstPort, 8 + |payload|) + payload;
    assert pkt[..] == pkt[..20] + pkt[20..];
    assert pkt[..] == Packet(src, dst, srcPort, dstPort, payload, id);
    packet := pkt;
  }

  // ---------------------------------------------------------------- parse

  datatype Noise = Unicast | Multicast | Broadcast | Discovery(port: Port)

  datatype Info = Info(
    version: nat,
    proto: Byte,
    src: Bytes,
    dst: Bytes,
    srcPort: Port,
    dstPort: Port,
    payload: Option<Bytes>,
    fragment: bool,
    len: nat,
    noise: Noise)

  const NOISE_PORTS: set<Port> := {137, 138, 139, 1900, 5353, 5355, 3702, 67, 68}

  /** net.IP.To4: an IPv4-mapped IPv6 address counts as IPv4. */
  function To4(ip: Bytes): Option<Address> {
    if |ip| == 4 then Some(Address(ip[0], ip[1], ip[2], ip[3]))
    else if |ip| == 16 && (forall i :: 0 <= i < 10 ==> ip[i] == 0) && ip[10] == 0xFF && ip[11] == 0xFF then
      Some(Address(ip[12], ip[13], ip[14], ip[15]))
    else None
  }

  predicate IsMulticast(ip: Bytes) {
    match To4(ip)
    case Some(a) => a.b0 / 16 == 0xE
    case None => |ip| == 16 && ip[0] == 0xFF
  }

  /** Private (RFC 1918) or link-local. */
  predicate IsLocal(a: Address) {
    || a.b0 == 10
    || (a.b0 == 172 && a.b1 / 16 == 1)
    || (a.b0 == 192 && a.b1 == 168)
    || (a.b0 == 169 && a.b1 == 254)
  }

  function Classify(version: nat, proto: Byte, dst: Bytes, dstPort: Port): Noise {
    if IsMulticast(dst) then Multicast
    else if version == 4 && To4(dst).Some? && To4(dst).value.b3 == 255 && IsLocal(To4(dst).value) then Broadcast
    else if proto == UDP && dstPort in NOISE_PORTS then Discovery(dstPort)
    else Unicast
  }

  /** What the UDP header of an unfragmented packet gives. */
  datatype Udp = Udp(srcPort: Port, dstPort: Port, payload: Option<Bytes>)

  function ParseUdp(pkt: Bytes, ihl: nat): Udp
    requires ihl + 8 <= |pkt|
  {
    var n := Uint16(pkt, ihl + 4);
    Udp(Uint16(pkt, ihl), Uint16(pkt, ihl + 2),
        if n >= 8 && ihl + n <= |pkt| then Some(pkt[ihl + 8..ihl + n]) else None)
  }

  /** The packet without padding. */
  function Trim(pkt: Bytes, ihl: nat): Bytes
    requires 20 <= ihl <= |pkt|
  {
    var total := Uint16(pkt, 2);
    if ihl <= total < |pkt| then pkt[..total] else pkt
  }

  function ParseIPv4(pkt: Bytes): Option<Info> {
    if |pkt| < 20 then None
    else
      var ihl := pkt[0] % 16 * 4;
      if ihl < 20 || ihl > |pkt| then None
      else
        var fragment := Uint16(pkt, 6) % 0x4000 != 0;
        var body := Trim(pkt, ihl);
        var udp := if pkt[9] == UDP && !fragment && |body| >= ihl + 8 then ParseUdp(body, ihl) else Udp(0, 0, None);
        Some(Info(4, pkt[9], pkt[12..16], pkt[16..20], udp.srcPort, udp.dstPort, udp.payload, fragment, |pkt|,
                  Classify(4, pkt[9], pkt[16..20], udp.dstPort)))
  }

  function ParseIPv6(pkt: Bytes): Option<Info> {
    if |pkt| < 40 then None
    else
      var ports := pkt[6] == UDP && |pkt| >= 44;
      var srcPort := if ports then Uint16(pkt, 40) else 0;
      var dstPort := if ports then Uint16(pkt, 42) else 0;
      Some(Info(6, pkt[6], pkt[8..24], pkt[24..40], srcPort, dstPort, None, false, |pkt|,
                Classify(6, pkt[6], pkt[24..40], dstPort)))
  }

  /** Defined on every byte string: no read is out of bounds. */
  function Parse(pkt: Bytes): Option<Info> {
    if |pkt| < 1 then None
    else if pkt[0] / 16 == 4 then ParseIPv4(pkt)
    else if pkt[0] / 16 == 6 then ParseIPv6(pkt)
    else None
  }

  // ---------------------------------------------------------------- results

  lemma HeaderParts(src: Address, dst: Address, srcPort: Port, dstPort: Port, payload: Bytes, id: Port, pad: Bytes)
    requires |payload| <= MAX_UDP_PAYLOAD
    ensures var p := Packet(src, dst, srcPort, dstPort, payload, id);
            var pkt := p + pad;
            && pkt[0] == 0x45 && pkt[9] == UDP && pkt[6] == 0x40 && pkt[7] == 0
            && Uint16(pkt, 2) == 28 + |payload| == |p|
            && pkt[12..16] == AddressBytes(src) && pkt[16..20] == AddressBytes(dst)
  {
  }

  lemma UdpParts(src: Address, dst: Address, srcPort: Port, dstPort: Port, payload: Bytes, id: Port)
    requires |payload| <= MAX_UDP_PAYLOAD
    ensures var p := Packet(src, dst, srcPort, dstPort, payload, id);
            |p| >= 28 && ParseUdp(p, 20) == Udp(srcPort, dstPort, Some(payload))
  {
    var h := Header(src, dst, 28 + |payload|, id);
    var p := Packet(src, dst, srcPort, dstPort, payload, id);
    var u := UdpHeader(srcPort, dstPort, 8 + |payload|);
    assert p == h + (u + payload);
    hide Packet, Header, UdpHeader;
    assert p[20] == u[0] && p[21] == u[1] && p[22] == u[2] && p[23] == u[3] && p[24] == u[4] && p[25] == u[5];
    assert p[28..28 + |payload|] == payload;
    var n := 8 + |payload|;
    assert u == [srcPort / 256, srcPort % 256, dstPort / 256, dstPort % 256, n / 256, n % 256, 0, 0];
  }

  /** Main result: a built packet, with any padding after it, parses to what it was built from. */
  lemma BuildThenParse(src: Address, dst: Address, srcPort: Port, dstPort: Port, payload: Bytes, id: Port, pad: Bytes)
    requires |payload| <= MAX_UDP_PAYLOAD
    ensures var pkt := Packet(src, dst, srcPort, dstPort, payload, id) + pad;
            Parse(pkt) == Some(Info(4, UDP, AddressBytes(src), AddressBytes(dst), srcPort, dstPort, Some(payload),
                                    false, |pkt|, Classify(4, UDP, AddressBytes(dst), dstPort)))
  {
    hide Packet, ParseUdp, Classify, AddressBytes;
    var p := Packet(src, dst, srcPort, dstPort, payload, id);
    HeaderParts(src, dst, srcPort, dstPort, payload, id, pad);
    UdpParts(src, dst, srcPort, dstPort, payload, id);
    assert (p + pad)[..|p|] == p;
    assert Trim(p + pad, 20) == p;
  }

  lemma {:induction false} WordSumSame(a: Bytes, b: Bytes, n: nat)
    requires 2 * n <= |a| && 2 * n <= |b| && forall i :: 0 <= i < 2 * n ==> a[i] == b[i]
    ensures WordSum(a, n) == WordSum(b, n)
  {
    if n > 0 {
      WordSumSame(a, b, n - 1);
    }
  }

  lemma {:induction false} WordSumChange(a: Bytes, b: Bytes, k: nat, n: nat)
    requires |a| == |b| && k < n && 2 * n <= |a|
    requires forall i :: 0 <= i < |a| && i != 2 * k && i != 2 * k + 1 ==> a[i] == b[i]
    ensures WordSum(b, n) - WordSum(a, n) == Uint16(b, 2 * k) - Uint16(a, 2 * k)
  {
    if k == n - 1 {
      WordSumSame(a, b, k);
    } else {
      WordSumChange(a, b, k, n - 1);
    }
  }

  lemma {:induction false} WordSumAtLeast(b: Bytes, n: nat)
    requires n > 0 && 2 * n <= |b|
    ensures WordSum(b, n) >= Uint16(b, 0)
  {
    if n > 1 {
      WordSumAtLeast(b, n - 1);
    }
  }

  lemma ChecksumAdds(src: Address, dst: Address, total: Port, id: Port, c: Port)
    ensures WordSum(HeaderWith(src, dst, total, id, c), 10) == WordSum(HeaderWith(src, dst, total, id, 0), 10) + c
    ensures WordSum(HeaderWith(src, dst, total, id, 0), 10) > 0
  {
    var h, z := HeaderWith(src, dst, total, id, c), HeaderWith(src, dst, total, id, 0);
    assert Uint16(h, 10) == c && Uint16(z, 10) == 0 && Uint16(z, 0) == 0x4500;
    WordSumChange(z, h, 5, 10);
    WordSumAtLeast(z, 10);
  }

  lemma FoldedComplement(s: nat, c: nat)
    requires s > 0 && c <= 0xFFFF
    ensures Folded(s + c) == 0xFFFF <==> (c - (0xFFFF - Folded(s))) % 0xFFFF == 0
  {
  }

  /** Main result: the words of a built header sum to 0xFFFF, and no other checksum field does that,
      but for the two zeros of one's complement. */
  lemma HeaderSumsToOnes(src: Address, dst: Address, total: Port, id: Port, c: Port)
    ensures Folded(WordSum(HeaderWith(src, dst, total, id, c), 10)) == 0xFFFF
       <==> (c - Checksum(HeaderWith(src, dst, total, id, 0))) % 0xFFFF == 0
    ensures Folded(WordSum(Header(src, dst, total, id), 10)) == 0xFFFF
  {
    hide HeaderWith, WordSum, Folded;
    ChecksumAdds(src, dst, total, id, c);
    ChecksumAdds(src, dst, total, id, Checksum(HeaderWith(src, dst, total, id, 0)));
    var s := WordSum(HeaderWith(src, dst, total, id, 0), 10);
    FoldedInRange(s);
    FoldedComplement(s, c);
    FoldedComplement(s, 0xFFFF - Folded(s));
  }

  lemma SameStart(pkt: Bytes, pad: Bytes)
    requires |pkt| >= 20
    ensures (pkt + pad)[0] == pkt[0] && (pkt + pad)[9] == pkt[9]
    ensures Uint16(pkt + pad, 6) == Uint16(pkt, 6) && Uint16(pkt + pad, 2) == Uint16(pkt, 2)
    ensures (pkt + pad)[12..16] == pkt[12..16] && (pkt + pad)[16..20] == pkt[16..20]
  {
  }

  /** Main result: bytes after the packet's own total length change nothing but the recorded length. */
  lemma PaddingIsIgnored(pkt: Bytes, pad: Bytes)
    requires |pkt| >= 20 && pkt[0] / 16 == 4 && pkt[0] % 16 * 4 <= Uint16(pkt, 2) == |pkt|
    ensures Parse(pkt).Some? <==> Parse(pkt + pad).Some?
    ensures Parse(pkt).Some? ==> Parse(pkt + pad) == Some(Parse(pkt).value.(len := |pkt| + |pad|))
  {
    var q := pkt + pad;
    SameStart(pkt, pad);
    if 20 <= pkt[0] % 16 * 4 {
      assert Trim(q, pkt[0] % 16 * 4) == pkt == Trim(pkt, pkt[0] % 16 * 4);
    }
    hide Classify, ParseUdp, Trim;
  }

  // ---------------------------------------------------------------- byte by byte

  lemma WordIs(hi: Byte, lo: Byte, w: Port)
    ensures Word(hi, lo) == w <==> hi == w / 256 && lo == w % 256
  {
  }

  /** The fields of a header, all but the checksum. */
  predicate HeaderBytes(h: Bytes, src: Address, dst: Address, total: Port, id: Port)
    requires |h| >= 20
  {
    && h[0] == 0x45 && h[1] == 0 && Word(h[2], h[3]) == total && Word(h[4], h[5]) == id
    && h[6] == 0x40 && h[7] == 0 && h[8] == 64 && h[9] == 17
    && h[12] == src.b0 && h[13] == src.b1 && h[14] == src.b2 && h[15] == src.b3
    && h[16] == dst.b0 && h[17] == dst.b1 && h[18] == dst.b2 && h[19] == dst.b3
  }

  lemma HeaderIs(h: Bytes, src: Address, dst: Address, total: Port, id: Port, c: Port)
    requires |h| == 20
    ensures h == HeaderWith(src, dst, total, id, c) <==>
              HeaderBytes(h, src, dst, total, id) && Word(h[10], h[11]) == c
  {
    WordIs(h[2], h[3], total);
    WordIs(h[4], h[5], id);
    WordIs(h[10], h[11], c);
  }

  lemma ChecksumIsNotOnes(src: Address, dst: Address, total: Port, id: Port)
    ensures Checksum(HeaderWith(src, dst, total, id, 0)) < 0xFFFF
  {
    ChecksumAdds(src, dst, total, id, 0);
  }

  lemma SameRest(a: nat, b: nat)
    requires a < 0xFFFF && b < 0xFFFF && (a - b) % 0xFFFF == 0
    ensures a == b
  {
  }

  lemma FoldsToOnes(s: nat)
    requires s > 0
    ensures Folded(s) == 0xFFFF <==> s % 0xFFFF == 0
  {
  }

  /** The checksum is the only one that makes the words sum to a multiple of 65535. */
  lemma ChecksumIs(src: Address, dst: Address, total: Port, id: Port, c: Port)
    ensures c == Checksum(HeaderWith(src, dst, total, id, 0)) <==>
              c != 0xFFFF && WordSum(HeaderWith(src, dst, total, id, c), 10) % 0xFFFF == 0
  {
    ChecksumIsNotOnes(src, dst, total, id);
    ChecksumAdds(src, dst, total, id, c);
    HeaderSumsToOnes(src, dst, total, id, c);
    FoldsToOnes(WordSum(HeaderWith(src, dst, total, id, c), 10));
    hide HeaderWith, Checksum, WordSum, Folded;
    if c != 0xFFFF && WordSum(HeaderWith(src, dst, total, id, c), 10) % 0xFFFF == 0 {
      SameRest(c, Checksum(HeaderWith(src, dst, total, id, 0)));
    }
  }

  lemma BuiltHeader(h: Bytes, src: Address, dst: Address, total: Port, id: Port)
    requires |h| == 20
    ensures h == Header(src, dst, total, id) <==>
              && HeaderBytes(h, src, dst, total, id)
              && WordSum(h, 10) % 0xFFFF == 0
              && Word(h[10], h[11]) != 0xFFFF
  {
    var c: Port := Word(h[10], h[11]);
    HeaderIs(h, src, dst, total, id, c);
    HeaderIs(h, src, dst, total, id, Checksum(HeaderWith(src, dst, total, id, 0)));
    ChecksumIs(src, dst, total, id, c);
    hide HeaderWith, Checksum, WordSum, HeaderBytes;
  }

  lemma BuiltUdp(u: Bytes, srcPort: Port, dstPort: Port, n: Port)
    requires |u| == 8
    ensures u == UdpHeader(srcPort, dstPort, n) <==>
              && Word(u[0], u[1]) == srcPort && Word(u[2], u[3]) == dstPort && Word(u[4], u[5]) == n
              && u[6] == 0 && u[7] == 0
  {
    WordIs(u[0], u[1], srcPort);
    WordIs(u[2], u[3], dstPort);
    WordIs(u[4], u[5], n);
  }

  /** What the bytes of a built packet are (section 3.1 of RFC 791, RFC 768): no options, don't
      fragment, time to live 64, UDP, a header whose words sum to a multiple of 65535, no UDP checksum. */
  predicate BuiltBytes(
    pkt: Bytes, src: Address, dst: Address, srcPort: Port, dstPort: Port, payload: Bytes, id: Port)
  {
    && |pkt| == 28 + |payload| && |payload| <= MAX_UDP_PAYLOAD
    && HeaderBytes(pkt, src, dst, |pkt|, id)
    && WordSum(pkt, 10) % 0xFFFF == 0 && Word(pkt[10], pkt[11]) != 0xFFFF
    && Word(pkt[20], pkt[21]) == srcPort
    && Word(pkt[22], pkt[23]) == dstPort
    && Word(pkt[24], pkt[25]) == 8 + |payload|
    && pkt[26] == 0 && pkt[27] == 0
    && pkt[28..] == payload
  }

  lemma ThreeParts(pkt: Bytes, h: Bytes, u: Bytes, payload: Bytes)
    requires |pkt| >= 28 && |h| == 20 && |u| == 8
    ensures pkt == h + (u + payload) <==> pkt[..20] == h && pkt[20..28] == u && pkt[28..] == payload
  {
    assert pkt == pkt[..20] + (pkt[20..28] + pkt[28..]);
  }

  /** Main result: a byte string is the packet built from the values exactly when its bytes are these. */
  lemma BuiltExactlyWhen(
    pkt: Bytes, src: Address, dst: Address, srcPort: Port, dstPort: Port, payload: Bytes, id: Port)
    requires |payload| <= MAX_UDP_PAYLOAD
    ensures pkt == Packet(src, dst, srcPort, dstPort, payload, id) <==>
              BuiltBytes(pkt, src, dst, srcPort, dstPort, payload, id)
  {
    var n := |payload|;
    hide Header, UdpHeader, WordSum;
    if |pkt| == 28 + n {
      ThreeParts(pkt, Header(src, dst, 28 + n, id), UdpHeader(srcPort, dstPort, 8 + n), payload);
      BuiltHeader(pkt[..20], src, dst, 28 + n, id);
      BuiltUdp(pkt[20..28], srcPort, dstPort, 8 + n);
      WordSumSame(pkt[..20], pkt, 10);
    }
  }

  // ---------------------------------------------------------------- what parsing reads

  /** Where the IP packet ends: at its total length, when padding follows. */
  function End(pkt: Bytes): nat
    requires |pkt| >= 20
  {
    var total := Word(pkt[2], pkt[3]);
    if pkt[0] % 16 * 4 <= total < |pkt| then total else |pkt|
  }

  /** More fragments follow, or this is not the first (section 3.1 of RFC 791): the third flag or
      one of the 13 bits of the offset is set. */
  predicate IsFragment(pkt: Bytes)
    requires |pkt| >= 20
  {
    pkt[6] / 0x20 % 2 == 1 || pkt[6] % 0x20 != 0 || pkt[7] != 0
  }

  /** An unfragmented UDP packet with a whole UDP header. */
  predicate HasUdp(pkt: Bytes)
    requires |pkt| >= 20
  {
    pkt[9] == 17 && !IsFragment(pkt) && End(pkt) >= pkt[0] % 16 * 4 + 8
  }

  predicate IsIPv4(pkt: Bytes) {
    |pkt| >= 20 && pkt[0] / 16 == 4 && 20 <= pkt[0] % 16 * 4 <= |pkt|
  }

  predicate IsIPv6(pkt: Bytes) {
    |pkt| >= 40 && pkt[0] / 16 == 6
  }

  lemma FragmentBits(hi: Byte, lo: Byte)
    ensures Word(hi, lo) % 0x4000 != 0 <==> hi / 0x20 % 2 == 1 || hi % 0x20 != 0 || lo != 0
  {
  }

  /** The UDP length covers the header and lies within the packet. */
  predicate WholePayload(pkt: Bytes, at: nat, n: nat)
    requires |pkt| >= 20
  {
    8 <= n && at + n <= End(pkt)
  }

  /** What an IPv4 packet says: the ports and the payload are there exactly for an unfragmented UDP
      packet whose header, and whose UDP length, lie before the padding. */
  predicate SaysIPv4(pkt: Bytes, info: Info)
    requires IsIPv4(pkt)
  {
    var at := pkt[0] % 16 * 4;
    && info.version == 4 && info.proto == pkt[9] && info.len == |pkt|
    && info.src == [pkt[12], pkt[13], pkt[14], pkt[15]]
    && info.dst == [pkt[16], pkt[17], pkt[18], pkt[19]]
    && info.fragment == IsFragment(pkt)
    && info.srcPort == (if HasUdp(pkt) then Word(pkt[at], pkt[at + 1]) else 0)
    && info.dstPort == (if HasUdp(pkt) then Word(pkt[at + 2], pkt[at + 3]) else 0)
    && (info.payload.Some? <==> HasUdp(pkt) && WholePayload(pkt, at, Word(pkt[at + 4], pkt[at + 5])))
    && (info.payload.Some? ==> info.payload.value == pkt[at + 8..at + Word(pkt[at + 4], pkt[at + 5])])
  }

  predicate SaysIPv6(pkt: Bytes, info: Info)
    requires IsIPv6(pkt)
  {
    var ports := pkt[6] == 17 && |pkt| >= 44;
    && info.version == 6 && info.proto == pkt[6] && info.len == |pkt|
    && info.src == pkt[8..24] && info.dst == pkt[24..40]
    && info.srcPort == (if ports then Word(pkt[40], pkt[41]) else 0)
    && info.dstPort == (if ports then Word(pkt[42], pkt[43]) else 0)
    && info.payload == None && !info.fragment
  }

  const MAPPED: Bytes := [0, 0, 0, 0, 0, 0, 0, 0, 0, 0, 0xFF, 0xFF]

  /** 224.0.0.0 to 239.255.255.255, also as IPv4-mapped IPv6 addresses, and ff00::/8. */
  predicate ToMany(dst: Bytes) {
    || (|dst| == 4 && 224 <= dst[0] <= 239)
    || (|dst| == 16 && dst[0] == 0xFF)
    || (|dst| == 16 && dst[..12] == MAPPED && 224 <= dst[12] <= 239)
  }

  /** Ends with 255 in 10.0.0.0/8, 172.16.0.0/12, 192.168.0.0/16 or 169.254.0.0/16. */
  predicate ToPrivateNet(dst: Bytes) {
    && |dst| == 4 && dst[3] == 255
    && (|| dst[0] == 10
        || (dst[0] == 172 && 16 <= dst[1] <= 31)
        || (dst[0] == 192 && dst[1] == 168)
        || (dst[0] == 169 && dst[1] == 254))
  }

  /** Each kind of noise by what the packet says, whatever the order of the tests. */
  predicate NoiseOk(info: Info) {
    && (info.noise == Multicast <==> ToMany(info.dst))
    && (info.noise == Broadcast <==> info.version == 4 && ToPrivateNet(info.dst))
    && (info.noise.Discovery? <==>
          && info.proto == 17 && info.dstPort in NOISE_PORTS
          && !ToMany(info.dst) && !(info.version == 4 && ToPrivateNet(info.dst)))
    && (info.noise.Discovery? ==> info.noise.port == info.dstPort)
  }

  lemma Multicasts(dst: Bytes)
    requires |dst| == 4 || |dst| == 16
    ensures IsMulticast(dst) <==> ToMany(dst)
  {
    if |dst| == 16 {
      assert dst[..12] == MAPPED <==> (forall i :: 0 <= i < 10 ==> dst[i] == 0) && dst[10] == 0xFF && dst[11] == 0xFF;
    }
  }

  lemma ClassifiesExactly(version: nat, proto: Byte, dst: Bytes, dstPort: Port, info: Info)
    requires (version == 4 && |dst| == 4) || (version == 6 && |dst| == 16)
    requires info.version == version && info.proto == proto && info.dst == dst && info.dstPort == dstPort
    requires info.noise == Classify(version, proto, dst, dstPort)
    ensures NoiseOk(info)
  {
    Multicasts(dst);
    hide IsMulticast;
  }

  lemma TrimEnds(pkt: Bytes)
    requires IsIPv4(pkt)
    ensures Trim(pkt, pkt[0] % 16 * 4) == pkt[..End(pkt)]
  {
  }

  lemma ParsedUdp(pkt: Bytes, end: nat, at: nat)
    requires at + 8 <= end <= |pkt|
    ensures var u := ParseUdp(pkt[..end], at);
            var n := Word(pkt[at + 4], pkt[at + 5]);
            && u.srcPort == Word(pkt[at], pkt[at + 1]) && u.dstPort == Word(pkt[at + 2], pkt[at + 3])
            && (u.payload.Some? <==> 8 <= n && at + n <= end)
            && (u.payload.Some? ==> u.payload.value == pkt[at + 8..at + n])
  {
    var n := Word(pkt[at + 4], pkt[at + 5]);
    if 8 <= n && at + n <= end {
      assert pkt[..end][at + 8..at + n] == pkt[at + 8..at + n];
    }
  }

  lemma ParsesIPv4(pkt: Bytes)
    requires IsIPv4(pkt)
    ensures Parse(pkt).Some? && SaysIPv4(pkt, Parse(pkt).value)
  {
    var at := pkt[0] % 16 * 4;
    TrimEnds(pkt);
    FragmentBits(pkt[6], pkt[7]);
    if HasUdp(pkt) {
      ParsedUdp(pkt, End(pkt), at);
    }
    hide ParseUdp, Trim, Classify;
    assert pkt[12..16] == [pkt[12], pkt[13], pkt[14], pkt[15]];
    assert pkt[16..20] == [pkt[16], pkt[17], pkt[18], pkt[19]];
  }

  lemma ParsesIPv6(pkt: Bytes)
    requires IsIPv6(pkt)
    ensures Parse(pkt).Some? && SaysIPv6(pkt, Parse(pkt).value)
  {
    hide Classify;
  }

  lemma ParsedNoise(pkt: Bytes)
    requires IsIPv4(pkt) || IsIPv6(pkt)
    ensures Parse(pkt).Some? && NoiseOk(Parse(pkt).value)
  {
    if IsIPv4(pkt) {
      ParsesIPv4(pkt);
    } else {
      ParsesIPv6(pkt);
    }
    var info := Parse(pkt).value;
    assert info.noise == Classify(info.version, info.proto, info.dst, info.dstPort) by {
      hide Classify, Trim, ParseUdp, SaysIPv4, SaysIPv6;
    }
    hide Parse, Trim, ParseUdp, Classify, NoiseOk;
    ClassifiesExactly(info.version, info.proto, info.dst, info.dstPort, info);
  }

  /** Main result: which byte strings parse, and what every field of the answer is. */
  lemma ParsesExactly(pkt: Bytes)
    ensures Parse(pkt).Some? <==> IsIPv4(pkt) || IsIPv6(pkt)
    ensures IsIPv4(pkt) ==> SaysIPv4(pkt, Parse(pkt).value)
    ensures IsIPv6(pkt) ==> SaysIPv6(pkt, Parse(pkt).value)
    ensures Parse(pkt).Some? ==> NoiseOk(Parse(pkt).value)
  {
    hide Classify, Trim, ParseUdp, SaysIPv4, SaysIPv6, NoiseOk;
    if IsIPv4(pkt) {
      ParsesIPv4(pkt);
      ParsedNoise(pkt);
    }
    if IsIPv6(pkt) {
      ParsesIPv6(pkt);
      ParsedNoise(pkt);
    }
  }
}
