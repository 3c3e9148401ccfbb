/** The frames the reflector serves, written out field by field as they are on the wire. */
module UdpFrames {
  import opened MachineWords
  import opened Reflector
  import Checksums

  /** An untagged, unfragmented IPv4/UDP frame without IP options. The padding is what follows
      the IP packet, as in short frames. */
  datatype UdpFrame = UdpFrame(
    dstMac: Bytes, srcMac: Bytes,
    tos: Byte, id: Bytes, dontFragment: bool, ttl: Byte, headerSum: Bytes, srcIp: Bytes, dstIp: Bytes,
    srcPort: Bytes, dstPort: Bytes, udpSum: Bytes, payload: Bytes, padding: Bytes)

  /** Fields have their sizes, and the frame is at most a 14-byte header and 1500 bytes long. */
  predicate Fits(p: UdpFrame) {
    && |p.dstMac| == |p.srcMac| == 6 && |p.id| == |p.headerSum| == 2 && |p.srcIp| == |p.dstIp| == 4
    && |p.srcPort| == |p.dstPort| == |p.udpSum| == 2
    && 42 + |p.payload| + |p.padding| <= 1514
  }

  function Word(n: nat): (w: Bytes)
    requires n < 0x1_0000
    ensures |w| == 2
  {
    [n / 256, n % 256]
  }

  function Ethernet(p: UdpFrame): Bytes {
    p.dstMac + p.srcMac + [0x08, 0x00]
  }

  function Ip(p: UdpFrame): Bytes
    requires Fits(p)
  {
    [0x45, p.tos] + Word(28 + |p.payload|) + p.id + [if p.dontFragment then 0x40 else 0x00, 0x00]
    + [p.ttl, 17] + p.headerSum + p.srcIp + p.dstIp
  }

  function Udp(p: UdpFrame): Bytes
    requires Fits(p)
  {
    p.srcPort + p.dstPort + Word(8 + |p.payload|) + p.udpSum
  }

  function Encode(p: UdpFrame): (f: Bytes)
    requires Fits(p)
    ensures 42 <= |f| <= 1514
  {
    Ethernet(p) + Ip(p) + Udp(p) + p.payload + p.padding
  }

  /** The fields at their offsets. */
  function Decode(f: Bytes): UdpFrame
    requires Accepts(f)
  {
    var end := 14 + Be16(f, 16);
    UdpFrame(f[0..6], f[6..12], f[15], f[18..20], f[20] == 0x40, f[22], f[24..26], f[26..30], f[30..34],
             f[34..36], f[36..38], f[40..42], f[42..end], f[end..])
  }

  /** The same frame with the two ends exchanged. */
  function Swapped(p: UdpFrame): UdpFrame {
    p.(dstMac := p.srcMac, srcMac := p.dstMac, srcIp := p.dstIp, dstIp := p.srcIp,
       srcPort := p.dstPort, dstPort := p.srcPort)
  }

  // ---------------------------------------------------------------- where the fields are

  lemma Sections(p: UdpFrame)
    requires Fits(p)
    ensures var f := Encode(p);
            && f[0..14] == Ethernet(p) && f[14..34] == Ip(p) && f[34..42] == Udp(p)
            && f[42..42 + |p.payload|] == p.payload && f[42 + |p.payload|..] == p.padding
  {
  }

  lemma IpFields(p: UdpFrame)
    requires Fits(p)
    ensures var h := Ip(p);
            && |h| == 20 && h[0] == 0x45 && h[1] == p.tos && h[2..4] == Word(28 + |p.payload|) && h[4..6] == p.id
            && h[6] == (if p.dontFragment then 0x40 else 0) && h[7] == 0 && h[8] == p.ttl && h[9] == 17
            && h[10..12] == p.headerSum && h[12..16] == p.srcIp && h[16..20] == p.dstIp
  {
  }

  lemma UdpFields(p: UdpFrame)
    requires Fits(p)
    ensures var h := Udp(p);
            && |h| == 8 && h[0..2] == p.srcPort && h[2..4] == p.dstPort && h[4..6] == Word(8 + |p.payload|) && h[6..8] == p.udpSum
  {
  }

  /** A part of a part. */
  lemma At(f: Bytes, g: Bytes, from: nat, to: nat, a: nat, b: nat)
    requires from <= to <= |f| && g == f[from..to] && a <= b <= |g|
    ensures g[a..b] == f[from + a..from + b]
  {
    forall i | a <= i < b
      ensures g[i] == f[from + i]
    {
    }
  }

  lemma EthernetAt(p: UdpFrame, f: Bytes)
    requires Fits(p) && |f| >= 14 && f[0..14] == Ethernet(p)
    ensures f[0..6] == p.dstMac && f[6..12] == p.srcMac && f[12] == 8 && f[13] == 0
  {
    At(f, Ethernet(p), 0, 14, 0, 6);
    At(f, Ethernet(p), 0, 14, 6, 12);
    assert f[12] == Ethernet(p)[12] && f[13] == Ethernet(p)[13];
  }

  lemma IpAt(p: UdpFrame, f: Bytes)
    requires Fits(p) && |f| >= 34 && f[14..34] == Ip(p)
    ensures f[14] == 0x45 && f[15] == p.tos && f[16..18] == Word(28 + |p.payload|) && f[18..20] == p.id
    ensures f[20] == (if p.dontFragment then 0x40 else 0) && f[21] == 0 && f[22] == p.ttl && f[23] == 17
    ensures f[24..26] == p.headerSum && f[26..30] == p.srcIp && f[30..34] == p.dstIp
  {
    IpFields(p);
    var h := Ip(p);
    forall i | 0 <= i < 20
      ensures f[14 + i] == h[i]
    {
    }
    assert f[14] == h[0] && f[15] == h[1] && f[20] == h[6] && f[21] == h[7] && f[22] == h[8] && f[23] == h[9];
    At(f, h, 14, 34, 2, 4);
    At(f, h, 14, 34, 4, 6);
    At(f, h, 14, 34, 10, 12);
    At(f, h, 14, 34, 12, 16);
    At(f, h, 14, 34, 16, 20);
  }

  lemma UdpAt(p: UdpFrame, f: Bytes)
    requires Fits(p) && |f| >= 42 && f[34..42] == Udp(p)
    ensures f[34..36] == p.srcPort && f[36..38] == p.dstPort && f[38..40] == Word(8 + |p.payload|) && f[40..42] == p.udpSum
  {
    UdpFields(p);
    At(f, Udp(p), 34, 42, 0, 2);
    At(f, Udp(p), 34, 42, 2, 4);
    At(f, Udp(p), 34, 42, 4, 6);
    At(f, Udp(p), 34, 42, 6, 8);
  }

  /** All of it, in an encoded frame. */
  lemma Fields(p: UdpFrame)
    requires Fits(p)
    ensures var f := Encode(p);
            && f[0..6] == p.dstMac && f[6..12] == p.srcMac && f[12] == 8 && f[13] == 0
            && f[14] == 0x45 && f[15] == p.tos && Be16(f, 16) == 28 + |p.payload| && f[18..20] == p.id
            && f[20] == (if p.dontFragment then 0x40 else 0) && f[21] == 0 && f[22] == p.ttl && f[23] == 17
            && f[24..26] == p.headerSum && f[26..30] == p.srcIp && f[30..34] == p.dstIp
            && f[34..36] == p.srcPort && f[36..38] == p.dstPort && Be16(f, 38) == 8 + |p.payload|
            && f[38..40] == Word(8 + |p.payload|) && f[40..42] == p.udpSum
  {
    var f := Encode(p);
    Sections(p);
    EthernetAt(p, f);
    IpAt(p, f);
    UdpAt(p, f);
    WordValue(f, 16, 28 + |p.payload|);
    WordValue(f, 38, 8 + |p.payload|);
  }

  lemma WordValue(f: Bytes, at: nat, n: nat)
    requires at + 2 <= |f| && n < 0x1_0000 && f[at..at + 2] == Word(n)
    ensures Be16(f, at) == n
  {
    assert f[at] == f[at..at + 2][0] && f[at + 1] == f[at..at + 2][1];
  }

  // ---------------------------------------------------------------- acceptance, exactly

  /** Every such frame is accepted. */
  lemma EncodedAccepted(p: UdpFrame)
    requires Fits(p)
    ensures Accepts(Encode(p))
  {
    Fields(p);
    FieldsAccepted(Encode(p), |p.payload|);
  }

  lemma FieldsAccepted(f: Bytes, n: nat)
    requires 42 + n <= |f| <= 1514 && f[12] == 8 && f[13] == 0 && f[14] == 0x45 && f[23] == 17
    requires (f[20] == 0 || f[20] == 0x40) && f[21] == 0 && Be16(f, 16) == 28 + n && Be16(f, 38) == 8 + n
    ensures Accepts(f)
  {
  }

  /** Every accepted frame is such a frame, with the fields Decode reads. */
  lemma AcceptedEncoded(f: Bytes)
    requires Accepts(f)
    ensures Fits(Decode(f)) && Encode(Decode(f)) == f
  {
    var p := Decode(f);
    HeaderRebuilt(f);
    var end := 14 + Be16(f, 16);
    assert f == f[0..14] + f[14..34] + f[34..42] + f[42..end] + f[end..];
  }

  lemma HeaderRebuilt(f: Bytes)
    requires Accepts(f)
    ensures Fits(Decode(f))
    ensures Ethernet(Decode(f)) == f[0..14] && Ip(Decode(f)) == f[14..34] && Udp(Decode(f)) == f[34..42]
  {
    LiteralBytes(f);
    assert f[0..14] == f[0..6] + f[6..12] + [f[12], f[13]];
    IpRebuilt(f);
    assert f[34..42] == f[34..36] + f[36..38] + f[38..40] + f[40..42];
  }

  lemma IpRebuilt(f: Bytes)
    requires Accepts(f)
    ensures Fits(Decode(f)) && Ip(Decode(f)) == f[14..34]
  {
    LiteralBytes(f);
    var p := Decode(f);
    IpFields(p);
    var h := Ip(p);
    forall i | 0 <= i < 20
      ensures h[i] == f[14 + i]
    {
      if 2 <= i < 4 {
        assert h[i] == h[2..4][i - 2] && f[14 + i] == f[16..18][i - 2];
      } else if 4 <= i < 6 {
        assert h[i] == h[4..6][i - 4] && f[14 + i] == f[18..20][i - 4];
      } else if 10 <= i < 12 {
        assert h[i] == h[10..12][i - 10] && f[14 + i] == f[24..26][i - 10];
      } else if 12 <= i < 16 {
        assert h[i] == h[12..16][i - 12] && f[14 + i] == f[26..30][i - 12];
      } else if 16 <= i {
        assert h[i] == h[16..20][i - 16] && f[14 + i] == f[30..34][i - 16];
      }
    }
  }

  lemma LiteralBytes(f: Bytes)
    requires Accepts(f)
    ensures f[12] == 8 && f[13] == 0 && f[14] == 0x45 && f[23] == 17 && (f[20] == 0 || f[20] == 0x40) && f[21] == 0
    ensures Be16(f, 38) < 0x1_0000 && Word(Be16(f, 16)) == f[16..18] && Word(Be16(f, 38)) == f[38..40]
  {
  }

  /** The reflector accepts exactly the well-formed frames of 42 to 1514 bytes. */
  lemma AcceptsExactly(f: Bytes)
    ensures Accepts(f) <==> exists p :: Fits(p) && Encode(p) == f
  {
    if Accepts(f) {
      AcceptedEncoded(f);
    }
    if p :| Fits(p) && Encode(p) == f {
      EncodedAccepted(p);
    }
  }

  /** No two of them look alike. */
  lemma DecodeEncode(p: UdpFrame)
    requires Fits(p)
    ensures Accepts(Encode(p)) && Decode(Encode(p)) == p
  {
    EncodedAccepted(p);
    Fields(p);
    Sections(p);
  }

  // ---------------------------------------------------------------- reflection and checksums

  /** Reflecting a frame exchanges its two ends and changes nothing else. */
  lemma ReflectEncoded(p: UdpFrame)
    requires Fits(p)
    ensures Fits(Swapped(p)) && Reflect(Encode(p)) == Encode(Swapped(p))
  {
    Sections(p);
    ReflectLaid(p, Encode(p));
  }

  lemma ReflectLaid(p: UdpFrame, f: Bytes)
    requires Fits(p) && |f| == 42 + |p.payload| + |p.padding|
    requires f[0..14] == Ethernet(p) && f[14..34] == Ip(p) && f[34..42] == Udp(p)
    requires f[42..42 + |p.payload|] == p.payload && f[42 + |p.payload|..] == p.padding
    ensures Fits(Swapped(p)) && Reflect(f) == Encode(Swapped(p))
  {
    ReflectInParts(f);
    EthernetSwapped(p, f);
    IpSwapped(p, f);
    UdpSwapped(p, f);
    RestIs(f, p.payload, p.padding);
    var q := Swapped(p);
    Regrouped(Ethernet(q) + Ip(q) + Udp(q), p.payload, p.padding);
  }

  lemma Regrouped(a: Bytes, x: Bytes, y: Bytes)
    ensures a + (x + y) == a + x + y
  {
  }

  lemma ReflectInParts(f: Bytes)
    requires |f| >= 42
    ensures Reflect(f) == (f[6..12] + f[0..6] + f[12..14]) + (f[14..26] + f[30..34] + f[26..30])
                          + (f[36..38] + f[34..36] + f[38..42]) + f[42..]
  {
    assert f[12..26] == f[12..14] + f[14..26];
    assert f[38..] == f[38..42] + f[42..];
  }

  lemma RestIs(f: Bytes, a: Bytes, b: Bytes)
    requires |f| == 42 + |a| + |b| && f[42..42 + |a|] == a && f[42 + |a|..] == b
    ensures f[42..] == a + b
  {
    assert f[42..] == f[42..42 + |a|] + f[42 + |a|..];
  }

  lemma EthernetSwapped(p: UdpFrame, f: Bytes)
    requires Fits(p) && |f| >= 42 && f[0..14] == Ethernet(p)
    ensures f[6..12] + f[0..6] + f[12..14] == Ethernet(Swapped(p))
  {
    EthernetAt(p, f);
  }

  lemma IpSwapped(p: UdpFrame, f: Bytes)
    requires Fits(p) && |f| >= 42 && f[14..34] == Ip(p)
    ensures f[14..26] + f[30..34] + f[26..30] == Ip(Swapped(p))
  {
    IpFields(p);
    At(f, Ip(p), 14, 34, 0, 12);
    At(f, Ip(p), 14, 34, 12, 16);
    At(f, Ip(p), 14, 34, 16, 20);
    var front := Ip(p)[0..12];
    assert Ip(p) == front + p.srcIp + p.dstIp;
    assert Ip(Swapped(p)) == front + p.dstIp + p.srcIp;
  }

  lemma UdpSwapped(p: UdpFrame, f: Bytes)
    requires Fits(p) && |f| >= 42 && f[34..42] == Udp(p)
    ensures f[36..38] + f[34..36] + f[38..42] == Udp(Swapped(p))
  {
    UdpFields(p);
    At(f, Udp(p), 34, 42, 0, 2);
    At(f, Udp(p), 34, 42, 2, 4);
    At(f, Udp(p), 34, 42, 4, 8);
  }

  /** What the checksums cover: the IPv4 header (section 3.1 of RFC 791), and the pseudo-header
      with the whole datagram (RFC 768). */
  lemma ChecksumCoverage(p: UdpFrame)
    requires Fits(p)
    ensures var f := Encode(p);
            && Accepts(f) && Checksums.IpHeader(f) == Ip(p) && Checksums.Datagram(f) == Udp(p) + p.payload
            && Checksums.PseudoHeader(f) == p.srcIp + p.dstIp + [0, 17] + Word(8 + |p.payload|)
  {
    var f := Encode(p);
    EncodedAccepted(p);
    Sections(p);
    Fields(p);
    assert f[26..34] == f[26..30] + f[30..34];
    assert f[34..42 + |p.payload|] == f[34..42] + f[42..42 + |p.payload|];
  }

  /** A checksum field as a sender computes it: the complement of the one's-complement sum of the
      rest (section 1 of RFC 1071). The two representations of zero count as equal. */
  predicate Correct(field: nat, rest: nat) {
    field == 0xffff - rest || (field == 0xffff && rest == 0xffff)
  }

  lemma ComplementExact(n: nat, field: nat)
    requires n > 0 && field <= 0xffff
    ensures Checksums.Folded(n + field) == 0xffff <==> Correct(field, Checksums.Folded(n))
  {
    var q, r := (n - 1) / 0xffff, (n - 1) % 0xffff;
    assert n - 1 == 0xffff * q + r;
    if r + field < 0xffff {
      ModUnique(n + field - 1, 0xffff, q, r + field);
    } else {
      ModUnique(n + field - 1, 0xffff, q + 1, r + field - 0xffff);
    }
  }

  /** A field that is zero leaves the rest of the sum. */
  lemma FieldAdds(a: Bytes, field: Bytes, b: Bytes)
    requires |a| % 2 == 0 && |field| == 2
    ensures Checksums.WordSum(a + field + b) == Checksums.WordSum(a + [0, 0] + b) + Be16(field, 0)
  {
    Checksums.WordSumAppend(a + field, b);
    Checksums.WordSumAppend(a, field);
    Checksums.WordSumAppend(a + [0, 0], b);
    Checksums.WordSumAppend(a, [0, 0]);
    assert field[2..] == [] && [0, 0][2..] == [];
  }

  lemma FieldExact(a: Bytes, field: Bytes, b: Bytes)
    requires |a| % 2 == 0 && |field| == 2 && Checksums.WordSum(a + [0, 0] + b) > 0
    ensures Checksums.OnesSum(a + field + b) == 0xffff <==> Correct(Be16(field, 0), Checksums.OnesSum(a + [0, 0] + b))
  {
    FieldAdds(a, field, b);
    Checksums.OnesSumFolds(a + field + b);
    Checksums.OnesSumFolds(a + [0, 0] + b);
    ComplementExact(Checksums.WordSum(a + [0, 0] + b), Be16(field, 0));
  }

  lemma HeaderExact(p: UdpFrame)
    requires Fits(p)
    ensures Checksums.OnesSum(Ip(p)) == 0xffff <==>
            Correct(Be16(p.headerSum, 0), Checksums.OnesSum(Ip(p.(headerSum := [0, 0]))))
  {
    var a := [0x45, p.tos] + Word(28 + |p.payload|) + p.id + [if p.dontFragment then 0x40 else 0x00, 0x00] + [p.ttl, 17];
    var b := p.srcIp + p.dstIp;
    assert Ip(p) == a + p.headerSum + b;
    assert Ip(p.(headerSum := [0, 0])) == a + [0, 0] + b;
    PositiveSum(a + [0, 0] + b);
    FieldExact(a, p.headerSum, b);
  }

  lemma PositiveSum(s: Bytes)
    requires |s| >= 2 && s[0] > 0
    ensures Checksums.WordSum(s) > 0
  {
  }

  /** The pseudo-header and the datagram. */
  function Covered(p: UdpFrame): Bytes
    requires Fits(p)
  {
    p.srcIp + p.dstIp + [0, 17] + Word(8 + |p.payload|) + (Udp(p) + p.payload)
  }

  lemma CoveredExact(p: UdpFrame)
    requires Fits(p)
    ensures Checksums.OnesSum(Covered(p)) == 0xffff <==>
            Correct(Be16(p.udpSum, 0), Checksums.OnesSum(Covered(p.(udpSum := [0, 0]))))
  {
    var ends, mid := p.srcIp + p.dstIp, Word(8 + |p.payload|) + p.srcPort + p.dstPort + Word(8 + |p.payload|);
    var a := ends + [0, 17] + mid;
    assert Covered(p) == a + p.udpSum + p.payload;
    assert Covered(p.(udpSum := [0, 0])) == a + [0, 0] + p.payload;
    ProtocolCounts(ends, mid + [0, 0] + p.payload);
    assert ends + [0, 17] + (mid + [0, 0] + p.payload) == a + [0, 0] + p.payload;
    FieldExact(a, p.udpSum, p.payload);
  }

  lemma ProtocolCounts(ends: Bytes, rest: Bytes)
    requires |ends| % 2 == 0
    ensures Checksums.WordSum(ends + [0, 17] + rest) > 0
  {
    Checksums.WordSumAppend(ends + [0, 17], rest);
    Checksums.WordSumAppend(ends, [0, 17]);
  }

  /** A frame's checksums are valid exactly if both fields are what the sender should have computed,
      or no UDP checksum was sent. */
  lemma ValidExactly(p: UdpFrame)
    requires Fits(p)
    ensures Accepts(Encode(p))
    ensures Checksums.ValidChecksums(Encode(p)) <==>
            && Correct(Be16(p.headerSum, 0), Checksums.OnesSum(Ip(p.(headerSum := [0, 0]))))
            && (p.udpSum == [0, 0] || Correct(Be16(p.udpSum, 0), Checksums.OnesSum(Covered(p.(udpSum := [0, 0])))))
  {
    ChecksumCoverage(p);
    Fields(p);
    HeaderExact(p);
    CoveredExact(p);
    assert Checksums.PseudoHeader(Encode(p)) + Checksums.Datagram(Encode(p)) == Covered(p);
  }
}
