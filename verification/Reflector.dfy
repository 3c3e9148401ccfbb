/** The UDP reflector: which frames it accepts and what it does to their bytes. */
module Reflector {
  import opened MachineWords

  type Bytes = seq<Byte>

  const ETHERNET: nat := 14
  const IPV4: nat := 20
  const UDP: nat := 8
  const IPV4_MTU: nat := 1500
  const ETH_P_IP: nat := 0x0800
  const IPPROTO_UDP: Byte := 17

  function Be16(f: Bytes, at: nat): nat
    requires at + 2 <= |f|
  {
    256 * (f[at] as int) + f[at + 1]
  }

  /** The packet shapes the reflector serves: untagged IPv4 with a 20-byte header, UDP, not
      fragmented (only DF may be set), with lengths that fit the frame and agree. */
  predicate Accepts(f: Bytes) {
    && ETHERNET + IPV4 + UDP <= |f| <= ETHERNET + IPV4_MTU
    && Be16(f, 12) == ETH_P_IP && f[14] == 0x45 && f[23] == IPPROTO_UDP
    && Be16(f, 20) % 0x4000 == 0 && Be16(f, 20) < 0x8000
    && IPV4 + UDP <= Be16(f, 16) <= |f| - ETHERNET
    && Be16(f, 38) == Be16(f, 16) - IPV4
  }

  /** The reflected frame, field by field: destination and source MAC, IPv4 address and UDP
      port change places, everything else stays where it is. */
  function Reflect(f: Bytes): (g: Bytes)
    ensures |g| == |f|
  {
    if |f| < 42 then f else
    f[6..12] + f[0..6] + f[12..26] + f[30..34] + f[26..30] + f[36..38] + f[34..36] + f[38..]
  }

  /** Which received byte ends up at offset i. */
  function Origin(i: nat): nat {
    if i < 6 then i + 6 else if i < 12 then i - 6
    else if 26 <= i < 30 then i + 4 else if 30 <= i < 34 then i - 4
    else if 34 <= i < 36 then i + 2 else if 36 <= i < 38 then i - 2
    else i
  }

  lemma ReflectAt(f: Bytes, i: nat)
    requires 42 <= |f| && i < |f|
    ensures Origin(i) < |f| && Reflect(f)[i] == f[Origin(i)]
  {
    var a, b, c, d, e := f[6..12] + f[0..6], f[12..26], f[30..34] + f[26..30], f[36..38] + f[34..36], f[38..];
    assert Reflect(f) == a + b + c + d + e;
    if i < 12 {
      assert Reflect(f)[i] == a[i];
    } else if i < 26 {
      assert Reflect(f)[i] == b[i - 12];
    } else if i < 34 {
      assert Reflect(f)[i] == c[i - 26];
    } else if i < 38 {
      assert Reflect(f)[i] == d[i - 34];
    } else {
      assert Reflect(f)[i] == e[i - 38];
    }
  }

  /** Reflection is its own inverse, on frames of any content. */
  lemma ReflectTwice(f: Bytes)
    ensures Reflect(Reflect(f)) == f
  {
    if |f| >= 42 {
      forall i | 0 <= i < |f|
        ensures Reflect(Reflect(f))[i] == f[i]
      {
        ReflectAt(f, i);
        ReflectAt(Reflect(f), i);
        ReflectAt(f, Origin(i));
      }
    }
  }

  /** The fields the acceptance test reads do not move, so a reflected frame is accepted
      exactly when the original is. */
  lemma ReflectKeepsShape(f: Bytes)
    ensures Accepts(Reflect(f)) == Accepts(f)
    ensures |f| >= 42 ==> forall i :: 12 <= i < 26 || 38 <= i < |f| ==> Reflect(f)[i] == f[i]
  {
    if |f| >= 42 {
      forall i | 12 <= i < 26 || 38 <= i < |f|
        ensures Reflect(f)[i] == f[i]
      {
        ReflectAt(f, i);
      }
      assert forall at :: at in {12, 16, 20, 38} ==> Be16(Reflect(f), at) == Be16(f, at);
    }
  }

  /** The fragment test (flags & 0xbfff) == 0 admits only the don't-fragment bit. */
  lemma FragmentTest(x: nat)
    requires x < 0x1_0000
    ensures BitAnd(x, 0xbfff) == 0 <==> x % 0x4000 == 0 && x < 0x8000
  {
    assert Pow2(8) == 256;
    assert Pow2(14) == 0x4000;
    AndGapMask(x, x / 0x4000, x % 0x4000, 14);
    assert BitAnd(0, 2) == 0 && BitAnd(1, 2) == 0 && BitAnd(2, 2) == 2 && BitAnd(3, 2) == 2;
  }

  /** m with the bytes from `at` on replaced. */
  function Splice(m: Bytes, at: nat, bytes: Bytes): (r: Bytes)
    requires at + |bytes| <= |m|
    ensures |r| == |m| && r[at..at + |bytes|] == bytes
    ensures forall i :: 0 <= i < |m| && !(at <= i < at + |bytes|) ==> r[i] == m[i]
  {
    m[..at] + bytes + m[at + |bytes|..]
  }

  lemma SpliceIs(m: Bytes, m': Bytes, at: nat, bytes: Bytes)
    requires at + |bytes| <= |m| == |m'| && m'[at..at + |bytes|] == bytes
    requires forall i :: 0 <= i < |m| && !(at <= i < at + |bytes|) ==> m'[i] == m[i]
    ensures m' == Splice(m, at, bytes)
  {
    forall i | 0 <= i < |m|
      ensures m'[i] == Splice(m, at, bytes)[i]
    {
      if at <= i < at + |bytes| {
        assert m'[i] == m'[at..at + |bytes|][i - at];
        assert Splice(m, at, bytes)[i] == Splice(m, at, bytes)[at..at + |bytes|][i - at];
      }
    }
  }

  /** reflect_swap on the bytes [off, off + len) of the UMEM. */
  method ReflectSwap(umem: array<Byte>, off: nat, len: nat) returns (accepted: bool)
    requires off + len <= umem.Length
    modifies umem
    ensures accepted == Accepts(old(umem[off..off + len]))
    ensures umem[..] == if accepted then Splice(old(umem[..]), off, Reflect(old(umem[off..off + len]))) else old(umem[..])
  {
    accepted := HasReflectableShape(umem, off, len);
    if accepted {
      SwapEndpoints(umem, off, len);
      SpliceIs(old(umem[..]), umem[..], off, Reflect(old(umem[off..off + len])));
    }
  }

  /** The read-only checks, in the order the source makes them. */
  method HasReflectableShape(umem: array<Byte>, off: nat, len: nat) returns (accepted: bool)
    requires off + len <= umem.Length
    ensures accepted == Accepts(umem[off..off + len])
  {
    if len < ETHERNET + IPV4 + UDP || len > ETHERNET + IPV4_MTU {
      return false;
    }
    var proto := ReadBe16(umem, off, len, 12);
    if proto != ETH_P_IP || umem[off + 14] != 0x45 || umem[off + 23] != IPPROTO_UDP {
      return false;
    }
    var flags := ReadBe16(umem, off, len, 20);
    FragmentTest(flags);
    if BitAnd(flags, 0xbfff) != 0 {
      return false;
    }
    var ipLength := ReadBe16(umem, off, len, 16);
    var udpLength := ReadBe16(umem, off, len, 38);
    return IPV4 + UDP <= ipLength <= len - ETHERNET && udpLength == ipLength - IPV4;
  }

  /** The three exchanges: MAC addresses, IPv4 addresses, UDP ports. */
  method SwapEndpoints(umem: array<Byte>, off: nat, len: nat)
    requires off + len <= umem.Length && 42 <= len
    modifies umem
    ensures umem[off..off + len] == Reflect(old(umem[off..off + len]))
    ensures forall i :: 0 <= i < umem.Length && !(off <= i < off + len) ==> umem[i] == old(umem[i])
  {
    ThreeExchanges(umem[off..off + len]);
    SwapFields(umem, off, len, 0, 6, 6);
    SwapFields(umem, off, len, 26, 30, 4);
    SwapFields(umem, off, len, 34, 36, 2);
  }

  /** f with the fields [a, a + width) and [b, b + width) exchanged. */
  function Exchanged(f: Bytes, a: nat, b: nat, width: nat): (g: Bytes)
    requires a + width <= b && b + width <= |f|
    ensures |g| == |f|
  {
    f[..a] + f[b..b + width] + f[a + width..b] + f[a..a + width] + f[b + width..]
  }

  lemma ExchangedAt(f: Bytes, a: nat, b: nat, width: nat, i: nat)
    requires a + width <= b && b + width <= |f| && i < |f|
    ensures Exchanged(f, a, b, width)[i] ==
            if a <= i < a + width then f[i + (b - a)] else if b <= i < b + width then f[i - (b - a)] else f[i]
  {
  }

  lemma ThreeExchanges(f: Bytes)
    requires 42 <= |f|
    ensures Exchanged(Exchanged(Exchanged(f, 0, 6, 6), 26, 30, 4), 34, 36, 2) == Reflect(f)
  {
    forall i | 0 <= i < |f|
      ensures Exchanged(Exchanged(Exchanged(f, 0, 6, 6), 26, 30, 4), 34, 36, 2)[i] == Reflect(f)[i]
    {
      ReflectAt(f, i);
      ThreeExchangesAt(f, Exchanged(f, 0, 6, 6), Exchanged(Exchanged(f, 0, 6, 6), 26, 30, 4), i);
    }
  }

  lemma ThreeExchangesAt(f: Bytes, g: Bytes, h: Bytes, i: nat)
    requires 42 <= |f| && i < |f| && g == Exchanged(f, 0, 6, 6) && h == Exchanged(g, 26, 30, 4)
    ensures Exchanged(h, 34, 36, 2)[i] == f[Origin(i)]
  {
    ExchangedAt(h, 34, 36, 2, i);
    ExchangedAt(g, 26, 30, 4, if 34 <= i < 38 then Origin(i) else i);
    ExchangedAt(f, 0, 6, 6, if 26 <= i < 38 then Origin(i) else i);
  }

  method ReadBe16(umem: array<Byte>, off: nat, len: nat, at: nat) returns (v: nat)
    requires off + len <= umem.Length && at + 2 <= len
    ensures v == Be16(umem[off..off + len], at) < 0x1_0000
  {
    v := 256 * (umem[off + at] as int) + umem[off + at + 1];
  }

  /** Exchange two disjoint fields of equal width through a temporary copy. */
  method SwapFields(umem: array<Byte>, off: nat, len: nat, a: nat, b: nat, width: nat)
    requires off + len <= umem.Length && a + width <= b && b + width <= len
    modifies umem
    ensures umem[off..off + len] == Exchanged(old(umem[off..off + len]), a, b, width)
    ensures forall i :: 0 <= i < umem.Length && !(off <= i < off + len) ==> umem[i] == old(umem[i])
  {
    var saved := umem[off + a..off + a + width];
    forall i | off + a <= i < off + a + width {
      umem[i] := umem[i + (b - a)];
    }
    forall i | off + b <= i < off + b + width {
      umem[i] := saved[i - off - b];
    }
    ghost var f := old(umem[off..off + len]);
    forall i | 0 <= i < len
      ensures umem[off..off + len][i] == Exchanged(f, a, b, width)[i]
    {
      assert umem[off..off + len][i] == umem[off + i];
      ExchangedAt(f, a, b, width, i);
      if a <= i < a + width {
        assert f[i + (b - a)] == old(umem[off + i + (b - a)]);
      } else if b <= i < b + width {
        assert umem[off + i] == saved[i - b];
      }
    }
  }
}
