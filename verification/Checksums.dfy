/** One's-complement checksums over reflected frames. */
module Checksums {
  import opened MachineWords
  import opened Reflector

  /** One's-complement addition of 16-bit words: the carry wraps around (section 2 of RFC 1071). */
  function OnesAdd(a: nat, b: nat): nat {
    var s := a + b;
    if s > 0xffff then s - 0xffff else s
  }

  /** The one's-complement sum of the big-endian 16-bit words of s; an odd last byte is
      padded with zero. */
  function OnesSum(s: Bytes): nat {
    if |s| == 0 then 0
    else if |s| == 1 then 256 * (s[0] as int)
    else OnesAdd(256 * (s[0] as int) + s[1], OnesSum(s[2..]))
  }

  /** The same words added as plain integers. */
  function WordSum(s: Bytes): nat {
    if |s| == 0 then 0
    else if |s| == 1 then 256 * (s[0] as int)
    else 256 * (s[0] as int) + s[1] + WordSum(s[2..])
  }

  /** Folding all carries of n back into 16 bits. */
  function Folded(n: nat): nat {
    if n == 0 then 0 else (n - 1) % 0xffff + 1
  }

  /** The wrap-around sum depends only on the plain sum, whatever the order of the words. */
  lemma {:induction false} OnesSumFolds(s: Bytes)
    ensures OnesSum(s) == Folded(WordSum(s)) <= 0xffff
  {
    if |s| >= 2 {
      OnesSumFolds(s[2..]);
      FoldOneMore(256 * (s[0] as int) + s[1], WordSum(s[2..]));
    }
  }

  /** Adding one word with end-around carry to a folded sum folds the larger sum. */
  lemma FoldOneMore(x: nat, n: nat)
    requires x <= 0xffff
    ensures OnesAdd(x, Folded(n)) == Folded(x + n) <= 0xffff
  {
    if x > 0 && n > 0 {
      var q, r := (n - 1) / 0xffff, (n - 1) % 0xffff;
      assert n - 1 == q * 0xffff + r;
      if x + r < 0xffff {
        ModUnique(x + n - 1, 0xffff, q, x + r);
      } else {
        ModUnique(x + n - 1, 0xffff, q + 1, x + r - 0xffff);
      }
    }
  }

  lemma {:induction false} WordSumAppend(a: Bytes, b: Bytes)
    requires |a| % 2 == 0
    ensures WordSum(a + b) == WordSum(a) + WordSum(b)
  {
    if a == [] {
      assert a + b == b;
    } else {
      WordSumAppend(a[2..], b);
      assert (a + b)[2..] == a[2..] + b;
    }
  }

  lemma WordSumOfFour(a: Bytes, x: Bytes, y: Bytes, b: Bytes)
    requires |a| % 2 == |x| % 2 == |y| % 2 == 0
    ensures WordSum(a + x + y + b) == WordSum(a) + WordSum(x) + WordSum(y) + WordSum(b)
  {
    WordSumAppend(a + x + y, b);
    WordSumAppend(a + x, y);
    WordSumAppend(a, x);
  }

  /** Exchanging two even-sized neighbours permutes the addends. */
  lemma SwapKeepsWordSum(a: Bytes, x: Bytes, y: Bytes, b: Bytes)
    requires |a| % 2 == |x| % 2 == |y| % 2 == 0
    ensures WordSum(a + x + y + b) == WordSum(a + y + x + b)
  {
    WordSumOfFour(a, x, y, b);
    WordSumOfFour(a, y, x, b);
  }

  /** The IPv4 header, the UDP datagram, and the pseudo-header UDP checksums also cover. */
  function IpHeader(f: Bytes): Bytes
    requires |f| >= 42
  {
    f[14..34]
  }

  function Datagram(f: Bytes): Bytes
    requires Accepts(f)
  {
    f[34..14 + Be16(f, 16)]
  }

  function PseudoHeader(f: Bytes): Bytes
    requires |f| >= 42
  {
    f[26..34] + [0, f[23]] + f[38..40]
  }

  predicate ValidChecksums(f: Bytes)
    requires Accepts(f)
  {
    && OnesSum(IpHeader(f)) == 0xffff
    && (f[40..42] == [0, 0] || OnesSum(PseudoHeader(f) + Datagram(f)) == 0xffff)
  }

  lemma HeaderSums(f: Bytes)
    requires Accepts(f)
    ensures WordSum(IpHeader(Reflect(f))) == WordSum(IpHeader(f))
  {
    var g, src, dst := Reflect(f), f[26..30], f[30..34];
    assert IpHeader(f) == f[14..26] + src + dst + [];
    assert IpHeader(g) == f[14..26] + dst + src + [];
    SwapKeepsWordSum(f[14..26], src, dst, []);
  }

  lemma PseudoHeaderSums(f: Bytes)
    requires Accepts(f)
    ensures WordSum(PseudoHeader(Reflect(f))) == WordSum(PseudoHeader(f))
  {
    var src, dst, tail := f[26..30], f[30..34], [0, f[23]] + f[38..40];
    assert PseudoHeader(f) == [] + src + dst + tail;
    assert PseudoHeader(Reflect(f)) == [] + dst + src + tail;
    SwapKeepsWordSum([], src, dst, tail);
  }

  lemma DatagramSums(f: Bytes)
    requires Accepts(f)
    ensures Accepts(Reflect(f)) && WordSum(Datagram(Reflect(f))) == WordSum(Datagram(f))
  {
    var g := Reflect(f);
    ReflectKeepsShape(f);
    var end := 14 + Be16(f, 16);
    assert Be16(g, 16) == Be16(f, 16);
    var rest := f[38..end];
    assert g[38..end] == rest;
    assert Datagram(f) == [] + f[34..36] + f[36..38] + rest;
    assert g[34..36] == f[36..38] && g[36..38] == f[34..36];
    assert Datagram(g) == [] + f[36..38] + f[34..36] + rest;
    SwapKeepsWordSum([], f[34..36], f[36..38], rest);
  }

  /** Reflection leaves both checksum sums unchanged, for every payload. */
  lemma ReflectKeepsSums(f: Bytes)
    requires Accepts(f)
    ensures Accepts(Reflect(f))
    ensures OnesSum(IpHeader(Reflect(f))) == OnesSum(IpHeader(f))
    ensures OnesSum(PseudoHeader(Reflect(f)) + Datagram(Reflect(f))) == OnesSum(PseudoHeader(f) + Datagram(f))
  {
    HeaderSums(f);
    SameFold(IpHeader(Reflect(f)), IpHeader(f));
    PseudoHeaderSums(f);
    DatagramSums(f);
    WordSumAppend(PseudoHeader(f), Datagram(f));
    WordSumAppend(PseudoHeader(Reflect(f)), Datagram(Reflect(f)));
    SameFold(PseudoHeader(Reflect(f)) + Datagram(Reflect(f)), PseudoHeader(f) + Datagram(f));
  }

  lemma SameFold(s: Bytes, t: Bytes)
    requires WordSum(s) == WordSum(t)
    ensures OnesSum(s) == OnesSum(t)
  {
    OnesSumFolds(s);
    OnesSumFolds(t);
  }

  /** The UDP checksum field does not move. */
  lemma ChecksumFieldStays(f: Bytes)
    requires |f| >= 42
    ensures Reflect(f)[40..42] == f[40..42]
  {
    ReflectAt(f, 40);
    ReflectAt(f, 41);
  }

  /** A frame with valid checksums is reflected into one with valid checksums, and back. */
  lemma ReflectKeepsValidChecksums(f: Bytes)
    requires Accepts(f)
    ensures Accepts(Reflect(f)) && ValidChecksums(Reflect(f)) == ValidChecksums(f)
  {
    ReflectKeepsSums(f);
    ChecksumFieldStays(f);
  }
}
