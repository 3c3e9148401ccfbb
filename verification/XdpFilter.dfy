/** The in-kernel classifier: Ethernet, at most two VLAN tags, IPv4 source match. */
module XdpFilter {
  import opened MachineWords
  import opened Reflector

  const ETH_P_8021Q: nat := 0x8100
  const ETH_P_8021AD: nat := 0x88A8
  const VLAN_MAX_DEPTH: nat := 2

  datatype Verdict = Pass | Redirect

  /** The maps the program reads: the address to match, absent if the lookup fails, and the
      receive queues that have a socket. */
  datatype Maps = Maps(hasTarget: bool, target: Bytes, sockets: set<nat>)

  predicate IsTag(proto: nat) { proto == ETH_P_8021Q || proto == ETH_P_8021AD }

  datatype Found = Truncated | EtherType(at: nat)

  /** Skip at most `depth` tags, starting from the EtherType at offset `at`. */
  function Strip(f: Bytes, at: nat, depth: nat): (r: Found)
    requires at + 2 <= |f|
    ensures r.EtherType? ==> at <= r.at && r.at + 2 <= |f|
    decreases depth
  {
    if depth == 0 || !IsTag(Be16(f, at)) then EtherType(at)
    else if at + 6 > |f| then Truncated
    else Strip(f, at + 4, depth - 1)
  }

  /** Whether the IPv4 packet behind the EtherType at `at` comes from the target. */
  predicate FromTarget(f: Bytes, at: nat, m: Maps)
    requires at + 2 <= |f|
  {
    && Be16(f, at) == ETH_P_IP && at + 2 + IPV4 <= |f|
    && m.hasTarget && f[at + 14..at + 18] == m.target
  }

  function Classify(f: Bytes, queue: nat, m: Maps): Verdict {
    if |f| < ETHERNET then Pass
    else
      var t := Strip(f, 12, VLAN_MAX_DEPTH);
      if t.EtherType? && FromTarget(f, t.at, m) && queue in m.sockets then Redirect else Pass
  }

  /** Two bytes that announce an 802.1Q or 802.1ad tag. */
  predicate TagBytes(a: Byte, b: Byte) {
    (a == 0x81 && b == 0x00) || (a == 0x88 && b == 0xA8)
  }

  /** Behind k tags comes an IPv4 header, whole, with this source address. */
  predicate IpBehindTags(f: Bytes, k: nat, source: Bytes) {
    && 34 + 4 * k <= |f| && (forall j: nat :: j < k ==> TagBytes(f[12 + 4 * j], f[13 + 4 * j]))
    && f[12 + 4 * k] == 0x08 && f[13 + 4 * k] == 0x00 && f[26 + 4 * k..30 + 4 * k] == source
  }

  /** A frame is redirected exactly if its queue has a socket, there is a target, and behind no,
      one or two tags it is an IPv4 packet from the target. */
  lemma RedirectExactly(f: Bytes, queue: nat, m: Maps)
    ensures Classify(f, queue, m) == Redirect <==>
            queue in m.sockets && m.hasTarget && exists k: nat :: k <= 2 && IpBehindTags(f, k, m.target)
  {
    if Classify(f, queue, m) == Redirect {
      var k := StripFinds(f, m);
      assert IpBehindTags(f, k, m.target);
    }
    if k: nat :| k <= 2 && IpBehindTags(f, k, m.target) && m.hasTarget {
      FoundByStrip(f, k, m);
    }
  }

  lemma TagIs(f: Bytes, at: nat)
    requires at + 2 <= |f|
    ensures IsTag(Be16(f, at)) <==> TagBytes(f[at], f[at + 1])
    ensures Be16(f, at) == ETH_P_IP <==> f[at] == 0x08 && f[at + 1] == 0x00
  {
  }

  lemma StripFinds(f: Bytes, m: Maps) returns (k: nat)
    requires |f| >= 14
    requires var t := Strip(f, 12, VLAN_MAX_DEPTH); t.EtherType? && FromTarget(f, t.at, m)
    ensures k <= 2 && IpBehindTags(f, k, m.target)
  {
    TagIs(f, 12);
    k := 0;
    if IsTag(Be16(f, 12)) {
      assert Strip(f, 12, 2) == Strip(f, 16, 1);
      TagIs(f, 16);
      k := 1;
      if IsTag(Be16(f, 16)) {
        assert Strip(f, 16, 1) == Strip(f, 20, 0);
        TagIs(f, 20);
        k := 2;
      }
    }
  }

  lemma FoundByStrip(f: Bytes, k: nat, m: Maps)
    requires k <= 2 && IpBehindTags(f, k, m.target) && m.hasTarget
    ensures Strip(f, 12, VLAN_MAX_DEPTH) == EtherType(12 + 4 * k) && FromTarget(f, 12 + 4 * k, m)
  {
    TagIs(f, 12 + 4 * k);
    if k >= 1 {
      assert TagBytes(f[12 + 4 * 0], f[13 + 4 * 0]);
      TagIs(f, 12);
      assert Strip(f, 12, 2) == Strip(f, 16, 1);
    }
    if k == 2 {
      assert TagBytes(f[12 + 4 * 1], f[13 + 4 * 1]);
      TagIs(f, 16);
      assert Strip(f, 16, 1) == Strip(f, 20, 0);
    }
  }

  /** The filter program: the loop reads only inside the packet, and decides as Classify does. */
  method FilterIp(packet: Bytes, queue: nat, m: Maps) returns (v: Verdict)
    ensures v == Classify(packet, queue, m)
    ensures v == Redirect <==>
            queue in m.sockets && m.hasTarget && exists k: nat :: k <= 2 && IpBehindTags(packet, k, m.target)
  {
    RedirectExactly(packet, queue, m);
    if ETHERNET > |packet| {
      return Pass;
    }
    var proto := Be16(packet, 12);
    var cursor := ETHERNET;
    var i := 0;
    while i < VLAN_MAX_DEPTH && IsTag(proto)
      invariant 0 <= i <= VLAN_MAX_DEPTH && 14 <= cursor <= |packet|
      invariant proto == Be16(packet, cursor - 2)
      invariant Strip(packet, 12, VLAN_MAX_DEPTH) == Strip(packet, cursor - 2, VLAN_MAX_DEPTH - i)
    {
      if cursor + 4 > |packet| {
        return Pass;
      }
      proto := Be16(packet, cursor + 2);
      cursor := cursor + 4;
      i := i + 1;
    }
    if proto != ETH_P_IP {
      return Pass;
    }
    if cursor + IPV4 > |packet| {
      return Pass;
    }
    if !m.hasTarget {
      return Pass;
    }
    if packet[cursor + 12..cursor + 16] != m.target {
      return Pass;
    }
    return if queue in m.sockets then Redirect else Pass;
  }

  /** How many tags in a row start at offset `at`. */
  function TagCount(f: Bytes, at: nat): nat
    decreases |f| - at
  {
    if at + 2 <= |f| && IsTag(Be16(f, at)) then 1 + TagCount(f, at + 4) else 0
  }

  /** f with one more tag in front of its EtherType. */
  function InsertTag(f: Bytes, tpid: nat, tci: seq<Byte>): Bytes
    requires IsTag(tpid) && |tci| == 2 && |f| >= 12
  {
    f[..12] + [tpid / 256, tpid % 256] + tci + f[12..]
  }

  lemma {:induction false} StripShifted(f: Bytes, g: Bytes, at: nat, depth: nat)
    requires at + 2 <= |f| && |g| == |f| + 4
    requires forall i {:trigger f[i]} :: at <= i < |f| ==> g[i + 4] == f[i]
    ensures Strip(f, at, depth).EtherType? == Strip(g, at + 4, depth).EtherType?
    ensures Strip(f, at, depth).EtherType? ==> Strip(g, at + 4, depth).at == Strip(f, at, depth).at + 4
    decreases depth
  {
    assert Be16(g, at + 4) == Be16(f, at) by {
      assert g[at + 4] == f[at] && g[at + 5] == f[at + 1];
    }
    if depth > 0 && at + 6 <= |f| {
      StripShifted(f, g, at + 4, depth - 1);
    }
  }

  lemma TargetShifted(f: Bytes, g: Bytes, at: nat, m: Maps)
    requires at + 2 <= |f| && |g| == |f| + 4
    requires forall i {:trigger f[i]} :: at <= i < |f| ==> g[i + 4] == f[i]
    ensures FromTarget(g, at + 4, m) == FromTarget(f, at, m)
  {
    assert g[at + 4] == f[at] && g[at + 5] == f[at + 1];
    if at + 22 <= |f| {
      assert g[at + 18..at + 22] == f[at + 14..at + 18];
    }
  }

  /** What an inserted tag does to the bytes. */
  lemma InsertTagShape(f: Bytes, tpid: nat, tci: seq<Byte>)
    requires IsTag(tpid) && |tci| == 2 && |f| >= 12
    ensures var g := InsertTag(f, tpid, tci);
            && |g| == |f| + 4 && Be16(g, 12) == tpid
            && forall i {:trigger f[i]} :: 12 <= i < |f| ==> g[i + 4] == f[i]
  {
    var g := InsertTag(f, tpid, tci);
    assert g[12] == tpid / 256 && g[13] == tpid % 256;
  }

  /** Adding a tag to a frame with at most one changes nothing; with two or more it is the
      third tag, and such a frame always passes. */
  lemma InsertTagVerdict(f: Bytes, tpid: nat, tci: seq<Byte>, queue: nat, m: Maps)
    requires IsTag(tpid) && |tci| == 2 && |f| >= 12
    ensures Classify(InsertTag(f, tpid, tci), queue, m) ==
            if TagCount(f, 12) <= 1 then Classify(f, queue, m) else Pass
  {
    InsertTagShape(f, tpid, tci);
    TaggedVerdict(f, InsertTag(f, tpid, tci), queue, m);
  }

  lemma TaggedVerdict(f: Bytes, g: Bytes, queue: nat, m: Maps)
    requires |f| >= 12 && |g| == |f| + 4 && IsTag(Be16(g, 12))
    requires forall i {:trigger f[i]} :: 12 <= i < |f| ==> g[i + 4] == f[i]
    ensures Classify(g, queue, m) == if TagCount(f, 12) <= 1 then Classify(f, queue, m) else Pass
  {
    if |f| >= 14 {
      StripShifted(f, g, 12, 1);
      assert Strip(g, 12, 2) == Strip(g, 16, 1);
      var t := Strip(f, 12, 1);
      if t.EtherType? {
        TargetShifted(f, g, t.at, m);
        OneTagEnough(f, m);
      } else {
        assert Strip(f, 12, 2).Truncated?;
      }
    }
  }

  /** With one tag allowed instead of two, only frames with two or more tags decide differently. */
  lemma OneTagEnough(f: Bytes, m: Maps)
    requires |f| >= 14 && Strip(f, 12, 1).EtherType?
    ensures TagCount(f, 12) <= 1 ==> Strip(f, 12, 2) == Strip(f, 12, 1)
    ensures TagCount(f, 12) >= 2 ==> !FromTarget(f, Strip(f, 12, 1).at, m)
  {
    if IsTag(Be16(f, 12)) {
      assert Strip(f, 12, 1) == Strip(f, 16, 0) == EtherType(16);
      assert Strip(f, 12, 2) == Strip(f, 16, 1);
      assert TagCount(f, 12) == 1 + TagCount(f, 16);
    }
  }

  /** Three or more tags hide the IPv4 header: the frame stays on the kernel's path. */
  lemma ThreeTagsPass(f: Bytes, queue: nat, m: Maps)
    requires TagCount(f, 12) >= 3
    ensures Classify(f, queue, m) == Pass
  {
    assert TagCount(f, 12) == 1 + TagCount(f, 16);
    assert TagCount(f, 16) == 1 + TagCount(f, 20);
    assert Strip(f, 12, 2) == Strip(f, 16, 1) == Strip(f, 20, 0) == EtherType(20);
  }

  /** Filter and reflector read the same source address: a frame redirected for the target
      and accepted by the reflector goes back to the target. */
  lemma ReflectsToTarget(f: Bytes, queue: nat, m: Maps)
    requires Classify(f, queue, m) == Redirect && Accepts(f)
    ensures f[26..30] == m.target && Reflect(f)[30..34] == m.target
  {
    assert Strip(f, 12, VLAN_MAX_DEPTH) == EtherType(12);
    forall i | 30 <= i < 34
      ensures Reflect(f)[i] == f[i - 4]
    {
      ReflectAt(f, i);
    }
    assert Reflect(f)[30..34] == f[26..30];
  }
}
