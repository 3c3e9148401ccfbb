/** What every action of the protocol keeps. */
module Invariant {
  import opened MachineWords
  import opened Reflector
  import opened Protocol

  // ---------------------------------------------------------------- the invariant

  /** Positions are ordered and windows fit their rings. */
  ghost predicate Bounds(c: Config, w: World) {
    && c.frameSize > 0 && |w.umem| == c.numFrames * c.frameSize
    && w.k.fillCons <= w.u.fillPub <= |w.u.fillLog| <= w.k.fillCons + c.fillCap
    && w.u.rxCons <= w.u.rxPos <= |w.k.rxLog| <= w.u.rxCons + c.rxCap
    && |w.k.received| == |w.k.rxLog|
    && (w.u.held.Some? ==> w.u.rxCons < w.u.rxPos)
    && |w.u.verdicts| == w.u.rxPos - (if w.u.held.Some? then 1 else 0)
    && w.k.txCons <= w.u.txPub <= |w.u.txLog| <= w.k.txCons + c.txCap
    && |w.u.txBytes| == |w.u.txLog|
    && w.u.cqCons <= w.u.cqPos <= |w.k.cqLog|
    && |w.k.inFlight| + |w.k.cqLog| <= w.u.cqCons + c.cqCap
    && w.k.txCons == |w.k.inFlight| + |w.k.cqLog| == |w.k.wire|
  }

  ghost function DescBases(c: Config, ds: seq<Desc>): seq<nat> {
    seq(|ds|, i requires 0 <= i < |ds| => Base(c, ds[i].addr))
  }

  ghost function PacketBases(c: Config, ps: seq<Packet>): seq<nat> {
    seq(|ps|, i requires 0 <= i < |ps| => Base(c, ps[i].desc.addr))
  }

  ghost function AddrBases(c: Config, addrs: seq<nat>): seq<nat> {
    seq(|addrs|, i requires 0 <= i < |addrs| => Base(c, addrs[i]))
  }

  ghost function Addrs(ps: seq<Packet>): seq<nat> {
    seq(|ps|, i requires 0 <= i < |ps| => ps[i].desc.addr)
  }

  ghost function HeldBase(c: Config, w: World): multiset<nat> {
    if w.u.held.Some? && 0 < w.u.rxPos <= |w.k.rxLog| then multiset{Base(c, HeldDesc(w).addr)} else multiset{}
  }

  /** How often the frame at b is on the way in: free stack, FILL, kernel RX, unprocessed RX. */
  ghost function Inbound(c: Config, w: World, b: nat): nat
    requires Bounds(c, w)
  {
    multiset(w.u.free)[b] + multiset(w.u.fillLog[w.k.fillCons..])[b] + w.k.rxFrames[b]
    + multiset(DescBases(c, w.k.rxLog[w.u.rxPos..]))[b]
  }

  /** How often it is on the way out: callback, TX (staged and published), kernel TX,
      unreclaimed CQ. */
  ghost function Outbound(c: Config, w: World, b: nat): nat
    requires Bounds(c, w)
  {
    HeldBase(c, w)[b] + multiset(DescBases(c, w.u.txLog[w.k.txCons..]))[b]
    + multiset(PacketBases(c, w.k.inFlight))[b] + multiset(AddrBases(c, w.k.cqLog[w.u.cqPos..]))[b]
  }

  /** How many places hold the frame at b. */
  ghost function Holders(c: Config, w: World, b: nat): nat
    requires Bounds(c, w)
  {
    Inbound(c, w, b) + Outbound(c, w, b)
  }

  /** Each chunk of the UMEM is held exactly once, and nothing else is held at all. */
  ghost predicate Owned(c: Config, w: World)
    requires Bounds(c, w)
  {
    forall b: nat :: Holders(c, w, b) == multiset(Frames(c))[b]
  }

  ghost predicate InChunk(c: Config, d: Desc) {
    && c.frameSize > 0 && d.addr % c.frameSize + d.len <= c.frameSize
    && d.addr + d.len <= c.numFrames * c.frameSize
  }

  ghost predicate Placed(c: Config, w: World) {
    && (forall i :: 0 <= i < |w.k.rxLog| ==> InChunk(c, w.k.rxLog[i]))
    && (forall i :: 0 <= i < |w.u.txLog| ==> InChunk(c, w.u.txLog[i]))
    && (forall i :: 0 <= i < |w.k.inFlight| ==> InChunk(c, w.k.inFlight[i].desc))
  }

  /** The elements of xs whose verdict is Transferred, in order. */
  ghost function Chosen<T>(xs: seq<T>, vs: seq<Verdict>): seq<T>
    requires |xs| == |vs|
  {
    if vs == [] then []
    else
      var n := |vs| - 1;
      Chosen(xs[..n], vs[..n]) + if vs[n].Transferred? then [xs[n]] else []
  }

  ghost function ReflectAll(fs: seq<Bytes>): seq<Bytes> {
    seq(|fs|, i requires 0 <= i < |fs| => Reflect(fs[i]))
  }

  /** TX carries exactly the transferred RX frames, in order; completions return what was sent. */
  ghost predicate Flow(c: Config, w: World)
    requires Bounds(c, w)
  {
    var n := |w.u.verdicts|;
    && w.u.txLog == Chosen(w.k.rxLog[..n], w.u.verdicts)
    && w.u.txBytes == Chosen(ReflectAll(w.k.received[..n]), w.u.verdicts)
    && (forall i :: 0 <= i < n ==> (w.u.verdicts[i].Unsupported? <==> !Accepts(w.k.received[i])))
    && (forall j :: 0 <= j < w.k.txCons ==> w.k.wire[j] == Packet(w.u.txLog[j], w.u.txBytes[j]))
    && multiset(w.k.cqLog) + multiset(Addrs(w.k.inFlight)) == multiset(Addrs(w.k.wire))
  }

  /** What the callback has established about the frame it holds. */
  ghost predicate HeldBytes(w: World) {
    w.u.held.Some? && 0 < w.u.rxPos <= |w.k.rxLog| && |w.k.received| == |w.k.rxLog| ==>
      var got := w.k.received[w.u.rxPos - 1];
      match w.u.held.value
      case Inspecting => View(w.umem, HeldDesc(w)) == got
      case Declined => View(w.umem, HeldDesc(w)) == got && !Accepts(got)
      case Reflected => View(w.umem, HeldDesc(w)) == Reflect(got) && Accepts(got)
      case Refused => View(w.umem, HeldDesc(w)) == Reflect(got) && Accepts(got)
  }

  /** Memory holds what each owner of a frame relies on. */
  ghost predicate Memory(c: Config, w: World)
    requires Bounds(c, w)
  {
    && (forall i :: w.u.rxPos <= i < |w.k.rxLog| ==> View(w.umem, w.k.rxLog[i]) == w.k.received[i])
    && HeldBytes(w)
    && (forall j :: w.k.txCons <= j < |w.u.txLog| ==> View(w.umem, w.u.txLog[j]) == w.u.txBytes[j])
    && (forall i :: 0 <= i < |w.k.inFlight| ==> View(w.umem, w.k.inFlight[i].desc) == w.k.inFlight[i].bytes)
  }

  ghost predicate Inv(c: Config, w: World) {
    Bounds(c, w) && Owned(c, w) && Placed(c, w) && Flow(c, w) && Memory(c, w)
  }

  // ---------------------------------------------------------------- chunks

  lemma FrameFacts(c: Config, b: nat)
    requires c.frameSize > 0 && b in multiset(Frames(c))
    ensures b % c.frameSize == 0 && b + c.frameSize <= c.numFrames * c.frameSize
    ensures multiset(Frames(c))[b] == 1
  {
    var i :| 0 <= i < |Frames(c)| && Frames(c)[i] == b;
    FrameRoom(c.frameSize, i, c.numFrames);
    FramesDistinct(c);
    CountDistinct(Frames(c), b);
  }

  lemma FrameRoom(size: nat, i: nat, n: nat)
    requires i < n && size > 0
    ensures i * size + size <= n * size && (i * size) % size == 0
  {
    ModUnique(i * size, size, i, 0);
    assert n * size == i * size + (n - i) * size;
    MulAtLeast(size, n - i);
  }

  lemma FramesDistinct(c: Config)
    requires c.frameSize > 0
    ensures forall j, k :: 0 <= j < k < |Frames(c)| ==> Frames(c)[j] != Frames(c)[k]
  {
    forall j, k | 0 <= j < k < |Frames(c)|
      ensures Frames(c)[j] != Frames(c)[k]
    {
      MulAtLeast(c.frameSize, k - j);
      assert c.frameSize * (k - j) == k * c.frameSize - j * c.frameSize;
    }
  }

  lemma {:induction false} CountDistinct(s: seq<nat>, x: nat)
    requires forall j, k :: 0 <= j < k < |s| ==> s[j] != s[k]
    ensures multiset(s)[x] == if x in s then 1 else 0
  {
    if s != [] {
      var n := |s| - 1;
      assert s == s[..n] + [s[n]];
      CountDistinct(s[..n], x);
    }
  }

  /** A write inside one chunk leaves descriptors in other chunks alone. */
  lemma OtherChunkKept(c: Config, m: Bytes, m': Bytes, b: nat, d: Desc)
    requires c.frameSize > 0 && b % c.frameSize == 0
    requires SameOutside(m, m', b, c.frameSize) && d.addr % c.frameSize + d.len <= c.frameSize
    requires Base(c, d.addr) != b
    ensures View(m', d) == View(m, d)
  {
    ChunksApart(c.frameSize, b, d.addr);
    if d.addr + d.len <= |m| {
      assert m'[d.addr..d.addr + d.len] == m[d.addr..d.addr + d.len];
    }
  }

  lemma ChunksApart(size: nat, b: nat, addr: nat)
    requires size > 0 && b % size == 0 && addr - addr % size != b
    ensures addr - addr % size + size <= b || b + size <= addr - addr % size
  {
    var x, y := b / size, addr / size;
    assert b == size * x && addr - addr % size == size * y;
    MulAtLeast(size, x - y);
    MulAtLeast(size, y - x);
    assert size * (x - y) == size * x - size * y;
    assert size * (y - x) == size * y - size * x;
  }
}
