/** What the protocol guarantees in every state of every run. */
module Theorems {
  import opened Reflector
  import opened Protocol
  import opened Invariant
  import opened Ownership
  import opened Preservation
  import Checksums
  import XdpFilter
  import UdpFrames

  // ---------------------------------------------------------------- exclusive ownership

  /** Where a frame can be. */
  datatype Place =
    | FreeStack | FillStaged | FillRing | KernelRx | RxWindow | Callback
    | TxStaged | TxRing | KernelTx | CompletionRing

  /** How often the frame at b occurs in one place. */
  ghost function CountIn(c: Config, w: World, p: Place, b: nat): nat
    requires Bounds(c, w)
  {
    match p
    case FreeStack => multiset(w.u.free)[b]
    case FillStaged => multiset(w.u.fillLog[w.u.fillPub..])[b]
    case FillRing => multiset(w.u.fillLog[w.k.fillCons..w.u.fillPub])[b]
    case KernelRx => w.k.rxFrames[b]
    case RxWindow => multiset(DescBases(c, w.k.rxLog[w.u.rxPos..]))[b]
    case Callback => HeldBase(c, w)[b]
    case TxStaged => multiset(DescBases(c, w.u.txLog[w.u.txPub..]))[b]
    case TxRing => multiset(DescBases(c, w.u.txLog[w.k.txCons..w.u.txPub]))[b]
    case KernelTx => multiset(PacketBases(c, w.k.inFlight))[b]
    case CompletionRing => multiset(AddrBases(c, w.k.cqLog[w.u.cqPos..]))[b]
  }

  /** The places on the way in, and those on the way out. */
  ghost function InboundCount(c: Config, w: World, b: nat): nat
    requires Bounds(c, w)
  {
    CountIn(c, w, FreeStack, b) + CountIn(c, w, FillStaged, b) + CountIn(c, w, FillRing, b)
    + CountIn(c, w, KernelRx, b) + CountIn(c, w, RxWindow, b)
  }

  ghost function OutboundCount(c: Config, w: World, b: nat): nat
    requires Bounds(c, w)
  {
    CountIn(c, w, Callback, b) + CountIn(c, w, TxStaged, b) + CountIn(c, w, TxRing, b)
    + CountIn(c, w, KernelTx, b) + CountIn(c, w, CompletionRing, b)
  }

  lemma InboundByPlace(c: Config, w: World, b: nat)
    requires Bounds(c, w)
    ensures Inbound(c, w, b) == InboundCount(c, w, b)
  {
    CountSplit(w.u.fillLog, w.k.fillCons, w.u.fillPub, b);
  }

  lemma OutboundByPlace(c: Config, w: World, b: nat)
    requires Bounds(c, w)
    ensures Outbound(c, w, b) == OutboundCount(c, w, b)
  {
    DescCountSplit(c, w.u.txLog, w.k.txCons, w.u.txPub, b);
  }

  lemma DescCountSplit(c: Config, ds: seq<Desc>, i: nat, j: nat, b: nat)
    requires i <= j <= |ds|
    ensures multiset(DescBases(c, ds[i..]))[b] == multiset(DescBases(c, ds[i..j]))[b] + multiset(DescBases(c, ds[j..]))[b]
  {
    assert DescBases(c, ds[i..]) == DescBases(c, ds[i..j]) + DescBases(c, ds[j..]);
  }

  lemma CountSplit(s: seq<nat>, i: nat, j: nat, b: nat)
    requires i <= j <= |s|
    ensures multiset(s[i..])[b] == multiset(s[i..j])[b] + multiset(s[j..])[b]
  {
    assert s[i..] == s[i..j] + s[j..];
  }

  /** All places together hold each chunk once, and nothing else. */
  lemma PlacesTotal(c: Config, run: seq<World>, i: nat, b: nat)
    requires IsRun(c, run) && i < |run|
    ensures Bounds(c, run[i])
    ensures InboundCount(c, run[i], b) + OutboundCount(c, run[i], b) == if b in Frames(c) then 1 else 0
  {
    RunInv(c, run, i);
    InboundByPlace(c, run[i], b);
    OutboundByPlace(c, run[i], b);
    assert Holders(c, run[i], b) == multiset(Frames(c))[b];
    if b in Frames(c) {
      FrameFacts(c, b);
    }
  }

  lemma OnlyPlace(c: Config, w: World, b: nat) returns (p: Place)
    requires Bounds(c, w) && InboundCount(c, w, b) + OutboundCount(c, w, b) == 1
    ensures CountIn(c, w, p, b) == 1 && forall q :: q != p ==> CountIn(c, w, q, b) == 0
  {
    if InboundCount(c, w, b) == 1 {
      p := if CountIn(c, w, FreeStack, b) == 1 then FreeStack
           else if CountIn(c, w, FillStaged, b) == 1 then FillStaged
           else if CountIn(c, w, FillRing, b) == 1 then FillRing
           else if CountIn(c, w, KernelRx, b) == 1 then KernelRx
           else RxWindow;
    } else {
      p := if CountIn(c, w, Callback, b) == 1 then Callback
           else if CountIn(c, w, TxStaged, b) == 1 then TxStaged
           else if CountIn(c, w, TxRing, b) == 1 then TxRing
           else if CountIn(c, w, KernelTx, b) == 1 then KernelTx
           else CompletionRing;
    }
  }

  /** At every moment, including in the middle of a batch, each chunk is in exactly one place,
      once; no other address is anywhere. */
  lemma ExactlyOneOwner(c: Config, run: seq<World>, i: nat, b: nat)
    requires IsRun(c, run) && i < |run|
    ensures Bounds(c, run[i])
    ensures b in Frames(c) ==>
              exists p :: CountIn(c, run[i], p, b) == 1 && forall q :: q != p ==> CountIn(c, run[i], q, b) == 0
    ensures b !in Frames(c) ==> forall p :: CountIn(c, run[i], p, b) == 0
  {
    PlacesTotal(c, run, i, b);
    if b in Frames(c) {
      var p := OnlyPlace(c, run[i], b);
    } else {
      NoPlace(c, run[i], b);
    }
  }

  lemma NoPlace(c: Config, w: World, b: nat)
    requires Bounds(c, w) && InboundCount(c, w, b) + OutboundCount(c, w, b) == 0
    ensures forall p :: CountIn(c, w, p, b) == 0
  {
  }

  /** Recycled addresses are chunk bases again: the free stack and FILL only ever hold
      distinct, aligned, in-range chunk bases. */
  lemma FreeFramesAreBases(c: Config, run: seq<World>, i: nat)
    requires IsRun(c, run) && i < |run|
    ensures Bounds(c, run[i])
    ensures var pool := run[i].u.free + run[i].u.fillLog[run[i].k.fillCons..];
            && (forall j :: 0 <= j < |pool| ==> pool[j] % c.frameSize == 0 && pool[j] + c.frameSize <= c.numFrames * c.frameSize)
            && (forall j, k :: 0 <= j < k < |pool| ==> pool[j] != pool[k])
  {
    RunInv(c, run, i);
    var w := run[i];
    var a, z := w.u.free, w.u.fillLog[w.k.fillCons..];
    var pool := a + z;
    forall j | 0 <= j < |pool|
      ensures pool[j] in multiset(Frames(c)) && multiset(pool)[pool[j]] == 1
    {
      assert pool[j] in multiset(pool);
      assert multiset(pool)[pool[j]] == multiset(a)[pool[j]] + multiset(z)[pool[j]];
      assert Holders(c, w, pool[j]) == multiset(Frames(c))[pool[j]];
      FrameFacts(c, pool[j]);
    }
    forall j | 0 <= j < |pool|
      ensures pool[j] % c.frameSize == 0 && pool[j] + c.frameSize <= c.numFrames * c.frameSize
    {
      FrameFacts(c, pool[j]);
    }
    forall j, k | 0 <= j < k < |pool|
      ensures pool[j] != pool[k]
    {
      CountTwice(pool, j, k);
    }
  }

  lemma CountTwice(s: seq<nat>, j: nat, k: nat)
    requires j < k < |s|
    ensures s[j] == s[k] ==> multiset(s)[s[j]] >= 2
  {
    assert s == s[..j] + [s[j]] + s[j + 1..];
    assert s[k] == s[j + 1..][k - j - 1];
    assert s[k] in multiset(s[j + 1..]);
  }

  lemma CardinalityFits(s: seq<nat>, m: multiset<nat>, t: seq<nat>)
    requires forall x: nat :: multiset(s)[x] + m[x] <= multiset(t)[x]
    ensures |s| + |m| <= |t|
  {
    var rest := multiset(t) - multiset(s) - m;
    assert multiset(t) == multiset(s) + m + rest;
    assert |multiset(t)| == |multiset(s)| + |m| + |rest|;
  }

  /** The free stack never overflows, and has room whenever a frame is about to come back. */
  lemma FreeStackHasRoom(c: Config, run: seq<World>, i: nat)
    requires IsRun(c, run) && i < |run|
    ensures |run[i].u.free| <= c.numFrames
    ensures run[i].u.held.Some? ==> |run[i].u.free| < c.numFrames
    ensures CanReclaim(run[i]) ==> |run[i].u.free| < c.numFrames
  {
    RunInv(c, run, i);
    var w := run[i];
    var back: multiset<nat> := HeldBase(c, w) + multiset(AddrBases(c, w.k.cqLog[w.u.cqPos..]));
    forall x: nat
      ensures multiset(w.u.free)[x] + back[x] <= multiset(Frames(c))[x]
    {
      assert Holders(c, w, x) == multiset(Frames(c))[x];
    }
    CardinalityFits(w.u.free, back, Frames(c));
  }

  /** The held descriptor lies inside the UMEM. */
  lemma HeldInUmem(c: Config, run: seq<World>, i: nat)
    requires IsRun(c, run) && i < |run| && run[i].u.held.Some? && 0 < run[i].u.rxPos <= |run[i].k.rxLog|
    ensures var d := HeldDesc(run[i]);
            d.addr + d.len <= |run[i].umem| == c.numFrames * c.frameSize && d.addr < c.numFrames * c.frameSize
    ensures View(run[i].umem, HeldDesc(run[i])) == run[i].umem[HeldDesc(run[i]).addr..HeldDesc(run[i]).addr + HeldDesc(run[i]).len]
  {
    RunInv(c, run, i);
    HeldAlone(c, run[i]);
    FrameFacts(c, Base(c, HeldDesc(run[i]).addr));
  }

  /** Until the callback touches it, the held frame is what was received. */
  lemma HeldIsReceived(c: Config, run: seq<World>, i: nat)
    requires IsRun(c, run) && i < |run| && Holding(run[i], Inspecting)
    ensures |run[i].k.received| == |run[i].k.rxLog|
    ensures View(run[i].umem, HeldDesc(run[i])) == run[i].k.received[run[i].u.rxPos - 1]
  {
    RunInv(c, run, i);
  }

  /** So does every completed address. */
  lemma CompletionInUmem(c: Config, run: seq<World>, i: nat)
    requires IsRun(c, run) && i < |run| && CanReclaim(run[i])
    ensures run[i].k.cqLog[run[i].u.cqPos] < c.numFrames * c.frameSize
    ensures run[i].u.cqCons <= run[i].u.cqPos
  {
    RunInv(c, run, i);
    var w := run[i];
    var b := Base(c, w.k.cqLog[w.u.cqPos]);
    assert AddrBases(c, w.k.cqLog[w.u.cqPos..])[0] == b;
    assert Holders(c, w, b) == multiset(Frames(c))[b];
    FrameFacts(c, b);
  }

  /** The kernel's positions only advance, and its logs only grow. */
  ghost predicate Grew(k: Kernel, k': Kernel) {
    && k.fillCons <= k'.fillCons && k.txCons <= k'.txCons
    && k.rxLog <= k'.rxLog && k.received <= k'.received && k.cqLog <= k'.cqLog && k.wire <= k'.wire
  }

  lemma StepGrows(c: Config, w: World, w': World)
    requires WorkerStep(c, w, w') || KernelStep(c, w, w')
    ensures Grew(w.k, w'.k)
  {
  }

  lemma {:induction false} RunGrows(c: Config, run: seq<World>, i: nat, j: nat)
    requires IsRun(c, run) && i <= j < |run|
    ensures Grew(run[i].k, run[j].k)
    decreases j
  {
    if i < j {
      RunGrows(c, run, i, j - 1);
      assert StepAt(c, run, j - 1);
      StepGrows(c, run[j - 1], run[j]);
    }
  }

  // ---------------------------------------------------------------- outstanding frames

  /** Published and not yet returned, counted locally as submitted minus reclaimed. */
  ghost function Outstanding(w: World): int {
    w.u.txPub - w.u.cqCons
  }

  /** The local count is exactly what is in the TX ring, in the kernel and in the CQ; it never
      exceeds the two rings together, nor the number of frames. */
  lemma OutstandingExact(c: Config, run: seq<World>, i: nat)
    requires IsRun(c, run) && i < |run|
    ensures var w := run[i];
            && Outstanding(w) == (w.u.txPub - w.k.txCons) + |w.k.inFlight| + (|w.k.cqLog| - w.u.cqCons)
            && |w.k.cqLog| - w.u.cqCons <= Outstanding(w) <= c.txCap + c.cqCap
            && Outstanding(w) <= c.numFrames
  {
    RunInv(c, run, i);
    OutstandingFits(c, run, i);
  }

  /** Outside a reclaim loop the staged frames, too, are other frames than those outstanding. */
  lemma UnreturnedFit(c: Config, run: seq<World>, i: nat)
    requires IsRun(c, run) && i < |run| && run[i].u.cqPos == run[i].u.cqCons
    ensures |run[i].u.txLog| - run[i].u.cqCons <= c.numFrames
  {
    RunInv(c, run, i);
    var w := run[i];
    var away: multiset<nat> := multiset(PacketBases(c, w.k.inFlight)) + multiset(AddrBases(c, w.k.cqLog[w.u.cqPos..]));
    var queued: seq<nat> := DescBases(c, w.u.txLog[w.k.txCons..]);
    forall x: nat
      ensures multiset(queued)[x] + away[x] <= multiset(Frames(c))[x]
    {
      assert Holders(c, w, x) == multiset(Frames(c))[x];
    }
    CardinalityFits(queued, away, Frames(c));
  }

  /** Only publication raises the count, and it happens outside reclaim loops. */
  lemma OutstandingStep(c: Config, w: World, w': World)
    requires Bounds(c, w) && (WorkerStep(c, w, w') || KernelStep(c, w, w'))
    ensures Outstanding(w') <= Outstanding(w) ||
            (w.u.cqPos == w.u.cqCons && Outstanding(w') == |w.u.txLog| - w.u.cqCons)
  {
  }

  lemma {:induction false} OutstandingFits(c: Config, run: seq<World>, i: nat)
    requires IsRun(c, run) && i < |run|
    ensures Outstanding(run[i]) <= c.numFrames
  {
    if i > 0 {
      OutstandingFits(c, run, i - 1);
      RunInv(c, run, i - 1);
      assert StepAt(c, run, i - 1);
      OutstandingStep(c, run[i - 1], run[i]);
      if run[i - 1].u.cqPos == run[i - 1].u.cqCons {
        UnreturnedFit(c, run, i - 1);
      }
    }
  }

  /** The slot reserved when a descriptor was taken is still free when it completes. */
  lemma CompletionHasRoom(c: Config, run: seq<World>, i: nat)
    requires IsRun(c, run) && i < |run|
    ensures |run[i].k.inFlight| > 0 ==> |run[i].k.cqLog| < run[i].u.cqCons + c.cqCap
    ensures run[i].u.cqCons <= run[i].u.cqPos <= |run[i].k.cqLog| <= run[i].u.cqCons + c.cqCap
  {
    RunInv(c, run, i);
  }

  // ---------------------------------------------------------------- rejection

  /** A frame the reflector accepted always has a length the transmitter accepts. */
  lemma LengthNeverRejected(c: Config, run: seq<World>, i: nat)
    requires IsRun(c, run) && i < |run| && Holding(run[i], Reflected)
    ensures 42 <= HeldDesc(run[i]).len <= c.frameSize
  {
    RunInv(c, run, i);
  }

  /** So every refusal in every run happens with the TX ring full at that moment. */
  lemma RefusedOnlyWhenFull(c: Config, run: seq<World>, i: nat)
    requires IsRun(c, run) && i + 1 < |run|
    requires run[i].u.held != Some(Refused) && run[i + 1].u.held == Some(Refused)
    ensures TxFull(c, run[i]) && TxFull(c, run[i + 1])
  {
    assert StepAt(c, run, i);
    assert CanRefuse(c, run[i]);
    LengthNeverRejected(c, run, i);
  }

  // ---------------------------------------------------------------- end to end

  ghost function Descs(ps: seq<Packet>): seq<Desc> {
    seq(|ps|, i requires 0 <= i < |ps| => ps[i].desc)
  }

  ghost function Contents(ps: seq<Packet>): seq<Bytes> {
    seq(|ps|, i requires 0 <= i < |ps| => ps[i].bytes)
  }

  /** The descriptors and the bytes of the transferred frames, straight from what was received. */
  ghost function ToSend(w: World): seq<Desc>
    requires |w.u.verdicts| <= |w.k.rxLog|
  {
    Chosen(w.k.rxLog[..|w.u.verdicts|], w.u.verdicts)
  }

  ghost function ToSendBytes(w: World): seq<Bytes>
    requires |w.u.verdicts| <= |w.k.received|
  {
    Chosen(ReflectAll(w.k.received[..|w.u.verdicts|]), w.u.verdicts)
  }

  /** What the kernel has taken from TX is, in order and unchanged, the transferred part of
      what it delivered, and each packet's bytes at that moment are the reflection of the
      bytes received; they stay so until its completion. */
  lemma EndToEnd(c: Config, run: seq<World>, i: nat)
    requires IsRun(c, run) && i < |run|
    ensures var w := run[i];
            && |w.u.verdicts| <= |w.k.rxLog| == |w.k.received|
            && Descs(w.k.wire) <= ToSend(w)
            && Contents(w.k.wire) <= ToSendBytes(w)
            && (forall j :: 0 <= j < |w.k.inFlight| ==> View(w.umem, w.k.inFlight[j].desc) == w.k.inFlight[j].bytes)
            && (forall j :: 0 <= j < |w.u.verdicts| ==> (w.u.verdicts[j].Unsupported? <==> !Accepts(w.k.received[j])))
  {
    RunInv(c, run, i);
    var w := run[i];
    assert Descs(w.k.wire) == w.u.txLog[..w.k.txCons];
    assert Contents(w.k.wire) == w.u.txBytes[..w.k.txCons];
  }

  /** Every sent packet is the reflection of a frame that was received and accepted. */
  lemma SentWasReceived(c: Config, run: seq<World>, i: nat, j: nat) returns (k: nat)
    requires IsRun(c, run) && i < |run| && j < |run[i].k.wire|
    ensures k < |run[i].u.verdicts| <= |run[i].k.rxLog| == |run[i].k.received|
    ensures run[i].u.verdicts[k].Transferred? && Accepts(run[i].k.received[k])
    ensures run[i].k.wire[j] == Packet(run[i].k.rxLog[k], Reflect(run[i].k.received[k]))
  {
    RunInv(c, run, i);
    var w := run[i];
    var n := |w.u.verdicts|;
    k := ChosenFrom(w.k.rxLog[..n], ReflectAll(w.k.received[..n]), w.u.verdicts, j);
  }

  /** The j-th chosen element of two parallel sequences comes from one position of both. */
  lemma {:induction false} ChosenFrom<A, B>(xs: seq<A>, ys: seq<B>, vs: seq<Verdict>, j: nat) returns (k: nat)
    requires |xs| == |ys| == |vs| && j < |Chosen(xs, vs)|
    ensures |Chosen(ys, vs)| == |Chosen(xs, vs)|
    ensures k < |vs| && vs[k].Transferred? && Chosen(xs, vs)[j] == xs[k] && Chosen(ys, vs)[j] == ys[k]
  {
    var n := |vs| - 1;
    ChosenLength(xs[..n], ys[..n], vs[..n]);
    if j < |Chosen(xs[..n], vs[..n])| {
      k := ChosenFrom(xs[..n], ys[..n], vs[..n], j);
    } else {
      k := n;
    }
  }

  lemma {:induction false} ChosenLength<A, B>(xs: seq<A>, ys: seq<B>, vs: seq<Verdict>)
    requires |xs| == |ys| == |vs|
    ensures |Chosen(xs, vs)| == |Chosen(ys, vs)| == CountOf(vs, Transferred)
  {
    if vs != [] {
      var n := |vs| - 1;
      ChosenLength(xs[..n], ys[..n], vs[..n]);
      assert vs == vs[..n] + [vs[n]];
    }
  }

  /** If the filter only lets frames from the target through, then every packet ever sent goes
      to the target, and its checksums are valid exactly when those of the frame it answers
      were. */
  lemma RepliesToTarget(c: Config, run: seq<World>, i: nat, j: nat, queue: nat, m: XdpFilter.Maps) returns (k: nat)
    requires IsRun(c, run) && i < |run| && j < |run[i].k.wire|
    requires forall k :: 0 <= k < |run[i].k.received| ==>
               XdpFilter.Classify(run[i].k.received[k], queue, m) == XdpFilter.Redirect
    ensures k < |run[i].k.received| && Accepts(run[i].k.received[k]) && Accepts(run[i].k.wire[j].bytes)
    ensures run[i].k.wire[j].bytes == Reflect(run[i].k.received[k])
    ensures run[i].k.wire[j].bytes[30..34] == m.target
    ensures Checksums.ValidChecksums(run[i].k.wire[j].bytes) == Checksums.ValidChecksums(run[i].k.received[k])
  {
    k := SentWasReceived(c, run, i, j);
    XdpFilter.ReflectsToTarget(run[i].k.received[k], queue, m);
    Checksums.ReflectKeepsValidChecksums(run[i].k.received[k]);
  }

  /** Every packet sent is a well-formed UDP frame: one that was received, with its two ends
      exchanged. */
  lemma RepliesExchangeEnds(c: Config, run: seq<World>, i: nat, j: nat) returns (k: nat, p: UdpFrames.UdpFrame)
    requires IsRun(c, run) && i < |run| && j < |run[i].k.wire|
    ensures k < |run[i].k.received| && UdpFrames.Fits(p) && UdpFrames.Fits(UdpFrames.Swapped(p))
    ensures run[i].k.received[k] == UdpFrames.Encode(p)
    ensures run[i].k.wire[j].bytes == UdpFrames.Encode(UdpFrames.Swapped(p))
  {
    k := SentWasReceived(c, run, i, j);
    p := UdpFrames.Decode(run[i].k.received[k]);
    UdpFrames.AcceptedEncoded(run[i].k.received[k]);
    UdpFrames.ReflectEncoded(p);
  }

  // ---------------------------------------------------------------- counting

  ghost function CountOf(vs: seq<Verdict>, v: Verdict): nat {
    multiset(vs)[v]
  }

  lemma {:induction false} CountsAddUp(vs: seq<Verdict>)
    ensures CountOf(vs, Unsupported) + CountOf(vs, Rejected) + CountOf(vs, Transferred) == |vs|
  {
    if vs != [] {
      var n := |vs| - 1;
      CountsAddUp(vs[..n]);
      assert vs == vs[..n] + [vs[n]];
      CountGrows(vs[..n], vs[n], Unsupported);
      CountGrows(vs[..n], vs[n], Rejected);
      CountGrows(vs[..n], vs[n], Transferred);
    }
  }

  lemma CountGrows(vs: seq<Verdict>, x: Verdict, v: Verdict)
    ensures CountOf(vs + [x], v) == CountOf(vs, v) + if x == v then 1 else 0
  {
  }

  /** Every callback ended in exactly one way, and every transferred frame is in the TX log. */
  lemma CallbacksAccounted(c: Config, run: seq<World>, i: nat)
    requires IsRun(c, run) && i < |run|
    ensures var w := run[i];
            && |w.u.txLog| == CountOf(w.u.verdicts, Transferred)
            && CountOf(w.u.verdicts, Unsupported) + CountOf(w.u.verdicts, Rejected) + |w.u.txLog| ==
               w.u.rxPos - if w.u.held.Some? then 1 else 0
  {
    RunInv(c, run, i);
    var w := run[i];
    ChosenLength(w.k.rxLog[..|w.u.verdicts|], w.k.rxLog[..|w.u.verdicts|], w.u.verdicts);
    CountsAddUp(w.u.verdicts);
  }

  /** Nothing outstanding means that the completions are, as a multiset of addresses, exactly
      the frames ever transferred, and that the kernel holds none of them. */
  lemma DrainedMeansAllReturned(c: Config, run: seq<World>, i: nat)
    requires IsRun(c, run) && i < |run| && run[i].u.txPub == |run[i].u.txLog|
    ensures var w := run[i];
            && |w.u.verdicts| <= |w.k.rxLog|
            && |ToSend(w)| - w.u.cqCons == Outstanding(w) >= 0
            && |ToSend(w)| == CountOf(w.u.verdicts, Transferred)
            && (Outstanding(w) == 0 ==>
                  && w.k.inFlight == [] && Descs(w.k.wire) == ToSend(w) && w.u.cqCons == |w.k.cqLog|
                  && multiset(w.k.cqLog) == multiset(DescAddrs(ToSend(w))))
  {
    RunInv(c, run, i);
    var w := run[i];
    ChosenLength(w.k.rxLog[..|w.u.verdicts|], w.k.rxLog[..|w.u.verdicts|], w.u.verdicts);
    if Outstanding(w) == 0 {
      assert w.k.txCons == |w.u.txLog| && w.k.inFlight == [];
      EndToEnd(c, run, i);
      assert Addrs(w.k.wire) == DescAddrs(Descs(w.k.wire));
      assert multiset(Addrs(w.k.inFlight)) == multiset{};
    }
  }

  ghost function DescAddrs(ds: seq<Desc>): seq<nat> {
    seq(|ds|, i requires 0 <= i < |ds| => ds[i].addr)
  }
}
