/** Every action preserves the invariant, so it holds in every state of every run. */
module Preservation {
  import opened Reflector
  import opened Protocol
  import opened Invariant
  import opened Ownership

  // ---------------------------------------------------------------- what an action does not touch

  /** No frame changes its place. */
  ghost predicate SameHolders(w: World, w': World) {
    && w'.k == w.k && w'.u.free == w.u.free && w'.u.fillLog == w.u.fillLog && w'.u.txLog == w.u.txLog
    && w'.u.rxPos == w.u.rxPos && w'.u.cqPos == w.u.cqPos && w'.u.held.Some? == w.u.held.Some?
  }

  lemma OwnedKept(c: Config, w: World, w': World)
    requires Bounds(c, w) && Bounds(c, w') && Owned(c, w) && SameHolders(w, w')
    ensures Owned(c, w')
  {
    forall b: nat
      ensures Holders(c, w', b) == multiset(Frames(c))[b]
    {
      assert Holders(c, w, b) == multiset(Frames(c))[b];
    }
  }

  lemma PlacedKept(c: Config, w: World, w': World)
    requires Placed(c, w) && w'.k == w.k && w'.u.txLog == w.u.txLog
    ensures Placed(c, w')
  {
  }

  lemma FlowKept(c: Config, w: World, w': World)
    requires Bounds(c, w) && Bounds(c, w') && Flow(c, w)
    requires w'.k == w.k && w'.u.verdicts == w.u.verdicts && w'.u.txLog == w.u.txLog && w'.u.txBytes == w.u.txBytes
    ensures Flow(c, w')
  {
  }

  /** Memory, when nothing is written and what the callback holds is looked at anew. */
  lemma MemoryKept(c: Config, w: World, w': World)
    requires Bounds(c, w) && Bounds(c, w') && Memory(c, w) && HeldBytes(w')
    requires w'.k == w.k && w'.umem == w.umem && w.u.rxPos <= w'.u.rxPos
    requires w'.u.txLog == w.u.txLog && w'.u.txBytes == w.u.txBytes
    ensures Memory(c, w')
  {
  }

  // ---------------------------------------------------------------- worker actions

  /** Actions that only move a position or a phase. */
  lemma QuietKeeps(c: Config, w: World, w': World)
    requires Inv(c, w) && Bounds(c, w') && SameHolders(w, w') && HeldBytes(w') && w'.umem == w.umem
    requires w'.u.verdicts == w.u.verdicts && w'.u.txBytes == w.u.txBytes
    ensures Inv(c, w')
  {
    OwnedKept(c, w, w');
    PlacedKept(c, w, w');
    FlowKept(c, w, w');
    MemoryKept(c, w, w');
  }

  lemma PublishFillKeeps(c: Config, w: World)
    requires Inv(c, w)
    ensures Inv(c, PublishFill(w))
  {
    QuietKeeps(c, w, PublishFill(w));
  }

  lemma PublishTxKeeps(c: Config, w: World)
    requires Inv(c, w)
    ensures Inv(c, PublishTx(w))
  {
    QuietKeeps(c, w, PublishTx(w));
  }

  lemma ReleaseRxKeeps(c: Config, w: World)
    requires Inv(c, w) && CanReleaseRx(w)
    ensures Inv(c, ReleaseRx(w))
  {
    QuietKeeps(c, w, ReleaseRx(w));
  }

  lemma ReleaseCqKeeps(c: Config, w: World)
    requires Inv(c, w)
    ensures Inv(c, ReleaseCq(w))
  {
    QuietKeeps(c, w, ReleaseCq(w));
  }

  lemma DeclineKeeps(c: Config, w: World)
    requires Inv(c, w) && CanDecline(w)
    ensures Inv(c, Decline(w))
  {
    QuietKeeps(c, w, Decline(w));
  }

  lemma RefuseKeeps(c: Config, w: World)
    requires Inv(c, w) && CanRefuse(c, w)
    ensures Inv(c, Refuse(w))
  {
    QuietKeeps(c, w, Refuse(w));
  }

  lemma AllocFillKeeps(c: Config, w: World)
    requires Inv(c, w) && CanAllocFill(c, w)
    ensures Inv(c, AllocFill(c, w))
  {
    var w' := AllocFill(c, w);
    assert Bounds(c, w');
    AllocFillOwned(c, w);
    PlacedKept(c, w, w');
    FlowKept(c, w, w');
    MemoryKept(c, w, w');
  }

  lemma BeginKeeps(c: Config, w: World)
    requires Inv(c, w) && CanBegin(w)
    ensures Inv(c, Begin(w))
  {
    var w' := Begin(w);
    assert Bounds(c, w');
    BeginOwned(c, w);
    PlacedKept(c, w, w');
    FlowKept(c, w, w');
    MemoryKept(c, w, w');
  }

  lemma ReclaimKeeps(c: Config, w: World)
    requires Inv(c, w) && CanReclaim(w)
    ensures Inv(c, Reclaim(c, w))
  {
    var w' := Reclaim(c, w);
    assert Bounds(c, w');
    ReclaimOwned(c, w);
    PlacedKept(c, w, w');
    FlowKept(c, w, w');
    MemoryKept(c, w, w');
  }

  /** The callback writes only inside the chunk it holds. */
  lemma SwapStaysInside(c: Config, w: World)
    requires Inv(c, w) && CanSwap(w)
    ensures var b := Base(c, HeldDesc(w).addr);
            b % c.frameSize == 0 && SameOutside(w.umem, Swap(w).umem, b, c.frameSize)
  {
    HeldAlone(c, w);
    FrameFacts(c, Base(c, HeldDesc(w).addr));
  }

  lemma SwapMemory(c: Config, w: World)
    requires Inv(c, w) && CanSwap(w) && Bounds(c, Swap(w))
    ensures Memory(c, Swap(w))
  {
    HeldAlone(c, w);
    SwapStaysInside(c, w);
    OthersKept(c, w, Swap(w).umem, Base(c, HeldDesc(w).addr));
    SwapHeld(c, w);
  }

  lemma SwapHeld(c: Config, w: World)
    requires Bounds(c, w) && HeldBytes(w) && CanSwap(w)
    ensures HeldBytes(Swap(w))
  {
    SpliceView(w.umem, HeldDesc(w), Reflect(View(w.umem, HeldDesc(w))));
  }

  lemma SpliceView(m: Bytes, d: Desc, bytes: Bytes)
    requires d.addr + d.len <= |m| && |bytes| == d.len
    ensures View(Splice(m, d.addr, bytes), d) == bytes
  {
  }

  lemma SwapKeeps(c: Config, w: World)
    requires Inv(c, w) && CanSwap(w)
    ensures Inv(c, Swap(w))
  {
    var w' := Swap(w);
    assert Bounds(c, w');
    OwnedKept(c, w, w');
    PlacedKept(c, w, w');
    FlowKept(c, w, w');
    SwapMemory(c, w);
  }

  /** A write inside a chunk that no window mentions leaves all windows intact. */
  lemma OthersKept(c: Config, w: World, m: Bytes, b: nat)
    requires Bounds(c, w) && Placed(c, w) && b % c.frameSize == 0
    requires SameOutside(w.umem, m, b, c.frameSize)
    requires forall i :: w.u.rxPos <= i < |w.k.rxLog| ==> Base(c, w.k.rxLog[i].addr) != b
    requires forall j :: w.k.txCons <= j < |w.u.txLog| ==> Base(c, w.u.txLog[j].addr) != b
    requires forall i :: 0 <= i < |w.k.inFlight| ==> Base(c, w.k.inFlight[i].desc.addr) != b
    ensures forall i :: w.u.rxPos <= i < |w.k.rxLog| ==> View(m, w.k.rxLog[i]) == View(w.umem, w.k.rxLog[i])
    ensures forall j :: w.k.txCons <= j < |w.u.txLog| ==> View(m, w.u.txLog[j]) == View(w.umem, w.u.txLog[j])
    ensures forall i :: 0 <= i < |w.k.inFlight| ==> View(m, w.k.inFlight[i].desc) == View(w.umem, w.k.inFlight[i].desc)
  {
    forall i | w.u.rxPos <= i < |w.k.rxLog|
      ensures View(m, w.k.rxLog[i]) == View(w.umem, w.k.rxLog[i])
    {
      OtherChunkKept(c, w.umem, m, b, w.k.rxLog[i]);
    }
    forall j | w.k.txCons <= j < |w.u.txLog|
      ensures View(m, w.u.txLog[j]) == View(w.umem, w.u.txLog[j])
    {
      OtherChunkKept(c, w.umem, m, b, w.u.txLog[j]);
    }
    forall i | 0 <= i < |w.k.inFlight|
      ensures View(m, w.k.inFlight[i].desc) == View(w.umem, w.k.inFlight[i].desc)
    {
      OtherChunkKept(c, w.umem, m, b, w.k.inFlight[i].desc);
    }
  }

  /** Recording one more verdict extends the choice by the frame it is about, or not. */
  lemma {:induction false} ChosenGrows<T>(all: seq<T>, vs: seq<Verdict>, v: Verdict)
    requires |vs| < |all|
    ensures Chosen(all[..|vs| + 1], vs + [v]) ==
            Chosen(all[..|vs|], vs) + if v.Transferred? then [all[|vs|]] else []
  {
    var n := |vs|;
    assert (vs + [v])[..n] == vs && all[..n + 1][..n] == all[..n];
  }

  lemma ReflectAllPrefix(fs: seq<Bytes>, n: nat)
    requires n <= |fs|
    ensures ReflectAll(fs[..n]) == ReflectAll(fs)[..n]
  {
  }

  lemma ReflectedGrows(received: seq<Bytes>, vs: seq<Verdict>, v: Verdict)
    requires |vs| < |received|
    ensures Chosen(ReflectAll(received[..|vs| + 1]), vs + [v]) ==
            Chosen(ReflectAll(received[..|vs|]), vs) + if v.Transferred? then [Reflect(received[|vs|])] else []
  {
    ChosenGrows(ReflectAll(received), vs, v);
    ReflectAllPrefix(received, |vs|);
    ReflectAllPrefix(received, |vs| + 1);
  }

  /** w' has one more verdict, v, about the frame that w holds. */
  ghost predicate Settled(c: Config, w: World, w': World, v: Verdict) {
    && Bounds(c, w) && Bounds(c, w') && w.u.held.Some? && w'.k == w.k && w'.u.verdicts == w.u.verdicts + [v]
    && (v.Unsupported? <==> !Accepts(w.k.received[|w.u.verdicts|]))
    && w'.u.txLog == w.u.txLog + (if v.Transferred? then [HeldDesc(w)] else [])
    && w'.u.txBytes == w.u.txBytes + (if v.Transferred? then [Reflect(w.k.received[|w.u.verdicts|])] else [])
  }

  lemma VerdictChoice(c: Config, w: World, w': World, v: Verdict)
    requires Settled(c, w, w', v) && Flow(c, w)
    ensures w'.u.txLog == Chosen(w'.k.rxLog[..|w'.u.verdicts|], w'.u.verdicts)
    ensures w'.u.txBytes == Chosen(ReflectAll(w'.k.received[..|w'.u.verdicts|]), w'.u.verdicts)
  {
    ChosenGrows(w.k.rxLog, w.u.verdicts, v);
    assert w.k.rxLog[|w.u.verdicts|] == HeldDesc(w);
    ReflectedGrows(w.k.received, w.u.verdicts, v);
  }

  /** A settled frame keeps TX in step with RX. */
  lemma VerdictFlow(c: Config, w: World, w': World, v: Verdict)
    requires Settled(c, w, w', v) && Flow(c, w)
    ensures Flow(c, w')
  {
    VerdictChoice(c, w, w', v);
  }

  lemma StageKeeps(c: Config, w: World)
    requires Inv(c, w) && CanStage(c, w)
    ensures Inv(c, Stage(c, w))
  {
    var w' := Stage(c, w);
    assert Bounds(c, w');
    StageOwned(c, w);
    StageMemory(c, w);
    VerdictFlow(c, w, w', Transferred);
  }

  lemma StageMemory(c: Config, w: World)
    requires Inv(c, w) && CanStage(c, w) && Bounds(c, Stage(c, w))
    ensures Placed(c, Stage(c, w)) && Memory(c, Stage(c, w))
  {
  }

  lemma RecycleKeeps(c: Config, w: World)
    requires Inv(c, w) && CanRecycle(w)
    ensures Inv(c, Recycle(c, w))
  {
    var w' := Recycle(c, w);
    assert Bounds(c, w');
    RecycleOwned(c, w);
    PlacedKept(c, w, w');
    MemoryKept(c, w, w');
    VerdictFlow(c, w, w', if w.u.held.value.Declined? then Unsupported else Rejected);
  }

  // ---------------------------------------------------------------- kernel actions

  lemma TakeFillKeeps(c: Config, w: World)
    requires Inv(c, w) && CanTakeFill(w)
    ensures Inv(c, TakeFill(w))
  {
    assert Bounds(c, TakeFill(w));
    TakeFillOwned(c, w);
  }

  lemma WriteFrameMemory(c: Config, w: World, b: nat, m: Bytes)
    requires Inv(c, w) && CanWriteFrame(c, w, b, m) && Bounds(c, WriteFrame(w, m))
    ensures Memory(c, WriteFrame(w, m))
  {
    RxFrameAlone(c, w, b);
    FrameFacts(c, b);
    OthersKept(c, w, m, b);
    if w.u.held.Some? {
      OtherChunkKept(c, w.umem, m, b, HeldDesc(w));
    }
  }

  lemma WriteFrameKeeps(c: Config, w: World, b: nat, m: Bytes)
    requires Inv(c, w) && CanWriteFrame(c, w, b, m)
    ensures Inv(c, WriteFrame(w, m))
  {
    var w' := WriteFrame(w, m);
    assert Bounds(c, w');
    OwnedKept(c, w, w');
    PlacedKept(c, w, w');
    FlowKept(c, w, w');
    WriteFrameMemory(c, w, b, m);
  }

  lemma OwnFrameInChunk(c: Config, w: World, d: Desc)
    requires Bounds(c, w) && Owned(c, w) && CanDeliver(c, w, d)
    ensures InChunk(c, d)
  {
    RxFrameAlone(c, w, Base(c, d.addr));
    FrameFacts(c, Base(c, d.addr));
  }

  lemma DeliverFlow(c: Config, w: World, d: Desc)
    requires Bounds(c, w) && Flow(c, w) && Bounds(c, Deliver(c, w, d))
    ensures Flow(c, Deliver(c, w, d))
  {
    var w', n := Deliver(c, w, d), |w.u.verdicts|;
    assert w'.k.rxLog[..n] == w.k.rxLog[..n] && w'.k.received[..n] == w.k.received[..n];
  }

  lemma DeliverMemory(c: Config, w: World, d: Desc)
    requires Bounds(c, w) && Memory(c, w) && Bounds(c, Deliver(c, w, d))
    ensures Memory(c, Deliver(c, w, d))
  {
  }

  lemma DeliverKeeps(c: Config, w: World, d: Desc)
    requires Inv(c, w) && CanDeliver(c, w, d)
    ensures Inv(c, Deliver(c, w, d))
  {
    var w' := Deliver(c, w, d);
    assert Bounds(c, w');
    DeliverOwned(c, w, d);
    DeliverFlow(c, w, d);
    DeliverMemory(c, w, d);
    OwnFrameInChunk(c, w, d);
  }

  /** Taking a packet adds its address to both sides of the balance. */
  lemma SentBalance(cq: seq<nat>, inFlight: seq<Packet>, wire: seq<Packet>, p: Packet)
    requires multiset(cq) + multiset(Addrs(inFlight)) == multiset(Addrs(wire))
    ensures multiset(cq) + multiset(Addrs(inFlight + [p])) == multiset(Addrs(wire + [p]))
  {
    assert Addrs(inFlight + [p]) == Addrs(inFlight) + [p.desc.addr];
    assert Addrs(wire + [p]) == Addrs(wire) + [p.desc.addr];
  }

  /** Completing a packet moves its address from one summand to the other. */
  lemma CompletionBalance(cq: seq<nat>, f: seq<Packet>, i: nat)
    requires i < |f|
    ensures multiset(cq + [f[i].desc.addr]) + multiset(Addrs(f[..i] + f[i + 1..])) == multiset(cq) + multiset(Addrs(f))
  {
    assert Addrs(f) == Addrs(f[..i]) + [f[i].desc.addr] + Addrs(f[i + 1..]);
    assert Addrs(f[..i] + f[i + 1..]) == Addrs(f[..i]) + Addrs(f[i + 1..]);
  }

  lemma TakeTxFlow(c: Config, w: World)
    requires Inv(c, w) && CanTakeTx(c, w) && Bounds(c, TakeTx(w))
    ensures Flow(c, TakeTx(w))
  {
    SentBalance(w.k.cqLog, w.k.inFlight, w.k.wire, TakeTx(w).k.wire[w.k.txCons]);
  }

  lemma TakeTxKeeps(c: Config, w: World)
    requires Inv(c, w) && CanTakeTx(c, w)
    ensures Inv(c, TakeTx(w))
  {
    assert Bounds(c, TakeTx(w));
    TakeTxOwned(c, w);
    TakeTxFlow(c, w);
  }

  lemma CompleteKeeps(c: Config, w: World, i: nat)
    requires Inv(c, w) && CanComplete(w, i)
    ensures Inv(c, Complete(w, i))
  {
    assert Bounds(c, Complete(w, i));
    CompleteOwned(c, w, i);
    CompletionBalance(w.k.cqLog, w.k.inFlight, i);
  }

  // ---------------------------------------------------------------- all runs

  lemma InitialInv(c: Config, w: World)
    requires c.frameSize > 0 && Initial(c, w)
    ensures Inv(c, w)
  {
    assert Bounds(c, w);
    forall b: nat ensures Holders(c, w, b) == multiset(Frames(c))[b] {
    }
  }

  lemma WorkerStepKeeps(c: Config, w: World, w': World)
    requires Inv(c, w) && WorkerStep(c, w, w')
    ensures Inv(c, w')
  {
    PublishFillKeeps(c, w);
    if CanPublishTx(w) { PublishTxKeeps(c, w); }
    ReleaseCqKeeps(c, w);
    if CanReleaseRx(w) { ReleaseRxKeeps(c, w); }
    if CanAllocFill(c, w) { AllocFillKeeps(c, w); }
    if CanBegin(w) { BeginKeeps(c, w); }
    if CanSwap(w) { SwapKeeps(c, w); }
    if CanDecline(w) { DeclineKeeps(c, w); }
    if CanStage(c, w) { StageKeeps(c, w); }
    if CanRefuse(c, w) { RefuseKeeps(c, w); }
    if CanRecycle(w) { RecycleKeeps(c, w); }
    if CanReclaim(w) { ReclaimKeeps(c, w); }
  }

  lemma KernelStepKeeps(c: Config, w: World, w': World)
    requires Inv(c, w) && KernelStep(c, w, w')
    ensures Inv(c, w')
  {
    if CanTakeFill(w) && w' == TakeFill(w) {
      TakeFillKeeps(c, w);
    } else if CanTakeTx(c, w) && w' == TakeTx(w) {
      TakeTxKeeps(c, w);
    } else {
      ChosenStepKeeps(c, w, w');
    }
  }

  /** The kernel actions that choose something: what to write, to deliver or to complete. */
  lemma ChosenStepKeeps(c: Config, w: World, w': World)
    requires Inv(c, w)
    requires || (exists b, m :: CanWriteFrame(c, w, b, m) && w' == WriteFrame(w, m))
             || (exists d :: CanDeliver(c, w, d) && w' == Deliver(c, w, d))
             || (exists i :: CanComplete(w, i) && w' == Complete(w, i))
    ensures Inv(c, w')
  {
    if b, m :| CanWriteFrame(c, w, b, m) && w' == WriteFrame(w, m) {
      WriteFrameKeeps(c, w, b, m);
    } else if d :| CanDeliver(c, w, d) && w' == Deliver(c, w, d) {
      DeliverKeeps(c, w, d);
    } else {
      var i :| CanComplete(w, i) && w' == Complete(w, i);
      CompleteKeeps(c, w, i);
    }
  }

  /** The invariant holds in every state of every run, whatever the kernel does and when. */
  lemma {:induction false} RunInv(c: Config, run: seq<World>, i: nat)
    requires IsRun(c, run) && i < |run|
    ensures Inv(c, run[i])
  {
    if i == 0 {
      InitialInv(c, run[0]);
    } else {
      RunInv(c, run, i - 1);
      assert StepAt(c, run, i - 1);
      if WorkerStep(c, run[i - 1], run[i]) {
        WorkerStepKeeps(c, run[i - 1], run[i]);
      } else {
        KernelStepKeeps(c, run[i - 1], run[i]);
      }
    }
  }
}
