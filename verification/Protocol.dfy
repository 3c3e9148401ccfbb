/** The frame-ownership protocol between the worker and the kernel, as a transition system.
    Each action is one access to shared state together with the private bookkeeping around
    it; the kernel may act between any two actions of the worker. */
module Protocol {
  import opened Reflector

  datatype Option<T> = None | Some(value: T)

  /** An RX or TX descriptor: a byte range inside the UMEM. */
  datatype Desc = Desc(addr: nat, len: nat)

  datatype Packet = Packet(desc: Desc, bytes: Bytes)

  /** How far the callback has come with the frame it holds. */
  datatype Phase = Inspecting | Declined | Reflected | Refused

  /** What became of a received frame. */
  datatype Verdict = Unsupported | Rejected | Transferred

  datatype Config = Config(numFrames: nat, frameSize: nat, fillCap: nat, rxCap: nat, txCap: nat, cqCap: nat)

  /** What only the worker writes. Positions count entries since the start of the run:
      fillLog and txLog hold every descriptor ever written, of which the first fillPub and
      txPub are published; rxPos and cqPos say how many RX and CQ entries are processed,
      rxCons and cqCons how many are released. verdicts and txBytes are history. */
  datatype Worker = Worker(
    free: seq<nat>, fillLog: seq<nat>, fillPub: nat,
    rxPos: nat, rxCons: nat, held: Option<Phase>, verdicts: seq<Verdict>,
    txLog: seq<Desc>, txBytes: seq<Bytes>, txPub: nat,
    cqPos: nat, cqCons: nat)

  /** What only the kernel writes. rxFrames are the frames it may receive into, inFlight the
      TX descriptors taken and not completed; received and wire are history: the bytes of
      each frame when it was delivered, and each packet when it was taken for sending. */
  datatype Kernel = Kernel(
    fillCons: nat, rxFrames: multiset<nat>, rxLog: seq<Desc>, received: seq<Bytes>,
    txCons: nat, inFlight: seq<Packet>, wire: seq<Packet>, cqLog: seq<nat>)

  datatype World = World(u: Worker, k: Kernel, umem: Bytes)

  /** The chunk an address lies in. */
  function Base(c: Config, addr: nat): nat {
    if c.frameSize == 0 then addr else addr - addr % c.frameSize
  }

  /** The chunk bases the allocator starts with. */
  ghost function Frames(c: Config): seq<nat> {
    seq(c.numFrames, i requires 0 <= i => i * c.frameSize)
  }

  ghost function View(umem: Bytes, d: Desc): Bytes {
    if d.addr + d.len <= |umem| then umem[d.addr..d.addr + d.len] else []
  }

  /** m' differs from m at most inside the chunk at b. */
  ghost predicate SameOutside(m: Bytes, m': Bytes, b: nat, size: nat) {
    |m| == |m'| && forall i :: 0 <= i < |m| && !(b <= i < b + size) ==> m'[i] == m[i]
  }

  // ---------------------------------------------------------------- worker actions

  ghost predicate CanAllocFill(c: Config, w: World) {
    w.u.free != [] && |w.u.fillLog| < w.k.fillCons + c.fillCap
  }

  /** Pop the top free frame into the next FILL slot; not yet visible to the kernel. */
  ghost function AllocFill(c: Config, w: World): World
    requires CanAllocFill(c, w)
  {
    var n := |w.u.free| - 1;
    w.(u := w.u.(free := w.u.free[..n], fillLog := w.u.fillLog + [w.u.free[n]]))
  }

  ghost function PublishFill(w: World): World {
    w.(u := w.u.(fillPub := |w.u.fillLog|))
  }

  ghost predicate CanBegin(w: World) {
    w.u.held.None? && w.u.rxPos < |w.k.rxLog|
  }

  /** Hand the next received frame to the callback. */
  ghost function Begin(w: World): World {
    w.(u := w.u.(rxPos := w.u.rxPos + 1, held := Some(Inspecting)))
  }

  ghost predicate Holding(w: World, p: Phase) {
    w.u.held == Some(p) && 0 < w.u.rxPos <= |w.k.rxLog|
  }

  ghost function HeldDesc(w: World): Desc
    requires 0 < w.u.rxPos <= |w.k.rxLog|
  {
    w.k.rxLog[w.u.rxPos - 1]
  }

  ghost predicate CanSwap(w: World) {
    && Holding(w, Inspecting) && HeldDesc(w).addr + HeldDesc(w).len <= |w.umem|
    && Accepts(View(w.umem, HeldDesc(w)))
  }

  /** Reflect the held frame in place. */
  ghost function Swap(w: World): World
    requires CanSwap(w)
  {
    var d := HeldDesc(w);
    w.(u := w.u.(held := Some(Reflected)), umem := Splice(w.umem, d.addr, Reflect(View(w.umem, d))))
  }

  ghost predicate CanDecline(w: World) {
    Holding(w, Inspecting) && !Accepts(View(w.umem, HeldDesc(w)))
  }

  ghost function Decline(w: World): World {
    w.(u := w.u.(held := Some(Declined)))
  }

  ghost predicate CanStage(c: Config, w: World) {
    Holding(w, Reflected) && |w.u.txLog| < w.k.txCons + c.txCap
  }

  /** Write the held frame's descriptor to the next TX slot; not yet visible to the kernel. */
  ghost function Stage(c: Config, w: World): World
    requires CanStage(c, w)
  {
    var d := HeldDesc(w);
    w.(u := w.u.(held := None, verdicts := w.u.verdicts + [Transferred],
                 txLog := w.u.txLog + [d], txBytes := w.u.txBytes + [View(w.umem, d)]))
  }

  ghost predicate TxFull(c: Config, w: World) {
    |w.u.txLog| == w.k.txCons + c.txCap
  }

  ghost predicate CanRefuse(c: Config, w: World) {
    Holding(w, Reflected) && (TxFull(c, w) || HeldDesc(w).len == 0 || HeldDesc(w).len > c.frameSize)
  }

  ghost function Refuse(w: World): World {
    w.(u := w.u.(held := Some(Refused)))
  }

  ghost predicate CanRecycle(w: World) {
    Holding(w, Declined) || Holding(w, Refused)
  }

  /** Push the held frame's chunk back on the free stack. */
  ghost function Recycle(c: Config, w: World): World
    requires CanRecycle(w)
  {
    w.(u := w.u.(held := None, free := w.u.free + [Base(c, HeldDesc(w).addr)],
                 verdicts := w.u.verdicts + [if w.u.held.value.Declined? then Unsupported else Rejected]))
  }

  ghost predicate CanReleaseRx(w: World) {
    w.u.held.None?
  }

  ghost function ReleaseRx(w: World): World {
    w.(u := w.u.(rxCons := w.u.rxPos))
  }

  /** Publication never happens in the middle of a reclaim loop. */
  ghost predicate CanPublishTx(w: World) {
    w.u.cqPos == w.u.cqCons
  }

  ghost function PublishTx(w: World): World {
    w.(u := w.u.(txPub := |w.u.txLog|))
  }

  ghost predicate CanReclaim(w: World) {
    w.u.cqPos < |w.k.cqLog|
  }

  /** Push the chunk of the next completed address on the free stack. */
  ghost function Reclaim(c: Config, w: World): World
    requires CanReclaim(w)
  {
    w.(u := w.u.(free := w.u.free + [Base(c, w.k.cqLog[w.u.cqPos])], cqPos := w.u.cqPos + 1))
  }

  ghost function ReleaseCq(w: World): World {
    w.(u := w.u.(cqCons := w.u.cqPos))
  }

  // ---------------------------------------------------------------- kernel actions

  ghost predicate CanTakeFill(w: World) {
    w.k.fillCons < w.u.fillPub <= |w.u.fillLog|
  }

  ghost function TakeFill(w: World): World
    requires CanTakeFill(w)
  {
    w.(k := w.k.(fillCons := w.k.fillCons + 1, rxFrames := w.k.rxFrames + multiset{w.u.fillLog[w.k.fillCons]}))
  }

  /** The kernel writes only into frames it took from FILL. */
  ghost predicate CanWriteFrame(c: Config, w: World, b: nat, m: Bytes) {
    b in w.k.rxFrames && SameOutside(w.umem, m, b, c.frameSize)
  }

  ghost function WriteFrame(w: World, m: Bytes): World {
    w.(umem := m)
  }

  /** An RX descriptor lies inside one chunk the kernel owns, and needs a free RX slot. */
  ghost predicate CanDeliver(c: Config, w: World, d: Desc) {
    && c.frameSize > 0 && Base(c, d.addr) in w.k.rxFrames && d.addr % c.frameSize + d.len <= c.frameSize
    && |w.k.rxLog| < w.u.rxCons + c.rxCap
  }

  ghost function Deliver(c: Config, w: World, d: Desc): World {
    w.(k := w.k.(rxFrames := w.k.rxFrames - multiset{Base(c, d.addr)}, rxLog := w.k.rxLog + [d],
                 received := w.k.received + [View(w.umem, d)]))
  }

  /** A TX descriptor is taken only with a CQ slot reserved for its completion. */
  ghost predicate CanTakeTx(c: Config, w: World) {
    && w.k.txCons < w.u.txPub <= |w.u.txLog|
    && |w.k.inFlight| + |w.k.cqLog| < w.u.cqCons + c.cqCap
  }

  ghost function TakeTx(w: World): World
    requires w.k.txCons < |w.u.txLog|
  {
    var p := Packet(w.u.txLog[w.k.txCons], View(w.umem, w.u.txLog[w.k.txCons]));
    w.(k := w.k.(txCons := w.k.txCons + 1, inFlight := w.k.inFlight + [p], wire := w.k.wire + [p]))
  }

  ghost predicate CanComplete(w: World, i: nat) {
    i < |w.k.inFlight|
  }

  /** Completions come in any order, once each, with the address that was submitted. */
  ghost function Complete(w: World, i: nat): World
    requires CanComplete(w, i)
  {
    w.(k := w.k.(inFlight := w.k.inFlight[..i] + w.k.inFlight[i + 1..],
                 cqLog := w.k.cqLog + [w.k.inFlight[i].desc.addr]))
  }

  // ---------------------------------------------------------------- runs

  ghost predicate WorkerStep(c: Config, w: World, w': World) {
    || (CanAllocFill(c, w) && w' == AllocFill(c, w))
    || w' == PublishFill(w)
    || (CanBegin(w) && w' == Begin(w))
    || (CanSwap(w) && w' == Swap(w))
    || (CanDecline(w) && w' == Decline(w))
    || (CanStage(c, w) && w' == Stage(c, w))
    || (CanRefuse(c, w) && w' == Refuse(w))
    || (CanRecycle(w) && w' == Recycle(c, w))
    || (CanReleaseRx(w) && w' == ReleaseRx(w))
    || (CanPublishTx(w) && w' == PublishTx(w))
    || (CanReclaim(w) && w' == Reclaim(c, w))
    || w' == ReleaseCq(w)
  }

  ghost predicate KernelStep(c: Config, w: World, w': World) {
    || (CanTakeFill(w) && w' == TakeFill(w))
    || (exists b, m :: CanWriteFrame(c, w, b, m) && w' == WriteFrame(w, m))
    || (exists d :: CanDeliver(c, w, d) && w' == Deliver(c, w, d))
    || (CanTakeTx(c, w) && w' == TakeTx(w))
    || (exists i :: CanComplete(w, i) && w' == Complete(w, i))
  }

  /** All frames free, all rings empty, any memory contents. */
  ghost predicate Initial(c: Config, w: World) {
    && w.u == Worker(Frames(c), [], 0, 0, 0, None, [], [], [], 0, 0, 0)
    && w.k == Kernel(0, multiset{}, [], [], 0, [], [], [])
    && |w.umem| == c.numFrames * c.frameSize
  }

  ghost predicate StepAt(c: Config, run: seq<World>, i: nat)
    requires i + 1 < |run|
  {
    WorkerStep(c, run[i], run[i + 1]) || KernelStep(c, run[i], run[i + 1])
  }

  /** A run: from an initial state, each next state by one action of either side. */
  ghost predicate IsRun(c: Config, run: seq<World>) {
    && c.frameSize > 0 && |run| > 0 && Initial(c, run[0])
    && forall i: nat {:trigger StepAt(c, run, i)} :: i + 1 < |run| ==> StepAt(c, run, i)
  }

  ghost predicate KeptAt(a: seq<World>, b: seq<World>, i: nat)
    requires i < |a| && i < |b|
  {
    a[i] == b[i]
  }

  /** b continues a. (The trigger keeps the definition out of the way of callers, who chain
      extensions with ExtendsTrans.) */
  ghost predicate Extends(a: seq<World>, b: seq<World>) {
    |a| <= |b| && forall i: nat {:trigger KeptAt(a, b, i)} :: i < |a| ==> KeptAt(a, b, i)
  }

  ghost predicate OneMore(a: seq<World>, b: seq<World>) {
    Extends(a, b) && |b| == |a| + 1
  }

  lemma ExtendsTrans(a: seq<World>, b: seq<World>, c: seq<World>)
    requires Extends(a, b) && Extends(b, c)
    ensures Extends(a, c)
  {
    forall i: nat | i < |a|
      ensures KeptAt(a, c, i)
    {
      assert KeptAt(a, b, i) && KeptAt(b, c, i);
    }
  }

  lemma StartRun(c: Config, w: World)
    requires c.frameSize > 0 && Initial(c, w)
    ensures IsRun(c, [w])
  {
  }

  lemma ExtendRun(c: Config, run: seq<World>, w': World)
    requires IsRun(c, run)
    requires WorkerStep(c, run[|run| - 1], w') || KernelStep(c, run[|run| - 1], w')
    ensures IsRun(c, run + [w'])
  {
    var longer := run + [w'];
    forall i: nat | i + 1 < |longer|
      ensures StepAt(c, longer, i)
    {
      if i + 1 < |run| {
        assert StepAt(c, run, i);
      }
    }
  }
}
