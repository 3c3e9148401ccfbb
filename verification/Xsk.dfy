/** The socket: four rings, the UMEM and the allocator, with the kernel on the other side. The
    ghost state records the run of the protocol that the code has performed so far. */
module Sockets {
  import opened MachineWords
  import opened Reflector
  import opened Protocol
  import opened Rings
  import opened FrameAlloc
  import Theorems

  /** Between two points of one run, the kernel only advances. */
  lemma KernelAdvances(c: Config, r: seq<World>, r': seq<World>, w: World, w': World)
    requires IsRun(c, r') && |r| > 0 && Extends(r, r') && w == r[|r| - 1] && w' == r'[|r'| - 1]
    ensures w.k.fillCons <= w'.k.fillCons && |w.k.cqLog| <= |w'.k.cqLog| && |w.k.rxLog| <= |w'.k.rxLog|
  {
    assert KeptAt(r, r', |r| - 1);
    Theorems.RunGrows(c, r', |r| - 1, |r'| - 1);
  }

  /** The descriptor a callback holds does not change under it. */
  lemma HeldStays(c: Config, r: seq<World>, r': seq<World>, w: World, w': World)
    requires IsRun(c, r') && |r| > 0 && Extends(r, r') && w == r[|r| - 1] && w' == r'[|r'| - 1]
    requires 0 < w.u.rxPos <= |w.k.rxLog| && w'.u.rxPos == w.u.rxPos
    ensures w'.u.rxPos <= |w'.k.rxLog| && HeldDesc(w') == HeldDesc(w)
  {
    assert KeptAt(r, r', |r| - 1);
    Theorems.RunGrows(c, r', |r| - 1, |r'| - 1);
  }

  /** Nor do the bytes of a frame it has not touched yet. */
  lemma HeldViewStays(c: Config, r: seq<World>, r': seq<World>, w: World, w': World)
    requires IsRun(c, r) && IsRun(c, r') && Extends(r, r') && w == r[|r| - 1] && w' == r'[|r'| - 1]
    requires Holding(w, Inspecting) && Holding(w', Inspecting) && w'.u.rxPos == w.u.rxPos
    ensures View(w'.umem, HeldDesc(w')) == View(w.umem, HeldDesc(w))
  {
    assert KeptAt(r, r', |r| - 1);
    Theorems.RunGrows(c, r', |r| - 1, |r'| - 1);
    Theorems.HeldIsReceived(c, r, |r| - 1);
    Theorems.HeldIsReceived(c, r', |r'| - 1);
  }

  lemma DescsRemove(ps: seq<Packet>, i: nat)
    requires i < |ps|
    ensures Theorems.Descs(ps[..i] + ps[i + 1..]) == Theorems.Descs(ps)[..i] + Theorems.Descs(ps)[i + 1..]
  {
  }

  /** The top n entries of a stack, in the order they are popped. */
  ghost function TopDown(s: seq<nat>, n: nat): (t: seq<nat>)
    requires n <= |s|
    ensures |t| == n
  {
    if n == 0 then [] else TopDown(s, n - 1) + [s[|s| - n]]
  }

  /** The worker's state after n free frames moved to FILL slots, last freed first. */
  ghost function Refilled(u: Worker, n: nat): Worker
    requires n <= |u.free|
  {
    u.(free := u.free[..|u.free| - n], fillLog := u.fillLog + TopDown(u.free, n))
  }

  /** The worker's state after the held frame moved to TX staging. */
  ghost function Staged(u: Worker, d: Desc, bytes: seq<Bytes>): Worker {
    u.(held := None, verdicts := u.verdicts + [Transferred], txLog := u.txLog + [d], txBytes := bytes)
  }

  /** How many frames fit before the FILL log reaches `limit`. */
  ghost function RefillSize(u: Worker, limit: int): int {
    if limit - |u.fillLog| < |u.free| then limit - |u.fillLog| else |u.free|
  }

  lemma RefillStep(u: Worker, n: nat)
    requires n <= |u.free|
    ensures |Refilled(u, n).fillLog| == |u.fillLog| + n
    ensures (Refilled(u, n).free == []) == (n == |u.free|)
    ensures n < |u.free| ==> var v := Refilled(u, n);
              Refilled(u, n + 1) == v.(free := v.free[..|v.free| - 1], fillLog := v.fillLog + [v.free[|v.free| - 1]])
  {
  }

  lemma OrderOf(n: U32) returns (k: nat)
    requires HasSingleBit(n)
    ensures k <= 31 && n == Pow2(k)
  {
    k := SingleBitIsPowerOfTwo(n);
    Pow2Values();
    if k >= 32 {
      Pow2Monotone(32, k);
    }
  }

  lemma ProductFits(a: U32, b: U32)
    ensures 0 <= a * b <= TWO64
  {
    MulMonotone(a, TWO32, b);
    MulMonotone(b, TWO32, TWO32);
  }

  lemma MulMonotone(a: nat, b: nat, x: nat)
    requires a <= b
    ensures a * x <= b * x && x * a <= x * b
  {
    assert b * x == a * x + (b - a) * x;
  }

  /** Sizes, roles and separation of the parts of a socket. */
  ghost predicate Parts(c: Config, fill: Ring<nat>, rx: Ring<Desc>, tx: Ring<Desc>, completion: Ring<nat>,
                        alloc: FrameAllocator, umem: array<Byte>, order: nat)
  {
    && order <= 32 && c.frameSize == Pow2(order) && 0 < c.frameSize <= TWO32
    && c.numFrames < TWO32 && c.numFrames * c.frameSize <= TWO64
    && umem.Length == c.numFrames * c.frameSize && c.numFrames <= alloc.frames.Length
    && fill.ownerProduces && tx.ownerProduces && !rx.ownerProduces && !completion.ownerProduces
    && fill.numDescs == c.fillCap && rx.numDescs == c.rxCap && tx.numDescs == c.txCap && completion.numDescs == c.cqCap
    && fill != completion && rx != tx
    && fill.slots != completion.slots && fill.slots != alloc.frames && completion.slots != alloc.frames
    && rx.slots != tx.slots
    && umem as object !in {fill.slots as object, completion.slots as object, alloc.frames as object}
  }

  /** Set up the shared state, with the size conditions the program asserts statically. */
  method CreateXsk(numFrames: U32, frameSize: U32, ringSize: U32, allocCap: nat, busyPoll: bool) returns (x: Xsk)
    requires numFrames <= allocCap && HasSingleBit(frameSize) && HasSingleBit(ringSize)
    ensures x.Valid() && |x.run| == 1 && Initial(x.c, x.w)
    ensures x.c == Config(numFrames, frameSize, ringSize, ringSize, ringSize, ringSize) && x.busyPoll == busyPoll
    ensures fresh(x) && fresh(x.fill) && fresh(x.fill.slots) && fresh(x.rx) && fresh(x.rx.slots) && fresh(x.tx)
    ensures fresh(x.tx.slots) && fresh(x.completion) && fresh(x.completion.slots)
    ensures fresh(x.alloc) && fresh(x.alloc.frames) && fresh(x.umem)
  {
    ghost var k := OrderOf(ringSize);
    ghost var order := OrderOf(frameSize);
    ProductFits(numFrames, frameSize);
    var c := Config(numFrames, frameSize, ringSize, ringSize, ringSize, ringSize);
    var fill := new Ring<nat>(ringSize, 0, k, true);
    var rx := new Ring<Desc>(ringSize, Desc(0, 0), k, false);
    var tx := new Ring<Desc>(ringSize, Desc(0, 0), k, true);
    var completion := new Ring<nat>(ringSize, 0, k, false);
    var alloc := new FrameAllocator(numFrames, frameSize, allocCap);
    var umem := new Byte[numFrames * frameSize](_ => 0);
    x := new Xsk(c, fill, rx, tx, completion, alloc, umem, busyPoll, order);
  }

  /** The packet view of a descriptor, reflected in place. */
  method ReflectView(umem: array<Byte>, d: Desc) returns (accepted: bool)
    requires d.addr + d.len <= umem.Length
    modifies umem
    ensures accepted == Accepts(View(old(umem[..]), d))
    ensures umem[..] == Rewritten(old(umem[..]), d, accepted)
  {
    ghost var view := umem[d.addr..d.addr + d.len];
    assert view == View(umem[..], d);
    accepted := ReflectSwap(umem, d.addr, d.len);
    assert old(umem[d.addr..d.addr + d.len]) == view;
  }

  /** The UMEM after the callback decided about a frame. */
  ghost function Rewritten(m: Bytes, d: Desc, accepted: bool): Bytes
    requires d.addr + d.len <= |m|
  {
    if accepted then Splice(m, d.addr, Reflect(View(m, d))) else m
  }

  /** What the outside answers when a wakeup is considered: whether the ring's flag asks for one,
      and the errno a call returns, 0 for success. */
  datatype Wakeup = Wakeup(flag: bool, outcome: int)

  /** The error seen: that of the call if one is made, which is when the socket is polled or the
      flag is set, and none otherwise. */
  function ErrorOf(busyPoll: bool, e: Wakeup): int {
    if busyPoll || e.flag then e.outcome else 0
  }

  /** What a load of the RX window takes: it goes on with entries seen before, or else sees all
      that were there at the start, and it is cut to the batch. */
  ghost predicate Taken(batch: nat, from: nat, known: nat, seen: nat, seen': nat, to: nat) {
    && (seen > from ==> seen' == seen) && (seen <= from ==> known <= seen') && from <= seen'
    && to == from + if seen' - from > batch then batch else seen' - from
  }

  datatype RingKind = Rx | Tx | Fill | Completion

  class Xsk {
    const c: Config
    const fill: Ring<nat>
    const rx: Ring<Desc>
    const tx: Ring<Desc>
    const completion: Ring<nat>
    const alloc: FrameAllocator
    const umem: array<Byte>
    const frameMask: nat
    const busyPoll: bool

    // The kernel's private bookkeeping: frames to receive into, descriptors being sent.
    var rxFrames: multiset<nat>
    var inFlight: seq<Desc>

    ghost const frameOrder: nat
    ghost var w: World
    ghost var run: seq<World>

    ghost predicate Shape() {
      && Parts(c, fill, rx, tx, completion, alloc, umem, frameOrder)
      && frameMask == TWO64 - 1 - (c.frameSize - 1)
    }

    /** The concrete state is the last state of the recorded run. */
    ghost predicate Matches()
      reads this, fill, rx, tx, completion, alloc, alloc.frames, umem
      requires alloc.Valid()
    {
      && w.u.fillLog == fill.entries && w.u.fillPub == fill.pub && w.k.fillCons == fill.cons
      && w.k.rxLog == rx.entries && w.u.rxCons == rx.cons
      && w.u.txLog == tx.entries && w.u.txPub == tx.pub && w.k.txCons == tx.cons
      && w.k.cqLog == completion.entries && w.u.cqCons == completion.cons
      && w.u.free == alloc.Contents() && w.umem == umem[..]
      && w.k.rxFrames == rxFrames && Theorems.Descs(w.k.inFlight) == inFlight
    }

    ghost predicate Recorded()
      reads this
    {
      IsRun(c, run) && w == run[|run| - 1]
    }

    ghost predicate RingValid(kind: RingKind)
      reads fill, fill.slots, rx, rx.slots, tx, tx.slots, completion, completion.slots
    {
      match kind
      case Rx => rx.Valid()
      case Tx => tx.Valid()
      case Fill => fill.Valid()
      case Completion => completion.Valid()
    }

    /** All four rings are valid. (The trigger keeps their insides out of proofs that only pass
        them on: naming RingValid of one ring opens it, and OtherRings closes it again.) */
    ghost predicate RingsValid()
      reads fill, fill.slots, rx, rx.slots, tx, tx.slots, completion, completion.slots
    {
      forall kind {:trigger RingValid(kind)} :: RingValid(kind)
    }

    lemma CloseRings()
      requires fill.Valid() && rx.Valid() && tx.Valid() && completion.Valid()
      ensures RingsValid()
    {
    }

    /** One ring changed and stayed valid; the others are as they were. */
    twostate lemma OtherRings(kind: RingKind)
      requires old(RingsValid()) && RingValid(kind)
      requires kind == Rx || unchanged(rx, rx.slots)
      requires kind == Tx || unchanged(tx, tx.slots)
      requires kind == Fill || unchanged(fill, fill.slots)
      requires kind == Completion || unchanged(completion, completion.slots)
      ensures RingsValid()
    {
      forall k
        ensures RingValid(k)
      {
        assert old(RingValid(k));
      }
    }

    ghost predicate Intact(kind: RingKind)
      reads this, fill, fill.slots, rx, rx.slots, tx, tx.slots, completion, completion.slots, alloc, alloc.frames, umem
    {
      Shape() && RingsValid() && alloc.Valid() && Matches()
    }

    /** The recorded run ends in the state the socket is in. (Again the trigger keeps the parts
        closed for callers; methods here open them by naming Intact.) */
    ghost predicate Valid()
      reads this, fill, fill.slots, rx, rx.slots, tx, tx.slots, completion, completion.slots, alloc, alloc.frames, umem
    {
      Recorded() && forall kind {:trigger Intact(kind)} :: Intact(kind)
    }

    lemma Sizes()
      requires Valid()
      ensures c.numFrames < TWO32 && c.frameSize > 0 && rx != tx && fill != completion
      ensures fill.numDescs == c.fillCap && rx.numDescs == c.rxCap && tx.numDescs == c.txCap && completion.numDescs == c.cqCap
    {
      assert Intact(Rx);
    }

    /** A socket over empty rings, with all frames free. */
    constructor (c: Config, fill: Ring<nat>, rx: Ring<Desc>, tx: Ring<Desc>, completion: Ring<nat>,
                 alloc: FrameAllocator, umem: array<Byte>, busyPoll: bool, ghost order: nat)
      requires Parts(c, fill, rx, tx, completion, alloc, umem, order)
      requires fill.Valid() && rx.Valid() && tx.Valid() && completion.Valid() && alloc.Valid()
      requires fill.View() == Log([], 0, 0) && rx.View() == Log([], 0, 0)
      requires tx.View() == Log([], 0, 0) && completion.View() == Log([], 0, 0)
      requires alloc.Contents() == Frames(c)
      ensures Valid() && |run| == 1 && Initial(c, w)
      ensures this.c == c && this.fill == fill && this.rx == rx && this.tx == tx
      ensures this.completion == completion && this.alloc == alloc && this.umem == umem && this.busyPoll == busyPoll
    {
      this.c, this.fill, this.rx, this.tx, this.completion := c, fill, rx, tx, completion;
      this.alloc, this.umem, this.busyPoll, this.frameOrder := alloc, umem, busyPoll, order;
      frameMask := TWO64 - 1 - (c.frameSize - 1);
      rxFrames, inFlight := multiset{}, [];
      var w0 := World(Worker(Frames(c), [], 0, 0, 0, None, [], [], [], 0, 0, 0),
                      Kernel(0, multiset{}, [], [], 0, [], [], []), umem[..]);
      StartRun(c, w0);
      w, run := w0, [w0];
      new;
      CloseRings();
    }

    /** Append one action to the recorded run. */
    ghost method Record(next: World)
      requires Recorded() && (WorkerStep(c, w, next) || KernelStep(c, w, next))
      modifies this`w, this`run
      ensures Recorded() && w == next && OneMore(old(run), run)
    {
      ExtendRun(c, run, next);
      w := next;
      run := run + [next];
    }

    /** The transmitter refuses the held frame; nothing shared is touched. */
    ghost method RecordRefusal()
      requires Valid() && CanRefuse(c, w)
      modifies this`w, this`run
      ensures Valid() && w == Refuse(old(w)) && OneMore(old(run), run)
    {
      assert Intact(Rx);
      Record(Refuse(w));
    }

    // ---------------------------------------------------------------- what the run so far implies

    lemma CompletionRoom()
      requires Recorded() && |w.k.inFlight| > 0
      ensures |w.k.cqLog| < w.u.cqCons + c.cqCap
    {
      Theorems.CompletionHasRoom(c, run, |run| - 1);
    }

    lemma OutstandingBounds()
      requires Recorded()
      ensures |w.k.cqLog| <= w.u.txPub && 0 <= w.u.cqCons <= |w.k.cqLog| <= w.u.cqCons + c.cqCap
      ensures w.u.cqPos == w.u.cqCons ==> |w.u.txLog| - w.u.cqCons <= c.numFrames
    {
      Theorems.OutstandingExact(c, run, |run| - 1);
      if w.u.cqPos == w.u.cqCons {
        Theorems.UnreturnedFit(c, run, |run| - 1);
      }
      Theorems.CompletionHasRoom(c, run, |run| - 1);
    }

    method CompletionCapacity() returns (n: U32)
      requires Valid()
      ensures n == c.cqCap
    {
      Sizes();
      n := completion.numDescs;
    }

    lemma CompletionsSeen()
      requires Valid()
      ensures w.u.cqCons <= completion.snapProd <= |w.k.cqLog|
    {
      assert Intact(Rx);
      assert RingValid(Completion);
    }

    /** What a drained transmitter means for the whole run. */
    lemma DrainedState()
      requires Valid() && w.u.txPub == |w.u.txLog|
      ensures |w.u.verdicts| <= |w.k.rxLog|
      ensures Theorems.Outstanding(w) == Theorems.CountOf(w.u.verdicts, Transferred) - w.u.cqCons
      ensures Theorems.Outstanding(w) == 0 ==> inFlight == []
      ensures Theorems.Outstanding(w) == 0 ==> multiset(w.k.cqLog) == multiset(Theorems.DescAddrs(Theorems.ToSend(w)))
    {
      assert Intact(Rx);
      Theorems.DrainedMeansAllReturned(c, run, |run| - 1);
    }

    lemma SendableLength()
      requires Recorded() && Holding(w, Reflected)
      ensures 0 < HeldDesc(w).len <= c.frameSize
    {
      Theorems.LengthNeverRejected(c, run, |run| - 1);
    }

    /** Every finished callback has one verdict, and TX holds the transferred ones. */
    lemma VerdictCounts()
      requires Recorded() && w.u.held.None?
      ensures w.u.rxPos == Theorems.CountOf(w.u.verdicts, Unsupported) + Theorems.CountOf(w.u.verdicts, Rejected) + |w.u.txLog|
      ensures |w.u.txLog| == Theorems.CountOf(w.u.verdicts, Transferred)
    {
      Theorems.CallbacksAccounted(c, run, |run| - 1);
    }

    lemma HeldFrame()
      requires Recorded() && w.u.held.Some? && 0 < w.u.rxPos <= |w.k.rxLog|
      ensures |w.u.free| < c.numFrames
      ensures HeldDesc(w).addr + HeldDesc(w).len <= |w.umem| && HeldDesc(w).addr < c.numFrames * c.frameSize
      ensures View(w.umem, HeldDesc(w)) == w.umem[HeldDesc(w).addr..HeldDesc(w).addr + HeldDesc(w).len]
    {
      Theorems.HeldInUmem(c, run, |run| - 1);
      Theorems.FreeStackHasRoom(c, run, |run| - 1);
    }

    lemma CompletedFrame()
      requires Recorded() && CanReclaim(w)
      ensures |w.u.free| < c.numFrames
      ensures w.k.cqLog[w.u.cqPos] < c.numFrames * c.frameSize && w.u.cqCons <= w.u.cqPos
    {
      Theorems.CompletionInUmem(c, run, |run| - 1);
      Theorems.FreeStackHasRoom(c, run, |run| - 1);
    }

    // ---------------------------------------------------------------- the kernel's side

    method KernelTakeFill()
      requires Valid() && CanTakeFill(w)
      modifies fill`consumer, fill`cons, this`rxFrames, this`w, this`run
      ensures Valid() && w == TakeFill(old(w)) && OneMore(old(run), run)
    {
      assert KernelStep(c, w, TakeFill(w));
      assert Intact(Rx);
      assert RingValid(Fill);
      label before:
      var frame := fill.KernelConsume();
      OtherRings@before(Fill);
      rxFrames := rxFrames + multiset{frame};
      Record(TakeFill(w));
    }

    method KernelWriteFrame(b: nat, bytes: Bytes)
      requires Valid() && b in rxFrames && |bytes| == c.frameSize && b + |bytes| <= umem.Length
      modifies umem, this`w, this`run
      ensures Valid() && w == WriteFrame(old(w), umem[..]) && OneMore(old(run), run)
    {
      assert Intact(Rx);
      forall i | b <= i < b + |bytes| {
        umem[i] := bytes[i - b];
      }
      assert CanWriteFrame(c, w, b, umem[..]);
      Record(WriteFrame(w, umem[..]));
    }

    method KernelDeliver(d: Desc)
      requires Valid() && CanDeliver(c, w, d)
      modifies rx`producer, rx`entries, rx`pub, rx.slots, this`rxFrames, this`w, this`run
      ensures Valid() && w == Deliver(c, old(w), d) && OneMore(old(run), run)
    {
      assert Intact(Rx);
      PushRx(d, rxFrames - multiset{Base(c, d.addr)}, Deliver(c, w, d));
    }

    /** Write d to the next RX slot and keep the frames left to receive into. */
    method PushRx(d: Desc, frames: multiset<nat>, ghost next: World)
      requires Valid() && |w.k.rxLog| < w.u.rxCons + c.rxCap && KernelStep(c, w, next)
      requires next == w.(k := w.k.(rxFrames := frames, rxLog := w.k.rxLog + [d], received := next.k.received))
      modifies rx`producer, rx`entries, rx`pub, rx.slots, this`rxFrames, this`w, this`run
      ensures Valid() && w == next && OneMore(old(run), run)
    {
      assert Intact(Rx);
      assert RingValid(Rx);
      label before:
      rx.KernelProduce(d);
      OtherRings@before(Rx);
      rxFrames := frames;
      Record(next);
    }

    method KernelTakeTx()
      requires Valid() && CanTakeTx(c, w)
      modifies tx`consumer, tx`cons, this`inFlight, this`w, this`run
      ensures Valid() && w == TakeTx(old(w)) && OneMore(old(run), run)
    {
      assert KernelStep(c, w, TakeTx(w));
      assert Intact(Rx);
      assert RingValid(Tx);
      label before:
      var d := tx.KernelConsume();
      OtherRings@before(Tx);
      inFlight := inFlight + [d];
      Record(TakeTx(w));
    }

    method KernelComplete(i: nat)
      requires Valid() && CanComplete(w, i) && |w.k.cqLog| < w.u.cqCons + c.cqCap
      modifies completion`producer, completion`entries, completion`pub, completion.slots
      modifies this`inFlight, this`w, this`run
      ensures Valid() && w == Complete(old(w), i) && OneMore(old(run), run)
    {
      assert Intact(Rx);
      DescsRemove(w.k.inFlight, i);
      PushCompletion(inFlight[i].addr, inFlight[..i] + inFlight[i + 1..], Complete(w, i));
    }

    /** Write addr to the next CQ slot and keep the descriptors still being sent. */
    method PushCompletion(addr: nat, left: seq<Desc>, ghost next: World)
      requires Valid() && |w.k.cqLog| < w.u.cqCons + c.cqCap && KernelStep(c, w, next)
      requires next == w.(k := w.k.(inFlight := next.k.inFlight, cqLog := w.k.cqLog + [addr]))
      requires left == Theorems.Descs(next.k.inFlight)
      modifies completion`producer, completion`entries, completion`pub, completion.slots
      modifies this`inFlight, this`w, this`run
      ensures Valid() && w == next && OneMore(old(run), run)
    {
      assert Intact(Rx);
      assert RingValid(Completion);
      label before:
      completion.KernelProduce(addr);
      OtherRings@before(Completion);
      inFlight := left;
      Record(next);
    }

    /** One arbitrary action of the kernel, or none. */
    method KernelAct()
      requires Valid()
      modifies fill`consumer, fill`cons, rx`producer, rx`entries, rx`pub, rx.slots, tx`consumer, tx`cons
      modifies completion`producer, completion`entries, completion`pub, completion.slots, umem
      modifies this`rxFrames, this`inFlight, this`w, this`run
      ensures Valid() && w.u == old(w).u && Extends(old(run), run)
    {
      var choice: nat := *;
      if choice == 0 {
        KernelReceive();
      } else if choice == 1 {
        KernelTouch();
      } else if choice == 2 {
        KernelTransmit();
      } else {
        KernelFinish();
      }
    }

    /** Take a frame from FILL, or hand a received one over, if the rings allow it. */
    method KernelReceive()
      requires Valid()
      modifies fill`consumer, fill`cons, rx`producer, rx`entries, rx`pub, rx.slots
      modifies this`rxFrames, this`w, this`run
      ensures Valid() && w.u == old(w).u && Extends(old(run), run)
    {
      assert Intact(Rx);
      assert RingValid(Fill) && RingValid(Rx);
      var offered := fill.Occupancy();
      var waiting := rx.Occupancy();
      if * {
        if offered > 0 {
          KernelTakeFill();
        }
      } else {
        var d: Desc := *;
        if Base(c, d.addr) in rxFrames && d.addr % c.frameSize + d.len <= c.frameSize && waiting < rx.numDescs {
          KernelDeliver(d);
        }
      }
    }

    /** Overwrite a frame waiting to receive. */
    method KernelTouch()
      requires Valid()
      modifies umem, this`w, this`run
      ensures Valid() && w.u == old(w).u && Extends(old(run), run)
    {
      assert Intact(Rx);
      var b: nat, bytes: Bytes := *, *;
      if b in rxFrames && |bytes| == c.frameSize && b + |bytes| <= umem.Length {
        KernelWriteFrame(b, bytes);
      }
    }

    /** Take a TX descriptor if there is one and a CQ slot to spare. */
    method KernelTransmit()
      requires Valid()
      modifies tx`consumer, tx`cons, this`inFlight, this`w, this`run
      ensures Valid() && w.u == old(w).u && Extends(old(run), run)
    {
      assert Intact(Rx);
      assert RingValid(Tx) && RingValid(Completion);
      var queued := tx.Occupancy();
      var completed := completion.Occupancy();
      if queued > 0 && |inFlight| + completed < completion.numDescs {
        KernelTakeTx();
      }
    }

    /** Complete any descriptor being sent. */
    method KernelFinish()
      requires Valid()
      modifies completion`producer, completion`entries, completion`pub, completion.slots
      modifies this`inFlight, this`w, this`run
      ensures Valid() && w.u == old(w).u && Extends(old(run), run)
    {
      assert Intact(Rx);
      var i: int := *;
      if 0 <= i < |inFlight| {
        CompletionRoom();
        KernelComplete(i);
      }
    }

    /** Any number of kernel actions: what can happen between two accesses of the worker. */
    method KernelProgress()
      requires Valid()
      modifies fill`consumer, fill`cons, rx`producer, rx`entries, rx`pub, rx.slots, tx`consumer, tx`cons
      modifies completion`producer, completion`entries, completion`pub, completion.slots, umem
      modifies this`rxFrames, this`inFlight, this`w, this`run
      ensures Valid() && w.u == old(w).u && Extends(old(run), run)
    {
      var steps: nat := *;
      while steps > 0
        invariant Valid() && w.u == old(w).u && Extends(old(run), run)
      {
        ghost var r := run;
        KernelAct();
        ExtendsTrans(old(run), r, run);
        steps := steps - 1;
      }
    }

    // ---------------------------------------------------------------- the worker's accesses

    /** Pop a free frame and write it to FILL slot i; false if no frame is free. */
    method AllocIntoFill(i: U32) returns (ok: bool)
      requires Valid() && i == Wrapped(|w.u.fillLog|) && |w.u.fillLog| < fill.snapCons + fill.numDescs
      modifies alloc`count, fill.slots, fill`entries, this`w, this`run
      ensures Valid() && ok == (old(w).u.free != [])
      ensures ok ==> CanAllocFill(c, old(w)) && w == AllocFill(c, old(w)) && OneMore(old(run), run)
      ensures !ok ==> w == old(w) && run == old(run)
    {
      assert Intact(Rx);
      var frame := alloc.Alloc();
      ok := frame.Some?;
      if ok {
        assert RingValid(Fill);
        label before:
        fill.WriteDesc(i, frame.value);
        OtherRings@before(Fill);
        Record(AllocFill(c, w));
      }
    }

    method PublishFillEntries(n: U32)
      requires Valid() && w.u.fillPub + n == |w.u.fillLog|
      modifies fill`cachedProd, fill`producer, fill`pub, fill`snapProd, this`w, this`run
      ensures Valid() && w == PublishFill(old(w)) && OneMore(old(run), run)
    {
      assert Intact(Rx);
      assert RingValid(Fill);
      label before:
      fill.PublishWrittenEntries(n);
      OtherRings@before(Fill);
      Record(PublishFill(w));
    }

    /** Read RX descriptor i and hand its frame to the callback. */
    method ReadRx(i: U32) returns (d: Desc)
      requires Valid() && CanBegin(w) && w.u.rxCons <= w.u.rxPos && i == Wrapped(w.u.rxPos)
      modifies this`w, this`run
      ensures Valid() && w == Begin(old(w)) && OneMore(old(run), run) && d == HeldDesc(w)
    {
      assert Intact(Rx);
      assert RingValid(Rx);
      d := rx.DescAt(i, w.u.rxPos);
      Record(Begin(w));
    }

    method BeginFrame(i: U32) returns (d: Desc)
      requires Valid() && CanBegin(w) && w.u.rxCons <= w.u.rxPos && i == Wrapped(w.u.rxPos)
      modifies fill`consumer, fill`cons, rx`producer, rx`entries, rx`pub, rx.slots, tx`consumer, tx`cons
      modifies completion`producer, completion`entries, completion`pub, completion.slots, umem
      modifies this`rxFrames, this`inFlight, this`w, this`run
      ensures Valid() && Extends(old(run), run)
      ensures w.u == Begin(old(w)).u && w.u.rxPos <= |w.k.rxLog| && d == HeldDesc(w)
    {
      KernelProgress();
      KernelAdvances(c, old(run), run, old(w), w);
      ghost var r := run;
      d := ReadRx(i);
      ExtendsTrans(old(run), r, run);
    }

    method ReleaseRxEntries(n: U32)
      requires Valid() && w.u.held.None? && w.u.rxPos == w.u.rxCons + n <= rx.snapProd
      modifies rx`cachedCons, rx`consumer, rx`cons, rx`snapCons, this`w, this`run
      ensures Valid() && w == ReleaseRx(old(w)) && OneMore(old(run), run)
    {
      assert Intact(Rx);
      assert RingValid(Rx);
      label before:
      rx.ReleaseConsumedEntries(n);
      OtherRings@before(Rx);
      Record(ReleaseRx(w));
    }

    /** Write the held frame's descriptor to TX slot i. */
    method WriteTx(i: U32, d: Desc)
      requires Valid() && Holding(w, Reflected) && d == HeldDesc(w)
      requires i == Wrapped(|w.u.txLog|) && |w.u.txLog| < tx.snapCons + tx.numDescs
      modifies tx.slots, tx`entries, this`w, this`run
      ensures Valid() && CanStage(c, old(w)) && w == Stage(c, old(w)) && OneMore(old(run), run)
    {
      assert Intact(Rx);
      assert RingValid(Tx);
      label before:
      tx.WriteDesc(i, d);
      OtherRings@before(Tx);
      Record(Stage(c, w));
    }

    method StageDesc(i: U32, d: Desc)
      requires Valid() && Holding(w, Reflected) && d == HeldDesc(w)
      requires i == Wrapped(|w.u.txLog|) && |w.u.txLog| < tx.snapCons + tx.numDescs
      modifies fill`consumer, fill`cons, rx`producer, rx`entries, rx`pub, rx.slots, tx`consumer, tx`cons
      modifies completion`producer, completion`entries, completion`pub, completion.slots, umem
      modifies tx.slots, tx`entries, this`rxFrames, this`inFlight, this`w, this`run
      ensures Valid() && Extends(old(run), run) && w.u == Staged(old(w).u, d, w.u.txBytes)
    {
      KernelProgress();
      HeldStays(c, old(run), run, old(w), w);
      ghost var r := run;
      WriteTx(i, d);
      ExtendsTrans(old(run), r, run);
    }

    method PublishTxEntries(n: U32)
      requires Valid() && w.u.txPub + n == |w.u.txLog| && CanPublishTx(w)
      modifies tx`cachedProd, tx`producer, tx`pub, tx`snapProd, this`w, this`run
      ensures Valid() && w == PublishTx(old(w)) && OneMore(old(run), run)
    {
      assert Intact(Rx);
      assert RingValid(Tx);
      label before:
      tx.PublishWrittenEntries(n);
      OtherRings@before(Tx);
      Record(PublishTx(w));
    }

    method PublishStaged(n: U32)
      requires Valid() && w.u.txPub + n == |w.u.txLog| && CanPublishTx(w)
      modifies tx`cachedProd, tx`producer, tx`pub, tx`snapProd
      modifies fill`consumer, fill`cons, rx`producer, rx`entries, rx`pub, rx.slots, tx`consumer, tx`cons
      modifies completion`producer, completion`entries, completion`pub, completion.slots, umem
      modifies this`rxFrames, this`inFlight, this`w, this`run
      ensures Valid() && Extends(old(run), run) && w.u == old(w).u.(txPub := |w.u.txLog|)
    {
      KernelProgress();
      ghost var r := run;
      PublishTxEntries(n);
      ExtendsTrans(old(run), r, run);
    }

    /** The frame mask rounds an address in the UMEM down to its chunk. */
    lemma MaskIsBase(addr: nat)
      requires Shape() && addr < TWO64
      ensures BitAnd(addr, frameMask) == Base(c, addr)
    {
      Pow2Values();
      AndHighMask(addr, frameOrder, 64);
    }

    /** The chunk of the frame just handled, read from its RX slot again: the callback got the
        descriptor by reference, and the slot is not yet released. */
    method HandledBase(i: U32) returns (base: nat)
      requires Valid() && CanRecycle(w) && w.u.rxCons < w.u.rxPos && i == Wrapped(w.u.rxPos - 1)
      ensures base == Base(c, HeldDesc(w).addr) && |w.u.free| < c.numFrames
    {
      assert Intact(Rx);
      assert RingValid(Rx);
      HeldFrame();
      var d := rx.DescAt(i, w.u.rxPos - 1);
      MaskIsBase(d.addr);
      base := BitAnd(d.addr, frameMask);
    }

    /** Push the held frame's chunk back on the free stack. */
    method FreeHandled(i: U32)
      requires Valid() && CanRecycle(w) && w.u.rxCons < w.u.rxPos && i == Wrapped(w.u.rxPos - 1)
      modifies alloc`count, alloc.frames, this`w, this`run
      ensures Valid() && w == Recycle(c, old(w)) && OneMore(old(run), run)
    {
      assert Intact(Rx);
      var base := HandledBase(i);
      alloc.Free(base);
      Record(Recycle(c, w));
    }

    method RecycleFrame(i: U32)
      requires Valid() && CanRecycle(w) && w.u.rxCons < w.u.rxPos && i == Wrapped(w.u.rxPos - 1)
      modifies fill`consumer, fill`cons, rx`producer, rx`entries, rx`pub, rx.slots, tx`consumer, tx`cons
      modifies completion`producer, completion`entries, completion`pub, completion.slots, umem
      modifies alloc`count, alloc.frames, this`rxFrames, this`inFlight, this`w, this`run
      ensures Valid() && Extends(old(run), run) && w.u == Recycle(c, old(w)).u && w.u.rxPos <= |w.k.rxLog|
    {
      KernelProgress();
      HeldStays(c, old(run), run, old(w), w);
      ghost var r := run;
      FreeHandled(i);
      ExtendsTrans(old(run), r, run);
    }

    /** Read CQ entry i and push its chunk on the free stack. */
    method CompletedBase(i: U32) returns (base: nat)
      requires Valid() && CanReclaim(w) && i == Wrapped(w.u.cqPos)
      ensures base == Base(c, w.k.cqLog[w.u.cqPos]) && |w.u.free| < c.numFrames
    {
      assert Intact(Rx);
      assert RingValid(Completion);
      CompletedFrame();
      var addr := completion.DescAt(i, w.u.cqPos);
      MaskIsBase(addr);
      base := BitAnd(addr, frameMask);
    }

    method ReclaimFrame(i: U32)
      requires Valid() && CanReclaim(w) && i == Wrapped(w.u.cqPos)
      modifies alloc`count, alloc.frames, this`w, this`run
      ensures Valid() && w == Reclaim(c, old(w)) && OneMore(old(run), run)
    {
      assert Intact(Rx);
      var base := CompletedBase(i);
      alloc.Free(base);
      Record(Reclaim(c, w));
    }

    method ReleaseCqEntries(n: U32)
      requires Valid() && w.u.cqPos == w.u.cqCons + n <= completion.snapProd
      modifies completion`cachedCons, completion`consumer, completion`cons, completion`snapCons, this`w, this`run
      ensures Valid() && w == ReleaseCq(old(w)) && OneMore(old(run), run)
    {
      assert Intact(Rx);
      assert RingValid(Completion);
      label before:
      completion.ReleaseConsumedEntries(n);
      OtherRings@before(Completion);
      Record(ReleaseCq(w));
    }

    /** Record what the reflector did: a swap or a refusal to touch the frame. */
    ghost method RecordReflection(d: Desc, accepted: bool)
      requires Recorded() && Holding(w, Inspecting) && d == HeldDesc(w) && d.addr + d.len <= |w.umem|
      requires accepted == Accepts(View(w.umem, d))
      modifies this`w, this`run
      ensures Recorded() && OneMore(old(run), run)
      ensures w.k == old(w).k && w.u == old(w).u.(held := Some(if accepted then Reflected else Declined))
      ensures w.umem == Rewritten(old(w).umem, d, accepted)
    {
      Record(if accepted then Swap(w) else Decline(w));
    }

    /** Run the reflector on the held frame. */
    method ReflectHeld(d: Desc) returns (accepted: bool)
      requires Valid() && Holding(w, Inspecting) && d == HeldDesc(w)
      modifies umem, this`w, this`run
      ensures Valid() && accepted == Accepts(View(old(w).umem, d)) && OneMore(old(run), run)
      ensures w.k == old(w).k && w.u == old(w).u.(held := Some(if accepted then Reflected else Declined))
    {
      assert Intact(Rx);
      HeldFrame();
      accepted := ReflectView(umem, d);
      RecordReflection(d, accepted);
    }

    /** The same with the kernel running before it: it cannot touch the held frame, so what the
        reflector sees is what the callback was given. */
    method ReflectFrame(d: Desc) returns (accepted: bool)
      requires Valid() && Holding(w, Inspecting) && d == HeldDesc(w)
      modifies fill`consumer, fill`cons, rx`producer, rx`entries, rx`pub, rx.slots, tx`consumer, tx`cons
      modifies completion`producer, completion`entries, completion`pub, completion.slots, umem
      modifies this`rxFrames, this`inFlight, this`w, this`run
      ensures Valid() && Extends(old(run), run) && accepted == Accepts(View(old(w).umem, d))
      ensures w.u == old(w).u.(held := Some(if accepted then Reflected else Declined))
      ensures w.u.rxPos <= |w.k.rxLog| && d == HeldDesc(w)
    {
      KernelProgress();
      HeldStays(c, old(run), run, old(w), w);
      HeldViewStays(c, old(run), run, old(w), w);
      ghost var r := run;
      accepted := ReflectHeld(d);
      ExtendsTrans(old(run), r, run);
    }

    /** Load the RX window, unless frames seen earlier are still waiting. */
    method RxWindow(batchSize: U32) returns (n: U32, start: U32)
      requires Valid()
      modifies fill`consumer, fill`cons, rx`cachedProd, rx`snapProd, rx`producer, rx`entries, rx`pub, rx.slots
      modifies tx`consumer, tx`cons
      modifies completion`producer, completion`entries, completion`pub, completion.slots, umem
      modifies this`rxFrames, this`inFlight, this`w, this`run
      ensures Valid() && w.u == old(w).u && Extends(old(run), run)
      ensures start == Wrapped(w.u.rxCons) && n <= batchSize && w.u.rxCons + n <= rx.snapProd <= |w.k.rxLog|
      ensures Taken(batchSize, w.u.rxCons, |old(w).k.rxLog|, old(rx.snapProd), rx.snapProd, w.u.rxCons + n)
    {
      KernelProgress();
      KernelAdvances(c, old(run), run, old(w), w);
      assert Intact(Rx);
      assert RingValid(Rx);
      label before:
      n, start := rx.ReadableRange(batchSize);
      OtherRings@before(Rx);
    }

    /** Give the processed RX slots back to the kernel. */
    method ReleaseProcessed(n: U32)
      requires Valid() && w.u.held.None? && w.u.rxPos == w.u.rxCons + n <= rx.snapProd
      modifies fill`consumer, fill`cons, rx`producer, rx`entries, rx`pub, rx.slots, tx`consumer, tx`cons
      modifies completion`producer, completion`entries, completion`pub, completion.slots, umem
      modifies this`rxFrames, this`inFlight, this`w, this`run
      modifies rx`cachedCons, rx`consumer, rx`cons, rx`snapCons
      ensures Valid() && w.u == old(w).u.(rxCons := w.u.rxPos) && Extends(old(run), run)
    {
      if n > 0 {
        KernelProgress();
        ghost var r := run;
        ReleaseRxEntries(n);
        ExtendsTrans(old(run), r, run);
      }
    }

    /** queued_entry_count on FILL: two loads, with the kernel free to consume in between. */
    method CountQueued() returns (queued: U32)
      requires Valid() && w.u.fillPub == |w.u.fillLog|
      modifies fill`consumer, fill`cons, rx`producer, rx`entries, rx`pub, rx.slots, tx`consumer, tx`cons
      modifies completion`producer, completion`entries, completion`pub, completion.slots, umem
      modifies this`rxFrames, this`inFlight, this`w, this`run
      ensures Valid() && w.u == old(w).u && Extends(old(run), run)
      ensures queued == w.u.fillPub - w.k.fillCons
    {
      assert Intact(Rx);
      assert RingValid(Fill);
      var prod := fill.LoadProducer();
      KernelProgress();
      assert Intact(Rx);
      assert RingValid(Fill);
      var cons := fill.LoadConsumer();
      DistanceExact(fill.pub, fill.cons);
      queued := Sub32(prod, cons);
    }

    method FillOccupancy() returns (queued: U32)
      requires Valid() && w.u.fillPub == |w.u.fillLog|
      modifies fill`consumer, fill`cons, rx`producer, rx`entries, rx`pub, rx.slots, tx`consumer, tx`cons
      modifies completion`producer, completion`entries, completion`pub, completion.slots, umem
      modifies this`rxFrames, this`inFlight, this`w, this`run
      ensures Valid() && w.u == old(w).u && Extends(old(run), run) && old(w).k.fillCons <= w.k.fillCons
      ensures queued == w.u.fillPub - w.k.fillCons
    {
      KernelProgress();
      ghost var r := run;
      queued := CountQueued();
      ExtendsTrans(old(run), r, run);
      KernelAdvances(c, old(run), run, old(w), w);
    }

    /** Load the TX window. It covers every slot the kernel had released at the load, and it
        never shrinks. */
    method TxWindow() returns (n: U32, start: U32)
      requires Valid()
      modifies fill`consumer, fill`cons, rx`producer, rx`entries, rx`pub, rx.slots
      modifies tx`cachedCons, tx`snapCons, tx`consumer, tx`cons
      modifies completion`producer, completion`entries, completion`pub, completion.slots, umem
      modifies this`rxFrames, this`inFlight, this`w, this`run
      ensures Valid() && w.u == old(w).u && Extends(old(run), run)
      ensures start == Wrapped(w.u.txPub) && old(tx.snapCons) <= tx.snapCons == w.k.txCons
      ensures n == w.k.txCons + c.txCap - w.u.txPub
    {
      KernelProgress();
      assert Intact(Rx);
      assert RingValid(Tx);
      label before:
      n, start := tx.WritableRange(tx.numDescs);
      OtherRings@before(Tx);
    }

    /** Load the CQ window, unless entries seen earlier are still waiting. */
    method LoadCompletions(budget: U32) returns (n: U32, start: U32)
      requires Valid()
      modifies completion`cachedProd, completion`snapProd
      ensures Valid() && start == Wrapped(w.u.cqCons)
      ensures n <= budget && w.u.cqCons + n <= completion.snapProd <= |w.k.cqLog|
      ensures n < budget ==> w.u.cqCons + n == completion.snapProd
      ensures completion.snapProd == if old(completion.snapProd) == w.u.cqCons then |w.k.cqLog| else old(completion.snapProd)
    {
      assert Intact(Rx);
      assert RingValid(Completion);
      label before:
      n, start := completion.ReadableRange(budget);
      OtherRings@before(Completion);
    }

    method CqWindow(budget: U32) returns (n: U32, start: U32)
      requires Valid()
      modifies fill`consumer, fill`cons, rx`producer, rx`entries, rx`pub, rx.slots, tx`consumer, tx`cons
      modifies completion`cachedProd, completion`snapProd
      modifies completion`producer, completion`entries, completion`pub, completion.slots, umem
      modifies this`rxFrames, this`inFlight, this`w, this`run
      ensures Valid() && w.u == old(w).u && Extends(old(run), run)
      ensures start == Wrapped(w.u.cqCons) && n <= budget && w.u.cqCons + n <= completion.snapProd <= |w.k.cqLog|
      ensures n < budget ==> w.u.cqCons + n == completion.snapProd
      ensures old(completion.snapProd) == old(w).u.cqCons ==> |old(w).k.cqLog| <= completion.snapProd
      ensures old(completion.snapProd) != old(w).u.cqCons ==> completion.snapProd == old(completion.snapProd)
      ensures |old(w).k.cqLog| <= |w.k.cqLog|
    {
      KernelProgress();
      KernelAdvances(c, old(run), run, old(w), w);
      n, start := LoadCompletions(budget);
    }

    /** Issue a wakeup call if the socket is polled or the kernel asks for one; the kernel then
        makes any progress it likes, and the outcome is reported. Otherwise nothing happens. The
        worker's own state stays as it is either way. */
    method RequestProgress(e: Wakeup) returns (error: int)
      requires Valid()
      modifies fill`consumer, fill`cons, rx`producer, rx`entries, rx`pub, rx.slots, tx`consumer, tx`cons
      modifies completion`producer, completion`entries, completion`pub, completion.slots, umem
      modifies this`rxFrames, this`inFlight, this`w, this`run
      ensures Valid() && w.u == old(w).u && Extends(old(run), run)
      ensures error == ErrorOf(busyPoll, e)
      ensures !busyPoll && !e.flag ==> run == old(run)
    {
      error := 0;
      if busyPoll || e.flag {
        KernelProgress();
        error := e.outcome;
      }
    }

    /** Load the FILL window. It covers every slot the kernel had released at the load. */
    method FillWindow() returns (n: U32, start: U32)
      requires Valid() && w.u.fillPub == |w.u.fillLog|
      modifies fill`cachedCons, fill`snapCons, fill`consumer, fill`cons
      modifies rx`producer, rx`entries, rx`pub, rx.slots, tx`consumer, tx`cons
      modifies completion`producer, completion`entries, completion`pub, completion.slots, umem
      modifies this`rxFrames, this`inFlight, this`w, this`run
      ensures Valid() && w.u == old(w).u && Extends(old(run), run)
      ensures start == Wrapped(|w.u.fillLog|) && fill.snapCons == w.k.fillCons
      ensures n == w.k.fillCons + fill.numDescs - |w.u.fillLog| <= fill.numDescs && old(w).k.fillCons <= w.k.fillCons
    {
      KernelProgress();
      KernelAdvances(c, old(run), run, old(w), w);
      assert Intact(Rx);
      assert RingValid(Fill);
      label before:
      n, start := fill.WritableRange(fill.numDescs);
      OtherRings@before(Fill);
    }

    /** Move one more free frame into the FILL window, after `pushed` others since state u0. */
    method FillNext(start: U32, pushed: U32, ghost u0: Worker) returns (ok: bool)
      requires Valid() && pushed <= |u0.free| && w.u == Refilled(u0, pushed)
      requires start == Wrapped(|u0.fillLog|) && |u0.fillLog| + pushed < fill.snapCons + fill.numDescs
      modifies fill`entries, fill`consumer, fill`cons, fill.slots
      modifies rx`producer, rx`entries, rx`pub, rx.slots, tx`consumer, tx`cons
      modifies completion`producer, completion`entries, completion`pub, completion.slots, umem
      modifies alloc`count, this`rxFrames, this`inFlight, this`w, this`run
      ensures Valid() && Extends(old(run), run) && ok == (pushed < |u0.free|)
      ensures w.u == Refilled(u0, if ok then pushed + 1 else pushed)
    {
      RefillStep(u0, pushed);
      AdvanceExact(|u0.fillLog|, pushed);
      KernelProgress();
      ghost var r := run;
      ok := AllocIntoFill(Add32(start, pushed));
      ExtendsTrans(old(run), r, run);
    }

    /** Move free frames into the n slots of the window, as far as they go. */
    method FillSlots(n: U32, start: U32) returns (pushed: U32)
      requires Valid() && start == Wrapped(|w.u.fillLog|) && n == fill.snapCons + fill.numDescs - |w.u.fillLog|
      modifies fill`entries, fill`consumer, fill`cons, fill.slots
      modifies rx`producer, rx`entries, rx`pub, rx.slots, tx`consumer, tx`cons
      modifies completion`producer, completion`entries, completion`pub, completion.slots, umem
      modifies alloc`count, this`rxFrames, this`inFlight, this`w, this`run
      ensures Valid() && Extends(old(run), run)
      ensures pushed == RefillSize(old(w).u, |old(w).u.fillLog| + n) && w.u == Refilled(old(w).u, pushed)
    {
      ghost var u0 := w.u;
      pushed := 0;
      while pushed < n
        invariant Valid() && Extends(old(run), run)
        invariant 0 <= pushed <= n && pushed <= |u0.free| && w.u == Refilled(u0, pushed)
      {
        ghost var r := run;
        var ok := FillNext(start, pushed, u0);
        ExtendsTrans(old(run), r, run);
        if !ok {
          break;
        }
        pushed := pushed + 1;
      }
    }

    /** Fill the window and make the frames visible to the kernel. */
    method FillAndPublish(n: U32, start: U32) returns (pushed: U32)
      requires Valid() && w.u.fillPub == |w.u.fillLog| && start == Wrapped(|w.u.fillLog|)
      requires n == fill.snapCons + fill.numDescs - |w.u.fillLog|
      modifies fill, fill.slots, rx`producer, rx`entries, rx`pub, rx.slots, tx`consumer, tx`cons
      modifies completion`producer, completion`entries, completion`pub, completion.slots, umem
      modifies alloc`count, this`rxFrames, this`inFlight, this`w, this`run
      ensures Valid() && Extends(old(run), run) && old(w).k.fillCons <= w.k.fillCons
      ensures pushed == RefillSize(old(w).u, |old(w).u.fillLog| + n)
      ensures w.u == Refilled(old(w).u, pushed).(fillPub := |w.u.fillLog|)
    {
      pushed := FillSlots(n, start);
      RefillStep(old(w).u, pushed);
      ghost var r := run;
      PublishFilled(pushed);
      ExtendsTrans(old(run), r, run);
      KernelAdvances(c, old(run), run, old(w), w);
    }

    /** Publish what was written, if anything. */
    method PublishFilled(n: U32)
      requires Valid() && w.u.fillPub + n == |w.u.fillLog|
      modifies fill`cachedProd, fill`producer, fill`pub, fill`snapProd, fill`consumer, fill`cons
      modifies rx`producer, rx`entries, rx`pub, rx.slots, tx`consumer, tx`cons
      modifies completion`producer, completion`entries, completion`pub, completion.slots, umem
      modifies this`rxFrames, this`inFlight, this`w, this`run
      ensures Valid() && Extends(old(run), run) && w.u == old(w).u.(fillPub := |w.u.fillLog|)
    {
      if n > 0 {
        KernelProgress();
        ghost var r := run;
        PublishFillEntries(n);
        ExtendsTrans(old(run), r, run);
      }
    }

    /** refill_fill: write as many free frames as the window and the stack allow, and publish
        them together. `seen` is how far the kernel had consumed FILL when the window was
        loaded. */
    method RefillFill() returns (pushed: U32, ghost seen: nat)
      requires Valid() && w.u.fillPub == |w.u.fillLog|
      modifies fill, fill.slots, rx`producer, rx`entries, rx`pub, rx.slots, tx`consumer, tx`cons
      modifies completion`producer, completion`entries, completion`pub, completion.slots, umem
      modifies alloc`count, this`rxFrames, this`inFlight, this`w, this`run
      ensures Valid() && Extends(old(run), run)
      ensures old(w).k.fillCons <= seen <= w.k.fillCons && seen <= |old(w).u.fillLog|
      ensures pushed == RefillSize(old(w).u, seen + c.fillCap) && w.u == Refilled(old(w).u, pushed).(fillPub := |w.u.fillLog|)
      ensures |w.u.fillLog| == |old(w).u.fillLog| + pushed && pushed <= c.fillCap
      ensures |w.u.fillLog| == seen + c.fillCap || w.u.free == []
    {
      Sizes();
      var n, start := FillWindow();
      seen := w.k.fillCons;
      ghost var r := run;
      pushed := FillAndPublish(n, start);
      ExtendsTrans(old(run), r, run);
      RefillStep(old(w).u, pushed);
    }
  }
}
