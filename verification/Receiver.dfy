/** The polling worker: receive, reflect, transmit, refill. */
module Receivers {
  import opened MachineWords
  import opened Reflector
  import opened Protocol
  import opened Sockets
  import opened Transmitters
  import Theorems

  /** What the batch loop leaves alone. */
  ghost predicate SameRest(u: Worker, u': Worker) {
    && u'.fillLog == u.fillLog && u'.fillPub == u.fillPub && u'.rxCons == u.rxCons
    && u'.txPub == u.txPub && u'.cqPos == u.cqPos && u'.cqCons == u.cqCons
  }

  /** What a receive phase leaves alone. */
  ghost predicate SameButRx(u: Worker, u': Worker) {
    u'.fillLog == u.fillLog && u'.cqCons == u.cqCons
  }

  /** One pass is bounded by the batch, one completion ring and one FILL ring. */
  ghost predicate PassBounds(c: Config, u: Worker, u': Worker, batch: nat) {
    && u.rxPos <= u'.rxPos <= u.rxPos + batch && u.cqCons <= u'.cqCons <= u.cqCons + c.cqCap
    && |u.fillLog| <= |u'.fillLog| <= |u.fillLog| + c.fillCap
  }

  /** FILL maintenance. `checked` and `seen` are how far the kernel had consumed FILL when its
      occupancy was looked at and when the refill loaded its window. At or above the threshold
      nothing is written; below it, frames are written up to the last slot released, or until no
      frame is free. */
  ghost predicate Maintained(c: Config, threshold: nat, fill: nat, u': Worker, checked: nat, seen: nat) {
    && checked <= seen <= fill
    && if fill - checked >= threshold then |u'.fillLog| == fill && seen == checked
       else fill <= |u'.fillLog| <= seen + c.fillCap && (|u'.fillLog| == seen + c.fillCap || u'.free == [])
  }

  /** The first error that is not EINTR, EAGAIN or EBUSY is kept. */
  ghost function FirstKept(first: int, error: int): int {
    if first == 0 && error != 4 && error != 11 && error != 16 then error else first
  }

  /** What the outside answers during one pass: to the transmit kick, to the look at FILL's flag,
      and to the receive wakeup. */
  datatype PassEnv = PassEnv(tx: Wakeup, fillFlag: bool, rx: Wakeup)

  /** The receiver between two passes: where the run is, what the rings' caches know, how the last
      pass went, and the counters. */
  datatype Mark = Mark(tx: TxMark, rxSeen: nat, checked: nat, seen: nat, packets: nat, refills: nat, first: int)

  datatype Parameters = Parameters(c: Config, busyPoll: bool, batch: nat, threshold: nat)

  /** One receive pass, from m to m': it takes what the RX window offers, leaves nothing staged,
      returns every completion present, at most one CQ of them, kicks the kernel exactly if frames
      are left, maintains FILL, and asks for RX progress if nothing came in, FILL was restocked, or
      its flag is set. */
  ghost predicate PassOf(p: Parameters, m: Mark, m': Mark, e: PassEnv) {
    var w, w' := m.tx.w, m'.tx.w;
    var n, pushed := w'.u.rxPos - w.u.rxPos, |w'.u.fillLog| - |w.u.fillLog|;
    && Taken(p.batch, w.u.rxPos, |w.k.rxLog|, m.rxSeen, m'.rxSeen, w'.u.rxPos)
    && w'.u.txPub == |w'.u.txLog| && CqServiced(p.c, w, m.tx.cqSeen, w', m'.tx.left)
    && Noted(m.tx.retries, m.tx.first, m'.tx.retries, m'.tx.first, if m'.tx.left > 0 then ErrorOf(p.busyPoll, e.tx) else 0)
    && w.k.fillCons <= m'.checked && m'.seen <= w'.k.fillCons
    && Maintained(p.c, p.threshold, |w.u.fillLog|, w'.u, m'.checked, m'.seen)
    && m'.refills == m.refills + (if pushed > 0 then 1 else 0) && PassBounds(p.c, w.u, w'.u, p.batch)
    && m'.first == FirstKept(m.first, if n == 0 || pushed > 0 || e.fillFlag then ErrorOf(p.busyPoll, e.rx) else 0)
  }

  /** A pass takes something whenever something was there. */
  lemma PassTakesSomething(p: Parameters, m: Mark, m': Mark, e: PassEnv)
    requires PassOf(p, m, m', e) && p.batch > 0 && m.tx.w.u.rxPos < |m.tx.w.k.rxLog|
    ensures m'.tx.w.u.rxPos > m.tx.w.u.rxPos
  {
  }

  ghost predicate PassAt(p: Parameters, marks: seq<Mark>, env: seq<PassEnv>, i: nat)
    requires i + 1 < |marks| == |env| + 1
  {
    && PassOf(p, marks[i], marks[i + 1], env[i])
    && marks[i + 1].packets == marks[i].packets + (marks[i + 1].tx.w.u.rxPos - marks[i].tx.w.u.rxPos)
  }

  /** Marks one pass apart, each pass with its answers from outside, and counted. */
  ghost predicate Passes(p: Parameters, marks: seq<Mark>, env: seq<PassEnv>) {
    && |marks| == |env| + 1
    && forall i: nat {:trigger PassAt(p, marks, env, i)} :: i + 1 < |marks| ==> PassAt(p, marks, env, i)
  }

  ghost function TxMarks(marks: seq<Mark>): seq<TxMark> {
    seq(|marks|, i requires 0 <= i < |marks| => marks[i].tx)
  }

  lemma PassesGrow(p: Parameters, marks: seq<Mark>, env: seq<PassEnv>, m: Mark, e: PassEnv)
    requires Passes(p, marks, env) && PassOf(p, marks[|marks| - 1], m, e)
    requires m.packets == marks[|marks| - 1].packets + (m.tx.w.u.rxPos - marks[|marks| - 1].tx.w.u.rxPos)
    ensures Passes(p, marks + [m], env + [e])
  {
    var longer, more := marks + [m], env + [e];
    forall i: nat | i + 1 < |longer|
      ensures PassAt(p, longer, more, i)
    {
      if i + 1 < |marks| {
        assert PassAt(p, marks, env, i);
      }
    }
  }

  lemma MarksGrow(run: seq<World>, run': seq<World>, marks: seq<Mark>, m: Mark)
    requires OnRun(run, TxMarks(marks)) && Extends(run, run') && m.tx.at < |run'| && run'[m.tx.at] == m.tx.w
    ensures OnRun(run', TxMarks(marks + [m]))
  {
    OnRunStays(run, run', TxMarks(marks));
    OnRunGrows(run', TxMarks(marks), m.tx);
    assert TxMarks(marks + [m]) == TxMarks(marks) + [m.tx];
  }

  /** Recycling settles the count its phase stood for. */
  lemma RecycleCounts(c: Config, w: World)
    requires CanRecycle(w)
    ensures var u, u' := w.u, Recycle(c, w).u;
            && Theorems.CountOf(u'.verdicts, Rejected) == Theorems.CountOf(u.verdicts, Rejected) + (if u.held == Some(Refused) then 1 else 0)
            && Theorems.CountOf(u'.verdicts, Unsupported) == Theorems.CountOf(u.verdicts, Unsupported) + (if u.held == Some(Declined) then 1 else 0)
  {
    var v := if w.u.held.value.Declined? then Unsupported else Rejected;
    Theorems.CountGrows(w.u.verdicts, v, Unsupported);
    Theorems.CountGrows(w.u.verdicts, v, Rejected);
  }

  class Receiver {
    const xsk: Xsk
    const tx: Transmitter
    const batchSize: U32
    const fillThreshold: U32
    var packetsReceived: nat
    var fillRefills: nat
    var firstWakeupError: int

    // The counters of the benchmark callback.
    var callbacks: nat
    var staged: nat
    var unsupported: nat

    ghost predicate Bench()
      reads this, xsk
    {
      && staged == |xsk.w.u.txLog|
      && unsupported == Theorems.CountOf(xsk.w.u.verdicts, Unsupported) + (if xsk.w.u.held == Some(Declined) then 1 else 0)
    }

    ghost predicate Valid()
      reads this, tx, xsk, xsk.fill, xsk.fill.slots, xsk.rx, xsk.rx.slots, xsk.tx, xsk.tx.slots
      reads xsk.completion, xsk.completion.slots, xsk.alloc, xsk.alloc.frames, xsk.umem
    {
      tx.xsk == xsk && tx.Valid() && Bench() && callbacks == xsk.w.u.rxPos
    }

    /** Between passes: no frame held, everything processed is released and published. */
    ghost predicate Idle()
      reads this, xsk
    {
      && xsk.w.u.held.None? && xsk.w.u.rxPos == xsk.w.u.rxCons && xsk.w.u.cqPos == xsk.w.u.cqCons
      && xsk.w.u.fillPub == |xsk.w.u.fillLog|
    }

    constructor (xsk: Xsk, tx: Transmitter, batchSize: U32, fillThreshold: U32)
      requires tx.xsk == xsk && tx.Valid() && xsk.w.u.txLog == [] && xsk.w.u.verdicts == [] && xsk.w.u.held.None?
      requires xsk.w.u.rxPos == xsk.w.u.rxCons == 0 && xsk.w.u.cqPos == xsk.w.u.cqCons
      requires xsk.w.u.fillPub == |xsk.w.u.fillLog|
      ensures Valid() && Idle() && this.xsk == xsk && this.tx == tx
      ensures packetsReceived == 0 && fillRefills == 0 && firstWakeupError == 0
      ensures this.batchSize == batchSize
      ensures this.fillThreshold == if fillThreshold > 0 then fillThreshold else xsk.fill.numDescs / 2
    {
      this.xsk, this.tx, this.batchSize := xsk, tx, batchSize;
      this.fillThreshold := if fillThreshold > 0 then fillThreshold else xsk.fill.numDescs / 2;
      packetsReceived, fillRefills, firstWakeupError := 0, 0, 0;
      callbacks, staged, unsupported := 0, 0, 0;
    }

    // ---------------------------------------------------------------- one frame

    /** The first half of the callback: run the reflector and count the frame. */
    method Inspect(d: Desc) returns (accepted: bool)
      requires tx.xsk == xsk && tx.Valid() && Bench() && callbacks + 1 == xsk.w.u.rxPos
      requires Holding(xsk.w, Inspecting) && d == HeldDesc(xsk.w)
      modifies this`callbacks, this`unsupported
      modifies xsk.fill`consumer, xsk.fill`cons, xsk.rx`producer, xsk.rx`entries, xsk.rx`pub, xsk.rx.slots
      modifies xsk.tx`consumer, xsk.tx`cons, xsk.umem, xsk`rxFrames, xsk`inFlight, xsk`w, xsk`run
      modifies xsk.completion`producer, xsk.completion`entries, xsk.completion`pub, xsk.completion.slots
      ensures Valid() && Extends(old(xsk.run), xsk.run) && accepted == Accepts(View(old(xsk.w).umem, d))
      ensures xsk.w.u == old(xsk.w).u.(held := Some(if accepted then Reflected else Declined))
      ensures xsk.w.u.rxPos <= |xsk.w.k.rxLog| && d == HeldDesc(xsk.w)
    {
      callbacks := callbacks + 1;
      accepted := xsk.ReflectFrame(d);
      if !accepted {
        unsupported := unsupported + 1;
      }
    }

    /** The second half, for a reflected frame: send it from where it is. */
    method TrySend(d: Desc) returns (transferred: bool)
      requires Valid() && Holding(xsk.w, Reflected) && d == HeldDesc(xsk.w)
      modifies this`staged, tx`txStart, tx`txAvail, tx`txUsed, tx`reserved, tx`framesRejected
      modifies xsk.fill`consumer, xsk.fill`cons, xsk.rx`producer, xsk.rx`entries, xsk.rx`pub, xsk.rx.slots
      modifies xsk.tx`cachedCons, xsk.tx`snapCons, xsk.tx`consumer, xsk.tx`cons, xsk.tx`entries, xsk.tx.slots
      modifies xsk.completion`producer, xsk.completion`entries, xsk.completion`pub, xsk.completion.slots, xsk.umem
      modifies xsk`rxFrames, xsk`inFlight, xsk`w, xsk`run
      ensures Valid() && Extends(old(xsk.run), xsk.run)
      ensures transferred ==> xsk.w.u == Staged(old(xsk.w).u, d, xsk.w.u.txBytes)
      ensures !transferred ==> xsk.w.u == old(xsk.w).u.(held := Some(Refused))
      ensures !transferred ==> TxFull(xsk.c, xsk.w)
      ensures xsk.w.u.rxPos <= |xsk.w.k.rxLog| && d == HeldDesc(xsk.w)
    {
      Theorems.CountGrows(xsk.w.u.verdicts, Transferred, Unsupported);
      xsk.SendableLength();
      transferred := tx.SendInPlace(d.addr, d.len);
      HeldStays(xsk.c, old(xsk.run), xsk.run, old(xsk.w), xsk.w);
      if transferred {
        staged := staged + 1;
      }
    }

    /** The callback: reflect the frame and try to send it from where it is. A frame that is
        neither declined nor sent has met a full TX ring. */
    method Strategy(d: Desc) returns (transferred: bool)
      requires tx.xsk == xsk && tx.Valid() && Bench() && callbacks + 1 == xsk.w.u.rxPos
      requires Holding(xsk.w, Inspecting) && d == HeldDesc(xsk.w)
      modifies this`callbacks, this`staged, this`unsupported
      modifies tx`txStart, tx`txAvail, tx`txUsed, tx`reserved, tx`framesRejected
      modifies xsk.fill`consumer, xsk.fill`cons, xsk.rx`producer, xsk.rx`entries, xsk.rx`pub, xsk.rx.slots
      modifies xsk.tx`cachedCons, xsk.tx`snapCons, xsk.tx`consumer, xsk.tx`cons, xsk.tx`entries, xsk.tx.slots
      modifies xsk.completion`producer, xsk.completion`entries, xsk.completion`pub, xsk.completion.slots, xsk.umem
      modifies xsk`rxFrames, xsk`inFlight, xsk`w, xsk`run
      ensures Valid() && Extends(old(xsk.run), xsk.run) && SameRest(old(xsk.w).u, xsk.w.u)
      ensures xsk.w.u.rxPos == old(xsk.w).u.rxPos <= |xsk.w.k.rxLog| && d == HeldDesc(xsk.w)
      ensures transferred ==> xsk.w.u.held.None? && xsk.w.u.verdicts == old(xsk.w).u.verdicts + [Transferred]
      ensures !transferred ==> CanRecycle(xsk.w) && xsk.w.u.verdicts == old(xsk.w).u.verdicts
      ensures Accepts(View(old(xsk.w).umem, d)) && !transferred ==> TxFull(xsk.c, xsk.w)
    {
      var accepted := Inspect(d);
      transferred := false;
      if accepted {
        ghost var r := xsk.run;
        transferred := TrySend(d);
        ExtendsTrans(old(xsk.run), r, xsk.run);
      }
    }

    /** Free the chunk of a frame the callback did not transfer; i is its RX entry. */
    method Recycle(i: U32)
      requires Valid() && CanRecycle(xsk.w) && xsk.w.u.rxCons < xsk.w.u.rxPos && i == Wrapped(xsk.w.u.rxPos - 1)
      modifies xsk.fill`consumer, xsk.fill`cons, xsk.rx`producer, xsk.rx`entries, xsk.rx`pub, xsk.rx.slots
      modifies xsk.tx`consumer, xsk.tx`cons, xsk.umem, xsk`rxFrames, xsk`inFlight, xsk`w, xsk`run
      modifies xsk.completion`producer, xsk.completion`entries, xsk.completion`pub, xsk.completion.slots
      modifies xsk.alloc`count, xsk.alloc.frames
      ensures Valid() && Extends(old(xsk.run), xsk.run) && SameRest(old(xsk.w).u, xsk.w.u)
      ensures xsk.w.u.held.None? && xsk.w.u.rxPos == old(xsk.w).u.rxPos <= |xsk.w.k.rxLog|
    {
      RecycleCounts(xsk.c, xsk.w);
      xsk.RecycleFrame(i);
    }

    /** One turn of the batch loop: RX entry i goes to the callback and is recycled unless the
        callback transferred it. */
    method HandleFrame(i: U32)
      requires Valid() && CanBegin(xsk.w) && xsk.w.u.rxCons <= xsk.w.u.rxPos && i == Wrapped(xsk.w.u.rxPos)
      modifies this`callbacks, this`staged, this`unsupported
      modifies tx`txStart, tx`txAvail, tx`txUsed, tx`reserved, tx`framesRejected
      modifies xsk.fill`consumer, xsk.fill`cons, xsk.rx`producer, xsk.rx`entries, xsk.rx`pub, xsk.rx.slots
      modifies xsk.tx`cachedCons, xsk.tx`snapCons, xsk.tx`consumer, xsk.tx`cons, xsk.tx`entries, xsk.tx.slots
      modifies xsk.completion`producer, xsk.completion`entries, xsk.completion`pub, xsk.completion.slots, xsk.umem
      modifies xsk.alloc`count, xsk.alloc.frames, xsk`rxFrames, xsk`inFlight, xsk`w, xsk`run
      ensures Valid() && Extends(old(xsk.run), xsk.run) && SameRest(old(xsk.w).u, xsk.w.u)
      ensures xsk.w.u.held.None? && xsk.w.u.rxPos == old(xsk.w).u.rxPos + 1 <= |xsk.w.k.rxLog|
    {
      var d := xsk.BeginFrame(i);
      ghost var r := xsk.run;
      var transferred := Strategy(d);
      ExtendsTrans(old(xsk.run), r, xsk.run);
      if !transferred {
        ghost var s := xsk.run;
        Recycle(i);
        ExtendsTrans(old(xsk.run), s, xsk.run);
      }
    }

    // ---------------------------------------------------------------- one pass

    /** The batch loop: every frame of the window is handled, in order. */
    method HandleBatch(n: U32, start: U32)
      requires Valid() && Idle() && start == Wrapped(xsk.w.u.rxCons) && xsk.w.u.rxCons + n <= |xsk.w.k.rxLog|
      modifies this`callbacks, this`staged, this`unsupported
      modifies tx`txStart, tx`txAvail, tx`txUsed, tx`reserved, tx`framesRejected
      modifies xsk.fill`consumer, xsk.fill`cons, xsk.rx`producer, xsk.rx`entries, xsk.rx`pub, xsk.rx.slots
      modifies xsk.tx`cachedCons, xsk.tx`snapCons, xsk.tx`consumer, xsk.tx`cons, xsk.tx`entries, xsk.tx.slots
      modifies xsk.completion`producer, xsk.completion`entries, xsk.completion`pub, xsk.completion.slots, xsk.umem
      modifies xsk.alloc`count, xsk.alloc.frames, xsk`rxFrames, xsk`inFlight, xsk`w, xsk`run
      ensures Valid() && Extends(old(xsk.run), xsk.run) && SameRest(old(xsk.w).u, xsk.w.u)
      ensures xsk.w.u.held.None? && xsk.w.u.rxPos == old(xsk.w).u.rxCons + n
    {
      ghost var u0 := xsk.w.u;
      for i := 0 to n
        invariant Valid() && Extends(old(xsk.run), xsk.run) && SameRest(u0, xsk.w.u)
        invariant xsk.w.u.held.None? && xsk.w.u.rxPos == u0.rxCons + i && u0.rxCons + n <= |xsk.w.k.rxLog|
      {
        ghost var r, v := xsk.run, xsk.w;
        AdvanceExact(u0.rxCons, i);
        HandleFrame(Add32(start, i));
        KernelAdvances(xsk.c, r, xsk.run, v, xsk.w);
        ExtendsTrans(old(xsk.run), r, xsk.run);
      }
    }

    /** Receive: load the window, handle it, release it. */
    method Receive() returns (n: U32)
      requires Valid() && Idle()
      modifies this`callbacks, this`staged, this`unsupported
      modifies tx`txStart, tx`txAvail, tx`txUsed, tx`reserved, tx`framesRejected
      modifies xsk, xsk.fill`consumer, xsk.fill`cons, xsk.rx, xsk.rx.slots, xsk.tx, xsk.tx.slots
      modifies xsk.completion`producer, xsk.completion`entries, xsk.completion`pub, xsk.completion.slots, xsk.umem
      modifies xsk.alloc`count, xsk.alloc.frames
      ensures Valid() && Idle() && Extends(old(xsk.run), xsk.run) && SameButRx(old(xsk.w).u, xsk.w.u)
      ensures n <= batchSize && xsk.w.u.rxPos == old(xsk.w).u.rxPos + n
      ensures Taken(batchSize, old(xsk.w).u.rxPos, |old(xsk.w).k.rxLog|, old(xsk.rx.snapProd), xsk.rx.snapProd, xsk.w.u.rxPos)
    {
      xsk.Sizes();
      var start;
      n, start := xsk.RxWindow(batchSize);
      ghost var r := xsk.run;
      HandleBatch(n, start);
      ExtendsTrans(old(xsk.run), r, xsk.run);
      ghost var s := xsk.run;
      xsk.ReleaseProcessed(n);
      ExtendsTrans(old(xsk.run), s, xsk.run);
    }

    /** Keep FILL stocked, as Maintained says. */
    method MaintainFill() returns (pushed: U32, ghost checked: nat, ghost seen: nat)
      requires Valid() && Idle()
      modifies this`fillRefills, xsk.fill, xsk.fill.slots, xsk.alloc`count, xsk.umem
      modifies xsk.rx`producer, xsk.rx`entries, xsk.rx`pub, xsk.rx.slots, xsk.tx`consumer, xsk.tx`cons
      modifies xsk.completion`producer, xsk.completion`entries, xsk.completion`pub, xsk.completion.slots
      modifies xsk`rxFrames, xsk`inFlight, xsk`w, xsk`run
      ensures Valid() && Idle() && Extends(old(xsk.run), xsk.run) && SameButFill(old(xsk.w).u, xsk.w.u)
      ensures old(xsk.w).k.fillCons <= checked && seen <= xsk.w.k.fillCons
      ensures Maintained(xsk.c, fillThreshold, |old(xsk.w).u.fillLog|, xsk.w.u, checked, seen)
      ensures |xsk.w.u.fillLog| == |old(xsk.w).u.fillLog| + pushed && pushed <= xsk.c.fillCap
      ensures fillRefills == old(fillRefills) + if pushed > 0 then 1 else 0
    {
      var queued := xsk.FillOccupancy();
      checked := xsk.w.k.fillCons;
      seen := checked;
      pushed := 0;
      if queued < fillThreshold {
        ghost var r := xsk.run;
        pushed, seen := Refill();
        ExtendsTrans(old(xsk.run), r, xsk.run);
      }
    }

    /** Refill and count it if it did anything. */
    method Refill() returns (pushed: U32, ghost seen: nat)
      requires Valid() && Idle()
      modifies this`fillRefills, xsk.fill, xsk.fill.slots, xsk.alloc`count, xsk.umem
      modifies xsk.rx`producer, xsk.rx`entries, xsk.rx`pub, xsk.rx.slots, xsk.tx`consumer, xsk.tx`cons
      modifies xsk.completion`producer, xsk.completion`entries, xsk.completion`pub, xsk.completion.slots
      modifies xsk`rxFrames, xsk`inFlight, xsk`w, xsk`run
      ensures Valid() && Idle() && Extends(old(xsk.run), xsk.run) && SameButFill(old(xsk.w).u, xsk.w.u)
      ensures old(xsk.w).k.fillCons <= seen <= xsk.w.k.fillCons && seen <= |old(xsk.w).u.fillLog|
      ensures |xsk.w.u.fillLog| == seen + xsk.c.fillCap || xsk.w.u.free == []
      ensures |xsk.w.u.fillLog| == |old(xsk.w).u.fillLog| + pushed <= seen + xsk.c.fillCap && pushed <= xsk.c.fillCap
      ensures fillRefills == old(fillRefills) + if pushed > 0 then 1 else 0
    {
      pushed, seen := xsk.RefillFill();
      if pushed > 0 {
        fillRefills := fillRefills + 1;
      }
    }

    /** Keep the first error that is not just a request to try again. */
    method NoteWakeup(error: int)
      modifies this`firstWakeupError
      ensures firstWakeupError == FirstKept(old(firstWakeupError), error)
    {
      if error != 0 && !IsExpectedWakeupRetry(error) && firstWakeupError == 0 {
        firstWakeupError := error;
      }
    }

    /** Ask for RX progress if nothing came in, FILL was restocked, or its flag is set. */
    method WakeReceive(n: U32, pushed: U32, fillFlag: bool, e: Wakeup)
      requires Valid() && Idle()
      modifies this`firstWakeupError
      modifies xsk.fill`consumer, xsk.fill`cons, xsk.rx`producer, xsk.rx`entries, xsk.rx`pub, xsk.rx.slots
      modifies xsk.tx`consumer, xsk.tx`cons, xsk.umem, xsk`rxFrames, xsk`inFlight, xsk`w, xsk`run
      modifies xsk.completion`producer, xsk.completion`entries, xsk.completion`pub, xsk.completion.slots
      ensures Valid() && Idle() && Extends(old(xsk.run), xsk.run) && xsk.w.u == old(xsk.w).u
      ensures firstWakeupError == FirstKept(old(firstWakeupError),
                                            if n == 0 || pushed > 0 || fillFlag then ErrorOf(xsk.busyPoll, e) else 0)
      ensures n > 0 && pushed == 0 && !fillFlag ==> xsk.run == old(xsk.run)
    {
      if n == 0 || pushed > 0 || fillFlag {
        var error := xsk.RequestProgress(e);
        NoteWakeup(error);
      }
    }

    /** process_rx_and_maintain_io: one bounded pass, as PassOf says. */
    method ProcessRxAndMaintainIo(e: PassEnv) returns (n: U32, ghost left: nat, ghost checked: nat, ghost seen: nat)
      requires Valid() && Idle()
      modifies this, tx
      modifies xsk, xsk.fill, xsk.fill.slots, xsk.rx, xsk.rx.slots, xsk.tx, xsk.tx.slots
      modifies xsk.completion, xsk.completion.slots, xsk.alloc, xsk.alloc.frames, xsk.umem
      ensures Valid() && Idle() && Extends(old(xsk.run), xsk.run) && packetsReceived == old(packetsReceived)
      ensures xsk.w.u.rxPos == old(xsk.w).u.rxPos + n && n <= batchSize && tx.txUsed == 0
      ensures Taken(batchSize, old(xsk.w).u.rxPos, |old(xsk.w).k.rxLog|, old(xsk.rx.snapProd), xsk.rx.snapProd, xsk.w.u.rxPos)
      ensures CqServiced(xsk.c, old(xsk.w), old(xsk.completion.snapProd), xsk.w, left)
      ensures Noted(old(tx.retryableWakeupErrors), old(tx.firstWakeupError), tx.retryableWakeupErrors, tx.firstWakeupError,
                    if left > 0 then ErrorOf(xsk.busyPoll, e.tx) else 0)
      ensures ServedFill(old(xsk.w), xsk.w, checked, seen, n, old(fillRefills), old(firstWakeupError), e)
    {
      n := Receive();
      ghost var r, w, snap := xsk.run, xsk.w, xsk.completion.snapProd;
      KernelAdvances(xsk.c, old(xsk.run), r, old(xsk.w), w);
      left, checked, seen := Service(n, e);
      ServicedLater(xsk.c, old(xsk.w), w, snap, xsk.w, left);
      ExtendsTrans(old(xsk.run), r, xsk.run);
    }

    /** What a pass does for FILL and the receive side. */
    ghost predicate ServedFill(w: World, w': World, checked: nat, seen: nat, n: nat, refills: nat, first: int, e: PassEnv)
      reads this
    {
      var pushed := |w'.u.fillLog| - |w.u.fillLog|;
      && w.k.fillCons <= checked && seen <= w'.k.fillCons && 0 <= pushed <= xsk.c.fillCap
      && Maintained(xsk.c, fillThreshold, |w.u.fillLog|, w'.u, checked, seen)
      && fillRefills == refills + (if pushed > 0 then 1 else 0)
      && firstWakeupError == FirstKept(first, if n == 0 || pushed > 0 || e.fillFlag then ErrorOf(xsk.busyPoll, e.rx) else 0)
    }

    /** The pass after the batch loop: the transmit hook, then the receive side. */
    method Service(n: U32, e: PassEnv) returns (ghost left: nat, ghost checked: nat, ghost seen: nat)
      requires Valid() && Idle()
      modifies this`fillRefills, this`firstWakeupError, tx
      modifies xsk, xsk.fill, xsk.fill.slots, xsk.rx`producer, xsk.rx`entries, xsk.rx`pub, xsk.rx.slots, xsk.tx, xsk.tx.slots
      modifies xsk.completion, xsk.completion.slots, xsk.alloc, xsk.alloc.frames, xsk.umem
      ensures Valid() && Idle() && Extends(old(xsk.run), xsk.run) && xsk.w.u.rxPos == old(xsk.w).u.rxPos && tx.txUsed == 0
      ensures xsk.rx.snapProd == old(xsk.rx.snapProd)
      ensures CqServiced(xsk.c, old(xsk.w), old(xsk.completion.snapProd), xsk.w, left)
      ensures Noted(old(tx.retryableWakeupErrors), old(tx.firstWakeupError), tx.retryableWakeupErrors, tx.firstWakeupError,
                    if left > 0 then ErrorOf(xsk.busyPoll, e.tx) else 0)
      ensures ServedFill(old(xsk.w), xsk.w, checked, seen, n, old(fillRefills), old(firstWakeupError), e)
    {
      left := Commit(e.tx);
      ghost var r, w := xsk.run, xsk.w;
      KernelAdvances(xsk.c, old(xsk.run), r, old(xsk.w), w);
      checked, seen := Maintain(n, e);
      KernelAdvances(xsk.c, r, xsk.run, w, xsk.w);
      ExtendsTrans(old(xsk.run), r, xsk.run);
    }

    /** The transmit hook of the pass. */
    method Commit(e: Wakeup) returns (ghost left: nat)
      requires Valid() && Idle()
      modifies tx, xsk.tx`cachedProd, xsk.tx`producer, xsk.tx`pub, xsk.tx`snapProd
      modifies xsk.fill`consumer, xsk.fill`cons, xsk.rx`producer, xsk.rx`entries, xsk.rx`pub, xsk.rx.slots
      modifies xsk.tx`consumer, xsk.tx`cons, xsk.umem, xsk`rxFrames, xsk`inFlight, xsk`w, xsk`run
      modifies xsk.completion, xsk.completion.slots, xsk.alloc`count, xsk.alloc.frames
      ensures Valid() && Idle() && Extends(old(xsk.run), xsk.run) && xsk.w.u.rxPos == old(xsk.w).u.rxPos
      ensures tx.txUsed == 0 && xsk.w.u.fillLog == old(xsk.w).u.fillLog && xsk.rx.snapProd == old(xsk.rx.snapProd)
      ensures CqServiced(xsk.c, old(xsk.w), old(xsk.completion.snapProd), xsk.w, left)
      ensures Noted(old(tx.retryableWakeupErrors), old(tx.firstWakeupError), tx.retryableWakeupErrors, tx.firstWakeupError,
                    if left > 0 then ErrorOf(xsk.busyPoll, e) else 0)
    {
      xsk.Sizes();
      left := tx.PublishAndServiceTx(e);
    }

    /** The receive-side maintenance of the pass. */
    method Maintain(n: U32, e: PassEnv) returns (ghost checked: nat, ghost seen: nat)
      requires Valid() && Idle() && tx.txUsed == 0
      modifies this`fillRefills, this`firstWakeupError, xsk.fill, xsk.fill.slots, xsk.alloc`count, xsk.umem
      modifies xsk.rx`producer, xsk.rx`entries, xsk.rx`pub, xsk.rx.slots, xsk.tx`consumer, xsk.tx`cons
      modifies xsk.completion`producer, xsk.completion`entries, xsk.completion`pub, xsk.completion.slots
      modifies xsk`rxFrames, xsk`inFlight, xsk`w, xsk`run
      ensures Valid() && Idle() && Extends(old(xsk.run), xsk.run) && SameButFill(old(xsk.w).u, xsk.w.u)
      ensures ServedFill(old(xsk.w), xsk.w, checked, seen, n, old(fillRefills), old(firstWakeupError), e)
    {
      var pushed;
      pushed, checked, seen := MaintainFill();
      ghost var r, w := xsk.run, xsk.w;
      WakeReceive(n, pushed, e.fillFlag, e.rx);
      KernelAdvances(xsk.c, r, xsk.run, w, xsk.w);
      ExtendsTrans(old(xsk.run), r, xsk.run);
    }

    // ---------------------------------------------------------------- the polling loop

    ghost function Params(): Parameters {
      Parameters(xsk.c, xsk.busyPoll, batchSize, fillThreshold)
    }

    /** Where the receiver is. */
    ghost function Here(left: nat, checked: nat, seen: nat): Mark
      reads this, tx, xsk, xsk.rx, xsk.completion, tx.xsk, tx.xsk.completion
    {
      Mark(tx.Mark(left), xsk.rx.snapProd, checked, seen, packetsReceived, fillRefills, firstWakeupError)
    }

    /** One turn of the polling loop: a pass, counted. */
    method Turn(e: PassEnv) returns (ghost m: Mark)
      requires Valid() && Idle() && packetsReceived == callbacks
      modifies this, tx
      modifies xsk, xsk.fill, xsk.fill.slots, xsk.rx, xsk.rx.slots, xsk.tx, xsk.tx.slots
      modifies xsk.completion, xsk.completion.slots, xsk.alloc, xsk.alloc.frames, xsk.umem
      ensures Valid() && Idle() && Extends(old(xsk.run), xsk.run) && packetsReceived == callbacks && tx.txUsed == 0
      ensures m == Here(m.tx.left, m.checked, m.seen)
      ensures forall a, b, d :: PassOf(Params(), old(Here(a, b, d)), m, e)
    {
      var processed;
      ghost var left, checked, seen;
      processed, left, checked, seen := ProcessRxAndMaintainIo(e);
      if processed != 0 {
        packetsReceived := packetsReceived + processed;
      }
      m := Here(left, checked, seen);
    }

    /** run: one pass for each answer from outside, until the stop request is seen. Every pass is
        recorded, and in between every counter is accounted for. */
    method Run(env: seq<PassEnv>) returns (ghost marks: seq<Mark>)
      requires Valid() && Idle() && packetsReceived == callbacks && tx.txUsed == 0
      modifies this, tx
      modifies xsk, xsk.fill, xsk.fill.slots, xsk.rx, xsk.rx.slots, xsk.tx, xsk.tx.slots
      modifies xsk.completion, xsk.completion.slots, xsk.alloc, xsk.alloc.frames, xsk.umem
      ensures Valid() && Idle() && Extends(old(xsk.run), xsk.run) && tx.txUsed == 0
      ensures Passes(Params(), marks, env) && OnRun(xsk.run, TxMarks(marks))
      ensures marks[0] == old(Here(0, 0, 0)) && marks[|env|].tx.at == |xsk.run| - 1 && marks[|env|].packets == packetsReceived
      ensures packetsReceived == callbacks == unsupported + staged + tx.framesRejected
      ensures staged == tx.framesSubmitted && tx.framesSubmitted == tx.framesReclaimed + tx.outstanding
    {
      marks := [Here(0, 0, 0)];
      for pass := 0 to |env|
        invariant Valid() && Idle() && Extends(old(xsk.run), xsk.run) && packetsReceived == callbacks && tx.txUsed == 0
        invariant Passes(Params(), marks, env[..pass]) && OnRun(xsk.run, TxMarks(marks)) && marks[0] == old(Here(0, 0, 0))
        invariant marks[pass] == Here(marks[pass].tx.left, marks[pass].checked, marks[pass].seen)
      {
        ghost var r := xsk.run;
        ghost var m := Turn(env[pass]);
        ExtendsTrans(old(xsk.run), r, xsk.run);
        MarksGrow(r, xsk.run, marks, m);
        PassesGrow(Params(), marks, env[..pass], m, env[pass]);
        assert env[..pass] + [env[pass]] == env[..pass + 1];
        marks := marks + [m];
      }
      assert env[..|env|] == env;
      Conservation();
    }

    /** The counters of an idle receiver add up. */
    lemma Conservation()
      requires Valid() && Idle()
      ensures callbacks == unsupported + staged + tx.framesRejected
      ensures staged == tx.framesSubmitted + tx.txUsed && tx.framesSubmitted == tx.framesReclaimed + tx.outstanding
    {
      xsk.VerdictCounts();
    }
  }

  /** What FILL maintenance leaves alone. */
  ghost predicate SameButFill(u: Worker, u': Worker) {
    && u'.rxPos == u.rxPos && u'.txPub == u.txPub && u'.txLog == u.txLog && u'.cqCons == u.cqCons
  }

  /** Servicing the CQ from w on also services it as seen from an earlier u. */
  lemma ServicedLater(c: Config, w0: World, w: World, seen: nat, w': World, left: nat)
    requires CqServiced(c, w, seen, w', left) && w.u.cqCons == w0.u.cqCons && |w0.k.cqLog| <= |w.k.cqLog|
    ensures CqServiced(c, w0, seen, w', left)
  {
  }
}
