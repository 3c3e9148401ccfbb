/** TX staging, publication and reclamation. */
module Transmitters {
  import opened MachineWords
  import opened Protocol
  import opened Sockets
  import Invariant
  import Theorems

  const EINTR: int := 4
  const EAGAIN: int := 11
  const EBUSY: int := 16
  const ENOBUFS: int := 105

  /** Wakeup errors that only ask for another attempt. */
  predicate IsExpectedWakeupRetry(error: int) {
    error == EAGAIN || error == EINTR || error == EBUSY
  }

  /** What becomes of a wakeup's error: EINTR, EAGAIN, EBUSY and ENOBUFS are counted, the first
      other one is kept. */
  ghost predicate Counted(retries: nat, first: int, retries': nat, first': int, error: int) {
    if error == 4 || error == 11 || error == 16 || error == 105 then retries' == retries + 1 && first' == first
    else retries' == retries && first' == if first == 0 then error else first
  }

  /** The same, with a trigger that keeps it closed in methods that only pass it on. */
  ghost predicate Noted(retries: nat, first: int, retries': nat, first': int, error: int) {
    forall x {:trigger Counted(retries, first, retries', first', x)} :: x == error ==> Counted(retries, first, retries', first', x)
  }

  lemma NotedMeans(retries: nat, first: int, retries': nat, first': int, error: int)
    ensures Noted(retries, first, retries', first', error) <==> Counted(retries, first, retries', first', error)
  {
  }

  /** How a service pass sweeps the CQ before it kicks: with the completions it knew of, or else
      at least all that were there; `left` is what is then outstanding. */
  ghost predicate Swept(cqCons: nat, known: nat, seen: nat, u': Worker, left: nat) {
    && u'.txPub - u'.cqCons <= left <= u'.txPub - cqCons
    && if seen > cqCons then u'.txPub - left == seen else known <= u'.txPub - left
  }

  /** The transmitter at some moment of a run: its errors so far, the CQ position it knows of, and
      what was left outstanding before the last kick was considered. */
  datatype TxMark = TxMark(at: nat, w: World, cqSeen: nat, left: nat, retries: nat, first: int)

  /** How far the CQ is serviced: every completion present at w is returned by w', at most one CQ
      of them, and `left` were outstanding in between. */
  ghost predicate CqServiced(c: Config, w: World, seen: nat, w': World, left: nat) {
    && |w.k.cqLog| <= w'.u.cqCons <= |w'.k.cqLog| && w.u.cqCons <= w'.u.cqCons <= w.u.cqCons + c.cqCap
    && Swept(w.u.cqCons, |w.k.cqLog|, seen, w'.u, left)
  }

  /** One service pass: everything staged is published, the CQ is serviced, and the kernel is
      asked for progress exactly if something was left. */
  ghost predicate ServicePass(c: Config, busyPoll: bool, m: TxMark, m': TxMark, e: Wakeup) {
    && CqServiced(c, m.w, m.cqSeen, m'.w, m'.left)
    && m'.w.u == Serviced(c, m.w.u, m'.w.k.cqLog, m'.w.u.cqCons).(txPub := |m'.w.u.txLog|)
    && Noted(m.retries, m.first, m'.retries, m'.first, if m'.left > 0 then ErrorOf(busyPoll, e) else 0)
  }

  /** What the first reclaim of a service pass achieves, and the second. */
  ghost predicate FirstDone(c: Config, w: World, seen: nat, v: World) {
    && w.u.cqCons <= v.u.cqCons <= w.u.cqCons + c.cqCap && v.u.cqCons <= |v.k.cqLog|
    && v.u == Serviced(c, w.u, v.k.cqLog, v.u.cqCons)
    && |w.k.cqLog| <= |v.k.cqLog| && |w.k.cqLog| <= w.u.cqCons + c.cqCap
    && if seen > w.u.cqCons then v.u.cqCons == seen else |w.k.cqLog| <= v.u.cqCons
  }

  ghost predicate SecondDone(c: Config, v: World, w': World, budget: nat) {
    && v.u.cqCons <= w'.u.cqCons <= v.u.cqCons + budget && w'.u.cqCons <= |w'.k.cqLog|
    && w'.u == Serviced(c, v.u, w'.k.cqLog, w'.u.cqCons)
    && (|v.k.cqLog| <= w'.u.cqCons || w'.u.cqCons == v.u.cqCons + budget)
  }

  lemma ServiceDone(c: Config, r: seq<World>, r': seq<World>, w: World, seen: nat, v: World, w': World, budget: nat)
    requires IsRun(c, r') && |r| > 0 && Extends(r, r') && v == r[|r| - 1] && w' == r'[|r'| - 1]
    requires FirstDone(c, w, seen, v) && SecondDone(c, v, w', budget)
    requires v.u.cqCons + budget == w.u.cqCons + c.cqCap && w'.u.cqCons <= w'.u.txPub
    ensures CqServiced(c, w, seen, w', v.u.txPub - v.u.cqCons) && w'.u == Serviced(c, w.u, w'.k.cqLog, w'.u.cqCons)
  {
    TwoPasses(c, r, r', v, w', w.u);
  }

  ghost predicate ServicedAt(c: Config, busyPoll: bool, marks: seq<TxMark>, env: seq<Wakeup>, i: nat)
    requires i + 1 < |marks| <= |env| + 1
  {
    ServicePass(c, busyPoll, marks[i], marks[i + 1], env[i])
  }

  /** Marks one pass apart, each with its answer from outside, and frames outstanding between any
      two passes. */
  ghost predicate ServicePasses(c: Config, busyPoll: bool, marks: seq<TxMark>, env: seq<Wakeup>) {
    && 0 < |marks| <= |env| + 1
    && (forall i: nat {:trigger ServicedAt(c, busyPoll, marks, env, i)} :: i + 1 < |marks| ==> ServicedAt(c, busyPoll, marks, env, i))
    && (forall i: nat {:trigger marks[i].w} :: 0 < i < |marks| - 1 ==> Theorems.Outstanding(marks[i].w) != 0)
  }

  /** The marks are states of the run. */
  ghost predicate OnRun(run: seq<World>, marks: seq<TxMark>) {
    forall i: nat {:trigger MarkAt(run, marks, i)} :: i < |marks| ==> MarkAt(run, marks, i)
  }

  ghost predicate MarkAt(run: seq<World>, marks: seq<TxMark>, i: nat)
    requires i < |marks|
  {
    marks[i].at < |run| && run[marks[i].at] == marks[i].w
  }

  lemma OnRunStays(run: seq<World>, run': seq<World>, marks: seq<TxMark>)
    requires OnRun(run, marks) && Extends(run, run')
    ensures OnRun(run', marks)
  {
    forall i: nat | i < |marks|
      ensures MarkAt(run', marks, i)
    {
      assert MarkAt(run, marks, i) && KeptAt(run, run', marks[i].at);
    }
  }

  lemma OnRunGrows(run: seq<World>, marks: seq<TxMark>, m: TxMark)
    requires OnRun(run, marks) && m.at < |run| && run[m.at] == m.w
    ensures OnRun(run, marks + [m])
  {
    forall i: nat | i < |marks + [m]|
      ensures MarkAt(run, marks + [m], i)
    {
      if i < |marks| {
        assert MarkAt(run, marks, i);
      }
    }
  }

  lemma ServicePassesGrow(c: Config, busyPoll: bool, marks: seq<TxMark>, env: seq<Wakeup>, m: TxMark)
    requires ServicePasses(c, busyPoll, marks, env) && |marks| <= |env|
    requires ServicePass(c, busyPoll, marks[|marks| - 1], m, env[|marks| - 1])
    requires |marks| > 1 ==> Theorems.Outstanding(marks[|marks| - 1].w) != 0
    ensures ServicePasses(c, busyPoll, marks + [m], env)
  {
    var longer := marks + [m];
    forall i: nat | i + 1 < |longer|
      ensures ServicedAt(c, busyPoll, longer, env, i)
    {
      if i + 1 < |marks| {
        assert ServicedAt(c, busyPoll, marks, env, i);
      }
    }
    forall i: nat | 0 < i < |longer| - 1
      ensures Theorems.Outstanding(longer[i].w) != 0
    {
      if i < |marks| - 1 {
        assert Theorems.Outstanding(marks[i].w) != 0;
      }
    }
  }

  /** The worker's state after the next n completions went back to the free stack. */
  ghost function Reclaimed(c: Config, u: Worker, cq: seq<nat>, n: nat): Worker
    requires u.cqCons + n <= |cq|
  {
    u.(free := u.free + Invariant.AddrBases(c, cq[u.cqCons..u.cqCons + n]), cqPos := u.cqCons + n)
  }

  class Transmitter {
    const xsk: Xsk
    var txStart: U32
    var txAvail: U32
    var txUsed: U32
    var reserved: bool
    var outstanding: U32
    var framesSubmitted: nat
    var framesReclaimed: nat
    var framesRejected: nat
    var retryableWakeupErrors: nat
    var firstWakeupError: int

    /** The reservation: it starts at the unpublished producer position, it is never larger
        than what the kernel is known to have released, and staged entries fill it in order. */
    ghost predicate Window()
      reads this, xsk, xsk.tx
    {
      && txUsed == |xsk.w.u.txLog| - xsk.w.u.txPub
      && (reserved ==> txStart == Wrapped(xsk.w.u.txPub) && txUsed <= txAvail
                       && xsk.w.u.txPub + txAvail == xsk.tx.snapCons + xsk.c.txCap)
      && (!reserved ==> txUsed == 0)
    }

    /** Each counter is a position of the protocol; never more frames are out than there are. */
    ghost predicate Counters()
      reads this, xsk
    {
      && outstanding == Theorems.Outstanding(xsk.w) && outstanding <= xsk.c.numFrames
      && framesSubmitted == xsk.w.u.txPub && framesReclaimed == xsk.w.u.cqCons
      && framesRejected == Theorems.CountOf(xsk.w.u.verdicts, Rejected) + (if xsk.w.u.held == Some(Refused) then 1 else 0)
    }

    ghost predicate Valid()
      reads this, xsk, xsk.fill, xsk.fill.slots, xsk.rx, xsk.rx.slots, xsk.tx, xsk.tx.slots
      reads xsk.completion, xsk.completion.slots, xsk.alloc, xsk.alloc.frames, xsk.umem
    {
      xsk.Valid() && Window() && Counters()
    }

    constructor (xsk: Xsk)
      requires xsk.Valid() && xsk.w.u.txLog == [] && xsk.w.u.verdicts == [] && xsk.w.u.held.None?
      requires xsk.w.u.txPub == xsk.w.u.cqCons == 0
      ensures Valid() && this.xsk == xsk && !reserved && retryableWakeupErrors == 0 && firstWakeupError == 0
    {
      this.xsk := xsk;
      txStart, txAvail, txUsed, reserved, outstanding := 0, 0, 0, false, 0;
      framesSubmitted, framesReclaimed, framesRejected := 0, 0, 0;
      retryableWakeupErrors, firstWakeupError := 0, 0;
    }

    // ---------------------------------------------------------------- staging

    /** Reserve the window, or look again whether it has grown. */
    method Reserve()
      requires Valid()
      modifies this`txStart, this`txAvail, this`reserved
      modifies xsk.fill`consumer, xsk.fill`cons, xsk.rx`producer, xsk.rx`entries, xsk.rx`pub, xsk.rx.slots
      modifies xsk.tx`cachedCons, xsk.tx`snapCons, xsk.tx`consumer, xsk.tx`cons
      modifies xsk.completion`producer, xsk.completion`entries, xsk.completion`pub, xsk.completion.slots, xsk.umem
      modifies xsk`rxFrames, xsk`inFlight, xsk`w, xsk`run
      ensures Valid() && xsk.w.u == old(xsk.w).u && Extends(old(xsk.run), xsk.run) && reserved
      ensures old(reserved) ==> txStart == old(txStart) && old(txAvail) <= txAvail
      ensures txUsed == txAvail <==> TxFull(xsk.c, xsk.w)
    {
      xsk.Sizes();
      var n, start := xsk.TxWindow();
      txAvail, txStart, reserved := n, start, true;
    }

    /** The two ways to refuse a frame: its length, or a full ring at this moment. */
    method Reject()
      requires Valid() && CanRefuse(xsk.c, xsk.w)
      modifies this`framesRejected, xsk`w, xsk`run
      ensures Valid() && xsk.w == Refuse(old(xsk.w)) && OneMore(old(xsk.run), xsk.run)
    {
      framesRejected := framesRejected + 1;
      xsk.RecordRefusal();
    }

    /** Write the descriptor behind those already staged. */
    method StageNext(d: Desc)
      requires Valid() && Holding(xsk.w, Reflected) && d == HeldDesc(xsk.w) && reserved && txUsed < txAvail
      modifies this`txUsed
      modifies xsk.fill`consumer, xsk.fill`cons, xsk.rx`producer, xsk.rx`entries, xsk.rx`pub, xsk.rx.slots
      modifies xsk.tx`consumer, xsk.tx`cons, xsk.tx`entries, xsk.tx.slots
      modifies xsk.completion`producer, xsk.completion`entries, xsk.completion`pub, xsk.completion.slots, xsk.umem
      modifies xsk`rxFrames, xsk`inFlight, xsk`w, xsk`run
      ensures Valid() && Extends(old(xsk.run), xsk.run)
      ensures xsk.w.u == Staged(old(xsk.w).u, d, xsk.w.u.txBytes)
    {
      xsk.Sizes();
      AdvanceExact(xsk.w.u.txPub, txUsed);
      Theorems.CountGrows(xsk.w.u.verdicts, Transferred, Rejected);
      xsk.StageDesc(Add32(txStart, txUsed), d);
      txUsed := txUsed + 1;
    }

    /** send_in_place: the caller holds the frame; success transfers it to TX staging, failure
        leaves it with the caller and happens only for a bad length or a full ring. */
    method SendInPlace(addr: nat, length: nat) returns (ok: bool)
      requires Valid() && Holding(xsk.w, Reflected) && Desc(addr, length) == HeldDesc(xsk.w)
      modifies this`txStart, this`txAvail, this`txUsed, this`reserved, this`framesRejected
      modifies xsk.fill`consumer, xsk.fill`cons, xsk.rx`producer, xsk.rx`entries, xsk.rx`pub, xsk.rx.slots
      modifies xsk.tx`cachedCons, xsk.tx`snapCons, xsk.tx`consumer, xsk.tx`cons, xsk.tx`entries, xsk.tx.slots
      modifies xsk.completion`producer, xsk.completion`entries, xsk.completion`pub, xsk.completion.slots, xsk.umem
      modifies xsk`rxFrames, xsk`inFlight, xsk`w, xsk`run
      ensures Valid() && Extends(old(xsk.run), xsk.run)
      ensures old(reserved) ==> reserved && txStart == old(txStart) && old(txAvail) <= txAvail
      ensures old(reserved) && old(txUsed) < old(txAvail) ==> txAvail == old(txAvail)
      ensures ok ==> xsk.w.u == Staged(old(xsk.w).u, Desc(addr, length), xsk.w.u.txBytes)
      ensures !ok ==> xsk.w.u == old(xsk.w).u.(held := Some(Refused))
      ensures !ok ==> length == 0 || length > xsk.c.frameSize || TxFull(xsk.c, xsk.w)
      ensures length == 0 || length > xsk.c.frameSize ==> !ok
    {
      if length == 0 || length > xsk.c.frameSize {
        Reject();
        ok := false;
      } else {
        ok := SendSized(Desc(addr, length));
      }
    }

    /** The rest of send_in_place, for a frame of a legal length. */
    method SendSized(d: Desc) returns (ok: bool)
      requires Valid() && Holding(xsk.w, Reflected) && d == HeldDesc(xsk.w)
      modifies this`txStart, this`txAvail, this`txUsed, this`reserved, this`framesRejected
      modifies xsk.fill`consumer, xsk.fill`cons, xsk.rx`producer, xsk.rx`entries, xsk.rx`pub, xsk.rx.slots
      modifies xsk.tx`cachedCons, xsk.tx`snapCons, xsk.tx`consumer, xsk.tx`cons, xsk.tx`entries, xsk.tx.slots
      modifies xsk.completion`producer, xsk.completion`entries, xsk.completion`pub, xsk.completion.slots, xsk.umem
      modifies xsk`rxFrames, xsk`inFlight, xsk`w, xsk`run
      ensures Valid() && Extends(old(xsk.run), xsk.run)
      ensures old(reserved) ==> reserved && txStart == old(txStart) && old(txAvail) <= txAvail
      ensures old(reserved) && old(txUsed) < old(txAvail) ==> txAvail == old(txAvail)
      ensures ok ==> xsk.w.u == Staged(old(xsk.w).u, d, xsk.w.u.txBytes)
      ensures !ok ==> xsk.w.u == old(xsk.w).u.(held := Some(Refused)) && TxFull(xsk.c, xsk.w)
    {
      ok := EnsureRoom();
      ghost var r := xsk.run;
      HeldStays(xsk.c, old(xsk.run), r, old(xsk.w), xsk.w);
      StageOrReject(d, ok);
      ExtendsTrans(old(xsk.run), r, xsk.run);
    }

    /** With room, the frame is staged; without, it stays with the caller. */
    method StageOrReject(d: Desc, room: bool)
      requires Valid() && Holding(xsk.w, Reflected) && d == HeldDesc(xsk.w) && reserved && room == (txUsed < txAvail)
      requires !room ==> TxFull(xsk.c, xsk.w)
      modifies this`txUsed, this`framesRejected
      modifies xsk.fill`consumer, xsk.fill`cons, xsk.rx`producer, xsk.rx`entries, xsk.rx`pub, xsk.rx.slots
      modifies xsk.tx`consumer, xsk.tx`cons, xsk.tx`entries, xsk.tx.slots
      modifies xsk.completion`producer, xsk.completion`entries, xsk.completion`pub, xsk.completion.slots, xsk.umem
      modifies xsk`rxFrames, xsk`inFlight, xsk`w, xsk`run
      ensures Valid() && Extends(old(xsk.run), xsk.run)
      ensures room ==> xsk.w.u == Staged(old(xsk.w).u, d, xsk.w.u.txBytes)
      ensures !room ==> xsk.w.u == old(xsk.w).u.(held := Some(Refused)) && TxFull(xsk.c, xsk.w)
    {
      if room {
        StageNext(d);
      } else {
        Reject();
      }
    }

    /** Reserve on first use; look again when the window is used up. */
    method EnsureRoom() returns (room: bool)
      requires Valid()
      modifies this`txStart, this`txAvail, this`reserved
      modifies xsk.fill`consumer, xsk.fill`cons, xsk.rx`producer, xsk.rx`entries, xsk.rx`pub, xsk.rx.slots
      modifies xsk.tx`cachedCons, xsk.tx`snapCons, xsk.tx`consumer, xsk.tx`cons
      modifies xsk.completion`producer, xsk.completion`entries, xsk.completion`pub, xsk.completion.slots, xsk.umem
      modifies xsk`rxFrames, xsk`inFlight, xsk`w, xsk`run
      ensures Valid() && xsk.w.u == old(xsk.w).u && Extends(old(xsk.run), xsk.run)
      ensures reserved && (old(reserved) ==> txStart == old(txStart) && old(txAvail) <= txAvail)
      ensures old(reserved) && txUsed < old(txAvail) ==> txAvail == old(txAvail) && xsk.run == old(xsk.run)
      ensures room == (txUsed < txAvail) && (!room ==> TxFull(xsk.c, xsk.w))
    {
      if !reserved {
        Reserve();
      }
      if txUsed == txAvail {
        ghost var r := xsk.run;
        Reserve();
        ExtendsTrans(old(xsk.run), r, xsk.run);
      }
      room := txUsed != txAvail;
    }

    // ---------------------------------------------------------------- reclaiming

    /** Return the frame of CQ entry start + i, the i-th since state u0. */
    method ReclaimNext(start: U32, i: U32, ghost u0: Worker)
      requires Valid() && start == Wrapped(u0.cqCons) && u0.cqCons + i < |xsk.w.k.cqLog|
      requires xsk.w.u == Reclaimed(xsk.c, u0, xsk.w.k.cqLog, i)
      modifies xsk.fill`consumer, xsk.fill`cons, xsk.rx`producer, xsk.rx`entries, xsk.rx`pub, xsk.rx.slots
      modifies xsk.tx`consumer, xsk.tx`cons, xsk.umem, xsk`rxFrames, xsk`inFlight, xsk`w, xsk`run
      modifies xsk.completion`producer, xsk.completion`entries, xsk.completion`pub, xsk.completion.slots
      modifies xsk.alloc`count, xsk.alloc.frames
      ensures Valid() && Extends(old(xsk.run), xsk.run)
      ensures |old(xsk.w).k.cqLog| <= |xsk.w.k.cqLog| && xsk.w.u == Reclaimed(xsk.c, u0, xsk.w.k.cqLog, i + 1)
    {
      AdvanceExact(u0.cqCons, i);
      xsk.KernelProgress();
      ghost var r := xsk.run;
      ReclaimedStays(xsk.c, old(xsk.run), r, old(xsk.w), xsk.w, u0, i);
      ReclaimStep(xsk.c, u0, xsk.w.k.cqLog, i);
      xsk.ReclaimFrame(Add32(start, i));
      ExtendsTrans(old(xsk.run), r, xsk.run);
    }

    /** Return the frames of the n CQ entries in the window, in order. */
    method ReclaimWindow(n: U32, start: U32)
      requires Valid() && xsk.w.u.cqPos == xsk.w.u.cqCons && start == Wrapped(xsk.w.u.cqCons)
      requires xsk.w.u.cqCons + n <= |xsk.w.k.cqLog|
      modifies xsk.fill`consumer, xsk.fill`cons, xsk.rx`producer, xsk.rx`entries, xsk.rx`pub, xsk.rx.slots
      modifies xsk.tx`consumer, xsk.tx`cons, xsk.umem, xsk`rxFrames, xsk`inFlight, xsk`w, xsk`run
      modifies xsk.completion`producer, xsk.completion`entries, xsk.completion`pub, xsk.completion.slots
      modifies xsk.alloc`count, xsk.alloc.frames
      ensures Valid() && Extends(old(xsk.run), xsk.run) && old(xsk.w).u.cqCons + n <= |xsk.w.k.cqLog|
      ensures xsk.w.u == Reclaimed(xsk.c, old(xsk.w).u, xsk.w.k.cqLog, n)
    {
      ghost var u0 := xsk.w.u;
      ReclaimNone(xsk.c, u0, xsk.w.k.cqLog);
      for i := 0 to n
        invariant Valid() && Extends(old(xsk.run), xsk.run) && u0.cqCons + n <= |xsk.w.k.cqLog|
        invariant xsk.w.u == Reclaimed(xsk.c, u0, xsk.w.k.cqLog, i)
      {
        ghost var r := xsk.run;
        ReclaimNext(start, i, u0);
        ExtendsTrans(old(xsk.run), r, xsk.run);
      }
    }

    /** reclaim_completed_frames: process the CQ window within the budget, then release it. */
    method ReclaimCompletedFrames(budget: U32) returns (n: U32)
      requires Valid() && xsk.w.u.cqPos == xsk.w.u.cqCons
      modifies this`outstanding, this`framesReclaimed
      modifies xsk.fill`consumer, xsk.fill`cons, xsk.rx`producer, xsk.rx`entries, xsk.rx`pub, xsk.rx.slots
      modifies xsk.tx`consumer, xsk.tx`cons, xsk.umem, xsk`rxFrames, xsk`inFlight, xsk`w, xsk`run
      modifies xsk.completion, xsk.completion.slots, xsk.alloc`count, xsk.alloc.frames
      ensures Valid() && Extends(old(xsk.run), xsk.run)
      ensures n <= budget && old(xsk.w).u.cqCons + n <= |xsk.w.k.cqLog|
      ensures xsk.w.u == Reclaimed(xsk.c, old(xsk.w).u, xsk.w.k.cqLog, n).(cqCons := old(xsk.w).u.cqCons + n)
      ensures xsk.w.u.cqCons <= xsk.completion.snapProd && (n < budget ==> xsk.completion.snapProd == xsk.w.u.cqCons)
      ensures if old(xsk.completion.snapProd) == old(xsk.w).u.cqCons then |old(xsk.w).k.cqLog| <= xsk.completion.snapProd
              else xsk.completion.snapProd == old(xsk.completion.snapProd)
      ensures xsk.completion.snapProd <= old(xsk.w).u.cqCons + xsk.c.cqCap
    {
      var start;
      n, start := xsk.CqWindow(budget);
      xsk.OutstandingBounds();
      if n == 0 {
        ReclaimNone(xsk.c, xsk.w.u, xsk.w.k.cqLog);
        return;
      }
      ghost var r := xsk.run;
      ReclaimAndRelease(n, start);
      ExtendsTrans(old(xsk.run), r, xsk.run);
    }

    /** The part of a reclaim pass that has something to do. */
    method ReclaimAndRelease(n: U32, start: U32)
      requires Valid() && xsk.w.u.cqPos == xsk.w.u.cqCons && start == Wrapped(xsk.w.u.cqCons)
      requires xsk.w.u.cqCons + n <= xsk.completion.snapProd <= |xsk.w.k.cqLog|
      modifies this`outstanding, this`framesReclaimed
      modifies xsk.fill`consumer, xsk.fill`cons, xsk.rx`producer, xsk.rx`entries, xsk.rx`pub, xsk.rx.slots
      modifies xsk.tx`consumer, xsk.tx`cons, xsk.umem, xsk`rxFrames, xsk`inFlight, xsk`w, xsk`run
      modifies xsk.completion`producer, xsk.completion`entries, xsk.completion`pub, xsk.completion.slots
      modifies xsk.completion`cachedCons, xsk.completion`consumer, xsk.completion`cons, xsk.completion`snapCons
      modifies xsk.alloc`count, xsk.alloc.frames
      ensures Valid() && Extends(old(xsk.run), xsk.run) && old(xsk.w).u.cqCons + n <= |xsk.w.k.cqLog|
      ensures xsk.w.u == Reclaimed(xsk.c, old(xsk.w).u, xsk.w.k.cqLog, n).(cqCons := old(xsk.w).u.cqCons + n)
    {
      xsk.OutstandingBounds();
      assert n <= outstanding;
      ReclaimWindow(n, start);
      ghost var r, v := xsk.run, xsk.w;
      Release(n);
      ReclaimedStays(xsk.c, r, xsk.run, v, xsk.w, old(xsk.w).u, n);
      ExtendsTrans(old(xsk.run), r, xsk.run);
    }

    /** Give the processed CQ slots back and settle the counters. */
    method Release(n: U32)
      requires Valid() && xsk.w.u.cqPos == xsk.w.u.cqCons + n <= xsk.completion.snapProd && n <= outstanding
      modifies this`outstanding, this`framesReclaimed
      modifies xsk.fill`consumer, xsk.fill`cons, xsk.rx`producer, xsk.rx`entries, xsk.rx`pub, xsk.rx.slots
      modifies xsk.tx`consumer, xsk.tx`cons, xsk.umem, xsk`rxFrames, xsk`inFlight, xsk`w, xsk`run
      modifies xsk.completion`producer, xsk.completion`entries, xsk.completion`pub, xsk.completion.slots
      modifies xsk.completion`cachedCons, xsk.completion`consumer, xsk.completion`cons, xsk.completion`snapCons
      ensures Valid() && xsk.w.u == old(xsk.w).u.(cqCons := old(xsk.w).u.cqPos) && Extends(old(xsk.run), xsk.run)
    {
      xsk.KernelProgress();
      ghost var r := xsk.run;
      xsk.ReleaseCqEntries(n);
      ExtendsTrans(old(xsk.run), r, xsk.run);
      outstanding := outstanding - n;
      framesReclaimed := framesReclaimed + n;
    }

    // ---------------------------------------------------------------- publishing and servicing

    /** Make the staged entries visible to the kernel and end the reservation. */
    method Publish()
      requires Valid() && xsk.w.u.cqPos == xsk.w.u.cqCons
      modifies this`txUsed, this`reserved, this`outstanding, this`framesSubmitted
      modifies xsk.tx`cachedProd, xsk.tx`producer, xsk.tx`pub, xsk.tx`snapProd
      modifies xsk.fill`consumer, xsk.fill`cons, xsk.rx`producer, xsk.rx`entries, xsk.rx`pub, xsk.rx.slots
      modifies xsk.tx`consumer, xsk.tx`cons, xsk.umem, xsk`rxFrames, xsk`inFlight, xsk`w, xsk`run
      modifies xsk.completion`producer, xsk.completion`entries, xsk.completion`pub, xsk.completion.slots
      ensures Valid() && Extends(old(xsk.run), xsk.run) && !reserved && txUsed == 0
      ensures xsk.w.u == old(xsk.w).u.(txPub := |xsk.w.u.txLog|) && |old(xsk.w).k.cqLog| <= |xsk.w.k.cqLog|
    {
      if txUsed > 0 {
        xsk.Sizes();
        xsk.OutstandingBounds();
        outstanding := outstanding + txUsed;
        xsk.PublishStaged(txUsed);
        framesSubmitted := framesSubmitted + txUsed;
      }
      txUsed := 0;
      reserved := false;
      KernelAdvances(xsk.c, old(xsk.run), xsk.run, old(xsk.w), xsk.w);
    }

    /** Classify the outcome of a wakeup: retries are counted, the first other error is kept. */
    method NoteWakeup(error: int)
      modifies this`retryableWakeupErrors, this`firstWakeupError
      ensures Noted(old(retryableWakeupErrors), old(firstWakeupError), retryableWakeupErrors, firstWakeupError, error)
    {
      if error != 0 {
        if IsExpectedWakeupRetry(error) || error == ENOBUFS {
          retryableWakeupErrors := retryableWakeupErrors + 1;
        } else if firstWakeupError == 0 {
          firstWakeupError := error;
        }
      }
    }

    /** Kick the kernel, then reclaim again with what is left of the budget. */
    method KickAndReclaim(budget: U32, e: Wakeup) returns (n: U32)
      requires Valid() && xsk.w.u.cqPos == xsk.w.u.cqCons
      requires budget > 0 ==> xsk.completion.snapProd == xsk.w.u.cqCons
      modifies this`outstanding, this`framesReclaimed, this`retryableWakeupErrors, this`firstWakeupError
      modifies xsk.fill`consumer, xsk.fill`cons, xsk.rx`producer, xsk.rx`entries, xsk.rx`pub, xsk.rx.slots
      modifies xsk.tx`consumer, xsk.tx`cons, xsk.umem, xsk`rxFrames, xsk`inFlight, xsk`w, xsk`run
      modifies xsk.completion, xsk.completion.slots, xsk.alloc`count, xsk.alloc.frames
      ensures Valid() && Extends(old(xsk.run), xsk.run)
      ensures n <= budget && old(xsk.w).u.cqCons + n <= |xsk.w.k.cqLog|
      ensures xsk.w.u == Reclaimed(xsk.c, old(xsk.w).u, xsk.w.k.cqLog, n).(cqCons := old(xsk.w).u.cqCons + n)
      ensures n < budget ==> |old(xsk.w).k.cqLog| <= xsk.w.u.cqCons
      ensures Noted(old(retryableWakeupErrors), old(firstWakeupError), retryableWakeupErrors, firstWakeupError,
                    ErrorOf(xsk.busyPoll, e))
    {
      var error := xsk.RequestProgress(e);
      KernelAdvances(xsk.c, old(xsk.run), xsk.run, old(xsk.w), xsk.w);
      NoteWakeup(error);
      ghost var r := xsk.run;
      if budget > 0 {
        n := ReclaimCompletedFrames(budget);
        ExtendsTrans(old(xsk.run), r, xsk.run);
      } else {
        n := 0;
        xsk.OutstandingBounds();
        ReclaimNone(xsk.c, xsk.w.u, xsk.w.k.cqLog);
      }
    }

    /** The two reclaim passes around the kick share one budget of a full CQ. `r` is the run
        between them, and its last state decides about the kick. */
    method ServiceCompletions(budget: U32, e: Wakeup) returns (ghost r: seq<World>)
      requires Valid() && budget == xsk.c.cqCap && xsk.w.u.cqPos == xsk.w.u.cqCons
      modifies this`outstanding, this`framesReclaimed, this`retryableWakeupErrors, this`firstWakeupError
      modifies xsk.fill`consumer, xsk.fill`cons, xsk.rx`producer, xsk.rx`entries, xsk.rx`pub, xsk.rx.slots
      modifies xsk.tx`consumer, xsk.tx`cons, xsk.umem, xsk`rxFrames, xsk`inFlight, xsk`w, xsk`run
      modifies xsk.completion, xsk.completion.slots, xsk.alloc`count, xsk.alloc.frames
      ensures Valid() && |r| > 0 && Extends(old(xsk.run), r) && Extends(r, xsk.run)
      ensures FirstDone(xsk.c, old(xsk.w), old(xsk.completion.snapProd), r[|r| - 1])
      ensures SecondDone(xsk.c, r[|r| - 1], xsk.w, old(xsk.w).u.cqCons + xsk.c.cqCap - r[|r| - 1].u.cqCons)
      ensures Noted(old(retryableWakeupErrors), old(firstWakeupError), retryableWakeupErrors, firstWakeupError,
                    if Theorems.Outstanding(r[|r| - 1]) > 0 then ErrorOf(xsk.busyPoll, e) else 0)
    {
      var reaped := FirstPass(budget);
      r := xsk.run;
      SecondPass(budget - reaped, e, outstanding);
    }

    /** The first pass, within a budget of a full CQ. */
    method FirstPass(budget: U32) returns (n: U32)
      requires Valid() && xsk.w.u.cqPos == xsk.w.u.cqCons && budget == xsk.c.cqCap
      modifies this`outstanding, this`framesReclaimed
      modifies xsk.fill`consumer, xsk.fill`cons, xsk.rx`producer, xsk.rx`entries, xsk.rx`pub, xsk.rx.slots
      modifies xsk.tx`consumer, xsk.tx`cons, xsk.umem, xsk`rxFrames, xsk`inFlight, xsk`w, xsk`run
      modifies xsk.completion, xsk.completion.slots, xsk.alloc`count, xsk.alloc.frames
      ensures Valid() && Extends(old(xsk.run), xsk.run)
      ensures n <= budget && xsk.w.u.cqCons == old(xsk.w).u.cqCons + n && xsk.completion.snapProd == xsk.w.u.cqCons
      ensures FirstDone(xsk.c, old(xsk.w), old(xsk.completion.snapProd), xsk.w)
    {
      xsk.CompletionsSeen();
      xsk.OutstandingBounds();
      n := ReclaimCompletedFrames(budget);
      KernelAdvances(xsk.c, old(xsk.run), xsk.run, old(xsk.w), xsk.w);
    }

    /** The second pass is for frames still outstanding. */
    method SecondPass(budget: U32, e: Wakeup, ghost left: nat)
      requires Valid() && left == outstanding && xsk.w.u.cqPos == xsk.w.u.cqCons
      requires budget > 0 ==> xsk.completion.snapProd == xsk.w.u.cqCons
      modifies this`outstanding, this`framesReclaimed, this`retryableWakeupErrors, this`firstWakeupError
      modifies xsk.fill`consumer, xsk.fill`cons, xsk.rx`producer, xsk.rx`entries, xsk.rx`pub, xsk.rx.slots
      modifies xsk.tx`consumer, xsk.tx`cons, xsk.umem, xsk`rxFrames, xsk`inFlight, xsk`w, xsk`run
      modifies xsk.completion, xsk.completion.slots, xsk.alloc`count, xsk.alloc.frames
      ensures Valid() && Extends(old(xsk.run), xsk.run)
      ensures SecondDone(xsk.c, old(xsk.w), xsk.w, budget)
      ensures Noted(old(retryableWakeupErrors), old(firstWakeupError), retryableWakeupErrors, firstWakeupError,
                    if left > 0 then ErrorOf(xsk.busyPoll, e) else 0)
    {
      if outstanding == 0 {
        xsk.OutstandingBounds();
        ReclaimNone(xsk.c, xsk.w.u, xsk.w.k.cqLog);
      } else {
        var _ := KickAndReclaim(budget, e);
      }
    }

    /** publish_and_service_tx: one bounded maintenance pass, as ServicePass says. `left` is what
        is outstanding when the kick is considered. */
    method PublishAndServiceTx(e: Wakeup) returns (ghost left: nat)
      requires Valid() && xsk.w.u.cqPos == xsk.w.u.cqCons
      modifies this, xsk.tx`cachedProd, xsk.tx`producer, xsk.tx`pub, xsk.tx`snapProd
      modifies xsk.fill`consumer, xsk.fill`cons, xsk.rx`producer, xsk.rx`entries, xsk.rx`pub, xsk.rx.slots
      modifies xsk.tx`consumer, xsk.tx`cons, xsk.umem, xsk`rxFrames, xsk`inFlight, xsk`w, xsk`run
      modifies xsk.completion, xsk.completion.slots, xsk.alloc`count, xsk.alloc.frames
      ensures Valid() && Extends(old(xsk.run), xsk.run) && !reserved && txUsed == 0
      ensures framesRejected == old(framesRejected)
      ensures CqServiced(xsk.c, old(xsk.w), old(xsk.completion.snapProd), xsk.w, left)
      ensures xsk.w.u == Serviced(xsk.c, old(xsk.w).u, xsk.w.k.cqLog, xsk.w.u.cqCons).(txPub := |xsk.w.u.txLog|)
      ensures Noted(old(retryableWakeupErrors), old(firstWakeupError), retryableWakeupErrors, firstWakeupError,
                    if left > 0 then ErrorOf(xsk.busyPoll, e) else 0)
    {
      Publish();
      ghost var r := xsk.run;
      left := ServiceUnlessIdle(e);
      ExtendsTrans(old(xsk.run), r, xsk.run);
    }

    /** Service the CQ, unless nothing is outstanding: together the two reclaim passes return every
        completion that was there at the start. */
    method ServiceUnlessIdle(e: Wakeup) returns (ghost left: nat)
      requires Valid() && xsk.w.u.cqPos == xsk.w.u.cqCons
      modifies this`outstanding, this`framesReclaimed, this`retryableWakeupErrors, this`firstWakeupError
      modifies xsk.fill`consumer, xsk.fill`cons, xsk.rx`producer, xsk.rx`entries, xsk.rx`pub, xsk.rx.slots
      modifies xsk.tx`consumer, xsk.tx`cons, xsk.umem, xsk`rxFrames, xsk`inFlight, xsk`w, xsk`run
      modifies xsk.completion, xsk.completion.slots, xsk.alloc`count, xsk.alloc.frames
      ensures Valid() && Extends(old(xsk.run), xsk.run)
      ensures CqServiced(xsk.c, old(xsk.w), old(xsk.completion.snapProd), xsk.w, left)
      ensures xsk.w.u == Serviced(xsk.c, old(xsk.w).u, xsk.w.k.cqLog, xsk.w.u.cqCons)
      ensures Noted(old(retryableWakeupErrors), old(firstWakeupError), retryableWakeupErrors, firstWakeupError,
                    if left > 0 then ErrorOf(xsk.busyPoll, e) else 0)
    {
      if outstanding == 0 {
        left := 0;
        xsk.OutstandingBounds();
        xsk.CompletionsSeen();
        ReclaimNone(xsk.c, xsk.w.u, xsk.w.k.cqLog);
      } else {
        var budget := xsk.CompletionCapacity();
        ghost var r := ServiceCompletions(budget, e);
        ghost var mid := r[|r| - 1];
        left := Theorems.Outstanding(mid);
        xsk.OutstandingBounds();
        ServiceDone(xsk.c, r, xsk.run, old(xsk.w), old(xsk.completion.snapProd), mid, xsk.w,
                    old(xsk.w).u.cqCons + xsk.c.cqCap - mid.u.cqCons);
        ExtendsTrans(old(xsk.run), r, xsk.run);
      }
    }

    /** Where the transmitter is. */
    ghost function Mark(left: nat): TxMark
      reads this, xsk, xsk.completion
    {
      TxMark(if |xsk.run| > 0 then |xsk.run| - 1 else 0, xsk.w, xsk.completion.snapProd, left,
             retryableWakeupErrors, firstWakeupError)
    }

    /** One pass of the drain, recorded. */
    method DrainPass(e: Wakeup) returns (ghost left: nat)
      requires Valid() && xsk.w.u.cqPos == xsk.w.u.cqCons
      modifies this, xsk.tx`cachedProd, xsk.tx`producer, xsk.tx`pub, xsk.tx`snapProd
      modifies xsk.fill`consumer, xsk.fill`cons, xsk.rx`producer, xsk.rx`entries, xsk.rx`pub, xsk.rx.slots
      modifies xsk.tx`consumer, xsk.tx`cons, xsk.umem, xsk`rxFrames, xsk`inFlight, xsk`w, xsk`run
      modifies xsk.completion, xsk.completion.slots, xsk.alloc`count, xsk.alloc.frames
      ensures Valid() && Extends(old(xsk.run), xsk.run) && xsk.w.u.txPub == |xsk.w.u.txLog|
      ensures xsk.w.u.verdicts == old(xsk.w).u.verdicts && xsk.w.u.held == old(xsk.w).u.held
      ensures xsk.w.u.cqPos == xsk.w.u.cqCons && |old(xsk.w).k.cqLog| <= xsk.w.u.cqCons
      ensures forall earlier :: ServicePass(xsk.c, xsk.busyPoll, old(Mark(earlier)), Mark(left), e)
    {
      left := PublishAndServiceTx(e);
    }

    /** drain_until, with the deadline as the number of passes that fit before it, at least one,
        and for each the answer from outside. It goes on until nothing is outstanding or the
        passes are used up. The result is exactly the number of transferred frames not yet back. */
    method DrainUntil(env: seq<Wakeup>) returns (remaining: U32, ghost marks: seq<TxMark>)
      requires Valid() && xsk.w.u.cqPos == xsk.w.u.cqCons && xsk.w.u.held.None? && |env| > 0
      modifies this, xsk.tx`cachedProd, xsk.tx`producer, xsk.tx`pub, xsk.tx`snapProd
      modifies xsk.fill`consumer, xsk.fill`cons, xsk.rx`producer, xsk.rx`entries, xsk.rx`pub, xsk.rx.slots
      modifies xsk.tx`consumer, xsk.tx`cons, xsk.umem, xsk`rxFrames, xsk`inFlight, xsk`w, xsk`run
      modifies xsk.completion, xsk.completion.slots, xsk.alloc`count, xsk.alloc.frames
      ensures Valid() && Extends(old(xsk.run), xsk.run)
      ensures xsk.w.u.verdicts == old(xsk.w).u.verdicts && xsk.w.u.txPub == |xsk.w.u.txLog|
      ensures xsk.w.u.held.None? && xsk.w.u.cqPos == xsk.w.u.cqCons && |old(xsk.w).k.cqLog| <= xsk.w.u.cqCons
      ensures ServicePasses(xsk.c, xsk.busyPoll, marks, env) && OnRun(xsk.run, marks) && |marks| >= 2
      ensures marks[0] == old(Mark(0)) && marks[|marks| - 1] == Mark(marks[|marks| - 1].left)
      ensures remaining == outstanding && (remaining == 0 || |marks| == |env| + 1)
      ensures remaining == Theorems.CountOf(xsk.w.u.verdicts, Transferred) - framesReclaimed
      ensures remaining == 0 ==> xsk.inFlight == [] && |xsk.w.u.verdicts| <= |xsk.w.k.rxLog|
                                 && multiset(xsk.w.k.cqLog) == multiset(Theorems.DescAddrs(Theorems.ToSend(xsk.w)))
    {
      marks := [Mark(0)];
      var pass := 0;
      while pass == 0 || (outstanding != 0 && pass < |env|)
        invariant Valid() && Extends(old(xsk.run), xsk.run) && 0 <= pass <= |env|
        invariant pass > 0 ==> xsk.w.u.txPub == |xsk.w.u.txLog| && |old(xsk.w).k.cqLog| <= xsk.w.u.cqCons
        invariant pass == 0 ==> xsk.w == old(xsk.w)
        invariant xsk.w.u.verdicts == old(xsk.w).u.verdicts && xsk.w.u.held.None? && xsk.w.u.cqPos == xsk.w.u.cqCons
        invariant |marks| == pass + 1 && marks[0] == old(Mark(0)) && marks[pass] == Mark(marks[pass].left)
        invariant ServicePasses(xsk.c, xsk.busyPoll, marks, env) && OnRun(xsk.run, marks)
        decreases |env| - pass
      {
        ghost var r := xsk.run;
        ghost var left := DrainPass(env[pass]);
        ExtendsTrans(old(xsk.run), r, xsk.run);
        OnRunStays(r, xsk.run, marks);
        OnRunGrows(xsk.run, marks, Mark(left));
        ServicePassesGrow(xsk.c, xsk.busyPoll, marks, env, Mark(left));
        marks := marks + [Mark(left)];
        pass := pass + 1;
      }
      remaining := outstanding;
      xsk.DrainedState();
    }
  }

  /** The worker's state after the completions up to position `upTo` were returned and released. */
  ghost function Serviced(c: Config, u: Worker, cq: seq<nat>, upTo: nat): Worker
    requires u.cqCons <= upTo <= |cq|
  {
    Reclaimed(c, u, cq, upTo - u.cqCons).(cqCons := upTo)
  }

  /** Two reclaim passes in a row amount to one. */
  lemma TwoPasses(c: Config, r: seq<World>, r': seq<World>, w: World, w': World, u: Worker)
    requires IsRun(c, r') && |r| > 0 && Extends(r, r') && w == r[|r| - 1] && w' == r'[|r'| - 1]
    requires u.cqCons <= w.u.cqCons <= |w.k.cqLog| && w.u == Serviced(c, u, w.k.cqLog, w.u.cqCons)
    requires w.u.cqCons <= w'.u.cqCons <= |w'.k.cqLog| && w'.u == Serviced(c, w.u, w'.k.cqLog, w'.u.cqCons)
    ensures w'.u == Serviced(c, u, w'.k.cqLog, w'.u.cqCons)
  {
    ReclaimedStays(c, r, r', w, w', u, w.u.cqCons - u.cqCons);
    ReclaimChain(c, u, w'.k.cqLog, w.u.cqCons, w'.u.cqCons);
  }

  lemma ReclaimChain(c: Config, u: Worker, cq: seq<nat>, n: nat, m: nat)
    requires u.cqCons <= n <= m <= |cq|
    ensures Serviced(c, Serviced(c, u, cq, n), cq, m) == Serviced(c, u, cq, m)
  {
    assert Invariant.AddrBases(c, cq[u.cqCons..n]) + Invariant.AddrBases(c, cq[n..m]) ==
           Invariant.AddrBases(c, cq[u.cqCons..m]);
  }

  /** Completions once seen stay where they are. */
  lemma ReclaimedStays(c: Config, r: seq<World>, r': seq<World>, w: World, w': World, u: Worker, n: nat)
    requires IsRun(c, r') && |r| > 0 && Extends(r, r') && w == r[|r| - 1] && w' == r'[|r'| - 1]
    requires u.cqCons + n <= |w.k.cqLog|
    ensures |w.k.cqLog| <= |w'.k.cqLog| && Reclaimed(c, u, w'.k.cqLog, n) == Reclaimed(c, u, w.k.cqLog, n)
  {
    assert KeptAt(r, r', |r| - 1);
    Theorems.RunGrows(c, r', |r| - 1, |r'| - 1);
    assert w'.k.cqLog[u.cqCons..u.cqCons + n] == w.k.cqLog[u.cqCons..u.cqCons + n];
  }

  lemma ReclaimNone(c: Config, u: Worker, cq: seq<nat>)
    requires u.cqPos == u.cqCons <= |cq|
    ensures Reclaimed(c, u, cq, 0) == u
  {
    assert u.free + Invariant.AddrBases(c, cq[u.cqCons..u.cqCons]) == u.free;
  }

  lemma ReclaimStep(c: Config, u: Worker, cq: seq<nat>, n: nat)
    requires u.cqCons + n < |cq|
    ensures var v := Reclaimed(c, u, cq, n);
            Reclaimed(c, u, cq, n + 1) == v.(free := v.free + [Base(c, cq[v.cqPos])], cqPos := v.cqPos + 1)
  {
    var k := u.cqCons;
    assert Invariant.AddrBases(c, cq[k..k + n + 1]) == Invariant.AddrBases(c, cq[k..k + n]) + [Base(c, cq[k + n])];
  }
}
