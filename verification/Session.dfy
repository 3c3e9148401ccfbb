/** One run of the program from its empty rings to the end of the drain, in the order that
    Handshake.SequentialUse shows every interleaving of the two threads to follow. */
module Sessions {
  import opened MachineWords
  import opened Protocol
  import opened Sockets
  import opened Transmitters
  import opened Receivers
  import Theorems
  import Handshake

  const NUM_FRAMES: U32 := 8192
  const FRAME_SIZE: U32 := 2048
  const RING_SIZE: U32 := 2048
  const ALLOC_CAP: nat := 8192
  const RX_BATCH_SIZE: U32 := 64

  function Sizes(): Config {
    Config(NUM_FRAMES, FRAME_SIZE, RING_SIZE, RING_SIZE, RING_SIZE, RING_SIZE)
  }

  /** The sizes the program fixes meet what each part asks of them. */
  lemma SizesFit()
    ensures 0 < NUM_FRAMES <= ALLOC_CAP && 2 <= RING_SIZE <= NUM_FRAMES && 0 < RX_BATCH_SIZE <= RING_SIZE
    ensures HasSingleBit(FRAME_SIZE) && HasSingleBit(RING_SIZE)
    ensures Sizes() == Config(8192, 2048, 2048, 2048, 2048, 2048) && RX_BATCH_SIZE == 64
  {
    PowerOfTwoHasSingleBit(11);
    assert Pow2(11) == 2048;
  }

  /** The worker's state when FILL has just been stocked. */
  ghost function Stocked(): Worker {
    Refilled(Worker(Frames(Sizes()), [], 0, 0, 0, None, [], [], [], 0, 0, 0), RING_SIZE).(fillPub := RING_SIZE)
  }

  /** Stock FILL before any worker exists. Every FILL slot gets a frame, the last of the stack
      first. */
  method Setup(busyPoll: bool, e: Wakeup) returns (x: Xsk)
    ensures fresh(x) && fresh(x.fill) && fresh(x.fill.slots) && fresh(x.rx) && fresh(x.rx.slots) && fresh(x.tx)
    ensures fresh(x.tx.slots) && fresh(x.completion) && fresh(x.completion.slots)
    ensures fresh(x.alloc) && fresh(x.alloc.frames) && fresh(x.umem)
    ensures x.Valid() && x.c == Sizes() && x.busyPoll == busyPoll && x.w.u == Stocked()
  {
    SizesFit();
    x := CreateXsk(NUM_FRAMES, FRAME_SIZE, RING_SIZE, ALLOC_CAP, busyPoll);
    ghost var u := x.w.u;
    var pushed, _ := x.RefillFill();
    assert pushed == RING_SIZE;
    RefillStep(u, pushed);
    var _ := x.RequestProgress(e);
  }

  /** The receiver's parameters: batches of 64, FILL kept at half of its 2048 slots. */
  ghost function Fixed(busyPoll: bool): Parameters {
    Parameters(Sizes(), busyPoll, 64, 1024)
  }

  /** What is known of a session's passes: one for each answer from outside, from the stocked rings
      on, each recorded in the run and counted. */
  ghost predicate PassesMade(run: seq<World>, busyPoll: bool, marks: seq<Mark>, env: seq<PassEnv>, packets: nat) {
    && Passes(Fixed(busyPoll), marks, env) && OnRun(run, TxMarks(marks))
    && marks[0].tx.w.u == Stocked() && marks[0].packets == 0 && marks[|env|].packets == packets
  }

  /** What is known of its drain: it goes on from the last pass until nothing is outstanding or its
      time is up. */
  ghost predicate DrainMade(run: seq<World>, busyPoll: bool, last: World, marks: seq<TxMark>, env: seq<Wakeup>, remaining: nat) {
    && ServicePasses(Sizes(), busyPoll, marks, env) && OnRun(run, marks) && |marks| >= 2 && marks[0].w == last
    && (remaining == 0 || |marks| == |env| + 1)
  }

  /** The whole life of the rings, for every sequence of uses that Handshake.SequentialUse
      allows: set up, one receive pass per answer from outside, then `tail`, which drains or, on
      an early exit, does not. Every pass and the drain do what they promise. Afterwards every
      received frame is accounted for; what the kernel took for sending is, in order, the
      transferred part of what it delivered, reflected; what is reported missing is exactly the
      staged frames that have not come back; and if none is, all of them were sent and each is
      back once. */
  method Serve(busyPoll: bool, e: Wakeup, env: seq<PassEnv>, tail: seq<Handshake.Section>, drainEnv: seq<Wakeup>)
    returns (r: Receiver, remaining: U32, ghost marks: seq<Mark>, ghost drain: seq<TxMark>)
    requires |drainEnv| > 0 && exists s :: tail == Handshake.TailOf(s)
    ensures r.tx.Valid() && r.tx.xsk == r.xsk
    ensures PassesMade(r.xsk.run, busyPoll, marks, env, r.packetsReceived)
    ensures Handshake.TxDrain in tail ==> DrainMade(r.xsk.run, busyPoll, marks[|env|].tx.w, drain, drainEnv, remaining)
    ensures r.packetsReceived == r.callbacks == r.unsupported + r.staged + r.tx.framesRejected
    ensures r.staged == r.tx.framesSubmitted == r.tx.framesReclaimed + remaining
    ensures Forwarded(r.xsk.w) && (remaining == 0 ==> AllBack(r.xsk.w))
  {
    r, marks := Launch(busyPoll, e, env);
    ghost var run := r.xsk.run;
    remaining, drain := Finish(r, tail, drainEnv);
    OnRunStays(run, r.xsk.run, TxMarks(marks));
  }

  /** From nothing to the end of the last pass. */
  method Launch(busyPoll: bool, e: Wakeup, env: seq<PassEnv>) returns (r: Receiver, ghost marks: seq<Mark>)
    ensures r.Valid() && r.Idle() && r.tx.txUsed == 0 && r.xsk.c == Sizes() && r.xsk.busyPoll == busyPoll
    ensures PassesMade(r.xsk.run, busyPoll, marks, env, r.packetsReceived) && marks[|env|].tx.w == r.xsk.w
    ensures r.packetsReceived == r.callbacks == r.unsupported + r.staged + r.tx.framesRejected
    ensures fresh(r) && fresh(r.tx) && fresh(r.xsk) && fresh(r.xsk.fill) && fresh(r.xsk.fill.slots)
    ensures fresh(r.xsk.rx) && fresh(r.xsk.rx.slots) && fresh(r.xsk.tx) && fresh(r.xsk.tx.slots)
    ensures fresh(r.xsk.completion) && fresh(r.xsk.completion.slots)
    ensures fresh(r.xsk.alloc) && fresh(r.xsk.alloc.frames) && fresh(r.xsk.umem)
  {
    r := Assemble(busyPoll, e);
    marks := PollAll(r, busyPoll, env);
  }

  /** All receive passes of a session. */
  method PollAll(r: Receiver, ghost busyPoll: bool, env: seq<PassEnv>) returns (ghost marks: seq<Mark>)
    requires r.Valid() && r.Idle() && r.packetsReceived == r.callbacks == 0 && r.tx.txUsed == 0
    requires r.Params() == Fixed(busyPoll) && r.xsk.w.u == Stocked()
    modifies r, r.tx, r.xsk, r.xsk.fill, r.xsk.fill.slots, r.xsk.rx, r.xsk.rx.slots, r.xsk.tx, r.xsk.tx.slots
    modifies r.xsk.completion, r.xsk.completion.slots, r.xsk.alloc, r.xsk.alloc.frames, r.xsk.umem
    ensures r.Valid() && r.Idle() && r.tx.txUsed == 0
    ensures PassesMade(r.xsk.run, busyPoll, marks, env, r.packetsReceived) && marks[|env|].tx.w == r.xsk.w
    ensures r.packetsReceived == r.callbacks == r.unsupported + r.staged + r.tx.framesRejected
  {
    marks := r.Run(env);
    LastMark(r.xsk.run, marks, |env|);
    PollMade(r.xsk.run, busyPoll, marks, env, r.packetsReceived);
  }

  lemma PollMade(run: seq<World>, busyPoll: bool, marks: seq<Mark>, env: seq<PassEnv>, packets: nat)
    requires Passes(Fixed(busyPoll), marks, env) && OnRun(run, TxMarks(marks))
    requires marks[0].tx.w.u == Stocked() && marks[0].packets == 0 && marks[|env|].packets == packets
    ensures PassesMade(run, busyPoll, marks, env, packets)
  {
  }

  lemma LastMark(run: seq<World>, marks: seq<Mark>, n: nat)
    requires OnRun(run, TxMarks(marks)) && n < |marks| && marks[n].tx.at == |run| - 1
    ensures |run| > 0 && marks[n].tx.w == run[|run| - 1]
  {
    assert MarkAt(run, TxMarks(marks), n);
  }

  /** What follows the passes. */
  method Finish(r: Receiver, tail: seq<Handshake.Section>, env: seq<Wakeup>) returns (remaining: U32, ghost drain: seq<TxMark>)
    requires r.Valid() && r.Idle() && r.tx.txUsed == 0 && r.xsk.c == Sizes() && |env| > 0
    modifies r.tx, r.xsk, r.xsk.fill, r.xsk.fill.slots, r.xsk.rx, r.xsk.rx.slots, r.xsk.tx, r.xsk.tx.slots
    modifies r.xsk.completion, r.xsk.completion.slots, r.xsk.alloc, r.xsk.alloc.frames, r.xsk.umem
    ensures r.tx.Valid() && Extends(old(r.xsk.run), r.xsk.run) && r.tx.framesRejected == old(r.tx.framesRejected)
    ensures Handshake.TxDrain in tail ==> DrainMade(r.xsk.run, r.xsk.busyPoll, old(r.xsk.w), drain, env, remaining)
    ensures r.staged == r.tx.framesSubmitted == r.tx.framesReclaimed + remaining
    ensures Forwarded(r.xsk.w) && (remaining == 0 ==> AllBack(r.xsk.w))
  {
    drain := [];
    if Handshake.TxDrain in tail {
      drain := Drain(r, env);
    }
    remaining := r.tx.outstanding;
    SessionEnds(r.xsk.c, r.xsk.run, r.xsk.w);
  }

  /** The socket with its transmitter and receiver, ready for the first pass. */
  method Assemble(busyPoll: bool, e: Wakeup) returns (r: Receiver)
    ensures r.Valid() && r.Idle() && r.packetsReceived == r.callbacks == 0 && r.tx.txUsed == 0
    ensures r.Params() == Fixed(busyPoll) && r.xsk.w.u == Stocked()
    ensures fresh(r) && fresh(r.tx) && fresh(r.xsk) && fresh(r.xsk.fill) && fresh(r.xsk.fill.slots)
    ensures fresh(r.xsk.rx) && fresh(r.xsk.rx.slots) && fresh(r.xsk.tx) && fresh(r.xsk.tx.slots)
    ensures fresh(r.xsk.completion) && fresh(r.xsk.completion.slots)
    ensures fresh(r.xsk.alloc) && fresh(r.xsk.alloc.frames) && fresh(r.xsk.umem)
  {
    var x := Setup(busyPoll, e);
    x.Sizes();
    var tx := new Transmitter(x);
    r := new Receiver(x, tx, RX_BATCH_SIZE, 0);
  }

  /** The drain changes only what is out, not what was received, staged or rejected. */
  method Drain(r: Receiver, env: seq<Wakeup>) returns (ghost marks: seq<TxMark>)
    requires r.Valid() && r.Idle() && r.tx.txUsed == 0 && r.xsk.c == Sizes() && |env| > 0
    modifies r.tx, r.xsk, r.xsk.fill, r.xsk.fill.slots, r.xsk.rx, r.xsk.rx.slots, r.xsk.tx, r.xsk.tx.slots
    modifies r.xsk.completion, r.xsk.completion.slots, r.xsk.alloc, r.xsk.alloc.frames, r.xsk.umem
    ensures r.tx.Valid() && Extends(old(r.xsk.run), r.xsk.run) && r.xsk.w.u.txPub == |r.xsk.w.u.txLog|
    ensures r.tx.framesRejected == old(r.tx.framesRejected) && r.tx.framesSubmitted == r.staged
    ensures DrainMade(r.xsk.run, r.xsk.busyPoll, old(r.xsk.w), marks, env, r.tx.outstanding)
  {
    r.xsk.VerdictCounts();
    var remaining;
    remaining, marks := r.tx.DrainUntil(env);
    r.xsk.VerdictCounts();
  }

  ghost predicate Forwarded(w: World) {
    && |w.u.verdicts| <= |w.k.rxLog| && |w.u.verdicts| <= |w.k.received|
    && Theorems.Descs(w.k.wire) <= Theorems.ToSend(w) && Theorems.Contents(w.k.wire) <= Theorems.ToSendBytes(w)
  }

  ghost predicate AllBack(w: World) {
    && |w.u.verdicts| <= |w.k.rxLog| && w.k.inFlight == []
    && Theorems.Descs(w.k.wire) == Theorems.ToSend(w)
    && multiset(w.k.cqLog) == multiset(Theorems.DescAddrs(Theorems.ToSend(w)))
  }

  lemma SessionEnds(c: Config, run: seq<World>, w: World)
    requires IsRun(c, run) && w == run[|run| - 1]
    ensures Forwarded(w)
    ensures w.u.txPub == |w.u.txLog| && Theorems.Outstanding(w) == 0 ==> AllBack(w)
  {
    Theorems.EndToEnd(c, run, |run| - 1);
    if w.u.txPub == |w.u.txLog| {
      Theorems.DrainedMeansAllReturned(c, run, |run| - 1);
    }
  }

  /** The sizes of a socket as the handshake's limits. */
  function LimitsOf(c: Config, batch: nat, drainPasses: nat): Handshake.Limits {
    Handshake.Limits(batch, c.cqCap, c.fillCap, drainPasses)
  }

  /** The loop turns of a receive pass between two marks. */
  ghost function TurnsOf(m: Mark, m': Mark): Handshake.Turns {
    var u, u' := m.tx.w.u, m'.tx.w.u;
    var swept := u'.txPub - m'.tx.left;
    Handshake.Turns(u'.rxPos - u.rxPos, swept - u.cqCons, u'.cqCons - swept, |u'.fillLog| - |u.fillLog|)
  }

  /** Every receive pass is one the handshake counts: the worker of the handshake can make the
      same loop turns, one step each, and is back at the stop check within LongestWait steps. */
  lemma PassFitsHandshake(p: Parameters, m: Mark, m': Mark, e: PassEnv, drainPasses: nat) returns (steps: seq<Handshake.WorkerPc>)
    requires PassOf(p, m, m', e)
    ensures var l := LimitsOf(p.c, p.batch, drainPasses);
            Handshake.IsPass(l, steps, TurnsOf(m, m')) && |steps| <= Handshake.LongestWait(l)
  {
    steps := Handshake.PassSteps(LimitsOf(p.c, p.batch, drainPasses), TurnsOf(m, m'));
  }
}
