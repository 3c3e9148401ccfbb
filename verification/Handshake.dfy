/** Start and stop: how the control thread and the polling worker take turns with the rings, the
    allocator and the transmitter. Nothing locks those; only this handshake keeps them apart. */
module Handshake {

  /** What bounds one receive pass, and how many passes the drain deadline leaves room for. */
  datatype Limits = Limits(batch: nat, cqCap: nat, fillCap: nat, drainPasses: nat)

  /** One receive pass. The counts are loop turns left; budget is what a second reclaim may use. */
  datatype Work =
    | Receiving(left: nat) | Committing | Reaping(left: nat, budget: nat) | Kicking(budget: nat)
    | ReapingMore(left: nat) | CheckingFill | Refilling(left: nat) | Waking

  datatype WorkerPc =
    | Absent | Registering | Preparing | Announcing | CheckStartup | WaitActivated
    | CheckStop | Pass(work: Work) | Deregistering | Finished

  datatype ControlPc =
    | Setup | WaitPrepared | CheckSignal | ReadStartup | CreateLoader | Activate | Announce | Poll | Report
    | StopRedirect | RequestStop | FindCallback | RunCallback | Join
    | Drain(passes: nat) | Detach | DestroyLoader | DestroyRings | Done

  /** unwinding: control is leaving by an early return or an exception. registered: the stop
      callback is in the stop state's list. */
  datatype State = State(
    control: ControlPc, worker: WorkerPc, gStop: bool, unwinding: bool,
    prepared: bool, activated: bool, startupOk: bool, stopRequested: bool, registered: bool,
    loader: bool)

  /** How the outside decides a step: whether a call succeeds, how much work a load finds. */
  datatype Choice = Choice(ok: bool, n: nat)

  function AtMost(n: nat, limit: nat): nat {
    if n <= limit then n else limit
  }

  // ---------------------------------------------------------------- the control thread

  predicate ControlEnabled(s: State) {
    match s.control
    case WaitPrepared => s.prepared
    case Join => s.worker.Finished?
    case Done => false
    case _ => true
  }

  /** Where control goes next. Leaving by an early return or an exception goes through the
      destructor of the thread object, which requests stop and joins. */
  function ControlGoes(l: Limits, s: State, ch: Choice): ControlPc {
    match s.control
    case Setup => if ch.ok then WaitPrepared else DestroyRings
    case WaitPrepared => CheckSignal
    case CheckSignal => if s.gStop then RequestStop else ReadStartup
    case ReadStartup => if s.startupOk then CreateLoader else RequestStop
    case CreateLoader => if ch.ok then Activate else RequestStop
    case Activate => if s.gStop then Poll else Announce
    case Announce => if ch.ok then Poll else RequestStop
    case Poll => if s.gStop then StopRedirect else Report
    case Report => if ch.ok then Poll else RequestStop
    case StopRedirect => RequestStop
    case RequestStop => FindCallback
    case FindCallback => if s.registered then RunCallback else Join
    case RunCallback => Join
    case Join => if s.unwinding then DestroyLoader else Drain(AtMost(ch.n, l.drainPasses))
    case Drain(passes) => if passes > 0 && ch.ok then Drain(passes - 1) else Detach
    case Detach => DestroyLoader
    case DestroyLoader => DestroyRings
    case DestroyRings => Done
    case Done => Done
  }

  /** One step of control, with what it does to each variable. */
  function ControlNext(l: Limits, s: State, ch: Choice): State {
    var pc := s.control;
    s.(control := ControlGoes(l, s, ch),
       worker := if pc.Setup? && ch.ok then Registering else s.worker,
       // Too many rejections in one report interval raise the flag as a signal does.
       gStop := s.gStop || (pc.Report? && ch.ok && ch.n == 0),
       unwinding := s.unwinding || (ControlGoes(l, s, ch).RequestStop? && !(pc.StopRedirect? && ch.ok)),
       activated := s.activated || (pc.Activate? && !s.gStop) || pc.RunCallback?,
       stopRequested := s.stopRequested || pc.RequestStop?,
       loader := (s.loader || (pc.CreateLoader? && ch.ok)) && !pc.DestroyLoader?)
  }

  // ---------------------------------------------------------------- the worker

  /** Removing the stop callback waits for a call of it that is under way. */
  predicate WorkerEnabled(s: State) {
    match s.worker
    case Absent => false
    case WaitActivated => s.activated
    case Deregistering => !s.control.RunCallback?
    case Finished => false
    case _ => true
  }

  /** One step of a receive pass; after the last the worker looks at the stop token again. */
  function WorkNext(l: Limits, w: Work, ch: Choice): WorkerPc {
    match w
    case Receiving(left) => Pass(if left > 0 then Receiving(left - 1) else Committing)
    case Committing =>
      var n := AtMost(ch.n, l.cqCap);
      Pass(if ch.ok then Reaping(n, l.cqCap - n) else CheckingFill)
    case Reaping(left, budget) =>
      Pass(if left > 0 then Reaping(left - 1, budget) else if ch.ok then Kicking(budget) else CheckingFill)
    case Kicking(budget) => Pass(ReapingMore(AtMost(ch.n, budget)))
    case ReapingMore(left) => Pass(if left > 0 then ReapingMore(left - 1) else CheckingFill)
    case CheckingFill => Pass(if ch.ok then Refilling(AtMost(ch.n, l.fillCap)) else Waking)
    case Refilling(left) => Pass(if left > 0 then Refilling(left - 1) else Waking)
    case Waking => CheckStop
  }

  /** Where the worker goes next. */
  function WorkerGoes(l: Limits, s: State, ch: Choice): WorkerPc {
    match s.worker
    case Absent => Absent
    case Registering => Preparing
    case Preparing => Announcing
    case Announcing => CheckStartup
    case CheckStartup => if s.startupOk then WaitActivated else Deregistering
    case WaitActivated => CheckStop
    case CheckStop => if s.stopRequested then Deregistering else Pass(Receiving(AtMost(ch.n, l.batch)))
    case Pass(work) => WorkNext(l, work, ch)
    case Deregistering => Finished
    case Finished => Finished
  }

  /** One step of the worker. Registering the stop callback runs it at once if stop was already
      requested. */
  function WorkerNext(l: Limits, s: State, ch: Choice): State {
    var pc := s.worker;
    s.(worker := WorkerGoes(l, s, ch),
       activated := s.activated || (pc.Registering? && s.stopRequested),
       registered := (s.registered || (pc.Registering? && !s.stopRequested)) && !pc.Deregistering?,
       startupOk := if pc.Preparing? then ch.ok else s.startupOk,
       prepared := s.prepared || pc.Announcing?)
  }

  // ---------------------------------------------------------------- runs

  datatype Actor = Control | Worker | Signal

  ghost predicate StepBy(l: Limits, a: Actor, s: State, s': State) {
    match a
    case Control => ControlEnabled(s) && exists ch :: s' == ControlNext(l, s, ch)
    case Worker => WorkerEnabled(s) && exists ch :: s' == WorkerNext(l, s, ch)
    case Signal => !s.gStop && s' == s.(gStop := true)
  }

  ghost predicate Step(l: Limits, s: State, s': State) {
    exists a :: StepBy(l, a, s, s')
  }

  /** A signal may have arrived before any of this; `startup` starts out as a failure. */
  predicate Initial(s: State) {
    s == State(Setup, Absent, s.gStop, false, false, false, false, false, false, false)
  }

  ghost predicate IsRun(l: Limits, run: seq<State>) {
    && |run| > 0 && Initial(run[0])
    && forall i: nat {:trigger StepAt(l, run, i)} :: i + 1 < |run| ==> StepAt(l, run, i)
  }

  ghost predicate StepAt(l: Limits, run: seq<State>, i: nat)
    requires i + 1 < |run|
  {
    Step(l, run[i], run[i + 1])
  }

  // ---------------------------------------------------------------- the invariant

  predicate BeforeStop(pc: ControlPc) {
    || pc.Setup? || pc.WaitPrepared? || pc.CheckSignal? || pc.ReadStartup? || pc.CreateLoader? || pc.Activate?
    || pc.Announce? || pc.Poll? || pc.Report? || pc.StopRedirect? || pc.RequestStop?
  }

  predicate AfterJoin(pc: ControlPc) {
    pc.Drain? || pc.Detach? || pc.DestroyLoader? || pc.DestroyRings? || pc.Done?
  }

  predicate Unprepared(pc: WorkerPc) {
    pc.Absent? || pc.Registering? || pc.Preparing? || pc.Announcing?
  }

  /** How far each thread can be, given the other. */
  predicate InStep(s: State) {
    && (s.worker.Absent? ==> s.control.Setup? || s.control.DestroyRings? || s.control.Done?)
    && (s.control.Setup? ==> s.worker.Absent?)
    && (s.prepared <==> !Unprepared(s.worker))
    && (Unprepared(s.worker) && !s.worker.Absent? ==> s.control.WaitPrepared?)
    && (AfterJoin(s.control) ==> s.worker.Finished? || s.worker.Absent?)
    && (!s.worker.Absent? ==> (s.stopRequested <==> !BeforeStop(s.control)))
    && (s.worker.Absent? ==> !s.stopRequested)
    && (s.unwinding ==> s.control.RequestStop? || !BeforeStop(s.control))
  }

  /** The callback is there to be found until the worker leaves, and a worker still waiting for
      activation after that is not waiting in vain. */
  predicate Unblocked(s: State) {
    && (s.registered <==> !s.worker.Absent? && !s.worker.Registering? && !s.worker.Finished?)
    && (s.registered && s.stopRequested && !s.control.FindCallback? && !s.control.RunCallback? ==> s.activated)
    && (s.worker.CheckStop? || s.worker.Pass? ==> s.activated)
  }

  predicate Attached(pc: ControlPc) {
    pc.Activate? || pc.Announce? || pc.Poll? || pc.Report? || pc.StopRedirect? || pc.Drain? || pc.Detach?
  }

  predicate Stopping(pc: ControlPc) {
    pc.RequestStop? || pc.FindCallback? || pc.RunCallback? || pc.Join?
  }

  predicate Unloaded(pc: ControlPc) {
    || pc.Setup? || pc.WaitPrepared? || pc.CheckSignal? || pc.ReadStartup? || pc.CreateLoader?
    || pc.DestroyRings? || pc.Done?
  }

  /** Activation without a stop request comes from control, after the loader; the loader outlives
      the worker. */
  predicate LoaderFirst(s: State) {
    && (s.activated && !s.stopRequested ==>
          s.loader && (s.control.Announce? || s.control.Poll? || s.control.Report?
                       || s.control.StopRedirect? || s.control.RequestStop?))
    && (s.worker.Pass? ==> s.loader)
    && (s.worker.WaitActivated? || s.worker.CheckStop? || s.worker.Pass? ==> s.startupOk)
    && (Attached(s.control) || (!s.unwinding && Stopping(s.control)) ==> s.loader)
    && (Unloaded(s.control) ==> !s.loader)
  }

  /** Control that got past activation without a signal has activated the worker; control goes on
      only after a good preparation; and it drains only when it did not leave early. */
  predicate Activation(s: State) {
    && ((s.control.Announce? || s.control.Poll? || s.control.Report? || s.control.StopRedirect?) && !s.gStop ==> s.activated)
    && (s.loader || s.control.CreateLoader? || Attached(s.control) ==> s.startupOk && s.prepared)
    && (s.control.Drain? || s.control.Detach? ==> !s.unwinding && s.worker.Finished?)
    && (s.control.DestroyLoader? ==> s.worker.Finished?)
  }

  predicate WorkFits(l: Limits, w: Work) {
    match w
    case Receiving(left) => left <= l.batch
    case Reaping(left, budget) => left + budget <= l.cqCap
    case Kicking(budget) => budget <= l.cqCap
    case ReapingMore(left) => left <= l.cqCap
    case Refilling(left) => left <= l.fillCap
    case _ => true
  }

  predicate WithinLimits(l: Limits, s: State) {
    && (s.control.Drain? ==> s.control.passes <= l.drainPasses)
    && (s.worker.Pass? ==> WorkFits(l, s.worker.work))
  }

  predicate Inv(l: Limits, s: State) {
    InStep(s) && Unblocked(s) && LoaderFirst(s) && Activation(s) && WithinLimits(l, s)
  }

  lemma ControlKeepsPlaces(l: Limits, s: State, ch: Choice)
    requires InStep(s) && Unblocked(s) && ControlEnabled(s)
    ensures InStep(ControlNext(l, s, ch)) && Unblocked(ControlNext(l, s, ch))
  {
  }

  lemma ControlKeepsLoader(l: Limits, s: State, ch: Choice)
    requires InStep(s) && LoaderFirst(s) && WithinLimits(l, s) && ControlEnabled(s)
    ensures LoaderFirst(ControlNext(l, s, ch)) && WithinLimits(l, ControlNext(l, s, ch))
  {
  }

  lemma ControlKeepsActivation(l: Limits, s: State, ch: Choice)
    requires InStep(s) && LoaderFirst(s) && Activation(s) && ControlEnabled(s)
    ensures Activation(ControlNext(l, s, ch))
  {
  }

  lemma ControlKeeps(l: Limits, s: State, ch: Choice)
    requires Inv(l, s) && ControlEnabled(s)
    ensures Inv(l, ControlNext(l, s, ch))
  {
    ControlKeepsPlaces(l, s, ch);
    ControlKeepsLoader(l, s, ch);
    ControlKeepsActivation(l, s, ch);
  }

  lemma WorkerKeepsPlaces(l: Limits, s: State, ch: Choice)
    requires InStep(s) && Unblocked(s) && WithinLimits(l, s) && WorkerEnabled(s)
    ensures var s' := WorkerNext(l, s, ch);
            InStep(s') && Unblocked(s') && WithinLimits(l, s')
  {
  }

  lemma WorkerKeeps(l: Limits, s: State, ch: Choice)
    requires Inv(l, s) && WorkerEnabled(s)
    ensures Inv(l, WorkerNext(l, s, ch))
  {
    WorkerKeepsPlaces(l, s, ch);
  }

  lemma SignalKeeps(l: Limits, s: State)
    requires Inv(l, s)
    ensures Inv(l, s.(gStop := true))
  {
  }

  lemma StepKeeps(l: Limits, s: State, s': State)
    requires Inv(l, s) && Step(l, s, s')
    ensures Inv(l, s')
  {
    var a :| StepBy(l, a, s, s');
    match a
    case Control =>
      var ch :| s' == ControlNext(l, s, ch);
      ControlKeeps(l, s, ch);
    case Worker =>
      var ch :| s' == WorkerNext(l, s, ch);
      WorkerKeeps(l, s, ch);
    case Signal =>
      SignalKeeps(l, s);
  }

  lemma {:induction false} RunInv(l: Limits, run: seq<State>, i: nat)
    requires IsRun(l, run) && i < |run|
    ensures Inv(l, run[i])
  {
    if i > 0 {
      RunInv(l, run, i - 1);
      assert StepAt(l, run, i - 1);
      StepKeeps(l, run[i - 1], run[i]);
    }
  }

  // ---------------------------------------------------------------- safety

  /** Control works on the rings before it starts the worker, while draining and when it
      destroys them. */
  predicate ControlOwns(s: State) {
    s.control.Setup? || s.control.Drain? || s.control.DestroyRings?
  }

  predicate WorkerOwns(s: State) {
    s.worker.Pass?
  }

  /** The two threads never both use the rings, nor do they meet at `startup`; a pass has its
      loader; draining, and destroying the loader, wait for the worker to be gone. */
  lemma SoleOwner(l: Limits, run: seq<State>, i: nat)
    requires IsRun(l, run) && i < |run|
    ensures !(ControlOwns(run[i]) && WorkerOwns(run[i]))
    ensures run[i].control.ReadStartup? ==> run[i].prepared && !run[i].worker.Preparing?
    ensures WorkerOwns(run[i]) ==> run[i].loader && run[i].startupOk
    ensures run[i].control.Drain? || run[i].control.DestroyLoader? ==> run[i].worker.Finished?
  {
    RunInv(l, run, i);
  }

  /** The uses of the rings, in the order they begin. */
  datatype Section = SetupRings | ReceivePass | TxDrain | Teardown

  /** What control begins by moving on. */
  ghost function ControlBegins(pc: ControlPc, pc': ControlPc): seq<Section> {
    if !pc.Drain? && pc'.Drain? then [TxDrain]
    else if !pc.DestroyRings? && pc'.DestroyRings? then [Teardown]
    else []
  }

  ghost function Begun(s: State, s': State): seq<Section> {
    if !s.worker.Pass? && s'.worker.Pass? then [ReceivePass] else ControlBegins(s.control, s'.control)
  }

  /** The sections begun up to state n of a run. */
  ghost function Sections(run: seq<State>, n: nat): seq<Section>
    requires n < |run|
  {
    if n == 0 then [SetupRings] else Sections(run, n - 1) + Begun(run[n - 1], run[n])
  }

  /** What follows the passes, by how far control has come: a drain exactly if there was a worker
      and control did not leave early, then the teardown. */
  ghost function TailOf(s: State): seq<Section> {
    if !AfterJoin(s.control) then []
    else if s.control.Drain? || s.control.Detach? then [TxDrain]
    else
      (if s.unwinding || s.worker.Absent? then [] else [TxDrain])
      + if s.control.DestroyLoader? then [] else [Teardown]
  }

  ghost function Uses(k: nat): seq<Section> {
    [SetupRings] + seq(k, _ => ReceivePass)
  }

  /** In every interleaving the rings are used as a sequential program would: set up, k receive
      passes, then the drain unless control left early, then the teardown. */
  lemma {:induction false} SequentialUse(l: Limits, run: seq<State>, n: nat) returns (k: nat)
    requires IsRun(l, run) && n < |run|
    ensures Sections(run, n) == Uses(k) + TailOf(run[n])
  {
    if n == 0 {
      k := 0;
      assert Initial(run[0]);
    } else {
      k := SequentialUse(l, run, n - 1);
      SectionAt(l, run, n);
      var k', _ := UsesGrow(k, TailOf(run[n - 1]), Begun(run[n - 1], run[n]));
      k := k';
    }
  }

  lemma UsesGrow(k: nat, tail: seq<Section>, b: seq<Section>) returns (k': nat, tail': seq<Section>)
    requires b == [ReceivePass] ==> tail == []
    ensures (Uses(k) + tail) + b == Uses(k') + tail'
    ensures tail' == if b == [ReceivePass] then [] else tail + b
  {
    if b == [ReceivePass] {
      assert Uses(k) + [] + b == Uses(k + 1) + [];
      k', tail' := k + 1, [];
    } else {
      assert (Uses(k) + tail) + b == Uses(k) + (tail + b);
      k', tail' := k, tail + b;
    }
  }

  /** What begins with a step goes with what has begun before. */
  ghost predicate SectionFits(s: State, s': State) {
    if Begun(s, s') == [ReceivePass] then TailOf(s) == TailOf(s') == []
    else TailOf(s') == TailOf(s) + Begun(s, s')
  }

  lemma SectionAt(l: Limits, run: seq<State>, n: nat)
    requires IsRun(l, run) && 0 < n < |run|
    ensures SectionFits(run[n - 1], run[n])
  {
    RunInv(l, run, n - 1);
    assert StepAt(l, run, n - 1);
    NextSection(l, run[n - 1], run[n]);
  }

  lemma NextSection(l: Limits, s: State, s': State)
    requires Inv(l, s) && Step(l, s, s')
    ensures SectionFits(s, s')
  {
    var a :| StepBy(l, a, s, s');
    match a
    case Control =>
      var ch :| s' == ControlNext(l, s, ch);
      ControlSection(l, s, ch);
    case Worker =>
      var ch :| s' == WorkerNext(l, s, ch);
      WorkerSection(l, s, ch);
    case Signal =>
      assert TailOf(s) + Begun(s, s') == TailOf(s);
  }

  lemma WorkerSection(l: Limits, s: State, ch: Choice)
    requires Inv(l, s) && WorkerEnabled(s)
    ensures SectionFits(s, WorkerNext(l, s, ch))
  {
    assert TailOf(s) + [] == TailOf(s);
  }

  /** The moves of control that matter to the tail. */
  ghost predicate GoesOn(s: State, s': State) {
    && (!s.control.Setup? ==> s'.worker.Absent? == s.worker.Absent?)
    && (Stopping(s.control) && !s.control.RequestStop? ==> s'.unwinding == s.unwinding)
    && (AfterJoin(s.control) ==> s'.unwinding == s.unwinding)
    && match s.control
       case Setup => !AfterJoin(s'.control) || (s'.control.DestroyRings? && s'.worker.Absent?)
       case Join => if s.unwinding then s'.control.DestroyLoader? else s'.control.Drain?
       case Drain(_) => s'.control.Drain? || s'.control.Detach?
       case Detach => s'.control.DestroyLoader?
       case DestroyLoader => s'.control.DestroyRings?
       case DestroyRings => s'.control.Done?
       case _ => !AfterJoin(s'.control)
  }

  lemma ControlGoesOn(l: Limits, s: State, ch: Choice)
    requires Inv(l, s) && ControlEnabled(s)
    ensures GoesOn(s, ControlNext(l, s, ch)) && (s.worker.Pass? || !ControlNext(l, s, ch).worker.Pass?)
  {
  }

  lemma ControlSection(l: Limits, s: State, ch: Choice)
    requires Inv(l, s) && ControlEnabled(s)
    ensures SectionFits(s, ControlNext(l, s, ch))
  {
    ControlGoesOn(l, s, ch);
    TailGrows(l, s, ControlNext(l, s, ch));
  }

  lemma TailGrows(l: Limits, s: State, s': State)
    requires InStep(s) && Activation(s) && GoesOn(s, s') && !s.control.Done?
    ensures TailOf(s') == TailOf(s) + ControlBegins(s.control, s'.control)
  {
    if AfterJoin(s.control) {
      LateTailGrows(s, s');
    } else {
      EarlyTailGrows(s, s');
    }
  }

  lemma EarlyTailGrows(s: State, s': State)
    requires InStep(s) && GoesOn(s, s') && !AfterJoin(s.control)
    ensures TailOf(s') == TailOf(s) + ControlBegins(s.control, s'.control)
  {
    assert [] + [TxDrain] == [TxDrain] && [] + [Teardown] == [Teardown];
  }

  lemma LateTailGrows(s: State, s': State)
    requires Activation(s) && GoesOn(s, s') && !s.control.Done? && AfterJoin(s.control)
    ensures TailOf(s') == TailOf(s) + ControlBegins(s.control, s'.control)
  {
    assert TailOf(s) + [] == TailOf(s);
    assert [TxDrain] + [Teardown] == [TxDrain, Teardown] && [TxDrain] + [] == [TxDrain] && [] + [Teardown] == [Teardown];
  }

  /** Control that went past activation with no signal pending has activated the worker, so that
      it polls; and a failed preparation means no loader. */
  lemma Activated(l: Limits, run: seq<State>, i: nat)
    requires IsRun(l, run) && i < |run|
    ensures (run[i].control.Announce? || run[i].control.Poll? || run[i].control.Report?) && !run[i].gStop ==> run[i].activated
    ensures run[i].activated && run[i].worker.WaitActivated? ==> WorkerEnabled(run[i])
    ensures run[i].prepared && !run[i].startupOk ==> !run[i].loader
  {
    RunInv(l, run, i);
  }

  // ---------------------------------------------------------------- signals during the start

  predicate NotYetActivating(pc: ControlPc) {
    pc.Setup? || pc.WaitPrepared? || pc.CheckSignal? || pc.ReadStartup? || pc.CreateLoader? || pc.Activate?
  }

  /** No pass, and nothing that could begin one. */
  predicate Quiet(s: State) {
    s.gStop && !s.worker.Pass? && (s.activated ==> s.stopRequested)
  }

  lemma QuietStays(l: Limits, s: State, s': State)
    requires Inv(l, s) && Quiet(s) && Step(l, s, s')
    ensures Quiet(s')
  {
    PassStarts(l, s, s');
    var a :| StepBy(l, a, s, s');
  }

  /** A signal before activation means that no frame is ever received. */
  lemma {:induction false} SignalBeforeActivation(l: Limits, run: seq<State>, i: nat, j: nat)
    requires IsRun(l, run) && i <= j < |run| && run[i].gStop && NotYetActivating(run[i].control)
    ensures Quiet(run[j])
    decreases j
  {
    if i == j {
      RunInv(l, run, i);
    } else {
      SignalBeforeActivation(l, run, i, j - 1);
      RunInv(l, run, j - 1);
      assert StepAt(l, run, j - 1);
      QuietStays(l, run[j - 1], run[j]);
    }
  }

  /** No loader, and control will not create one. */
  predicate Unattached(s: State) {
    && s.gStop && !s.loader
    && (s.control.Setup? || s.control.WaitPrepared? || s.control.CheckSignal? || s.unwinding
        || s.control.DestroyRings? || s.control.Done?)
  }

  lemma UnattachedStays(l: Limits, s: State, s': State)
    requires Inv(l, s) && Unattached(s) && Step(l, s, s')
    ensures Unattached(s')
  {
    var a :| StepBy(l, a, s, s');
  }

  /** A signal before control looks for one means that redirection never starts. */
  lemma {:induction false} SignalBeforeLoader(l: Limits, run: seq<State>, i: nat, j: nat)
    requires IsRun(l, run) && i <= j < |run| && run[i].gStop
    requires run[i].control.Setup? || run[i].control.WaitPrepared? || run[i].control.CheckSignal?
    ensures Unattached(run[j])
    decreases j
  {
    if i == j {
      RunInv(l, run, i);
    } else {
      SignalBeforeLoader(l, run, i, j - 1);
      RunInv(l, run, j - 1);
      assert StepAt(l, run, j - 1);
      UnattachedStays(l, run[j - 1], run[j]);
    }
  }

  /** A pass begins only activated by control, with the loader in place and no stop requested. */
  lemma PassNeedsActivation(l: Limits, run: seq<State>, i: nat)
    requires IsRun(l, run) && i + 1 < |run| && !run[i].worker.Pass? && run[i + 1].worker.Pass?
    ensures run[i].loader && run[i].activated && !run[i].stopRequested && run[i].startupOk
  {
    RunInv(l, run, i);
    assert StepAt(l, run, i);
    PassStarts(l, run[i], run[i + 1]);
  }

  lemma PassStarts(l: Limits, s: State, s': State)
    requires Step(l, s, s')
    ensures !s.worker.Pass? && s'.worker.Pass? ==> s.worker.CheckStop? && !s.stopRequested
  {
    var a :| StepBy(l, a, s, s');
    match a
    case Control =>
      var ch :| s' == ControlNext(l, s, ch);
      ControlStartsNoPass(l, s, ch);
    case Worker =>
      var ch :| s' == WorkerNext(l, s, ch);
      WorkerStartsPass(l, s, ch);
    case Signal =>
  }

  lemma ControlStartsNoPass(l: Limits, s: State, ch: Choice)
    ensures ControlNext(l, s, ch).worker == s.worker || ControlNext(l, s, ch).worker == Registering
  {
  }

  lemma WorkerStartsPass(l: Limits, s: State, ch: Choice)
    ensures !s.worker.Pass? && WorkerNext(l, s, ch).worker.Pass? ==> s.worker.CheckStop? && !s.stopRequested
  {
  }

  // ---------------------------------------------------------------- progress

  ghost predicate ThreadCanStep(s: State) {
    ControlEnabled(s) || WorkerEnabled(s)
  }

  /** No deadlock: only a finished program has no thread that can move; the worker is then gone
      and the loader with it. */
  lemma StuckMeansDone(l: Limits, run: seq<State>, i: nat)
    requires IsRun(l, run) && i < |run|
    ensures !ThreadCanStep(run[i]) <==> run[i].control.Done?
    ensures run[i].control.Done? ==> !run[i].loader && (run[i].worker.Finished? || run[i].worker.Absent?)
  {
    RunInv(l, run, i);
  }

  function WorkLeft(l: Limits, w: Work): nat {
    match w
    case Waking => 1
    case Refilling(left) => 2 + left
    case CheckingFill => 3 + l.fillCap
    case ReapingMore(left) => 4 + l.fillCap + left
    case Kicking(budget) => 5 + l.fillCap + budget
    case Reaping(left, budget) => 6 + l.fillCap + left + budget
    case Committing => 7 + l.fillCap + l.cqCap
    case Receiving(left) => 8 + l.fillCap + l.cqCap + left
  }

  /** Worker steps left once no further pass begins. */
  function WorkerLeft(l: Limits, pc: WorkerPc): nat {
    match pc
    case Absent => 8
    case Registering => 7
    case Preparing => 6
    case Announcing => 5
    case CheckStartup => 4
    case WaitActivated => 3
    case CheckStop => 2
    case Pass(work) => 2 + WorkLeft(l, work)
    case Deregistering => 1
    case Finished => 0
  }

  /** Control steps left once the signal is seen. */
  function ControlLeft(l: Limits, pc: ControlPc): nat {
    match pc
    case Done => 0
    case DestroyRings => 1
    case DestroyLoader => 2
    case Detach => 3
    case Drain(passes) => 4 + passes
    case Join => 5 + l.drainPasses
    case RunCallback => 6 + l.drainPasses
    case FindCallback => 7 + l.drainPasses
    case RequestStop => 8 + l.drainPasses
    case StopRedirect => 9 + l.drainPasses
    case Poll => 10 + l.drainPasses
    case Report => 11 + l.drainPasses
    case Announce => 12 + l.drainPasses
    case Activate => 13 + l.drainPasses
    case CreateLoader => 14 + l.drainPasses
    case ReadStartup => 15 + l.drainPasses
    case CheckSignal => 16 + l.drainPasses
    case WaitPrepared => 17 + l.drainPasses
    case Setup => 18 + l.drainPasses
  }

  function Left(l: Limits, s: State): nat {
    ControlLeft(l, s.control) + WorkerLeft(l, s.worker) + if s.gStop then 0 else 1
  }

  lemma WorkShrinks(l: Limits, w: Work, ch: Choice)
    requires WorkFits(l, w)
    ensures WorkerLeft(l, WorkNext(l, w, ch)) < 2 + WorkLeft(l, w)
  {
  }

  /** Every worker step but the start of a new pass brings the worker closer to its end. */
  lemma WorkerAdvances(l: Limits, s: State, s': State)
    requires Inv(l, s) && StepBy(l, Worker, s, s') && !(s.worker.CheckStop? && !s.stopRequested)
    ensures WorkerLeft(l, s'.worker) < WorkerLeft(l, s.worker) && s'.control == s.control
    ensures s'.stopRequested == s.stopRequested && s'.gStop == s.gStop
  {
    var ch :| s' == WorkerNext(l, s, ch);
    if s.worker.Pass? {
      WorkShrinks(l, s.worker.work, ch);
    }
  }

  /** Every control step but another turn of the reporting loop brings control closer to its. */
  lemma ControlAdvances(l: Limits, s: State, s': State)
    requires Inv(l, s) && StepBy(l, Control, s, s') && !(s.control.Poll? && !s.gStop)
    ensures ControlLeft(l, s'.control) < ControlLeft(l, s.control)
    ensures !s.control.Setup? ==> s'.worker == s.worker
    ensures (s.stopRequested ==> s'.stopRequested) && (s.gStop ==> s'.gStop) && (s.unwinding ==> s'.unwinding)
  {
    var ch :| s' == ControlNext(l, s, ch);
    ControlGoesDown(l, s, ch);
  }

  lemma ControlGoesDown(l: Limits, s: State, ch: Choice)
    requires ControlEnabled(s) && !(s.control.Poll? && !s.gStop)
    ensures ControlLeft(l, ControlGoes(l, s, ch)) < ControlLeft(l, s.control)
  {
  }

  /** After a stop request every step of anyone is one step closer to the end. */
  lemma StopAdvances(l: Limits, s: State, s': State)
    requires Inv(l, s) && s.stopRequested && Step(l, s, s')
    ensures s'.stopRequested && Left(l, s') < Left(l, s)
  {
    var a :| StepBy(l, a, s, s');
    match a
    case Control => ControlAdvances(l, s, s');
    case Worker => WorkerAdvances(l, s, s');
    case Signal =>
  }

  /** From a stop request on, whatever the interleaving, the rest of the run is at most one
      batch, one CQ, one FILL ring and one drain long. */
  lemma StopBoundsRun(l: Limits, run: seq<State>, i: nat, j: nat)
    requires IsRun(l, run) && i <= j < |run| && run[i].stopRequested
    ensures j - i <= Left(l, run[i]) <= l.batch + l.cqCap + l.fillCap + l.drainPasses + 18
  {
    RunInv(l, run, i);
    LeftShrinks(l, run, i, j);
  }

  lemma {:induction false} LeftShrinks(l: Limits, run: seq<State>, i: nat, j: nat)
    requires IsRun(l, run) && i <= j < |run| && run[i].stopRequested
    ensures run[j].stopRequested && Left(l, run[j]) + (j - i) <= Left(l, run[i])
    decreases j
  {
    if i < j {
      LeftShrinks(l, run, i, j - 1);
      RunInv(l, run, j - 1);
      assert StepAt(l, run, j - 1);
      StopAdvances(l, run[j - 1], run[j]);
    }
  }

  /** Control is on its way out: signalled, or past the decision to leave. */
  predicate Leaving(s: State) {
    s.gStop || s.unwinding || s.stopRequested
  }

  /** On the way out, control only moves towards its end, whoever steps. */
  lemma LeavingAdvances(l: Limits, s: State, s': State)
    requires Inv(l, s) && Leaving(s) && Step(l, s, s')
    ensures Leaving(s')
    ensures s'.control == s.control || ControlLeft(l, s'.control) < ControlLeft(l, s.control)
  {
    var a :| StepBy(l, a, s, s');
    if a.Control? {
      ControlAdvances(l, s, s');
    }
  }

  /** How often control moved between two states of a run. */
  ghost function ControlMoves(run: seq<State>, i: nat, j: nat): nat
    requires i <= j < |run|
    decreases j
  {
    if i == j then 0
    else ControlMoves(run, i, j - 1) + if run[j].control != run[j - 1].control then 1 else 0
  }

  /** Signal, failed preparation, failed loader, exception: from there on control has a bounded
      number of moves left to the end of the program, whatever the worker does. */
  lemma {:induction false} LeavingBoundsControl(l: Limits, run: seq<State>, i: nat, j: nat)
    requires IsRun(l, run) && i <= j < |run| && Leaving(run[i])
    ensures Leaving(run[j]) && ControlMoves(run, i, j) + ControlLeft(l, run[j].control) <= ControlLeft(l, run[i].control)
    decreases j
  {
    if i < j {
      LeavingBoundsControl(l, run, i, j - 1);
      RunInv(l, run, j - 1);
      assert StepAt(l, run, j - 1);
      LeavingAdvances(l, run[j - 1], run[j]);
    }
  }

  /** Worker steps left, and one for a signal still to come. */
  function WaitLeft(l: Limits, s: State): nat {
    WorkerLeft(l, s.worker) + if s.gStop then 0 else 1
  }

  function LongestWait(l: Limits): nat {
    11 + l.fillCap + l.cqCap + l.batch
  }

  /** Whenever control has to wait, the worker can move, and any step ends part of the wait. */
  lemma WaitIsBounded(l: Limits, run: seq<State>, i: nat)
    requires IsRun(l, run) && i < |run| && !ControlEnabled(run[i])
    ensures WorkerEnabled(run[i]) || run[i].control.Done?
    ensures WaitLeft(l, run[i]) <= LongestWait(l)
    ensures i + 1 < |run| ==> WaitLeft(l, run[i + 1]) < WaitLeft(l, run[i])
  {
    RunInv(l, run, i);
    if i + 1 < |run| {
      assert StepAt(l, run, i);
      var a :| StepBy(l, a, run[i], run[i + 1]);
      if a.Worker? {
        WorkerAdvances(l, run[i], run[i + 1]);
      }
    }
  }

  /** The wait ends at m: control can move, or the stretch is over. */
  lemma {:induction false} WaitEnds(l: Limits, run: seq<State>, i: nat, j: nat) returns (m: nat)
    requires IsRun(l, run) && i <= j < |run|
    ensures i <= m <= j && m - i <= WaitLeft(l, run[i]) && (ControlEnabled(run[m]) || m == j)
    decreases j - i
  {
    m := i;
    if !ControlEnabled(run[i]) && i < j {
      WaitIsBounded(l, run, i);
      m := WaitEnds(l, run, i + 1, j);
    }
  }

  lemma {:induction false} MovesSplit(run: seq<State>, i: nat, m: nat, j: nat)
    requires i <= m <= j < |run|
    ensures ControlMoves(run, i, j) == ControlMoves(run, i, m) + ControlMoves(run, m, j)
    decreases j
  {
    if m < j {
      MovesSplit(run, i, m, j - 1);
    }
  }

  /** A scheduler that does not put off control for ever: able to move, it does so within k steps. */
  ghost predicate Fair(run: seq<State>, k: nat) {
    forall i: nat, j: nat {:trigger ControlMoves(run, i, j)} ::
      i + k <= j < |run| && ControlEnabled(run[i]) ==> ControlMoves(run, i, j) > 0
  }

  lemma StretchBound(l: Limits, run: seq<State>, k: nat, i: nat, j: nat)
    requires IsRun(l, run) && Fair(run, k) && i <= j < |run| && ControlMoves(run, i, j) == 0
    ensures j - i <= LongestWait(l) + k
  {
    var m := WaitEnds(l, run, i, j);
    if !ControlEnabled(run[i]) {
      WaitIsBounded(l, run, i);
    }
    MovesSplit(run, i, m, j);
  }

  lemma {:induction false} FairStretches(l: Limits, run: seq<State>, k: nat, i: nat, j: nat)
    requires IsRun(l, run) && Fair(run, k) && i <= j < |run|
    ensures j - i < (ControlMoves(run, i, j) + 1) * (LongestWait(l) + k + 1)
    decreases j
  {
    if ControlMoves(run, i, j) == 0 {
      StretchBound(l, run, k, i, j);
    } else {
      var p := LastMove(run, i, j);
      FairStretches(l, run, k, i, p - 1);
      StretchBound(l, run, k, p, j);
      Distribute(ControlMoves(run, i, j), LongestWait(l) + k + 1);
    }
  }

  lemma Distribute(a: nat, c: nat)
    ensures (a + 1) * c == a * c + c
  {
  }

  lemma {:induction false} LastMove(run: seq<State>, i: nat, j: nat) returns (p: nat)
    requires i <= j < |run| && ControlMoves(run, i, j) > 0
    ensures i < p <= j && ControlMoves(run, p, j) == 0 && ControlMoves(run, i, p - 1) + 1 == ControlMoves(run, i, j)
    decreases j
  {
    if run[j].control != run[j - 1].control {
      p := j;
    } else {
      p := LastMove(run, i, j - 1);
    }
  }

  /** Signal, failed preparation, failed loader, exception, stop before activation: once control
      is on its way out, every fair run is over within a fixed number of steps. (What ends it is
      StuckMeansDone: a run that cannot go on is at Done.) */
  lemma FairRunsEnd(l: Limits, run: seq<State>, k: nat, i: nat)
    requires IsRun(l, run) && Fair(run, k) && i < |run| && Leaving(run[i])
    ensures |run| - 1 - i < (ControlLeft(l, run[i].control) + 1) * (LongestWait(l) + k + 1)
  {
    var j := |run| - 1;
    FairStretches(l, run, k, i, j);
    LeavingBoundsControl(l, run, i, j);
    MulGrows(ControlMoves(run, i, j) + 1, ControlLeft(l, run[i].control) + 1, LongestWait(l) + k + 1);
  }

  lemma MulGrows(a: nat, b: nat, c: nat)
    requires a <= b
    ensures a * c <= b * c
  {
  }

  // ---------------------------------------------------------------- what one pass may do

  /** Loop turns: frames handled, completions reclaimed before the kick and after it, FILL entries
      written. */
  datatype Turns = Turns(frames: int, reaped: int, more: int, pushed: int)

  /** What is left of t after a step. */
  function Less(t: Turns, w: Work): Turns {
    match w
    case Receiving(left) => t.(frames := t.frames - if left > 0 then 1 else 0)
    case Reaping(left, _) => t.(reaped := t.reaped - if left > 0 then 1 else 0)
    case ReapingMore(left) => t.(more := t.more - if left > 0 then 1 else 0)
    case Refilling(left) => t.(pushed := t.pushed - if left > 0 then 1 else 0)
    case _ => t
  }

  /** The worker can go through these steps to the next stop check, making these turns. */
  ghost predicate Continues(l: Limits, steps: seq<WorkerPc>, t: Turns) {
    && |steps| > 0
    && if |steps| == 1 then steps[0].CheckStop? && t == Turns(0, 0, 0, 0)
       else
         && steps[0].Pass? && (exists ch :: steps[1] == WorkNext(l, steps[0].work, ch))
         && Continues(l, steps[1..], Less(t, steps[0].work))
  }

  /** A whole pass: from the stop check that begins it to the next one. */
  ghost predicate IsPass(l: Limits, steps: seq<WorkerPc>, t: Turns) {
    && Continues(l, steps, t)
    && exists n: nat :: steps[0] == Pass(Receiving(AtMost(n, l.batch)))
  }

  lemma OneMoreStep(l: Limits, w: Work, rest: seq<WorkerPc>, ch: Choice, t: Turns)
    requires Continues(l, rest, Less(t, w)) && rest[0] == WorkNext(l, w, ch)
    ensures Continues(l, [Pass(w)] + rest, t)
  {
    var steps := [Pass(w)] + rest;
    assert steps[1..] == rest && steps[1] == WorkNext(l, w, ch);
  }

  lemma {:induction false} RefillSteps(l: Limits, n: nat) returns (steps: seq<WorkerPc>)
    ensures Continues(l, steps, Turns(0, 0, 0, n)) && steps[0] == Pass(Refilling(n)) && |steps| == n + 3
  {
    if n == 0 {
      steps := [CheckStop];
      OneMoreStep(l, Waking, steps, Choice(true, 0), Turns(0, 0, 0, 0));
      steps := [Pass(Waking)] + steps;
    } else {
      steps := RefillSteps(l, n - 1);
    }
    OneMoreStep(l, Refilling(n), steps, Choice(true, 0), Turns(0, 0, 0, n));
    steps := [Pass(Refilling(n))] + steps;
  }

  lemma {:induction false} MoreSteps(l: Limits, n: nat, pushed: nat) returns (steps: seq<WorkerPc>)
    requires pushed <= l.fillCap
    ensures Continues(l, steps, Turns(0, 0, n, pushed)) && steps[0] == Pass(ReapingMore(n)) && |steps| == n + pushed + 5
  {
    if n == 0 {
      steps := RefillSteps(l, pushed);
      OneMoreStep(l, CheckingFill, steps, Choice(true, pushed), Turns(0, 0, 0, pushed));
      steps := [Pass(CheckingFill)] + steps;
    } else {
      steps := MoreSteps(l, n - 1, pushed);
    }
    OneMoreStep(l, ReapingMore(n), steps, Choice(true, 0), Turns(0, 0, n, pushed));
    steps := [Pass(ReapingMore(n))] + steps;
  }

  lemma {:induction false} ReapSteps(l: Limits, n: nat, budget: nat, more: nat, pushed: nat) returns (steps: seq<WorkerPc>)
    requires more <= budget && pushed <= l.fillCap
    ensures Continues(l, steps, Turns(0, n, more, pushed)) && steps[0] == Pass(Reaping(n, budget))
    ensures |steps| == n + more + pushed + 7
  {
    if n == 0 {
      steps := MoreSteps(l, more, pushed);
      OneMoreStep(l, Kicking(budget), steps, Choice(true, more), Turns(0, 0, more, pushed));
      steps := [Pass(Kicking(budget))] + steps;
    } else {
      steps := ReapSteps(l, n - 1, budget, more, pushed);
    }
    OneMoreStep(l, Reaping(n, budget), steps, Choice(true, 0), Turns(0, n, more, pushed));
    steps := [Pass(Reaping(n, budget))] + steps;
  }

  lemma {:induction false} HandleSteps(l: Limits, t: Turns) returns (steps: seq<WorkerPc>)
    requires 0 <= t.frames && 0 <= t.reaped && 0 <= t.more && 0 <= t.pushed
    requires t.reaped + t.more <= l.cqCap && t.pushed <= l.fillCap
    ensures Continues(l, steps, t) && steps[0] == Pass(Receiving(t.frames))
    ensures |steps| == t.frames + t.reaped + t.more + t.pushed + 9
    decreases t.frames
  {
    if t.frames == 0 {
      steps := ReapSteps(l, t.reaped, l.cqCap - t.reaped, t.more, t.pushed);
      OneMoreStep(l, Committing, steps, Choice(true, t.reaped), t);
      steps := [Pass(Committing)] + steps;
    } else {
      steps := HandleSteps(l, t.(frames := t.frames - 1));
    }
    OneMoreStep(l, Receiving(t.frames), steps, Choice(true, 0), t);
    steps := [Pass(Receiving(t.frames))] + steps;
  }

  /** The limits cut nothing off: any numbers of turns within them make a pass. */
  lemma PassSteps(l: Limits, t: Turns) returns (steps: seq<WorkerPc>)
    requires 0 <= t.frames <= l.batch && 0 <= t.reaped && 0 <= t.more && t.reaped + t.more <= l.cqCap && 0 <= t.pushed <= l.fillCap
    ensures IsPass(l, steps, t) && |steps| <= LongestWait(l)
  {
    steps := HandleSteps(l, t);
    assert steps[0] == Pass(Receiving(AtMost(t.frames, l.batch)));
  }
}
