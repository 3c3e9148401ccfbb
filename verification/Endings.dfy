/** Runs of the handshake that do happen: any number of receive passes, and every way to end. */
module Endings {
  import opened Handshake

  ghost predicate Ends(l: Limits, run: seq<State>, s: State, sections: seq<Section>, n: nat) {
    IsRun(l, run) && n + 1 == |run| && run[n] == s && Sections(run, n) == sections
  }

  /** A run that has come to state s, having begun these sections. (The trigger keeps the run
      closed while it grows; Extend opens it.) */
  ghost predicate Reached(l: Limits, run: seq<State>, s: State, sections: seq<Section>) {
    |run| > 0 && forall n: nat {:trigger Ends(l, run, s, sections, n)} :: n + 1 == |run| ==> Ends(l, run, s, sections, n)
  }

  lemma {:induction false} SectionsKept(run: seq<State>, s: State, n: nat)
    requires n < |run|
    ensures Sections(run + [s], n) == Sections(run, n)
  {
    if n > 0 {
      SectionsKept(run, s, n - 1);
    }
  }

  lemma Extend(l: Limits, run: seq<State>, a: Actor, s: State, s': State, sections: seq<Section>)
    requires Reached(l, run, s, sections) && StepBy(l, a, s, s')
    ensures Reached(l, run + [s'], s', sections + Begun(s, s'))
  {
    var longer := run + [s'];
    assert Ends(l, run, s, sections, |run| - 1);
    forall i: nat | i + 1 < |longer|
      ensures StepAt(l, longer, i)
    {
      if i + 1 < |run| {
        assert StepAt(l, run, i);
      }
    }
    SectionsKept(run, s', |run| - 1);
  }

  /** One step of control that begins no section. */
  lemma ByControl(l: Limits, run: seq<State>, s: State, t: seq<Section>, ch: Choice) returns (run': seq<State>, s': State)
    requires Reached(l, run, s, t) && ControlEnabled(s) && Begun(s, ControlNext(l, s, ch)) == []
    ensures Reached(l, run', s', t) && s' == ControlNext(l, s, ch)
  {
    s' := ControlNext(l, s, ch);
    Extend(l, run, Control, s, s', t);
    run' := run + [s'];
    assert t + [] == t;
  }

  /** One step of the worker that begins no pass. */
  lemma ByWorker(l: Limits, run: seq<State>, s: State, t: seq<Section>, ch: Choice) returns (run': seq<State>, s': State)
    requires Reached(l, run, s, t) && WorkerEnabled(s) && Begun(s, WorkerNext(l, s, ch)) == []
    ensures Reached(l, run', s', t) && s' == WorkerNext(l, s, ch)
  {
    s' := WorkerNext(l, s, ch);
    Extend(l, run, Worker, s, s', t);
    run' := run + [s'];
    assert t + [] == t;
  }

  const Go: Choice := Choice(true, 1)
  const Fail: Choice := Choice(false, 0)

  // ---------------------------------------------------------------- the start

  ghost function Started(gStop: bool): State {
    State(Setup, Absent, gStop, false, false, false, false, false, false, false)
  }

  /** The worker has announced how its preparation went; control has seen it. */
  ghost function Prepared(ok: bool, gStop: bool): State {
    State(CheckSignal, CheckStartup, gStop, false, true, false, ok, false, true, false)
  }

  lemma Prepare(l: Limits, ok: bool, gStop: bool) returns (run: seq<State>)
    ensures Reached(l, run, Prepared(ok, gStop), [SetupRings])
  {
    var s, t := Started(gStop), [SetupRings];
    run := [s];
    assert Reached(l, run, s, t);
    run, s := ByControl(l, run, s, t, Go);
    run, s := ByWorker(l, run, s, t, Go);
    run, s := ByWorker(l, run, s, t, Choice(ok, 0));
    assert s == State(WaitPrepared, Announcing, gStop, false, false, false, ok, false, true, false);
    run, s := ByWorker(l, run, s, t, Go);
    run, s := ByControl(l, run, s, t, Go);
  }

  /** Control reports, the worker polls. */
  ghost function Running(): State {
    State(Poll, CheckStop, false, false, true, true, true, false, true, true)
  }

  lemma Begin(l: Limits) returns (run: seq<State>)
    ensures Reached(l, run, Running(), [SetupRings])
  {
    run := Prepare(l, true, false);
    var s, t := Prepared(true, false), [SetupRings];
    run, s := ByWorker(l, run, s, t, Go);
    run, s := ByControl(l, run, s, t, Go);
    run, s := ByControl(l, run, s, t, Go);
    run, s := ByControl(l, run, s, t, Go);
    assert s == State(Activate, WaitActivated, false, false, true, false, true, false, true, true);
    run, s := ByControl(l, run, s, t, Go);
    run, s := ByControl(l, run, s, t, Go);
    run, s := ByWorker(l, run, s, t, Go);
  }

  // ---------------------------------------------------------------- passes

  lemma OnePass(l: Limits, run: seq<State>, t: seq<Section>) returns (run': seq<State>)
    requires Reached(l, run, Running(), t)
    ensures Reached(l, run', Running(), t + [ReceivePass])
  {
    var s := WorkerNext(l, Running(), Fail);
    Extend(l, run, Worker, Running(), s, t);
    run' := run + [s];
    var t' := t + [ReceivePass];
    run', s := ByWorker(l, run', s, t', Fail);
    run', s := ByWorker(l, run', s, t', Fail);
    run', s := ByWorker(l, run', s, t', Fail);
    run', s := ByWorker(l, run', s, t', Fail);
  }

  lemma {:induction false} Passes(l: Limits, k: nat) returns (run: seq<State>)
    ensures Reached(l, run, Running(), Uses(k))
  {
    if k == 0 {
      run := Begin(l);
      assert Uses(0) == [SetupRings];
    } else {
      run := Passes(l, k - 1);
      run := OnePass(l, run, Uses(k - 1));
      assert Uses(k - 1) + [ReceivePass] == Uses(k);
    }
  }

  // ---------------------------------------------------------------- the endings

  /** The stop request and its callback. */
  lemma CallStop(l: Limits, run: seq<State>, s: State, t: seq<Section>) returns (run': seq<State>)
    requires Reached(l, run, s, t) && s.control == RequestStop && s.registered
    ensures Reached(l, run', s.(control := Join, stopRequested := true, activated := true), t)
  {
    var s' := s;
    run', s' := ByControl(l, run, s', t, Go);
    run', s' := ByControl(l, run', s', t, Go);
    run', s' := ByControl(l, run', s', t, Go);
  }

  ghost function Joined(s: State): State {
    s.(control := Join, worker := Finished, stopRequested := true, activated := true, registered := false)
  }

  /** A polling worker leaves at its next stop check. */
  lemma StopPolling(l: Limits, run: seq<State>, s: State, t: seq<Section>) returns (run': seq<State>)
    requires Reached(l, run, s, t) && s.control == RequestStop && s.worker == CheckStop && s.registered
    ensures Reached(l, run', Joined(s), t)
  {
    run' := CallStop(l, run, s, t);
    var s' := s.(control := Join, stopRequested := true, activated := true);
    run', s' := ByWorker(l, run', s', t, Go);
    run', s' := ByWorker(l, run', s', t, Go);
  }

  /** A worker that is not yet activated is woken by the stop callback and leaves as well. */
  lemma StopWaiting(l: Limits, run: seq<State>, s: State, t: seq<Section>) returns (run': seq<State>)
    requires Reached(l, run, s, t) && s.control == RequestStop && s.worker == CheckStartup && s.registered
    ensures Reached(l, run', Joined(s), t)
  {
    run' := CallStop(l, run, s, t);
    var s' := s.(control := Join, stopRequested := true, activated := true);
    run', s' := ByWorker(l, run', s', t, Go);
    if s.startupOk {
      run', s' := ByWorker(l, run', s', t, Go);
      run', s' := ByWorker(l, run', s', t, Go);
    }
    assert s' == s.(control := Join, worker := Deregistering, stopRequested := true, activated := true);
    run', s' := ByWorker(l, run', s', t, Go);
  }

  /** The last steps: loader, then rings. */
  lemma Destroy(l: Limits, run: seq<State>, s: State, t: seq<Section>) returns (run': seq<State>, s': State)
    requires Reached(l, run, s, t) && s.control == DestroyLoader && s.worker == Finished
    ensures Reached(l, run', s', t + [Teardown]) && s'.control == Done && s'.startupOk == s.startupOk
  {
    s' := ControlNext(l, s, Go);
    Extend(l, run, Control, s, s', t);
    run' := run + [s'];
    run', s' := ByControl(l, run', s', t + [Teardown], Go);
  }

  lemma LeaveEarly(l: Limits, run: seq<State>, s: State, t: seq<Section>) returns (run': seq<State>, s': State)
    requires Reached(l, run, s, t) && s.control == Join && s.worker == Finished && s.unwinding
    ensures Reached(l, run', s', t + [Teardown]) && s'.control == Done && s'.startupOk == s.startupOk
  {
    run', s' := ByControl(l, run, s, t, Go);
    run', s' := Destroy(l, run', s', t);
  }

  lemma EndDrain(l: Limits, run: seq<State>, s: State, t: seq<Section>) returns (run': seq<State>, s': State)
    requires Reached(l, run, s, t) && s.control == Drain(0)
    ensures Reached(l, run', s', t) && s' == s.(control := DestroyLoader)
  {
    run', s' := ByControl(l, run, s, t, Fail);
    run', s' := ByControl(l, run', s', t, Fail);
  }

  lemma LeaveDrained(l: Limits, run: seq<State>, s: State, t: seq<Section>) returns (run': seq<State>, s': State)
    requires Reached(l, run, s, t) && s.control == Join && s.worker == Finished && !s.unwinding
    ensures Reached(l, run', s', t + [TxDrain, Teardown]) && s'.control == Done
  {
    s' := s.(control := Drain(0));
    assert s' == ControlNext(l, s, Fail);
    Extend(l, run, Control, s, s', t);
    run', s' := EndDrain(l, run + [s'], s', t + [TxDrain]);
    run', s' := Destroy(l, run', s', t + [TxDrain]);
    assert t + [TxDrain] + [Teardown] == t + [TxDrain, Teardown];
  }

  /** k passes, then too many rejections in a report, or a signal: the worker is stopped, TX is
      drained, and everything is torn down. */
  lemma NormalEnding(l: Limits, k: nat, signal: bool) returns (run: seq<State>, s: State)
    ensures Reached(l, run, s, Uses(k) + [TxDrain, Teardown]) && s.control == Done
  {
    run := Passes(l, k);
    var t := Uses(k);
    s := Running();
    if signal {
      Extend(l, run, Signal, s, s.(gStop := true), t);
      run, s := run + [s.(gStop := true)], s.(gStop := true);
      assert t + [] == t;
    } else {
      run, s := ByControl(l, run, s, t, Go);
      run, s := ByControl(l, run, s, t, Choice(true, 0));
    }
    assert s == Running().(gStop := true);
    run, s := ByControl(l, run, s, t, Go);
    run, s := ByControl(l, run, s, t, Go);
    run := StopPolling(l, run, s, t);
    run, s := LeaveDrained(l, run, Joined(s), t);
  }

  /** k passes, then an exception in control: no drain, but the worker is stopped first. */
  lemma ExceptionEnding(l: Limits, k: nat) returns (run: seq<State>, s: State)
    ensures Reached(l, run, s, Uses(k) + [Teardown]) && s.control == Done
  {
    run := Passes(l, k);
    var t := Uses(k);
    s := Running();
    run, s := ByControl(l, run, s, t, Go);
    run, s := ByControl(l, run, s, t, Fail);
    run := StopPolling(l, run, s, t);
    run, s := LeaveEarly(l, run, Joined(s), t);
  }

  /** The three early exits: a signal during the start, a failed preparation, a failed loader. */
  datatype Exit = Signalled | Unprepared | NoLoader

  lemma EarlyEnding(l: Limits, e: Exit) returns (run: seq<State>, s: State)
    ensures Reached(l, run, s, [SetupRings, Teardown]) && s.control == Done && s.startupOk == !e.Unprepared?
  {
    var t := [SetupRings];
    run, s := ExitTaken(l, e);
    run := StopWaiting(l, run, s, t);
    run, s := LeaveEarly(l, run, Joined(s), t);
    assert t + [Teardown] == [SetupRings, Teardown];
  }

  lemma ExitTaken(l: Limits, e: Exit) returns (run: seq<State>, s: State)
    ensures Reached(l, run, s, [SetupRings]) && s.control == RequestStop && s.worker == CheckStartup
    ensures s.registered && s.unwinding && s.startupOk == !e.Unprepared?
  {
    run := Prepare(l, !e.Unprepared?, e.Signalled?);
    var t := [SetupRings];
    s := Prepared(!e.Unprepared?, e.Signalled?);
    run, s := ByControl(l, run, s, t, Go);
    if !e.Signalled? {
      run, s := ByControl(l, run, s, t, Go);
      if e.NoLoader? {
        run, s := ByControl(l, run, s, t, Fail);
      }
    }
  }
}
