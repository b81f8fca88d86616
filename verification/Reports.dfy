/** What Run reports, told from what its workers' loops and drains returned, and how full the queues become. */
module Reports {
  import opened FlowMachine
  import opened EngineProtocol

  /** What the run loop of worker `i` returned, if it has. */
  function LoopError(ls: seq<Label>, i: nat): Option<Error> {
    if ls == [] then None
    else
      var l := ls[|ls| - 1];
      if l.WorkerStep? && l.i == i && l.w.Leave? then Some(l.w.why) else LoopError(ls[..|ls| - 1], i)
  }

  /** What its shutdown drain returned. */
  function DrainError(ls: seq<Label>, i: nat): Option<Error> {
    if ls == [] then None
    else
      var l := ls[|ls| - 1];
      if l.WorkerStep? && l.i == i && l.w.EndDrain? then Some(l.w.why) else DrainError(ls[..|ls| - 1], i)
  }

  /** A worker has failed: its loop ended with an error that is no cancellation, or its drain ended with an error,
    * unless
    * that was a deadline or the limit in an orderly stop. */
  predicate Fails(loop: Option<Error>, drain: Option<Error>) {
    && loop.Some? && drain.Some?
    && ((loop.value != {} && Canceled !in loop.value)
        || (drain.value != {} && !(Canceled in loop.value && (Deadline in drain.value || Limit in drain.value))))
  }

  ghost predicate WorkerTold(ls: seq<Label>, w: WorkerPc, i: nat) {
    match w
    case Idle => true
    case Busy => true
    case Leaving(e) => LoopError(ls, i) == Some(e)
    case Draining(e, _) => LoopError(ls, i) == Some(e)
    case Drained(e, clean) =>
      && LoopError(ls, i).Some? && DrainError(ls, i).Some?
         && (IsFault(e) <==> Fails(LoopError(ls, i), DrainError(ls, i)))
      && (clean <==> DrainError(ls, i) == Some({}))
    case Finished(clean) =>
      LoopError(ls, i).Some? && DrainError(ls, i).Some? && (clean <==> DrainError(ls, i) == Some({}))
  }

  ghost predicate HasFailed(ls: seq<Label>, s: State, i: nat)
    requires i < |s.workers|
  {
    s.workers[i].Finished? && Fails(LoopError(ls, i), DrainError(ls, i))
  }

  /** The workers' states and the report agree with what the loops and drains have returned. */
  ghost predicate Told(ls: seq<Label>, s: State) {
    && (forall i | 0 <= i < |s.workers| :: WorkerTold(ls, s.workers[i], i))
    && (s.reported <==> exists i :: 0 <= i < |s.workers| && HasFailed(ls, s, i))
  }

  lemma Said(ls: seq<Label>, l: Label, i: nat)
    ensures LoopError(ls + [l], i) ==
            if l.WorkerStep? && l.i == i && l.w.Leave? then Some(l.w.why) else LoopError(ls, i)
    ensures DrainError(ls + [l], i) ==
            if l.WorkerStep? && l.i == i && l.w.EndDrain? then Some(l.w.why) else DrainError(ls, i)
  {
    assert (ls + [l])[..|ls|] == ls;
  }

  /** After the drain a worker holds a fault exactly if it has failed. */
  lemma AfterDrainIff(loop: Error, drain: Error)
    requires Canceled !in drain
    ensures IsFault(AfterDrain(loop, drain)) <==> Fails(Some(loop), Some(drain))
  {
  }

  /** Other threads' steps change no worker and no report. */
  lemma OthersKeepTold(ls: seq<Label>, l: Label, s: State, t: State)
    requires Told(ls, s) && !l.WorkerStep? && t.workers == s.workers && t.reported == s.reported
    ensures Told(ls + [l], t)
  {
    hide Fails, IsFault, LoopError, DrainError;
    forall i: nat ensures LoopError(ls + [l], i) == LoopError(ls, i) && DrainError(ls + [l], i) == DrainError(ls, i) {
      Said(ls, l, i);
    }
    assert forall i | 0 <= i < |s.workers| :: HasFailed(ls + [l], t, i) == HasFailed(ls, s, i);
  }

  lemma OthersLeaveWorkers(s: State, l: Label)
    requires Shape(s) && Enabled(s, l) && !l.WorkerStep?
    ensures Apply(s, l).workers == s.workers && Apply(s, l).reported == s.reported
  {
    hide RecvApply, RecvEnabled, MainApply, MainEnabled;
    match l
    case Expire(_) =>
    case RecvStep(r) => RecvLeavesOthers(s, r);
    case MainStep(m) => MainLeavesWorkers(s, m);
  }

  lemma MainLeavesWorkers(s: State, m: MainStep)
    requires Shape(s) && MainEnabled(s, m)
    ensures MainApply(s, m).workers == s.workers && MainApply(s, m).reported == s.reported
  {
    hide Result;
  }

  /** What a worker's own step does to it. */
  lemma OwnStep(ls: seq<Label>, s: State, i: nat, w: WorkerStep)
    requires Shape(s) && WorkerEnabled(s, w, i) && WorkerTold(ls, s.workers[i], i)
    ensures var (t, ls') := (WorkerApply(s, w, i), ls + [Label.WorkerStep(i, w)]);
            && |t.workers| == |s.workers| && WorkerTold(ls', t.workers[i], i)
            && (forall j | 0 <= j < |s.workers| && j != i :: t.workers[j] == s.workers[j])
            && !s.workers[i].Finished?
            && (t.workers[i].Finished? <==> w.Report?)
            && (t.reported <==> s.reported || (w.Report? && Fails(LoopError(ls', i), DrainError(ls', i))))
  {
    hide LoopError, DrainError, Counts, Fails, AfterDrain, IsFault, Plausible;
    var ls' := ls + [Label.WorkerStep(i, w)];
    Said(ls, Label.WorkerStep(i, w), i);
    if w.EndDrain? {
      AfterDrainIff(s.workers[i].error, w.why);
    }
  }

  lemma WorkerKeepsTold(ls: seq<Label>, s: State, i: nat, w: WorkerStep)
    requires Shape(s) && Told(ls, s) && WorkerEnabled(s, w, i)
    ensures Told(ls + [Label.WorkerStep(i, w)], WorkerApply(s, w, i))
  {
    hide LoopError, DrainError, Fails, WorkerApply, WorkerTold, WorkerEnabled;
    EnabledIsThere(s, i, w);
    OwnStep(ls, s, i, w);
    var (t, ls') := (WorkerApply(s, w, i), ls + [Label.WorkerStep(i, w)]);
    forall j | 0 <= j < |s.workers| && j != i
      ensures WorkerTold(ls', t.workers[j], j) && HasFailed(ls', t, j) == HasFailed(ls, s, j)
    {
      Said(ls, Label.WorkerStep(i, w), j);
      SameTold(ls, ls', s.workers[j], j);
    }
    assert HasFailed(ls', t, i) <==> w.Report? && Fails(LoopError(ls', i), DrainError(ls', i));
    assert !HasFailed(ls, s, i);
  }

  lemma EnabledIsThere(s: State, i: nat, w: WorkerStep)
    requires Shape(s) && WorkerEnabled(s, w, i)
    ensures i < |s.workers|
  {
  }

  lemma SameTold(ls: seq<Label>, ls': seq<Label>, w: WorkerPc, j: nat)
    requires WorkerTold(ls, w, j) && LoopError(ls', j) == LoopError(ls, j) && DrainError(ls', j) == DrainError(ls, j)
    ensures WorkerTold(ls', w, j)
  {
    hide LoopError, DrainError, Fails;
  }

  lemma {:induction false} RunIsTold(before: seq<Label>, s: State, ls: seq<Label>, t: State)
    requires Shape(s) && Told(before, s) && Leads(s, ls, t)
    ensures Told(before + ls, t)
    decreases |ls|
  {
    hide Told, Enabled, Apply;
    if ls == [] {
      assert before + ls == before;
    } else {
      var l := ls[0];
      StepIsTold(before, s, l);
      RunIsTold(before + [l], Apply(s, l), ls[1..], t);
      assert before + [l] + ls[1..] == before + ls;
    }
  }

  lemma StepIsTold(before: seq<Label>, s: State, l: Label)
    requires Shape(s) && Told(before, s) && Enabled(s, l)
    ensures Told(before + [l], Apply(s, l))
  {
    hide Told, WorkerEnabled, WorkerApply, RecvEnabled, RecvApply, MainEnabled, MainApply;
    if l.WorkerStep? {
      WorkerKeepsTold(before, s, l.i, l.w);
    } else {
      OthersLeaveWorkers(s, l);
      OthersKeepTold(before, l, s, Apply(s, l));
    }
  }

  lemma StartIsTold(n: nat, capacity: nat)
    requires n > 0
    ensures Told([], Start(n, capacity))
  {
  }

  /** Run's result, in every interleaving, told from what was returned to it: it is nil if and only if no worker's loop
    * ended with an error other than cancellation, no worker's drain ended with an error other than the deadline or the
    * limit of an orderly stop, the receive loop ended by cancellation, and flushing the adapter succeeded or ran out of
    * time. */
  lemma RunIsNilIff(n: nat, capacity: nat, ls: seq<Label>, t: State)
    requires n > 0 && Leads(Start(n, capacity), ls, t) && t.main.Returned?
    ensures |t.workers| == n && t.recv.RecvDone?
    ensures forall i | 0 <= i < n :: LoopError(ls, i).Some? && DrainError(ls, i).Some?
    ensures t.main.result == {} <==>
            && (forall i | 0 <= i < n :: !Fails(LoopError(ls, i), DrainError(ls, i)))
            && Canceled in t.recv.error && (t.main.flush == {} || Deadline in t.main.flush)
  {
    hide Leads, Fails, LoopError, DrainError, Invariant, Result;
    assert Reachable(n, t);
    RunReportsFailures(n, t);
    AllFinished(n, t);
    StartIsTold(n, capacity);
    RunIsTold([], Start(n, capacity), ls, t);
    assert [] + ls == ls;
    hide WorkerTold, HasFailed, Reachable;
    forall i | 0 <= i < n ensures LoopError(ls, i).Some? && DrainError(ls, i).Some? {
      FinishedIsTold(ls, t, i);
    }
    SomeoneFailed(ls, t);
  }

  lemma SomeoneFailed(ls: seq<Label>, t: State)
    requires Told(ls, t) && forall i | 0 <= i < |t.workers| :: t.workers[i].Finished?
    ensures t.reported <==> exists i :: 0 <= i < |t.workers| && Fails(LoopError(ls, i), DrainError(ls, i))
  {
    hide Fails, LoopError, DrainError, WorkerTold;
    if t.reported {
      var i :| 0 <= i < |t.workers| && HasFailed(ls, t, i);
      assert Fails(LoopError(ls, i), DrainError(ls, i));
    }
    if i :| 0 <= i < |t.workers| && Fails(LoopError(ls, i), DrainError(ls, i)) {
      assert HasFailed(ls, t, i);
    }
  }

  lemma FinishedIsTold(ls: seq<Label>, t: State, i: nat)
    requires i < |t.workers| && t.workers[i].Finished? && WorkerTold(ls, t.workers[i], i)
    ensures LoopError(ls, i).Some? && DrainError(ls, i).Some?
    ensures HasFailed(ls, t, i) == Fails(LoopError(ls, i), DrainError(ls, i))
  {
    hide Fails, LoopError, DrainError;
  }

  lemma AllFinished(n: nat, t: State)
    requires Reachable(n, t) && t.main.Returned?
    ensures |t.workers| == n && forall i | 0 <= i < n :: t.workers[i].Finished?
  {
    hide Leads, Entered, Result, RouteOf, FromCapture;
    ReachableIsGood(n, t);
  }

  // ---- the queues ----

  predicate Fit(s: State) {
    forall i | 0 <= i < |s.queues| :: |s.queues[i]| <= s.capacity
  }

  lemma RecvFits(s: State, r: RecvStep)
    requires Shape(s) && ClosingKeptApart(s) && Fit(s) && RecvEnabled(s, r)
    ensures Fit(RecvApply(s, r)) && RecvApply(s, r).capacity == s.capacity
  {
    hide RouteOf, FromCapture, DrainEnded, Plausible;
  }

  lemma WorkerFits(s: State, w: WorkerStep, i: nat)
    requires Shape(s) && Fit(s) && WorkerEnabled(s, w, i)
    ensures Fit(WorkerApply(s, w, i)) && WorkerApply(s, w, i).capacity == s.capacity
  {
    hide AfterDrain, Counts, IsFault, Plausible, Cancel;
  }

  lemma MainFits(s: State, m: MainStep)
    requires Shape(s) && Fit(s) && MainEnabled(s, m)
    ensures Fit(MainApply(s, m)) && MainApply(s, m).capacity == s.capacity
  {
    hide Result, Cancel;
  }

  lemma StepFits(s: State, l: Label)
    requires Shape(s) && ClosingKeptApart(s) && Fit(s) && Enabled(s, l)
    ensures Fit(Apply(s, l)) && Apply(s, l).capacity == s.capacity
  {
    hide ClosingKeptApart, RecvApply, RecvEnabled, WorkerApply, WorkerEnabled, MainApply, MainEnabled;
    match l
    case Expire(_) =>
    case RecvStep(r) => RecvFits(s, r);
    case WorkerStep(i, w) => WorkerFits(s, w, i);
    case MainStep(m) => MainFits(s, m);
  }

  lemma {:induction false} RunFits(s: State, ls: seq<Label>, t: State)
    requires Shape(s) && Invariant(s) && Fit(s) && Leads(s, ls, t)
    ensures Fit(t) && t.capacity == s.capacity
    decreases |ls|
  {
    hide Invariant, Fit, Enabled, Apply;
    if ls != [] {
      KeptApart(s);
      StepFits(s, ls[0]);
      StepKeepsInvariant(s, ls[0]);
      RunFits(Apply(s, ls[0]), ls[1..], t);
    }
  }

  lemma KeptApart(s: State)
    requires Shape(s) && Invariant(s)
    ensures ClosingKeptApart(s)
  {
  }

  /** No queue ever holds more packets than it was made for, in any interleaving. */
  lemma QueuesFit(n: nat, capacity: nat, ls: seq<Label>, t: State, i: nat)
    requires n > 0 && Leads(Start(n, capacity), ls, t) && i < |t.queues|
    ensures |t.queues[i]| <= capacity
  {
    hide Invariant, Leads;
    StartIsGood(n, capacity);
    RunFits(Start(n, capacity), ls, t);
  }
}
