/** How a step goes on when a call fails, and when it reports an error. */
module Failures {
  import opened Wire
  import opened FlowMachine
  import opened FlowInvariants
  import opened Outcomes
  import opened Conservation
  import opened Activity
  import R = Reassembly
  import T = Transparency

  predicate Calls(e: Event) {
    e.Done? || e.Failed?
  }

  /** A call for a captured packet failed. */
  predicate Fatal(e: Event) {
    e.Failed? && e.pkt.source == Captured
  }

  /** No such call among the events, and after a failed call none for a rebuilt packet. */
  predicate Harmless(t: Trace) {
    && (forall j | 0 <= j < |t| :: !Fatal(t[j]))
    && (forall i, j | 0 <= i < j < |t| && t[i].Failed? && Calls(t[j]) :: t[j].pkt.source == Captured)
  }

  /** What a step that started at `start` has added: harmless if it reports no error; and otherwise one fatal failure,
    * which
    * is its last event. */
  predicate GoesOn(t: Trace, start: nat, ok: bool) {
    && start <= |t|
    && var added := t[start..];
       if ok then Harmless(added) else added != [] && Fatal(added[|added| - 1]) && Harmless(added[..|added| - 1])
  }

  lemma FirstThen(t: Trace, start: nat, mid: nat, ok: bool)
    requires start <= mid <= |t| && GoesOn(t, mid, ok)
    requires forall j | start <= j < mid :: !Fatal(t[j])
    requires forall j, k | start <= j < mid <= k < |t| && t[j].Failed? && Calls(t[k]) :: t[k].pkt.source == Captured
    requires forall i, j | start <= i < j < mid && t[i].Failed? && Calls(t[j]) :: t[j].pkt.source == Captured
    ensures GoesOn(t, start, ok)
  {
    var added, rest := t[start..], t[mid..];
    assert forall j | 0 <= j < |rest| :: rest[j] == t[mid + j];
    assert forall j | 0 <= j < |added| :: added[j] == t[start + j];
    assert forall j | mid - start <= j < |added| :: added[j] == rest[j - (mid - start)];
  }

  /** The same call for each of some packets of one kind: all succeed, or the last one made fails. */
  lemma {:induction false} AttemptsGo(t: Trace, k: Key, verb: Verb, ps: seq<Packet>, source: Source, fate: Fate)
    requires forall p | p in ps :: p.source == source
    ensures var (u, ok) := AttemptAll(t, k, verb, ps, fate);
            && t <= u
            && (forall j | |t| <= j < |u| :: Calls(u[j]) && u[j].pkt.source == source)
            && (forall j | |t| <= j < |u| - 1 :: u[j].Done?)
            && (ok ==> forall j | |t| <= j < |u| :: u[j].Done?)
            && (!ok ==> |u| > |t| && u[|u| - 1].Failed?)
    decreases |ps|
  {
    if ps != [] {
      var e := Attempt(t, k, verb, ps[0], fate);
      assert ps[0] in ps;
      if e.Done? {
        AttemptsGo(t + [e], k, verb, ps[1..], source, fate);
        assert t <= t + [e];
        var u := AttemptAll(t, k, verb, ps, fate).0;
        assert u[|t|] == e;
      }
    }
  }

  predicate AllCaptured(ps: seq<Packet>) {
    forall p | p in ps :: p.source == Captured
  }

  lemma ReleaseGoes(l: Local, k: Key, remove: bool, fate: Fate)
    requires l.flow.Some? && AllCaptured(l.flow.value.held)
    ensures var (m, ok) := Release(l, k, fate);
            && l.trace <= m.trace && GoesOn(m.trace, |l.trace|, ok)
            && forall j | |l.trace| <= j < |m.trace| :: Calls(m.trace[j]) && m.trace[j].pkt.source == Captured
    ensures var (m, ok) := ReleaseThen(l, k, remove, fate);
            && l.trace <= m.trace && GoesOn(m.trace, |l.trace|, ok)
            && forall j | |l.trace| <= j < |m.trace| ::
                 m.trace[j].Gone? || (Calls(m.trace[j]) && m.trace[j].pkt.source == Captured)
  {
    hide AttemptAll, SizeOf;
    AttemptsGo(l.trace, k, Send, l.flow.value.held, Captured, fate);
  }

  /** A further call for a captured packet, after events that were harmless. */
  lemma OneMore(t: Trace, start: nat, e: Event)
    requires GoesOn(t, start, true) && (Calls(e) ==> e.pkt.source == Captured)
    ensures GoesOn(t + [e], start, !e.Failed?)
  {
    var added := (t + [e])[start..];
    assert added == t[start..] + [e];
    assert added[..|added| - 1] == t[start..];
  }

  lemma InjectGoes(h: Local, k: Key, window: nat, plan: seq<Packet>, fate: Fate)
    requires h.flow.Some? && h.flow.value.buf.Some? && h.flow.value.template.Some? && AllCaptured(h.flow.value.held)
    requires forall p | p in plan :: p.source == Rebuilt
    ensures var (m, ok) := Inject(h, k, window, plan, fate);
            h.trace <= m.trace && GoesOn(m.trace, |h.trace|, ok)
  {
    hide AttemptAll, SizeOf, AllCaptured, GoesOn;
    InjectParts(h, k, window, plan, fate);
    var f := h.flow.value;
    var (t, sent) := AttemptAll(h.trace, k, Send, plan, fate);
    var (m, ok) := Inject(h, k, window, plan, fate);
    FirstThen(m.trace, |h.trace|, |t|, ok);
  }

  lemma InjectParts(h: Local, k: Key, window: nat, plan: seq<Packet>, fate: Fate)
    requires h.flow.Some? && h.flow.value.buf.Some? && h.flow.value.template.Some? && AllCaptured(h.flow.value.held)
    requires forall p | p in plan :: p.source == Rebuilt
    ensures var (t, sent) := AttemptAll(h.trace, k, Send, plan, fate);
            var (m, ok) := Inject(h, k, window, plan, fate);
            && h.trace <= t <= m.trace && GoesOn(m.trace, |t|, ok)
            && (forall j | |h.trace| <= j < |t| :: Calls(m.trace[j]) && m.trace[j].pkt.source == Rebuilt)
            && (forall j | |h.trace| <= j < |t| - 1 :: m.trace[j].Done?)
            && (forall j | |t| <= j < |m.trace| && Calls(m.trace[j]) :: m.trace[j].pkt.source == Captured)
  {
    hide AttemptAll, SizeOf, GoesOn;
    var f := h.flow.value;
    AttemptsGo(h.trace, k, Send, plan, Rebuilt, fate);
    var (t, sent) := AttemptAll(h.trace, k, Send, plan, fate);
    if !sent {
      ReleaseGoes(h.(trace := t), k, false, fate);
    } else {
      DropsGo(t, k, f.held, fate);
      var (u, dropped) := AttemptAll(t, k, Drop, f.held, fate);
      if dropped {
        OneMore(u, |t|, Split(k, window, f, plan));
      }
    }
  }

  lemma DropsGo(t: Trace, k: Key, held: seq<Packet>, fate: Fate)
    requires AllCaptured(held)
    ensures var (u, ok) := AttemptAll(t, k, Drop, held, fate);
            && t <= u && GoesOn(u, |t|, ok)
            && (forall j | |t| <= j < |u| :: Calls(u[j]) && u[j].pkt.source == Captured)
  {
    hide AttemptAll;
    AttemptsGo(t, k, Drop, held, Captured, fate);
  }

  lemma ForwardedGoes(l: Local, k: Key, pkt: Packet, start: nat, fate: Fate)
    requires pkt.source == Captured && GoesOn(l.trace, start, true)
    ensures var (m, ok) := Forwarded(l, k, pkt, fate);
            && l.trace <= m.trace && GoesOn(m.trace, start, ok)
            && (ok ==> GoesOn(Remove(m, k).trace, start, true))
  {
    hide GoesOn;
    var e := Attempt(l.trace, k, Send, pkt, fate);
    OneMore(l.trace, start, e);
    if e.Done? {
      OneMore(l.trace + [e], start, Gone(k));
    }
  }

  lemma NothingYet(t: Trace)
    ensures GoesOn(t, |t|, true)
  {
  }

  lemma ExecuteGoes(l: Local, k: Key, pkt: Packet, now: int, c0: Config, a: Action, fate: Fate)
    requires a.CloseOut? || a.Overflow? ==> l.flow.Some?
    requires a.Hold? || a.HoldRelease? || a.HoldInject? ==> Candidate(l.flow, pkt, now, c0).buf.Some?
    requires a.HoldInject? ==> forall p | p in a.plan :: p.source == Rebuilt
    requires pkt.source == Captured && AllCaptured(HeldBy(l.flow))
    ensures var (m, ok) := Execute(l, k, pkt, now, c0, a, fate);
            GoesOn(m.trace, |l.trace|, ok)
  {
    hide Release, ReleaseThen, Inject, Forwarded, GoesOn, R.Push, PayloadOf;
    var f := Candidate(l.flow, pkt, now, c0);
    assert f.held == HeldBy(l.flow) && AllCaptured(f.held + [pkt]);
    hide Candidate, AllCaptured;
    NothingYet(l.trace);
    match a
    case Forward => ForwardedGoes(Touched(l, now), k, pkt, |l.trace|, fate);
    case CloseOut =>
      ForwardedGoes(Touched(l, now), k, pkt, |l.trace|, fate);
      ReleaseGoes(Touched(l, now), k, false, fate);
      var (m, ok) := Release(Touched(l, now), k, fate);
      if ok {
        ForwardedGoes(m, k, pkt, |l.trace|, fate);
      }
    case Overflow =>
      ReleaseGoes(l.(flow := Some(f)), k, false, fate);
      var (m, ok) := Release(l.(flow := Some(f)), k, fate);
      if ok {
        ForwardedGoes(m, k, pkt, |l.trace|, fate);
      }
    case Hold =>
    case HoldRelease(push, remove) =>
      ReleaseGoes(if push then Admit(l, f, pkt) else Append(l, f, pkt), k, remove, fate);
    case HoldInject(window, plan) =>
      TemplateIs(l.flow, pkt, now, c0);
      InjectGoes(Admit(l, f, pkt), k, window, plan, fate);
  }

  lemma TemplateIs(flow: Option<Flow>, pkt: Packet, now: int, c0: Config)
    ensures Candidate(flow, pkt, now, c0).template == Some(pkt)
  {
  }

  lemma LocalStepGoes(l: Local, count: nat, i: Input, fate: Fate)
    requires InputOk(i) && (l.flow.Some? ==> FlowValid(i.InputKey(), l.flow.value))
    ensures var (m, ok) := LocalStep(l, count, i, fate); GoesOn(m.trace, |l.trace|, ok)
  {
    HeldIsCaptured(i.InputKey(), l.flow);
    match i
    case Deliver(pkt, now, c0, c1, c2) =>
      DecideHolds(l, count, pkt, now, c0, c1, c2);
      DecisionRebuilt(l, count, pkt, now, c0, c1, c2);
      hide Decide, Execute, Candidate, FlowValid, GoesOn;
      ExecuteGoes(l, i.InputKey(), pkt, now, c0, Decide(l, count, pkt, now, c0, c1, c2), fate);
    case Touch(_, _) => NothingYet(l.trace);
    case Reap(k, now, idle) =>
      hide FlowValid, ReleaseThen, GoesOn;
      NothingYet(l.trace);
      OneMore(l.trace, |l.trace|, Gone(k));
      if l.flow.Some? {
        ReleaseGoes(l, k, true, fate);
      }
  }

  lemma HeldIsCaptured(k: Key, flow: Option<Flow>)
    requires flow.Some? ==> FlowValid(k, flow.value)
    ensures AllCaptured(HeldBy(flow))
  {
    hide Genuine, PayloadOf;
  }

  /** When a step reports an error, whatever fails: if and only if a call for a captured packet fails in it, and that
    * call
    * is the last thing it does. A call for a rebuilt packet that fails is no error, but no rebuilt packet is sent
    * after it
    * in the step. */
  lemma StepGoesOn(h: History, n: nat)
    requires h.IsRun() && n < |h.ins|
    ensures GoesOn(h.worlds[n + 1].trace, |h.worlds[n].trace|, h.SucceedsAt(n))
  {
    hide LocalStep, FlowValid, GoesOn, RunAll, InputsOk, T.TruthfulWorld, T.Grows, Accounted, Genuine;
    assert h.StepsAt(n);
    StepSeen(h, n);
    RunSoFar(h, n);
    RunReached(h.ins[..n], h.fate);
    var (w, i) := (h.worlds[n], h.ins[n]);
    StepIsLocal(w, i, h.fate);
    LocalStepGoes(Load(w, i.InputKey()), |w.flows|, i, h.fate);
  }

  /** In particular: a step succeeds if and only if none of its calls for captured packets failed. */
  lemma SucceedsIff(h: History, n: nat)
    requires h.IsRun() && n < |h.ins|
    ensures var (from, t) := (|h.worlds[n].trace|, h.worlds[n + 1].trace);
            && from <= |t|
            && (h.SucceedsAt(n) <==> forall j | from <= j < |t| :: !Fatal(t[j]))
            && (forall j | from <= j < |t| && Fatal(t[j]) :: j == |t| - 1)
  {
    StepGoesOn(h, n);
    hide History.StepsAt, History.SucceedsAt;
    var (from, t) := (|h.worlds[n].trace|, h.worlds[n + 1].trace);
    var added := t[from..];
    assert forall j | from <= j < |t| :: t[j] == added[j - from];
    assert forall j | 0 <= j < |added| - 1 :: added[..|added| - 1][j] == added[j];
  }
}
