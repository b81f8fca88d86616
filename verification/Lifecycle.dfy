/** The life cycle of a flow, one step at a time, whatever fails. */
module Lifecycle {
  import opened Wire
  import opened FlowMachine
  import opened FlowInvariants
  import opened Outcomes
  import opened Conservation
  import R = Reassembly
  import T = Transparency

  /** Injected and passing through are left only by removal; a collecting flow is removed only after
    * all it held was sent, in order. */
  ghost predicate Lives(k: Key, l: Local, m: Local) {
    l.flow.Some? ==>
      && (l.flow.value.phase != Collecting ==> m.flow.Some? ==> m.flow.value.phase == l.flow.value.phase)
      && (l.flow.value.phase == Collecting && m.flow.None? ==> l.trace + Dones(k, Send, l.flow.value.held) <= m.trace)
  }

  lemma ReleaseThenLives(k: Key, l: Local, h: Local, remove: bool, fate: Fate)
    requires l.flow.Some? && l.flow.value.phase == Collecting && h.flow.Some? && h.trace == l.trace
    requires l.flow.value.held <= h.flow.value.held
    ensures Lives(k, l, ReleaseThen(h, k, remove, fate).0)
  {
    hide Release, Dones;
    if Release(h, k, fate).1 {
      ReleaseOk(h, k, fate);
      DonesPrefix(k, l.flow.value.held, h.flow.value.held);
    } else {
      ReleaseFailed(h, k, fate);
    }
  }

  lemma DonesPrefix(k: Key, a: seq<Packet>, b: seq<Packet>)
    requires a <= b
    ensures Dones(k, Send, a) <= Dones(k, Send, b)
  {
  }

  lemma ReleaseFailed(h: Local, k: Key, fate: Fate)
    requires h.flow.Some?
    ensures Release(h, k, fate).0.flow.Some?
  {
    hide AttemptAll;
  }

  lemma InjectStays(h: Local, k: Key, window: nat, plan: seq<Packet>, fate: Fate)
    requires h.flow.Some? && h.flow.value.buf.Some? && h.flow.value.template.Some?
    ensures Inject(h, k, window, plan, fate).0.flow.Some?
  {
    hide AttemptAll, Release;
    ReleaseFailed(h.(trace := AttemptAll(h.trace, k, Send, plan, fate).0), k, fate);
  }

  lemma CloseOutLives(k: Key, l: Local, pkt: Packet, now: int, c0: Config, fate: Fate)
    requires l.flow.Some?
    ensures Lives(k, l, Execute(l, k, pkt, now, c0, CloseOut, fate).0)
  {
    hide Release, Dones, Candidate;
    var h := Touched(l, now);
    if l.flow.value.phase == Collecting {
      ReleaseFailed(h, k, fate);
      if Release(h, k, fate).1 {
        ReleaseOk(h, k, fate);
      }
    }
  }

  lemma OverflowLives(k: Key, l: Local, pkt: Packet, now: int, c0: Config, fate: Fate)
    requires l.flow.Some? && l.flow.value.phase == Collecting
    ensures Lives(k, l, Execute(l, k, pkt, now, c0, Overflow, fate).0)
  {
    hide Release, Dones, Candidate;
    ReleaseFailed(l.(flow := Some(Candidate(l.flow, pkt, now, c0))), k, fate);
  }

  lemma ExecuteLives(k: Key, l: Local, pkt: Packet, now: int, c0: Config, a: Action, fate: Fate)
    requires a.CloseOut? || a.Overflow? ==> l.flow.Some?
    requires a.Overflow? || a.Hold? || a.HoldRelease? || a.HoldInject? ==>
               l.flow.Some? ==> l.flow.value.phase == Collecting
    requires a.Hold? || a.HoldRelease? || a.HoldInject? ==> Candidate(l.flow, pkt, now, c0).buf.Some?
    ensures Lives(k, l, Execute(l, k, pkt, now, c0, a, fate).0)
  {
    hide Lives, Release, ReleaseThen, Inject, Candidate, R.Push, Dones;
    var f := Candidate(l.flow, pkt, now, c0);
    CandidateHolds(l.flow, pkt, now, c0);
    if l.flow.None? {
      NewLives(k, l, Execute(l, k, pkt, now, c0, a, fate).0);
    } else {
      match a {
        case Forward => StaysLives(k, l, Execute(l, k, pkt, now, c0, a, fate).0);
        case CloseOut => CloseOutLives(k, l, pkt, now, c0, fate);
        case Overflow => OverflowLives(k, l, pkt, now, c0, fate);
        case Hold => CollectingLives(k, l, Admit(l, f, pkt));
        case HoldRelease(push, remove) =>
          ReleaseThenLives(k, l, if push then Admit(l, f, pkt) else Append(l, f, pkt), remove, fate);
        case HoldInject(window, plan) =>
          InjectStays(Admit(l, f, pkt), k, window, plan, fate);
          CollectingLives(k, l, Inject(Admit(l, f, pkt), k, window, plan, fate).0);
      }
    }
  }

  lemma NewLives(k: Key, l: Local, m: Local)
    requires l.flow.None?
    ensures Lives(k, l, m)
  {
  }

  lemma StaysLives(k: Key, l: Local, m: Local)
    requires l.flow.Some? && m.flow.Some? && m.flow.value.phase == l.flow.value.phase
    ensures Lives(k, l, m)
  {
  }

  lemma CollectingLives(k: Key, l: Local, m: Local)
    requires l.flow.Some? && l.flow.value.phase == Collecting && m.flow.Some?
    ensures Lives(k, l, m)
  {
  }

  lemma LocalStepLives(l: Local, count: nat, i: Input, fate: Fate)
    requires InputOk(i) && (l.flow.Some? ==> FlowValid(i.InputKey(), l.flow.value))
    ensures Lives(i.InputKey(), l, LocalStep(l, count, i, fate).0)
  {
    var k := i.InputKey();
    match i
    case Deliver(pkt, now, c0, c1, c2) =>
      DecideHolds(l, count, pkt, now, c0, c1, c2);
      hide Decide, Execute, DecideHeld, Lives, Candidate;
      ExecuteLives(k, l, pkt, now, c0, Decide(l, count, pkt, now, c0, c1, c2), fate);
    case Touch(_, now) =>
    case Reap(_, now, idle) =>
      if l.flow.Some? && l.flow.value.phase == Collecting {
        ReleaseThenLives(k, l, l, true, fate);
      }
  }

  /** The life cycle, over every run and with any failures: from one state to the next, a flow that is injected
    * or passing through stays so or is removed, and a collecting flow is removed only after every packet in its
    * hold has been sent, in order, within that step. */
  lemma LifeCycle(h: History, n: nat, k: Key)
    requires h.IsRun() && n < |h.ins| && k in h.worlds[n].flows
    ensures var w, w', f := h.worlds[n], h.worlds[n + 1], h.worlds[n].flows[k];
            && (f.phase != Collecting && k in w'.flows ==> w'.flows[k].phase == f.phase)
            && (f.phase == Collecting && k !in w'.flows ==> w.trace + Dones(k, Send, f.held) <= w'.trace)
  {
    assert h.StepsAt(n);
    var w, i, fate := h.worlds[n], h.ins[n], h.fate;
    hide RunAll, InputsOk, InputOk, FlowValid, Accounted, LocalStep, Dones, T.TruthfulWorld, T.Grows, History.StepsAt;
    RunSoFar(h, n);
    RunReached(h.ins[..n], fate);
    StepIsLocal(w, i, fate);
    LocalStepLives(Load(w, i.InputKey()), |w.flows|, i, fate);
    if k != i.InputKey() {
      assert Load(h.worlds[n + 1], k).flow == Load(w, k).flow;
    }
  }
}
