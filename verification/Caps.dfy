/** Two budgets that hold whatever fails: held bytes, at every moment, and the number of flows. */
module Caps {
  import opened Wire
  import opened FlowMachine
  import opened FlowInvariants
  import opened Outcomes
  import opened Conservation
  import opened Runs
  import R = Reassembly
  import T = Transparency

  predicate TakesIn(a: Action) {
    a.Hold? || a.HoldRelease? || a.HoldInject?
  }

  /** The input's packet is taken into the hold, if only for a moment. */
  ghost predicate Admits(l: Local, count: nat, i: Input)
    requires InputOk(i) && (l.flow.Some? ==> FlowValid(i.InputKey(), l.flow.value))
  {
    i.Deliver? && TakesIn(Decide(l, count, i.pkt, i.now, i.c0, i.c1, i.c2))
  }

  /** The counter and the flow's hold once the packet, if it is admitted, has been added. */
  ghost function Top(l: Local, count: nat, i: Input): int
    requires InputOk(i) && (l.flow.Some? ==> FlowValid(i.InputKey(), l.flow.value))
  {
    l.held + if Admits(l, count, i) then |i.pkt.data| else 0
  }

  ghost function Hold(l: Local, count: nat, i: Input): seq<Packet>
    requires InputOk(i) && (l.flow.Some? ==> FlowValid(i.InputKey(), l.flow.value))
  {
    HeldBy(l.flow) + if Admits(l, count, i) then [i.pkt] else []
  }

  /** A value that the held-bytes counter has at some moment of the step: before it, with the packet added, while the
    * flow's packets are given back one by one, or after it. */
  ghost predicate HasValue(l: Local, count: nat, i: Input, fate: Fate, v: int)
    requires InputOk(i) && (l.flow.Some? ==> FlowValid(i.InputKey(), l.flow.value))
  {
    || v == l.held || v == Top(l, count, i) || v == LocalStep(l, count, i, fate).0.held
    || exists c: nat :: c <= |Hold(l, count, i)| && v == GivenBack(Top(l, count, i), Hold(l, count, i), c)
  }

  function GivenBack(top: int, ps: seq<Packet>, c: nat): int
    requires c <= |ps|
  {
    top - SizeOf(ps[..c])
  }

  // ---- one step ----

  lemma ReleaseHeld(l: Local, k: Key, remove: bool, fate: Fate)
    requires l.flow.Some?
    ensures var m := Release(l, k, fate).0; m.held == l.held || m.held == Clamp(l.held - SizeOf(l.flow.value.held))
    ensures ReleaseThen(l, k, remove, fate).0.held == Release(l, k, fate).0.held
  {
    hide AttemptAll, SizeOf;
  }

  /** After a step the counter is as it was with the packet added, or the whole hold has been given back. */
  lemma ExecuteHeld(l: Local, k: Key, pkt: Packet, now: int, c0: Config, a: Action, fate: Fate)
    requires a.CloseOut? || a.Overflow? ==> l.flow.Some?
    requires TakesIn(a) ==> Candidate(l.flow, pkt, now, c0).buf.Some?
    ensures var m := Execute(l, k, pkt, now, c0, a, fate).0;
            var (top, ps) := if TakesIn(a) then (l.held + |pkt.data|, HeldBy(l.flow) + [pkt])
              else (l.held, HeldBy(l.flow));
            m.held == top || m.held == Clamp(top - SizeOf(ps))
  {
    hide AttemptAll, SizeOf, R.Push, Attempt, PayloadOf, Release;
    var f := Candidate(l.flow, pkt, now, c0);
    assert f.held == HeldBy(l.flow);
    match a
    case Forward =>
    case CloseOut => ReleaseHeld(Touched(l, now), k, false, fate);
    case Overflow => ReleaseHeld(l.(flow := Some(f)), k, false, fate);
    case Hold =>
    case HoldRelease(push, remove) =>
      ReleaseHeld(if push then Admit(l, f, pkt) else Append(l, f, pkt), k, remove, fate);
    case HoldInject(window, plan) =>
      var h := Admit(l, f, pkt);
      ReleaseHeld(h.(trace := AttemptAll(h.trace, k, Send, plan, fate).0), k, false, fate);
  }

  lemma DeliverHeld(l: Local, count: nat, i: Input, fate: Fate)
    requires InputOk(i) && i.Deliver? && (l.flow.Some? ==> FlowValid(i.InputKey(), l.flow.value))
    ensures var m := LocalStep(l, count, i, fate).0;
            m.held == Top(l, count, i) || m.held == Clamp(Top(l, count, i) - SizeOf(Hold(l, count, i)))
  {
    hide Decide, Execute, Candidate, FlowValid, SizeOf, InputOk, HeldBy, Genuine, Collected;
    DeliveredReady(l, i);
    DecideHolds(l, count, i.pkt, i.now, i.c0, i.c1, i.c2);
    assert HeldBy(l.flow) + [] == HeldBy(l.flow);
    ExecuteHeld(l, i.InputKey(), i.pkt, i.now, i.c0, Decide(l, count, i.pkt, i.now, i.c0, i.c1, i.c2), fate);
  }

  lemma DeliveredReady(l: Local, i: Input)
    requires InputOk(i) && i.Deliver? && (l.flow.Some? ==> FlowValid(i.InputKey(), l.flow.value))
    ensures Ready(l, i.pkt)
  {
    hide Genuine, Collected;
  }

  lemma LocalStepHeld(l: Local, count: nat, i: Input, fate: Fate)
    requires InputOk(i) && (l.flow.Some? ==> FlowValid(i.InputKey(), l.flow.value))
    ensures var m := LocalStep(l, count, i, fate).0;
            m.held == Top(l, count, i) || m.held == Clamp(Top(l, count, i) - SizeOf(Hold(l, count, i)))
  {
    match i
    case Deliver(_, _, _, _, _) =>
      hide LocalStep, FlowValid, SizeOf, Hold, Top;
      DeliverHeld(l, count, i, fate);
    case Touch(_, _) =>
    case Reap(k, now, idle) =>
      hide FlowValid, SizeOf, Release;
      assert HeldBy(l.flow) + [] == HeldBy(l.flow);
      if l.flow.Some? {
        ReleaseHeld(l, k, true, fate);
      }
  }

  /** A flow is only added where the table has room for it. */
  lemma LocalStepCount(cfg: Config, l: Local, count: nat, i: Input, fate: Fate)
    requires InputOk(i) && (l.flow.Some? ==> FlowValid(i.InputKey(), l.flow.value)) && Uses(Some(cfg), i)
    ensures l.flow.None? && LocalStep(l, count, i, fate).0.flow.Some? && cfg.maxFlows > 0 ==> count < cfg.maxFlows
  {
    if i.Deliver? && l.flow.None? {
      DecideHolds(l, count, i.pkt, i.now, i.c0, i.c1, i.c2);
      DecideCounts(l, count, i.pkt, i.now, i.c0, i.c1, i.c2);
      hide Decide, InputOk, Candidate, R.Push, AttemptAll;
    }
  }

  lemma TopWithin(cfg: Config, l: Local, count: nat, i: Input)
    requires InputOk(i) && (l.flow.Some? ==> FlowValid(i.InputKey(), l.flow.value)) && Uses(Some(cfg), i)
    requires Within(cfg.maxHeldBytes, l.held)
    ensures Within(cfg.maxHeldBytes, Top(l, count, i))
  {
    if i.Deliver? {
      DecideHolds(l, count, i.pkt, i.now, i.c0, i.c1, i.c2);
    }
    hide Decide, InputOk, FlowValid;
  }

  lemma {:induction false} SizeOfPart(ps: seq<Packet>, c: nat)
    requires c <= |ps|
    ensures SizeOf(ps[..c]) <= SizeOf(ps)
  {
    if c == |ps| {
      assert ps[..c] == ps;
    } else {
      assert ps[..|ps| - 1][..c] == ps[..c];
      SizeOfPart(ps[..|ps| - 1], c);
    }
  }

  lemma HoldWithinTop(l: Local, count: nat, i: Input)
    requires InputOk(i) && (l.flow.Some? ==> FlowValid(i.InputKey(), l.flow.value)) && SizeOf(HeldBy(l.flow)) <= l.held
    ensures SizeOf(Hold(l, count, i)) <= Top(l, count, i)
  {
    hide SizeOf, FlowValid, InputOk, HeldBy, Decide;
    if Admits(l, count, i) {
      SizeOfAppend(HeldBy(l.flow), i.pkt);
    } else {
      assert Hold(l, count, i) == HeldBy(l.flow);
    }
  }

  /** No moment of a step takes the counter over its cap or below zero, so that no clamp ever acts. */
  lemma ValuesWithin(cfg: Config, l: Local, count: nat, i: Input, fate: Fate, v: int)
    requires InputOk(i) && (l.flow.Some? ==> FlowValid(i.InputKey(), l.flow.value)) && Uses(Some(cfg), i)
    requires Within(cfg.maxHeldBytes, l.held) && SizeOf(HeldBy(l.flow)) <= l.held && HasValue(l, count, i, fate, v)
    ensures 0 <= v && Within(cfg.maxHeldBytes, v)
  {
    hide LocalStep, SizeOf, FlowValid, InputOk, Admits, HeldBy, Hold, Top, Uses;
    TopWithin(cfg, l, count, i);
    LocalStepHeld(l, count, i, fate);
    HoldWithinTop(l, count, i);
    var ps, top := Hold(l, count, i), Top(l, count, i);
    if c: nat :| c <= |ps| && v == GivenBack(top, ps, c) {
      SizeOfPart(ps, c);
    }
  }

  // ---- whole runs ----

  ghost predicate Capped(cfg: Config, w: World) {
    Within(cfg.maxHeldBytes, w.held) && Within(cfg.maxFlows, |w.flows|)
  }

  lemma OwnHeldIsCounted(w: World, k: Key)
    requires Sane(w)
    ensures SizeOf(HeldBy(Load(w, k).flow)) <= w.held
  {
    hide FlowValid;
    SaneIsBalanced(w, k);
  }

  lemma StepCapped(cfg: Config, w: World, i: Input, fate: Fate)
    requires Reached(w) && InputOk(i) && Uses(Some(cfg), i) && Capped(cfg, w)
    ensures Capped(cfg, Step(w, i, fate).0)
  {
    hide FlowValid, Accounted, LocalStep, Uses, InputOk, T.TruthfulWorld, T.Grows, SizeOf, HeldBy;
    var k := i.InputKey();
    StepIsLocal(w, i, fate);
    OwnHeldIsCounted(w, k);
    var l := Load(w, k);
    var m := LocalStep(l, |w.flows|, i, fate).0;
    LocalStepCount(cfg, l, |w.flows|, i, fate);
    StoreCount(w, k, m);
    assert HasValue(l, |w.flows|, i, fate, m.held);
    ValuesWithin(cfg, l, |w.flows|, i, fate, m.held);
  }

  lemma {:induction false} CappedSoFar(cfg: Config, h: History, n: nat)
    requires h.IsRun() && AllUse(Some(cfg), h.ins) && n <= |h.ins|
    ensures Capped(cfg, h.worlds[n])
  {
    hide Step, InputOk, Uses, Reached;
    if n > 0 {
      CappedSoFar(cfg, h, n - 1);
      assert h.StepsAt(n - 1);
      hide Capped, RunAll, InputsOk;
      RunSoFar(h, n - 1);
      RunReached(h.ins[..n - 1], h.fate);
      StepCapped(cfg, h.worlds[n - 1], h.ins[n - 1], h.fate);
    }
  }

  /** Under one configuration, and whatever fails, held bytes and the number of flows stay within their caps. */
  lemma CapsHoldWhateverFails(cfg: Config, h: History)
    requires h.IsRun() && AllUse(Some(cfg), h.ins)
    ensures Within(cfg.maxHeldBytes, h.End().held) && Within(cfg.maxFlows, |h.End().flows|)
  {
    hide History.StepsAt, AllUse;
    CappedSoFar(cfg, h, |h.ins|);
  }

  /** Not even in the middle of a step: every value that the held-bytes counter has during step `n` of such a run is
    * at least zero and within the cap. */
  lemma HeldCapMidStep(cfg: Config, h: History, n: nat, v: int)
    requires h.IsRun() && AllUse(Some(cfg), h.ins) && n < |h.ins|
    ensures h.StepsAt(n)
    ensures var (w, i) := (h.worlds[n], h.ins[n]);
            var l := Load(w, i.InputKey());
            && (l.flow.Some? ==> FlowValid(i.InputKey(), l.flow.value))
            && (HasValue(l, |w.flows|, i, h.fate, v) ==> 0 <= v && Within(cfg.maxHeldBytes, v))
  {
    assert h.StepsAt(n);
    hide FlowValid, Accounted, LocalStep, Uses, InputOk, T.TruthfulWorld, T.Grows, SizeOf, HeldBy, HasValue, RunAll,
         InputsOk;
    var w, i := h.worlds[n], h.ins[n];
    CappedSoFar(cfg, h, n);
    RunSoFar(h, n);
    RunReached(h.ins[..n], h.fate);
    StepIsLocal(w, i, h.fate);
    OwnHeldIsCounted(w, i.InputKey());
    if HasValue(Load(w, i.InputKey()), |w.flows|, i, h.fate, v) {
      ValuesWithin(cfg, Load(w, i.InputKey()), |w.flows|, i, h.fate, v);
    }
  }
}
