/** When a flow counts as active, and what keeps it collecting. */
module Activity {
  import opened Wire
  import opened FlowMachine
  import opened FlowInvariants
  import opened Conservation
  import R = Reassembly
  import T = Transparency

  /** The time of the last packet or touch of connection `k`. */
  function LastSeen(ins: seq<Input>, k: Key): Option<int> {
    if ins == [] then None
    else
      var i := ins[|ins| - 1];
      if i.InputKey() == k && !i.Reap? then Some(i.now) else LastSeen(ins[..|ins| - 1], k)
  }

  // ---- one step ----

  /** Whatever a delivery does and whatever fails, a flow that exists afterwards is as fresh as the packet. */
  ghost predicate FreshAt(m: Local, now: int) {
    m.flow.Some? ==> m.flow.value.lastActive == now
  }

  lemma ReleaseFresh(l: Local, k: Key, remove: bool, now: int, fate: Fate)
    requires l.flow.Some? && FreshAt(l, now)
    ensures FreshAt(Release(l, k, fate).0, now) && FreshAt(ReleaseThen(l, k, remove, fate).0, now)
  {
    hide AttemptAll, SizeOf;
  }

  lemma ExecuteFresh(l: Local, k: Key, pkt: Packet, now: int, c0: Config, a: Action, fate: Fate)
    requires a.CloseOut? || a.Overflow? ==> l.flow.Some?
    requires a.Hold? || a.HoldRelease? || a.HoldInject? ==> Candidate(l.flow, pkt, now, c0).buf.Some?
    ensures FreshAt(Execute(l, k, pkt, now, c0, a, fate).0, now)
  {
    hide AttemptAll, SizeOf, R.Push, Attempt, PayloadOf;
    var f := Candidate(l.flow, pkt, now, c0);
    assert f.lastActive == now;
    match a
    case Forward =>
    case CloseOut => ReleaseFresh(Touched(l, now), k, false, now, fate);
    case Overflow => ReleaseFresh(l.(flow := Some(f)), k, false, now, fate);
    case Hold =>
    case HoldRelease(push, remove) =>
      ReleaseFresh(if push then Admit(l, f, pkt) else Append(l, f, pkt), k, remove, now, fate);
    case HoldInject(window, plan) =>
      var h := Admit(l, f, pkt);
      ReleaseFresh(h.(trace := AttemptAll(h.trace, k, Send, plan, fate).0), k, false, now, fate);
  }

  lemma LocalStepFresh(l: Local, count: nat, i: Input, fate: Fate)
    requires InputOk(i) && (l.flow.Some? ==> FlowValid(i.InputKey(), l.flow.value))
    ensures var m := LocalStep(l, count, i, fate).0;
            if i.Reap? then m.flow.Some? ==> l.flow.Some? && m.flow.value.lastActive == l.flow.value.lastActive
            else FreshAt(m, i.now)
  {
    match i
    case Deliver(pkt, now, c0, c1, c2) =>
      DecideHolds(l, count, pkt, now, c0, c1, c2);
      hide Decide, Execute, Candidate, FlowValid;
      ExecuteFresh(l, i.InputKey(), pkt, now, c0, Decide(l, count, pkt, now, c0, c1, c2), fate);
    case Touch(_, _) =>
    case Reap(k, now, idle) =>
      hide FlowValid, AttemptAll, SizeOf;
      if l.flow.Some? {
        ReleaseFresh(l, k, true, l.flow.value.lastActive, fate);
      }
  }

  // ---- whole runs ----

  /** One step of a history: the flow is as fresh as the input, or as it was. */
  lemma FreshStep(h: History, n: nat, k: Key)
    requires h.IsRun() && n < |h.ins| && k in h.worlds[n + 1].flows
    ensures var (i, f) := (h.ins[n], h.worlds[n + 1].flows[k]);
            if i.InputKey() == k && !i.Reap? then f.lastActive == i.now
            else k in h.worlds[n].flows && f.lastActive == h.worlds[n].flows[k].lastActive
  {
    assert h.StepsAt(n);
    hide InputOk, LocalStep, FlowValid, Accounted, T.TruthfulWorld, T.Grows, History.StepsAt, RunAll, InputsOk;
    var w, i := h.worlds[n], h.ins[n];
    RunSoFar(h, n);
    RunReached(h.ins[..n], h.fate);
    StepIsLocal(w, i, h.fate);
    LocalStepFresh(Load(w, i.InputKey()), |w.flows|, i, h.fate);
    assert Load(h.worlds[n + 1], k).flow.Some?;
    if i.InputKey() != k {
      assert Load(h.worlds[n + 1], k).flow == Load(w, k).flow;
    }
  }

  lemma {:induction false} FreshSoFar(h: History, n: nat, k: Key)
    requires h.IsRun() && n <= |h.ins| && k in h.worlds[n].flows
    ensures LastSeen(h.ins[..n], k) == Some(h.worlds[n].flows[k].lastActive)
  {
    if n > 0 {
      hide History.StepsAt, FlowValid, Accounted;
      FreshStep(h, n - 1, k);
      assert h.ins[..n][..n - 1] == h.ins[..n - 1] && h.ins[..n][n - 1] == h.ins[n - 1];
      if k in h.worlds[n - 1].flows {
        FreshSoFar(h, n - 1, k);
      }
    }
  }

  /** The time stamp of a tabled flow is the time of the last packet or touch of its connection. */
  lemma LastActiveIsLastSeen(h: History, k: Key)
    requires h.IsRun() && k in h.End().flows
    ensures LastSeen(h.ins, k) == Some(h.End().flows[k].lastActive)
  {
    hide History.StepsAt, LastSeen;
    FreshSoFar(h, |h.ins|, k);
    assert h.ins[..|h.ins|] == h.ins;
  }

  /** One step of a history, seen from the one connection that it concerns. */
  lemma StepSeen(h: History, n: nat)
    requires h.IsRun() && n < |h.ins|
    ensures h.StepsAt(n)
    ensures var (w, i) := (h.worlds[n], h.ins[n]);
            var (l, k) := (Load(w, i.InputKey()), i.InputKey());
            && (l.flow.Some? ==> FlowValid(k, l.flow.value))
            && Load(h.worlds[n + 1], k).flow == LocalStep(l, |w.flows|, i, h.fate).0.flow
            && (h.SucceedsAt(n) ==> LocalStep(l, |w.flows|, i, h.fate).1)
  {
    assert h.StepsAt(n);
    hide InputOk, LocalStep, FlowValid, Accounted, T.TruthfulWorld, T.Grows, RunAll, InputsOk;
    RunSoFar(h, n);
    RunReached(h.ins[..n], h.fate);
    StepIsLocal(h.worlds[n], h.ins[n], h.fate);
  }

  lemma ReapStep(l: Local, k: Key, now: int, idle: int, fate: Fate)
    requires ReapFlow(l, k, now, idle, fate).1
    ensures ReapFlow(l, k, now, idle, fate).0.flow.Some? <==> l.flow.Some? && now - l.flow.value.lastActive <= idle
  {
    hide Release;
  }

  /** Garbage collection never evicts an active connection, and a pass that succeeds leaves no idle one: after a
    * successful visit a flow is in the table if and only if it was there and its connection has been seen within
    * the idle time. */
  lemma ReapedIffIdle(h: History, n: nat)
    requires h.IsRun() && n < |h.ins| && h.SucceedsAt(n) && h.ins[n].Reap?
    ensures var (i, k) := (h.ins[n], h.ins[n].key);
            k in h.worlds[n + 1].flows <==>
            k in h.worlds[n].flows && LastSeen(h.ins[..n], k).Some? && i.now - LastSeen(h.ins[..n], k).value <= i.idle
  {
    StepSeen(h, n);
    hide FlowValid, ReapFlow, LastSeen, History.StepsAt, History.SucceedsAt, History.IsRun, InputOk;
    var w, i := h.worlds[n], h.ins[n];
    ReapStep(Load(w, i.key), i.key, i.now, i.idle, h.fate);
    if i.key in w.flows {
      FreshSoFar(h, n, i.key);
    }
  }

  // ---- what leaves a flow collecting ----

  /** What must be true of a delivery that leaves the flow collecting as `m`. */
  ghost predicate KeepsCollecting(flow: Option<Flow>, pkt: Packet, now: int, c0: Config, m: Flow) {
    var closing := HasFlag(pkt.meta.flags, RST) || HasFlag(pkt.meta.flags, FIN);
    if PayloadOf(pkt) == [] then
      !closing && flow == Some(m.(lastActive := if flow.Some? then flow.value.lastActive else 0))
    else
      var f := Candidate(flow, pkt, now, c0);
      && !closing && !HasFlag(pkt.meta.flags, SYN)
      && f.phase == Collecting && f.buf.Some? && R.Push(f.buf.value, FragmentOf(pkt)).1 == R.Accepted
      && m == Joined(f, pkt)
      && |m.held| < c0.maxHeldPackets && now - m.collectStart <= c0.collectTimeout
  }

  lemma HoldKeeps(l: Local, count: nat, pkt: Packet, now: int, c0: Config, c1: Config, c2: Config)
    requires Ready(l, pkt) && Decide(l, count, pkt, now, c0, c1, c2).Hold?
    ensures Candidate(l.flow, pkt, now, c0).buf.Some?
    ensures KeepsCollecting(l.flow, pkt, now, c0, Joined(Candidate(l.flow, pkt, now, c0), pkt))
  {
    DecideHolds(l, count, pkt, now, c0, c1, c2);
    hide Decide, DecideSplit, HasFlag, PayloadOf, R.Push, Collected, OverBudget, Genuine;
    JoinedCollected(Candidate(l.flow, pkt, now, c0), pkt);
  }

  lemma ForwardKeeps(l: Local, count: nat, pkt: Packet, now: int, c0: Config, c1: Config, c2: Config)
    requires Ready(l, pkt) && Decide(l, count, pkt, now, c0, c1, c2).Forward?
    requires l.flow.Some? && l.flow.value.phase == Collecting
    ensures PayloadOf(pkt) == [] && !HasFlag(pkt.meta.flags, RST) && !HasFlag(pkt.meta.flags, FIN)
  {
    DecideHolds(l, count, pkt, now, c0, c1, c2);
    hide DecideHeld, HasFlag, PayloadOf, OverBudget, Genuine, Collected;
  }

  /** Every action but holding and forwarding ends the collecting, if it succeeds. */
  lemma OtherActionsEnd(l: Local, k: Key, pkt: Packet, now: int, c0: Config, a: Action, fate: Fate)
    requires a.CloseOut? || a.Overflow? ==> l.flow.Some?
    requires a.HoldRelease? || a.HoldInject? ==> Candidate(l.flow, pkt, now, c0).buf.Some?
    requires !a.Hold? && !a.Forward? && Execute(l, k, pkt, now, c0, a, fate).1
    ensures var m := Execute(l, k, pkt, now, c0, a, fate).0.flow;
            && (m.Some? ==> m.value.phase != Collecting)
            && (a.CloseOut? ==> m.None?)
  {
    hide AttemptAll, SizeOf, R.Push, Attempt, PayloadOf;
  }

  lemma DeliverKeeps(l: Local, count: nat, i: Input, fate: Fate)
    requires InputOk(i) && i.Deliver? && (l.flow.Some? ==> FlowValid(i.InputKey(), l.flow.value))
    requires LocalStep(l, count, i, fate).1
    ensures var m := LocalStep(l, count, i, fate).0.flow;
            m.Some? && m.value.phase == Collecting ==> KeepsCollecting(l.flow, i.pkt, i.now, i.c0, m.value)
  {
    var a := Decide(l, count, i.pkt, i.now, i.c0, i.c1, i.c2);
    DecideHolds(l, count, i.pkt, i.now, i.c0, i.c1, i.c2);
    hide Decide, DecideHeld, Candidate, FlowValid, InputOk, PayloadOf, HasFlag, Joined;
    if a.Hold? {
      hide KeepsCollecting;
      HoldKeeps(l, count, i.pkt, i.now, i.c0, i.c1, i.c2);
    } else if a.Forward? {
      if l.flow.Some? && l.flow.value.phase == Collecting {
        ForwardKeeps(l, count, i.pkt, i.now, i.c0, i.c1, i.c2);
      }
    } else {
      hide Execute, KeepsCollecting;
      OtherActionsEnd(l, i.InputKey(), i.pkt, i.now, i.c0, a, fate);
    }
  }

  /** A flow is collecting after a successful delivery only if the packet gave it reason to: it carried payload
    * that fits the window and no SYN, RST or FIN, it came in time and within the packet limit, and it was held
    * last and pushed; or it carried nothing and ended nothing, and changed nothing but the time stamp. */
  lemma CollectingOnlyIf(h: History, n: nat, k: Key)
    requires h.IsRun() && n < |h.ins| && h.SucceedsAt(n) && h.ins[n].Deliver? && h.ins[n].InputKey() == k
    requires k in h.worlds[n + 1].flows && h.worlds[n + 1].flows[k].phase == Collecting
    ensures KeepsCollecting(Load(h.worlds[n], k).flow, h.ins[n].pkt, h.ins[n].now, h.ins[n].c0,
            h.worlds[n + 1].flows[k])
  {
    StepSeen(h, n);
    hide FlowValid, LocalStep, KeepsCollecting, InputOk;
    DeliverKeeps(Load(h.worlds[n], k), |h.worlds[n].flows|, h.ins[n], h.fate);
  }

  lemma ClosingIsCloseOut(l: Local, count: nat, pkt: Packet, now: int, c0: Config, c1: Config, c2: Config)
    requires Ready(l, pkt) && l.flow.Some? && PayloadOf(pkt) == []
    requires HasFlag(pkt.meta.flags, RST) || HasFlag(pkt.meta.flags, FIN)
    ensures Decide(l, count, pkt, now, c0, c1, c2).CloseOut?
  {
  }

  /** A bare RST or FIN that was handled leaves no flow behind, whatever its phase was. */
  lemma ClosedIsForgotten(h: History, n: nat)
    requires h.IsRun() && n < |h.ins| && h.SucceedsAt(n) && h.ins[n].Deliver? && PayloadOf(h.ins[n].pkt) == []
    requires HasFlag(h.ins[n].pkt.meta.flags, RST) || HasFlag(h.ins[n].pkt.meta.flags, FIN)
    ensures h.ins[n].InputKey() !in h.worlds[n + 1].flows
  {
    StepSeen(h, n);
    hide FlowValid, HasFlag, PayloadOf, AttemptAll, Attempt, SizeOf;
    var w, i := h.worlds[n], h.ins[n];
    var l := Load(w, i.InputKey());
    if l.flow.Some? {
      ClosingIsCloseOut(l, |w.flows|, i.pkt, i.now, i.c0, i.c1, i.c2);
      OtherActionsEnd(l, i.InputKey(), i.pkt, i.now, i.c0, CloseOut, h.fate);
    }
  }
}
