/** Invariants of every run, whatever fails and however the configuration changes:
  the life cycle of flows and the exactness of the two byte counters.
 */
module FlowInvariants {
  import opened Wire
  import opened FlowMachine
  import R = Reassembly

  function HeldOf(flow: Option<Flow>): nat {
    if flow.Some? then SizeOf(flow.value.held) else 0
  }

  function BufferedOf(flow: Option<Flow>): nat {
    if flow.Some? && flow.value.buf.Some? then flow.value.buf.value.TotalBytes() else 0
  }

  /** The counters are this flow's share plus what the other flows account for. */
  ghost predicate Balanced(k: Key, l: Local, otherHeld: nat, otherReasm: nat) {
    && (l.flow.Some? ==> FlowValid(k, l.flow.value))
    && l.held == otherHeld + HeldOf(l.flow)
    && l.reasm == otherReasm + BufferedOf(l.flow)
  }

  lemma SizeOfAppend(ps: seq<Packet>, p: Packet)
    ensures SizeOf(ps + [p]) == SizeOf(ps) + |p.data|
  {
    assert (ps + [p])[..|ps|] == ps;
  }

  // ---- each operation keeps the balance ----

  lemma ReleaseBalanced(l: Local, k: Key, fate: Fate, oh: nat, or: nat)
    requires l.flow.Some? && Balanced(k, l, oh, or) && l.flow.value.phase == Collecting
    ensures Balanced(k, Release(l, k, fate).0, oh, or) && Release(l, k, fate).0.flow.Some?
  {
    hide AttemptAll, Genuine, Collected;
  }

  lemma RemoveBalanced(l: Local, k: Key, oh: nat, or: nat)
    requires Balanced(k, l, oh, or) && HeldOf(l.flow) == BufferedOf(l.flow) == 0
    ensures Balanced(k, Remove(l, k), oh, or)
  {
  }

  lemma ReleaseEmpties(l: Local, k: Key, fate: Fate)
    requires l.flow.Some? && Release(l, k, fate).1
    ensures var m := Release(l, k, fate).0;
            m.flow.Some? && m.flow.value.phase == PassThrough && HeldOf(m.flow) == BufferedOf(m.flow) == 0
  {
    hide AttemptAll;
  }

  lemma ReleaseThenBalanced(l: Local, k: Key, remove: bool, fate: Fate, oh: nat, or: nat)
    requires l.flow.Some? && Balanced(k, l, oh, or) && l.flow.value.phase == Collecting
    ensures Balanced(k, ReleaseThen(l, k, remove, fate).0, oh, or)
  {
    hide Release, Balanced, HeldOf, BufferedOf, Remove;
    ReleaseBalanced(l, k, fate, oh, or);
    if Release(l, k, fate).1 {
      ReleaseEmpties(l, k, fate);
      RemoveBalanced(Release(l, k, fate).0, k, oh, or);
    }
  }

  lemma InjectBalanced(l: Local, k: Key, window: nat, plan: seq<Packet>, fate: Fate, oh: nat, or: nat)
    requires l.flow.Some? && l.flow.value.buf.Some? && l.flow.value.template.Some? && Balanced(k, l, oh, or)
    requires l.flow.value.phase == Collecting
    ensures Balanced(k, Inject(l, k, window, plan, fate).0, oh, or)
  {
    hide AttemptAll, Genuine, Collected, Release;
    var t := AttemptAll(l.trace, k, Send, plan, fate).0;
    ReleaseBalanced(l.(trace := t), k, fate, oh, or);
  }

  /** The candidate flow is valid once the packet is among its held ones. */
  lemma CandidateValid(k: Key, flow: Option<Flow>, pkt: Packet, now: int, cfg: Config)
    requires flow.Some? ==> FlowValid(k, flow.value) && flow.value.phase == Collecting
    requires Belongs(k, pkt) && PayloadOf(pkt) != []
    ensures var f := Candidate(flow, pkt, now, cfg);
            && Collected(f) && HeldOf(Some(f)) == HeldOf(flow) && BufferedOf(Some(f)) == BufferedOf(flow)
            && FlowValid(k, f.(held := f.held + [pkt]))
            && FlowValid(k, Joined(f, pkt))
            && f.phase == Collecting && Joined(f, pkt).phase == Collecting
            && (flow.Some? ==> FlowValid(k, f))
  {
    hide Genuine, R.Push;
    var f := Candidate(flow, pkt, now, cfg);
    assert forall p | p in f.held + [pkt] :: p in f.held || p == pkt;
    R.PushKeepsWellFormed(f.buf.value, FragmentOf(pkt));
  }

  lemma AdmitBalanced(l: Local, k: Key, pkt: Packet, now: int, cfg: Config, oh: nat, or: nat)
    requires Balanced(k, l, oh, or) && (l.flow.Some? ==> l.flow.value.phase == Collecting)
    requires Belongs(k, pkt) && PayloadOf(pkt) != []
    ensures var f := Candidate(l.flow, pkt, now, cfg);
            && f.buf.Some?
            && Balanced(k, Append(l, f, pkt), oh, or) && Append(l, f, pkt).flow.Some?
            && Balanced(k, Admit(l, f, pkt), oh, or) && Admit(l, f, pkt).flow.Some?
            && Admit(l, f, pkt).flow.value == Joined(f, pkt)
            && Joined(f, pkt).buf.Some? && Joined(f, pkt).template.Some?
            && f.phase == Collecting && Joined(f, pkt).phase == Collecting
               && Append(l, f, pkt).flow.value.phase == Collecting
            && (l.flow.Some? ==> Balanced(k, l.(flow := Some(f)), oh, or))
  {
    hide FlowValid, Candidate, R.Push, Collected, Belongs;
    var f := Candidate(l.flow, pkt, now, cfg);
    CandidateValid(k, l.flow, pkt, now, cfg);
    SizeOfAppend(f.held, pkt);
    CollectedHas(f);
  }

  lemma CollectedHas(f: Flow)
    requires Collected(f)
    ensures f.buf.Some? && f.template.Some?
  {
  }

  lemma TouchedBalanced(l: Local, k: Key, now: int, oh: nat, or: nat)
    requires Balanced(k, l, oh, or)
    ensures Balanced(k, Touched(l, now), oh, or)
  {
    hide Belongs, Genuine, R.Buf.WellFormed;
  }

  lemma ForwardedBalanced(l: Local, k: Key, pkt: Packet, fate: Fate, oh: nat, or: nat)
    requires Balanced(k, l, oh, or)
    ensures Balanced(k, Forwarded(l, k, pkt, fate).0, oh, or)
    ensures Forwarded(l, k, pkt, fate).0.flow == l.flow
  {
  }

  lemma CloseOutBalanced(l: Local, k: Key, pkt: Packet, now: int, c0: Config, fate: Fate, oh: nat, or: nat)
    requires Balanced(k, l, oh, or) && l.flow.Some?
    ensures Balanced(k, Execute(l, k, pkt, now, c0, CloseOut, fate).0, oh, or)
  {
    var touched := Touched(l, now);
    TouchedBalanced(l, k, now, oh, or);
    var (m, ok) := if l.flow.value.phase == Collecting then Release(touched, k, fate) else (touched, true);
    if l.flow.value.phase == Collecting {
      ReleaseBalanced(touched, k, fate, oh, or);
    }
    if ok {
      if l.flow.value.phase == Collecting {
        ReleaseEmpties(touched, k, fate);
      }
      ForwardedBalanced(m, k, pkt, fate, oh, or);
      RemoveBalanced(Forwarded(m, k, pkt, fate).0, k, oh, or);
    }
  }

  lemma ExecuteBalanced(l: Local, k: Key, pkt: Packet, now: int, c0: Config, a: Action, fate: Fate, oh: nat, or: nat)
    requires Balanced(k, l, oh, or) && Belongs(k, pkt)
    requires a.CloseOut? || a.Overflow? ==> l.flow.Some?
    requires a.Overflow? || a.Hold? || a.HoldRelease? || a.HoldInject? ==>
               PayloadOf(pkt) != [] && (l.flow.Some? ==> l.flow.value.phase == Collecting)
    requires a.Hold? || a.HoldRelease? || a.HoldInject? ==> Candidate(l.flow, pkt, now, c0).buf.Some?
    ensures Balanced(k, Execute(l, k, pkt, now, c0, a, fate).0, oh, or)
  {
    hide Balanced, Candidate, Joined, Admit, Append, Release, ReleaseThen, Inject, Forwarded, Touched, Belongs, Remove;
    var f := Candidate(l.flow, pkt, now, c0);
    if a.CloseOut? {
      CloseOutBalanced(l, k, pkt, now, c0, fate, oh, or);
    } else if a.Forward? {
      TouchedBalanced(l, k, now, oh, or);
      ForwardedBalanced(Touched(l, now), k, pkt, fate, oh, or);
    } else {
      AdmitBalanced(l, k, pkt, now, c0, oh, or);
      match a {
        case Overflow =>
          ReleaseBalanced(l.(flow := Some(f)), k, fate, oh, or);
          ForwardedBalanced(Release(l.(flow := Some(f)), k, fate).0, k, pkt, fate, oh, or);
        case Hold =>
        case HoldRelease(push, remove) =>
          ReleaseThenBalanced(if push then Admit(l, f, pkt) else Append(l, f, pkt), k, remove, fate, oh, or);
        case HoldInject(window, plan) =>
          InjectBalanced(Admit(l, f, pkt), k, window, plan, fate, oh, or);
      }
    }
  }

  lemma LocalStepBalanced(l: Local, count: nat, i: Input, fate: Fate, oh: nat, or: nat)
    requires InputOk(i) && Balanced(i.InputKey(), l, oh, or)
    ensures Balanced(i.InputKey(), LocalStep(l, count, i, fate).0, oh, or)
  {
    var k := i.InputKey();
    match i
    case Deliver(pkt, now, c0, c1, c2) =>
      DecideHolds(l, count, pkt, now, c0, c1, c2);
      hide Decide, Execute, DecideHeld;
      ExecuteBalanced(l, k, pkt, now, c0, Decide(l, count, pkt, now, c0, c1, c2), fate, oh, or);
    case Touch(_, now) =>
      TouchedBalanced(l, k, now, oh, or);
    case Reap(_, now, idle) =>
      if l.flow.Some? {
        if l.flow.value.phase == Collecting {
          ReleaseThenBalanced(l, k, true, fate, oh, or);
        } else {
          RemoveBalanced(l, k, oh, or);
        }
      }
  }

  // ---- sums over the table ----

  ghost function Sum(flows: map<Key, Flow>, size: Option<Flow> -> nat): nat
    decreases |flows|
  {
    if flows == map[] then 0
    else
      var k :| k in flows;
      var rest := flows - {k};
      assert flows.Keys == rest.Keys + {k};
      size(Some(flows[k])) + Sum(rest, size)
  }

  /** The sum does not depend on the order in which flows are visited. */
  lemma {:induction false} SumSplit(flows: map<Key, Flow>, size: Option<Flow> -> nat, k: Key)
    requires k in flows
    ensures Sum(flows, size) == size(Some(flows[k])) + Sum(flows - {k}, size)
    decreases |flows|
  {
    var j :| j in flows && Sum(flows, size) == size(Some(flows[j])) + Sum(flows - {j}, size);
    if j != k {
      assert flows.Keys == (flows - {j}).Keys + {j};
      assert flows.Keys == (flows - {k}).Keys + {k};
      SumSplit(flows - {j}, size, k);
      SumSplit(flows - {k}, size, j);
      assert flows - {j} - {k} == flows - {k} - {j};
    }
  }

  /** The sum is one flow's share plus that of all others. */
  lemma SumAt(w: World, size: Option<Flow> -> nat, k: Key)
    requires size(None) == 0
    ensures Sum(w.flows, size) == size(Load(w, k).flow) + Sum(w.flows - {k}, size)
  {
    if k in w.flows {
      SumSplit(w.flows, size, k);
    } else {
      assert w.flows - {k} == w.flows;
    }
  }

  lemma StoreOthers(w: World, k: Key, l: Local)
    ensures Store(w, k, l).flows - {k} == w.flows - {k}
    ensures Load(Store(w, k, l), k).flow == l.flow
    ensures forall j | j != k :: Load(Store(w, k, l), j).flow == Load(w, j).flow
  {
  }

  ghost function HeldTotal(w: World): nat {
    Sum(w.flows, f => HeldOf(f))
  }

  ghost function BufferedTotal(w: World): nat {
    Sum(w.flows, f => BufferedOf(f))
  }

  /** The counters are exact. */
  ghost predicate Accounted(w: World) {
    w.held == HeldTotal(w) && w.reasm == BufferedTotal(w)
  }

  ghost predicate Sane(w: World) {
    Valid(w) && Accounted(w)
  }

  lemma SaneIsBalanced(w: World, k: Key)
    requires Sane(w)
    ensures Balanced(k, Load(w, k), Sum(w.flows - {k}, f => HeldOf(f)), Sum(w.flows - {k}, f => BufferedOf(f)))
  {
    hide FlowValid, HeldOf, BufferedOf;
    assert HeldOf(None) == 0 && BufferedOf(None) == 0 by {
      NothingForNone();
    }
    SumAt(w, f => HeldOf(f), k);
    SumAt(w, f => BufferedOf(f), k);
  }

  lemma NothingForNone()
    ensures HeldOf(None) == 0 && BufferedOf(None) == 0
  {
  }

  lemma BalancedIsSane(w: World, k: Key, l: Local)
    requires Valid(w)
    requires Balanced(k, l, Sum(w.flows - {k}, f => HeldOf(f)), Sum(w.flows - {k}, f => BufferedOf(f)))
    ensures Sane(Store(w, k, l))
  {
    hide FlowValid, HeldOf, BufferedOf;
    NothingForNone();
    StoreOthers(w, k, l);
    SumAt(Store(w, k, l), f => HeldOf(f), k);
    SumAt(Store(w, k, l), f => BufferedOf(f), k);
  }

  /** One step, with any adapter failures and any configurations, keeps flows valid and counters exact. */
  lemma StepKeepsSane(w: World, i: Input, fate: Fate)
    requires Sane(w) && InputOk(i)
    ensures Sane(Step(w, i, fate).0)
  {
    hide FlowValid, Balanced, LocalStep, Accounted, HeldOf, BufferedOf, InputOk;
    var k := i.InputKey();
    var oh, or := Sum(w.flows - {k}, f => HeldOf(f)), Sum(w.flows - {k}, f => BufferedOf(f));
    SaneIsBalanced(w, k);
    assert Load(w, k).flow.Some? ==> FlowValid(k, Load(w, k).flow.value);
    LocalStepBalanced(Load(w, k), |w.flows|, i, fate, oh, or);
    BalancedIsSane(w, k, LocalStep(Load(w, k), |w.flows|, i, fate).0);
  }

  // ---- runs ----

  ghost predicate InputsOk(ins: seq<Input>) {
    forall i | i in ins :: InputOk(i)
  }

  /** The worker after a whole history of inputs, carrying on even when a step reported an error. */
  ghost function RunAll(ins: seq<Input>, fate: Fate): (w: World)
    requires InputsOk(ins)
    ensures Sane(w)
    decreases |ins|
  {
    if ins == [] then EmptyIsSane(); EMPTY
    else
      var w := RunAll(ins[..|ins| - 1], fate);
      StepKeepsSane(w, ins[|ins| - 1], fate);
      Step(w, ins[|ins| - 1], fate).0
  }

  lemma EmptyIsSane()
    ensures Sane(EMPTY)
  {
  }

  // ---- histories ----

  /** A worker's history: its inputs and the worlds before, between and after them. */
  datatype History = History(ins: seq<Input>, worlds: seq<World>, fate: Fate) {

    function End(): World
      requires |worlds| > 0
    {
      worlds[|worlds| - 1]
    }

    ghost predicate StepsAt(i: nat) {
      && i < |ins| && i + 1 < |worlds|
      && InputOk(ins[i]) && Valid(worlds[i])
      && worlds[i + 1] == Step(worlds[i], ins[i], fate).0
    }

    /** Step `i` reported no error. */
    ghost predicate SucceedsAt(i: nat) {
      StepsAt(i) && Step(worlds[i], ins[i], fate).1
    }

    /** The worker started empty, and each input took it from one world to the next. */
    ghost predicate IsRun() {
      && |worlds| == |ins| + 1 && worlds[0] == EMPTY
      && forall i: nat {:trigger StepsAt(i)} | i < |ins| :: StepsAt(i)
    }

    ghost predicate NoErrors() {
      forall i: nat {:trigger SucceedsAt(i)} | i < |ins| :: SucceedsAt(i)
    }
  }

  lemma {:induction false} RunSoFar(h: History, n: nat)
    requires h.IsRun() && n <= |h.ins|
    ensures InputsOk(h.ins[..n]) && h.worlds[n] == RunAll(h.ins[..n], h.fate)
  {
    hide Sane, InputOk, Step, Valid;
    if n > 0 {
      RunSoFar(h, n - 1);
      assert h.StepsAt(n - 1);
      assert h.ins[..n][..n - 1] == h.ins[..n - 1] && h.ins[..n] == h.ins[..n - 1] + [h.ins[n - 1]];
    }
  }

  lemma RunIs(h: History)
    requires h.IsRun()
    ensures InputsOk(h.ins) && h.End() == RunAll(h.ins, h.fate)
  {
    hide RunAll, InputOk;
    RunSoFar(h, |h.ins|);
    assert h.ins[..|h.ins|] == h.ins;
  }

  /** Every sequence of inputs has a history, whatever the adapter does. */
  lemma {:induction false} HistoryOf(ins: seq<Input>, fate: Fate) returns (h: History)
    requires InputsOk(ins)
    ensures h.IsRun() && h.ins == ins && h.fate == fate
    decreases |ins|
  {
    hide Accounted, InputOk, Step, FlowValid;
    if ins == [] {
      h := History([], [EMPTY], fate);
    } else {
      var n := |ins| - 1;
      var g := HistoryOf(ins[..n], fate);
      RunIs(g);
      h := History(ins, g.worlds + [Step(g.End(), ins[n], fate).0], fate);
      forall i: nat | i < |ins| ensures h.StepsAt(i) {
        assert i < n ==> g.StepsAt(i) && ins[..n][i] == ins[i];
      }
    }
  }

  /** With exact counters no clamp bites: neither when a flow is cleared nor when a push changes its buffer. */
  lemma NoClampBites(w: World, k: Key, p: Packet)
    requires Sane(w) && k in w.flows
    ensures var f := w.flows[k];
            && SizeOf(f.held) <= w.held
            && (f.buf.Some? ==>
                  && 0 <= w.reasm - f.buf.value.TotalBytes()
                  && 0 <= w.reasm + (Joined(f, p).buf.value.TotalBytes() - f.buf.value.TotalBytes()))
  {
    hide FlowValid, R.Push, Sum;
    SaneIsBalanced(w, k);
  }

  /** In every reachable state, after failed sends and reloads alike, both counters are exact, so clamping
    * them at zero never changes a value. */
  lemma CountersAreExact(h: History, k: Key, p: Packet)
    requires h.IsRun()
    ensures var w := h.End();
            && w.held == HeldTotal(w)
            && w.reasm == BufferedTotal(w)
            && (k in w.flows ==>
                  var f := w.flows[k];
                  && Clamp(w.held - SizeOf(f.held)) == w.held - SizeOf(f.held)
                  && (f.buf.Some? ==>
                        var before, after := f.buf.value.TotalBytes(), Joined(f, p).buf.value.TotalBytes();
                        && Clamp(w.reasm - before) == w.reasm - before
                        && Clamp(w.reasm + (after - before)) == w.reasm + (after - before)))
  {
    hide RunAll, FlowValid, R.Push, HeldTotal, BufferedTotal, Step, InputOk;
    RunIs(h);
    var w := h.End();
    if k in w.flows {
      NoClampBites(w, k, p);
    }
  }

  /** In every reachable state a tabled flow is collecting with packets in its hold and a buffer, or it is
    * injected or passing through with neither; all it holds are captured packets of its own connection. */
  lemma FlowsAtRest(h: History, k: Key)
    requires h.IsRun() && k in h.End().flows
    ensures var f := h.End().flows[k];
            && (f.phase == Collecting <==> f.held != [])
            && (f.phase == Collecting <==> f.buf.Some?)
            && (f.processed <==> f.phase == Injected)
            && forall p | p in f.held :: Belongs(k, p) && PayloadOf(p) != []
  {
    hide RunAll, Genuine, Step, InputOk;
    RunIs(h);
    assert FlowValid(k, h.End().flows[k]);
  }
}
