/** What a flow keeps from the packet that began it. */
module Beginnings {
  import opened Wire
  import opened FlowMachine
  import opened FlowInvariants
  import opened Activity
  import R = Reassembly

  /** The input that began the present life of connection `k`: the latest one before which it was not in the table and
    * after which it was. */
  function BegunBy(h: History, n: nat, k: Key): Option<nat>
    requires n < |h.worlds|
    decreases n
  {
    if n == 0 then None
    else if k in h.worlds[n].flows && k !in h.worlds[n - 1].flows then Some(n - 1)
    else BegunBy(h, n - 1, k)
  }

  /** The flow starts with this delivery: its time, its sequence number, the length of its payload, and a buffer of the
    * size configured then, as long as there is one. */
  predicate BornOf(f: Flow, i: Input) {
    && i.Deliver? && f.collectStart == i.now && f.base == i.pkt.meta.seqNo && f.firstLen == |PayloadOf(i.pkt)|
    && (f.buf.Some? ==> f.buf.value.max == i.c0.maxBufferBytes % 0x1_0000_0000)
  }

  /** What stays of a flow. */
  predicate SameStart(f: Flow, g: Flow) {
    && g.collectStart == f.collectStart && g.base == f.base && g.firstLen == f.firstLen
    && (g.buf.Some? ==> f.buf.Some? && g.buf.value.max == f.buf.value.max)
  }

  // ---- one step ----

  lemma JoinedStart(f: Flow, pkt: Packet)
    requires f.buf.Some?
    ensures SameStart(f, Joined(f, pkt))
  {
  }

  lemma ReleaseStart(l: Local, k: Key, remove: bool, fate: Fate)
    requires l.flow.Some?
    ensures var m := Release(l, k, fate).0.flow; m.Some? && SameStart(l.flow.value, m.value)
    ensures var m := ReleaseThen(l, k, remove, fate).0.flow; m.Some? ==> SameStart(l.flow.value, m.value)
  {
    hide AttemptAll, SizeOf;
  }

  lemma InjectStart(h: Local, k: Key, window: nat, plan: seq<Packet>, fate: Fate)
    requires h.flow.Some? && h.flow.value.buf.Some? && h.flow.value.template.Some?
    ensures var m := Inject(h, k, window, plan, fate).0.flow; m.Some? && SameStart(h.flow.value, m.value)
  {
    hide AttemptAll, SizeOf;
    ReleaseStart(h.(trace := AttemptAll(h.trace, k, Send, plan, fate).0), k, false, fate);
  }

  lemma ExecuteStart(l: Local, k: Key, pkt: Packet, now: int, c0: Config, a: Action, fate: Fate)
    requires a.CloseOut? || a.Overflow? ==> l.flow.Some?
    requires a.Hold? || a.HoldRelease? || a.HoldInject? ==> Candidate(l.flow, pkt, now, c0).buf.Some?
    ensures var m := Execute(l, k, pkt, now, c0, a, fate).0.flow;
            m.Some? ==> SameStart(Candidate(l.flow, pkt, now, c0), m.value)
    ensures a.Forward? ==> Execute(l, k, pkt, now, c0, a, fate).0.flow.Some? == l.flow.Some?
  {
    hide Release, ReleaseThen, Inject, R.Push, PayloadOf, SameStart;
    CandidateStart(l.flow, pkt, now, c0);
    var f := Candidate(l.flow, pkt, now, c0);
    match a
    case Forward =>
    case CloseOut =>
      ReleaseStart(Touched(l, now), k, false, fate);
      StartTrans(f, l.flow.value.(lastActive := now));
    case Overflow => ReleaseStart(l.(flow := Some(f)), k, false, fate);
    case Hold => JoinedStart(f, pkt);
    case HoldRelease(push, remove) =>
      JoinedStart(f, pkt);
      AppendStart(f, pkt);
      ReleaseStart(if push then Admit(l, f, pkt) else Append(l, f, pkt), k, remove, fate);
      StartTrans(f, Joined(f, pkt));
      StartTrans(f, f.(held := f.held + [pkt]));
    case HoldInject(window, plan) =>
      JoinedStart(f, pkt);
      InjectStart(Admit(l, f, pkt), k, window, plan, fate);
      StartTrans(f, Joined(f, pkt));
  }

  lemma AppendStart(f: Flow, pkt: Packet)
    ensures SameStart(f, f.(held := f.held + [pkt]))
  {
  }

  lemma StartTrans(f: Flow, g: Flow)
    requires SameStart(f, g)
    ensures forall m: Flow :: SameStart(g, m) ==> SameStart(f, m)
  {
  }

  /** Taking a packet in does not move the start of a flow that is there; a new one starts with the packet. */
  lemma CandidateStart(flow: Option<Flow>, pkt: Packet, now: int, c0: Config)
    ensures var f := Candidate(flow, pkt, now, c0);
            && (flow.Some? ==> SameStart(flow.value, f) && SameStart(flow.value, flow.value.(lastActive := now))
                               && SameStart(f, flow.value.(lastActive := now)))
            && (flow.None? ==> forall c1, c2 :: BornOf(f, Deliver(pkt, now, c0, c1, c2)))
            && SameStart(f, f)
  {
  }

  lemma LocalStepStart(l: Local, count: nat, i: Input, fate: Fate)
    requires InputOk(i) && (l.flow.Some? ==> FlowValid(i.InputKey(), l.flow.value))
    ensures var m := LocalStep(l, count, i, fate).0.flow;
            m.Some? ==> if l.flow.Some? then SameStart(l.flow.value, m.value) else BornOf(m.value, i)
  {
    match i
    case Deliver(pkt, now, c0, c1, c2) =>
      hide Decide, Execute, Candidate, FlowValid, SameStart, BornOf;
      DecideHolds(l, count, pkt, now, c0, c1, c2);
      var a := Decide(l, count, pkt, now, c0, c1, c2);
      ExecuteStart(l, i.InputKey(), pkt, now, c0, a, fate);
      CandidateStart(l.flow, pkt, now, c0);
      var f := Candidate(l.flow, pkt, now, c0);
      if l.flow.Some? {
        StartTrans(l.flow.value, f);
      } else {
        assert BornOf(f, Deliver(pkt, now, c0, c1, c2));
        BornTrans(f, i);
      }
    case Touch(_, _) =>
    case Reap(k, now, idle) =>
      hide FlowValid, ReleaseThen;
      if l.flow.Some? {
        ReleaseStart(l, k, true, fate);
      }
  }

  lemma BornTrans(f: Flow, i: Input)
    requires BornOf(f, i)
    ensures forall m: Flow :: SameStart(f, m) ==> BornOf(m, i)
  {
  }

  // ---- whole runs ----

  /** In every run, whatever fails and whatever is reloaded: a flow in the table was begun by a delivery, and the time
    * from which its collecting is timed, its first sequence number, the length of its first payload and the size of its
    * buffer are those of that delivery. No later packet changes them. */
  lemma {:induction false} FlowKeepsItsStart(h: History, n: nat, k: Key)
    requires h.IsRun() && n <= |h.ins| && k in h.worlds[n].flows
    ensures BegunBy(h, n, k).Some? && BegunBy(h, n, k).value < n
    ensures BornOf(h.worlds[n].flows[k], h.ins[BegunBy(h, n, k).value])
    ensures h.ins[BegunBy(h, n, k).value].InputKey() == k
    decreases n
  {
    hide History.StepsAt, BornOf, SameStart;
    if n > 0 {
      StartStep(h, n - 1, k);
      if k in h.worlds[n - 1].flows {
        FlowKeepsItsStart(h, n - 1, k);
        BornOn(h.worlds[n - 1].flows[k], h.worlds[n].flows[k], h.ins[BegunBy(h, n, k).value]);
      }
    }
  }

  lemma BornOn(f: Flow, g: Flow, i: Input)
    requires BornOf(f, i) && SameStart(f, g)
    ensures BornOf(g, i)
  {
  }

  lemma StartStep(h: History, n: nat, k: Key)
    requires h.IsRun() && n < |h.ins| && k in h.worlds[n + 1].flows
    ensures if k in h.worlds[n].flows then SameStart(h.worlds[n].flows[k], h.worlds[n + 1].flows[k])
            else BornOf(h.worlds[n + 1].flows[k], h.ins[n]) && h.ins[n].InputKey() == k
  {
    hide LocalStep, FlowValid, BornOf, History.StepsAt, InputOk;
    var w, i := h.worlds[n], h.ins[n];
    StepSeen(h, n);
    StepOkAt(h, n);
    if i.InputKey() == k {
      LocalStepStart(Load(w, k), |w.flows|, i, h.fate);
    } else {
      OthersStay(h, n, k);
    }
  }

  lemma StepOkAt(h: History, n: nat)
    requires h.StepsAt(n)
    ensures InputOk(h.ins[n])
  {
  }

  lemma OthersStay(h: History, n: nat, k: Key)
    requires h.StepsAt(n) && h.ins[n].InputKey() != k
    ensures Load(h.worlds[n + 1], k).flow == Load(h.worlds[n], k).flow
  {
    hide LocalStep, Valid;
  }

  /** The collect timeout runs from the packet that began the flow: a delivery with payload that comes later than it
    * allows never leaves the flow collecting, unless the step reports an error. */
  lemma LateIsNotCollecting(h: History, n: nat, k: Key)
    requires h.IsRun() && n < |h.ins| && h.SucceedsAt(n) && h.ins[n].Deliver? && h.ins[n].InputKey() == k
    requires k in h.worlds[n + 1].flows && h.worlds[n + 1].flows[k].phase == Collecting
    requires PayloadOf(h.ins[n].pkt) != []
    ensures BegunBy(h, n + 1, k).Some? && BegunBy(h, n + 1, k).value <= n
    ensures h.ins[n].now - h.ins[BegunBy(h, n + 1, k).value].now <= h.ins[n].c0.collectTimeout
  {
    CollectingOnlyIf(h, n, k);
    hide History.StepsAt, History.SucceedsAt, R.Push, PayloadOf, HasFlag;
    FlowKeepsItsStart(h, n + 1, k);
  }
}
