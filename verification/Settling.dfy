/** What a flow still collecting at rest looks like, and what an injection starts from,
  for as long as no step reports an error.
 */
module Settling {
  import opened Wire
  import opened FlowMachine
  import opened Outcomes
  import R = Reassembly

  function Fragments(ps: seq<Packet>): seq<R.Fragment> {
    seq(|ps|, i requires 0 <= i < |ps| => FragmentOf(ps[i]))
  }

  /** The reassembly buffer is exactly the history of the held packets, none of which was refused. */
  ghost predicate Pushed(f: Flow) {
    && f.buf.Some? && f.buf.value.base == f.base
    && f.buf.value == R.PushAll(R.NewBuf(f.base, f.buf.value.max), Fragments(f.held))
    && forall i | 0 <= i < |f.held| :: R.Fits(f.base, f.buf.value.max, FragmentOf(f.held[i]))
  }

  /** Pushed, the template being the newest held packet and the oldest one fixing base and first length. */
  ghost predicate Settled(f: Flow) {
    && Pushed(f) && f.held != []
    && f.template == Some(f.held[|f.held| - 1])
    && f.held[0].meta.seqNo == f.base && f.firstLen == |PayloadOf(f.held[0])|
  }

  lemma FragmentsNext(ps: seq<Packet>, p: Packet)
    ensures Fragments(ps + [p]) == Fragments(ps) + [FragmentOf(p)]
  {
  }

  lemma PushAllNext(b: R.Buf, fs: seq<R.Fragment>, f: R.Fragment)
    ensures R.PushAll(b, fs + [f]) == R.Push(R.PushAll(b, fs), f).0
  {
    hide R.Push;
    assert (fs + [f])[..|fs|] == fs;
  }

  /** An accepted packet keeps the flow settled; a new flow is settled by its first packet. */
  lemma JoinedSettled(k: Key, flow: Option<Flow>, pkt: Packet, now: int, cfg: Config)
    requires flow.Some? ==> FlowValid(k, flow.value) && flow.value.phase == Collecting && Settled(flow.value)
    requires Genuine(pkt)
    ensures var f := Candidate(flow, pkt, now, cfg);
            && Collected(f) && Joined(f, pkt).phase == Collecting
            && (R.Push(f.buf.value, FragmentOf(pkt)).1 == R.Accepted ==> Settled(Joined(f, pkt)))
  {
    hide R.Push, R.Fits, Genuine, Belongs;
    var f := Candidate(flow, pkt, now, cfg);
    FragmentsNext(f.held, pkt);
    PushAllNext(R.NewBuf(f.base, f.buf.value.max), Fragments(f.held), FragmentOf(pkt));
    R.AcceptedIffFits(f.buf.value, FragmentOf(pkt));
    assert Fragments([]) == [];
    R.PushKeepsWellFormed(f.buf.value, FragmentOf(pkt));
    assert R.PushAll(R.NewBuf(f.base, f.buf.value.max), Fragments(f.held)) == f.buf.value;
  }

  // ---- the shape of a step ----

  ghost predicate NoSplit(t: Trace) {
    forall i | 0 <= i < |t| :: !t[i].Split?
  }

  /** Either no injection completed and a flow still collecting is as it was or has just taken the packet,
    * or an injection completed, carried out on the flow with the packet in it. */
  ghost predicate Shape(k: Key, l: Local, pkt: Packet, now: int, c0: Config, a: Action, m: Local) {
    && l.trace <= m.trace
    && var events := m.trace[|l.trace|..];
       if a.HoldInject? && m.flow.Some? && m.flow.value.phase == Injected then
         && Candidate(l.flow, pkt, now, c0).buf.Some?
         && Injection(k, HeldBy(l.flow) + [pkt], events, a.window, Joined(Candidate(l.flow, pkt, now, c0), pkt), a.plan)
       else
         && NoSplit(events)
         && (m.flow.Some? && m.flow.value.phase == Collecting ==>
               || (a.Hold? && Candidate(l.flow, pkt, now, c0).buf.Some?
                  && m.flow.value == Joined(Candidate(l.flow, pkt, now, c0), pkt))
               || (a.Forward? && l.flow.Some? && m.flow.value == l.flow.value.(lastActive := now)))
         && (m.flow.Some? && l.flow.None? ==> a.Hold? || a.HoldRelease? || a.HoldInject?)
  }

  lemma DonesNoSplit(k: Key, verb: Verb, ps: seq<Packet>)
    ensures NoSplit(Dones(k, verb, ps))
  {
  }

  lemma ForwardShape(k: Key, l: Local, pkt: Packet, now: int, c0: Config, fate: Fate)
    ensures Shape(k, l, pkt, now, c0, Forward, Execute(l, k, pkt, now, c0, Forward, fate).0)
  {
    hide Candidate;
  }

  lemma ReleasedShape(k: Key, l: Local, h: Local, pkt: Packet, now: int, c0: Config, a: Action, remove: bool,
                      fate: Fate)
    requires h.flow.Some? && h.trace == l.trace && a.HoldRelease?
    requires ReleaseThen(h, k, remove, fate).1
    ensures Shape(k, l, pkt, now, c0, a, ReleaseThen(h, k, remove, fate).0)
  {
    hide Release, Candidate, Dones, Joined, Injection;
    ReleaseOk(h, k, fate);
    DonesNoSplit(k, Send, h.flow.value.held);
  }

  lemma OverflowShape(k: Key, l: Local, h: Local, pkt: Packet, now: int, c0: Config, fate: Fate)
    requires l.flow.Some? && h.flow.Some? && h.trace == l.trace
    requires Release(h, k, fate).1
    ensures Shape(k, l, pkt, now, c0, Overflow, Forwarded(Release(h, k, fate).0, k, pkt, fate).0)
    ensures var n := Forwarded(Release(h, k, fate).0, k, pkt, fate).0;
            Shape(k, l, pkt, now, c0, CloseOut, Remove(n, k))
  {
    hide Release, Candidate, Dones, Joined, Injection;
    ReleaseOk(h, k, fate);
    DonesNoSplit(k, Send, h.flow.value.held);
  }

  lemma CloseOutShape(k: Key, l: Local, pkt: Packet, now: int, c0: Config, fate: Fate)
    requires l.flow.Some? && Execute(l, k, pkt, now, c0, CloseOut, fate).1
    ensures Shape(k, l, pkt, now, c0, CloseOut, Execute(l, k, pkt, now, c0, CloseOut, fate).0)
  {
    hide Release, Candidate, Joined, Injection;
    if l.flow.value.phase == Collecting {
      hide Shape;
      OverflowShape(k, l, Touched(l, now), pkt, now, c0, fate);
    }
  }

  lemma HoldInjectShape(k: Key, l: Local, pkt: Packet, now: int, c0: Config, a: Action, fate: Fate)
    requires a.HoldInject? && Candidate(l.flow, pkt, now, c0).buf.Some?
    requires forall p | p in a.plan :: p.source == Rebuilt
    requires Execute(l, k, pkt, now, c0, a, fate).1
    ensures Shape(k, l, pkt, now, c0, a, Execute(l, k, pkt, now, c0, a, fate).0)
  {
    hide AttemptAll, Release, Dones, R.Push, Candidate;
    var f := Candidate(l.flow, pkt, now, c0);
    CandidateHolds(l.flow, pkt, now, c0);
    var h := Admit(l, f, pkt);
    InjectOutcome(k, l, h, [pkt], a.window, a.plan, fate);
    FailedNoSplit(k, h, a.window, a.plan, fate);
    hide Inject, Injection, NoSplit, Joined, Outcome;
  }

  lemma FailedNoSplit(k: Key, h: Local, window: nat, plan: seq<Packet>, fate: Fate)
    requires h.flow.Some? && h.flow.value.buf.Some? && h.flow.value.template.Some?
    requires forall p | p in plan :: p.source == Rebuilt
    requires Inject(h, k, window, plan, fate).1
    ensures var m := Inject(h, k, window, plan, fate).0;
            m.flow.Some? && m.flow.value.phase != Injected ==> h.trace <= m.trace && NoSplit(m.trace[|h.trace|..])
  {
    hide AttemptAll, Release, Dones;
    var (t, ok) := AttemptAll(h.trace, k, Send, plan, fate);
    if !ok {
      AttemptAllNoise(h.trace, k, Send, plan, fate);
      ReleaseOk(h.(trace := t), k, fate);
      var out := h.flow.value.held;
      DonesNoSplit(k, Send, out);
      var m := Inject(h, k, window, plan, fate).0;
      assert m.trace == t + Dones(k, Send, out);
      assert t[|h.trace|..] + Dones(k, Send, out) == m.trace[|h.trace|..];
    }
  }

  lemma HoldShape(k: Key, l: Local, pkt: Packet, now: int, c0: Config)
    requires Candidate(l.flow, pkt, now, c0).buf.Some?
    ensures Shape(k, l, pkt, now, c0, Hold, Admit(l, Candidate(l.flow, pkt, now, c0), pkt))
  {
    hide Candidate, R.Push, Injection;
  }

  lemma ExecuteShape(k: Key, l: Local, pkt: Packet, now: int, c0: Config, a: Action, fate: Fate)
    requires a.CloseOut? || a.Overflow? ==> l.flow.Some?
    requires a.Hold? || a.HoldRelease? || a.HoldInject? ==> Candidate(l.flow, pkt, now, c0).buf.Some?
    requires a.HoldInject? ==> forall p | p in a.plan :: p.source == Rebuilt
    requires Execute(l, k, pkt, now, c0, a, fate).1
    ensures Shape(k, l, pkt, now, c0, a, Execute(l, k, pkt, now, c0, a, fate).0)
  {
    hide Shape, Release, ReleaseThen, Inject, Forwarded, Candidate, R.Push, Joined;
    var f := Candidate(l.flow, pkt, now, c0);
    match a {
      case Forward => ForwardShape(k, l, pkt, now, c0, fate);
      case CloseOut => CloseOutShape(k, l, pkt, now, c0, fate);
      case Overflow => OverflowShape(k, l, l.(flow := Some(f)), pkt, now, c0, fate);
      case Hold => HoldShape(k, l, pkt, now, c0);
      case HoldRelease(push, remove) =>
        ReleasedShape(k, l, if push then Admit(l, f, pkt) else Append(l, f, pkt), pkt, now, c0, a, remove, fate);
      case HoldInject(_, _) => HoldInjectShape(k, l, pkt, now, c0, a, fate);
    }
  }

  /** A step that is not a delivery completes no injection and leaves a collecting flow's contents alone. */
  ghost predicate QuietStep(l: Local, m: Local) {
    && l.trace <= m.trace && NoSplit(m.trace[|l.trace|..])
    && (m.flow.Some? && m.flow.value.phase == Collecting ==>
          l.flow.Some? && exists now :: m.flow.value == l.flow.value.(lastActive := now))
    && (m.flow.Some? ==> l.flow.Some?)
  }

  lemma OtherShape(l: Local, count: nat, i: Input, fate: Fate)
    requires InputOk(i) && (l.flow.Some? ==> FlowValid(i.InputKey(), l.flow.value)) && !i.Deliver?
    requires LocalStep(l, count, i, fate).1
    ensures QuietStep(l, LocalStep(l, count, i, fate).0)
  {
    hide Release, Dones, FlowValid;
    var k := i.InputKey();
    if l.flow.Some? {
      assert l.flow.value == l.flow.value.(lastActive := l.flow.value.lastActive);
      if i.Reap? && l.flow.value.phase == Collecting && Release(l, k, fate).1 {
        ReleaseOk(l, k, fate);
        DonesNoSplit(k, Send, l.flow.value.held);
      }
    }
  }

  /** The decision a delivery comes with, and the shape it has. */
  lemma DeliverShape(l: Local, count: nat, i: Input, fate: Fate)
    requires InputOk(i) && (l.flow.Some? ==> FlowValid(i.InputKey(), l.flow.value)) && i.Deliver?
    requires LocalStep(l, count, i, fate).1
    ensures Ready(l, i.pkt)
    ensures Shape(i.InputKey(), l, i.pkt, i.now, i.c0, Decide(l, count, i.pkt, i.now, i.c0, i.c1, i.c2),
            LocalStep(l, count, i, fate).0)
  {
    var k, pkt := i.InputKey(), i.pkt;
    DecideHolds(l, count, pkt, i.now, i.c0, i.c1, i.c2);
    DecisionRebuilt(l, count, pkt, i.now, i.c0, i.c1, i.c2);
    hide Decide, Execute, DecideHeld, Shape, Candidate;
    ExecuteShape(k, l, pkt, i.now, i.c0, Decide(l, count, pkt, i.now, i.c0, i.c1, i.c2), fate);
  }
}
