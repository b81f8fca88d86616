/** What a step that reports no error does to its flow: one of two shapes.

  Either packets of the flow go out in order (possibly after the remains of a failed injection),
  or the plan goes out, the held packets are dropped and the flow is injected.
 */
module Outcomes {
  import opened Words
  import opened Wire
  import opened FlowMachine
  import S = Segmentation
  import T = Transparency
  import R = Reassembly
  import Tls

  function Dones(k: Key, verb: Verb, ps: seq<Packet>): Trace {
    seq(|ps|, i requires 0 <= i < |ps| => Done(k, verb, ps[i]))
  }

  /** Calls with rebuilt packets only: what a failed injection leaves in the trace. */
  ghost predicate Noise(k: Key, t: Trace) {
    forall i | 0 <= i < |t| :: (t[i].Done? || t[i].Failed?) && t[i].key == k && t[i].pkt.source == Rebuilt
  }

  function HeldBy(flow: Option<Flow>): seq<Packet> {
    if flow.Some? then flow.value.held else []
  }

  /** The events that send `out`, after noise and possibly before the removal of the flow. */
  ghost predicate Sends(k: Key, events: Trace, out: seq<Packet>) {
    exists noise, gone ::
      Noise(k, noise) && (gone == [] || gone == [Gone(k)]) && events == noise + Dones(k, Send, out) + gone
  }

  /** First shape: what was held and what arrived goes out in order or stays held; a packet without
    * payload may overtake what is held. */
  ghost predicate Ordinary(k: Key, held: seq<Packet>, pkts: seq<Packet>, events: Trace, held': seq<Packet>) {
    exists out ::
      && Sends(k, events, out)
      && (out + held' == held + pkts || (out == pkts && held' == held && forall p | p in pkts :: PayloadOf(p) == []))
  }

  /** Second shape: a completed injection. */
  ghost predicate Injection(k: Key, held: seq<Packet>, events: Trace, window: nat, g: Flow, plan: seq<Packet>) {
    && g.buf.Some? && g.template.Some? && g.held == held
    && (forall p | p in plan :: p.source == Rebuilt)
    && events == Dones(k, Send, plan) + Dones(k, Drop, held)
                 + [Split(k, window, g, plan)]
  }

  // ---- adapter calls ----

  lemma {:induction false} AttemptAllOk(t: Trace, k: Key, verb: Verb, ps: seq<Packet>, fate: Fate)
    ensures AttemptAll(t, k, verb, ps, fate).1 ==> AttemptAll(t, k, verb, ps, fate).0 == t + Dones(k, verb, ps)
    decreases |ps|
  {
    if ps != [] {
      var e := Attempt(t, k, verb, ps[0], fate);
      AttemptAllOk(t + [e], k, verb, ps[1..], fate);
      assert e.Done? ==> [e] + Dones(k, verb, ps[1..]) == Dones(k, verb, ps);
    }
  }

  lemma {:induction false} AttemptAllNoise(t: Trace, k: Key, verb: Verb, ps: seq<Packet>, fate: Fate)
    requires forall p | p in ps :: p.source == Rebuilt
    ensures var u := AttemptAll(t, k, verb, ps, fate).0;
            t <= u && Noise(k, u[|t|..])
    decreases |ps|
  {
    if ps != [] {
      var e := Attempt(t, k, verb, ps[0], fate);
      if e.Done? {
        AttemptAllNoise(t + [e], k, verb, ps[1..], fate);
        var u := AttemptAll(t, k, verb, ps, fate).0;
        assert u[|t|..] == [e] + u[|t| + 1..];
      }
    }
  }

  lemma ReleaseOk(l: Local, k: Key, fate: Fate)
    requires l.flow.Some? && Release(l, k, fate).1
    ensures var m := Release(l, k, fate).0;
            && m.trace == l.trace + Dones(k, Send, l.flow.value.held)
            && m.flow == Some(l.flow.value.(phase := PassThrough, template := None, held := [], buf := None))
  {
    hide AttemptAll, Dones;
    AttemptAllOk(l.trace, k, Send, l.flow.value.held, fate);
  }

  lemma SendsIntro(k: Key, noise: Trace, out: seq<Packet>, gone: Trace)
    requires Noise(k, noise) && (gone == [] || gone == [Gone(k)])
    ensures Sends(k, noise + Dones(k, Send, out) + gone, out)
  {
  }

  lemma DonesSplit(k: Key, verb: Verb, a: seq<Packet>, b: seq<Packet>)
    ensures Dones(k, verb, a + b) == Dones(k, verb, a) + Dones(k, verb, b)
  {
  }

  lemma OrdinaryIntro(k: Key, t: Trace, u: Trace, held: seq<Packet>, pkts: seq<Packet>, held': seq<Packet>,
                      noise: Trace, out: seq<Packet>, gone: Trace)
    requires Noise(k, noise) && (gone == [] || gone == [Gone(k)])
    requires u == t + (noise + Dones(k, Send, out) + gone)
    requires out + held' == held + pkts || (out == pkts && held' == held && forall p | p in pkts :: PayloadOf(p) == [])
    ensures t <= u && Ordinary(k, held, pkts, u[|t|..], held')
  {
    hide Dones;
    SendsIntro(k, noise, out, gone);
    assert u[|t|..] == noise + Dones(k, Send, out) + gone;
  }

  /** The outcome of a step: `pkts` is the delivered packet, or nothing. */
  ghost predicate Outcome(k: Key, l: Local, pkts: seq<Packet>, m: Local) {
    && l.trace <= m.trace
    && var events := m.trace[|l.trace|..];
       || Ordinary(k, HeldBy(l.flow), pkts, events, HeldBy(m.flow))
       || (HeldBy(m.flow) == [] &&
           exists window, g, plan :: Injection(k, HeldBy(l.flow) + pkts, events, window, g, plan))
  }

  lemma OutcomeOrdinary(k: Key, l: Local, pkts: seq<Packet>, m: Local, noise: Trace, out: seq<Packet>, gone: Trace)
    requires Noise(k, noise) && (gone == [] || gone == [Gone(k)])
    requires m.trace == l.trace + (noise + Dones(k, Send, out) + gone)
    requires var held, held' := HeldBy(l.flow), HeldBy(m.flow);
             out + held' == held + pkts || (out == pkts && held' == held && forall p | p in pkts :: PayloadOf(p) == [])
    ensures Outcome(k, l, pkts, m)
  {
    hide Ordinary, Dones, HeldBy, Injection, Noise;
    OrdinaryIntro(k, l.trace, m.trace, HeldBy(l.flow), pkts, HeldBy(m.flow), noise, out, gone);
  }

  // ---- each action ----

  lemma ReleaseThenOutcome(k: Key, l: Local, h: Local, pkts: seq<Packet>, remove: bool, fate: Fate)
    requires h.flow.Some? && h.flow.value.held == HeldBy(l.flow) + pkts && h.trace == l.trace
    requires ReleaseThen(h, k, remove, fate).1
    ensures Outcome(k, l, pkts, ReleaseThen(h, k, remove, fate).0)
  {
    hide Outcome, Release, Dones, Noise;
    ReleaseOk(h, k, fate);
    NoNoise(k);
    var out := h.flow.value.held;
    var gone := if remove then [Gone(k)] else [];
    assert out + [] == out;
    OutcomeOrdinary(k, l, pkts, ReleaseThen(h, k, remove, fate).0, [], out, gone);
  }

  lemma NoNoise(k: Key)
    ensures Noise(k, [])
  {
  }

  lemma FailedInjectionOutcome(k: Key, l: Local, h: Local, pkts: seq<Packet>, t: Trace, fate: Fate)
    requires h.flow.Some? && h.flow.value.held == HeldBy(l.flow) + pkts && l.trace <= t && Noise(k, t[|l.trace|..])
    requires Release(h.(trace := t), k, fate).1
    ensures Outcome(k, l, pkts, Release(h.(trace := t), k, fate).0)
  {
    hide Outcome, Release, Dones, Noise;
    ReleaseOk(h.(trace := t), k, fate);
    var out, noise := h.flow.value.held, t[|l.trace|..];
    var m := Release(h.(trace := t), k, fate).0;
    assert t == l.trace + noise;
    assert out + [] == out;
    assert m.trace == l.trace + (noise + Dones(k, Send, out) + []);
    OutcomeOrdinary(k, l, pkts, m, noise, out, []);
  }

  lemma InjectOutcome(k: Key, l: Local, h: Local, pkts: seq<Packet>, window: nat, plan: seq<Packet>, fate: Fate)
    requires h.flow.Some? && h.flow.value.buf.Some? && h.flow.value.template.Some?
    requires h.flow.value.held == HeldBy(l.flow) + pkts && h.trace == l.trace
    requires forall p | p in plan :: p.source == Rebuilt
    requires Inject(h, k, window, plan, fate).1
    ensures var m := Inject(h, k, window, plan, fate).0;
            && Outcome(k, l, pkts, m)
            && m.flow.Some? && (m.flow.value.phase == Injected || m.flow.value.phase == PassThrough)
            && (m.flow.value.phase == Injected ==>
                  l.trace <= m.trace && Injection(k, HeldBy(l.flow) + pkts, m.trace[|l.trace|..], window, h.flow.value,
                    plan))
  {
    hide AttemptAll, Release, Dones, Noise, Ordinary;
    var f := h.flow.value;
    var (t, ok) := AttemptAll(h.trace, k, Send, plan, fate);
    if !ok {
      AttemptAllNoise(h.trace, k, Send, plan, fate);
      ReleaseOk(h.(trace := t), k, fate);
      FailedInjectionOutcome(k, l, h, pkts, t, fate);
    } else {
      AttemptAllOk(h.trace, k, Send, plan, fate);
      AttemptAllOk(t, k, Drop, f.held, fate);
      var m := Inject(h, k, window, plan, fate).0;
      var events := Dones(k, Send, plan) + Dones(k, Drop, f.held)
                    + [Split(k, window, f, plan)];
      assert m.trace == l.trace + events;
      assert m.trace[|l.trace|..] == events;
      assert Injection(k, HeldBy(l.flow) + pkts, events, window, f, plan);
    }
  }

  lemma {:induction false} RunRebuilt(tpl: Packet, seqNo: u32, segs: seq<Bytes>, flags: u8, lastFlags: u8, ipid: u16)
    requires Decode(tpl.data) == Decoded(tpl.meta)
    ensures forall p | p in S.Run(tpl, seqNo, segs, flags, lastFlags, ipid) :: p.source == Rebuilt
    decreases |segs|
  {
    hide Decode;
    if segs != [] {
      RunRebuilt(tpl, Add32(seqNo, |segs[0]|), segs[1..], flags, lastFlags, (ipid + 1) % 0x1_0000);
    }
  }

  lemma {:induction false} TrimmedRebuilt(held: seq<Packet>, base: u32, window: nat, ipid: u16)
    requires forall p | p in held :: Decode(p.data) == Decoded(p.meta)
    ensures forall p | p in Trimmed(held, base, window, ipid) :: p.source == Rebuilt
    decreases |held|
  {
    hide Decode, Beyond;
    if held != [] {
      TrimmedRebuilt(held[1..], base, window, ipid);
      TrimmedRebuilt(held[1..], base, window, (ipid + 1) % 0x1_0000);
    }
  }

  lemma PlanRebuilt(g: Flow, window: nat, cfg: Config)
    requires Collected(g) && window <= g.buf.value.prefix && Plan(g, window, cfg).Some?
    ensures forall p | p in Plan(g, window, cfg).value :: p.source == Rebuilt
  {
    hide Decode, S.Run, Trimmed, WithoutPshFin, Get16, R.Buf.Contig, S.Chunks, S.SplitFirst;
    var tpl, b := g.template.value, g.buf.value;
    DecodedBounds(tpl.data, tpl.meta);
    var max := MaxPayload(tpl, cfg);
    var segs := S.SplitFirst(b.Contig()[..window], cfg.splitChunk, max);
    var quiet, ipid := WithoutPshFin(tpl.meta.flags), Get16(tpl.data, 4);
    var next: u16 := (ipid + |segs|) % 0x1_0000;
    RunRebuilt(tpl, g.base, segs, quiet, tpl.meta.flags, ipid);
    RunRebuilt(tpl, g.base, segs, quiet, quiet, ipid);
    RunRebuilt(tpl, Add32(g.base, window), S.Chunks(b.Contig()[window..], max), quiet, tpl.meta.flags, next);
    TrimmedRebuilt(g.held, g.base, window, next);
  }

  lemma ForwardOutcome(k: Key, l: Local, pkt: Packet, now: int, fate: Fate)
    requires PayloadOf(pkt) == [] || HeldBy(l.flow) == []
    requires Forwarded(Touched(l, now), k, pkt, fate).1
    ensures Outcome(k, l, [pkt], Forwarded(Touched(l, now), k, pkt, fate).0)
  {
    hide Outcome, Noise;
    NoNoise(k);
    assert [] + [pkt] == [pkt] && [pkt] + [] == [pkt];
    assert Dones(k, Send, [pkt]) == [Done(k, Send, pkt)];
    hide Dones;
    OutcomeOrdinary(k, l, [pkt], Forwarded(Touched(l, now), k, pkt, fate).0, [], [pkt], []);
  }

  /** Release, then send one more packet, then perhaps remove the flow. */
  lemma ReleaseSendOutcome(k: Key, l: Local, h: Local, pkt: Packet, remove: bool, fate: Fate)
    requires h.flow.Some? && h.flow.value.held == HeldBy(l.flow) && h.trace == l.trace
    requires Release(h, k, fate).1 && Forwarded(Release(h, k, fate).0, k, pkt, fate).1
    ensures var n := Forwarded(Release(h, k, fate).0, k, pkt, fate).0;
            Outcome(k, l, [pkt], if remove then Remove(n, k) else n)
  {
    ReleaseOk(h, k, fate);
    hide Outcome, Release, Noise;
    NoNoise(k);
    var held := HeldBy(l.flow);
    var gone := if remove then [Gone(k)] else [];
    DonesSplit(k, Send, held, [pkt]);
    assert Dones(k, Send, [pkt]) == [Done(k, Send, pkt)];
    var n := Forwarded(Release(h, k, fate).0, k, pkt, fate).0;
    var m := if remove then Remove(n, k) else n;
    assert m.trace == l.trace + ([] + Dones(k, Send, held + [pkt]) + gone);
    assert (held + [pkt]) + [] == held + [pkt];
    OutcomeOrdinary(k, l, [pkt], m, [], held + [pkt], gone);
  }

  lemma CloseOutOutcome(k: Key, l: Local, pkt: Packet, now: int, c0: Config, fate: Fate)
    requires l.flow.Some? && FlowValid(k, l.flow.value)
    requires Execute(l, k, pkt, now, c0, CloseOut, fate).1
    ensures Outcome(k, l, [pkt], Execute(l, k, pkt, now, c0, CloseOut, fate).0)
  {
    hide Outcome, Noise, Candidate, Release, Dones, Belongs, Collected;
    var h := Touched(l, now);
    if l.flow.value.phase == Collecting {
      ReleaseSendOutcome(k, l, h, pkt, true, fate);
    } else {
      NoNoise(k);
      DonesOne(k, pkt);
      assert [] + [pkt] == [pkt] && [pkt] + [] == [pkt];
      OutcomeOrdinary(k, l, [pkt], Execute(l, k, pkt, now, c0, CloseOut, fate).0, [], [pkt], [Gone(k)]);
    }
  }

  lemma DonesOne(k: Key, pkt: Packet)
    ensures Dones(k, Send, [pkt]) == [Done(k, Send, pkt)]
  {
  }

  lemma HoldOutcome(k: Key, l: Local, pkt: Packet, now: int, c0: Config)
    requires Candidate(l.flow, pkt, now, c0).buf.Some?
    ensures Outcome(k, l, [pkt], Admit(l, Candidate(l.flow, pkt, now, c0), pkt))
  {
    hide Outcome, Noise, R.Push;
    NoNoise(k);
    assert Dones(k, Send, []) == [];
    var m := Admit(l, Candidate(l.flow, pkt, now, c0), pkt);
    assert [] + HeldBy(m.flow) == HeldBy(l.flow) + [pkt];
    OutcomeOrdinary(k, l, [pkt], m, [], [], []);
  }

  lemma CandidateHolds(flow: Option<Flow>, pkt: Packet, now: int, c0: Config)
    ensures Candidate(flow, pkt, now, c0).held == HeldBy(flow)
    ensures Candidate(flow, pkt, now, c0).template == Some(pkt)
  {
  }

  lemma ExecuteOutcome(k: Key, l: Local, pkt: Packet, now: int, c0: Config, a: Action, fate: Fate)
    requires l.flow.Some? ==> FlowValid(k, l.flow.value)
    requires a.CloseOut? || a.Overflow? ==> l.flow.Some?
    requires a.Forward? ==> PayloadOf(pkt) == [] || HeldBy(l.flow) == []
    requires a.Hold? || a.HoldRelease? || a.HoldInject? ==> Candidate(l.flow, pkt, now, c0).buf.Some?
    requires a.HoldInject? ==> forall p | p in a.plan :: p.source == Rebuilt
    requires Execute(l, k, pkt, now, c0, a, fate).1
    ensures Outcome(k, l, [pkt], Execute(l, k, pkt, now, c0, a, fate).0)
  {
    var f := Candidate(l.flow, pkt, now, c0);
    CandidateHolds(l.flow, pkt, now, c0);
    hide Outcome, FlowValid, Candidate, Release, ReleaseThen, Inject, Forwarded, Touched, Remove, HeldBy, R.Push;
    match a {
      case Forward => ForwardOutcome(k, l, pkt, now, fate);
      case CloseOut => CloseOutOutcome(k, l, pkt, now, c0, fate);
      case Overflow => ReleaseSendOutcome(k, l, l.(flow := Some(f)), pkt, false, fate);
      case Hold => HoldOutcome(k, l, pkt, now, c0);
      case HoldRelease(push, remove) =>
        ReleaseThenOutcome(k, l, if push then Admit(l, f, pkt) else Append(l, f, pkt), [pkt], remove, fate);
      case HoldInject(window, plan) =>
        InjectOutcome(k, l, Admit(l, f, pkt), [pkt], window, plan, fate);
    }
  }

  function PacketsOf(i: Input): seq<Packet> {
    if i.Deliver? then [i.pkt] else []
  }

  lemma DecisionRebuilt(l: Local, count: nat, pkt: Packet, now: int, c0: Config, c1: Config, c2: Config)
    requires Ready(l, pkt)
    ensures var a := Decide(l, count, pkt, now, c0, c1, c2);
            a.HoldInject? ==> forall p | p in a.plan :: p.source == Rebuilt
  {
    DecideHolds(l, count, pkt, now, c0, c1, c2);
    hide Decide, DecideHeld, Candidate, Plan, R.Push, Collected, Genuine, Tls.DetectClientHelloRecord, R.Buf.Contig;
    var a := Decide(l, count, pkt, now, c0, c1, c2);
    if a.HoldInject? {
      var f := Candidate(l.flow, pkt, now, c0);
      T.DecideInjects(f, l.flow.None?, l.reasm, pkt, now, c0, c1, c2);
      PlanRebuilt(Joined(f, pkt), a.window, c2);
    }
  }

  lemma LocalStepOutcome(l: Local, count: nat, i: Input, fate: Fate)
    requires InputOk(i) && (l.flow.Some? ==> FlowValid(i.InputKey(), l.flow.value))
    requires LocalStep(l, count, i, fate).1
    ensures Outcome(i.InputKey(), l, PacketsOf(i), LocalStep(l, count, i, fate).0)
  {
    var k := i.InputKey();
    match i
    case Deliver(pkt, now, c0, c1, c2) =>
      DecideHolds(l, count, pkt, now, c0, c1, c2);
      DecisionRebuilt(l, count, pkt, now, c0, c1, c2);
      hide Decide, Execute, DecideHeld, Outcome, Candidate;
      ExecuteOutcome(k, l, pkt, now, c0, Decide(l, count, pkt, now, c0, c1, c2), fate);
    case Touch(_, now) =>
      IdleOutcome(k, l, Touched(l, now), []);
    case Reap(_, now, idle) =>
      hide Outcome;
      if l.flow.Some? && l.flow.value.phase == Collecting && now - l.flow.value.lastActive > idle {
        assert HeldBy(l.flow) + [] == l.flow.value.held;
        ReleaseThenOutcome(k, l, l, [], true, fate);
      } else if l.flow.Some? && now - l.flow.value.lastActive > idle {
        IdleOutcome(k, l, Remove(l, k), [Gone(k)]);
      } else {
        IdleOutcome(k, l, l, []);
      }
  }

  /** Nothing is sent and the hold stays as it is. */
  lemma IdleOutcome(k: Key, l: Local, m: Local, gone: Trace)
    requires HeldBy(m.flow) == HeldBy(l.flow) && m.trace == l.trace + gone && (gone == [] || gone == [Gone(k)])
    ensures Outcome(k, l, [], m)
  {
    hide Outcome, Noise;
    NoNoise(k);
    assert Dones(k, Send, []) == [];
    OutcomeOrdinary(k, l, [], m, [], [], gone);
  }
}
