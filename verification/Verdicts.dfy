/** What becomes of a flow with each delivery, as conditions on the inputs, the bytes and the counters.

  The theorems are about every delivery of every run without errors, under any reloads, in which no call of the step
  itself fails. Together they say for each delivery whether its connection is forgotten, collects on, is injected, or
  passes through from then on.
 */
module Verdicts {
  import opened Words
  import opened Wire
  import opened FlowMachine
  import opened FlowInvariants
  import opened Outcomes
  import opened Conservation
  import opened Settling
  import opened Runs
  import opened Activity
  import opened Beginnings
  import S = Segmentation
  import R = Reassembly
  import Tls
  import T = Transparency

  // ---- is there enough to split, and can it be split? ----

  /** So far the contiguous bytes do not tell whether to split, or where. */
  ghost predicate Undecided(mode: Mode, contig: Bytes, firstLen: nat, maxBuffer: int) {
    match mode
    case OtherMode => true
    case Immediate => |contig| < firstLen
    case TlsHello =>
      |contig| < 6 || exists n: u16 :: Tls.StartsHello(contig, n) && |contig| < 5 + n <= maxBuffer
  }

  /** The window to be split is complete: the first payload, or the announced record with its five bytes of header. */
  ghost predicate Complete(mode: Mode, contig: Bytes, firstLen: nat, maxBuffer: int, window: int) {
    window <= |contig| &&
    match mode
    case OtherMode => false
    case Immediate => window == firstLen
    case TlsHello => window <= maxBuffer && Tls.StartsHello(contig, window - 5)
  }

  /** The largest payload that a packet built from the template may carry. */
  ghost predicate LimitFor(tpl: Packet, cfg: Config, limit: int) {
    S.LargestAllowed(limit, |PayloadOf(tpl)|, tpl.meta.ipLen + tpl.meta.tcpLen, cfg.maxSegmentPayload)
  }

  /** The window is longer than its first piece, whose length is the configured one if that is allowed. */
  ghost predicate Splittable(tpl: Packet, window: int, cfg: Config) {
    exists limit: int :: LimitFor(tpl, cfg, limit) && Min(Max(cfg.splitChunk, 1), limit) < window
  }

  lemma PlanIff(g: Flow, window: nat, cfg: Config)
    requires Collected(g) && 1 <= window <= g.buf.value.prefix
    ensures Plan(g, window, cfg).Some? <==> Splittable(g.template.value, window, cfg)
  {
    hide PlanFrom, Genuine, R.Buf.Contig, S.SplitFirst, PayloadOf, LimitFor, MaxPayload;
    var tpl, max := g.template.value, MaxPayload(g.template.value, cfg);
    LimitIsMax(tpl, cfg);
    if max >= 1 {
      S.SplitFirstJoin(g.buf.value.Contig()[..window], cfg.splitChunk, max);
    }
  }

  lemma LimitIsMax(tpl: Packet, cfg: Config)
    ensures forall limit: int :: LimitFor(tpl, cfg, limit) <==> limit >= 1 && MaxPayload(tpl, cfg) == limit
  {
    hide PayloadOf, S.LargestAllowed;
    forall limit: int ensures LimitFor(tpl, cfg, limit) <==> limit >= 1 && MaxPayload(tpl, cfg) == limit {
      LimitPositive(tpl, cfg, limit);
      if limit >= 1 {
        S.ClampIsLargest(limit, |PayloadOf(tpl)|, tpl.meta.ipLen + tpl.meta.tcpLen, cfg.maxSegmentPayload);
      }
    }
  }

  lemma LimitPositive(tpl: Packet, cfg: Config, limit: int)
    ensures LimitFor(tpl, cfg, limit) ==> limit >= 1
  {
  }

  lemma HelloVerdict(contig: Bytes)
    ensures forall n: u16 :: Tls.DetectClientHelloRecord(contig) == Tls.Match(n) <==> Tls.StartsHello(contig, n)
    ensures forall n :: Tls.StartsHello(contig, n) ==> 0 < n < 0x1_0000 && |contig| >= 6
    ensures Tls.DetectClientHelloRecord(contig) == Tls.NeedMore <==> |contig| < 6
  {
    forall n: u16 ensures Tls.DetectClientHelloRecord(contig) == Tls.Match(n) <==> Tls.StartsHello(contig, n) {
      Tls.DetectIff(contig, n);
    }
  }

  /** The split decision, told from the bytes. */
  lemma SplitCases(g: Flow, mode: Mode, c1: Config, c2: Config)
    requires Collected(g) && g.firstLen >= 1
    ensures var a, contig := DecideSplit(g, mode, c1, c2), g.buf.value.Contig();
            && (a == Hold <==> Undecided(mode, contig, g.firstLen, c1.maxBufferBytes))
            && (a.HoldInject? <==>
                  exists window: int :: Complete(mode, contig, g.firstLen, c1.maxBufferBytes, window)
                                        && Splittable(g.template.value, window, c2))
            && (a.HoldInject? ==> Complete(mode, contig, g.firstLen, c1.maxBufferBytes, a.window)
                                  && a.window <= g.buf.value.prefix && Plan(g, a.window, c2) == Some(a.plan))
            && (a == Hold || a == HoldRelease(true, false) || a.HoldInject?)
  {
    hide Plan, Genuine, R.Buf.Contig, Splittable, Tls.DetectClientHelloRecord, Tls.StartsHello;
    var contig := g.buf.value.Contig();
    HelloVerdict(contig);
    forall window: nat | 1 <= window <= g.buf.value.prefix
      ensures Plan(g, window, c2).Some? <==> Splittable(g.template.value, window, c2)
    {
      PlanIff(g, window, c2);
    }
    OneWindow(mode, contig, g.firstLen, c1.maxBufferBytes);
    var v := Tls.DetectClientHelloRecord(contig);
    if mode == TlsHello && v.Match? {
      assert Tls.StartsHello(contig, v.recordLen);
      OnlyHello(contig, v.recordLen);
    }
  }

  lemma OnlyHello(contig: Bytes, n: u16)
    requires Tls.StartsHello(contig, n)
    ensures forall m :: Tls.StartsHello(contig, m) ==> m == n
  {
    hide Tls.StartsHello;
    HelloVerdict(contig);
    forall m | Tls.StartsHello(contig, m) ensures m == n {
      var k: u16 := m;
      assert Tls.DetectClientHelloRecord(contig) == Tls.Match(k);
    }
  }

  lemma OneWindow(mode: Mode, contig: Bytes, firstLen: nat, maxBuffer: int)
    ensures forall v, w | Complete(mode, contig, firstLen, maxBuffer, v)
                          && Complete(mode, contig, firstLen, maxBuffer, w) :: v == w
  {
    hide Tls.StartsHello;
    forall v, w | Complete(mode, contig, firstLen, maxBuffer, v) && Complete(mode, contig, firstLen, maxBuffer, w)
      ensures v == w
    {
      if mode == TlsHello {
        var n := v - 5;
        HelloVerdict(contig);
        OnlyHello(contig, n);
      }
    }
  }

  // ---- one delivery to one flow ----

  function PhaseOf(flow: Option<Flow>): Option<Phase> {
    if flow.Some? then Some(flow.value.phase) else None
  }

  /** FIN is bit 0 of the flags, SYN bit 1, RST bit 2. */
  predicate Closing(pkt: Packet) {
    pkt.meta.flags % 2 == 1 || pkt.meta.flags / 4 % 2 == 1
  }

  predicate Syn(pkt: Packet) {
    pkt.meta.flags / 2 % 2 == 1
  }

  predicate Reset(pkt: Packet) {
    pkt.meta.flags / 4 % 2 == 1
  }

  lemma FlagBits(pkt: Packet)
    ensures Closing(pkt) <==> HasFlag(pkt.meta.flags, RST) || HasFlag(pkt.meta.flags, FIN)
    ensures Syn(pkt) <==> HasFlag(pkt.meta.flags, SYN)
    ensures Reset(pkt) <==> HasFlag(pkt.meta.flags, RST)
  {
    assert pkt.meta.flags / 1 == pkt.meta.flags;
  }

  /** An accepted packet with payload that ends its connection: with SYN only if the packet is the flow's first and
    * carries RST. */
  predicate Ends(pkt: Packet, isNew: bool) {
    if Syn(pkt) then isNew && Reset(pkt) else Closing(pkt)
  }

  /** The packet is taken into a hold: it carries payload, its flow is collecting or there is room for a new one, and
    * the held bytes stay within their budget. */
  predicate TakenIn(l: Local, count: nat, i: Input)
    requires i.Deliver?
  {
    && PayloadOf(i.pkt) != []
    && (i.c0.maxHeldBytes > 0 ==> l.held + |i.pkt.data| <= i.c0.maxHeldBytes)
    && if l.flow.Some? then l.flow.value.phase == Collecting
       else && (i.c0.maxFlows > 0 ==> count < i.c0.maxFlows)
            && (i.c0.maxReassemblyBytes > 0 ==> l.reasm + |PayloadOf(i.pkt)| <= i.c0.maxReassemblyBytes)
  }

  /** Once held, the packet is within the limits of number and time, fits the window, and leaves the buffered bytes
    * within
    * their budget. */
  ghost predicate Fine(f: Flow, reasm: int, i: Input)
    requires i.Deliver? && f.buf.Some?
  {
    && |f.held| + 1 < i.c0.maxHeldPackets && i.now - f.collectStart <= i.c0.collectTimeout
    && R.Fits(f.buf.value.base, f.buf.value.max, FragmentOf(i.pkt))
    && (i.c0.maxReassemblyBytes > 0 ==>
          reasm + |R.Push(f.buf.value, FragmentOf(i.pkt)).0.bytes| - |f.buf.value.bytes| <= i.c0.maxReassemblyBytes)
  }

  lemma HeldCases(f: Flow, isNew: bool, reasm: int, i: Input)
    requires i.Deliver? && Collected(f) && Genuine(i.pkt)
    ensures Collected(Joined(f, i.pkt))
    ensures var a := DecideHeld(f, isNew, reasm, i.pkt, i.now, i.c0, i.c1, i.c2);
            if !Fine(f, reasm, i) then a.HoldRelease? && !a.remove
            else if Ends(i.pkt, isNew) then a == HoldRelease(true, true)
            else if Syn(i.pkt) then a == HoldRelease(true, false)
            else a == DecideSplit(Joined(f, i.pkt), i.c0.mode, i.c1, i.c2)
  {
    hide R.Push, R.Fits, DecideSplit, Genuine, HasFlag, R.Buf.WellFormed, Closing, Syn, Reset;
    FlagBits(i.pkt);
    JoinedCollected(f, i.pkt);
    R.AcceptedIffFits(f.buf.value, FragmentOf(i.pkt));
  }

  /** The decision, told from the guards. */
  lemma DecideCases(l: Local, count: nat, i: Input)
    requires i.Deliver? && Ready(l, i.pkt)
    ensures var a, f := Decide(l, count, i.pkt, i.now, i.c0, i.c1, i.c2), Candidate(l.flow, i.pkt, i.now, i.c0);
            if PayloadOf(i.pkt) == [] then a == if l.flow.Some? && Closing(i.pkt) then CloseOut else Forward
            else if !TakenIn(l, count, i) then
              a == if l.flow.Some? && l.flow.value.phase == Collecting then Overflow else Forward
            else Collected(f) && a == DecideHeld(f, l.flow.None?, l.reasm, i.pkt, i.now, i.c0, i.c1, i.c2)
  {
    hide DecideHeld, HasFlag, PayloadOf, Genuine, Closing;
    FlagBits(i.pkt);
    if l.flow.None? || l.flow.value.phase == Collecting {
      CandidateStaysCollected(l.flow, i.pkt, i.now, i.c0);
    }
  }

  lemma CandidateStaysCollected(flow: Option<Flow>, pkt: Packet, now: int, c0: Config)
    requires Genuine(pkt) && (flow.Some? ==> Collected(flow.value))
    ensures Collected(Candidate(flow, pkt, now, c0))
  {
    hide PayloadOf;
  }

  // ---- what an action comes to if no call fails ----

  /** None of the calls numbered from `start` up to `end` fails. */
  ghost predicate NoneFails(fate: Fate, start: nat, end: nat) {
    forall j: nat | start <= j < end :: fate(j)
  }

  lemma {:induction false} AllTried(t: Trace, k: Key, verb: Verb, ps: seq<Packet>, fate: Fate)
    ensures var (u, ok) := AttemptAll(t, k, verb, ps, fate);
            t <= u && (NoneFails(fate, |t|, |u|) ==> ok)
    decreases |ps|
  {
    if ps != [] {
      var e := Attempt(t, k, verb, ps[0], fate);
      if e.Done? {
        AllTried(t + [e], k, verb, ps[1..], fate);
        assert t <= t + [e];
      } else {
        assert !fate(|t|);
      }
    }
  }

  lemma ReleaseTried(l: Local, k: Key, remove: bool, fate: Fate)
    requires l.flow.Some?
    ensures var (m, ok) := Release(l, k, fate);
            && |l.trace| <= |m.trace|
            && (NoneFails(fate, |l.trace|, |m.trace|) ==> ok && PhaseOf(m.flow) == Some(PassThrough))
    ensures var (m, ok) := ReleaseThen(l, k, remove, fate);
            && |l.trace| <= |m.trace|
            && (NoneFails(fate, |l.trace|, |m.trace|) ==>
                  ok && PhaseOf(m.flow) == if remove then None else Some(PassThrough))
  {
    hide AttemptAll, SizeOf;
    AllTried(l.trace, k, Send, l.flow.value.held, fate);
  }

  lemma InjectTried(h: Local, k: Key, window: nat, plan: seq<Packet>, fate: Fate)
    requires h.flow.Some? && h.flow.value.buf.Some? && h.flow.value.template.Some?
    ensures var (m, ok) := Inject(h, k, window, plan, fate);
            && |h.trace| <= |m.trace|
            && (NoneFails(fate, |h.trace|, |m.trace|) ==> ok && PhaseOf(m.flow) == Some(Injected))
  {
    hide AttemptAll, SizeOf;
    AllTried(h.trace, k, Send, plan, fate);
    var (t, sent) := AttemptAll(h.trace, k, Send, plan, fate);
    AllTried(t, k, Drop, h.flow.value.held, fate);
    if !sent {
      ReleaseTried(h.(trace := t), k, false, fate);
    }
  }

  /** The phase in which each action leaves the flow. */
  function PhaseFrom(flow: Option<Flow>, a: Action): Option<Phase> {
    match a
    case Forward => PhaseOf(flow)
    case CloseOut => None
    case Overflow => Some(PassThrough)
    case Hold => Some(Collecting)
    case HoldRelease(_, remove) => if remove then None else Some(PassThrough)
    case HoldInject(_, _) => Some(Injected)
  }

  lemma ExecutePhase(l: Local, k: Key, i: Input, a: Action, fate: Fate)
    requires i.Deliver?
    requires a.CloseOut? || a.Overflow? ==> l.flow.Some?
    requires a.Hold? || a.HoldRelease? || a.HoldInject? ==>
               var f := Candidate(l.flow, i.pkt, i.now, i.c0);
               f.buf.Some? && f.phase == Collecting && f.template.Some?
    requires NoneFails(fate, |l.trace|, |Execute(l, k, i.pkt, i.now, i.c0, a, fate).0.trace|)
    ensures var (m, ok) := Execute(l, k, i.pkt, i.now, i.c0, a, fate);
            ok && PhaseOf(m.flow) == PhaseFrom(l.flow, a)
  {
    hide Release, ReleaseThen, Inject, R.Push, PayloadOf, Candidate;
    var f := Candidate(l.flow, i.pkt, i.now, i.c0);
    match a
    case Forward =>
    case CloseOut => ReleaseTried(Touched(l, i.now), k, false, fate);
    case Overflow => ReleaseTried(l.(flow := Some(f)), k, false, fate);
    case Hold =>
    case HoldRelease(push, remove) =>
      ReleaseTried(if push then Admit(l, f, i.pkt) else Append(l, f, i.pkt), k, remove, fate);
    case HoldInject(window, plan) => InjectTried(Admit(l, f, i.pkt), k, window, plan, fate);
  }

  // ---- deliveries of a run ----

  /** Step `n` of the history is a delivery. */
  predicate DeliversAt(h: History, n: nat) {
    n < |h.ins| && |h.worlds| == |h.ins| + 1 && h.ins[n].Deliver?
  }

  /** The connection's state when the delivery comes. */
  function Before(h: History, n: nat): Local
    requires DeliversAt(h, n)
  {
    Load(h.worlds[n], h.ins[n].InputKey())
  }

  function After(h: History, n: nat): Option<Phase>
    requires DeliversAt(h, n)
  {
    PhaseOf(Load(h.worlds[n + 1], h.ins[n].InputKey()).flow)
  }

  /** The delivery that began the connection's present life, or this one if there is none. */
  function FirstOf(h: History, n: nat): (first: Input)
    requires DeliversAt(h, n)
    ensures first.Deliver?
  {
    var b := BegunBy(h, n, h.ins[n].InputKey());
    if Before(h, n).flow.Some? && b.Some? && b.value < n && h.ins[b.value].Deliver? then h.ins[b.value] else h.ins[n]
  }

  /** What reassembly makes of these packets, from the first packet's sequence number on, in a buffer of the size
    * configured at the time. */
  ghost function BufferOf(first: Input, ps: seq<Packet>): R.Buf
    requires first.Deliver?
  {
    R.PushAll(R.NewBuf(first.pkt.meta.seqNo, first.c0.maxBufferBytes % 0x1_0000_0000), Fragments(ps))
  }

  ghost function ContigOf(first: Input, ps: seq<Packet>): Bytes
    requires first.Deliver?
  {
    R.PushAllWellFormed(first.pkt.meta.seqNo, first.c0.maxBufferBytes % 0x1_0000_0000, Fragments(ps));
    BufferOf(first, ps).Contig()
  }

  /** The delivered packet is held and everything about it is in order: it is taken in; with it the flow holds fewer
    * packets than the limit; it comes no later than the timeout allows after the flow's first packet; it fits the
    * window; and the buffered bytes stay within their budget. */
  ghost predicate Accepted(h: History, n: nat)
    requires DeliversAt(h, n)
  {
    var (l, i, first) := (Before(h, n), h.ins[n], FirstOf(h, n));
    var held := HeldBy(l.flow);
    && TakenIn(l, |h.worlds[n].flows|, i)
    && |held| + 1 < i.c0.maxHeldPackets
    && i.now - first.now <= i.c0.collectTimeout
    && R.Fits(first.pkt.meta.seqNo, first.c0.maxBufferBytes % 0x1_0000_0000, FragmentOf(i.pkt))
    && (i.c0.maxReassemblyBytes > 0 ==>
          l.reasm + |BufferOf(first, held + [i.pkt]).bytes| - |BufferOf(first, held).bytes| <= i.c0.maxReassemblyBytes)
  }

  /** No call of the step fails. */
  ghost predicate Undisturbed(h: History, n: nat)
    requires DeliversAt(h, n)
  {
    NoneFails(h.fate, |h.worlds[n].trace|, |h.worlds[n + 1].trace|)
  }

  /** The flow that a packet is about to join, in terms of the history. */
  lemma Joining(h: History, n: nat)
    requires h.IsRun() && h.NoErrors() && DeliversAt(h, n)
    requires TakenIn(Before(h, n), |h.worlds[n].flows|, h.ins[n])
    ensures var (l, i, first) := (Before(h, n), h.ins[n], FirstOf(h, n));
            var f := Candidate(l.flow, i.pkt, i.now, i.c0);
            && f.collectStart == first.now && f.firstLen == |PayloadOf(first.pkt)| && f.held == HeldBy(l.flow)
            && f.template == Some(i.pkt) && f.phase == Collecting && f.base == first.pkt.meta.seqNo
            && f.buf == Some(BufferOf(first, f.held))
            && f.buf.value.base == first.pkt.meta.seqNo
            && f.buf.value.max == first.c0.maxBufferBytes % 0x1_0000_0000
            && Joined(f, i.pkt).buf == Some(BufferOf(first, f.held + [i.pkt]))
  {
    hide RunAll, History.StepsAt, History.SucceedsAt, InputsOk, RunOk, PayloadOf, R.Push, R.PushAll, AllUse, AtRest,
         TakenIn;
    var (l, i, first) := (Before(h, n), h.ins[n], FirstOf(h, n));
    TakenMeans(l, |h.worlds[n].flows|, i);
    var k := i.InputKey();
    if l.flow.Some? {
      FlowKeepsItsStart(h, n, k);
      RestsSoFar(h, n, k);
      RestingIsPushed(k, l.flow.value);
    } else {
      NothingPushed(first);
    }
    var f := Candidate(l.flow, i.pkt, i.now, i.c0);
    R.PushAllWellFormed(first.pkt.meta.seqNo, first.c0.maxBufferBytes % 0x1_0000_0000, Fragments(f.held));
    FragmentsNext(f.held, i.pkt);
    PushAllNext(R.NewBuf(first.pkt.meta.seqNo, first.c0.maxBufferBytes % 0x1_0000_0000), Fragments(f.held),
                FragmentOf(i.pkt));
  }

  lemma TakenMeans(l: Local, count: nat, i: Input)
    requires i.Deliver? && TakenIn(l, count, i)
    ensures l.flow.Some? ==> l.flow.value.phase == Collecting
  {
  }

  lemma NothingPushed(first: Input)
    requires first.Deliver?
    ensures BufferOf(first, []) ==
            R.NewBuf(first.pkt.meta.seqNo, first.c0.maxBufferBytes % 0x1_0000_0000)
  {
    assert Fragments([]) == [];
  }

  lemma RestingIsPushed(k: Key, f: Flow)
    requires AtRest(None, k, Some(f)) && f.phase == Collecting
    ensures f.buf.Some? && f.buf.value == R.PushAll(R.NewBuf(f.base, f.buf.value.max), Fragments(f.held))
  {
    hide R.PushAll, R.Fits;
  }

  lemma RestsSoFar(h: History, n: nat, k: Key)
    requires h.IsRun() && h.NoErrors() && n <= |h.ins|
    ensures AtRest(None, k, Load(h.worlds[n], k).flow)
  {
    hide RunAll, History.StepsAt, History.SucceedsAt, InputsOk, RunOk, AllUse, AtRest, SplitsOf, InBudget;
    RunSoFar(h, n);
    RunSoFarOk(h, n);
    NoneIsAny(h.ins[..n]);
    RunRests(None, h.ins[..n], h.fate);
  }

  lemma NoneIsAny(ins: seq<Input>)
    ensures AllUse(None, ins)
  {
  }

  /** The step as one delivery to one flow. */
  lemma DeliveryStep(h: History, n: nat)
    requires h.IsRun() && DeliversAt(h, n)
    ensures var (l, i, w) := (Before(h, n), h.ins[n], h.worlds[n]);
            && Ready(l, i.pkt) && (l.flow.Some? ==> FlowValid(i.InputKey(), l.flow.value)) && l.trace == w.trace
            && var a := Decide(l, |w.flows|, i.pkt, i.now, i.c0, i.c1, i.c2);
               && (a.CloseOut? || a.Overflow? ==> l.flow.Some?)
               && (a.Hold? || a.HoldRelease? || a.HoldInject? ==> Candidate(l.flow, i.pkt, i.now, i.c0).buf.Some?)
               && var m := Execute(l, i.InputKey(), i.pkt, i.now, i.c0, a, h.fate).0;
                  h.worlds[n + 1].trace == m.trace && After(h, n) == PhaseOf(m.flow)
  {
    hide LocalStep, FlowValid, Decide, Execute, Genuine, RunAll, InputsOk, T.TruthfulWorld, T.Grows, Accounted,
         Candidate;
    assert h.StepsAt(n);
    StepSeen(h, n);
    var (l, i, w) := (Before(h, n), h.ins[n], h.worlds[n]);
    RunSoFar(h, n);
    RunReached(h.ins[..n], h.fate);
    StepIsLocal(w, i, h.fate);
    HandledStep(l, |w.flows|, i, h.fate);
  }

  lemma HandledStep(l: Local, count: nat, i: Input, fate: Fate)
    requires InputOk(i) && i.Deliver? && (l.flow.Some? ==> FlowValid(i.InputKey(), l.flow.value))
    ensures Ready(l, i.pkt)
    ensures var a := Decide(l, count, i.pkt, i.now, i.c0, i.c1, i.c2);
            && (a.CloseOut? || a.Overflow? ==> l.flow.Some?)
            && (a.Hold? || a.HoldRelease? || a.HoldInject? ==> Candidate(l.flow, i.pkt, i.now, i.c0).buf.Some?)
            && LocalStep(l, count, i, fate) == Execute(l, i.InputKey(), i.pkt, i.now, i.c0, a, fate)
  {
    hide Decide, Execute, Genuine;
    DecideHolds(l, count, i.pkt, i.now, i.c0, i.c1, i.c2);
  }

  // ---- results ----

  /** What an accepted packet without SYN, RST and FIN finds: the contiguous bytes with it. */
  ghost predicate Waits(h: History, n: nat)
    requires DeliversAt(h, n)
  {
    var (i, first) := (h.ins[n], FirstOf(h, n));
    var contig := ContigOf(first, HeldBy(Before(h, n).flow) + [i.pkt]);
    Undecided(i.c0.mode, contig, |PayloadOf(first.pkt)|, i.c1.maxBufferBytes)
  }

  /** The window is complete with this packet and can be split. */
  ghost predicate Splits(h: History, n: nat)
    requires DeliversAt(h, n)
  {
    var (i, first) := (h.ins[n], FirstOf(h, n));
    var contig := ContigOf(first, HeldBy(Before(h, n).flow) + [i.pkt]);
    exists window: int ::
      Complete(i.c0.mode, contig, |PayloadOf(first.pkt)|, i.c1.maxBufferBytes, window)
        && Splittable(i.pkt, window, i.c2)
  }

  lemma AcceptedIsFine(h: History, n: nat)
    requires h.IsRun() && h.NoErrors() && DeliversAt(h, n)
    requires TakenIn(Before(h, n), |h.worlds[n].flows|, h.ins[n])
    ensures var (l, i) := (Before(h, n), h.ins[n]);
            var f := Candidate(l.flow, i.pkt, i.now, i.c0);
            f.buf.Some? && (Accepted(h, n) <==> Fine(f, l.reasm, i))
  {
    hide TakenIn, R.Push, R.PushAll, R.Fits, Candidate, PayloadOf, BegunBy, History.StepsAt, History.SucceedsAt,
         FirstOf,
         FragmentOf;
    Joining(h, n);
    var (l, i, first) := (Before(h, n), h.ins[n], FirstOf(h, n));
    JoinedBytes(Candidate(l.flow, i.pkt, i.now, i.c0), i.pkt);
  }

  lemma JoinedBytes(f: Flow, pkt: Packet)
    requires f.buf.Some?
    ensures Joined(f, pkt).buf == Some(R.Push(f.buf.value, FragmentOf(pkt)).0)
  {
  }

  lemma FirstHasPayload(h: History, n: nat)
    requires h.IsRun() && h.NoErrors() && DeliversAt(h, n)
    requires TakenIn(Before(h, n), |h.worlds[n].flows|, h.ins[n])
    ensures |PayloadOf(FirstOf(h, n).pkt)| >= 1
  {
    hide PayloadOf, R.PushAll, R.Push, Genuine, BegunBy;
    Joining(h, n);
    DeliveryStep(h, n);
    hide FirstOf;
    TakenPayload(Before(h, n), |h.worlds[n].flows|, h.ins[n]);
  }

  lemma TakenPayload(l: Local, count: nat, i: Input)
    requires i.Deliver? && TakenIn(l, count, i)
    requires l.flow.Some? ==> FlowValid(i.InputKey(), l.flow.value)
    ensures Candidate(l.flow, i.pkt, i.now, i.c0).firstLen >= 1
  {
    hide PayloadOf;
  }

  /** The decision of a delivery, in terms of the history. */
  lemma Decides(h: History, n: nat)
    requires h.IsRun() && h.NoErrors() && DeliversAt(h, n)
    ensures var (l, i, w) := (Before(h, n), h.ins[n], h.worlds[n]);
            && Ready(l, i.pkt)
            && var a := Decide(l, |w.flows|, i.pkt, i.now, i.c0, i.c1, i.c2);
               if PayloadOf(i.pkt) == [] then a == if l.flow.Some? && Closing(i.pkt) then CloseOut else Forward
               else if !TakenIn(l, |w.flows|, i) then
                 a == if l.flow.Some? && l.flow.value.phase == Collecting then Overflow else Forward
               else if !Accepted(h, n) then a.HoldRelease? && !a.remove
               else if Ends(i.pkt, l.flow.None?) then a.HoldRelease? && a.remove
               else if Syn(i.pkt) then a.HoldRelease? && !a.remove
               else
                 && (a == Hold <==> Waits(h, n)) && (a.HoldInject? <==> Splits(h, n))
                 && (a.Hold? || a.HoldInject? || (a.HoldRelease? && !a.remove))
  {
    hide TakenIn, Accepted, Decide, DecideHeld, DecideSplit, Syn, Reset, PayloadOf, Closing, Fine, Candidate, FirstOf,
         Joined,
         History.StepsAt, History.SucceedsAt, R.PushAll, Genuine, Collected, Undecided, Complete, Splittable;
    var (l, i, w) := (Before(h, n), h.ins[n], h.worlds[n]);
    DeliveryStep(h, n);
    DecideCases(l, |w.flows|, i);
    if PayloadOf(i.pkt) != [] && TakenIn(l, |w.flows|, i) {
      var f := Candidate(l.flow, i.pkt, i.now, i.c0);
      AcceptedIsFine(h, n);
      HeldCases(f, l.flow.None?, l.reasm, i);
      JoiningSplit(h, n);
    }
  }

  lemma JoiningSplit(h: History, n: nat)
    requires h.IsRun() && h.NoErrors() && DeliversAt(h, n)
    requires TakenIn(Before(h, n), |h.worlds[n].flows|, h.ins[n])
    requires var i := h.ins[n];
             var f := Candidate(Before(h, n).flow, i.pkt, i.now, i.c0);
             f.buf.Some? && Collected(Joined(f, i.pkt))
    ensures var i := h.ins[n];
            var g := Joined(Candidate(Before(h, n).flow, i.pkt, i.now, i.c0), i.pkt);
            var a := DecideSplit(g, i.c0.mode, i.c1, i.c2);
            && (a == Hold <==> Waits(h, n)) && (a.HoldInject? <==> Splits(h, n))
            && (a.Hold? || a.HoldInject? || a == HoldRelease(true, false))
  {
    hide TakenIn, DecideSplit, PayloadOf, Candidate, FirstOf, History.StepsAt, History.SucceedsAt, R.PushAll, R.Push,
         Genuine, Undecided, Complete, Splittable, R.Buf.WellFormed, Before;
    var (l, i) := (Before(h, n), h.ins[n]);
    Joining(h, n);
    FirstHasPayload(h, n);
    var f := Candidate(l.flow, i.pkt, i.now, i.c0);
    JoinedKeeps(f, i.pkt);
    SplitCases(Joined(f, i.pkt), i.c0.mode, i.c1, i.c2);
  }

  lemma JoinedKeeps(f: Flow, pkt: Packet)
    requires f.buf.Some?
    ensures Joined(f, pkt).firstLen == f.firstLen && Joined(f, pkt).template == f.template
  {
  }

  lemma VerdictOf(h: History, n: nat)
    requires h.IsRun() && h.NoErrors() && DeliversAt(h, n) && Undisturbed(h, n)
    ensures var (l, i, w) := (Before(h, n), h.ins[n], h.worlds[n]);
            Ready(l, i.pkt) && After(h, n) == PhaseFrom(l.flow, Decide(l, |w.flows|, i.pkt, i.now, i.c0, i.c1, i.c2))
  {
    hide Decide, Candidate, Execute, PhaseFrom, History.StepsAt, History.SucceedsAt, Genuine, FlowValid, Collected;
    var (l, i, w) := (Before(h, n), h.ins[n], h.worlds[n]);
    DeliveryStep(h, n);
    DecidedFlow(l, |w.flows|, i);
    ExecutePhase(l, i.InputKey(), i, Decide(l, |w.flows|, i.pkt, i.now, i.c0, i.c1, i.c2), h.fate);
  }

  lemma DecidedFlow(l: Local, count: nat, i: Input)
    requires i.Deliver? && Ready(l, i.pkt)
    ensures var a, f := Decide(l, count, i.pkt, i.now, i.c0, i.c1, i.c2), Candidate(l.flow, i.pkt, i.now, i.c0);
            a.Hold? || a.HoldRelease? || a.HoldInject? ==> f.phase == Collecting && f.template.Some?
  {
    DecideHolds(l, count, i.pkt, i.now, i.c0, i.c1, i.c2);
    hide Decide, Collected, Genuine, DecideHeld, PayloadOf;
  }

  /** A connection is collecting after a delivery if and only if: the packet carries nothing, ends nothing, and the
    * connection was collecting before; or the packet is accepted, has neither SYN, RST nor FIN, and the contiguous
    * bytes do not tell yet whether to split, or where. */
  lemma CollectingIff(h: History, n: nat)
    requires h.IsRun() && h.NoErrors() && DeliversAt(h, n) && Undisturbed(h, n)
    ensures var (l, pkt) := (Before(h, n), h.ins[n].pkt);
            After(h, n) == Some(Collecting) <==>
            if PayloadOf(pkt) == [] then PhaseOf(l.flow) == Some(Collecting) && !Closing(pkt)
            else Accepted(h, n) && !Syn(pkt) && !Closing(pkt) && Waits(h, n)
  {
    hide Decide, Closing, Syn, Reset, PayloadOf, TakenIn, Waits, Splits, Genuine, Collected;
    VerdictOf(h, n);
    Decides(h, n);
    AcceptedIsTaken(h, n);
  }

  /** A connection is injected after a delivery if and only if: it was before, and the packet is not a bare RST or FIN;
    * or the packet is accepted, has neither SYN, RST nor FIN, and with it the window is complete and can be split. */
  lemma InjectedIff(h: History, n: nat)
    requires h.IsRun() && h.NoErrors() && DeliversAt(h, n) && Undisturbed(h, n)
    ensures var (l, pkt) := (Before(h, n), h.ins[n].pkt);
            After(h, n) == Some(Injected) <==>
            || (PhaseOf(l.flow) == Some(Injected) && !(PayloadOf(pkt) == [] && Closing(pkt)))
            || (PayloadOf(pkt) != [] && Accepted(h, n) && !Syn(pkt) && !Closing(pkt)
                && Splits(h, n))
  {
    hide Decide, Closing, Syn, Reset, PayloadOf, TakenIn, Waits, Splits, Genuine, Collected;
    VerdictOf(h, n);
    Decides(h, n);
    AcceptedIsTaken(h, n);
    TakenWasCollecting(h, n);
  }

  /** A connection is not in the table after a delivery if and only if: the packet carries nothing, and ends the
    * connection or found none; or it carries payload, and is accepted and ends the connection, or found none and was
    * not taken in. A packet with payload and RST or FIN that is not accepted does not remove its flow. */
  lemma GoneIff(h: History, n: nat)
    requires h.IsRun() && h.NoErrors() && DeliversAt(h, n) && Undisturbed(h, n)
    ensures var (l, pkt, count) := (Before(h, n), h.ins[n].pkt, |h.worlds[n].flows|);
            After(h, n) == None <==>
            if PayloadOf(pkt) == [] then l.flow.None? || Closing(pkt)
            else (Accepted(h, n) && Ends(pkt, l.flow.None?)) || (l.flow.None? && !TakenIn(l, count, h.ins[n]))
  {
    hide Decide, Closing, Syn, Reset, PayloadOf, TakenIn, Waits, Splits, Genuine, Collected;
    VerdictOf(h, n);
    Decides(h, n);
    AcceptedIsTaken(h, n);
  }

  lemma AcceptedIsTaken(h: History, n: nat)
    requires DeliversAt(h, n)
    ensures Accepted(h, n) ==> TakenIn(Before(h, n), |h.worlds[n].flows|, h.ins[n])
  {
    hide TakenIn, R.PushAll, R.Fits;
  }

  lemma TakenWasCollecting(h: History, n: nat)
    requires DeliversAt(h, n)
    ensures TakenIn(Before(h, n), |h.worlds[n].flows|, h.ins[n]) ==> PhaseOf(Before(h, n).flow) in
                                                                     {None, Some(Collecting)}
  {
  }
}
