/** Invariants of the runs in which no step reported an error: what rests in the table, what each
  injection did, and, under one fixed configuration, the budgets and the split windows.
 */
module Runs {
  import opened Words
  import opened Wire
  import opened FlowMachine
  import opened FlowInvariants
  import opened Outcomes
  import opened Conservation
  import opened Settling
  import R = Reassembly
  import Tls
  import T = Transparency

  /** A record is announced but not complete, or not even announced. */
  predicate Incomplete(c: Config, contig: Bytes) {
    match Tls.DetectClientHelloRecord(contig)
    case NeedMore => true
    case Mismatch => false
    case Match(n) => |contig| < 5 + n <= c.maxBufferBytes
  }

  /** A collecting flow at rest under configuration `c`. */
  ghost predicate Waiting(c: Config, f: Flow)
    requires Collected(f)
  {
    && |f.held| < c.maxHeldPackets
    && c.mode != Immediate
    && (c.mode == TlsHello ==> Incomplete(c, f.buf.value.Contig()))
  }

  /** The length of the contiguous prefix before the newest packet came. */
  ghost function PrefixBefore(f: Flow): nat
    requires f.held != [] && f.buf.Some?
  {
    R.PushAll(R.NewBuf(f.base, f.buf.value.max), Fragments(f.held[..|f.held| - 1])).prefix
  }

  /** `cfg` is the one configuration of the run, if it has only one. */
  ghost predicate AtRest(cfg: Option<Config>, k: Key, flow: Option<Flow>) {
    flow.Some? && flow.value.phase == Collecting ==>
      FlowValid(k, flow.value) && Settled(flow.value) && (cfg.Some? ==> Waiting(cfg.value, flow.value))
  }

  /** What an injection worked on: a settled flow, a plan made for it, and with one configuration the
    * window that the mode asks for, first reached with the newest packet. */
  ghost predicate SplitOf(cfg: Option<Config>, e: Event)
    requires e.Split?
  {
    var g := e.flow;
    && FlowValid(e.key, g) && g.phase == Collecting && Settled(g)
    && 1 <= e.window <= g.buf.value.prefix
    && (exists c :: Plan(g, e.window, c) == Some(e.plan))
    && (cfg.Some? ==>
          && Plan(g, e.window, cfg.value) == Some(e.plan)
          && PrefixBefore(g) < e.window
          && (cfg.value.mode == Immediate ==> |g.held| == 1 && e.window == g.firstLen)
          && (cfg.value.mode == TlsHello ==>
                var v := Tls.DetectClientHelloRecord(g.buf.value.Contig());
                v.Match? && e.window == 5 + v.recordLen))
  }

  ghost predicate SplitsOf(cfg: Option<Config>, t: Trace) {
    forall i | 0 <= i < |t| && t[i].Split? :: SplitOf(cfg, t[i])
  }

  predicate Within(limit: int, used: int) {
    limit > 0 ==> used <= limit
  }

  ghost predicate InBudget(cfg: Option<Config>, w: World) {
    cfg.Some? ==>
      && Within(cfg.value.maxHeldBytes, w.held)
      && Within(cfg.value.maxReassemblyBytes, w.reasm)
      && Within(cfg.value.maxFlows, |w.flows|)
  }

  ghost predicate Uses(cfg: Option<Config>, i: Input) {
    i.Deliver? && cfg.Some? ==> i.c0 == cfg.value && i.c1 == cfg.value && i.c2 == cfg.value
  }

  ghost predicate AllUse(cfg: Option<Config>, ins: seq<Input>) {
    forall i | i in ins :: Uses(cfg, i)
  }

  // ---- what holding means ----

  /** A packet is only held and waited with if it was accepted, fits the budgets, and leaves the split undecided. */
  lemma HoldMeans(f: Flow, isNew: bool, reasm: int, pkt: Packet, now: int, c0: Config, c1: Config, c2: Config)
    requires Collected(f) && Genuine(pkt) && DecideHeld(f, isNew, reasm, pkt, now, c0, c1, c2) == Hold
    ensures var g := Joined(f, pkt);
            && R.Push(f.buf.value, FragmentOf(pkt)).1 == R.Accepted
            && Collected(g) && |g.held| < c0.maxHeldPackets
            && Within(c0.maxReassemblyBytes, Clamp(reasm + (g.buf.value.TotalBytes() - f.buf.value.TotalBytes())))
            && (c0.mode == TlsHello ==> Incomplete(c1, g.buf.value.Contig()))
            && (c0.mode == Immediate ==> g.firstLen == 0 || g.buf.value.prefix < g.firstLen)
  {
    hide Collected, Genuine, R.Push, Plan, R.Buf.Contig, Tls.DetectClientHelloRecord, R.Buf.WellFormed;
    T.PushInPlace(f, pkt);
    JoinedCollected(f, pkt);
    CollectedContig(Joined(f, pkt));
  }

  lemma CollectedContig(g: Flow)
    requires Collected(g)
    ensures g.buf.Some? && (forall x: nat | x < g.buf.value.prefix :: x in g.buf.value.bytes)
    ensures |g.buf.value.Contig()| == g.buf.value.prefix
  {
  }

  /** The first held packet makes the prefix at least as long as itself. */
  lemma FirstIsCovered(k: Key, g: Flow)
    requires FlowValid(k, g) && g.phase == Collecting && Settled(g)
    ensures g.firstLen <= g.buf.value.prefix
  {
    hide R.Push, Genuine, Belongs;
    var b := g.buf.value;
    if b.prefix < g.firstLen {
      var fs := Fragments(g.held);
      assert R.Covers(g.base, fs[0], b.prefix);
      assert R.Covered(g.base, b.max, fs, b.prefix) by {
        assert fs[0] in fs && R.Fits(g.base, b.max, fs[0]) && R.Covers(g.base, fs[0], b.prefix);
      }
      R.PushAllCovers(g.base, b.max, fs, b.prefix);
    }
  }

  /** A push leaves the old prefix where it was. */
  lemma PushExtendsPrefix(b: R.Buf, f: R.Fragment)
    requires b.WellFormed()
    ensures R.Push(b, f).0.WellFormed() && b.prefix <= R.Push(b, f).0.prefix
    ensures b.Contig() == R.Push(b, f).0.Contig()[..b.prefix]
  {
    R.PushKeepsWellFormed(b, f);
    var b' := R.Push(b, f).0;
    forall x: nat | x < b.prefix ensures x in b'.bytes && b'.bytes[x] == b.bytes[x] {
      if R.Push(b, f).1 == R.Accepted {
        R.AcceptedWrites(b, f, x);
      } else {
        R.RefusedKeepsContents(b, f);
      }
    }
    hide R.Push;
    assert forall x | 0 <= x < b.prefix :: b.Contig()[x] == b.bytes[x] && b'.Contig()[x] == b'.bytes[x];
  }

  /** Before the packet that completes a record came, the prefix was shorter than the record. */
  lemma WindowJustReached(c: Config, b: R.Buf, f: R.Fragment)
    requires b.WellFormed() && Incomplete(c, b.Contig())
    requires R.Push(b, f).0.WellFormed() && Tls.DetectClientHelloRecord(R.Push(b, f).0.Contig()).Match?
    ensures b.prefix < 5 + Tls.DetectClientHelloRecord(R.Push(b, f).0.Contig()).recordLen
  {
    PushExtendsPrefix(b, f);
    hide R.Push, R.Buf.WellFormed;
    var old', new' := b.Contig(), R.Push(b, f).0.Contig();
    if b.prefix >= 6 {
      Tls.VerdictIsStable(old', new'[b.prefix..]);
      assert new' == old' + new'[b.prefix..];
    }
  }

  lemma PrefixBeforeJoined(f: Flow, pkt: Packet)
    requires Pushed(f)
    ensures Joined(f, pkt).buf.Some? && Joined(f, pkt).held != []
    ensures PrefixBefore(Joined(f, pkt)) == f.buf.value.prefix
  {
    var g := Joined(f, pkt);
    R.PushAllWellFormed(f.base, f.buf.value.max, Fragments(f.held));
    JoinedMax(f, pkt);
    hide R.Push, R.PushAll;
    assert g.held[..|g.held| - 1] == f.held;
  }

  lemma JoinedMax(f: Flow, pkt: Packet)
    requires f.buf.Some?
    ensures Joined(f, pkt).buf.Some? && Joined(f, pkt).buf.value.max == f.buf.value.max
  {
  }

  /** A new flow, about to take its first packet, counts as pushed with nothing held. */
  lemma CandidatePushed(k: Key, flow: Option<Flow>, pkt: Packet, now: int, cfg: Config)
    requires flow.Some? ==> FlowValid(k, flow.value) && flow.value.phase == Collecting && Settled(flow.value)
    ensures Pushed(Candidate(flow, pkt, now, cfg))
  {
    hide R.Push, R.Fits;
    assert Fragments([]) == [];
  }

  // ---- one delivery ----

  lemma HeldRests(cfg: Option<Config>, k: Key, flow: Option<Flow>, isNew: bool, reasm: int, pkt: Packet, now: int,
                  c0: Config, c1: Config, c2: Config)
    requires Belongs(k, pkt) && PayloadOf(pkt) != [] && (cfg.Some? ==> c0 == cfg.value && c1 == cfg.value)
    requires flow.Some? ==> FlowValid(k, flow.value) && flow.value.phase == Collecting && Settled(flow.value)
    requires Collected(Candidate(flow, pkt, now, c0))
    requires DecideHeld(Candidate(flow, pkt, now, c0), isNew, reasm, pkt, now, c0, c1, c2) == Hold
    ensures AtRest(cfg, k, Some(Joined(Candidate(flow, pkt, now, c0), pkt)))
  {
    hide DecideHeld, FlowValid, Settled, Candidate, Incomplete, R.Push, R.Buf.Contig, Collected, Joined, FragmentOf;
    var f := Candidate(flow, pkt, now, c0);
    T.PushInPlace(f, pkt);
    HoldMeans(f, isNew, reasm, pkt, now, c0, c1, c2);
    JoinedSettled(k, flow, pkt, now, c0);
    CandidateValid(k, flow, pkt, now, c0);
    FirstIsCovered(k, Joined(f, pkt));
    FirstLenPositive(k, Joined(f, pkt));
  }

  lemma FirstLenPositive(k: Key, g: Flow)
    requires FlowValid(k, g)
    ensures g.firstLen >= 1
  {
  }

  /** Before the newest packet came, the window had not been reached. */
  lemma BeforeWindow(cfg: Config, k: Key, flow: Option<Flow>, pkt: Packet, now: int, window: nat)
    requires Belongs(k, pkt) && PayloadOf(pkt) != []
    requires AtRest(Some(cfg), k, flow) && (flow.Some? ==> FlowValid(k, flow.value) && flow.value.phase == Collecting)
    requires Collected(Candidate(flow, pkt, now, cfg)) && Collected(Joined(Candidate(flow, pkt, now, cfg), pkt))
    requires window >= 1
    requires var g := Joined(Candidate(flow, pkt, now, cfg), pkt);
             || (cfg.mode == Immediate && window == g.firstLen)
             || (cfg.mode == TlsHello && Tls.DetectClientHelloRecord(g.buf.value.Contig()).Match?
                 && window == 5 + Tls.DetectClientHelloRecord(g.buf.value.Contig()).recordLen)
    ensures var g := Joined(Candidate(flow, pkt, now, cfg), pkt);
            && g.held != []
            && PrefixBefore(g) < window
            && (cfg.mode == Immediate ==> |g.held| == 1)
  {
    var f := Candidate(flow, pkt, now, cfg);
    CandidatePushed(k, flow, pkt, now, cfg);
    PrefixBeforeJoined(f, pkt);
    if flow.Some? && cfg.mode == TlsHello {
      WindowJustReached(cfg, f.buf.value, FragmentOf(pkt));
    }
    hide R.Push, R.Buf.Contig, Tls.DetectClientHelloRecord, PrefixBefore, Pushed, Belongs, Genuine, R.Buf.WellFormed;
  }

  lemma InjectedFrom(cfg: Option<Config>, k: Key, flow: Option<Flow>, isNew: bool, reasm: int, pkt: Packet, now: int,
                     c0: Config, c1: Config, c2: Config)
    requires Belongs(k, pkt) && PayloadOf(pkt) != []
             && (cfg.Some? ==> c0 == cfg.value && c1 == cfg.value && c2 == cfg.value)
    requires flow.Some? ==> FlowValid(k, flow.value) && flow.value.phase == Collecting && Settled(flow.value)
    requires AtRest(cfg, k, flow)
    requires Collected(Candidate(flow, pkt, now, c0))
    requires DecideHeld(Candidate(flow, pkt, now, c0), isNew, reasm, pkt, now, c0, c1, c2).HoldInject?
    ensures var a := DecideHeld(Candidate(flow, pkt, now, c0), isNew, reasm, pkt, now, c0, c1, c2);
            SplitOf(cfg, Split(k, a.window, Joined(Candidate(flow, pkt, now, c0), pkt), a.plan))
  {
    hide DecideHeld, FlowValid, Settled, Candidate, Incomplete, R.Push, R.Buf.Contig, Collected, Joined, FragmentOf,
         AtRest, PrefixBefore, Plan, Tls.DetectClientHelloRecord, Belongs;
    var f := Candidate(flow, pkt, now, c0);
    BelongsGenuine(k, pkt);
    var a := DecideHeld(f, isNew, reasm, pkt, now, c0, c1, c2);
    T.DecideInjects(f, isNew, reasm, pkt, now, c0, c1, c2);
    JoinedSettled(k, flow, pkt, now, c0);
    CandidateValid(k, flow, pkt, now, c0);
    if cfg.Some? {
      BeforeWindow(cfg.value, k, flow, pkt, now, a.window);
    }
  }

  lemma BelongsGenuine(k: Key, pkt: Packet)
    requires Belongs(k, pkt)
    ensures Genuine(pkt)
  {
  }

  // ---- one step of one flow ----

  /** What a step adds to the trace and leaves at rest. */
  ghost predicate RestsAfter(cfg: Option<Config>, k: Key, l: Local, m: Local) {
    l.trace <= m.trace && AtRest(cfg, k, m.flow) && SplitsOf(cfg, m.trace[|l.trace|..])
  }

  lemma NoSplitIsFine(cfg: Option<Config>, t: Trace)
    requires NoSplit(t)
    ensures SplitsOf(cfg, t)
  {
    hide SplitOf;
  }

  lemma InjectionSplits(cfg: Option<Config>, k: Key, held: seq<Packet>, events: Trace, window: nat, g: Flow,
                        plan: seq<Packet>)
    requires Injection(k, held, events, window, g, plan) && SplitOf(cfg, Split(k, window, g, plan))
    ensures SplitsOf(cfg, events)
  {
    hide SplitOf;
  }

  lemma TouchedRests(cfg: Option<Config>, k: Key, f: Flow, now: int)
    requires AtRest(cfg, k, Some(f))
    ensures AtRest(cfg, k, Some(f.(lastActive := now)))
  {
    hide Genuine, Belongs, R.PushAll, R.Fits, R.Buf.Contig, Incomplete;
  }

  lemma DeliverRests(cfg: Option<Config>, l: Local, count: nat, i: Input, fate: Fate)
    requires InputOk(i) && (l.flow.Some? ==> FlowValid(i.InputKey(), l.flow.value)) && i.Deliver?
    requires LocalStep(l, count, i, fate).1 && Uses(cfg, i) && AtRest(cfg, i.InputKey(), l.flow)
    ensures RestsAfter(cfg, i.InputKey(), l, LocalStep(l, count, i, fate).0)
  {
    hide LocalStep, Decide, DecideHeld, FlowValid, Settled, Candidate, Joined, Waiting, Injection, NoSplit, SplitOf,
         SplitsOf, Genuine, Collected;
    var k, pkt := i.InputKey(), i.pkt;
    DeliverShape(l, count, i, fate);
    DecideHolds(l, count, pkt, i.now, i.c0, i.c1, i.c2);
    var a := Decide(l, count, pkt, i.now, i.c0, i.c1, i.c2);
    var f := Candidate(l.flow, pkt, i.now, i.c0);
    var m := LocalStep(l, count, i, fate).0;
    var events := m.trace[|l.trace|..];
    if a.HoldInject? && m.flow.Some? && m.flow.value.phase == Injected {
      InjectedFrom(cfg, k, l.flow, l.flow.None?, l.reasm, pkt, i.now, i.c0, i.c1, i.c2);
      InjectionSplits(cfg, k, HeldBy(l.flow) + [pkt], events, a.window, Joined(f, pkt), a.plan);
    } else {
      NoSplitIsFine(cfg, events);
      if m.flow.Some? && m.flow.value.phase == Collecting {
        if a.Hold? && f.buf.Some? && m.flow.value == Joined(f, pkt) {
          HeldRests(cfg, k, l.flow, l.flow.None?, l.reasm, pkt, i.now, i.c0, i.c1, i.c2);
        } else {
          TouchedRests(cfg, k, l.flow.value, i.now);
        }
      }
    }
  }

  lemma LocalStepRests(cfg: Option<Config>, l: Local, count: nat, i: Input, fate: Fate)
    requires InputOk(i) && (l.flow.Some? ==> FlowValid(i.InputKey(), l.flow.value))
    requires LocalStep(l, count, i, fate).1 && Uses(cfg, i) && AtRest(cfg, i.InputKey(), l.flow)
    ensures RestsAfter(cfg, i.InputKey(), l, LocalStep(l, count, i, fate).0)
  {
    if i.Deliver? {
      DeliverRests(cfg, l, count, i, fate);
    } else {
      hide LocalStep, FlowValid, AtRest, NoSplit, SplitsOf;
      OtherShape(l, count, i, fate);
      var m := LocalStep(l, count, i, fate).0;
      NoSplitIsFine(cfg, m.trace[|l.trace|..]);
      if m.flow.Some? && m.flow.value.phase == Collecting {
        var now :| m.flow.value == l.flow.value.(lastActive := now);
        TouchedRests(cfg, i.InputKey(), l.flow.value, now);
      }
      NotCollectingRests(cfg, i.InputKey(), m.flow);
    }
  }

  lemma NotCollectingRests(cfg: Option<Config>, k: Key, flow: Option<Flow>)
    ensures flow.None? || flow.value.phase != Collecting ==> AtRest(cfg, k, flow)
  {
  }

  // ---- budgets of one step ----

  /** The budgets after a step, given those before; `count` is the number of flows before it. */
  ghost predicate KeepsBudget(cfg: Config, l: Local, count: nat, m: Local) {
    && (Within(cfg.maxHeldBytes, l.held) ==> Within(cfg.maxHeldBytes, m.held))
    && (Within(cfg.maxReassemblyBytes, l.reasm) ==> Within(cfg.maxReassemblyBytes, m.reasm))
    && (m.flow.Some? && l.flow.None? && cfg.maxFlows > 0 ==> count < cfg.maxFlows)
  }

  /** Without a new hold both counters can only fall. */
  lemma ReleasedBudget(cfg: Config, k: Key, l: Local, m: Local, count: nat, oh: nat, or: nat)
    requires Balanced(k, l, oh, or) && Balanced(k, m, oh, or)
    requires m.flow.Some? && m.flow.value.phase == Collecting ==>
               l.flow.Some? && exists now :: m.flow.value == l.flow.value.(lastActive := now)
    requires m.flow.Some? && l.flow.None? && cfg.maxFlows > 0 ==> count < cfg.maxFlows
    ensures KeepsBudget(cfg, l, count, m)
  {
    hide Genuine, Belongs, Collected;
  }

  lemma HoldBudget(cfg: Config, k: Key, l: Local, m: Local, count: nat, pkt: Packet, now: int, oh: nat, or: nat)
    requires Balanced(k, l, oh, or) && Balanced(k, m, oh, or)
    requires l.flow.Some? ==> l.flow.value.phase == Collecting
    requires Belongs(k, pkt) && PayloadOf(pkt) != []
    requires Collected(Candidate(l.flow, pkt, now, cfg))
             && m.flow == Some(Joined(Candidate(l.flow, pkt, now, cfg), pkt))
    requires DecideHeld(Candidate(l.flow, pkt, now, cfg), l.flow.None?, l.reasm, pkt, now, cfg, cfg, cfg) == Hold
    requires !OverBudget(cfg.maxHeldBytes, l.held, |pkt.data|)
    requires l.flow.None? && cfg.maxFlows > 0 ==> count < cfg.maxFlows
    ensures KeepsBudget(cfg, l, count, m)
  {
    hide DecideHeld, Genuine, R.Push, FlowValid, Collected, R.Buf.Contig, Incomplete, Candidate, SizeOf;
    var f := Candidate(l.flow, pkt, now, cfg);
    BelongsGenuine(k, pkt);
    T.PushInPlace(f, pkt);
    HoldMeans(f, l.flow.None?, l.reasm, pkt, now, cfg, cfg, cfg);
    CandidateValid(k, l.flow, pkt, now, cfg);
    SizeOfAppend(f.held, pkt);
  }

  lemma DecideCounts(l: Local, count: nat, pkt: Packet, now: int, c0: Config, c1: Config, c2: Config)
    requires Ready(l, pkt)
    ensures var a := Decide(l, count, pkt, now, c0, c1, c2);
            (a.Hold? || a.HoldRelease? || a.HoldInject?) && l.flow.None? && c0.maxFlows > 0 ==> count < c0.maxFlows
  {
    hide DecideHeld, Candidate;
    DecideHeldIsHold(Candidate(l.flow, pkt, now, c0), l.flow.None?, l.reasm, pkt, now, c0, c1, c2);
  }

  lemma DeliverBudget(cfg: Config, l: Local, count: nat, i: Input, fate: Fate, oh: nat, or: nat)
    requires InputOk(i) && Balanced(i.InputKey(), l, oh, or) && i.Deliver?
    requires LocalStep(l, count, i, fate).1 && Uses(Some(cfg), i)
    ensures KeepsBudget(cfg, l, count, LocalStep(l, count, i, fate).0)
  {
    hide LocalStep, Decide, DecideHeld, FlowValid, Candidate, Joined, Injection, NoSplit, Genuine, Collected,
         KeepsBudget, Balanced, OverBudget;
    var k, pkt := i.InputKey(), i.pkt;
    BalancedValid(k, l, oh, or);
    DeliverShape(l, count, i, fate);
    DecideHolds(l, count, pkt, i.now, i.c0, i.c1, i.c2);
    DecideCounts(l, count, pkt, i.now, i.c0, i.c1, i.c2);
    LocalStepBalanced(l, count, i, fate, oh, or);
    var m := LocalStep(l, count, i, fate).0;
    var a := Decide(l, count, pkt, i.now, i.c0, i.c1, i.c2);
    if a.Hold? && m.flow.Some? && m.flow.value.phase == Collecting {
      HoldBudget(cfg, k, l, m, count, pkt, i.now, oh, or);
    } else {
      ReleasedBudget(cfg, k, l, m, count, oh, or);
    }
  }

  lemma BalancedValid(k: Key, l: Local, oh: nat, or: nat)
    requires Balanced(k, l, oh, or)
    ensures l.flow.Some? ==> FlowValid(k, l.flow.value)
  {
  }

  lemma LocalStepBudget(cfg: Config, l: Local, count: nat, i: Input, fate: Fate, oh: nat, or: nat)
    requires InputOk(i) && Balanced(i.InputKey(), l, oh, or)
    requires LocalStep(l, count, i, fate).1 && Uses(Some(cfg), i)
    ensures KeepsBudget(cfg, l, count, LocalStep(l, count, i, fate).0)
  {
    hide LocalStep, FlowValid, KeepsBudget, Balanced, NoSplit;
    if i.Deliver? {
      DeliverBudget(cfg, l, count, i, fate, oh, or);
    } else {
      BalancedValid(i.InputKey(), l, oh, or);
      OtherShape(l, count, i, fate);
      LocalStepBalanced(l, count, i, fate, oh, or);
      ReleasedBudget(cfg, i.InputKey(), l, LocalStep(l, count, i, fate).0, count, oh, or);
    }
  }

  // ---- the whole table, over whole runs ----

  ghost predicate Resting(cfg: Option<Config>, w: World) {
    && (forall k :: AtRest(cfg, k, Load(w, k).flow))
    && SplitsOf(cfg, w.trace)
    && InBudget(cfg, w)
  }

  lemma SplitsConcat(cfg: Option<Config>, t: Trace, u: Trace)
    requires t <= u && SplitsOf(cfg, t) && SplitsOf(cfg, u[|t|..])
    ensures SplitsOf(cfg, u)
  {
    hide SplitOf;
    forall i | 0 <= i < |u| && u[i].Split? ensures SplitOf(cfg, u[i]) {
      if i < |t| {
        assert u[i] == t[i];
      } else {
        assert u[i] == u[|t|..][i - |t|];
      }
    }
  }

  lemma StoreCount(w: World, k: Key, l: Local)
    ensures |Store(w, k, l).flows| <= |w.flows| + if l.flow.Some? && Load(w, k).flow.None? then 1 else 0
  {
    var f := Store(w, k, l).flows;
    if l.flow.Some? {
      assert f.Keys == w.flows.Keys + {k};
      if k in w.flows {
        assert f.Keys == w.flows.Keys;
      }
    } else if k in w.flows {
      assert w.flows.Keys == f.Keys + {k};
    } else {
      assert f == w.flows;
    }
  }

  lemma StepBudget(cfg: Config, w: World, i: Input, fate: Fate)
    requires Sane(w) && InputOk(i) && Step(w, i, fate).1 && Uses(Some(cfg), i) && InBudget(Some(cfg), w)
    ensures InBudget(Some(cfg), Step(w, i, fate).0)
  {
    hide FlowValid, Accounted, LocalStep, Balanced, Uses, InputOk;
    var k := i.InputKey();
    var oh, or := Sum(w.flows - {k}, f => HeldOf(f)), Sum(w.flows - {k}, f => BufferedOf(f));
    SaneIsBalanced(w, k);
    assert Load(w, k).flow.Some? ==> FlowValid(k, Load(w, k).flow.value);
    LocalStepBudget(cfg, Load(w, k), |w.flows|, i, fate, oh, or);
    StoreCount(w, k, LocalStep(Load(w, k), |w.flows|, i, fate).0);
  }

  lemma StepRests(cfg: Option<Config>, w: World, i: Input, fate: Fate)
    requires Reached(w) && InputOk(i) && Step(w, i, fate).1 && Uses(cfg, i) && Resting(cfg, w)
    ensures Resting(cfg, Step(w, i, fate).0)
  {
    hide FlowValid, Accounted, LocalStep, AtRest, SplitsOf, InBudget, T.TruthfulWorld, T.Grows, Uses, InputOk;
    if cfg.Some? {
      StepBudget(cfg.value, w, i, fate);
    } else {
      NoBudget(Step(w, i, fate).0);
    }
    StepIsLocal(w, i, fate);
    var k := i.InputKey();
    var l, w' := Load(w, k), Step(w, i, fate).0;
    LocalStepRests(cfg, l, |w.flows|, i, fate);
    SplitsConcat(cfg, w.trace, w'.trace);
  }

  lemma NoBudget(w: World)
    ensures InBudget(None, w)
  {
  }

  lemma {:induction false} RunRests(cfg: Option<Config>, ins: seq<Input>, fate: Fate)
    requires InputsOk(ins) && RunOk(ins, fate) && AllUse(cfg, ins)
    ensures Resting(cfg, RunAll(ins, fate))
    decreases |ins|
  {
    hide Sane, InputOk, Step, Reached, Resting, Uses;
    if ins == [] {
      EmptyRests(cfg);
    } else {
      var n := |ins| - 1;
      RunRests(cfg, ins[..n], fate);
      RunReached(ins[..n], fate);
      StepRests(cfg, RunAll(ins[..n], fate), ins[n], fate);
    }
  }

  lemma EmptyRests(cfg: Option<Config>)
    ensures Resting(cfg, EMPTY)
  {
  }

  // ---- results ----

  /** Budgets. Under one configuration, while no step has reported an error, the held bytes, the buffered bytes
    * and the number of flows stay within their caps, and a collecting flow holds fewer packets than its cap. */
  lemma BudgetsHold(cfg: Config, h: History, k: Key)
    requires h.IsRun() && h.NoErrors() && AllUse(Some(cfg), h.ins)
    ensures var w := h.End();
            && Within(cfg.maxHeldBytes, w.held)
            && Within(cfg.maxReassemblyBytes, w.reasm)
            && Within(cfg.maxFlows, |w.flows|)
            && (k in w.flows ==> w.flows[k].held == [] || |w.flows[k].held| < cfg.maxHeldPackets)
  {
    hide RunAll, History.StepsAt, History.SucceedsAt, InputsOk, RunOk, AllUse, Settled, SplitsOf, R.Buf.Contig,
         Incomplete;
    RunIsOk(h);
    RunRests(Some(cfg), h.ins, h.fate);
    var w := h.End();
    if k in w.flows {
      assert FlowValid(k, w.flows[k]);
      assert AtRest(Some(cfg), k, Load(w, k).flow);
    }
  }

  /** Under one configuration in tls-hello mode every flow that is still collecting has an incomplete record, or too few
    * bytes to tell; in immediate mode no flow is ever left collecting. */
  lemma CollectingMeansIncomplete(cfg: Config, h: History, k: Key)
    requires h.IsRun() && h.NoErrors() && AllUse(Some(cfg), h.ins)
    requires k in h.End().flows && h.End().flows[k].phase == Collecting
    ensures cfg.mode != Immediate
    ensures var f := h.End().flows[k];
            && Collected(f)
            && (cfg.mode == TlsHello ==>
                  var contig := f.buf.value.Contig();
                  || |contig| < 6
                  || exists n: u16 :: Tls.StartsHello(contig, n) && |contig| < 5 + n <= cfg.maxBufferBytes)
  {
    hide RunAll, History.StepsAt, History.SucceedsAt, InputsOk, RunOk, AllUse, Settled, SplitsOf, R.Buf.Contig,
         Incomplete, Genuine, R.Buf.WellFormed;
    RunIsOk(h);
    RunRests(Some(cfg), h.ins, h.fate);
    var w := h.End();
    assert AtRest(Some(cfg), k, Load(w, k).flow);
    if cfg.mode == TlsHello {
      CollectedContig(w.flows[k]);
      IncompleteIff(cfg, w.flows[k].buf.value.Contig());
    }
  }

  /** Incomplete in terms of bytes: too short to tell, or a record announced that is longer than what is there and not
    * longer than the buffer may become. */
  lemma IncompleteIff(c: Config, contig: Bytes)
    ensures Incomplete(c, contig) <==>
            |contig| < 6 || exists n: u16 :: Tls.StartsHello(contig, n) && |contig| < 5 + n <= c.maxBufferBytes
  {
    hide Tls.StartsHello, Tls.DetectClientHelloRecord;
    forall n: u16 ensures Tls.DetectClientHelloRecord(contig) == Tls.Match(n) <==> Tls.StartsHello(contig, n) {
      Tls.DetectIff(contig, n);
    }
    var v := Tls.DetectClientHelloRecord(contig);
    if v.Match? {
      assert Tls.StartsHello(contig, v.recordLen);
    }
  }
}
