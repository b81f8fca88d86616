/** Stream transparency: whatever the worker sends for a connection is that connection's stream.

  It holds in every reachable state, with any adapter failures and any reloads. The same
  induction shows that a flow is injected at most once in its life.
 */
module Transparency {
  import opened Words
  import opened Wire
  import opened FlowMachine
  import opened FlowInvariants
  import S = Segmentation
  import R = Reassembly
  import Tls

  /** The stream a connection's payloads are cut from, or `None` if nothing is known about them. */
  type Known = Option<Stream>
  type Streams = Key -> Known

  /** No connection's stream is known. */
  const UNKNOWN: Streams := (k: Key) => None

  ghost predicate Cut(stream: Known, start: u32, payload: Bytes) {
    stream.Some? ==> CutFrom(stream.value, start, payload)
  }

  ghost predicate HoldsCut(stream: Known, b: R.Buf) {
    stream.Some? ==> R.Holds(stream.value, b)
  }

  /** The bytes of the packet, read off the wire, belong to connection `k` and are its stream's bytes. */
  ghost predicate Faithful(stream: Known, k: Key, p: Packet) {
    && Decode(p.data).Decoded?
    && var m := Decode(p.data).meta;
       KeyOf(m) == k && Cut(stream, m.seqNo, p.data[m.payloadOffset..])
  }

  ghost predicate AllFaithful(stream: Known, k: Key, ps: seq<Packet>) {
    forall p | p in ps :: Faithful(stream, k, p)
  }

  /** Every packet that went out is faithful to the stream of the flow it went out for, and so is what
    * every injected flow had collected. */
  ghost predicate Honest(streams: Streams, t: Trace) {
    forall i | 0 <= i < |t| ::
      && (t[i].Done? && t[i].verb == Send ==> Faithful(streams(t[i].key), t[i].key, t[i].pkt))
      && (t[i].Split? ==> FlowCut(streams(t[i].key), t[i].key, t[i].flow))
  }

  ghost predicate FlowCut(stream: Known, k: Key, f: Flow) {
    AllFaithful(stream, k, f.held) && (f.buf.Some? ==> HoldsCut(stream, f.buf.value))
  }

  /** How often the flow was injected since it was last removed. */
  function Injections(t: Trace, k: Key): nat {
    if t == [] then 0
    else
      var e := t[|t| - 1];
      if e == Gone(k) then 0 else Injections(t[..|t| - 1], k) + if e.Split? && e.key == k then 1 else 0
  }

  /** The trace grew by events of flow `k` only. */
  ghost predicate Grows(k: Key, t: Trace, u: Trace) {
    t <= u && forall i | |t| <= i < |u| :: u[i].key == k
  }

  /** The trace grew by adapter calls for flow `k` only, and what was sent is faithful. */
  ghost predicate Calls(stream: Known, k: Key, t: Trace, u: Trace) {
    && t <= u
    && forall i | |t| <= i < |u| ::
         u[i].key == k && (u[i].Done? || u[i].Failed?)
           && (u[i].Done? && u[i].verb == Send ==> Faithful(stream, k, u[i].pkt))
  }

  ghost predicate Truthful(streams: Streams, k: Key, l: Local) {
    && Honest(streams, l.trace)
    && (l.flow.Some? ==> FlowCut(streams(k), k, l.flow.value))
    && Injections(l.trace, k) == if l.flow.Some? && l.flow.value.phase == Injected then 1 else 0
  }

  // ---- growing the trace ----

  lemma {:induction false} AttemptAllCalls(stream: Known, t: Trace, k: Key, verb: Verb, ps: seq<Packet>, fate: Fate)
    requires verb == Send ==> AllFaithful(stream, k, ps)
    ensures Calls(stream, k, t, AttemptAll(t, k, verb, ps, fate).0)
    decreases |ps|
  {
    hide Faithful;
    if ps != [] {
      var e := Attempt(t, k, verb, ps[0], fate);
      if e.Done? {
        AttemptAllCalls(stream, t + [e], k, verb, ps[1..], fate);
      }
    }
  }

  lemma {:induction false} CallsInject(stream: Known, k: Key, t: Trace, u: Trace, j: Key)
    requires Calls(stream, k, t, u)
    ensures Injections(u, j) == Injections(t, j)
    decreases |u|
  {
    hide Faithful;
    if |t| < |u| {
      CallsInject(stream, k, t, u[..|u| - 1], j);
    } else {
      assert t == u;
    }
  }

  /** Events of other flows do not count. */
  lemma {:induction false} OthersInject(k: Key, t: Trace, u: Trace, j: Key)
    requires Grows(k, t, u) && j != k
    ensures Injections(u, j) == Injections(t, j)
    decreases |u|
  {
    if |t| < |u| {
      OthersInject(k, t, u[..|u| - 1], j);
    } else {
      assert t == u;
    }
  }

  lemma CallsTruthful(streams: Streams, k: Key, l: Local, m: Local)
    requires Truthful(streams, k, l) && Calls(streams(k), k, l.trace, m.trace)
    requires m.flow.Some? ==> FlowCut(streams(k), k, m.flow.value)
    requires (m.flow.Some? && m.flow.value.phase == Injected) <==> (l.flow.Some? && l.flow.value.phase == Injected)
    ensures Truthful(streams, k, m) && Grows(k, l.trace, m.trace)
  {
    CallsInject(streams(k), k, l.trace, m.trace, k);
    hide Faithful, Injections, FlowCut;
  }

  lemma CallsTwice(stream: Known, k: Key, t: Trace, u: Trace, v: Trace)
    requires Calls(stream, k, t, u) && Calls(stream, k, u, v)
    ensures Calls(stream, k, t, v)
  {
    hide Faithful;
  }

  lemma GrowsTwice(k: Key, t: Trace, u: Trace, v: Trace)
    requires Grows(k, t, u) && Grows(k, u, v)
    ensures Grows(k, t, v)
  {
  }

  // ---- operations ----

  lemma ReleaseCalls(stream: Known, k: Key, l: Local, fate: Fate)
    requires l.flow.Some? && FlowCut(stream, k, l.flow.value)
    ensures Calls(stream, k, l.trace, Release(l, k, fate).0.trace)
    ensures var m := Release(l, k, fate).0;
            m.flow.Some? && FlowCut(stream, k, m.flow.value)
            && m.flow.value.phase == if Release(l, k, fate).1 then PassThrough else l.flow.value.phase
  {
    hide AttemptAll, Calls, Faithful, HoldsCut;
    AttemptAllCalls(stream, l.trace, k, Send, l.flow.value.held, fate);
  }

  lemma RemoveTruthful(streams: Streams, k: Key, l: Local)
    requires Honest(streams, l.trace)
    ensures Truthful(streams, k, Remove(l, k)) && Grows(k, l.trace, Remove(l, k).trace)
  {
    hide Faithful;
  }

  lemma ReleaseThenTruthful(streams: Streams, k: Key, l: Local, remove: bool, fate: Fate)
    requires l.flow.Some? && Truthful(streams, k, l) && l.flow.value.phase != Injected
    ensures Truthful(streams, k, ReleaseThen(l, k, remove, fate).0)
    ensures Grows(k, l.trace, ReleaseThen(l, k, remove, fate).0.trace)
  {
    hide Release, Remove, Grows, Calls, FlowCut, Honest, Injections;
    ReleaseCalls(streams(k), k, l, fate);
    var m := Release(l, k, fate).0;
    CallsTruthful(streams, k, l, m);
    RemoveTruthful(streams, k, m);
    GrowsTwice(k, l.trace, m.trace, Remove(m, k).trace);
  }

  lemma ForwardedTruthful(streams: Streams, k: Key, l: Local, pkt: Packet, fate: Fate)
    requires Truthful(streams, k, l) && Faithful(streams(k), k, pkt)
    ensures Truthful(streams, k, Forwarded(l, k, pkt, fate).0)
    ensures Grows(k, l.trace, Forwarded(l, k, pkt, fate).0.trace)
  {
    hide FlowCut, Faithful, Injections, Honest;
    CallsTruthful(streams, k, l, Forwarded(l, k, pkt, fate).0);
  }

  lemma CallsHonest(streams: Streams, k: Key, t: Trace, u: Trace)
    requires Honest(streams, t) && Calls(streams(k), k, t, u)
    ensures Honest(streams, u)
  {
    hide Faithful, FlowCut;
  }

  lemma SplitHonest(streams: Streams, t: Trace, done: Event)
    requires Honest(streams, t) && done.Split? && FlowCut(streams(done.key), done.key, done.flow)
    ensures Honest(streams, t + [done])
  {
    hide Faithful, FlowCut;
  }

  lemma SplitCounts(t: Trace, done: Event)
    requires done.Split?
    ensures Injections(t + [done], done.key) == Injections(t, done.key) + 1
  {
    assert (t + [done])[..|t|] == t;
  }

  lemma SplitGrows(stream: Known, k: Key, t: Trace, u: Trace, done: Event)
    requires Calls(stream, k, t, u) && done.key == k
    ensures Grows(k, t, u + [done])
  {
    hide Faithful;
  }

  lemma ClearedCut(stream: Known, k: Key, l: Local, f: Flow)
    ensures var m := Clear(l, f, Injected);
            m.flow.Some? && FlowCut(stream, k, m.flow.value) && m.flow.value.phase == Injected && m.trace == l.trace
  {
  }

  lemma SplitTruthful(streams: Streams, k: Key, l: Local, u: Trace, f: Flow, done: Event)
    requires Truthful(streams, k, l) && l.flow == Some(f) && f.phase != Injected
    requires Calls(streams(k), k, l.trace, u) && done.Split? && done.key == k && done.flow == f
    ensures Truthful(streams, k, Clear(l.(trace := u + [done]), f, Injected))
    ensures Grows(k, l.trace, u + [done])
  {
    hide Faithful, Honest, Calls, Grows, Injections, FlowCut, Clear;
    CallsInject(streams(k), k, l.trace, u, k);
    CallsHonest(streams, k, l.trace, u);
    SplitHonest(streams, u, done);
    SplitCounts(u, done);
    SplitGrows(streams(k), k, l.trace, u, done);
    ClearedCut(streams(k), k, l.(trace := u + [done]), f);
  }

  lemma InjectTruthful(streams: Streams, k: Key, l: Local, window: nat, plan: seq<Packet>, fate: Fate)
    requires l.flow.Some? && l.flow.value.buf.Some? && l.flow.value.template.Some?
    requires Truthful(streams, k, l) && l.flow.value.phase != Injected && AllFaithful(streams(k), k, plan)
    ensures Truthful(streams, k, Inject(l, k, window, plan, fate).0)
    ensures Grows(k, l.trace, Inject(l, k, window, plan, fate).0.trace)
  {
    hide AttemptAll, Release, Faithful, Honest, Injections, AllFaithful, Calls, Grows, FlowCut, Clear;
    var f, stream := l.flow.value, streams(k);
    var (t, ok) := AttemptAll(l.trace, k, Send, plan, fate);
    AttemptAllCalls(stream, l.trace, k, Send, plan, fate);
    ReleaseCalls(stream, k, l.(trace := t), fate);
    var (u, dropped) := AttemptAll(t, k, Drop, f.held, fate);
    AttemptAllCalls(stream, t, k, Drop, f.held, fate);
    CallsTwice(stream, k, l.trace, t, u);
    var m := Inject(l, k, window, plan, fate).0;
    if !ok {
      CallsTwice(stream, k, l.trace, t, m.trace);
      CallsTruthful(streams, k, l, m);
    } else if !dropped {
      CallsTruthful(streams, k, l, m);
    } else {
      SplitTruthful(streams, k, l, u, f, Split(k, window, f, plan));
      ClearTrace(l.(trace := u + [Split(k, window, f, plan)]), f, Injected);
    }
  }

  lemma ClearTrace(l: Local, f: Flow, phase: Phase)
    ensures Clear(l, f, phase).trace == l.trace
  {
  }

  // ---- a packet joining a flow ----

  /** A captured packet whose payload is cut from the stream is faithful as it stands. */
  lemma CapturedFaithful(stream: Known, k: Key, p: Packet)
    requires Belongs(k, p) && Cut(stream, p.meta.seqNo, PayloadOf(p))
    ensures Faithful(stream, k, p)
  {
    GenuineReads(p);
  }

  lemma FaithfulCaptured(stream: Known, k: Key, p: Packet)
    requires Belongs(k, p) && Faithful(stream, k, p)
    ensures Cut(stream, p.meta.seqNo, PayloadOf(p))
  {
    GenuineReads(p);
  }

  lemma JoinedCut(stream: Known, k: Key, flow: Option<Flow>, pkt: Packet, now: int, cfg: Config)
    requires flow.Some? ==> FlowValid(k, flow.value) && flow.value.phase == Collecting && FlowCut(stream, k, flow.value)
    requires Belongs(k, pkt) && Faithful(stream, k, pkt)
    ensures var f := Candidate(flow, pkt, now, cfg);
            && f.buf.Some? && FlowCut(stream, k, f)
            && FlowCut(stream, k, f.(held := f.held + [pkt]))
            && FlowCut(stream, k, Joined(f, pkt))
            && f.phase == Collecting
  {
    hide Faithful, R.Push, Genuine;
    var f := Candidate(flow, pkt, now, cfg);
    FaithfulCaptured(stream, k, pkt);
    if stream.Some? {
      R.PushHolds(stream.value, f.buf.value, FragmentOf(pkt));
    }
  }

  lemma AdmitTruthful(streams: Streams, k: Key, l: Local, pkt: Packet, now: int, cfg: Config)
    requires l.flow.Some? ==> FlowValid(k, l.flow.value) && l.flow.value.phase == Collecting
    requires Truthful(streams, k, l) && Belongs(k, pkt) && Faithful(streams(k), k, pkt)
    ensures var f := Candidate(l.flow, pkt, now, cfg);
            && f.buf.Some?
            && Truthful(streams, k, l.(flow := Some(f))) && f.phase == Collecting
            && Truthful(streams, k, Append(l, f, pkt)) && Append(l, f, pkt).flow.Some?
            && Append(l, f, pkt).flow.value.phase == Collecting && Append(l, f, pkt).trace == l.trace
            && Truthful(streams, k, Admit(l, f, pkt)) && Admit(l, f, pkt).flow == Some(Joined(f, pkt))
            && Joined(f, pkt).phase == Collecting && Admit(l, f, pkt).trace == l.trace
  {
    hide FlowValid, FlowCut, Belongs, Faithful, Honest, Injections, Candidate, R.Push;
    JoinedCut(streams(k), k, l.flow, pkt, now, cfg);
  }

  // ---- the plan ----

  lemma WiredFaithful(stream: Known, k: Key, tpl: Packet, seqNo: u32, payload: Bytes, flags: u8, ipid: u16)
    requires Decode(tpl.data) == Decoded(tpl.meta) && KeyOf(tpl.meta) == k && Cut(stream, seqNo, payload)
    ensures Faithful(stream, k, S.Wired(tpl, seqNo, payload, flags, ipid))
  {
    hide Decode, S.Wired, Get16;
    S.WiredReads(tpl, seqNo, payload, flags, ipid);
  }

  lemma CutParts(stream: Known, start: u32, payload: Bytes, n: nat)
    requires Cut(stream, start, payload) && n <= |payload|
    ensures Cut(stream, start, payload[..n])
    ensures Cut(stream, Add32(start, n), payload[n..])
  {
    hide Add32;
    if stream.Some? {
      forall i | 0 <= i < |payload| - n ensures payload[n..][i] == stream.value(Add32(Add32(start, n), i)) {
        AddAdd(start, n, i);
        assert payload[n..][i] == payload[n + i];
      }
    }
  }

  lemma {:induction false} RunFaithful(stream: Known, k: Key, tpl: Packet, seqNo: u32, segs: seq<Bytes>, flags: u8,
                                       lastFlags: u8, ipid: u16)
    requires Decode(tpl.data) == Decoded(tpl.meta) && KeyOf(tpl.meta) == k
    requires Cut(stream, seqNo, S.Join(segs))
    ensures AllFaithful(stream, k, S.Run(tpl, seqNo, segs, flags, lastFlags, ipid))
    decreases |segs|
  {
    hide Decode, S.Wired, Faithful, Cut;
    if segs != [] {
      var n := |segs[0]|;
      var all := S.Join(segs);
      assert all[..n] == segs[0] && all[n..] == S.Join(segs[1..]);
      CutParts(stream, seqNo, all, n);
      WiredFaithful(stream, k, tpl, seqNo, segs[0], if |segs| == 1 then lastFlags else flags, ipid);
      RunFaithful(stream, k, tpl, Add32(seqNo, n), segs[1..], flags, lastFlags, (ipid + 1) % 0x1_0000);
    }
  }

  lemma TrimFaithful(stream: Known, k: Key, p: Packet, base: u32, window: nat, ipid: u16)
    requires Belongs(k, p) && Faithful(stream, k, p)
    requires Decode(p.data) == Decoded(p.meta) && TrimOf(p, base, window) <= |PayloadOf(p)|
    ensures Faithful(stream, k, Trim(p, base, window, ipid))
  {
    hide Decode, Faithful, Cut, TrimOf, PayloadOf;
    var n := TrimOf(p, base, window);
    FaithfulCaptured(stream, k, p);
    CutParts(stream, p.meta.seqNo, PayloadOf(p), n);
    WiredFaithful(stream, k, p, Add32(p.meta.seqNo, n), PayloadOf(p)[n..], p.meta.flags, ipid);
  }

  lemma {:induction false} TrimmedFaithful(stream: Known, k: Key, held: seq<Packet>, base: u32, window: nat, ipid: u16)
    requires forall p | p in held :: Belongs(k, p) && Faithful(stream, k, p)
    requires forall p | p in held :: Decode(p.data) == Decoded(p.meta)
    ensures AllFaithful(stream, k, Trimmed(held, base, window, ipid))
    decreases |held|
  {
    hide Decode, Faithful, TrimOf, PayloadOf, Trim, Belongs;
    if held != [] {
      TrimmedFaithful(stream, k, held[1..], base, window, ipid);
      TrimmedFaithful(stream, k, held[1..], base, window, (ipid + 1) % 0x1_0000);
      if Beyond(held[0], base, window) {
        TrimFaithful(stream, k, held[0], base, window, ipid);
      }
    }
  }

  lemma FaithfulConcat(stream: Known, k: Key, a: seq<Packet>, b: seq<Packet>)
    requires AllFaithful(stream, k, a) && AllFaithful(stream, k, b)
    ensures AllFaithful(stream, k, a + b)
  {
    hide Faithful;
  }

  lemma PlanFaithful(stream: Known, k: Key, f: Flow, window: nat, segs: seq<Bytes>, max: int)
    requires FlowValid(k, f) && f.phase == Collecting && FlowCut(stream, k, f) && window <= f.buf.value.prefix
    requires max >= 1 && S.Join(segs) == f.buf.value.Contig()[..window]
    ensures AllFaithful(stream, k, PlanFrom(f, window, segs, max))
  {
    hide Decode, S.Run, Trimmed, Faithful, WithoutPshFin, Get16, R.Buf.Contig, S.Chunks;
    var tpl, b := f.template.value, f.buf.value;
    DecodedBounds(tpl.data, tpl.meta);
    ContigCut(stream, b);
    CutParts(stream, f.base, b.Contig(), window);
    S.ChunksJoin(b.Contig()[window..], max);
    var quiet, ipid := WithoutPshFin(tpl.meta.flags), Get16(tpl.data, 4);
    var next: u16 := (ipid + |segs|) % 0x1_0000;
    RunFaithful(stream, k, tpl, f.base, segs, quiet, tpl.meta.flags, ipid);
    RunFaithful(stream, k, tpl, f.base, segs, quiet, quiet, ipid);
    RunFaithful(stream, k, tpl, Add32(f.base, window), S.Chunks(b.Contig()[window..], max), quiet, tpl.meta.flags,
      next);
    TrimmedFaithful(stream, k, f.held, f.base, window, next);
    hide AllFaithful;
    FaithfulConcat(stream, k, S.Run(tpl, f.base, segs, quiet, quiet, ipid), Trimmed(f.held, f.base, window, next));
    FaithfulConcat(stream, k, S.Run(tpl, f.base, segs, quiet, quiet, ipid),
                   S.Run(tpl, Add32(f.base, window), S.Chunks(b.Contig()[window..], max), quiet, tpl.meta.flags, next));
  }

  lemma ContigCut(stream: Known, b: R.Buf)
    requires b.WellFormed() && HoldsCut(stream, b)
    ensures Cut(stream, b.base, b.Contig())
  {
    var s := b.Contig();
    assert forall i | 0 <= i < |s| :: s[i] == b.bytes[i] && i in b.bytes;
  }

  // ---- a whole step ----

  /** A decision to inject carries the plan for the flow as it will be with the packet in it. */
  lemma DecideInjects(f: Flow, isNew: bool, reasm: int, pkt: Packet, now: int, c0: Config, c1: Config, c2: Config)
    requires Collected(f) && Genuine(pkt)
    ensures var a, g := DecideHeld(f, isNew, reasm, pkt, now, c0, c1, c2), Joined(f, pkt);
            a.HoldInject? ==>
              && R.Push(f.buf.value, FragmentOf(pkt)).1 == R.Accepted
              && Collected(g) && 1 <= a.window <= g.buf.value.prefix
              && Plan(g, a.window, c2) == Some(a.plan)
              && c0.mode != OtherMode
              && (c0.mode == Immediate ==> a.window == g.firstLen)
              && (c0.mode == TlsHello ==>
                    && Tls.DetectClientHelloRecord(g.buf.value.Contig()).Match?
                    && a.window == 5 + Tls.DetectClientHelloRecord(g.buf.value.Contig()).recordLen)
  {
    hide Collected, Genuine, R.Push, PlanFrom, R.Buf.Contig, Tls.DetectClientHelloRecord, MaxPayload, S.SplitFirst;
    JoinedCollected(f, pkt);
    PushInPlace(f, pkt);
  }

  lemma PushInPlace(f: Flow, pkt: Packet)
    requires Collected(f)
    ensures f.buf.Some?
  {
  }

  lemma PlanIsFaithful(stream: Known, k: Key, g: Flow, window: nat, cfg: Config)
    requires FlowValid(k, g) && g.phase == Collecting && FlowCut(stream, k, g) && window <= g.buf.value.prefix
    ensures Plan(g, window, cfg).Some? ==> AllFaithful(stream, k, Plan(g, window, cfg).value)
  {
    hide Belongs, Genuine, Faithful, PlanFrom, R.Buf.Contig, S.SplitFirst, AllFaithful, HoldsCut;
    var max := MaxPayload(g.template.value, cfg);
    var segs := S.SplitFirst(g.buf.value.Contig()[..window], cfg.splitChunk, max);
    if Plan(g, window, cfg).Some? {
      S.SplitFirstJoin(g.buf.value.Contig()[..window], cfg.splitChunk, max);
      PlanFaithful(stream, k, g, window, segs, max);
    }
  }

  ghost predicate TruthfulAction(stream: Known, k: Key, a: Action) {
    a.HoldInject? ==> AllFaithful(stream, k, a.plan)
  }

  lemma DecisionTruthful(stream: Known, k: Key, l: Local, count: nat, pkt: Packet, now: int, c0: Config, c1: Config,
                         c2: Config)
    requires l.flow.Some? ==> FlowValid(k, l.flow.value) && FlowCut(stream, k, l.flow.value)
    requires Belongs(k, pkt) && Faithful(stream, k, pkt)
    ensures TruthfulAction(stream, k, Decide(l, count, pkt, now, c0, c1, c2))
  {
    var a := Decide(l, count, pkt, now, c0, c1, c2);
    DecideHolds(l, count, pkt, now, c0, c1, c2);
    if a.HoldInject? {
      hide Decide, DecideHeld, FlowValid, FlowCut, Candidate, Collected, Plan, R.Push, Faithful, AllFaithful,
           Tls.DetectClientHelloRecord, R.Buf.Contig;
      var f := Candidate(l.flow, pkt, now, c0);
      DecideInjects(f, l.flow.None?, l.reasm, pkt, now, c0, c1, c2);
      JoinedCut(stream, k, l.flow, pkt, now, c0);
      CandidateValid(k, l.flow, pkt, now, c0);
      PlanIsFaithful(stream, k, Joined(f, pkt), a.window, c2);
    }
  }

  lemma TouchedTruthful(streams: Streams, k: Key, l: Local, now: int)
    requires Truthful(streams, k, l)
    ensures Truthful(streams, k, Touched(l, now)) && Touched(l, now).trace == l.trace
  {
    hide Faithful;
  }

  lemma CloseOutTruthful(streams: Streams, k: Key, l: Local, pkt: Packet, now: int, c0: Config, fate: Fate)
    requires l.flow.Some? && Truthful(streams, k, l) && Faithful(streams(k), k, pkt)
    ensures var m := Execute(l, k, pkt, now, c0, CloseOut, fate).0;
            Truthful(streams, k, m) && Grows(k, l.trace, m.trace)
  {
    hide Truthful, Grows, Faithful, Candidate, Release, Forwarded, Remove;
    var t := Touched(l, now);
    TouchedTruthful(streams, k, l, now);
    GrowsNot(k, t.trace);
    if l.flow.value.phase == Collecting {
      TruthfulRelease(streams, k, t, fate);
    }
    var (m, ok) := if l.flow.value.phase == Collecting then Release(t, k, fate) else (t, true);
    if ok {
      ForwardedTruthful(streams, k, m, pkt, fate);
      var n := Forwarded(m, k, pkt, fate).0;
      TruthfulHonest(streams, k, n);
      RemoveTruthful(streams, k, n);
      GrowsTwice(k, l.trace, m.trace, n.trace);
      GrowsTwice(k, l.trace, n.trace, Remove(n, k).trace);
    }
  }

  lemma GrowsNot(k: Key, t: Trace)
    ensures Grows(k, t, t)
  {
  }

  lemma TruthfulHonest(streams: Streams, k: Key, l: Local)
    requires Truthful(streams, k, l)
    ensures Honest(streams, l.trace)
  {
  }

  lemma TruthfulRelease(streams: Streams, k: Key, l: Local, fate: Fate)
    requires l.flow.Some? && Truthful(streams, k, l) && l.flow.value.phase != Injected
    ensures Truthful(streams, k, Release(l, k, fate).0) && Grows(k, l.trace, Release(l, k, fate).0.trace)
    ensures Release(l, k, fate).0.flow.Some?
  {
    hide Release, Grows, Calls, FlowCut, Honest, Injections;
    ReleaseCalls(streams(k), k, l, fate);
    CallsTruthful(streams, k, l, Release(l, k, fate).0);
  }

  lemma ExecuteTruthful(streams: Streams, k: Key, l: Local, pkt: Packet, now: int, c0: Config, a: Action, fate: Fate)
    requires (l.flow.Some? ==> FlowValid(k, l.flow.value)) && Truthful(streams, k, l)
    requires Belongs(k, pkt) && Faithful(streams(k), k, pkt) && TruthfulAction(streams(k), k, a)
    requires a.CloseOut? || a.Overflow? ==> l.flow.Some?
    requires a.Overflow? || a.Hold? || a.HoldRelease? || a.HoldInject? ==>
               l.flow.Some? ==> l.flow.value.phase == Collecting
    requires a.Hold? || a.HoldRelease? || a.HoldInject? ==> Candidate(l.flow, pkt, now, c0).buf.Some?
    ensures var m := Execute(l, k, pkt, now, c0, a, fate).0;
            Truthful(streams, k, m) && Grows(k, l.trace, m.trace)
  {
    hide Truthful, Grows, FlowValid, Faithful, Belongs, Candidate, Joined, Admit, Append, Release, ReleaseThen, Inject,
         Forwarded, Touched, Remove;
    var f := Candidate(l.flow, pkt, now, c0);
    GrowsNot(k, l.trace);
    if a.CloseOut? {
      CloseOutTruthful(streams, k, l, pkt, now, c0, fate);
    } else if a.Forward? {
      TouchedTruthful(streams, k, l, now);
      ForwardedTruthful(streams, k, Touched(l, now), pkt, fate);
    } else {
      AdmitTruthful(streams, k, l, pkt, now, c0);
      match a {
        case Overflow =>
          var o := l.(flow := Some(f));
          TruthfulRelease(streams, k, o, fate);
          var m := Release(o, k, fate).0;
          ForwardedTruthful(streams, k, m, pkt, fate);
          GrowsTwice(k, l.trace, m.trace, Forwarded(m, k, pkt, fate).0.trace);
        case Hold =>
        case HoldRelease(push, remove) =>
          ReleaseThenTruthful(streams, k, if push then Admit(l, f, pkt) else Append(l, f, pkt), remove, fate);
        case HoldInject(window, plan) =>
          JoinedKeeps(k, l.flow, pkt, now, c0);
          InjectTruthful(streams, k, Admit(l, f, pkt), window, plan, fate);
      }
    }
  }

  lemma JoinedKeeps(k: Key, flow: Option<Flow>, pkt: Packet, now: int, c0: Config)
    requires Candidate(flow, pkt, now, c0).buf.Some?
    ensures var g := Joined(Candidate(flow, pkt, now, c0), pkt);
            g.template.Some? && g.buf.Some?
  {
    hide R.Push;
  }

  /** The payload delivered with an input is cut from its connection's stream. */
  ghost predicate InputCut(streams: Streams, i: Input) {
    i.Deliver? ==> Cut(streams(i.InputKey()), i.pkt.meta.seqNo, PayloadOf(i.pkt))
  }

  lemma LocalStepTruthful(streams: Streams, l: Local, count: nat, i: Input, fate: Fate)
    requires InputOk(i) && InputCut(streams, i)
    requires (l.flow.Some? ==> FlowValid(i.InputKey(), l.flow.value)) && Truthful(streams, i.InputKey(), l)
    ensures var m := LocalStep(l, count, i, fate).0;
            Truthful(streams, i.InputKey(), m) && Grows(i.InputKey(), l.trace, m.trace)
  {
    var k := i.InputKey();
    GrowsNot(k, l.trace);
    match i
    case Deliver(pkt, now, c0, c1, c2) =>
      CapturedFaithful(streams(k), k, pkt);
      DecideHolds(l, count, pkt, now, c0, c1, c2);
      DecisionTruthful(streams(k), k, l, count, pkt, now, c0, c1, c2);
      hide Decide, Execute, DecideHeld, Truthful, Grows, Candidate, TruthfulAction, Faithful;
      ExecuteTruthful(streams, k, l, pkt, now, c0, Decide(l, count, pkt, now, c0, c1, c2), fate);
    case Touch(_, now) =>
      TouchedTruthful(streams, k, l, now);
    case Reap(_, now, idle) =>
      if l.flow.Some? {
        if l.flow.value.phase == Collecting {
          ReleaseThenTruthful(streams, k, l, true, fate);
        }
        TruthfulHonest(streams, k, l);
        RemoveTruthful(streams, k, l);
      }
  }

  // ---- the whole table, over every run ----

  ghost predicate TruthfulWorld(streams: Streams, w: World) {
    forall k :: Truthful(streams, k, Load(w, k))
  }

  lemma StepTruthful(streams: Streams, w: World, i: Input, fate: Fate)
    requires Sane(w) && InputOk(i) && InputCut(streams, i) && TruthfulWorld(streams, w)
    ensures TruthfulWorld(streams, Step(w, i, fate).0)
    ensures Grows(i.InputKey(), w.trace, Step(w, i, fate).0.trace)
  {
    hide FlowValid, Accounted, LocalStep, InputCut, InputOk, Grows;
    var k := i.InputKey();
    var l := Load(w, k);
    assert l.flow.Some? ==> FlowValid(k, l.flow.value);
    LocalStepTruthful(streams, l, |w.flows|, i, fate);
    var m := LocalStep(l, |w.flows|, i, fate).0;
    StoreOthers(w, k, m);
    hide Honest, FlowCut, Injections;
    forall j ensures Truthful(streams, j, Load(Store(w, k, m), j)) {
      if j != k {
        OthersInject(k, l.trace, m.trace, j);
      }
    }
  }

  ghost predicate InputsCut(streams: Streams, ins: seq<Input>) {
    forall i | i in ins :: InputCut(streams, i)
  }

  lemma {:induction false} RunTruthful(streams: Streams, ins: seq<Input>, fate: Fate)
    requires InputsOk(ins) && InputsCut(streams, ins)
    ensures TruthfulWorld(streams, RunAll(ins, fate))
    decreases |ins|
  {
    hide Sane, InputOk, InputCut, Truthful, Step;
    if ins == [] {
      EmptyIsTruthful(streams);
    } else {
      var n := |ins| - 1;
      RunTruthful(streams, ins[..n], fate);
      StepTruthful(streams, RunAll(ins[..n], fate), ins[n], fate);
    }
  }

  lemma UnknownIsCut(ins: seq<Input>)
    ensures InputsCut(UNKNOWN, ins)
  {
  }

  lemma EmptyIsTruthful(streams: Streams)
    ensures TruthfulWorld(streams, EMPTY)
  {
  }

  /** Stream transparency. In every reachable state each packet that was sent for a connection (passed
    * through, split, chunked or trimmed, whatever failed before) decodes to that connection; and if the
    * payloads captured for it are cut from one byte stream, it carries that stream's bytes at their
    * sequence numbers modulo 2^32. */
  lemma EverythingSentIsTheStream(streams: Streams, h: History, i: nat)
    requires h.IsRun() && InputsCut(streams, h.ins)
    requires i < |h.End().trace| && h.End().trace[i].Done? && h.End().trace[i].verb == Send
    ensures var e := h.End().trace[i];
            && Decode(e.pkt.data).Decoded?
            && var m := Decode(e.pkt.data).meta;
               && KeyOf(m) == e.key
               && (streams(e.key).Some? ==> CutFrom(streams(e.key).value, m.seqNo, e.pkt.data[m.payloadOffset..]))
  {
    hide RunAll, History.StepsAt, InputsOk, InputsCut, Decode, CutFrom;
    RunIs(h);
    var ins, fate, w := h.ins, h.fate, h.End();
    RunTruthful(streams, ins, fate);
    assert Truthful(streams, w.trace[i].key, Load(w, w.trace[i].key));
    assert Faithful(streams(w.trace[i].key), w.trace[i].key, w.trace[i].pkt);
  }

  /** A successful injection happens at most once in the life of a flow, and a flow that is in the
    * injected phase was injected exactly once since it was last removed. */
  lemma InjectedAtMostOnce(h: History, k: Key)
    requires h.IsRun()
    ensures var w := h.End();
            Injections(w.trace, k) == if k in w.flows && w.flows[k].phase == Injected then 1 else 0
  {
    hide RunAll, History.StepsAt, InputsOk, Honest, FlowCut;
    RunIs(h);
    var ins, fate, w := h.ins, h.fate, h.End();
    UnknownIsCut(ins);
    RunTruthful(UNKNOWN, ins, fate);
    assert Truthful(UNKNOWN, k, Load(w, k));
  }
}
