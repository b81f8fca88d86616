/** The sizes in which an injection is sent. */
module Sizes {
  import opened Words
  import opened Wire
  import opened FlowMachine
  import opened FlowInvariants
  import opened Outcomes
  import opened Conservation
  import opened Settling
  import opened Runs
  import opened Injection
  import opened Activity
  import opened Verdicts
  import opened Exactness
  import S = Segmentation
  import R = Reassembly
  import T = Transparency

  /** Read off the wire, the packets carry `bytes` from `seqNo` on: the first one `size` bytes and every other one
    * `limit`
    * bytes, but for the last, which has what is left. */
  ghost predicate Pieces(ps: seq<Packet>, seqNo: u32, bytes: Bytes, size: int, limit: int)
    requires size >= 1 && limit >= 1
    decreases |bytes|
  {
    if bytes == [] then ps == []
    else
      var n := Min(size, |bytes|);
      ps != [] && Says(ps[0], seqNo, bytes[..n]) && Pieces(ps[1..], Add32(seqNo, n), bytes[n..], limit, limit)
  }

  // ---- cutting ----

  /** The segments are `bytes`, cut in the same way. */
  ghost predicate CutInto(segs: seq<Bytes>, bytes: Bytes, size: int, limit: int)
    requires size >= 1 && limit >= 1
    decreases |bytes|
  {
    if bytes == [] then segs == []
    else
      var n := Min(size, |bytes|);
      segs != [] && segs[0] == bytes[..n] && CutInto(segs[1..], bytes[n..], limit, limit)
  }

  lemma {:induction false} ChunksCut(payload: Bytes, max: int)
    requires max >= 1
    ensures CutInto(S.Chunks(payload, max), payload, max, max)
    decreases |payload|
  {
    if payload != [] {
      var n := Min(max, |payload|);
      ChunksCut(payload[n..], max);
      assert S.Chunks(payload, max)[1..] == S.Chunks(payload[n..], max);
    }
  }

  lemma SplitFirstCut(payload: Bytes, want: int, max: int)
    requires max >= 1 && S.SplitFirst(payload, want, max) != []
    ensures CutInto(S.SplitFirst(payload, want, max), payload, Min(Max(want, 1), max), max)
  {
    var n := S.FirstLen(want, max);
    ChunksCut(payload[n..], max);
    assert S.SplitFirst(payload, want, max)[1..] == S.Chunks(payload[n..], max);
  }

  /** One packet for each segment. */
  lemma {:induction false} RunPieces(tpl: Packet, seqNo: u32, segs: seq<Bytes>, flags: u8, lastFlags: u8, ipid: u16,
                                     bytes: Bytes, size: int, limit: int)
    requires Decode(tpl.data) == Decoded(tpl.meta) && size >= 1 && limit >= 1 && CutInto(segs, bytes, size, limit)
    ensures Pieces(S.Run(tpl, seqNo, segs, flags, lastFlags, ipid), seqNo, bytes, size, limit)
    decreases |bytes|
  {
    hide Decode, S.Wired, Says, Add32;
    if bytes != [] {
      var n, f := Min(size, |bytes|), if |segs| == 1 then lastFlags else flags;
      var next: u16 := (ipid + 1) % 0x1_0000;
      WiredSays(tpl, seqNo, segs[0], f, ipid);
      RunPieces(tpl, Add32(seqNo, n), segs[1..], flags, lastFlags, next, bytes[n..], limit, limit);
      var rest := S.Run(tpl, Add32(seqNo, n), segs[1..], flags, lastFlags, next);
      assert S.Run(tpl, seqNo, segs, flags, lastFlags, ipid)[1..] == rest;
    }
  }

  lemma WiredSays(tpl: Packet, seqNo: u32, payload: Bytes, flags: u8, ipid: u16)
    requires Decode(tpl.data) == Decoded(tpl.meta)
    ensures Says(S.Wired(tpl, seqNo, payload, flags, ipid), seqNo, payload)
  {
    hide S.Wired, Get16, S.Checksum.Verifies, S.Checksum.HeaderSum, S.Checksum.SegmentSum;
    S.WiredReads(tpl, seqNo, payload, flags, ipid);
    hide Decode;
  }

  // ---- the plan ----

  /** The newest held packet is the template and the oldest one's sequence number the base. The first `m` packets carry
    * the window, the first of them as much as is configured for a first piece and the others the largest payload
    * allowed
    * behind the template's header; and so are the bytes beyond the window cut, if something was out of order. */
  ghost predicate SizedFor(e: Event, cfg: Config, limit: int, m: nat)
    requires e.Split? && Collected(e.flow) && e.flow.held != [] && 0 <= e.window <= e.flow.buf.value.prefix
  {
    var (g, b) := (e.flow, e.flow.buf.value);
    var tpl := g.held[|g.held| - 1];
    && g.template == Some(tpl) && g.base == g.held[0].meta.seqNo
    && limit >= 1 && LimitFor(tpl, cfg, limit) && m <= |e.plan|
    && Pieces(e.plan[..m], g.base, b.Contig()[..e.window], Min(Max(cfg.splitChunk, 1), limit), limit)
    && (e.window == b.prefix ==> m == |e.plan|)
    && (b.outOfOrder || b.overlap ==>
       Pieces(e.plan[m..], Add32(g.base, e.window), b.Contig()[e.window..], limit, limit))
  }

  /** The plan as it is put together. */
  lemma PlanParts(g: Flow, window: nat, segs: seq<Bytes>, max: int)
    requires Collected(g) && window <= g.buf.value.prefix
    ensures var (tpl, b) := (g.template.value, g.buf.value);
            && Decode(tpl.data) == Decoded(tpl.meta) && |tpl.data| >= 20
            && var (flags, quiet, ipid) := (tpl.meta.flags, WithoutPshFin(tpl.meta.flags), Get16(tpl.data, 4));
               var (rest, next) := (b.Contig()[window..], (ipid + |segs|) % 0x1_0000);
               && (rest == [] ==> PlanFrom(g, window, segs, max) == S.Run(tpl, g.base, segs, quiet, flags, ipid))
               && (rest != [] ==>
                     var first := S.Run(tpl, g.base, segs, quiet, quiet, ipid);
                     && first <= PlanFrom(g, window, segs, max)
                     && (b.outOfOrder || b.overlap ==>
                           PlanFrom(g, window, segs, max)[|first|..] ==
                           S.Run(tpl, Add32(g.base, window), S.Chunks(rest, max), quiet, flags, next)))
  {
    hide Decode, R.Buf.Contig, S.Run, S.Chunks, Trimmed, Get16, WithoutPshFin, Add32;
    DecodedBounds(g.template.value.data, g.template.value.meta);
  }

  lemma PlanIsSized(e: Event, cfg: Config)
    requires e.Split? && Collected(e.flow) && e.flow.held != [] && Settled(e.flow)
    requires 0 <= e.window <= e.flow.buf.value.prefix && Plan(e.flow, e.window, cfg) == Some(e.plan)
    ensures exists limit: int, m: nat :: SizedFor(e, cfg, limit, m)
  {
    hide Decode, R.Buf.Contig, S.SplitFirst, S.Join, S.Sized, Genuine, Pushed, Plan, MaxPayload,
         PlanFrom, LimitFor, SizedFor, CutInto;
    var (g, window) := (e.flow, e.window);
    PlanMeans(g, window, cfg);
    var max := MaxPayload(g.template.value, cfg);
    LimitIsMax(g.template.value, cfg);
    var segs := S.SplitFirst(g.buf.value.Contig()[..window], cfg.splitChunk, max);
    SplitFirstCut(g.buf.value.Contig()[..window], cfg.splitChunk, max);
    if window == g.buf.value.prefix {
      WindowIsSized(e, cfg, segs, max);
    } else {
      RestIsSized(e, cfg, segs, max);
    }
  }

  /** Nothing lies beyond the window. */
  lemma WindowIsSized(e: Event, cfg: Config, segs: seq<Bytes>, max: int)
    requires e.Split? && Collected(e.flow) && Settled(e.flow) && 0 <= e.window == e.flow.buf.value.prefix && max >= 1
    requires e.plan == PlanFrom(e.flow, e.window, segs, max) && LimitFor(e.flow.template.value, cfg, max)
    requires CutInto(segs, e.flow.buf.value.Contig()[..e.window], Min(Max(cfg.splitChunk, 1), max), max)
    ensures SizedFor(e, cfg, max, |e.plan|)
  {
    hide Decode, R.Buf.Contig, Pieces, CutInto, S.Run, S.Chunks, Get16, WithoutPshFin, LimitFor, Pushed, Add32,
         PlanFrom,
         Genuine;
    var (g, window, b) := (e.flow, e.window, e.flow.buf.value);
    var (tpl, contig) := (g.template.value, b.Contig());
    PlanParts(g, window, segs, max);
    RestIsEmpty(b, window);
    RunPieces(tpl, g.base, segs, WithoutPshFin(tpl.meta.flags), tpl.meta.flags, Get16(tpl.data, 4), contig[..window],
      Min(Max(cfg.splitChunk, 1), max), max);
    NothingLeft(Add32(g.base, window), max);
    assert e.plan[..|e.plan|] == e.plan && e.plan[|e.plan|..] == [];
  }

  /** Something lies beyond the window. */
  lemma RestIsSized(e: Event, cfg: Config, segs: seq<Bytes>, max: int)
    requires e.Split? && Collected(e.flow) && Settled(e.flow) && 0 <= e.window < e.flow.buf.value.prefix && max >= 1
    requires e.plan == PlanFrom(e.flow, e.window, segs, max) && LimitFor(e.flow.template.value, cfg, max)
    requires CutInto(segs, e.flow.buf.value.Contig()[..e.window], Min(Max(cfg.splitChunk, 1), max), max)
    ensures exists m: nat :: SizedFor(e, cfg, max, m)
  {
    hide Decode, R.Buf.Contig, Pieces, CutInto, S.Run, S.Chunks, Get16, WithoutPshFin, LimitFor, Pushed, Add32,
         PlanFrom,
         Genuine;
    var (g, window, b) := (e.flow, e.window, e.flow.buf.value);
    var (tpl, contig) := (g.template.value, b.Contig());
    PlanParts(g, window, segs, max);
    RestIsEmpty(b, window);
    var (flags, quiet, ipid) := (tpl.meta.flags, WithoutPshFin(tpl.meta.flags), Get16(tpl.data, 4));
    RunPieces(tpl, g.base, segs, quiet, quiet, ipid, contig[..window], Min(Max(cfg.splitChunk, 1), max), max);
    var rest := contig[window..];
    ChunksCut(rest, max);
    RunPieces(tpl, Add32(g.base, window), S.Chunks(rest, max), quiet, flags, (ipid + |segs|) % 0x1_0000, rest, max,
      max);
    var first := S.Run(tpl, g.base, segs, quiet, quiet, ipid);
    assert e.plan[..|first|] == first;
    assert SizedFor(e, cfg, max, |first|);
  }

  lemma RestIsEmpty(b: R.Buf, window: nat)
    requires b.WellFormed() && window <= b.prefix
    ensures b.Contig()[window..] == [] <==> window == b.prefix
  {
  }

  lemma NothingLeft(seqNo: u32, limit: int)
    requires limit >= 1
    ensures Pieces([], seqNo, [], limit, limit)
  {
  }

  // ---- results ----

  /** The injection that completes in a step is the one decided there. */
  lemma SplitDecided(l: Local, count: nat, i: Input, fate: Fate, j: nat)
    requires InputOk(i) && i.Deliver? && (l.flow.Some? ==> FlowValid(i.InputKey(), l.flow.value))
    requires LocalStep(l, count, i, fate).1
    requires |l.trace| <= j < |LocalStep(l, count, i, fate).0.trace| && LocalStep(l, count, i, fate).0.trace[j].Split?
    ensures Ready(l, i.pkt)
    ensures var a, f := Decide(l, count, i.pkt, i.now, i.c0, i.c1, i.c2), Candidate(l.flow, i.pkt, i.now, i.c0);
            && a.HoldInject? && f.buf.Some?
            && LocalStep(l, count, i, fate).0.trace[j] == Split(i.InputKey(), a.window, Joined(f, i.pkt), a.plan)
  {
    hide LocalStep, Decide, Candidate, Joined, FlowValid, Genuine, Collected;
    DeliverShape(l, count, i, fate);
    var m := LocalStep(l, count, i, fate).0;
    assert m.trace[j] == m.trace[|l.trace|..][j - |l.trace|];
  }

  /** What is true of a decision to inject. */
  lemma InjectDecided(l: Local, count: nat, i: Input)
    requires i.Deliver? && Ready(l, i.pkt) && Decide(l, count, i.pkt, i.now, i.c0, i.c1, i.c2).HoldInject?
    requires l.flow.Some? ==> FlowValid(i.InputKey(), l.flow.value)
    ensures var a, f := Decide(l, count, i.pkt, i.now, i.c0, i.c1, i.c2), Candidate(l.flow, i.pkt, i.now, i.c0);
            && Collected(f) && Collected(Joined(f, i.pkt)) && f.held == HeldBy(l.flow)
            && var g := Joined(f, i.pkt);
               && g.held == f.held + [i.pkt]
               && Complete(i.c0.mode, g.buf.value.Contig(), g.firstLen, i.c1.maxBufferBytes, a.window)
               && 0 <= a.window <= g.buf.value.prefix && Plan(g, a.window, i.c2) == Some(a.plan)
  {
    hide Decide, DecideHeld, DecideSplit, Joined, Fine, Genuine, Complete, Plan, Splittable, R.Buf.Contig, Undecided,
         R.Buf.WellFormed;
    DecideCases(l, count, i);
    var f := Candidate(l.flow, i.pkt, i.now, i.c0);
    CandidateParts(l, count, i);
    HeldCases(f, l.flow.None?, l.reasm, i);
    JoinedParts(f, i.pkt);
    SplitCases(Joined(f, i.pkt), i.c0.mode, i.c1, i.c2);
  }

  lemma CandidateParts(l: Local, count: nat, i: Input)
    requires i.Deliver? && PayloadOf(i.pkt) != [] && (l.flow.Some? ==> FlowValid(i.InputKey(), l.flow.value))
    ensures var f := Candidate(l.flow, i.pkt, i.now, i.c0); f.held == HeldBy(l.flow) && f.firstLen >= 1
  {
    hide PayloadOf;
  }

  lemma JoinedParts(f: Flow, pkt: Packet)
    requires f.buf.Some?
    ensures Joined(f, pkt).held == f.held + [pkt] && Joined(f, pkt).firstLen == f.firstLen
  {
  }

  /** Every injection that completes, in every run without errors and under any reloads: it completes in the step of a
    * delivery, and is of what the flow held and that packet; the window is the one that the mode and the bytes ask for;
    * and it is cut into pieces of the sizes that follow from the configuration loaded last, the newest packet's payload
    * and header lengths, and the limit of IPv4. */
  lemma InjectionSizes(h: History, n: nat, j: nat)
    requires h.IsRun() && h.NoErrors() && DeliversAt(h, n)
    requires |h.worlds[n].trace| <= j < |h.worlds[n + 1].trace| && h.worlds[n + 1].trace[j].Split?
    ensures var (e, i) := (h.worlds[n + 1].trace[j], h.ins[n]);
            && e.key == i.InputKey() && Collected(e.flow) && e.flow.held == HeldBy(Before(h, n).flow) + [i.pkt]
            && Complete(i.c0.mode, e.flow.buf.value.Contig(), e.flow.firstLen, i.c1.maxBufferBytes, e.window)
            && 0 <= e.window <= e.flow.buf.value.prefix
            && exists limit: int, m: nat :: SizedFor(e, i.c2, limit, m)
  {
    hide LocalStep, Decide, Candidate, Joined, FlowValid, Genuine, Collected, RunAll, InputsOk, T.TruthfulWorld,
         T.Grows,
         Accounted, SizedFor, Complete, Plan, R.Buf.Contig, RunOk, Settled;
    var (l, i, w) := (Before(h, n), h.ins[n], h.worlds[n]);
    assert h.StepsAt(n) && h.SucceedsAt(n);
    StepSeen(h, n);
    RunSoFar(h, n);
    RunReached(h.ins[..n], h.fate);
    StepIsLocal(w, i, h.fate);
    SplitDecided(l, |w.flows|, i, h.fate, j);
    InjectDecided(l, |w.flows|, i);
    var e := h.worlds[n + 1].trace[j];
    SplitSoFar(h, n + 1, e);
    PlanIsSized(e, i.c2);
  }

  lemma SplitSoFar(h: History, n: nat, e: Event)
    requires h.IsRun() && h.NoErrors() && n <= |h.ins| && e in h.worlds[n].trace && e.Split?
    ensures Settled(e.flow)
  {
    hide RunAll, History.StepsAt, History.SucceedsAt, InputsOk, RunOk, AllUse, Plan, Settled, AtRest, InBudget,
         FlowValid;
    RunSoFar(h, n);
    RunSoFarOk(h, n);
    AnyConfigs(h.ins[..n]);
    RunRests(None, h.ins[..n], h.fate);
    assert SplitOf(None, e);
  }
}
