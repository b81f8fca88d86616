/** The worker as the program writes it: methods that update counters, flow objects and the table in place.
  Each is proved to do what the flow machine says.
 */
module Worker {
  import opened Words
  import opened Wire
  import opened FlowMachine
  import opened WorkerObjects
  import S = Segmentation
  import PB = PacketBuffer
  import I = FlowInvariants
  import M = FlowMachine
  import R = Reassembly
  import RB = ReassemblyBuffer
  import Tls

  lemma SizeOfNone()
    ensures SizeOf([]) == 0
  {
  }

  lemma SizeOfPrefix(ps: seq<Packet>, i: nat)
    requires i < |ps|
    ensures SizeOf(ps[..i + 1]) == SizeOf(ps[..i]) + |ps[i].data|
  {
    assert ps[..i + 1] == ps[..i] + [ps[i]];
    I.SizeOfAppend(ps[..i], ps[i]);
  }

  lemma {:induction false} AttemptAllConcat(t: Trace, k: Key, verb: Verb, a: seq<Packet>, b: seq<Packet>, fate: Fate)
    ensures AttemptAll(t, k, verb, a + b, fate) ==
            var (u, ok) := AttemptAll(t, k, verb, a, fate);
            if ok then AttemptAll(u, k, verb, b, fate) else (u, false)
    decreases |a|
  {
    if a == [] {
      assert a + b == b;
    } else {
      var e := Attempt(t, k, verb, a[0], fate);
      assert (a + b)[1..] == a[1..] + b;
      AttemptAllConcat(t + [e], k, verb, a[1..], b, fate);
    }
  }

  /** Carrying out a decision about a flow that already has the packet. */
  ghost function Perform(l: Local, k: Key, a: Action, fate: Fate): (Local, bool)
    requires l.flow.Some? && l.flow.value.buf.Some? && l.flow.value.template.Some?
  {
    match a
    case HoldRelease(_, remove) => ReleaseThen(l, k, remove, fate)
    case HoldInject(window, plan) => Inject(l, k, window, plan, fate)
    case _ => (l, true)
  }

  /** What is decided once the payload was pushed with result `r`, the buffered total being `reasm`. */
  ghost function DecidePushed(g: Flow, r: R.Outcome, reasm: int, isNew: bool, pkt: Packet, c0: Config, c1: Config,
                              c2: Config): Action
    requires Collected(g)
  {
    var syn, rst, fin := HasFlag(pkt.meta.flags, SYN), HasFlag(pkt.meta.flags, RST), HasFlag(pkt.meta.flags, FIN);
    if r != R.Accepted || OverBudget(c0.maxReassemblyBytes, reasm, 0) then HoldRelease(true, false)
    else if syn then HoldRelease(true, isNew && rst)
    else if rst || fin then HoldRelease(true, true)
    else DecideSplit(g, c0.mode, c1, c2)
  }

  /** The newest packet, already in the hold, joins the buffer. */
  ghost function Buffered(l: Local, pkt: Packet): Local
    requires l.flow.Some? && l.flow.value.buf.Some?
  {
    var b := l.flow.value.buf.value;
    var b' := R.Push(b, FragmentOf(pkt)).0;
    l.(flow := Some(l.flow.value.(buf := Some(b'))), reasm := Clamp(l.reasm + (b'.TotalBytes() - b.TotalBytes())))
  }

  lemma BufferedCollected(l: Local, pkt: Packet)
    requires l.flow.Some? && Collected(l.flow.value)
    ensures var m := Buffered(l, pkt); m.flow.Some? && Collected(m.flow.value)
  {
    R.PushKeepsWellFormed(l.flow.value.buf.value, FragmentOf(pkt));
    hide R.Push;
  }

  /** Pushing the newest packet's payload and deciding what comes of it. */
  ghost function PushedOn(l: Local, k: Key, pkt: Packet, isNew: bool, c0: Config, c1: Config, c2: Config,
                          fate: Fate): (Local, bool)
    requires l.flow.Some? && Collected(l.flow.value)
  {
    var m := Buffered(l, pkt);
    BufferedCollected(l, pkt);
    var r := R.Push(l.flow.value.buf.value, FragmentOf(pkt)).1;
    Perform(m, k, DecidePushed(m.flow.value, r, m.reasm, isNew, pkt, c0, c1, c2), fate)
  }

  /** Taking a packet into the flow `l.flow`, which is the candidate. */
  ghost function Taken(l: Local, k: Key, pkt: Packet, now: int, isNew: bool, c0: Config, c1: Config, c2: Config,
                       fate: Fate): (Local, bool)
    requires l.flow.Some? && Collected(l.flow.value) && Genuine(pkt)
  {
    var f := l.flow.value;
    var m := Append(l, f, pkt);
    AppendCollected(l, pkt);
    if |f.held| + 1 >= c0.maxHeldPackets || now - f.collectStart > c0.collectTimeout then Release(m, k, fate)
    else PushedOn(m, k, pkt, isNew, c0, c1, c2, fate)
  }

  lemma AppendCollected(l: Local, pkt: Packet)
    requires l.flow.Some? && Collected(l.flow.value) && Genuine(pkt)
    ensures var m := Append(l, l.flow.value, pkt); m.flow.Some? && Collected(m.flow.value)
  {
    hide Genuine;
  }

  /** Taking a packet in is executing the decision to hold it. */
  lemma TakenIsExecuted(l: Local, k: Key, pkt: Packet, now: int, isNew: bool, c0: Config, c1: Config, c2: Config,
                        fate: Fate)
    requires Genuine(pkt) && Collected(Candidate(l.flow, pkt, now, c0))
    ensures var f := Candidate(l.flow, pkt, now, c0);
            var a := DecideHeld(f, isNew, l.reasm, pkt, now, c0, c1, c2);
            && f.buf.Some? && (a.Hold? || a.HoldRelease? || a.HoldInject?)
            && Taken(l.(flow := Some(f)), k, pkt, now, isNew, c0, c1, c2, fate) == Execute(l, k, pkt, now, c0, a, fate)
  {
    hide Release, R.Push, DecideSplit, Inject, Genuine, Collected, Candidate, PushedOn;
    var f := Candidate(l.flow, pkt, now, c0);
    CollectedParts(f);
    DecideHeldIsHold(f, isNew, l.reasm, pkt, now, c0, c1, c2);
    if |f.held| + 1 < c0.maxHeldPackets && now - f.collectStart <= c0.collectTimeout {
      hide DecideHeld, Execute;
      AppendCollected(l.(flow := Some(f)), pkt);
      PushedIsExecuted(l, k, pkt, now, isNew, c0, c1, c2, fate);
    }
  }

  lemma PushedIsExecuted(l: Local, k: Key, pkt: Packet, now: int, isNew: bool, c0: Config, c1: Config, c2: Config,
                         fate: Fate)
    requires Genuine(pkt) && Collected(Candidate(l.flow, pkt, now, c0))
    requires var f := Candidate(l.flow, pkt, now, c0);
             |f.held| + 1 < c0.maxHeldPackets && now - f.collectStart <= c0.collectTimeout
    ensures var f := Candidate(l.flow, pkt, now, c0);
            var a, m := DecideHeld(f, isNew, l.reasm, pkt, now, c0, c1, c2), Append(l.(flow := Some(f)), f, pkt);
            && f.buf.Some? && (a.Hold? || a.HoldRelease? || a.HoldInject?) && m.flow.Some? && Collected(m.flow.value)
            && PushedOn(m, k, pkt, isNew, c0, c1, c2, fate) == Execute(l, k, pkt, now, c0, a, fate)
  {
    hide Release, R.Push, DecideSplit, Inject, Genuine, Collected, Candidate;
    var f := Candidate(l.flow, pkt, now, c0);
    CollectedParts(f);
    DecideHeldIsHold(f, isNew, l.reasm, pkt, now, c0, c1, c2);
    AppendCollected(l.(flow := Some(f)), pkt);
    JoinedCollected(f, pkt);
    DecideSplitShape(Joined(f, pkt), c0.mode, c1, c2);
  }

  lemma DecideSplitShape(g: Flow, mode: Mode, c1: Config, c2: Config)
    requires Collected(g)
    ensures var a := DecideSplit(g, mode, c1, c2);
            a == Hold || a == HoldRelease(true, false) || a.HoldInject?
  {
    hide Plan, Collected, R.Buf.Contig, Tls.DetectClientHelloRecord;
  }

  lemma GenuineSize(p: Packet)
    requires Genuine(p)
    ensures |p.data| <= 0xffff
  {
  }

  /** Release if collecting, send the packet, remove the flow. */
  function Closed(l: Local, k: Key, pkt: Packet, fate: Fate): (Local, bool)
    requires l.flow.Some?
  {
    var (m, ok) := if l.flow.value.phase == Collecting then Release(l, k, fate) else (l, true);
    if !ok then (m, false)
    else
      var (n, sent) := Forwarded(m, k, pkt, fate);
      if sent then (Remove(n, k), true) else (n, false)
  }

  /** Overflow or take in, for a flow that is collecting and was just touched. */
  ghost function CollectedFurther(l: Local, k: Key, pkt: Packet, now: int, c0: Config, c1: Config, c2: Config,
                                  fate: Fate): (Local, bool)
    requires l.flow.Some? && Collected(l.flow.value) && Genuine(pkt)
  {
    var l' := l.(flow := Some(l.flow.value.(template := Some(pkt))));
    StillCollected(l.flow.value, pkt, l.flow.value.lastActive);
    SameTime(l.flow.value, pkt);
    if OverBudget(c0.maxHeldBytes, l.held, |pkt.data|) then
      var (m, ok) := Release(l', k, fate);
      if ok then Forwarded(m, k, pkt, fate) else (m, false)
    else Taken(l', k, pkt, now, false, c0, c1, c2, fate)
  }

  lemma SameTime(f: Flow, pkt: Packet)
    ensures f.(lastActive := f.lastActive, template := Some(pkt)) == f.(template := Some(pkt))
  {
  }

  lemma TouchedCollected(l: Local, now: int)
    requires l.flow.Some?
    ensures var t := Touched(l, now);
            t.flow.Some? && (l.flow.value.phase == Collecting && Collected(l.flow.value) ==> Collected(t.flow.value))
  {
  }

  /** What `Handle` amounts to for a flow in the table. */
  lemma HandleExistingCases(l: Local, count: nat, k: Key, pkt: Packet, now: int, c0: Config, c1: Config, c2: Config,
                            fate: Fate)
    requires l.flow.Some? && Ready(l, pkt)
    ensures var closing := PayloadOf(pkt) == [] && (HasFlag(pkt.meta.flags, RST) || HasFlag(pkt.meta.flags, FIN));
            Handle(l, count, k, pkt, now, c0, c1, c2, fate) ==
            if closing then Closed(Touched(l, now), k, pkt, fate)
            else if l.flow.value.phase != Collecting || PayloadOf(pkt) == [] then
              Forwarded(Touched(l, now), k, pkt, fate)
            else (TouchedCollected(l, now); CollectedFurther(Touched(l, now), k, pkt, now, c0, c1, c2, fate))
  {
    hide Taken, DecideHeld, Genuine, Collected, Release, R.Push, ReleaseThen, Inject;
    TouchedCollected(l, now);
    if l.flow.value.phase == Collecting {
      StillCollected(l.flow.value, pkt, now);
      TakenIsExecuted(l, k, pkt, now, false, c0, c1, c2, fate);
    }
  }

  lemma StillCollected(f: Flow, pkt: Packet, now: int)
    requires Collected(f) && Genuine(pkt)
    ensures Collected(f.(lastActive := now, template := Some(pkt)))
  {
  }

  lemma NewCollected(pkt: Packet, now: int, c0: Config)
    requires Genuine(pkt)
    ensures Collected(Candidate(None, pkt, now, c0))
  {
  }

  /** What `Handle` amounts to for a flow that is not in the table. */
  lemma HandleNewCases(l: Local, count: nat, k: Key, pkt: Packet, now: int, c0: Config, c1: Config, c2: Config,
                       fate: Fate)
    requires l.flow.None? && Genuine(pkt)
    ensures Ready(l, pkt)
    ensures Handle(l, count, k, pkt, now, c0, c1, c2, fate) ==
            if PayloadOf(pkt) == [] || (c0.maxFlows > 0 && count >= c0.maxFlows)
               || OverBudget(c0.maxHeldBytes, l.held, |pkt.data|)
                  || OverBudget(c0.maxReassemblyBytes, l.reasm, |PayloadOf(pkt)|)
            then Forwarded(l, k, pkt, fate)
            else
              (NewCollected(pkt, now, c0);
               Taken(l.(flow := Some(Candidate(None, pkt, now, c0))), k, pkt, now, true, c0, c1, c2, fate))
  {
    hide Taken, DecideHeld, Genuine, Collected, Release, R.Push, ReleaseThen, Inject;
    NewCollected(pkt, now, c0);
    TakenIsExecuted(l, k, pkt, now, true, c0, c1, c2, fate);
  }

  lemma ModeOther(g: Flow, mode: Mode, c1: Config, c2: Config)
    requires Collected(g) && mode == OtherMode
    ensures DecideSplit(g, mode, c1, c2) == Hold
  {
  }

  lemma CollectedParts(f: Flow)
    requires Collected(f)
    ensures f.buf.Some? && f.template.Some? && f.buf.value.WellFormed()
  {
  }

  lemma DecideInjectCases(g: Flow, window: nat, cfg: Config)
    requires Collected(g)
    ensures window <= g.buf.value.prefix ==>
              var max := MaxPayload(g.template.value, cfg);
              var segs := S.SplitFirst(g.buf.value.Contig()[..window], cfg.splitChunk, max);
              DecideInject(g, window, cfg) ==
              if window < 1 || max < 1 || |segs| < 2 then HoldRelease(true, false)
              else HoldInject(window, PlanFrom(g, window, segs, max))
  {
    hide PlanFrom, R.Buf.Contig, S.SplitFirst, Genuine;
  }

  lemma AttemptNone(t: Trace, k: Key, verb: Verb, fate: Fate)
    ensures AttemptAll(t, k, verb, [], fate) == (t, true)
  {
  }

  lemma AttemptCons(t: Trace, k: Key, verb: Verb, p: Packet, rest: seq<Packet>, fate: Fate)
    ensures AttemptAll(t, k, verb, [p] + rest, fate) ==
            var e := Attempt(t, k, verb, p, fate);
            if e.Failed? then (t + [e], false) else AttemptAll(t + [e], k, verb, rest, fate)
  {
    assert ([p] + rest)[1..] == rest;
  }

  /** One segment of a run, and then the others. */
  lemma SegmentNext(t: Trace, k: Key, tpl: Packet, baseSeq: u32, offset: nat, segs: seq<Bytes>, i: nat, flags: u8,
                    lastFlags: u8, ipid: u16, fate: Fate)
    requires Decode(tpl.data) == Decoded(tpl.meta) && i < |segs|
    ensures var p := S.Wired(tpl, Add32(baseSeq, offset), segs[i], if i == |segs| - 1 then lastFlags else flags, ipid);
            var e := Attempt(t, k, Send, p, fate);
            AttemptAll(t, k, Send, S.Run(tpl, Add32(baseSeq, offset), segs[i..], flags, lastFlags, ipid), fate) ==
            if e.Failed? then (t + [e], false)
            else AttemptAll(t + [e], k, Send, S.Run(tpl, Add32(baseSeq, offset + |segs[i]|), segs[i + 1..], flags,
                            lastFlags, (ipid + 1) % 0x1_0000), fate)
  {
    hide Decode, S.Wired, AttemptAll, S.Run, Add32;
    RunNext(tpl, baseSeq, offset, segs[i..], flags, lastFlags, ipid);
    assert segs[i..][1..] == segs[i + 1..];
    var f := if i == |segs| - 1 then lastFlags else flags;
    AttemptCons(t, k, Send, S.Wired(tpl, Add32(baseSeq, offset), segs[i], f, ipid),
      S.Run(tpl, Add32(baseSeq, offset + |segs[i]|), segs[i + 1..], flags, lastFlags, (ipid + 1) % 0x1_0000), fate);
  }

  /** One held packet trimmed, if it reaches beyond the window, and then the others. */
  lemma TrimmedNext(t: Trace, k: Key, held: seq<Packet>, i: nat, base: u32, window: nat, ipid: u16, fate: Fate)
    requires i < |held| && forall p | p in held :: Decode(p.data) == Decoded(p.meta)
    ensures AttemptAll(t, k, Send, Trimmed(held[i..], base, window, ipid), fate) ==
            if !Beyond(held[i], base, window) then
              AttemptAll(t, k, Send, Trimmed(held[i + 1..], base, window, ipid), fate)
            else
              var e := Attempt(t, k, Send, Trim(held[i], base, window, ipid), fate);
              if e.Failed? then (t + [e], false)
              else AttemptAll(t + [e], k, Send, Trimmed(held[i + 1..], base, window, (ipid + 1) % 0x1_0000), fate)
  {
    hide Decode, Beyond, Trim, TrimOf, PayloadOf, AttemptAll;
    assert held[i..][1..] == held[i + 1..];
    if Beyond(held[i], base, window) {
      BeyondTrims(held[i], base, window);
      AttemptCons(t, k, Send, Trim(held[i], base, window, ipid),
        Trimmed(held[i + 1..], base, window, (ipid + 1) % 0x1_0000), fate);
    }
  }

  lemma TrimmedEnd(t: Trace, k: Key, held: seq<Packet>, base: u32, window: nat, ipid: u16, fate: Fate)
    ensures held[|held|..] == [] && AttemptAll(t, k, Send, Trimmed([], base, window, ipid), fate) == (t, true)
  {
  }

  /** No two flows of the table share an object. */
  ghost predicate Apart(flows: map<Key, FlowState>)
    reads flows.Values
  {
    forall j, k | j in flows && k in flows && j != k ::
      flows[j] != flows[k] && (flows[j].reassembler == null || flows[j].reassembler != flows[k].reassembler)
  }

  lemma SameCount<A, B, C>(a: map<A, B>, c: map<A, C>)
    requires a.Keys == c.Keys
    ensures |a| == |c|
  {
    assert |a| == |a.Keys| && |c| == |c.Keys|;
  }

  class Worker {
    const adapter: Adapter
    var flows: map<Key, FlowState>
    var heldBytes: int
    var reassemblyBytes: int

    constructor (adapter: Adapter)
      requires adapter.Valid() && adapter.trace == []
      ensures this.adapter == adapter && Valid() && Abs() == EMPTY
    {
      this.adapter, flows, heldBytes, reassemblyBytes := adapter, map[], 0, 0;
      new;
      I.EmptyIsSane();
      assert Abs() == EMPTY;
    }

    /** This worker's counters and trace together with one flow. */
    ghost function Here(st: FlowState): Local
      reads this, adapter, st, st.reassembler
    {
      Local(Some(st.Abs()), heldBytes, reassemblyBytes, adapter.trace)
    }

    // ---- releasing and forgetting ----

    /** Issue the same call for each packet, stopping at the first failure. */
    method CallAll(ghost k: Key, verb: Verb, ps: seq<Packet>) returns (ok: bool)
      requires adapter.Valid()
      modifies adapter
      ensures adapter.Valid()
      ensures (adapter.trace, ok) == AttemptAll(old(adapter.trace), k, verb, ps, adapter.fate)
    {
      for i := 0 to |ps|
        invariant adapter.Valid()
        invariant AttemptAll(adapter.trace, k, verb, ps[i..], adapter.fate) ==
                  AttemptAll(old(adapter.trace), k, verb, ps, adapter.fate)
      {
        assert ps[i..][1..] == ps[i + 1..];
        var sent := adapter.Call(k, verb, ps[i]);
        if !sent {
          return false;
        }
      }
      ok := true;
    }

    /** Give the bytes of the held packets back, one by one, and clamp the counter at zero. */
    method GiveBackHeld(st: FlowState)
      modifies this`heldBytes
      ensures heldBytes == Clamp(old(heldBytes) - SizeOf(st.held))
    {
      hide SizeOf;
      SizeOfNone();
      for i := 0 to |st.held|
        invariant heldBytes == old(heldBytes) - SizeOf(st.held[..i])
      {
        SizeOfPrefix(st.held, i);
        heldBytes := heldBytes - |st.held[i].data|;
      }
      assert st.held[..|st.held|] == st.held;
      if heldBytes < 0 {
        heldBytes := 0;
      }
    }

    method ClearCollectingState(st: FlowState)
      requires st.Good()
      modifies this`heldBytes, this`reassemblyBytes, st`held, st`template, st`reassembler
      ensures st.Good()
      ensures heldBytes == Clamp(old(heldBytes) - SizeOf(old(st.held)))
      ensures reassemblyBytes == if old(st.reassembler) == null then old(reassemblyBytes)
                                 else Clamp(old(reassemblyBytes) - old(st.reassembler.Abs().TotalBytes()))
      ensures st.held == [] && st.template == None && st.reassembler == null
    {
      GiveBackHeld(st);
      if st.reassembler != null {
        st.reassembler.ValidMeans();
        reassemblyBytes := reassemblyBytes - st.reassembler.totalBytes;
        if reassemblyBytes < 0 {
          reassemblyBytes := 0;
        }
      }
      st.held, st.template, st.reassembler := [], None, null;
    }

    method FailOpen(ghost k: Key, st: FlowState) returns (ok: bool)
      requires adapter.Valid() && st.Good()
      modifies this`heldBytes, this`reassemblyBytes, adapter, st
      ensures adapter.Valid() && st.Good() && (st.reassembler != null ==> st.reassembler == old(st.reassembler))
      ensures (Here(st), ok) == Release(old(Here(st)), k, adapter.fate)
    {
      hide AttemptAll, SizeOf;
      ok := CallAll(k, Send, st.held);
      if !ok {
        return;
      }
      st.stage := StagePassThrough;
      ClearCollectingState(st);
    }

    // ---- injecting ----

    /** One built and sealed packet per segment, at consecutive sequence numbers and IP ids. */
    method SendSegments(ghost k: Key, tpl: Packet, baseSeq: u32, segs: seq<Bytes>, flags: u8, lastFlags: u8,
                        firstId: u16)
      returns (ok: bool, ipid: u16)
      requires adapter.Valid() && Decode(tpl.data) == Decoded(tpl.meta)
      requires forall i | 0 <= i < |segs| :: 1 <= |segs[i]| && tpl.meta.payloadOffset + |segs[i]| <= 0xffff
      modifies adapter
      ensures adapter.Valid()
      ensures (adapter.trace, ok) ==
              AttemptAll(old(adapter.trace), k, Send, S.Run(tpl, baseSeq, segs, flags, lastFlags, firstId),
                adapter.fate)
      ensures ok ==> ipid == (firstId + |segs|) % 0x1_0000
    {
      hide Decode, S.Wired, AttemptAll, S.Run, Add32;
      ipid := firstId;
      var offset: nat := 0;
      WholeSeq(baseSeq);
      RunNone(tpl, baseSeq, flags, lastFlags);
      for i := 0 to |segs|
        invariant adapter.Valid() && ipid == (firstId + i) % 0x1_0000
        invariant AttemptAll(adapter.trace, k, Send,
                  S.Run(tpl, Add32(baseSeq, offset), segs[i..], flags, lastFlags, ipid), adapter.fate)
               == AttemptAll(old(adapter.trace), k, Send, S.Run(tpl, baseSeq, segs, flags, lastFlags, firstId),
                 adapter.fate)
      {
        var segFlags := if i == |segs| - 1 then lastFlags else flags;
        SegmentNext(adapter.trace, k, tpl, baseSeq, offset, segs, i, flags, lastFlags, ipid, adapter.fate);
        var p, next := PB.BuildSealed(tpl, Add32(baseSeq, offset), segs[i], segFlags, ipid);
        ipid := next;
        var sent := adapter.Call(k, Send, p);
        if !sent {
          return false, ipid;
        }
        offset := offset + |segs[i]|;
      }
      assert segs[|segs|..] == [];
      AttemptNone(adapter.trace, k, Send, adapter.fate);
      ok := true;
    }

    /** Rebuild the held packets without what the window already carried. */
    method ReinjectTrimmed(ghost k: Key, held: seq<Packet>, baseSeq: u32, windowLen: u32,
                           firstId: u16)
      returns (ok: bool)
      requires adapter.Valid() && forall p | p in held :: |p.data| <= 0xffff
      requires forall p | p in held :: Decode(p.data) == Decoded(p.meta)
      modifies adapter
      ensures adapter.Valid()
      ensures (adapter.trace, ok) ==
              AttemptAll(old(adapter.trace), k, Send, Trimmed(held, baseSeq, windowLen, firstId), adapter.fate)
    {
      hide Decode, S.Wired, PayloadOf, AttemptAll, Trimmed;
      var ipid := firstId;
      assert held[0..] == held;
      for i := 0 to |held|
        invariant adapter.Valid()
        invariant AttemptAll(adapter.trace, k, Send, Trimmed(held[i..], baseSeq, windowLen, ipid), adapter.fate)
               == AttemptAll(old(adapter.trace), k, Send, Trimmed(held, baseSeq, windowLen, firstId), adapter.fate)
      {
        var pkt := held[i];
        TrimmedNext(adapter.trace, k, held, i, baseSeq, windowLen, ipid, adapter.fate);
        var payload := PayloadOf(pkt);
        var offset := Sub32(pkt.meta.seqNo, baseSeq);
        var end := Add32(offset, |payload|);
        var trim := if offset < windowLen then windowLen - offset else 0;
        if |payload| != 0 && end > windowLen && trim < |payload| {
          GenuineReads(pkt);
          DecodedBounds(pkt.data, pkt.meta);
          var p, next := PB.BuildSealed(pkt, Add32(pkt.meta.seqNo, trim), payload[trim..], pkt.meta.flags, ipid);
          ipid := next;
          var sent := adapter.Call(k, Send, p);
          if !sent {
            return false;
          }
        }
      }
      TrimmedEnd(adapter.trace, k, held, baseSeq, windowLen, ipid, adapter.fate);
      ok := true;
    }

    /** Send the split window, then what the flow has contiguously beyond it. */
    method SendPlan(ghost k: Key, st: FlowState, windowLen: nat, segs: seq<Bytes>, maxPayload: int) returns (ok: bool)
      requires adapter.Valid() && st.Good() && Collected(st.Abs()) && windowLen <= st.Abs().buf.value.prefix
      requires maxPayload >= 1 && S.Sized(segs, maxPayload)
      requires st.template.value.meta.ipLen + st.template.value.meta.tcpLen + maxPayload <= 0xffff
      modifies adapter
      ensures adapter.Valid()
      ensures (adapter.trace, ok) ==
              AttemptAll(old(adapter.trace), k, Send, PlanFrom(st.Abs(), windowLen, segs, maxPayload), adapter.fate)
    {
      hide Decode, S.Run, S.Chunks, Trimmed, AttemptAll, Get16, WithoutPshFin, R.Buf.Contig, Add32, S.Join;
      st.reassembler.ValidMeans();
      var tpl := st.template.value;
      DecodedBounds(tpl.data, tpl.meta);
      var remainder := st.reassembler.contig[windowLen..];
      var quiet := WithoutPshFin(tpl.meta.flags);
      var splitLast := if |remainder| > 0 then quiet else tpl.meta.flags;
      var ipid := Get16(tpl.data, 4);
      var sent, next := SendSegments(k, tpl, st.baseSeq, segs, quiet, splitLast, ipid);
      if |remainder| == 0 {
        return sent;
      }
      TwoParts(old(adapter.trace), k, st.Abs(), windowLen, segs, maxPayload, adapter.fate);
      if !sent {
        return false;
      }
      S.ChunksJoin(remainder, maxPayload);
      WindowFits(st.Abs(), windowLen);
      if !st.reassembler.hadOutOfOrder && !st.reassembler.hadOverlap {
        ok := ReinjectTrimmed(k, st.held, st.baseSeq, windowLen, next);
      } else {
        var remSegs := S.ChunkPayload(remainder, maxPayload);
        ok, next := SendSegments(k, tpl, Add32(st.baseSeq, windowLen), remSegs, quiet, tpl.meta.flags, next);
      }
    }

    method DropHeld(ghost k: Key, st: FlowState) returns (ok: bool)
      requires adapter.Valid()
      modifies adapter
      ensures adapter.Valid()
      ensures (adapter.trace, ok) == AttemptAll(old(adapter.trace), k, Drop, st.held, adapter.fate)
    {
      ok := CallAll(k, Drop, st.held);
    }

    /** Replace the held packets by split segments, or fail open if that cannot be done. */
    method InjectWindow(ghost k: Key, st: FlowState, windowLen: nat, c2: Config) returns (ok: bool)
      requires adapter.Valid() && st.Good() && Collected(st.Abs())
      modifies this`heldBytes, this`reassemblyBytes, adapter, st
      ensures adapter.Valid() && st.Good() && (st.reassembler != null ==> st.reassembler == old(st.reassembler))
      ensures windowLen > old(st.Abs().buf.value.prefix) ==> ok && Here(st) == old(Here(st))
      ensures windowLen <= old(st.Abs().buf.value.prefix) ==>
                (Here(st), ok) == Perform(old(Here(st)), k, DecideInject(old(st.Abs()), windowLen, c2), adapter.fate)
    {
      hide AttemptAll, Release, Clear, PlanFrom, R.Buf.Contig, S.SplitFirst, Decode, SizeOf, Plan, DecideInject,
           Genuine,
           R.Buf.WellFormed, Inject;
      DecideInjectCases(st.Abs(), windowLen, c2);
      if windowLen < 1 {
        ok := FailOpen(k, st);
        return;
      }
      st.reassembler.ValidMeans();
      var contig := st.reassembler.contig;
      if |contig| < windowLen {
        return true;
      }
      var tpl := st.template.value;
      var maxPayload := S.ClampSegmentPayload(|PayloadOf(tpl)|, tpl.meta.ipLen + tpl.meta.tcpLen, c2.maxSegmentPayload);
      if maxPayload < 1 {
        ok := FailOpen(k, st);
        return;
      }
      var segs := S.SplitFirstSegments(contig[..windowLen], c2.splitChunk, maxPayload);
      if |segs| < 2 {
        ok := FailOpen(k, st);
        return;
      }
      S.SplitFirstJoin(contig[..windowLen], c2.splitChunk, maxPayload);
      ok := InjectSegments(k, st, windowLen, segs, maxPayload);
    }

    /** Send the plan; fall back to the originals if a call fails, otherwise drop them and finish the injection. */
    method InjectSegments(ghost k: Key, st: FlowState, windowLen: nat, segs: seq<Bytes>,
                          maxPayload: int)
      returns (ok: bool)
      requires adapter.Valid() && st.Good() && Collected(st.Abs()) && windowLen <= st.Abs().buf.value.prefix
      requires maxPayload >= 1 && S.Sized(segs, maxPayload)
      requires st.template.value.meta.ipLen + st.template.value.meta.tcpLen + maxPayload <= 0xffff
      modifies this`heldBytes, this`reassemblyBytes, adapter, st
      ensures adapter.Valid() && st.Good() && (st.reassembler != null ==> st.reassembler == old(st.reassembler))
      ensures (Here(st), ok) == Inject(old(Here(st)), k, windowLen,
              PlanFrom(old(st.Abs()), windowLen, segs, maxPayload), adapter.fate)
    {
      hide AttemptAll, PlanFrom, Decode, SizeOf, S.Sized, Clear, Genuine, R.Buf.Contig, R.Buf.WellFormed;
      ghost var f := st.Abs();
      ghost var plan := PlanFrom(f, windowLen, segs, maxPayload);
      var sent := SendPlan(k, st, windowLen, segs, maxPayload);
      if !sent {
        ok := FailOpen(k, st);
        return;
      }
      ok := DropHeld(k, st);
      if !ok {
        return;
      }
      FinishInjection(k, st, windowLen, f, plan);
    }

    method FinishInjection(ghost k: Key, st: FlowState, ghost windowLen: nat, ghost f: Flow, ghost plan: seq<Packet>)
      requires adapter.Valid() && st.Good()
      modifies this`heldBytes, this`reassemblyBytes, adapter, st
      ensures adapter.Valid() && st.Good() && (st.reassembler != null ==> st.reassembler == old(st.reassembler))
      ensures Here(st) == Clear(old(Here(st)).(trace := old(adapter.trace) + [Split(k, windowLen, f, plan)]),
              old(st.Abs()), Injected)
    {
      hide SizeOf;
      adapter.Mark(Split(k, windowLen, f, plan));
      st.stage := StageInjected;
      ClearCollectingState(st);
      st.processed := true;
    }

    method TrySplitImmediate(ghost k: Key, st: FlowState, ghost c1: Config, c2: Config) returns (ok: bool)
      requires adapter.Valid() && st.Good() && Collected(st.Abs())
      modifies this`heldBytes, this`reassemblyBytes, adapter, st
      ensures adapter.Valid() && st.Good() && (st.reassembler != null ==> st.reassembler == old(st.reassembler))
      ensures (Here(st), ok) == Perform(old(Here(st)), k, DecideSplit(old(st.Abs()), Immediate, c1, c2), adapter.fate)
    {
      hide Release, DecideInject, R.Buf.Contig, Collected;
      CollectedParts(st.Abs());
      if st.firstPayloadLen <= 0 {
        return true;
      }
      assert st.reassembler != null;  // the guard against a missing buffer never fires
      st.reassembler.ValidMeans();
      if |st.reassembler.contig| < st.firstPayloadLen {
        return true;
      }
      ok := InjectWindow(k, st, st.firstPayloadLen, c2);
    }

    method TrySplitTLSHello(ghost k: Key, st: FlowState, c1: Config, c2: Config) returns (ok: bool)
      requires adapter.Valid() && st.Good() && Collected(st.Abs())
      modifies this`heldBytes, this`reassemblyBytes, adapter, st
      ensures adapter.Valid() && st.Good() && (st.reassembler != null ==> st.reassembler == old(st.reassembler))
      ensures (Here(st), ok) == Perform(old(Here(st)), k, DecideSplit(old(st.Abs()), TlsHello, c1, c2), adapter.fate)
    {
      hide Release, DecideInject, R.Buf.Contig, Collected, Tls.DetectClientHelloRecord;
      CollectedParts(st.Abs());
      assert st.reassembler != null;  // the guard against a missing buffer never fires
      st.reassembler.ValidMeans();
      var contig := st.reassembler.contig;
      var result := Tls.DetectClientHelloRecord(contig);
      if result.NeedMore? {
        return true;
      }
      if result.Mismatch? {
        ok := FailOpen(k, st);
        return;
      }
      var need := 5 + result.recordLen;
      if need > c1.maxBufferBytes {
        ok := FailOpen(k, st);
        return;
      }
      if |contig| < need {
        return true;
      }
      ok := InjectWindow(k, st, need, c2);
    }

    // ---- one packet ----

    /** The worker shows the local state `x` for flow `k`, the rest of the table being as it was. */
    ghost predicate Shows(k: Key, st: FlowState, was: map<Key, FlowState>, x: Local)
      reads this, adapter, st, st.reassembler
    {
      && heldBytes == x.held && reassemblyBytes == x.reasm && adapter.trace == x.trace
      && if x.flow.Some? then flows == was && st.Abs() == x.flow.value else flows == was - {k}
    }

    /** Release the flow and remove it from the table. */
    method FailOpenAndDelete(k: Key, st: FlowState) returns (ok: bool)
      requires adapter.Valid() && st.Good()
      modifies this`flows, this`heldBytes, this`reassemblyBytes, adapter, st
      ensures adapter.Valid() && st.Good() && (st.reassembler != null ==> st.reassembler == old(st.reassembler))
      ensures var (m, done) := ReleaseThen(old(Here(st)), k, true, adapter.fate);
              ok == done && Shows(k, st, old(flows), m)
    {
      hide Release;
      ok := FailOpen(k, st);
      if !ok {
        return;
      }
      Delete(k);
    }

    method Delete(k: Key)
      requires adapter.Valid()
      modifies this`flows, adapter
      ensures adapter.Valid()
      ensures flows == old(flows) - {k} && adapter.trace == old(adapter.trace) + [Gone(k)]
    {
      flows := flows - {k};
      adapter.Mark(Gone(k));
    }

    /** What follows once the payload was pushed with result `r`. */
    method AfterPush(k: Key, st: FlowState, pkt: Packet, r: R.Outcome, isNew: bool, c0: Config, c1: Config,
                     c2: Config)
      returns (ok: bool)
      requires adapter.Valid() && st.Good() && Collected(st.Abs())
      modifies this`flows, this`heldBytes, this`reassemblyBytes, adapter, st
      ensures adapter.Valid() && st.Good() && (st.reassembler != null ==> st.reassembler == old(st.reassembler))
      ensures var a := DecidePushed(old(st.Abs()), r, old(reassemblyBytes), isNew, pkt, c0, c1, c2);
              var (m, done) := Perform(old(Here(st)), k, a, adapter.fate);
              ok == done && Shows(k, st, old(flows), m)
    {
      hide Release, DecideSplit, Collected, Inject;
      CollectedParts(st.Abs());
      if r != R.Accepted {
        ok := FailOpen(k, st);
        return;
      }
      if c0.maxReassemblyBytes > 0 && reassemblyBytes > c0.maxReassemblyBytes {
        ok := FailOpen(k, st);
        return;
      }
      var syn, rst, fin := HasFlag(pkt.meta.flags, SYN), HasFlag(pkt.meta.flags, RST), HasFlag(pkt.meta.flags, FIN);
      if syn {
        if isNew && rst {
          ok := FailOpenAndDelete(k, st);
        } else {
          ok := FailOpen(k, st);
        }
        return;
      }
      if rst || fin {
        ok := FailOpenAndDelete(k, st);
        return;
      }
      if c0.mode == Immediate {
        ok := TrySplitImmediate(k, st, c1, c2);
        return;
      }
      if c0.mode == TlsHello {
        ok := TrySplitTLSHello(k, st, c1, c2);
        return;
      }
      ModeOther(st.Abs(), c0.mode, c1, c2);
      ok := true;
    }

    /** Push the payload and account for the bytes it added. */
    method PushPayload(st: FlowState, pkt: Packet) returns (r: R.Outcome)
      requires st.Good() && st.reassembler != null && |pkt.data| <= 0xffff
      modifies this`reassemblyBytes, st.reassembler
      ensures st.Good()
      ensures (st.reassembler.Abs(), r) == R.Push(old(st.reassembler.Abs()), FragmentOf(pkt))
      ensures reassemblyBytes == Clamp(old(reassemblyBytes)
              + (st.reassembler.Abs().TotalBytes() - old(st.reassembler.Abs().TotalBytes())))
    {
      hide R.Push;
      st.reassembler.ValidMeans();
      var before := st.reassembler.totalBytes;
      r := st.reassembler.Push(pkt.meta.seqNo, PayloadOf(pkt));
      st.reassembler.ValidMeans();
      reassemblyBytes := reassemblyBytes + (st.reassembler.totalBytes - before);
      if reassemblyBytes < 0 {
        reassemblyBytes := 0;
      }
    }

    /** Push the newest packet's payload and see what comes of it. */
    method PushAndDecide(k: Key, st: FlowState, pkt: Packet, isNew: bool, c0: Config, c1: Config,
                         c2: Config)
      returns (ok: bool)
      requires adapter.Valid() && st.Good() && Collected(st.Abs()) && |pkt.data| <= 0xffff
      modifies this`flows, this`heldBytes, this`reassemblyBytes, adapter, st, st.reassembler
      ensures adapter.Valid() && st.Good() && (st.reassembler != null ==> st.reassembler == old(st.reassembler))
      ensures var (m, done) := PushedOn(old(Here(st)), k, pkt, isNew, c0, c1, c2, adapter.fate);
              ok == done && Shows(k, st, old(flows), m)
    {
      hide DecidePushed, R.Push, Collected, Perform;
      CollectedParts(st.Abs());
      BufferedCollected(Here(st), pkt);
      assert st.reassembler != null;  // the guard against a missing buffer never fires
      var r := PushPayload(st, pkt);
      ok := AfterPush(k, st, pkt, r, isNew, c0, c1, c2);
    }

    /** Take the packet into the hold and see what comes of it; shared by new and existing flows. */
    method TakeIn(k: Key, st: FlowState, pkt: Packet, now: int, isNew: bool, c0: Config, c1: Config,
                  c2: Config)
      returns (ok: bool)
      requires adapter.Valid() && st.Good() && Collected(st.Abs()) && Genuine(pkt)
      modifies this`flows, this`heldBytes, this`reassemblyBytes, adapter, st, st.reassembler
      ensures adapter.Valid() && st.Good() && (st.reassembler != null ==> st.reassembler == old(st.reassembler))
      ensures var (m, done) := Taken(old(Here(st)), k, pkt, now, isNew, c0, c1, c2, adapter.fate);
              ok == done && Shows(k, st, old(flows), m)
    {
      hide Release, PushedOn, Collected, Genuine;
      AppendCollected(Here(st), pkt);
      GenuineSize(pkt);
      st.held := st.held + [pkt];
      heldBytes := heldBytes + |pkt.data|;
      if |st.held| >= c0.maxHeldPackets {
        ok := ReleaseAll(k, st);
        return;
      }
      if now - st.collectStart > c0.collectTimeout {
        ok := ReleaseAll(k, st);
        return;
      }
      ok := PushAndDecide(k, st, pkt, isNew, c0, c1, c2);
    }

    /** `FailOpen`, seen as what the worker shows. */
    method ReleaseAll(k: Key, st: FlowState) returns (ok: bool)
      requires adapter.Valid() && st.Good()
      modifies this`heldBytes, this`reassemblyBytes, adapter, st
      ensures adapter.Valid() && st.Good() && (st.reassembler != null ==> st.reassembler == old(st.reassembler))
      ensures var (m, done) := Release(old(Here(st)), k, adapter.fate);
              ok == done && Shows(k, st, flows, m)
    {
      ok := FailOpen(k, st);
    }

    /** A packet without payload that ends the connection: release, pass it on, forget the flow. */
    method CloseOut(k: Key, st: FlowState, pkt: Packet) returns (ok: bool)
      requires adapter.Valid() && st.Good()
      modifies this`flows, this`heldBytes, this`reassemblyBytes, adapter, st
      ensures adapter.Valid() && st.Good() && (st.reassembler != null ==> st.reassembler == old(st.reassembler))
      ensures var (m, done) := Closed(old(Here(st)), k, pkt, adapter.fate);
              ok == done && Shows(k, st, old(flows), m)
    {
      hide Release;
      if st.stage == StageCollecting {
        ok := FailOpen(k, st);
        if !ok {
          return;
        }
      }
      ok := adapter.Call(k, Send, pkt);
      if !ok {
        return;
      }
      Delete(k);
    }

    /** A packet with payload of a flow that is collecting. */
    method CollectMore(k: Key, st: FlowState, pkt: Packet, now: int, c0: Config, c1: Config,
                       c2: Config)
      returns (ok: bool)
      requires adapter.Valid() && st.Good() && Collected(st.Abs()) && Genuine(pkt)
      modifies this`flows, this`heldBytes, this`reassemblyBytes, adapter, st, st.reassembler
      ensures adapter.Valid() && st.Good() && (st.reassembler != null ==> st.reassembler == old(st.reassembler))
      ensures var (m, done) := CollectedFurther(old(Here(st)), k, pkt, now, c0, c1, c2, adapter.fate);
              ok == done && Shows(k, st, old(flows), m)
    {
      hide Release, Taken, Genuine, Collected;
      StillCollected(st.Abs(), pkt, st.lastActive);
      SameTime(st.Abs(), pkt);
      st.template := Some(pkt);
      if c0.maxHeldBytes > 0 && heldBytes + |pkt.data| > c0.maxHeldBytes {
        ok := FailOpen(k, st);
        if !ok {
          return;
        }
        ok := adapter.Call(k, Send, pkt);
        return;
      }
      ok := TakeIn(k, st, pkt, now, false, c0, c1, c2);
    }

    /** A packet of a flow that is in the table. */
    method HandleExisting(k: Key, st: FlowState, pkt: Packet, now: int, c0: Config, c1: Config,
                          c2: Config)
      returns (ok: bool)
      requires adapter.Valid() && st.Good() && Ready(Here(st), pkt)
      modifies this`flows, this`heldBytes, this`reassemblyBytes, adapter, st, st.reassembler
      ensures adapter.Valid() && st.Good() && (st.reassembler != null ==> st.reassembler == old(st.reassembler))
      ensures var (m, done) := Handle(old(Here(st)), old(|flows|), k, pkt, now, c0, c1, c2, adapter.fate);
              ok == done && Shows(k, st, old(flows), m)
    {
      hide Handle, Closed, CollectedFurther, Genuine, Collected;
      var payload := PayloadOf(pkt);
      HandleExistingCases(Here(st), |flows|, k, pkt, now, c0, c1, c2, adapter.fate);
      TouchedCollected(Here(st), now);
      st.lastActive := now;
      if |payload| == 0 && (HasFlag(pkt.meta.flags, RST) || HasFlag(pkt.meta.flags, FIN)) {
        ok := CloseOut(k, st, pkt);
      } else if st.stage == StageInjected || st.stage == StagePassThrough {
        ok := adapter.Call(k, Send, pkt);
      } else if |payload| == 0 {
        ok := adapter.Call(k, Send, pkt);
      } else {
        ok := CollectMore(k, st, pkt, now, c0, c1, c2);
      }
    }

    /** Put a new flow into the table and take its first packet in. */
    method CollectNew(k: Key, pkt: Packet, now: int, c0: Config, c1: Config, c2: Config)
      returns (ok: bool, st: FlowState)
      requires adapter.Valid() && k !in flows && Genuine(pkt)
      modifies this`flows, this`heldBytes, this`reassemblyBytes, adapter
      ensures adapter.Valid()
      ensures Collected(Candidate(None, pkt, now, c0))
      ensures var l := Local(Some(Candidate(None, pkt, now, c0)), old(heldBytes), old(reassemblyBytes),
              old(adapter.trace));
              var (m, done) := Taken(l, k, pkt, now, true, c0, c1, c2, adapter.fate);
              && ok == done && heldBytes == m.held && reassemblyBytes == m.reasm && adapter.trace == m.trace
              && NewEntry(k, st, old(flows), m.flow)
      ensures fresh(st) && st.Good() && (st.reassembler != null ==> fresh(st.reassembler))
    {
      hide Taken, Candidate, Genuine, Collected;
      NewCollected(pkt, now, c0);
      st := StartFlow(pkt, now, c0);
      ghost var was := flows;
      flows := flows[k := st];
      // the program repeats its held-bytes check here; nothing has changed since, so it cannot fire
      ghost var l := Here(st);
      assert l == Local(Some(Candidate(None, pkt, now, c0)), old(heldBytes), old(reassemblyBytes), old(adapter.trace));
      ok := TakeIn(k, st, pkt, now, true, c0, c1, c2);
      ghost var m := Taken(l, k, pkt, now, true, c0, c1, c2, adapter.fate).0;
      assert Shows(k, st, was[k := st], m);
      assert was[k := st] - {k} == was;
      assert NewEntry(k, st, was, m.flow);
    }

    /** The table with the new flow in it, or without it if it was removed at once. */
    ghost predicate NewEntry(k: Key, st: FlowState, was: map<Key, FlowState>, flow: Option<Flow>)
      reads this, st, st.reassembler
    {
      if flow.None? then flows == was else flows == was[k := st] && st.Abs() == flow.value
    }

    /** A packet of a flow that is not in the table: pass it on, or start collecting. */
    method HandleNew(k: Key, pkt: Packet, now: int, c0: Config, c1: Config, c2: Config)
      returns (ok: bool, st: FlowState?)
      requires adapter.Valid() && k !in flows && Genuine(pkt)
      modifies this`flows, this`heldBytes, this`reassemblyBytes, adapter
      ensures adapter.Valid()
      ensures var l := Local(None, old(heldBytes), old(reassemblyBytes), old(adapter.trace));
              var (m, done) := Handle(l, old(|flows|), k, pkt, now, c0, c1, c2, adapter.fate);
              && ok == done && heldBytes == m.held && reassemblyBytes == m.reasm && adapter.trace == m.trace
              && (if st == null then m.flow.None? && flows == old(flows) else NewEntry(k, st, old(flows), m.flow))
      ensures st != null ==> fresh(st) && st.Good() && (st.reassembler != null ==> fresh(st.reassembler))
    {
      hide Taken, Handle, NewEntry, Candidate, Genuine, Collected;
      st := null;
      ghost var l := Local(None, heldBytes, reassemblyBytes, adapter.trace);
      var payload := PayloadOf(pkt);
      HandleNewCases(l, |flows|, k, pkt, now, c0, c1, c2, adapter.fate);
      if || |payload| == 0
         || (c0.maxFlows > 0 && |flows| >= c0.maxFlows)
         || (c0.maxHeldBytes > 0 && heldBytes + |pkt.data| > c0.maxHeldBytes)
         || (c0.maxReassemblyBytes > 0 && reassemblyBytes + |payload| > c0.maxReassemblyBytes)
      {
        ok := adapter.Call(k, Send, pkt);
        return;
      }
      ok, st := CollectNew(k, pkt, now, c0, c1, c2);
    }

    method StartFlow(pkt: Packet, now: int, c0: Config) returns (s: FlowState)
      requires Genuine(pkt)
      ensures fresh(s) && s.Good() && s.reassembler != null && fresh(s.reassembler)
      ensures s.Abs() == Candidate(None, pkt, now, c0) && Collected(s.Abs())
    {
      s := new FlowState(now);
      s.baseSeq := pkt.meta.seqNo;
      s.reassembler := new RB.Buffer(pkt.meta.seqNo, c0.maxBufferBytes % 0x1_0000_0000);
      s.stage := StageCollecting;
      s.collectStart := now;
      s.firstPayloadLen := |PayloadOf(pkt)|;
      s.template := Some(pkt);
    }

    // ---- the whole table ----

    /** The flow objects and their buffers. */
    ghost function Objects(): set<object>
      reads this, flows.Values
    {
      (set k | k in flows :: flows[k] as object)
      + (set k | k in flows && flows[k].reassembler != null :: flows[k].reassembler as object)
    }

    ghost predicate Linked()
      reads this, flows.Values, Objects()
    {
      Apart(flows) && forall k | k in flows :: flows[k].Good()
    }

    ghost function Abs(): World
      reads this, adapter, flows.Values, Objects()
    {
      World(map k | k in flows :: flows[k].Abs(), heldBytes, reassemblyBytes, adapter.trace)
    }

    /** The class invariant: objects apart, flows valid, counters exact. */
    ghost predicate Valid()
      reads this, adapter, flows.Values, Objects()
    {
      adapter.Valid() && Linked() && I.Sane(Abs())
    }

    /** With one flow object changed, the worker as a whole is the old one, `w`, with that flow stored. */
    lemma StoredBack(k: Key, st: FlowState, was: map<Key, FlowState>, w: World, x: Local)
      requires was.Keys == w.flows.Keys && k in was && was[k] == st && Apart(was)
      requires forall j | j in was && j != k :: was[j].Good() && was[j].Abs() == w.flows[j]
      requires Shows(k, st, was, x) && st.Good()
      ensures Linked()
      ensures Abs() == Store(w, k, x)
    {
      hide FlowState.Good, FlowState.Abs, Linked, Abs, Store, Apart, Objects;
      StaysLinked(k, st, was, x);
      StoredAbs(k, st, was, w, x);
    }

    lemma StaysLinked(k: Key, st: FlowState, was: map<Key, FlowState>, x: Local)
      requires k in was && was[k] == st && Apart(was) && Shows(k, st, was, x) && st.Good()
      requires forall j | j in was && j != k :: was[j].Good()
      ensures Linked()
    {
      hide FlowState.Good, FlowState.Abs, Objects;
    }

    lemma StoredAbs(k: Key, st: FlowState, was: map<Key, FlowState>, w: World, x: Local)
      requires was.Keys == w.flows.Keys && k in was && was[k] == st && Shows(k, st, was, x)
      requires forall j | j in was && j != k :: was[j].Abs() == w.flows[j]
      ensures Abs() == Store(w, k, x)
    {
      hide FlowState.Abs, Objects;
      var mine, other := Abs().flows, Store(w, k, x).flows;
      assert mine.Keys == flows.Keys && other.Keys == flows.Keys;
      assert forall j | j in flows :: mine[j] == other[j];
      assert mine == other;
    }

    /** With a new flow object in the table, or nothing new, likewise. */
    lemma StoredNew(k: Key, st: FlowState?, was: map<Key, FlowState>, w: World, x: Local)
      requires was.Keys == w.flows.Keys && k !in was
      requires forall j | j in was :: was[j].Good() && was[j].Abs() == w.flows[j]
      requires heldBytes == x.held && reassemblyBytes == x.reasm && adapter.trace == x.trace
      requires if st == null then x.flow.None? && flows == was else NewEntry(k, st, was, x.flow)
      requires st != null ==> st.Good()
      requires Apart(was) && (st != null ==> Apart(was[k := st]))
      ensures Linked()
      ensures Abs() == Store(w, k, x)
    {
      hide FlowState.Good, FlowState.Abs;
      assert Abs().flows == Store(w, k, x).flows;
    }

    /** The objects of each flow are among the worker's. */
    lemma ObjectsHave()
      ensures forall k | k in flows ::
                flows[k] in Objects() && (flows[k].reassembler != null ==> flows[k].reassembler in Objects())
    {
    }

    lemma ObjectsWithin(objects: set<object>)
      requires forall k | k in flows ::
                 flows[k] in objects && (flows[k].reassembler != null ==> flows[k].reassembler in objects)
      ensures Objects() <= objects
    {
    }

    lemma LinkedGood(k: Key)
      requires Linked() && k in flows
      ensures flows[k].Good() && Load(Abs(), k) == Here(flows[k])
    {
    }

    /** The table step for a flow that is there. */
    method StepKnown(k: Key, pkt: Packet, now: int, c0: Config, c1: Config, c2: Config) returns (ok: bool)
      requires adapter.Valid() && Linked() && k in flows && Ready(Load(Abs(), k), pkt)
      modifies this, adapter, Objects()
      ensures adapter.Valid() && Linked()
      ensures var (m, done) := Handle(Load(old(Abs()), k), old(|flows|), k, pkt, now, c0, c1, c2, adapter.fate);
              ok == done && Abs() == Store(old(Abs()), k, m)
    {
      hide Handle, Ready, FlowState.Good, FlowState.Abs, Here, Objects;
      ghost var was, w := flows, Abs();
      ObjectsHave();
      LinkedGood(k);
      ghost var m := Handle(Load(w, k), |was|, k, pkt, now, c0, c1, c2, adapter.fate).0;
      ok := HandleExisting(k, flows[k], pkt, now, c0, c1, c2);
      StoredBack(k, was[k], was, w, m);
    }

    /** The table step for a flow that is not there. */
    method StepUnknown(k: Key, pkt: Packet, now: int, c0: Config, c1: Config, c2: Config) returns (ok: bool)
      requires adapter.Valid() && Linked() && k !in flows && Genuine(pkt)
      modifies this, adapter
      ensures adapter.Valid() && Linked()
      ensures Ready(Load(old(Abs()), k), pkt)
      ensures var (m, done) := Handle(Load(old(Abs()), k), old(|flows|), k, pkt, now, c0, c1, c2, adapter.fate);
              ok == done && Abs() == Store(old(Abs()), k, m)
    {
      hide Handle, Genuine, FlowState.Good, FlowState.Abs, NewEntry, Store, Ready;
      ghost var was, w := flows, Abs();
      NotLoaded(w, k, pkt);
      ghost var m := Handle(Load(w, k), |was|, k, pkt, now, c0, c1, c2, adapter.fate).0;
      var st: FlowState?;
      ok, st := HandleNew(k, pkt, now, c0, c1, c2);
      StoredNew(k, st, was, w, m);
    }

    /** Handle a packet. The worker as a whole takes the step of the flow machine. */
    method HandlePacket(pkt: Packet, now: int, c0: Config, c1: Config, c2: Config) returns (ok: bool)
      requires Valid() && Genuine(pkt) && pkt.source == Captured
      modifies this, adapter, Objects()
      ensures Valid()
      ensures (Abs(), ok) == Step(old(Abs()), Deliver(pkt, now, c0, c1, c2), adapter.fate)
    {
      hide Handle, FlowValid, Genuine, I.Accounted, Collected, Ready, Linked, Store;
      var key := KeyOf(pkt.meta);
      ghost var w := Abs();
      I.StepKeepsSane(w, Deliver(pkt, now, c0, c1, c2), adapter.fate);
      StepUnfolds(w, pkt, now, c0, c1, c2, adapter.fate);
      SameCount(flows, w.flows);
      if key in flows {
        ok := StepKnown(key, pkt, now, c0, c1, c2);
      } else {
        ok := StepUnknown(key, pkt, now, c0, c1, c2);
      }
    }

    /** A payload-free packet went past the worker: keep its flow alive. */
    method TouchFlow(k: Key, now: int)
      requires Valid()
      modifies this, Objects()
      ensures Valid()
      ensures (Abs(), true) == Step(old(Abs()), Touch(k, now), adapter.fate)
    {
      hide FlowValid, I.Accounted, FlowState.Good, FlowState.Abs, Linked, Objects;
      ObjectsHave();
      ghost var w := Abs();
      I.StepKeepsSane(w, Touch(k, now), adapter.fate);
      if k !in flows {
        assert Store(w, k, Load(w, k)).flows == w.flows;
        return;
      }
      TouchKnown(k, now);
    }

    method TouchKnown(k: Key, now: int)
      requires Linked() && k in flows
      modifies flows[k]
      ensures Linked() && Abs() == Store(old(Abs()), k, Touched(Load(old(Abs()), k), now))
    {
      hide FlowState.Good, FlowState.Abs, Here, Store, Touched, Objects;
      ghost var was, w := flows, Abs();
      ObjectsHave();
      LinkedGood(k);
      TouchHere(k, flows[k], now);
      StoredBack(k, flows[k], was, w, Touched(Load(w, k), now));
    }

    method TouchHere(ghost k: Key, st: FlowState, now: int)
      requires st.Good()
      modifies st`lastActive
      ensures st.Good() && Shows(k, st, flows, Touched(old(Here(st)), now))
    {
      st.lastActive := now;
    }

    method ReapKnown(k: Key, now: int, idle: int) returns (ok: bool)
      requires adapter.Valid() && Linked() && k in flows
      modifies this, adapter, Objects()
      ensures adapter.Valid() && Linked()
      ensures var (m, done) := ReapFlow(Load(old(Abs()), k), k, now, idle, adapter.fate);
              ok == done && Abs() == Store(old(Abs()), k, m)
      ensures Objects() <= old(Objects())
    {
      hide FlowState.Good, FlowState.Abs, Here, ReapFlow, Store, Objects;
      ghost var was, w, objects := flows, Abs(), Objects();
      ObjectsHave();
      LinkedGood(k);
      ok := ReapHere(k, flows[k], now, idle);
      ObjectsWithin(objects);
      StoredBack(k, was[k], was, w, ReapFlow(Load(w, k), k, now, idle, adapter.fate).0);
    }

    /** One flow of a garbage collection pass. */
    method ReapIdle(k: Key, now: int, idle: int) returns (ok: bool)
      requires Valid()
      modifies this, adapter, Objects()
      ensures Valid() && Objects() <= old(Objects())
      ensures (Abs(), ok) == Step(old(Abs()), Reap(k, now, idle), adapter.fate)
    {
      hide FlowValid, I.Accounted, FlowState.Good, FlowState.Abs, ReapFlow, Linked, Objects;
      ghost var w := Abs();
      I.StepKeepsSane(w, Reap(k, now, idle), adapter.fate);
      ReapMeans(w, k, now, idle, adapter.fate);
      if k !in flows {
        NothingToReap(w, k, now, idle, adapter.fate);
        return true;
      }
      ok := ReapKnown(k, now, idle);
    }

    method ReapHere(k: Key, st: FlowState, now: int, idle: int) returns (ok: bool)
      requires adapter.Valid() && st.Good() && k in flows && flows[k] == st
      modifies this`flows, this`heldBytes, this`reassemblyBytes, adapter, st
      ensures adapter.Valid() && st.Good() && (st.reassembler != null ==> st.reassembler == old(st.reassembler))
      ensures var (m, done) := ReapFlow(old(Here(st)), k, now, idle, adapter.fate);
              ok == done && Shows(k, st, old(flows), m)
    {
      hide Release;
      if now - st.lastActive <= idle {
        return true;
      }
      if st.stage == StageCollecting && |st.held| > 0 {
        ok := FailOpen(k, st);
        if !ok {
          return;
        }
      }
      Delete(k);
      ok := true;
    }

    /** A garbage collection pass in the order in which the runtime happens to visit the table; a flow whose
      * packets could not be released stays, and the first such failure is reported, named by its flow. */
    method Gc(now: int, idle: int, order: seq<Key>) returns (firstErr: Option<Key>)
      requires Valid()
      modifies this, adapter, Objects()
      ensures Valid()
      ensures (Abs(), firstErr) == Pass(old(Abs()), order, now, idle, adapter.fate)
    {
      hide Valid, Objects, Abs, Pass, Step;
      SaneNow();
      firstErr := None;
      ghost var objects := Objects();
      assert order[0..] == order;
      for n := 0 to |order|
        invariant Valid() && Objects() <= objects && I.Sane(Abs())
        invariant var (w, later) := Pass(Abs(), order[n..], now, idle, adapter.fate);
                  (w, if firstErr.Some? then firstErr else later) == Pass(old(Abs()), order, now, idle, adapter.fate)
      {
        assert order[n..][1..] == order[n + 1..];
        PassNext(Abs(), order[n..], now, idle, adapter.fate);
        var done := ReapIdle(order[n], now, idle);
        if !done && firstErr.None? {
          firstErr := Some(order[n]);
        }
        SaneNow();
      }
      assert order[|order|..] == [];
      PassEnd(Abs(), now, idle, adapter.fate);
    }

    lemma SaneNow()
      requires Valid()
      ensures I.Sane(Abs())
    {
    }
  }

  /** Sending a plan with a remainder is sending the split window and then the rest. */
  lemma TwoParts(t: Trace, k: Key, f: Flow, window: nat, segs: seq<Bytes>, max: int, fate: Fate)
    requires Collected(f) && window < f.buf.value.prefix
    ensures Decode(f.template.value.data) == Decoded(f.template.value.meta) && |f.template.value.data| >= 20
    ensures forall p | p in f.held :: Decode(p.data) == Decoded(p.meta)
    ensures var tpl, b := f.template.value, f.buf.value;
            var quiet, ipid := WithoutPshFin(tpl.meta.flags), Get16(tpl.data, 4);
            var next := (ipid + |segs|) % 0x1_0000;
            var rest := if !b.outOfOrder && !b.overlap then Trimmed(f.held, f.base, window, next)
                        else S.Run(tpl, Add32(f.base, window), S.Chunks(b.Contig()[window..], max), quiet,
                          tpl.meta.flags, next);
            var (u, ok) := AttemptAll(t, k, Send, S.Run(tpl, f.base, segs, quiet, quiet, ipid), fate);
            AttemptAll(t, k, Send, PlanFrom(f, window, segs, max), fate) ==
            if ok then AttemptAll(u, k, Send, rest, fate) else (u, false)
  {
    hide Decode, S.Run, S.Chunks, Trimmed, AttemptAll, Get16, WithoutPshFin;
    var tpl, b := f.template.value, f.buf.value;
    DecodedBounds(tpl.data, tpl.meta);
    var quiet, ipid := WithoutPshFin(tpl.meta.flags), Get16(tpl.data, 4);
    var next: u16 := (ipid + |segs|) % 0x1_0000;
    var first := S.Run(tpl, f.base, segs, quiet, quiet, ipid);
    AttemptAllConcat(t, k, Send, first, Trimmed(f.held, f.base, window, next), fate);
    AttemptAllConcat(t, k, Send, first,
      S.Run(tpl, Add32(f.base, window), S.Chunks(b.Contig()[window..], max), quiet, tpl.meta.flags, next), fate);
  }

  lemma ReapMeans(w: World, k: Key, now: int, idle: int, fate: Fate)
    requires M.Valid(w)
    ensures var (m, ok) := ReapFlow(Load(w, k), k, now, idle, fate);
            Step(w, Reap(k, now, idle), fate) == (Store(w, k, m), ok)
  {
  }

  lemma NothingToReap(w: World, k: Key, now: int, idle: int, fate: Fate)
    requires k !in w.flows
    ensures Store(w, k, ReapFlow(Load(w, k), k, now, idle, fate).0) == w && ReapFlow(Load(w, k), k, now, idle, fate).1
  {
    assert w.flows - {k} == w.flows;
  }

  /** A garbage collection pass is a sequence of `Reap` inputs. It reports the first flow that could not be released. */
  ghost function Pass(w: World, order: seq<Key>, now: int, idle: int, fate: Fate): (World, Option<Key>)
    requires I.Sane(w)
    decreases |order|
  {
    if order == [] then (w, None)
    else
      I.StepKeepsSane(w, Reap(order[0], now, idle), fate);
      var (w', ok) := Step(w, Reap(order[0], now, idle), fate);
      var (end, later) := Pass(w', order[1..], now, idle, fate);
      (end, if ok then later else Some(order[0]))
  }

  function Reaps(order: seq<Key>, now: int, idle: int): seq<Input> {
    seq(|order|, i requires 0 <= i < |order| => Reap(order[i], now, idle))
  }

  /** So what is proved of every run covers garbage collection. */
  lemma {:induction false} PassIsARun(ins: seq<Input>, order: seq<Key>, now: int, idle: int, fate: Fate)
    requires I.InputsOk(ins)
    ensures I.InputsOk(ins + Reaps(order, now, idle))
    ensures Pass(I.RunAll(ins, fate), order, now, idle, fate).0 == I.RunAll(ins + Reaps(order, now, idle), fate)
    decreases |order|
  {
    hide Step, I.Sane;
    if order == [] {
      assert ins + Reaps(order, now, idle) == ins;
    } else {
      var next := ins + [Reap(order[0], now, idle)];
      assert next[..|next| - 1] == ins;
      PassIsARun(next, order[1..], now, idle, fate);
      assert next + Reaps(order[1..], now, idle) == ins + Reaps(order, now, idle);
    }
  }

  lemma PassEnd(w: World, now: int, idle: int, fate: Fate)
    requires I.Sane(w)
    ensures Pass(w, [], now, idle, fate) == (w, None)
  {
  }

  lemma PassNext(w: World, order: seq<Key>, now: int, idle: int, fate: Fate)
    requires I.Sane(w) && order != []
    ensures var (w', ok) := Step(w, Reap(order[0], now, idle), fate);
            && I.Sane(w')
            && var (end, later) := Pass(w', order[1..], now, idle, fate);
               Pass(w, order, now, idle, fate) == (end, if ok then later else Some(order[0]))
  {
    I.StepKeepsSane(w, Reap(order[0], now, idle), fate);
    hide Step, I.Sane;
  }

  lemma NotLoaded(w: World, k: Key, pkt: Packet)
    requires k !in w.flows && Genuine(pkt)
    ensures Load(w, k).flow.None? && Ready(Load(w, k), pkt)
  {
    hide Genuine;
  }

  lemma StepUnfolds(w: World, pkt: Packet, now: int, c0: Config, c1: Config, c2: Config, fate: Fate)
    requires M.Valid(w) && Genuine(pkt) && pkt.source == Captured
    ensures var k := KeyOf(pkt.meta);
            && Ready(Load(w, k), pkt)
            && var (m, ok) := Handle(Load(w, k), |w.flows|, k, pkt, now, c0, c1, c2, fate);
               Step(w, Deliver(pkt, now, c0, c1, c2), fate) == (Store(w, k, m), ok)
  {
    hide Handle, Genuine;
    var k := KeyOf(pkt.meta);
    if k in w.flows {
      assert FlowValid(k, w.flows[k]);
    }
  }

  lemma WholeSeq(s: u32)
    ensures Add32(s, 0) == s
  {
  }

  lemma RunNone(tpl: Packet, seqNo: u32, flags: u8, lastFlags: u8)
    requires Decode(tpl.data) == Decoded(tpl.meta)
    ensures forall s: u32, id: u16 :: S.Run(tpl, s, [], flags, lastFlags, id) == []
  {
  }

  lemma RunNext(tpl: Packet, baseSeq: u32, offset: nat, segs: seq<Bytes>, flags: u8, lastFlags: u8, ipid: u16)
    requires Decode(tpl.data) == Decoded(tpl.meta) && segs != []
    ensures S.Run(tpl, Add32(baseSeq, offset), segs, flags, lastFlags, ipid) ==
            [S.Wired(tpl, Add32(baseSeq, offset), segs[0], if |segs| == 1 then lastFlags else flags, ipid)]
            + S.Run(tpl, Add32(baseSeq, offset + |segs[0]|), segs[1..], flags, lastFlags, (ipid + 1) % 0x1_0000)
  {
    hide Decode, S.Wired, Add32;
    AddAdd(baseSeq, offset, |segs[0]|);
  }

  /** A window inside the prefix is a uint32. */
  lemma WindowFits(f: Flow, window: nat)
    requires Collected(f) && window <= f.buf.value.prefix
    ensures window < 0x1_0000_0000
  {
    var b := f.buf.value;
    assert b.max !in b.bytes;
  }
}
