/** Nothing is lost but what lies past a gap, and how a stream is split does not depend on its fragmentation. */
module Completeness {
  import opened Words
  import opened Wire
  import opened FlowMachine
  import opened FlowInvariants
  import opened Outcomes
  import opened Conservation
  import opened Settling
  import opened Runs
  import opened Injection
  import opened Replacement
  import S = Segmentation
  import R = Reassembly
  import Tls
  import T = Transparency

  /** The packet, read off the wire, has a payload byte at sequence number `s`. */
  ghost predicate HasByte(p: Packet, s: u32) {
    && Decode(p.data).Decoded?
    && var m := Decode(p.data).meta;
       m.payloadOffset + Sub32(s, m.seqNo) < |p.data|
  }

  ghost predicate AnyHas(ps: seq<Packet>, s: u32) {
    exists p :: p in ps && HasByte(p, s)
  }

  /** A packet with that byte was sent for connection `k`. */
  ghost predicate SentAt(t: Trace, k: Key, s: u32) {
    exists i :: 0 <= i < |t| && t[i].Done? && t[i].verb == Send && t[i].key == k && HasByte(t[i].pkt, s)
  }

  /** The byte had been received past the contiguous prefix. */
  ghost predicate Pending(b: R.Buf, s: u32) {
    Sub32(s, b.base) in b.bytes && b.prefix <= Sub32(s, b.base)
  }

  /** The byte was past a gap when its flow was injected. */
  ghost predicate LostAt(t: Trace, k: Key, s: u32) {
    exists i :: 0 <= i < |t| && t[i].Split? && t[i].key == k && t[i].flow.buf.Some? && Pending(t[i].flow.buf.value, s)
  }

  /** Where every captured byte of connection `k` is. */
  ghost predicate Whereabouts(arrived: seq<Packet>, t: Trace, k: Key, held: seq<Packet>) {
    forall p, s: u32 | p in arrived && HasByte(p, s) :: SentAt(t, k, s) || AnyHas(held, s) || LostAt(t, k, s)
  }

  // ---- what a plan covers ----

  lemma WiredHas(tpl: Packet, seqNo: u32, payload: Bytes, flags: u8, ipid: u16, x: nat)
    requires Decode(tpl.data) == Decoded(tpl.meta) && x < |payload| && x < 0x1_0000_0000
    ensures HasByte(S.Wired(tpl, seqNo, payload, flags, ipid), Add32(seqNo, x))
  {
    hide S.Wired, Get16, S.Checksum.Verifies, S.Checksum.HeaderSum, S.Checksum.SegmentSum;
    S.WiredReads(tpl, seqNo, payload, flags, ipid);
    hide Decode;
    OffsetOfPosition(seqNo, x);
  }

  lemma {:induction false} RunHas(tpl: Packet, seqNo: u32, segs: seq<Bytes>, flags: u8, lastFlags: u8, ipid: u16,
                                  x: nat)
    requires Decode(tpl.data) == Decoded(tpl.meta) && x < |S.Join(segs)| && x < 0x1_0000_0000
    ensures AnyHas(S.Run(tpl, seqNo, segs, flags, lastFlags, ipid), Add32(seqNo, x))
    decreases |segs|
  {
    hide Decode, S.Wired, HasByte, Add32;
    var n := |segs[0]|;
    var next: u16 := (ipid + 1) % 0x1_0000;
    var f := if |segs| == 1 then lastFlags else flags;
    var ps := S.Run(tpl, seqNo, segs, flags, lastFlags, ipid);
    assert ps == [S.Wired(tpl, seqNo, segs[0], f, ipid)]
           + S.Run(tpl, Add32(seqNo, n), segs[1..], flags, lastFlags, next);
    if x < n {
      WiredHas(tpl, seqNo, segs[0], f, ipid, x);
      assert ps[0] in ps;
    } else {
      RunHas(tpl, Add32(seqNo, n), segs[1..], flags, lastFlags, next, x - n);
      AddAdd(seqNo, n, x - n);
      var q :| q in S.Run(tpl, Add32(seqNo, n), segs[1..], flags, lastFlags, next) && HasByte(q, Add32(seqNo, x));
      assert q in ps;
    }
  }

  lemma TrimHas(p: Packet, base: u32, window: nat, ipid: u16, j: nat)
    requires Decode(p.data) == Decoded(p.meta) && TrimOf(p, base, window) <= j < |PayloadOf(p)| && j < 0x1_0000_0000
    ensures HasByte(Trim(p, base, window, ipid), Add32(p.meta.seqNo, j))
  {
    hide Decode, S.Wired, HasByte, Add32, TrimOf, PayloadOf;
    var n := TrimOf(p, base, window);
    WiredHas(p, Add32(p.meta.seqNo, n), PayloadOf(p)[n..], p.meta.flags, ipid, j - n);
    AddAdd(p.meta.seqNo, n, j - n);
  }

  lemma {:induction false} TrimmedHas(held: seq<Packet>, base: u32, window: nat, ipid: u16, h: Packet, j: nat)
    requires forall p | p in held :: Decode(p.data) == Decoded(p.meta)
    requires h in held && Beyond(h, base, window) && TrimOf(h, base, window) <= j < |PayloadOf(h)| && j < 0x1_0000_0000
    ensures AnyHas(Trimmed(held, base, window, ipid), Add32(h.meta.seqNo, j))
    decreases |held|
  {
    hide Decode, Beyond, HasByte, Add32, TrimOf, PayloadOf, Trim;
    var next: u16 := (ipid + 1) % 0x1_0000;
    var s := Add32(h.meta.seqNo, j);
    if held[0] == h {
      TrimHas(h, base, window, ipid, j);
      BeyondTrims(h, base, window);
      assert Trim(h, base, window, ipid) in Trimmed(held, base, window, ipid);
    } else if !Beyond(held[0], base, window) {
      TrimmedHas(held[1..], base, window, ipid, h, j);
    } else {
      TrimmedHas(held[1..], base, window, next, h, j);
      BeyondTrims(held[0], base, window);
      var q :| q in Trimmed(held[1..], base, window, next) && HasByte(q, s);
      assert q in Trimmed(held, base, window, ipid);
    }
  }

  /** Offsets of a held packet's bytes. */
  lemma HeldOffset(k: Key, g: Flow, h: Packet, s: u32)
    requires FlowValid(k, g) && g.phase == Collecting && Settled(g) && h in g.held && HasByte(h, s)
    ensures var j, x := Sub32(s, h.meta.seqNo), Sub32(s, g.base);
            && j < |PayloadOf(h)| && x == Sub32(h.meta.seqNo, g.base) + j
            && Sub32(h.meta.seqNo, g.base) + |PayloadOf(h)| <= g.buf.value.max
            && x in g.buf.value.bytes && Decode(h.data) == Decoded(h.meta) && Add32(h.meta.seqNo, j) == s
            && Add32(g.base, x) == s
  {
    hide Decode, R.Push, R.PushAll, Add32, Sub32;
    assert Belongs(k, h);
    GenuineReads(h);
    var i :| 0 <= i < |g.held| && g.held[i] == h;
    var fs := Fragments(g.held);
    assert fs[i] == FragmentOf(h) && R.Fits(g.base, g.buf.value.max, fs[i]);
    OffsetsAdd(g.base, h.meta.seqNo, s);
    PositionOfOffset(g.base, s);
    PositionOfOffset(h.meta.seqNo, s);
    var x := Sub32(s, g.base);
    assert R.Covers(g.base, fs[i], x);
    assert fs[i] in fs;
    R.PushAllCovers(g.base, g.buf.value.max, fs, x);
  }

  lemma RemainderHas(k: Key, g: Flow, window: nat, segs: seq<Bytes>, max: int, h: Packet, s: u32)
    requires FlowValid(k, g) && g.phase == Collecting && Settled(g) && h in g.held && HasByte(h, s) && max >= 1
    requires window <= Sub32(s, g.base) < g.buf.value.prefix
    ensures AnyHas(PlanFrom(g, window, segs, max), s)
  {
    hide Decode, S.Run, Trimmed, Get16, WithoutPshFin, S.Chunks, HasByte, Settled, R.Push, S.Join, Add32, Sub32, TrimOf,
         Beyond;
    HeldOffset(k, g, h, s);
    var tpl, b, x := g.template.value, g.buf.value, Sub32(s, g.base);
    DecodedBounds(tpl.data, tpl.meta);
    var quiet, ipid := WithoutPshFin(tpl.meta.flags), Get16(tpl.data, 4);
    var next: u16 := (ipid + |segs|) % 0x1_0000;
    var remainder := b.Contig()[window..];
    if !b.outOfOrder && !b.overlap {
      HeldReaches(h, g.base, window, b.max, s);
      TrimmedHas(g.held, g.base, window, next, h, Sub32(s, h.meta.seqNo));
      AnyHasRight(S.Run(tpl, g.base, segs, quiet, quiet, ipid), Trimmed(g.held, g.base, window, next), s);
    } else {
      S.ChunksJoin(remainder, max);
      RunHas(tpl, Add32(g.base, window), S.Chunks(remainder, max), quiet, tpl.meta.flags, next, x - window);
      AddAdd(g.base, window, x - window);
      AnyHasRight(S.Run(tpl, g.base, segs, quiet, quiet, ipid),
                  S.Run(tpl, Add32(g.base, window), S.Chunks(remainder, max), quiet, tpl.meta.flags, next), s);
    }
  }

  lemma HeldReaches(h: Packet, base: u32, window: nat, max: u32, s: u32)
    requires var j, off := Sub32(s, h.meta.seqNo), Sub32(h.meta.seqNo, base);
             j < |PayloadOf(h)| && off + |PayloadOf(h)| <= max && window <= off + j
    ensures Beyond(h, base, window) && TrimOf(h, base, window) <= Sub32(s, h.meta.seqNo)
  {
    hide PayloadOf;
  }

  lemma AnyHasRight(a: seq<Packet>, b: seq<Packet>, s: u32)
    requires AnyHas(b, s)
    ensures AnyHas(a + b, s)
  {
    hide HasByte;
    var p :| p in b && HasByte(p, s);
    assert p in a + b;
  }

  lemma AnyHasLeft(a: seq<Packet>, b: seq<Packet>, s: u32)
    requires AnyHas(a, s)
    ensures AnyHas(a + b, s)
  {
    hide HasByte;
    var p :| p in a && HasByte(p, s);
    assert p in a + b;
  }

  lemma WindowHas(k: Key, g: Flow, window: nat, segs: seq<Bytes>, max: int, x: nat)
    requires FlowValid(k, g) && g.phase == Collecting && x < window <= g.buf.value.prefix && x < 0x1_0000_0000
    requires S.Join(segs) == g.buf.value.Contig()[..window]
    ensures AnyHas(PlanFrom(g, window, segs, max), Add32(g.base, x))
  {
    hide Decode, S.Run, Trimmed, Get16, WithoutPshFin, S.Chunks, HasByte, S.Join, Add32, AnyHas;
    var tpl := g.template.value;
    DecodedBounds(tpl.data, tpl.meta);
    var quiet, ipid := WithoutPshFin(tpl.meta.flags), Get16(tpl.data, 4);
    var next: u16 := (ipid + |segs|) % 0x1_0000;
    var remainder := g.buf.value.Contig()[window..];
    RunHas(tpl, g.base, segs, quiet, tpl.meta.flags, ipid, x);
    RunHas(tpl, g.base, segs, quiet, quiet, ipid, x);
    var first := S.Run(tpl, g.base, segs, quiet, quiet, ipid);
    AnyHasLeft(first, Trimmed(g.held, g.base, window, next), Add32(g.base, x));
    AnyHasLeft(first, S.Run(tpl, Add32(g.base, window), S.Chunks(remainder, max), quiet, tpl.meta.flags, next),
      Add32(g.base, x));
  }

  /** Every byte of every held packet is in the plan or pending past a gap. */
  lemma SplitKeepsBytes(e: Event, h: Packet, s: u32)
    requires e.Split? && SplitOf(None, e) && h in e.flow.held && HasByte(h, s)
    ensures AnyHas(e.plan, s) || Pending(e.flow.buf.value, s)
  {
    var g, window := e.flow, e.window;
    var cfg :| Plan(g, window, cfg) == Some(e.plan);
    hide Settled, PlanFrom, Plan, S.Join, S.Sized, S.SplitFirst, HasByte, AnyHas, MaxPayload, R.Buf.Contig, Decode,
         S.FirstLen;
    HeldOffset(e.key, g, h, s);
    PlanMeans(g, window, cfg);
    var max := MaxPayload(g.template.value, cfg);
    var segs := S.SplitFirst(g.buf.value.Contig()[..window], cfg.splitChunk, max);
    var x := Sub32(s, g.base);
    if x < window {
      WindowHas(e.key, g, window, segs, max, x);
    } else if x < g.buf.value.prefix {
      RemainderHas(e.key, g, window, segs, max, h, s);
    }
  }

  // ---- what a plan does not cover ----

  lemma WiredHasOnly(tpl: Packet, seqNo: u32, payload: Bytes, flags: u8, ipid: u16, s: u32)
    requires Decode(tpl.data) == Decoded(tpl.meta) && HasByte(S.Wired(tpl, seqNo, payload, flags, ipid), s)
    ensures Sub32(s, seqNo) < |payload|
  {
    hide S.Wired, Get16, S.Checksum.Verifies, S.Checksum.HeaderSum, S.Checksum.SegmentSum;
    S.WiredReads(tpl, seqNo, payload, flags, ipid);
    hide Decode;
  }

  /** A run has no byte outside its joined segments. */
  lemma {:induction false} RunHasOnly(tpl: Packet, seqNo: u32, segs: seq<Bytes>, flags: u8, lastFlags: u8, ipid: u16,
                                      s: u32)
    requires Decode(tpl.data) == Decoded(tpl.meta) && |S.Join(segs)| <= 0xffff_ffff
    requires AnyHas(S.Run(tpl, seqNo, segs, flags, lastFlags, ipid), s)
    ensures Sub32(s, seqNo) < |S.Join(segs)|
    decreases |segs|
  {
    hide Decode, S.Wired, HasByte, Add32;
    var n := |segs[0]|;
    var next: u16 := (ipid + 1) % 0x1_0000;
    var f := if |segs| == 1 then lastFlags else flags;
    var first, rest := S.Wired(tpl, seqNo, segs[0], f, ipid),
      S.Run(tpl, Add32(seqNo, n), segs[1..], flags, lastFlags, next);
    var p :| p in [first] + rest && HasByte(p, s);
    if p == first {
      WiredHasOnly(tpl, seqNo, segs[0], f, ipid, s);
    } else {
      assert p in rest;
      RunHasOnly(tpl, Add32(seqNo, n), segs[1..], flags, lastFlags, next, s);
      FurtherOn(seqNo, n, s, |S.Join(segs[1..])|);
    }
  }

  lemma FurtherOn(seqNo: u32, n: nat, s: u32, m: nat)
    requires n + m <= 0xffff_ffff && Sub32(s, Add32(seqNo, n)) < m
    ensures Sub32(s, seqNo) < n + m
  {
    OffsetOfPosition(seqNo, n);
    OffsetsAdd(seqNo, Add32(seqNo, n), s);
  }

  /** Where something was out of order, the plan has no byte past the prefix. */
  lemma PlanHasOnly(k: Key, g: Flow, window: nat, segs: seq<Bytes>, max: int, s: u32)
    requires FlowValid(k, g) && g.phase == Collecting && window <= g.buf.value.prefix <= 0xffff_ffff && max >= 1
    requires S.Join(segs) == g.buf.value.Contig()[..window] && g.buf.value.outOfOrder
    requires AnyHas(PlanFrom(g, window, segs, max), s)
    ensures Sub32(s, g.base) < g.buf.value.prefix
  {
    hide Decode, S.Run, Trimmed, Get16, WithoutPshFin, S.Chunks, HasByte, S.Join, Add32, Sub32, R.Buf.Contig;
    var tpl, b := g.template.value, g.buf.value;
    DecodedBounds(tpl.data, tpl.meta);
    var flags, quiet, ipid := tpl.meta.flags, WithoutPshFin(tpl.meta.flags), Get16(tpl.data, 4);
    var next: u16 := (ipid + |segs|) % 0x1_0000;
    var remainder := b.Contig()[window..];
    if remainder == [] {
      RunHasOnly(tpl, g.base, segs, quiet, flags, ipid, s);
    } else {
      var first := S.Run(tpl, g.base, segs, quiet, quiet, ipid);
      var rest := S.Run(tpl, Add32(g.base, window), S.Chunks(remainder, max), quiet, flags, next);
      AnyHasEither(first, rest, s);
      if AnyHas(first, s) {
        RunHasOnly(tpl, g.base, segs, quiet, quiet, ipid, s);
      } else {
        S.ChunksJoin(remainder, max);
        RunHasOnly(tpl, Add32(g.base, window), S.Chunks(remainder, max), quiet, flags, next, s);
        FurtherOn(g.base, window, s, |remainder|);
      }
    }
  }

  lemma AnyHasEither(a: seq<Packet>, b: seq<Packet>, s: u32)
    requires AnyHas(a + b, s)
    ensures AnyHas(a, s) || AnyHas(b, s)
  {
    hide HasByte;
    var p :| p in a + b && HasByte(p, s);
    assert p in a || p in b;
  }

  /** The buffer has a byte past the prefix only after something was out of order. */
  lemma PendingMeansOutOfOrder(b: R.Buf, s: u32)
    requires b.WellFormed() && Pending(b, s)
    ensures b.outOfOrder && b.prefix <= 0xffff_ffff
  {
    hide Sub32;
  }

  /** Each byte of each held packet: it is in the plan if and only if it was not past a gap. */
  lemma HeldByteIff(e: Event, h: Packet, s: u32)
    requires e.Split? && SplitOf(None, e) && h in e.flow.held && HasByte(h, s)
    ensures e.flow.buf.Some? && (AnyHas(e.plan, s) <==> !Pending(e.flow.buf.value, s))
  {
    hide HasByte, AnyHas, Settled, PlanFrom, Plan, S.Join, S.Sized, S.SplitFirst, MaxPayload, R.Buf.Contig, Decode,
         S.FirstLen;
    SplitKeepsBytes(e, h, s);
    var g, window := e.flow, e.window;
    if Pending(g.buf.value, s) && AnyHas(e.plan, s) {
      var cfg :| Plan(g, window, cfg) == Some(e.plan);
      PendingMeansOutOfOrder(g.buf.value, s);
      PlanMeans(g, window, cfg);
      var max := MaxPayload(g.template.value, cfg);
      var segs := S.SplitFirst(g.buf.value.Contig()[..window], cfg.splitChunk, max);
      PlanHasOnly(e.key, g, window, segs, max, s);
      assert false;
    }
  }

  // ---- whole runs ----

  lemma SentConcat(t: Trace, u: Trace, k: Key, s: u32)
    ensures SentAt(t, k, s) || SentAt(u, k, s) ==> SentAt(t + u, k, s)
    ensures LostAt(t, k, s) || LostAt(u, k, s) ==> LostAt(t + u, k, s)
  {
    hide HasByte, Pending;
    var v := t + u;
    assert forall i | 0 <= i < |t| :: v[i] == t[i];
    assert forall i | 0 <= i < |u| :: v[|t| + i] == u[i];
  }

  lemma DonesSent(k: Key, ps: seq<Packet>, s: u32)
    requires AnyHas(ps, s)
    ensures SentAt(Dones(k, Send, ps), k, s)
  {
    hide HasByte;
    var p :| p in ps && HasByte(p, s);
    var i :| 0 <= i < |ps| && ps[i] == p;
    assert Dones(k, Send, ps)[i].pkt == p;
  }

  lemma SendsSent(k: Key, events: Trace, out: seq<Packet>, s: u32)
    requires Sends(k, events, out) && AnyHas(out, s)
    ensures SentAt(events, k, s)
  {
    var noise, gone :| Noise(k, noise) && (gone == [] || gone == [Gone(k)])
      && events == noise + Dones(k, Send, out) + gone;
    hide SentAt, Dones, Noise, AnyHas, LostAt;
    DonesSent(k, out, s);
    SentConcat(noise, Dones(k, Send, out), k, s);
    SentConcat(noise + Dones(k, Send, out), gone, k, s);
  }

  /** After an ordinary outcome, what had the byte before or brought it was sent or is still held. */
  lemma OrdinaryKeeps(k: Key, held: seq<Packet>, pkts: seq<Packet>, events: Trace, held': seq<Packet>, s: u32)
    requires Ordinary(k, held, pkts, events, held') && AnyHas(held + pkts, s)
    ensures SentAt(events, k, s) || AnyHas(held', s)
  {
    hide SentAt, Sends, HasByte;
    var out :| Sends(k, events, out)
      && (out + held' == held + pkts || (out == pkts && held' == held && forall p | p in pkts :: PayloadOf(p) == []));
    var p :| p in held + pkts && HasByte(p, s);
    assert p in out || p in held' by {
      assert p in out + held' || p in pkts || p in held;
    }
    if p in out {
      assert AnyHas(out, s);
      SendsSent(k, events, out, s);
    }
  }

  lemma InjectionKeeps(k: Key, held: seq<Packet>, events: Trace, window: nat, g: Flow, plan: seq<Packet>, s: u32)
    requires Outcomes.Injection(k, held, events, window, g, plan) && AnyHas(held, s)
    requires SplitOf(None, Split(k, window, g, plan))
    ensures SentAt(events, k, s) || LostAt(events, k, s)
  {
    var mark := Split(k, window, g, plan);
    hide HasByte, SplitOf, Pending, SentAt, Dones;
    var p :| p in held && HasByte(p, s);
    SplitKeepsBytes(mark, p, s);
    if AnyHas(plan, s) {
      DonesSent(k, plan, s);
      SentConcat(Dones(k, Send, plan), Dones(k, Drop, held), k, s);
      SentConcat(Dones(k, Send, plan) + Dones(k, Drop, held), [mark], k, s);
    } else {
      assert LostAt([mark], k, s) by {
        assert [mark][0] == mark;
      }
      SentConcat(Dones(k, Send, plan) + Dones(k, Drop, held), [mark], k, s);
    }
  }

  lemma SplitsHere(k: Key, held: seq<Packet>, events: Trace, window: nat, g: Flow, plan: seq<Packet>)
    requires Outcomes.Injection(k, held, events, window, g, plan) && SplitsOf(None, events)
    ensures SplitOf(None, Split(k, window, g, plan))
  {
    hide SplitOf;
    assert events[|events| - 1] == Split(k, window, g, plan);
  }

  /** One step keeps track of every byte. */
  lemma OutcomeKeeps(k: Key, l: Local, m: Local, pkts: seq<Packet>, arrived: seq<Packet>)
    requires Outcome(k, l, pkts, m) && SplitsOf(None, m.trace[|l.trace|..])
    requires Whereabouts(arrived, l.trace, k, HeldBy(l.flow))
    ensures Whereabouts(arrived + pkts, m.trace, k, HeldBy(m.flow))
  {
    hide HeldBy, HasByte, SentAt, LostAt, Outcome, SplitsOf, AnyHas;
    OutcomeExtends(k, l, m, pkts);
    forall p, s: u32 | p in arrived + pkts && HasByte(p, s)
      ensures SentAt(m.trace, k, s) || AnyHas(HeldBy(m.flow), s) || LostAt(m.trace, k, s)
    {
      ByteTracked(k, l, m, pkts, arrived, p, s);
    }
  }

  lemma OutcomeExtends(k: Key, l: Local, m: Local, pkts: seq<Packet>)
    requires Outcome(k, l, pkts, m)
    ensures l.trace <= m.trace
  {
    hide Ordinary, Outcomes.Injection, HeldBy;
  }

  lemma ByteTracked(k: Key, l: Local, m: Local, pkts: seq<Packet>, arrived: seq<Packet>, p: Packet, s: u32)
    requires Outcome(k, l, pkts, m) && l.trace <= m.trace && SplitsOf(None, m.trace[|l.trace|..])
    requires Whereabouts(arrived, l.trace, k, HeldBy(l.flow)) && p in arrived + pkts && HasByte(p, s)
    ensures SentAt(m.trace, k, s) || AnyHas(HeldBy(m.flow), s) || LostAt(m.trace, k, s)
  {
    hide HeldBy, HasByte, SentAt, LostAt, Outcome, SplitsOf, AnyHas, Whereabouts;
    HeldOrNew(arrived, l.trace, k, HeldBy(l.flow), pkts, p, s);
    assert m.trace == l.trace + m.trace[|l.trace|..];
    ByteKept(k, l, m, pkts, m.trace[|l.trace|..], s);
  }

  lemma ByteKept(k: Key, l: Local, m: Local, pkts: seq<Packet>, events: Trace, s: u32)
    requires Outcome(k, l, pkts, m) && m.trace == l.trace + events && SplitsOf(None, events)
    requires SentAt(l.trace, k, s) || LostAt(l.trace, k, s) || AnyHas(HeldBy(l.flow) + pkts, s)
    ensures SentAt(m.trace, k, s) || AnyHas(HeldBy(m.flow), s) || LostAt(m.trace, k, s)
  {
    hide HeldBy, HasByte, SentAt, LostAt, Ordinary, Outcomes.Injection, SplitsOf, AnyHas;
    var held, held' := HeldBy(l.flow), HeldBy(m.flow);
    assert m.trace[|l.trace|..] == events;
    SentConcat(l.trace, events, k, s);
    if AnyHas(held + pkts, s) {
      if Ordinary(k, held, pkts, events, held') {
        OrdinaryKeeps(k, held, pkts, events, held', s);
      } else {
        var window, g, plan :| Outcomes.Injection(k, held + pkts, events, window, g, plan);
        SplitsHere(k, held + pkts, events, window, g, plan);
        InjectionKeeps(k, held + pkts, events, window, g, plan, s);
      }
    }
  }

  lemma HeldOrNew(arrived: seq<Packet>, t: Trace, k: Key, held: seq<Packet>, pkts: seq<Packet>, p: Packet, s: u32)
    requires Whereabouts(arrived, t, k, held) && p in arrived + pkts && HasByte(p, s)
    ensures SentAt(t, k, s) || LostAt(t, k, s) || AnyHas(held + pkts, s)
  {
    hide HasByte, SentAt, LostAt;
    if p in pkts {
      assert p in held + pkts;
    } else {
      assert p in arrived;
      if AnyHas(held, s) {
        AnyHasLeft(held, pkts, s);
      }
    }
  }

  ghost predicate Tracked(ins: seq<Input>, w: World) {
    forall k :: Whereabouts(Arrived(ins, k), w.trace, k, HeldBy(Load(w, k).flow))
  }

  /** Other flows' events take nothing away. */
  lemma OthersKeep(arrived: seq<Packet>, t: Trace, u: Trace, k: Key, held: seq<Packet>)
    requires t <= u && Whereabouts(arrived, t, k, held)
    ensures Whereabouts(arrived, u, k, held)
  {
    hide HasByte, SentAt, LostAt, AnyHas;
    assert u == t + u[|t|..];
    forall p, s: u32 | p in arrived && HasByte(p, s)
      ensures SentAt(u, k, s) || AnyHas(held, s) || LostAt(u, k, s)
    {
      SentConcat(t, u[|t|..], k, s);
    }
  }

  lemma StepTracks(ins: seq<Input>, w: World, i: Input, fate: Fate)
    requires Reached(w) && InputOk(i) && Step(w, i, fate).1 && Tracked(ins, w) && Resting(None, w)
    ensures Tracked(ins + [i], Step(w, i, fate).0)
  {
    hide FlowValid, Accounted, LocalStep, Outcome, Arrived, HeldBy, T.TruthfulWorld, Whereabouts, AtRest, SplitsOf,
         Uses;
    StepIsLocal(w, i, fate);
    var k := i.InputKey();
    var l, w' := Load(w, k), Step(w, i, fate).0;
    var m := LocalStep(l, |w.flows|, i, fate).0;
    LocalStepOutcome(l, |w.flows|, i, fate);
    AnyUse(i);
    LocalStepRests(None, l, |w.flows|, i, fate);
    OutcomeKeeps(k, l, m, PacketsOf(i), Arrived(ins, k));
    forall j ensures Whereabouts(Arrived(ins + [i], j), w'.trace, j, HeldBy(Load(w', j).flow)) {
      ArrivedNext(ins, i, j);
      if j != k {
        OthersKeep(Arrived(ins, j), w.trace, w'.trace, j, HeldBy(Load(w, j).flow));
        assert Arrived(ins, j) + [] == Arrived(ins, j);
      }
    }
  }

  lemma AnyUse(i: Input)
    ensures Uses(None, i)
  {
  }

  lemma {:induction false} RunTracks(ins: seq<Input>, fate: Fate)
    requires InputsOk(ins) && RunOk(ins, fate)
    ensures Tracked(ins, RunAll(ins, fate))
    decreases |ins|
  {
    hide Sane, InputOk, Step, Reached, Tracked, Resting, AllUse;
    if ins == [] {
      NothingTracked();
    } else {
      var n := |ins| - 1;
      RunTracks(ins[..n], fate);
      RunReached(ins[..n], fate);
      AnyConfigs(ins[..n]);
      RunRests(None, ins[..n], fate);
      StepTracks(ins[..n], RunAll(ins[..n], fate), ins[n], fate);
      assert ins[..n] + [ins[n]] == ins;
    }
  }

  lemma NothingTracked()
    ensures Tracked([], EMPTY)
  {
  }

  /** Event `j` is the exchange in which packet `p` was dropped, and of the bytes of `p` the plan sent just before
    * carries exactly those that did not lie past a gap. */
  ghost predicate DroppedFor(t: Trace, start: nat, j: nat, i: nat, p: Packet) {
    && DropOf(t, start, j, i) && p in t[j].flow.held && t[j].flow.buf.Some?
    && forall s: u32 | HasByte(p, s) :: AnyHas(t[j].plan, s) <==> !Pending(t[j].flow.buf.value, s)
  }

  lemma DroppedIsHeld(t: Trace, start: nat, j: nat, i: nat)
    requires DropOf(t, start, j, i)
    ensures i < |t| && (t[i].Done? ==> t[i].pkt in t[j].flow.held)
  {
    var x := i - start - |t[j].plan|;
    assert t[i] == t[start..j][i - start];
    assert t[i] == Done(t[j].key, Drop, t[j].flow.held[x]);
  }

  /** Completeness. While no step has reported an error, and under any reloads: a captured packet that was dropped was
    * dropped in an exchange whose plan carries each of its bytes, if and only if that byte did not lie past a gap. */
  lemma DroppedByteIff(h: History, i: nat)
    requires h.IsRun() && h.NoErrors() && i < |h.End().trace| && DropsCaptured(h.End().trace[i])
    ensures exists start: nat, j: nat :: DroppedFor(h.End().trace, start, j, i, h.End().trace[i].pkt)
  {
    hide RunAll, History.StepsAt, History.SucceedsAt, InputsOk, RunOk, HasByte, AnyHas, Pending, DropOf, AllUse,
         SplitOf;
    var t := h.End().trace;
    DropsAreExchanges(h, i);
    var start: nat, j: nat :| DropOf(t, start, j, i);
    ExchangeSplits(t, start, j, i);
    DroppedIsHeld(t, start, j, i);
    RunIsOk(h);
    AnyConfigs(h.ins);
    RunRests(None, h.ins, h.fate);
    assert SplitOf(None, t[j]);
    forall s: u32 | HasByte(t[i].pkt, s)
      ensures t[j].flow.buf.Some? && (AnyHas(t[j].plan, s) <==> !Pending(t[j].flow.buf.value, s))
    {
      HeldByteIff(t[j], t[i].pkt, s);
    }
    SplitHasBuf(t[j]);
    assert DroppedFor(t, start, j, i, t[i].pkt);
  }

  lemma ExchangeSplits(t: Trace, start: nat, j: nat, i: nat)
    requires DropOf(t, start, j, i)
    ensures j < |t| && t[j].Split?
  {
  }

  lemma SplitHasBuf(e: Event)
    requires e.Split? && SplitOf(None, e)
    ensures e.flow.buf.Some?
  {
    hide Settled, Plan;
  }

  /** Position by position over the whole run: while no step has reported an error, every byte captured for a
    * connection has been sent for it, or is held by its flow, or lay past a gap in the sequence when its flow was
    * injected. */
  lemma EveryByteIsSentHeldOrPastAGap(h: History, k: Key, p: Packet, s: u32)
    requires h.IsRun() && h.NoErrors() && p in Arrived(h.ins, k) && HasByte(p, s)
    ensures var w := h.End();
            || SentAt(w.trace, k, s)
            || (k in w.flows && AnyHas(w.flows[k].held, s))
            || LostAt(w.trace, k, s)
  {
    hide RunAll, History.StepsAt, History.SucceedsAt, InputsOk, RunOk, HasByte, SentAt, LostAt, AnyHas, Arrived;
    RunIsOk(h);
    RunTracks(h.ins, h.fate);
    var w := h.End();
    assert Whereabouts(Arrived(h.ins, k), w.trace, k, HeldBy(Load(w, k).flow));
    NothingHeldBy(s);
  }

  lemma NothingHeldBy(s: u32)
    ensures !AnyHas([], s)
  {
  }

  lemma FragmentHas(p: Packet, base: u32, x: u32)
    requires Genuine(p) && R.Covers(base, FragmentOf(p), x)
    ensures HasByte(p, Add32(base, x))
  {
    hide Decode;
    var s := Add32(base, x);
    GenuineReads(p);
    DecodedBounds(p.data, p.meta);
    OffsetOfPosition(base, x);
    var j := x - Sub32(p.meta.seqNo, base);
    SamePosition(base, p.meta.seqNo, j);
    OffsetOfPosition(p.meta.seqNo, j);
  }

  /** What lies past the gap is what the held packets have there. */
  lemma PendingIffHeld(k: Key, g: Flow, s: u32)
    requires FlowValid(k, g) && g.phase == Collecting && Settled(g)
    ensures Pending(g.buf.value, s) <==> AnyHas(g.held, s) && g.buf.value.prefix <= Sub32(s, g.base)
  {
    hide R.Push, R.PushAll, HasByte, Genuine, Add32, Sub32, R.Covers, PayloadOf;
    var fs, x := Fragments(g.held), Sub32(s, g.base);
    R.PushAllCovers(g.base, g.buf.value.max, fs, x);
    PositionOfOffset(g.base, s);
    if Pending(g.buf.value, s) {
      var f :| f in fs && R.Fits(g.base, g.buf.value.max, f) && R.Covers(g.base, f, x);
      var i :| 0 <= i < |fs| && fs[i] == f;
      assert Belongs(k, g.held[i]);
      FragmentHas(g.held[i], g.base, x);
    }
    if p :| p in g.held && HasByte(p, s) {
      HeldOffset(k, g, p, s);
    }
  }

  /** At an injection a position lies past a gap if and only if it lies beyond the prefix and some held packet has it;
    * and then some held packet had arrived out of order. */
  lemma LostOnlyOutOfOrder(h: History, i: nat, s: u32)
    requires h.IsRun() && h.NoErrors()
    requires i < |h.End().trace| && h.End().trace[i].Split?
    ensures var g := h.End().trace[i].flow;
            && g.buf.Some?
            && (Pending(g.buf.value, s) <==> AnyHas(g.held, s) && g.buf.value.prefix <= Sub32(s, g.base))
            && (Pending(g.buf.value, s) ==>
                  exists j: nat :: j < |g.held| && R.Early(g.base, g.buf.value.max, Fragments(g.held), j))
  {
    hide RunAll, History.StepsAt, History.SucceedsAt, InputsOk, RunOk, AllUse, SplitOf, Pending, AnyHas, R.Early;
    RunIsOk(h);
    AnyConfigs(h.ins);
    RunRests(None, h.ins, h.fate);
    assert SplitOf(None, h.End().trace[i]);
    PendingAtSplit(h.End().trace[i], s);
  }

  lemma PendingAtSplit(e: Event, s: u32)
    requires e.Split? && SplitOf(None, e)
    ensures var g := e.flow;
            && g.buf.Some?
            && (Pending(g.buf.value, s) <==> AnyHas(g.held, s) && g.buf.value.prefix <= Sub32(s, g.base))
            && (Pending(g.buf.value, s) ==>
                  exists j: nat :: j < |g.held| && R.Early(g.base, g.buf.value.max, Fragments(g.held), j))
  {
    hide R.Push, R.PushAll, Plan, Genuine, R.Early, AnyHas;
    PendingIffHeld(e.key, e.flow, s);
    var fs := Fragments(e.flow.held);
    assert fs[..|fs|] == fs;
    R.OutOfOrderIff(e.flow.base, e.flow.buf.value.max, fs, |fs|);
    if Pending(e.flow.buf.value, s) {
      PendingMeansOutOfOrder(e.flow.buf.value, s);
    }
  }

  // ---- independence of fragmentation ----

  /** In tls-hello mode the window of an injection is a function of the stream and the base sequence number. */
  lemma WindowOfStream(stream: Stream, cfg: Config, e: Event)
    requires e.Split? && SplitOf(Some(cfg), e) && cfg.mode == TlsHello
    requires T.FlowCut(Some(stream), e.key, e.flow)
    ensures Tls.StreamVerdict(stream, e.flow.base).Match?
    ensures e.window == 5 + Tls.StreamVerdict(stream, e.flow.base).recordLen
    ensures Collected(e.flow) && CutFrom(stream, e.flow.base, e.flow.buf.value.Contig())
  {
    hide Settled, Plan, PrefixBefore, Belongs, Genuine, Tls.DetectClientHelloRecord, T.AllFaithful, CutFrom;
    T.ContigCut(Some(stream), e.flow.buf.value);
    var contig := e.flow.buf.value.Contig();
    VerdictLength(contig);
    Tls.VerdictOfPrefix(stream, e.flow.base, contig);
  }

  lemma VerdictLength(buf: Bytes)
    requires Tls.DetectClientHelloRecord(buf).Match?
    ensures |buf| >= 6
  {
  }

  /** Event `i` of this error-free tls-hello run under one configuration is an injection for a connection whose
    * payloads are all cut from `stream`. */
  ghost predicate Injects(streams: T.Streams, stream: Stream, cfg: Config, h: History, i: nat) {
    && h.IsRun() && h.NoErrors() && AllUse(Some(cfg), h.ins) && cfg.mode == TlsHello && T.InputsCut(streams, h.ins)
    && i < |h.End().trace| && h.End().trace[i].Split? && streams(h.End().trace[i].key) == Some(stream)
  }

  lemma InjectsFacts(streams: T.Streams, stream: Stream, cfg: Config, h: History, i: nat)
    requires Injects(streams, stream, cfg, h, i)
    ensures var e := h.End().trace[i]; SplitOf(Some(cfg), e) && T.FlowCut(Some(stream), e.key, e.flow)
  {
    hide RunAll, InputsOk, RunOk, AllUse, SplitOf, T.InputsCut, T.FlowCut, T.Faithful, History.StepsAt,
         History.SucceedsAt;
    RunIsOk(h);
    RunRests(Some(cfg), h.ins, h.fate);
    T.RunTruthful(streams, h.ins, h.fate);
    var e := h.End().trace[i];
    assert T.Truthful(streams, e.key, Load(h.End(), e.key));
  }

  /** The bytes of the split window. */
  ghost function WindowBytes(g: Flow, window: nat): Bytes
    requires Collected(g) && window <= g.buf.value.prefix
  {
    g.buf.value.Contig()[..window]
  }

  /** An injection in tls-hello mode splits the first 5 bytes plus record length of its stream, wherever the
    * packet boundaries were, and the stream does announce a ClientHello record of that length. */
  lemma SplitIsAFunctionOfTheStream(streams: T.Streams, stream: Stream, cfg: Config, h: History, i: nat)
    requires Injects(streams, stream, cfg, h, i)
    ensures var e := h.End().trace[i];
            && Tls.StreamVerdict(stream, e.flow.base).Match?
            && e.window == 5 + Tls.StreamVerdict(stream, e.flow.base).recordLen
            && Tls.StreamHello(stream, e.flow.base, e.window - 5)
            && Collected(e.flow) && e.window <= e.flow.buf.value.prefix
            && CutFrom(stream, e.flow.base, WindowBytes(e.flow, e.window))
  {
    InjectsFacts(streams, stream, cfg, h, i);
    var e := h.End().trace[i];
    if Tls.StreamVerdict(stream, e.flow.base).Match? {
      Tls.StreamStarts(stream, e.flow.base, Tls.StreamVerdict(stream, e.flow.base).recordLen);
    }
    hide Injects, Settled, Plan, PrefixBefore, Belongs, Genuine, Tls.DetectClientHelloRecord, Tls.StreamVerdict,
         T.FlowCut, CutFrom;
    WindowOfStream(stream, cfg, e);
    T.CutParts(Some(stream), e.flow.base, e.flow.buf.value.Contig(), e.window);
  }

  /** However one stream was cut into packets, in whatever order and with whatever losses and duplicates they
    * came, and under whatever tls-hello configurations: two injections that start at the same sequence number
    * split the same window with the same bytes in it. */
  lemma SplitIsIndependentOfFragmentation(streams: T.Streams, stream: Stream, cfg: Config, h: History, i: nat,
                                          streams': T.Streams, cfg': Config, h': History, i': nat)
    requires Injects(streams, stream, cfg, h, i) && Injects(streams', stream, cfg', h', i')
    requires h.End().trace[i].flow.base == h'.End().trace[i'].flow.base
    ensures var e, e' := h.End().trace[i], h'.End().trace[i'];
            && e.window == e'.window
            && Collected(e.flow) && e.window <= e.flow.buf.value.prefix
            && Collected(e'.flow) && e'.window <= e'.flow.buf.value.prefix
            && WindowBytes(e.flow, e.window) == WindowBytes(e'.flow, e'.window)
  {
    hide Collected, WindowBytes, Tls.StreamVerdict, History.StepsAt, History.SucceedsAt, T.InputsCut, AllUse;
    SplitIsAFunctionOfTheStream(streams, stream, cfg, h, i);
    SplitIsAFunctionOfTheStream(streams', stream, cfg', h', i');
    var e, e' := h.End().trace[i], h'.End().trace[i'];
    WindowLength(e.flow, e.window);
    WindowLength(e'.flow, e'.window);
  }

  lemma WindowLength(g: Flow, window: nat)
    requires Collected(g) && window <= g.buf.value.prefix
    ensures |WindowBytes(g, window)| == window
  {
  }
}
