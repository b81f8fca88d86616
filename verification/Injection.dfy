/** What a completed injection put on the wire. */
module Injection {
  import opened Words
  import opened Wire
  import opened FlowMachine
  import opened FlowInvariants
  import opened Conservation
  import opened Settling
  import opened Runs
  import S = Segmentation
  import R = Reassembly
  import Tls

  // ---- fragments that arrived in order ----

  /** A push without out-of-order or overlap flag that moves the prefix appends exactly its payload. */
  lemma InOrderPush(b: R.Buf, f: R.Fragment)
    requires b.WellFormed() && R.Push(b, f).1 == R.Accepted
    requires var b' := R.Push(b, f).0; !b'.outOfOrder && !b'.overlap && b.prefix < b'.prefix
    ensures var b' := R.Push(b, f).0;
            && R.Offset(b.base, f) == b.prefix
            && b'.prefix == b.prefix + |f.payload|
            && b'.WellFormed() && b'.Contig()[b.prefix..] == f.payload
  {
    var b' := R.Push(b, f).0;
    R.PushKeepsWellFormed(b, f);
    InOrderOffset(b, f);
    forall x: nat ensures x in b'.bytes <==> x < b.prefix + |f.payload| {
      R.AcceptedWrites(b, f, x);
    }
    assert b'.prefix == b.prefix + |f.payload| by {
      assert b.prefix + |f.payload| !in b'.bytes;
    }
    var tail := b'.Contig()[b.prefix..];
    forall i | 0 <= i < |tail| ensures tail[i] == f.payload[i] {
      R.AcceptedWrites(b, f, b.prefix + i);
    }
    assert |tail| == |f.payload|;
  }

  lemma InOrderOffset(b: R.Buf, f: R.Fragment)
    requires b.WellFormed() && R.Push(b, f).1 == R.Accepted
    requires var b' := R.Push(b, f).0; !b'.outOfOrder && !b'.overlap && b.prefix < b'.prefix
    ensures R.Offset(b.base, f) == b.prefix && !b.outOfOrder
  {
  }

  /** While nothing was out of order, every in-window fragment lies inside the prefix. */
  lemma InsidePrefix(base: u32, max: u32, fs: seq<R.Fragment>, i: nat)
    requires i < |fs| && !R.PushAll(R.NewBuf(base, max), fs).outOfOrder && R.Fits(base, max, fs[i])
    ensures fs[i].payload == [] || R.Offset(base, fs[i]) + |fs[i].payload| <= R.PushAll(R.NewBuf(base, max), fs).prefix
  {
    hide R.Push, R.PushAll;
    var b := R.PushAll(R.NewBuf(base, max), fs);
    R.PushAllWellFormed(base, max, fs);
    if fs[i].payload != [] {
      var x := R.Offset(base, fs[i]) + |fs[i].payload| - 1;
      assert R.Covers(base, fs[i], x);
      assert fs[i] in fs;
      R.PushAllCovers(base, max, fs, x);
    }
  }

  // ---- the trimmed branch ----

  lemma {:induction false} TrimmedNone(held: seq<Packet>, base: u32, window: nat, ipid: u16)
    requires forall p | p in held :: Decode(p.data) == Decoded(p.meta)
    requires forall i | 0 <= i < |held| :: !Beyond(held[i], base, window)
    ensures Trimmed(held, base, window, ipid) == []
    decreases |held|
  {
    hide Decode, Beyond;
    if held != [] {
      TrimmedNone(held[1..], base, window, ipid);
    }
  }

  /** If only the last held packet reaches beyond the window, trimming rebuilds it and nothing else. */
  lemma {:induction false} TrimmedLast(held: seq<Packet>, base: u32, window: nat, ipid: u16)
    requires held != [] && forall p | p in held :: Decode(p.data) == Decoded(p.meta)
    requires forall i | 0 <= i < |held| - 1 :: !Beyond(held[i], base, window)
    requires Beyond(held[|held| - 1], base, window)
    ensures Trimmed(held, base, window, ipid) == [Trim(held[|held| - 1], base, window, ipid)]
    decreases |held|
  {
    hide Decode, Beyond, Trim, TrimOf, PayloadOf;
    BeyondTrims(held[|held| - 1], base, window);
    if |held| == 1 {
      TrimmedNone(held[1..], base, window, (ipid + 1) % 0x1_0000);
    } else {
      TrimmedLast(held[1..], base, window, ipid);
    }
  }

  lemma NotBeyond(p: Packet, base: u32, window: nat)
    requires PayloadOf(p) == [] || Sub32(p.meta.seqNo, base) + |PayloadOf(p)| <= window
    ensures !Beyond(p, base, window)
  {
  }

  lemma LastBeyond(p: Packet, base: u32, window: nat, max: u32)
    requires Sub32(p.meta.seqNo, base) < window < Sub32(p.meta.seqNo, base) + |PayloadOf(p)| <= max
    ensures Beyond(p, base, window) && TrimOf(p, base, window) == window - Sub32(p.meta.seqNo, base)
    ensures Add32(p.meta.seqNo, TrimOf(p, base, window)) == Add32(base, window)
  {
    var off := Sub32(p.meta.seqNo, base);
    SamePosition(base, p.meta.seqNo, window - off);
  }

  /** The held packets before the last lie inside the old prefix, hence inside the window. */
  lemma EarlierInside(g: Flow, window: nat, i: nat)
    requires Pushed(g) && i < |g.held| - 1
    requires !g.buf.value.outOfOrder && PrefixBefore(g) < window
    ensures !Beyond(g.held[i], g.base, window)
  {
    hide R.Push, R.PushAll, Beyond;
    var front := g.held[..|g.held| - 1];
    var fs := Fragments(front);
    FragmentsFront(g.held);
    FrontInOrder(g);
    assert fs[i] == FragmentOf(g.held[i]);
    InsidePrefix(g.base, g.buf.value.max, fs, i);
    NotBeyond(g.held[i], g.base, window);
  }

  lemma FragmentsFront(ps: seq<Packet>)
    requires ps != []
    ensures Fragments(ps) == Fragments(ps[..|ps| - 1]) + [FragmentOf(ps[|ps| - 1])]
  {
  }

  lemma FrontInOrder(g: Flow)
    requires Pushed(g) && g.held != []
    ensures var fs := Fragments(g.held[..|g.held| - 1]);
            var b := R.PushAll(R.NewBuf(g.base, g.buf.value.max), fs);
            && b.WellFormed() && b.base == g.base && b.max == g.buf.value.max
            && b.prefix == PrefixBefore(g)
            && g.buf.value == R.Push(b, FragmentOf(g.held[|g.held| - 1])).0
            && R.Push(b, FragmentOf(g.held[|g.held| - 1])).1 == R.Accepted
            && (!g.buf.value.outOfOrder ==> !b.outOfOrder)
  {
    var fs := Fragments(g.held[..|g.held| - 1]);
    var b := R.PushAll(R.NewBuf(g.base, g.buf.value.max), fs);
    FragmentsFront(g.held);
    R.PushAllWellFormed(g.base, g.buf.value.max, fs);
    R.AcceptedIffFits(b, FragmentOf(g.held[|g.held| - 1]));
    R.OutOfOrderStep(b, FragmentOf(g.held[|g.held| - 1]));
    hide R.Push;
    PushAllNext(R.NewBuf(g.base, g.buf.value.max), fs, FragmentOf(g.held[|g.held| - 1]));
  }

  /** The last held packet is what completed the window: it starts where the prefix ended before it, and the
    * prefix ends where it ends. */
  lemma LastHeldIsTail(g: Flow, window: nat)
    requires Settled(g) && g.buf.value.WellFormed()
    requires PrefixBefore(g) < window < g.buf.value.prefix
    requires !g.buf.value.outOfOrder && !g.buf.value.overlap
    ensures var last, before := g.held[|g.held| - 1], PrefixBefore(g);
            && Sub32(last.meta.seqNo, g.base) == before
            && before + |PayloadOf(last)| == g.buf.value.prefix <= g.buf.value.max
            && g.buf.value.Contig()[window..] == PayloadOf(last)[window - before..]
  {
    hide R.Push, R.PushAll, PrefixBefore, PayloadOf;
    var last, before, b' := g.held[|g.held| - 1], PrefixBefore(g), g.buf.value;
    FrontInOrder(g);
    var b := R.PushAll(R.NewBuf(g.base, b'.max), Fragments(g.held[..|g.held| - 1]));
    InOrderPush(b, FragmentOf(last));
    assert b'.prefix <= b'.max by {
      assert b'.prefix - 1 in b'.bytes;
    }
    var contig := b'.Contig();
    assert contig[window..] == contig[before..][window - before..];
  }

  /** With one configuration the trimmed branch emits the remainder exactly once: from the last held packet,
    * which is also the template. */
  lemma TrimmedIsRemainder(k: Key, g: Flow, window: nat, ipid: u16)
    requires FlowValid(k, g) && g.phase == Collecting && Settled(g)
    requires PrefixBefore(g) < window < g.buf.value.prefix
    requires !g.buf.value.outOfOrder && !g.buf.value.overlap
    ensures forall p | p in g.held :: Decode(p.data) == Decoded(p.meta)
    ensures Decode(g.template.value.data) == Decoded(g.template.value.meta)
    ensures Trimmed(g.held, g.base, window, ipid) ==
            [S.Wired(g.template.value, Add32(g.base, window), g.buf.value.Contig()[window..],
              g.template.value.meta.flags, ipid)]
  {
    hide R.Push, R.PushAll, Beyond, TrimOf, PrefixBefore, S.Wired, Decode, Trimmed, PayloadOf;
    LastHeldIsTail(g, window);
    hide Pushed, R.Buf.WellFormed, R.Buf.Contig;
    var last := g.held[|g.held| - 1];
    forall i | 0 <= i < |g.held| - 1 ensures !Beyond(g.held[i], g.base, window) {
      EarlierInside(g, window, i);
    }
    LastBeyond(last, g.base, window, g.buf.value.max);
    TrimmedLast(g.held, g.base, window, ipid);
  }

  // ---- exactness ----

  /** The facts behind a plan. */
  lemma PlanMeans(g: Flow, window: nat, cfg: Config)
    requires Collected(g) && window <= g.buf.value.prefix && Plan(g, window, cfg).Some?
    ensures var tpl, max := g.template.value, MaxPayload(g.template.value, cfg);
            var segs := S.SplitFirst(g.buf.value.Contig()[..window], cfg.splitChunk, max);
            && max >= 1 && tpl.meta.ipLen + tpl.meta.tcpLen + max <= 0xffff
            && (cfg.maxSegmentPayload > 0 ==> max <= cfg.maxSegmentPayload)
            && |segs| >= 2 && S.Join(segs) == g.buf.value.Contig()[..window] && S.Sized(segs, max)
            && |segs[0]| == S.FirstLen(cfg.splitChunk, max)
            && Plan(g, window, cfg) == Some(PlanFrom(g, window, segs, max))
  {
    hide PlanFrom, Decode, R.Buf.Contig, S.SplitFirst, S.Join, S.Sized;
    var max := MaxPayload(g.template.value, cfg);
    S.SplitFirstJoin(g.buf.value.Contig()[..window], cfg.splitChunk, max);
  }

  /** The plan carries the whole contiguous prefix: split window and remainder, at consecutive sequence numbers
    * from the base, with consecutive IP ids, under the template's header; only the last packet has the
    * template's PSH and FIN; every packet is within 64 KiB, has its real length in the IP header, and verifies. */
  ghost predicate CarriesPrefix(plan: seq<Packet>, g: Flow)
    requires Collected(g)
  {
    var tpl := g.template.value;
    && |tpl.data| >= 20
    && S.Carries(plan, tpl.meta, g.base, g.buf.value.Contig(), WithoutPshFin(tpl.meta.flags), tpl.meta.flags,
       Get16(tpl.data, 4))
  }

  lemma SplitOnlyExact(k: Key, g: Flow, window: nat, segs: seq<Bytes>, max: int)
    requires FlowValid(k, g) && g.phase == Collecting && window == g.buf.value.prefix
    requires S.Sized(segs, max) && g.template.value.meta.ipLen + g.template.value.meta.tcpLen + max <= 0xffff
    requires S.Join(segs) == g.buf.value.Contig()[..window]
    ensures CarriesPrefix(PlanFrom(g, window, segs, max), g)
  {
    hide Decode, S.Run, S.Carries, S.Sized, S.Join, Get16, WithoutPshFin, Trimmed;
    var tpl := g.template.value;
    DecodedBounds(tpl.data, tpl.meta);
    S.RunCarries(tpl, g.base, segs, WithoutPshFin(tpl.meta.flags), tpl.meta.flags, Get16(tpl.data, 4), max);
    assert g.buf.value.Contig()[..window] == g.buf.value.Contig();
  }

  /** Both ways of sending the remainder carry the same bytes from the same sequence number and IP id on. */
  lemma RemainderExact(k: Key, g: Flow, window: nat, segs: seq<Bytes>, max: int, rest: seq<Packet>)
    requires FlowValid(k, g) && g.phase == Collecting && window < g.buf.value.prefix
    requires S.Sized(segs, max) && g.template.value.meta.ipLen + g.template.value.meta.tcpLen + max <= 0xffff
    requires S.Join(segs) == g.buf.value.Contig()[..window] && |g.template.value.data| >= 20
    requires Decode(g.template.value.data) == Decoded(g.template.value.meta)
    requires var tpl := g.template.value;
             S.Carries(rest, tpl.meta, Add32(g.base, window), g.buf.value.Contig()[window..],
               WithoutPshFin(tpl.meta.flags),
                       tpl.meta.flags, (Get16(tpl.data, 4) + |segs|) % 0x1_0000)
    requires rest != []
    ensures var tpl := g.template.value;
            CarriesPrefix(S.Run(tpl, g.base, segs, WithoutPshFin(tpl.meta.flags), WithoutPshFin(tpl.meta.flags),
              Get16(tpl.data, 4)) + rest, g)
  {
    hide Decode, S.Run, S.Carries, S.Sized, S.Join, Get16, WithoutPshFin;
    var tpl := g.template.value;
    var quiet := WithoutPshFin(tpl.meta.flags);
    var contig := g.buf.value.Contig();
    S.RunCarries(tpl, g.base, segs, quiet, quiet, Get16(tpl.data, 4), max);
    S.CarriesConcat(S.Run(tpl, g.base, segs, quiet, quiet, Get16(tpl.data, 4)), rest, tpl.meta, g.base,
                    contig[..window], contig[window..], quiet, tpl.meta.flags, Get16(tpl.data, 4));
    assert contig[..window] + contig[window..] == contig;
  }

  lemma ChunksNonEmpty(payload: Bytes, max: int)
    requires max >= 1 && payload != []
    ensures S.Chunks(payload, max) != []
  {
  }

  lemma RunNonEmpty(tpl: Packet, seqNo: u32, segs: seq<Bytes>, flags: u8, lastFlags: u8, ipid: u16)
    requires Decode(tpl.data) == Decoded(tpl.meta) && segs != []
    ensures S.Run(tpl, seqNo, segs, flags, lastFlags, ipid) != []
  {
  }

  lemma ChunkedExact(k: Key, g: Flow, window: nat, segs: seq<Bytes>, max: int)
    requires FlowValid(k, g) && g.phase == Collecting && window < g.buf.value.prefix && max >= 1
    requires g.template.value.meta.ipLen + g.template.value.meta.tcpLen + max <= 0xffff
    requires S.Sized(segs, max) && S.Join(segs) == g.buf.value.Contig()[..window]
    requires g.buf.value.outOfOrder || g.buf.value.overlap
    ensures CarriesPrefix(PlanFrom(g, window, segs, max), g)
  {
    hide Decode, S.Run, S.Carries, S.Sized, S.Join, Get16, WithoutPshFin, S.Chunks, CarriesPrefix, Trimmed;
    var tpl := g.template.value;
    DecodedBounds(tpl.data, tpl.meta);
    var quiet := WithoutPshFin(tpl.meta.flags);
    var remainder := g.buf.value.Contig()[window..];
    var next: u16 := (Get16(tpl.data, 4) + |segs|) % 0x1_0000;
    S.ChunksJoin(remainder, max);
    ChunksNonEmpty(remainder, max);
    var rest := S.Run(tpl, Add32(g.base, window), S.Chunks(remainder, max), quiet, tpl.meta.flags, next);
    RunNonEmpty(tpl, Add32(g.base, window), S.Chunks(remainder, max), quiet, tpl.meta.flags, next);
    S.RunCarries(tpl, Add32(g.base, window), S.Chunks(remainder, max), quiet, tpl.meta.flags, next, max);
    RemainderExact(k, g, window, segs, max, rest);
  }

  lemma WiredCarries(tpl: Packet, seqNo: u32, payload: Bytes, flags: u8, quiet: u8, ipid: u16)
    requires Decode(tpl.data) == Decoded(tpl.meta) && payload != []
    requires tpl.meta.payloadOffset + |payload| <= 0xffff
    ensures S.Carries([S.Wired(tpl, seqNo, payload, flags, ipid)], tpl.meta, seqNo, payload, quiet, flags, ipid)
  {
    hide Decode, S.Wired, Reads, Get16, S.Checksum.Verifies, S.Checksum.HeaderSum, S.Checksum.SegmentSum, S.Carries;
    S.WiredReads(tpl, seqNo, payload, flags, ipid);
    DecodedBounds(tpl.data, tpl.meta);
    var p := S.Wired(tpl, seqNo, payload, flags, ipid);
    assert payload[..|payload|] == payload && payload[|payload|..] == [];
    assert tpl.meta.(seqNo := seqNo, flags := flags).ipLen == tpl.meta.ipLen;
    S.CarriesNone(tpl.meta, Add32(seqNo, |payload|), quiet, flags, (ipid + 1) % 0x1_0000);
    assert S.Bears(p, tpl.meta.(seqNo := seqNo, flags := flags), payload, |payload|, ipid);
    S.CarriesCons(p, [], tpl.meta, seqNo, payload, |payload|, quiet, flags, ipid);
    assert [p] + [] == [p];
  }

  lemma TrimmedExact(k: Key, g: Flow, window: nat, segs: seq<Bytes>, max: int)
    requires FlowValid(k, g) && g.phase == Collecting && Settled(g)
    requires PrefixBefore(g) < window < g.buf.value.prefix && max >= 1
    requires g.template.value.meta.ipLen + g.template.value.meta.tcpLen + max <= 0xffff
    requires S.Sized(segs, max) && S.Join(segs) == g.buf.value.Contig()[..window]
    requires !g.buf.value.outOfOrder && !g.buf.value.overlap
    ensures CarriesPrefix(PlanFrom(g, window, segs, max), g)
  {
    hide Decode, S.Run, S.Carries, S.Sized, S.Join, Get16, WithoutPshFin, S.Chunks, CarriesPrefix, Trimmed,
         PrefixBefore, S.Wired, Settled, Belongs;
    var tpl := g.template.value;
    RemainderFits(k, g, window);
    var next: u16 := (Get16(tpl.data, 4) + |segs|) % 0x1_0000;
    var remainder := g.buf.value.Contig()[window..];
    TrimmedIsRemainder(k, g, window, next);
    WiredCarries(tpl, Add32(g.base, window), remainder, tpl.meta.flags, WithoutPshFin(tpl.meta.flags), next);
    RemainderExact(k, g, window, segs, max, Trimmed(g.held, g.base, window, next));
  }

  /** The remainder is part of the last packet's payload, so it fits behind its header. */
  lemma RemainderFits(k: Key, g: Flow, window: nat)
    requires FlowValid(k, g) && g.phase == Collecting && Settled(g)
    requires PrefixBefore(g) < window < g.buf.value.prefix
    requires !g.buf.value.outOfOrder && !g.buf.value.overlap
    ensures var tpl := g.template.value;
            && g.buf.value.Contig()[window..] != [] && |tpl.data| >= 20
            && tpl.meta.payloadOffset + |g.buf.value.Contig()[window..]| <= 0xffff
  {
    hide R.Push, R.PushAll, PrefixBefore, Decode;
    var last := g.held[|g.held| - 1];
    FrontInOrder(g);
    InOrderPush(R.PushAll(R.NewBuf(g.base, g.buf.value.max), Fragments(g.held[..|g.held| - 1])), FragmentOf(last));
    GenuineReads(last);
    DecodedBounds(last.data, last.meta);
  }

  /** The newest packet brought the window, or the remainder is cut afresh, or there is none. */
  ghost predicate Regular(g: Flow, window: nat)
    requires g.held != [] && g.buf.Some?
  {
    var b := g.buf.value;
    PrefixBefore(g) < window || b.outOfOrder || b.overlap || window == b.prefix
  }

  lemma RegularIsExact(e: Event)
    requires e.Split? && SplitOf(None, e) && Regular(e.flow, e.window)
    ensures Collected(e.flow) && CarriesPrefix(e.plan, e.flow)
  {
    hide CarriesPrefix, PlanFrom, Plan, Settled, PrefixBefore, R.Buf.Contig, MaxPayload, S.SplitFirst, S.Join, S.Sized,
         Genuine, Belongs;
    var g, window := e.flow, e.window;
    var cfg :| Plan(g, window, cfg) == Some(e.plan);
    PlanMeans(g, window, cfg);
    var max := MaxPayload(g.template.value, cfg);
    var segs := S.SplitFirst(g.buf.value.Contig()[..window], cfg.splitChunk, max);
    if window == g.buf.value.prefix {
      SplitOnlyExact(e.key, g, window, segs, max);
    } else if g.buf.value.outOfOrder || g.buf.value.overlap {
      ChunkedExact(e.key, g, window, segs, max);
    } else {
      TrimmedExact(e.key, g, window, segs, max);
    }
  }

  // ---- the remaining case ----

  /** How far the packet's payload reaches, from the base. */
  function ReachOf(p: Packet, base: u32): nat {
    Sub32(p.meta.seqNo, base) + |PayloadOf(p)|
  }

  /** One sound packet for each held packet that reaches beyond the window, in order and with consecutive IP ids:
    * under that packet's own header and flags, carrying what it has beyond the window. */
  ghost predicate Resends(out: seq<Packet>, held: seq<Packet>, base: u32, window: nat, ipid: u16)
    decreases |held|
  {
    if held == [] then out == []
    else
      var p := held[0];
      if PayloadOf(p) == [] || ReachOf(p, base) <= window then Resends(out, held[1..], base, window, ipid)
      else
        var n := TrimOf(p, base, window);
        && out != [] && n < |PayloadOf(p)| && out[0].source == Rebuilt && |out[0].data| >= 20
           && Get16(out[0].data, 4) == ipid
        && S.Sound(out[0], p.meta.(seqNo := Add32(p.meta.seqNo, n)), PayloadOf(p)[n..])
        && Resends(out[1..], held[1..], base, window, (ipid + 1) % 0x1_0000)
  }

  lemma BeyondIff(p: Packet, base: u32, window: nat)
    requires ReachOf(p, base) < 0x1_0000_0000
    ensures Beyond(p, base, window) <==> PayloadOf(p) != [] && ReachOf(p, base) > window
  {
    hide PayloadOf;
  }

  lemma TrimIsSound(p: Packet, base: u32, window: nat, ipid: u16)
    requires Genuine(p) && Beyond(p, base, window)
    ensures var n := TrimOf(p, base, window);
            && n < |PayloadOf(p)|
            && var out := Trim(p, base, window, ipid);
               && out.source == Rebuilt && |out.data| >= 20 && Get16(out.data, 4) == ipid
               && S.Sound(out, p.meta.(seqNo := Add32(p.meta.seqNo, n)), PayloadOf(p)[n..])
  {
    hide Decode, S.Wired, Reads, Get16, S.Checksum.Verifies, S.Checksum.HeaderSum, S.Checksum.SegmentSum, TrimOf;
    BeyondTrims(p, base, window);
    var n := TrimOf(p, base, window);
    DecodedBounds(p.data, p.meta);
    GenuineReads(p);
    S.WiredReads(p, Add32(p.meta.seqNo, n), PayloadOf(p)[n..], p.meta.flags, ipid);
  }

  lemma {:induction false} TrimmedResends(held: seq<Packet>, base: u32, window: nat, ipid: u16)
    requires forall p | p in held :: Decode(p.data) == Decoded(p.meta)
    requires forall p | p in held :: |p.data| <= 0xffff
    requires forall p | p in held :: ReachOf(p, base) < 0x1_0000_0000
    ensures Resends(Trimmed(held, base, window, ipid), held, base, window, ipid)
    decreases |held|
  {
    hide Decode, Beyond, Trim, TrimOf, PayloadOf, ReachOf, S.Sound, Get16;
    if held != [] {
      var p := held[0];
      BeyondIff(p, base, window);
      if Beyond(p, base, window) {
        TrimIsSound(p, base, window, ipid);
        TrimmedResends(held[1..], base, window, (ipid + 1) % 0x1_0000);
        var rest := Trimmed(held[1..], base, window, (ipid + 1) % 0x1_0000);
        assert ([Trim(p, base, window, ipid)] + rest)[1..] == rest;
      } else {
        TrimmedResends(held[1..], base, window, ipid);
      }
    }
  }

  /** The first `n` packets carry the window and nothing more; the others send again, one by one, what the held
    * packets have beyond it. */
  ghost predicate WindowThenHeld(plan: seq<Packet>, g: Flow, window: nat, n: nat)
    requires Collected(g) && window <= g.buf.value.prefix
  {
    var tpl := g.template.value;
    var quiet := WithoutPshFin(tpl.meta.flags);
    && 2 <= n <= |plan| && |tpl.data| >= 20
    && S.Carries(plan[..n], tpl.meta, g.base, g.buf.value.Contig()[..window], quiet, quiet, Get16(tpl.data, 4))
    && Resends(plan[n..], g.held, g.base, window, (Get16(tpl.data, 4) + n) % 0x1_0000)
  }

  lemma HeldReachesFit(g: Flow, p: Packet)
    requires Pushed(g) && p in g.held
    ensures PayloadOf(p) == [] || ReachOf(p, g.base) < 0x1_0000_0000
  {
    hide R.PushAll, PayloadOf;
    var i :| 0 <= i < |g.held| && g.held[i] == p;
    assert R.Fits(g.base, g.buf.value.max, FragmentOf(g.held[i]));
  }

  lemma TrimmedPlan(k: Key, g: Flow, window: nat, segs: seq<Bytes>, max: int)
    requires FlowValid(k, g) && g.phase == Collecting && Settled(g) && window < g.buf.value.prefix
    requires !g.buf.value.outOfOrder && !g.buf.value.overlap && |segs| >= 2
    requires g.template.value.meta.ipLen + g.template.value.meta.tcpLen + max <= 0xffff
    requires S.Sized(segs, max) && S.Join(segs) == g.buf.value.Contig()[..window]
    ensures WindowThenHeld(PlanFrom(g, window, segs, max), g, window, |segs|)
  {
    hide Decode, S.Run, S.Carries, S.Sized, S.Join, Get16, WithoutPshFin, S.Chunks, Trimmed, Resends, Pushed, PayloadOf,
         ReachOf;
    var tpl := g.template.value;
    DecodedBounds(tpl.data, tpl.meta);
    var quiet, ipid := WithoutPshFin(tpl.meta.flags), Get16(tpl.data, 4);
    S.RunCarries(tpl, g.base, segs, quiet, quiet, ipid, max);
    forall p | p in g.held ensures Genuine(p) && ReachOf(p, g.base) < 0x1_0000_0000 {
      assert Belongs(k, p) && PayloadOf(p) != [];
      HeldReachesFit(g, p);
    }
    var next: u16 := (ipid + |segs|) % 0x1_0000;
    TrimmedResends(g.held, g.base, window, next);
    var first, rest := S.Run(tpl, g.base, segs, quiet, quiet, ipid), Trimmed(g.held, g.base, window, next);
    assert (first + rest)[..|segs|] == first && (first + rest)[|segs|..] == rest;
  }

  lemma IrregularResends(e: Event)
    requires e.Split? && SplitOf(None, e) && !Regular(e.flow, e.window)
    ensures Collected(e.flow) && exists n: nat :: WindowThenHeld(e.plan, e.flow, e.window, n)
  {
    hide CarriesPrefix, PlanFrom, Plan, Settled, PrefixBefore, R.Buf.Contig, MaxPayload, S.SplitFirst, S.Join, S.Sized,
         Genuine, Belongs, WindowThenHeld;
    var g, window := e.flow, e.window;
    var cfg :| Plan(g, window, cfg) == Some(e.plan);
    PlanMeans(g, window, cfg);
    var max := MaxPayload(g.template.value, cfg);
    var segs := S.SplitFirst(g.buf.value.Contig()[..window], cfg.splitChunk, max);
    TrimmedPlan(e.key, g, window, segs, max);
  }

  // ---- results ----

  /** What every completed injection of a run without errors sends, whatever was reloaded in between. As a rule it is
    * exactly the contiguous prefix, as `CarriesPrefix` says. Only if the window lay inside the prefix already before
    * the newest packet, with everything in order and something beyond the window, it is the window, followed by what
    * each single held packet has beyond it. */
  lemma InjectionIsExact(h: History, i: nat)
    requires h.IsRun() && h.NoErrors() && i < |h.End().trace| && h.End().trace[i].Split?
    ensures var e := h.End().trace[i];
            && Collected(e.flow) && e.flow.held != [] && e.window <= e.flow.buf.value.prefix
            && if Regular(e.flow, e.window) then CarriesPrefix(e.plan, e.flow)
               else exists n: nat :: WindowThenHeld(e.plan, e.flow, e.window, n)
  {
    hide RunAll, InputsOk, RunOk, AllUse, History.StepsAt, History.SucceedsAt, CarriesPrefix, WindowThenHeld,
         Regular, Plan, Settled, Belongs;
    RunIsOk(h);
    AnyConfigs(h.ins);
    RunRests(None, h.ins, h.fate);
    var e := h.End().trace[i];
    assert SplitOf(None, e);
    hide Collected;
    if Regular(e.flow, e.window) {
      RegularIsExact(e);
    } else {
      IrregularResends(e);
    }
  }

  lemma AnyConfigs(ins: seq<Input>)
    ensures AllUse(None, ins)
  {
  }

  /** Under one configuration there is no other case: it is always exactly the contiguous prefix. */
  lemma OneConfigurationIsExact(cfg: Config, h: History, i: nat)
    requires h.IsRun() && h.NoErrors() && AllUse(Some(cfg), h.ins)
    requires i < |h.End().trace| && h.End().trace[i].Split?
    ensures var e := h.End().trace[i];
            Collected(e.flow) && CarriesPrefix(e.plan, e.flow)
  {
    hide RunAll, InputsOk, RunOk, AllUse, History.StepsAt, History.SucceedsAt, CarriesPrefix,
         Plan, Settled, Belongs, PrefixBefore, WindowThenHeld;
    InjectionIsExact(h, i);
    RunIsOk(h);
    RunRests(Some(cfg), h.ins, h.fate);
    assert SplitOf(Some(cfg), h.End().trace[i]);
  }

  /** The first packet of the plan carries exactly the configured first piece of the window, and others follow. */
  ghost predicate FirstPieceFirst(cfg: Config, e: Event)
    requires e.Split?
  {
    Collected(e.flow) &&
    var g, tpl := e.flow, e.flow.template.value;
    var n := S.FirstLen(cfg.splitChunk, MaxPayload(tpl, cfg));
    && |e.plan| >= 2 && 1 <= n < e.window <= g.buf.value.prefix
    && Reads(e.plan[0].data, tpl.meta.(seqNo := g.base, flags := WithoutPshFin(tpl.meta.flags)),
       g.buf.value.Contig()[..n])
  }

  lemma FirstSegment(payload: Bytes, want: int, max: int)
    requires max >= 1 && |S.SplitFirst(payload, want, max)| >= 2
    ensures var n := S.FirstLen(want, max); 1 <= n < |payload| && S.SplitFirst(payload, want, max)[0] == payload[..n]
  {
    hide S.Chunks;
  }

  lemma SplitOffFirst(cfg: Config, e: Event)
    requires e.Split? && SplitOf(Some(cfg), e)
    ensures FirstPieceFirst(cfg, e)
  {
    hide Settled, PrefixBefore, R.Buf.Contig, MaxPayload, S.Join, S.Sized, Tls.DetectClientHelloRecord, Belongs, Decode,
         Trimmed, S.Wired, S.Chunks, Reads, Get16, WithoutPshFin, S.FirstLen, S.SplitFirst, PlanFrom, Belongs;
    var g, window := e.flow, e.window;
    var tpl, max := g.template.value, MaxPayload(g.template.value, cfg);
    var segs := S.SplitFirst(g.buf.value.Contig()[..window], cfg.splitChunk, max);
    DecodedBounds(tpl.data, tpl.meta);
    FirstSegment(g.buf.value.Contig()[..window], cfg.splitChunk, max);
    assert g.buf.value.Contig()[..window][..|segs[0]|] == g.buf.value.Contig()[..|segs[0]|];
    PlanStarts(g, window, segs, max);
    S.WiredReads(tpl, g.base, segs[0], WithoutPshFin(tpl.meta.flags), Get16(tpl.data, 4));
  }

  /** The purpose of it all: the window never travels in one packet. The first packet carries exactly the
    * configured first piece, shorter than the window, and more packets follow. */
  lemma FirstPieceIsSplitOff(cfg: Config, h: History, i: nat)
    requires h.IsRun() && h.NoErrors() && AllUse(Some(cfg), h.ins)
    requires i < |h.End().trace| && h.End().trace[i].Split?
    ensures FirstPieceFirst(cfg, h.End().trace[i])
  {
    hide RunAll, InputsOk, RunOk, AllUse, SplitOf, History.StepsAt, History.SucceedsAt, FirstPieceFirst;
    RunIsOk(h);
    RunRests(Some(cfg), h.ins, h.fate);
    assert SplitOf(Some(cfg), h.End().trace[i]);
    SplitOffFirst(cfg, h.End().trace[i]);
  }

  lemma PlanStarts(g: Flow, window: nat, segs: seq<Bytes>, max: int)
    requires Collected(g) && window <= g.buf.value.prefix && |segs| >= 2
    ensures var tpl, plan := g.template.value, PlanFrom(g, window, segs, max);
            && |tpl.data| >= 20 && |plan| >= 2
            && plan[0] == S.Wired(tpl, g.base, segs[0], WithoutPshFin(tpl.meta.flags), Get16(tpl.data, 4))
  {
    hide R.Buf.Contig, Decode, Trimmed, S.Wired, S.Chunks, Get16, WithoutPshFin;
    var tpl := g.template.value;
    DecodedBounds(tpl.data, tpl.meta);
    RunStarts(tpl, g.base, segs, WithoutPshFin(tpl.meta.flags), tpl.meta.flags, Get16(tpl.data, 4));
    RunStarts(tpl, g.base, segs, WithoutPshFin(tpl.meta.flags), WithoutPshFin(tpl.meta.flags), Get16(tpl.data, 4));
    hide S.Run;
  }

  lemma RunStarts(tpl: Packet, seqNo: u32, segs: seq<Bytes>, flags: u8, lastFlags: u8, ipid: u16)
    requires Decode(tpl.data) == Decoded(tpl.meta) && |segs| >= 2
    ensures var ps := S.Run(tpl, seqNo, segs, flags, lastFlags, ipid);
            |ps| >= 2 && ps[0] == S.Wired(tpl, seqNo, segs[0], flags, ipid)
  {
    hide Decode, S.Wired;
    RunNonEmpty(tpl, Add32(seqNo, |segs[0]|), segs[1..], flags, lastFlags, (ipid + 1) % 0x1_0000);
  }
}
