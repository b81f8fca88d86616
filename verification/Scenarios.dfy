/** Runs, packet by packet: a captured byte is lost, an injection is irregular, a packet is forgotten. */
module Scenarios {
  import opened Words
  import opened Wire
  import opened FlowMachine
  import opened FlowInvariants
  import opened Outcomes
  import opened Conservation
  import opened Settling
  import opened Runs
  import opened Injection
  import opened Completeness
  import opened Replacement
  import opened Exactness
  import opened Forgetting
  import S = Segmentation
  import R = Reassembly
  import Tls

  // ---- the packets ----

  const BASE: u32 := 1000
  const PSH_ACK: u8 := 0x18

  /** The stream: a ClientHello record of two bytes, and whatever follows. */
  function HelloAt(x: nat): u8 {
    if x == 0 then 0x16 else if x == 1 then 3 else if x == 2 then 1
    else if x == 4 then 2 else if x == 5 then 1 else 0
  }

  function Hello(s: u32): u8 {
    HelloAt(Sub32(s, BASE))
  }

  const IP_HEADER: Bytes := [0x45, 0, 0, 0, 0, 0, 0, 0, 64, 6, 0, 0, 10, 0, 0, 1, 10, 0, 0, 2]

  function TcpHeader(off: u8): (h: Bytes)
    ensures |h| == 20
  {
    [0x30, 0x39, 1, 0xbb, 0, 0, (BASE + off) / 256, (BASE + off) % 256, 0, 0, 0, 0, 0x50, PSH_ACK, 0, 0, 0, 0, 0, 0]
  }

  function HeaderOf(off: u8): (h: Bytes)
    ensures |h| == 40
  {
    IP_HEADER + TcpHeader(off)
  }

  /** `n` bytes of the stream, from offset `off` on. */
  function BytesOf(off: u8, n: u8): (b: Bytes)
    ensures |b| == n && forall i | 0 <= i < n :: b[i] == HelloAt(off + i)
  {
    seq<u8>(n, i requires 0 <= i < n => HelloAt(off + i))
  }

  function DataOf(off: u8, n: u8): (d: Bytes)
    ensures |d| == 40 + n
  {
    HeaderOf(off) + BytesOf(off, n)
  }

  const KEY: Key := Key([10, 0, 0, 1], [10, 0, 0, 2], 0x3039, 443, 6)

  function PacketAt(off: u8, n: u8): Packet {
    Packet(DataOf(off, n), Meta([10, 0, 0, 1], [10, 0, 0, 2], 0x3039, 443, 6, BASE + off, 0, PSH_ACK, 20, 20, 40),
      Captured, 0)
  }

  /** A header of this shape decodes to these fields. */
  lemma DecodesAs(d: Bytes, off: u8)
    requires |d| >= 40 && d[0] == 0x45 && d[6] == 0 && d[7] == 0 && d[9] == 6
    requires d[12..16] == [10, 0, 0, 1] && d[16..20] == [10, 0, 0, 2]
    requires d[20] == 0x30 && d[21] == 0x39 && d[22] == 1 && d[23] == 0xbb
    requires d[24] == 0 && d[25] == 0 && d[26] == (BASE + off) / 256 && d[27] == (BASE + off) % 256
    requires d[28] == 0 && d[29] == 0 && d[30] == 0 && d[31] == 0 && d[32] == 0x50 && d[33] == PSH_ACK
    ensures Decode(d) ==
            Decoded(Meta([10, 0, 0, 1], [10, 0, 0, 2], 0x3039, 443, 6, BASE + off, 0, PSH_ACK, 20, 20, 40))
  {
    assert Get16(d, 6) == 0 && Get16(d, 20) == 0x3039 && Get16(d, 22) == 443;
    assert Get32(d, 24) == BASE + off && Get32(d, 28) == 0;
    hide Get16, Get32;
  }

  lemma HeaderBytes(off: u8, n: u8)
    ensures var d := DataOf(off, n);
            && d[0] == 0x45 && d[6] == 0 && d[7] == 0 && d[9] == 6
            && d[12..16] == [10, 0, 0, 1] && d[16..20] == [10, 0, 0, 2]
            && d[20] == 0x30 && d[21] == 0x39 && d[22] == 1 && d[23] == 0xbb
            && d[24] == 0 && d[25] == 0 && d[26] == (BASE + off) / 256 && d[27] == (BASE + off) % 256
            && d[28] == 0 && d[29] == 0 && d[30] == 0 && d[31] == 0 && d[32] == 0x50 && d[33] == PSH_ACK
  {
    DataParts(off, n);
    IpHeaderBytes(DataOf(off, n));
    TcpHeaderBytes(DataOf(off, n), off);
    hide DataOf, HeaderOf, TcpHeader;
  }

  lemma IpHeaderBytes(d: Bytes)
    requires |d| >= 20 && d[..20] == IP_HEADER
    ensures d[0] == 0x45 && d[6] == 0 && d[7] == 0 && d[9] == 6
    ensures d[12..16] == [10, 0, 0, 1] && d[16..20] == [10, 0, 0, 2]
  {
    assert d[12..16] == d[..20][12..16] == [10, 0, 0, 1];
    assert d[16..20] == d[..20][16..20] == [10, 0, 0, 2];
    assert forall i | 0 <= i < 20 :: d[i] == d[..20][i];
  }

  lemma TcpHeaderBytes(d: Bytes, off: u8)
    requires |d| >= 40 && d[20..40] == TcpHeader(off)
    ensures d[20] == 0x30 && d[21] == 0x39 && d[22] == 1 && d[23] == 0xbb
    ensures d[24] == 0 && d[25] == 0 && d[26] == (BASE + off) / 256 && d[27] == (BASE + off) % 256
    ensures d[28] == 0 && d[29] == 0 && d[30] == 0 && d[31] == 0 && d[32] == 0x50 && d[33] == PSH_ACK
  {
    assert forall i | 20 <= i < 40 :: d[i] == d[20..40][i - 20];
  }

  lemma DataParts(off: u8, n: u8)
    ensures DataOf(off, n)[..20] == IP_HEADER && DataOf(off, n)[20..40] == TcpHeader(off)
  {
    hide TcpHeader, BytesOf;
  }

  lemma PayloadBytes(off: u8, n: u8)
    ensures DataOf(off, n)[40..] == BytesOf(off, n)
  {
    hide HeaderOf, BytesOf;
  }

  lemma PacketIsGenuine(off: u8, n: u8)
    ensures var p := PacketAt(off, n);
            && Genuine(p) && p.source == Captured && KeyOf(p.meta) == KEY && PayloadOf(p) == BytesOf(off, n)
            && p.meta.seqNo == BASE + off && p.meta.flags == PSH_ACK && p.meta.ipLen == 20 && p.meta.tcpLen == 20
  {
    hide DataOf, BytesOf, HelloAt, Decode, HeaderOf;
    HeaderBytes(off, n);
    DecodesAs(DataOf(off, n), off);
    PayloadBytes(off, n);
  }

  lemma FragmentAt(off: u8, n: u8)
    ensures var f := FragmentOf(PacketAt(off, n));
            && f.start == BASE + off && f.payload == BytesOf(off, n) && R.Offset(BASE, f) == off
            && CutFrom(Hello, f.start, f.payload)
  {
    PacketIsGenuine(off, n);
    hide PacketAt, BytesOf, Decode, PayloadOf;
    var f := FragmentOf(PacketAt(off, n));
    forall i | 0 <= i < |f.payload| ensures f.payload[i] == Hello(Add32(f.start, i)) {
      assert Add32(BASE + off, i) == BASE + off + i && Sub32(BASE + off + i, BASE) == off + i;
    }
  }

  // ---- steps ----

  /** Every call succeeds. */
  function Fair(n: nat): bool {
    true
  }

  function ConfigOf(mode: Mode): Config {
    Config(mode, 1, 1000, 100, 10, 0, 0, 0, 0)
  }

  function Arrives(p: Packet, mode: Mode): Input {
    Deliver(p, 0, ConfigOf(mode), ConfigOf(mode), ConfigOf(mode))
  }

  /** The history goes on with one more input. */
  lemma Extend(h: History, i: Input) returns (g: History)
    requires h.IsRun() && h.NoErrors() && InputOk(i) && Valid(h.End()) && Step(h.End(), i, h.fate).1
    ensures g.IsRun() && g.NoErrors() && g.fate == h.fate && g.ins == h.ins + [i]
    ensures g.End() == Step(h.End(), i, h.fate).0
  {
    hide Step, InputOk, Valid;
    var n := |h.ins|;
    g := History(h.ins + [i], h.worlds + [Step(h.End(), i, h.fate).0], h.fate);
    forall j: nat | j < |g.ins| ensures g.SucceedsAt(j) {
      if j < n {
        assert h.SucceedsAt(j);
      }
    }
    assert forall j: nat | j < |g.ins| :: g.SucceedsAt(j) ==> g.StepsAt(j);
  }

  /** What the flow of the connection looks like once it holds `ps`. */
  ghost predicate Gathers(f: Flow, ps: seq<Packet>) {
    && ps != [] && f.phase == Collecting && f.base == BASE && f.collectStart == 0 && f.held == ps
    && f.template == Some(ps[|ps| - 1]) && f.buf == Some(Gathered(ps))
  }

  ghost function Gathered(ps: seq<Packet>): R.Buf {
    R.PushAll(R.NewBuf(BASE, 100), Fragments(ps))
  }

  /** So far the connection is the only one, and nothing was sent. */
  ghost predicate Holding(h: History, ps: seq<Packet>) {
    && h.IsRun() && h.NoErrors() && h.End().trace == []
    && if ps == [] then KEY !in h.End().flows else KEY in h.End().flows && Gathers(h.End().flows[KEY], ps)
  }

  lemma NothingYet(fate: Fate) returns (h: History)
    ensures Holding(h, []) && h.ins == [] && h.fate == fate
  {
    hide Step;
    h := History([], [EMPTY], fate);
  }

  /** Packets of the connection that fit, and no more than a few. */
  ghost predicate Fine(ps: seq<Packet>) {
    && |ps| < 8
    && forall p | p in ps :: Genuine(p) && p.source == Captured && KeyOf(p.meta) == KEY && p.meta.flags == PSH_ACK
                             && PayloadOf(p) != [] && R.Fits(BASE, 100, FragmentOf(p))
                             && p.meta.ipLen == 20 && p.meta.tcpLen == 20
  }

  lemma CandidateGathers(flow: Option<Flow>, ps: seq<Packet>, p: Packet, mode: Mode)
    requires if ps == [] then flow.None? && p.meta.seqNo == BASE else flow.Some? && Gathers(flow.value, ps)
    ensures var f := Candidate(flow, p, 0, ConfigOf(mode));
            && f.phase == Collecting && f.base == BASE && f.collectStart == 0 && f.held == ps && f.template == Some(p)
            && f.buf == Some(Gathered(ps)) && Gathers(Joined(f, p), ps + [p])
  {
    hide R.Push, PayloadOf;
    FragmentsNext(ps, p);
    PushAllNext(R.NewBuf(BASE, 100), Fragments(ps), FragmentOf(p));
    assert Fragments([]) == [];
  }

  lemma NoClosingFlags()
    ensures !HasFlag(PSH_ACK, SYN) && !HasFlag(PSH_ACK, RST) && !HasFlag(PSH_ACK, FIN)
  {
  }

  /** What is decided about a fine packet depends on the mode alone. */
  lemma DecidesByMode(l: Local, count: nat, ps: seq<Packet>, p: Packet, mode: Mode)
    requires Fine(ps + [p]) && (ps == [] ==> p.meta.seqNo == BASE) && Ready(l, p)
    requires if ps == [] then l.flow.None? else l.flow.Some? && Gathers(l.flow.value, ps)
    ensures var (c, f) := (ConfigOf(mode), Candidate(l.flow, p, 0, ConfigOf(mode)));
            && f.buf.Some? && Collected(Joined(f, p))
            && Decide(l, count, p, 0, c, c, c) == DecideSplit(Joined(f, p), mode, c, c)
  {
    var c, f := ConfigOf(mode), Candidate(l.flow, p, 0, ConfigOf(mode));
    assert p in ps + [p];
    CandidateGathers(l.flow, ps, p, mode);
    NoClosingFlags();
    R.PushAllWellFormed(BASE, 100, Fragments(ps));
    R.AcceptedIffFits(Gathered(ps), FragmentOf(p));
    DecideHolds(l, count, p, 0, c, c, c);
    hide Decide, R.Push, PayloadOf, DecideSplit, Genuine, HasFlag, R.PushAll, R.Buf.WellFormed;
    DecidesToHold(l, count, p, c);
    JoinedCollected(f, p);
  }

  lemma DecidesToHold(l: Local, count: nat, p: Packet, c: Config)
    requires Ready(l, p) && PayloadOf(p) != [] && (l.flow.Some? ==> l.flow.value.phase == Collecting)
    requires c.maxHeldBytes == 0 && c.maxReassemblyBytes == 0 && c.maxFlows == 0
    ensures var f := Candidate(l.flow, p, 0, c);
            Collected(f) && Decide(l, count, p, 0, c, c, c) == DecideHeld(f, l.flow.None?, l.reasm, p, 0, c, c, c)
  {
    hide DecideHeld, PayloadOf, Genuine, HasFlag;
  }

  /** The flow as it is loaded for the next packet. */
  lemma Loaded(h: History, ps: seq<Packet>, p: Packet, mode: Mode)
    requires Holding(h, ps) && Fine(ps + [p])
    ensures Valid(h.End()) && InputOk(Arrives(p, mode)) && Arrives(p, mode).InputKey() == KEY
    ensures var l := Load(h.End(), KEY);
            && Ready(l, p) && l.trace == []
            && if ps == [] then l.flow.None? else l.flow.Some? && Gathers(l.flow.value, ps)
  {
    hide Step, Genuine, Collected, Gathers, Accounted;
    RunIs(h);
    assert p in ps + [p];
    if KEY in h.End().flows {
      assert FlowValid(KEY, h.End().flows[KEY]);
    }
  }

  /** A packet that leaves the split undecided is held. */
  lemma HoldOne(h: History, ps: seq<Packet>, p: Packet, mode: Mode) returns (g: History)
    requires Holding(h, ps) && Fine(ps + [p]) && (ps == [] ==> p.meta.seqNo == BASE)
    requires mode == OtherMode || (mode == TlsHello && Gathered(ps + [p]).prefix < 6)
    ensures Holding(g, ps + [p]) && g.ins == h.ins + [Arrives(p, mode)] && g.fate == h.fate
  {
    var i, l := Arrives(p, mode), Load(h.End(), KEY);
    Loaded(h, ps, p, mode);
    DecidesByMode(l, |h.End().flows|, ps, p, mode);
    CandidateGathers(l.flow, ps, p, mode);
    StaysOpen(Joined(Candidate(l.flow, p, 0, ConfigOf(mode)), p), ps + [p], mode);
    hide Decide, DecideSplit, Gathers, Genuine, Collected, Fine, Candidate, Joined, FlowValid, Gathered, Valid, Ready;
    HoldStep(h.End(), p, mode, h.fate);
    g := Extend(h, i);
  }

  lemma StaysOpen(f: Flow, ps: seq<Packet>, mode: Mode)
    requires Gathers(f, ps) && Collected(f) && (mode == OtherMode || (mode == TlsHello && Gathered(ps).prefix < 6))
    ensures DecideSplit(f, mode, ConfigOf(mode), ConfigOf(mode)) == Hold
  {
    hide Gathered, Plan, R.Buf.WellFormed, Genuine;
  }

  lemma HoldStep(w: World, p: Packet, mode: Mode, fate: Fate)
    requires var (i, l, c) := (Arrives(p, mode), Load(w, KEY), ConfigOf(mode));
             && Valid(w) && InputOk(i) && i.InputKey() == KEY && Ready(l, p) && Candidate(l.flow, p, 0, c).buf.Some?
             && Decide(l, |w.flows|, p, 0, c, c, c) == Hold
    ensures var (f, (v, ok)) := (Candidate(Load(w, KEY).flow, p, 0, ConfigOf(mode)), Step(w, Arrives(p, mode), fate));
            ok && v.trace == w.trace && KEY in v.flows && v.flows[KEY] == Joined(f, p)
  {
    hide Decide, Candidate, Joined, Genuine, Collected, FlowValid;
    assert Load(w, KEY).flow.Some? ==> FlowValid(KEY, Load(w, KEY).flow.value);
  }

  lemma {:induction false} AllSucceed(t: Trace, k: Key, verb: Verb, ps: seq<Packet>)
    ensures AttemptAll(t, k, verb, ps, Fair) == (t + Dones(k, verb, ps), true)
    decreases |ps|
  {
    if ps == [] {
      assert t + Dones(k, verb, ps) == t;
    } else {
      var e := Done(k, verb, ps[0]);
      AllSucceed(t + [e], k, verb, ps[1..]);
      assert t + [e] + Dones(k, verb, ps[1..]) == t + Dones(k, verb, ps);
    }
  }

  /** A packet that completes the record: the plan is sent, and everything held is dropped. */
  lemma InjectOne(h: History, ps: seq<Packet>, p: Packet) returns (g: History, e: Event)
    requires Holding(h, ps) && h.fate == Fair && Fine(ps + [p]) && (ps == [] ==> p.meta.seqNo == BASE)
    requires Gathered(ps + [p]).WellFormed() && 7 <= Gathered(ps + [p]).prefix
    requires Tls.DetectClientHelloRecord(Gathered(ps + [p]).Contig()) == Tls.Match(2)
    ensures g.IsRun() && g.NoErrors() && g.ins == h.ins + [Arrives(p, TlsHello)]
    ensures e.Split? && e.key == KEY && e.window == 7 && Gathers(e.flow, ps + [p])
    ensures g.End().trace == Dones(KEY, Send, e.plan) + Dones(KEY, Drop, ps + [p]) + [e]
    ensures KEY in g.End().flows && g.End().flows[KEY].held == []
  {
    var i, l := Arrives(p, TlsHello), Load(h.End(), KEY);
    Loaded(h, ps, p, TlsHello);
    DecidesByMode(l, |h.End().flows|, ps, p, TlsHello);
    CandidateGathers(l.flow, ps, p, TlsHello);
    var plan := Splits(Joined(Candidate(l.flow, p, 0, ConfigOf(TlsHello)), p), ps + [p]);
    hide Decide, DecideSplit, Gathers, Genuine, Collected, Fine, Candidate, Joined, FlowValid, Gathered, Valid, Ready;
    e := InjectStep(h.End(), p, plan);
    g := Extend(h, i);
    hide Step;
    assert Joined(Candidate(l.flow, p, 0, ConfigOf(TlsHello)), p).held == ps + [p] by {
      HeldOfGathers(Joined(Candidate(l.flow, p, 0, ConfigOf(TlsHello)), p), ps + [p]);
    }
  }

  lemma HeldOfGathers(f: Flow, ps: seq<Packet>)
    requires Gathers(f, ps)
    ensures f.held == ps
  {
    hide Gathered;
  }

  lemma Splits(f: Flow, ps: seq<Packet>) returns (plan: seq<Packet>)
    requires Gathers(f, ps) && Collected(f) && Fine(ps) && 7 <= Gathered(ps).prefix
    requires Gathered(ps).WellFormed() && Tls.DetectClientHelloRecord(Gathered(ps).Contig()) == Tls.Match(2)
    ensures DecideSplit(f, TlsHello, ConfigOf(TlsHello), ConfigOf(TlsHello)) == HoldInject(7, plan)
  {
    hide Gathered, Genuine, Tls.DetectClientHelloRecord, S.SplitFirst, R.Buf.Contig, PlanFrom, PayloadOf, R.Fits;
    var c, p := ConfigOf(TlsHello), ps[|ps| - 1];
    assert p in ps;
    var max := MaxPayload(p, c);
    S.SplitFirstJoin(f.buf.value.Contig()[..7], c.splitChunk, max);
    assert Plan(f, 7, c).Some?;
    plan := Plan(f, 7, c).value;
  }

  lemma InjectStep(w: World, p: Packet, plan: seq<Packet>) returns (e: Event)
    requires var (i, l, c) := (Arrives(p, TlsHello), Load(w, KEY), ConfigOf(TlsHello));
             && Valid(w) && InputOk(i) && i.InputKey() == KEY && Ready(l, p) && Candidate(l.flow, p, 0, c).buf.Some?
             && Candidate(l.flow, p, 0, c).template.Some? && w.trace == []
             && Decide(l, |w.flows|, p, 0, c, c, c) == HoldInject(7, plan)
    ensures var (f, (v, ok)) := (Joined(Candidate(Load(w, KEY).flow, p, 0, ConfigOf(TlsHello)), p),
            Step(w, Arrives(p, TlsHello), Fair));
            && e == Split(KEY, 7, f, plan)
            && ok && v.trace == Dones(KEY, Send, plan) + Dones(KEY, Drop, f.held) + [e]
            && KEY in v.flows && v.flows[KEY].held == []
  {
    hide Decide, Candidate, Genuine, Collected, FlowValid, AttemptAll, Dones, R.Push;
    var c := ConfigOf(TlsHello);
    var f := Joined(Candidate(Load(w, KEY).flow, p, 0, c), p);
    assert Load(w, KEY).flow.Some? ==> FlowValid(KEY, Load(w, KEY).flow.value);
    AllSucceed([], KEY, Send, plan);
    assert [] + Dones(KEY, Send, plan) == Dones(KEY, Send, plan);
    AllSucceed(Dones(KEY, Send, plan), KEY, Drop, f.held);
    e := Split(KEY, 7, f, plan);
  }

  // ---- what the buffer has ----

  /** Where a packet starts in the stream and how long it is. */
  datatype Span = Span(off: u8, len: u8)

  predicate Short(spans: seq<Span>) {
    |spans| < 8 && forall i | 0 <= i < |spans| :: spans[i].len > 0 && spans[i].off + spans[i].len <= 100
  }

  function Cut(spans: seq<Span>): seq<Packet> {
    seq(|spans|, i requires 0 <= i < |spans| => PacketAt(spans[i].off, spans[i].len))
  }

  predicate In(x: nat, s: Span) {
    s.off <= x < s.off + s.len
  }

  ghost predicate AnyIn(x: nat, spans: seq<Span>) {
    exists i :: 0 <= i < |spans| && In(x, spans[i])
  }

  lemma AnyInMore(x: nat, spans: seq<Span>, s: Span)
    ensures AnyIn(x, spans + [s]) <==> AnyIn(x, spans) || In(x, s)
  {
    hide In;
    assert (spans + [s])[|spans|] == s && forall i | 0 <= i < |spans| :: (spans + [s])[i] == spans[i];
  }

  lemma AnyInFew(x: nat, a: Span, b: Span, c: Span)
    ensures AnyIn(x, [a]) <==> In(x, a)
    ensures AnyIn(x, [a, b]) <==> In(x, a) || In(x, b)
    ensures AnyIn(x, [a, b, c]) <==> In(x, a) || In(x, b) || In(x, c)
  {
    AnyInMore(x, [], a);
    AnyInMore(x, [a], b);
    AnyInMore(x, [a, b], c);
    hide In;
    assert [] + [a] == [a] && [a] + [b] == [a, b] && [a, b] + [c] == [a, b, c];
  }

  lemma CutIsFine(spans: seq<Span>)
    requires Short(spans)
    ensures Fine(Cut(spans))
    ensures forall i | 0 <= i < |spans| :: FragmentOf(Cut(spans)[i]).payload == BytesOf(spans[i].off, spans[i].len)
                                           && R.Offset(BASE, FragmentOf(Cut(spans)[i])) == spans[i].off
    ensures R.AllCutFrom(Hello, Fragments(Cut(spans)))
  {
    hide Genuine, PacketAt, KeyOf, PayloadOf, CutFrom;
    forall i | 0 <= i < |spans|
      ensures var p := Cut(spans)[i];
              && Genuine(p) && p.source == Captured && KeyOf(p.meta) == KEY && p.meta.flags == PSH_ACK
              && PayloadOf(p) == BytesOf(spans[i].off, spans[i].len) && R.Fits(BASE, 100, FragmentOf(p))
              && R.Offset(BASE, FragmentOf(p)) == spans[i].off && p.meta.ipLen == 20 && p.meta.tcpLen == 20
              && CutFrom(Hello, FragmentOf(p).start, FragmentOf(p).payload)
    {
      PacketIsGenuine(spans[i].off, spans[i].len);
      FragmentAt(spans[i].off, spans[i].len);
    }
    forall f | f in Fragments(Cut(spans)) ensures CutFrom(Hello, f.start, f.payload) {
      var i :| 0 <= i < |spans| && Fragments(Cut(spans))[i] == f;
      assert f == FragmentOf(Cut(spans)[i]);
    }
  }

  lemma CoveredIff(spans: seq<Span>, x: nat)
    requires Short(spans)
    ensures x in Gathered(Cut(spans)).bytes <==> AnyIn(x, spans)
  {
    hide R.PushAll, R.Push, PacketAt, PayloadOf;
    CutIsFine(spans);
    var fs := Fragments(Cut(spans));
    R.PushAllCovers(BASE, 100, fs, x);
    forall i | 0 <= i < |spans| ensures fs[i] in fs && R.Fits(BASE, 100, fs[i])
      && (R.Covers(BASE, fs[i], x) <==> In(x, spans[i])) {
      assert fs[i] == FragmentOf(Cut(spans)[i]);
      assert Cut(spans)[i] in Cut(spans);
    }
  }

  /** The contiguous prefix ends where the spans leave the first gap. */
  lemma PrefixOf(spans: seq<Span>, n: nat)
    requires Short(spans) && !AnyIn(n, spans) && forall x: nat | x < n :: AnyIn(x, spans)
    ensures Gathered(Cut(spans)).prefix == n && Gathered(Cut(spans)).WellFormed()
  {
    hide R.PushAll, Cut, AnyIn;
    var b := Gathered(Cut(spans));
    R.PushAllWellFormed(BASE, 100, Fragments(Cut(spans)));
    CoveredIff(spans, n);
    CoveredIff(spans, b.prefix);
  }

  lemma HelloFromBase(x: nat)
    requires x < 6
    ensures Hello(Add32(BASE, x)) == HelloAt(x)
  {
    hide HelloAt;
    OffsetOfPosition(BASE, x);
  }

  lemma HelloMatches()
    ensures Tls.StreamVerdict(Hello, BASE) == Tls.Match(2)
  {
    HeadIsHello();
    hide Tls.StreamHead, HelloAt, Hello;
    var head := [0x16, 3, 1, 0, 2, 1];
    assert |head| == 6 && head[0] == 0x16 && head[1] == 3 && head[2] == 1 && head[3] == 0 && head[4] == 2
           && head[5] == 1;
  }

  lemma HeadIsHello()
    ensures Tls.StreamHead(Hello, BASE) == [0x16, 3, 1, 0, 2, 1]
  {
    hide Hello, Add32;
    HelloFromBase(0);
    HelloFromBase(1);
    HelloFromBase(2);
    HelloFromBase(3);
    HelloFromBase(4);
    HelloFromBase(5);
  }

  /** Six or more bytes of the stream announce its record. */
  lemma Announces(spans: seq<Span>)
    requires Short(spans) && Gathered(Cut(spans)).prefix >= 6
    ensures Gathered(Cut(spans)).WellFormed()
    ensures Tls.DetectClientHelloRecord(Gathered(Cut(spans)).Contig()) == Tls.Match(2)
  {
    hide R.PushAll, Cut, Fragments, Tls.DetectClientHelloRecord;
    var fs := Fragments(Cut(spans));
    CutIsFine(spans);
    R.PushAllWellFormed(BASE, 100, fs);
    R.PushAllHolds(Hello, BASE, 100, fs);
    HelloMatches();
    Tls.VerdictOfPrefix(Hello, BASE, Gathered(Cut(spans)).Contig());
  }

  // ---- a byte is lost ----

  lemma LastIsSplit(h: History, e: Event)
    requires h.IsRun() && h.NoErrors() && e.Split? && e in h.End().trace
    ensures SplitOf(None, e)
  {
    hide RunAll, InputsOk, RunOk, AllUse, SplitOf, History.StepsAt, History.SucceedsAt;
    RunIsOk(h);
    AnyConfigs(h.ins);
    RunRests(None, h.ins, h.fate);
  }

  lemma NotSent(t: Trace, plan: seq<Packet>, held: seq<Packet>, e: Event, s: u32)
    requires t == Dones(KEY, Send, plan) + Dones(KEY, Drop, held) + [e] && e.Split? && !AnyHas(plan, s)
    ensures !SentAt(t, KEY, s)
  {
    hide HasByte;
    forall i | 0 <= i < |t| ensures !(t[i].Done? && t[i].verb == Send && HasByte(t[i].pkt, s)) {
      if i < |plan| {
        assert t[i] == Done(KEY, Send, plan[i]);
      } else if i < |plan| + |held| {
        assert t[i] == Done(KEY, Drop, held[i - |plan|]);
      }
    }
  }

  const FIRST := Span(0, 3)
  const AHEAD := Span(20, 1)
  const SECOND := Span(3, 4)

  lemma CutMore(spans: seq<Span>, s: Span)
    ensures Cut(spans + [s]) == Cut(spans) + [PacketAt(s.off, s.len)]
    ensures PacketAt(s.off, s.len).meta.seqNo == BASE + s.off
  {
    hide DataOf;
  }

  /** Deliver one more packet that leaves the split undecided. */
  lemma Collects(h: History, spans: seq<Span>, s: Span, mode: Mode, prefix: nat) returns (g: History)
    requires Holding(h, Cut(spans)) && Short(spans + [s]) && (spans == [] ==> s.off == 0)
    requires mode == OtherMode || (mode == TlsHello && prefix < 6)
    requires mode == TlsHello ==> Gathered(Cut(spans + [s])).prefix == prefix
    ensures Holding(g, Cut(spans + [s])) && g.ins == h.ins + [Arrives(PacketAt(s.off, s.len), mode)]
    ensures g.fate == h.fate
  {
    hide Holding, Gathered, Fine, PacketAt, Cut;
    CutMore(spans, s);
    CutIsFine(spans + [s]);
    CutLen(spans);
    g := HoldOne(h, Cut(spans), PacketAt(s.off, s.len), mode);
  }

  lemma CutLen(spans: seq<Span>)
    ensures |Cut(spans)| == |spans|
  {
  }

  /** Deliver the packet that completes the record. */
  lemma Completes(h: History, spans: seq<Span>, s: Span) returns (g: History, e: Event)
    requires Holding(h, Cut(spans)) && h.fate == Fair && Short(spans + [s]) && spans != []
    requires Gathered(Cut(spans + [s])).prefix >= 7
    ensures g.IsRun() && g.NoErrors() && g.ins == h.ins + [Arrives(PacketAt(s.off, s.len), TlsHello)]
    ensures e.Split? && e.key == KEY && e.window == 7 && Gathers(e.flow, Cut(spans + [s]))
    ensures g.End().trace == Dones(KEY, Send, e.plan) + Dones(KEY, Drop, Cut(spans + [s])) + [e]
    ensures KEY in g.End().flows && g.End().flows[KEY].held == []
  {
    hide Holding, Gathered, Fine, PacketAt, Cut, Gathers, Tls.DetectClientHelloRecord;
    CutMore(spans, s);
    CutIsFine(spans + [s]);
    CutLen(spans);
    Announces(spans + [s]);
    g, e := InjectOne(h, Cut(spans), PacketAt(s.off, s.len));
  }

  lemma LostPrefixes()
    ensures Gathered(Cut([FIRST])).prefix == 3 && Gathered(Cut([FIRST, AHEAD])).prefix == 3
    ensures Gathered(Cut([FIRST, AHEAD, SECOND])).prefix == 7
    ensures Pending(Gathered(Cut([FIRST, AHEAD, SECOND])), BASE + 20)
  {
    hide Gathered, Cut, AnyIn;
    forall x: nat
      ensures AnyIn(x, [FIRST]) <==> x < 3
      ensures AnyIn(x, [FIRST, AHEAD]) <==> x < 3 || x == 20
      ensures AnyIn(x, [FIRST, AHEAD, SECOND]) <==> x < 7 || x == 20
    {
      AnyInFew(x, FIRST, AHEAD, SECOND);
    }
    PrefixOf([FIRST], 3);
    PrefixOf([FIRST, AHEAD], 3);
    var spans := [FIRST, AHEAD, SECOND];
    PrefixOf(spans, 7);
    CoveredIff(spans, 20);
    assert Gathered(Cut(spans)).base == BASE by {
      GatheredBase(Cut(spans));
    }
  }

  lemma GatheredBase(ps: seq<Packet>)
    ensures Gathered(ps).base == BASE
  {
    R.PushAllWellFormed(BASE, 100, Fragments(ps));
  }

  /** A packet past a gap is dropped together with the others, and its byte goes nowhere: in this run under one
    * configuration, without any error, it was never sent for the connection and nothing is held any more. */
  lemma AByteIsLost() returns (h: History, i: nat, s: u32)
    ensures h.IsRun() && h.NoErrors() && AllUse(Some(ConfigOf(TlsHello)), h.ins)
    ensures i < |h.End().trace| && DropsCaptured(h.End().trace[i]) && HasByte(h.End().trace[i].pkt, s)
    ensures !SentAt(h.End().trace, KEY, s) && KEY in h.End().flows && h.End().flows[KEY].held == []
  {
    var e: Event;
    h, e := LosingRun();
    s := BASE + 20;
    hide ConfigOf;
    var ps, t := Cut([FIRST, AHEAD, SECOND]), h.End().trace;
    var p := ps[1];
    assert p == PacketAt(20, 1);
    i := |e.plan| + 1;
    assert t[i] == Dones(KEY, Drop, ps)[1];
    assert HasByte(p, s) && p.source == Captured by {
      PacketIsGenuine(20, 1);
      GenuineReads(p);
    }
    hide PacketAt, Cut, HasByte, Pending;
    LostPrefixes();
    LastIsSplit(h, e);
    HeldOfGathers(e.flow, ps);
    HeldByteIff(e, p, s);
    hide Gathers;
    NotSent(t, e.plan, ps, e, s);
  }

  lemma LosingRun() returns (h: History, e: Event)
    ensures h.IsRun() && h.NoErrors() && AllUse(Some(ConfigOf(TlsHello)), h.ins)
    ensures e.Split? && e.key == KEY && Gathers(e.flow, Cut([FIRST, AHEAD, SECOND]))
    ensures h.End().trace == Dones(KEY, Send, e.plan) + Dones(KEY, Drop, Cut([FIRST, AHEAD, SECOND])) + [e]
    ensures KEY in h.End().flows && h.End().flows[KEY].held == []
  {
    hide Holding, Gathered, Cut, PacketAt, Pending, Gathers;
    LostPrefixes();
    var h0 := NothingYet(Fair);
    CutLen([]);
    assert [] + [FIRST] == [FIRST] && [FIRST] + [AHEAD] == [FIRST, AHEAD];
    var h1 := Collects(h0, [], FIRST, TlsHello, 3);
    var h2 := Collects(h1, [FIRST], AHEAD, TlsHello, 3);
    assert [FIRST, AHEAD] + [SECOND] == [FIRST, AHEAD, SECOND];
    h, e := Completes(h2, [FIRST, AHEAD], SECOND);
  }

  // ---- an injection that is not exact ----

  const RECORD := Span(0, 7)
  const MORE := Span(7, 4)

  /** A fragment that starts where the prefix ends, or lies inside it, sets no flag. */
  lemma QuietPush(b: R.Buf, f: R.Fragment)
    requires b.WellFormed() && !b.outOfOrder && !b.overlap && R.Fits(b.base, b.max, f) && f.payload != []
    requires R.Offset(b.base, f) == b.prefix || R.Offset(b.base, f) + |f.payload| <= b.prefix
    ensures !R.Push(b, f).0.outOfOrder && !R.Push(b, f).0.overlap
  {
    hide R.FirstGap, R.Write;
  }

  lemma QuietMore(spans: seq<Span>, s: Span)
    requires Short(spans + [s]) && !Gathered(Cut(spans)).outOfOrder && !Gathered(Cut(spans)).overlap
    requires var n := Gathered(Cut(spans)).prefix; s.off == n || s.off + s.len <= n
    ensures !Gathered(Cut(spans + [s])).outOfOrder && !Gathered(Cut(spans + [s])).overlap
  {
    hide PacketAt, R.Push, PayloadOf;
    CutIsFine(spans + [s]);
    CutMore(spans, s);
    var ps, p := Cut(spans), PacketAt(s.off, s.len);
    assert p == Cut(spans + [s])[|spans|] && p in Cut(spans + [s]);
    R.PushAllWellFormed(BASE, 100, Fragments(ps));
    FragmentsNext(ps, p);
    PushAllNext(R.NewBuf(BASE, 100), Fragments(ps), FragmentOf(p));
    QuietPush(Gathered(ps), FragmentOf(p));
  }

  lemma QuietPrefixes(again: Span)
    requires again == RECORD || again == MORE
    ensures Gathered(Cut([RECORD])).prefix == 7 && Gathered(Cut([RECORD, MORE])).prefix == 11
    ensures var b := Gathered(Cut([RECORD, MORE, again])); b.prefix == 11 && !b.outOfOrder && !b.overlap
  {
    hide Gathered, Cut, AnyIn;
    forall x: nat
      ensures AnyIn(x, [RECORD]) <==> x < 7
      ensures AnyIn(x, [RECORD, MORE]) <==> x < 11
      ensures AnyIn(x, [RECORD, MORE, again]) <==> x < 11
    {
      AnyInFew(x, RECORD, MORE, again);
    }
    PrefixOf([RECORD], 7);
    PrefixOf([RECORD, MORE], 11);
    PrefixOf([RECORD, MORE, again], 11);
    EmptyIsQuiet();
    assert [] + [RECORD] == [RECORD] && [RECORD] + [MORE] == [RECORD, MORE]
           && [RECORD, MORE] + [again] == [RECORD, MORE, again];
    QuietMore([], RECORD);
    QuietMore([RECORD], MORE);
    QuietMore([RECORD, MORE], again);
  }

  lemma EmptyIsQuiet()
    ensures var b := Gathered(Cut([])); b.prefix == 0 && !b.outOfOrder && !b.overlap
  {
  }

  /** Two packets are held while the mode asks for no split; after a reload to tls-hello one of them comes again. */
  lemma ReloadedRun(again: Span) returns (h: History, e: Event)
    requires again == RECORD || again == MORE
    ensures h.IsRun() && h.NoErrors() && e.Split? && e.window == 7 && Gathers(e.flow, Cut([RECORD, MORE, again]))
    ensures e in h.End().trace
  {
    hide Holding, Gathered, Cut, PacketAt, Gathers;
    QuietPrefixes(again);
    var h0 := NothingYet(Fair);
    CutLen([]);
    assert [] + [RECORD] == [RECORD] && [RECORD] + [MORE] == [RECORD, MORE]
           && [RECORD, MORE] + [again] == [RECORD, MORE, again];
    var h1 := Collects(h0, [], RECORD, OtherMode, 0);
    var h2 := Collects(h1, [RECORD], MORE, OtherMode, 0);
    h, e := Completes(h2, [RECORD, MORE], again);
    assert h.End().trace[|h.End().trace| - 1] == e;
  }

  /** The plan ends with two packets that carry the same bytes under the same header, both with PSH. */
  ghost predicate EndsTwice(plan: seq<Packet>) {
    |plan| >= 2 && Twins(plan[|plan| - 2], plan[|plan| - 1])
  }

  ghost predicate Twins(p: Packet, q: Packet) {
    exists m: Meta, payload: Bytes :: Pushes(p, q, m, payload)
  }

  ghost predicate Pushes(p: Packet, q: Packet, m: Meta, payload: Bytes) {
    HasFlag(m.flags, PSH) && payload != [] && Reads(p.data, m, payload) && Reads(q.data, m, payload)
  }

  lemma ResendsBoth(out: seq<Packet>, window: nat, ipid: u16)
    requires Resends(out, Cut([RECORD, MORE, MORE]), BASE, window, ipid) && window == 7
    ensures |out| == 2 && EndsTwice(out)
  {
    hide PacketAt, Cut, S.Sound, Get16, Reads, HasFlag;
    var a, b := PacketAt(0, 7), PacketAt(7, 4);
    PacketIsGenuine(0, 7);
    PacketIsGenuine(7, 4);
    assert Cut([RECORD, MORE, MORE]) == [a, b, b] by {
      CutThree(MORE);
    }
    hide KeyOf, Genuine, PayloadOf, BytesOf;
    var ps := [a, b, b];
    assert ps[1..] == [b, b] && ps[1..][1..] == [b] && ps[1..][1..][1..] == [];
    assert ReachOf(a, BASE) == 7 && ReachOf(b, BASE) == 11 && TrimOf(b, BASE, 7) == 0;
    assert PayloadOf(b)[0..] == PayloadOf(b) && |PayloadOf(b)| == 4;
    var next: u16 := (ipid + 1) % 0x1_0000;
    assert Resends(out, [b, b], BASE, 7, ipid);
    assert out != [] && Resends(out[1..], [b], BASE, 7, next);
    assert out[1..] != [] && Resends(out[1..][1..], [], BASE, 7, (next + 1) % 0x1_0000);
    assert out[1..][1..] == [] && |out| == 2;
    var m := b.meta.(seqNo := Add32(b.meta.seqNo, 0));
    PshAckHasPsh();
    SoundReads(out[0], m, PayloadOf(b));
    SoundReads(out[1], m, PayloadOf(b));
    assert Pushes(out[0], out[1], m, PayloadOf(b));
  }

  lemma CutThree(again: Span)
    ensures Cut([RECORD, MORE, again]) == [PacketAt(0, 7), PacketAt(7, 4), PacketAt(again.off, again.len)]
  {
    hide PacketAt;
  }

  lemma PshAckHasPsh()
    ensures HasFlag(PSH_ACK, PSH)
  {
  }

  lemma SoundReads(p: Packet, m: Meta, payload: Bytes)
    requires S.Sound(p, m, payload)
    ensures Reads(p.data, m, payload)
  {
    hide Reads, S.Checksum.Verifies, S.Checksum.HeaderSum, S.Checksum.SegmentSum, Get16;
  }

  lemma WindowWasInside(f: Flow, again: Span)
    requires (again == RECORD || again == MORE) && Gathers(f, Cut([RECORD, MORE, again]))
    ensures f.held == Cut([RECORD, MORE, again]) && f.held != [] && f.buf.Some? && f.base == BASE && !Regular(f, 7)
  {
    QuietPrefixes(again);
    CutLen([RECORD, MORE, again]);
    R.PushAllWellFormed(BASE, 100, Fragments(Cut([RECORD, MORE, again])));
    assert Cut([RECORD, MORE, again])[..2] == Cut([RECORD, MORE]) by {
      hide PacketAt;
    }
    hide Cut, R.PushAll, PacketAt;
  }

  lemma SplitEndsTwice(e: Event)
    requires e.Split? && e.window == 7 && SplitOf(None, e) && e.flow.held == Cut([RECORD, MORE, MORE])
             && e.flow.base == BASE
    requires !Regular(e.flow, 7)
    ensures |e.plan| > 2 && EndsTwice(e.plan)
  {
    hide Cut, EndsTwice, Resends, S.Carries, WithoutPshFin, Regular, Plan, Settled, Belongs, R.Buf.Contig, Genuine,
         R.Buf.WellFormed;
    IrregularResends(e);
    hide SplitOf, Collected;
    var n: nat :| WindowThenHeld(e.plan, e.flow, 7, n);
    ResendsBoth(e.plan[n..], 7, (Get16(e.flow.template.value.data, 4) + n) % 0x1_0000);
    EndsLater(e.plan, n);
  }

  /** A reload can make an injection irregular. In this run the record and a further packet are held while the mode
    * asks for no split; after a reload to tls-hello a retransmission of that packet triggers the injection, which
    * sends it twice, and with PSH before its last packet. */
  lemma ReloadedInjectionRepeats() returns (h: History, e: Event)
    ensures h.IsRun() && h.NoErrors() && e in h.End().trace && e.Split?
    ensures e.flow.held != [] && e.flow.buf.Some? && !Regular(e.flow, e.window)
    ensures |e.plan| > 2 && EndsTwice(e.plan)
  {
    h, e := ReloadedRun(MORE);
    hide Cut, EndsTwice, SplitOf, Gathers, Regular, History.StepsAt, History.SucceedsAt;
    WindowWasInside(e.flow, MORE);
    LastIsSplit(h, e);
    SplitEndsTwice(e);
  }

  lemma EndsLater(plan: seq<Packet>, n: nat)
    requires n <= |plan| && EndsTwice(plan[n..])
    ensures EndsTwice(plan)
  {
    hide Twins;
    var rest := plan[n..];
    assert rest[|rest| - 1] == plan[|plan| - 1] && rest[|rest| - 2] == plan[|plan| - 2];
  }

  lemma FirstAgain(held: seq<Packet>)
    requires held == Cut([RECORD, MORE, RECORD])
    ensures Follow(held, BASE, 7) && HeldQuietButLast(held, BASE, 7)
  {
    hide PacketAt, Cut;
    PacketIsGenuine(0, 7);
    CutThree(RECORD);
    hide KeyOf, Genuine, PayloadOf, BytesOf, Loud;
    assert ReachOf(PacketAt(0, 7), BASE) == 7;
  }

  /** An irregular injection may be exact all the same: here the record itself comes again after the reload, and only
    * one
    * held packet reaches beyond the window. */
  lemma IrregularButExact() returns (h: History, e: Event)
    ensures h.IsRun() && h.NoErrors() && e in h.End().trace && e.Split?
    ensures Collected(e.flow) && e.flow.held != [] && !Regular(e.flow, e.window)
    ensures QuietButLast(e.plan) && InSequence(e.plan, e.flow.base, e.flow.buf.value.Contig())
  {
    h, e := ReloadedRun(RECORD);
    hide Cut, SplitOf, Gathers, Regular, History.StepsAt, History.SucceedsAt, RunAll, Follow, HeldQuietButLast,
         QuietButLast, InSequence, Repeats, Collected;
    WindowWasInside(e.flow, RECORD);
    FirstAgain(e.flow.held);
    var i :| 0 <= i < |h.End().trace| && h.End().trace[i] == e;
    LastOnlyIff(h, i);
    ExactlyThePrefixIff(h, i);
  }

  // ---- a packet is forgotten ----

  /** Every call fails. */
  function Never(n: nat): bool {
    false
  }

  /** Held bytes are all but forbidden. */
  function Tight(mode: Mode): Config {
    ConfigOf(mode).(maxHeldBytes := 1)
  }

  lemma GoesOn(h: History, i: Input) returns (g: History)
    requires h.IsRun() && InputOk(i) && Valid(h.End())
    ensures g.IsRun() && g.fate == h.fate && g.ins == h.ins + [i] && g.worlds[..|h.worlds|] == h.worlds
  {
    hide Step, InputOk, Valid;
    var n := |h.ins|;
    g := History(h.ins + [i], h.worlds + [Step(h.End(), i, h.fate).0], h.fate);
    forall j: nat | j < |g.ins| ensures g.StepsAt(j) {
      if j < n {
        assert h.StepsAt(j);
      }
    }
  }

  lemma FirstIsHeld() returns (h: History)
    ensures Holding(h, [PacketAt(0, 3)]) && h.fate == Never && |h.ins| == 1
  {
    hide Holding, Gathered, PacketAt, Pending;
    LostPrefixes();
    var h0 := NothingYet(Never);
    CutLen([]);
    assert [] + [FIRST] == [FIRST];
    h := Collects(h0, [], FIRST, TlsHello, 3);
    assert Cut([FIRST]) == [PacketAt(0, 3)];
  }

  lemma OthersDiffer()
    ensures PacketAt(3, 4) != PacketAt(0, 3) && |PacketAt(3, 4).data| == 44 && PayloadOf(PacketAt(3, 4)) != []
    ensures Genuine(PacketAt(3, 4)) && PacketAt(3, 4).source == Captured && KeyOf(PacketAt(3, 4).meta) == KEY
  {
    hide BytesOf, HeaderOf, Decode;
    PacketIsGenuine(3, 4);
  }

  /** A packet that comes when the held bytes are used up, and finds that the held packets cannot be sent, is neither
    * sent nor held. */
  lemma APacketIsForgotten() returns (h: History)
    ensures h.IsRun() && |h.ins| == 2 && h.ins[1].Deliver? && !SeenAfter(h, 1)
  {
    var g := FirstIsHeld();
    OthersDiffer();
    hide PacketAt, KeyOf, Genuine, Gathered;
    var p, c := PacketAt(3, 4), Tight(TlsHello);
    var i := Deliver(p, 0, c, c, c);
    RunIs(g);
    hide RunAll;
    h := GoesOn(g, i);
    assert h.worlds[1] == h.worlds[..|g.worlds|][1] == g.End();
    HeldIsCounted(g);
    var l := Load(h.worlds[1], KEY);
    assert !h.fate(|l.trace|);
    ForgottenIff(h, 1);
  }

  lemma HeldIsCounted(h: History)
    requires h.IsRun()
    ensures h.End().held >= 0
  {
    CountersAreExact(h, KEY, PacketAt(0, 3));
  }
}
