/** The worker's flow machine in its simple form.

  Each input concerns one flow. `Decide` says what happens to a packet, `Execute` does it,
  and `Step` applies both to the flow's entry in the table. Adapter calls may fail: call
  number n of a run succeeds exactly when `fate(n)` holds. The three configurations of a
  delivery are the ones loaded at its three load points, between which a reload may happen.
 */
module FlowMachine {
  import opened Words
  import opened Wire
  import opened Segmentation
  import R = Reassembly
  import Tls

  datatype Option<T> = None | Some(value: T)

  datatype Key = Key(srcIP: Bytes, dstIP: Bytes, srcPort: u16, dstPort: u16, proto: u8)

  function KeyOf(m: Meta): Key {
    Key(m.srcIP, m.dstIP, m.srcPort, m.dstPort, m.proto)
  }

  datatype Mode = Immediate | TlsHello | OtherMode

  datatype Config = Config(mode: Mode, splitChunk: int, collectTimeout: int, maxBufferBytes: int,
                           maxHeldPackets: int, maxSegmentPayload: int, maxFlows: int,
                           maxReassemblyBytes: int, maxHeldBytes: int)

  datatype Phase = Collecting | Injected | PassThrough

  datatype Flow = Flow(phase: Phase, base: u32, lastActive: int, collectStart: int, firstLen: nat,
                       template: Option<Packet>, held: seq<Packet>, buf: Option<R.Buf>, processed: bool)

  datatype Verb = Send | Drop

  /** What the worker did, in order. `Split` marks a completed injection, with the flow as it was collected,
    * and `Gone` the removal of a flow. */
  datatype Event =
    | Done(key: Key, verb: Verb, pkt: Packet)
    | Failed(key: Key, verb: Verb, pkt: Packet)
    | Split(key: Key, window: nat, flow: Flow, plan: seq<Packet>)
    | Gone(key: Key)

  type Trace = seq<Event>
  type Fate = nat -> bool

  // ---- adapter calls ----

  function Attempt(t: Trace, k: Key, verb: Verb, p: Packet, fate: Fate): Event {
    if fate(|t|) then Done(k, verb, p) else Failed(k, verb, p)
  }

  /** The same call for each packet in turn, stopping at the first failure. */
  function AttemptAll(t: Trace, k: Key, verb: Verb, ps: seq<Packet>, fate: Fate): (Trace, bool)
    decreases |ps|
  {
    if ps == [] then (t, true)
    else
      var e := Attempt(t, k, verb, ps[0], fate);
      if e.Failed? then (t + [e], false) else AttemptAll(t + [e], k, verb, ps[1..], fate)
  }

  // ---- one flow and the worker's counters ----

  datatype Local = Local(flow: Option<Flow>, held: int, reasm: int, trace: Trace)

  function Clamp(x: int): int {
    if x < 0 then 0 else x
  }

  function SizeOf(ps: seq<Packet>): nat {
    if ps == [] then 0 else SizeOf(ps[..|ps| - 1]) + |ps[|ps| - 1].data|
  }

  function FragmentOf(p: Packet): R.Fragment {
    R.Fragment(p.meta.seqNo, PayloadOf(p))
  }

  /** Forget what was collected and give its bytes back to the budgets. */
  function Clear(l: Local, f: Flow, phase: Phase): Local {
    Local(Some(f.(phase := phase, template := None, held := [], buf := None,
                  processed := phase == Injected || f.processed)),
          Clamp(l.held - SizeOf(f.held)),
          if f.buf.Some? then Clamp(l.reasm - f.buf.value.TotalBytes()) else l.reasm,
          l.trace)
  }

  /** Fail open: send the held packets in order; if all went out, the flow passes through from now on. */
  function Release(l: Local, k: Key, fate: Fate): (Local, bool)
    requires l.flow.Some?
  {
    var (t, ok) := AttemptAll(l.trace, k, Send, l.flow.value.held, fate);
    if ok then (Clear(l.(trace := t), l.flow.value, PassThrough), true) else (l.(trace := t), false)
  }

  function Remove(l: Local, k: Key): Local {
    l.(flow := None, trace := l.trace + [Gone(k)])
  }

  function Forwarded(l: Local, k: Key, pkt: Packet, fate: Fate): (Local, bool) {
    var e := Attempt(l.trace, k, Send, pkt, fate);
    (l.(trace := l.trace + [e]), e.Done?)
  }

  // ---- the injection plan ----

  /** How many bytes of the packet's payload lie inside the window. */
  function TrimOf(p: Packet, base: u32, window: nat): nat {
    var off := Sub32(p.meta.seqNo, base);
    if off < window then window - off else 0
  }

  /** The packet reaches beyond the window, with its end computed in uint32. */
  predicate Beyond(p: Packet, base: u32, window: nat) {
    && PayloadOf(p) != []
    && Add32(Sub32(p.meta.seqNo, base), |PayloadOf(p)|) > window
    && TrimOf(p, base, window) < |PayloadOf(p)|
  }

  lemma BeyondTrims(p: Packet, base: u32, window: nat)
    requires Beyond(p, base, window)
    ensures TrimOf(p, base, window) <= |PayloadOf(p)|
  {
  }

  /** The packet rebuilt without the bytes inside the window. */
  function Trim(p: Packet, base: u32, window: nat, ipid: u16): Packet
    requires Decode(p.data) == Decoded(p.meta) && TrimOf(p, base, window) <= |PayloadOf(p)|
  {
    var n := TrimOf(p, base, window);
    Wired(p, Add32(p.meta.seqNo, n), PayloadOf(p)[n..], p.meta.flags, ipid)
  }

  /** Held packets cut down to what lies beyond the window. */
  function Trimmed(held: seq<Packet>, base: u32, window: nat, ipid: u16): seq<Packet>
    requires forall p | p in held :: Decode(p.data) == Decoded(p.meta)
    decreases |held|
  {
    if held == [] then []
    else if !Beyond(held[0], base, window) then Trimmed(held[1..], base, window, ipid)
    else [Trim(held[0], base, window, ipid)] + Trimmed(held[1..], base, window, (ipid + 1) % 0x1_0000)
  }

  ghost predicate Collected(f: Flow) {
    && f.template.Some? && Genuine(f.template.value)
    && f.buf.Some? && f.buf.value.WellFormed()
    && (forall p | p in f.held :: Genuine(p))
  }

  function MaxPayload(tpl: Packet, cfg: Config): int {
    ClampSegmentPayload(|PayloadOf(tpl)|, tpl.meta.ipLen + tpl.meta.tcpLen, cfg.maxSegmentPayload)
  }

  /** The packets that replace the held ones: the split window, then the rest of the contiguous prefix,
    * as trimmed originals if everything arrived in order and as fresh chunks otherwise. */
  ghost function PlanFrom(f: Flow, window: nat, segs: seq<Bytes>, max: int): seq<Packet>
    requires Collected(f) && window <= f.buf.value.prefix
  {
    var tpl, b := f.template.value, f.buf.value;
    var remainder := b.Contig()[window..];
    var flags, quiet := tpl.meta.flags, WithoutPshFin(tpl.meta.flags);
    var ipid := Get16(tpl.data, 4);
    var next := (ipid + |segs|) % 0x1_0000;
    if remainder == [] then Run(tpl, f.base, segs, quiet, flags, ipid)
    else Run(tpl, f.base, segs, quiet, quiet, ipid)
         + if !b.outOfOrder && !b.overlap then Trimmed(f.held, f.base, window, next)
           else Run(tpl, Add32(f.base, window), Chunks(remainder, max), quiet, flags, next)
  }

  /** Nothing if the window cannot be split in two under the size limits. */
  ghost function Plan(f: Flow, window: nat, cfg: Config): Option<seq<Packet>>
    requires Collected(f) && window <= f.buf.value.prefix
  {
    var max := MaxPayload(f.template.value, cfg);
    var segs := SplitFirst(f.buf.value.Contig()[..window], cfg.splitChunk, max);
    if window < 1 || max < 1 || |segs| < 2 then None else Some(PlanFrom(f, window, segs, max))
  }

  // ---- decisions ----

  datatype Action =
    | Forward                                          // send the packet on, the flow is not concerned
    | CloseOut                                         // release what is held, send the packet, remove the flow
    | Overflow                                         // release what is held, then send the packet
    | Hold                                             // keep the packet and wait
    | HoldRelease(push: bool, remove: bool)            // keep it, then release everything
    | HoldInject(window: nat, plan: seq<Packet>)       // keep it, then send the plan instead of what is held

  predicate OverBudget(limit: int, used: int, need: int) {
    limit > 0 && used + need > limit
  }

  /** The flow as it is when the packet is about to be held. */
  function Candidate(flow: Option<Flow>, pkt: Packet, now: int, cfg: Config): Flow {
    match flow
    case Some(f) => f.(lastActive := now, template := Some(pkt))
    case None => Flow(Collecting, pkt.meta.seqNo, now, now, |PayloadOf(pkt)|, Some(pkt), [],
                      Some(R.NewBuf(pkt.meta.seqNo, cfg.maxBufferBytes % 0x1_0000_0000)), false)
  }

  /** Holding a packet: it joins the queue and its payload joins the reassembly buffer. */
  ghost function Joined(f: Flow, pkt: Packet): Flow
    requires f.buf.Some?
  {
    f.(held := f.held + [pkt], buf := Some(R.Push(f.buf.value, FragmentOf(pkt)).0))
  }

  ghost function DecideInject(g: Flow, window: nat, cfg: Config): Action
    requires Collected(g) && window <= g.buf.value.prefix
  {
    match Plan(g, window, cfg)
    case None => HoldRelease(true, false)
    case Some(plan) => HoldInject(window, plan)
  }

  /** Is there enough contiguous data to split? `c1` and `c2` are the configurations loaded on the way. */
  ghost function DecideSplit(g: Flow, mode: Mode, c1: Config, c2: Config): Action
    requires Collected(g)
  {
    var b := g.buf.value;
    match mode
    case Immediate => if g.firstLen == 0 || b.prefix < g.firstLen then Hold else DecideInject(g, g.firstLen, c2)
    case TlsHello =>
      (match Tls.DetectClientHelloRecord(b.Contig())
       case NeedMore => Hold
       case Mismatch => HoldRelease(true, false)
       case Match(n) =>
         if 5 + n > c1.maxBufferBytes then HoldRelease(true, false)
         else if b.prefix < 5 + n then Hold
         else DecideInject(g, 5 + n, c2))
    case OtherMode => Hold
  }

  ghost function DecideHeld(f: Flow, isNew: bool, reasm: int, pkt: Packet, now: int, c0: Config, c1: Config,
                            c2: Config): Action
    requires Collected(f) && Genuine(pkt)
  {
    if |f.held| + 1 >= c0.maxHeldPackets || now - f.collectStart > c0.collectTimeout then HoldRelease(false, false)
    else
      var g := Joined(f, pkt);
      JoinedCollected(f, pkt);
      var total := Clamp(reasm + (g.buf.value.TotalBytes() - f.buf.value.TotalBytes()));
      var syn, rst, fin := HasFlag(pkt.meta.flags, SYN), HasFlag(pkt.meta.flags, RST), HasFlag(pkt.meta.flags, FIN);
      if R.Push(f.buf.value, FragmentOf(pkt)).1 != R.Accepted || OverBudget(c0.maxReassemblyBytes, total, 0) then
        HoldRelease(true, false)
      else if syn then HoldRelease(true, isNew && rst)
      else if rst || fin then HoldRelease(true, true)
      else DecideSplit(g, c0.mode, c1, c2)
  }

  lemma JoinedCollected(f: Flow, pkt: Packet)
    requires Collected(f) && Genuine(pkt)
    ensures Collected(Joined(f, pkt))
  {
    R.PushKeepsWellFormed(f.buf.value, FragmentOf(pkt));
  }

  ghost function Decide(l: Local, count: nat, pkt: Packet, now: int, c0: Config, c1: Config, c2: Config): Action
    requires Genuine(pkt) && (l.flow.Some? && l.flow.value.phase == Collecting ==> Collected(l.flow.value))
  {
    var payload := PayloadOf(pkt);
    match l.flow
    case Some(f) =>
      if payload == [] && (HasFlag(pkt.meta.flags, RST) || HasFlag(pkt.meta.flags, FIN)) then CloseOut
      else if f.phase != Collecting || payload == [] then Forward
      else if OverBudget(c0.maxHeldBytes, l.held, |pkt.data|) then Overflow
      else DecideHeld(Candidate(l.flow, pkt, now, c0), false, l.reasm, pkt, now, c0, c1, c2)
    case None =>
      if || payload == []
         || (c0.maxFlows > 0 && count >= c0.maxFlows)
         || OverBudget(c0.maxHeldBytes, l.held, |pkt.data|)
         || OverBudget(c0.maxReassemblyBytes, l.reasm, |payload|)
      then Forward
      else DecideHeld(Candidate(None, pkt, now, c0), true, l.reasm, pkt, now, c0, c1, c2)
  }

  // ---- execution ----

  /** Append the packet to the held ones; its payload is not yet in the buffer. */
  function Append(l: Local, f: Flow, pkt: Packet): Local {
    l.(flow := Some(f.(held := f.held + [pkt])), held := l.held + |pkt.data|)
  }

  /** Append the packet and push its payload. */
  ghost function Admit(l: Local, f: Flow, pkt: Packet): Local
    requires f.buf.Some?
  {
    var g := Joined(f, pkt);
    l.(flow := Some(g), held := l.held + |pkt.data|,
       reasm := Clamp(l.reasm + (g.buf.value.TotalBytes() - f.buf.value.TotalBytes())))
  }

  /** Send the plan; if that fails fall back to the originals, otherwise drop them. */
  ghost function Inject(l: Local, k: Key, window: nat, plan: seq<Packet>, fate: Fate): (Local, bool)
    requires l.flow.Some? && l.flow.value.buf.Some? && l.flow.value.template.Some?
  {
    var f := l.flow.value;
    var (t, ok) := AttemptAll(l.trace, k, Send, plan, fate);
    if !ok then Release(l.(trace := t), k, fate)
    else
      var (u, dropped) := AttemptAll(t, k, Drop, f.held, fate);
      if !dropped then (l.(trace := u), false)
      else
        (Clear(l.(trace := u + [Split(k, window, f, plan)]), f, Injected), true)
  }

  ghost function ReleaseThen(l: Local, k: Key, remove: bool, fate: Fate): (Local, bool)
    requires l.flow.Some?
  {
    var (m, ok) := Release(l, k, fate);
    if ok && remove then (Remove(m, k), true) else (m, ok)
  }

  function Touched(l: Local, now: int): Local {
    if l.flow.Some? then l.(flow := Some(l.flow.value.(lastActive := now))) else l
  }

  ghost function Execute(l: Local, k: Key, pkt: Packet, now: int, c0: Config, action: Action, fate: Fate): (Local, bool)
    requires action.CloseOut? || action.Overflow? ==> l.flow.Some?
    requires action.Hold? || action.HoldRelease? || action.HoldInject? ==> Candidate(l.flow, pkt, now, c0).buf.Some?
  {
    var f := Candidate(l.flow, pkt, now, c0);
    match action
    case Forward => Forwarded(Touched(l, now), k, pkt, fate)
    case CloseOut =>
      var (m, ok) := if l.flow.value.phase == Collecting then Release(Touched(l, now), k, fate)
                      else (Touched(l, now), true);
      if !ok then (m, false)
      else
        var (n, sent) := Forwarded(m, k, pkt, fate);
        if sent then (Remove(n, k), true) else (n, false)
    case Overflow =>
      var (m, ok) := Release(l.(flow := Some(f)), k, fate);
      if ok then Forwarded(m, k, pkt, fate) else (m, false)
    case Hold => (Admit(l, f, pkt), true)
    case HoldRelease(push, remove) => ReleaseThen(if push then Admit(l, f, pkt) else Append(l, f, pkt), k, remove, fate)
    case HoldInject(window, plan) => Inject(Admit(l, f, pkt), k, window, plan, fate)
  }

  ghost predicate Ready(l: Local, pkt: Packet) {
    Genuine(pkt) && (l.flow.Some? && l.flow.value.phase == Collecting ==> Collected(l.flow.value))
  }

  // ---- what a decision implies ----

  /** A flow about to hold or overflow is new or collecting, and the packet carries payload. */
  lemma DecideHolds(l: Local, count: nat, pkt: Packet, now: int, c0: Config, c1: Config, c2: Config)
    requires Ready(l, pkt)
    ensures var a := Decide(l, count, pkt, now, c0, c1, c2);
            && (a.CloseOut? || a.Overflow? ==> l.flow.Some?)
            && (a.CloseOut? ==> PayloadOf(pkt) == [])
            && (a.Overflow? ==> l.flow.value.phase == Collecting && PayloadOf(pkt) != [])
            && (a.Forward? ==> PayloadOf(pkt) == [] || l.flow.None? || l.flow.value.phase != Collecting)
            && (a.Hold? || a.HoldRelease? || a.HoldInject? ==>
                  && PayloadOf(pkt) != []
                  && (l.flow.Some? ==> l.flow.value.phase == Collecting)
                  && !OverBudget(c0.maxHeldBytes, l.held, |pkt.data|)
                  && Collected(Candidate(l.flow, pkt, now, c0))
                  && Candidate(l.flow, pkt, now, c0).buf.Some?
                  && a == DecideHeld(Candidate(l.flow, pkt, now, c0), l.flow.None?, l.reasm, pkt, now, c0, c1, c2))
  {
    hide DecideHeld;
    DecideHeldIsHold(Candidate(l.flow, pkt, now, c0), l.flow.None?, l.reasm, pkt, now, c0, c1, c2);
  }

  lemma DecideHeldIsHold(f: Flow, isNew: bool, reasm: int, pkt: Packet, now: int, c0: Config, c1: Config, c2: Config)
    ensures Collected(f) && Genuine(pkt) ==>
            var a := DecideHeld(f, isNew, reasm, pkt, now, c0, c1, c2);
            a.Hold? || a.HoldRelease? || a.HoldInject?
  {
    hide Plan, Collected, Genuine;
  }

  ghost function Handle(l: Local, count: nat, k: Key, pkt: Packet, now: int, c0: Config, c1: Config, c2: Config,
                        fate: Fate): (Local, bool)
    requires Ready(l, pkt)
  {
    DecideHolds(l, count, pkt, now, c0, c1, c2);
    Execute(l, k, pkt, now, c0, Decide(l, count, pkt, now, c0, c1, c2), fate)
  }

  /** Remove an idle flow, releasing what it holds. */
  ghost function ReapFlow(l: Local, k: Key, now: int, idle: int, fate: Fate): (Local, bool) {
    if l.flow.None? || now - l.flow.value.lastActive <= idle then (l, true)
    else if l.flow.value.phase == Collecting && l.flow.value.held != [] then ReleaseThen(l, k, true, fate)
    else (Remove(l, k), true)
  }

  // ---- the whole table ----

  datatype World = World(flows: map<Key, Flow>, held: int, reasm: int, trace: Trace)

  const EMPTY: World := World(map[], 0, 0, [])

  /** One thing that happens to a worker. A garbage collection pass is a sequence of `Reap`. */
  datatype Input =
    | Deliver(pkt: Packet, now: int, c0: Config, c1: Config, c2: Config)
    | Touch(key: Key, now: int)
    | Reap(key: Key, now: int, idle: int)
  {
    function InputKey(): Key {
      if Deliver? then KeyOf(pkt.meta) else key
    }
  }

  function Load(w: World, k: Key): Local {
    Local(if k in w.flows then Some(w.flows[k]) else None, w.held, w.reasm, w.trace)
  }

  function Store(w: World, k: Key, l: Local): World {
    World(if l.flow.Some? then w.flows[k := l.flow.value] else w.flows - {k}, l.held, l.reasm, l.trace)
  }

  /** What is always true of a flow in the table, whatever failed. */
  ghost predicate FlowValid(k: Key, f: Flow) {
    && f.firstLen >= 1
    && (f.processed <==> f.phase == Injected)
    && (f.phase == Collecting ==>
          Collected(f) && f.held != [] && f.buf.value.base == f.base && KeyOf(f.template.value.meta) == k)
    && (f.phase != Collecting ==> f.held == [] && f.buf.None? && f.template.None?)
    && (forall p | p in f.held :: Belongs(k, p) && PayloadOf(p) != [])
  }

  /** A captured packet of this connection. */
  ghost predicate Belongs(k: Key, p: Packet) {
    Genuine(p) && p.source == Captured && KeyOf(p.meta) == k
  }

  ghost predicate Valid(w: World) {
    forall k | k in w.flows :: FlowValid(k, w.flows[k])
  }

  ghost predicate InputOk(i: Input) {
    i.Deliver? ==> Genuine(i.pkt) && i.pkt.source == Captured
  }

  ghost function LocalStep(l: Local, count: nat, i: Input, fate: Fate): (Local, bool)
    requires InputOk(i) && (l.flow.Some? ==> FlowValid(i.InputKey(), l.flow.value))
  {
    match i
    case Deliver(pkt, now, c0, c1, c2) => Handle(l, count, i.InputKey(), pkt, now, c0, c1, c2, fate)
    case Touch(k, now) => (Touched(l, now), true)
    case Reap(k, now, idle) => ReapFlow(l, k, now, idle, fate)
  }

  ghost function Step(w: World, i: Input, fate: Fate): (World, bool)
    requires Valid(w) && InputOk(i)
  {
    var (l, ok) := LocalStep(Load(w, i.InputKey()), |w.flows|, i, fate);
    (Store(w, i.InputKey(), l), ok)
  }
}
