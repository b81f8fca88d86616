/** The NFQUEUE adapter's shutdown: `Flush` against callbacks that are still running.

  Callbacks and `Flush` interleave at their atomic accesses: the `flushing` flag, the adapter's context,
  the counter of callbacks in flight, and the receive buffer. A callback is named by its place in the order
  in which callbacks began; the packet it brought has the same name.
 */
module NfqueueFlush {

  const CAPACITY := 1024

  /** What became of a callback's packet inside the callback. */
  datatype Outcome = Ignored | Accepted(ok: bool) | Queued

  /** Where a callback stands. It is counted as in flight until it is `Gone`. */
  datatype Pc =
    | Entered            // counted, nothing looked at yet
    | NotFlushing        // read the flag as false, the context comes next
    | Open               // read both as quiet: the packet goes to the buffer if there is room
    | Accepting          // the kernel will be told to accept
    | Finished(out: Outcome)
    | Gone(out: Outcome)

  /** `complete` says that the kernel's message had a payload and a packet id. */
  datatype Callback = Callback(complete: bool, pc: Pc)

  datatype FlushPc = NotStarted | FlagSet | Waiting | Draining(failed: bool) | ReturnedNil | ReturnedErr

  datatype State = State(flushing: bool, stopped: bool, inFlight: int, recvLive: bool, callbacks: seq<Callback>,
                         buffer: seq<nat>, handed: seq<nat>, drained: seq<nat>, refused: bool, flush: FlushPc)

  const START := State(false, false, 0, true, [], [], [], [], false, NotStarted)

  datatype Label =
    | Begin(complete: bool)          // the kernel calls back: count it
    | Advance(i: nat, ok: bool)      // a callback takes its next step; `ok` is the kernel's answer to an accept
    | Hand                           // the receive loop takes a packet
    | StopRecv                       // the receive loop returns
    | Cancel                         // the adapter's context ends
    | SetFlag | Stop | SeeQuiet | GiveUp
    | DrainOne(ok: bool) | DrainEnd

  predicate Room(s: State) {
    |s.buffer| < CAPACITY
  }

  /** The callback's next place. */
  function NextPc(s: State, c: Callback, ok: bool): Pc
    requires !c.pc.Gone?
  {
    match c.pc
    case Entered => if !c.complete then Finished(Ignored) else if s.flushing then Accepting else NotFlushing
    case NotFlushing => if s.stopped then Accepting else Open
    case Open => if Room(s) then Finished(Queued) else Accepting
    case Accepting => Finished(Accepted(ok))
    case Finished(out) => Gone(out)
  }

  predicate Enabled(s: State, l: Label) {
    match l
    case Begin(_) => true
    case Advance(i, _) => i < |s.callbacks| && !s.callbacks[i].pc.Gone?
    case Hand => s.recvLive && s.buffer != []
    case StopRecv => s.recvLive
    case Cancel => true
    case SetFlag => s.flush == NotStarted && !s.recvLive
    case Stop => s.flush == FlagSet
    case SeeQuiet => s.flush == Waiting && s.inFlight == 0
    case GiveUp => s.flush == Waiting
    case DrainOne(_) => s.flush.Draining? && s.buffer != []
    case DrainEnd => s.flush.Draining? && s.buffer == []
  }

  /** This step puts the packet of a callback into the buffer. */
  predicate Queues(s: State, l: Label)
    requires Enabled(s, l)
  {
    l.Advance? && s.callbacks[l.i].pc == Open && Room(s)
  }

  function Apply(s: State, l: Label): State
    requires Enabled(s, l)
  {
    match l
    case Begin(complete) => s.(callbacks := s.callbacks + [Callback(complete, Entered)], inFlight := s.inFlight + 1)
    case Advance(i, ok) =>
      var c := s.callbacks[i];
      var pc := NextPc(s, c, ok);
      s.(callbacks := s.callbacks[i := c.(pc := pc)], inFlight := s.inFlight - if pc.Gone? then 1 else 0,
         buffer := if Queues(s, l) then s.buffer + [i] else s.buffer)
    case Hand => s.(buffer := s.buffer[1..], handed := s.handed + [s.buffer[0]])
    case StopRecv => s.(recvLive := false)
    case Cancel => s.(stopped := true)
    case SetFlag => s.(flushing := true, flush := FlagSet)
    case Stop => s.(stopped := true, flush := Waiting)
    case SeeQuiet => s.(flush := Draining(false))
    case GiveUp => s.(flush := ReturnedErr)
    case DrainOne(ok) =>
      s.(buffer := s.buffer[1..], drained := s.drained + [s.buffer[0]], refused := s.refused || !ok,
         flush := Draining(s.flush.failed || !ok))
    case DrainEnd => s.(flush := if s.flush.failed then ReturnedErr else ReturnedNil)
  }

  /** From `s` the steps `ls` can be taken, and lead to `t`. */
  predicate Leads(s: State, ls: seq<Label>, t: State)
    decreases |ls|
  {
    if ls == [] then s == t else Enabled(s, ls[0]) && Leads(Apply(s, ls[0]), ls[1..], t)
  }

  // ---- what every step keeps ----

  function Active(cs: seq<Callback>): nat {
    if cs == [] then 0 else Active(cs[..|cs| - 1]) + if cs[|cs| - 1].pc.Gone? then 0 else 1
  }

  /** The packets that ever entered the buffer, in the order in which they did. */
  function Entrants(s: State): seq<nat> {
    s.handed + s.drained + s.buffer
  }

  predicate InBuffer(c: Callback) {
    c.pc == Finished(Queued) || c.pc == Gone(Queued)
  }

  /** Flush has seen no callback in flight after setting the flag. */
  predicate Quiet(s: State) {
    s.flush.Draining? || s.flush == ReturnedNil
  }

  /** A callback that may still put its packet into the buffer. */
  predicate MayOffer(c: Callback) {
    c.pc == NotFlushing || c.pc == Open
  }

  predicate Distinct(xs: seq<nat>) {
    forall i, j | 0 <= i < j < |xs| :: xs[i] != xs[j]
  }

  ghost predicate Ledger(s: State) {
    && Distinct(Entrants(s))
    && (forall i: nat :: i in Entrants(s) <==> i < |s.callbacks| && InBuffer(s.callbacks[i]))
  }

  predicate Honest(c: Callback) {
    && (MayOffer(c) || c.pc == Accepting || InBuffer(c) ==> c.complete)
    && ((c.pc.Finished? || c.pc.Gone?) ==> (c.pc.out == Ignored <==> !c.complete))
  }

  predicate Protocol(s: State) {
    && s.inFlight == Active(s.callbacks)
    && (s.flush != NotStarted ==> s.flushing && !s.recvLive)
    && (s.flush != NotStarted && s.flush != FlagSet ==> s.stopped)
    && (Quiet(s) ==> forall i | 0 <= i < |s.callbacks| :: !MayOffer(s.callbacks[i]))
    && (s.flush == ReturnedNil ==> s.buffer == [])
    && (s.flush == NotStarted || s.flush == FlagSet || s.flush == Waiting ==> s.drained == [] && !s.refused)
    && (s.flush == ReturnedNil || s.flush == Draining(false) ==> !s.refused)
    && |s.buffer| <= CAPACITY
  }

  ghost predicate Invariant(s: State) {
    Protocol(s) && Ledger(s) && forall i | 0 <= i < |s.callbacks| :: Honest(s.callbacks[i])
  }

  lemma {:induction false} ActiveMove(cs: seq<Callback>, i: nat, c: Callback)
    requires i < |cs|
    ensures Active(cs[i := c]) + (if cs[i].pc.Gone? then 0 else 1) == Active(cs) + if c.pc.Gone? then 0 else 1
  {
    var n := |cs| - 1;
    if i == n {
      assert cs[i := c][..n] == cs[..n];
    } else {
      assert cs[i := c][..n] == cs[..n][i := c];
      ActiveMove(cs[..n], i, c);
    }
  }

  lemma ActiveBegin(cs: seq<Callback>, c: Callback)
    ensures Active(cs + [c]) == Active(cs) + if c.pc.Gone? then 0 else 1
  {
    assert (cs + [c])[..|cs|] == cs;
  }

  /** A counter of zero is no accident: every callback that began is over. */
  lemma {:induction false} QuietMeansGone(cs: seq<Callback>, i: nat)
    requires Active(cs) == 0 && i < |cs|
    ensures cs[i].pc.Gone?
  {
    if i < |cs| - 1 {
      QuietMeansGone(cs[..|cs| - 1], i);
    }
  }

  lemma ProtocolKept(s: State, l: Label)
    requires Protocol(s) && Enabled(s, l)
    ensures Protocol(Apply(s, l))
  {
    hide Active;
    var t := Apply(s, l);
    match l
    case Begin(complete) => ActiveBegin(s.callbacks, Callback(complete, Entered));
    case Advance(i, _) => ActiveMove(s.callbacks, i, t.callbacks[i]);
    case SeeQuiet =>
      forall i | 0 <= i < |s.callbacks| ensures !MayOffer(s.callbacks[i]) {
        QuietMeansGone(s.callbacks, i);
      }
    case _ =>
  }

  /** The entrants change only when a callback puts its packet into the buffer. */
  lemma EntrantsKept(s: State, l: Label)
    requires Protocol(s) && Enabled(s, l)
    ensures Entrants(Apply(s, l)) ==
            Entrants(s) + if Queues(s, l) then [l.i] else []
  {
    hide Active;
    var t := Apply(s, l);
    if l.Hand? {
      assert s.drained == [] && s.buffer == [s.buffer[0]] + s.buffer[1..];
    } else if l.DrainOne? {
      assert s.buffer == [s.buffer[0]] + s.buffer[1..];
    }
  }

  lemma InBufferKept(s: State, l: Label, i: nat)
    requires Enabled(s, l) && i < |s.callbacks|
    ensures InBuffer(Apply(s, l).callbacks[i]) <==>
            InBuffer(s.callbacks[i]) || (Queues(s, l) && l.i == i)
  {
  }

  lemma OnlyBeginAdds(s: State, l: Label)
    requires Enabled(s, l)
    ensures |Apply(s, l).callbacks| == |s.callbacks| + if l.Begin? then 1 else 0
    ensures l.Begin? ==> !InBuffer(Apply(s, l).callbacks[|s.callbacks|])
    ensures Queues(s, l) ==> l.i < |s.callbacks| && !InBuffer(s.callbacks[l.i])
  {
  }

  /** A packet enters the ledger once, when its callback puts it into the buffer. */
  lemma LedgerKept(s: State, l: Label)
    requires Protocol(s) && Ledger(s) && Enabled(s, l)
    ensures Ledger(Apply(s, l))
  {
    hide Protocol, Enabled, Apply, Entrants, InBuffer;
    EntrantsKept(s, l);
    OnlyBeginAdds(s, l);
    forall i: nat | i < |s.callbacks|
      ensures InBuffer(Apply(s, l).callbacks[i]) <==> InBuffer(s.callbacks[i]) || (Queues(s, l) && l.i == i)
    {
      InBufferKept(s, l, i);
    }
  }

  lemma HonestKept(s: State, l: Label)
    requires (forall i | 0 <= i < |s.callbacks| :: Honest(s.callbacks[i])) && Enabled(s, l)
    ensures forall i | 0 <= i < |Apply(s, l).callbacks| :: Honest(Apply(s, l).callbacks[i])
  {
  }

  lemma {:induction false} InvariantHolds(s: State, ls: seq<Label>, t: State)
    requires Invariant(s) && Leads(s, ls, t)
    ensures Invariant(t)
    decreases |ls|
  {
    hide Protocol, Ledger, Honest, Enabled, Apply;
    if ls != [] {
      ProtocolKept(s, ls[0]);
      LedgerKept(s, ls[0]);
      HonestKept(s, ls[0]);
      InvariantHolds(Apply(s, ls[0]), ls[1..], t);
    }
  }

  lemma StartIsGood()
    ensures Invariant(START)
  {
  }

  // ---- what is promised ----

  /** Once Flush has returned nil it stays so. */
  lemma {:induction false} NilIsFinal(s: State, ls: seq<Label>, t: State)
    requires s.flush == ReturnedNil && Leads(s, ls, t)
    ensures t.flush == ReturnedNil
    decreases |ls|
  {
    if ls != [] {
      NilIsFinal(Apply(s, ls[0]), ls[1..], t);
    }
  }

  /** How many places of the ledger name callback `i`. */
  function Times(i: nat, xs: seq<nat>): nat {
    if xs == [] then 0 else Times(i, xs[1..]) + if xs[0] == i then 1 else 0
  }

  lemma {:induction false} DistinctOnce(i: nat, xs: seq<nat>)
    requires Distinct(xs)
    ensures Times(i, xs) == if i in xs then 1 else 0
  {
    if xs != [] {
      assert Distinct(xs[1..]) by {
        forall a, b | 0 <= a < b < |xs[1..]| ensures xs[1..][a] != xs[1..][b] {
          assert xs[a + 1] != xs[b + 1];
        }
      }
      DistinctOnce(i, xs[1..]);
      if xs[0] == i {
        assert i !in xs[1..] by {
          forall k | 0 <= k < |xs[1..]| ensures xs[1..][k] != i {
            assert xs[0] != xs[k + 1];
          }
        }
      } else {
        assert xs == [xs[0]] + xs[1..];
      }
    }
  }

  lemma {:induction false} TimesConcat(i: nat, xs: seq<nat>, ys: seq<nat>)
    ensures Times(i, xs + ys) == Times(i, xs) + Times(i, ys)
  {
    if xs == [] {
      assert xs + ys == ys;
    } else {
      assert (xs + ys)[1..] == xs[1..] + ys;
      TimesConcat(i, xs[1..], ys);
    }
  }

  function One(b: bool): nat {
    if b then 1 else 0
  }

  /** The flush protocol. In every interleaving, at and after any moment at which Flush has returned nil: the
    * buffer is empty, every accept that Flush asked for succeeded, and a packet with payload and id is counted
    * exactly once among handed to the receive loop, accepted by Flush, accepted inside its callback, and still
    * in a callback that can only accept it. */
  lemma FlushLeavesNothing(before: seq<Label>, s: State, after: seq<Label>, t: State, i: nat)
    requires Leads(START, before, s) && s.flush == ReturnedNil && Leads(s, after, t) && i < |t.callbacks|
    ensures t.buffer == [] && !t.refused
    ensures t.callbacks[i].complete ==>
              var pc := t.callbacks[i].pc;
              Times(i, t.handed) + Times(i, t.drained)
              + One((pc.Finished? || pc.Gone?) && pc.out.Accepted?) + One(pc == Entered || pc == Accepting) == 1
    ensures !t.callbacks[i].complete ==> i !in t.handed && i !in t.drained
  {
    hide Leads, Active, Times;
    StartIsGood();
    InvariantHolds(START, before, s);
    InvariantHolds(s, after, t);
    NilIsFinal(s, after, t);
    TimesConcat(i, t.handed, t.drained);
    assert Entrants(t) == t.handed + t.drained;
    DistinctOnce(i, Entrants(t));
    assert Honest(t.callbacks[i]) && !MayOffer(t.callbacks[i]);
    assert i in Entrants(t) <==> InBuffer(t.callbacks[i]);
  }

  /** First in, first out, whoever takes the packets: what was handed over and then what was drained are the
    * packets in the order in which they entered the buffer. */
  lemma {:induction false} BufferIsFifo(s: State, ls: seq<Label>, t: State)
    requires Invariant(s) && Leads(s, ls, t)
    ensures Entrants(s) <= Entrants(t)
    decreases |ls|
  {
    hide Protocol, Ledger, Honest, Entrants, Apply, Enabled, Queues;
    if ls != [] {
      EntrantsKept(s, ls[0]);
      InvariantHolds(s, [ls[0]], Apply(s, ls[0]));
      BufferIsFifo(Apply(s, ls[0]), ls[1..], t);
    }
  }

  /** The drain ends: from the moment Flush drains, the buffer can only shrink. */
  lemma DrainOnlyShrinks(before: seq<Label>, s: State, l: Label)
    requires Leads(START, before, s) && s.flush.Draining? && Enabled(s, l)
    ensures |Apply(s, l).buffer| <= |s.buffer|
    ensures l.DrainOne? ==> |Apply(s, l).buffer| < |s.buffer|
  {
    hide Leads, Active, Ledger;
    StartIsGood();
    InvariantHolds(START, before, s);
  }

  // ---- while nothing shuts down ----

  /** In none of the states from `s` on does the buffer hold 1024 packets. */
  predicate NeverFull(s: State, ls: seq<Label>)
    decreases |ls|
  {
    |s.buffer| < 1024 && (ls == [] || (Enabled(s, ls[0]) && NeverFull(Apply(s, ls[0]), ls[1..])))
  }

  /** No callback has accepted its packet or is about to. */
  predicate NoneAccepted(s: State) {
    forall i | 0 <= i < |s.callbacks| ::
      s.callbacks[i].pc != Accepting
      && (s.callbacks[i].pc.Finished? || s.callbacks[i].pc.Gone? ==> !s.callbacks[i].pc.out.Accepted?)
  }

  lemma StepAcceptsNone(s: State, l: Label)
    requires Enabled(s, l) && NoneAccepted(s) && |s.buffer| < 1024
    requires !Apply(s, l).flushing && !Apply(s, l).stopped
    ensures NoneAccepted(Apply(s, l)) && !s.flushing && !s.stopped
  {
  }

  lemma {:induction false} FlagsStay(s: State, ls: seq<Label>, t: State)
    requires Leads(s, ls, t)
    ensures (s.flushing ==> t.flushing) && (s.stopped ==> t.stopped)
    decreases |ls|
  {
    if ls != [] {
      FlagsStay(Apply(s, ls[0]), ls[1..], t);
    }
  }

  lemma {:induction false} RunAcceptsNone(s: State, ls: seq<Label>, t: State)
    requires Leads(s, ls, t) && NeverFull(s, ls) && NoneAccepted(s) && !t.flushing && !t.stopped
    ensures NoneAccepted(t)
    decreases |ls|
  {
    hide NoneAccepted, Enabled, Apply;
    if ls != [] {
      FlagsStay(Apply(s, ls[0]), ls[1..], t);
      StepAcceptsNone(s, ls[0]);
      RunAcceptsNone(Apply(s, ls[0]), ls[1..], t);
    }
  }

  /** As long as neither Flush nor the end of the context has begun, and the buffer never held 1024 packets, no packet
    * goes
    * past the engine: each complete packet whose callback is over is exactly once in the buffer or with the receive
    * loop. */
  lemma OpenMeansQueued(ls: seq<Label>, t: State, i: nat)
    requires Leads(START, ls, t) && NeverFull(START, ls) && !t.flushing && !t.stopped
    requires i < |t.callbacks| && t.callbacks[i].complete && t.callbacks[i].pc.Gone?
    ensures Times(i, t.handed + t.buffer) == 1 && t.drained == []
  {
    hide Leads, NeverFull, Times, Active;
    StartIsGood();
    InvariantHolds(START, ls, t);
    RunAcceptsNone(START, ls, t);
    assert Honest(t.callbacks[i]) && InBuffer(t.callbacks[i]);
    assert Entrants(t) == t.handed + t.buffer;
    DistinctOnce(i, Entrants(t));
  }
}
