/** Starting and stopping the engine: the receive loop, the workers and `Run`, interleaved.

  Each thread advances at its atomic actions: reads of the context, channel operations and adapter calls. The
  context ends once, by cancellation or by a deadline. A blocking `select` takes any of its ready cases.
 */
module EngineProtocol {
  import opened Wire
  import opened FlowMachine
  import opened Sharding

  /** Errors are sets of causes, so that joining is union; the empty set is no error. */
  datatype Fault = Canceled | Deadline | Limit | Other
  type Error = set<Fault>

  /** What the receive loop did with a packet it had to enqueue. */
  datatype Routing = Enqueued | PassedOn | Lost

  datatype RecvPc =
    | Receiving
    | Holding(pkt: Packet)      // to be enqueued, context not yet looked at
    | Offering(pkt: Packet)     // context looked at: waiting for room in the queue, or for the context
    | Refused(pkt: Packet)      // not enqueued
    | RecvDone(error: Error)

  datatype WorkerPc =
    | Idle
    | Busy                                       // handling a packet, or collecting garbage
    | Leaving(error: Error)                      // the run loop returned
    | Draining(error: Error, failed: bool)       // the shutdown drain
    | Drained(error: Error, clean: bool)         // it returned, with nil if clean
    | Finished(clean: bool)

  datatype MainPc = Selecting | AwaitingRecv | Closing(next: nat) | Joining | Flushing | Flushed(flush: Error)
    | Returned(flush: Error, result: Error)

  /** Calls on the adapter, in order. */
  datatype Call = RecvSend | WorkerSend(worker: nat) | FlushCall | CloseCall

  datatype State = State(context: Option<Fault>, recv: RecvPc, workers: seq<WorkerPc>, main: MainPc,
                         capacity: nat, queues: seq<seq<Packet>>, taken: seq<seq<Packet>>,
                         closed: seq<bool>, panicked: bool,
                         error: Error, slot: Option<Error>, reported: bool,
                         got: seq<Packet>, routed: seq<(Packet, Routing)>, late: seq<(nat, Packet)>, missed: set<nat>,
                         calls: seq<Call>)

  function Start(n: nat, capacity: nat): State
    requires n > 0
  {
    State(None, Receiving, seq(n, _ => Idle), Selecting, capacity, seq(n, _ => []), seq(n, _ => []),
          seq(n, _ => false), false, {}, None, false, [], [], [], {}, [])
  }

  datatype RecvStep =
    | Receive(pkt: Packet, ok: bool)       // a packet arrives; `ok` answers its send, if it is sent on at once
    | Stop(why: Error)                     // the adapter reports an error
    | Look | Put | Withdraw | PutBack(ok: bool)

  datatype WorkerStep =
    | Take | Tick | Emit | Rest | Leave(why: Error)
    | StartDrain | DrainOne(ok: bool) | DrainHeld(ok: bool) | EndDrain(why: Error) | Report

  datatype MainStep = WorkerFailed | RecvReturned | CloseNext | Join | Flush(why: Error) | CloseAdapter

  /** One atomic action: the caller's context ends, or a thread takes its next step. */
  datatype Label = Expire(cause: Fault) | RecvStep(r: RecvStep) | WorkerStep(i: nat, w: WorkerStep)
    | MainStep(m: MainStep)

  // ---- steps of the context ----

  function Cancel(c: Option<Fault>): Option<Fault> {
    if c.None? then Some(Canceled) else c
  }

  predicate IsFault(e: Error) {
    e != {} && Canceled !in e
  }

  /** Errors that come from a call under the engine's context are cancellations only once it is cancelled. */
  predicate Plausible(s: State, e: Error) {
    e != {} && (Canceled in e ==> s.context == Some(Canceled))
  }

  // ---- the receive loop ----

  datatype Route = SendOn | TouchAndSendOn | ToWorker

  /** Only TCP packets to port 443 matter: those with payload, FIN or RST go to a worker, bare acknowledgements
    * merely keep their flow alive. */
  function RouteOf(p: Packet): Route {
    if Decode(p.data).Undecodable? || p.meta.dstPort != 443 then SendOn
    else if PayloadOf(p) != [] || HasFlag(p.meta.flags, FIN) || HasFlag(p.meta.flags, RST) then ToWorker
    else TouchAndSendOn
  }

  /** What the adapter's receive call delivers: a captured packet, with its meta data once it is decoded. */
  predicate FromCapture(p: Packet) {
    p.source == Captured && |p.data| <= 0xffff && (Decode(p.data).Decoded? ==> Decode(p.data) == Decoded(p.meta))
  }

  function Target(s: State, p: Packet): nat
    requires |s.workers| > 0
  {
    Home(KeyOf(p.meta), |s.workers|)
  }

  /** No one will take from this worker's queue any more. */
  predicate DrainEnded(w: WorkerPc) {
    w.Drained? || w.Finished?
  }

  predicate RecvEnabled(s: State, l: RecvStep)
    requires Shape(s)
  {
    match l
    case Receive(p, _) => s.recv == Receiving && FromCapture(p)
    case Stop(why) => s.recv == Receiving && Plausible(s, why)
    case Look => s.recv.Holding?
    case Put => s.recv.Offering? && (|s.queues[Target(s, s.recv.pkt)]| < s.capacity || s.closed[Target(s, s.recv.pkt)])
    case Withdraw => s.recv.Offering? && s.context.Some?
    case PutBack(_) => s.recv.Refused?
  }

  function RecvApply(s: State, l: RecvStep): (t: State)
    requires Shape(s) && RecvEnabled(s, l)
    ensures Shape(t) && |t.workers| == |s.workers|
  {
    match l
    case Receive(p, ok) =>
      var t := s.(got := s.got + [p]);
      if RouteOf(p) == ToWorker then t.(recv := Holding(p))
      else
        t.(recv := if ok then Receiving else RecvDone({Other}), calls := s.calls + [RecvSend],
           routed := s.routed + [(p, if ok then PassedOn else Lost)],
           panicked := s.panicked || (RouteOf(p) == TouchAndSendOn && s.closed[Target(s, p)]))
    case Stop(why) => s.(recv := RecvDone(why))
    case Look => s.(recv := if s.context.Some? then Refused(s.recv.pkt) else Offering(s.recv.pkt))
    case Put =>
      var p, i := s.recv.pkt, Target(s, s.recv.pkt);
      s.(recv := Receiving, queues := s.queues[i := s.queues[i] + [p]], routed := s.routed + [(p, Enqueued)],
         late := if s.context.Some? then s.late + [(i, p)] else s.late,
         missed := if DrainEnded(s.workers[i]) then s.missed + {i} else s.missed, panicked := s.panicked || s.closed[i])
    case Withdraw => s.(recv := Refused(s.recv.pkt))
    case PutBack(ok) =>
      if s.context == Some(Canceled) then
        s.(recv := if ok then Receiving else RecvDone({Other}),
           routed := s.routed + [(s.recv.pkt, if ok then PassedOn else Lost)],
           calls := s.calls + [RecvSend])
      else s.(recv := RecvDone({Deadline}), routed := s.routed + [(s.recv.pkt, Lost)])
  }

  // ---- workers ----

  predicate WorkerEnabled(s: State, l: WorkerStep, i: nat)
    requires Shape(s)
  {
    i < |s.workers| &&
    match l
    case Take => s.workers[i] == Idle && s.queues[i] != []
    case Tick => s.workers[i] == Idle
    case Emit => s.workers[i] == Busy
    case Rest => s.workers[i] == Busy
    case Leave(why) =>
      if s.workers[i] == Busy then Plausible(s, why)
      else s.workers[i] == Idle && if why == {} then s.closed[i] && s.queues[i] == []
                                   else s.context.Some? && why == {s.context.value}
    case StartDrain => s.workers[i].Leaving?
    case DrainOne(_) => s.workers[i].Draining? && s.queues[i] != []
    case DrainHeld(_) => s.workers[i].Draining?
    case EndDrain(why) =>
      s.workers[i].Draining? && Canceled !in why && (why == {} ==> !s.workers[i].failed && s.queues[i] == [])
    case Report => s.workers[i].Drained?
  }

  /** The worker's error after its drain: hitting the guard rails is not held against an orderly stop. */
  function AfterDrain(err: Error, flushErr: Error): Error {
    var e := if Canceled in err && (Deadline in flushErr || Limit in flushErr) then {} else flushErr;
    if e == {} then err else if err == {} || Canceled in err then e else err + e
  }

  /** The drain's error was not excused, so that the engine is cancelled. */
  predicate Counts(err: Error, flushErr: Error) {
    flushErr != {} && !(Canceled in err && (Deadline in flushErr || Limit in flushErr))
  }

  function Go(s: State, i: nat, pc: WorkerPc): State
    requires i < |s.workers|
  {
    s.(workers := s.workers[i := pc])
  }

  function WorkerApply(s: State, l: WorkerStep, i: nat): (t: State)
    requires Shape(s) && WorkerEnabled(s, l, i)
    ensures Shape(t) && |t.workers| == |s.workers|
  {
    match l
    case Take =>
      Go(s, i, Busy).(queues := s.queues[i := s.queues[i][1..]],
                      taken := s.taken[i := s.taken[i] + [s.queues[i][0]]])
    case Tick => Go(s, i, Busy)
    case Emit => s.(calls := s.calls + [WorkerSend(i)])
    case Rest => Go(s, i, Idle)
    case Leave(why) => Go(s, i, Leaving(why))
    case StartDrain =>
      var e := s.workers[i].error;
      Go(s, i, Draining(e, false)).(context := if IsFault(e) then Cancel(s.context) else s.context)
    case DrainOne(ok) =>
      Go(s, i, Draining(s.workers[i].error, s.workers[i].failed || !ok))
      .(queues := s.queues[i := s.queues[i][1..]], taken := s.taken[i := s.taken[i] + [s.queues[i][0]]],
        calls := s.calls + [WorkerSend(i)])
    case DrainHeld(ok) =>
      Go(s, i, Draining(s.workers[i].error, s.workers[i].failed || !ok)).(calls := s.calls + [WorkerSend(i)])
    case EndDrain(why) =>
      var e := s.workers[i].error;
      Go(s, i, Drained(AfterDrain(e, why), why == {}))
      .(context := if Counts(e, why) then Cancel(s.context) else s.context)
    case Report =>
      var e := s.workers[i].error;
      var t := Go(s, i, Finished(s.workers[i].clean));
      if IsFault(e) then t.(reported := true, slot := if s.slot.None? then Some(e) else s.slot) else t
  }

  // ---- Run ----

  predicate MainEnabled(s: State, l: MainStep)
    requires Shape(s)
  {
    match l
    case WorkerFailed => s.main == Selecting && s.slot.Some?
    case RecvReturned => (s.main == Selecting || s.main == AwaitingRecv) && s.recv.RecvDone?
    case CloseNext => s.main.Closing?
    case Join => s.main == Joining && forall i | 0 <= i < |s.workers| :: s.workers[i].Finished?
    case Flush(why) => s.main == Flushing && Canceled !in why
    case CloseAdapter => s.main.Flushed?
  }

  /** What Run reports: its first error, the adapter's flush error, and a worker's error left in the slot. */
  function Result(err: Error, flushErr: Error, slot: Option<Error>): Error {
    var f := if Canceled in err && Deadline in flushErr then {} else flushErr;
    var e := if f == {} then err else if err == {} || Canceled in err then f else err + f;
    var w := if Canceled in e && slot.Some? then slot.value else e;
    if Canceled in w then {} else w
  }

  function MainApply(s: State, l: MainStep): (t: State)
    requires Shape(s) && MainEnabled(s, l)
    ensures Shape(t) && |t.workers| == |s.workers|
  {
    match l
    case WorkerFailed => s.(main := AwaitingRecv, error := s.slot.value, slot := None, context := Cancel(s.context))
    case RecvReturned =>
      s.(main := Closing(0), error := if s.main == Selecting then s.recv.error else s.error,
         context := Cancel(s.context))
    case CloseNext =>
      if s.main.next < |s.workers| then
        s.(main := Closing(s.main.next + 1), closed := s.closed[s.main.next := true],
           panicked := s.panicked || s.closed[s.main.next])
      else s.(main := Joining)
    case Join => s.(main := Flushing)
    case Flush(why) => s.(main := Flushed(why), calls := s.calls + [FlushCall])
    case CloseAdapter =>
      s.(main := Returned(s.main.flush, Result(s.error, s.main.flush, s.slot)), calls := s.calls + [CloseCall])
  }

  // ---- the whole engine ----

  predicate Shape(s: State) {
    |s.workers| == |s.queues| == |s.taken| == |s.closed| && |s.workers| > 0
      && (s.main.Closing? ==> s.main.next <= |s.workers|)
  }

  predicate Enabled(s: State, l: Label)
    requires Shape(s)
  {
    match l
    case Expire(cause) => cause == Canceled || cause == Deadline
    case RecvStep(r) => RecvEnabled(s, r)
    case WorkerStep(i, w) => WorkerEnabled(s, w, i)
    case MainStep(m) => MainEnabled(s, m)
  }

  function Apply(s: State, l: Label): (t: State)
    requires Shape(s) && Enabled(s, l)
    ensures Shape(t) && |t.workers| == |s.workers|
  {
    match l
    case Expire(cause) => s.(context := if s.context.None? then Some(cause) else s.context)
    case RecvStep(r) => RecvApply(s, r)
    case WorkerStep(i, w) => WorkerApply(s, w, i)
    case MainStep(m) => MainApply(s, m)
  }

  /** From `s` the steps `ls` can be taken, and lead to `t`. */
  predicate Leads(s: State, ls: seq<Label>, t: State)
    requires Shape(s)
    decreases |ls|
  {
    if ls == [] then s == t
    else Enabled(s, ls[0]) && Leads(Apply(s, ls[0]), ls[1..], t)
  }

  // ---- channels are closed late ----

  /** How far Run has come. */
  function Stage(m: MainPc): nat {
    match m
    case Selecting => 0
    case AwaitingRecv => 1
    case Closing(_) => 2
    case Joining => 3
    case Flushing => 4
    case Flushed(_) => 5
    case Returned(_, _) => 6
  }

  predicate ClosingKeptApart(s: State)
    requires Shape(s)
  {
    && (forall i | 0 <= i < |s.closed| ::
          s.closed[i] <==> if s.main.Closing? then i < s.main.next else Stage(s.main) >= 3)
    && (Stage(s.main) >= 2 ==> s.recv.RecvDone?)
    && (Stage(s.main) >= 1 ==> s.context.Some?)
    && (Stage(s.main) >= 4 ==> forall i | 0 <= i < |s.workers| :: s.workers[i].Finished?)
    && !s.panicked
  }

  lemma RecvLeavesChannels(s: State, r: RecvStep)
    requires Shape(s) && ClosingKeptApart(s) && RecvEnabled(s, r)
    ensures ClosingKeptApart(RecvApply(s, r))
  {
    hide Home, RouteOf, FromCapture;
  }

  lemma WorkerLeavesChannels(s: State, w: WorkerStep, i: nat)
    requires Shape(s) && ClosingKeptApart(s) && WorkerEnabled(s, w, i)
    ensures ClosingKeptApart(WorkerApply(s, w, i))
  {
    hide AfterDrain, IsFault, Counts;
  }

  lemma MainClosesInTurn(s: State, m: MainStep)
    requires Shape(s) && ClosingKeptApart(s) && MainEnabled(s, m)
    ensures ClosingKeptApart(MainApply(s, m))
  {
    hide Result;
  }

  // ---- packets that enter a queue late ----

  /** A worker drains, or has drained, only once the context is over. */
  predicate DrainsLate(s: State) {
    forall i | 0 <= i < |s.workers| ::
      && (s.workers[i].Draining? || s.workers[i].Drained? || s.workers[i].Finished? ==> s.context.Some?)
      && (s.workers[i].Leaving? ==> s.context.Some? || IsFault(s.workers[i].error))
  }

  /** At most one packet enters a queue after the end of the context: the one that was already being offered. */
  predicate AtMostOneLate(s: State) {
    && (s.context.None? ==> s.late == [])
    && (s.late != [] ==> !s.recv.Offering?)
    && |s.late| <= 1
  }

  predicate Clean(w: WorkerPc) {
    DrainEnded(w) && w.clean
  }

  /** A queue that was drained cleanly is empty, unless the late packet came after that. */
  predicate CleanMeansEmpty(s: State)
    requires Shape(s)
  {
    && (forall i | i in s.missed :: i < |s.workers| && DrainEnded(s.workers[i]) && |s.late| == 1 && s.late[0].0 == i)
    && (forall i | 0 <= i < |s.workers| && Clean(s.workers[i]) ::
          if i in s.missed then |s.queues[i]| == 1 && s.late == [(i, s.queues[i][0])] else s.queues[i] == [])
  }

  lemma RecvDrainsLate(s: State, r: RecvStep)
    requires Shape(s) && DrainsLate(s) && AtMostOneLate(s) && RecvEnabled(s, r)
    ensures var t := RecvApply(s, r); DrainsLate(t) && AtMostOneLate(t)
  {
    hide Home, IsFault, RouteOf, FromCapture, DrainEnded, Plausible;
  }

  lemma RecvKeepsClean(s: State, r: RecvStep)
    requires Shape(s) && DrainsLate(s) && AtMostOneLate(s) && CleanMeansEmpty(s) && RecvEnabled(s, r)
    ensures CleanMeansEmpty(RecvApply(s, r))
  {
    hide Home, IsFault, RouteOf, FromCapture, Plausible, DrainsLate, AtMostOneLate;
    if r.Put? {
      PutKeepsClean(s);
    }
  }

  lemma PutKeepsClean(s: State)
    requires Shape(s) && DrainsLate(s) && AtMostOneLate(s) && CleanMeansEmpty(s) && RecvEnabled(s, Put)
    ensures CleanMeansEmpty(RecvApply(s, Put))
  {
    hide Home, IsFault, RouteOf, FromCapture, Plausible;
  }

  lemma WorkerDrainsLate(s: State, w: WorkerStep, i: nat)
    requires Shape(s) && ClosingKeptApart(s) && DrainsLate(s) && AtMostOneLate(s) && WorkerEnabled(s, w, i)
    ensures var t := WorkerApply(s, w, i); DrainsLate(t) && AtMostOneLate(t)
  {
    hide AfterDrain, Counts;
  }

  lemma WorkerKeepsClean(s: State, w: WorkerStep, i: nat)
    requires Shape(s) && CleanMeansEmpty(s) && WorkerEnabled(s, w, i)
    ensures CleanMeansEmpty(WorkerApply(s, w, i))
  {
    hide AfterDrain, Counts, IsFault, Plausible, Cancel;
  }

  lemma MainDrainsLate(s: State, m: MainStep)
    requires Shape(s) && DrainsLate(s) && AtMostOneLate(s) && CleanMeansEmpty(s) && MainEnabled(s, m)
    ensures var t := MainApply(s, m); DrainsLate(t) && AtMostOneLate(t) && CleanMeansEmpty(t)
  {
    hide Result, IsFault;
  }

  // ---- where every packet goes ----

  /** The packets enqueued for worker `i`, in the order of capture. */
  function Entered(routed: seq<(Packet, Routing)>, i: nat, workers: nat): seq<Packet>
    requires workers > 0
  {
    if routed == [] then []
    else
      var (p, r) := routed[|routed| - 1];
      Entered(routed[..|routed| - 1], i, workers)
      + if r == Enqueued && Home(KeyOf(p.meta), workers) == i then [p] else []
  }

  function Packets(routed: seq<(Packet, Routing)>): seq<Packet> {
    seq(|routed|, i requires 0 <= i < |routed| => routed[i].0)
  }

  function InHand(r: RecvPc): seq<Packet> {
    if r.Holding? || r.Offering? || r.Refused? then [r.pkt] else []
  }

  /** Every queue is first in, first out, and holds only connections that belong to its worker. */
  predicate QueuesInOrder(s: State)
    requires Shape(s)
  {
    forall i | 0 <= i < |s.workers| :: s.taken[i] + s.queues[i] == Entered(s.routed, i, |s.workers|)
  }

  /** Every packet is dealt with, one after the other; one is lost only where the loop ends with a failure. */
  predicate AllDealtWith(s: State) {
    && s.got == Packets(s.routed) + InHand(s.recv)
    && (forall i | 0 <= i < |s.got| :: FromCapture(s.got[i]))
    && Sorted(s) && LossIsFailure(s)
  }

  predicate Sorted(s: State) {
    && (InHand(s.recv) != [] ==> RouteOf(s.recv.pkt) == ToWorker)
    && (forall i | 0 <= i < |s.routed| :: s.routed[i].1 == Enqueued ==> RouteOf(s.routed[i].0) == ToWorker)
    && (forall i | 0 <= i < |s.routed| ::
          s.routed[i].1 == PassedOn && RouteOf(s.routed[i].0) == ToWorker ==> s.context == Some(Canceled))
  }

  predicate LossIsFailure(s: State) {
    && (s.recv.RecvDone? ==> s.recv.error != {})
    && (!s.recv.RecvDone? || Canceled in s.recv.error ==> forall i | 0 <= i < |s.routed| :: s.routed[i].1 != Lost)
  }

  lemma EnteredNext(routed: seq<(Packet, Routing)>, x: (Packet, Routing), i: nat, workers: nat)
    requires workers > 0
    ensures Entered(routed + [x], i, workers) ==
            Entered(routed, i, workers) + if x.1 == Enqueued && Home(KeyOf(x.0.meta), workers) == i then [x.0] else []
  {
    assert (routed + [x])[..|routed|] == routed;
  }

  lemma RecvKeepsOrder(s: State, r: RecvStep)
    requires Shape(s) && QueuesInOrder(s) && RecvEnabled(s, r)
    ensures QueuesInOrder(RecvApply(s, r))
  {
    hide Home, Entered, KeyOf, RouteOf, FromCapture;
    var t := RecvApply(s, r);
    forall i | 0 <= i < |s.workers| ensures t.taken[i] + t.queues[i] == Entered(t.routed, i, |s.workers|) {
      if t.routed != s.routed {
        assert t.routed == s.routed + [t.routed[|s.routed|]];
        EnteredNext(s.routed, t.routed[|s.routed|], i, |s.workers|);
      }
    }
  }

  lemma WorkerKeepsOrder(s: State, w: WorkerStep, i: nat)
    requires Shape(s) && QueuesInOrder(s) && WorkerEnabled(s, w, i)
    ensures QueuesInOrder(WorkerApply(s, w, i))
  {
    hide AfterDrain, Counts, Entered, IsFault;
    if w.Take? || w.DrainOne? {
      assert s.queues[i] == [s.queues[i][0]] + s.queues[i][1..];
    }
  }

  lemma RecvSorts(s: State, r: RecvStep)
    requires Shape(s) && Sorted(s) && RecvEnabled(s, r)
    ensures Sorted(RecvApply(s, r))
  {
    hide Home, RouteOf, FromCapture, Plausible, DrainEnded;
  }

  lemma RecvLosesByFailure(s: State, r: RecvStep)
    requires Shape(s) && LossIsFailure(s) && RecvEnabled(s, r)
    ensures LossIsFailure(RecvApply(s, r))
  {
    hide Home, RouteOf, FromCapture, DrainEnded;
  }

  lemma RecvDealsWith(s: State, r: RecvStep)
    requires Shape(s) && AllDealtWith(s) && RecvEnabled(s, r)
    ensures AllDealtWith(RecvApply(s, r))
  {
    hide Home, RouteOf, FromCapture, Sorted, LossIsFailure, Plausible, DrainEnded;
    RecvSorts(s, r);
    RecvLosesByFailure(s, r);
    var t := RecvApply(s, r);
    if t.routed != s.routed {
      assert t.routed == s.routed + [t.routed[|s.routed|]];
      assert Packets(t.routed) == Packets(s.routed) + [t.routed[|s.routed|].0];
    }
  }

  // ---- the order of the calls on the adapter ----

  /** Sends first, then one flush, then the close. */
  predicate CallsInOrder(s: State) {
    var flushed, closed := Stage(s.main) >= 5, Stage(s.main) == 6;
    var sends := |s.calls| - (if flushed then 1 else 0) - (if closed then 1 else 0);
    && 0 <= sends
    && (forall i | 0 <= i < sends :: s.calls[i].RecvSend? || s.calls[i].WorkerSend?)
    && (flushed ==> s.calls[sends] == FlushCall)
    && (closed ==> s.calls[sends + 1] == CloseCall)
  }

  lemma RecvCallsInOrder(s: State, r: RecvStep)
    requires Shape(s) && ClosingKeptApart(s) && CallsInOrder(s) && RecvEnabled(s, r)
    ensures CallsInOrder(RecvApply(s, r))
  {
    hide Home, RouteOf, FromCapture;
  }

  lemma WorkerCallsInOrder(s: State, w: WorkerStep, i: nat)
    requires Shape(s) && ClosingKeptApart(s) && CallsInOrder(s) && WorkerEnabled(s, w, i)
    ensures CallsInOrder(WorkerApply(s, w, i))
  {
    hide AfterDrain, Counts, IsFault;
  }

  lemma MainCallsInOrder(s: State, m: MainStep)
    requires Shape(s) && CallsInOrder(s) && MainEnabled(s, m)
    ensures CallsInOrder(MainApply(s, m))
  {
    hide Result;
  }

  // ---- what Run reports ----

  predicate ErrorsAreKept(s: State) {
    && (s.slot.Some? ==> IsFault(s.slot.value))
    && (s.reported ==> s.slot.Some? || IsFault(s.error))
    && (s.slot.Some? ==> s.reported)
    && (Stage(s.main) == 0 ==> s.error == {})
    && (s.main == AwaitingRecv ==> IsFault(s.error) && s.reported)
    && (Stage(s.main) >= 2 ==> s.recv.RecvDone? && (s.error == s.recv.error || (s.reported && IsFault(s.error))))
    && (s.recv.RecvDone? ==> s.recv.error != {})
    && (Stage(s.main) >= 4 ==> forall i | 0 <= i < |s.workers| :: s.workers[i].Finished?)
    && (s.main.Flushed? ==> Canceled !in s.main.flush)
    && (s.main.Returned? ==> Canceled !in s.main.flush && s.main.result == Result(s.error, s.main.flush, s.slot))
  }

  /** The receive loop leaves errors and threads alone, and takes no step once it has returned. */
  lemma RecvLeavesOthers(s: State, r: RecvStep)
    requires Shape(s) && RecvEnabled(s, r)
    ensures var t := RecvApply(s, r);
            && t.main == s.main && t.error == s.error && t.slot == s.slot && t.reported == s.reported
            && t.workers == s.workers && !s.recv.RecvDone? && (t.recv.RecvDone? ==> t.recv.error != {})
  {
    hide Home, RouteOf, FromCapture, DrainEnded;
  }

  lemma RecvKeepsErrors(s: State, r: RecvStep)
    requires Shape(s) && ErrorsAreKept(s) && RecvEnabled(s, r)
    ensures ErrorsAreKept(RecvApply(s, r))
  {
    hide RecvApply, RecvEnabled, Result, IsFault;
    RecvLeavesOthers(s, r);
  }

  lemma WorkerKeepsErrors(s: State, w: WorkerStep, i: nat)
    requires Shape(s) && ErrorsAreKept(s) && WorkerEnabled(s, w, i)
    ensures ErrorsAreKept(WorkerApply(s, w, i))
  {
    hide AfterDrain, Counts, Result;
  }

  lemma MainKeepsErrors(s: State, m: MainStep)
    requires Shape(s) && ErrorsAreKept(s) && MainEnabled(s, m)
    ensures ErrorsAreKept(MainApply(s, m))
  {
    hide Result;
  }

  // ---- all of it, over every run ----

  predicate Invariant(s: State)
    requires Shape(s)
  {
    && ClosingKeptApart(s)
    && DrainsLate(s) && AtMostOneLate(s) && CleanMeansEmpty(s)
    && QueuesInOrder(s) && AllDealtWith(s)
    && CallsInOrder(s)
    && ErrorsAreKept(s)
  }

  lemma RecvKeepsInvariant(s: State, r: RecvStep)
    requires Shape(s) && Invariant(s) && RecvEnabled(s, r)
    ensures Invariant(RecvApply(s, r))
  {
    hide ClosingKeptApart, DrainsLate, AtMostOneLate, CleanMeansEmpty, QueuesInOrder, AllDealtWith, CallsInOrder,
         ErrorsAreKept;
    hide RecvApply, RecvEnabled;
    RecvLeavesChannels(s, r);
    RecvDrainsLate(s, r);
    RecvKeepsClean(s, r);
    RecvKeepsOrder(s, r);
    RecvDealsWith(s, r);
    RecvCallsInOrder(s, r);
    RecvKeepsErrors(s, r);
  }

  lemma WorkerKeepsInvariant(s: State, w: WorkerStep, i: nat)
    requires Shape(s) && Invariant(s) && WorkerEnabled(s, w, i)
    ensures Invariant(WorkerApply(s, w, i))
  {
    hide ClosingKeptApart, DrainsLate, AtMostOneLate, CleanMeansEmpty, QueuesInOrder, AllDealtWith, CallsInOrder,
         ErrorsAreKept;
    hide WorkerApply, WorkerEnabled;
    WorkerLeavesChannels(s, w, i);
    WorkerDrainsLate(s, w, i);
    WorkerKeepsClean(s, w, i);
    WorkerKeepsOrder(s, w, i);
    WorkerDealsWith(s, w, i);
    WorkerCallsInOrder(s, w, i);
    WorkerKeepsErrors(s, w, i);
  }

  lemma WorkerDealsWith(s: State, w: WorkerStep, i: nat)
    requires Shape(s) && AllDealtWith(s) && WorkerEnabled(s, w, i)
    ensures AllDealtWith(WorkerApply(s, w, i))
  {
    hide AfterDrain, Counts, IsFault, Packets, InHand, RouteOf, FromCapture;
  }

  lemma MainKeepsInvariant(s: State, m: MainStep)
    requires Shape(s) && Invariant(s) && MainEnabled(s, m)
    ensures Invariant(MainApply(s, m))
  {
    hide ClosingKeptApart, DrainsLate, AtMostOneLate, CleanMeansEmpty, QueuesInOrder, AllDealtWith, CallsInOrder,
         ErrorsAreKept;
    hide MainApply, MainEnabled;
    MainClosesInTurn(s, m);
    MainDrainsLate(s, m);
    MainLeavesPackets(s, m);
    MainCallsInOrder(s, m);
    MainKeepsErrors(s, m);
  }

  lemma MainLeavesPackets(s: State, m: MainStep)
    requires Shape(s) && QueuesInOrder(s) && AllDealtWith(s) && MainEnabled(s, m)
    ensures QueuesInOrder(MainApply(s, m)) && AllDealtWith(MainApply(s, m))
  {
    hide Result, Entered, Packets, InHand, RouteOf, FromCapture;
  }

  lemma ExpiryKeepsInvariant(s: State, cause: Fault)
    requires Shape(s) && Invariant(s)
    ensures Invariant(s.(context := if s.context.None? then Some(cause) else s.context))
  {
    hide Entered, Result, Packets, InHand, Home, RouteOf, FromCapture;
  }

  lemma StepKeepsInvariant(s: State, l: Label)
    requires Shape(s) && Invariant(s) && Enabled(s, l)
    ensures Invariant(Apply(s, l))
  {
    hide Invariant, RecvApply, WorkerApply, MainApply, RecvEnabled, WorkerEnabled, MainEnabled;
    match l
    case Expire(cause) => ExpiryKeepsInvariant(s, cause);
    case RecvStep(r) => RecvKeepsInvariant(s, r);
    case WorkerStep(i, w) => WorkerKeepsInvariant(s, w, i);
    case MainStep(m) => MainKeepsInvariant(s, m);
  }

  lemma StartIsGood(n: nat, capacity: nat)
    requires n > 0
    ensures Shape(Start(n, capacity)) && Invariant(Start(n, capacity))
  {
  }

  lemma {:induction false} InvariantHolds(s: State, ls: seq<Label>, t: State)
    requires Shape(s) && Invariant(s) && Leads(s, ls, t)
    ensures Shape(t) && Invariant(t) && |t.workers| == |s.workers|
    decreases |ls|
  {
    hide Invariant, Enabled, Apply;
    if ls != [] {
      StepKeepsInvariant(s, ls[0]);
      InvariantHolds(Apply(s, ls[0]), ls[1..], t);
    }
  }

  /** Reached by some interleaving of an engine with `n` workers. */
  ghost predicate Reachable(n: nat, t: State) {
    n > 0 && exists capacity: nat, ls: seq<Label> :: Shape(Start(n, capacity)) && Leads(Start(n, capacity), ls, t)
  }

  lemma ReachableIsGood(n: nat, t: State)
    requires Reachable(n, t)
    ensures Shape(t) && Invariant(t) && |t.workers| == n
  {
    hide Invariant, Leads;
    var capacity: nat, ls: seq<Label> :| Shape(Start(n, capacity)) && Leads(Start(n, capacity), ls, t);
    StartIsGood(n, capacity);
    InvariantHolds(Start(n, capacity), ls, t);
  }

  lemma ReachableIsSome(n: nat, t: State)
    requires Reachable(n, t)
    ensures n > 0 && |t.workers| == |t.taken| == n
  {
    hide Invariant, Leads;
    ReachableIsGood(n, t);
  }

  // ---- the theorems ----

  /** No thread ever sends on or closes a closed channel; channels are closed only after the receive loop has
    * returned; the adapter is flushed only when the receive loop and all workers have ended; and the calls on the
    * adapter are sends, then one flush, then the close. */
  lemma ShutdownIsOrdered(n: nat, t: State)
    requires Reachable(n, t)
    ensures !t.panicked
    ensures forall i | 0 <= i < |t.closed| && t.closed[i] :: t.recv.RecvDone? && t.context.Some?
    ensures forall i, j | 0 <= i < j < |t.calls| && (t.calls[i] == FlushCall || t.calls[i] == CloseCall) ::
              t.calls[i] == FlushCall && t.calls[j] == CloseCall
    ensures FlushCall in t.calls || t.main == Flushing ==>
              t.recv.RecvDone? && |t.workers| == n && forall i | 0 <= i < n :: t.workers[i].Finished?
  {
    hide Entered, Result, Leads, RouteOf, FromCapture;
    ReachableIsGood(n, t);
  }

  /** Once the context is over at most one packet still enters a queue. Where a worker has drained its queue to the
    * end, a packet is left in it if and only if that packet was put there after the drain had ended; and there is
    * only one such queue. */
  lemma AtMostOneIsLeft(n: nat, t: State)
    requires Reachable(n, t)
    ensures Shape(t) && |t.workers| == n && |t.late| <= 1 && |t.missed| <= 1
    ensures forall i | 0 <= i < n && Clean(t.workers[i]) ::
              && (t.queues[i] != [] <==> i in t.missed)
              && (t.queues[i] != [] ==> |t.queues[i]| == 1 && t.late == [(i, t.queues[i][0])])
    ensures forall i, j | 0 <= i < n && 0 <= j < n && Clean(t.workers[i]) && Clean(t.workers[j])
                          && t.queues[i] != [] && t.queues[j] != [] :: i == j
  {
    hide Entered, Result, Leads, RouteOf, FromCapture;
    ReachableIsGood(n, t);
    if t.missed != {} {
      assert t.missed == {t.late[0].0};
    }
  }

  lemma {:induction false} LeadsOn(s: State, ls: seq<Label>, t: State, l: Label)
    requires Shape(s) && Leads(s, ls, t) && Shape(t) && Enabled(t, l)
    ensures Leads(s, ls + [l], Apply(t, l))
    decreases |ls|
  {
    hide Enabled, Apply;
    if ls == [] {
      assert ls + [l] == [l] && [l][1..] == [];
    } else {
      assert (ls + [l])[1..] == ls[1..] + [l];
      LeadsOn(Apply(s, ls[0]), ls[1..], t, l);
    }
  }

  lemma Next(n: nat, s: State, l: Label) returns (t: State)
    requires Reachable(n, s) && Shape(s) && Enabled(s, l)
    ensures t == Apply(s, l) && Reachable(n, t) && Shape(t) && |t.workers| == |s.workers|
  {
    hide Leads, Enabled, Apply;
    t := Apply(s, l);
    var capacity: nat, ls: seq<Label> :| Shape(Start(n, capacity)) && Leads(Start(n, capacity), ls, s);
    LeadsOn(Start(n, capacity), ls, s, l);
  }

  lemma StartIsReachable(n: nat, capacity: nat)
    requires n > 0
    ensures Reachable(n, Start(n, capacity))
  {
    assert Leads(Start(n, capacity), [], Start(n, capacity));
  }

  /** An engine with one worker, of which nothing has been reported. */
  ghost predicate Lone(s: State, c: Option<Fault>, recv: RecvPc, worker: WorkerPc, main: MainPc, queue: seq<Packet>) {
    && Reachable(1, s) && Shape(s) && |s.workers| == 1 && s.capacity == 1 && s.slot.None?
    && s.context == c && s.recv == recv && s.workers[0] == worker && s.main == main && s.queues[0] == queue
  }

  /** A packet is being offered to an idle worker with an empty queue when the context ends. */
  lemma LateOffer(p: Packet) returns (t: State)
    requires FromCapture(p) && RouteOf(p) == ToWorker
    ensures Lone(t, Some(Canceled), Offering(p), Idle, Selecting, []) && !t.closed[0]
  {
    hide Leads, Reachable, RouteOf, FromCapture;
    t := Start(1, 1);
    StartIsReachable(1, 1);
    t := Next(1, t, RecvStep(Receive(p, true)));
    t := Next(1, t, RecvStep(Look));
    t := Next(1, t, Expire(Canceled));
  }

  lemma DrainsEmpty(p: Packet) returns (t: State)
    requires FromCapture(p) && RouteOf(p) == ToWorker
    ensures Lone(t, Some(Canceled), Offering(p), Drained({Canceled}, true), Selecting, []) && !t.closed[0]
  {
    hide Leads, Reachable, Home, RouteOf, FromCapture;
    t := LateOffer(p);
    t := Next(1, t, WorkerStep(0, Leave({Canceled})));
    t := Next(1, t, WorkerStep(0, StartDrain));
    t := Next(1, t, WorkerStep(0, EndDrain({})));
  }

  lemma PutAfterDrain(p: Packet) returns (t: State)
    requires FromCapture(p) && RouteOf(p) == ToWorker
    ensures Lone(t, Some(Canceled), RecvDone({Canceled}), Finished(true), Closing(0), [p]) && t.error == {Canceled}
  {
    hide Leads, Reachable, Home, RouteOf, FromCapture;
    t := DrainsEmpty(p);
    t := Next(1, t, WorkerStep(0, Report));
    t := Next(1, t, RecvStep(Put));
    t := Next(1, t, RecvStep(Stop({Canceled})));
    t := Next(1, t, MainStep(RecvReturned));
  }

  /** The one packet is real: in some run the drain finds its queue empty, the packet is enqueued after that, and
    * Run reports success although no one will ever look at the packet again. */
  lemma OneCanBeLeft(p: Packet) returns (t: State)
    requires FromCapture(p) && RouteOf(p) == ToWorker
    ensures Reachable(1, t) && Shape(t) && |t.workers| == 1
    ensures t.main == Returned({}, {}) && Clean(t.workers[0]) && t.queues[0] == [p]
  {
    hide Leads, Reachable, Home, RouteOf, FromCapture;
    t := PutAfterDrain(p);
    t := Next(1, t, MainStep(CloseNext));
    t := Next(1, t, MainStep(CloseNext));
    t := Next(1, t, MainStep(Join));
    t := Next(1, t, MainStep(Flush({})));
    t := Next(1, t, MainStep(CloseAdapter));
  }

  lemma {:induction false} EnteredOrigin(routed: seq<(Packet, Routing)>, i: nat, workers: nat, p: Packet)
    requires workers > 0 && p in Entered(routed, i, workers)
    ensures (p, Enqueued) in routed && Home(KeyOf(p.meta), workers) == i
  {
    hide Home, KeyOf;
    var n := |routed| - 1;
    if p in Entered(routed[..n], i, workers) {
      EnteredOrigin(routed[..n], i, workers, p);
    } else {
      assert routed[n] == (p, Enqueued);
    }
  }

  lemma RoutedIsGenuine(s: State, p: Packet)
    requires AllDealtWith(s) && (p, Enqueued) in s.routed
    ensures RouteOf(p) == ToWorker && Genuine(p) && p.source == Captured
  {
    hide Decode, HasFlag, PayloadOf;
    var j: nat :| j < |s.routed| && s.routed[j] == (p, Enqueued);
    assert s.got[j] == Packets(s.routed)[j];
  }

  /** Each captured packet is dealt with in turn, and each worker is given the packets of its own connections, in
    * the order of capture. A packet for a worker is passed on instead only once the engine is cancelled, and no other
    * packet reaches a worker. Where the loop ends by cancellation no packet is lost. */
  lemma CaptureOrderIsKept(n: nat, t: State, i: nat)
    requires Reachable(n, t) && i < n
    ensures Shape(t) && |t.workers| == n
    ensures t.taken[i] + t.queues[i] == Entered(t.routed, i, n)
    ensures forall p | p in t.taken[i] + t.queues[i] ::
              Home(KeyOf(p.meta), n) == i && RouteOf(p) == ToWorker && Genuine(p) && p.source == Captured
    ensures t.got == Packets(t.routed) + InHand(t.recv)
    ensures t.recv.RecvDone? ==> t.got == Packets(t.routed)
    ensures forall j | 0 <= j < |t.routed| ::
              if RouteOf(t.routed[j].0) == ToWorker then t.routed[j].1 == PassedOn ==> t.context == Some(Canceled)
              else t.routed[j].1 != Enqueued
    ensures t.recv.RecvDone? && Canceled in t.recv.error ==> forall j | 0 <= j < |t.routed| :: t.routed[j].1 != Lost
  {
    hide Entered, Result, Leads, RouteOf, FromCapture, Reachable, Home, Genuine;
    ReachableIsGood(n, t);
    forall p | p in t.taken[i] + t.queues[i]
      ensures Home(KeyOf(p.meta), n) == i && RouteOf(p) == ToWorker && Genuine(p) && p.source == Captured
    {
      EnteredOrigin(t.routed, i, n, p);
      RoutedIsGenuine(t, p);
    }
  }

  /** Run reports success exactly when no worker reported a failure, the receive loop ended by cancellation, and
    * flushing the adapter succeeded or ran out of time. */
  lemma RunReportsFailures(n: nat, t: State)
    requires Reachable(n, t) && t.main.Returned?
    ensures t.recv.RecvDone?
    ensures t.main.result == {} <==>
            !t.reported && Canceled in t.recv.error && (t.main.flush == {} || Deadline in t.main.flush)
  {
    hide Entered, Leads, RouteOf, FromCapture;
    ReachableIsGood(n, t);
  }
}
