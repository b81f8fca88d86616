/** The engine with its NFQUEUE adapter: the two protocols as one, from the kernel's callbacks to `Run`'s result.

  The receive loop takes its packets from the adapter's buffer, Run's call of Flush is the adapter's own Flush, and
  all steps of both interleave.
 */
module Teardown {
  import opened FlowMachine
  import E = EngineProtocol
  import F = NfqueueFlush

  datatype Joint = Joint(engine: E.State, adapter: F.State)

  /** A step of the engine, or of the adapter's callbacks and of its Flush. */
  datatype Move = Engine(e: E.Label) | Adapter(a: F.Label)

  /** Flush is over, with this result. */
  predicate Answers(flush: F.FlushPc, why: E.Error) {
    flush == if why == {} then F.ReturnedNil else F.ReturnedErr
  }

  /** Receiving takes a packet from the buffer; Flush begins when Run has come to it, and Run goes on with what Flush
    * returns. The buffer's steps of the receive loop belong to the engine. */
  predicate Enabled(j: Joint, m: Move)
    requires E.Shape(j.engine)
  {
    match m
    case Engine(l) =>
      && E.Enabled(j.engine, l)
      && (l.RecvStep? && l.r.Receive? ==> j.adapter.buffer != [])
      && (l.MainStep? && l.m.Flush? ==> Answers(j.adapter.flush, l.m.why))
    case Adapter(l) =>
      match l
      case Hand => false
      case StopRecv => false
      case SetFlag => j.adapter.flush == F.NotStarted && j.engine.main == E.Flushing
      case _ => F.Enabled(j.adapter, l)
  }

  /** What an engine step does to the adapter: a packet leaves its buffer, or the receive loop ends, or both. */
  function Taken(a: F.State, l: E.Label): F.State
    requires l.RecvStep? && l.r.Receive? ==> a.buffer != []
  {
    if l.RecvStep? && l.r.Receive? then a.(buffer := a.buffer[1..], handed := a.handed + [a.buffer[0]]) else a
  }

  function Apply(j: Joint, m: Move): Joint
    requires E.Shape(j.engine) && Enabled(j, m)
  {
    match m
    case Engine(l) =>
      var e := E.Apply(j.engine, l);
      var a := Taken(j.adapter, l);
      Joint(e, if e.recv.RecvDone? then a.(recvLive := false) else a)
    case Adapter(l) =>
      Joint(j.engine, if l == F.SetFlag then j.adapter.(flushing := true, flush := F.FlagSet)
                      else F.Apply(j.adapter, l))
  }

  function Start(n: nat, capacity: nat): Joint
    requires n > 0
  {
    Joint(E.Start(n, capacity), F.START)
  }

  predicate Leads(j: Joint, ms: seq<Move>, k: Joint)
    requires E.Shape(j.engine)
    decreases |ms|
  {
    if ms == [] then j == k else Enabled(j, ms[0]) && Leads(Apply(j, ms[0]), ms[1..], k)
  }

  // ---- both parts take their own steps ----

  ghost predicate FlushReachable(a: F.State) {
    exists ls: seq<F.Label> :: F.Leads(F.START, ls, a)
  }

  lemma {:induction false} FlushLeadsOn(s: F.State, ls: seq<F.Label>, t: F.State, l: F.Label)
    requires F.Leads(s, ls, t) && F.Enabled(t, l)
    ensures F.Leads(s, ls + [l], F.Apply(t, l))
    decreases |ls|
  {
    hide F.Enabled, F.Apply;
    if ls == [] {
      assert ls + [l] == [l] && [l][1..] == [];
    } else {
      assert (ls + [l])[1..] == ls[1..] + [l];
      FlushLeadsOn(F.Apply(s, ls[0]), ls[1..], t, l);
    }
  }

  lemma FlushNext(a: F.State, l: F.Label)
    requires FlushReachable(a) && F.Enabled(a, l)
    ensures FlushReachable(F.Apply(a, l))
  {
    hide F.Enabled, F.Apply, F.Leads;
    var ls: seq<F.Label> :| F.Leads(F.START, ls, a);
    FlushLeadsOn(F.START, ls, a, l);
  }

  /** How far Flush and Run have come with each other. */
  ghost predicate InStep(j: Joint) {
    && (j.adapter.recvLive <==> !j.engine.recv.RecvDone?)
    && |j.engine.got| == |j.adapter.handed|
    && (j.adapter.flush != F.NotStarted ==> E.Stage(j.engine.main) >= 4)
    && (j.engine.main.Flushed? || j.engine.main.Returned? ==> Answers(j.adapter.flush, j.engine.main.flush))
  }

  ghost predicate Good(n: nat, j: Joint) {
    E.Shape(j.engine) && E.Reachable(n, j.engine) && FlushReachable(j.adapter) && InStep(j)
  }

  lemma StartIsGood(n: nat, capacity: nat)
    requires n > 0
    ensures Good(n, Start(n, capacity))
  {
    E.StartIsReachable(n, capacity);
    assert F.Leads(F.START, [], F.START);
    hide E.Reachable, F.Leads;
  }

  /** What a step of the engine means for the two to stay in step. */
  ghost predicate Moves(e: E.State, e': E.State, received: bool, flush: Option<E.Error>) {
    && |e'.got| == |e.got| + (if received then 1 else 0)
    && (e.recv.RecvDone? ==> e'.recv.RecvDone? && !received)
    && E.Stage(e.main) <= E.Stage(e'.main)
    && (if flush.Some? then e'.main == E.Flushed(flush.value)
        else (e'.main.Flushed? || e'.main.Returned?) ==>
            (e.main.Flushed? || e.main.Returned?) && e.main.flush == e'.main.flush)
  }

  lemma RecvMoves(s: E.State, r: E.RecvStep)
    requires E.Shape(s) && E.RecvEnabled(s, r)
    ensures Moves(s, E.RecvApply(s, r), r.Receive?, None)
  {
    hide E.Shape, E.RouteOf, E.Target, E.FromCapture, E.Plausible, E.DrainEnded;
  }

  lemma WorkerMoves(s: E.State, w: E.WorkerStep, i: nat)
    requires E.Shape(s) && E.WorkerEnabled(s, w, i)
    ensures Moves(s, E.WorkerApply(s, w, i), false, None)
  {
    hide E.Shape, E.AfterDrain, E.Counts, E.Plausible, E.IsFault, E.Cancel;
  }

  lemma MainMoves(s: E.State, m: E.MainStep)
    requires E.Shape(s) && E.MainEnabled(s, m)
    ensures Moves(s, E.MainApply(s, m), false, if m.Flush? then Some(m.why) else None)
  {
    hide E.Result, E.Cancel;
  }

  lemma EngineStepMeans(s: E.State, l: E.Label)
    requires E.Shape(s) && E.Enabled(s, l)
    ensures Moves(s, E.Apply(s, l), l.RecvStep? && l.r.Receive?,
            if l.MainStep? && l.m.Flush? then Some(l.m.why) else None)
  {
    hide E.Shape, E.RecvApply, E.WorkerApply, E.MainApply, E.RecvEnabled, E.WorkerEnabled, E.MainEnabled;
    match l
    case Expire(_) =>
    case RecvStep(r) => RecvMoves(s, r);
    case WorkerStep(i, w) => WorkerMoves(s, w, i);
    case MainStep(m) => MainMoves(s, m);
  }

  /** The engine's step, seen from the adapter: packets are handed over, and receiving stops. */
  lemma AdapterFollows(j: Joint, l: E.Label)
    requires E.Shape(j.engine) && Enabled(j, Engine(l)) && FlushReachable(j.adapter) && InStep(j)
    ensures FlushReachable(Apply(j, Engine(l)).adapter)
  {
    hide E.Apply, E.Enabled, FlushReachable;
    EngineStepMeans(j.engine, l);
    var e, a := E.Apply(j.engine, l), j.adapter;
    if l.RecvStep? && l.r.Receive? {
      FlushNext(a, F.Hand);
      a := F.Apply(a, F.Hand);
    }
    if e.recv.RecvDone? && a.recvLive {
      FlushNext(a, F.StopRecv);
    } else if e.recv.RecvDone? {
      assert a.(recvLive := false) == a;
    }
  }

  lemma EngineKeepsGood(n: nat, j: Joint, l: E.Label)
    requires Good(n, j) && Enabled(j, Engine(l))
    ensures Good(n, Apply(j, Engine(l)))
  {
    hide E.Apply, E.Enabled, E.Reachable, FlushReachable, E.Shape;
    AdapterFollows(j, l);
    EngineStepMeans(j.engine, l);
    var e := E.Next(n, j.engine, l);
  }

  /** When Run has come to Flush the receive loop is over, by the engine's own protocol. */
  lemma AdapterKeepsGood(n: nat, j: Joint, l: F.Label)
    requires Good(n, j) && Enabled(j, Adapter(l))
    ensures Good(n, Apply(j, Adapter(l)))
  {
    hide E.Reachable, FlushReachable, E.Shape;
    E.ShutdownIsOrdered(n, j.engine);
    FlushNext(j.adapter, l);
    assert l == F.SetFlag ==> F.Apply(j.adapter, l) == j.adapter.(flushing := true, flush := F.FlagSet);
  }

  lemma {:induction false} LeadsKeepsGood(n: nat, j: Joint, ms: seq<Move>, k: Joint)
    requires Good(n, j) && Leads(j, ms, k)
    ensures Good(n, k)
    decreases |ms|
  {
    hide Good, Enabled, Apply;
    if ms != [] {
      GoodShape(n, j);
      match ms[0] {
        case Engine(l) => EngineKeepsGood(n, j, l);
        case Adapter(l) => AdapterKeepsGood(n, j, l);
      }
      GoodShape(n, Apply(j, ms[0]));
      LeadsKeepsGood(n, Apply(j, ms[0]), ms[1..], k);
    }
  }

  lemma GoodShape(n: nat, j: Joint)
    requires Good(n, j)
    ensures E.Shape(j.engine)
  {
    hide E.Shape;
  }

  // ---- the theorem ----

  /** From the kernel to the end, in every interleaving of the engine with its adapter and without any hypothesis: the
    * receive loop gets the packets in the order in which their callbacks put them into the buffer; and once Run has
    * returned with a flush that reported nothing, the buffer is empty, and each complete packet was exactly once handed
    * to the receive loop, accepted by Flush, accepted in its callback, or is in a callback that can only accept it. */
  lemma NothingIsLeftBehind(n: nat, capacity: nat, ms: seq<Move>, t: Joint, i: nat)
    requires n > 0 && Leads(Start(n, capacity), ms, t) && i < |t.adapter.callbacks|
    ensures E.Reachable(n, t.engine) && |t.engine.got| == |t.adapter.handed|
    ensures t.engine.main.Returned? && t.engine.main.flush == {} ==>
              && t.adapter.buffer == [] && !t.adapter.refused
              && (t.adapter.callbacks[i].complete ==>
                    var pc := t.adapter.callbacks[i].pc;
                    F.Times(i, t.adapter.handed) + F.Times(i, t.adapter.drained)
                    + F.One((pc.Finished? || pc.Gone?) && pc.out.Accepted?)
                    + F.One(pc == F.Entered || pc == F.Accepting) == 1)
  {
    hide E.Reachable, F.Times, F.Leads, E.Shape;
    StartIsGood(n, capacity);
    LeadsKeepsGood(n, Start(n, capacity), ms, t);
    if t.engine.main.Returned? && t.engine.main.flush == {} {
      var ls: seq<F.Label> :| F.Leads(F.START, ls, t.adapter);
      NoSteps(t.adapter);
      F.FlushLeavesNothing(ls, t.adapter, [], t.adapter, i);
    }
  }

  lemma NoSteps(a: F.State)
    ensures F.Leads(a, [], a)
  {
  }
}
