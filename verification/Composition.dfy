/** Receive loop, workers and drain put together: what becomes of a connection's packets from capture to the end. */
module Composition {
  import opened Wire
  import opened FlowMachine
  import opened FlowInvariants
  import opened Conservation
  import opened Outcomes
  import opened Sharding
  import E = EngineProtocol
  import D = ShutdownDrain

  /** What the worker's flows hold when its run loop ends. */
  function HeldMap(w: World): map<Key, seq<Packet>> {
    map k | k in w.flows :: w.flows[k].held
  }

  // ---- a history and the drain after it ----

  lemma {:induction false} CarryingOf(ps: seq<Packet>)
    requires forall p | p in ps :: PayloadOf(p) != []
    ensures Carrying(ps) == ps
  {
    hide PayloadOf;
    if ps != [] {
      CarryingOf(ps[..|ps| - 1]);
    }
  }

  lemma HeldOfKey(h: History, order: seq<Key>, queue: seq<Packet>, k: Key)
    requires h.IsRun() && D.Enumerates(order, HeldMap(h.End()))
    ensures D.OfFlow(D.HeldIn(HeldMap(h.End()), order) + queue, k) ==
            (if k in h.End().flows then h.End().flows[k].held else []) + D.OfFlow(queue, k)
  {
    hide D.OfFlow, D.HeldIn, History.StepsAt, KeyOf, PayloadOf, Genuine;
    var m: map<Key, seq<Packet>> := HeldMap(h.End());
    forall j: Key, i: int | j in m && 0 <= i < |m[j]| ensures KeyOf(m[j][i].meta) == j {
      FlowsAtRest(h, j);
      assert Belongs(j, m[j][i]);
    }
    D.DrainKeepsFlowOrder(m, order, queue, k);
  }

  /** A worker that ran without errors and whose drain sent everything has retired every packet of a connection, those
    * it was given and those still queued, exactly once; and those with payload went in the order in which they came. */
  lemma DrainedRunRetiresAll(h: History, order: seq<Key>, queue: seq<Packet>, sent: seq<Packet>, k: Key)
    requires h.IsRun() && h.NoErrors() && D.Enumerates(order, HeldMap(h.End()))
    requires sent == D.HeldIn(HeldMap(h.End()), order) + queue
    ensures var t := h.End().trace;
            && multiset(Arrived(h.ins, k)) + multiset(D.OfFlow(queue, k)) == multiset(Retired(t, k))
               + multiset(D.OfFlow(sent, k))
            && Carrying(Arrived(h.ins, k)) + D.OfFlow(queue, k) == Carrying(Retired(t, k)) + D.OfFlow(sent, k)
  {
    hide D.OfFlow, D.HeldIn, History.StepsAt, History.SucceedsAt, Arrived, Retired, Carrying;
    PacketsAreConserved(h, k);
    HeldOfKey(h, order, queue, k);
    var held := if k in h.End().flows then h.End().flows[k].held else [];
    assert D.OfFlow(sent, k) == held + D.OfFlow(queue, k);
    assert multiset(D.OfFlow(sent, k)) == multiset(held) + multiset(D.OfFlow(queue, k));
  }

  /** The same, said of the drain itself. */
  method StopAfter(ghost h: History, w: D.StoppedWorker, order: seq<Key>, ghost k: Key) returns (ok: bool)
    requires h.IsRun() && h.NoErrors()
    requires w.Valid() && w.log == [] && w.flows == HeldMap(h.End()) && D.Enumerates(order, w.flows)
    modifies w
    ensures ok ==>
              var (t, sent) := (h.End().trace, D.Sent(w.log));
              && multiset(Arrived(h.ins, k)) + multiset(D.OfFlow(old(w.queue), k)) ==
                 multiset(Retired(t, k)) + multiset(D.OfFlow(sent, k))
              && Carrying(Arrived(h.ins, k)) + D.OfFlow(old(w.queue), k) == Carrying(Retired(t, k)) + D.OfFlow(sent, k)
  {
    hide D.OfFlow, D.HeldIn, History.StepsAt, History.SucceedsAt, Arrived, Retired, Carrying, D.Sent, D.Offered;
    ghost var queue := w.queue;
    var stop;
    ghost var n;
    ok, stop, n := w.ShutdownFailOpen(order);
    if ok {
      DrainedRunRetiresAll(h, order, queue, D.Sent(w.log), k);
    }
  }

  // ---- the receive loop in front of the workers ----

  /** The packets that a worker was given, in order. */
  function Given(ins: seq<Input>): seq<Packet> {
    if ins == [] then [] else Given(ins[..|ins| - 1]) + PacketsOf(ins[|ins| - 1])
  }

  lemma {:induction false} GivenHas(ins: seq<Input>, n: nat)
    requires n < |ins| && ins[n].Deliver?
    ensures ins[n].pkt in Given(ins)
    decreases |ins|
  {
    var m := |ins| - 1;
    if n < m {
      GivenHas(ins[..m], n);
    } else {
      assert PacketsOf(ins[m]) == [ins[m].pkt];
    }
  }

  lemma {:induction false} ArrivedIsGiven(ins: seq<Input>, k: Key)
    ensures Arrived(ins, k) == D.OfFlow(Given(ins), k)
    decreases |ins|
  {
    hide KeyOf;
    if ins != [] {
      var m := |ins| - 1;
      ArrivedIsGiven(ins[..m], k);
      D.OfFlowConcat(Given(ins[..m]), PacketsOf(ins[m]), k);
      var ps := PacketsOf(ins[m]);
      assert D.OfFlow(ps, k) == if ins[m].InputKey() == k then ps else [] by {
        D.OfFlowOwn(ps, ins[m].InputKey(), k);
      }
    }
  }

  /** The histories of the workers are of packets that they took from their queues in the engine's state `t`. */
  ghost predicate FedBy(hs: seq<History>, t: E.State) {
    && |hs| == |t.taken|
    && forall i {:trigger hs[i]} | 0 <= i < |hs| :: hs[i].IsRun() && Given(hs[i].ins) <= t.taken[i]
  }

  lemma EngineFeedsFleet(n: nat, t: E.State, hs: seq<History>)
    requires E.Reachable(n, t) && FedBy(hs, t)
    ensures |hs| == n && n > 0 && Fleet(k => Home(k, n), hs)
  {
    hide E.Reachable, E.Entered, E.RouteOf, Home, History.StepsAt, Given, KeyOf, E.Packets, Genuine;
    E.ReachableIsSome(n, t);
    var route := k => Home(k, n);
    forall i | 0 <= i < |hs| ensures hs[i].IsRun() && RoutedTo(route, i, hs[i].ins) {
      E.CaptureOrderIsKept(n, t, i);
      forall m | 0 <= m < |hs[i].ins| && hs[i].ins[m].Deliver? ensures route(hs[i].ins[m].InputKey()) == i {
        GivenHas(hs[i].ins, m);
        assert hs[i].ins[m].pkt in t.taken[i];
        assert hs[i].ins[m].pkt in t.taken[i] + t.queues[i];
      }
    }
  }

  /** In every reachable state of the engine, whatever its workers have made of the packets they took: a connection is
    * in one table only, that of the worker its hash selects. */
  lemma EngineFlowsLiveAtHome(n: nat, t: E.State, hs: seq<History>, i: nat, k: Key)
    requires E.Reachable(n, t) && FedBy(hs, t) && i < |hs| && k in hs[i].End().flows
    ensures n == |hs| && n > 0 && Home(k, n) == i
    ensures forall j | 0 <= j < n && j != i :: k !in hs[j].End().flows
  {
    hide E.Reachable, Fleet, Home, History.StepsAt, Given;
    EngineFeedsFleet(n, t, hs);
    FlowsLiveAtHome(hs, i, k);
  }

  /** From capture to the end. The engine has come so far that worker `i` drained to the end; it had handled some of
    * the packets it took, without errors, and its drain sent what its flows held and the others it took. Then every
    * packet of a connection that the receive loop enqueued for this worker has been retired exactly once, those with
    * payload in the order of capture, but for the one packet that may have been put into the queue after the drain. */
  lemma CapturedIsRetired(n: nat, t: E.State, i: nat, h: History, order: seq<Key>, drained: seq<Packet>,
                          sent: seq<Packet>, k: Key)
    requires E.Reachable(n, t) && i < n && i < |t.workers| && i < |t.taken| && E.Clean(t.workers[i])
    requires h.IsRun() && h.NoErrors() && D.Enumerates(order, HeldMap(h.End()))
    requires t.taken[i] == Given(h.ins) + drained && sent == D.HeldIn(HeldMap(h.End()), order) + drained
    ensures |t.queues| == n && |t.queues[i]| <= 1 && (t.queues[i] != [] <==> i in t.missed)
    ensures var entered := D.OfFlow(E.Entered(t.routed, i, n), k);
            && entered == Arrived(h.ins, k) + D.OfFlow(drained, k) + D.OfFlow(t.queues[i], k)
            && multiset(entered) ==
               multiset(Retired(h.End().trace, k)) + multiset(D.OfFlow(sent, k)) + multiset(D.OfFlow(t.queues[i], k))
    ensures Carrying(Arrived(h.ins, k)) + D.OfFlow(drained, k) == Carrying(Retired(h.End().trace, k))
            + D.OfFlow(sent, k)
  {
    hide E.Reachable, E.Entered, D.OfFlow, D.HeldIn, History.StepsAt, History.SucceedsAt, Given, Arrived, Retired,
         Carrying,
         E.RouteOf, Home, KeyOf, E.Packets, Genuine;
    E.AtMostOneIsLeft(n, t);
    E.CaptureOrderIsKept(n, t, i);
    DrainedRunRetiresAll(h, order, drained, sent, k);
    ArrivedIsGiven(h.ins, k);
    D.OfFlowConcat(Given(h.ins), drained, k);
    D.OfFlowConcat(t.taken[i], t.queues[i], k);
  }
}
