/** Which worker a connection belongs to, and what follows for the workers' flow tables. */
module Sharding {
  import opened Words
  import opened FlowMachine
  import opened FlowInvariants
  import opened C = Conservation

  const OFFSET_BASIS: bv64 := 0xcbf2_9ce4_8422_2325
  const PRIME: bv64 := 0x100_0000_01b3

  function FnvByte(h: bv64, b: u8): bv64 {
    (h ^ (b as bv64)) * PRIME
  }

  /** FNV-1a of 64 bits, one byte after the other, from the state `h`. */
  function Fnv(h: bv64, bytes: Bytes): bv64
    decreases |bytes|
  {
    if bytes == [] then h else Fnv(FnvByte(h, bytes[0]), bytes[1..])
  }

  function Reduce(h: bv64, workers: nat): (i: nat)
    requires workers > 0
    ensures i < workers
  {
    (h as int) % workers
  }

  function KeyBytes(k: Key): Bytes {
    k.srcIP + k.dstIP + [k.srcPort / 256, k.srcPort % 256, k.dstPort / 256, k.dstPort % 256, k.proto]
  }

  /** The worker a connection belongs to. */
  function Home(k: Key, workers: nat): (i: nat)
    requires workers > 0
    ensures i < workers
  {
    Reduce(Fnv(OFFSET_BASIS, KeyBytes(k)), workers)
  }

  lemma {:induction false} FnvStreams(h: bv64, a: Bytes, b: Bytes)
    ensures Fnv(h, a + b) == Fnv(Fnv(h, a), b)
    decreases |a|
  {
    hide FnvByte;
    if a == [] {
      assert a + b == b;
    } else {
      assert (a + b)[1..] == a[1..] + b;
      FnvStreams(FnvByte(h, a[0]), a[1..], b);
    }
  }

  method Write(h: bv64, bytes: Bytes) returns (sum: bv64)
    ensures sum == Fnv(h, bytes)
  {
    hide FnvByte;
    sum := h;
    for i := 0 to |bytes|
      invariant Fnv(sum, bytes[i..]) == Fnv(h, bytes)
    {
      assert bytes[i..][0] == bytes[i] && bytes[i..][1..] == bytes[i + 1..];
      sum := FnvByte(sum, bytes[i]);
    }
  }

  /** Hash the addresses, then the five bytes of ports and protocol, and reduce. The worker count is at least one
    * however it was configured. */
  method Index(key: Key, configured: int) returns (i: nat)
    ensures i == Home(key, if configured < 1 then 1 else configured)
  {
    hide Fnv;
    var workers := if configured < 1 then 1 else configured;
    var tail := [key.srcPort / 256, key.srcPort % 256, key.dstPort / 256, key.dstPort % 256, key.proto];
    var h := Write(OFFSET_BASIS, key.srcIP);
    FnvStreams(OFFSET_BASIS, key.srcIP, key.dstIP);
    h := Write(h, key.dstIP);
    FnvStreams(OFFSET_BASIS, key.srcIP + key.dstIP, tail);
    h := Write(h, tail);
    i := Reduce(h, workers);
  }

  // ---- many workers ----

  /** Worker `i` is delivered only packets of connections that `route` gives to it. Its touches and its garbage
    * collection may concern anything. */
  ghost predicate RoutedTo(route: Key -> nat, i: nat, ins: seq<Input>) {
    forall n | 0 <= n < |ins| && ins[n].Deliver? :: route(ins[n].InputKey()) == i
  }

  lemma NothingFromNothing(l: Local, count: nat, i: Input, fate: Fate)
    requires InputOk(i) && l.flow.None? && !i.Deliver?
    ensures LocalStep(l, count, i, fate).0.flow.None?
  {
    hide InputOk;
  }

  /** A tabled flow was started by a packet of its connection. */
  lemma {:induction false} TabledWasDelivered(ins: seq<Input>, fate: Fate, k: Key)
    requires InputsOk(ins) && k in RunAll(ins, fate).flows
    ensures exists n :: 0 <= n < |ins| && ins[n].Deliver? && ins[n].InputKey() == k
    decreases |ins|
  {
    hide InputOk, LocalStep, FlowValid, Accounted, T.TruthfulWorld, T.Grows, Step;
    var m := |ins| - 1;
    var w := RunAll(ins[..m], fate);
    if k in w.flows {
      TabledWasDelivered(ins[..m], fate, k);
      var n :| 0 <= n < m && ins[..m][n].Deliver? && ins[..m][n].InputKey() == k;
      assert ins[n].Deliver? && ins[n].InputKey() == k;
    } else {
      RunReached(ins[..m], fate);
      StepIsLocal(w, ins[m], fate);
      assert ins[m].InputKey() == k;
      if !ins[m].Deliver? {
        NothingFromNothing(Load(w, k), |w.flows|, ins[m], fate);
      }
    }
  }

  /** One history for each worker, each of packets that were routed to it. */
  ghost predicate Fleet(route: Key -> nat, hs: seq<History>) {
    forall j {:trigger hs[j]} | 0 <= j < |hs| :: hs[j].IsRun() && RoutedTo(route, j, hs[j].ins)
  }

  /** However connections are routed: whatever each worker has been through, a tabled flow is tabled at the worker
    * it is routed to, and no other worker has ever been given a packet of it. */
  lemma FlowsLiveWhereRouted(route: Key -> nat, hs: seq<History>, i: nat, k: Key)
    requires i < |hs| && Fleet(route, hs) && k in hs[i].End().flows
    ensures route(k) == i
    ensures forall j | 0 <= j < |hs| && j != i :: Arrived(hs[j].ins, k) == [] && k !in hs[j].End().flows
  {
    hide Arrived, History.StepsAt;
    AtHome(route, hs[i], i, k);
    forall j | 0 <= j < |hs| && j != i ensures Arrived(hs[j].ins, k) == [] && k !in hs[j].End().flows {
      NothingArrives(route, hs[j].ins, j, k);
      if k in hs[j].End().flows {
        AtHome(route, hs[j], j, k);
      }
    }
  }

  lemma AtHome(route: Key -> nat, h: History, i: nat, k: Key)
    requires h.IsRun() && RoutedTo(route, i, h.ins) && k in h.End().flows
    ensures route(k) == i
  {
    hide RunAll, InputsOk, History.StepsAt;
    RunIs(h);
    TabledWasDelivered(h.ins, h.fate, k);
  }

  lemma {:induction false} NothingArrives(route: Key -> nat, ins: seq<Input>, i: nat, k: Key)
    requires RoutedTo(route, i, ins) && route(k) != i
    ensures Arrived(ins, k) == []
    decreases |ins|
  {
    if ins != [] {
      NothingArrives(route, ins[..|ins| - 1], i, k);
    }
  }

  /** So a connection lives in one table only: at the worker its hash selects. */
  lemma FlowsLiveAtHome(hs: seq<History>, i: nat, k: Key)
    requires i < |hs| && Fleet(k' => Home(k', |hs|), hs) && k in hs[i].End().flows
    ensures Home(k, |hs|) == i
    ensures forall j | 0 <= j < |hs| && j != i :: k !in hs[j].End().flows
  {
    hide Home, Arrived, Fleet;
    FlowsLiveWhereRouted(k' => Home(k', |hs|), hs, i, k);
  }
}
