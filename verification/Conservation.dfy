/** Packet conservation and order, for as long as no step reports an error. */
module Conservation {
  import opened Wire
  import opened FlowMachine
  import opened FlowInvariants
  import opened Outcomes
  import T = Transparency

  /** The packets of connection `k` given to the worker, in order. */
  function Arrived(ins: seq<Input>, k: Key): seq<Packet> {
    if ins == [] then []
    else
      var i := ins[|ins| - 1];
      Arrived(ins[..|ins| - 1], k) + if i.InputKey() == k then PacketsOf(i) else []
  }

  predicate Retires(e: Event, k: Key) {
    e.Done? && e.key == k && e.pkt.source == Captured
  }

  /** The captured packets of connection `k` that were sent on or dropped, in order. */
  function Retired(t: Trace, k: Key): seq<Packet> {
    if t == [] then []
    else
      var e := t[|t| - 1];
      Retired(t[..|t| - 1], k) + if Retires(e, k) then [e.pkt] else []
  }

  /** The packets that carry payload. */
  function Carrying(ps: seq<Packet>): seq<Packet> {
    if ps == [] then []
    else
      var p := ps[|ps| - 1];
      Carrying(ps[..|ps| - 1]) + if PayloadOf(p) != [] then [p] else []
  }

  /** Every step so far reported success, so the worker is still running. */
  ghost predicate RunOk(ins: seq<Input>, fate: Fate)
    requires InputsOk(ins)
    decreases |ins|
  {
    ins == [] ||
    (RunOk(ins[..|ins| - 1], fate) && Step(RunAll(ins[..|ins| - 1], fate), ins[|ins| - 1], fate).1)
  }

  lemma {:induction false} RunSoFarOk(h: History, n: nat)
    requires h.IsRun() && h.NoErrors() && n <= |h.ins|
    ensures InputsOk(h.ins[..n]) && RunOk(h.ins[..n], h.fate)
  {
    hide Sane, InputOk, Step, Valid, RunAll;
    RunSoFar(h, n);
    if n > 0 {
      RunSoFarOk(h, n - 1);
      RunSoFar(h, n - 1);
      assert h.SucceedsAt(n - 1);
      assert h.ins[..n][..n - 1] == h.ins[..n - 1];
    }
  }

  lemma RunIsOk(h: History)
    requires h.IsRun() && h.NoErrors()
    ensures InputsOk(h.ins) && RunOk(h.ins, h.fate) && h.End() == RunAll(h.ins, h.fate)
  {
    hide RunAll, InputsOk, RunOk, History.StepsAt, History.SucceedsAt;
    RunIs(h);
    RunSoFarOk(h, |h.ins|);
    assert h.ins[..|h.ins|] == h.ins;
  }

  // ---- projections ----

  lemma {:induction false} RetiredConcat(t: Trace, u: Trace, k: Key)
    ensures Retired(t + u, k) == Retired(t, k) + Retired(u, k)
    decreases |u|
  {
    if u == [] {
      assert t + u == t;
    } else {
      RetiredConcat(t, u[..|u| - 1], k);
      assert (t + u)[..|t + u| - 1] == t + u[..|u| - 1];
    }
  }

  lemma {:induction false} CarryingConcat(a: seq<Packet>, b: seq<Packet>)
    ensures Carrying(a + b) == Carrying(a) + Carrying(b)
    decreases |b|
  {
    hide Carrying, PayloadOf;
    if b == [] {
      assert a + b == a;
      CarryingNothing();
    } else {
      var n := |b| - 1;
      CarryingConcat(a, b[..n]);
      CarryingNext(a + b[..n], b[n]);
      CarryingNext(b[..n], b[n]);
      assert a + b == a + b[..n] + [b[n]] && b == b[..n] + [b[n]];
    }
  }

  lemma CarryingNothing()
    ensures Carrying([]) == []
  {
  }

  lemma CarryingNext(ps: seq<Packet>, p: Packet)
    ensures Carrying(ps + [p]) == Carrying(ps) + if PayloadOf(p) != [] then [p] else []
  {
    hide PayloadOf;
    assert (ps + [p])[..|ps|] == ps;
  }

  lemma {:induction false} CarryingAll(ps: seq<Packet>)
    requires forall i | 0 <= i < |ps| :: PayloadOf(ps[i]) != []
    ensures Carrying(ps) == ps
  {
    hide PayloadOf;
    if ps != [] {
      CarryingAll(ps[..|ps| - 1]);
    }
  }

  lemma {:induction false} CarryingNone(ps: seq<Packet>)
    requires forall i | 0 <= i < |ps| :: PayloadOf(ps[i]) == []
    ensures Carrying(ps) == []
  {
    hide PayloadOf;
    if ps != [] {
      CarryingNone(ps[..|ps| - 1]);
    }
  }

  lemma {:induction false} RetiredQuiet(t: Trace, k: Key)
    requires forall i | 0 <= i < |t| :: !Retires(t[i], k)
    ensures Retired(t, k) == []
  {
    if t != [] {
      RetiredQuiet(t[..|t| - 1], k);
    }
  }

  lemma {:induction false} RetiredDones(k: Key, verb: Verb, ps: seq<Packet>)
    requires forall p | p in ps :: p.source == Captured
    ensures Retired(Dones(k, verb, ps), k) == ps
    decreases |ps|
  {
    if ps != [] {
      var front := ps[..|ps| - 1];
      RetiredDones(k, verb, front);
      assert Dones(k, verb, ps)[..|ps| - 1] == Dones(k, verb, front);
    }
  }

  lemma RetiredSends(k: Key, events: Trace, out: seq<Packet>)
    requires Sends(k, events, out) && forall p | p in out :: p.source == Captured
    ensures Retired(events, k) == out
  {
    var noise, gone :| Noise(k, noise) && (gone == [] || gone == [Gone(k)])
      && events == noise + Dones(k, Send, out) + gone;
    RetiredQuiet(noise, k);
    RetiredQuiet(gone, k);
    RetiredDones(k, Send, out);
    hide Retired, Dones;
    RetiredConcat(noise + Dones(k, Send, out), gone, k);
    RetiredConcat(noise, Dones(k, Send, out), k);
  }

  lemma RetiredInjection(k: Key, held: seq<Packet>, events: Trace, window: nat, g: Flow, plan: seq<Packet>)
    requires Injection(k, held, events, window, g, plan) && forall p | p in held :: p.source == Captured
    ensures Retired(events, k) == held
  {
    var sends, drops := Dones(k, Send, plan), Dones(k, Drop, held);
    var mark := [Split(k, window, g, plan)];
    RetiredQuiet(sends, k);
    RetiredQuiet(mark, k);
    RetiredDones(k, Drop, held);
    hide Retired, Dones;
    RetiredConcat(sends + drops, mark, k);
    RetiredConcat(sends, drops, k);
  }

  // ---- one step ----

  /** What arrived is what was retired plus what is held; among packets with payload, in this order. */
  ghost predicate Conserved(arrived: seq<Packet>, retired: seq<Packet>, held: seq<Packet>) {
    && multiset(arrived) == multiset(retired) + multiset(held)
    && Carrying(arrived) == Carrying(retired) + held
  }

  lemma SameOrder<X>(a: seq<X>, r: seq<X>, h: seq<X>, p: seq<X>, o: seq<X>, h': seq<X>)
    requires a == r + h && o + h' == h + p
    ensures a + p == (r + o) + h'
  {
    assert a + p == r + (h + p);
    assert r + (o + h') == (r + o) + h';
  }

  lemma SameContents<X>(a: multiset<X>, r: multiset<X>, h: seq<X>, p: seq<X>, o: seq<X>, h': seq<X>)
    requires a == r + multiset(h) && o + h' == h + p
    ensures a + multiset(p) == (r + multiset(o)) + multiset(h')
  {
    assert multiset(o + h') == multiset(h + p);
    assert a + multiset(p) == r + multiset(h + p);
    assert (r + multiset(o)) + multiset(h') == r + multiset(o + h');
  }

  lemma InOrder(arrived: seq<Packet>, retired: seq<Packet>, held: seq<Packet>, pkts: seq<Packet>,
                out: seq<Packet>, held': seq<Packet>)
    requires Conserved(arrived, retired, held) && out + held' == held + pkts
    requires forall i | 0 <= i < |held| :: PayloadOf(held[i]) != []
    requires forall i | 0 <= i < |held'| :: PayloadOf(held'[i]) != []
    ensures Conserved(arrived + pkts, retired + out, held')
  {
    hide PayloadOf, Carrying;
    CarryingAll(held);
    CarryingAll(held');
    CarryingConcat(out, held');
    CarryingConcat(held, pkts);
    CarryingConcat(arrived, pkts);
    CarryingConcat(retired, out);
    SameOrder(Carrying(arrived), Carrying(retired), held, Carrying(pkts), Carrying(out), held');
    SameContents(multiset(arrived), multiset(retired), held, pkts, out, held');
  }

  lemma Overtaking(arrived: seq<Packet>, retired: seq<Packet>, held: seq<Packet>, pkts: seq<Packet>)
    requires Conserved(arrived, retired, held) && forall i | 0 <= i < |pkts| :: PayloadOf(pkts[i]) == []
    ensures Conserved(arrived + pkts, retired + pkts, held)
  {
    hide PayloadOf, Carrying;
    CarryingNone(pkts);
    CarryingConcat(arrived, pkts);
    CarryingConcat(retired, pkts);
  }

  lemma OrdinaryConserves(k: Key, t: Trace, events: Trace, arrived: seq<Packet>, held: seq<Packet>, pkts: seq<Packet>,
                          out: seq<Packet>, held': seq<Packet>)
    requires Conserved(arrived, Retired(t, k), held) && Sends(k, events, out)
    requires forall p | p in held + pkts :: p.source == Captured
    requires forall i | 0 <= i < |held| :: PayloadOf(held[i]) != []
    requires forall i | 0 <= i < |held'| :: PayloadOf(held'[i]) != []
    requires out + held' == held + pkts ||
             (out == pkts && held' == held && forall i | 0 <= i < |pkts| :: PayloadOf(pkts[i]) == [])
    ensures Conserved(arrived + pkts, Retired(t + events, k), held')
  {
    hide Sends, Retired, Conserved, PayloadOf;
    assert forall p | p in out :: p in out + held' || p in pkts;
    assert forall p | p in pkts :: p in held + pkts;
    RetiredSends(k, events, out);
    RetiredConcat(t, events, k);
    if out + held' == held + pkts {
      InOrder(arrived, Retired(t, k), held, pkts, out, held');
    } else {
      Overtaking(arrived, Retired(t, k), held, pkts);
    }
  }

  lemma OutcomeConserves(k: Key, l: Local, m: Local, pkts: seq<Packet>, arrived: seq<Packet>)
    requires Outcome(k, l, pkts, m) && Conserved(arrived, Retired(l.trace, k), HeldBy(l.flow))
    requires forall p | p in HeldBy(l.flow) + pkts :: p.source == Captured
    requires forall i | 0 <= i < |HeldBy(l.flow)| :: PayloadOf(HeldBy(l.flow)[i]) != []
    requires forall i | 0 <= i < |HeldBy(m.flow)| :: PayloadOf(HeldBy(m.flow)[i]) != []
    ensures Conserved(arrived + pkts, Retired(m.trace, k), HeldBy(m.flow))
  {
    hide Sends, HeldBy, Retired, Conserved, PayloadOf, Injection;
    var events := m.trace[|l.trace|..];
    assert m.trace == l.trace + events;
    var held, held' := HeldBy(l.flow), HeldBy(m.flow);
    if Ordinary(k, held, pkts, events, held') {
      var out :| Sends(k, events, out)
        && (out + held' == held + pkts || (out == pkts && held' == held && forall p | p in pkts :: PayloadOf(p) == []));
      OrdinaryConserves(k, l.trace, events, arrived, held, pkts, out, held');
    } else {
      var window, g, plan :| Injection(k, held + pkts, events, window, g, plan);
      RetiredInjection(k, held + pkts, events, window, g, plan);
      RetiredConcat(l.trace, events, k);
      assert (held + pkts) + [] == held + pkts;
      InOrder(arrived, Retired(l.trace, k), held, pkts, held + pkts, held');
    }
  }

  // ---- whole runs ----

  ghost predicate ConservedWorld(ins: seq<Input>, w: World) {
    forall k :: Conserved(Arrived(ins, k), Retired(w.trace, k), HeldBy(Load(w, k).flow))
  }

  lemma HeldAreCaptured(w: World, k: Key)
    requires Valid(w)
    ensures forall p | p in HeldBy(Load(w, k).flow) :: p.source == Captured
    ensures forall i | 0 <= i < |HeldBy(Load(w, k).flow)| :: PayloadOf(HeldBy(Load(w, k).flow)[i]) != []
  {
    hide Genuine;
    if k in w.flows {
      assert FlowValid(k, w.flows[k]);
    }
  }

  /** What is true of every reachable state, and makes a step touch only its own flow's table entry and
    * add only its own flow's events. */
  ghost predicate Reached(w: World) {
    Sane(w) && T.TruthfulWorld(T.UNKNOWN, w)
  }

  lemma RunReached(ins: seq<Input>, fate: Fate)
    requires InputsOk(ins)
    ensures Reached(RunAll(ins, fate))
  {
    hide RunAll, Sane, T.Truthful;
    T.UnknownIsCut(ins);
    T.RunTruthful(T.UNKNOWN, ins, fate);
  }

  lemma StepIsLocal(w: World, i: Input, fate: Fate)
    requires Reached(w) && InputOk(i)
    ensures var (l, k) := (Load(w, i.InputKey()), i.InputKey());
            && (l.flow.Some? ==> FlowValid(k, l.flow.value))
            && var (m, ok) := LocalStep(l, |w.flows|, i, fate);
               && Step(w, i, fate) == (Store(w, k, m), ok)
               && T.Grows(k, w.trace, m.trace)
               && Load(Store(w, k, m), k).flow == m.flow
               && forall j | j != k :: Load(Store(w, k, m), j).flow == Load(w, j).flow
  {
    hide LocalStep, InputOk, Accounted;
    var k := i.InputKey();
    assert Load(w, k).flow.Some? ==> FlowValid(k, Load(w, k).flow.value);
    hide FlowValid, T.Truthful;
    assert T.Truthful(T.UNKNOWN, k, Load(w, k));
    T.LocalStepTruthful(T.UNKNOWN, Load(w, k), |w.flows|, i, fate);
    StoreOthers(w, k, LocalStep(Load(w, k), |w.flows|, i, fate).0);
  }

  lemma {:induction false} RetiredOther(k: Key, t: Trace, u: Trace, j: Key)
    requires T.Grows(k, t, u) && j != k
    ensures Retired(u, j) == Retired(t, j)
  {
    var events := u[|t|..];
    assert u == t + events;
    RetiredQuiet(events, j);
    RetiredConcat(t, events, j);
  }

  lemma ArrivedNext(ins: seq<Input>, i: Input, k: Key)
    ensures Arrived(ins + [i], k) == Arrived(ins, k) + if i.InputKey() == k then PacketsOf(i) else []
  {
    assert (ins + [i])[..|ins|] == ins;
  }

  lemma StepConserves(ins: seq<Input>, w: World, i: Input, fate: Fate)
    requires Reached(w) && InputOk(i) && Step(w, i, fate).1 && ConservedWorld(ins, w)
    ensures ConservedWorld(ins + [i], Step(w, i, fate).0)
  {
    hide FlowValid, Accounted, LocalStep, Conserved, Outcome, Arrived, Retired, HeldBy, T.Grows, T.TruthfulWorld;
    StepIsLocal(w, i, fate);
    StepKeepsSane(w, i, fate);
    var k := i.InputKey();
    var l, w' := Load(w, k), Step(w, i, fate).0;
    var m := LocalStep(l, |w.flows|, i, fate).0;
    HeldAreCaptured(w, k);
    HeldAreCaptured(w', k);
    LocalStepOutcome(l, |w.flows|, i, fate);
    OutcomeConserves(k, l, m, PacketsOf(i), Arrived(ins, k));
    forall j ensures Conserved(Arrived(ins + [i], j), Retired(w'.trace, j), HeldBy(Load(w', j).flow)) {
      ArrivedNext(ins, i, j);
      if j != k {
        RetiredOther(k, w.trace, w'.trace, j);
        assert Arrived(ins, j) + [] == Arrived(ins, j);
      }
    }
  }

  lemma {:induction false} RunConserves(ins: seq<Input>, fate: Fate)
    requires InputsOk(ins) && RunOk(ins, fate)
    ensures ConservedWorld(ins, RunAll(ins, fate))
    decreases |ins|
  {
    hide Sane, InputOk, Step, Reached, ConservedWorld;
    if ins == [] {
      NothingConserved();
    } else {
      var n := |ins| - 1;
      RunConserves(ins[..n], fate);
      RunReached(ins[..n], fate);
      StepConserves(ins[..n], RunAll(ins[..n], fate), ins[n], fate);
      assert ins[..n] + [ins[n]] == ins;
    }
  }

  lemma NothingConserved()
    ensures ConservedWorld([], EMPTY)
  {
  }

  /** Packet conservation and per-flow order. While no step has reported an error, each packet given to the
    * worker has been sent or dropped, or is held by its own flow, exactly once each; and the packets with
    * payload of a connection leave in the order in which they arrived. */
  lemma PacketsAreConserved(h: History, k: Key)
    requires h.IsRun() && h.NoErrors()
    ensures var w := h.End();
            var held := if k in w.flows then w.flows[k].held else [];
            && multiset(Arrived(h.ins, k)) == multiset(Retired(w.trace, k)) + multiset(held)
            && Carrying(Arrived(h.ins, k)) == Carrying(Retired(w.trace, k)) + held
  {
    hide RunAll, History.StepsAt, History.SucceedsAt, InputsOk, RunOk, Carrying, Arrived, Retired;
    RunIsOk(h);
    RunConserves(h.ins, h.fate);
    var w := h.End();
    assert Conserved(Arrived(h.ins, k), Retired(w.trace, k), HeldBy(Load(w, k).flow));
  }
}
