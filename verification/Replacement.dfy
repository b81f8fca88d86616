/** Captured packets are dropped only in exchange for a complete injection. */
module Replacement {
  import opened Wire
  import opened FlowMachine
  import opened FlowInvariants
  import opened Outcomes
  import opened C = Conservation

  /** Events `start` to `j` are one injection: the whole plan is sent, then every packet the flow held is
    * dropped, in order, with nothing in between, and `j` records it. */
  ghost predicate Exchange(t: Trace, start: nat, j: nat) {
    && j < |t| && t[j].Split?
    && start + |t[j].plan| + |t[j].flow.held| == j
    && (forall p | p in t[j].plan :: p.source == Rebuilt)
    && t[start..j] == Dones(t[j].key, Send, t[j].plan) + Dones(t[j].key, Drop, t[j].flow.held)
  }

  /** Event `i` is one of the drops of that injection. */
  ghost predicate DropOf(t: Trace, start: nat, j: nat, i: nat) {
    Exchange(t, start, j) && start + |t[j].plan| <= i < j
  }

  predicate DropsCaptured(e: Event) {
    e.Done? && e.verb == Drop && e.pkt.source == Captured
  }

  ghost predicate Justified(t: Trace, i: nat)
    requires i < |t|
  {
    && (DropsCaptured(t[i]) ==> exists start: nat, j: nat :: DropOf(t, start, j, i))
    && (t[i].Split? ==> exists start: nat :: Exchange(t, start, i))
  }

  ghost predicate AllJustified(t: Trace) {
    forall i: nat | i < |t| :: Justified(t, i)
  }

  lemma ExchangeStays(t: Trace, e: Trace, start: nat, j: nat)
    requires Exchange(t, start, j)
    ensures Exchange(t + e, start, j) && j < |t| && (t + e)[j] == t[j]
  {
    assert (t + e)[start..j] == t[start..j];
  }

  lemma JustifiedStays(t: Trace, e: Trace, i: nat)
    requires i < |t| && Justified(t, i)
    ensures Justified(t + e, i)
  {
    hide Exchange;
    if DropsCaptured(t[i]) {
      var start: nat, j: nat :| DropOf(t, start, j, i);
      ExchangeStays(t, e, start, j);
      assert DropOf(t + e, start, j, i);
    }
    if t[i].Split? {
      var start: nat :| Exchange(t, start, i);
      ExchangeStays(t, e, start, i);
    }
  }

  lemma QuietJustified(t: Trace, i: nat)
    requires i < |t| && !DropsCaptured(t[i]) && !t[i].Split?
    ensures Justified(t, i)
  {
  }

  lemma ExchangeJustified(t: Trace, start: nat, j: nat, i: nat)
    requires Exchange(t, start, j) && start + |t[j].plan| <= i <= j
    requires i < j ==> !t[i].Split?
    ensures Justified(t, i)
  {
    assert i < j ==> DropOf(t, start, j, i);
  }

  /** A step that only sends has nothing to justify. */
  lemma SendsJustified(k: Key, t: Trace, events: Trace, out: seq<Packet>)
    requires Sends(k, events, out) && AllJustified(t)
    ensures AllJustified(t + events)
  {
    hide Justified;
    forall i: nat | i < |t + events| ensures Justified(t + events, i) {
      if i < |t| {
        JustifiedStays(t, events, i);
      } else {
        assert (t + events)[i] == events[i - |t|];
        SendsOnly(k, events, out, i - |t|);
        QuietJustified(t + events, i);
      }
    }
  }

  lemma SendsOnly(k: Key, events: Trace, out: seq<Packet>, i: nat)
    requires Sends(k, events, out) && i < |events|
    ensures !DropsCaptured(events[i]) && !events[i].Split?
  {
    var noise, gone :| Noise(k, noise) && (gone == [] || gone == [Gone(k)])
      && events == noise + Dones(k, Send, out) + gone;
    if i < |noise| {
      assert events[i] == noise[i];
    } else if i < |noise| + |out| {
      assert events[i] == Done(k, Send, out[i - |noise|]);
    }
  }

  /** The new events of an injection are one exchange. */
  lemma InjectionExchanges(k: Key, t: Trace, held: seq<Packet>, events: Trace, window: nat, g: Flow, plan: seq<Packet>)
    requires Injection(k, held, events, window, g, plan)
    ensures Exchange(t + events, |t|, |t| + |events| - 1)
    ensures |events| == |plan| + |held| + 1 && (t + events)[|t| + |events| - 1] == Split(k, window, g, plan)
    ensures forall i | |t| <= i < |t| + |events| - 1 :: !(t + events)[i].Split?
    ensures forall i | |t| <= i < |t| + |plan| :: !DropsCaptured((t + events)[i])
  {
    var u, j := t + events, |t| + |events| - 1;
    forall i | |t| <= i < j ensures !u[i].Split? && (i < |t| + |plan| ==> !DropsCaptured(u[i])) {
      assert u[i] == (Dones(k, Send, plan) + Dones(k, Drop, held))[i - |t|];
    }
    assert u[j] == Split(k, window, g, plan);
    assert u[|t|..j] == Dones(k, Send, plan) + Dones(k, Drop, held);
  }

  lemma InjectionJustified(k: Key, t: Trace, held: seq<Packet>, events: Trace, window: nat, g: Flow, plan: seq<Packet>)
    requires Injection(k, held, events, window, g, plan) && AllJustified(t)
    ensures AllJustified(t + events)
  {
    InjectionExchanges(k, t, held, events, window, g, plan);
    hide Injection, Exchange, Justified, DropsCaptured;
    var u, j := t + events, |t| + |events| - 1;
    forall i: nat | i < |u| ensures Justified(u, i) {
      if i < |t| {
        JustifiedStays(t, events, i);
      } else if i < |t| + |plan| {
        QuietJustified(u, i);
      } else {
        ExchangeJustified(u, |t|, j, i);
      }
    }
  }

  lemma OutcomeJustified(k: Key, l: Local, pkts: seq<Packet>, m: Local)
    requires Outcome(k, l, pkts, m) && AllJustified(l.trace)
    ensures AllJustified(m.trace)
  {
    hide Sends, HeldBy, Injection, AllJustified;
    var events := m.trace[|l.trace|..];
    assert m.trace == l.trace + events;
    if Ordinary(k, HeldBy(l.flow), pkts, events, HeldBy(m.flow)) {
      var out :| Sends(k, events, out)
        && (out + HeldBy(m.flow) == HeldBy(l.flow) + pkts
            || (out == pkts && HeldBy(m.flow) == HeldBy(l.flow) && forall p | p in pkts :: PayloadOf(p) == []));
      SendsJustified(k, l.trace, events, out);
    } else {
      var window, g, plan :| Injection(k, HeldBy(l.flow) + pkts, events, window, g, plan);
      InjectionJustified(k, l.trace, HeldBy(l.flow) + pkts, events, window, g, plan);
    }
  }

  lemma {:induction false} RunJustified(ins: seq<Input>, fate: Fate)
    requires InputsOk(ins) && RunOk(ins, fate)
    ensures AllJustified(RunAll(ins, fate).trace)
    decreases |ins|
  {
    hide Sane, InputOk, LocalStep, Reached, AllJustified, Outcome, FlowValid, Accounted, T.Grows;
    if ins == [] {
      NothingJustified();
    } else {
      var n := |ins| - 1;
      var w := RunAll(ins[..n], fate);
      RunJustified(ins[..n], fate);
      RunReached(ins[..n], fate);
      StepIsLocal(w, ins[n], fate);
      var l := Load(w, ins[n].InputKey());
      LocalStepOutcome(l, |w.flows|, ins[n], fate);
      OutcomeJustified(ins[n].InputKey(), l, PacketsOf(ins[n]), LocalStep(l, |w.flows|, ins[n], fate).0);
    }
  }

  lemma NothingJustified()
    ensures AllJustified([])
  {
  }

  /** Nothing is dropped for nothing. While no step has reported an error, a captured packet has been dropped only
    * inside an exchange: every packet of the plan had been sent just before, every packet the flow held went the
    * same way, and every recorded injection is such an exchange. */
  lemma DropsAreExchanges(h: History, i: nat)
    requires h.IsRun() && h.NoErrors() && i < |h.End().trace|
    ensures var t := h.End().trace;
            && (DropsCaptured(t[i]) ==> exists start: nat, j: nat :: DropOf(t, start, j, i))
            && (t[i].Split? ==> exists start: nat :: Exchange(t, start, i))
  {
    hide RunAll, History.StepsAt, History.SucceedsAt, InputsOk, RunOk, Exchange, DropOf;
    RunIsOk(h);
    RunJustified(h.ins, h.fate);
    assert Justified(h.End().trace, i);
  }
}
