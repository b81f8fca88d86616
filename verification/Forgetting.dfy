/** What a delivery does with its packet when calls fail. A worker stops after a step that reports an error, so such a
  step is the last of its run. */
module Forgetting {
  import opened Wire
  import opened FlowMachine
  import opened FlowInvariants
  import opened Outcomes
  import opened Conservation
  import R = Reassembly

  /** Since call number `start` the adapter was called for the packet, with or without success. */
  ghost predicate About(t: Trace, start: nat, k: Key, p: Packet) {
    exists j :: start <= j < |t| && CallFor(t[j], k, p)
  }

  predicate CallFor(e: Event, k: Key, p: Packet) {
    (e.Done? || e.Failed?) && e.key == k && e.pkt == p
  }

  /** The packet is held by its flow, or a call since was about it. */
  ghost predicate Seen(l: Local, start: nat, k: Key, p: Packet) {
    p in HeldBy(l.flow) || About(l.trace, start, k, p)
  }

  /** The calls from `start` on were about some of these packets. */
  ghost predicate OnlyAbout(t: Trace, start: nat, ps: seq<Packet>) {
    forall j | start <= j < |t| :: (t[j].Done? || t[j].Failed?) && t[j].pkt in ps
  }

  /** Sending the held packets fails at one of them. */
  predicate SendingFails(l: Local, fate: Fate) {
    l.flow.Some? && exists j: nat :: |l.trace| <= j < |l.trace| + |l.flow.value.held| && !fate(j)
  }

  /** The packet makes a collecting flow send what it holds, before anything is done with the packet itself: it closes
    * the connection, or does not fit the budget of held bytes. */
  predicate ReleasesFirst(l: Local, pkt: Packet, c0: Config) {
    && l.flow.Some? && l.flow.value.phase == Collecting
    && if PayloadOf(pkt) == [] then HasFlag(pkt.meta.flags, RST) || HasFlag(pkt.meta.flags, FIN)
       else OverBudget(c0.maxHeldBytes, l.held, |pkt.data|)
  }

  // ---- calls ----

  lemma AboutMore(t: Trace, u: Trace, start: nat, k: Key, p: Packet)
    requires t <= u && About(t, start, k, p)
    ensures About(u, start, k, p)
  {
    hide CallFor;
    var j :| start <= j < |t| && CallFor(t[j], k, p);
    assert u[j] == t[j];
  }

  /** Calls for each packet in turn: whether all succeed, and what they are about. */
  lemma {:induction false} AllTried(t: Trace, k: Key, verb: Verb, ps: seq<Packet>, fate: Fate)
    ensures var (u, ok) := AttemptAll(t, k, verb, ps, fate);
            && t <= u && OnlyAbout(u, |t|, ps)
            && (ok <==> forall j: nat | |t| <= j < |t| + |ps| :: fate(j))
            && (ok ==> forall p | p in ps :: About(u, |t|, k, p))
    decreases |ps|
  {
    hide About, CallFor;
    if ps != [] {
      var e := Attempt(t, k, verb, ps[0], fate);
      if e.Done? {
        var u, rest := AttemptAll(t + [e], k, verb, ps[1..], fate).0, ps[1..];
        AllTried(t + [e], k, verb, rest, fate);
        assert t <= t + [e];
        FirstCall(t, u, k, verb, ps, fate);
      } else {
        assert !fate(|t|) && ps[0] in ps;
      }
    }
  }

  /** The first of the calls, with the others behind it. */
  lemma FirstCall(t: Trace, u: Trace, k: Key, verb: Verb, ps: seq<Packet>, fate: Fate)
    requires ps != [] && fate(|t|) && t + [Done(k, verb, ps[0])] <= u
    requires OnlyAbout(u, |t| + 1, ps[1..])
    ensures OnlyAbout(u, |t|, ps) && About(u, |t|, k, ps[0])
    ensures forall p | About(u, |t| + 1, k, p) :: About(u, |t|, k, p)
  {
    assert u[|t|] == Done(k, verb, ps[0]);
    assert CallFor(u[|t|], k, ps[0]);
    hide CallFor;
  }

  /** Sending what is held: it all goes out, or the hold is as it was and nothing else was called. */
  lemma ReleaseTries(l: Local, k: Key, fate: Fate)
    requires l.flow.Some?
    ensures var (m, ok) := Release(l, k, fate);
            && l.trace <= m.trace && OnlyAbout(m.trace, |l.trace|, l.flow.value.held)
            && (ok <==> !SendingFails(l, fate))
            && (ok ==> forall p | p in l.flow.value.held :: About(m.trace, |l.trace|, k, p))
            && (!ok ==> m.flow == l.flow)
  {
    hide SizeOf, About, OnlyAbout, AttemptAll;
    AllTried(l.trace, k, Send, l.flow.value.held, fate);
  }

  lemma ForwardedIsCalled(l: Local, k: Key, p: Packet, fate: Fate)
    ensures var m := Forwarded(l, k, p, fate).0;
            l.trace <= m.trace && About(m.trace, |l.trace|, k, p)
  {
    var m := Forwarded(l, k, p, fate).0;
    assert CallFor(m.trace[|l.trace|], k, p);
  }

  lemma LaterStart(t: Trace, early: nat, start: nat, k: Key, p: Packet)
    requires early <= start && About(t, start, k, p)
    ensures About(t, early, k, p)
  {
    hide CallFor;
  }

  // ---- one step ----

  /** With the packet in the hold, releasing it keeps it or calls for it. */
  lemma HeldIsSeen(h: Local, k: Key, p: Packet, remove: bool, start: nat, fate: Fate)
    requires h.flow.Some? && p in h.flow.value.held && start <= |h.trace|
    ensures Seen(ReleaseThen(h, k, remove, fate).0, start, k, p)
  {
    hide Release, About, OnlyAbout, SendingFails;
    ReleaseTries(h, k, fate);
    var (m, ok) := Release(h, k, fate);
    if ok {
      LaterStart(m.trace, start, |h.trace|, k, p);
      AboutMore(m.trace, m.trace + [Gone(k)], start, k, p);
    }
  }

  lemma InjectedIsSeen(h: Local, k: Key, p: Packet, window: nat, plan: seq<Packet>, fate: Fate)
    requires h.flow.Some? && h.flow.value.buf.Some? && h.flow.value.template.Some? && p in h.flow.value.held
    ensures Seen(Inject(h, k, window, plan, fate).0, |h.trace|, k, p)
  {
    hide AttemptAll, About, OnlyAbout, SizeOf;
    var f := h.flow.value;
    AllTried(h.trace, k, Send, plan, fate);
    var (t, ok) := AttemptAll(h.trace, k, Send, plan, fate);
    if !ok {
      HeldIsSeen(h.(trace := t), k, p, false, |h.trace|, fate);
    } else {
      AllTried(t, k, Drop, f.held, fate);
      var (u, dropped) := AttemptAll(t, k, Drop, f.held, fate);
      if dropped {
        LaterStart(u, |h.trace|, |t|, k, p);
        AboutMore(u, u + [Split(k, window, f, plan)], |h.trace|, k, p);
      }
    }
  }

  lemma TakenIsSeen(l: Local, k: Key, pkt: Packet, now: int, c0: Config, a: Action, fate: Fate)
    requires a.Hold? || a.HoldRelease? || a.HoldInject?
    requires Candidate(l.flow, pkt, now, c0).buf.Some?
    ensures Seen(Execute(l, k, pkt, now, c0, a, fate).0, |l.trace|, k, pkt)
  {
    hide Inject, ReleaseThen, Candidate, R.Push, About;
    var f := Candidate(l.flow, pkt, now, c0);
    CandidateHasTemplate(l.flow, pkt, now, c0);
    assert pkt in f.held + [pkt];
    match a
    case Hold =>
    case HoldRelease(push, remove) =>
      HeldIsSeen(if push then Admit(l, f, pkt) else Append(l, f, pkt), k, pkt, remove, |l.trace|, fate);
    case HoldInject(window, plan) => InjectedIsSeen(Admit(l, f, pkt), k, pkt, window, plan, fate);
  }

  lemma CandidateHasTemplate(flow: Option<Flow>, pkt: Packet, now: int, c0: Config)
    ensures Candidate(flow, pkt, now, c0).template == Some(pkt)
  {
  }

  /** Released first: if that fails the packet is seen only if an equal one was held. */
  lemma ReleasedFirst(h: Local, k: Key, pkt: Packet, fate: Fate)
    requires h.flow.Some?
    ensures var (m, ok) := Release(h, k, fate);
            && (ok <==> !SendingFails(h, fate))
            && var n := if ok then Forwarded(m, k, pkt, fate).0 else m;
               && (Seen(n, |h.trace|, k, pkt) <==> ok || pkt in h.flow.value.held)
               && (ok ==> Seen(Remove(n, k), |h.trace|, k, pkt))
  {
    hide Release, Forwarded, About, SendingFails;
    ReleaseTries(h, k, fate);
    var (m, ok) := Release(h, k, fate);
    if ok {
      ForwardedIsCalled(m, k, pkt, fate);
      var n := Forwarded(m, k, pkt, fate).0;
      LaterStart(n.trace, |h.trace|, |m.trace|, k, pkt);
      AboutMore(n.trace, n.trace + [Gone(k)], |h.trace|, k, pkt);
    } else if About(m.trace, |h.trace|, k, pkt) {
      CalledWasHeld(m.trace, |h.trace|, k, pkt, h.flow.value.held);
    }
  }

  lemma CalledWasHeld(t: Trace, start: nat, k: Key, p: Packet, ps: seq<Packet>)
    requires About(t, start, k, p) && OnlyAbout(t, start, ps)
    ensures p in ps
  {
  }

  lemma DecidesToRelease(l: Local, count: nat, pkt: Packet, now: int, c0: Config, c1: Config, c2: Config)
    requires Ready(l, pkt)
    ensures var a := Decide(l, count, pkt, now, c0, c1, c2);
            ReleasesFirst(l, pkt, c0) <==> a.Overflow? || (a.CloseOut? && l.flow.value.phase == Collecting)
  {
    hide DecideHeld, HasFlag, PayloadOf;
    DecideHeldIsHold(Candidate(l.flow, pkt, now, c0), l.flow.None?, l.reasm, pkt, now, c0, c1, c2);
  }

  lemma HandledIsSeen(l: Local, count: nat, k: Key, pkt: Packet, now: int, c0: Config, c1: Config, c2: Config,
                      fate: Fate)
    requires Ready(l, pkt)
    ensures Seen(Handle(l, count, k, pkt, now, c0, c1, c2, fate).0, |l.trace|, k, pkt) <==>
            !(ReleasesFirst(l, pkt, c0) && SendingFails(l, fate)) || pkt in HeldBy(l.flow)
  {
    hide Decide, Release, Forwarded, Seen, ReleasesFirst, DecideHeld, Collected, Genuine, Inject, ReleaseThen,
         PayloadOf;
    ReleasesFirstHas(l, pkt, c0);
    DecideHolds(l, count, pkt, now, c0, c1, c2);
    DecidesToRelease(l, count, pkt, now, c0, c1, c2);
    var a := Decide(l, count, pkt, now, c0, c1, c2);
    if a.Hold? || a.HoldRelease? || a.HoldInject? {
      TakenIsSeen(l, k, pkt, now, c0, a, fate);
    } else if a.Overflow? {
      ReleasedFirst(l.(flow := Some(Candidate(l.flow, pkt, now, c0))), k, pkt, fate);
    } else {
      ForwardedIsSeen(Touched(l, now), k, pkt, fate);
      if a.CloseOut? {
        ReleasedFirst(Touched(l, now), k, pkt, fate);
      }
    }
  }

  lemma ReleasesFirstHas(l: Local, pkt: Packet, c0: Config)
    ensures ReleasesFirst(l, pkt, c0) ==> l.flow.Some?
  {
  }

  lemma ForwardedIsSeen(l: Local, k: Key, pkt: Packet, fate: Fate)
    ensures var m := Forwarded(l, k, pkt, fate).0;
            Seen(m, |l.trace|, k, pkt) && Seen(Remove(m, k), |l.trace|, k, pkt)
  {
    hide Forwarded, About;
    ForwardedIsCalled(l, k, pkt, fate);
    var m := Forwarded(l, k, pkt, fate).0;
    AboutMore(m.trace, m.trace + [Gone(k)], |l.trace|, k, pkt);
  }

  // ---- every delivery ----

  /** After step `n`, a delivery, its packet is held by its flow, or some call of the step was about it. */
  ghost predicate SeenAfter(h: History, n: nat)
    requires n < |h.ins| && h.ins[n].Deliver? && |h.worlds| == |h.ins| + 1
  {
    var k := h.ins[n].InputKey();
    Seen(Load(h.worlds[n + 1], k), |h.worlds[n].trace|, k, h.ins[n].pkt)
  }

  /** No packet is forgotten, whatever calls fail, but in one case: a packet that closes the connection or does not fit
    * the budget of held bytes comes to a collecting flow, and sending what that flow holds fails. Then the packet is
    * neither sent nor held, unless one equal to it was held. */
  lemma ForgottenIff(h: History, n: nat)
    requires h.IsRun() && n < |h.ins| && h.ins[n].Deliver?
    ensures var (i, l) := (h.ins[n], Load(h.worlds[n], h.ins[n].InputKey()));
            SeenAfter(h, n) <==>
            !(ReleasesFirst(l, i.pkt, i.c0) && SendingFails(l, h.fate)) || i.pkt in HeldBy(l.flow)
  {
    hide RunAll, LocalStep, Handle, Seen, ReleasesFirst, SendingFails, FlowValid, Genuine;
    assert h.StepsAt(n);
    RunSoFar(h, n);
    RunReached(h.ins[..n], h.fate);
    StepIsLocal(h.worlds[n], h.ins[n], h.fate);
    HandleReady(h.worlds[n], h.ins[n], h.fate);
    var (i, l) := (h.ins[n], Load(h.worlds[n], h.ins[n].InputKey()));
    HandledIsSeen(l, |h.worlds[n].flows|, i.InputKey(), i.pkt, i.now, i.c0, i.c1, i.c2, h.fate);
    SeenWhere(Load(h.worlds[n + 1], i.InputKey()),
      Handle(l, |h.worlds[n].flows|, i.InputKey(), i.pkt, i.now, i.c0, i.c1, i.c2, h.fate).0, |h.worlds[n].trace|,
      i.InputKey(), i.pkt);
  }

  lemma HandleReady(w: World, i: Input, fate: Fate)
    requires InputOk(i) && i.Deliver?
    requires Load(w, i.InputKey()).flow.Some? ==> FlowValid(i.InputKey(), Load(w, i.InputKey()).flow.value)
    ensures var l := Load(w, i.InputKey());
            && Ready(l, i.pkt)
            && LocalStep(l, |w.flows|, i, fate) ==
               Handle(l, |w.flows|, i.InputKey(), i.pkt, i.now, i.c0, i.c1, i.c2, fate)
  {
    hide Handle, Genuine;
  }

  lemma SeenWhere(l: Local, m: Local, start: nat, k: Key, p: Packet)
    requires l.flow == m.flow && l.trace == m.trace
    ensures Seen(l, start, k, p) == Seen(m, start, k, p)
  {
    hide About;
  }
}
