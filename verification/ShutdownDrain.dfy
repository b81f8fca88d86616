/** The worker's last act: releasing what is held and queued, within a limit. */
module ShutdownDrain {
  import opened Words
  import opened Wire
  import opened FlowMachine

  datatype DrainError = ContextDone | LimitReached | SendFailure

  /** What the environment answers to one send: done, a context error, or some other failure. */
  datatype Answer = Accepted | ContextError | OtherError

  /** The held packets in the order in which the table is visited. */
  function HeldIn(flows: map<Key, seq<Packet>>, order: seq<Key>): seq<Packet>
    requires forall k | k in order :: k in flows
  {
    if order == [] then [] else HeldIn(flows, order[..|order| - 1]) + flows[order[|order| - 1]]
  }

  /** Each tabled flow is visited exactly once. */
  ghost predicate Enumerates(order: seq<Key>, flows: map<Key, seq<Packet>>) {
    && (forall k :: k in order <==> k in flows)
    && (forall i, j | 0 <= i < j < |order| :: order[i] != order[j])
  }

  const DEFAULT_MAX: nat := 200000

  function Limit(configured: int): nat {
    if configured > 0 then configured else DEFAULT_MAX
  }

  // ---- the calls that were made ----

  /** One send that was called, and whether it succeeded. */
  datatype SendCall = SendCall(pkt: Packet, ok: bool)

  /** The packets that were offered to the adapter, in order. */
  function Offered(log: seq<SendCall>): seq<Packet> {
    seq(|log|, i requires 0 <= i < |log| => log[i].pkt)
  }

  /** Those of them that were sent. */
  function Sent(log: seq<SendCall>): seq<Packet> {
    if log == [] then []
    else
      var c := log[|log| - 1];
      Sent(log[..|log| - 1]) + if c.ok then [c.pkt] else []
  }

  predicate AllOk(log: seq<SendCall>) {
    forall i | 0 <= i < |log| :: log[i].ok
  }

  lemma LogNext(log: seq<SendCall>, c: SendCall)
    ensures Offered(log + [c]) == Offered(log) + [c.pkt]
    ensures Sent(log + [c]) == Sent(log) + if c.ok then [c.pkt] else []
  {
    assert (log + [c])[..|log|] == log;
  }

  /** Since `before`, exactly the packets `ps` were offered, in order; `failed` says whether a send of them failed. */
  ghost predicate Offers(before: seq<SendCall>, log: seq<SendCall>, ps: seq<Packet>, failed: bool) {
    before <= log && Offered(log) == Offered(before) + ps && (failed <==> !AllOk(log[|before|..]))
  }

  lemma OffersNone(log: seq<SendCall>)
    ensures Offers(log, log, [], false)
  {
  }

  lemma OffersOne(before: seq<SendCall>, log: seq<SendCall>, ps: seq<Packet>, failed: bool, c: SendCall)
    requires Offers(before, log, ps, failed)
    ensures Offers(before, log + [c], ps + [c.pkt], failed || !c.ok)
  {
    hide Sent;
    LogNext(log, c);
    var now, was := (log + [c])[|before|..], log[|before|..];
    assert now == was + [c];
    if failed {
      var i :| 0 <= i < |was| && !was[i].ok;
      assert !now[i].ok;
    } else {
      assert now[|was|] == c;
      assert forall i | 0 <= i < |was| :: now[i] == was[i];
    }
  }

  lemma OffersBoth(a: seq<SendCall>, b: seq<SendCall>, c: seq<SendCall>, ps: seq<Packet>, qs: seq<Packet>, f: bool,
                   g: bool)
    requires Offers(a, b, ps, f) && Offers(b, c, qs, g)
    ensures Offers(a, c, ps + qs, f || g)
  {
    hide Offered;
    var left, right, both := b[|a|..], c[|b|..], c[|a|..];
    assert both == left + right;
    if f {
      var i :| 0 <= i < |left| && !left[i].ok;
      assert !both[i].ok;
    } else if g {
      var i :| 0 <= i < |right| && !right[i].ok;
      assert !both[|left| + i].ok;
    } else {
      assert forall i | 0 <= i < |left| :: both[i] == left[i];
      assert forall i | |left| <= i < |both| :: both[i] == right[i - |left|];
    }
  }

  /** From an empty log. */
  lemma OffersFromNothing(log: seq<SendCall>, ps: seq<Packet>, failed: bool)
    requires Offers([], log, ps, failed)
    ensures Offered(log) == ps && |Sent(log)| <= |ps|
    ensures (Sent(log) == ps <==> !failed) && (|Sent(log)| == |ps| <==> !failed)
  {
    SentIsOffered(log);
    assert log[0..] == log && Offered([]) == [] && [] + ps == ps;
    assert |Offered(log)| == |log|;
  }

  lemma TakeNext(ps: seq<Packet>, i: nat)
    requires i < |ps|
    ensures ps[..i + 1] == ps[..i] + [ps[i]]
  {
  }

  /** One packet more was offered. */
  lemma OffersNext(before: seq<SendCall>, log: seq<SendCall>, ps: seq<Packet>, i: nat, failed: bool, ok: bool)
    requires i < |ps| && Offers(before, log, ps[..i], failed)
    ensures Offers(before, log + [SendCall(ps[i], ok)], ps[..i + 1], failed || !ok)
  {
    hide Offers;
    TakeNext(ps, i);
    OffersOne(before, log, ps[..i], failed, SendCall(ps[i], ok));
  }

  /** A log of successful sends is what was sent; a failed one leaves less. */
  lemma {:induction false} SentIsOffered(log: seq<SendCall>)
    ensures |Sent(log)| <= |log|
    ensures Sent(log) == Offered(log) <==> AllOk(log)
    ensures |Sent(log)| == |log| <==> AllOk(log)
  {
    if log != [] {
      var n := |log| - 1;
      SentIsOffered(log[..n]);
      LogNext(log[..n], log[n]);
      assert log == log[..n] + [log[n]];
    }
  }

  // ---- when a drain stops ----

  /** What answers each send and each look at the context, by the tick of the clock, and the limit. */
  datatype Environment = Environment(answers: nat -> Answer, expired: nat -> bool, limit: nat)

  /** How a phase ended: why, how many packets were offered and how many taken, and clock and count after it. */
  datatype Course = Course(stop: Option<DrainError>, offered: nat, taken: nat, clock: nat, flushed: nat)

  function Later(n: nat, c: Course): Course {
    c.(offered := c.offered + n, taken := c.taken + n)
  }

  function Grant(a: Answer): nat {
    if a == Accepted then 1 else 0
  }

  /** Phase one with `k` packets to go: a look at the context and a send for each. */
  function HeldCourse(e: Environment, clock: nat, flushed: nat, k: nat): Course
    decreases k
  {
    if k == 0 then Course(None, 0, 0, clock, flushed)
    else if e.expired(clock) then Course(Some(ContextDone), 0, 0, clock + 1, flushed)
    else if flushed >= e.limit then Course(Some(LimitReached), 0, 0, clock + 1, flushed)
    else
      var a := e.answers(clock + 1);
      if a == ContextError then Course(Some(ContextDone), 1, 1, clock + 2, flushed)
      else Later(1, HeldCourse(e, clock + 2, flushed + Grant(a), k - 1))
  }

  /** Phase two with `k` packets queued: a look before and a look after taking a packet, and its send. */
  function QueueCourse(e: Environment, clock: nat, flushed: nat, k: nat): Course
    decreases k
  {
    if e.expired(clock) then Course(Some(ContextDone), 0, 0, clock + 1, flushed)
    else if flushed >= e.limit then Course(Some(LimitReached), 0, 0, clock + 1, flushed)
    else if k == 0 then Course(None, 0, 0, clock + 1, flushed)
    else if e.expired(clock + 1) then Course(Some(ContextDone), 0, 1, clock + 2, flushed)
    else
      var a := e.answers(clock + 2);
      if a == ContextError then Course(Some(ContextDone), 1, 1, clock + 3, flushed)
      else Later(1, QueueCourse(e, clock + 3, flushed + Grant(a), k - 1))
  }

  /** The course of phase two, one packet at a time. */
  lemma QueueCourseNext(e: Environment, clock: nat, flushed: nat, k: nat)
    ensures var (c, a) := (QueueCourse(e, clock, flushed, k), e.answers(clock + 2));
            if e.expired(clock) then c == Course(Some(ContextDone), 0, 0, clock + 1, flushed)
            else if flushed >= e.limit then c == Course(Some(LimitReached), 0, 0, clock + 1, flushed)
            else if k == 0 then c == Course(None, 0, 0, clock + 1, flushed)
            else if e.expired(clock + 1) then c == Course(Some(ContextDone), 0, 1, clock + 2, flushed)
            else if a == ContextError then c == Course(Some(ContextDone), 1, 1, clock + 3, flushed)
            else c == Later(1, QueueCourse(e, clock + 3, flushed + Grant(a), k - 1))
  {
  }

  lemma LaterLater(a: nat, b: nat, c: Course)
    ensures Later(a, Later(b, c)) == Later(a + b, c) && Later(0, c) == c
  {
  }

  /** Phase one may be looked at flow by flow. */
  lemma {:induction false} HeldCourseSplits(e: Environment, clock: nat, flushed: nat, a: nat, b: nat)
    ensures var c := HeldCourse(e, clock, flushed, a);
            HeldCourse(e, clock, flushed, a + b) ==
            if c.stop.Some? then c else Later(a, HeldCourse(e, c.clock, c.flushed, b))
    ensures HeldCourse(e, clock, flushed, a).stop.None? ==> HeldCourse(e, clock, flushed, a).offered == a
    decreases a
  {
    if a > 0 && !e.expired(clock) && flushed < e.limit && e.answers(clock + 1) != ContextError {
      HeldCourseSplits(e, clock + 2, flushed + Grant(e.answers(clock + 1)), a - 1, b);
    }
  }

  /** With the first `n` of `k` packets offered, phase one has this much to go. */
  ghost predicate HeldToGo(e: Environment, start: Course, k: nat, n: nat, clock: nat, flushed: nat) {
    n <= k && HeldCourse(e, start.clock, start.flushed, k) == Later(n, HeldCourse(e, clock, flushed, k - n))
  }

  lemma HeldToGoFirst(e: Environment, start: Course, k: nat)
    ensures HeldToGo(e, start, k, 0, start.clock, start.flushed)
  {
  }

  lemma HeldToGoNone(e: Environment, start: Course, k: nat, clock: nat, flushed: nat)
    requires HeldToGo(e, start, k, k, clock, flushed)
    ensures HeldCourse(e, start.clock, start.flushed, k) == Course(None, k, k, clock, flushed)
  {
  }

  lemma HeldToGoNext(e: Environment, start: Course, k: nat, n: nat, clock: nat, flushed: nat, more: nat, c: Course)
    requires HeldToGo(e, start, k, n, clock, flushed) && n + more <= k
    requires HeldCourse(e, clock, flushed, more) == c && c.offered == c.taken
    ensures if c.stop.Some? then HeldCourse(e, start.clock, start.flushed, k) == Later(n, c)
            else HeldToGo(e, start, k, n + more, c.clock, c.flushed)
  {
    hide HeldCourse;
    HeldCourseSplits(e, clock, flushed, more, k - n - more);
  }

  /** With the first `n` of `k` packets offered, phase two has this much to go. */
  ghost predicate QueueToGo(e: Environment, start: Course, k: nat, n: nat, clock: nat, flushed: nat) {
    n <= k && QueueCourse(e, start.clock, start.flushed, k) == Later(n, QueueCourse(e, clock, flushed, k - n))
  }

  lemma QueueToGoFirst(e: Environment, start: Course, k: nat)
    ensures QueueToGo(e, start, k, 0, start.clock, start.flushed)
  {
  }

  lemma QueueToGoNext(e: Environment, start: Course, k: nat, n: nat, clock: nat, flushed: nat, c: Course)
    requires QueueToGo(e, start, k, n, clock, flushed)
    ensures QueueCourse(e, clock, flushed, k - n) == c ==>
              QueueCourse(e, start.clock, start.flushed, k) == Later(n, c)
    ensures n < k && QueueCourse(e, clock, flushed, k - n) ==
            Later(1, QueueCourse(e, c.clock, c.flushed, k - n - 1)) ==>
              QueueToGo(e, start, k, n + 1, c.clock, c.flushed)
  {
    hide QueueCourse;
  }

  // ---- phase one, packet by packet ----

  /** Held packet number `i` gets through: the context is not over before it, and its send says so too. */
  ghost predicate HeldPasses(e: Environment, start: nat, i: nat) {
    !e.expired(start + 2 * i) && e.answers(start + 2 * i + 1) != ContextError
  }

  /** How many of the first `m` held packets are sent. */
  function HeldGranted(e: Environment, start: nat, m: nat): nat
    decreases m
  {
    if m == 0 then 0 else Grant(e.answers(start + 1)) + HeldGranted(e, start + 2, m - 1)
  }

  /** Held packet number `m` is offered: all before it get through, the limit is not used up, the context not over. */
  ghost predicate HeldComes(e: Environment, start: nat, flushed: nat, m: nat) {
    && (forall i | 0 <= i < m :: HeldPasses(e, start, i))
    && !e.expired(start + 2 * m) && flushed + HeldGranted(e, start, m) < e.limit
  }

  lemma HeldComesLater(e: Environment, start: nat, flushed: nat, m: nat)
    requires HeldPasses(e, start, 0)
    ensures HeldComes(e, start, flushed, m + 1) <==>
            HeldComes(e, start + 2, flushed + Grant(e.answers(start + 1)), m)
  {
    hide HeldPasses, Grant;
    var later := start + 2;
    forall i: nat ensures HeldPasses(e, later, i) == HeldPasses(e, start, i + 1) {
      HeldPassesLater(e, start, i);
    }
    if HeldComes(e, start, flushed, m + 1) {
      forall i | 0 <= i < m ensures HeldPasses(e, later, i) {
        assert HeldPasses(e, start, i + 1);
      }
    }
    if HeldComes(e, later, flushed + Grant(e.answers(start + 1)), m) {
      forall i | 0 <= i < m + 1 ensures HeldPasses(e, start, i) {
        if i > 0 {
          assert HeldPasses(e, later, i - 1);
        }
      }
    }
  }

  lemma HeldPassesLater(e: Environment, start: nat, i: nat)
    ensures HeldPasses(e, start + 2, i) == HeldPasses(e, start, i + 1)
  {
  }

  lemma HeldComesFirst(e: Environment, start: nat, flushed: nat, m: nat)
    requires HeldComes(e, start, flushed, m)
    ensures !e.expired(start) && flushed < e.limit && (m > 0 ==> HeldPasses(e, start, 0))
  {
    hide HeldGranted;
    if m > 0 {
      assert HeldPasses(e, start, 0);
    }
  }

  /** Which of `k` held packets are offered. */
  lemma {:induction false} HeldOfferedIff(e: Environment, start: nat, flushed: nat, k: nat, m: nat)
    ensures HeldCourse(e, start, flushed, k).offered > m <==> m < k && HeldComes(e, start, flushed, m)
    decreases k
  {
    hide HeldComes;
    if HeldComes(e, start, flushed, m) {
      HeldComesFirst(e, start, flushed, m);
    }
    if k > 0 && !e.expired(start) && flushed < e.limit {
      if m == 0 {
        HeldComesAtOnce(e, start, flushed);
      } else if e.answers(start + 1) != ContextError {
        HeldOfferedIff(e, start + 2, flushed + Grant(e.answers(start + 1)), k - 1, m - 1);
        HeldComesLater(e, start, flushed, m - 1);
      }
    }
  }

  lemma HeldComesAtOnce(e: Environment, start: nat, flushed: nat)
    ensures HeldComes(e, start, flushed, 0) <==> !e.expired(start) && flushed < e.limit
  {
  }

  // ---- phase two, packet by packet ----

  /** Queued packet number `i` gets through: the context is not over at either look at it, and its send says so too. */
  ghost predicate Passes(e: Environment, start: nat, i: nat) {
    !e.expired(start + 3 * i) && !e.expired(start + 3 * i + 1) && e.answers(start + 3 * i + 2) != ContextError
  }

  /** How many of the first `m` queued packets are sent. */
  function Granted(e: Environment, start: nat, m: nat): nat
    decreases m
  {
    if m == 0 then 0 else Grant(e.answers(start + 2)) + Granted(e, start + 3, m - 1)
  }

  /** The drain looks for a packet number `m`: all before it get through, the limit is not used up, and the context is
    * not over. */
  ghost predicate Comes(e: Environment, start: nat, flushed: nat, m: nat) {
    && (forall i | 0 <= i < m :: Passes(e, start, i))
    && !e.expired(start + 3 * m) && flushed + Granted(e, start, m) < e.limit
  }

  /** Packet number `m` of `waiting` queued ones is taken and goes nowhere: the context ends between the two looks at
    * it. */
  ghost predicate GoesNowhere(e: Environment, start: nat, flushed: nat, waiting: nat, m: nat) {
    m < waiting && Comes(e, start, flushed, m) && e.expired(start + 3 * m + 1)
  }

  lemma PassesLater(e: Environment, start: nat, i: nat)
    ensures Passes(e, start + 3, i) == Passes(e, start, i + 1)
  {
  }

  /** With the first packet through, the rest is the same story three ticks later. */
  lemma ComesLater(e: Environment, start: nat, flushed: nat, m: nat)
    requires Passes(e, start, 0)
    ensures Comes(e, start, flushed, m + 1) <==> Comes(e, start + 3, flushed + Grant(e.answers(start + 2)), m)
  {
    hide Passes, Grant;
    var later := start + 3;
    forall i: nat ensures Passes(e, later, i) == Passes(e, start, i + 1) {
      PassesLater(e, start, i);
    }
    if Comes(e, start, flushed, m + 1) {
      forall i | 0 <= i < m ensures Passes(e, later, i) {
        assert Passes(e, start, i + 1);
      }
    }
    if Comes(e, later, flushed + Grant(e.answers(start + 2)), m) {
      forall i | 0 <= i < m + 1 ensures Passes(e, start, i) {
        if i > 0 {
          assert Passes(e, later, i - 1);
        }
      }
    }
  }

  lemma ComesFirst(e: Environment, start: nat, flushed: nat, m: nat)
    requires Comes(e, start, flushed, m)
    ensures !e.expired(start) && flushed < e.limit && (m > 0 ==> Passes(e, start, 0))
  {
    hide Granted;
    if m > 0 {
      assert Passes(e, start, 0);
    }
  }

  lemma ComesAtOnce(e: Environment, start: nat, flushed: nat)
    ensures Comes(e, start, flushed, 0) <==> !e.expired(start) && flushed < e.limit
  {
  }

  /** Which of the queued packets are taken, and which are offered; and the drain gets to the end of the queue if and
    * only if it comes to look for one packet more. */
  lemma {:induction false} TakenIff(e: Environment, start: nat, flushed: nat, waiting: nat, m: nat)
    ensures var c := QueueCourse(e, start, flushed, waiting);
            && c.offered <= c.taken <= c.offered + 1 && c.taken <= waiting
            && (c.taken > m <==> m < waiting && Comes(e, start, flushed, m))
            && (c.offered > m <==> m < waiting && Comes(e, start, flushed, m) && !e.expired(start + 3 * m + 1))
            && (m == waiting ==> (c.stop.None? <==> Comes(e, start, flushed, m)))
            && (c.stop.None? ==> c.offered == waiting && c.flushed == flushed + Granted(e, start, waiting))
    decreases waiting
  {
    hide Comes, QueueCourse;
    QueueCourseNext(e, start, flushed, waiting);
    ComesAtOnce(e, start, flushed);
    if Comes(e, start, flushed, m) {
      ComesFirst(e, start, flushed, m);
    }
    if waiting > 0 && !e.expired(start) && !e.expired(start + 1) && e.answers(start + 2) != ContextError {
      TakenIff(e, start + 3, flushed + Grant(e.answers(start + 2)), waiting - 1, if m == 0 then 0 else m - 1);
      if m > 0 {
        ComesLater(e, start, flushed, m - 1);
      }
    }
  }

  /** The drain takes a packet without offering it if and only if there is one that goes nowhere, and then exactly the
    * packets before that one were offered. */
  lemma NowhereIff(e: Environment, start: nat, flushed: nat, waiting: nat)
    ensures var c := QueueCourse(e, start, flushed, waiting);
            && c.offered <= c.taken <= c.offered + 1 && c.taken <= waiting
            && (c.taken > c.offered <==> exists m: nat :: GoesNowhere(e, start, flushed, waiting, m))
            && forall m: nat :: GoesNowhere(e, start, flushed, waiting, m) ==> m == c.offered
  {
    hide Comes, QueueCourse;
    var c := QueueCourse(e, start, flushed, waiting);
    TakenIff(e, start, flushed, waiting, c.offered);
    if c.taken > c.offered {
      assert GoesNowhere(e, start, flushed, waiting, c.offered);
    }
    forall m: nat | GoesNowhere(e, start, flushed, waiting, m) ensures c.offered <= m < c.taken {
      TakenIff(e, start, flushed, waiting, m);
    }
  }

  // ---- both phases ----

  /** The whole shutdown, with `held` packets held and `waiting` queued. */
  function WholeCourse(e: Environment, clock: nat, flushed: nat, held: nat, waiting: nat): Course {
    var c := HeldCourse(e, clock, flushed, held);
    if c.stop.Some? then c else Later(held, QueueCourse(e, c.clock, c.flushed, waiting))
  }

  /** All held packets get through: the last one is offered, and its send does not end the context. */
  ghost predicate HeldAllPass(e: Environment, start: nat, flushed: nat, held: nat) {
    held == 0 || (HeldComes(e, start, flushed, held - 1) && HeldPasses(e, start, held - 1))
  }

  /** Queued packet number `m` is lost by a shutdown: all held ones get through, and it goes nowhere. */
  ghost predicate Lost(e: Environment, start: nat, held: nat, waiting: nat, m: nat) {
    && HeldAllPass(e, start, 0, held)
    && GoesNowhere(e, start + 2 * held, HeldGranted(e, start, held), waiting, m)
  }

  /** Packet number `m` of all is offered to the adapter. */
  ghost predicate Reached(e: Environment, start: nat, held: nat, waiting: nat, m: nat) {
    if m < held then HeldComes(e, start, 0, m)
    else
      && m < held + waiting && HeldAllPass(e, start, 0, held)
      && Comes(e, start + 2 * held, HeldGranted(e, start, held), m - held)
      && !e.expired(start + 2 * held + 3 * (m - held) + 1)
  }

  /** How many are sent by a shutdown that comes to its end. */
  function AllGranted(e: Environment, start: nat, held: nat, waiting: nat): nat {
    HeldGranted(e, start, held) + Granted(e, start + 2 * held, waiting)
  }

  /** The shutdown comes to its end: all held packets get through, and the drain looks for one more than are queued. */
  ghost predicate ComesToTheEnd(e: Environment, start: nat, held: nat, waiting: nat) {
    && HeldAllPass(e, start, 0, held)
    && Comes(e, start + 2 * held, HeldGranted(e, start, held), waiting)
  }

  /** Phase one comes to its end if and only if all held packets get through. */
  lemma {:induction false} HeldThrough(e: Environment, start: nat, flushed: nat, held: nat)
    ensures var c := HeldCourse(e, start, flushed, held);
            && c.taken == c.offered <= held
            && (c.stop.None? <==> HeldAllPass(e, start, flushed, held))
            && (c.stop.None? ==> c.offered == held && c.clock == start + 2 * held
                                 && c.flushed == flushed + HeldGranted(e, start, held))
    decreases held
  {
    hide HeldComes;
    HeldComesAtOnce(e, start, flushed);
    if held > 0 && HeldComes(e, start, flushed, held - 1) {
      HeldComesFirst(e, start, flushed, held - 1);
    }
    if held > 0 && !e.expired(start) && flushed < e.limit && e.answers(start + 1) != ContextError {
      var f := flushed + Grant(e.answers(start + 1));
      HeldThrough(e, start + 2, f, held - 1);
      if held > 1 {
        HeldComesLater(e, start, flushed, held - 2);
        HeldPassesLater(e, start, held - 2);
      }
    }
  }

  /** Which packets a shutdown offers. */
  lemma ReachedIff(e: Environment, start: nat, held: nat, waiting: nat, m: nat)
    ensures m < WholeCourse(e, start, 0, held, waiting).offered <==> Reached(e, start, held, waiting, m)
  {
    hide HeldCourse, QueueCourse, HeldAllPass, HeldComes, Comes, HeldGranted;
    HeldThrough(e, start, 0, held);
    HeldOfferedIff(e, start, 0, held, m);
    if HeldAllPass(e, start, 0, held) && m >= held {
      TakenIff(e, start + 2 * held, HeldGranted(e, start, held), waiting, m - held);
    }
  }

  /** A shutdown comes to its end exactly when nothing stops it, and a packet is lost exactly when one goes nowhere. */
  lemma LostIff(e: Environment, start: nat, held: nat, waiting: nat)
    ensures var c := WholeCourse(e, start, 0, held, waiting);
            && c.offered <= c.taken <= c.offered + 1 && c.taken <= held + waiting
            && (c.stop.None? <==> ComesToTheEnd(e, start, held, waiting))
            && (c.stop.None? ==> c.flushed == AllGranted(e, start, held, waiting))
            && (c.taken > c.offered <==> exists m: nat :: Lost(e, start, held, waiting, m))
            && forall m: nat :: Lost(e, start, held, waiting, m) ==> held + m == c.offered
  {
    hide HeldCourse, QueueCourse, HeldAllPass, GoesNowhere, Comes, HeldGranted, Granted;
    HeldThrough(e, start, 0, held);
    if HeldAllPass(e, start, 0, held) {
      var at, sent := start + 2 * held, HeldGranted(e, start, held);
      NowhereIff(e, at, sent, waiting);
      TakenIff(e, at, sent, waiting, waiting);
      forall m: nat ensures Lost(e, start, held, waiting, m) <==> GoesNowhere(e, at, sent, waiting, m) {
      }
    }
  }

  /** What one turn of the drain loop did. */
  datatype Turn = Over(stop: Option<DrainError>) | Taken(err: Option<DrainError>)

  /** A worker whose run loop has ended: the table no longer changes, the queue is drained from the front. */
  class StoppedWorker {
    const flows: map<Key, seq<Packet>>
    const answers: nat -> Answer
    const expired: nat -> bool
    const maxPackets: nat
    var queue: seq<Packet>
    var clock: nat
    var flushed: nat
    ghost var log: seq<SendCall>

    constructor (flows: map<Key, seq<Packet>>, queue: seq<Packet>, configured: int, answers: nat -> Answer,
                 expired: nat -> bool)
      ensures Valid() && this.flows == flows && this.queue == queue && log == [] && clock == 0 && flushed == 0
      ensures maxPackets == Limit(configured) && this.answers == answers && this.expired == expired
      ensures maxPackets == if configured > 0 then configured else 200000
    {
      this.flows, this.queue, this.answers, this.expired := flows, queue, answers, expired;
      maxPackets, clock, flushed, log := Limit(configured), 0, 0, [];
    }

    ghost predicate Valid()
      reads this
    {
      flushed == |Sent(log)| <= maxPackets && maxPackets > 0
    }

    /** The environment never refuses a send and never runs out of time. */
    ghost predicate Calm()
    {
      forall n: nat :: answers(n) == Accepted && !expired(n)
    }

    /** What decides how the drain goes. */
    ghost function Env(): Environment {
      Environment(answers, expired, maxPackets)
    }

    method ContextErr() returns (e: bool)
      modifies this`clock
      ensures e == expired(old(clock)) && clock == old(clock) + 1
    {
      e := expired(clock);
      clock := clock + 1;
    }

    /** Send one packet, unless the context is done or the limit is reached. */
    method Reinject(p: Packet) returns (err: Option<DrainError>)
      requires Valid()
      modifies this`clock, this`log, this`flushed
      ensures Valid()
      ensures match err
              case None => log == old(log) + [SendCall(p, true)]
              case Some(SendFailure) => log == old(log) + [SendCall(p, false)]
              case Some(LimitReached) => log == old(log) && flushed == maxPackets
              case Some(ContextDone) => log == if expired(old(clock)) then old(log) else old(log) + [SendCall(p, false)]
      ensures err == Some(ContextDone)
              || (!expired(old(clock)) && (err == Some(LimitReached) <==> old(flushed) >= maxPackets))
      ensures err == Some(ContextDone) <==>
              expired(old(clock)) || (old(flushed) < maxPackets && answers(old(clock) + 1) == ContextError)
      ensures err.None? ==> answers(old(clock) + 1) == Accepted
      ensures err == Some(SendFailure) ==> answers(old(clock) + 1) == OtherError
      ensures clock == old(clock) + if expired(old(clock)) || old(flushed) >= maxPackets then 1 else 2
      ensures flushed == old(flushed) + if err.None? then 1 else 0
      ensures HeldCourse(Env(), old(clock), old(flushed), 1) ==
              Course(if err == Some(SendFailure) then None else err, if log == old(log) then 0 else 1,
                     if log == old(log) then 0 else 1, clock, flushed)
      ensures Calm() ==> err == if old(flushed) >= maxPackets then Some(LimitReached) else None
    {
      var done := ContextErr();
      if done {
        return Some(ContextDone);
      }
      if flushed >= maxPackets {
        return Some(LimitReached);
      }
      var a := answers(clock);
      clock := clock + 1;
      LogNext(log, SendCall(p, a == Accepted));
      log := log + [SendCall(p, a == Accepted)];
      if a == ContextError {
        return Some(ContextDone);
      }
      if a == OtherError {
        return Some(SendFailure);
      }
      flushed := flushed + 1;
      err := None;
    }

    /** Phase one for one flow: offer its held packets in order, carrying on after a failed send, up to the limit or
      * deadline. The first `n` of them were offered. */
    method ReleaseFlow(ps: seq<Packet>) returns (failed: bool, stop: Option<DrainError>, ghost n: nat)
      requires Valid()
      modifies this`clock, this`log, this`flushed
      ensures Valid() && stop != Some(SendFailure)
      ensures n <= |ps| && exists f :: Offers(old(log), log, ps[..n], f)
      ensures stop.None? ==> n == |ps| && Offers(old(log), log, ps, failed)
      ensures HeldCourse(Env(), old(clock), old(flushed), |ps|) == Course(stop, n, n, clock, flushed)
      ensures stop == Some(LimitReached) ==> flushed == maxPackets
      ensures Calm() ==> !failed && Offers(old(log), log, ps[..n], false) && flushed == old(flushed) + n
      ensures Calm() ==>
                n == Min(|ps|, maxPackets - old(flushed)) && stop == if n < |ps| then Some(LimitReached) else None
    {
      hide Sent, Offers, Calm, HeldCourse, HeldToGo;
      failed, stop, n := false, None, 0;
      OffersNone(log);
      ghost var start := Course(None, 0, 0, clock, flushed);
      HeldToGoFirst(Env(), start, |ps|);
      for i := 0 to |ps|
        invariant n == i && Valid() && Offers(old(log), log, ps[..i], failed)
        invariant HeldToGo(Env(), start, |ps|, i, clock, flushed)
        invariant Calm() ==> !failed && flushed == old(flushed) + i
      {
        OffersNext(old(log), log, ps, i, failed, true);
        OffersNext(old(log), log, ps, i, failed, false);
        ghost var before, c, sent := log, clock, flushed;
        var err := Reinject(ps[i]);
        HeldToGoNext(Env(), start, |ps|, i, c, sent, 1, HeldCourse(Env(), c, sent, 1));
        if err.Some? && err.value != SendFailure {
          stop, n := err, if log == before then i else i + 1;
          return;
        }
        if err.Some? {
          failed := true;
        }
        n := i + 1;
      }
      HeldToGoNone(Env(), start, |ps|, clock, flushed);
      assert ps[..|ps|] == ps;
    }

    /** Phase one: every flow in turn. */
    method ReleaseHeld(order: seq<Key>) returns (failed: bool, stop: Option<DrainError>, ghost n: nat)
      requires Valid() && forall k | k in order :: k in flows
      modifies this`clock, this`log, this`flushed
      ensures Valid() && stop != Some(SendFailure)
      ensures n <= |HeldIn(flows, order)| && exists f :: Offers(old(log), log, HeldIn(flows, order)[..n], f)
      ensures stop.None? ==> n == |HeldIn(flows, order)| && Offers(old(log), log, HeldIn(flows, order), failed)
      ensures HeldCourse(Env(), old(clock), old(flushed), |HeldIn(flows, order)|) ==
              Course(stop, n, n, clock, flushed)
      ensures stop == Some(LimitReached) ==> flushed == maxPackets
      ensures Calm() ==>
                !failed && Offers(old(log), log, HeldIn(flows, order)[..n], false) && flushed == old(flushed) + n
      ensures Calm() ==> n == Min(|HeldIn(flows, order)|, maxPackets - old(flushed))
                         && stop == if n < |HeldIn(flows, order)| then Some(LimitReached) else None
    {
      hide Sent, Offers, Calm, HeldIn, HeldCourse, HeldToGo;
      failed, stop, n := false, None, 0;
      OffersNone(log);
      HeldInNone(flows);
      ghost var total := |HeldIn(flows, order)|;
      ghost var start := Course(None, 0, 0, clock, flushed);
      HeldToGoFirst(Env(), start, total);
      for i := 0 to |order|
        invariant Valid() && n == |HeldIn(flows, order[..i])| <= total
        invariant HeldToGo(Env(), start, total, n, clock, flushed)
        invariant Offers(old(log), log, HeldIn(flows, order[..i]), failed)
        invariant Calm() ==> !failed && flushed == old(flushed) + n
      {
        ghost var before, was := log, failed;
        ghost var c, k := clock, |flows[order[i]]|;
        ghost var sent := flushed;
        HeldInPart(flows, order, i, k);
        var f, s, m := ReleaseFlow(flows[order[i]]);
        HeldToGoNext(Env(), start, total, n, c, sent, k, Course(s, m, m, clock, flushed));
        HeldInPart(flows, order, i, m);
        ghost var g :| Offers(before, log, flows[order[i]][..m], g);
        OffersBoth(old(log), before, log, HeldIn(flows, order[..i]), flows[order[i]][..m], was, g);
        if Calm() {
          OffersBoth(old(log), before, log, HeldIn(flows, order[..i]), flows[order[i]][..m], was, false);
        }
        failed := failed || f;
        n := n + m;
        if s.Some? {
          stop := s;
          return;
        }
        OffersBoth(old(log), before, log, HeldIn(flows, order[..i]), flows[order[i]], was, f);
      }
      assert order[..|order|] == order;
      HeldToGoNone(Env(), start, total, clock, flushed);
      assert HeldIn(flows, order)[..n] == HeldIn(flows, order);
    }

    /** One turn of the drain loop: it is over, or the first packet was taken. */
    method DrainTurn() returns (turn: Turn)
      requires Valid()
      modifies this`clock, this`log, this`flushed, this`queue
      ensures Valid()
      ensures turn.Over? ==>
                && log == old(log) && queue == old(queue) && flushed == old(flushed)
                && turn.stop in {None, Some(ContextDone), Some(LimitReached)}
                && (turn.stop == Some(LimitReached) ==> flushed == maxPackets)
                && (turn.stop == None ==> queue == [])
      ensures turn.Taken? ==>
                && old(queue) != [] && queue == old(queue)[1..]
                && turn.err in {None, Some(ContextDone), Some(SendFailure)}
                && (log == old(log) ==> turn.err == Some(ContextDone))
                && (log == old(log) || log == old(log) + [SendCall(old(queue)[0], turn.err.None?)])
                && flushed == old(flushed) + if turn.err.None? then 1 else 0
      ensures var c := QueueCourse(Env(), old(clock), old(flushed), |old(queue)|);
              match turn
              case Over(stop) => c == Course(stop, 0, 0, clock, flushed)
              case Taken(Some(ContextDone)) =>
                c == Course(Some(ContextDone), if log == old(log) then 0 else 1, 1, clock, flushed)
              case Taken(_) => c == Later(1, QueueCourse(Env(), clock, flushed, |queue|))
      ensures Calm() ==> turn == if old(flushed) >= maxPackets then Over(Some(LimitReached))
                                 else if old(queue) == [] then Over(None) else Taken(None)
    {
      hide Sent, HeldCourse, QueueCourse;
      QueueCourseNext(Env(), clock, flushed, |queue|);
      var done := ContextErr();
      if done {
        return Over(Some(ContextDone));
      }
      if flushed >= maxPackets {
        return Over(Some(LimitReached));
      }
      if |queue| == 0 {
        return Over(None);
      }
      var p := queue[0];
      queue := queue[1..];
      var err := Reinject(p);
      turn := Taken(err);
    }

    /** Phase two: drain the queue until it is empty, carrying on after a failed send. It terminates because nothing is
      * added any more. The first `n` packets were offered and the others are still queued, except that one packet has
      * been taken without being offered if and only if one goes nowhere, by the answers of the environment. */
    method DrainQueue() returns (failed: bool, stop: Option<DrainError>, ghost n: nat)
      requires Valid()
      modifies this`clock, this`log, this`flushed, this`queue
      ensures Valid() && stop != Some(SendFailure)
      ensures n <= |old(queue)| && exists f :: Offers(old(log), log, old(queue)[..n], f)
      ensures |queue| <= |old(queue)| && queue == old(queue)[|old(queue)| - |queue|..]
      ensures QueueCourse(Env(), old(clock), old(flushed), |old(queue)|) ==
              Course(stop, n, |old(queue)| - |queue|, clock, flushed)
      ensures |queue| == if (exists m: nat :: GoesNowhere(Env(), old(clock), old(flushed), |old(queue)|, m))
                         then |old(queue)| - n - 1 else |old(queue)| - n
      ensures forall m: nat :: GoesNowhere(Env(), old(clock), old(flushed), |old(queue)|, m) ==> n == m
      ensures stop.None? <==> Comes(Env(), old(clock), old(flushed), |old(queue)|)
      ensures stop.None? ==> n == |old(queue)| && Offers(old(log), log, old(queue), failed)
      ensures stop == Some(LimitReached) ==> flushed == maxPackets
      ensures Calm() ==>
                && !failed && Offers(old(log), log, old(queue)[..n], false)
                && n == Min(|old(queue)|, maxPackets - old(flushed))
      ensures Calm() ==> stop == if old(flushed) + |old(queue)| >= maxPackets then Some(LimitReached) else None
    {
      hide Sent, Offers, Comes, GoesNowhere, QueueCourse, QueueToGo, StoppedWorker.Calm;
      failed, stop, n := false, None, 0;
      OffersNone(log);
      NowhereIff(Env(), clock, flushed, |queue|);
      TakenIff(Env(), clock, flushed, |queue|, |queue|);
      ghost var all, start := queue, Course(None, 0, 0, clock, flushed);
      QueueToGoFirst(Env(), start, |all|);
      while true
        invariant Valid() && n <= |all| && queue == all[n..]
        invariant Offers(old(log), log, all[..n], failed)
        invariant Calm() ==> !failed && flushed == old(flushed) + n
        invariant QueueToGo(Env(), start, |all|, n, clock, flushed)
        decreases |queue|
      {
        ghost var before, c, sent := log, clock, flushed;
        assert n < |all| ==> queue[0] == all[n];
        var turn := DrainTurn();
        QueueToGoNext(Env(), start, |all|, n, c, sent, QueueCourse(Env(), c, sent, |all| - n));
        QueueToGoNext(Env(), start, |all|, n, c, sent, Course(None, 0, 0, clock, flushed));
        if turn.Over? {
          assert all[..|all|] == all;
          return failed, turn.stop, n;
        }
        assert queue == all[n + 1..];
        OffersNext(old(log), before, all, n, failed, true);
        OffersNext(old(log), before, all, n, failed, false);
        if turn.err == Some(ContextDone) {
          return failed, turn.err, if log == before then n else n + 1;
        }
        failed, n := failed || turn.err.Some?, n + 1;
      }
    }

    /** Shutdown. `order` is the order in which the runtime visits the table. The packets are offered in order, held
      * ones first, each at most once, and the first `n` of them were. Unless the limit or the context stops it every
      * one is offered, also after failed sends, and the result is nil exactly when all of them were sent. The answers
      * of the environment decide which packets are offered, whether the end is reached, and whether a packet is lost.
      * In an environment that refuses nothing, as many as the limit allows are sent, and the result is nil if and only
      * if fewer than the limit were waiting. */
    method ShutdownFailOpen(order: seq<Key>) returns (ok: bool, stop: Option<DrainError>, ghost n: nat)
      requires Valid() && log == [] && Enumerates(order, flows)
      modifies this
      ensures Valid() && |Sent(log)| <= maxPackets
      ensures var all := HeldIn(flows, order) + old(queue);
              && n <= |all| && Offered(log) == all[..n]
              && (stop.None? ==> n == |all| && queue == [])
              && (ok <==> stop.None? && Sent(log) == all)
      ensures var held, waiting := |HeldIn(flows, order)|, |old(queue)|;
              && |queue| <= waiting && queue == old(queue)[waiting - |queue|..]
              && waiting - |queue| == (if n < held then 0 else n - held)
                                      + (if exists m: nat :: Lost(Env(), old(clock), held, waiting, m) then 1 else 0)
              && (forall m: nat :: Lost(Env(), old(clock), held, waiting, m) ==> n == held + m)
              && (forall m: nat :: m < n <==> Reached(Env(), old(clock), held, waiting, m))
              && (stop.None? <==> ComesToTheEnd(Env(), old(clock), held, waiting))
              && (ok <==> stop.None? && AllGranted(Env(), old(clock), held, waiting) == held + waiting)
      ensures stop == Some(LimitReached) ==> |Sent(log)| == maxPackets
      ensures var all := HeldIn(flows, order) + old(queue);
              Calm() ==> && n == Min(|all|, maxPackets) && Sent(log) == all[..n]
                         && (ok <==> |all| < maxPackets) && (!ok ==> stop == Some(LimitReached))
    {
      hide Sent, Offered, Offers, Calm, HeldIn, HeldCourse, QueueCourse, Lost, Reached, AllGranted, ComesToTheEnd;
      OffersNone([]);
      OffersFromNothing(log, [], false);
      LostIff(Env(), clock, |HeldIn(flows, order)|, |queue|);
      forall m: nat ensures m < WholeCourse(Env(), clock, 0, |HeldIn(flows, order)|, |queue|).offered <==>
                            Reached(Env(), clock, |HeldIn(flows, order)|, |queue|, m) {
        ReachedIff(Env(), clock, |HeldIn(flows, order)|, |queue|, m);
      }
      var failed, s, m := ReleaseHeld(order);
      ghost var held, waiting, before := HeldIn(flows, order), queue, log;
      ghost var f :| Offers([], log, held[..m], f);
      OffersFromNothing(log, held[..m], f);
      if Calm() {
        OffersFromNothing(log, held[..m], false);
      }
      if s.Some? {
        assert (held + waiting)[..m] == held[..m];
        return false, s, m;
      }
      var f2, s2, m2 := DrainQueue();
      stop, n, ok := s2, m + m2, !failed && !f2 && s2.None?;
      ghost var g :| Offers(before, log, waiting[..m2], g);
      assert (held + waiting)[..n] == held + waiting[..m2];
      OffersBoth([], before, log, held, waiting[..m2], failed, g);
      OffersFromNothing(log, held + waiting[..m2], failed || g);
      if Calm() {
        OffersBoth([], before, log, held, waiting[..m2], failed, false);
        OffersFromNothing(log, held + waiting[..m2], failed);
      }
      if stop.None? {
        OffersBoth([], before, log, held, waiting, failed, f2);
        OffersFromNothing(log, held + waiting, failed || f2);
      }
    }
  }

  /** Such a packet is real: a worker with one queued packet, whose context ends after the drain's first look, has an
    * empty queue afterwards although nothing was offered. */
  method OneIsTaken(p: Packet) returns (w: StoppedWorker)
    ensures w.queue == [] && w.log == []
  {
    w := new StoppedWorker(map[], [p], 0, _ => Accepted, n => n > 0);
    var failed, stop, n := w.DrainQueue();
    assert GoesNowhere(w.Env(), 0, 0, 1, 0);
    assert n == 0;
    assert w.log == [] by {
      OfferedNothing(w.log);
    }
  }

  /** The limit is reported although everything was sent: one packet waits where one may be sent, and nothing is
    * refused. */
  method LimitIsMet(p: Packet) returns (w: StoppedWorker, ok: bool, stop: Option<DrainError>)
    ensures w.maxPackets == 1 && Sent(w.log) == [p] && w.queue == []
    ensures !ok && stop == Some(LimitReached)
  {
    w := new StoppedWorker(map[], [p], 1, _ => Accepted, _ => false);
    assert w.Calm();
    ghost var n;
    ok, stop, n := w.ShutdownFailOpen([]);
    assert HeldIn(w.flows, []) + [p] == [p];
  }

  lemma OfferedNothing(log: seq<SendCall>)
    requires exists f :: Offers([], log, [], f)
    ensures log == []
  {
    assert |Offered(log)| == |log|;
  }

  lemma HeldInNone(flows: map<Key, seq<Packet>>)
    ensures HeldIn(flows, []) == []
  {
  }

  lemma HeldInPart(flows: map<Key, seq<Packet>>, order: seq<Key>, i: nat, m: nat)
    requires i < |order| && (forall k | k in order :: k in flows) && m <= |flows[order[i]]|
    ensures var n := |HeldIn(flows, order[..i])| + m;
            && n <= |HeldIn(flows, order)|
            && HeldIn(flows, order)[..n] == HeldIn(flows, order[..i]) + flows[order[i]][..m]
    ensures HeldIn(flows, order[..i + 1]) == HeldIn(flows, order[..i]) + flows[order[i]]
    ensures |HeldIn(flows, order[..i + 1])| <= |HeldIn(flows, order)|
  {
    assert order[..i + 1][..i] == order[..i];
    HeldInPrefix(flows, order, i + 1);
  }

  lemma {:induction false} HeldInPrefix(flows: map<Key, seq<Packet>>, order: seq<Key>, n: nat)
    requires n <= |order| && forall k | k in order :: k in flows
    ensures HeldIn(flows, order[..n]) <= HeldIn(flows, order)
    decreases |order| - n
  {
    if n < |order| {
      assert order[..n + 1][..n] == order[..n];
      HeldInPrefix(flows, order, n + 1);
    } else {
      assert order[..n] == order;
    }
  }

  // ---- per-flow order ----

  function OfFlow(ps: seq<Packet>, k: Key): seq<Packet> {
    if ps == [] then []
    else
      var p := ps[|ps| - 1];
      OfFlow(ps[..|ps| - 1], k) + if KeyOf(p.meta) == k then [p] else []
  }

  lemma {:induction false} OfFlowConcat(a: seq<Packet>, b: seq<Packet>, k: Key)
    ensures OfFlow(a + b, k) == OfFlow(a, k) + OfFlow(b, k)
    decreases |b|
  {
    if b == [] {
      assert a + b == a;
    } else {
      OfFlowConcat(a, b[..|b| - 1], k);
      assert (a + b)[..|a + b| - 1] == a + b[..|b| - 1];
    }
  }

  lemma {:induction false} OfFlowOwn(ps: seq<Packet>, j: Key, k: Key)
    requires forall i | 0 <= i < |ps| :: KeyOf(ps[i].meta) == j
    ensures OfFlow(ps, k) == if j == k then ps else []
  {
    hide KeyOf;
    if ps != [] {
      OfFlowOwn(ps[..|ps| - 1], j, k);
    }
  }

  lemma {:induction false} HeldOfFlow(flows: map<Key, seq<Packet>>, order: seq<Key>, k: Key)
    requires forall j | j in order :: j in flows
    requires forall i, j | 0 <= i < j < |order| :: order[i] != order[j]
    requires forall j, i | j in flows && 0 <= i < |flows[j]| :: KeyOf(flows[j][i].meta) == j
    ensures OfFlow(HeldIn(flows, order), k) == if k in order then flows[k] else []
  {
    hide OfFlow, KeyOf;
    if order == [] {
      OfFlowOwn([], k, k);
    } else {
      var n := |order| - 1;
      HeldOfFlow(flows, order[..n], k);
      OfFlowConcat(HeldIn(flows, order[..n]), flows[order[n]], k);
      OfFlowOwn(flows[order[n]], order[n], k);
      assert k in order <==> k in order[..n] || k == order[n];
    }
  }

  /** Whatever order the table is visited in, the packets of a connection go out in their own order:
    * what its flow held, then what was queued for it. */
  lemma DrainKeepsFlowOrder(flows: map<Key, seq<Packet>>, order: seq<Key>, queue: seq<Packet>, k: Key)
    requires Enumerates(order, flows)
    requires forall j, i | j in flows && 0 <= i < |flows[j]| :: KeyOf(flows[j][i].meta) == j
    ensures OfFlow(HeldIn(flows, order) + queue, k) == (if k in flows then flows[k] else []) + OfFlow(queue, k)
  {
    hide OfFlow, KeyOf;
    HeldOfFlow(flows, order, k);
    OfFlowConcat(HeldIn(flows, order), queue, k);
  }
}
