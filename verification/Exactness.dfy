/** When a completed injection is exactly the contiguous prefix, whatever was reloaded before it.

  As a rule it is (`Injection.Regular`). In the remaining case each held packet that reaches beyond the window is sent
  again, cut to what it has there. Here is said when that comes to the same thing.
 */
module Exactness {
  import opened Words
  import opened Wire
  import opened FlowMachine
  import opened FlowInvariants
  import opened Conservation
  import opened Settling
  import opened Runs
  import opened Injection
  import opened Completeness
  import S = Segmentation
  import R = Reassembly

  // ---- the properties of a plan ----

  predicate Loud(flags: u8) {
    HasFlag(flags, PSH) || HasFlag(flags, FIN)
  }

  /** Read off the wire, the packet has neither PSH nor FIN. */
  predicate Quiet(p: Packet) {
    Decode(p.data).Decoded? && !Loud(Decode(p.data).meta.flags)
  }

  /** PSH and FIN on the last packet at most. */
  predicate QuietButLast(ps: seq<Packet>) {
    forall i | 0 <= i < |ps| - 1 :: Quiet(ps[i])
  }

  /** Read off the wire, the packet carries `payload` at `seqNo`. */
  ghost predicate Says(p: Packet, seqNo: u32, payload: Bytes) {
    && Decode(p.data).Decoded?
    && var m := Decode(p.data).meta;
       m.seqNo == seqNo && m.payloadOffset + |payload| == |p.data| && p.data[m.payloadOffset..] == payload
  }

  /** The packets carry exactly `bytes`, in order and without gap or repetition, from `seqNo` on. */
  ghost predicate InSequence(ps: seq<Packet>, seqNo: u32, bytes: Bytes)
    decreases |ps|
  {
    if ps == [] then bytes == []
    else exists n: nat :: 1 <= n <= |bytes| && Says(ps[0], seqNo, bytes[..n])
                          && InSequence(ps[1..], Add32(seqNo, n), bytes[n..])
  }

  /** Some sequence position is carried by two of the packets. */
  ghost predicate Repeats(ps: seq<Packet>) {
    exists i, j, s: u32 :: 0 <= i < j < |ps| && HasByte(ps[i], s) && HasByte(ps[j], s)
  }

  // ---- the conditions on the held packets ----

  /** The packet has payload beyond the window. */
  predicate Reaches(p: Packet, base: u32, window: nat) {
    PayloadOf(p) != [] && ReachOf(p, base) > window
  }

  /** Of the held packets that reach beyond the window, all but the last have neither PSH nor FIN. */
  predicate HeldQuietButLast(held: seq<Packet>, base: u32, window: nat) {
    forall i, j | 0 <= i < j < |held| && Reaches(held[i], base, window) && Reaches(held[j], base, window) ::
      !Loud(held[i].meta.flags)
  }

  /** Of the held packets that reach beyond the window, each starts no earlier than those before it end. */
  predicate Follow(held: seq<Packet>, base: u32, window: nat) {
    forall i, j | 0 <= i < j < |held| && Reaches(held[i], base, window) && Reaches(held[j], base, window) ::
      ReachOf(held[i], base) <= Sub32(held[j].meta.seqNo, base)
  }

  // ---- flags ----

  /** A run of segments under quiet flags is quiet but for its last packet. */
  lemma {:induction false} CarriesQuiet(ps: seq<Packet>, tpl: Meta, seqNo: u32, bytes: Bytes, flags: u8, lastFlags: u8,
                                        ipid: u16)
    requires S.Carries(ps, tpl, seqNo, bytes, flags, lastFlags, ipid) && !Loud(flags)
    ensures QuietButLast(ps) && (!Loud(lastFlags) ==> forall i | 0 <= i < |ps| :: Quiet(ps[i]))
    decreases |ps|
  {
    hide Decode, S.Checksum.Verifies, S.Checksum.HeaderSum, S.Checksum.SegmentSum, Get16, Add32, Loud;
    if ps != [] {
      var n: nat :| S.Bears(ps[0], tpl.(seqNo := seqNo, flags := if |ps| == 1 then lastFlags else flags), bytes, n,
        ipid)
                    && S.Carries(ps[1..], tpl, Add32(seqNo, n), bytes[n..], flags, lastFlags, (ipid + 1) % 0x1_0000);
      CarriesQuiet(ps[1..], tpl, Add32(seqNo, n), bytes[n..], flags, lastFlags, (ipid + 1) % 0x1_0000);
      assert forall i | 1 <= i < |ps| :: ps[i] == ps[1..][i - 1];
    }
  }

  lemma TemplateIsQuiet(flags: u8)
    ensures !Loud(WithoutPshFin(flags))
  {
    OnlyPshAndFinCleared(flags);
  }

  lemma SoundQuiet(p: Packet, meta: Meta, payload: Bytes)
    requires S.Sound(p, meta, payload)
    ensures Quiet(p) <==> !Loud(meta.flags)
  {
    hide Decode, S.Checksum.Verifies, S.Checksum.HeaderSum, S.Checksum.SegmentSum, Get16, Loud;
  }

  predicate SomeReaches(held: seq<Packet>, base: u32, window: nat) {
    exists i :: 0 <= i < |held| && Reaches(held[i], base, window)
  }

  lemma ResendsNext(out: seq<Packet>, held: seq<Packet>, base: u32, window: nat, ipid: u16)
    requires Resends(out, held, base, window, ipid) && held != []
    ensures var p, n := held[0], TrimOf(held[0], base, window);
            if !Reaches(p, base, window) then Resends(out, held[1..], base, window, ipid)
            else && out != [] && n < |PayloadOf(p)|
                 && S.Sound(out[0], p.meta.(seqNo := Add32(p.meta.seqNo, n)), PayloadOf(p)[n..])
                 && Resends(out[1..], held[1..], base, window, (ipid + 1) % 0x1_0000)
  {
    hide S.Sound, Get16, TrimOf, PayloadOf, ReachOf;
  }

  /** The conditions on the held packets, one packet at a time. */
  lemma HeldQuietNext(held: seq<Packet>, base: u32, window: nat)
    requires held != []
    ensures var p, rest := held[0], held[1..];
            && (SomeReaches(held, base, window) <==> Reaches(p, base, window) || SomeReaches(rest, base, window))
            && (HeldQuietButLast(held, base, window) <==>
                  && HeldQuietButLast(rest, base, window)
                  && (Reaches(p, base, window) && SomeReaches(rest, base, window) ==> !Loud(p.meta.flags)))
  {
    hide Reaches, Loud;
    var rest := held[1..];
    assert forall i | 0 <= i < |rest| :: rest[i] == held[i + 1];
    assert forall i | 1 <= i < |held| :: held[i] == rest[i - 1];
  }

  lemma QuietNext(ps: seq<Packet>)
    requires ps != []
    ensures QuietButLast(ps) <==> QuietButLast(ps[1..]) && (ps[1..] != [] ==> Quiet(ps[0]))
  {
    hide Quiet;
    var rest := ps[1..];
    assert forall i | 0 <= i < |rest| :: rest[i] == ps[i + 1];
    assert forall i | 1 <= i < |ps| :: ps[i] == rest[i - 1];
  }

  /** What is sent again is quiet but for its last packet if and only if the held packets are. */
  lemma {:induction false} ResendsQuiet(out: seq<Packet>, held: seq<Packet>, base: u32, window: nat, ipid: u16)
    requires Resends(out, held, base, window, ipid)
    ensures QuietButLast(out) <==> HeldQuietButLast(held, base, window)
    ensures out != [] <==> SomeReaches(held, base, window)
    decreases |held|
  {
    hide S.Sound, Get16, TrimOf, PayloadOf, Reaches, Resends, Quiet, Loud, QuietButLast, HeldQuietButLast, SomeReaches;
    if held == [] {
      ResendsNothing(out, held, base, window, ipid);
    } else {
      ResendsNext(out, held, base, window, ipid);
      HeldQuietNext(held, base, window);
      if Reaches(held[0], base, window) {
        var n := TrimOf(held[0], base, window);
        SoundQuiet(out[0], held[0].meta.(seqNo := Add32(held[0].meta.seqNo, n)), PayloadOf(held[0])[n..]);
        QuietNext(out);
        ResendsQuiet(out[1..], held[1..], base, window, (ipid + 1) % 0x1_0000);
      } else {
        ResendsQuiet(out, held[1..], base, window, ipid);
      }
    }
  }

  lemma ResendsNothing(out: seq<Packet>, held: seq<Packet>, base: u32, window: nat, ipid: u16)
    requires Resends(out, held, base, window, ipid) && held == []
    ensures out == [] && QuietButLast(out) && HeldQuietButLast(held, base, window) && !SomeReaches(held, base, window)
  {
  }

  lemma QuietThen(a: seq<Packet>, b: seq<Packet>)
    requires b != [] && forall i | 0 <= i < |a| :: Quiet(a[i])
    ensures QuietButLast(a + b) <==> QuietButLast(b)
  {
    hide Quiet;
    assert forall i | 0 <= i < |b| :: b[i] == (a + b)[|a| + i];
    assert forall i | |a| <= i < |a + b| :: (a + b)[i] == b[i - |a|];
  }

  // ---- packets held in order, as a byte string ----

  /** What the packet makes of the bytes collected so far: it is new, or brings nothing. */
  function Take(c: Bytes, p: Packet, base: u32): Bytes {
    if Sub32(p.meta.seqNo, base) == |c| then c + PayloadOf(p) else c
  }

  function Tape(ps: seq<Packet>, base: u32): Bytes {
    if ps == [] then [] else Take(Tape(ps[..|ps| - 1], base), ps[|ps| - 1], base)
  }

  /** The packet starts where the bytes end, or lies among them. */
  predicate Neat(c: Bytes, p: Packet, base: u32) {
    PayloadOf(p) == [] || Sub32(p.meta.seqNo, base) == |c| || ReachOf(p, base) <= |c|
  }

  predicate AllNeat(ps: seq<Packet>, base: u32) {
    forall i | 0 <= i < |ps| :: Neat(Tape(ps[..i], base), ps[i], base)
  }

  /** Pushing the packet into a buffer without raising a flag. */
  lemma PushTapes(b: R.Buf, p: Packet)
    requires b.WellFormed() && R.Fits(b.base, b.max, FragmentOf(p))
    requires !R.Push(b, FragmentOf(p)).0.outOfOrder && !R.Push(b, FragmentOf(p)).0.overlap
    ensures !b.outOfOrder && !b.overlap && Neat(b.Contig(), p, b.base)
    ensures var b' := R.Push(b, FragmentOf(p)).0;
            b'.WellFormed() && b'.Contig() == Take(b.Contig(), p, b.base)
  {
    hide PayloadOf;
    R.AcceptedIffFits(b, FragmentOf(p));
    PushMoves(b, FragmentOf(p));
    hide R.Push;
    R.PushKeepsWellFormed(b, FragmentOf(p));
    if R.Push(b, FragmentOf(p)).0 != b {
      InOrderPush(b, FragmentOf(p));
      HeadKept(b, FragmentOf(p));
    } else {
      assert PayloadOf(p) == [] ==> b.Contig() + PayloadOf(p) == b.Contig();
    }
  }

  lemma PushMoves(b: R.Buf, f: R.Fragment)
    requires b.WellFormed() && R.Push(b, f).1 == R.Accepted
    requires !R.Push(b, f).0.outOfOrder && !R.Push(b, f).0.overlap
    ensures !b.outOfOrder && !b.overlap
    ensures if f.payload == [] || R.Offset(b.base, f) + |f.payload| <= b.prefix then R.Push(b, f).0 == b
            else b.prefix < R.Push(b, f).0.prefix && R.Push(b, f).0 != b
  {
    R.PushKeepsWellFormed(b, f);
    R.AcceptedWrites(b, f, b.prefix);
  }

  lemma HeadKept(b: R.Buf, f: R.Fragment)
    requires b.WellFormed() && R.Push(b, f).1 == R.Accepted && R.Push(b, f).0.WellFormed()
    requires b.prefix <= R.Push(b, f).0.prefix
    ensures R.Push(b, f).0.Contig()[..b.prefix] == b.Contig()
  {
    hide R.Push;
    forall i: nat | i < b.prefix ensures R.Push(b, f).0.Contig()[i] == b.Contig()[i] {
      R.AcceptedWrites(b, f, i);
    }
  }

  /** While no flag is raised, the buffer is that byte string. */
  lemma {:induction false} BufTapes(base: u32, max: u32, ps: seq<Packet>)
    requires forall i | 0 <= i < |ps| :: R.Fits(base, max, FragmentOf(ps[i]))
    requires var b := R.PushAll(R.NewBuf(base, max), Fragments(ps)); !b.outOfOrder && !b.overlap
    ensures var b := R.PushAll(R.NewBuf(base, max), Fragments(ps));
            b.WellFormed() && AllNeat(ps, base) && b.Contig() == Tape(ps, base)
    decreases |ps|
  {
    hide R.Push, R.Fits, Neat, Take, FragmentOf;
    R.PushAllWellFormed(base, max, Fragments(ps));
    if ps != [] {
      var n := |ps| - 1;
      var front := ps[..n];
      FragmentsFront(ps);
      PushAllNext(R.NewBuf(base, max), Fragments(front), FragmentOf(ps[n]));
      R.PushAllWellFormed(base, max, Fragments(front));
      PushTapes(R.PushAll(R.NewBuf(base, max), Fragments(front)), ps[n]);
      BufTapes(base, max, front);
      forall i | 0 <= i < |ps| ensures Neat(Tape(ps[..i], base), ps[i], base) {
        if i < n {
          assert front[..i] == ps[..i];
          assert Neat(Tape(front[..i], base), front[i], base);
        }
      }
    }
  }

  lemma TapeNext(ps: seq<Packet>, base: u32, i: nat)
    requires i < |ps|
    ensures Tape(ps[..i + 1], base) == Take(Tape(ps[..i], base), ps[i], base)
  {
    assert ps[..i + 1][..i] == ps[..i];
  }

  lemma {:induction false} TapeGrows(ps: seq<Packet>, base: u32, i: nat, j: nat)
    requires i <= j <= |ps|
    ensures Tape(ps[..i], base) <= Tape(ps[..j], base)
    decreases j
  {
    hide Tape;
    if i < j {
      TapeGrows(ps, base, i, j - 1);
      TapeNext(ps, base, j - 1);
    }
  }

  /** A byte of the string was brought by one of the packets. */
  lemma {:induction false} TapeCovers(ps: seq<Packet>, base: u32, i: nat, x: nat) returns (k: nat)
    requires i <= |ps| && x < |Tape(ps[..i], base)|
    ensures k < i && Sub32(ps[k].meta.seqNo, base) <= x < ReachOf(ps[k], base)
    decreases i
  {
    hide PayloadOf, Sub32;
    if i == 0 {
      assert false;
    }
    TapeNext(ps, base, i - 1);
    if x < |Tape(ps[..i - 1], base)| {
      k := TapeCovers(ps, base, i - 1, x);
    } else {
      k := i - 1;
    }
  }

  lemma ReachInTape(ps: seq<Packet>, base: u32, i: nat)
    requires i < |ps| && AllNeat(ps, base) && PayloadOf(ps[i]) != []
    ensures ReachOf(ps[i], base) <= |Tape(ps[..i + 1], base)|
  {
    hide PayloadOf, Sub32, Tape;
    TapeNext(ps, base, i);
    assert Neat(Tape(ps[..i], base), ps[i], base);
  }

  /** A packet that brings nothing beyond the window overlaps an earlier one there. */
  lemma LiesAmong(held: seq<Packet>, base: u32, window: nat, j: nat) returns (k: nat, x: nat)
    requires AllNeat(held, base) && j < |held| && Reaches(held[j], base, window)
    requires Sub32(held[j].meta.seqNo, base) != |Tape(held[..j], base)|
    ensures k < j && window <= x && Sub32(held[j].meta.seqNo, base) <= x < ReachOf(held[j], base)
    ensures Reaches(held[k], base, window) && Sub32(held[k].meta.seqNo, base) <= x < ReachOf(held[k], base)
  {
    hide PayloadOf, Sub32, Tape;
    assert Neat(Tape(held[..j], base), held[j], base);
    x := ReachOf(held[j], base) - 1;
    k := TapeCovers(held, base, j, x);
  }

  /** Where the packets follow one another, each that reaches beyond the window starts where the bytes end. */
  lemma FollowsOn(held: seq<Packet>, base: u32, window: nat, j: nat)
    requires AllNeat(held, base) && Follow(held, base, window) && j < |held| && Reaches(held[j], base, window)
    ensures Sub32(held[j].meta.seqNo, base) == |Tape(held[..j], base)|
  {
    hide PayloadOf, Sub32, Tape, AllNeat, ReachOf, Reaches;
    if Sub32(held[j].meta.seqNo, base) != |Tape(held[..j], base)| {
      var k, x := LiesAmong(held, base, window, j);
      assert false;
    }
  }

  /** Where they do not, two of them have a byte beyond the window in common. */
  lemma NotFollowing(held: seq<Packet>, base: u32, window: nat) returns (i: nat, j: nat, x: nat)
    requires AllNeat(held, base) && !Follow(held, base, window)
    ensures i < j < |held| && window <= x
    ensures Sub32(held[i].meta.seqNo, base) <= x < ReachOf(held[i], base)
    ensures Sub32(held[j].meta.seqNo, base) <= x < ReachOf(held[j], base)
  {
    hide PayloadOf, Sub32, Tape;
    var a;
    a, j :| 0 <= a < j < |held| && Reaches(held[a], base, window) && Reaches(held[j], base, window)
            && ReachOf(held[a], base) > Sub32(held[j].meta.seqNo, base);
    ReachInTape(held, base, a);
    TapeGrows(held, base, a + 1, j);
    i, x := LiesAmong(held, base, window, j);
  }

  // ---- in sequence ----

  lemma InSequenceCons(p: Packet, rest: seq<Packet>, seqNo: u32, bytes: Bytes, n: nat)
    requires 1 <= n <= |bytes| && Says(p, seqNo, bytes[..n]) && InSequence(rest, Add32(seqNo, n), bytes[n..])
    ensures InSequence([p] + rest, seqNo, bytes)
  {
    hide Says;
    assert ([p] + rest)[1..] == rest;
  }

  lemma SoundSays(p: Packet, meta: Meta, payload: Bytes)
    requires S.Sound(p, meta, payload)
    ensures Says(p, meta.seqNo, payload)
  {
    hide Decode, S.Checksum.Verifies, S.Checksum.HeaderSum, S.Checksum.SegmentSum, Get16;
    DecodedBounds(p.data, meta);
  }

  lemma InSequenceHead(ps: seq<Packet>, seqNo: u32, bytes: Bytes) returns (n: nat)
    requires ps != [] && InSequence(ps, seqNo, bytes)
    ensures 1 <= n <= |bytes| && Says(ps[0], seqNo, bytes[..n]) && InSequence(ps[1..], Add32(seqNo, n), bytes[n..])
  {
    hide Says, Add32;
    n :| 1 <= n <= |bytes| && Says(ps[0], seqNo, bytes[..n]) && InSequence(ps[1..], Add32(seqNo, n), bytes[n..]);
  }

  lemma {:induction false} CarriesInSequence(ps: seq<Packet>, tpl: Meta, seqNo: u32, bytes: Bytes, flags: u8,
                                             lastFlags: u8, ipid: u16)
    requires S.Carries(ps, tpl, seqNo, bytes, flags, lastFlags, ipid)
    ensures InSequence(ps, seqNo, bytes)
    decreases |ps|
  {
    hide S.Sound, Get16, Add32, Says;
    if ps != [] {
      var meta := tpl.(seqNo := seqNo, flags := if |ps| == 1 then lastFlags else flags);
      var n: nat :| S.Bears(ps[0], meta, bytes, n, ipid)
                    && S.Carries(ps[1..], tpl, Add32(seqNo, n), bytes[n..], flags, lastFlags, (ipid + 1) % 0x1_0000);
      CarriesInSequence(ps[1..], tpl, Add32(seqNo, n), bytes[n..], flags, lastFlags, (ipid + 1) % 0x1_0000);
      SoundSays(ps[0], meta, bytes[..n]);
    }
  }

  lemma NothingInSequence(seqNo: u32, bytes: Bytes)
    requires InSequence([], seqNo, bytes)
    ensures bytes == [] && Add32(seqNo, 0) == seqNo
  {
  }

  lemma {:induction false} InSequenceConcat(a: seq<Packet>, b: seq<Packet>, seqNo: u32, x: Bytes, y: Bytes)
    requires InSequence(a, seqNo, x) && InSequence(b, Add32(seqNo, |x|), y)
    ensures InSequence(a + b, seqNo, x + y)
    decreases |a|
  {
    hide Says, InSequence, Add32;
    if a == [] {
      NothingInSequence(seqNo, x);
      assert a + b == b && x + y == y;
    } else {
      var n := InSequenceHead(a, seqNo, x);
      AddAdd(seqNo, n, |x| - n);
      InSequenceConcat(a[1..], b, Add32(seqNo, n), x[n..], y);
      assert (x + y)[..n] == x[..n] && (x + y)[n..] == x[n..] + y;
      InSequenceCons(a[0], a[1..] + b, seqNo, x + y, n);
      assert a + b == [a[0]] + (a[1..] + b);
    }
  }

  /** Where the held packets follow one another, what is sent again is the rest of the prefix. */
  lemma {:induction false} ResendsInSequence(out: seq<Packet>, held: seq<Packet>, i: nat, base: u32, window: nat,
                                             ipid: u16)
    requires AllNeat(held, base) && Follow(held, base, window) && i <= |held| && window <= |Tape(held, base)|
    requires Resends(out, held[i..], base, window, ipid)
    ensures var at := Max(window, |Tape(held[..i], base)|);
            at <= |Tape(held, base)| && InSequence(out, Add32(base, at), Tape(held, base)[at..])
    decreases |held| - i
  {
    hide S.Sound, Resends, Reaches, PayloadOf, TrimOf, InSequence, Tape, Follow, AllNeat, Add32, Sub32, ReachOf;
    assert held[..|held|] == held;
    TapeGrows(held, base, i, |held|);
    if i == |held| {
      ResendsNothing(out, held[i..], base, window, ipid);
      assert Tape(held, base)[|Tape(held, base)|..] == [];
      InSequenceNone(out, Add32(base, |Tape(held, base)|));
    } else {
      ResendsNext(out, held[i..], base, window, ipid);
      assert held[i..][1..] == held[i + 1..];
      TapeGrows(held, base, i + 1, |held|);
      if Reaches(held[i], base, window) {
        FollowsOn(held, base, window, i);
        ResendsInSequence(out[1..], held, i + 1, base, window, (ipid + 1) % 0x1_0000);
        ResentFits(out, held, i, base, window);
      } else {
        Unreached(held, i, base, window);
        ResendsInSequence(out, held, i + 1, base, window, ipid);
      }
    }
  }

  lemma InSequenceNone(ps: seq<Packet>, seqNo: u32)
    requires ps == []
    ensures InSequence(ps, seqNo, [])
  {
  }

  /** A packet that does not reach beyond the window leaves what is still to be sent. */
  lemma Unreached(held: seq<Packet>, i: nat, base: u32, window: nat)
    requires i < |held| && !Reaches(held[i], base, window)
    ensures Max(window, |Tape(held[..i + 1], base)|) == Max(window, |Tape(held[..i], base)|)
  {
    hide PayloadOf, Sub32, Tape;
    TapeNext(held, base, i);
  }

  lemma ResentFits(out: seq<Packet>, held: seq<Packet>, i: nat, base: u32, window: nat)
    requires i < |held| && out != [] && Reaches(held[i], base, window)
    requires Sub32(held[i].meta.seqNo, base) == |Tape(held[..i], base)|
    requires Tape(held[..i + 1], base) <= Tape(held, base)
    requires var n := TrimOf(held[i], base, window);
             && n < |PayloadOf(held[i])|
             && S.Sound(out[0], held[i].meta.(seqNo := Add32(held[i].meta.seqNo, n)), PayloadOf(held[i])[n..])
    requires var to := Max(window, |Tape(held[..i + 1], base)|);
             to <= |Tape(held, base)| && InSequence(out[1..], Add32(base, to), Tape(held, base)[to..])
    ensures var at := Max(window, |Tape(held[..i], base)|);
            at <= |Tape(held, base)| && InSequence(out, Add32(base, at), Tape(held, base)[at..])
  {
    hide S.Sound, PayloadOf, InSequence, Tape, Add32, Sub32, Says;
    var p, all, off := held[i], Tape(held, base), |Tape(held[..i], base)|;
    var n, at := TrimOf(p, base, window), Max(window, off);
    TapeNext(held, base, i);
    assert at == off + n;
    SamePosition(base, p.meta.seqNo, n);
    SoundSays(out[0], p.meta.(seqNo := Add32(p.meta.seqNo, n)), PayloadOf(p)[n..]);
    var rest := all[at..];
    var m := |PayloadOf(p)| - n;
    assert rest[..m] == all[off..off + |PayloadOf(p)|][n..] == PayloadOf(p)[n..];
    AddAdd(base, at, m);
    assert rest[m..] == all[at + m..];
    InSequenceCons(out[0], out[1..], Add32(base, at), rest, m);
    assert [out[0]] + out[1..] == out;
  }

  // ---- no repetition ----

  /** A packet in sequence has no byte outside `bytes`. */
  lemma {:induction false} InSequenceHasOnly(ps: seq<Packet>, seqNo: u32, bytes: Bytes, j: nat, s: u32)
    requires InSequence(ps, seqNo, bytes) && |bytes| <= 0xffff_ffff && j < |ps| && HasByte(ps[j], s)
    ensures Sub32(s, seqNo) < |bytes|
    decreases j
  {
    hide Says, HasByte, Add32, Sub32, InSequence;
    var n := InSequenceHead(ps, seqNo, bytes);
    if j == 0 {
      SaysHas(ps[0], seqNo, bytes[..n], s);
    } else {
      InSequenceHasOnly(ps[1..], Add32(seqNo, n), bytes[n..], j - 1, s);
      FurtherOn(seqNo, n, s, |bytes| - n);
    }
  }

  lemma SaysHas(p: Packet, seqNo: u32, payload: Bytes, s: u32)
    requires Says(p, seqNo, payload)
    ensures HasByte(p, s) <==> Sub32(s, seqNo) < |payload|
  {
    hide Decode;
  }

  /** Packets in sequence repeat nothing. */
  lemma {:induction false} InSequenceOnce(ps: seq<Packet>, seqNo: u32, bytes: Bytes, i: nat, j: nat, s: u32)
    requires InSequence(ps, seqNo, bytes) && |bytes| <= 0xffff_ffff && i < j < |ps|
    ensures !(HasByte(ps[i], s) && HasByte(ps[j], s))
    decreases i
  {
    hide Says, HasByte, Add32, Sub32, InSequence;
    var n := InSequenceHead(ps, seqNo, bytes);
    if i == 0 {
      if HasByte(ps[0], s) && HasByte(ps[j], s) {
        SaysHas(ps[0], seqNo, bytes[..n], s);
        InSequenceHasOnly(ps[1..], Add32(seqNo, n), bytes[n..], j - 1, s);
        NotBefore(seqNo, n, s, |bytes| - n);
        assert false;
      }
    } else {
      InSequenceOnce(ps[1..], Add32(seqNo, n), bytes[n..], i - 1, j - 1, s);
    }
  }

  lemma NotBefore(seqNo: u32, n: nat, s: u32, m: nat)
    requires n + m <= 0xffff_ffff && Sub32(s, Add32(seqNo, n)) < m
    ensures Sub32(s, seqNo) >= n
  {
    OffsetOfPosition(seqNo, n);
    OffsetsAdd(seqNo, Add32(seqNo, n), s);
  }

  lemma InSequenceNoRepeat(ps: seq<Packet>, seqNo: u32, bytes: Bytes)
    requires InSequence(ps, seqNo, bytes) && |bytes| <= 0xffff_ffff
    ensures !Repeats(ps)
  {
    hide InSequence, HasByte;
    if i, j, s: u32 :| 0 <= i < j < |ps| && HasByte(ps[i], s) && HasByte(ps[j], s) {
      InSequenceOnce(ps, seqNo, bytes, i, j, s);
    }
  }

  /** Every byte that a held packet has beyond the window is sent again, in the packet's turn. */
  lemma {:induction false} ResendsHas(out: seq<Packet>, held: seq<Packet>, base: u32, window: nat, ipid: u16, i: nat,
                                      x: u32) returns (k: nat)
    requires Resends(out, held, base, window, ipid) && i < |held|
    requires window <= x && Sub32(held[i].meta.seqNo, base) <= x < ReachOf(held[i], base)
    ensures k < |out| && HasByte(out[k], Add32(base, x))
    decreases |held|
  {
    hide S.Sound, Resends, PayloadOf, HasByte, Add32, Sub32, TrimOf;
    ResendsNext(out, held, base, window, ipid);
    if i == 0 {
      k := 0;
      ResentHas(out[0], held[0], base, window, x);
    } else if Reaches(held[0], base, window) {
      k := ResendsHas(out[1..], held[1..], base, window, (ipid + 1) % 0x1_0000, i - 1, x);
      k := k + 1;
    } else {
      k := ResendsHas(out, held[1..], base, window, ipid, i - 1, x);
    }
  }

  lemma ResentHas(p: Packet, h: Packet, base: u32, window: nat, x: u32)
    requires window <= x && Sub32(h.meta.seqNo, base) <= x < ReachOf(h, base)
    requires var n := TrimOf(h, base, window);
             && n < |PayloadOf(h)|
             && S.Sound(p, h.meta.(seqNo := Add32(h.meta.seqNo, n)), PayloadOf(h)[n..])
    ensures HasByte(p, Add32(base, x))
  {
    hide S.Sound, PayloadOf, HasByte, Says, Add32, Sub32;
    var off, n := Sub32(h.meta.seqNo, base), TrimOf(h, base, window);
    SoundSays(p, h.meta.(seqNo := Add32(h.meta.seqNo, n)), PayloadOf(h)[n..]);
    SamePosition(base, h.meta.seqNo, x - off);
    AddAdd(h.meta.seqNo, n, x - off - n);
    OffsetOfPosition(Add32(h.meta.seqNo, n), x - off - n);
    SaysHas(p, Add32(h.meta.seqNo, n), PayloadOf(h)[n..], Add32(base, x));
  }

  /** A byte beyond the window that two held packets have is sent twice. */
  lemma {:induction false} ResendsTwice(out: seq<Packet>, held: seq<Packet>, base: u32, window: nat, ipid: u16, i: nat,
                                        j: nat, x: u32) returns (a: nat, b: nat)
    requires Resends(out, held, base, window, ipid) && i < j < |held| && window <= x
    requires Sub32(held[i].meta.seqNo, base) <= x < ReachOf(held[i], base)
    requires Sub32(held[j].meta.seqNo, base) <= x < ReachOf(held[j], base)
    ensures a < b < |out| && HasByte(out[a], Add32(base, x)) && HasByte(out[b], Add32(base, x))
    decreases |held|
  {
    hide S.Sound, Resends, PayloadOf, HasByte, Add32, Sub32, TrimOf;
    ResendsNext(out, held, base, window, ipid);
    var next: u16 := (ipid + 1) % 0x1_0000;
    if i == 0 {
      a := 0;
      ResentHas(out[0], held[0], base, window, x);
      b := ResendsHas(out[1..], held[1..], base, window, next, j - 1, x);
      b := b + 1;
    } else if Reaches(held[0], base, window) {
      a, b := ResendsTwice(out[1..], held[1..], base, window, next, i - 1, j - 1, x);
      a, b := a + 1, b + 1;
    } else {
      a, b := ResendsTwice(out, held[1..], base, window, ipid, i - 1, j - 1, x);
    }
  }

  // ---- the remaining case ----

  lemma IrregularFacts(e: Event)
    requires e.Split? && SplitOf(None, e) && !Regular(e.flow, e.window)
    ensures Collected(e.flow) && AllNeat(e.flow.held, e.flow.base)
    ensures e.flow.buf.value.Contig() == Tape(e.flow.held, e.flow.base)
    ensures e.window < |Tape(e.flow.held, e.flow.base)| <= 0xffff_ffff
    ensures exists n: nat :: WindowThenHeld(e.plan, e.flow, e.window, n)
  {
    hide Plan, R.PushAll, WindowThenHeld, AllNeat, Tape, Belongs, Genuine, PrefixBefore;
    IrregularResends(e);
    var g := e.flow;
    BufTapes(g.base, g.buf.value.max, g.held);
    assert g.buf.value.prefix - 1 in g.buf.value.bytes;
  }

  lemma IrregularQuiet(e: Event)
    requires e.Split? && SplitOf(None, e) && !Regular(e.flow, e.window)
    ensures QuietButLast(e.plan) <==> HeldQuietButLast(e.flow.held, e.flow.base, e.window)
  {
    hide SplitOf, Regular, AllNeat, Tape, R.Buf.Contig, Resends, S.Carries, QuietButLast, HeldQuietButLast, Genuine,
         Get16, WithoutPshFin;
    IrregularFacts(e);
    var g, window := e.flow, e.window;
    var n: nat :| WindowThenHeld(e.plan, g, window, n);
    var meta := g.template.value.meta;
    var quiet, ipid := WithoutPshFin(meta.flags), Get16(g.template.value.data, 4);
    TemplateIsQuiet(meta.flags);
    CarriesQuiet(e.plan[..n], meta, g.base, g.buf.value.Contig()[..window], quiet, quiet, ipid);
    ResendsQuiet(e.plan[n..], g.held, g.base, window, (ipid + n) % 0x1_0000);
    OneReaches(g.held, g.base, window);
    QuietThen(e.plan[..n], e.plan[n..]);
    assert e.plan[..n] + e.plan[n..] == e.plan;
  }

  lemma OneReaches(held: seq<Packet>, base: u32, window: nat)
    requires window < |Tape(held, base)|
    ensures SomeReaches(held, base, window)
  {
    hide PayloadOf, Sub32, Tape;
    assert held[..|held|] == held;
    var k := TapeCovers(held, base, |held|, window);
    assert Reaches(held[k], base, window);
  }

  lemma IrregularInSequence(e: Event)
    requires e.Split? && SplitOf(None, e) && !Regular(e.flow, e.window)
    ensures Collected(e.flow)
    ensures Follow(e.flow.held, e.flow.base, e.window) ==>
              InSequence(e.plan, e.flow.base, e.flow.buf.value.Contig())
    ensures !Follow(e.flow.held, e.flow.base, e.window) ==> Repeats(e.plan)
    ensures |e.flow.buf.value.Contig()| <= 0xffff_ffff
  {
    hide SplitOf, Regular, AllNeat, Tape, R.Buf.Contig, Resends, S.Carries, Genuine, Follow, InSequence, HasByte,
         Get16, WithoutPshFin, Add32, Sub32, PayloadOf;
    IrregularFacts(e);
    var g, window, contig := e.flow, e.window, e.flow.buf.value.Contig();
    var n: nat :| WindowThenHeld(e.plan, g, window, n);
    var meta := g.template.value.meta;
    var quiet, ipid := WithoutPshFin(meta.flags), Get16(g.template.value.data, 4);
    var first, rest := e.plan[..n], e.plan[n..];
    assert first + rest == e.plan;
    if Follow(g.held, g.base, window) {
      CarriesInSequence(first, meta, g.base, contig[..window], quiet, quiet, ipid);
      NoneYet(g.held, g.base, window);
      ResendsInSequence(rest, g.held, 0, g.base, window, (ipid + n) % 0x1_0000);
      InSequenceConcat(first, rest, g.base, contig[..window], contig[window..]);
      assert contig[..window] + contig[window..] == contig;
    } else {
      var i, j, x := NotFollowing(g.held, g.base, window);
      ReachBound(g.held, g.base, j);
      var a, b := ResendsTwice(rest, g.held, g.base, window, (ipid + n) % 0x1_0000, i, j, x);
      RepeatsRight(first, rest, a, b, Add32(g.base, x));
    }
  }

  lemma NoneYet(held: seq<Packet>, base: u32, window: nat)
    ensures held[0..] == held && Max(window, |Tape(held[..0], base)|) == window
  {
    hide Take;
  }

  lemma ReachBound(held: seq<Packet>, base: u32, j: nat)
    requires AllNeat(held, base) && j < |held| && |Tape(held, base)| <= 0xffff_ffff
    ensures PayloadOf(held[j]) != [] ==> ReachOf(held[j], base) <= 0xffff_ffff
  {
    hide PayloadOf, Sub32, Tape, AllNeat;
    if PayloadOf(held[j]) != [] {
      ReachInTape(held, base, j);
      TapeGrows(held, base, j + 1, |held|);
      assert held[..|held|] == held;
    }
  }

  lemma RepeatsRight(a: seq<Packet>, b: seq<Packet>, i: nat, j: nat, s: u32)
    requires i < j < |b| && HasByte(b[i], s) && HasByte(b[j], s)
    ensures Repeats(a + b)
  {
    hide HasByte;
    assert HasByte((a + b)[|a| + i], s) && HasByte((a + b)[|a| + j], s);
  }

  lemma RegularFacts(e: Event)
    requires e.Split? && SplitOf(None, e) && Regular(e.flow, e.window)
    ensures Collected(e.flow) && QuietButLast(e.plan) && InSequence(e.plan, e.flow.base, e.flow.buf.value.Contig())
    ensures |e.flow.buf.value.Contig()| <= 0xffff_ffff
  {
    hide SplitOf, Regular, S.Carries, QuietButLast, InSequence, Genuine, Get16, WithoutPshFin, R.Buf.Contig;
    RegularIsExact(e);
    var g := e.flow;
    var meta, contig := g.template.value.meta, g.buf.value.Contig();
    var quiet, ipid := WithoutPshFin(meta.flags), Get16(g.template.value.data, 4);
    TemplateIsQuiet(meta.flags);
    CarriesQuiet(e.plan, meta, g.base, contig, quiet, meta.flags, ipid);
    CarriesInSequence(e.plan, meta, g.base, contig, quiet, meta.flags, ipid);
    assert g.buf.value.prefix == 0 || g.buf.value.prefix - 1 in g.buf.value.bytes;
  }

  // ---- results ----

  lemma AtSplit(h: History, i: nat)
    requires h.IsRun() && h.NoErrors() && i < |h.End().trace| && h.End().trace[i].Split?
    ensures SplitOf(None, h.End().trace[i]) && h.End().trace[i].flow.held != [] && h.End().trace[i].flow.buf.Some?
    ensures Collected(h.End().trace[i].flow)
  {
    hide RunAll, InputsOk, RunOk, AllUse, History.StepsAt, History.SucceedsAt, Plan, Genuine, Belongs;
    RunIsOk(h);
    AnyConfigs(h.ins);
    RunRests(None, h.ins, h.fate);
    assert SplitOf(None, h.End().trace[i]);
  }

  /** PSH and FIN are on the last packet of an injection only, in every run without errors and under any reloads, if and
    * only if the injection is regular, or of the held packets that reach beyond the window all but the last have
    * neither. */
  lemma LastOnlyIff(h: History, i: nat)
    requires h.IsRun() && h.NoErrors() && i < |h.End().trace| && h.End().trace[i].Split?
    ensures var e := h.End().trace[i];
            && e.flow.held != [] && e.flow.buf.Some?
            && (QuietButLast(e.plan) <==>
                  Regular(e.flow, e.window) || HeldQuietButLast(e.flow.held, e.flow.base, e.window))
  {
    hide SplitOf, Regular, QuietButLast, HeldQuietButLast, RunAll, History.StepsAt, History.SucceedsAt, Collected,
         InSequence;
    AtSplit(h, i);
    var e := h.End().trace[i];
    if Regular(e.flow, e.window) {
      RegularFacts(e);
    } else {
      IrregularQuiet(e);
    }
  }

  /** An injection of a run without errors, under any reloads, carries exactly the contiguous prefix, in order and
    * without gap or repetition, if and only if it is regular or the held packets that reach beyond the window follow
    * one another; and otherwise it sends some byte twice. */
  lemma ExactlyThePrefixIff(h: History, i: nat)
    requires h.IsRun() && h.NoErrors() && i < |h.End().trace| && h.End().trace[i].Split?
    ensures var e := h.End().trace[i];
            && Collected(e.flow) && e.flow.held != []
            && var fine := Regular(e.flow, e.window) || Follow(e.flow.held, e.flow.base, e.window);
               && (InSequence(e.plan, e.flow.base, e.flow.buf.value.Contig()) <==> fine)
               && (Repeats(e.plan) <==> !fine)
  {
    hide SplitOf, Regular, Follow, RunAll, History.StepsAt, History.SucceedsAt, Collected, InSequence, Repeats;
    AtSplit(h, i);
    var e := h.End().trace[i];
    if Regular(e.flow, e.window) {
      RegularFacts(e);
    } else {
      IrregularInSequence(e);
    }
    SplitRepeats(e);
  }

  lemma SplitRepeats(e: Event)
    requires e.Split? && Collected(e.flow) && |e.flow.buf.value.Contig()| <= 0xffff_ffff
    ensures InSequence(e.plan, e.flow.base, e.flow.buf.value.Contig()) ==> !Repeats(e.plan)
  {
    hide InSequence, Repeats, R.Buf.Contig, Genuine;
    if InSequence(e.plan, e.flow.base, e.flow.buf.value.Contig()) {
      InSequenceNoRepeat(e.plan, e.flow.base, e.flow.buf.value.Contig());
    }
  }
}
