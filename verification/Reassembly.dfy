/** The reassembly buffer as a plain offset-to-byte map.

  `Push` here is the simple form: a fragment writes its bytes at their offsets
  from the base sequence number, except that the contiguous prefix is immutable.
  The class in ReassemblyBuffer.dfy, with its sorted segments, is proved to refine it.
 */
module Reassembly {
  import opened Words

  datatype Outcome = Accepted | BufferFull | OutOfWindow

  datatype Fragment = Fragment(start: u32, payload: Bytes)

  /** `prefix` is the length of the contiguous prefix, `bytes` everything received so far. */
  datatype Buf = Buf(base: u32, max: u32, bytes: map<nat, u8>, prefix: nat, outOfOrder: bool, overlap: bool) {

    /** The prefix is the maximal covered one, and nothing lies outside the window. */
    ghost predicate WellFormed() {
      && (forall x | x in bytes :: x < max)
      && (forall x: nat | x < prefix :: x in bytes)
      && prefix !in bytes
      && (!outOfOrder ==> forall x | x in bytes :: x < prefix)
    }

    function Contig(): (s: Bytes)
      requires forall x: nat | x < prefix :: x in bytes
      ensures |s| == prefix
      ensures forall i | 0 <= i < |s| :: s[i] == bytes[i]
    {
      seq(prefix, i requires 0 <= i < prefix => bytes[i])
    }

    function TotalBytes(): nat {
      |bytes|
    }
  }

  function NewBuf(base: u32, max: u32): Buf {
    Buf(base, max, map[], 0, false, false)
  }

  function Offset(base: u32, f: Fragment): u32 {
    Sub32(f.start, base)
  }

  /** The fragment lies inside the window: the condition, independent of the buffer's contents,
    * under which `Push` accepts it (`AcceptedIffFits`). */
  predicate Fits(base: u32, max: u32, f: Fragment) {
    f.payload == [] || Offset(base, f) + |f.payload| <= max
  }

  predicate Covers(base: u32, f: Fragment, x: nat) {
    Offset(base, f) <= x < Offset(base, f) + |f.payload|
  }

  function Write(m: map<nat, u8>, lo: nat, off: nat, payload: Bytes): map<nat, u8>
    requires off <= lo
  {
    var touched := Interval(lo, off + |payload|);
    m + map x | x in touched :: payload[x - off]
  }

  lemma WriteAt(m: map<nat, u8>, lo: nat, off: nat, payload: Bytes, x: nat)
    requires off <= lo
    ensures x in Write(m, lo, off, payload) <==> x in m || lo <= x < off + |payload|
    ensures lo <= x < off + |payload| ==> Write(m, lo, off, payload)[x] == payload[x - off]
    ensures x in m && !(lo <= x < off + |payload|) ==> Write(m, lo, off, payload)[x] == m[x]
  {
  }

  function KeysFrom(m: map<nat, u8>, n: nat): set<nat> {
    set x | x in m && n <= x
  }

  /** The first offset from `n` on that is not in `m`. */
  function FirstGap(m: map<nat, u8>, n: nat): nat
    decreases KeysFrom(m, n)
  {
    if n in m then
      assert n in KeysFrom(m, n) && n !in KeysFrom(m, n + 1);
      FirstGap(m, n + 1)
    else n
  }

  /** Some byte of `m` from offset `prefix` on overlaps or touches the interval [lo, hi). */
  ghost predicate Touches(m: map<nat, u8>, prefix: nat, lo: nat, hi: nat) {
    exists x: nat :: x in m && prefix <= x && lo <= x + 1 && x <= hi
  }

  ghost function Push(b: Buf, f: Fragment): (Buf, Outcome) {
    var off := Offset(b.base, f);
    var end := off + |f.payload|;
    if f.payload == [] then (b, Accepted)
    else if b.max == 0 then (b, BufferFull)
    else if off >= b.max then (b, OutOfWindow)
    else if end >= 0x1_0000_0000 then (b, BufferFull)
    else if end <= b.prefix then (b, Accepted)
    else
      var b1 := if off < b.prefix then b.(overlap := true) else b;
      if end > b.max then (b1, BufferFull)
      else
        var lo := Max(off, b.prefix);
        var bytes := Write(b.bytes, lo, off, f.payload);
        (Buf(b.base, b.max, bytes, FirstGap(bytes, b.prefix),
             b.outOfOrder || off > b.prefix, b1.overlap || Touches(b.bytes, b.prefix, lo, end)), Accepted)
  }

  /** The buffer after a whole history of fragments; refused ones leave the contents alone. */
  ghost function PushAll(b: Buf, fs: seq<Fragment>): Buf {
    if fs == [] then b else Push(PushAll(b, fs[..|fs| - 1]), fs[|fs| - 1]).0
  }

  // ---- one push ----

  lemma {:induction false} FirstGapIsFirst(m: map<nat, u8>, n: nat)
    ensures n <= FirstGap(m, n)
    ensures FirstGap(m, n) !in m
    ensures forall x: nat | n <= x < FirstGap(m, n) :: x in m
    decreases KeysFrom(m, n)
  {
    if n in m {
      assert n in KeysFrom(m, n) && n !in KeysFrom(m, n + 1);
      FirstGapIsFirst(m, n + 1);
    }
  }

  lemma FirstGapUnique(m: map<nat, u8>, n: nat, g: nat)
    requires n <= g && g !in m
    requires forall x: nat | n <= x < g :: x in m
    ensures FirstGap(m, n) == g
  {
    FirstGapIsFirst(m, n);
  }

  lemma PushKeepsWellFormed(b: Buf, f: Fragment)
    requires b.WellFormed()
    ensures Push(b, f).0.WellFormed()
    ensures Push(b, f).0.base == b.base && Push(b, f).0.max == b.max
    ensures b.prefix <= Push(b, f).0.prefix
  {
    var off := Offset(b.base, f);
    if off <= off + |f.payload| <= b.max {
      var bytes := Write(b.bytes, Max(off, b.prefix), off, f.payload);
      FirstGapIsFirst(bytes, b.prefix);
    }
  }

  /** Whether a fragment is refused depends only on where it lies, never on what arrived before. */
  lemma AcceptedIffFits(b: Buf, f: Fragment)
    requires b.WellFormed()
    ensures Push(b, f).1 == Accepted <==> Fits(b.base, b.max, f)
  {
    assert b.max !in b.bytes;
  }

  /** A refused push leaves the contents unchanged. */
  lemma RefusedKeepsContents(b: Buf, f: Fragment)
    requires b.WellFormed() && Push(b, f).1 != Accepted
    ensures Push(b, f).0.bytes == b.bytes && Push(b, f).0.prefix == b.prefix
    ensures Push(b, f).0.outOfOrder == b.outOfOrder
  {
  }

  /** What one accepted fragment does to the map: prefix bytes stay, its other bytes win. */
  lemma AcceptedWrites(b: Buf, f: Fragment, x: nat)
    requires b.WellFormed() && Push(b, f).1 == Accepted
    ensures x in Push(b, f).0.bytes <==> x in b.bytes || Covers(b.base, f, x)
    ensures x in Push(b, f).0.bytes ==>
              Push(b, f).0.bytes[x] ==
              if x < b.prefix || !Covers(b.base, f, x) then b.bytes[x] else f.payload[x - Offset(b.base, f)]
  {
  }

  /** The exact condition under which an accepted fragment leaves an already received byte as it was.
    * The earliest byte wins in the contiguous prefix, the newest one past it. */
  lemma EarlierByteKeptIff(b: Buf, f: Fragment, x: nat)
    requires b.WellFormed() && Push(b, f).1 == Accepted && x in b.bytes
    ensures x in Push(b, f).0.bytes
    ensures Push(b, f).0.bytes[x] == b.bytes[x] <==>
            (Covers(b.base, f, x) ==> x < b.prefix || f.payload[x - Offset(b.base, f)] == b.bytes[x])
  {
    AcceptedWrites(b, f, x);
  }

  /** The design notes promise that duplicate bytes keep their earliest value; a pending byte does not. */
  lemma EarliestPendingByteIsOverwritten()
    ensures var b := PushAll(NewBuf(1000, 64), [Fragment(1005, [70])]);
            5 in b.bytes && b.bytes[5] == 70
    ensures var b := PushAll(NewBuf(1000, 64), [Fragment(1005, [70]), Fragment(1005, [88])]);
            5 in b.bytes && b.bytes[5] == 88
  {
    hide Push, Offset;
    var f, g := Fragment(1005, [70]), Fragment(1005, [88]);
    var b0 := NewBuf(1000, 64);
    var b1 := Push(b0, f).0;
    assert [f][..0] == [] && [f, g][..1] == [f];
    assert PushAll(b0, [f]) == b1 && PushAll(b0, [f, g]) == Push(b1, g).0;
    PushOneByte(b0, f);
    PushOneByte(b1, g);
  }

  /** One byte pushed past the gap at the base is there afterwards, and the gap remains. */
  lemma PushOneByte(b: Buf, f: Fragment)
    requires b.WellFormed() && b.base == 1000 && b.max == 64 && b.prefix == 0
    requires f.start == 1005 && |f.payload| == 1
    ensures var b' := Push(b, f).0;
            && b'.WellFormed() && b'.base == 1000 && b'.max == 64 && b'.prefix == 0
            && 5 in b'.bytes && b'.bytes[5] == f.payload[0]
  {
    AcceptedIffFits(b, f);
    PushKeepsWellFormed(b, f);
    AcceptedWrites(b, f, 5);
    AcceptedWrites(b, f, 0);
    hide Push;
  }

  // ---- whole histories ----

  /** `x` lies in one of the in-window fragments. */
  ghost predicate Covered(base: u32, max: u32, fs: seq<Fragment>, x: nat) {
    exists f :: f in fs && Fits(base, max, f) && Covers(base, f, x)
  }

  lemma {:induction false} PushAllWellFormed(base: u32, max: u32, fs: seq<Fragment>)
    ensures PushAll(NewBuf(base, max), fs).WellFormed()
    ensures PushAll(NewBuf(base, max), fs).base == base && PushAll(NewBuf(base, max), fs).max == max
  {
    if fs != [] {
      var front := fs[..|fs| - 1];
      PushAllWellFormed(base, max, front);
      PushKeepsWellFormed(PushAll(NewBuf(base, max), front), fs[|fs| - 1]);
    }
  }

  /** The offsets present after a history are exactly those of its in-window fragments. */
  lemma {:induction false} PushAllCovers(base: u32, max: u32, fs: seq<Fragment>, x: nat)
    ensures x in PushAll(NewBuf(base, max), fs).bytes <==> Covered(base, max, fs, x)
  {
    if fs != [] {
      var front, last := fs[..|fs| - 1], fs[|fs| - 1];
      var b := PushAll(NewBuf(base, max), front);
      PushAllWellFormed(base, max, front);
      PushAllCovers(base, max, front, x);
      AcceptedIffFits(b, last);
      assert forall f :: f in fs <==> f in front || f == last by {
        assert fs == front + [last];
      }
      if Push(b, last).1 == Accepted {
        AcceptedWrites(b, last, x);
      } else {
        RefusedKeepsContents(b, last);
      }
    }
  }

  ghost predicate AllCutFrom(stream: Stream, fs: seq<Fragment>) {
    forall f | f in fs :: CutFrom(stream, f.start, f.payload)
  }

  /** Every byte of the buffer is the stream's byte at that offset from the base. */
  ghost predicate Holds(stream: Stream, b: Buf) {
    forall x | x in b.bytes :: b.bytes[x] == stream(Add32(b.base, x))
  }

  lemma PushHolds(stream: Stream, b: Buf, f: Fragment)
    requires b.WellFormed() && Holds(stream, b) && CutFrom(stream, f.start, f.payload)
    ensures Holds(stream, Push(b, f).0)
  {
    hide Push, CutFrom;
    PushKeepsWellFormed(b, f);
    if Push(b, f).1 != Accepted {
      RefusedKeepsContents(b, f);
    } else {
      forall x | x in Push(b, f).0.bytes ensures Push(b, f).0.bytes[x] == stream(Add32(b.base, x)) {
        AcceptedWrites(b, f, x);
        if x >= b.prefix && Covers(b.base, f, x) {
          CutByte(stream, b.base, f, x);
        }
      }
    }
  }

  lemma CutByte(stream: Stream, base: u32, f: Fragment, x: nat)
    requires CutFrom(stream, f.start, f.payload) && Covers(base, f, x)
    ensures f.payload[x - Offset(base, f)] == stream(Add32(base, x))
  {
    SamePosition(base, f.start, x - Offset(base, f));
    hide Add32, Sub32;
    assert f.payload[x - Offset(base, f)] == stream(Add32(f.start, x - Offset(base, f)));
  }

  lemma {:induction false} PushAllHolds(stream: Stream, base: u32, max: u32, fs: seq<Fragment>)
    requires AllCutFrom(stream, fs)
    ensures Holds(stream, PushAll(NewBuf(base, max), fs))
  {
    if fs != [] {
      var front := fs[..|fs| - 1];
      PushAllHolds(stream, base, max, front);
      PushAllWellFormed(base, max, front);
      PushHolds(stream, PushAll(NewBuf(base, max), front), fs[|fs| - 1]);
    }
  }

  /** Reassembly is confluent. Fragments of one stream, in any order, with any duplication, overlap
    * and wrap-around, give the longest covered prefix of that stream. */
  lemma ReassemblyIsLongestCoveredPrefix(stream: Stream, base: u32, max: u32, fs: seq<Fragment>)
    requires AllCutFrom(stream, fs)
    ensures var b := PushAll(NewBuf(base, max), fs);
            && b.WellFormed()
            && (forall x: nat | x < b.prefix :: Covered(base, max, fs, x))
            && !Covered(base, max, fs, b.prefix)
            && CutFrom(stream, base, b.Contig())
  {
    var b := PushAll(NewBuf(base, max), fs);
    PushAllWellFormed(base, max, fs);
    PushAllHolds(stream, base, max, fs);
    forall x: nat ensures x in b.bytes <==> Covered(base, max, fs, x) {
      PushAllCovers(base, max, fs, x);
    }
    var s := b.Contig();
    assert forall i | 0 <= i < |s| :: s[i] == b.bytes[i] && i in b.bytes;
  }

  /** Two histories made of the same fragments, whatever the order and multiplicity, agree. */
  lemma ReassemblyIsConfluent(stream: Stream, base: u32, max: u32, fs: seq<Fragment>, gs: seq<Fragment>)
    requires AllCutFrom(stream, fs)
    requires forall f :: f in fs <==> f in gs
    ensures PushAll(NewBuf(base, max), fs).bytes == PushAll(NewBuf(base, max), gs).bytes
    ensures PushAll(NewBuf(base, max), fs).prefix == PushAll(NewBuf(base, max), gs).prefix
  {
    var b, c := PushAll(NewBuf(base, max), fs), PushAll(NewBuf(base, max), gs);
    PushAllWellFormed(base, max, fs);
    PushAllWellFormed(base, max, gs);
    PushAllHolds(stream, base, max, fs);
    PushAllHolds(stream, base, max, gs);
    forall x: nat ensures x in b.bytes <==> x in c.bytes {
      PushAllCovers(base, max, fs, x);
      PushAllCovers(base, max, gs, x);
    }
    assert b.prefix !in c.bytes && c.prefix !in b.bytes;
  }

  /** Fragment `i` of a history lies in the window but beyond the prefix its predecessors made. */
  ghost predicate Early(base: u32, max: u32, fs: seq<Fragment>, i: nat)
    requires i < |fs|
  {
    && fs[i].payload != [] && Fits(base, max, fs[i])
    && Offset(base, fs[i]) > PushAll(NewBuf(base, max), fs[..i]).prefix
  }

  lemma OutOfOrderStep(b: Buf, f: Fragment)
    requires b.WellFormed()
    ensures Push(b, f).0.outOfOrder <==>
            b.outOfOrder || (f.payload != [] && Fits(b.base, b.max, f) && Offset(b.base, f) > b.prefix)
  {
    assert b.max !in b.bytes;
  }

  /** The out-of-order flag records exactly whether some in-window fragment arrived beyond the prefix. */
  lemma {:induction false} OutOfOrderIff(base: u32, max: u32, fs: seq<Fragment>, n: nat)
    requires n <= |fs|
    ensures PushAll(NewBuf(base, max), fs[..n]).outOfOrder <==>
            exists i: nat :: i < n && Early(base, max, fs, i)
  {
    hide Push;
    if n > 0 {
      OutOfOrderIff(base, max, fs, n - 1);
      PushAllWellFormed(base, max, fs[..n - 1]);
      OutOfOrderStep(PushAll(NewBuf(base, max), fs[..n - 1]), fs[n - 1]);
      assert fs[..n][..n - 1] == fs[..n - 1];
      assert PushAll(NewBuf(base, max), fs[..n]).outOfOrder <==>
        PushAll(NewBuf(base, max), fs[..n - 1]).outOfOrder || Early(base, max, fs, n - 1);
    }
  }

  /** Fragment `i` of a history starts in the window and reaches beyond the prefix its predecessors made; and it starts
    * within that prefix, or ends in the window and overlaps or touches what they have beyond the prefix. */
  ghost predicate Overlaps(base: u32, max: u32, fs: seq<Fragment>, i: nat)
    requires i < |fs|
  {
    var off, end := Offset(base, fs[i]), Offset(base, fs[i]) + |fs[i].payload|;
    var prefix := PushAll(NewBuf(base, max), fs[..i]).prefix;
    && fs[i].payload != [] && off < max && end < 0x1_0000_0000 && prefix < end
    && (off < prefix
        || (end <= max && exists x: nat :: prefix <= x && off <= x + 1 && x <= end && Covered(base, max, fs[..i], x)))
  }

  lemma OverlapStep(b: Buf, f: Fragment)
    requires b.WellFormed()
    ensures var off, end := Offset(b.base, f), Offset(b.base, f) + |f.payload|;
            Push(b, f).0.overlap <==>
            || b.overlap
            || (f.payload != [] && off < b.max && end < 0x1_0000_0000 && b.prefix < end
                && (off < b.prefix || (end <= b.max && Touches(b.bytes, b.prefix, off, end))))
  {
    hide FirstGap, Write;
  }

  /** The overlap flag records exactly whether some fragment did that. */
  lemma {:induction false} OverlapIff(base: u32, max: u32, fs: seq<Fragment>, n: nat)
    requires n <= |fs|
    ensures PushAll(NewBuf(base, max), fs[..n]).overlap <==> exists i: nat :: i < n && Overlaps(base, max, fs, i)
  {
    hide Push, Overlaps;
    if n > 0 {
      OverlapIff(base, max, fs, n - 1);
      assert fs[..n][..n - 1] == fs[..n - 1];
      OverlapNext(base, max, fs, n - 1);
      assert PushAll(NewBuf(base, max), fs[..n]).overlap <==>
        PushAll(NewBuf(base, max), fs[..n - 1]).overlap || Overlaps(base, max, fs, n - 1);
    }
  }

  lemma OverlapNext(base: u32, max: u32, fs: seq<Fragment>, i: nat)
    requires i < |fs|
    ensures var b := PushAll(NewBuf(base, max), fs[..i]);
            Push(b, fs[i]).0.overlap <==> b.overlap || Overlaps(base, max, fs, i)
  {
    hide Push, PushAll, Covered, Offset;
    var b := PushAll(NewBuf(base, max), fs[..i]);
    PushAllWellFormed(base, max, fs[..i]);
    OverlapStep(b, fs[i]);
    forall x: nat ensures x in b.bytes <==> Covered(base, max, fs[..i], x) {
      PushAllCovers(base, max, fs[..i], x);
    }
  }
}
