/** The reassembly buffer as the program keeps it: a contiguous prefix and sorted pending segments.

  Every field is updated in place in uint32 arithmetic. The ghost field `bytes` is the
  offset-to-byte map; `Valid` ties it to the fields and `Push` is proved to act on it as
  `Reassembly.Push` does.
 */
module ReassemblyBuffer {
  import opened Words
  import R = Reassembly

  datatype Segment = Segment(offset: u32, data: Bytes) {
    function End(): int {
      offset + |data|
    }
    predicate Has(x: int) {
      offset <= x < offset + |data|
    }
    /** The map has this segment's byte at offset `x`. */
    ghost predicate StoredIn(bytes: map<nat, u8>, x: nat) {
      Has(x) && x in bytes && bytes[x] == data[x - offset]
    }
  }

  /** Sorted, non-empty, separated by gaps, at or beyond `lo` and within the window. */
  ghost predicate Ordered(segs: seq<Segment>, lo: int, max: int) {
    && (forall i | 0 <= i < |segs| :: segs[i].data != [] && lo <= segs[i].offset && segs[i].End() <= max)
    && (forall i, j | 0 <= i < j < |segs| :: segs[i].End() < segs[j].offset)
  }

  ghost predicate InSome(segs: seq<Segment>, x: int) {
    exists i :: 0 <= i < |segs| && segs[i].Has(x)
  }

  /** The map holds exactly the bytes of the prefix and of the segments. */
  ghost predicate Represents(contig: Bytes, segs: seq<Segment>, bytes: map<nat, u8>) {
    && (forall x: nat :: x in bytes <==> x < |contig| || InSome(segs, x))
    && (forall x: nat | x < |contig| :: bytes[x] == contig[x])
    && (forall i, x: nat {:trigger segs[i].Has(x)} | 0 <= i < |segs| && segs[i].Has(x) :: segs[i].StoredIn(bytes, x))
  }

  function SumLens(segs: seq<Segment>): nat {
    if segs == [] then 0 else SumLens(segs[..|segs| - 1]) + |segs[|segs| - 1].data|
  }

  lemma {:induction false} SumLensConcat(a: seq<Segment>, b: seq<Segment>)
    ensures SumLens(a + b) == SumLens(a) + SumLens(b)
  {
    if b == [] {
      assert a + b == a;
    } else {
      assert (a + b)[..|a + b| - 1] == a + b[..|b| - 1];
      SumLensConcat(a, b[..|b| - 1]);
    }
  }

  /** Disjoint segments beyond `lo` cannot hold more bytes than the window has left. */
  lemma {:induction false} SumLensBounded(segs: seq<Segment>, lo: nat, max: nat)
    requires Ordered(segs, lo, max) && lo <= max
    ensures lo + SumLens(segs) <= max
  {
    if segs != [] {
      var n := |segs| - 1;
      SumLensBounded(segs[..n], lo, segs[n].offset);
    }
  }

  lemma SumLensSplit(segs: seq<Segment>, k: nat)
    requires k <= |segs|
    ensures SumLens(segs) == SumLens(segs[..k]) + SumLens(segs[k..])
  {
    hide *;
    assert segs == segs[..k] + segs[k..];
    SumLensConcat(segs[..k], segs[k..]);
  }

  lemma SumLensNone(segs: seq<Segment>, left: nat)
    requires left <= |segs|
    ensures SumLens(segs[left..left]) == 0
  {
    assert segs[left..left] == [];
  }

  lemma SumLensNext(segs: seq<Segment>, left: nat, j: nat)
    requires left <= j < |segs|
    ensures SumLens(segs[left..j + 1]) == SumLens(segs[left..j]) + |segs[j].data|
  {
    var part := segs[left..j + 1];
    assert part[..|part| - 1] == segs[left..j];
  }

  lemma SumOfPart(segs: seq<Segment>, max: nat, left: nat, right: nat)
    requires Ordered(segs, 0, max) && left <= right <= |segs|
    ensures SumLens(segs) == SumLens(segs[..left]) + SumLens(segs[left..right]) + SumLens(segs[right..]) <= max
  {
    hide *;
    SumLensBounded(segs, 0, max);
    SumLensSplit(segs, right);
    SumLensSplit(segs[..right], left);
    assert segs[..right][..left] == segs[..left];
  }

  /** Taking the last segment's offsets away leaves those of the others. */
  lemma WithoutLast(n: nat, segs: seq<Segment>, max: nat, x: nat)
    requires segs != [] && Ordered(segs, n, max)
    ensures var k := |segs| - 1;
            && Ordered(segs[..k], n, max)
            && (segs[k].Has(x) ==> InSome(segs, x))
            && ((x < n || InSome(segs[..k], x)) <==> (x < n || InSome(segs, x)) && !segs[k].Has(x))
  {
    var k := |segs| - 1;
    var front := segs[..k];
    assert forall i | 0 <= i < k :: front[i].Has(x) <==> segs[i].Has(x);
    assert forall i | 0 <= i < k :: segs[i].End() < segs[k].offset;
  }

  /** The byte count is the number of mapped offsets. */
  lemma {:induction false} CountOffsets(n: nat, segs: seq<Segment>, max: nat, keys: set<nat>)
    requires Ordered(segs, n, max)
    requires forall x: nat :: x in keys <==> x < n || InSome(segs, x)
    ensures |keys| == n + SumLens(segs)
  {
    hide Ordered, InSome;
    if segs == [] {
      CountNothing(n, segs, keys);
    } else {
      var k := |segs| - 1;
      var last := segs[k];
      var tail := Interval(last.offset, last.End());
      forall x: nat
        ensures x in keys - tail <==> x < n || InSome(segs[..k], x)
        ensures x in tail ==> x in keys
      {
        WithoutLast(n, segs, max, x);
      }
      WithoutLast(n, segs, max, 0);
      CountOffsets(n, segs[..k], max, keys - tail);
      assert keys == (keys - tail) + tail;
    }
  }

  lemma CountNothing(n: nat, segs: seq<Segment>, keys: set<nat>)
    requires segs == [] && forall x: nat :: x in keys <==> x < n || InSome(segs, x)
    ensures |keys| == n
  {
    assert keys == Interval(0, n);
  }

  /** Go's `copy` into the middle of a slice. */
  function CopyInto(dst: Bytes, at: nat, src: Bytes): (r: Bytes)
    requires at + |src| <= |dst|
    ensures |r| == |dst|
    ensures forall i | 0 <= i < |dst| :: r[i] == if at <= i < at + |src| then src[i - at] else dst[i]
  {
    dst[..at] + src + dst[at + |src|..]
  }

  /** The merged segments: `left` and `right` bound what the new interval overlaps or touches. */
  ghost predicate Spans(segs: seq<Segment>, left: nat, right: nat, start: int, end: int, newStart: int, newEnd: int) {
    && left <= right <= |segs|
    && newStart <= start < end <= newEnd
    && (forall i | 0 <= i < left :: segs[i].End() < start)
    && (forall i | left <= i < right :: segs[i].offset <= end && segs[i].End() >= start
                                        && newStart <= segs[i].offset && segs[i].End() <= newEnd)
    && (forall i | right <= i < |segs| :: segs[i].offset > newEnd)
    && (newStart == start || (left < right && newStart == segs[left].offset))
    && (newEnd == end || (left < right && newEnd == segs[right - 1].End()))
  }

  /** What the scan for the right end has established after looking at the segments below `right`. */
  ghost predicate Scanned(segs: seq<Segment>, left: nat, right: nat, start: int, end: int, newStart: int, newEnd: int) {
    && left <= right <= |segs|
    && newStart <= start < end <= newEnd
    && (forall i | 0 <= i < left :: segs[i].End() < start)
    && (forall i | left <= i < right :: segs[i].offset <= end && segs[i].End() >= start
                                        && newStart <= segs[i].offset && segs[i].End() <= newEnd)
    && (forall i | right <= i < |segs| :: start <= segs[i].offset)
    && (newStart == start || (left < right && newStart == segs[left].offset))
    && (newEnd == end || (left < right && newEnd == segs[right - 1].End()))
  }

  lemma ScanStart(segs: seq<Segment>, max: int, left: nat, i: nat, start: int, end: int)
    requires Ordered(segs, 0, max) && start < end && i <= |segs|
    requires forall j | 0 <= j < i :: segs[j].offset < start
    requires forall j | i <= j < |segs| :: segs[j].offset >= start
    requires left == if i > 0 && segs[i - 1].End() >= start then i - 1 else i
    ensures Scanned(segs, left, i, start, end,
                    if left < i then segs[left].offset else start,
                    if left < i then Max(segs[left].End(), end) else end)
  {
    if i > 0 {
      assert forall j | 0 <= j < i - 1 :: segs[j].End() < segs[i - 1].offset;
    }
  }

  lemma ScanStep(segs: seq<Segment>, max: int, left: nat, right: nat, start: int, end: int, newStart: int, newEnd: int)
    requires Ordered(segs, 0, max) && right < |segs|
    requires Scanned(segs, left, right, start, end, newStart, newEnd) && segs[right].offset <= newEnd
    ensures Scanned(segs, left, right + 1, start, end, newStart, Max(newEnd, segs[right].End()))
    ensures segs[right].End() <= max
  {
    var s := segs[right];
    assert left < right ==> segs[right - 1].End() < s.offset;
    assert s.offset < s.End();
  }

  lemma ScanEnd(segs: seq<Segment>, max: int, left: nat, right: nat, start: int, end: int, newStart: int, newEnd: int)
    requires Ordered(segs, 0, max)
    requires Scanned(segs, left, right, start, end, newStart, newEnd)
    requires right < |segs| ==> segs[right].offset > newEnd
    ensures Spans(segs, left, right, start, end, newStart, newEnd)
    ensures left <= right <= |segs| && newStart <= start < end <= newEnd
  {
    forall i | right <= i < |segs| ensures segs[i].offset > newEnd {
      if right < i {
        assert segs[right].End() < segs[i].offset;
      }
    }
  }

  /** The segments after the run [left, right) has been replaced by its merged form. */
  function Spliced(segs: seq<Segment>, left: nat, right: nat, m: Segment): seq<Segment>
    requires left <= right <= |segs|
  {
    segs[..left] + [m] + segs[right..]
  }

  lemma OrderedConcat(a: seq<Segment>, b: seq<Segment>, lo: int, mid: int, max: int)
    requires Ordered(a, lo, mid) && Ordered(b, mid + 1, max) && lo <= mid + 1 && mid <= max
    ensures Ordered(a + b, lo, max)
  {
    var c := a + b;
    assert forall i | 0 <= i < |c| :: c[i] == if i < |a| then a[i] else b[i - |a|];
  }

  /** What lies left and right of the merged run keeps its distance from it. */
  lemma OutsideRun(segs: seq<Segment>, lo: nat, max: nat, left: nat, right: nat,
                   start: int, end: int, newStart: int, newEnd: int)
    requires Ordered(segs, lo, max) && Spans(segs, left, right, start, end, newStart, newEnd)
    ensures Ordered(segs[..left], lo, newStart - 1) && Ordered(segs[right..], newEnd + 1, max)
  {
    if left < right {
      assert forall i | 0 <= i < left :: segs[i].End() < segs[left].offset;
    }
  }

  lemma SplicedOrdered(segs: seq<Segment>, lo: nat, max: nat, left: nat, right: nat,
                       start: int, end: int, m: Segment)
    requires Ordered(segs, lo, max) && lo <= m.offset && m.End() <= max && m.data != []
    requires Spans(segs, left, right, start, end, m.offset, m.End())
    ensures Ordered(Spliced(segs, left, right, m), lo, max)
  {
    OutsideRun(segs, lo, max, left, right, start, end, m.offset, m.End());
    OrderedConcat(segs[..left], [m], lo, m.offset - 1, m.End());
    OrderedConcat(segs[..left] + [m], segs[right..], lo, m.End(), max);
  }

  /** Where the segment at `i` went: itself, or into the merged one. */
  function NewIndex(i: int, left: nat, right: nat): int {
    if i < left then i else if i < right then left else i - right + left + 1
  }

  /** The segments that keep their own data across the splice. */
  lemma SplicedAt(segs: seq<Segment>, left: nat, right: nat, m: Segment, i: nat)
    requires left <= right <= |segs| && i < |segs| && !(left <= i < right)
    ensures Spliced(segs, left, right, m)[NewIndex(i, left, right)] == segs[i]
  {
  }

  lemma SplicedKeeps(segs: seq<Segment>, left: nat, right: nat, start: int, end: int, m: Segment, x: int)
    requires Spans(segs, left, right, start, end, m.offset, m.End())
    requires start <= x < end || InSome(segs, x)
    ensures InSome(Spliced(segs, left, right, m), x)
  {
    var out := Spliced(segs, left, right, m);
    assert out[left] == m;
    if start <= x < end {
      assert out[left].Has(x);
    } else {
      var i :| 0 <= i < |segs| && segs[i].Has(x);
      if !(left <= i < right) {
        SplicedAt(segs, left, right, m, i);
      }
      assert out[NewIndex(i, left, right)].Has(x);
    }
  }

  /** A byte of the merged segment outside the new interval comes from an old segment. */
  lemma HullIsCovered(segs: seq<Segment>, left: nat, right: nat, start: int, end: int, m: Segment, x: int)
    requires Spans(segs, left, right, start, end, m.offset, m.End()) && m.Has(x) && !(start <= x < end)
    ensures left < right && (segs[left].Has(x) || segs[right - 1].Has(x))
  {
  }

  lemma SplicedAddsNothing(segs: seq<Segment>, left: nat, right: nat, start: int, end: int, m: Segment, j: nat, x: int)
    requires Spans(segs, left, right, start, end, m.offset, m.End())
    requires j < |Spliced(segs, left, right, m)| && Spliced(segs, left, right, m)[j].Has(x)
    ensures start <= x < end || InSome(segs, x)
  {
    if j == left {
      if !(start <= x < end) {
        HullIsCovered(segs, left, right, start, end, m, x);
      }
    } else {
      SplicedAt(segs, left, right, m, if j < left then j else j + right - left - 1);
    }
  }

  lemma SplicedCovers(segs: seq<Segment>, left: nat, right: nat, start: int, end: int, m: Segment, x: int)
    requires Spans(segs, left, right, start, end, m.offset, m.End())
    ensures InSome(Spliced(segs, left, right, m), x) <==> start <= x < end || InSome(segs, x)
  {
    var out := Spliced(segs, left, right, m);
    if InSome(out, x) {
      var j :| 0 <= j < |out| && out[j].Has(x);
      SplicedAddsNothing(segs, left, right, start, end, m, j, x);
    } else if start <= x < end || InSome(segs, x) {
      SplicedKeeps(segs, left, right, start, end, m, x);
    }
  }

  /** The merged segment carries the new data on top of the old bytes. */
  ghost predicate Overlays(m: Segment, segs: seq<Segment>, left: nat, right: nat, start: int, data: Bytes)
    requires left <= right <= |segs|
  {
    && (forall x {:trigger m.Has(x)} | m.Has(x) && start <= x < start + |data| ::
          m.data[x - m.offset] == data[x - start])
    && (forall i, x {:trigger segs[i].Has(x)} | left <= i < right && segs[i].Has(x) && !(start <= x < start + |data|) ::
          m.Has(x) && m.data[x - m.offset] == segs[i].data[x - segs[i].offset])
  }

  /** The slice carries the bytes of the segments copied so far. */
  ghost predicate Overlaid(merged: Bytes, segs: seq<Segment>, newStart: int, left: nat, right: nat)
    requires right <= |segs|
  {
    forall i, x {:trigger segs[i].Has(x)} | left <= i < right && segs[i].Has(x) ::
      newStart <= x < newStart + |merged| && merged[x - newStart] == segs[i].data[x - segs[i].offset]
  }

  lemma OverlayFirst(segs: seq<Segment>, newStart: int, newEnd: int, left: nat)
    requires left <= |segs| && newStart <= newEnd
    ensures Overlaid(seq(newEnd - newStart, _ => 0), segs, newStart, left, left)
  {
  }

  lemma OverlayNext(merged: Bytes, segs: seq<Segment>, newStart: int, left: nat, j: nat)
    requires left <= j < |segs| && newStart <= segs[j].offset && segs[j].End() <= newStart + |merged|
    requires forall i | left <= i < j :: segs[i].End() < segs[j].offset
    requires Overlaid(merged, segs, newStart, left, j)
    ensures Overlaid(CopyInto(merged, segs[j].offset - newStart, segs[j].data), segs, newStart, left, j + 1)
  {
  }

  lemma OverlayLast(merged: Bytes, segs: seq<Segment>, newStart: int, left: nat, right: nat, start: int, data: Bytes)
    requires left <= right <= |segs| && 0 <= newStart <= start && start + |data| <= newStart + |merged|
    requires newStart < 0x1_0000_0000 && Overlaid(merged, segs, newStart, left, right)
    ensures Overlays(Segment(newStart, CopyInto(merged, start - newStart, data)), segs, left, right, start, data)
  {
  }

  lemma SplicedValue(segs: seq<Segment>, left: nat, right: nat, start: nat, data: Bytes, m: Segment, j: nat, x: nat)
    requires Spans(segs, left, right, start, start + |data|, m.offset, m.End())
    requires Overlays(m, segs, left, right, start, data)
    requires j < |Spliced(segs, left, right, m)| && Spliced(segs, left, right, m)[j].Has(x)
    ensures var s := Spliced(segs, left, right, m)[j];
            if start <= x < start + |data| then s.data[x - s.offset] == data[x - start]
            else exists i ::
                   0 <= i < |segs| && segs[i].Has(x) && segs[i].data[x - segs[i].offset] == s.data[x - s.offset]
  {
    if j != left {
      SplicedAt(segs, left, right, m, if j < left then j else j + right - left - 1);
    } else if !(start <= x < start + |data|) {
      HullIsCovered(segs, left, right, start, start + |data|, m, x);
    }
  }

  lemma SplicedMember(contig: Bytes, segs: seq<Segment>, bytes: map<nat, u8>, left: nat, right: nat,
                      start: nat, data: Bytes, m: Segment, x: nat)
    requires Represents(contig, segs, bytes) && |contig| <= start
    requires Spans(segs, left, right, start, start + |data|, m.offset, m.End())
    ensures var after := R.Write(bytes, start, start, data);
            && (x in after <==> x < |contig| || InSome(Spliced(segs, left, right, m), x))
            && (x < |contig| ==> x in after && after[x] == contig[x])
  {
    SplicedCovers(segs, left, right, start, start + |data|, m, x);
    R.WriteAt(bytes, start, start, data, x);
  }

  lemma SplicedByte(contig: Bytes, segs: seq<Segment>, bytes: map<nat, u8>, left: nat, right: nat,
                    start: nat, data: Bytes, m: Segment, j: nat, x: nat)
    requires Represents(contig, segs, bytes)
    requires Spans(segs, left, right, start, start + |data|, m.offset, m.End())
    requires Overlays(m, segs, left, right, start, data)
    requires j < |Spliced(segs, left, right, m)| && Spliced(segs, left, right, m)[j].Has(x)
    ensures Spliced(segs, left, right, m)[j].StoredIn(R.Write(bytes, start, start, data), x)
  {
    SplicedValue(segs, left, right, start, data, m, j, x);
    R.WriteAt(bytes, start, start, data, x);
  }

  lemma SpansBound(segs: seq<Segment>, left: nat, right: nat, start: int, end: int, newStart: int, newEnd: int)
    requires Spans(segs, left, right, start, end, newStart, newEnd)
    ensures left <= right <= |segs|
  {
  }

  lemma SplicedRepresents(contig: Bytes, segs: seq<Segment>, bytes: map<nat, u8>, left: nat, right: nat,
                          start: nat, data: Bytes, m: Segment)
    requires Represents(contig, segs, bytes) && |contig| <= start
    requires Spans(segs, left, right, start, start + |data|, m.offset, m.End())
    requires Overlays(m, segs, left, right, start, data)
    ensures Represents(contig, Spliced(segs, left, right, m), R.Write(bytes, start, start, data))
  {
    hide *;
    SpansBound(segs, left, right, start, start + |data|, m.offset, m.End());
    var out := Spliced(segs, left, right, m);
    var after := R.Write(bytes, start, start, data);
    forall x: nat
      ensures x in after <==> x < |contig| || InSome(out, x)
      ensures x < |contig| ==> x in after && after[x] == contig[x]
    {
      SplicedMember(contig, segs, bytes, left, right, start, data, m, x);
    }
    forall j, x: nat | 0 <= j < |out| && out[j].Has(x)
      ensures out[j].StoredIn(after, x)
    {
      SplicedByte(contig, segs, bytes, left, right, start, data, m, j, x);
    }
    RepresentsIntro(contig, out, after);
  }

  lemma RepresentsIntro(contig: Bytes, segs: seq<Segment>, bytes: map<nat, u8>)
    requires forall x: nat :: x in bytes <==> x < |contig| || InSome(segs, x)
    requires forall x: nat | x < |contig| :: x in bytes && bytes[x] == contig[x]
    requires forall i, x: nat {:trigger segs[i].Has(x)} | 0 <= i < |segs| && segs[i].Has(x) ::
               segs[i].StoredIn(bytes, x)
    ensures Represents(contig, segs, bytes)
  {
  }

  lemma WithoutHead(segs: seq<Segment>, x: int)
    requires segs != []
    ensures InSome(segs, x) <==> segs[0].Has(x) || InSome(segs[1..], x)
  {
    var rest := segs[1..];
    assert forall i | 0 <= i < |rest| :: rest[i] == segs[i + 1];
    if InSome(segs, x) && !segs[0].Has(x) {
      var i :| 0 <= i < |segs| && segs[i].Has(x);
      assert rest[i - 1].Has(x);
    }
  }

  /** Moving an adjacent first segment into the prefix leaves the map as it was. */
  lemma AbsorbHead(contig: Bytes, segs: seq<Segment>, bytes: map<nat, u8>)
    requires Represents(contig, segs, bytes)
    requires segs != [] && segs[0].offset == |contig|
    ensures Represents(contig + segs[0].data, segs[1..], bytes)
  {
    var c, rest := contig + segs[0].data, segs[1..];
    forall x: nat
      ensures (x < |c| || InSome(rest, x)) <==> x in bytes
      ensures x < |c| ==> bytes[x] == c[x]
    {
      WithoutHead(segs, x);
      assert segs[0].Has(x) <==> |contig| <= x < |c|;
    }
    forall i, x: nat | 0 <= i < |rest| && rest[i].Has(x)
      ensures rest[i].StoredIn(bytes, x)
    {
      assert segs[i + 1].Has(x);
    }
  }

  lemma AbsorbHeadCounts(segs: seq<Segment>, lo: nat, max: nat)
    requires segs != [] && Ordered(segs, lo, max)
    ensures Ordered(segs[1..], segs[0].End(), max)
    ensures SumLens(segs) == |segs[0].data| + SumLens(segs[1..])
    ensures segs[0].End() <= max
  {
    SumLensSplit(segs, 1);
    assert segs[..1][..0] == [];
  }

  /** Once the first segment lies strictly beyond the prefix, the prefix is maximal. */
  lemma PrefixIsMaximal(contig: Bytes, segs: seq<Segment>, max: nat, bytes: map<nat, u8>, from: nat)
    requires Represents(contig, segs, bytes) && Ordered(segs, |contig|, max) && from <= |contig|
    requires segs != [] ==> segs[0].offset != |contig|
    ensures Ordered(segs, |contig| + 1, max)
    ensures R.FirstGap(bytes, from) == |contig|
  {
    forall i | 0 <= i < |segs| ensures |contig| < segs[i].offset {
      if 0 < i {
        assert segs[0].End() < segs[i].offset;
      }
    }
    assert forall i | 0 <= i < |segs| :: !segs[i].Has(|contig|);
    R.FirstGapUnique(bytes, from, |contig|);
  }

  /** Segments were merged exactly when the new interval overlapped or touched a pending byte. */
  lemma TouchesIff(contig: Bytes, segs: seq<Segment>, bytes: map<nat, u8>, max: nat, left: nat, right: nat,
                   start: nat, end: nat, newStart: int, newEnd: int)
    requires Represents(contig, segs, bytes) && Ordered(segs, |contig| + 1, max)
    requires Spans(segs, left, right, start, end, newStart, newEnd)
    ensures left < right <==> R.Touches(bytes, |contig|, start, end)
  {
    if left < right {
      var x := Max(segs[left].offset, start - 1);
      assert segs[left].Has(x);
    }
    if R.Touches(bytes, |contig|, start, end) {
      var x: nat :| x in bytes && |contig| <= x && start <= x + 1 && x <= end;
      var i :| 0 <= i < |segs| && segs[i].Has(x);
    }
  }

  /** What replacing the run by the merged segment makes of the buffer. */
  lemma AfterMerge(contig: Bytes, segs: seq<Segment>, bytes: map<nat, u8>, max: nat, left: nat, right: nat,
                   start: nat, data: Bytes, newEnd: nat, m: Segment)
    requires Represents(contig, segs, bytes) && Ordered(segs, |contig| + 1, max)
    requires |contig| <= start && m.offset + |m.data| == newEnd <= max
    requires Spans(segs, left, right, start, start + |data|, m.offset, newEnd)
    requires Overlays(m, segs, left, right, start, data)
    ensures var out := Spliced(segs, left, right, m);
            && Represents(contig, out, R.Write(bytes, start, start, data))
            && Ordered(out, |contig|, max)
            && SumLens(out) == SumLens(segs) - SumLens(segs[left..right]) + |m.data|
            && |contig| + SumLens(out) <= max
  {
    var out := Spliced(segs, left, right, m);
    SplicedRepresents(contig, segs, bytes, left, right, start, data, m);
    SplicedOrdered(segs, |contig|, max, left, right, start, start + |data|, m);
    SumLensBounded(out, |contig|, max);
    SumOfPart(segs, max, left, right);
    SumLensConcat(segs[..left] + [m], segs[right..]);
    SumLensConcat(segs[..left], [m]);
    assert [m][..0] == [];
    assert SumLens([m]) == |m.data|;
  }

  lemma SameWrite(bytes: map<nat, u8>, lo: nat, off: nat, fragment: Bytes, payload: Bytes)
    requires off <= lo <= off + |fragment| && payload == fragment[lo - off..]
    ensures R.Write(bytes, lo, lo, payload) == R.Write(bytes, lo, off, fragment)
  {
  }

  lemma Weaken(segs: seq<Segment>, lo: nat, max: nat)
    requires Ordered(segs, lo, max)
    ensures Ordered(segs, 0, max)
  {
  }

  lemma RepresentsPrefix(contig: Bytes, bytes: map<nat, u8>)
    ensures Represents(contig, [], bytes) <==>
            (forall x: nat :: x in bytes <==> x < |contig|) && (forall x: nat | x < |contig| :: bytes[x] == contig[x])
  {
    assert forall x :: !InSome([], x);
  }

  lemma AppendToPrefix(contig: Bytes, bytes: map<nat, u8>, payload: Bytes)
    requires Represents(contig, [], bytes)
    ensures var after := R.Write(bytes, |contig|, |contig|, payload);
            && Represents(contig + payload, [], after)
            && R.FirstGap(after, |contig|) == |contig| + |payload|
  {
    hide *;
    var c, after := contig + payload, R.Write(bytes, |contig|, |contig|, payload);
    RepresentsPrefix(contig, bytes);
    forall x: nat
      ensures x in after <==> x < |c|
      ensures x < |c| ==> after[x] == c[x]
    {
      R.WriteAt(bytes, |contig|, |contig|, payload, x);
    }
    RepresentsPrefix(c, after);
    R.FirstGapUnique(after, |contig|, |c|);
  }

  lemma NothingPending(contig: Bytes, bytes: map<nat, u8>, lo: nat, hi: nat)
    requires Represents(contig, [], bytes)
    ensures !R.Touches(bytes, |contig|, lo, hi)
  {
  }

  class Buffer {
    const baseSeq: u32
    const maxBytes: u32
    var contig: Bytes
    var contigLen: u32
    var totalBytes: u32
    var segments: seq<Segment>
    var hadOutOfOrder: bool
    var hadOverlap: bool
    ghost var bytes: map<nat, u8>

    ghost predicate Valid()
      reads this
    {
      && contigLen == |contig| <= maxBytes
      && Ordered(segments, contigLen + 1, maxBytes)
      && Represents(contig, segments, bytes)
      && totalBytes == |contig| + SumLens(segments)
      && (!hadOutOfOrder ==> segments == [])
    }

    ghost function Abs(): R.Buf
      reads this
    {
      R.Buf(baseSeq, maxBytes, bytes, contigLen, hadOutOfOrder, hadOverlap)
    }

    constructor (base: u32, max: u32)
      ensures Valid() && Abs() == R.NewBuf(base, max)
    {
      baseSeq, maxBytes := base, max;
      contig, contigLen, totalBytes, segments := [], 0, 0, [];
      hadOutOfOrder, hadOverlap := false, false;
      bytes := map[];
    }

    /** The counters mean what their names say. */
    lemma ValidMeans()
      requires Valid()
      ensures Abs().WellFormed()
      ensures totalBytes == Abs().TotalBytes()
      ensures contig == Abs().Contig()
      ensures !hadOutOfOrder ==> segments == []
    {
      CountOffsets(contigLen, segments, maxBytes, bytes.Keys);
      assert forall i | 0 <= i < |segments| :: !segments[i].Has(contigLen);
      forall x | x in bytes ensures x < maxBytes {
        if x >= |contig| {
          var i :| 0 <= i < |segments| && segments[i].Has(x);
        }
      }
    }

    /** Binary search for the first segment whose offset is at least `offset`. */
    method Search(offset: u32) returns (i: nat)
      requires Ordered(segments, 0, maxBytes)
      ensures i <= |segments|
      ensures forall j | 0 <= j < i :: segments[j].offset < offset
      ensures forall j | i <= j < |segments| :: segments[j].offset >= offset
    {
      var lo, hi := 0, |segments|;
      while lo < hi
        invariant 0 <= lo <= hi <= |segments|
        invariant forall j | 0 <= j < lo :: segments[j].offset < offset
        invariant forall j | hi <= j < |segments| :: segments[j].offset >= offset
      {
        var mid := (lo + hi) / 2;
        if segments[mid].offset >= offset {
          hi := mid;
        } else {
          lo := mid + 1;
        }
      }
      i := lo;
    }

    /** The run of segments that the interval [start, end) overlaps or touches, and the hull of both. */
    method FindSpan(start: u32, end: u32) returns (left: nat, right: nat, newStart: u32, newEnd: u32)
      requires Ordered(segments, 0, maxBytes) && start < end <= maxBytes
      ensures Spans(segments, left, right, start, end, newStart, newEnd)
      ensures left <= right <= |segments| && newStart <= start < end <= newEnd <= maxBytes
    {
      hide Ordered, Scanned, Spans;
      left, right, newStart, newEnd := FindLeft(start, end);
      while right < |segments|
        invariant right <= |segments| && newEnd <= maxBytes
        invariant Scanned(segments, left, right, start, end, newStart, newEnd)
      {
        if segments[right].offset > newEnd {
          break;
        }
        ScanStep(segments, maxBytes, left, right, start, end, newStart, newEnd);
        if segments[right].End() > newEnd {
          newEnd := segments[right].End();
        }
        right := right + 1;
      }
      ScanEnd(segments, maxBytes, left, right, start, end, newStart, newEnd);
    }

    /** Where the run begins: with the segment before the search position if that one reaches the interval. */
    method FindLeft(start: u32, end: u32) returns (left: nat, i: nat, newStart: u32, newEnd: u32)
      requires Ordered(segments, 0, maxBytes) && start < end <= maxBytes
      ensures i <= |segments| && newEnd <= maxBytes
      ensures Scanned(segments, left, i, start, end, newStart, newEnd)
    {
      i := Search(start);
      left := i;
      if i > 0 && segments[i - 1].End() >= start {
        left := i - 1;
      }
      newStart, newEnd := start, end;
      if left < i {
        if segments[left].offset < newStart {
          newStart := segments[left].offset;
        }
        if segments[left].End() > newEnd {
          newEnd := segments[left].End();
        }
      }
      ScanStart(segments, maxBytes, left, i, start, end);
    }

    method CountMerged(left: nat, right: nat) returns (overlapBytes: u32)
      requires Ordered(segments, 0, maxBytes) && left <= right <= |segments|
      ensures overlapBytes == SumLens(segments[left..right])
    {
      hide *;
      SumLensNone(segments, left);
      overlapBytes := 0;
      for j := left to right
        invariant overlapBytes == SumLens(segments[left..j])
      {
        SumOfPart(segments, maxBytes, left, j + 1);
        SumLensNext(segments, left, j);
        overlapBytes := overlapBytes + |segments[j].data|;
      }
    }

    /** Overlay the old segments, then the new data, on a fresh slice: the newest bytes win. */
    method Merge(left: nat, right: nat, newStart: u32, newEnd: u32, start: u32, data: Bytes) returns (merged: Bytes)
      requires Ordered(segments, 0, maxBytes)
      requires Spans(segments, left, right, start, start + |data|, newStart, newEnd)
      ensures |merged| == newEnd - newStart
      ensures left <= right <= |segments| && Overlays(Segment(newStart, merged), segments, left, right, start, data)
    {
      hide Overlaid, Overlays;
      OverlayFirst(segments, newStart, newEnd, left);
      merged := seq(newEnd - newStart, _ => 0);
      for j := left to right
        invariant |merged| == newEnd - newStart
        invariant Overlaid(merged, segments, newStart, left, j)
      {
        OverlayNext(merged, segments, newStart, left, j);
        merged := CopyInto(merged, segments[j].offset - newStart, segments[j].data);
      }
      OverlayLast(merged, segments, newStart, left, right, start, data);
      merged := CopyInto(merged, start - newStart, data);
    }

    /** Move segments that have become adjacent to the prefix into it. */
    method Compact()
      requires contigLen == |contig| <= maxBytes
      requires Ordered(segments, contigLen, maxBytes) && Represents(contig, segments, bytes)
      requires totalBytes == |contig| + SumLens(segments)
      requires hadOutOfOrder
      modifies this`contig, this`contigLen, this`segments
      ensures Valid()
      ensures contigLen == R.FirstGap(bytes, old(contigLen))
    {
      hide Ordered, Represents, R.FirstGap;
      while |segments| > 0 && segments[0].offset == contigLen
        invariant old(contigLen) <= contigLen == |contig| <= maxBytes
        invariant Ordered(segments, contigLen, maxBytes) && Represents(contig, segments, bytes)
        invariant totalBytes == |contig| + SumLens(segments)
        decreases |segments|
      {
        AbsorbHead(contig, segments, bytes);
        AbsorbHeadCounts(segments, contigLen, maxBytes);
        var seg := segments[0];
        contig := contig + seg.data;
        contigLen := contigLen + |seg.data|;
        segments := segments[1..];
      }
      PrefixIsMaximal(contig, segments, maxBytes, bytes, old(contigLen));
    }

    /** Append in-order data when nothing is pending; the byte-budget refusal cannot happen. */
    method Append(payload: Bytes) returns (r: R.Outcome)
      requires Valid() && segments == [] && contigLen + |payload| <= maxBytes
      modifies this`contig, this`contigLen, this`totalBytes, this`bytes
      ensures Valid() && r == R.Accepted
      ensures bytes == R.Write(old(bytes), old(contigLen), old(contigLen), payload)
      ensures contigLen == R.FirstGap(bytes, old(contigLen))
    {
      AppendToPrefix(contig, bytes, payload);
      assert SumLens(segments) == 0;
      if totalBytes + |payload| > maxBytes {
        return R.BufferFull;
      }
      bytes := R.Write(bytes, contigLen, contigLen, payload);
      contig := contig + payload;
      contigLen := contigLen + |payload|;
      totalBytes := totalBytes + |payload|;
      r := R.Accepted;
    }

    /** The pending segments with a fragment merged in, and the byte count they make up. */
    method MergeIn(offset: u32, payload: Bytes) returns (out: seq<Segment>, total: u32, touched: bool)
      requires contigLen == |contig| <= offset && payload != [] && offset + |payload| <= maxBytes
      requires Ordered(segments, contigLen + 1, maxBytes) && Represents(contig, segments, bytes)
      requires totalBytes == |contig| + SumLens(segments)
      ensures Represents(contig, out, R.Write(bytes, offset, offset, payload))
      ensures Ordered(out, contigLen, maxBytes)
      ensures total == |contig| + SumLens(out) <= maxBytes
      ensures touched == R.Touches(bytes, contigLen, offset, offset + |payload|)
    {
      hide *;
      Weaken(segments, contigLen + 1, maxBytes);
      var left, right, newStart, newEnd := FindSpan(offset, offset + |payload|);
      var overlapBytes := CountMerged(left, right);
      var merged := Merge(left, right, newStart, newEnd, offset, payload);
      AfterMerge(contig, segments, bytes, maxBytes, left, right, offset, payload, newEnd, Segment(newStart, merged));
      TouchesIff(contig, segments, bytes, maxBytes, left, right, offset, offset + |payload|, newStart, newEnd);
      out := Spliced(segments, left, right, Segment(newStart, merged));
      total := totalBytes - overlapBytes + |merged|;
      touched := right > left;
    }

    /** Merge a trimmed in-window fragment with the pending segments; the byte-budget refusal cannot happen. */
    method Insert(offset: u32, payload: Bytes) returns (r: R.Outcome)
      requires Valid() && hadOutOfOrder && contigLen <= offset && payload != [] && offset + |payload| <= maxBytes
      modifies this`contig, this`contigLen, this`totalBytes, this`segments, this`hadOverlap, this`bytes
      ensures Valid() && r == R.Accepted
      ensures bytes == R.Write(old(bytes), offset, offset, payload)
      ensures contigLen == R.FirstGap(bytes, old(contigLen))
      ensures hadOverlap == (old(hadOverlap) || R.Touches(old(bytes), old(contigLen), offset, offset + |payload|))
    {
      hide Ordered, Represents, R.Touches, R.Write, R.FirstGap, SumLens;
      var out, total, touched := MergeIn(offset, payload);
      if touched {
        hadOverlap := true;
      }
      if total > maxBytes {
        return R.BufferFull;
      }
      bytes := R.Write(bytes, offset, offset, payload);
      segments := out;
      totalBytes := total;
      Compact();
      r := R.Accepted;
    }

    /** Place a fragment that reaches beyond the prefix: trim what the prefix already has, then store the rest. */
    method Place(start: u32, fragment: Bytes) returns (r: R.Outcome)
      requires Valid() && fragment != [] && contigLen < start + |fragment| < 0x1_0000_0000
      modifies this`contig, this`contigLen, this`totalBytes, this`segments, this`bytes, this`hadOutOfOrder,
               this`hadOverlap
      ensures Valid()
      ensures start + |fragment| > maxBytes ==>
                r == R.BufferFull && Abs() == old(Abs()).(overlap := old(hadOverlap) || start < old(contigLen))
      ensures start + |fragment| <= maxBytes ==>
                && r == R.Accepted
                && bytes == R.Write(old(bytes), Max(start, old(contigLen)), start, fragment)
                && contigLen == R.FirstGap(bytes, old(contigLen))
                && hadOutOfOrder == (old(hadOutOfOrder) || start > old(contigLen))
                && hadOverlap == (old(hadOverlap) || start < old(contigLen)
                                  || R.Touches(old(bytes), old(contigLen), Max(start, old(contigLen)),
                                     start + |fragment|))
    {
      hide Ordered, Represents, R.Write, R.FirstGap, SumLens;
      var offset, payload := start, fragment;
      if offset < contigLen {
        payload := payload[contigLen - offset..];
        offset := contigLen;
        hadOverlap := true;
      }
      if offset + |payload| > maxBytes {
        return R.BufferFull;
      }
      if offset != contigLen {
        hadOutOfOrder := true;
      }
      SameWrite(bytes, offset, start, fragment, payload);
      if offset == contigLen && |segments| == 0 {
        NothingPending(contig, bytes, offset, offset + |payload|);
        r := Append(payload);
      } else {
        r := Insert(offset, payload);
      }
    }

    /** Adds a fragment and extends the contiguous prefix where possible. */
    method Push(start: u32, payload: Bytes) returns (r: R.Outcome)
      requires Valid() && |payload| < 0x1_0000_0000
      modifies this
      ensures Valid()
      ensures (Abs(), r) == R.Push(old(Abs()), R.Fragment(start, payload))
    {
      hide Ordered, Represents, R.Write, R.FirstGap, R.Touches, SumLens;
      if |payload| == 0 {
        return R.Accepted;
      }
      if maxBytes == 0 {
        return R.BufferFull;
      }
      var offset := Sub32(start, baseSeq);
      if offset >= maxBytes {
        return R.OutOfWindow;
      }
      var end := Add32(offset, |payload|);
      if end < offset {
        return R.BufferFull;
      }
      if end <= contigLen {
        return R.Accepted;
      }
      r := Place(offset, payload);
    }
  }
}
