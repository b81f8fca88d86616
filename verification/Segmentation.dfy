/** Cutting a byte window into segments, and the packets that carry them. */
module Segmentation {
  import opened Words
  import opened Wire
  import Checksum

  /** The segments joined up again. */
  function Join(segs: seq<Bytes>): Bytes {
    if segs == [] then [] else segs[0] + Join(segs[1..])
  }

  lemma {:induction false} JoinConcat(a: seq<Bytes>, b: seq<Bytes>)
    ensures Join(a + b) == Join(a) + Join(b)
  {
    if a == [] {
      assert a + b == b;
    } else {
      assert (a + b)[1..] == a[1..] + b;
      JoinConcat(a[1..], b);
    }
  }

  /** Pieces of `max` bytes, the last one possibly shorter. */
  function Chunks(payload: Bytes, max: int): seq<Bytes>
    decreases |payload|
  {
    if max < 1 || payload == [] then []
    else
      var n := Min(max, |payload|);
      [payload[..n]] + Chunks(payload[n..], max)
  }

  /** The requested first length, forced into 1..max. */
  function FirstLen(want: int, max: int): int {
    Min(Max(want, 1), max)
  }

  /** A first piece of the requested length, then pieces of at most `max`; nothing if one piece would do. */
  function SplitFirst(payload: Bytes, want: int, max: int): seq<Bytes> {
    var n := FirstLen(want, max);
    if max < 1 || payload == [] || n >= |payload| then []
    else [payload[..n]] + Chunks(payload[n..], max)
  }

  /** A payload of `n` bytes behind such a header is no longer than the template's own payload and the configured cap,
    * and the packet no longer than IPv4 permits. */
  predicate Allowed(n: int, payloadLen: int, headerLen: int, cap: int) {
    n <= payloadLen && 1 <= headerLen && headerLen + n <= 0xffff && (cap > 0 ==> n <= cap)
  }

  /** The largest length allowed, or zero if there is none. */
  function ClampSegmentPayload(payloadLen: int, headerLen: int, cap: int): (r: int)
    ensures 0 <= r && forall n :: 1 <= n ==> (n <= r <==> Allowed(n, payloadLen, headerLen, cap))
    ensures 1 <= r ==> r <= payloadLen && 1 <= headerLen && headerLen + r <= 0xffff && (cap > 0 ==> r <= cap)
    ensures r < 1 <==> payloadLen < 1 || headerLen < 1 || headerLen >= 0xffff
  {
    if payloadLen < 1 then 0
    else if headerLen < 1 || headerLen > 0xffff then 0
    else
      var m := Min(payloadLen, 0xffff - headerLen);
      if cap > 0 && m > cap then cap else m
  }

  /** `limit` is allowed and positive, and nothing larger is allowed. */
  ghost predicate LargestAllowed(limit: int, payloadLen: int, headerLen: int, cap: int) {
    && 1 <= limit && Allowed(limit, payloadLen, headerLen, cap)
    && forall n | n > limit :: !Allowed(n, payloadLen, headerLen, cap)
  }

  /** There is at most one such length, and the clamp finds it; zero means that there is none. */
  lemma ClampIsLargest(limit: int, payloadLen: int, headerLen: int, cap: int)
    requires limit >= 1
    ensures ClampSegmentPayload(payloadLen, headerLen, cap) == limit <==>
            LargestAllowed(limit, payloadLen, headerLen, cap)
    ensures ClampSegmentPayload(payloadLen, headerLen, cap) == 0 ==> !LargestAllowed(limit, payloadLen, headerLen, cap)
  {
    hide Allowed;
    var r := ClampSegmentPayload(payloadLen, headerLen, cap);
    assert limit <= r <==> Allowed(limit, payloadLen, headerLen, cap);
    assert r >= 1 ==> Allowed(r, payloadLen, headerLen, cap);
  }

  ghost predicate Sized(segs: seq<Bytes>, max: int) {
    forall i | 0 <= i < |segs| :: 1 <= |segs[i]| <= max
  }

  /** Cutting loses nothing, keeps the order, and respects the size limit. */
  lemma {:induction false} ChunksJoin(payload: Bytes, max: int)
    requires max >= 1
    ensures Join(Chunks(payload, max)) == payload
    ensures Sized(Chunks(payload, max), max)
    decreases |payload|
  {
    if payload != [] {
      var n := Min(max, |payload|);
      ChunksJoin(payload[n..], max);
      var rest := Chunks(payload[n..], max);
      assert ([payload[..n]] + rest)[1..] == rest;
      assert payload[..n] + payload[n..] == payload;
    }
  }

  /** A split has at least two pieces, the first of exactly the clamped length, and joins to the window. */
  lemma SplitFirstJoin(payload: Bytes, want: int, max: int)
    requires max >= 1
    ensures var segs := SplitFirst(payload, want, max);
            if |payload| <= FirstLen(want, max) then segs == []
            else |segs| >= 2 && |segs[0]| == FirstLen(want, max) && Join(segs) == payload && Sized(segs, max)
  {
    hide Chunks, Join, Sized;
    var n := FirstLen(want, max);
    if n < |payload| {
      ChunksJoin(payload[n..], max);
      SomeChunks(payload[n..], max);
      OnePieceMore(payload[..n], Chunks(payload[n..], max), max);
      assert payload[..n] + payload[n..] == payload;
    }
  }

  lemma SomeChunks(payload: Bytes, max: int)
    requires max >= 1 && payload != []
    ensures Chunks(payload, max) != []
  {
  }

  lemma OnePieceMore(first: Bytes, rest: seq<Bytes>, max: int)
    ensures Join([first] + rest) == first + Join(rest)
    ensures 1 <= |first| <= max && Sized(rest, max) ==> Sized([first] + rest, max)
  {
    assert ([first] + rest)[1..] == rest;
  }

  // ---- the loops ----

  method ChunkPayload(payload: Bytes, maxPayload: int) returns (segs: seq<Bytes>)
    ensures segs == Chunks(payload, maxPayload)
  {
    if maxPayload < 1 || |payload| == 0 {
      return [];
    }
    segs := ChunkFrom(payload, 0, maxPayload);
  }

  lemma ChunksNext(payload: Bytes, offset: nat, chunk: int, max: int)
    requires max >= 1 && offset < |payload| && chunk == Min(max, |payload| - offset)
    ensures Chunks(payload[offset..], max) ==
            [payload[offset..offset + chunk]] + Chunks(payload[offset + chunk..], max)
  {
    var rest := payload[offset..];
    assert rest[..chunk] == payload[offset..offset + chunk] && rest[chunk..] == payload[offset + chunk..];
  }

  lemma ChunksOfNothing(payload: Bytes, max: int)
    requires |payload| == 0
    ensures Chunks(payload, max) == []
  {
  }

  /** The loop that both cutters share: from `offset` to the end in steps of at most `maxPayload`. */
  method ChunkFrom(payload: Bytes, start: nat, maxPayload: int) returns (segs: seq<Bytes>)
    requires maxPayload >= 1 && start <= |payload|
    ensures segs == Chunks(payload[start..], maxPayload)
  {
    hide Chunks;
    segs := [];
    var offset := start;
    while offset < |payload|
      invariant start <= offset <= |payload|
      invariant segs + Chunks(payload[offset..], maxPayload) == Chunks(payload[start..], maxPayload)
    {
      var chunk := maxPayload;
      var remaining := |payload| - offset;
      if chunk > remaining {
        chunk := remaining;
      }
      ChunksNext(payload, offset, chunk, maxPayload);
      segs := segs + [payload[offset..offset + chunk]];
      offset := offset + chunk;
    }
    ChunksOfNothing(payload[offset..], maxPayload);
  }

  method SplitFirstSegments(payload: Bytes, want: int, maxPayload: int) returns (segs: seq<Bytes>)
    ensures segs == SplitFirst(payload, want, maxPayload)
  {
    if maxPayload < 1 || |payload| == 0 {
      return [];
    }
    var firstLen := want;
    if firstLen < 1 {
      firstLen := 1;
    }
    if firstLen > maxPayload {
      firstLen := maxPayload;
    }
    if firstLen >= |payload| {
      return [];
    }
    var rest := ChunkFrom(payload, firstLen, maxPayload);
    segs := [payload[..firstLen]] + rest;
  }

  // ---- packets that carry segments ----

  /** A built packet with its checksums, as the adapter puts it on the wire. */
  function Wired(tpl: Packet, seqNo: u32, payload: Bytes, flags: u8, ipid: u16): Packet
    requires Decode(tpl.data) == Decoded(tpl.meta)
  {
    DecodedBounds(tpl.data, tpl.meta);
    Packet(Checksum.Sealed(Build(tpl, seqNo, payload, flags, ipid), tpl.meta.ipLen), NO_META, Rebuilt, 0)
  }

  /** Decoding such a packet gives back what was asked for; its checksums and its total length are right. */
  lemma WiredReads(tpl: Packet, seqNo: u32, payload: Bytes, flags: u8, ipid: u16)
    requires Decode(tpl.data) == Decoded(tpl.meta)
    ensures var p := Wired(tpl, seqNo, payload, flags, ipid);
            && Reads(p.data, tpl.meta.(seqNo := seqNo, flags := flags), payload)
            && |p.data| == tpl.meta.payloadOffset + |payload| && p.source == Rebuilt
            && tpl.meta.ipLen + 20 <= |p.data| && 20 <= tpl.meta.ipLen
            && Get16(p.data, 4) == ipid
            && Checksum.Verifies(Checksum.HeaderSum(p.data, tpl.meta.ipLen))
            && (|p.data| <= 0xffff ==>
                  Get16(p.data, 2) == |p.data| && Checksum.Verifies(Checksum.SegmentSum(p.data, tpl.meta.ipLen)))
  {
    hide Decode, Reads, Build, Get16, Checksum.Sealed, Checksum.HeaderSum, Checksum.SegmentSum, Checksum.Verifies;
    DecodedBounds(tpl.data, tpl.meta);
    BuildDecodes(tpl, seqNo, payload, flags, ipid);
    var out := Build(tpl, seqNo, payload, flags, ipid);
    Checksum.SealedReads(out, tpl.meta.(seqNo := seqNo, flags := flags), payload);
    Checksum.SealedVerifies(out, tpl.meta.ipLen);
    var p := Checksum.Sealed(out, tpl.meta.ipLen);
    assert p[..|p|] == p;
  }

  /** One packet per segment at consecutive sequence numbers and consecutive IP ids. */
  function Run(tpl: Packet, seqNo: u32, segs: seq<Bytes>, flags: u8, lastFlags: u8, ipid: u16): seq<Packet>
    requires Decode(tpl.data) == Decoded(tpl.meta)
    decreases |segs|
  {
    if segs == [] then []
    else [Wired(tpl, seqNo, segs[0], if |segs| == 1 then lastFlags else flags, ipid)]
         + Run(tpl, Add32(seqNo, |segs[0]|), segs[1..], flags, lastFlags, (ipid + 1) % 0x1_0000)
  }

  /** A packet on the wire: decodable, total length right, both checksums verifying. */
  ghost predicate Sound(p: Packet, meta: Meta, payload: Bytes) {
    && Reads(p.data, meta, payload)
    && 20 <= meta.ipLen && meta.ipLen + 20 <= |p.data| <= 0xffff
    && Get16(p.data, 2) == |p.data|
    && Checksum.Verifies(Checksum.HeaderSum(p.data, meta.ipLen))
    && Checksum.Verifies(Checksum.SegmentSum(p.data, meta.ipLen))
  }

  /** A rebuilt packet that carries the first `n` of `bytes` at `seqNo`. */
  ghost predicate Bears(p: Packet, meta: Meta, bytes: Bytes, n: nat, ipid: u16) {
    && 1 <= n <= |bytes| && p.source == Rebuilt
    && Sound(p, meta, bytes[..n]) && Get16(p.data, 4) == ipid
  }

  /** The packets carry `bytes`, cut in order, at consecutive sequence numbers from `seqNo` with
    * consecutive IP ids from `ipid`, and otherwise the template's header; the last packet has
    * `lastFlags`, the others `flags`. */
  ghost predicate Carries(ps: seq<Packet>, tpl: Meta, seqNo: u32, bytes: Bytes, flags: u8, lastFlags: u8, ipid: u16)
    decreases |ps|
  {
    if ps == [] then bytes == []
    else exists n: nat ::
        && Bears(ps[0], tpl.(seqNo := seqNo, flags := if |ps| == 1 then lastFlags else flags), bytes, n, ipid)
        && Carries(ps[1..], tpl, Add32(seqNo, n), bytes[n..], flags, lastFlags, (ipid + 1) % 0x1_0000)
  }

  lemma CarriesCons(p: Packet, rest: seq<Packet>, tpl: Meta, seqNo: u32, bytes: Bytes, n: nat,
                    flags: u8, lastFlags: u8, ipid: u16)
    requires Bears(p, tpl.(seqNo := seqNo, flags := if rest == [] then lastFlags else flags), bytes, n, ipid)
    requires Carries(rest, tpl, Add32(seqNo, n), bytes[n..], flags, lastFlags, (ipid + 1) % 0x1_0000)
    ensures Carries([p] + rest, tpl, seqNo, bytes, flags, lastFlags, ipid)
  {
    hide Sound, Get16;
    assert ([p] + rest)[1..] == rest;
  }

  /** Segment packets carry exactly the joined segments. */
  lemma {:induction false} RunCarries(tpl: Packet, seqNo: u32, segs: seq<Bytes>, flags: u8, lastFlags: u8, ipid: u16,
                                      max: int)
    requires Decode(tpl.data) == Decoded(tpl.meta)
    requires Sized(segs, max) && tpl.meta.ipLen + tpl.meta.tcpLen + max <= 0xffff
    ensures Carries(Run(tpl, seqNo, segs, flags, lastFlags, ipid), tpl.meta, seqNo, Join(segs), flags, lastFlags, ipid)
    ensures |Run(tpl, seqNo, segs, flags, lastFlags, ipid)| == |segs|
    decreases |segs|
  {
    CarriesNone(tpl.meta, seqNo, flags, lastFlags, ipid);
    hide Decode, Reads, Get16, Checksum.HeaderSum, Checksum.SegmentSum, Checksum.Verifies, Wired, Carries;
    if segs != [] {
      var n, f := |segs[0]|, if |segs| == 1 then lastFlags else flags;
      var next: u16 := (ipid + 1) % 0x1_0000;
      DecodedBounds(tpl.data, tpl.meta);
      WiredReads(tpl, seqNo, segs[0], f, ipid);
      RunCarries(tpl, Add32(seqNo, n), segs[1..], flags, lastFlags, next, max);
      assert Join(segs)[..n] == segs[0] && Join(segs)[n..] == Join(segs[1..]);
      CarriesCons(Wired(tpl, seqNo, segs[0], f, ipid), Run(tpl, Add32(seqNo, n), segs[1..], flags, lastFlags, next),
                  tpl.meta, seqNo, Join(segs), n, flags, lastFlags, ipid);
    }
  }

  lemma CarriesNone(tpl: Meta, seqNo: u32, flags: u8, lastFlags: u8, ipid: u16)
    ensures Carries([], tpl, seqNo, [], flags, lastFlags, ipid)
  {
  }

  /** A longer byte string has the same first packet. */
  lemma BearsMore(p: Packet, meta: Meta, x: Bytes, y: Bytes, n: nat, ipid: u16)
    requires Bears(p, meta, x, n, ipid)
    ensures Bears(p, meta, x + y, n, ipid) && (x + y)[n..] == x[n..] + y
  {
    hide Sound, Get16;
    assert (x + y)[..n] == x[..n];
  }

  lemma CarriesNothing(tpl: Meta, seqNo: u32, x: Bytes, flags: u8, ipid: u16)
    requires Carries([], tpl, seqNo, x, flags, flags, ipid)
    ensures x == []
  {
  }

  lemma CarriesHead(a: seq<Packet>, tpl: Meta, seqNo: u32, x: Bytes, flags: u8, ipid: u16) returns (n: nat)
    requires a != [] && Carries(a, tpl, seqNo, x, flags, flags, ipid)
    ensures n <= |x| && Bears(a[0], tpl.(seqNo := seqNo, flags := flags), x, n, ipid)
    ensures Carries(a[1..], tpl, Add32(seqNo, n), x[n..], flags, flags, (ipid + 1) % 0x1_0000)
  {
    hide Sound, Get16, Add32;
    n :| Bears(a[0], tpl.(seqNo := seqNo, flags := flags), x, n, ipid)
         && Carries(a[1..], tpl, Add32(seqNo, n), x[n..], flags, flags, (ipid + 1) % 0x1_0000);
  }

  /** Two consecutive runs make one. */
  lemma {:induction false} CarriesConcat(a: seq<Packet>, b: seq<Packet>, tpl: Meta, seqNo: u32, x: Bytes, y: Bytes,
                                         flags: u8, lastFlags: u8, ipid: u16)
    requires Carries(a, tpl, seqNo, x, flags, flags, ipid) && b != []
    requires Carries(b, tpl, Add32(seqNo, |x|), y, flags, lastFlags, (ipid + |a|) % 0x1_0000)
    ensures Carries(a + b, tpl, seqNo, x + y, flags, lastFlags, ipid)
    decreases |a|
  {
    hide Bears, Carries, Get16, Add32;
    if a == [] {
      CarriesNothing(tpl, seqNo, x, flags, ipid);
      assert a + b == b && x + y == y;
      WholeNumbers(seqNo, ipid);
    } else {
      var n := CarriesHead(a, tpl, seqNo, x, flags, ipid);
      var next: u16 := (ipid + 1) % 0x1_0000;
      AddAdd(seqNo, n, |x| - n);
      assert (next + |a[1..]|) % 0x1_0000 == (ipid + |a|) % 0x1_0000;
      CarriesConcat(a[1..], b, tpl, Add32(seqNo, n), x[n..], y, flags, lastFlags, next);
      BearsMore(a[0], tpl.(seqNo := seqNo, flags := flags), x, y, n, ipid);
      assert a + b == [a[0]] + (a[1..] + b);
      CarriesCons(a[0], a[1..] + b, tpl, seqNo, x + y, n, flags, lastFlags, ipid);
    }
  }

  lemma WholeNumbers(seqNo: u32, ipid: u16)
    ensures Add32(seqNo, 0) == seqNo && ipid % 0x1_0000 == ipid
  {
  }
}
