/** What the other end makes of a rebuilt packet: its checksums, computed as the standards say, and its header. */
module Receiver {
  import opened Words
  import opened Wire
  import opened FlowMachine
  import opened FlowInvariants
  import opened Settling
  import opened Runs
  import opened Injection
  import opened Exactness
  import S = Segmentation
  import C = Checksum
  import R = Reassembly

  // ---- numbers ----

  /** The bytes as one number, most significant first. */
  function Number(d: Bytes): nat {
    if d == [] then 0 else 256 * Number(d[..|d| - 1]) + d[|d| - 1]
  }

  /** An odd last byte is padded with zero. */
  function Padded(d: Bytes): Bytes {
    if |d| % 2 == 0 then d else d + [0]
  }

  /** The one's complement sum of 16-bit words is all ones (section 1 of RFC 1071): the number that the words make up is
    * a positive multiple of 65535. */
  predicate AllOnes(d: Bytes) {
    Number(Padded(d)) > 0 && Number(Padded(d)) % 0xffff == 0
  }

  /** The pseudo-header of section 3.1 of RFC 9293: addresses, zero, protocol, length. */
  function PseudoBytes(src: Bytes, dst: Bytes, proto: u8, len: nat): Bytes
    requires len <= 0xffff
  {
    src + dst + [0, proto, len / 256, len % 256]
  }

  lemma {:induction false} SumWordsConcat(a: Bytes, b: Bytes)
    requires |a| % 2 == 0
    ensures C.SumWords(a + b) == C.SumWords(a) + C.SumWords(b)
    decreases |a|
  {
    if a == [] {
      assert a + b == b;
    } else {
      assert (a + b)[2..] == a[2..] + b;
      SumWordsConcat(a[2..], b);
    }
  }

  /** The word sum takes an odd last byte for a word with a zero behind it. */
  lemma {:induction false} SumWordsPadded(d: Bytes)
    ensures C.SumWords(Padded(d)) == C.SumWords(d)
  {
    if |d| % 2 == 1 {
      var n := |d| - 1;
      SumWordsConcat(d[..n], d[n..]);
      SumWordsConcat(d[..n], [d[n], 0]);
      assert d == d[..n] + d[n..] && d + [0] == d[..n] + [d[n], 0] && d[n..] == [d[n]];
      OneWord(d[n], 0);
    }
  }

  lemma OneWord(a: u8, b: u8)
    ensures C.SumWords([a, b]) == 256 * (a as int) + b && C.SumWords([a]) == 256 * (a as int)
  {
    assert [a, b][2..] == [];
  }

  /** The word sum and the number agree modulo 65535, and in being zero. */
  lemma {:induction false} WordsAreNumber(d: Bytes)
    requires |d| % 2 == 0
    ensures Number(d) % 0xffff == C.SumWords(d) % 0xffff && (Number(d) == 0 <==> C.SumWords(d) == 0)
    decreases |d|
  {
    if d != [] {
      var n := |d| - 2;
      var a, b := d[n], d[n + 1];
      WordsAreNumber(d[..n]);
      SumWordsConcat(d[..n], d[n..]);
      OneWord(a, b);
      assert d == d[..n] + d[n..] && d[n..] == [a, b];
      assert d[..n + 1][..n] == d[..n] && d[..n + 2 - 1] == d[..n + 1];
      assert Number(d[..n + 1]) == 256 * Number(d[..n]) + a;
      assert Number(d) == 256 * Number(d[..n + 1]) + b;
      NextWord(Number(d[..n]), C.SumWords(d[..n]), 256 * (a as int) + b);
    }
  }

  lemma NextWord(number: nat, sum: nat, word: nat)
    requires number % 0xffff == sum % 0xffff
    ensures (0x1_0000 * number + word) % 0xffff == (sum + word) % 0xffff
  {
    var p, q := number / 0xffff, sum / 0xffff;
    assert 0x1_0000 * number + word == sum + word + 0xffff * (number + p - q);
    SameResidue(0x1_0000 * number + word, sum + word, number + p - q);
  }

  lemma SameResidue(a: nat, b: nat, k: int)
    requires a == b + 0xffff * k
    ensures a % 0xffff == b % 0xffff
  {
    Quotient(a, 0xffff, b / 0xffff + k, b % 0xffff);
  }

  /** So a word sum verifies if and only if it is all ones in this sense. */
  lemma VerifiesIff(d: Bytes)
    ensures C.Verifies(C.SumWords(d)) <==> AllOnes(d)
  {
    hide C.SumWords, C.Fold, Number;
    SumWordsPadded(d);
    WordsAreNumber(Padded(d));
    C.FoldIsResidue(C.SumWords(d));
    var f := C.Fold(C.SumWords(d));
    assert f % 0xffff == 0 <==> f == 0 || f == 0xffff;
  }

  // ---- the receiver's checks ----

  /** What a receiver checks of an IPv4 header (section 3.1 of RFC 791) and of the TCP segment behind it (section 3.1 of
    * RFC 9293). */
  ghost predicate Accepts(data: Bytes, src: Bytes, dst: Bytes, ip: nat)
    requires ip <= |data| <= 0xffff
  {
    AllOnes(data[..ip]) && AllOnes(PseudoBytes(src, dst, 6, |data| - ip) + data[ip..])
  }

  lemma PseudoWords(data: Bytes, len: nat)
    requires |data| >= 20 && len <= 0xffff
    ensures C.SumWords(PseudoBytes(data[12..16], data[16..20], data[9], len)) == C.PseudoHeader(data, len)
  {
    hide Get16;
    var d := PseudoBytes(data[12..16], data[16..20], data[9], len);
    var a, b, c := [data[12], data[13]], [data[14], data[15]], [data[16], data[17]];
    var e, f, g := [data[18], data[19]], [0, data[9]], [len / 256, len % 256];
    assert d == a + (b + (c + (e + (f + g))));
    hide PseudoBytes;
    SumWordsConcat(a, b + (c + (e + (f + g))));
    SumWordsConcat(b, c + (e + (f + g)));
    SumWordsConcat(c, e + (f + g));
    SumWordsConcat(e, f + g);
    SumWordsConcat(f, g);
    hide C.SumWords;
    OneWord(data[12], data[13]);
    OneWord(data[14], data[15]);
    OneWord(data[16], data[17]);
    OneWord(data[18], data[19]);
    OneWord(0, data[9]);
    OneWord(len / 256, len % 256);
    WordAt(data, 12);
    WordAt(data, 14);
    WordAt(data, 16);
    WordAt(data, 18);
  }

  lemma WordAt(data: Bytes, i: nat)
    requires i + 2 <= |data|
    ensures Get16(data, i) == 256 * (data[i] as int) + data[i + 1]
  {
  }

  lemma SegmentSumIs(data: Bytes, ip: nat)
    requires 20 <= ip <= |data| && |data| - ip <= 0xffff
    ensures C.SegmentSum(data, ip) ==
            C.SumWords(PseudoBytes(data[12..16], data[16..20], data[9], |data| - ip) + data[ip..])
  {
    hide C.SumWords, C.PseudoHeader;
    var pseudo := PseudoBytes(data[12..16], data[16..20], data[9], |data| - ip);
    assert |pseudo| == 12;
    SumWordsConcat(pseudo, data[ip..]);
    PseudoWords(data, |data| - ip);
  }

  /** A packet that decodes, with its total length right and both sums verifying, is accepted. */
  lemma SoundIsAccepted(p: Packet, meta: Meta, payload: Bytes)
    requires S.Sound(p, meta, payload)
    ensures meta.ipLen <= |p.data| <= 0xffff && Accepts(p.data, meta.srcIP, meta.dstIP, meta.ipLen)
  {
    hide C.Verifies, C.HeaderSum, C.SegmentSum, Get16, AllOnes, PseudoBytes;
    DecodedAddresses(p.data, meta);
    hide Decode;
    SegmentSumIs(p.data, meta.ipLen);
    HeaderSumIs(p.data, meta.ipLen);
    VerifiesIff(p.data[..meta.ipLen]);
    VerifiesIff(PseudoBytes(meta.srcIP, meta.dstIP, 6, |p.data| - meta.ipLen) + p.data[meta.ipLen..]);
  }

  lemma HeaderSumIs(data: Bytes, ip: nat)
    requires ip <= |data|
    ensures C.HeaderSum(data, ip) == C.SumWords(data[..ip])
  {
  }

  lemma DecodedAddresses(data: Bytes, m: Meta)
    requires Decode(data) == Decoded(m)
    ensures |data| >= 20 && data[9] == 6 && m.srcIP == data[12..16] && m.dstIP == data[16..20]
    ensures m.ipLen == data[0] % 16 * 4
  {
  }

  /** Where the segment ends, from the two bytes of the total length: there, or at the end of the data if it is zero or
    * larger. */
  function EndOf(data: Bytes): (end: nat)
    requires |data| >= 20
    ensures end <= |data|
  {
    var total := 256 * (data[2] as int) + data[3];
    if 0 < total <= |data| then total else |data|
  }

  /** The TCP checksum that is computed, in terms of the twelve bytes of the pseudo-header and those of the segment. */
  lemma TCPFieldIs(data: Bytes, ip: nat)
    requires 20 <= ip && ip + 20 <= |data| <= 0xffff
    ensures C.TCPField(data, ip) ==
            if EndOf(data) < ip then 0
            else 0xffff - C.Fold(C.SumWords(PseudoBytes(data[12..16], data[16..20], data[9], EndOf(data) - ip)
                                            + data[ip..EndOf(data)]))
  {
    hide C.SumWords, C.Fold, PseudoBytes, C.SegmentSum;
    WordAt(data, 2);
    var end := EndOf(data);
    assert C.SegmentEnd(data) == end;
    if end >= ip {
      var d := data[..end];
      assert d[12..16] == data[12..16] && d[16..20] == data[16..20] && d[ip..] == data[ip..end];
      SegmentSumIs(d, ip);
    }
  }

  /** A sealed packet passes the receiver's two checks, whatever else is in it, if the segment as the total length
    * delimits it contains the checksum field. */
  lemma SealedIsAccepted(data: Bytes, ip: nat)
    requires 20 <= ip && ip + 20 <= |data| <= 0xffff && ip % 2 == 0 && EndOf(data) >= ip + 18
    ensures var s, end := C.Sealed(data, ip), EndOf(data);
            && |s| == |data| && AllOnes(s[..ip])
            && AllOnes(PseudoBytes(data[12..16], data[16..20], data[9], end - ip) + s[ip..end])
  {
    hide C.SumWords, C.Fold, PseudoBytes, C.SegmentSum, C.WithChecksums, C.HeaderSum, C.TCPField, AllOnes, C.SegmentEnd;
    C.SealedVerifies(data, ip);
    var s, end := C.Sealed(data, ip), EndOf(data);
    EndIs(data);
    HeaderSumIs(s, ip);
    VerifiesIff(s[..ip]);
    var d := s[..end];
    SealedAddresses(data, ip);
    assert d[12..16] == s[12..16] && d[16..20] == s[16..20] && d[ip..] == s[ip..end];
    SegmentSumIs(d, ip);
    VerifiesIff(PseudoBytes(data[12..16], data[16..20], data[9], end - ip) + s[ip..end]);
  }

  lemma EndIs(data: Bytes)
    requires |data| >= 20
    ensures C.SegmentEnd(data) == EndOf(data)
  {
    WordAt(data, 2);
  }

  lemma SealedAddresses(data: Bytes, ip: nat)
    requires 20 <= ip && ip + 20 <= |data|
    ensures var s := C.Sealed(data, ip);
            |s| == |data| && s[12..16] == data[12..16] && s[16..20] == data[16..20] && s[9] == data[9]
  {
    hide C.WithChecksums, C.Fold, C.HeaderSum, C.TCPField;
  }

  // ---- whole injections ----

  /** The packet was rebuilt from `t`. */
  ghost predicate RebuiltFrom(p: Packet, t: Packet) {
    Decode(t.data) == Decoded(t.meta) &&
    exists seqNo: u32, payload: Bytes, flags: u8, ipid: u16 :: Rebuilds(p, t, seqNo, payload, flags, ipid)
  }

  ghost predicate Rebuilds(p: Packet, t: Packet, seqNo: u32, payload: Bytes, flags: u8, ipid: u16)
    requires Decode(t.data) == Decoded(t.meta)
  {
    p == S.Wired(t, seqNo, payload, flags, ipid) && t.meta.payloadOffset + |payload| <= 0xffff
  }

  lemma {:induction false} RunRebuilds(tpl: Packet, seqNo: u32, segs: seq<Bytes>, flags: u8, lastFlags: u8, ipid: u16,
                                       max: int)
    requires Decode(tpl.data) == Decoded(tpl.meta)
    requires S.Sized(segs, max) && tpl.meta.ipLen + tpl.meta.tcpLen + max <= 0xffff
    ensures forall p | p in S.Run(tpl, seqNo, segs, flags, lastFlags, ipid) :: RebuiltFrom(p, tpl)
    decreases |segs|
  {
    hide Decode, S.Wired, Add32;
    if segs != [] {
      var f := if |segs| == 1 then lastFlags else flags;
      DecodedBounds(tpl.data, tpl.meta);
      var first := S.Wired(tpl, seqNo, segs[0], f, ipid);
      assert Rebuilds(first, tpl, seqNo, segs[0], f, ipid);
      RunRebuilds(tpl, Add32(seqNo, |segs[0]|), segs[1..], flags, lastFlags, (ipid + 1) % 0x1_0000, max);
    }
  }

  ghost predicate FromHeld(p: Packet, held: seq<Packet>) {
    exists t :: t in held && RebuiltFrom(p, t)
  }

  lemma {:induction false} TrimmedRebuilds(held: seq<Packet>, base: u32, window: nat, ipid: u16)
    requires forall p | p in held :: Decode(p.data) == Decoded(p.meta)
    requires forall p | p in held :: Genuine(p)
    ensures forall p | p in Trimmed(held, base, window, ipid) :: FromHeld(p, held)
    decreases |held|
  {
    hide Decode, S.Wired, Beyond, TrimOf, PayloadOf, RebuiltFrom;
    if held != [] {
      var h, rest := held[0], held[1..];
      var next: u16 := (ipid + 1) % 0x1_0000;
      TrimmedRebuilds(rest, base, window, next);
      TrimmedRebuilds(rest, base, window, ipid);
      if Beyond(h, base, window) {
        TrimRebuilds(h, base, window, ipid);
      }
      assert forall t | t in rest :: t in held;
      assert forall p | FromHeld(p, rest) :: FromHeld(p, held);
      assert h in held;
    }
  }

  lemma TrimRebuilds(h: Packet, base: u32, window: nat, ipid: u16)
    requires Genuine(h) && Beyond(h, base, window)
    ensures TrimOf(h, base, window) <= |PayloadOf(h)| && RebuiltFrom(Trim(h, base, window, ipid), h)
  {
    hide Decode, S.Wired, TrimOf, PayloadOf, Add32;
    BeyondTrims(h, base, window);
    GenuineReads(h);
    DecodedBounds(h.data, h.meta);
    var n := TrimOf(h, base, window);
    assert Rebuilds(Trim(h, base, window, ipid), h, Add32(h.meta.seqNo, n), PayloadOf(h)[n..], h.meta.flags, ipid);
  }

  lemma PlanRebuilds(e: Event)
    requires e.Split? && SplitOf(None, e)
    ensures forall p | p in e.plan :: FromHeld(p, e.flow.held)
  {
    hide PlanFrom, Plan, Settled, R.Buf.Contig, MaxPayload, S.SplitFirst, S.Join, S.Sized, Genuine, Belongs, FromHeld,
         S.Chunks, S.Run, Trimmed, RebuiltFrom;
    var g, window := e.flow, e.window;
    var cfg :| Plan(g, window, cfg) == Some(e.plan);
    PlanMeans(g, window, cfg);
    var max := MaxPayload(g.template.value, cfg);
    PlanFromHeld(g, window, S.SplitFirst(g.buf.value.Contig()[..window], cfg.splitChunk, max), max);
  }

  lemma PlanFromHeld(g: Flow, window: nat, segs: seq<Bytes>, max: int)
    requires Collected(g) && Settled(g) && window <= g.buf.value.prefix && S.Sized(segs, max) && max >= 1
    requires g.template.value.meta.ipLen + g.template.value.meta.tcpLen + max <= 0xffff
    ensures forall p | p in PlanFrom(g, window, segs, max) :: FromHeld(p, g.held)
  {
    hide Pushed, R.Buf.Contig, S.Join, S.Sized, S.Chunks, S.Run, Trimmed, RebuiltFrom, Decode, Get16, WithoutPshFin,
         Add32;
    var tpl, remainder := g.template.value, g.buf.value.Contig()[window..];
    DecodedBounds(tpl.data, tpl.meta);
    var flags, quiet, ipid := tpl.meta.flags, WithoutPshFin(tpl.meta.flags), Get16(tpl.data, 4);
    var next: u16 := (ipid + |segs|) % 0x1_0000;
    RunRebuilds(tpl, g.base, segs, quiet, flags, ipid, max);
    RunRebuilds(tpl, g.base, segs, quiet, quiet, ipid, max);
    S.ChunksJoin(remainder, max);
    RunRebuilds(tpl, Add32(g.base, window), S.Chunks(remainder, max), quiet, flags, next, max);
    TrimmedRebuilds(g.held, g.base, window, next);
    assert tpl in g.held;
    assert forall p | RebuiltFrom(p, tpl) :: FromHeld(p, g.held);
  }

  /** Byte `i` of a header is one that rebuilding may change: total length, identification and checksum of the IP
    * header,
    * sequence number, flags and checksum of the TCP header. */
  predicate Rewritten(i: nat, ip: nat) {
    2 <= i < 6 || 10 <= i < 12 || ip + 4 <= i < ip + 8 || i == ip + 13 || ip + 16 <= i < ip + 18
  }

  /** The packet has the header of `t`, options, time to live, window and all, but for what is rewritten. */
  ghost predicate KeepsHeader(p: Packet, t: Packet) {
    && t.meta.payloadOffset <= |t.data| && t.meta.payloadOffset <= |p.data|
    && forall i: nat | i < t.meta.payloadOffset && !Rewritten(i, t.meta.ipLen) :: p.data[i] == t.data[i]
  }

  lemma WiredKeepsHeader(t: Packet, seqNo: u32, payload: Bytes, flags: u8, ipid: u16)
    requires Decode(t.data) == Decoded(t.meta)
    ensures KeepsHeader(S.Wired(t, seqNo, payload, flags, ipid), t)
  {
    hide Decode;
    DecodedBounds(t.data, t.meta);
    SealedBytes(Build(t, seqNo, payload, flags, ipid), t.meta.ipLen);
    hide C.Sealed;
  }

  lemma SealedBytes(data: Bytes, ip: nat)
    requires 20 <= ip && ip + 20 <= |data|
    ensures |C.Sealed(data, ip)| == |data|
    ensures forall i: nat | i < |data| && !Rewritten(i, ip) :: C.Sealed(data, ip)[i] == data[i]
  {
    hide C.WithChecksums, C.Fold, C.HeaderSum, C.TCPField;
  }

  /** What the receiver of a rebuilt packet sees. */
  ghost predicate GoodCopy(p: Packet, t: Packet) {
    && t.meta.ipLen <= |p.data| <= 0xffff && Accepts(p.data, t.meta.srcIP, t.meta.dstIP, t.meta.ipLen)
    && KeepsHeader(p, t) && t.meta.payloadOffset < |t.data|
  }

  lemma RebuiltIsGood(p: Packet, t: Packet)
    requires RebuiltFrom(p, t) && PayloadOf(t) != []
    ensures GoodCopy(p, t)
  {
    hide Decode, S.Wired, Accepts, KeepsHeader, Reads, Get16, C.Verifies, C.HeaderSum, C.SegmentSum;
    var seqNo: u32, payload: Bytes, flags: u8, ipid: u16 :| Rebuilds(p, t, seqNo, payload, flags, ipid);
    S.WiredReads(t, seqNo, payload, flags, ipid);
    WiredKeepsHeader(t, seqNo, payload, flags, ipid);
    SoundIsAccepted(p, t.meta.(seqNo := seqNo, flags := flags), payload);
  }

  /** Every packet of every completed injection, under any reloads, passes the receiver's checks of IP header and TCP
    * segment, and carries the header of a packet that was held, unchanged but for lengths, identification, checksums,
    * sequence number and flags. */
  lemma InjectedPacketsAreGood(h: History, i: nat, p: Packet)
    requires h.IsRun() && h.NoErrors() && i < |h.End().trace| && h.End().trace[i].Split? && p in h.End().trace[i].plan
    ensures exists t :: t in h.End().trace[i].flow.held && GoodCopy(p, t)
  {
    hide RunAll, History.StepsAt, History.SucceedsAt, SplitOf, GoodCopy, RebuiltFrom, Collected;
    AtSplit(h, i);
    var e := h.End().trace[i];
    PlanRebuilds(e);
    var t :| t in e.flow.held && RebuiltFrom(p, t);
    HeldHasPayload(e, t);
    RebuiltIsGood(p, t);
  }

  lemma HeldHasPayload(e: Event, t: Packet)
    requires e.Split? && SplitOf(None, e) && t in e.flow.held
    ensures PayloadOf(t) != []
  {
    hide Plan, Settled, Genuine, PayloadOf;
  }
}
