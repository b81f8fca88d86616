/** The Internet checksum (section 1 of RFC 1071) over IPv4 headers and TCP segments. */
module Checksum {
  import opened Words
  import opened Wire

  /** The sum of the big-endian 16-bit words, an odd last byte being padded with zero. */
  function SumWords(data: Bytes): nat {
    if |data| == 0 then 0
    else if |data| == 1 then 256 * (data[0] as int)
    else Get16(data, 0) + SumWords(data[2..])
  }

  function Fold(sum: nat): (r: nat)
    ensures r <= 0xffff
  {
    if sum < 0x1_0000 then sum else Fold(sum % 0x1_0000 + sum / 0x1_0000)
  }

  /** The one's-complement sum folds to all ones: what a receiver checks. */
  predicate Verifies(sum: nat) {
    Fold(sum) == 0xffff
  }

  // ---- folding ----

  lemma FoldStep(sum: nat)
    ensures (sum % 0x1_0000 + sum / 0x1_0000) % 0xffff == sum % 0xffff
  {
    var q, r := sum / 0x1_0000, sum % 0x1_0000;
    assert sum == r + q + 0xffff * q;
  }

  /** Folding ends in 16 bits, keeps the residue modulo 65535, and gives zero only for zero. */
  lemma {:induction false} FoldIsResidue(sum: nat)
    ensures Fold(sum) % 0xffff == sum % 0xffff
    ensures Fold(sum) == 0 <==> sum == 0
    decreases sum
  {
    if sum >= 0x1_0000 {
      FoldStep(sum);
      FoldIsResidue(sum % 0x1_0000 + sum / 0x1_0000);
    }
  }

  /** Adding the complement of a folded sum makes the sum verify. */
  lemma ComplementVerifies(sum: nat)
    ensures Verifies(sum + (0xffff - Fold(sum)))
  {
    hide Fold;
    var f := Fold(sum);
    FoldIsResidue(sum);
    FoldIsResidue(sum + (0xffff - f));
    assert (sum + (0xffff - f)) % 0xffff == 0 by {
      var a, b := sum / 0xffff, f / 0xffff;
      assert sum + (0xffff - f) == 0xffff * (a - b + 1);
    }
  }

  // ---- sums of words ----

  lemma {:induction false} SumWordsBounded(data: Bytes)
    ensures SumWords(data) <= 0xffff * ((|data| + 1) / 2)
  {
    if |data| > 1 {
      SumWordsBounded(data[2..]);
    }
  }

  /** Replacing an aligned word changes the sum by the difference. */
  lemma {:induction false} SumWordsReplace(a: Bytes, b: Bytes, k: nat)
    requires |a| == |b| && k % 2 == 0 && k + 2 <= |a|
    requires forall i | 0 <= i < |a| && i != k && i != k + 1 :: a[i] == b[i]
    ensures SumWords(b) == SumWords(a) - Get16(a, k) + Get16(b, k)
  {
    if k == 0 {
      assert a[2..] == b[2..];
    } else {
      SumWordsReplace(a[2..], b[2..], k - 2);
    }
  }

  /** The uint32 accumulator: exact modulo 2^32, and exact outright for anything that fits in an IPv4 packet. */
  lemma AddOn(sum: u32, word: nat, rest: nat)
    ensures (Add32(sum, word) + rest) % 0x1_0000_0000 == (sum + word + rest) % 0x1_0000_0000
  {
  }

  lemma SumWordsNext(rest: Bytes)
    ensures |rest| > 1 ==> SumWords(rest) == Get16(rest, 0) + SumWords(rest[2..])
    ensures |rest| == 1 ==> SumWords(rest) == 256 * (rest[0] as int)
    ensures rest == [] ==> SumWords(rest) == 0
  {
  }

  method ChecksumSum(data: Bytes) returns (sum: u32)
    ensures sum == SumWords(data) % 0x1_0000_0000
    ensures |data| <= 0xffff ==> sum == SumWords(data) <= 0x7fff_8000
  {
    hide SumWords, Get16, Add32;
    sum := 0;
    var rest := data;
    while |rest| > 1
      invariant (sum + SumWords(rest)) % 0x1_0000_0000 == SumWords(data) % 0x1_0000_0000
    {
      SumWordsNext(rest);
      AddOn(sum, Get16(rest, 0), SumWords(rest[2..]));
      sum := Add32(sum, Get16(rest, 0));
      rest := rest[2..];
    }
    SumWordsNext(rest);
    if |rest| == 1 {
      AddOn(sum, 256 * (rest[0] as int), 0);
      sum := Add32(sum, 256 * (rest[0] as int));
    }
    SumWordsBounded(data);
  }

  method FoldChecksum(start: u32) returns (sum: u32)
    ensures sum == Fold(start) <= 0xffff
  {
    sum := start;
    while sum / 0x1_0000 != 0
      invariant Fold(sum) == Fold(start)
      decreases sum
    {
      sum := sum % 0x1_0000 + sum / 0x1_0000;
    }
  }

  // ---- the two checksums of a packet ----

  /** The TCP pseudo-header: addresses, protocol and segment length (section 3.1 of RFC 9293). */
  function PseudoHeader(data: Bytes, tcpLen: nat): nat
    requires |data| >= 20
  {
    Get16(data, 12) + Get16(data, 14) + Get16(data, 16) + Get16(data, 18) + data[9] + tcpLen
  }

  function HeaderSum(data: Bytes, ip: nat): nat
    requires ip <= |data|
  {
    SumWords(data[..ip])
  }

  function SegmentSum(data: Bytes, ip: nat): nat
    requires 20 <= ip <= |data|
  {
    PseudoHeader(data, |data| - ip) + SumWords(data[ip..])
  }

  method Checksum(data: Bytes) returns (c: u16)
    ensures |data| <= 0xffff ==> c == 0xffff - Fold(SumWords(data))
  {
    var sum := ChecksumSum(data);
    sum := FoldChecksum(sum);
    c := 0xffff - sum;
  }

  /** Where the segment ends: the IPv4 total length, or the end of the data if that is zero or too large. */
  function SegmentEnd(data: Bytes): (end: nat)
    requires |data| >= 20
    ensures end <= |data| && (Get16(data, 2) == |data| ==> end == |data|)
  {
    var total := Get16(data, 2);
    if total == 0 || total > |data| then |data| else total
  }

  /** The TCP checksum: the complement of the folded sum up to the end of the segment, or zero where the total
    * length does not even reach the segment. */
  function TCPField(data: Bytes, ip: nat): u16
    requires 20 <= ip && ip + 20 <= |data|
  {
    var end := SegmentEnd(data);
    if end < ip then 0 else 0xffff - Fold(SegmentSum(data[..end], ip))
  }

  method TCPChecksumIPv4(data: Bytes, headerLen: nat) returns (c: u16)
    requires |data| <= 0xffff
    ensures c == if headerLen < 20 || |data| < headerLen + 20 then 0 else TCPField(data, headerLen)
  {
    if headerLen < 20 || |data| < headerLen + 20 {
      return 0;
    }
    var totalLen: int := Get16(data, 2);
    if totalLen <= 0 || totalLen > |data| {
      totalLen := |data|;
    }
    var tcpLen := totalLen - headerLen;
    if tcpLen < 0 {
      return 0;
    }
    hide Fold, SumWords;
    var sum: u32 := Get16(data, 12) + Get16(data, 14) + Get16(data, 16) + Get16(data, 18) + data[9] + tcpLen;
    var words := ChecksumSum(data[headerLen..headerLen + tcpLen]);
    sum := sum + words;
    assert data[headerLen..headerLen + tcpLen] == data[..totalLen][headerLen..];
    sum := FoldChecksum(sum);
    c := 0xffff - sum;
  }

  /** The packet with both checksum fields set to the given words. */
  function WithChecksums(data: Bytes, ip: nat, ipSum: u16, tcpSum: u16): (r: Bytes)
    requires 20 <= ip && ip + 20 <= |data|
    ensures |r| == |data|
    ensures forall i | 0 <= i < |data| && i !in {10, 11, ip + 16, ip + 17} :: r[i] == data[i]
    ensures Get16(r, 10) == ipSum && Get16(r, ip + 16) == tcpSum
  {
    data[10 := ipSum / 256][11 := ipSum % 256][ip + 16 := tcpSum / 256][ip + 17 := tcpSum % 256]
  }

  /** The checksums of a packet, each taken with its own field zero. */
  function Sealed(data: Bytes, ip: nat): Bytes
    requires 20 <= ip && ip + 20 <= |data|
  {
    var zeroed := WithChecksums(data, ip, 0, 0);
    WithChecksums(data, ip, 0xffff - Fold(HeaderSum(zeroed, ip)), TCPField(zeroed, ip))
  }

  lemma HeaderSumSealed(data: Bytes, ip: nat, ipSum: u16, tcpSum: u16)
    requires 20 <= ip && ip + 20 <= |data| && ip % 2 == 0
    ensures HeaderSum(WithChecksums(data, ip, ipSum, tcpSum), ip) ==
            HeaderSum(WithChecksums(data, ip, 0, 0), ip) + ipSum
  {
    hide WithChecksums, SumWords;
    var z, s := WithChecksums(data, ip, 0, 0), WithChecksums(data, ip, ipSum, tcpSum);
    SumWordsReplace(z[..ip], s[..ip], 10);
    assert Get16(z[..ip], 10) == Get16(z, 10) && Get16(s[..ip], 10) == Get16(s, 10);
  }

  lemma SegmentSumSealed(data: Bytes, ip: nat, ipSum: u16, tcpSum: u16, end: nat)
    requires 20 <= ip && ip + 20 <= |data| && ip + 18 <= end <= |data|
    ensures SegmentSum(WithChecksums(data, ip, ipSum, tcpSum)[..end], ip) ==
            SegmentSum(WithChecksums(data, ip, 0, 0)[..end], ip) + tcpSum
  {
    hide WithChecksums, SumWords;
    var z, s := WithChecksums(data, ip, 0, 0)[..end], WithChecksums(data, ip, ipSum, tcpSum)[..end];
    assert Get16(z, ip + 16) == 0 && Get16(s, ip + 16) == tcpSum;
    SumWordsReplace(z[ip..], s[ip..], 16);
    assert Get16(z[ip..], 16) == Get16(z, ip + 16) && Get16(s[ip..], 16) == Get16(s, ip + 16);
  }

  lemma SegmentEndSealed(data: Bytes, ip: nat, ipSum: u16, tcpSum: u16)
    requires 20 <= ip && ip + 20 <= |data|
    ensures SegmentEnd(WithChecksums(data, ip, ipSum, tcpSum)) == SegmentEnd(data)
  {
    hide WithChecksums;
  }

  /** After sealing, the IPv4 header sum verifies, and so does the TCP sum with pseudo-header, provided the segment
    * as the total length delimits it contains the checksum field. */
  lemma SealedVerifies(data: Bytes, ip: nat)
    requires 20 <= ip && ip + 20 <= |data| && ip % 2 == 0
    ensures |Sealed(data, ip)| == |data| && SegmentEnd(Sealed(data, ip)) == SegmentEnd(data)
    ensures Verifies(HeaderSum(Sealed(data, ip), ip))
    ensures SegmentEnd(data) >= ip + 18 ==> Verifies(SegmentSum(Sealed(data, ip)[..SegmentEnd(data)], ip))
  {
    hide WithChecksums, HeaderSum, SegmentSum, Fold, SegmentEnd;
    var z, end := WithChecksums(data, ip, 0, 0), SegmentEnd(data);
    SegmentEndSealed(data, ip, 0, 0);
    var h, t := HeaderSum(z, ip), TCPField(z, ip);
    HeaderSumSealed(data, ip, 0xffff - Fold(h), t);
    ComplementVerifies(h);
    SegmentEndSealed(data, ip, 0xffff - Fold(h), t);
    if end >= ip + 18 {
      SegmentSumSealed(data, ip, 0xffff - Fold(h), t, end);
      ComplementVerifies(SegmentSum(z[..end], ip));
    }
  }

  /** Sealing does not change what the packet decodes to. */
  lemma SealedReads(data: Bytes, m: Meta, payload: Bytes)
    requires Reads(data, m, payload)
    ensures 20 <= m.ipLen && m.ipLen + 20 <= |data|
    ensures Reads(Sealed(data, m.ipLen), m, payload)
    ensures |Sealed(data, m.ipLen)| == |data|
    ensures Get16(Sealed(data, m.ipLen), 2) == Get16(data, 2) && Get16(Sealed(data, m.ipLen), 4) == Get16(data, 4)
  {
    hide Decode, Sealed, SameShape, Get16, Get32;
    DecodedBounds(data, m);
    var s := Sealed(data, m.ipLen);
    SealedShape(data, m.ipLen);
    DecodeSameShape(data, s, m);
    DecodeSameShape(data, data, m);
    assert s[m.payloadOffset..] == data[m.payloadOffset..];
  }

  /** Sealing changes no byte but those of the two fields. */
  lemma SealedShape(data: Bytes, ip: nat)
    requires 20 <= ip && ip + 20 <= |data|
    ensures var s := Sealed(data, ip);
            && |s| == |data| && SameShape(data, s, ip) && SameShape(data, data, ip)
            && (forall i | ip + 20 <= i < |s| :: s[i] == data[i]) && s[ip + 13] == data[ip + 13]
            && Get32(s, ip + 4) == Get32(data, ip + 4)
            && Get16(s, 2) == Get16(data, 2) && Get16(s, 4) == Get16(data, 4)
  {
    hide WithChecksums, Fold, HeaderSum, SegmentSum, TCPField;
  }
}
