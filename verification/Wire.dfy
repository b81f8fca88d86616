/** IPv4/TCP packets as bytes: decoding, and rebuilding a header around a new payload. */
module Wire {
  import opened Words

  datatype Meta = Meta(srcIP: Bytes, dstIP: Bytes, srcPort: u16, dstPort: u16, proto: u8,
                       seqNo: u32, ack: u32, flags: u8, ipLen: nat, tcpLen: nat, payloadOffset: nat)

  const NO_META: Meta := Meta([], [], 0, 0, 0, 0, 0, 0, 0, 0, 0)

  datatype Source = Captured | Rebuilt

  /** `id` is the identity the capture layer gave the packet (its queue id). */
  datatype Packet = Packet(data: Bytes, meta: Meta, source: Source, id: u32)

  datatype DecodeError = TooShort | NotIPv4 | Fragmented | NotTCP
  datatype Decoding = Decoded(meta: Meta) | Undecodable(error: DecodeError)

  function Get16(data: Bytes, i: nat): u16
    requires i + 2 <= |data|
  {
    256 * (data[i] as int) + data[i + 1]
  }

  function Get32(data: Bytes, i: nat): u32
    requires i + 4 <= |data|
  {
    0x1_0000 * (Get16(data, i) as int) + Get16(data, i + 2)
  }

  function Decode(data: Bytes): Decoding {
    if |data| < 20 then Undecodable(TooShort)
    else if data[0] / 16 != 4 then Undecodable(NotIPv4)
    else
      var ihl := data[0] % 16 * 4;
      if ihl < 20 || |data| < ihl + 20 then Undecodable(TooShort)
      else
        var flagsOffset := Get16(data, 6);
        if flagsOffset % 0x2000 != 0 || flagsOffset / 0x2000 % 2 != 0 then Undecodable(Fragmented)
        else if data[9] != 6 then Undecodable(NotTCP)
        else
          var dataOffset := data[ihl + 12] / 16 * 4;
          if dataOffset < 20 || |data| < ihl + dataOffset then Undecodable(TooShort)
          else Decoded(Meta(data[12..16], data[16..20], Get16(data, ihl), Get16(data, ihl + 2), 6,
                            Get32(data, ihl + 4), Get32(data, ihl + 8), data[ihl + 13],
                            ihl, dataOffset, ihl + dataOffset))
  }

  /** The payload is everything past the headers; the IP total length plays no part. */
  function PayloadOf(p: Packet): Bytes {
    if p.meta.payloadOffset <= 0 || p.meta.payloadOffset > |p.data| then []
    else p.data[p.meta.payloadOffset..]
  }

  const FIN: u8 := 0x01
  const SYN: u8 := 0x02
  const RST: u8 := 0x04
  const PSH: u8 := 0x08

  /** Whether the one-bit mask `bit` is set. */
  predicate HasFlag(flags: u8, bit: u8)
    requires bit != 0
  {
    flags / bit % 2 == 1
  }

  /** The flags without PSH (bit 3) and FIN (bit 0). */
  function WithoutPshFin(flags: u8): u8 {
    flags / 16 * 16 + flags / 2 % 4 * 2
  }

  /** Those two are cleared; the bits between them and the four above are kept. */
  lemma OnlyPshAndFinCleared(flags: u8)
    ensures !HasFlag(WithoutPshFin(flags), PSH) && !HasFlag(WithoutPshFin(flags), FIN)
    ensures WithoutPshFin(flags) / 16 == flags / 16 && WithoutPshFin(flags) / 2 % 4 == flags / 2 % 4
  {
    BitsCleared(flags / 16, flags / 2 % 4);
  }

  lemma BitsCleared(high: int, low: int)
    requires 0 <= low < 4
    ensures var r := high * 16 + low * 2;
            r / 16 == high && r / 2 % 4 == low && r / 8 % 2 == 0 && r / 1 % 2 == 0
  {
    var r := high * 16 + low * 2;
    Quotient(r, 16, high, low * 2);
    Quotient(r, 2, high * 8 + low, 0);
    Quotient(high * 8 + low, 4, high * 2, low);
    Quotient(r, 8, high * 2, low * 2);
    Quotient(high * 2, 2, high, 0);
    Quotient(r, 1, r, 0);
    Quotient(r, 2, high * 8 + low, 0);
  }

  /** A packet as the receive loop hands it on: at most 64 KiB, with the meta data its bytes decode to. */
  ghost predicate Genuine(p: Packet) {
    |p.data| <= 0xffff && Decode(p.data) == Decoded(p.meta)
  }

  /** What a receiver of these bytes sees: the decoded header and the bytes past it. */
  ghost predicate Reads(data: Bytes, meta: Meta, payload: Bytes) {
    Decode(data) == Decoded(meta) && data[meta.payloadOffset..] == payload
  }

  lemma GenuineReads(p: Packet)
    requires Genuine(p)
    ensures Reads(p.data, p.meta, PayloadOf(p))
    ensures |PayloadOf(p)| == |p.data| - p.meta.ipLen - p.meta.tcpLen
  {
  }

  // ---- rebuilding a packet ----

  /** Byte `i` of the packet built from a template: a few header fields are rewritten, the checksums zeroed. */
  function BuiltByte(tpl: Packet, seqNo: u32, payload: Bytes, flags: u8, ipid: u16, i: nat): u8
    requires tpl.meta.ipLen + tpl.meta.tcpLen <= |tpl.data|
    requires i < tpl.meta.ipLen + tpl.meta.tcpLen + |payload|
  {
    var ip := tpl.meta.ipLen;
    var headerLen := ip + tpl.meta.tcpLen;
    var total := (headerLen + |payload|) % 0x1_0000;
    if i >= headerLen then payload[i - headerLen]
    else if i == 2 then total / 256
    else if i == 3 then total % 256
    else if i == 4 then ipid / 256
    else if i == 5 then ipid % 256
    else if i == 10 || i == 11 || i == ip + 16 || i == ip + 17 then 0
    else if i == ip + 4 then seqNo / 0x100_0000
    else if i == ip + 5 then seqNo / 0x1_0000 % 256
    else if i == ip + 6 then seqNo / 256 % 256
    else if i == ip + 7 then seqNo % 256
    else if i == ip + 13 then flags
    else tpl.data[i]
  }

  function Build(tpl: Packet, seqNo: u32, payload: Bytes, flags: u8, ipid: u16): Bytes
    requires tpl.meta.ipLen + tpl.meta.tcpLen <= |tpl.data|
  {
    seq(tpl.meta.ipLen + tpl.meta.tcpLen + |payload|,
        i requires 0 <= i < tpl.meta.ipLen + tpl.meta.tcpLen + |payload| =>
          BuiltByte(tpl, seqNo, payload, flags, ipid, i))
  }

  /** The header fields the decoder looks at agree, up to sequence number and flags. */
  ghost predicate SameShape(a: Bytes, b: Bytes, ip: nat) {
    && ip + 20 <= |a| && ip + 20 <= |b| && 20 <= ip
    && a[0] == b[0] && a[6] == b[6] && a[7] == b[7] && a[9] == b[9]
    && a[12..20] == b[12..20] && a[ip..ip + 4] == b[ip..ip + 4] && a[ip + 8..ip + 13] == b[ip + 8..ip + 13]
  }

  lemma DecodedBounds(data: Bytes, m: Meta)
    requires Decode(data) == Decoded(m)
    ensures 20 <= m.ipLen && 20 <= m.tcpLen && m.payloadOffset == m.ipLen + m.tcpLen <= |data|
    ensures m.ipLen == data[0] % 16 * 4 && m.ipLen % 4 == 0
  {
  }

  lemma SliceAt(a: Bytes, b: Bytes, i: nat, j: nat, k: nat)
    requires i <= k < j <= |a| && j <= |b| && a[i..j] == b[i..j]
    ensures a[k] == b[k]
  {
    assert a[k] == a[i..j][k - i] && b[k] == b[i..j][k - i];
  }

  lemma SliceSlice(a: Bytes, b: Bytes, i: nat, j: nat, p: nat, q: nat)
    requires i <= p <= q <= j <= |a| && j <= |b| && a[i..j] == b[i..j]
    ensures a[p..q] == b[p..q]
  {
    forall k | p <= k < q ensures a[k] == b[k] {
      SliceAt(a, b, i, j, k);
    }
  }

  lemma SameWords(a: Bytes, b: Bytes, ip: nat)
    requires SameShape(a, b, ip)
    ensures a[12..16] == b[12..16] && a[16..20] == b[16..20] && Get16(a, 6) == Get16(b, 6)
    ensures Get16(a, ip) == Get16(b, ip) && Get16(a, ip + 2) == Get16(b, ip + 2)
    ensures Get32(a, ip + 8) == Get32(b, ip + 8) && a[ip + 12] == b[ip + 12]
  {
    SliceSlice(a, b, 12, 20, 12, 16);
    SliceSlice(a, b, 12, 20, 16, 20);
    SliceAt(a, b, ip, ip + 4, ip);
    SliceAt(a, b, ip, ip + 4, ip + 1);
    SliceAt(a, b, ip, ip + 4, ip + 2);
    SliceAt(a, b, ip, ip + 4, ip + 3);
    SliceAt(a, b, ip + 8, ip + 13, ip + 8);
    SliceAt(a, b, ip + 8, ip + 13, ip + 9);
    SliceAt(a, b, ip + 8, ip + 13, ip + 10);
    SliceAt(a, b, ip + 8, ip + 13, ip + 11);
    SliceAt(a, b, ip + 8, ip + 13, ip + 12);
  }

  lemma DecodeSameShape(a: Bytes, b: Bytes, m: Meta)
    requires Decode(a) == Decoded(m) && SameShape(a, b, m.ipLen) && |b| >= m.payloadOffset
    ensures m.ipLen + 20 <= |b|
    ensures Decode(b) == Decoded(m.(seqNo := Get32(b, m.ipLen + 4), flags := b[m.ipLen + 13]))
  {
    hide Get16, Get32;
    SameWords(a, b, m.ipLen);
  }

  lemma SplitWord32(v: u32)
    ensures v / 0x100_0000 < 256
    ensures ((v / 0x100_0000) * 256 + v / 0x1_0000 % 256) * 0x1_0000 + ((v / 256 % 256) * 256 + v % 256) == v
  {
    Digits(v);
    var hi, lo := v / 0x1_0000, v % 0x1_0000;
    assert v == hi * 0x1_0000 + lo && hi == hi / 256 * 256 + hi % 256;
  }

  lemma BuiltShape(tpl: Packet, seqNo: u32, payload: Bytes, flags: u8, ipid: u16)
    requires Decode(tpl.data) == Decoded(tpl.meta)
    ensures SameShape(tpl.data, Build(tpl, seqNo, payload, flags, ipid), tpl.meta.ipLen)
  {
    hide Decode;
    DecodedBounds(tpl.data, tpl.meta);
  }

  lemma BuiltFields(tpl: Packet, seqNo: u32, payload: Bytes, flags: u8, ipid: u16)
    requires Decode(tpl.data) == Decoded(tpl.meta)
    ensures var out := Build(tpl, seqNo, payload, flags, ipid);
            && |out| == tpl.meta.payloadOffset + |payload|
            && Get32(out, tpl.meta.ipLen + 4) == seqNo
            && out[tpl.meta.ipLen + 13] == flags
            && out[tpl.meta.payloadOffset..] == payload
            && Get16(out, 2) == |out| % 0x1_0000
            && Get16(out, 4) == ipid
  {
    hide Decode;
    DecodedBounds(tpl.data, tpl.meta);
    SplitWord32(seqNo);
  }

  /** Decoding a built packet gives the template's header with the requested sequence number and flags,
    * the requested payload, the requested IP id, and a total length that is the real one up to 64 KiB. */
  lemma BuildDecodes(tpl: Packet, seqNo: u32, payload: Bytes, flags: u8, ipid: u16)
    requires Decode(tpl.data) == Decoded(tpl.meta)
    ensures var out := Build(tpl, seqNo, payload, flags, ipid);
            && Reads(out, tpl.meta.(seqNo := seqNo, flags := flags), payload)
            && |out| == tpl.meta.payloadOffset + |payload|
            && Get16(out, 4) == ipid
            && (|out| <= 0xffff ==> Get16(out, 2) == |out|)
  {
    hide Decode, Build, SameShape, Get16, Get32;
    DecodedBounds(tpl.data, tpl.meta);
    BuiltShape(tpl, seqNo, payload, flags, ipid);
    BuiltFields(tpl, seqNo, payload, flags, ipid);
    DecodeSameShape(tpl.data, Build(tpl, seqNo, payload, flags, ipid), tpl.meta);
  }
}
