/** How an IPv4 packet with a TCP segment is laid out (section 3.1 of RFC 791, section 3.1 of RFC 9293), and that the
  decoder reads exactly this. */
module Layout {
  import opened Words
  import opened Wire

  /** All fields of both headers. `ihl` and `doff` are their lengths in words of four bytes. `top` are the two flags
    * above
    * "more fragments", which together with the fragment offset is zero in a packet that is not a fragment. */
  datatype Header = Header(ihl: nat, tos: u8, total: u16, id: u16, top: nat, ttl: u8, ipSum: u16, src: Bytes,
    dst: Bytes,
                           ipOptions: Bytes,
                           srcPort: u16, dstPort: u16, seqNo: u32, ack: u32, doff: nat, reserved: nat, flags: u8,
                           window: u16, tcpSum: u16, urgent: u16, tcpOptions: Bytes)
  {
    predicate Ok() {
      && 5 <= ihl <= 15 && 5 <= doff <= 15 && top < 4 && reserved < 16 && |src| == |dst| == 4
      && |ipOptions| == 4 * ihl - 20 && |tcpOptions| == 4 * doff - 20
    }

    function IpHead(): (d: Bytes)
      requires Ok()
      ensures |d| == 12
    {
      [0x40 + ihl, tos, total / 256, total % 256, id / 256, id % 256, 64 * top, 0, ttl, 6, ipSum / 256, ipSum % 256]
    }

    function TcpHead(): (d: Bytes)
      requires Ok()
      ensures |d| == 20
    {
      [srcPort / 256, srcPort % 256, dstPort / 256, dstPort % 256,
       seqNo / 0x100_0000, seqNo / 0x1_0000 % 256, seqNo / 256 % 256, seqNo % 256,
       ack / 0x100_0000, ack / 0x1_0000 % 256, ack / 256 % 256, ack % 256,
       16 * doff + reserved, flags, window / 256, window % 256, tcpSum / 256, tcpSum % 256, urgent / 256, urgent % 256]
    }

    /** Both headers, byte by byte. */
    function Lay(): (d: Bytes)
      requires Ok()
      ensures |d| == 4 * ihl + 4 * doff
    {
      IpHead() + src + dst + ipOptions + TcpHead() + tcpOptions
    }

    /** What is to be read from it. */
    function Fields(): Meta {
      Meta(src, dst, srcPort, dstPort, 6, seqNo, ack, flags, 4 * ihl, 4 * doff, 4 * ihl + 4 * doff)
    }
  }

  // ---- reading what was laid out ----

  lemma LaidParts(h: Header, payload: Bytes)
    requires h.Ok()
    ensures var (d, n) := (h.Lay() + payload, 4 * h.ihl);
            && |d| == n + 4 * h.doff + |payload| && d[..12] == h.IpHead() && d[12..16] == h.src && d[16..20] == h.dst
            && d[n..n + 20] == h.TcpHead() && d[n + 4 * h.doff..] == payload
  {
    hide Header.IpHead, Header.TcpHead;
  }

  lemma IpBytes(h: Header, d: Bytes)
    requires h.Ok() && |d| >= 12 && d[..12] == h.IpHead()
    ensures d[0] / 16 == 4 && d[0] % 16 == h.ihl && d[6] == 64 * h.top && d[7] == 0 && d[9] == 6
    ensures Get16(d, 6) % 0x2000 == 0 && Get16(d, 6) / 0x2000 % 2 == 0
  {
    var head := h.IpHead();
    assert d[0] == head[0] && d[6] == head[6] && d[7] == head[7] && d[9] == head[9];
    Quotient(0x40 + h.ihl, 16, 4, h.ihl);
    NoFragment(64 * h.top, 0);
    hide Header.IpHead;
  }

  /** The two bytes of flags and offset are those of no fragment exactly if six bits of the first and the second are
    * zero. */
  lemma NoFragment(a: u8, b: u8)
    ensures var v := 256 * (a as int) + b;
            v % 0x2000 == 0 && v / 0x2000 % 2 == 0 <==> a % 64 == 0 && b == 0
  {
    var v := 256 * (a as int) + b;
    var q, r := a / 32, a % 32;
    assert v == 0x2000 * q + (256 * r + b);
    Quotient(v, 0x2000, q, 256 * r + b);
    Quotient(a, 64, q / 2, 32 * (q % 2) + r);
  }

  lemma TcpBytes(h: Header, d: Bytes, n: nat)
    requires h.Ok() && n + 20 <= |d| && d[n..n + 20] == h.TcpHead()
    ensures Get16(d, n) == h.srcPort && Get16(d, n + 2) == h.dstPort
    ensures Get32(d, n + 4) == h.seqNo && Get32(d, n + 8) == h.ack
    ensures d[n + 12] / 16 == h.doff && d[n + 13] == h.flags
  {
    var head := h.TcpHead();
    assert forall i | 0 <= i < 20 :: d[n + i] == d[n..n + 20][i] == head[i];
    assert d[n] == head[0] && d[n + 1] == head[1] && d[n + 2] == head[2] && d[n + 3] == head[3];
    assert d[n + 4] == head[4] && d[n + 5] == head[5] && d[n + 6] == head[6] && d[n + 7] == head[7];
    assert d[n + 8] == head[8] && d[n + 9] == head[9] && d[n + 10] == head[10] && d[n + 11] == head[11];
    assert d[n + 12] == head[12] && d[n + 13] == head[13];
    SplitWord32(h.seqNo);
    SplitWord32(h.ack);
    Quotient(16 * h.doff + h.reserved, 16, h.doff, h.reserved);
  }

  /** Decoding what was laid out gives exactly the fields, and the payload starts right behind the headers, for header
    * lengths of 5 to 15 words and any options, flags and payload. */
  lemma DecodeLaid(h: Header, payload: Bytes)
    requires h.Ok()
    ensures Decode(h.Lay() + payload) == Decoded(h.Fields())
    ensures (h.Lay() + payload)[4 * h.ihl + 4 * h.doff..] == payload
  {
    hide Header.Lay, Header.IpHead, Header.TcpHead, Get16, Get32;
    LaidParts(h, payload);
    var d := h.Lay() + payload;
    IpBytes(h, d);
    TcpBytes(h, d, 4 * h.ihl);
  }

  // ---- what can be read was laid out ----

  /** The header that the first bytes are. */
  function HeaderIn(d: Bytes): Header
    requires Readable(d)
  {
    var n := d[0] % 16 * 4;
    Header(d[0] % 16, d[1], 256 * (d[2] as int) + d[3], 256 * (d[4] as int) + d[5], d[6] / 64, d[8],
           256 * (d[10] as int) + d[11], d[12..16], d[16..20], d[20..n],
           256 * (d[n] as int) + d[n + 1], 256 * (d[n + 2] as int) + d[n + 3],
           Join32(d[n + 4], d[n + 5], d[n + 6], d[n + 7]), Join32(d[n + 8], d[n + 9], d[n + 10], d[n + 11]),
           d[n + 12] / 16, d[n + 12] % 16, d[n + 13], 256 * (d[n + 14] as int) + d[n + 15],
           256 * (d[n + 16] as int) + d[n + 17], 256 * (d[n + 18] as int) + d[n + 19],
           d[n + 20..n + d[n + 12] / 16 * 4])
  }

  function Join32(a: u8, b: u8, c: u8, d: u8): u32 {
    0x100_0000 * (a as int) + 0x1_0000 * (b as int) + 256 * (c as int) + d
  }

  lemma Split32(a: u8, b: u8, c: u8, d: u8)
    ensures var v := Join32(a, b, c, d);
            v / 0x100_0000 == a && v / 0x1_0000 % 256 == b && v / 256 % 256 == c && v % 256 == d
  {
    var v := Join32(a, b, c, d);
    Quotient(v, 0x100_0000, a, 0x1_0000 * (b as int) + 256 * (c as int) + d);
    Quotient(v, 0x1_0000, 256 * (a as int) + b, 256 * (c as int) + d);
    Quotient(256 * (a as int) + b, 256, a, b);
    Quotient(v, 256, 0x1_0000 * (a as int) + 256 * (b as int) + c, d);
    Quotient(0x1_0000 * (a as int) + 256 * (b as int) + c, 256, 256 * (a as int) + b, c);
  }

  lemma Split16(a: u8, b: u8)
    ensures (256 * (a as int) + b) / 256 == a && (256 * (a as int) + b) % 256 == b
  {
    Quotient(256 * (a as int) + b, 256, a, b);
  }

  /** The bytes of a packet that is not refused. */
  predicate Readable(d: Bytes) {
    && |d| >= 40 && d[0] / 16 == 4 && d[0] % 16 >= 5 && d[6] % 64 == 0 && d[7] == 0 && d[9] == 6
    && var n := d[0] % 16 * 4;
       |d| >= n + 20 && d[n + 12] / 16 >= 5 && |d| >= n + d[n + 12] / 16 * 4
  }

  lemma IpHeadIn(d: Bytes)
    requires Readable(d)
    ensures HeaderIn(d).Ok() && HeaderIn(d).IpHead() == d[..12]
  {
    Split16(d[2], d[3]);
    Split16(d[4], d[5]);
    Split16(d[10], d[11]);
    var head := HeaderIn(d).IpHead();
    assert head[0] == d[0] && head[6] == d[6] && head[9] == d[9];
    hide Join32;
  }

  /** The bytes of the TCP header's fields are those at `n`. */
  predicate FieldsAt(h: Header, d: Bytes, n: nat)
    requires n + 20 <= |d|
  {
    && h.srcPort / 256 == d[n] && h.srcPort % 256 == d[n + 1] && h.dstPort / 256 == d[n + 2]
       && h.dstPort % 256 == d[n + 3]
    && h.seqNo / 0x100_0000 == d[n + 4] && h.seqNo / 0x1_0000 % 256 == d[n + 5]
    && h.seqNo / 256 % 256 == d[n + 6] && h.seqNo % 256 == d[n + 7]
    && h.ack / 0x100_0000 == d[n + 8] && h.ack / 0x1_0000 % 256 == d[n + 9]
    && h.ack / 256 % 256 == d[n + 10] && h.ack % 256 == d[n + 11]
    && 16 * h.doff + h.reserved == d[n + 12] && h.flags == d[n + 13]
    && h.window / 256 == d[n + 14] && h.window % 256 == d[n + 15] && h.tcpSum / 256 == d[n + 16]
    && h.tcpSum % 256 == d[n + 17] && h.urgent / 256 == d[n + 18] && h.urgent % 256 == d[n + 19]
  }

  lemma FieldsIn(d: Bytes)
    requires Readable(d)
    ensures FieldsAt(HeaderIn(d), d, d[0] % 16 * 4)
  {
    hide Join32;
    var n := d[0] % 16 * 4;
    Split16(d[n], d[n + 1]);
    Split16(d[n + 2], d[n + 3]);
    Split32(d[n + 4], d[n + 5], d[n + 6], d[n + 7]);
    Split32(d[n + 8], d[n + 9], d[n + 10], d[n + 11]);
    Split16(d[n + 14], d[n + 15]);
    Split16(d[n + 16], d[n + 17]);
    Split16(d[n + 18], d[n + 19]);
    assert 16 * (d[n + 12] / 16) + d[n + 12] % 16 == d[n + 12];
  }

  lemma TcpHeadAt(h: Header, d: Bytes, n: nat)
    requires h.Ok() && n + 20 <= |d| && FieldsAt(h, d, n)
    ensures h.TcpHead() == d[n..n + 20]
  {
  }

  lemma TcpHeadIn(d: Bytes)
    requires Readable(d) && HeaderIn(d).Ok()
    ensures var n := d[0] % 16 * 4; HeaderIn(d).TcpHead() == d[n..n + 20]
  {
    hide HeaderIn, FieldsAt, Header.TcpHead;
    FieldsIn(d);
    TcpHeadAt(HeaderIn(d), d, d[0] % 16 * 4);
  }

  /** Readable bytes are a header laid out, and a payload behind it. */
  lemma LaidOut(d: Bytes)
    requires Readable(d)
    ensures var h := HeaderIn(d); h.Ok() && d == h.Lay() + d[4 * h.ihl + 4 * h.doff..]
  {
    hide Header.IpHead, Header.TcpHead, Join32;
    IpHeadIn(d);
    TcpHeadIn(d);
    SixParts(d, d[0] % 16 * 4, d[d[0] % 16 * 4 + 12] / 16 * 4);
  }

  lemma SixParts(d: Bytes, n: nat, m: nat)
    requires 20 <= n && 20 <= m && n + m <= |d|
    ensures d == d[..12] + d[12..16] + d[16..20] + d[20..n] + d[n..n + 20] + d[n + 20..n + m] + d[n + m..]
  {
  }

  /** The decoder refuses exactly the byte strings that are not readable: those that are too short for their headers,
    * that
    * are not of version 4, that are fragments, or whose protocol is not TCP. */
  lemma RefusedIff(d: Bytes)
    ensures Decode(d).Undecodable? <==> !Readable(d)
  {
    if |d| >= 20 {
      NoFragment(d[6], d[7]);
    }
  }

  /** Printer and decoder are inverse to each other: a byte string decodes to `m` if and only if it is some header with
    * these fields, laid out, and a payload. */
  lemma DecodesIff(d: Bytes, m: Meta)
    ensures Decode(d) == Decoded(m) <==> exists h: Header :: h.Ok() && h.Fields() == m && h.Lay() <= d
  {
    hide Decode, Header.Lay, Header.Fields;
    if Decode(d) == Decoded(m) {
      DecodedIsLaid(d, m);
    }
    if h: Header :| h.Ok() && h.Fields() == m && h.Lay() <= d {
      LaidIsDecoded(d, h);
    }
  }

  lemma DecodedIsLaid(d: Bytes, m: Meta)
    requires Decode(d) == Decoded(m)
    ensures Readable(d) && HeaderIn(d).Ok() && HeaderIn(d).Fields() == m && HeaderIn(d).Lay() <= d
  {
    hide Decode, Header.Lay, Header.Fields, Readable, HeaderIn;
    RefusedIff(d);
    LaidOut(d);
    var h := HeaderIn(d);
    DecodeLaid(h, d[4 * h.ihl + 4 * h.doff..]);
  }

  lemma LaidIsDecoded(d: Bytes, h: Header)
    requires h.Ok() && h.Lay() <= d
    ensures Decode(d) == Decoded(h.Fields())
  {
    hide Decode, Header.Lay, Header.Fields;
    DecodeLaid(h, d[|h.Lay()|..]);
    assert d == h.Lay() + d[|h.Lay()|..];
  }
}
