/** Which packets go to a worker, and to which one, told from their bytes. */
module Routing {
  import opened Words
  import opened Wire
  import opened Layout
  import opened FlowMachine
  import opened EngineProtocol
  import opened Sharding

  /** The bytes are a TCP packet to port 443 that carries payload, FIN or RST. */
  ghost predicate ForWorker(data: Bytes) {
    exists h: Header, payload: Bytes ::
      && LaidAs(data, h, payload) && h.dstPort == 443
      && (payload != [] || h.flags % 2 == 1 || h.flags / 4 % 2 == 1)
  }

  /** The bytes are a TCP packet to port 443 that carries none of them. */
  ghost predicate Bare(data: Bytes) {
    exists h: Header, payload: Bytes ::
      LaidAs(data, h, payload) && h.dstPort == 443 && payload == [] && h.flags % 2 == 0 && h.flags / 4 % 2 == 0
  }

  ghost predicate LaidAs(data: Bytes, h: Header, payload: Bytes) {
    h.Ok() && data == h.Lay() + payload
  }

  lemma LaidMeans(p: Packet, h: Header, payload: Bytes)
    requires FromCapture(p) && LaidAs(p.data, h, payload)
    ensures Decode(p.data).Decoded? && p.meta == h.Fields() && PayloadOf(p) == payload
  {
    DecodeLaid(h, payload);
    hide Decode;
  }

  lemma SomeLayout(p: Packet) returns (h: Header, payload: Bytes)
    requires Decode(p.data).Decoded?
    ensures LaidAs(p.data, h, payload)
  {
    RefusedIff(p.data);
    hide Decode;
    LaidOut(p.data);
    h := HeaderIn(p.data);
    payload := p.data[4 * h.ihl + 4 * h.doff..];
  }

  /** What the receive loop does with a captured packet depends on its bytes alone: to a worker go exactly the TCP
    * packets
    * to port 443 with payload, FIN or RST; those without keep their flow alive; everything else, packets that cannot be
    * decoded included, is just sent on. */
  lemma RouteIff(p: Packet)
    requires FromCapture(p)
    ensures RouteOf(p) == ToWorker <==> ForWorker(p.data)
    ensures RouteOf(p) == TouchAndSendOn <==> Bare(p.data)
  {
    hide Decode, Header.Lay, PayloadOf;
    forall h: Header, payload: Bytes | LaidAs(p.data, h, payload)
      ensures Decode(p.data).Decoded? && p.meta == h.Fields() && PayloadOf(p) == payload
    {
      LaidMeans(p, h, payload);
    }
    if Decode(p.data).Decoded? {
      var h, payload := SomeLayout(p);
      assert RouteOf(p) == ToWorker ==> ForWorker(p.data);
      assert RouteOf(p) == TouchAndSendOn ==> Bare(p.data);
    }
  }

  /** The thirteen bytes that are hashed are those of the packet itself: addresses, ports and protocol as they stand in
    * its headers. */
  lemma HashesTheWire(h: Header, payload: Bytes)
    requires h.Ok()
    ensures var (d, n) := (h.Lay() + payload, 4 * h.ihl);
            |d| >= n + 20 && KeyBytes(KeyOf(h.Fields())) == d[12..20] + d[n..n + 4] + [d[9]]
  {
    hide Header.Lay, Header.IpHead, Header.TcpHead;
    LaidParts(h, payload);
    var (d, n) := (h.Lay() + payload, 4 * h.ihl);
    IpBytes(h, d);
    PortBytes(h, d, n);
    assert d[12..20] == d[12..16] + d[16..20];
  }

  lemma PortBytes(h: Header, d: Bytes, n: nat)
    requires h.Ok() && n + 20 <= |d| && d[n..n + 20] == h.TcpHead()
    ensures d[n..n + 4] == [h.srcPort / 256, h.srcPort % 256, h.dstPort / 256, h.dstPort % 256]
  {
    assert d[n..n + 4] == d[n..n + 20][..4];
  }

  lemma SameBytes(a: Key, b: Key)
    requires |a.srcIP| == |b.srcIP| && |a.dstIP| == |b.dstIP|
    ensures a == b <==> KeyBytes(a) == KeyBytes(b)
  {
    var x, y := KeyBytes(a), KeyBytes(b);
    if x == y {
      var i, j := |a.srcIP|, |a.dstIP|;
      assert a.srcIP == x[..i] && b.srcIP == y[..i] && a.dstIP == x[i..i + j] && b.dstIP == y[i..i + j];
      assert x[i + j..] == [a.srcPort / 256, a.srcPort % 256, a.dstPort / 256, a.dstPort % 256, a.proto];
      assert y[i + j..] == [b.srcPort / 256, b.srcPort % 256, b.dstPort / 256, b.dstPort % 256, b.proto];
    }
  }

  /** Two packets belong to one connection if and only if the bytes of their addresses and ports agree. */
  lemma SameConnectionIff(a: Header, b: Header, x: Bytes, y: Bytes)
    requires a.Ok() && b.Ok()
    ensures var (d, e, m, n) := (a.Lay() + x, b.Lay() + y, 4 * a.ihl, 4 * b.ihl);
            KeyOf(a.Fields()) == KeyOf(b.Fields()) <==> d[12..20] == e[12..20] && d[m..m + 4] == e[n..n + 4]
  {
    hide Header.Lay, KeyBytes;
    HashesTheWire(a, x);
    HashesTheWire(b, y);
    var (d, e, m, n) := (a.Lay() + x, b.Lay() + y, 4 * a.ihl, 4 * b.ihl);
    SameBytes(KeyOf(a.Fields()), KeyOf(b.Fields()));
    Protocols(a, x);
    Protocols(b, y);
    var p, q := d[12..20] + d[m..m + 4] + [d[9]], e[12..20] + e[n..n + 4] + [e[9]];
    if p == q {
      assert d[12..20] == p[..8] && e[12..20] == q[..8] && d[m..m + 4] == p[8..12] && e[n..n + 4] == q[8..12];
    }
  }

  lemma Protocols(h: Header, payload: Bytes)
    requires h.Ok()
    ensures (h.Lay() + payload)[9] == 6
  {
    LaidParts(h, payload);
    hide Header.Lay, Header.IpHead, Header.TcpHead;
    IpBytes(h, h.Lay() + payload);
  }

  // ---- the hash ----

  /** A connection's home is the residue of its hash modulo the number of workers. */
  lemma HomeIsResidue(k: Key, workers: nat)
    requires workers > 0
    ensures Home(k, workers) < workers && (Fnv(OFFSET_BASIS, KeyBytes(k)) as int - Home(k, workers)) % workers == 0
  {
    hide Fnv, KeyBytes;
    Residue(Fnv(OFFSET_BASIS, KeyBytes(k)) as int, workers);
  }

  lemma Residue(n: nat, d: nat)
    requires d > 0
    ensures n % d < d && (n - n % d) % d == 0
  {
    Quotient(n - n % d, d, n / d, 0);
  }

  lemma FnvNone(h: bv64)
    ensures Fnv(h, []) == h
  {
  }

  lemma FnvNext(h: bv64, b: u8, rest: Bytes)
    ensures Fnv(h, [b] + rest) == Fnv(FnvByte(h, b), rest)
  {
    hide FnvByte;
    assert ([b] + rest)[1..] == rest;
  }

  lemma FnvTwo(h: bv64, a: u8, b: u8)
    ensures Fnv(h, [a, b]) == FnvByte(FnvByte(h, a), b)
  {
    hide FnvByte, Fnv;
    FnvNext(h, a, [b]);
    FnvNext(FnvByte(h, a), b, []);
    FnvNone(FnvByte(FnvByte(h, a), b));
    assert [a, b] == [a] + [b] && [b] == [b] + [];
  }

  /** Published values of the 64-bit FNV-1a hash: of nothing, of "a" and of "foobar". */
  lemma FnvVectors()
    ensures Fnv(OFFSET_BASIS, []) == 0xcbf2_9ce4_8422_2325
    ensures Fnv(OFFSET_BASIS, [0x61]) == 0xaf63_dc4c_8601_ec8c
    ensures Fnv(OFFSET_BASIS, [0x66, 0x6f, 0x6f, 0x62, 0x61, 0x72]) == 0x8594_4171_f739_67e8
  {
    FoobarBytes();
    hide FnvByte, Fnv;
    FnvNone(OFFSET_BASIS);
    FnvNone(0xaf63_dc4c_8601_ec8c);
    FnvNext(OFFSET_BASIS, 0x61, []);
    assert [0x61] == [0x61] + [];
    var a, b, c := [0x66, 0x6f], [0x6f, 0x62], [0x61, 0x72];
    assert [0x66, 0x6f, 0x6f, 0x62, 0x61, 0x72] == a + (b + c);
    FnvStreams(OFFSET_BASIS, a, b + c);
    FnvTwo(OFFSET_BASIS, 0x66, 0x6f);
    FnvStreams(0x0898_5907_b541_d342, b, c);
    FnvTwo(0x0898_5907_b541_d342, 0x6f, 0x62);
    FnvTwo(0xdd12_0e79_0c25_12af, 0x61, 0x72);
  }

  lemma FoobarBytes()
    ensures FnvByte(OFFSET_BASIS, 0x61) == 0xaf63_dc4c_8601_ec8c
    ensures FnvByte(OFFSET_BASIS, 0x66) == 0xaf63_db4c_8601_ead9
    ensures FnvByte(0xaf63_db4c_8601_ead9, 0x6f) == 0x0898_5907_b541_d342
    ensures FnvByte(0x0898_5907_b541_d342, 0x6f) == 0xdcb2_7518_fed9_d577
    ensures FnvByte(0xdcb2_7518_fed9_d577, 0x62) == 0xdd12_0e79_0c25_12af
    ensures FnvByte(0xdd12_0e79_0c25_12af, 0x61) == 0xcac1_65af_a2fe_f40a
    ensures FnvByte(0xcac1_65af_a2fe_f40a, 0x72) == 0x8594_4171_f739_67e8
  {
  }
}
