/** Detection of a TLS ClientHello record at the front of a reassembled stream. */
module Tls {
  import opened Words

  datatype Verdict = NeedMore | Mismatch | Match(recordLen: u16)

  /** Looks at the first six bytes only: content type, version, record length, handshake type. */
  function DetectClientHelloRecord(buf: Bytes): (v: Verdict)
    ensures v == NeedMore <==> |buf| < 6
    ensures v.Match? <==>
            && |buf| >= 6 && buf[0] == 0x16 && buf[1] == 3 && 1 <= buf[2] <= 4 && buf[5] == 0x01
            && (buf[3] > 0 || buf[4] > 0)
    ensures v.Match? ==> v.recordLen > 0 && v.recordLen / 256 == buf[3] && v.recordLen % 256 == buf[4]
  {
    if |buf| < 6 then NeedMore
    else if buf[0] != 0x16 then Mismatch
    else
      var ver := 256 * (buf[1] as int) + buf[2];
      if ver < 0x0301 || ver > 0x0304 then Mismatch
      else if buf[5] != 0x01 then Mismatch
      else
        var recordLen := 256 * (buf[3] as int) + buf[4];
        if recordLen == 0 then Mismatch else Match(recordLen)
  }

  /** The first six bytes of a record that carries a ClientHello: handshake, version 3.minor, a length of two bytes,
    * most
    * significant first, and the handshake type (sections 4 and 5.1 of RFC 8446). */
  function HelloHead(minor: u8, n: u16): Bytes {
    [0x16, 3, minor, n / 256, n % 256, 1]
  }

  /** The buffer starts with such a record of a positive length `n`, of version 3.1 to 3.4. */
  ghost predicate StartsHello(buf: Bytes, n: int) {
    0 < n < 0x1_0000 && exists minor: u8 :: 1 <= minor <= 4 && HelloHead(minor, n) <= buf
  }

  /** What is detected: exactly the records of every version and every length, with their length. Everything else of six
    * or more bytes is a mismatch. */
  lemma DetectIff(buf: Bytes, n: u16)
    ensures DetectClientHelloRecord(buf) == Match(n) <==> StartsHello(buf, n)
    ensures DetectClientHelloRecord(buf) == Mismatch <==> |buf| >= 6 && forall m: u16 :: !StartsHello(buf, m)
  {
    forall m: u16 ensures DetectClientHelloRecord(buf) == Match(m) <==> StartsHello(buf, m) {
      DetectForward(buf, m);
      if StartsHello(buf, m) {
        var minor: u8 :| 1 <= minor <= 4 && HelloHead(minor, m) <= buf;
        DetectBack(buf, minor, m);
      }
    }
  }

  lemma DetectForward(buf: Bytes, n: u16)
    ensures DetectClientHelloRecord(buf) == Match(n) ==> StartsHello(buf, n)
  {
    if DetectClientHelloRecord(buf) == Match(n) {
      Quotient(n, 256, buf[3], buf[4]);
      Quotient(256 * (buf[1] as int) + buf[2], 256, buf[1], buf[2]);
      assert HelloHead(buf[2], n) <= buf;
    }
  }

  lemma DetectBack(buf: Bytes, minor: u8, n: u16)
    requires 1 <= minor <= 4 && 0 < n && HelloHead(minor, n) <= buf
    ensures DetectClientHelloRecord(buf) == Match(n)
  {
    var head := HelloHead(minor, n);
    assert forall i | 0 <= i < 6 :: buf[i] == head[i];
  }

  /** Once six bytes are there, more bytes never change the verdict (section 5.1 of RFC 8446). */
  lemma VerdictIsStable(buf: Bytes, more: Bytes)
    requires |buf| >= 6
    ensures DetectClientHelloRecord(buf + more) == DetectClientHelloRecord(buf)
  {
    assert (buf + more)[..6] == buf[..6];
  }

  function StreamHead(stream: Stream, base: u32): Bytes {
    [stream(Add32(base, 0)), stream(Add32(base, 1)), stream(Add32(base, 2)),
     stream(Add32(base, 3)), stream(Add32(base, 4)), stream(Add32(base, 5))]
  }

  /** The verdict on a stream, as seen from sequence number `base` on. */
  function StreamVerdict(stream: Stream, base: u32): Verdict {
    DetectClientHelloRecord(StreamHead(stream, base))
  }

  /** From `base` on the stream announces a record of `n` bytes with a ClientHello. */
  ghost predicate StreamHello(stream: Stream, base: u32, n: int) {
    && 0 < n < 0x1_0000
    && stream(Add32(base, 0)) == 0x16 && stream(Add32(base, 1)) == 3 && 1 <= stream(Add32(base, 2)) <= 4
    && stream(Add32(base, 3)) == n / 256 && stream(Add32(base, 4)) == n % 256 && stream(Add32(base, 5)) == 1
  }

  /** What a stream that matches says, byte by byte. */
  lemma StreamStarts(stream: Stream, base: u32, n: u16)
    ensures StreamVerdict(stream, base) == Match(n) <==> StreamHello(stream, base, n)
  {
    hide DetectClientHelloRecord, Add32;
    var head := StreamHead(stream, base);
    DetectIff(head, n);
    HelloBytes(head, n);
  }

  lemma HelloBytes(head: Bytes, n: u16)
    requires |head| == 6
    ensures StartsHello(head, n) <==>
            n > 0 && head[0] == 0x16 && head[1] == 3 && 1 <= head[2] <= 4 && head[3] == n / 256 && head[4] == n % 256
            && head[5] == 1
  {
    if StartsHello(head, n) {
      var minor: u8 :| 1 <= minor <= 4 && HelloHead(minor, n) <= head;
      assert forall i | 0 <= i < 6 :: head[i] == HelloHead(minor, n)[i];
    } else if head == HelloHead(head[2], n) {
      assert HelloHead(head[2], n) <= head;
    }
  }

  lemma VerdictOfPrefix(stream: Stream, base: u32, contig: Bytes)
    requires CutFrom(stream, base, contig) && |contig| >= 6
    ensures DetectClientHelloRecord(contig) == StreamVerdict(stream, base)
  {
    var head := StreamHead(stream, base);
    assert contig == head + contig[6..];
    VerdictIsStable(head, contig[6..]);
  }
}
