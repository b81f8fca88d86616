/** Packet bytes edited in place: the header setters, the packet builder and the checksum writer. */
module PacketBuffer {
  import opened Words
  import opened Wire
  import opened C = Checksum
  import S = Segmentation

  /** Two bytes, big-endian, at `i`. */
  function Put16(data: Bytes, i: nat, v: u16): (r: Bytes)
    requires i + 2 <= |data|
    ensures |r| == |data|
    ensures forall j | 0 <= j < |data| :: r[j] == if j == i then v / 256 else if j == i + 1 then v % 256 else data[j]
  {
    data[i := v / 256][i + 1 := v % 256]
  }

  method PutUint16(data: array<u8>, i: nat, v: u16)
    requires i + 2 <= data.Length
    modifies data
    ensures data[..] == Put16(old(data[..]), i, v)
  {
    data[i] := v / 256;
    data[i + 1] := v % 256;
  }

  /** Each setter does nothing on a buffer too short for its field. */
  method SetIPv4TotalLength(data: array<u8>, total: u16)
    modifies data
    ensures data[..] == if data.Length < 4 then old(data[..]) else Put16(old(data[..]), 2, total)
  {
    if data.Length >= 4 {
      PutUint16(data, 2, total);
    }
  }

  method SetIPv4ID(data: array<u8>, id: u16)
    modifies data
    ensures data[..] == if data.Length < 6 then old(data[..]) else Put16(old(data[..]), 4, id)
  {
    if data.Length >= 6 {
      PutUint16(data, 4, id);
    }
  }

  method SetIPv4Checksum(data: array<u8>, sum: u16)
    modifies data
    ensures data[..] == if data.Length < 12 then old(data[..]) else Put16(old(data[..]), 10, sum)
  {
    if data.Length >= 12 {
      PutUint16(data, 10, sum);
    }
  }

  method SetTCPChecksum(data: array<u8>, ip: nat, sum: u16)
    modifies data
    ensures data[..] == if data.Length < ip + 18 then old(data[..]) else Put16(old(data[..]), ip + 16, sum)
  {
    if data.Length >= ip + 18 {
      PutUint16(data, ip + 16, sum);
    }
  }

  method SetTCPSeq(data: array<u8>, ip: nat, seqNo: u32)
    modifies data
    ensures data[..] == if data.Length < ip + 8 then old(data[..])
                        else Put16(Put16(old(data[..]), ip + 4, seqNo / 0x1_0000), ip + 6, seqNo % 0x1_0000)
  {
    if data.Length >= ip + 8 {
      PutUint16(data, ip + 4, seqNo / 0x1_0000);
      PutUint16(data, ip + 6, seqNo % 0x1_0000);
    }
  }

  method SetTCPFlags(data: array<u8>, ip: nat, flags: u8)
    modifies data
    ensures data[..] == if data.Length < ip + 14 then old(data[..]) else old(data[..])[ip + 13 := flags]
  {
    if data.Length >= ip + 14 {
      data[ip + 13] := flags;
    }
  }

  /** The edits of the builder, in its order, on header and payload put together. */
  function Edited(raw: Bytes, ip: nat, seqNo: u32, flags: u8, ipid: u16): Bytes
    requires 20 <= ip && ip + 20 <= |raw|
  {
    var a := Put16(Put16(raw, 2, |raw| % 0x1_0000), 4, ipid);
    var b := Put16(Put16(a, ip + 4, seqNo / 0x1_0000), ip + 6, seqNo % 0x1_0000)[ip + 13 := flags];
    Put16(Put16(b, 10, 0), ip + 16, 0)
  }

  lemma EditedAt(raw: Bytes, ip: nat, seqNo: u32, flags: u8, ipid: u16, i: nat)
    requires 20 <= ip && ip + 20 <= |raw| && i < |raw|
    ensures |Edited(raw, ip, seqNo, flags, ipid)| == |raw|
    ensures Edited(raw, ip, seqNo, flags, ipid)[i] ==
            if i == 2 then |raw| % 0x1_0000 / 256
            else if i == 3 then |raw| % 0x1_0000 % 256
            else if i == 4 then ipid / 256
            else if i == 5 then ipid % 256
            else if i == 10 || i == 11 || i == ip + 16 || i == ip + 17 then 0
            else if i == ip + 4 then seqNo / 0x1_0000 / 256
            else if i == ip + 5 then seqNo / 0x1_0000 % 256
            else if i == ip + 6 then seqNo % 0x1_0000 / 256
            else if i == ip + 7 then seqNo % 0x1_0000 % 256
            else if i == ip + 13 then flags
            else raw[i]
  {
  }

  lemma EditedIsBuild(tpl: Packet, seqNo: u32, payload: Bytes, flags: u8, ipid: u16)
    requires Decode(tpl.data) == Decoded(tpl.meta)
    ensures tpl.meta.payloadOffset <= |tpl.data| && 20 <= tpl.meta.ipLen
            && tpl.meta.ipLen + 20 <= tpl.meta.payloadOffset
    ensures Edited(tpl.data[..tpl.meta.payloadOffset] + payload, tpl.meta.ipLen, seqNo, flags, ipid) ==
            Build(tpl, seqNo, payload, flags, ipid)
  {
    hide Decode, Edited;
    DecodedBounds(tpl.data, tpl.meta);
    var raw := tpl.data[..tpl.meta.payloadOffset] + payload;
    var e := Edited(raw, tpl.meta.ipLen, seqNo, flags, ipid);
    EditedAt(raw, tpl.meta.ipLen, seqNo, flags, ipid, 0);
    Digits(seqNo);
    forall i | 0 <= i < |raw| ensures e[i] == BuiltByte(tpl, seqNo, payload, flags, ipid, i) {
      EditedAt(raw, tpl.meta.ipLen, seqNo, flags, ipid, i);
    }
  }

  datatype BuildResult = Built(buf: array<u8>, nextId: u16) | InvalidHeader

  /** Copy the template's headers, put the payload behind them, and edit the header fields. */
  method BuildPacket(tpl: Packet, seqNo: u32, payload: Bytes, flags: u8, ipid: u16) returns (r: BuildResult)
    requires Decode(tpl.data) == Decoded(tpl.meta)
    ensures r.Built? && fresh(r.buf)
    ensures r.buf[..] == Build(tpl, seqNo, payload, flags, ipid)
    ensures r.nextId == (ipid + 1) % 0x1_0000
  {
    hide Decode, Build, Edited;
    DecodedBounds(tpl.data, tpl.meta);
    EditedIsBuild(tpl, seqNo, payload, flags, ipid);
    var ip := tpl.meta.ipLen;
    var headerLen := ip + tpl.meta.tcpLen;
    if headerLen <= 0 || headerLen > |tpl.data| {
      return InvalidHeader;
    }
    var buf := Assemble(tpl.data[..headerLen], payload);
    Edit(buf, ip, seqNo, flags, ipid);
    r := Built(buf, (ipid + 1) % 0x1_0000);
  }

  method Assemble(header: Bytes, payload: Bytes) returns (buf: array<u8>)
    ensures fresh(buf) && buf[..] == header + payload
  {
    buf := new u8[|header| + |payload|](i requires 0 <= i < |header| + |payload| =>
                                          if i < |header| then header[i] else payload[i - |header|]);
  }

  method Edit(buf: array<u8>, ip: nat, seqNo: u32, flags: u8, ipid: u16)
    requires 20 <= ip && ip + 20 <= buf.Length
    modifies buf
    ensures buf[..] == Edited(old(buf[..]), ip, seqNo, flags, ipid)
  {
    hide Put16;
    SetIPv4TotalLength(buf, buf.Length % 0x1_0000);
    SetIPv4ID(buf, ipid);
    SetTCPSeq(buf, ip, seqNo);
    SetTCPFlags(buf, ip, flags);
    SetIPv4Checksum(buf, 0);
    SetTCPChecksum(buf, ip, 0);
  }

  /** Zero both checksum fields, compute both sums, write both sums. */
  method CalcChecksums(data: array<u8>)
    requires data.Length <= 0xffff
    modifies data
    ensures data.Length < 20 ==> data[..] == old(data[..])
    ensures data.Length >= 20 ==>
              var ip := old(data[0]) % 16 * 4;
              data[..] == if ip < 20 || data.Length < ip + 20 then old(data[..]) else Sealed(old(data[..]), ip)
  {
    if data.Length < 20 {
      return;
    }
    var ip := data[0] % 16 * 4;
    if ip < 20 || data.Length < ip + 20 {
      return;
    }
    hide Sealed, HeaderSum, TCPField, Fold;
    ghost var was := data[..];
    SetIPv4Checksum(data, 0);
    SetTCPChecksum(data, ip, 0);
    ZeroedIs(was, ip);
    assert data[..] == WithChecksums(was, ip, 0, 0);
    var ipSum := C.Checksum(data[..][..ip]);
    var tcpSum := TCPChecksumIPv4(data[..], ip);
    SetIPv4Checksum(data, ipSum);
    SetTCPChecksum(data, ip, tcpSum);
    SealIs(was, ip, ipSum, tcpSum);
  }

  lemma ZeroedIs(was: Bytes, ip: nat)
    requires 20 <= ip && ip + 20 <= |was|
    ensures Put16(Put16(was, 10, 0), ip + 16, 0) == WithChecksums(was, ip, 0, 0)
    ensures Get16(WithChecksums(was, ip, 0, 0), 2) == Get16(was, 2)
  {
  }

  lemma SealIs(was: Bytes, ip: nat, ipSum: u16, tcpSum: u16)
    requires 20 <= ip && ip + 20 <= |was| <= 0xffff
    requires var z := WithChecksums(was, ip, 0, 0);
             ipSum == 0xffff - Fold(HeaderSum(z, ip)) && tcpSum == TCPField(z, ip)
    ensures Put16(Put16(WithChecksums(was, ip, 0, 0), 10, ipSum), ip + 16, tcpSum) == Sealed(was, ip)
  {
    hide HeaderSum, TCPField, Fold;
  }

  /** Build and seal: the packet as it goes to the adapter. */
  method BuildSealed(tpl: Packet, seqNo: u32, payload: Bytes, flags: u8, ipid: u16) returns (p: Packet, nextId: u16)
    requires Decode(tpl.data) == Decoded(tpl.meta) && tpl.meta.payloadOffset + |payload| <= 0xffff
    ensures p == S.Wired(tpl, seqNo, payload, flags, ipid)
    ensures nextId == (ipid + 1) % 0x1_0000
  {
    hide Decode, Build, Sealed, Get16;
    DecodedBounds(tpl.data, tpl.meta);
    BuildDecodes(tpl, seqNo, payload, flags, ipid);
    var r := BuildPacket(tpl, seqNo, payload, flags, ipid);
    DecodedBounds(r.buf[..], tpl.meta.(seqNo := seqNo, flags := flags));
    CalcChecksums(r.buf);
    p := Packet(r.buf[..], NO_META, Rebuilt, 0);
    nextId := r.nextId;
  }
}
