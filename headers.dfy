/** The header codec of src/core/headers.py: fixed 20-byte IPv4 headers
    (RFC 791, section 3.1) and TCP headers (RFC 793, section 3.1) packed and
    unpacked in network byte order, as struct formats "!BBHHHBBH4s4s" and
    "!HHLLBBHHH" do. Header fields are Python integers, so they are `int` here;
    packing a value that does not fit its field raises struct.error, which is
    `Err(StructError)`. */
module Headers {
  import opened Bytes
  import opened Wrappers

  const IpHdrLen := 20
  const TcpHdrBegin := 20
  const TcpHdrEnd := 40

  const IpProtoIcmp := 1
  const IpProtoTcp := 6

  /** TCPHeader's default window is htons(5840), which depends on the host's
      byte order; this is its value on a little-endian host. */
  const HostOrderWindow := 0xD016

  datatype IPHeader = IPHeader(
    srcAddr: seq<Byte>,
    dstAddr: seq<Byte>,
    ihl: int,
    version: int,
    dscpEcn: int,
    totLen: int,
    id: int,
    fragOff: int,
    ttl: int,
    proto: int,
    check: int)

  datatype TCPHeader = TCPHeader(
    srcPort: int,
    dstPort: int,
    seqNum: int,
    ackNum: int,
    dataOff: int,
    fin: int,
    syn: int,
    rst: int,
    psh: int,
    ack: int,
    urg: int,
    ece: int,
    cwr: int,
    window: int,
    check: int,
    urgPtr: int)

  /** IPHeader(src_addr, dst_addr) with the dataclass defaults: a TCP
      datagram, version 4 with a 5-word header, TTL 255, the rest zero. */
  function NewIPHeader(srcAddr: seq<Byte>, dstAddr: seq<Byte>): (h: IPHeader)
    ensures h.srcAddr == srcAddr && h.dstAddr == dstAddr
    ensures h.version == 4 && h.ihl == 5 && h.ttl == 255 && h.proto == IpProtoTcp
    ensures h.dscpEcn == 0 && h.totLen == 0 && h.id == 0 && h.fragOff == 0 && h.check == 0
    ensures IPPackable(h) && (IPWireable(h) <==> |srcAddr| == 4 && |dstAddr| == 4)
  {
    IPHeader(srcAddr, dstAddr, 5, 4, 0, 0, 0, 0, 255, IpProtoTcp, 0)
  }

  /** TCPHeader(src_port, dst_port) with the dataclass defaults: sequence and
      acknowledgement numbers zero, a 5-word header, no flags. */
  function NewTCPHeader(srcPort: int, dstPort: int): (h: TCPHeader)
    ensures h.srcPort == srcPort && h.dstPort == dstPort
    ensures h.seqNum == 0 && h.ackNum == 0 && h.dataOff == 5
    ensures h.fin == 0 && h.syn == 0 && h.rst == 0 && h.psh == 0 && h.ack == 0 && h.urg == 0 && h.ece == 0 && h.cwr == 0
    ensures h.window == HostOrderWindow && h.check == 0 && h.urgPtr == 0
    ensures FlagsAreBits(h) && (TCPPackable(h) <==> IsU16(srcPort) && IsU16(dstPort))
  {
    TCPHeader(srcPort, dstPort, 0, 0, 5, 0, 0, 0, 0, 0, 0, 0, 0, HostOrderWindow, 0, 0)
  }

  // ---------------------------------------------------------------- IPv4

  /** Every value IPHeader.get_header passes to pack fits its field. */
  predicate IPPackable(h: IPHeader) {
    && IsByte(h.version * 16 + h.ihl)
    && IsByte(h.dscpEcn)
    && IsU16(h.totLen)
    && IsU16(h.id)
    && IsU16(h.fragOff)
    && IsByte(h.ttl)
    && IsByte(h.proto)
    && IsU16(h.check)
  }

  /** IPHeader.get_header: version and IHL share byte 0 as (version << 4) + ihl. */
  function EncodeIP(h: IPHeader): (r: Result<seq<Byte>>)
    ensures r.Ok? <==> IPPackable(h)
    ensures r.Ok? ==>
      && |r.value| == IpHdrLen
      && r.value[0] == h.version * 16 + h.ihl
      && r.value[1] == h.dscpEcn
      && FromBE16(r.value[2..4]) == h.totLen
      && FromBE16(r.value[4..6]) == h.id
      && FromBE16(r.value[6..8]) == h.fragOff
      && r.value[8] == h.ttl
      && r.value[9] == h.proto
      && FromBE16(r.value[10..12]) == h.check
      && r.value[12..16] == Fixed4(h.srcAddr)
      && r.value[16..20] == Fixed4(h.dstAddr)
  {
    if IPPackable(h) then
      var b := [h.version * 16 + h.ihl, h.dscpEcn] + BE16(h.totLen) + BE16(h.id) + BE16(h.fragOff)
        + [h.ttl, h.proto] + BE16(h.check) + Fixed4(h.srcAddr) + Fixed4(h.dstAddr);
      assert |b| == IpHdrLen && b[0] == h.version * 16 + h.ihl && b[1] == h.dscpEcn && b[8] == h.ttl && b[9] == h.proto;
      assert b[2..4] == BE16(h.totLen) && b[4..6] == BE16(h.id) && b[6..8] == BE16(h.fragOff);
      assert b[10..12] == BE16(h.check) && b[12..16] == Fixed4(h.srcAddr) && b[16..20] == Fixed4(h.dstAddr);
      BE16RoundTrip(h.totLen); BE16RoundTrip(h.id); BE16RoundTrip(h.fragOff); BE16RoundTrip(h.check);
      Ok(b)
    else
      Err(StructError)
  }

  /** IPHeader.from_bytes: unpack accepts exactly 20 bytes; version is the high
      nibble of byte 0 and IHL the low nibble. */
  function DecodeIP(data: seq<Byte>): (r: Result<IPHeader>)
    ensures r.Ok? <==> |data| == IpHdrLen
    ensures r.Ok? ==> IPWireable(r.value)
    ensures r.Ok? ==> r.value.version == data[0] / 16 && r.value.ihl == data[0] % 16
    ensures r.Ok? ==> r.value.proto == data[9]
    ensures r.Ok? ==> r.value.srcAddr == data[12..16] && r.value.dstAddr == data[16..20]
  {
    if |data| == IpHdrLen then
      Ok(IPHeader(
        srcAddr := data[12..16],
        dstAddr := data[16..20],
        ihl := data[0] % 16,
        version := data[0] / 16,
        dscpEcn := data[1],
        totLen := FromBE16(data[2..4]),
        id := FromBE16(data[4..6]),
        fragOff := FromBE16(data[6..8]),
        ttl := data[8],
        proto := data[9],
        check := FromBE16(data[10..12])))
    else
      Err(StructError)
  }

  /** A header whose nibbles, field values and 4-byte addresses fit the wire format. */
  predicate IPWireable(h: IPHeader) {
    && 0 <= h.version < 16
    && 0 <= h.ihl < 16
    && IPPackable(h)
    && |h.srcAddr| == 4
    && |h.dstAddr| == 4
  }

  lemma IPRoundTrip(h: IPHeader)
    requires IPWireable(h)
    ensures DecodeIP(EncodeIP(h).value) == Ok(h)
  {
    var b := EncodeIP(h).value;
    FromBE16RoundTrip(b[2..4]); FromBE16RoundTrip(b[4..6]);
    FromBE16RoundTrip(b[6..8]); FromBE16RoundTrip(b[10..12]);
  }

  /** Decoding loses nothing: any 20-byte buffer re-encodes to itself. */
  lemma IPReencode(data: seq<Byte>)
    requires |data| == IpHdrLen
    ensures EncodeIP(DecodeIP(data).value) == Ok(data)
  {
    var h := DecodeIP(data).value;
    var b := EncodeIP(h).value;
    FromBE16RoundTrip(data[2..4]); FromBE16RoundTrip(data[4..6]);
    FromBE16RoundTrip(data[6..8]); FromBE16RoundTrip(data[10..12]);
    FromBE16RoundTrip(b[2..4]); FromBE16RoundTrip(b[4..6]);
    FromBE16RoundTrip(b[6..8]); FromBE16RoundTrip(b[10..12]);
    assert b[2..4] == data[2..4] && b[4..6] == data[4..6];
    assert b[6..8] == data[6..8] && b[10..12] == data[10..12];
    assert b[12..16] == data[12..16] && b[16..20] == data[16..20];
    assert forall i :: 0 <= i < 20 ==> b[i] == data[i] by {
      forall i | 0 <= i < 20 ensures b[i] == data[i] {
        if 2 <= i < 4 { assert b[i] == b[2..4][i - 2]; assert data[i] == data[2..4][i - 2]; }
        else if 4 <= i < 6 { assert b[i] == b[4..6][i - 4]; assert data[i] == data[4..6][i - 4]; }
        else if 6 <= i < 8 { assert b[i] == b[6..8][i - 6]; assert data[i] == data[6..8][i - 6]; }
        else if 10 <= i < 12 { assert b[i] == b[10..12][i - 10]; assert data[i] == data[10..12][i - 10]; }
        else if 12 <= i < 16 { assert b[i] == b[12..16][i - 12]; assert data[i] == data[12..16][i - 12]; }
        else if 16 <= i < 20 { assert b[i] == b[16..20][i - 16]; assert data[i] == data[16..20][i - 16]; }
      }
    }
    assert b == data;
  }

  // ---------------------------------------------------------------- TCP

  /** The flags byte as TCPHeader.get_header sums it: FIN is bit 0, SYN bit 1,
      RST bit 2, PSH bit 3, ACK bit 4, URG bit 5, ECE bit 6 and CWR bit 7. */
  function FlagsByte(h: TCPHeader): int {
    h.fin + h.syn * 2 + h.rst * 4 + h.psh * 8 + h.ack * 16 + h.urg * 32 + h.ece * 64 + h.cwr * 128
  }

  predicate IsBit(x: int) { x == 0 || x == 1 }

  predicate FlagsAreBits(h: TCPHeader) {
    IsBit(h.fin) && IsBit(h.syn) && IsBit(h.rst) && IsBit(h.psh)
    && IsBit(h.ack) && IsBit(h.urg) && IsBit(h.ece) && IsBit(h.cwr)
  }

  /** Every value TCPHeader.get_header passes to pack fits its field. */
  predicate TCPPackable(h: TCPHeader) {
    && IsU16(h.srcPort)
    && IsU16(h.dstPort)
    && IsU32(h.seqNum)
    && IsU32(h.ackNum)
    && IsByte(h.dataOff * 16)
    && IsByte(FlagsByte(h))
    && IsU16(h.window)
    && IsU16(h.check)
    && IsU16(h.urgPtr)
  }

  /** TCPHeader.get_header: byte 12 is data_off << 4, byte 13 is the flags. */
  function EncodeTCP(h: TCPHeader): (r: Result<seq<Byte>>)
    ensures r.Ok? <==> TCPPackable(h)
    ensures r.Ok? ==>
      && |r.value| == 20
      && FromBE16(r.value[0..2]) == h.srcPort
      && FromBE16(r.value[2..4]) == h.dstPort
      && FromBE32(r.value[4..8]) == h.seqNum
      && FromBE32(r.value[8..12]) == h.ackNum
      && r.value[12] == h.dataOff * 16
      && r.value[13] == FlagsByte(h)
      && FromBE16(r.value[14..16]) == h.window
      && FromBE16(r.value[16..18]) == h.check
      && FromBE16(r.value[18..20]) == h.urgPtr
  {
    if TCPPackable(h) then
      var b := BE16(h.srcPort) + BE16(h.dstPort) + BE32(h.seqNum) + BE32(h.ackNum)
        + [h.dataOff * 16, FlagsByte(h)] + BE16(h.window) + BE16(h.check) + BE16(h.urgPtr);
      assert b[0..2] == BE16(h.srcPort) && b[2..4] == BE16(h.dstPort);
      assert b[4..8] == BE32(h.seqNum) && b[8..12] == BE32(h.ackNum);
      assert b[14..16] == BE16(h.window) && b[16..18] == BE16(h.check) && b[18..20] == BE16(h.urgPtr);
      BE16RoundTrip(h.srcPort); BE16RoundTrip(h.dstPort); BE32RoundTrip(h.seqNum); BE32RoundTrip(h.ackNum);
      BE16RoundTrip(h.window); BE16RoundTrip(h.check); BE16RoundTrip(h.urgPtr);
      Ok(b)
    else
      Err(StructError)
  }

  /** TCPHeader.from_bytes: data_off is the high nibble of byte 12 (the low
      nibble is dropped) and flag k is bit k of byte 13. */
  function DecodeTCP(data: seq<Byte>): (r: Result<TCPHeader>)
    ensures r.Ok? <==> |data| == 20
    ensures r.Ok? ==> TCPPackable(r.value) && FlagsAreBits(r.value) && 0 <= r.value.dataOff < 16
  {
    if |data| == 20 then
      var f := data[13];
      var h := TCPHeader(
        srcPort := FromBE16(data[0..2]),
        dstPort := FromBE16(data[2..4]),
        seqNum := FromBE32(data[4..8]),
        ackNum := FromBE32(data[8..12]),
        dataOff := data[12] / 16,
        fin := f % 2,
        syn := (f / 2) % 2,
        rst := (f / 4) % 2,
        psh := (f / 8) % 2,
        ack := (f / 16) % 2,
        urg := (f / 32) % 2,
        ece := (f / 64) % 2,
        cwr := (f / 128) % 2,
        window := FromBE16(data[14..16]),
        check := FromBE16(data[16..18]),
        urgPtr := FromBE16(data[18..20]));
      BitsOfByte(f);
      Ok(h)
    else
      Err(StructError)
  }

  /** A byte is the sum of its bits. */
  lemma BitsOfByte(f: int)
    requires IsByte(f)
    ensures f == f % 2 + (f / 2) % 2 * 2 + (f / 4) % 2 * 4 + (f / 8) % 2 * 8
              + (f / 16) % 2 * 16 + (f / 32) % 2 * 32 + (f / 64) % 2 * 64 + (f / 128) % 2 * 128
  {
    var f1, f2, f3, f4, f5, f6, f7 := f / 2, f / 4, f / 8, f / 16, f / 32, f / 64, f / 128;
    assert f2 == f1 / 2 && f3 == f2 / 2 && f4 == f3 / 2;
    assert f5 == f4 / 2 && f6 == f5 / 2 && f7 == f6 / 2;
    assert f == f % 2 + 2 * f1;
    assert f1 == f1 % 2 + 2 * f2;
    assert f2 == f2 % 2 + 2 * f3;
    assert f3 == f3 % 2 + 2 * f4;
    assert f4 == f4 % 2 + 2 * f5;
    assert f5 == f5 % 2 + 2 * f6;
    assert f6 == f6 % 2 + 2 * f7;
    assert f7 == f7 % 2;
  }

  /** Summing eight bits into a byte and reading bit k back gives flag k. */
  lemma FlagsRoundTrip(h: TCPHeader)
    requires FlagsAreBits(h)
    ensures var f := FlagsByte(h);
      && f % 2 == h.fin && (f / 2) % 2 == h.syn && (f / 4) % 2 == h.rst && (f / 8) % 2 == h.psh
      && (f / 16) % 2 == h.ack && (f / 32) % 2 == h.urg && (f / 64) % 2 == h.ece && (f / 128) % 2 == h.cwr
  {
    var f := FlagsByte(h);
    var r1 := h.syn + h.rst * 2 + h.psh * 4 + h.ack * 8 + h.urg * 16 + h.ece * 32 + h.cwr * 64;
    var r2 := h.rst + h.psh * 2 + h.ack * 4 + h.urg * 8 + h.ece * 16 + h.cwr * 32;
    var r3 := h.psh + h.ack * 2 + h.urg * 4 + h.ece * 8 + h.cwr * 16;
    var r4 := h.ack + h.urg * 2 + h.ece * 4 + h.cwr * 8;
    var r5 := h.urg + h.ece * 2 + h.cwr * 4;
    var r6 := h.ece + h.cwr * 2;
    assert f == h.fin + 2 * r1 && f / 2 == r1;
    assert r1 == h.syn + 2 * r2 && f / 4 == r2;
    assert r2 == h.rst + 2 * r3 && f / 8 == r3;
    assert r3 == h.psh + 2 * r4 && f / 16 == r4;
    assert r4 == h.ack + 2 * r5 && f / 32 == r5;
    assert r5 == h.urg + 2 * r6 && f / 64 == r6;
    assert r6 == h.ece + 2 * h.cwr && f / 128 == h.cwr;
  }

  /** A header whose flags are single bits and whose data offset is a nibble. */
  predicate TCPWireable(h: TCPHeader) {
    TCPPackable(h) && FlagsAreBits(h) && 0 <= h.dataOff < 16
  }

  lemma TCPRoundTrip(h: TCPHeader)
    requires TCPWireable(h)
    ensures DecodeTCP(EncodeTCP(h).value) == Ok(h)
  {
    var b := EncodeTCP(h).value;
    FlagsRoundTrip(h);
    FromBE16RoundTrip(b[0..2]); FromBE16RoundTrip(b[2..4]);
    FromBE32RoundTrip(b[4..8]); FromBE32RoundTrip(b[8..12]);
    FromBE16RoundTrip(b[14..16]); FromBE16RoundTrip(b[16..18]); FromBE16RoundTrip(b[18..20]);
  }

  /** from_bytes reads data_off from the high nibble of byte 12 only, so the
      low nibble (reserved bits and NS) makes no difference. */
  lemma DecodeTCPIgnoresReserved(data: seq<Byte>)
    requires |data| == 20
    ensures DecodeTCP(data) == DecodeTCP(data[12 := data[12] / 16 * 16])
  {
    var d := data[12 := data[12] / 16 * 16];
    assert d[0..2] == data[0..2] && d[2..4] == data[2..4] && d[4..8] == data[4..8] && d[8..12] == data[8..12];
    assert d[14..16] == data[14..16] && d[16..18] == data[16..18] && d[18..20] == data[18..20];
  }

  /** Re-encoding a decoded TCP header reproduces the buffer except for the
      reserved low nibble of byte 12, which comes back as zero. */
  lemma TCPReencode(data: seq<Byte>)
    requires |data| == 20
    ensures EncodeTCP(DecodeTCP(data).value) == Ok(data[12 := data[12] / 16 * 16])
  {
    var h := DecodeTCP(data).value;
    var b := EncodeTCP(h).value;
    var want := data[12 := data[12] / 16 * 16];
    BitsOfByte(data[13]);
    FromBE16RoundTrip(data[0..2]); FromBE16RoundTrip(data[2..4]);
    FromBE32RoundTrip(data[4..8]); FromBE32RoundTrip(data[8..12]);
    FromBE16RoundTrip(data[14..16]); FromBE16RoundTrip(data[16..18]); FromBE16RoundTrip(data[18..20]);
    FromBE16RoundTrip(b[0..2]); FromBE16RoundTrip(b[2..4]);
    FromBE32RoundTrip(b[4..8]); FromBE32RoundTrip(b[8..12]);
    FromBE16RoundTrip(b[14..16]); FromBE16RoundTrip(b[16..18]); FromBE16RoundTrip(b[18..20]);
    assert b[0..2] == data[0..2] && b[2..4] == data[2..4];
    assert b[4..8] == data[4..8] && b[8..12] == data[8..12];
    assert b[14..16] == data[14..16] && b[16..18] == data[16..18] && b[18..20] == data[18..20];
    forall i | 0 <= i < 20 ensures b[i] == want[i] {
      if i < 2 { assert b[i] == b[0..2][i]; assert data[i] == data[0..2][i]; }
      else if i < 4 { assert b[i] == b[2..4][i - 2]; assert data[i] == data[2..4][i - 2]; }
      else if i < 8 { assert b[i] == b[4..8][i - 4]; assert data[i] == data[4..8][i - 4]; }
      else if i < 12 { assert b[i] == b[8..12][i - 8]; assert data[i] == data[8..12][i - 8]; }
      else if 14 <= i < 16 { assert b[i] == b[14..16][i - 14]; assert data[i] == data[14..16][i - 14]; }
      else if 16 <= i < 18 { assert b[i] == b[16..18][i - 16]; assert data[i] == data[16..18][i - 16]; }
      else if 18 <= i { assert b[i] == b[18..20][i - 18]; assert data[i] == data[18..20][i - 18]; }
    }
    assert b == want;
  }

  // ---------------------------------------------------------------- packets

  /** unpack_headers: the IP header from packet[:20] and the TCP header from
      packet[20:40]; later bytes are ignored and a short packet fails. */
  function UnpackHeaders(packet: seq<Byte>): (r: Result<(IPHeader, TCPHeader)>)
    ensures r.Ok? <==> |packet| >= TcpHdrEnd
    ensures r.Err? ==> r.error == StructError
    ensures r.Ok? ==> r == Ok((DecodeIP(packet[..IpHdrLen]).value, DecodeTCP(packet[TcpHdrBegin..TcpHdrEnd]).value))
  {
    match DecodeIP(PySlice(packet, 0, IpHdrLen))
    case Err(e) => Err(e)
    case Ok(ip) =>
      match DecodeTCP(PySlice(packet, TcpHdrBegin, TcpHdrEnd))
      case Err(e) => Err(e)
      case Ok(tcp) => Ok((ip, tcp))
  }

  /** The defaults a new header carries: version 4 with IHL 5 in byte 0,
      TTL 255, protocol TCP, data offset 5 in byte 12, no flags, zero checksums. */
  lemma DefaultHeaderBytes(srcAddr: seq<Byte>, dstAddr: seq<Byte>, srcPort: int, dstPort: int)
    requires IsU16(srcPort) && IsU16(dstPort)
    ensures var ip := EncodeIP(NewIPHeader(srcAddr, dstAddr));
      ip.Ok? && ip.value[0] == 0x45 && ip.value[8] == 255 && ip.value[9] == IpProtoTcp
      && ip.value[10..12] == [0, 0]
    ensures var tcp := EncodeTCP(NewTCPHeader(srcPort, dstPort));
      tcp.Ok? && tcp.value[12] == 0x50 && tcp.value[13] == 0 && tcp.value[16..18] == [0, 0]
  {
    var ip := EncodeIP(NewIPHeader(srcAddr, dstAddr)).value;
    var tcp := EncodeTCP(NewTCPHeader(srcPort, dstPort)).value;
    FromBE16RoundTrip(ip[10..12]);
    FromBE16RoundTrip(tcp[16..18]);
  }
}
