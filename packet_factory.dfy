/** src/core/packet_factory.py: the Internet checksum (RFC 1071, section 1),
    the TCP pseudo-header (RFC 793, section 3.1) and the factory that builds an
    IPv4 + TCP datagram around a payload, writing the checksum into its own
    TCP header as it goes. */
module PacketFactory {
  import opened Bytes
  import opened Wrappers
  import opened Headers

  // ------------------------------------------------- the Internet checksum

  /** The checksum input with one zero byte appended when its length is odd. */
  function Padded(msg: seq<Byte>): (r: seq<Byte>)
    ensures |r| % 2 == 0
    ensures |r| == |msg| + |msg| % 2 && r[..|msg|] == msg
    ensures |msg| % 2 == 1 ==> r[|msg|] == 0
  {
    if |msg| % 2 == 1 then msg + [0] else msg
  }

  /** The sum of the big-endian 16-bit words of an even-length buffer. */
  function WordSum(m: seq<Byte>): nat
    requires |m| % 2 == 0
    decreases |m|
  {
    if |m| == 0 then 0 else FromBE16(m[..2]) + WordSum(m[2..])
  }

  /** The end-around-carry fold of a word sum: the value in [0, 0xFFFF] that is
      congruent to s modulo 0xFFFF and is zero only for s == 0. */
  function Fold(s: nat): (r: nat)
    ensures r <= 0xFFFF
    ensures r % 0xFFFF == s % 0xFFFF
    ensures r == 0 <==> s == 0
  {
    if s == 0 then 0 else (s - 1) % 0xFFFF + 1
  }

  /** The one's complement of the one's-complement sum of the padded words. */
  function InternetChecksum(msg: seq<Byte>): (c: int)
    ensures IsU16(c)
  {
    0xFFFF - Fold(WordSum(Padded(msg)))
  }

  /** One step of the carry loop keeps the residue modulo 0xFFFF, keeps zero
      and only zero at zero, and shrinks any value of 2^16 or more. */
  lemma FoldStep(s: nat)
    requires s / 0x1_0000 != 0
    ensures var t := s % 0x1_0000 + s / 0x1_0000;
      t % 0xFFFF == s % 0xFFFF && t != 0 && t < s
  {
    var hi, lo := s / 0x1_0000, s % 0x1_0000;
    assert s == 0xFFFF * hi + (lo + hi);
  }

  /** Fold is the only value with its three properties. */
  lemma FoldUnique(total: nat, s: nat)
    requires s <= 0xFFFF && s % 0xFFFF == total % 0xFFFF && (s == 0 <==> total == 0)
    ensures s == Fold(total)
  {
  }

  /** ~s & 0xFFFF: Python's ~s is -s - 1, and masking takes its two's
      complement low 16 bits, which Dafny's Euclidean % computes. */
  lemma ComplementLow16(s: int)
    requires 0 <= s <= 0xFFFF
    ensures (-s - 1) % 0x1_0000 == 0xFFFF - s
  {
    assert -s - 1 == -1 * 0x1_0000 + (0xFFFF - s);
  }

  lemma {:induction false} WordSumAppend(a: seq<Byte>, b: seq<Byte>)
    requires |a| % 2 == 0 && |b| % 2 == 0
    ensures WordSum(a + b) == WordSum(a) + WordSum(b)
    decreases |a|
  {
    if |a| == 0 {
      assert a + b == b;
    } else {
      assert (a + b)[..2] == a[..2];
      assert (a + b)[2..] == a[2..] + b;
      WordSumAppend(a[2..], b);
    }
  }

  /** Splitting a buffer at an even offset before one 16-bit word w: the padded
      word sum is the sum of the three parts. */
  lemma SpliceSum(a: seq<Byte>, w: seq<Byte>, b: seq<Byte>)
    requires |a| % 2 == 0 && |w| == 2
    ensures WordSum(Padded(a + w + b)) == WordSum(a) + FromBE16(w) + WordSum(Padded(b))
  {
    var pb := Padded(b);
    var wpb := w + pb;
    PaddedAfterEven(a + w, b);
    assert (a + w) + pb == a + wpb;
    WordSumAppend(a, wpb);
    WordSumLeadingWord(w, pb);
  }

  lemma WordSumLeadingWord(w: seq<Byte>, b: seq<Byte>)
    requires |w| == 2 && |b| % 2 == 0
    ensures WordSum(w + b) == FromBE16(w) + WordSum(b)
  {
    WordSumAppend(w, b);
    WordSumOfWord(w);
  }

  lemma WordSumOfWord(w: seq<Byte>)
    requires |w| == 2
    ensures WordSum(w) == FromBE16(w)
  {
    assert w[..2] == w;
    assert w[2..] == [];
  }

  lemma PaddedAfterEven(a: seq<Byte>, b: seq<Byte>)
    requires |a| % 2 == 0
    ensures Padded(a + b) == a + Padded(b)
  {
    assert |a + b| % 2 == |b| % 2;
    if |b| % 2 == 1 {
      assert (a + b) + [0] == a + (b + [0]);
    }
  }

  /** Adding the checksum of a buffer to its word sum gives a sum whose fold
      is 0xFFFF, so its checksum is zero. */
  lemma ComplementFoldsToAllOnes(s: nat)
    ensures Fold(s + (0xFFFF - Fold(s))) == 0xFFFF
  {
    var t := s + (0xFFFF - Fold(s));
    assert t % 0xFFFF == 0;
    assert t != 0;
  }

  /** The self-verifying property: with the checksum of "a ++ [0, 0] ++ b"
      written into the zeroed word, the checksum of the result is zero. */
  lemma {:induction false} ChecksumSelfVerifies(a: seq<Byte>, b: seq<Byte>)
    requires |a| % 2 == 0
    ensures var c := InternetChecksum(a + [0, 0] + b);
      InternetChecksum(a + BE16(c) + b) == 0
  {
    var c := InternetChecksum(a + [0, 0] + b);
    SpliceSum(a, [0, 0], b);
    SpliceSum(a, BE16(c), b);
    BE16RoundTrip(c);
    ComplementFoldsToAllOnes(WordSum(Padded(a + [0, 0] + b)));
  }

  /** Odd-length input is checksummed as if a zero byte followed it. */
  lemma ChecksumOddPad(msg: seq<Byte>)
    requires |msg| % 2 == 1
    ensures InternetChecksum(msg) == InternetChecksum(msg + [0])
  {
  }

  // ------------------------------------------------- pseudo-header

  /** _generate_pseudo_header: "!4s4sBBH" over the IP header's addresses, a zero
      byte, the protocol number of TCP and the TCP segment length. */
  function PseudoHeader(ip: IPHeader, tcpHdrLen: int, usrDataLen: int): (r: Result<seq<Byte>>)
    ensures r.Ok? <==> IsU16(tcpHdrLen + usrDataLen)
    ensures r.Ok? ==>
      && |r.value| == 12
      && r.value[..4] == Fixed4(ip.srcAddr)
      && r.value[4..8] == Fixed4(ip.dstAddr)
      && r.value[8] == 0 && r.value[9] == IpProtoTcp
      && FromBE16(r.value[10..]) == tcpHdrLen + usrDataLen
  {
    var length := tcpHdrLen + usrDataLen;
    if IsU16(length) then
      var p := Fixed4(ip.srcAddr) + Fixed4(ip.dstAddr) + [0, IpProtoTcp] + BE16(length);
      assert p[4..8] == Fixed4(ip.dstAddr) && p[10..] == BE16(length);
      BE16RoundTrip(length);
      Ok(p)
    else
      Err(StructError)
  }

  // ------------------------------------------------- the packet

  /** The checksum generate_packet computes: over the pseudo-header, the TCP
      header with its check field zeroed, and the payload. */
  function TcpChecksum(ip: IPHeader, tcp: TCPHeader, msg: seq<Byte>): (r: Result<int>)
    ensures r.Ok? <==> TCPPackable(tcp.(check := 0)) && IsU16(20 + |msg|)
    ensures r.Ok? ==> IsU16(r.value)
    ensures r.Err? ==> r.error == StructError
  {
    match EncodeTCP(tcp.(check := 0))
    case Err(e) => Err(e)
    case Ok(t) =>
      match PseudoHeader(ip, |t|, |msg|)
      case Err(e) => Err(e)
      case Ok(p) => Ok(InternetChecksum(p + t + msg))
  }

  /** The value generate_packet leaves in the TCP header's check field: the
      checksum, or zero when packing failed before it was computed. */
  function CheckAfterGenerate(ip: IPHeader, tcp: TCPHeader, msg: seq<Byte>): (c: int)
    ensures IsU16(c)
    ensures TcpChecksum(ip, tcp, msg).Ok? ==> c == TcpChecksum(ip, tcp, msg).value
  {
    match TcpChecksum(ip, tcp, msg)
    case Ok(c) => c
    case Err(_) => 0
  }

  /** The bytes generate_packet returns for the headers (ip, tcp) and payload msg:
      IP header ++ TCP header carrying the checksum ++ payload. */
  function BuildPacket(ip: IPHeader, tcp: TCPHeader, msg: seq<Byte>): (r: Result<seq<Byte>>)
    ensures r.Ok? <==> IPPackable(ip) && TCPPackable(tcp.(check := 0)) && IsU16(20 + |msg|)
    ensures r.Err? ==> r.error == StructError
    ensures r.Ok? ==>
      && |r.value| == TcpHdrEnd + |msg|
      && r.value[TcpHdrEnd..] == msg
      && Ok(r.value[..IpHdrLen]) == EncodeIP(ip)
      && Ok(r.value[TcpHdrBegin..TcpHdrEnd]) == EncodeTCP(tcp.(check := CheckAfterGenerate(ip, tcp, msg)))
  {
    match TcpChecksum(ip, tcp, msg)
    case Err(e) => Err(e)
    case Ok(c) =>
      var t := EncodeTCP(tcp.(check := c)).value;
      match EncodeIP(ip)
      case Err(e) => Err(e)
      case Ok(i) =>
        var p := i + t + msg;
        assert p[..IpHdrLen] == i && p[TcpHdrBegin..TcpHdrEnd] == t && p[TcpHdrEnd..] == msg;
        Ok(p)
  }

  /** The encoded TCP header with check c is the zero-check encoding with
      bytes 16 and 17 replaced by c. */
  lemma TcpCheckSplice(tcp: TCPHeader, c: int)
    requires TCPPackable(tcp.(check := 0)) && IsU16(c)
    ensures var t0 := EncodeTCP(tcp.(check := 0)).value;
      EncodeTCP(tcp.(check := c)).value == t0[..16] + BE16(c) + t0[18..]
  {
  }

  /** The segment form of the self-verifying property: p is the 12-byte
      pseudo-header and t0 the TCP header with a zero check field at bytes 16-17. */
  lemma SegmentSelfVerifies(p: seq<Byte>, t0: seq<Byte>, msg: seq<Byte>)
    requires |p| == 12 && |t0| == 20 && t0[16..18] == [0, 0]
    ensures var c := InternetChecksum(p + t0 + msg);
      InternetChecksum(p + (t0[..16] + BE16(c) + t0[18..] + msg)) == 0
  {
    var c := InternetChecksum(p + t0 + msg);
    Rejoin(p, t0, msg);
    ChecksumSelfVerifies(p + t0[..16], t0[18..] + msg);
    Regroup(p, t0, msg, BE16(c));
  }

  lemma Rejoin<T>(p: seq<T>, t0: seq<T>, msg: seq<T>)
    requires |t0| == 20
    ensures p + t0 + msg == (p + t0[..16]) + t0[16..18] + (t0[18..] + msg)
  {
    assert t0 == t0[..16] + t0[16..18] + t0[18..];
  }

  lemma Regroup<T>(p: seq<T>, t0: seq<T>, msg: seq<T>, w: seq<T>)
    requires |t0| == 20
    ensures p + (t0[..16] + w + t0[18..] + msg) == (p + t0[..16]) + w + (t0[18..] + msg)
  {
  }

  lemma SplitAt<T>(r: seq<T>, i: nat, j: nat)
    requires i <= j <= |r|
    ensures r[i..] == r[i..j] + r[j..]
  {
  }

  /** The TCP segment of a generated packet, preceded by its pseudo-header,
      checksums to zero: a receiver validating it finds it intact. */
  lemma {:induction false} PacketSelfVerifies(ip: IPHeader, tcp: TCPHeader, msg: seq<Byte>)
    requires BuildPacket(ip, tcp, msg).Ok?
    ensures var segment := BuildPacket(ip, tcp, msg).value[TcpHdrBegin..];
      InternetChecksum(PseudoHeader(ip, 20, |msg|).value + segment) == 0
  {
    var p := PseudoHeader(ip, 20, |msg|).value;
    var t0 := EncodeTCP(tcp.(check := 0)).value;
    var c := TcpChecksum(ip, tcp, msg).value;
    var r := BuildPacket(ip, tcp, msg).value;
    assert c == InternetChecksum(p + t0 + msg);
    assert t0[16..18] == [0, 0] by { FromBE16RoundTrip(t0[16..18]); }
    SegmentSelfVerifies(p, t0, msg);
    TcpCheckSplice(tcp, c);
    SplitAt(r, TcpHdrBegin, TcpHdrEnd);
  }

  /** The packet does not depend on what the check field held before, so a
      second call, on the state the first one leaves, returns the same bytes
      and leaves the same state. */
  lemma GenerateIsRepeatable(ip: IPHeader, tcp: TCPHeader, msg: seq<Byte>, x: int)
    ensures BuildPacket(ip, tcp.(check := x), msg) == BuildPacket(ip, tcp, msg)
    ensures CheckAfterGenerate(ip, tcp.(check := x), msg) == CheckAfterGenerate(ip, tcp, msg)
  {
    assert tcp.(check := x).(check := 0) == tcp.(check := 0);
    forall c: int ensures tcp.(check := x).(check := c) == tcp.(check := c) { }
  }

  /** Read back with unpack_headers, a generated packet yields the factory's
      IP header and its TCP header carrying the checksum. */
  lemma PacketDecodes(ip: IPHeader, tcp: TCPHeader, msg: seq<Byte>)
    requires IPWireable(ip) && TCPWireable(tcp.(check := 0))
    requires IsU16(20 + |msg|)
    ensures BuildPacket(ip, tcp, msg).Ok?
    ensures UnpackHeaders(BuildPacket(ip, tcp, msg).value)
         == Ok((ip, tcp.(check := CheckAfterGenerate(ip, tcp, msg))))
  {
    var r := BuildPacket(ip, tcp, msg).value;
    IPRoundTrip(ip);
    TCPRoundTrip(tcp.(check := CheckAfterGenerate(ip, tcp, msg)));
  }

  // ------------------------------------------------- the factory object

  /** PacketFactory: owns one IP header and one TCP header; generate_packet
      updates the TCP header's check field in place. */
  class PacketFactory {
    var ipHeader: IPHeader
    var tcpHeader: TCPHeader

    constructor (srcAddr: seq<Byte>, srcPort: int, dstAddr: seq<Byte>, dstPort: int)
      ensures ipHeader == NewIPHeader(srcAddr, dstAddr)
      ensures tcpHeader == NewTCPHeader(srcPort, dstPort)
    {
      ipHeader := NewIPHeader(srcAddr, dstAddr);
      tcpHeader := NewTCPHeader(srcPort, dstPort);
    }

    /** _checksum: pad, sum the words, fold the carries back in, complement. */
    method Checksum(msg: seq<Byte>) returns (c: int)
      ensures c == InternetChecksum(msg)
    {
      var m := msg;
      if |m| % 2 == 1 {
        m := m + [0];
      }
      var s: int := WordSum(m);
      ghost var total := s;
      while s / 0x1_0000 != 0
        invariant 0 <= s
        invariant s % 0xFFFF == total % 0xFFFF
        invariant s == 0 <==> total == 0
        decreases s
      {
        FoldStep(s);
        s := s % 0x1_0000 + s / 0x1_0000;
      }
      FoldUnique(total, s);
      ComplementLow16(s);
      c := (-s - 1) % 0x1_0000;
    }

    /** generate_packet: zero the check field, checksum pseudo-header ++ TCP
        header ++ payload, store the checksum, and return IP header ++ TCP
        header ++ payload. Only the check field of the TCP header changes. */
    method GeneratePacket(msg: seq<Byte>) returns (r: Result<seq<Byte>>)
      modifies this
      ensures r == BuildPacket(old(ipHeader), old(tcpHeader), msg)
      ensures ipHeader == old(ipHeader)
      ensures tcpHeader == old(tcpHeader).(check := CheckAfterGenerate(old(ipHeader), old(tcpHeader), msg))
    {
      tcpHeader := tcpHeader.(check := 0);
      var tcpHdr := EncodeTCP(tcpHeader);
      if tcpHdr.Err? {
        return Err(tcpHdr.error);
      }
      var psh := PseudoHeader(ipHeader, |tcpHdr.value|, |msg|);
      if psh.Err? {
        return Err(psh.error);
      }
      var checksum := Checksum(psh.value + tcpHdr.value + msg);
      tcpHeader := tcpHeader.(check := checksum);
      var tcpBytes := EncodeTCP(tcpHeader).value;
      var ipHdr := EncodeIP(ipHeader);
      if ipHdr.Err? {
        return Err(ipHdr.error);
      }
      r := Ok(ipHdr.value + tcpBytes + msg);
    }
  }
}
