/** src/core/scanners/syn_scanner.py: the half-open (SYN) scanner.

    The raw socket is replaced by the sequence of what successive recvfrom
    calls return: a `Packet` with the sender's address and the datagram's
    bytes, or a `Timeout` (recvfrom raised socket.error). Reads past the end of
    the sequence time out. Sends are counted; the random sequence number is a
    parameter. */
module SynScan {
  import opened Bytes
  import opened Wrappers
  import opened Headers
  import opened PacketFactory
  import opened Results
  import opened Ints

  const DefaultTimeout := 10
  const DefaultRetries := 2

  /** SYNScanner's configuration: the scanner's own address (get_self_ip,
      resolved by the caller), the per-attempt timeout and the attempts per
      port, with the constructor's defaults. */
  datatype SynScanner = SynScanner(srcIp: Host, timeout: int := DefaultTimeout, retries: int := DefaultRetries)

  /** What icmp_error reports: ICMP_RES_OK = 0, ICMP_RES_FILTERED = 1,
      ICMP_RES_ERROR = 2. */
  datatype IcmpResult = ResOk | ResFiltered | ResError

  /** Destination Unreachable (RFC 792). */
  const IcmpUnreachable := 3

  /** Host, protocol and port unreachable (RFC 792), network and host
      administratively prohibited (RFC 1122, section 3.2.2.1) and communication
      administratively prohibited (RFC 1812, section 5.2.7.1). */
  const IcmpFilteredCodes: set<int> := {1, 2, 3, 9, 10, 13}

  datatype Event = Timeout | Packet(srcAddr: Host, data: seq<Byte>)

  // ------------------------------------------------- the pure predicates

  /** is_packet_for_us: the reply comes from the probed port to our port. */
  predicate IsPacketForUs(tcpHdr: TCPHeader, srcPort: int, dstPort: int) {
    tcpHdr.srcPort == dstPort && tcpHdr.dstPort == srcPort
  }

  /** is_packet_syn_ack: both SYN and ACK are set and seq + 1 is acknowledged. */
  predicate IsPacketSynAck(tcpHdr: TCPHeader, seqNo: int) {
    tcpHdr.syn == 1 && tcpHdr.ack == 1 && tcpHdr.ackNum == seqNo + 1
  }

  /** icmp_error: the protocol byte of the IP header decides whether the
      datagram is ICMP; the type and code are the two bytes after a 20-byte IP
      header (IHL is not consulted). A datagram too short for either read
      raises struct.error. */
  function IcmpError(packet: seq<Byte>): (r: Result<IcmpResult>)
    ensures r.Err? <==> |packet| < IpHdrLen || (packet[9] == IpProtoIcmp && |packet| < IpHdrLen + 2)
    ensures r.Err? ==> r.error == StructError
    ensures r == Ok(ResOk) <==> |packet| >= IpHdrLen && packet[9] != IpProtoIcmp
    ensures r == Ok(ResFiltered) <==>
      |packet| >= IpHdrLen + 2 && packet[9] == IpProtoIcmp
      && packet[20] == IcmpUnreachable && packet[21] as int in IcmpFilteredCodes
    ensures r == Ok(ResError) <==>
      |packet| >= IpHdrLen + 2 && packet[9] == IpProtoIcmp
      && (packet[20] != IcmpUnreachable || packet[21] as int !in IcmpFilteredCodes)
  {
    match DecodeIP(PySlice(packet, 0, IpHdrLen))
    case Err(e) => Err(e)
    case Ok(ipHdr) =>
      if ipHdr.proto != IpProtoIcmp then Ok(ResOk)
      else
        var typeCode := PySlice(packet, IpHdrLen, IpHdrLen + 2);
        if |typeCode| != 2 then Err(StructError)
        else if typeCode[0] != IcmpUnreachable then Ok(ResError)
        else if typeCode[1] as int in IcmpFilteredCodes then Ok(ResFiltered)
        else Ok(ResError)
  }

  // ------------------------------------------------- one received datagram

  /** What a reply must match: the address replies are accepted from, our
      source port, the target port and the SYN's sequence number. */
  datatype Expect = Expect(replyAddr: Host, srcPort: int, dstPort: int, seqNo: int)

  /** The effect of one received datagram on the loop of try_send_syn. */
  datatype Verdict = Skip | Decide(status: PortStatus) | Abort(error: Error)

  /** A datagram that icmp_error or unpack_headers cannot read: shorter than
      the IP header, an ICMP message without its type and code, or a non-ICMP
      datagram shorter than both headers. */
  predicate ShortDatagram(data: seq<Byte>) {
    || |data| < IpHdrLen
    || (data[9] == IpProtoIcmp && |data| < IpHdrLen + 2)
    || (data[9] != IpProtoIcmp && |data| < TcpHdrEnd)
  }

  /** The loop body of try_send_syn for a received datagram, in the order the
      checks are made: sender address, ICMP classification, TCP ports, SYN/ACK. */
  function Classify(addr: Host, data: seq<Byte>, x: Expect): (v: Verdict)
    ensures addr != x.replyAddr ==> v == Skip
    ensures v.Abort? ==> v.error == StructError && |data| < TcpHdrEnd
    ensures v.Abort? <==> addr == x.replyAddr && ShortDatagram(data)
    ensures v == Decide(OPEN) ==> |data| >= TcpHdrEnd && data[9] != IpProtoIcmp
  {
    if addr != x.replyAddr then Skip
    else
      match IcmpError(data)
      case Err(e) => Abort(e)
      case Ok(ResFiltered) => Decide(FILTERED)
      case Ok(ResError) => Decide(CLOSED)
      case Ok(ResOk) =>
        match UnpackHeaders(data)
        case Err(e) => Abort(e)
        case Ok((_, tcpHdr)) =>
          if !IsPacketForUs(tcpHdr, x.srcPort, x.dstPort) then Skip
          else if !IsPacketSynAck(tcpHdr, x.seqNo) then Decide(CLOSED)
          else Decide(OPEN)
  }

  // ------------------------------------------------- the exchange for one port

  /** The k-th recvfrom of the exchange. */
  function EventAt(events: seq<Event>, k: nat): (e: Event)
    ensures e.Packet? ==> k < |events| && e == events[k]
    ensures k < |events| ==> e == events[k]
  {
    if k < |events| then events[k] else Timeout
  }

  /** How one port's exchange ends: its status or the exception that ended it,
      the number of SYNs sent, the number of recvfrom calls made. */
  datatype Exchange = Exchange(status: Result<PortStatus>, sends: nat, received: nat)

  /** The exchange as a state machine: waiting, with the SYN of attempt
      `attempt` sent, for the reply that recvfrom number k brings. A timeout
      starts the next attempt or, after the last, ends in FILTERED; a skipped
      datagram keeps waiting within the same attempt. */
  function Await(events: seq<Event>, k: nat, attempt: nat, retries: int, x: Expect): Exchange
    requires 1 <= attempt <= retries
    decreases retries - attempt, |events| - k
  {
    match EventAt(events, k)
    case Timeout =>
      if attempt < retries then Await(events, k + 1, attempt + 1, retries, x)
      else Exchange(Ok(FILTERED), attempt, k + 1)
    case Packet(addr, data) =>
      match Classify(addr, data, x)
      case Skip => Await(events, k + 1, attempt, retries, x)
      case Decide(s) => Exchange(Ok(s), attempt, k + 1)
      case Abort(e) => Exchange(Err(e), attempt, k + 1)
  }

  /** The whole exchange: with no attempts allowed, FILTERED without a send. */
  function SynExchange(events: seq<Event>, retries: int, x: Expect): Exchange {
    if retries <= 0 then Exchange(Ok(FILTERED), 0, 0) else Await(events, 0, 1, retries, x)
  }

  /** The number of timeouts among recvfrom calls lo .. hi - 1. */
  function Timeouts(events: seq<Event>, lo: nat, hi: nat): nat
    decreases hi - lo
  {
    if hi <= lo then 0 else (if EventAt(events, lo).Timeout? then 1 else 0) + Timeouts(events, lo + 1, hi)
  }

  // ------------------------------------------------- properties of the exchange

  lemma {:induction false} AwaitSends(events: seq<Event>, k: nat, attempt: nat, retries: int, x: Expect)
    requires 1 <= attempt <= retries
    ensures var e := Await(events, k, attempt, retries, x);
      k < e.received && e.sends == Min(retries, attempt + Timeouts(events, k, e.received))
    decreases retries - attempt, |events| - k
  {
    var e := Await(events, k, attempt, retries, x);
    match EventAt(events, k)
    case Timeout =>
      if attempt < retries {
        AwaitSends(events, k + 1, attempt + 1, retries, x);
      }
    case Packet(addr, data) =>
      if Classify(addr, data, x) == Skip {
        AwaitSends(events, k + 1, attempt, retries, x);
      }
  }

  /** At most `retries` SYNs are sent, none when retries <= 0, and a SYN is
      re-sent only after a timeout: the sends are the first plus one per
      timeout, as long as attempts remain. */
  lemma ExchangeSends(events: seq<Event>, retries: int, x: Expect)
    ensures var e := SynExchange(events, retries, x);
      && (retries <= 0 ==> e == Exchange(Ok(FILTERED), 0, 0))
      && (retries >= 1 ==> 1 <= e.sends <= retries && e.sends == Min(retries, 1 + Timeouts(events, 0, e.received)))
  {
    if retries >= 1 {
      AwaitSends(events, 0, 1, retries, x);
    }
  }

  lemma {:induction false} AwaitSilence(events: seq<Event>, k: nat, attempt: nat, retries: int, x: Expect)
    requires 1 <= attempt <= retries
    requires forall j :: k <= j < |events| ==> events[j].Timeout?
    ensures Await(events, k, attempt, retries, x) == Exchange(Ok(FILTERED), retries, k + retries - attempt + 1)
    decreases retries - attempt
  {
    if attempt < retries {
      AwaitSilence(events, k + 1, attempt + 1, retries, x);
    }
  }

  /** When every attempt times out the port is FILTERED, after `retries` SYNs. */
  lemma SilenceIsFiltered(events: seq<Event>, retries: int, x: Expect)
    requires forall j :: 0 <= j < |events| ==> events[j].Timeout?
    ensures SynExchange(events, retries, x).status == Ok(FILTERED)
    ensures SynExchange(events, retries, x).sends == if retries <= 0 then 0 else retries
  {
    if retries >= 1 {
      AwaitSilence(events, 0, 1, retries, x);
    }
  }

  lemma {:induction false} AwaitShift(ev: Event, events: seq<Event>, k: nat, attempt: nat, retries: int, x: Expect)
    requires 1 <= attempt <= retries
    ensures var e0, e1 := Await(events, k, attempt, retries, x), Await([ev] + events, k + 1, attempt, retries, x);
      e1 == e0.(received := e0.received + 1)
    decreases retries - attempt, |events| - k
  {
    assert EventAt([ev] + events, k + 1) == EventAt(events, k);
    match EventAt(events, k)
    case Timeout =>
      if attempt < retries {
        AwaitShift(ev, events, k + 1, attempt + 1, retries, x);
      }
    case Packet(addr, data) =>
      if Classify(addr, data, x) == Skip {
        AwaitShift(ev, events, k + 1, attempt, retries, x);
      }
  }

  /** A datagram that fails the address or port checks is skipped: it neither
      uses up an attempt nor causes a resend, and only the count of recvfrom
      calls grows. */
  lemma SkippedPacketIsFree(addr: Host, data: seq<Byte>, events: seq<Event>, retries: int, x: Expect)
    requires retries >= 1
    requires Classify(addr, data, x) == Skip
    ensures var e0, e1 := SynExchange(events, retries, x), SynExchange([Packet(addr, data)] + events, retries, x);
      e1 == e0.(received := e0.received + 1)
  {
    AwaitShift(Packet(addr, data), events, 0, 1, retries, x);
  }

  lemma {:induction false} AwaitFirstDecisive(events: seq<Event>, k: nat, n: nat, retries: int, x: Expect, s: PortStatus)
    requires 1 <= retries && k <= n < |events|
    requires forall j :: k <= j < n ==> events[j].Packet? && Classify(events[j].srcAddr, events[j].data, x) == Skip
    requires events[n].Packet? && Classify(events[n].srcAddr, events[n].data, x) == Decide(s)
    ensures Await(events, k, 1, retries, x) == Exchange(Ok(s), 1, n + 1)
    decreases n - k
  {
    if k < n {
      AwaitFirstDecisive(events, k + 1, n, retries, x, s);
    }
  }

  /** The first datagram that is not skipped decides the port, on the first
      attempt. */
  lemma FirstDecisiveReply(events: seq<Event>, n: nat, retries: int, x: Expect, s: PortStatus)
    requires 1 <= retries && n < |events|
    requires forall j :: 0 <= j < n ==> events[j].Packet? && Classify(events[j].srcAddr, events[j].data, x) == Skip
    requires events[n].Packet? && Classify(events[n].srcAddr, events[n].data, x) == Decide(s)
    ensures SynExchange(events, retries, x) == Exchange(Ok(s), 1, n + 1)
  {
    AwaitFirstDecisive(events, 0, n, retries, x, s);
  }

  // ------------------------------------------------- classifying replies

  /** A datagram made of an IP header (not ICMP) and a TCP header. */
  function Segment(ip: IPHeader, tcp: TCPHeader, rest: seq<Byte>): seq<Byte>
    requires IPPackable(ip) && TCPPackable(tcp)
  {
    EncodeIP(ip).value + EncodeTCP(tcp).value + rest
  }

  lemma SegmentDecodes(ip: IPHeader, tcp: TCPHeader, rest: seq<Byte>)
    requires IPWireable(ip) && TCPWireable(tcp) && ip.proto != IpProtoIcmp
    ensures IcmpError(Segment(ip, tcp, rest)) == Ok(ResOk)
    ensures UnpackHeaders(Segment(ip, tcp, rest)) == Ok((ip, tcp))
  {
    var d := Segment(ip, tcp, rest);
    assert d[..IpHdrLen] == EncodeIP(ip).value;
    assert d[TcpHdrBegin..TcpHdrEnd] == EncodeTCP(tcp).value;
    IPRoundTrip(ip);
    TCPRoundTrip(tcp);
  }

  /** A reply on our port pair is OPEN when it is a SYN/ACK acknowledging our
      sequence number and CLOSED otherwise (a RST, or a wrong ack number). */
  lemma TcpReplyClassified(ip: IPHeader, tcp: TCPHeader, rest: seq<Byte>, x: Expect)
    requires IPWireable(ip) && TCPWireable(tcp) && ip.proto != IpProtoIcmp
    requires tcp.srcPort == x.dstPort && tcp.dstPort == x.srcPort
    ensures Classify(x.replyAddr, Segment(ip, tcp, rest), x)
         == if tcp.syn == 1 && tcp.ack == 1 && tcp.ackNum == x.seqNo + 1 then Decide(OPEN) else Decide(CLOSED)
  {
    SegmentDecodes(ip, tcp, rest);
  }

  /** A TCP reply for another port pair is skipped. */
  lemma OtherPortsSkipped(ip: IPHeader, tcp: TCPHeader, rest: seq<Byte>, x: Expect)
    requires IPWireable(ip) && TCPWireable(tcp) && ip.proto != IpProtoIcmp
    requires tcp.srcPort != x.dstPort || tcp.dstPort != x.srcPort
    ensures Classify(x.replyAddr, Segment(ip, tcp, rest), x) == Skip
  {
    SegmentDecodes(ip, tcp, rest);
  }

  /** Classify does not read the low nibble of TCP byte 12 (the reserved
      bits and NS), which from_bytes drops. */
  lemma ClassifyIgnoresReserved(addr: Host, data: seq<Byte>, x: Expect)
    requires |data| >= TcpHdrEnd
    ensures Classify(addr, data, x) == Classify(addr, data[TcpHdrBegin + 12 := data[TcpHdrBegin + 12] / 16 * 16], x)
  {
    var d := data[TcpHdrBegin + 12 := data[TcpHdrBegin + 12] / 16 * 16];
    assert d[..IpHdrLen] == data[..IpHdrLen];
    var t := data[TcpHdrBegin..TcpHdrEnd];
    assert d[TcpHdrBegin..TcpHdrEnd] == t[12 := t[12] / 16 * 16];
    DecodeTCPIgnoresReserved(t);
  }

  /** Every datagram of at least 40 bytes, with the low nibble of TCP byte 12
      cleared, is the Segment of the headers it decodes to. */
  lemma DatagramIsSegment(data: seq<Byte>)
    requires |data| >= TcpHdrEnd
    ensures var ip := DecodeIP(data[..IpHdrLen]).value;
      var tcp := DecodeTCP(data[TcpHdrBegin..TcpHdrEnd]).value;
      && IPWireable(ip) && TCPWireable(tcp) && ip.proto == data[9]
      && Segment(ip, tcp, data[TcpHdrEnd..]) == data[TcpHdrBegin + 12 := data[TcpHdrBegin + 12] / 16 * 16]
  {
    var h, t, rest := data[..IpHdrLen], data[TcpHdrBegin..TcpHdrEnd], data[TcpHdrEnd..];
    IPReencode(h);
    TCPReencode(t);
    SpliceReserved(data, h, t, rest);
  }

  /** Clearing the low nibble of TCP byte 12 in a datagram is clearing it in
      its TCP header. */
  lemma SpliceReserved(data: seq<Byte>, h: seq<Byte>, t: seq<Byte>, rest: seq<Byte>)
    requires |data| >= TcpHdrEnd
    requires h == data[..IpHdrLen] && t == data[TcpHdrBegin..TcpHdrEnd] && rest == data[TcpHdrEnd..]
    ensures data[TcpHdrBegin + 12 := data[TcpHdrBegin + 12] / 16 * 16] == h + t[12 := t[12] / 16 * 16] + rest
  {
    assert data == h + t + rest;
  }

  /** Any non-ICMP datagram of at least 40 bytes on our port pair, whatever its
      reserved bits, is OPEN exactly when its TCP header is a SYN/ACK
      acknowledging our sequence number, and CLOSED otherwise. */
  lemma TcpDatagramClassified(data: seq<Byte>, x: Expect)
    requires |data| >= TcpHdrEnd && data[9] != IpProtoIcmp
    requires var tcp := DecodeTCP(data[TcpHdrBegin..TcpHdrEnd]).value;
      tcp.srcPort == x.dstPort && tcp.dstPort == x.srcPort
    ensures var tcp := DecodeTCP(data[TcpHdrBegin..TcpHdrEnd]).value;
      Classify(x.replyAddr, data, x)
        == if tcp.syn == 1 && tcp.ack == 1 && tcp.ackNum == x.seqNo + 1 then Decide(OPEN) else Decide(CLOSED)
  {
    ClassifyIgnoresReserved(x.replyAddr, data, x);
    DatagramIsSegment(data);
    TcpReplyClassified(DecodeIP(data[..IpHdrLen]).value, DecodeTCP(data[TcpHdrBegin..TcpHdrEnd]).value, data[TcpHdrEnd..], x);
  }

  /** Any non-ICMP datagram of at least 40 bytes for another port pair,
      whatever its reserved bits, is skipped. */
  lemma OtherPortsDatagramSkipped(data: seq<Byte>, x: Expect)
    requires |data| >= TcpHdrEnd && data[9] != IpProtoIcmp
    requires var tcp := DecodeTCP(data[TcpHdrBegin..TcpHdrEnd]).value;
      tcp.srcPort != x.dstPort || tcp.dstPort != x.srcPort
    ensures Classify(x.replyAddr, data, x) == Skip
  {
    ClassifyIgnoresReserved(x.replyAddr, data, x);
    DatagramIsSegment(data);
    OtherPortsSkipped(DecodeIP(data[..IpHdrLen]).value, DecodeTCP(data[TcpHdrBegin..TcpHdrEnd]).value, data[TcpHdrEnd..], x);
  }

  /** ICMP replies: Destination Unreachable with a filtering code is FILTERED;
      any other ICMP message is CLOSED. */
  lemma IcmpReplyClassified(data: seq<Byte>, x: Expect)
    requires |data| >= IpHdrLen + 2 && data[9] == IpProtoIcmp
    ensures Classify(x.replyAddr, data, x)
         == if data[20] == IcmpUnreachable && data[21] as int in IcmpFilteredCodes then Decide(FILTERED) else Decide(CLOSED)
  {
  }

  // ------------------------------------------------- try_send_syn

  /** One step of the state machine on a received datagram. */
  lemma AwaitOnPacket(events: seq<Event>, k: nat, attempt: nat, retries: int, x: Expect)
    requires 1 <= attempt <= retries && EventAt(events, k).Packet?
    ensures var ev := EventAt(events, k);
      Await(events, k, attempt, retries, x) ==
        match Classify(ev.srcAddr, ev.data, x)
        case Skip => Await(events, k + 1, attempt, retries, x)
        case Decide(s) => Exchange(Ok(s), attempt, k + 1)
        case Abort(e) => Exchange(Err(e), attempt, k + 1)
  {
  }

  /** A short datagram from the accepted address ends the exchange with
      struct.error on the attempt under way, after that recvfrom. */
  lemma ShortDatagramEndsExchange(events: seq<Event>, k: nat, attempt: nat, retries: int, x: Expect)
    requires 1 <= attempt <= retries && k < |events|
    requires events[k].Packet? && events[k].srcAddr == x.replyAddr && ShortDatagram(events[k].data)
    ensures Await(events, k, attempt, retries, x) == Exchange(Err(StructError), attempt, k + 1)
  {
    AwaitOnPacket(events, k, attempt, retries, x);
  }

  /** The send/receive loop of try_send_syn: a SYN is sent whenever a new
      attempt starts, then recvfrom is called once per iteration. */
  method SendReceiveLoop(sc: SynScanner, srcPort: int, dstPort: int, events: seq<Event>, seqNo: int)
    returns (status: Result<PortStatus>, sends: nat, received: nat)
    ensures Exchange(status, sends, received) == SynExchange(events, sc.retries, Expect(sc.srcIp, srcPort, dstPort, seqNo))
  {
    ghost var x := Expect(sc.srcIp, srcPort, dstPort, seqNo);
    ghost var spec := SynExchange(events, sc.retries, x);
    var i, oldI := 0, -1;
    sends, received := 0, 0;
    while i < sc.retries
      invariant 0 <= i && -1 <= oldI <= i <= oldI + 1
      invariant sends == oldI + 1
      invariant i < sc.retries ==> spec == Await(events, received, i + 1, sc.retries, x)
      invariant i >= sc.retries ==> spec == Exchange(Ok(FILTERED), sends, received)
      decreases sc.retries - i, |events| - received
    {
      if i != oldI {
        // the SYN goes out (sock.sendto)
        sends := sends + 1;
        oldI := i;
      }
      var ev := EventAt(events, received);
      if ev.Timeout? {
        received := received + 1;
        i := i + 1;
        continue;
      }
      AwaitOnPacket(events, received, i + 1, sc.retries, x);
      ghost var verdict := Classify(ev.srcAddr, ev.data, x);
      received := received + 1;
      if ev.srcAddr != sc.srcIp {
        assert verdict == Skip;
        continue;
      }
      var icmpRes := IcmpError(ev.data);
      if icmpRes.Err? {
        assert verdict == Abort(icmpRes.error);
        return Err(icmpRes.error), sends, received;
      }
      if icmpRes.value == ResFiltered {
        assert verdict == Decide(FILTERED);
        return Ok(FILTERED), sends, received;
      }
      if icmpRes.value == ResError {
        assert verdict == Decide(CLOSED);
        return Ok(CLOSED), sends, received;
      }
      var headers := UnpackHeaders(ev.data);
      if headers.Err? {
        assert verdict == Abort(headers.error);
        return Err(headers.error), sends, received;
      }
      var tcpHdr := headers.value.1;
      if !IsPacketForUs(tcpHdr, srcPort, dstPort) {
        assert verdict == Skip;
        continue;
      }
      if !IsPacketSynAck(tcpHdr, seqNo) {
        assert verdict == Decide(CLOSED);
        return Ok(CLOSED), sends, received;
      }
      assert verdict == Decide(OPEN);
      return Ok(OPEN), sends, received;
    }
    status := Ok(FILTERED);
  }

  /** try_send_syn: set SYN and the sequence number on the factory's TCP
      header, build the packet once, then run the send/receive loop. */
  method TrySendSyn(sc: SynScanner, srcPort: int, dstIpPort: (Host, int), events: seq<Event>, pf: PacketFactory, seqNo: int)
    returns (status: Result<PortStatus>, synPacket: seq<Byte>, sends: nat, received: nat)
    requires 100 <= seqNo <= 1_000_000_000
    modifies pf
    ensures pf.ipHeader == old(pf.ipHeader)
    ensures var syn := old(pf.tcpHeader).(syn := 1, seqNum := seqNo);
      pf.tcpHeader == syn.(check := CheckAfterGenerate(old(pf.ipHeader), syn, []))
    ensures var syn := old(pf.tcpHeader).(syn := 1, seqNum := seqNo);
      match BuildPacket(old(pf.ipHeader), syn, [])
      case Err(e) => status == Err(e) && sends == 0 && received == 0
      case Ok(p) =>
        && synPacket == p
        && Exchange(status, sends, received) == SynExchange(events, sc.retries, Expect(sc.srcIp, srcPort, dstIpPort.1, seqNo))
  {
    pf.tcpHeader := pf.tcpHeader.(syn := 1);
    pf.tcpHeader := pf.tcpHeader.(seqNum := seqNo);
    var outPacket := pf.GeneratePacket([]);
    if outPacket.Err? {
      return Err(outPacket.error), [], 0, 0;
    }
    synPacket := outPacket.value;
    status, sends, received := SendReceiveLoop(sc, srcPort, dstIpPort.1, events, seqNo);
  }

  // ------------------------------------------------- as written: the reply filter

  /** As written, try_send_syn keeps only datagrams whose sender is the
      scanner's own address. Whatever the target host itself sends back, the
      exchange skips it, waits out every attempt and reports FILTERED. */
  lemma ReplyFromTargetIgnored(sc: SynScanner, host: Host, srcPort: int, port: int, seqNo: int, reply: seq<Byte>)
    requires sc.retries >= 1 && host != sc.srcIp
    ensures SynExchange([Packet(host, reply)], sc.retries, Expect(sc.srcIp, srcPort, port, seqNo))
         == Exchange(Ok(FILTERED), sc.retries, sc.retries + 1)
  {
    var events := [Packet(host, reply)];
    AwaitSilence(events, 1, 1, sc.retries, Expect(sc.srcIp, srcPort, port, seqNo));
  }

  /** With the reply filter on the target host instead, the same kind of
      reply, a SYN/ACK for our port pair and sequence number, makes the port
      OPEN on the first attempt after one recvfrom. */
  lemma ReplyFromTargetAccepted(sc: SynScanner, host: Host, srcPort: int, port: int, seqNo: int,
                                ip: IPHeader, tcp: TCPHeader, rest: seq<Byte>)
    requires sc.retries >= 1
    requires IPWireable(ip) && TCPWireable(tcp) && ip.proto != IpProtoIcmp
    requires tcp.srcPort == port && tcp.dstPort == srcPort
    requires tcp.syn == 1 && tcp.ack == 1 && tcp.ackNum == seqNo + 1
    ensures SynExchange([Packet(host, Segment(ip, tcp, rest))], sc.retries, Expect(host, srcPort, port, seqNo))
         == Exchange(Ok(OPEN), 1, 1)
  {
    var x := Expect(host, srcPort, port, seqNo);
    TcpReplyClassified(ip, tcp, rest, x);
    FirstDecisiveReply([Packet(host, Segment(ip, tcp, rest))], 0, sc.retries, x, OPEN);
  }

  /** A scanner built with the default arguments sends two SYNs to a silent
      port, calls recvfrom twice and reports FILTERED. */
  lemma DefaultScannerOnSilence(srcIp: Host, events: seq<Event>, x: Expect)
    requires forall j :: 0 <= j < |events| ==> events[j].Timeout?
    ensures SynExchange(events, SynScanner(srcIp).retries, x) == Exchange(Ok(FILTERED), 2, 2)
  {
    AwaitSilence(events, 0, 1, SynScanner(srcIp).retries, x);
  }

  // ------------------------------------------------- the probe of one port

  /** The TCP header try_send_syn sends: the factory's default with SYN and
      the sequence number set. */
  function SynHeader(srcPort: int, port: int, seqNo: int): TCPHeader {
    NewTCPHeader(srcPort, port).(syn := 1, seqNum := seqNo)
  }

  /** The TCP header scan sends after an OPEN port: SYN and the sequence
      number cleared again, RST set (the check field is recomputed anyway). */
  function RstHeader(srcPort: int, port: int): TCPHeader {
    NewTCPHeader(srcPort, port).(rst := 1)
  }

  /** What scanning one port does: the outcome of try_send_syn, its sends and
      recvfrom calls, and the RST packet sent when the port is OPEN. */
  datatype PortProbe = PortProbe(port: int, status: Result<PortStatus>, sends: nat, received: nat, rst: Option<seq<Byte>>)

  /** The SYN can be built exactly when both ports fit in 16 bits and the
      sequence number in 32: the default IP header always packs. Otherwise
      generate_packet raises struct.error. */
  lemma SynBuildsIff(srcAddr: seq<Byte>, dstAddr: seq<Byte>, srcPort: int, port: int, seqNo: int)
    ensures var r := BuildPacket(NewIPHeader(srcAddr, dstAddr), SynHeader(srcPort, port, seqNo), []);
      && (r.Ok? <==> IsU16(srcPort) && IsU16(port) && IsU32(seqNo))
      && (r.Err? ==> r.error == StructError)
  {
  }

  /** Whenever the SYN can be built, so can the RST. */
  lemma RstBuilds(srcAddr: seq<Byte>, dstAddr: seq<Byte>, srcPort: int, port: int)
    requires IsU16(srcPort) && IsU16(port)
    ensures BuildPacket(NewIPHeader(srcAddr, dstAddr), RstHeader(srcPort, port), []).Ok?
  {
  }

  /** One iteration of scan's loop over the ports, on the events the socket
      delivers from then on: the SYN cannot be built (see SynBuildsIff), or
      the exchange decides, and an OPEN port is sent a RST. */
  function ProbeSpec(sc: SynScanner, srcAddr: seq<Byte>, srcPort: int, dstAddr: seq<Byte>, port: int,
                     events: seq<Event>, seqNo: int): (r: PortProbe)
    ensures r.port == port
    ensures r.rst.Some? <==> r.status == Ok(OPEN)
  {
    if !(IsU16(srcPort) && IsU16(port) && IsU32(seqNo)) then PortProbe(port, Err(StructError), 0, 0, None)
    else
      var ex := SynExchange(events, sc.retries, Expect(sc.srcIp, srcPort, port, seqNo));
      if ex.status != Ok(OPEN) then PortProbe(port, ex.status, ex.sends, ex.received, None)
      else
        RstBuilds(srcAddr, dstAddr, srcPort, port);
        var rst := BuildPacket(NewIPHeader(srcAddr, dstAddr), RstHeader(srcPort, port), []).value;
        PortProbe(port, ex.status, ex.sends, ex.received, Some(rst))
  }

  /** With 4-byte addresses and 16-bit ports, the SYN is always built, and read
      back it is a SYN (no ACK, no RST) carrying the sequence number, from our
      port to the target port. */
  lemma SynPacketShape(srcAddr: seq<Byte>, srcPort: int, dstAddr: seq<Byte>, port: int, seqNo: int)
    requires |srcAddr| == 4 && |dstAddr| == 4 && IsU16(srcPort) && IsU16(port)
    requires 100 <= seqNo <= 1_000_000_000
    ensures var ip := NewIPHeader(srcAddr, dstAddr);
      && BuildPacket(ip, SynHeader(srcPort, port, seqNo), []).Ok?
      && match UnpackHeaders(BuildPacket(ip, SynHeader(srcPort, port, seqNo), []).value)
         case Err(_) => false
         case Ok((ipHdr, tcpHdr)) =>
           ipHdr == ip && tcpHdr.syn == 1 && tcpHdr.ack == 0 && tcpHdr.rst == 0 && tcpHdr.seqNum == seqNo
           && tcpHdr.srcPort == srcPort && tcpHdr.dstPort == port
  {
    PacketDecodes(NewIPHeader(srcAddr, dstAddr), SynHeader(srcPort, port, seqNo), []);
  }

  /** Read back, the RST of an OPEN port is a bare RST with sequence number 0
      for the same port pair. */
  lemma RstPacketShape(sc: SynScanner, srcAddr: seq<Byte>, srcPort: int, dstAddr: seq<Byte>, port: int,
                       events: seq<Event>, seqNo: int)
    requires |srcAddr| == 4 && |dstAddr| == 4
    requires ProbeSpec(sc, srcAddr, srcPort, dstAddr, port, events, seqNo).rst.Some?
    ensures match UnpackHeaders(ProbeSpec(sc, srcAddr, srcPort, dstAddr, port, events, seqNo).rst.value)
      case Err(_) => false
      case Ok((ipHdr, tcpHdr)) =>
        ipHdr == NewIPHeader(srcAddr, dstAddr) && tcpHdr.rst == 1 && tcpHdr.syn == 0 && tcpHdr.ack == 0
        && tcpHdr.seqNum == 0 && tcpHdr.srcPort == srcPort && tcpHdr.dstPort == port
  {
    PacketDecodes(NewIPHeader(srcAddr, dstAddr), RstHeader(srcPort, port), []);
  }

  // ------------------------------------------------- scan

  /** The number of recvfrom calls the probes made, in order. */
  function Consumed(probes: seq<PortProbe>): nat {
    if probes == [] then 0 else Consumed(probes[..|probes| - 1]) + probes[|probes| - 1].received
  }

  /** The events the shared socket delivers after the first n. */
  function Drop(events: seq<Event>, n: nat): seq<Event> {
    if n <= |events| then events[n..] else []
  }

  /** port_status after the probes: each port's latest status. */
  function StatusMap(probes: seq<PortProbe>): map<int, PortStatus>
    requires forall k :: 0 <= k < |probes| ==> probes[k].status.Ok?
  {
    if probes == [] then map[]
    else StatusMap(probes[..|probes| - 1])[probes[|probes| - 1].port := probes[|probes| - 1].status.value]
  }

  /** port_status maps exactly the probed ports. */
  lemma {:induction false} StatusMapKeys(probes: seq<PortProbe>)
    requires forall k :: 0 <= k < |probes| ==> probes[k].status.Ok?
    ensures StatusMap(probes).Keys == set k | 0 <= k < |probes| :: probes[k].port
  {
    if probes != [] {
      var init := probes[..|probes| - 1];
      StatusMapKeys(init);
      assert forall k :: 0 <= k < |init| ==> init[k] == probes[k];
      assert (set k | 0 <= k < |probes| :: probes[k].port)
          == (set k | 0 <= k < |init| :: init[k].port) + {probes[|probes| - 1].port};
    }
  }

  /** Each port maps to the status of the last probe of that port (a port
      listed twice is scanned twice). */
  lemma {:induction false} StatusMapLatest(probes: seq<PortProbe>, k: nat)
    requires forall k :: 0 <= k < |probes| ==> probes[k].status.Ok?
    requires k < |probes| && forall l :: k < l < |probes| ==> probes[l].port != probes[k].port
    ensures probes[k].port in StatusMap(probes)
    ensures StatusMap(probes)[probes[k].port] == probes[k].status.value
  {
    var init := probes[..|probes| - 1];
    if k < |init| {
      assert forall l :: k < l < |init| ==> init[l] == probes[l];
      StatusMapLatest(init, k);
      assert probes[|probes| - 1].port != probes[k].port;
    }
  }

  lemma StatusMapAppend(probes: seq<PortProbe>, p: PortProbe)
    requires forall k :: 0 <= k < |probes| ==> probes[k].status.Ok?
    requires p.status.Ok?
    ensures StatusMap(probes + [p]) == StatusMap(probes)[p.port := p.status.value]
  {
    assert (probes + [p])[..|probes|] == probes;
  }

  /** A probe sequence that has stopped: its last probe raised. */
  predicate Stopped(probes: seq<PortProbe>) {
    probes != [] && probes[|probes| - 1].status.Err?
  }

  /** The probes scan makes for the first n ports: each exchange reads the
      shared socket from where the previous ones stopped, and no port after
      one whose probe raised is probed. */
  function Probes(sc: SynScanner, srcAddr: seq<Byte>, srcPort: int, dstAddr: seq<Byte>,
                  ports: seq<int>, events: seq<Event>, seqs: seq<int>, n: nat): (r: seq<PortProbe>)
    requires |seqs| == |ports| && n <= |ports|
    ensures |r| <= n
    ensures !Stopped(r) ==> |r| == n
    decreases n
  {
    if n == 0 then []
    else
      var prev := Probes(sc, srcAddr, srcPort, dstAddr, ports, events, seqs, n - 1);
      if Stopped(prev) then prev
      else prev + [ProbeSpec(sc, srcAddr, srcPort, dstAddr, ports[n - 1], Drop(events, Consumed(prev)), seqs[n - 1])]
  }

  /** Once a probe has raised, later ports add nothing. */
  lemma {:induction false} ProbesStop(sc: SynScanner, srcAddr: seq<Byte>, srcPort: int, dstAddr: seq<Byte>,
                                      ports: seq<int>, events: seq<Event>, seqs: seq<int>, n: nat, m: nat)
    requires |seqs| == |ports| && n <= m <= |ports|
    requires Stopped(Probes(sc, srcAddr, srcPort, dstAddr, ports, events, seqs, n))
    ensures Probes(sc, srcAddr, srcPort, dstAddr, ports, events, seqs, m)
         == Probes(sc, srcAddr, srcPort, dstAddr, ports, events, seqs, n)
    decreases m - n
  {
    if n < m {
      ProbesStop(sc, srcAddr, srcPort, dstAddr, ports, events, seqs, n, m - 1);
    }
  }

  /** Scan's probes go through the ports in order, all but the last succeed,
      and the k-th port's exchange reads the socket from the first event the
      earlier exchanges left unread. */
  lemma {:induction false} ProbesInOrder(sc: SynScanner, srcAddr: seq<Byte>, srcPort: int, dstAddr: seq<Byte>,
                                         ports: seq<int>, events: seq<Event>, seqs: seq<int>, n: nat, r: seq<PortProbe>)
    requires |seqs| == |ports| && n <= |ports|
    requires r == Probes(sc, srcAddr, srcPort, dstAddr, ports, events, seqs, n)
    ensures forall k :: 0 <= k < |r| - 1 ==> r[k].status.Ok?
    ensures forall k {:trigger seqs[k]} :: 0 <= k < |r| ==>
      r[k] == ProbeSpec(sc, srcAddr, srcPort, dstAddr, ports[k], Drop(events, Consumed(r[..k])), seqs[k])
    decreases n
  {
    if n > 0 {
      var prev := Probes(sc, srcAddr, srcPort, dstAddr, ports, events, seqs, n - 1);
      ProbesInOrder(sc, srcAddr, srcPort, dstAddr, ports, events, seqs, n - 1, prev);
      if !Stopped(prev) {
        var p := ProbeSpec(sc, srcAddr, srcPort, dstAddr, ports[n - 1], Drop(events, Consumed(prev)), seqs[n - 1]);
        assert r == prev + [p];
        assert |prev| == n - 1;
        assert r[..|prev|] == prev;
        forall k {:trigger seqs[k]} | 0 <= k < |r|
          ensures r[k] == ProbeSpec(sc, srcAddr, srcPort, dstAddr, ports[k], Drop(events, Consumed(r[..k])), seqs[k])
        {
          if k < |prev| {
            assert r[..k] == prev[..k] && r[k] == prev[k];
          } else {
            assert k == n - 1 && r[..k] == prev && r[k] == p;
          }
        }
        forall k | 0 <= k < |r| - 1 ensures r[k].status.Ok? {
          assert r[k] == prev[k];
        }
      }
    }
  }

  /** One more port probed, when none has raised yet. */
  lemma ProbesExtend(sc: SynScanner, srcAddr: seq<Byte>, srcPort: int, dstAddr: seq<Byte>,
                     ports: seq<int>, events: seq<Event>, seqs: seq<int>, j: nat, probes: seq<PortProbe>, probe: PortProbe)
    requires |seqs| == |ports| && j < |ports|
    requires probes == Probes(sc, srcAddr, srcPort, dstAddr, ports, events, seqs, j)
    requires forall k :: 0 <= k < |probes| ==> probes[k].status.Ok?
    requires probe == ProbeSpec(sc, srcAddr, srcPort, dstAddr, ports[j], Drop(events, Consumed(probes)), seqs[j])
    ensures Probes(sc, srcAddr, srcPort, dstAddr, ports, events, seqs, j + 1) == probes + [probe]
    ensures Consumed(probes + [probe]) == Consumed(probes) + probe.received
    ensures probe.status.Err? ==> Probes(sc, srcAddr, srcPort, dstAddr, ports, events, seqs, |ports|) == probes + [probe]
  {
    assert !Stopped(probes);
    assert (probes + [probe])[..|probes|] == probes;
    if probe.status.Err? {
      ProbesStop(sc, srcAddr, srcPort, dstAddr, ports, events, seqs, j + 1, |ports|);
    }
  }

  /** One iteration of SYNScanner.scan's loop: a fresh packet factory for
      the port, try_send_syn, then, for an OPEN port, SYN and the sequence
      number cleared, RST set and the packet generated again. */
  method ProbePort(sc: SynScanner, host: Host, srcAddr: seq<Byte>, dstAddr: seq<Byte>, srcPort: int, port: int,
                   events: seq<Event>, seqNo: int)
    returns (probe: PortProbe)
    requires 100 <= seqNo <= 1_000_000_000
    ensures probe == ProbeSpec(sc, srcAddr, srcPort, dstAddr, port, events, seqNo)
  {
    var pf := new PacketFactory(srcAddr, srcPort, dstAddr, port);
    var status, synPacket, sends, received := TrySendSyn(sc, srcPort, (host, port), events, pf, seqNo);
    SynBuildsIff(srcAddr, dstAddr, srcPort, port, seqNo);
    ghost var c := pf.tcpHeader.check;
    pf.tcpHeader := pf.tcpHeader.(syn := 0);
    pf.tcpHeader := pf.tcpHeader.(seqNum := 0);
    if status.Err? || status.value != OPEN {
      return PortProbe(port, status, sends, received, None);
    }
    pf.tcpHeader := pf.tcpHeader.(rst := 1);
    var rstPacket := SendRst(pf, srcAddr, dstAddr, srcPort, port, c);
    probe := PortProbe(port, status, sends, received, Some(rstPacket));
  }

  /** The RST that follows an OPEN verdict, on a factory whose TCP header is
      the default one with rst set and the SYN's checksum still in place. */
  method SendRst(pf: PacketFactory, srcAddr: seq<Byte>, dstAddr: seq<Byte>, srcPort: int, port: int, ghost c: int)
    returns (rstPacket: seq<Byte>)
    requires IsU16(srcPort) && IsU16(port)
    requires pf.ipHeader == NewIPHeader(srcAddr, dstAddr)
    requires pf.tcpHeader == RstHeader(srcPort, port).(check := c)
    modifies pf
    ensures rstPacket == BuildPacket(NewIPHeader(srcAddr, dstAddr), RstHeader(srcPort, port), []).value
    ensures pf.ipHeader == old(pf.ipHeader)
    ensures pf.tcpHeader
         == RstHeader(srcPort, port).(check := CheckAfterGenerate(NewIPHeader(srcAddr, dstAddr), RstHeader(srcPort, port), []))
  {
    GenerateIsRepeatable(pf.ipHeader, RstHeader(srcPort, port), [], c);
    RstBuilds(srcAddr, dstAddr, srcPort, port);
    var r := pf.GeneratePacket([]);
    // the RST goes out (sock.sendto)
    rstPacket := r.value;
  }

  /** The next port of scan's loop, probed on the events the earlier ports
      left unread: the probe sequence grows by exactly Probes' next entry. */
  method ScanStep(sc: SynScanner, host: Host, ports: seq<int>, srcAddr: seq<Byte>, dstAddr: seq<Byte>, srcPort: int,
                  events: seq<Event>, seqs: seq<int>, probes: seq<PortProbe>, used: nat)
    returns (probe: PortProbe)
    requires |seqs| == |ports| && |probes| < |ports|
    requires forall k :: 0 <= k < |seqs| ==> 100 <= seqs[k] <= 1_000_000_000
    requires probes == Probes(sc, srcAddr, srcPort, dstAddr, ports, events, seqs, |probes|)
    requires forall k :: 0 <= k < |probes| ==> probes[k].status.Ok?
    requires used == Consumed(probes)
    ensures probe.port == ports[|probes|]
    ensures Probes(sc, srcAddr, srcPort, dstAddr, ports, events, seqs, |probes| + 1) == probes + [probe]
    ensures Consumed(probes + [probe]) == used + probe.received
    ensures probe.status.Err? ==> Probes(sc, srcAddr, srcPort, dstAddr, ports, events, seqs, |ports|) == probes + [probe]
  {
    var j := |probes|;
    probe := ProbePort(sc, host, srcAddr, dstAddr, srcPort, ports[j], Drop(events, used), seqs[j]);
    ProbesExtend(sc, srcAddr, srcPort, dstAddr, ports, events, seqs, j, probes, probe);
  }

  /** Recording one more successful probe in port_status keeps the map equal
      to StatusMap and its keys equal to the ports probed so far. */
  lemma ScanRecords(ports: seq<int>, n: nat, probes: seq<PortProbe>, probe: PortProbe, portStatus: map<int, PortStatus>)
    requires n == |probes| + 1 && n <= |ports| && probe.port == ports[|probes|]
    requires forall k :: 0 <= k < |probes| ==> probes[k].status.Ok?
    requires probe.status.Ok?
    requires portStatus == StatusMap(probes) && portStatus.Keys == set p | p in ports[..|probes|]
    ensures forall k :: 0 <= k < |probes + [probe]| ==> (probes + [probe])[k].status.Ok?
    ensures portStatus[probe.port := probe.status.value] == StatusMap(probes + [probe])
    ensures portStatus[probe.port := probe.status.value].Keys == set p | p in ports[..n]
  {
    StatusMapAppend(probes, probe);
    var before, after := ports[..|probes|], ports[..n];
    assert after == before + [probe.port];
    assert forall p :: p in after <==> p in before || p == probe.port;
    assert (set p | p in after) == (set p | p in before) + {probe.port};
  }

  /** SYNScanner.scan: probe the ports in order. The socket is shared, so
      each port's exchange starts where the previous one stopped reading; an
      exception in any port ends the scan. */
  method Scan(sc: SynScanner, host: Host, ports: seq<int>, srcAddr: seq<Byte>, dstAddr: seq<Byte>, srcPort: int,
              events: seq<Event>, seqs: seq<int>)
    returns (res: Result<ScanResult>, probes: seq<PortProbe>)
    requires |seqs| == |ports|
    requires forall k :: 0 <= k < |seqs| ==> 100 <= seqs[k] <= 1_000_000_000
    ensures probes == Probes(sc, srcAddr, srcPort, dstAddr, ports, events, seqs, |ports|)
    ensures res.Ok? <==> forall k :: 0 <= k < |probes| ==> probes[k].status.Ok?
    ensures res.Err? ==> Stopped(probes) && probes[|probes| - 1].status == Err(res.error)
    ensures res.Ok? ==> res.value == ScanResult(StatusMap(probes), host, None)
    ensures res.Ok? ==> res.value.portStatus.Keys == set p | p in ports
  {
    probes := [];
    var portStatus: map<int, PortStatus> := map[];
    var used: nat := 0;
    var j := 0;
    while j < |ports|
      invariant 0 <= j <= |ports| && |probes| == j
      invariant probes == Probes(sc, srcAddr, srcPort, dstAddr, ports, events, seqs, j)
      invariant used == Consumed(probes)
      invariant forall k :: 0 <= k < j ==> probes[k].status.Ok?
      invariant portStatus == StatusMap(probes)
      invariant portStatus.Keys == set p | p in ports[..j]
    {
      var probe := ScanStep(sc, host, ports, srcAddr, dstAddr, srcPort, events, seqs, probes, used);
      if probe.status.Err? {
        probes := probes + [probe];
        return Err(probe.status.error), probes;
      }
      ScanRecords(ports, j + 1, probes, probe, portStatus);
      portStatus := portStatus[ports[j] := probe.status.value];
      probes := probes + [probe];
      used := used + probe.received;
      j := j + 1;
    }
    assert ports[..|ports|] == ports;
    res := Ok(ScanResult(portStatus, host, None));
  }
}
