/** src/core/scanners/headers.py: an encode-only copy of the header classes.
    Its dataclasses have the same fields as those of the core codec, so the
    core datatypes stand for them; its two get_header methods are modelled
    again here, from their own text, and shown to pack the same bytes. */
module ScannerHeaders {
  import opened Bytes
  import opened Wrappers
  import Headers

  /** IPHeader(src_addr, dst_addr) with this copy's defaults. */
  function NewIPHeader(srcAddr: seq<Byte>, dstAddr: seq<Byte>): (h: Headers.IPHeader)
    ensures h == Headers.NewIPHeader(srcAddr, dstAddr)
  {
    Headers.IPHeader(srcAddr, dstAddr, ihl := 5, version := 4, dscpEcn := 0, totLen := 0, id := 0,
                     fragOff := 0, ttl := 255, proto := Headers.IpProtoTcp, check := 0)
  }

  /** TCPHeader(src_port, dst_port) with this copy's defaults. */
  function NewTCPHeader(srcPort: int, dstPort: int): (h: Headers.TCPHeader)
    ensures h == Headers.NewTCPHeader(srcPort, dstPort)
  {
    Headers.TCPHeader(srcPort, dstPort, seqNum := 0, ackNum := 0, dataOff := 5,
                      fin := 0, syn := 0, rst := 0, psh := 0, ack := 0, urg := 0, ece := 0, cwr := 0,
                      window := Headers.HostOrderWindow, check := 0, urgPtr := 0)
  }

  /** IPHeader.get_header of the copy: the same "!BBHHHBBH4s4s" layout. */
  function EncodeIP(h: Headers.IPHeader): (r: Result<seq<Byte>>)
    ensures r == Headers.EncodeIP(h)
  {
    var ihlVer := h.version * 16 + h.ihl;
    if IsByte(ihlVer) && IsByte(h.dscpEcn) && IsU16(h.totLen) && IsU16(h.id) && IsU16(h.fragOff)
       && IsByte(h.ttl) && IsByte(h.proto) && IsU16(h.check)
    then
      Ok([ihlVer, h.dscpEcn] + BE16(h.totLen) + BE16(h.id) + BE16(h.fragOff)
         + [h.ttl, h.proto] + BE16(h.check) + Fixed4(h.srcAddr) + Fixed4(h.dstAddr))
    else
      Err(StructError)
  }

  /** TCPHeader.get_header of the copy: the same "!HHLLBBHHH" layout. */
  function EncodeTCP(h: Headers.TCPHeader): (r: Result<seq<Byte>>)
    ensures r == Headers.EncodeTCP(h)
  {
    var offsetRes := h.dataOff * 16;
    var tcpFlags := h.fin + h.syn * 2 + h.rst * 4 + h.psh * 8 + h.ack * 16 + h.urg * 32 + h.ece * 64 + h.cwr * 128;
    if IsU16(h.srcPort) && IsU16(h.dstPort) && IsU32(h.seqNum) && IsU32(h.ackNum)
       && IsByte(offsetRes) && IsByte(tcpFlags) && IsU16(h.window) && IsU16(h.check) && IsU16(h.urgPtr)
    then
      Ok(BE16(h.srcPort) + BE16(h.dstPort) + BE32(h.seqNum) + BE32(h.ackNum)
         + [offsetRes, tcpFlags] + BE16(h.window) + BE16(h.check) + BE16(h.urgPtr))
    else
      Err(StructError)
  }
}
