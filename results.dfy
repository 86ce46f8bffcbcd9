/** The result types of src/core/results.py, and the scan strategies of
    src/core/scanners/scanner.py. */
module Results {
  import opened Wrappers

  /** A target host, in the textual form the scanners compare and store. */
  type Host = string

  /** PortStatus: OPEN = 1, CLOSED = 2, FILTERED = 4. */
  datatype PortStatus = OPEN | CLOSED | FILTERED

  datatype PingStatus = PingStatus(delayMs: int, success: bool)

  /** ScanResult(port_status, host, ping_status), with the ping status
      optional: both scanners build a result before any ping, without one. */
  datatype ScanResult = ScanResult(portStatus: map<int, PortStatus>, host: Host, pingStatus: Option<PingStatus>)

  /** A call of the ScanResult dataclass as declared, where `None` stands for
      leaving the ping_status argument out (not for passing Python's None,
      which the dataclass accepts): ping_status has no default, so such a
      call raises TypeError. */
  function NewScanResultAsWritten(portStatus: map<int, PortStatus>, host: Host, pingStatus: Option<PingStatus>)
    : (r: Result<ScanResult>)
    ensures r.Ok? <==> pingStatus.Some?
    ensures r.Err? ==> r.error == TypeError
    ensures r.Ok? ==> r.value.portStatus == portStatus && r.value.host == host && r.value.pingStatus == pingStatus
  {
    match pingStatus
    case None => Err(TypeError)
    case Some(_) => Ok(ScanResult(portStatus, host, pingStatus))
  }

  /** ScanResult(port_status, host), the call both scanners make, raises
      TypeError whatever the ports' statuses: as written no scan returns. */
  lemma TwoArgumentResultFails(portStatus: map<int, PortStatus>, host: Host)
    ensures NewScanResultAsWritten(portStatus, host, None) == Err(TypeError)
  {
  }

  /** ScanType, defined in src/core/scanners/scanner.py. */
  datatype ScanType = TCP | SYN
}
