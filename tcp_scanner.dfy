/** src/core/scanners/tcp_scanner.py: the connect scanner. It opens no
    connection and fills the port map with CLOSED for every listed port. As
    written, its final ScanResult call raises TypeError (see
    Results.TwoArgumentResultFails); the model returns the result with no
    ping status. */
module TcpScanner {
  import opened Wrappers
  import opened Results

  /** TCPScanner.scan: one CLOSED entry per distinct port of the list. */
  method Scan(host: Host, ports: seq<int>) returns (res: ScanResult)
    ensures res.portStatus.Keys == set p | p in ports
    ensures forall p :: p in res.portStatus ==> res.portStatus[p] == CLOSED
    ensures ports == [] ==> res.portStatus == map[]
    ensures res.host == host && res.pingStatus == None
  {
    var portStatus: map<int, PortStatus> := map[];
    for j := 0 to |ports|
      invariant portStatus.Keys == set p | p in ports[..j]
      invariant forall p :: p in portStatus ==> portStatus[p] == CLOSED
    {
      assert ports[..j + 1] == ports[..j] + [ports[j]];
      portStatus := portStatus[ports[j] := CLOSED];
    }
    assert ports[..|ports|] == ports;
    res := ScanResult(portStatus, host, None);
  }
}
