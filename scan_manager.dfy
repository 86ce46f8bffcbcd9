/** src/core/scan_manager.py: the scan manager's configuration. Hosts and
    ports are registered on a mutable object, the port setters validate
    before they assign, and scan_all picks a path from the thread count. */
module ScanManager {
  import opened Wrappers
  import opened Results
  import opened Ints

  /** The port test of both setters: 1..65535. */
  predicate ValidPort(p: int) {
    0 < p < 65536
  }

  /** set_target_port_range, as intended: both bounds are checked, swapped
      when given in reverse, and the ports between them, both included,
      become the targets in ascending order. */
  function PortRangeTargets(lo: int, hi: int): (r: Result<seq<int>>)
    ensures r.Err? <==> !ValidPort(lo) || !ValidPort(hi)
    ensures r.Err? ==> r.error == ValueError
    ensures r.Ok? ==> |r.value| == Max(lo, hi) - Min(lo, hi) + 1
    ensures r.Ok? ==> forall p :: p in r.value <==> Min(lo, hi) <= p <= Max(lo, hi)
    ensures r.Ok? ==> forall i, j :: 0 <= i < j < |r.value| ==> r.value[i] < r.value[j]
    ensures r.Ok? ==> forall i :: 0 <= i < |r.value| ==> ValidPort(r.value[i])
  {
    if !ValidPort(lo) || !ValidPort(hi) then Err(ValueError)
    else
      var first := Min(lo, hi);
      var ports := seq(Max(lo, hi) - first + 1, i => first + i);
      assert forall p :: first <= p <= first + |ports| - 1 ==> p in ports by {
        forall p | first <= p <= first + |ports| - 1 ensures p in ports {
          assert ports[p - first] == p;
        }
      }
      Ok(ports)
  }

  /** The order in which the bounds are given does not matter. */
  lemma PortRangeSymmetric(lo: int, hi: int)
    ensures PortRangeTargets(lo, hi) == PortRangeTargets(hi, lo)
  {
  }

  /** set_target_port_range as written: after the checks and the swap it
      evaluates [] + range(...), which adds a list to a range object and so
      raises TypeError; no range of ports is ever stored. */
  function PortRangeAsWritten(lo: int, hi: int): (r: Result<seq<int>>)
    ensures r.Err?
  {
    if !ValidPort(lo) || !ValidPort(hi) then Err(ValueError)
    else Err(TypeError)
  }

  /** Exactly where the intended setter succeeds, the written one raises
      TypeError; where the bounds are bad both raise ValueError. */
  lemma PortRangeAsWrittenDiffers(lo: int, hi: int)
    ensures PortRangeTargets(lo, hi).Ok? <==> PortRangeAsWritten(lo, hi) == Err(TypeError)
    ensures PortRangeTargets(lo, hi).Err? ==> PortRangeAsWritten(lo, hi) == PortRangeTargets(lo, hi)
  {
  }

  /** The range 3..1 is given in reverse and is valid: as intended it
      yields [1, 2, 3], as written it raises TypeError. */
  lemma PortRangeCounterexample()
    ensures PortRangeTargets(3, 1) == Ok([1, 2, 3])
    ensures PortRangeAsWritten(3, 1) == Err(TypeError)
  {
    var r := PortRangeTargets(3, 1).value;
    assert |r| == 3 && r[0] == 1 && r[1] == 2 && r[2] == 3;
    assert r == [1, 2, 3];
  }

  /** scan_all's choice of path. */
  datatype Dispatch = SingleThreaded | MultiThreaded | NoScan

  class ScanManager {
    var results: seq<ScanResult>
    /** scan_time, a timedelta, as a count of its smallest unit. */
    var scanTime: int
    var targetHosts: seq<Host>
    var targetPorts: seq<int>
    var scanType: ScanType
    var ping: bool
    var threads: int

    /** Every registered target port is one the setters accept. */
    predicate PortsValid()
      reads this
    {
      forall i :: 0 <= i < |targetPorts| ==> ValidPort(targetPorts[i])
    }

    /** ScanManager(scan_type, do_ping, threads): no results, no scan time,
        no targets yet. */
    constructor (scanType: ScanType := TCP, doPing: bool := true, threads: int := 1)
      ensures results == [] && scanTime == 0
      ensures targetHosts == [] && targetPorts == []
      ensures this.scanType == scanType && ping == doPing && this.threads == threads
      ensures PortsValid()
    {
      results := [];
      scanTime := 0;
      targetHosts := [];
      targetPorts := [];
      this.scanType := scanType;
      ping := doPing;
      this.threads := threads;
    }

    /** add_target_host: one host appended at the end. */
    method AddTargetHost(host: Host)
      modifies this
      ensures targetHosts == old(targetHosts) + [host]
      ensures |targetHosts| == |old(targetHosts)| + 1 && targetHosts[..|old(targetHosts)|] == old(targetHosts)
      ensures targetPorts == old(targetPorts) && results == old(results) && scanTime == old(scanTime)
      ensures scanType == old(scanType) && ping == old(ping) && threads == old(threads)
    {
      targetHosts := targetHosts + [host];
      assert targetHosts[..|old(targetHosts)|] == old(targetHosts);
    }

    /** set_target_ports: ValueError when any port is outside 1..65535,
        with nothing changed; otherwise the list is stored as given, order
        and repeats included. */
    method SetTargetPorts(ports: seq<int>) returns (r: Result<()>)
      modifies this
      ensures r.Err? <==> exists i :: 0 <= i < |ports| && !ValidPort(ports[i])
      ensures r.Err? ==> r.error == ValueError && targetPorts == old(targetPorts)
      ensures r.Ok? ==> targetPorts == ports && PortsValid()
      ensures targetHosts == old(targetHosts) && results == old(results) && scanTime == old(scanTime)
      ensures scanType == old(scanType) && ping == old(ping) && threads == old(threads)
    {
      for i := 0 to |ports|
        invariant forall k :: 0 <= k < i ==> ValidPort(ports[k])
      {
        if ValidPort(ports[i]) {
          continue;
        }
        return Err(ValueError);
      }
      targetPorts := ports;
      r := Ok(());
    }

    /** set_target_port_range, with the evidently intended list in place of
        line 53's TypeError (see PortRangeAsWritten). */
    method SetTargetPortRange(lowerBound: int, upperBound: int) returns (r: Result<()>)
      modifies this
      ensures match PortRangeTargets(lowerBound, upperBound)
        case Err(e) => r == Err(e) && targetPorts == old(targetPorts)
        case Ok(ports) => r == Ok(()) && targetPorts == ports
      ensures PortsValid() <== old(PortsValid()) || r.Ok?
      ensures targetHosts == old(targetHosts) && results == old(results) && scanTime == old(scanTime)
      ensures scanType == old(scanType) && ping == old(ping) && threads == old(threads)
    {
      var lo, hi := lowerBound, upperBound;
      if lo < 1 || lo > 65535 || hi < 1 || hi > 65535 {
        return Err(ValueError);
      }
      if lo > hi {
        lo, hi := hi, lo;
      }
      targetPorts := seq(hi - lo + 1, i => lo + i);
      r := Ok(());
    }

    /** scan_all: the single-threaded path exactly when threads is 1, the
        asynchronous one exactly when it is larger, and nothing at all when
        it is 0 or negative. */
    method ScanAll() returns (d: Dispatch)
      ensures d == SingleThreaded <==> threads == 1
      ensures d == MultiThreaded <==> threads > 1
      ensures d == NoScan <==> threads <= 0
    {
      if threads == 1 {
        d := SingleThreaded;
      } else if threads > 1 {
        d := MultiThreaded;
      } else {
        d := NoScan;
      }
    }
  }
}
