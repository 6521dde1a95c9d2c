/** network_scan.py: the same /24 sweep as the other two scripts, written as
    a single loop, with SSDP and mDNS probed through
    `subprocess.check_output` (a non-zero exit status counts as absent). */
module NetworkScan {
  import opened Text
  import opened Probes
  import opened ScanEngine

  /** The record network_scan.py builds for a live host. */
  function CliRecord(net: Network, ip: string): HostRecord {
    HostRecord(ip, SsdpByCheckOutput(net.ssdp(ip)), MdnsByCheckOutput(net.mdns(ip)), AdbAvailable(net.adb(ip)))
  }

  /** The result of `quick_scan_results` in network_scan.py. */
  function Scan(localIp: string, net: Network): seq<HostRecord> {
    Report(Candidates(localIp), Alive(net), ip => CliRecord(net, ip))
  }

  /** `quick_scan_results`: one pass over `zip(ips, alive)` that appends a
      record for each live address. */
  method QuickScanResults(localIp: string, net: Network) returns (results: seq<HostRecord>)
    ensures results == Scan(localIp, net)
  {
    results := SweepOnce(Candidates(localIp), net);
  }

  /** The loop of `quick_scan_results` over the candidate list. */
  method SweepOnce(ips: seq<string>, net: Network) returns (results: seq<HostRecord>)
    ensures results == Report(ips, Alive(net), ip => CliRecord(net, ip))
  {
    var alive := seq(|ips|, k requires 0 <= k < |ips| => PingAlive(net.ping(ips[k])));
    results := [];
    var i := 0;
    while i < |ips|
      invariant 0 <= i <= |ips|
      invariant results == Report(ips[..i], Alive(net), ip => CliRecord(net, ip))
    {
      assert ips[..i + 1][..i] == ips[..i];
      if alive[i] {
        var ip := ips[i];
        results := results + [HostRecord(ip, SsdpByCheckOutput(net.ssdp(ip)),
                                         MdnsByCheckOutput(net.mdns(ip)), AdbAvailable(net.adb(ip)))];
      }
      i := i + 1;
    }
    assert ips[..i] == ips;
  }

  /** `deep_scan_results`: exactly what the quick scan returns. */
  method DeepScanResults(localIp: string, net: Network) returns (results: seq<HostRecord>)
    ensures results == Scan(localIp, net)
  {
    results := QuickScanResults(localIp, net);
  }

  /** A record exists exactly for the live candidates, in ascending address
      order, with the probe verdicts of that host. */
  lemma ScanExactlyLive(localIp: string, net: Network)
    ensures forall r :: r in Scan(localIp, net) ==>
      r.ip in Candidates(localIp) && PingAlive(net.ping(r.ip)) && r == CliRecord(net, r.ip)
    ensures forall ip :: ip in Candidates(localIp) && PingAlive(net.ping(ip)) ==>
      CliRecord(net, ip) in Scan(localIp, net)
    ensures Subsequence(Filter(Candidates(localIp), Alive(net)), Candidates(localIp))
    ensures |Scan(localIp, net)| <= 254
  {
    CandidatesDistinct(localIp);
    ReportExactlyLive(Candidates(localIp), Alive(net), ip => CliRecord(net, ip));
  }

  /** Against the same network, network_scan.py and cec_control.py list the
      same hosts in the same order with the same ADB verdicts, and a host
      network_scan.py reports with SSDP or mDNS is reported so by
      cec_control.py too. */
  lemma ScriptsAgree(localIp: string, net: Network)
    ensures |Scan(localIp, net)| == |QuickScan(localIp, net)|
    ensures forall k :: 0 <= k < |Scan(localIp, net)| ==>
      var a, b := Scan(localIp, net)[k], QuickScan(localIp, net)[k];
      && a.ip == b.ip && a.adb == b.adb
      && (a.ssdp ==> b.ssdp) && (a.mdns ==> b.mdns)
  {
    forall k | 0 <= k < |Scan(localIp, net)|
      ensures var a, b := Scan(localIp, net)[k], QuickScan(localIp, net)[k];
        && a.ip == b.ip && a.adb == b.adb && (a.ssdp ==> b.ssdp) && (a.mdns ==> b.mdns)
    {
      var ip := Filter(Candidates(localIp), Alive(net))[k];
      CheckOutputRefinesRun(net.ssdp(ip), SsdpMarker);
      CheckOutputRefinesRun(net.mdns(ip), MdnsMarker);
    }
  }
}
