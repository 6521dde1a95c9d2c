/** The quick scan shared by cec_control.py and app_controls.py: the /24
    candidate list, the order-preserving liveness filter, one record per
    live host, and the tab-separated line the command-line entry points
    print per record. The thread pool's `map` returns its results in input
    order, so the parallel sweep is a sequential map followed by a filter. */
module ScanEngine {
  import opened Text
  import opened Probes

  // -----------------------------------------------------------------------
  // Candidate addresses

  function Take3(parts: seq<string>): seq<string> {
    if |parts| <= 3 then parts else parts[..3]
  }

  /** `".".join(local_ip.split(".")[:3])`. */
  function Subnet(localIp: string): string {
    Join(Take3(Split(localIp, '.')), ".")
  }

  /** `[f"{subnet}.{i}" for i in range(1, 255)]`. */
  function Candidates(localIp: string): (ips: seq<string>)
    ensures |ips| == 254
  {
    seq(254, k requires 0 <= k < 254 => Subnet(localIp) + "." + NatToString(k + 1))
  }

  /** The host number of an address: its last dot field as a Python `int`. */
  function HostNumber(ip: string): Option<int> {
    var fields := Split(ip, '.');
    PyInt(fields[|fields| - 1])
  }

  /** Every candidate shares the local subnet, and the k-th carries host
      number k + 1: the list runs from `.1` to `.254` in ascending order. */
  lemma CandidateHostNumbers(localIp: string, k: nat)
    requires k < 254
    ensures StartsWith(Candidates(localIp)[k], Subnet(localIp) + ".")
    ensures HostNumber(Candidates(localIp)[k]) == Some(k + 1)
  {
    var ip := Candidates(localIp)[k];
    var digits := NatToString(k + 1);
    assert '.' !in digits by {
      forall j | 0 <= j < |digits| ensures digits[j] != '.' { assert IsDigit(digits[j]); }
    }
    SplitAppendSep(Subnet(localIp), '.', digits);
    assert ip == Subnet(localIp) + ['.'] + digits;
    PyIntOfIntToString(k + 1);
  }

  /** No address is a candidate twice. */
  lemma CandidatesDistinct(localIp: string)
    ensures NoDuplicates(Candidates(localIp))
  {
    var ips := Candidates(localIp);
    forall i, j | 0 <= i < j < 254 ensures ips[i] != ips[j] {
      CandidateHostNumbers(localIp, i);
      CandidateHostNumbers(localIp, j);
    }
  }

  /** The subnet of a dotted quad is its first three fields. */
  lemma SubnetOfQuad(a: string, b: string, c: string, d: string)
    requires '.' !in a && '.' !in b && '.' !in c && '.' !in d
    ensures Subnet(Join([a, b, c, d], ".")) == Join([a, b, c], ".")
  {
    SplitJoin([a, b, c, d], '.');
    assert Take3([a, b, c, d]) == [a, b, c];
  }

  predicate NoDuplicates<T(==)>(s: seq<T>) {
    forall i, j :: 0 <= i < j < |s| ==> s[i] != s[j]
  }

  // -----------------------------------------------------------------------
  // Liveness filter

  /** The addresses for which `alive` holds, in input order (the loop over
      `zip(ips, results)` that appends each live address). */
  function Filter(ips: seq<string>, alive: string -> bool): (r: seq<string>)
    ensures |r| <= |ips|
    ensures forall x :: x in r <==> x in ips && alive(x)
  {
    if ips == [] then []
    else
      var last := ips[|ips| - 1];
      var rest := Filter(ips[..|ips| - 1], alive);
      assert ips == ips[..|ips| - 1] + [last];
      if alive(last) then rest + [last] else rest
  }

  /** `a` is `b` with some elements left out and the rest in their order. */
  predicate Subsequence<T(==)>(a: seq<T>, b: seq<T>)
    decreases |b|
  {
    if a == [] then true
    else if b == [] then false
    else if a[|a| - 1] == b[|b| - 1] then Subsequence(a[..|a| - 1], b[..|b| - 1])
    else Subsequence(a, b[..|b| - 1])
  }

  /** The filter keeps the input order and, on distinct input, produces
      distinct output. */
  lemma {:induction false} FilterKeepsOrder(ips: seq<string>, alive: string -> bool)
    ensures Subsequence(Filter(ips, alive), ips)
    ensures NoDuplicates(ips) ==> NoDuplicates(Filter(ips, alive))
  {
    if ips != [] {
      var init := ips[..|ips| - 1];
      var last := ips[|ips| - 1];
      var rest := Filter(init, alive);
      FilterKeepsOrder(init, alive);
      if alive(last) {
        assert (rest + [last])[..|rest|] == rest;
        if NoDuplicates(ips) {
          assert last !in init by {
            forall i | 0 <= i < |init| ensures init[i] != last { assert ips[i] == init[i]; }
          }
          assert NoDuplicates(init) by {
            forall i, j | 0 <= i < j < |init| ensures init[i] != init[j] {
              assert ips[i] == init[i] && ips[j] == init[j];
            }
          }
        }
      } else if rest != [] {
        assert rest[|rest| - 1] in rest;
        assert rest[|rest| - 1] != last;
      }
    }
  }

  /** The filter keeps exactly the live addresses, each as often as it
      occurs, in input order. */
  lemma {:induction false} FilterPositions(ips: seq<string>, alive: string -> bool)
    ensures var pos := Positions(ips, alive);
      |Filter(ips, alive)| == |pos|
      && forall k :: 0 <= k < |pos| ==> Filter(ips, alive)[k] == ips[pos[k]]
  {
    if ips != [] {
      var n := |ips| - 1;
      var init := ips[..n];
      FilterPositions(init, alive);
      var r := Filter(ips, alive);
      var pos := Positions(ips, alive);
      var posInit := Positions(init, alive);
      forall k | 0 <= k < |pos|
        ensures r[k] == ips[pos[k]]
      {
        if k < |posInit| {
          assert pos[k] == posInit[k] && r[k] == Filter(init, alive)[k];
          assert init[pos[k]] == ips[pos[k]];
        }
      }
    }
  }

  // -----------------------------------------------------------------------
  // Host records

  /** `{"ip": ..., "ssdp": ..., "mdns": ..., "adb": ...}`. */
  datatype HostRecord = HostRecord(ip: string, ssdp: bool, mdns: bool, adb: bool)

  /** What the network answers: the outcome of each probe command for each
      address. */
  datatype Network = Network(
    ping: string -> ProcOutcome,
    ssdp: string -> ProcOutcome,
    mdns: string -> ProcOutcome,
    adb: string -> ProcOutcome)

  function Alive(net: Network): string -> bool {
    ip => PingAlive(net.ping(ip))
  }

  /** The record cec_control.py builds: `subprocess.run` probes. */
  function GuiRecord(net: Network, ip: string): HostRecord {
    HostRecord(ip, SsdpByRun(net.ssdp(ip)), MdnsByRun(net.mdns(ip)), AdbAvailable(net.adb(ip)))
  }

  /** One record per live address, in address order. */
  function Report(ips: seq<string>, alive: string -> bool, record: string -> HostRecord): (rs: seq<HostRecord>)
  {
    var active := Filter(ips, alive);
    seq(|active|, k requires 0 <= k < |active| => record(active[k]))
  }

  /** The result of `quick_scan_results` in cec_control.py. */
  function QuickScan(localIp: string, net: Network): seq<HostRecord> {
    Report(Candidates(localIp), Alive(net), ip => GuiRecord(net, ip))
  }

  /** A report holds a record for exactly the live candidates, each built
      from its own address, in candidate order and without repeats. */
  lemma ReportExactlyLive(ips: seq<string>, alive: string -> bool, record: string -> HostRecord)
    requires NoDuplicates(ips)
    requires forall ip :: record(ip).ip == ip
    ensures forall r :: r in Report(ips, alive, record) ==> r.ip in ips && alive(r.ip) && r == record(r.ip)
    ensures forall ip :: ip in ips && alive(ip) ==> record(ip) in Report(ips, alive, record)
    ensures Subsequence(Filter(ips, alive), ips)
    ensures NoDuplicates(Filter(ips, alive))
    ensures |Report(ips, alive, record)| == |Filter(ips, alive)| <= |ips|
  {
    var rs := Report(ips, alive, record);
    var active := Filter(ips, alive);
    FilterKeepsOrder(ips, alive);
    forall r | r in rs ensures r.ip in ips && alive(r.ip) && r == record(r.ip) {
      var k :| 0 <= k < |rs| && rs[k] == r;
      assert active[k] in active;
    }
    forall ip | ip in ips && alive(ip) ensures record(ip) in rs {
      var k :| 0 <= k < |active| && active[k] == ip;
      assert rs[k] == record(ip);
    }
  }

  /** `quick_scan_results` (cec_control.py and app_controls.py): ping every
      candidate, keep the live ones in order, then probe each live host. */
  method QuickScanResults(localIp: string, net: Network) returns (output: seq<HostRecord>)
    ensures output == QuickScan(localIp, net)
  {
    output := SweepAndProbe(Candidates(localIp), net);
  }

  /** The body of `quick_scan_results` once the candidate list is built: the
      ping sweep, the order-preserving filter, then the probes of each live
      host. */
  method SweepAndProbe(ips: seq<string>, net: Network) returns (output: seq<HostRecord>)
    ensures output == Report(ips, Alive(net), ip => GuiRecord(net, ip))
  {
    var results := seq(|ips|, k requires 0 <= k < |ips| => PingAlive(net.ping(ips[k])));
    var active: seq<string> := [];
    var i := 0;
    while i < |ips|
      invariant 0 <= i <= |ips|
      invariant active == Filter(ips[..i], Alive(net))
    {
      assert ips[..i + 1][..i] == ips[..i];
      if results[i] {
        active := active + [ips[i]];
      }
      i := i + 1;
    }
    assert ips[..i] == ips;
    output := [];
    var j := 0;
    while j < |active|
      invariant 0 <= j <= |active|
      invariant |output| == j
      invariant forall k :: 0 <= k < j ==> output[k] == GuiRecord(net, active[k])
    {
      output := output + [HostRecord(active[j], SsdpByRun(net.ssdp(active[j])),
                                     MdnsByRun(net.mdns(active[j])), AdbAvailable(net.adb(active[j])))];
      j := j + 1;
    }
  }

  /** `deep_scan_results`: the quick scan again, nothing more. */
  method DeepScanResults(localIp: string, net: Network) returns (output: seq<HostRecord>)
    ensures output == QuickScan(localIp, net)
  {
    output := QuickScanResults(localIp, net);
  }

  /** The quick scan has a record for exactly the live candidates of the
      local /24, in ascending address order, each holding that host's own
      probe verdicts. */
  lemma QuickScanExactlyLive(localIp: string, net: Network)
    ensures forall r :: r in QuickScan(localIp, net) ==>
      r.ip in Candidates(localIp) && PingAlive(net.ping(r.ip)) && r == GuiRecord(net, r.ip)
    ensures forall ip :: ip in Candidates(localIp) && PingAlive(net.ping(ip)) ==>
      GuiRecord(net, ip) in QuickScan(localIp, net)
    ensures Subsequence(Filter(Candidates(localIp), Alive(net)), Candidates(localIp))
    ensures |QuickScan(localIp, net)| <= 254
  {
    CandidatesDistinct(localIp);
    ReportExactlyLive(Candidates(localIp), Alive(net), ip => GuiRecord(net, ip));
  }

  // -----------------------------------------------------------------------
  // Text output of the command-line entry point

  /** `f"{ip}\tSSDP={ssdp}\tmDNS={mdns}\tADB={adb}"`: four tab-separated
      fields. */
  function CliLine(r: HostRecord): string {
    Join([r.ip, "SSDP=" + PyBool(r.ssdp), "mDNS=" + PyBool(r.mdns), "ADB=" + PyBool(r.adb)], "\t")
  }

  /** One `print` per record: each line followed by a newline. */
  function CliOutput(rs: seq<HostRecord>): string {
    if rs == [] then [] else CliLine(rs[0]) + "\n" + CliOutput(rs[1..])
  }

  function ParseFlag(field: string, prefix: string): Option<bool> {
    if field == prefix + "True" then Some(true)
    else if field == prefix + "False" then Some(false)
    else None
  }

  /** Reads one printed line back into a record. */
  function ParseCliLine(line: string): Option<HostRecord> {
    var f := Split(line, '\t');
    if |f| != 4 then None
    else match (ParseFlag(f[1], "SSDP="), ParseFlag(f[2], "mDNS="), ParseFlag(f[3], "ADB="))
      case (Some(s), Some(m), Some(a)) => Some(HostRecord(f[0], s, m, a))
      case _ => None
  }

  /** Reads the whole printed output back, one record per line. */
  function ParseCliOutput(text: string): Option<seq<HostRecord>>
    decreases |text|
  {
    if text == [] then Some([])
    else if '\n' !in text then None
    else
      var i := IndexOf(text, '\n');
      match (ParseCliLine(text[..i]), ParseCliOutput(text[i + 1..]))
      case (Some(r), Some(rs)) => Some([r] + rs)
      case _ => None
  }

  predicate PrintableIp(ip: string) {
    '\t' !in ip && '\n' !in ip
  }

  lemma CliLineRoundTrip(r: HostRecord)
    requires PrintableIp(r.ip)
    ensures '\n' !in CliLine(r)
    ensures ParseCliLine(CliLine(r)) == Some(r)
  {
    var fields := CliFields(r);
    FieldsPrintable(r);
    JoinAvoids(fields, "\t", '\n');
    SplitJoin(fields, '\t');
    FlagRoundTrip("SSDP=", r.ssdp);
    FlagRoundTrip("mDNS=", r.mdns);
    FlagRoundTrip("ADB=", r.adb);
  }

  /** The four fields of a printed line. */
  function CliFields(r: HostRecord): (f: seq<string>)
    ensures |f| == 4 && CliLine(r) == Join(f, "\t")
  {
    [r.ip, "SSDP=" + PyBool(r.ssdp), "mDNS=" + PyBool(r.mdns), "ADB=" + PyBool(r.adb)]
  }

  lemma FieldsPrintable(r: HostRecord)
    requires PrintableIp(r.ip)
    ensures forall k :: 0 <= k < 4 ==> '\t' !in CliFields(r)[k] && '\n' !in CliFields(r)[k]
  {
    FlagPrintable("SSDP=", r.ssdp);
    FlagPrintable("mDNS=", r.mdns);
    FlagPrintable("ADB=", r.adb);
  }

  lemma FlagPrintable(prefix: string, b: bool)
    requires '\t' !in prefix && '\n' !in prefix
    ensures '\t' !in prefix + PyBool(b) && '\n' !in prefix + PyBool(b)
  {
  }

  lemma FlagRoundTrip(prefix: string, b: bool)
    ensures ParseFlag(prefix + PyBool(b), prefix) == Some(b)
  {
    if !b {
      assert |prefix + PyBool(b)| != |prefix + "True"|;
    }
  }

  /** The printed output parses back into exactly the records printed, in
      their order. */
  lemma {:induction false} CliOutputRoundTrip(rs: seq<HostRecord>)
    requires forall k :: 0 <= k < |rs| ==> PrintableIp(rs[k].ip)
    ensures ParseCliOutput(CliOutput(rs)) == Some(rs)
  {
    if rs != [] {
      var line, rest := CliLine(rs[0]), CliOutput(rs[1..]);
      CliLineRoundTrip(rs[0]);
      CliOutputRoundTrip(rs[1..]);
      ParseCliOutputCons(line, rest, rs[0], rs[1..]);
      assert CliOutput(rs) == line + "\n" + rest;
      assert [rs[0]] + rs[1..] == rs;
    }
  }

  /** A parsed line followed by parsed output parses as the line's record
      followed by the output's records. */
  lemma ParseCliOutputCons(line: string, rest: string, r: HostRecord, rs: seq<HostRecord>)
    requires '\n' !in line
    requires ParseCliLine(line) == Some(r) && ParseCliOutput(rest) == Some(rs)
    ensures ParseCliOutput(line + "\n" + rest) == Some([r] + rs)
  {
    var text := line + "\n" + rest;
    IndexOfAfter(line, '\n', rest);
    assert text[..|line|] == line;
    assert text[|line| + 1..] == rest;
  }
}
