/** `scan_service` of cec_control.py: a port configured in `service_commands`
    has its command run and the combined output classified by the port's
    protocol family; an unconfigured port is not probed at all. */
module ServiceScan {
  import opened Text
  import opened Probes

  /** The six strings `scan_service` can return. */
  datatype Status = Active | Inactive | Checked | Timeout | Error | NotApplicable

  function StatusText(s: Status): string {
    match s
    case Active => "Active"
    case Inactive => "Inactive"
    case Checked => "Checked"
    case Timeout => "Timeout"
    case Error => "Error"
    case NotApplicable => "N/A"
  }

  /** `service_commands`: port to (service name, command template). */
  type ServiceCommands = map<int, (string, string)>

  const HttpPorts: seq<int> := [80, 8080, 8008, 7878, 8989, 32400, 8123, 8112, 443]
  const BrokerPorts: seq<int> := [1883, 8883]

  predicate Has(output: string, marker: string) { Contains(output, marker) }

  /** The verdict on the combined output of a configured port's command, as
      the chain of `if port in [...]` tests writes it. */
  function ClassifyOutput(port: int, output: string): Status {
    if port in HttpPorts then
      if Has(output, "200 OK") || Has(output, "HTTP/") then Active else Inactive
    else if port == 554 then
      if Has(output, "RTSP/1.0") then Active else Inactive
    else if port == 1935 then
      if Has(output, "RTMP") then Active else Inactive
    else if port == 1900 then
      if Has(output, "LOCATION:") then Active else Inactive
    else if port == 5353 then
      if Has(output, "ANSWER:") || Has(output, "some.local") then Active else Inactive
    else if port in BrokerPorts then
      if Has(output, "mosquitto") || Has(output, "Connected") then Active else Inactive
    else if port == 22 then
      if PyStrip(output) == "" then Active else Inactive
    else
      Checked
  }

  /** `scan_service(ip, port, timeout, service_commands)`, given the outcome
      `run` of the port's formatted command (consulted only when the port
      is configured). */
  function ScanService(port: int, commands: ServiceCommands, run: ProcOutcome): (r: Status)
    ensures port !in commands <==> r == NotApplicable
    ensures r == Timeout <==> port in commands && run.TimedOut?
    ensures r == Error <==> port in commands && run.Failed?
    ensures r in {Active, Inactive, Checked} <==> port in commands && run.Exited?
  {
    if port !in commands then NotApplicable
    else
      match run
      case Exited(_, out, err) => ClassifyOutput(port, out + err)
      case TimedOut => Timeout
      case Failed => Error
  }

  // -----------------------------------------------------------------------
  // The same classifier as a typed table: each port belongs to one protocol
  // family, and each family has one rule.

  datatype Family = Http | Rtsp | Rtmp | Ssdp | Mdns | Broker | BareTcp | Unclassified

  const FamilyTable: map<int, Family> := map[
    80 := Http, 8080 := Http, 8008 := Http, 7878 := Http, 8989 := Http,
    32400 := Http, 8123 := Http, 8112 := Http, 443 := Http,
    554 := Rtsp, 1935 := Rtmp, 1900 := Ssdp, 5353 := Mdns,
    1883 := Broker, 8883 := Broker, 22 := BareTcp]

  function FamilyOf(port: int): Family {
    if port in FamilyTable then FamilyTable[port] else Unclassified
  }

  /** The substrings any one of which marks a family's service as present. */
  function Markers(f: Family): seq<string> {
    match f
    case Http => ["200 OK", "HTTP/"]
    case Rtsp => ["RTSP/1.0"]
    case Rtmp => ["RTMP"]
    case Ssdp => ["LOCATION:"]
    case Mdns => ["ANSWER:", "some.local"]
    case Broker => ["mosquitto", "Connected"]
    case _ => []
  }

  /** A family's rule: a bare TCP service counts when it printed nothing but
      whitespace, an unclassified port is only `Checked`, and every other
      family is active when the output holds one of its markers. */
  function ClassifyFamily(f: Family, output: string): Status {
    match f
    case Unclassified => Checked
    case BareTcp => if AllPySpace(output) then Active else Inactive
    case _ =>
      if exists k | 0 <= k < |Markers(f)| :: Has(output, Markers(f)[k]) then Active else Inactive
  }

  /** The source's chain of port tests and the family table classify every
      output alike. */
  lemma {:induction false} ClassifyOutputByFamily(port: int, output: string)
    ensures ClassifyOutput(port, output) == ClassifyFamily(FamilyOf(port), output)
  {
    FamilyOfChain(port);
    var f := FamilyOf(port);
    match f
    case BareTcp =>
      StripEmptyIff(output, IsPySpace);
    case Http =>
      assert Markers(f)[0] == "200 OK" && Markers(f)[1] == "HTTP/";
    case Mdns =>
      assert Markers(f)[0] == "ANSWER:" && Markers(f)[1] == "some.local";
    case Broker =>
      assert Markers(f)[0] == "mosquitto" && Markers(f)[1] == "Connected";
    case Rtsp =>
      assert Markers(f)[0] == "RTSP/1.0";
    case Rtmp =>
      assert Markers(f)[0] == "RTMP";
    case Ssdp =>
      assert Markers(f)[0] == "LOCATION:";
    case Unclassified =>
  }

  /** The family table holds the ports the chain of tests names, in the
      family its branch gives them. */
  lemma FamilyOfChain(port: int)
    ensures FamilyOf(port) ==
      if port in HttpPorts then Http
      else if port == 554 then Rtsp
      else if port == 1935 then Rtmp
      else if port == 1900 then Ssdp
      else if port == 5353 then Mdns
      else if port in BrokerPorts then Broker
      else if port == 22 then BareTcp
      else Unclassified
  {
  }

  /** Whole-function form: an unconfigured port is `N/A`, a timeout is
      `Timeout`, any other fault `Error`, and otherwise the port's family
      rule decides on stdout followed by stderr. */
  lemma ScanServiceByFamily(port: int, commands: ServiceCommands, run: ProcOutcome)
    ensures ScanService(port, commands, run) ==
      if port !in commands then NotApplicable
      else match run
        case TimedOut => Timeout
        case Failed => Error
        case Exited(_, out, err) => ClassifyFamily(FamilyOf(port), out + err)
  {
    if port in commands && run.Exited? {
      ClassifyOutputByFamily(port, run.stdout + run.stderr);
    }
  }

  /** An SSDP answer that `check_ssdp` accepts also makes a configured port
      1900 `Active` in a custom scan of the same outcome. */
  lemma SsdpProbeAgreesWithPortScan(commands: ServiceCommands, run: ProcOutcome)
    requires 1900 in commands
    requires SsdpByRun(run)
    ensures ScanService(1900, commands, run) == Active
  {
    ContainsInfix([], run.stdout, run.stderr, "LOCATION:");
    assert [] + run.stdout + run.stderr == run.stdout + run.stderr;
  }
}
