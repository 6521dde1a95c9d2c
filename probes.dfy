/** The probe predicates of the scan scripts: each external command (`ping`,
    `nc`, `dig`, `adb get-state`) is replaced by the outcome it produced, and
    the predicates decide from that outcome alone. */
module Probes {
  import opened Text

  /** What running an external command gave: it exited (with its status and
      captured output), it exceeded its timeout (`subprocess.TimeoutExpired`),
      or it raised anything else (the shell could not start, decoding failed). */
  datatype ProcOutcome =
    | Exited(code: int, stdout: string, stderr: string)
    | TimedOut
    | Failed

  /** `ping_ip`: `os.system(...) == 0`. */
  function PingAlive(o: ProcOutcome): (r: bool)
    ensures r ==> o.Exited?
    ensures o.Exited? ==> (r <==> o.code == 0)
  {
    o.Exited? && o.code == 0
  }

  /** `check_adb_port`: `adb get-state` either printed `device` with status 0
      (an authorised device) or complained on stderr that the device is
      `unauthorized` (present but not yet accepted); any exception, the
      timeout included, gives False. */
  function AdbAvailable(o: ProcOutcome): (r: bool)
    ensures !o.Exited? ==> !r
    ensures o.Exited? && Contains(Lower(o.stderr), "unauthorized") ==> r
    ensures o.Exited? && o.code != 0 && !Contains(Lower(o.stderr), "unauthorized") ==> !r
    ensures o.Exited? && o.code == 0 && !Contains(Lower(o.stderr), "unauthorized") ==>
      (r <==> Lower(PyStrip(o.stdout)) == "device")
  {
    match o
    case Exited(code, out, err) =>
      (code == 0 && Lower(PyStrip(out)) == "device") || Contains(Lower(err), "unauthorized")
    case _ => false
  }

  /** The marker test of a command run with `subprocess.run` and no `check`:
      the exit status is ignored, only stdout is searched; a timeout or any
      other exception gives False. */
  function FoundByRun(o: ProcOutcome, marker: string): (r: bool)
    ensures r ==> o.Exited? && Contains(o.stdout, marker)
  {
    o.Exited? && Contains(o.stdout, marker)
  }

  /** The marker test of a command run with `subprocess.check_output`: a
      non-zero status raises `CalledProcessError`, caught like a timeout, so
      only a zero status with the marker in stdout gives True. */
  function FoundByCheckOutput(o: ProcOutcome, marker: string): (r: bool)
    ensures r ==> o.Exited? && o.code == 0 && Contains(o.stdout, marker)
  {
    o.Exited? && o.code == 0 && Contains(o.stdout, marker)
  }

  /** The two styles agree whenever the command exits with status 0, and the
      `check_output` style is never more permissive than the `run` style. */
  lemma CheckOutputRefinesRun(o: ProcOutcome, marker: string)
    ensures FoundByCheckOutput(o, marker) ==> FoundByRun(o, marker)
    ensures o.Exited? && o.code == 0 ==> (FoundByCheckOutput(o, marker) <==> FoundByRun(o, marker))
    ensures o.Exited? && o.code != 0 ==> !FoundByCheckOutput(o, marker)
  {
  }

  const SsdpMarker := "LOCATION:"
  const MdnsMarker := "ANSWER:"

  /** `check_ssdp` of cec_control.py and app_controls.py (`subprocess.run`). */
  function SsdpByRun(o: ProcOutcome): (r: bool)
    ensures r <==> o.Exited? && Contains(o.stdout, "LOCATION:")
  {
    FoundByRun(o, SsdpMarker)
  }

  /** `check_mdns` of cec_control.py (`subprocess.run`). */
  function MdnsByRun(o: ProcOutcome): (r: bool)
    ensures r <==> o.Exited? && Contains(o.stdout, "ANSWER:")
  {
    FoundByRun(o, MdnsMarker)
  }

  /** `check_ssdp` of network_scan.py (`subprocess.check_output`). */
  function SsdpByCheckOutput(o: ProcOutcome): (r: bool)
    ensures r <==> o.Exited? && o.code == 0 && Contains(o.stdout, "LOCATION:")
  {
    FoundByCheckOutput(o, SsdpMarker)
  }

  /** `check_mdns` of network_scan.py (`subprocess.check_output`). */
  function MdnsByCheckOutput(o: ProcOutcome): (r: bool)
    ensures r <==> o.Exited? && o.code == 0 && Contains(o.stdout, "ANSWER:")
  {
    FoundByCheckOutput(o, MdnsMarker)
  }

  const Loopback := "127.0.0.1"

  /** `get_local_ip`: the address the outbound route discovery reports, or
      the loopback address when that discovery raises (`None` here). */
  function LocalIp(route: Option<string>): (ip: string)
    ensures route.None? ==> ip == "127.0.0.1"
    ensures route.Some? ==> ip == route.value
  {
    match route
    case Some(addr) => addr
    case None => Loopback
  }

  /** An authorised device: `adb` printed `device` and a newline. */
  lemma AuthorisedDeviceIsAvailable(err: string)
    ensures AdbAvailable(Exited(0, "device\n", err))
  {
    var s := "device\n";
    assert SkipLeft(s, IsPySpace, 0) == 0;
    assert SkipRight(s, IsPySpace, 0, 7) == 6;
    assert PyStrip(s) == s[0..6] == "device";
  }

  /** An `offline` device is not counted, however its exit status looks,
      unless stderr reports it unauthorised. */
  lemma OfflineDeviceIsNotAvailable(code: int, err: string)
    requires !Contains(Lower(err), "unauthorized")
    ensures !AdbAvailable(Exited(code, "offline\n", err))
  {
    var s := "offline\n";
    assert SkipLeft(s, IsPySpace, 0) == 0;
    assert SkipRight(s, IsPySpace, 0, 8) == 7;
    assert PyStrip(s) == s[0..7] == "offline";
    assert Lower("offline") != "device";
  }
}
