/** The ADB side of cec_control.py's control panel: the `ADB_Devices` section
    of config.ini, written slot by slot as `device_<i>`, the two scans that
    fill the active-host list box and the ADB drop-down, the single-host ADB
    check, and the custom port scan over the listed hosts. */
module AdbRegistry {
  import opened Text
  import opened Probes
  import opened ScanEngine
  import opened ServiceScan
  import opened Dict

  // -----------------------------------------------------------------------
  // The ADB_Devices section

  /** A configuration section: its options in insertion order. */
  type Section = Dict<string>

  /** The values of the section in key order: `list(section.values())`. */
  function Values(s: Section): (vs: seq<string>)
    ensures |vs| == |s| && forall i :: 0 <= i < |s| ==> vs[i] == s[i].1
  {
    seq(|s|, i requires 0 <= i < |s| => s[i].1)
  }

  /** The key of slot `i`: `f"device_{i}"`. */
  function DeviceKey(i: nat): string {
    "device_" + NatToString(i)
  }

  /** Distinct slots have distinct keys. */
  lemma DeviceKeyInjective(a: nat, b: nat)
    ensures DeviceKey(a) == DeviceKey(b) <==> a == b
  {
    if DeviceKey(a) == DeviceKey(b) {
      assert DeviceKey(a)[7..] == NatToString(a);
      assert DeviceKey(b)[7..] == NatToString(b);
      NatToStringInjective(a, b);
    }
  }

  /** The section as `add_section` leaves it when config.ini has none. */
  function OrEmpty(config: Option<Section>): Section {
    if config.Some? then config.value else []
  }

  /** `save_adb_devices(ds)`: `device_i = ds[i]` for every slot `i`, in
      order, into the section read from config.ini (created if absent). */
  function SaveAll(config: Option<Section>, ds: seq<string>): Section
    decreases |ds|
  {
    if ds == [] then OrEmpty(config)
    else Assign(SaveAll(config, ds[..|ds| - 1]), DeviceKey(|ds| - 1), ds[|ds| - 1])
  }

  /** `update_adb_dropdown`: the section's values, or nothing when
      config.ini has no such section. */
  function Load(config: Option<Section>): (vs: seq<string>)
    ensures config.None? ==> vs == []
  {
    if config.Some? then Values(config.value) else []
  }

  /** The single-host check's write: the endpoint under
      `device_{len(section)}`. */
  function AppendDevice(config: Option<Section>, endpoint: string): Section {
    Assign(OrEmpty(config), DeviceKey(|OrEmpty(config)|), endpoint)
  }

  /** Saving sets slot `i` to `ds[i]`; nothing is compared, so nothing is
      deduplicated. */
  lemma {:induction false} SaveAllSlots(config: Option<Section>, ds: seq<string>)
    ensures forall i :: 0 <= i < |ds| ==> Lookup(SaveAll(config, ds), DeviceKey(i)) == Some(ds[i])
  {
    if ds != [] {
      var n := |ds| - 1;
      var init := ds[..n];
      SaveAllSlots(config, init);
      AssignReads(SaveAll(config, init), DeviceKey(n), ds[n]);
      forall i | 0 <= i < n ensures Lookup(SaveAll(config, ds), DeviceKey(i)) == Some(ds[i]) {
        DeviceKeyInjective(i, n);
        assert init[i] == ds[i];
      }
    }
  }

  /** An option that is not one of the saved slots reads as before. */
  lemma {:induction false} SaveAllKeepsOthers(config: Option<Section>, ds: seq<string>, k: string)
    requires forall i :: 0 <= i < |ds| ==> k != DeviceKey(i)
    ensures Lookup(SaveAll(config, ds), k) == Lookup(OrEmpty(config), k)
  {
    if ds != [] {
      var n := |ds| - 1;
      SaveAllKeepsOthers(config, ds[..n], k);
      AssignReads(SaveAll(config, ds[..n]), DeviceKey(n), ds[n]);
    }
  }

  /** The sections this program writes: slot `i` holds key `device_i`. */
  predicate Contiguous(s: Section) {
    forall i :: 0 <= i < |s| ==> s[i].0 == DeviceKey(i)
  }

  lemma ContiguousPosition(s: Section, j: nat)
    requires Contiguous(s)
    ensures Position(s, DeviceKey(j)) == if j < |s| then Some(j) else None
  {
    forall i | 0 <= i < |s| && i != j ensures s[i].0 != DeviceKey(j) {
      DeviceKeyInjective(i, j);
    }
    if j < |s| {
      PositionOfFirst(s, DeviceKey(j), j);
    } else {
      PositionOfAbsent(s, DeviceKey(j));
    }
  }

  /** Slots `0 .. |ds|-1` hold `ds`, any later slot keeps its old value. */
  function Overlay(old_values: seq<string>, ds: seq<string>): (vs: seq<string>)
    ensures |vs| == if |ds| < |old_values| then |old_values| else |ds|
  {
    var n := if |ds| < |old_values| then |old_values| else |ds|;
    seq(n, i requires 0 <= i < n => if i < |ds| then ds[i] else old_values[i])
  }

  /** Saving over a section this program wrote keeps it contiguous: the new
      list is `ds` followed by whatever older slots lie beyond `|ds|`. */
  lemma {:induction false} SaveOverContiguous(s: Section, ds: seq<string>)
    requires Contiguous(s)
    ensures Contiguous(SaveAll(Some(s), ds))
    ensures Values(SaveAll(Some(s), ds)) == Overlay(Values(s), ds)
  {
    if ds == [] {
      assert Values(s) == Overlay(Values(s), ds);
    } else {
      var n := |ds| - 1;
      SaveOverContiguous(s, ds[..n]);
      var t := SaveAll(Some(s), ds[..n]);
      AssignNextSlot(t, n, ds[n]);
      OverlayStep(Values(s), ds);
    }
  }

  /** Writing slot `n` of a contiguous section with at least `n` slots. */
  lemma AssignNextSlot(t: Section, n: nat, v: string)
    requires Contiguous(t) && n <= |t|
    ensures Contiguous(Assign(t, DeviceKey(n), v))
    ensures Values(Assign(t, DeviceKey(n), v)) == if n < |t| then Values(t)[n := v] else Values(t) + [v]
  {
    ContiguousPosition(t, n);
  }

  lemma OverlayStep(vals: seq<string>, ds: seq<string>)
    requires ds != []
    ensures var n := |ds| - 1; var o := Overlay(vals, ds[..n]);
      Overlay(vals, ds) == if n < |o| then o[n := ds[n]] else o + [ds[n]]
  {
    var n := |ds| - 1;
    var o := Overlay(vals, ds[..n]);
    var r := if n < |o| then o[n := ds[n]] else o + [ds[n]];
    forall i | 0 <= i < |r| ensures r[i] == Overlay(vals, ds)[i] {
      if i < n {
        assert ds[..n][i] == ds[i];
      }
    }
  }

  /** On a config.ini without the section, save then reload gives back
      exactly the saved list. */
  lemma SaveThenLoad(ds: seq<string>)
    ensures Load(Some(SaveAll(None, ds))) == ds
  {
    assert SaveAll(None, ds) == SaveAll(Some([]), ds) by {
      SaveAllSame(ds);
    }
    SaveOverContiguous([], ds);
  }

  lemma {:induction false} SaveAllSame(ds: seq<string>)
    ensures SaveAll(None, ds) == SaveAll(Some([]), ds)
  {
    if ds != [] { SaveAllSame(ds[..|ds| - 1]); }
  }

  /** A second save replaces the first one's endpoints slot by slot: saving
      `[b]` after `[a]` leaves only `b`, and a shorter save leaves the older
      tail in place. */
  lemma LaterSaveOverwrites(a: string, b: string, c: string)
    ensures Load(Some(SaveAll(Some(SaveAll(None, [a])), [b]))) == [b]
    ensures Load(Some(SaveAll(Some(SaveAll(None, [a, b])), [c]))) == [c, b]
  {
    SaveAllSame([a]);
    SaveOverContiguous([], [a]);
    SaveOverContiguous(SaveAll(None, [a]), [b]);
    SaveAllSame([a, b]);
    SaveOverContiguous([], [a, b]);
    SaveOverContiguous(SaveAll(None, [a, b]), [c]);
  }

  /** The single-host check appends after the last slot of a section this
      program wrote, even when the endpoint is already listed. */
  lemma AppendContiguous(s: Section, endpoint: string)
    requires Contiguous(s)
    ensures AppendDevice(Some(s), endpoint) == s + [(DeviceKey(|s|), endpoint)]
    ensures Contiguous(AppendDevice(Some(s), endpoint))
    ensures Load(Some(AppendDevice(Some(s), endpoint))) == Values(s) + [endpoint]
  {
    ContiguousPosition(s, |s|);
  }

  // -----------------------------------------------------------------------
  // The widgets

  /** The list box line of a live host. */
  function Display(ip: string, ssdp: bool, mdns: bool): string {
    ip + " (" + (if ssdp then "SSDP:Active" else "SSDP:None") + ", "
    + (if mdns then "mDNS:Active" else "mDNS:None") + ")"
  }

  /** The list box after a scan that found `active`. */
  function Displays(active: seq<string>, net: Network): (lines: seq<string>)
    ensures |lines| == |active|
  {
    seq(|active|, k requires 0 <= k < |active| =>
      Display(active[k], SsdpByRun(net.ssdp(active[k])), MdnsByRun(net.mdns(active[k]))))
  }

  /** Whether ADB answers at an address. */
  function AdbAnswers(net: Network): string -> bool {
    ip => AdbAvailable(net.adb(ip))
  }

  /** The `ip:5555` endpoints of the live hosts where ADB answers. */
  function Endpoints(active: seq<string>, net: Network): (eps: seq<string>)
    ensures forall e :: e in eps <==>
      exists ip :: ip in active && AdbAvailable(net.adb(ip)) && e == ip + ":5555"
  {
    var adb := Filter(active, AdbAnswers(net));
    var eps := seq(|adb|, k requires 0 <= k < |adb| => adb[k] + ":5555");
    forall e | e in eps
      ensures exists ip :: ip in active && AdbAvailable(net.adb(ip)) && e == ip + ":5555"
    {
      var k :| 0 <= k < |adb| && eps[k] == e;
      assert adb[k] in adb;
    }
    forall e | exists ip :: ip in active && AdbAvailable(net.adb(ip)) && e == ip + ":5555"
      ensures e in eps
    {
      var ip :| ip in active && AdbAvailable(net.adb(ip)) && e == ip + ":5555";
      assert ip in adb;
      var k :| 0 <= k < |adb| && adb[k] == ip;
      assert eps[k] == e;
    }
    eps
  }

  /** The endpoints are those of the hosts where ADB answers, one per such
      host and in the order of `active`: the order in which `device_i`
      slots are then written. */
  lemma EndpointsInOrder(active: seq<string>, net: Network)
    ensures var pos := Positions(active, AdbAnswers(net));
      |Endpoints(active, net)| == |pos|
      && forall k :: 0 <= k < |pos| ==> Endpoints(active, net)[k] == active[pos[k]] + ":5555"
  {
    FilterPositions(active, AdbAnswers(net));
  }

  predicate NoSpace(ip: string) {
    forall i :: 0 <= i < |ip| ==> !IsPySpace(ip[i])
  }

  /** `item.split()[0]` of every list box line, or `None` when one of them
      is blank and the indexing raises. */
  function FirstWords(items: seq<string>): (r: Option<seq<string>>)
    ensures r.Some? ==> |r.value| == |items|
    ensures r.Some? ==> forall i :: 0 <= i < |items| ==> FirstWord(items[i]) == Some(r.value[i])
    ensures r.None? ==> exists i :: 0 <= i < |items| && FirstWord(items[i]).None?
  {
    if items == [] then Some([])
    else
      match (FirstWord(items[0]), FirstWords(items[1..]))
      case (Some(w), Some(ws)) =>
        assert forall i :: 1 <= i < |items| ==> items[i] == items[1..][i - 1];
        Some([w] + ws)
      case (None, _) => None
      case (_, None) =>
        var i :| 0 <= i < |items[1..]| && FirstWord(items[1..][i]).None?;
        assert items[i + 1] == items[1..][i];
        None
  }

  /** A host's list box line starts with its address: the custom scan reads
      back exactly the addresses the last scan listed. */
  lemma DisplaysFirstWords(active: seq<string>, net: Network)
    requires forall k :: 0 <= k < |active| ==> active[k] != [] && NoSpace(active[k])
    ensures FirstWords(Displays(active, net)) == Some(active)
  {
    var lines := Displays(active, net);
    forall k | 0 <= k < |active| ensures FirstWord(lines[k]) == Some(active[k]) {
      var ssdp := SsdpByRun(net.ssdp(active[k]));
      var mdns := MdnsByRun(net.mdns(active[k]));
      var rest := " (" + (if ssdp then "SSDP:Active" else "SSDP:None") + ", "
        + (if mdns then "mDNS:Active" else "mDNS:None") + ")";
      assert lines[k] == active[k] + rest;
      FirstWordOfWord(active[k], rest);
    }
    FirstWordsOfEach(lines, active);
  }

  lemma {:induction false} FirstWordsOfEach(items: seq<string>, words: seq<string>)
    requires |items| == |words|
    requires forall i :: 0 <= i < |items| ==> FirstWord(items[i]) == Some(words[i])
    ensures FirstWords(items) == Some(words)
  {
    if items != [] {
      var tail := items[1..];
      assert forall i :: 0 <= i < |tail| ==> tail[i] == items[i + 1];
      FirstWordsOfEach(tail, words[1..]);
      assert FirstWord(items[0]) == Some(words[0]);
      assert words == [words[0]] + words[1..];
    }
  }

  /** What a header or result cell of the custom scan shows for a port. */
  function ColumnName(p: int, commands: ServiceCommands): string {
    if p in commands then commands[p].0 else IntToString(p)
  }

  /** The custom scan's column titles. */
  function Header(ports: seq<int>, commands: ServiceCommands): (h: seq<string>)
    ensures |h| == |ports| + 1 && h[0] == "IP"
    ensures forall j :: 0 <= j < |ports| ==>
      h[j + 1] == if ports[j] in commands then commands[ports[j]].0 else IntToString(ports[j])
  {
    ["IP"] + seq(|ports|, j requires 0 <= j < |ports| => ColumnName(ports[j], commands))
  }

  /** A result row: the address, then one status per port. */
  function Row(ip: string, ports: seq<int>, commands: ServiceCommands, run: (string, int) -> ProcOutcome)
    : (row: seq<string>)
    ensures |row| == |ports| + 1 && row[0] == ip
    ensures forall j :: 0 <= j < |ports| ==>
      row[j + 1] == StatusText(ScanService(ports[j], commands, run(ip, ports[j])))
  {
    if ports == [] then [ip]
    else
      var n := |ports| - 1;
      assert forall j :: 0 <= j < n ==> ports[..n][j] == ports[j];
      Row(ip, ports[..n], commands, run) + [StatusText(ScanService(ports[n], commands, run(ip, ports[n])))]
  }

  /** `scan_ip` inside `custom_search`: the address, then the status of
      each custom port in order. */
  method ScanIp(ip: string, ports: seq<int>, commands: ServiceCommands, run: (string, int) -> ProcOutcome)
      returns (row: seq<string>)
    ensures row == Row(ip, ports, commands, run)
  {
    row := [ip];
    var j := 0;
    while j < |ports|
      invariant 0 <= j <= |ports|
      invariant row == Row(ip, ports[..j], commands, run)
    {
      assert ports[..j + 1][..j] == ports[..j];
      var status := ScanService(ports[j], commands, run(ip, ports[j]));
      row := row + [StatusText(status)];
      j := j + 1;
    }
    assert ports[..j] == ports;
  }

  /** What `custom_search` shows: an error box, an exception, or a table. */
  datatype SearchOutcome =
    | NoActiveIps
    | SearchRaised
    | Table(header: seq<string>, rows: seq<seq<string>>)

  /** What `check_adb_on_selected_ip` ends in. */
  datatype CheckOutcome = ShowError(message: string) | CheckRaised | Saved(endpoint: string)

  const NoSelectionMessage := "No IP selected."

  function NotAdbMessage(ip: string): string {
    "IP " + ip + " does not appear to be running ADB on port 5555."
  }

  /** The Tk control panel's ADB state: the active-host list box, the ADB
      drop-down's values and the `ADB_Devices` section of config.ini
      (`None` while the file has no such section). */
  class ControlPanel {
    var listbox: seq<string>
    var dropdown: seq<string>
    var config: Option<Section>

    constructor(config: Option<Section>)
      ensures listbox == [] && dropdown == [] && this.config == config
    {
      listbox := [];
      dropdown := [];
      this.config := config;
    }

    /** `save_adb_devices`. */
    method SaveAdbDevices(devices: seq<string>)
      modifies this
      ensures config == Some(SaveAll(old(config), devices))
      ensures listbox == old(listbox) && dropdown == old(dropdown)
    {
      var section := OrEmpty(config);
      var i := 0;
      while i < |devices|
        invariant 0 <= i <= |devices|
        invariant section == SaveAll(old(config), devices[..i])
      {
        assert devices[..i + 1][..i] == devices[..i];
        section := Assign(section, DeviceKey(i), devices[i]);
        i := i + 1;
      }
      assert devices[..i] == devices;
      config := Some(section);
    }

    /** `update_adb_dropdown`. */
    method UpdateAdbDropdown()
      modifies this
      ensures dropdown == Load(config)
      ensures listbox == old(listbox) && config == old(config)
    {
      dropdown := if config.Some? then Values(config.value) else [];
    }

    /** The common tail of both GUI scans: list the live hosts with their
        SSDP and mDNS verdicts, save the ADB endpoints, refresh the
        drop-down. */
    method ShowScan(active: seq<string>, net: Network)
      modifies this
      ensures listbox == Displays(active, net)
      ensures config == Some(SaveAll(old(config), Endpoints(active, net)))
      ensures dropdown == Load(config)
    {
      var lines: seq<string> := [];
      var i := 0;
      while i < |active|
        invariant 0 <= i <= |active|
        invariant |lines| == i
        invariant forall k :: 0 <= k < i ==>
          lines[k] == Display(active[k], SsdpByRun(net.ssdp(active[k])), MdnsByRun(net.mdns(active[k])))
      {
        var ip := active[i];
        lines := lines + [Display(ip, SsdpByRun(net.ssdp(ip)), MdnsByRun(net.mdns(ip)))];
        i := i + 1;
      }
      listbox := lines;
      SaveAdbDevices(Endpoints(active, net));
      UpdateAdbDropdown();
    }

    /** `quick_scan_active_ips`: the parallel ping sweep of the local /24,
        then the list box, the saved endpoints and the drop-down. */
    method QuickScanActiveIps(localIp: string, net: Network)
      modifies this
      ensures listbox == Displays(Filter(Candidates(localIp), Alive(net)), net)
      ensures config == Some(SaveAll(old(config), Endpoints(Filter(Candidates(localIp), Alive(net)), net)))
      ensures dropdown == Load(config)
    {
      var ips := Candidates(localIp);
      var results := seq(|ips|, k requires 0 <= k < |ips| => PingAlive(net.ping(ips[k])));
      var active: seq<string> := [];
      var i := 0;
      while i < |ips|
        invariant 0 <= i <= |ips|
        invariant active == Filter(ips[..i], Alive(net))
      {
        assert ips[..i + 1][..i] == ips[..i];
        if results[i] {
          active := active + [ips[i]];
        }
        i := i + 1;
      }
      assert ips[..i] == ips;
      ShowScan(active, net);
    }

    /** `scan_network_for_adb` (the deep scan): the same sweep pinging one
        address at a time, with the same effect. */
    method ScanNetworkForAdb(localIp: string, net: Network)
      modifies this
      ensures listbox == Displays(Filter(Candidates(localIp), Alive(net)), net)
      ensures config == Some(SaveAll(old(config), Endpoints(Filter(Candidates(localIp), Alive(net)), net)))
      ensures dropdown == Load(config)
    {
      var ips := Candidates(localIp);
      var active: seq<string> := [];
      var i := 0;
      while i < 254
        invariant 0 <= i <= 254
        invariant active == Filter(ips[..i], Alive(net))
      {
        assert ips[..i + 1][..i] == ips[..i];
        var ip := ips[i];
        if PingAlive(net.ping(ip)) {
          active := active + [ip];
        }
        i := i + 1;
      }
      assert ips[..i] == ips;
      ShowScan(active, net);
    }

    /** `check_adb_on_selected_ip`, given the selected line (if any) and
        what `adb get-state` answers for each address. */
    method CheckAdbOnSelectedIp(selection: Option<nat>, adb: string -> ProcOutcome)
        returns (outcome: CheckOutcome)
      requires selection.Some? ==> selection.value < |listbox|
      modifies this
      ensures listbox == old(listbox)
      ensures selection.None? ==> outcome == ShowError(NoSelectionMessage)
      ensures selection.Some? && FirstWord(listbox[selection.value]).None? ==> outcome == CheckRaised
      ensures selection.Some? && FirstWord(listbox[selection.value]).Some? ==>
        var ip := FirstWord(listbox[selection.value]).value;
        outcome == if AdbAvailable(adb(ip)) then Saved(ip + ":5555") else ShowError(NotAdbMessage(ip))
      ensures outcome.Saved? ==>
        && dropdown == (if outcome.endpoint in old(dropdown) then old(dropdown) else old(dropdown) + [outcome.endpoint])
        && config == Some(AppendDevice(old(config), outcome.endpoint))
      ensures !outcome.Saved? ==> dropdown == old(dropdown) && config == old(config)
    {
      if selection.None? {
        return ShowError(NoSelectionMessage);
      }
      var word := FirstWord(listbox[selection.value]);
      if word.None? {
        return CheckRaised;
      }
      var ip := word.value;
      if AdbAvailable(adb(ip)) {
        var adbDevice := ip + ":5555";
        if adbDevice !in dropdown {
          dropdown := dropdown + [adbDevice];
        }
        var section := OrEmpty(config);
        section := Assign(section, DeviceKey(|section|), adbDevice);
        config := Some(section);
        outcome := Saved(adbDevice);
      } else {
        outcome := ShowError(NotAdbMessage(ip));
      }
    }

    /** `custom_search`: scan each listed host on each custom port, given
        the outcome of each port's command for each address. */
    method CustomSearch(customPorts: seq<int>, commands: ServiceCommands, run: (string, int) -> ProcOutcome)
        returns (outcome: SearchOutcome)
      ensures FirstWords(listbox).None? ==> outcome == SearchRaised
      ensures listbox == [] ==> outcome == NoActiveIps
      ensures FirstWords(listbox).Some? && listbox != [] ==>
        && outcome.Table?
        && outcome.header == Header(customPorts, commands)
        && |outcome.rows| == |listbox|
        && forall i :: 0 <= i < |listbox| ==>
             outcome.rows[i] == Row(FirstWords(listbox).value[i], customPorts, commands, run)
    {
      var words := FirstWords(listbox);
      if words.None? {
        return SearchRaised;
      }
      var ips := words.value;
      if ips == [] {
        return NoActiveIps;
      }
      var rows: seq<seq<string>> := [];
      var i := 0;
      while i < |ips|
        invariant 0 <= i <= |ips|
        invariant |rows| == i
        invariant forall k :: 0 <= k < i ==> rows[k] == Row(ips[k], customPorts, commands, run)
      {
        var row := ScanIp(ips[i], customPorts, commands, run);
        rows := rows + [row];
        i := i + 1;
      }
      outcome := Table(Header(customPorts, commands), rows);
    }
  }

  /** After a scan, a custom search over the list box scans exactly the live
      hosts of that scan, in their order. */
  lemma CustomSearchAfterScan(localIp: string, net: Network)
    requires forall ip :: ip in Filter(Candidates(localIp), Alive(net)) ==> ip != [] && NoSpace(ip)
    ensures FirstWords(Displays(Filter(Candidates(localIp), Alive(net)), net))
      == Some(Filter(Candidates(localIp), Alive(net)))
  {
    var active := Filter(Candidates(localIp), Alive(net));
    assert forall k :: 0 <= k < |active| ==> active[k] in active;
    DisplaysFirstWords(active, net);
  }
}
