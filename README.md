# suitestream-adb, modelled in Dafny

Suitestream turns a small Linux box into a controller for the screens and
media devices of a hotel room or venue. This project models its logic and
proves properties of that model. Once every shell command, socket, widget
and timer is replaced by what it returned, that logic is a set of string and
sequence rules:

- **Network discovery** (`controller/scripts/cec_control.py`,
  `network_scan.py`, `app_controls.py`).
  - The /24 candidate list and the order-preserving ping filter.
  - One `{ip, ssdp, mdns, adb}` record per live host, and the probe
    predicates that decide each field from a command's outcome.
  - The tab-separated line the command-line entry points print.
  - Modules `Probes`, `ScanEngine` and `NetworkScan`.
- **Port classification and the control panel** (`cec_control.py`).
  - `scan_service` and its six verdicts (module `ServiceScan`).
  - The `ADB_Devices` section of `config.ini`, written slot by slot as
    `device_<i>`.
  - The two GUI scans that fill the host list box and the ADB drop-down,
    the single-host ADB check, and the custom port scan table.
  - Module `AdbRegistry`; the widgets are the fields of the class
    `ControlPanel`.
- **The HDMI-CEC layout probe** (`probe_hdmi_cec.py`, and
  `remote_control.py`, which is a byte-for-byte copy; both are cited).
  - The `mPortInfo:` line parser with its int and bool conversions.
  - The local-device and connected-device parsers and the vendor table.
  - `determine_functions` and the plain-text summary.
  - The `getprop` key/value split.
  - Module `HdmiCec`.
- **The Cast device registry** (`controller/castService.js`).
  - The `devices` map (uid to host and port, in insertion order) and the
    `clients` cache, as fields of the class `CastService`.
  - Its methods for discovery up and down events, cache load and persist,
    client lookup, client errors and disconnect.
  - The `insertBefore` override of the queue commands.
  - Module `CastRegistry`.
- **The onboarding flow** (`controller/index.js`).
  - The verification-code pattern, matched exactly without a regex engine.
  - The fetch, register, poll and socket transitions, as the class
    `Onboard`; the start-up retry loop; the status page.
  - The `runLocal` exit rule and the device reply.
  - Module `Onboarding`.
- **The captive portal** (`opt-suitestream/portal/server.js`).
  - The redirect middleware.
  - The SSID list read from `ssids.txt` and its `<option>` rendering.
  - Module `Portal`.

Shared modules:

- `Text` holds the Python and JavaScript string primitives the code relies on:
  - `split` on one character, `join`, and `split` at the first separator;
  - `str.strip` and `String.prototype.trim` with their exact whitespace sets;
  - ASCII `lower()`;
  - `str()` and `int()` for decimal integers.
- `Dict` holds an insertion-ordered dictionary, used as a Python `dict`, a
  JavaScript `Map` and a ConfigParser section. Assigning an existing key
  overwrites it in place; assigning a new key appends it.

Every external effect becomes a parameter: a ping, `adb`, `nc`, `dig`,
HTTP, a file read or the result of a regex search. A
command's result is a `ProcOutcome`: it exited (with its status, stdout and
stderr), it timed out, or it raised. Where the source raises on bad input,
the model returns `None` or an error value.

Two behaviours of the code are worth stating plainly:

- **The ADB registry is never deduplicated.** `save_adb_devices` overwrites
  the slots `device_0 … device_{n-1}` by index and compares nothing, so a
  later save of one endpoint replaces the first saved endpoint
  (`AdbRegistry.LaterSaveOverwrites`). The single-host check writes under
  `device_{len}` even when the endpoint is already stored
  (`AdbRegistry.AppendContiguous`).
- **The summary header reads the name with `get`.** It prints `This device`
  only when `display_name` is absent, so an empty display name stays empty
  (`HdmiCec.HeaderLine`, used by `HdmiCec.Head`).

## Model

| member | source | states |
|---|---|---|
| Probes.PingAlive | controller/scripts/cec_control.py:84-85 | a host counts as alive only when `ping` exited, and then exactly when its status is 0 |
| Probes.AdbAvailable | controller/scripts/cec_control.py:87-98 | ADB counts as available when stderr mentions `unauthorized` in any case; otherwise, on status 0, exactly when stdout stripped and lower-cased is `device`; a non-zero exit without that mention, a timeout or any other exception gives False |
| Probes.FoundByRun | controller/scripts/app_controls.py:62-68 | a `subprocess.run` marker probe is True only when the command exited and its stdout contains the marker; the exit status plays no part |
| Probes.FoundByCheckOutput | controller/scripts/network_scan.py:38-42 | a `check_output` marker probe is True only when the command exited with 0 and stdout contains the marker |
| Probes.CheckOutputRefinesRun | controller/scripts/network_scan.py:32-52 | the `check_output` style implies the `run` style; the two agree on status 0; on a non-zero status the `check_output` style is always False |
| Probes.SsdpByRun | controller/scripts/cec_control.py:58-64 | `check_ssdp` of cec_control.py and app_controls.py is True iff the command exited and stdout contains `LOCATION:` |
| Probes.MdnsByRun | controller/scripts/cec_control.py:66-72 | `check_mdns` of cec_control.py is True iff the command exited and stdout contains `ANSWER:` |
| Probes.SsdpByCheckOutput | controller/scripts/network_scan.py:32-42 | `check_ssdp` of network_scan.py is True iff the command exited 0 and its output contains `LOCATION:` |
| Probes.MdnsByCheckOutput | controller/scripts/network_scan.py:45-52 | `check_mdns` of network_scan.py is True iff the command exited 0 and its output contains `ANSWER:` |
| Probes.LocalIp | controller/scripts/app_controls.py:47-58 | `get_local_ip` returns the discovered address, or `127.0.0.1` when discovery raises |
| Probes.AuthorisedDeviceIsAvailable | controller/scripts/network_scan.py:55-67 | `device` plus a newline on stdout with status 0 counts as available: the strip removes the newline |
| Probes.OfflineDeviceIsNotAvailable | controller/scripts/cec_control.py:92-95 | `offline` on stdout is never available, whatever the status, unless stderr says `unauthorized` |
| ScanEngine.Candidates | controller/scripts/cec_control.py:19-20 | exactly 254 candidates |
| ScanEngine.CandidateHostNumbers | controller/scripts/app_controls.py:18-20 | candidate k starts with the subnet and a dot, and its last field reads back as host number k+1, so the list runs `.1` to `.254` in ascending order |
| ScanEngine.CandidatesDistinct | controller/scripts/cec_control.py:20 | no address occurs twice among the candidates |
| ScanEngine.SubnetOfQuad | controller/scripts/cec_control.py:19 | the subnet of a dotted quad `a.b.c.d` is `a.b.c` |
| ScanEngine.Filter | controller/scripts/cec_control.py:24-26 | the kept addresses are exactly the input addresses that are alive |
| ScanEngine.FilterKeepsOrder | controller/scripts/cec_control.py:22-26 | the filter keeps input order (a subsequence), and keeps distinct input distinct |
| ScanEngine.FilterPositions | controller/scripts/cec_control.py:24-26 | the filter holds one entry per live address, each as often as it occurs, in input order (its k-th entry is the k-th live position's address) |
| ScanEngine.ReportExactlyLive | controller/scripts/cec_control.py:21-35 | a report has one record per live address and none for any other, each built from its own address, in input order, without repeats |
| ScanEngine.SweepAndProbe | controller/scripts/app_controls.py:21-35 | the two loops (filter the ping results in order, then probe each live host) compute the report of the live addresses |
| ScanEngine.QuickScanResults | controller/scripts/cec_control.py:16-36 | `quick_scan_results` returns `QuickScan`: `Report` of the 254 candidates with `run`-style probes |
| ScanEngine.DeepScanResults | controller/scripts/cec_control.py:39-41 | `deep_scan_results` returns exactly what the quick scan returns (the same holds in app_controls.py:39-42) |
| ScanEngine.QuickScanExactlyLive | controller/scripts/cec_control.py:16-36 | the quick scan holds a record for exactly the live candidates, in ascending address order, at most 254, each with that host's own probe verdicts |
| ScanEngine.CliLineRoundTrip | controller/scripts/network_scan.py:110-111 | a line printed by `CliLine` has no newline, and `ParseCliLine` splits it at tabs and reads back the same record |
| ScanEngine.CliOutputRoundTrip | controller/scripts/cec_control.py:264-265 | the printed output, one line per record, parses back to exactly the printed records in order (same format in app_controls.py:92-93) |
| NetworkScan.SweepOnce | controller/scripts/network_scan.py:78-87 | the single loop over `zip(ips, alive)` computes the report of the live addresses with `check_output`-style probes |
| NetworkScan.QuickScanResults | controller/scripts/network_scan.py:71-87 | network_scan.py's `quick_scan_results` is `Scan`: that report over the 254 candidates |
| NetworkScan.DeepScanResults | controller/scripts/network_scan.py:90-92 | `deep_scan_results` is exactly the quick scan |
| NetworkScan.ScanExactlyLive | controller/scripts/network_scan.py:71-87 | a record exists exactly for the live candidates, in ascending order, at most 254, each with that host's verdicts |
| NetworkScan.ScriptsAgree | controller/scripts/network_scan.py:32-52 | on the same network the two scripts list the same hosts in the same order with the same ADB verdict; an SSDP or mDNS hit in network_scan.py is a hit in cec_control.py too |
| ServiceScan.ScanService | controller/scripts/cec_control.py:192-223 | `N/A` iff the port is not configured; `Timeout` iff configured and timed out; `Error` iff configured and another exception; otherwise one of `Active`, `Inactive`, `Checked` |
| ServiceScan.ClassifyOutputByFamily | controller/scripts/cec_control.py:200-216 | the chain of port tests (`ClassifyOutput`) equals a family-table classifier: HTTP, RTSP, RTMP, SSDP, mDNS and broker ports are active iff a family marker occurs; port 22 iff the output is only whitespace; any other configured port is `Checked` |
| ServiceScan.FamilyOfChain | controller/scripts/cec_control.py:201-216 | the family table puts each port in the family of the branch that tests it |
| ServiceScan.ScanServiceByFamily | controller/scripts/cec_control.py:194-222 | the whole of `scan_service` in table form, classifying stdout followed by stderr |
| ServiceScan.SsdpProbeAgreesWithPortScan | controller/scripts/cec_control.py:207-208 | an outcome that `check_ssdp` accepts makes a configured port 1900 `Active` |
| AdbRegistry.Values | controller/scripts/cec_control.py:115 | the drop-down values are the section's values in key order |
| AdbRegistry.DeviceKeyInjective | controller/scripts/cec_control.py:106 | `device_a` and `device_b` are the same key iff a = b |
| AdbRegistry.Load | controller/scripts/cec_control.py:111-115 | without an `ADB_Devices` section the drop-down is empty |
| AdbRegistry.SaveAllSlots | controller/scripts/cec_control.py:100-106 | after `SaveAll`, slot `device_i` holds `ds[i]` for every i; nothing is compared or deduplicated |
| AdbRegistry.SaveAllKeepsOthers | controller/scripts/cec_control.py:100-106 | an option that is not one of the saved slots reads as before the save |
| AdbRegistry.SaveOverContiguous | controller/scripts/cec_control.py:100-106 | saving over a section of `device_0..` slots keeps it so: the values become `ds` followed by the older slots beyond `len(ds)` |
| AdbRegistry.AssignNextSlot | controller/scripts/cec_control.py:185-186 | writing `device_n` into a contiguous section of at least n slots overwrites slot n or appends it (the step `AppendDevice` takes) |
| AdbRegistry.SaveThenLoad | controller/scripts/cec_control.py:100-115 | on a config without the section, save then load returns exactly the saved list |
| AdbRegistry.LaterSaveOverwrites | controller/scripts/cec_control.py:105-106 | saving `[b]` after `[a]` loads `[b]`; saving `[c]` after `[a, b]` loads `[c, b]` |
| AdbRegistry.AppendContiguous | controller/scripts/cec_control.py:181-186 | the single-host check appends `(device_{len}, endpoint)` after the last slot, keeps the section contiguous, and the drop-down reload gains the endpoint at the end |
| AdbRegistry.Displays | controller/scripts/cec_control.py:129-133 | one list box line per live host |
| AdbRegistry.Endpoints | controller/scripts/cec_control.py:134-135 | an endpoint is listed iff it is `ip:5555` for a listed host where ADB is available |
| AdbRegistry.EndpointsInOrder | controller/scripts/cec_control.py:134-135 | the endpoints are `ip:5555` of the hosts where ADB answers, one per such host, in list box order, which fixes which endpoint `SaveAll` puts in which `device_i` slot |
| AdbRegistry.FirstWords | controller/scripts/cec_control.py:226 | the first whitespace-separated word of every line, or failure exactly when some line is blank (the indexing raises) |
| AdbRegistry.DisplaysFirstWords | controller/scripts/cec_control.py:132 | the first word of each list box line `ip (SSDP:…, mDNS:…)` is the host's address |
| AdbRegistry.Header | controller/scripts/cec_control.py:232 | the column titles are `IP` and then, per custom port in order, the service name or `str(port)` |
| AdbRegistry.Row | controller/scripts/cec_control.py:238-244 | a row is the address and then the status text of each custom port, in port order |
| AdbRegistry.ScanIp | controller/scripts/cec_control.py:238-244 | the loop of `scan_ip` builds that row |
| AdbRegistry.ControlPanel.SaveAdbDevices | controller/scripts/cec_control.py:100-109 | the section becomes the slot-by-slot save over the old section (created if missing); the widgets are unchanged |
| AdbRegistry.ControlPanel.UpdateAdbDropdown | controller/scripts/cec_control.py:111-116 | the drop-down becomes the section's values, or empty without a section |
| AdbRegistry.ControlPanel.ShowScan | controller/scripts/cec_control.py:128-137 | the list box shows one line per live host; the ADB endpoints are saved; the drop-down is reloaded |
| AdbRegistry.ControlPanel.QuickScanActiveIps | controller/scripts/cec_control.py:118-137 | that effect for the live candidates of the local /24, in ascending order |
| AdbRegistry.ControlPanel.ScanNetworkForAdb | controller/scripts/cec_control.py:139-156 | the one-at-a-time sweep has exactly the quick sweep's effect |
| AdbRegistry.ControlPanel.CheckAdbOnSelectedIp | controller/scripts/cec_control.py:169-190 | no selection shows `No IP selected.` and changes nothing. A blank line raises. With ADB, `ip:5555` joins the drop-down only if absent but is always written under `device_{len}`. Without ADB the message names the ip and nothing changes |
| AdbRegistry.ControlPanel.CustomSearch | controller/scripts/cec_control.py:225-247 | an empty list box is an error; a blank line raises; otherwise the header and one row per listed host, in order |
| AdbRegistry.CustomSearchAfterScan | controller/scripts/cec_control.py:226 | after a scan, the custom search reads back exactly the scan's live hosts, in order |
| HdmiCec.Field | controller/scripts/probe_hdmi_cec.py:42-44 | a part yields a key/value pair iff it contains `:` |
| HdmiCec.PortOfLineLookup | controller/scripts/probe_hdmi_cec.py:40-44 | a line's dictionary has no repeated key; a key reads as the converted value of the last part with that key, or is absent |
| HdmiCec.ConvertAllLookup | controller/scripts/probe_hdmi_cec.py:45-52 | the conversions keep the keys and their order. `port_id` becomes an int iff `int()` accepts it, else it stays text. A present flag becomes whether it lower-cases to `true`; an absent flag stays absent |
| HdmiCec.ConvertAll | controller/scripts/probe_hdmi_cec.py:45-52 | the conversions keep the dictionary's keys in order |
| HdmiCec.ParsePortLine | controller/scripts/probe_hdmi_cec.py:40-53 | the loop over the comma parts, then the conversions, builds the line's dictionary |
| HdmiCec.ConvertSteps | controller/scripts/probe_hdmi_cec.py:45-52 | converting `port_id` and then the flags in place gives the fully converted dictionary |
| HdmiCec.ConvertFlags | controller/scripts/probe_hdmi_cec.py:50-52 | the loop over `cec`, `arc`, `mhl` converts each flag present |
| HdmiCec.PortsOf | controller/scripts/probe_hdmi_cec.py:38-53 | one dictionary per block line |
| HdmiCec.PortsOfEach | controller/scripts/probe_hdmi_cec.py:39-53 | the i-th dictionary is the i-th line's, in line order |
| HdmiCec.ParsePortInfo | controller/scripts/probe_hdmi_cec.py:30-54 | `[]` without an `mPortInfo:` block; otherwise the dictionaries of the block's lines |
| HdmiCec.ParseLocalDevice | controller/scripts/probe_hdmi_cec.py:57-75 | `{}` without a block or info line; it raises iff a field search fails |
| HdmiCec.LocalDeviceKeys | controller/scripts/remote_control.py:62-75 | a parsed local device has exactly the six keys, each once |
| HdmiCec.LocalDeviceFields | controller/scripts/remote_control.py:68-74 | each key holds what its search captured, and `mac_address` is `Not available` |
| HdmiCec.Manufacturer | controller/scripts/probe_hdmi_cec.py:95-96 | the vendor table's name for the vendor id, or `Unknown` |
| HdmiCec.DefaultVendorNames | controller/scripts/remote_control.py:9-18 | without a lookup file `6673` is `Chromecast`, `7173227` is `Panasonic`, and any other id is `Unknown` |
| HdmiCec.DeviceOfFields | controller/scripts/probe_hdmi_cec.py:86-96 | `DeviceOf`: a complete line gives a device with the captured fields, the integer `port_id`, `mac_address` `Not available` and the looked-up manufacturer |
| HdmiCec.ParseConnectedDevices | controller/scripts/remote_control.py:84-98 | one device per `CEC:` line in line order; it raises iff some line lacks a field |
| HdmiCec.DetermineFunctions | controller/scripts/probe_hdmi_cec.py:101-106 | each of the three texts is returned iff the type is `0`, `4`, or neither |
| HdmiCec.ArcIdsSpec | controller/scripts/probe_hdmi_cec.py:114 | with every id present the ARC list exists; it is empty iff no port has a truthy `arc`; it names every such port and only such ports |
| HdmiCec.ArcIdsPositions | controller/scripts/probe_hdmi_cec.py:114 | `ArcIds` exists iff every port with a truthy `arc` has a `port_id`, and then it is `str(port_id)` of exactly those ports, one per port, in port order |
| HdmiCec.ArcLineNamesPort | controller/scripts/probe_hdmi_cec.py:114-116 | when a port has ARC on, the summary's second line is `ARC enabled on ports: ` with the ARC ids joined by `, `, and that list holds the port's id |
| HdmiCec.FirstDevice | controller/scripts/probe_hdmi_cec.py:118 | the first device whose `port_id` equals the port's, or none when no device has it |
| HdmiCec.PortLineDevice | controller/scripts/probe_hdmi_cec.py:118-126 | a port line names the first device with the port's id, or says `No device detected.` |
| HdmiCec.Unassigned | controller/scripts/probe_hdmi_cec.py:127 | an unassigned device is a device with `port_id == -1`, and every such device is one |
| HdmiCec.UnassignedInOrder | controller/scripts/probe_hdmi_cec.py:127 | the unassigned devices are exactly the devices with `port_id == -1`, one per such device, in their order |
| HdmiCec.PortLines | controller/scripts/probe_hdmi_cec.py:117-126 | one line per port, in port order |
| HdmiCec.Descriptions | controller/scripts/probe_hdmi_cec.py:130-135 | one description per device, in order |
| HdmiCec.Head | controller/scripts/probe_hdmi_cec.py:112-116 | the header line, then the ARC line of `ArcIds` exactly when some port has ARC on |
| HdmiCec.DescribePorts | controller/scripts/probe_hdmi_cec.py:117-126 | the port loop gives the port lines, and raises iff some port has no `port_id` |
| HdmiCec.DescribeDevices | controller/scripts/probe_hdmi_cec.py:130-135 | the loop over unassigned devices gives their descriptions |
| HdmiCec.GenerateSummary | controller/scripts/probe_hdmi_cec.py:109-136 | `generate_summary` returns `Summary`, the newline join of `SummaryLines`, or raises where `Summary` is `None` |
| HdmiCec.SummaryRaises | controller/scripts/probe_hdmi_cec.py:117-118 | the summary raises iff some port has no `port_id` |
| HdmiCec.SummaryLength | controller/scripts/remote_control.py:111-136 | 1 + (1 if some port has ARC) + one per port + (1 + #unassigned if any) lines |
| HdmiCec.SummaryPortLines | controller/scripts/probe_hdmi_cec.py:112-126 | the summary starts with the header, and the port lines follow the ARC line in port order |
| HdmiCec.SummaryOtherLines | controller/scripts/probe_hdmi_cec.py:127-136 | the closing lines come after the port lines and end the summary |
| HdmiCec.OtherLinesSpec | controller/scripts/probe_hdmi_cec.py:127-135 | no closing lines without unassigned devices; otherwise the heading and each unassigned device in order |
| HdmiCec.SummarySplits | controller/scripts/probe_hdmi_cec.py:136 | when no line holds a newline, splitting the text at newlines gives back the lines |
| HdmiCec.AsWrittenRejectsGetprop | controller/scripts/remote_control.py:146-147 | a `[key]: [value]` line contains `:`, but once its `]` are removed it holds no `[:` |
| HdmiCec.SysPropsAsWrittenRaises | controller/scripts/probe_hdmi_cec.py:146-147 | as written (`SysPropsAsWritten`), any output holding a `getprop`-format line raises |
| HdmiCec.DeviceTypePropRaises | controller/scripts/probe_hdmi_cec.py:145-147 | the line `[ro.hdmi.device_type]: [4]` makes it raise |
| HdmiCec.PropEntry | controller/scripts/probe_hdmi_cec.py:146-147 | corrected split: a line gives an entry iff it contains `:` |
| HdmiCec.PropEntryOfGetprop | controller/scripts/probe_hdmi_cec.py:146-147 | corrected, a `getprop` line reads back as its key and value |
| HdmiCec.SysPropsLastWins | controller/scripts/probe_hdmi_cec.py:146-147 | corrected (`SysProps`), the dictionary has unique keys and gives each property the value of its last line |
| Dict.BuildLastWins | controller/scripts/probe_hdmi_cec.py:41-44 | building a dictionary by assignment in order leaves unique keys, each holding the value of its last assignment |
| Dict.AssignLookup | controller/castService.js:44 | `Map.set` makes the key read the new value and leaves the other keys alone; an existing key keeps its place; a new key goes at the end |
| Dict.DeleteLookup | controller/castService.js:51 | after a delete the key is absent and the other keys read as before |
| Dict.DeleteKeys | controller/castService.js:51 | a delete removes the key from the key order and keeps the rest in order |
| CastRegistry.EndpointOf | controller/castService.js:41-44 | the endpoint is the first announced address (or none) and the port |
| CastRegistry.CastService.constructor | controller/castService.js:10-14 | no devices, no clients, nothing written |
| CastRegistry.CastService.Init | controller/castService.js:16-27 | an unreadable or invalid cache changes nothing; otherwise every cache entry is set into `devices`, in order |
| CastRegistry.CastService.Persist | controller/castService.js:35-38 | the current devices are appended to what has been written |
| CastRegistry.CastService.AddOrUpdate | controller/castService.js:40-47 | the uid is set to the announced endpoint, and the devices are persisted |
| CastRegistry.CastService.Remove | controller/castService.js:49-55 | the uid is deleted; the devices are persisted iff the uid was known; an unknown uid changes and writes nothing |
| CastRegistry.CastService.ListDevices | controller/castService.js:57-59 | the uids in insertion order |
| CastRegistry.CastService.GetClient | controller/castService.js:61-89 | a cached client is returned unchanged. Otherwise an unknown uid fails with `Unknown device UID: <uid>` and changes nothing. A failed connect caches nothing. A successful connect caches a new client for the device's endpoint, whose id differs from every cached client's. The id counter advances only when a connect is tried |
| CastRegistry.CastService.OnClientError | controller/castService.js:81-85 | the uid's client is dropped |
| CastRegistry.CastService.Disconnect | controller/castService.js:255-263 | a cached client is dropped with `disconnected`; otherwise it fails with `No active client for UID <uid>` and changes nothing |
| CastRegistry.PersistReloads | controller/castService.js:17-23 | a persisted snapshot loads back into a new service (`Reload`) as the same devices, in the same order when no uid is integer-like |
| CastRegistry.AddOrUpdateListing | controller/castService.js:40-45 | after an up event the uid reads the new endpoint and the other uids are untouched; a new uid is listed last, a known one keeps its place |
| CastRegistry.RemoveListing | controller/castService.js:49-55 | after a down event the uid is absent; the other uids keep their endpoints and their order |
| CastRegistry.QueueOptions | controller/castService.js:204 | the merged options exist iff the options JSON parses |
| CastRegistry.QueueOptionsInsertBefore | controller/castService.js:219-222 | `insertBefore` is always the supplied id; every other option passes unchanged |
| Onboarding.Scan | controller/index.js:45 | a scan success means the text has the element's shape at that position |
| Onboarding.MatchAt | controller/index.js:45-46 | a captured code is one or more ASCII letters or digits |
| Onboarding.FindFrom | controller/index.js:45 | the leftmost match: no earlier position matches, and no match at all gives none |
| Onboarding.FindCode | controller/index.js:45-47 | a code found is one or more ASCII letters or digits |
| Onboarding.MatchElement | controller/index.js:45 | an element in the pattern's shape (case-insensitive tags, whitespace as in `\s`) matches where it starts and captures its code |
| Onboarding.MatchIsElement | controller/index.js:45 | every match is such an element |
| Onboarding.FindElement | controller/index.js:45-47 | the first such element on the page gives the code |
| Onboarding.CodeIsTrimmed | controller/index.js:47 | the `trim()` of a captured code changes nothing |
| Onboarding.Onboard.constructor | controller/index.js:22-24 | no code, no token, no socket |
| Onboarding.Onboard.FetchVerificationCode | controller/index.js:30-58 | True iff the fetch succeeded and the page matches, and then the code is stored; otherwise nothing changes |
| Onboarding.Onboard.StartSocketIO | controller/index.js:130-139 | without a token nothing happens; with one the socket opens with that token |
| Onboarding.Onboard.PollForJwt | controller/index.js:102-125 | the token is taken and the socket opened iff the reply is `registered` with a truthy `jwt`; otherwise another poll is scheduled |
| Onboarding.Onboard.RegisterDevice | controller/index.js:64-96 | without a code it only reschedules itself; with one the effects are exactly one registration and one poll, followed by the socket opening with the token when the reply accepts and another poll scheduled otherwise; the token and socket are stated in both cases |
| Onboarding.FirstHit | controller/index.js:241-242 | the first fetch result that yields a code |
| Onboarding.Onboard.FetchUntilCode | controller/index.js:240-247 | the loop stops right after the first fetch that yields a code, with that code stored; if none does, it runs out with the code unchanged |
| Onboarding.Onboard.Startup | controller/index.js:239-249 | the retry loop stops at the first page yielding a code; then the effects are exactly one registration with that code and one poll, followed by the socket opening or another poll being scheduled, with the token and socket stated |
| Onboarding.StatusPageOf | controller/index.js:199-231 | `Connecting…` iff neither code nor token; the code page iff a code and no token; `Device Connected` iff a token |
| Onboarding.ExitResultSpec | controller/index.js:183-188 | `ExitResult` is success iff exit code 0, with stdout. A failure message is the trimmed stderr, or `Exit code N` when that is empty (`Exit code null` for a signal exit), and never empty |
| Onboarding.RunLocal | controller/index.js:171-191 | the stdout and stderr chunks delivered before `exit` are accumulated in order, and the exit rule is applied |
| Onboarding.ReplyTo | controller/index.js:153-163 | the reply echoes the id; its status is `ok` iff the command succeeded, else `error` with the message |
| Onboarding.ReplyOfExit | controller/index.js:153-188 | a command replies `ok` iff its process exits with 0, and a failed reply always carries a message |
| Portal.Before | opt-suitestream/portal/server.js:10-11 | `split(c)[0]`: without `c` the whole text, otherwise the text up to the first `c` |
| Portal.HostOf | opt-suitestream/portal/server.js:10 | a missing Host header gives an empty host; a host never contains `:` |
| Portal.RouteSpec | opt-suitestream/portal/server.js:9-19 | `Route`: a probe path goes to the portal root whatever the host; otherwise a non-empty foreign host goes to the same URL on the portal; the request passes iff it is not a probe and the host is empty or the portal |
| Portal.RouteIgnoresPortAndQuery | opt-suitestream/portal/server.js:10-11 | the port in the Host header and the query in the URL do not change the decision |
| Portal.RedirectSettles | opt-suitestream/portal/server.js:12-18 | following a redirect never redirects again, unless the URL is itself a probe path |
| Portal.NonBlank | opt-suitestream/portal/server.js:26 | only non-blank lines are kept, untrimmed, each taken from the input |
| Portal.NonBlankKeeps | opt-suitestream/portal/server.js:26 | every non-blank line is kept |
| Portal.NonBlankAll | opt-suitestream/portal/server.js:26 | a list without blank lines is kept whole |
| Portal.NonBlankAppend | opt-suitestream/portal/server.js:26 | the filter distributes over concatenation, so input order is kept |
| Portal.SsidsOfFile | opt-suitestream/portal/server.js:23-27 | `Ssids` of a file listing SSIDs one per line reads back as those SSIDs in order; an empty file gives none |
| Portal.SsidsFinalNewline | opt-suitestream/portal/server.js:25-26 | a final newline does not change the list |
| Portal.OptionsAppend | opt-suitestream/portal/server.js:53 | `Options` renders a list as the renderings of its parts in order |
| Portal.OptionsOne | opt-suitestream/portal/server.js:53 | one SSID renders as one `<option>` element |

## Findings

| source | as written | input that shows it | evidently intended | confidence | as-written member | corrected member |
|---|---|---|---|---|---|---|
| controller/scripts/probe_hdmi_cec.py:146-147 (also controller/scripts/remote_control.py:146-147) | removes every `]` from each line holding `:`, splits at the first `[:`, and unpacks the result into `k, v` | `[ro.hdmi.device_type]: [4]` becomes `[ro.hdmi.device_type: [4` after the removal; it holds no `[:`, so the split gives one piece and the unpacking raises `ValueError`, which aborts the whole layout scan | each `getprop` line `[key]: [value]` gives the entry key → value | high; not executed | HdmiCec.SysPropsAsWrittenRaises | HdmiCec.SysPropsLastWins |

## Left out

- Shell commands, sockets, HTTP, file reads and writes, timers and process spawning are left out. Their results are parameters: a `ProcOutcome`, an optional page, reply, cache or file text. The `ping`, `nc`, `dig`, `adb`, `dumpsys` and `getprop` command strings are not modelled.
- The thread pool is modelled as a sequential map, since `map` returns results in input order. Pool size and timeouts are not modelled.
- Regular-expression matching in the HDMI-CEC parsers is left out. Each parser starts from what its pattern captured: the block lines, the info line's field groups, or the `CEC:` lines' field groups. The `display_name` lazy group and `splitlines()` of the block are not re-verified. The verification-code pattern of index.js is modelled exactly.
- Tk widgets are left out. The list box and drop-down are sequences; message boxes and the result tree are returned values. `connect_to_adb` only runs `adb` commands and is left out.
- ConfigParser's on-disk format, and the order in which other sections are kept, are left out. The `ADB_Devices` section is an ordered dictionary. ConfigParser's `[DEFAULT]` section is left out: its keys would count in `len(config['ADB_Devices'])` and `values()`, shifting the `device_{len}` slot. So is `%` interpolation of stored values.
- `vendor_lookup.json` is left out when present: its parsed table is a parameter, and its values are taken to be strings.
- Text handling is narrowed in three places. `lower()` is modelled for ASCII letters only. `int()` is modelled for ASCII digits, an optional sign and single underscores; other Unicode digits are not modelled. Node's decoding of process output chunks into strings is not modelled.
- CastRegistry.CastService.Init: the cache entries are given in the order `for … in` visits them. JavaScript's ordering of integer-like keys first is not modelled, and a JSON value that is not an object counts as a parse failure.
- CastRegistry.CastService.GetClient: a failed connect or launch returns the placeholder message `connection failed` rather than the castv2 error text.
- CastRegistry.CastService.GetClient: whether the connect succeeds is a parameter. The castv2 client, the receiver launch and the client's `close()` are not modelled.
- CastRegistry.CastService.GetClient: each call runs to completion. Two `_getClient` calls for the same uid that interleave across the `await` of the connect are not modelled; in the source both would connect and the later one would overwrite the cached client.
- ServiceScan.ScanService: the model always returns one of the six verdicts. In the source the `service_commands[port]` unpacking and `command_template.format(ip=..., timeout=...)` sit outside the `try`, so an entry that is not a pair, or a template naming a field other than `ip` and `timeout`, raises out of `scan_service` and aborts `custom_search`. The model types each entry as a pair and takes the formatted command to succeed; `service_commands` comes from the GUI's caller, which is not part of this model. The same holds for AdbRegistry.ControlPanel.CustomSearch.
- The media commands of castService.js are left out: play, pause, stop, seek, volume, load, the queue calls themselves, tracks and groups. They call into the castv2 client; the volume and seek commands also use floating-point arithmetic. Only the `insertBefore` option merge of `queueInsert` and `queueReorder` is modelled.
- Onboarding.Onboard.FetchUntilCode: the source retries forever every two seconds. The model is bounded by the fetch results it is given, so it also ends when they run out.
- Onboarding.Onboard.RegisterDevice: the outcome of the initial POST is not modelled, because the source logs it and polls regardless. The browser-details payload is not modelled. Only the first poll is modelled; later polls are `PollForJwt` again.
- Onboarding.RunLocal: two Node behaviours of `runLocal` are not modelled. (a) When `spawn` fails, for example because `cec-client` is missing, the child emits `'error'` and no `'exit'`. `runLocal` installs no `'error'` listener, so the controller process dies with an uncaught exception and no `device-reply` is sent; the model has no outcome for this. (b) `'exit'` can fire before the stdout and stderr streams drain. The model takes only the chunks delivered before `exit`, so a failure can read `Exit code N` although stderr later carries text.
- The socket's connect, disconnect and reconnect handlers only log and are left out. The command types and arguments passed to `runLocal` are left out.
- The portal's `/connect` handler only runs shell commands and sets a reboot timer, so it is left out. So is the rest of the landing page's HTML, apart from the `<option>` list.
- `cast.py` and `google_cast_control.py` are command-line wrappers around pychromecast and are not part of this model.
- `app_controls.py` calls `ping_ip`, `check_mdns` and `check_adb_port` without defining them. They are taken to be the cec_control.py predicates.
