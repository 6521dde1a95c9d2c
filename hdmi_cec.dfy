/** The HDMI-CEC layout probe (probe_hdmi_cec.py, and its copy
    remote_control.py): parsers for the text of `dumpsys hdmi_control`, the
    vendor table, the device-type table, the plain-text summary and the
    `getprop` key/value split.  The regular-expression searches are taken as
    already done: each parser starts from what its pattern captured. */
module HdmiCec {
  import opened Text
  import opened Dict

  /** The Python values a parsed port holds. */
  datatype PyValue = Str(s: string) | Int(i: int) | Bool(b: bool)

  /** A parsed port: the dictionary built from one `mPortInfo:` line. */
  type Port = Dict<PyValue>

  // -----------------------------------------------------------------------
  // parse_port_info

  /** One comma-separated part of a port line: split at its first `:` into a
      stripped key and value, or nothing when it has no `:`. */
  function Field(part: string): (r: Option<(string, string)>)
    ensures r.Some? <==> ':' in part
  {
    if ':' in part then
      var i := IndexOf(part, ':');
      Some((PyStrip(part[..i]), PyStrip(part[i + 1..])))
    else None
  }

  /** The raw dictionary of a line's parts: each part with a `:` in turn
      writes its key, so a later duplicate overwrites an earlier one in
      place. */
  function RawFields(parts: seq<string>): Dict<string> {
    Build(parts, Field)
  }

  /** The conversions applied to the raw dictionary: `port_id` becomes an
      int when `int()` accepts it, and each of `cec`, `arc`, `mhl` becomes
      whether its lower-cased value is `true`. */
  function Convert(k: string, v: string): PyValue {
    if k == "port_id" then
      match PyInt(v)
      case Some(n) => Int(n)
      case None => Str(v)
    else if IsFlag(k) then
      Bool(Lower(v) == "true")
    else
      Str(v)
  }

  predicate IsFlag(k: string) { k == "cec" || k == "arc" || k == "mhl" }

  function ConvertAll(raw: Dict<string>): (d: Dict<PyValue>)
    ensures |d| == |raw|
  {
    seq(|raw|, i requires 0 <= i < |raw| => (raw[i].0, Convert(raw[i].0, raw[i].1)))
  }

  /** The dictionary `parse_port_info` builds for one line of the block. */
  function PortOfLine(line: string): Port {
    ConvertAll(RawFields(Split(PyStrip(line), ',')))
  }

  /** What the conversions do: the keys are the raw keys in the same order
      (absent flags stay absent), `port_id` is an int exactly when it
      parses, a flag is `True` exactly when it reads `true` in any letter
      case, and every other value stays the stripped text. */
  lemma ConvertAllLookup(raw: Dict<string>, k: string)
    ensures Keys(ConvertAll(raw)) == Keys(raw)
    ensures Lookup(ConvertAll(raw), k).Some? <==> Lookup(raw, k).Some?
    ensures Lookup(raw, k).Some? ==> var v := Lookup(raw, k).value;
      && (k == "port_id" && PyInt(v).Some? ==> Lookup(ConvertAll(raw), k) == Some(Int(PyInt(v).value)))
      && (k == "port_id" && PyInt(v).None? ==> Lookup(ConvertAll(raw), k) == Some(Str(v)))
      && (IsFlag(k) ==> Lookup(ConvertAll(raw), k) == Some(Bool(Lower(v) == "true")))
      && (k != "port_id" && !IsFlag(k) ==> Lookup(ConvertAll(raw), k) == Some(Str(v)))
  {
    PositionSameKeys(raw, ConvertAll(raw), k);
  }

  /** `parse_port_info` on the one line of a port: the loop over the
      comma-separated parts, then the two conversion steps. */
  method ParsePortLine(line: string) returns (portData: Port)
    ensures portData == PortOfLine(line)
  {
    var parts := Split(PyStrip(line), ',');
    var raw: Dict<string> := [];
    var i := 0;
    while i < |parts|
      invariant 0 <= i <= |parts|
      invariant raw == RawFields(parts[..i])
    {
      assert parts[..i + 1][..i] == parts[..i];
      var part := parts[i];
      if ':' in part {
        var kv := Field(part);
        raw := Assign(raw, kv.value.0, kv.value.1);
      }
      i := i + 1;
    }
    assert parts[..i] == parts;
    BuildLastWins(parts, Field);
    portData := ConvertSteps(raw);
  }

  /** The raw dictionary with the values of the keys in `done` converted
      and every other value still text. */
  function Stage(raw: Dict<string>, done: seq<string>): (d: Port)
    ensures |d| == |raw|
  {
    seq(|raw|, i requires 0 <= i < |raw| => (raw[i].0, if raw[i].0 in done then Convert(raw[i].0, raw[i].1) else Str(raw[i].1)))
  }

  /** Converting key `k` in place moves it from text to converted: an absent
      key changes nothing, a present one is overwritten at its position. */
  lemma StageStep(raw: Dict<string>, done: seq<string>, k: string)
    requires UniqueKeys(raw) && k !in done
    ensures Position(Stage(raw, done), k).None? ==> Stage(raw, done + [k]) == Stage(raw, done)
    ensures Position(Stage(raw, done), k).Some? ==> var p := Position(Stage(raw, done), k).value;
      && Stage(raw, done)[p].1 == Str(raw[p].1)
      && Stage(raw, done + [k]) == Stage(raw, done)[p := (k, Convert(k, raw[p].1))]
  {
    var d, e := Stage(raw, done), Stage(raw, done + [k]);
    match Position(d, k)
    case None =>
      assert forall i :: 0 <= i < |raw| ==> raw[i].0 == d[i].0 != k;
    case Some(p) =>
      assert forall i :: 0 <= i < |raw| && i != p ==> raw[i].0 != k;
      assert e == d[p := (k, Convert(k, raw[p].1))];
  }

  /** Every key the conversions look at converted is the fully converted
      dictionary. */
  lemma StageDone(raw: Dict<string>)
    ensures Stage(raw, ["port_id", "cec", "arc", "mhl"]) == ConvertAll(raw)
  {
  }

  /** The conversion steps on a raw dictionary. */
  method ConvertSteps(raw: Dict<string>) returns (portData: Port)
    requires UniqueKeys(raw)
    ensures portData == ConvertAll(raw)
  {
    portData := seq(|raw|, i requires 0 <= i < |raw| => (raw[i].0, Str(raw[i].1)));
    assert portData == Stage(raw, []);
    StageStep(raw, [], "port_id");
    var p := Position(portData, "port_id");
    if p.Some? {
      var cur := portData[p.value].1;
      match PyInt(cur.s) {
        case Some(n) =>
          assert Convert("port_id", raw[p.value].1) == Int(n);
          portData := Assign(portData, "port_id", Int(n));
        case None =>
          assert portData[p.value := ("port_id", Convert("port_id", raw[p.value].1))] == portData;
      }
    }
    portData := ConvertFlags(raw, portData);
  }

  /** The loop over `cec`, `arc`, `mhl` of the conversion steps. */
  method ConvertFlags(raw: Dict<string>, stage: Port) returns (portData: Port)
    requires UniqueKeys(raw) && stage == Stage(raw, ["port_id"])
    ensures portData == ConvertAll(raw)
  {
    portData := stage;
    var flags := ["cec", "arc", "mhl"];
    var f := 0;
    while f < 3
      invariant 0 <= f <= 3
      invariant portData == Stage(raw, ["port_id"] + flags[..f])
    {
      var flag := flags[f];
      var done := ["port_id"] + flags[..f];
      StageStep(raw, done, flag);
      var q := Position(portData, flag);
      if q.Some? {
        var cur := portData[q.value].1;
        assert IsFlag(flag) && cur == Str(raw[q.value].1);
        portData := Assign(portData, flag, Bool(Lower(cur.s) == "true"));
      }
      assert ["port_id"] + flags[..f + 1] == done + [flag];
      f := f + 1;
    }
    assert ["port_id"] + flags[..3] == ["port_id", "cec", "arc", "mhl"];
    StageDone(raw);
  }

  /** The dictionaries of the lines of a block, in order. */
  function PortsOf(lines: seq<string>): (ps: seq<Port>)
    ensures |ps| == |lines|
  {
    if lines == [] then [] else PortsOf(lines[..|lines| - 1]) + [PortOfLine(lines[|lines| - 1])]
  }

  method ParsePortInfo(block: Option<seq<string>>) returns (ports: seq<Port>)
    ensures block.None? ==> ports == []
    ensures block.Some? ==> ports == PortsOf(block.value)
  {
    ports := [];
    if block.Some? {
      var lines := block.value;
      var i := 0;
      while i < |lines|
        invariant 0 <= i <= |lines|
        invariant ports == PortsOf(lines[..i])
      {
        assert lines[..i + 1][..i] == lines[..i];
        var portData := ParsePortLine(lines[i]);
        ports := ports + [portData];
        i := i + 1;
      }
      assert lines[..i] == lines;
    }
  }

  /** Each dictionary of the block is the one of its own line. */
  lemma {:induction false} PortsOfEach(lines: seq<string>)
    ensures forall i :: 0 <= i < |lines| ==> PortsOf(lines)[i] == PortOfLine(lines[i])
  {
    if lines != [] {
      var n := |lines| - 1;
      var init := lines[..n];
      PortsOfEach(init);
      var before := PortsOf(init);
      var ps := PortsOf(lines);
      assert ps == before + [PortOfLine(lines[n])];
      forall i | 0 <= i < |lines|
        ensures ps[i] == PortOfLine(lines[i])
      {
        if i < n {
          assert ps[i] == before[i] && init[i] == lines[i];
        }
      }
    }
  }

  /** A line's dictionary has no repeated key, and reading key `k` from it
      gives the converted value of the last part with key `k`, or nothing
      where no part has that key. */
  lemma PortOfLineLookup(line: string, k: string)
    ensures UniqueKeys(PortOfLine(line))
    ensures var last := LastEntry(Split(PyStrip(line), ','), Field, k);
      && (last.None? ==> Lookup(PortOfLine(line), k).None?)
      && (last.Some? ==> Lookup(PortOfLine(line), k) == Some(Convert(k, last.value)))
  {
    var parts := Split(PyStrip(line), ',');
    var raw := RawFields(parts);
    BuildLastWins(parts, Field);
    ConvertAllLookup(raw, k);
    var d := ConvertAll(raw);
    assert forall i :: 0 <= i < |d| ==> d[i].0 == raw[i].0;
  }

  // -----------------------------------------------------------------------
  // parse_local_device

  /** What the searches of `parse_local_device` found: no
      `HdmiCecLocalDevice` block, a block without an `mDeviceInfo: CEC:`
      line, or that line with the group each field search captured (`None`
      where the search found nothing). */
  datatype LocalMatch =
    | NoBlock
    | NoInfo
    | Info(logicalAddress: Option<string>, deviceType: Option<string>, vendorId: Option<string>,
           displayName: Option<string>, physicalAddress: Option<string>)

  const NotAvailable := "Not available"

  predicate InfoComplete(m: LocalMatch)
    requires m.Info?
  {
    m.logicalAddress.Some? && m.deviceType.Some? && m.vendorId.Some? && m.displayName.Some? && m.physicalAddress.Some?
  }

  /** `parse_local_device`: `{}` without a block or info line; `None` where
      `.group` is called on a failed search and raises; otherwise the six
      keys in the order they are assigned. */
  function ParseLocalDevice(m: LocalMatch): (r: Option<Dict<string>>)
    ensures !m.Info? ==> r == Some([])
    ensures m.Info? ==> (r.Some? <==> InfoComplete(m))
  {
    match m
    case Info(la, dt, vid, name, pa) =>
      if la.Some? && dt.Some? && vid.Some? && name.Some? && pa.Some? then
        Some([("logical_address", la.value), ("device_type", dt.value), ("vendor_id", vid.value),
              ("display_name", name.value), ("physical_address", pa.value), ("mac_address", NotAvailable)])
      else None
    case _ => Some([])
  }

  /** The keys a parsed local device holds, in the order they are assigned. */
  const LocalKeys: seq<string> :=
    ["logical_address", "device_type", "vendor_id", "display_name", "physical_address", "mac_address"]

  /** A parsed local device has exactly the six keys, each once. */
  lemma LocalDeviceKeys(m: LocalMatch)
    requires m.Info? && InfoComplete(m)
    ensures Keys(ParseLocalDevice(m).value) == LocalKeys
    ensures UniqueKeys(ParseLocalDevice(m).value)
  {
  }

  /** Each key of a parsed local device holds what its search captured, and
      `mac_address` is always `Not available`. */
  lemma LocalDeviceFields(m: LocalMatch)
    requires m.Info? && InfoComplete(m)
    ensures var d := ParseLocalDevice(m).value;
      && Lookup(d, "logical_address") == m.logicalAddress
      && Lookup(d, "device_type") == m.deviceType
      && Lookup(d, "vendor_id") == m.vendorId
      && Lookup(d, "display_name") == m.displayName
      && Lookup(d, "physical_address") == m.physicalAddress
      && Lookup(d, "mac_address") == Some(NotAvailable)
  {
    var d := ParseLocalDevice(m).value;
    LocalDeviceKeys(m);
    LookupUnique(d, 0);
    LookupUnique(d, 1);
    LookupUnique(d, 2);
    LookupUnique(d, 3);
    LookupUnique(d, 4);
    LookupUnique(d, 5);
  }

  // -----------------------------------------------------------------------
  // Vendor table and parse_connected_devices

  /** The table used when `vendor_lookup.json` does not exist. */
  const DefaultVendors: Dict<string> := [("6673", "Chromecast"), ("7173227", "Panasonic")]

  /** `vendor_lookup`: the table read from `vendor_lookup.json` when that file
      exists (reading it is not modelled), the default table otherwise. */
  function VendorLookup(file: Option<Dict<string>>): Dict<string> {
    match file
    case Some(t) => t
    case None => DefaultVendors
  }

  /** `vendor_lookup.get(vid, "Unknown")`. */
  function Manufacturer(table: Dict<string>, vid: string): (r: string)
    ensures Lookup(table, vid).None? ==> r == "Unknown"
    ensures Lookup(table, vid).Some? ==> r == Lookup(table, vid).value
  {
    match Lookup(table, vid)
    case Some(name) => name
    case None => "Unknown"
  }

  /** Without a lookup file, `6673` is a Chromecast, `7173227` a Panasonic,
      and every other vendor id is unknown. */
  lemma DefaultVendorNames(vid: string)
    ensures vid == "6673" ==> Manufacturer(VendorLookup(None), vid) == "Chromecast"
    ensures vid == "7173227" ==> Manufacturer(VendorLookup(None), vid) == "Panasonic"
    ensures vid != "6673" && vid != "7173227" ==> Manufacturer(VendorLookup(None), vid) == "Unknown"
  {
    var t := DefaultVendors;
    if vid == "6673" {
      PositionOfFirst(t, vid, 0);
    } else if vid == "7173227" {
      PositionOfFirst(t, vid, 1);
    } else {
      PositionOfAbsent(t, vid);
    }
  }

  /** One `CEC:` line as its field searches saw it: the group each search
      captured (`None` where it found nothing) and the `port_id` digits,
      which the line pattern itself guarantees. */
  datatype DeviceMatch = DeviceMatch(
    logicalAddress: Option<string>, displayName: Option<string>, deviceType: Option<string>,
    vendorId: Option<string>, physicalAddress: Option<string>, portId: string)

  /** A connected device: the dictionary `parse_connected_devices` builds,
      whose keys are always these eight. */
  datatype Device = Device(
    logicalAddress: string, displayName: string, deviceType: string, vendorId: string,
    physicalAddress: string, portId: int, macAddress: string, manufacturer: string)

  /** The device of one `CEC:` line, or `None` where a failed search or
      `int()` raises. */
  function DeviceOf(m: DeviceMatch, table: Dict<string>): Option<Device> {
    if m.logicalAddress.Some? && m.displayName.Some? && m.deviceType.Some? && m.vendorId.Some?
       && m.physicalAddress.Some? && PyInt(m.portId).Some?
    then
      Some(Device(m.logicalAddress.value, m.displayName.value, m.deviceType.value, m.vendorId.value,
                  m.physicalAddress.value, PyInt(m.portId).value, NotAvailable,
                  Manufacturer(table, m.vendorId.value)))
    else None
  }

  /** A device built from a complete line keeps the captured fields, reads
      the `port_id` digits as the integer they print, has `mac_address`
      `Not available`, and has the manufacturer the vendor table gives (or
      `Unknown`). */
  lemma DeviceOfFields(m: DeviceMatch, table: Dict<string>, n: int)
    requires m.logicalAddress.Some? && m.displayName.Some? && m.deviceType.Some?
    requires m.vendorId.Some? && m.physicalAddress.Some?
    requires m.portId == IntToString(n)
    ensures DeviceOf(m, table).Some?
    ensures var d := DeviceOf(m, table).value;
      && d.portId == n && d.macAddress == NotAvailable
      && d.displayName == m.displayName.value && d.vendorId == m.vendorId.value
      && (Lookup(table, d.vendorId).None? ==> d.manufacturer == "Unknown")
      && (Lookup(table, d.vendorId).Some? ==> d.manufacturer == Lookup(table, d.vendorId).value)
  {
    PyIntOfIntToString(n);
  }

  /** `parse_connected_devices`: one device per `CEC:` line, in the order
      of the lines, or `None` where a line makes a `.group` call raise. */
  method ParseConnectedDevices(matches: seq<DeviceMatch>, table: Dict<string>) returns (devices: Option<seq<Device>>)
    ensures devices.Some? <==> forall i :: 0 <= i < |matches| ==> DeviceOf(matches[i], table).Some?
    ensures devices.Some? ==> |devices.value| == |matches|
    ensures devices.Some? ==> forall i :: 0 <= i < |matches| ==> devices.value[i] == DeviceOf(matches[i], table).value
  {
    var result: seq<Device> := [];
    var i := 0;
    while i < |matches|
      invariant 0 <= i <= |matches| && |result| == i
      invariant forall j :: 0 <= j < i ==> DeviceOf(matches[j], table).Some? && result[j] == DeviceOf(matches[j], table).value
    {
      var m := matches[i];
      if !(m.logicalAddress.Some? && m.displayName.Some? && m.deviceType.Some? && m.vendorId.Some?
           && m.physicalAddress.Some? && PyInt(m.portId).Some?) {
        return None;
      }
      var dev := Device(m.logicalAddress.value, m.displayName.value, m.deviceType.value, m.vendorId.value,
                        m.physicalAddress.value, PyInt(m.portId).value, NotAvailable, "");
      var vid := dev.vendorId;
      dev := dev.(manufacturer := Manufacturer(table, vid));
      result := result + [dev];
      i := i + 1;
    }
    devices := Some(result);
  }

  // -----------------------------------------------------------------------
  // determine_functions

  /** `determine_functions`: what a CEC device type can do. */
  function DetermineFunctions(deviceType: string): (r: string)
    ensures r == "Power On/Off, Volume, Change Channels" <==> deviceType == "0"
    ensures r == "Power On/Off, Volume" <==> deviceType == "4"
    ensures r == "Unknown functions" <==> deviceType != "0" && deviceType != "4"
  {
    if deviceType == "0" then "Power On/Off, Volume, Change Channels"
    else if deviceType == "4" then "Power On/Off, Volume"
    else "Unknown functions"
  }

  // -----------------------------------------------------------------------
  // generate_summary

  /** Python truthiness of a port value. */
  predicate Truthy(v: PyValue) {
    match v
    case Str(s) => s != []
    case Int(i) => i != 0
    case Bool(b) => b
  }

  /** Python's `str(v)`, which an f-string also uses. */
  function PyStr(v: PyValue): string {
    match v
    case Str(s) => s
    case Int(i) => IntToString(i)
    case Bool(b) => PyBool(b)
  }

  /** `d["port_id"] == p["port_id"]` for a device's int and a port's value:
      an int equals an equal int and the bool of the same value (`True == 1`
      in Python), never a string. */
  predicate SameId(n: int, v: PyValue) {
    match v
    case Int(i) => n == i
    case Bool(b) => n == (if b then 1 else 0)
    case Str(_) => false
  }

  /** Every port has a `port_id` (otherwise reading it raises `KeyError`). */
  predicate HasIds(ports: seq<Port>) {
    forall i :: 0 <= i < |ports| ==> Lookup(ports[i], "port_id").Some?
  }

  function IdOf(p: Port): PyValue
    requires Lookup(p, "port_id").Some?
  {
    Lookup(p, "port_id").value
  }

  /** `p.get("arc")` is truthy. */
  predicate ArcOn(p: Port) {
    Lookup(p, "arc").Some? && Truthy(Lookup(p, "arc").value)
  }

  /** `[str(p["port_id"]) for p in ports if p.get("arc")]`, or `None` where
      a port with ARC has no `port_id`. */
  function ArcIds(ports: seq<Port>): Option<seq<string>> {
    if ports == [] then Some([])
    else
      var n := |ports| - 1;
      match ArcIds(ports[..n])
      case None => None
      case Some(init) =>
        if !ArcOn(ports[n]) then Some(init)
        else if Lookup(ports[n], "port_id").None? then None
        else Some(init + [PyStr(IdOf(ports[n]))])
  }

  /** The ARC list exists exactly when every port with ARC on has a
      `port_id`, and then it is the ids of the ports with ARC on, one per
      such port, in port order. */
  lemma {:induction false} ArcIdsPositions(ports: seq<Port>)
    ensures ArcIds(ports).Some? <==>
      forall i :: 0 <= i < |ports| && ArcOn(ports[i]) ==> Lookup(ports[i], "port_id").Some?
    ensures ArcIds(ports).Some? ==>
      var pos := Positions(ports, ArcOn);
      |ArcIds(ports).value| == |pos|
      && forall k :: 0 <= k < |pos| ==> ArcIds(ports).value[k] == PyStr(IdOf(ports[pos[k]]))
  {
    if ports != [] {
      var n := |ports| - 1;
      var init := ports[..n];
      ArcIdsPositions(init);
      assert forall i :: 0 <= i < n ==> init[i] == ports[i];
      if ArcIds(ports).Some? {
        var ids := ArcIds(ports).value;
        var before := ArcIds(init).value;
        var pos := Positions(ports, ArcOn);
        var posInit := Positions(init, ArcOn);
        if ArcOn(ports[n]) {
          assert pos == posInit + [n];
          assert ids == before + [PyStr(IdOf(ports[n]))];
        } else {
          assert pos == posInit && ids == before;
        }
        forall k | 0 <= k < |pos|
          ensures ids[k] == PyStr(IdOf(ports[pos[k]]))
        {
          if k < |posInit| {
            assert pos[k] == posInit[k] && ids[k] == before[k];
          }
        }
      }
    }
  }

  /** With every port id present, the ARC list exists and is empty exactly
      when no port has ARC on; it lists only ports with ARC on, and every
      such port. */
  lemma ArcIdsSpec(ports: seq<Port>)
    ensures HasIds(ports) ==> ArcIds(ports).Some?
    ensures ArcIds(ports).Some? ==> |ArcIds(ports).value| <= |ports|
    ensures ArcIds(ports).Some? ==> (ArcIds(ports).value == [] <==> forall i :: 0 <= i < |ports| ==> !ArcOn(ports[i]))
    ensures ArcIds(ports).Some? ==> forall i :: 0 <= i < |ports| && ArcOn(ports[i]) ==>
      Lookup(ports[i], "port_id").Some? && PyStr(IdOf(ports[i])) in ArcIds(ports).value
    ensures ArcIds(ports).Some? ==> forall s :: s in ArcIds(ports).value ==>
      exists i :: 0 <= i < |ports| && ArcOn(ports[i]) && Lookup(ports[i], "port_id").Some? && s == PyStr(IdOf(ports[i]))
  {
    ArcIdsPositions(ports);
    if ArcIds(ports).Some? {
      var ids := ArcIds(ports).value;
      var pos := Positions(ports, ArcOn);
      forall i | 0 <= i < |ports| && ArcOn(ports[i])
        ensures PyStr(IdOf(ports[i])) in ids
      {
        var k :| 0 <= k < |pos| && pos[k] == i;
        assert ids[k] == PyStr(IdOf(ports[i]));
      }
      forall s | s in ids
        ensures exists i :: 0 <= i < |ports| && ArcOn(ports[i]) && Lookup(ports[i], "port_id").Some? && s == PyStr(IdOf(ports[i]))
      {
        var k :| 0 <= k < |ids| && ids[k] == s;
        assert ArcOn(ports[pos[k]]);
      }
    }
  }

  /** The index of the first device whose `port_id` equals `id`: what
      `next((d for d in connected_devices if ...), None)` picks. */
  function FirstDevice(devices: seq<Device>, id: PyValue): (r: Option<nat>)
    ensures r.Some? ==> r.value < |devices| && SameId(devices[r.value].portId, id)
    ensures r.Some? ==> forall j :: 0 <= j < r.value ==> !SameId(devices[j].portId, id)
    ensures r.None? ==> forall j :: 0 <= j < |devices| ==> !SameId(devices[j].portId, id)
  {
    if devices == [] then None
    else if SameId(devices[0].portId, id) then Some(0)
    else match FirstDevice(devices[1..], id)
      case None => None
      case Some(j) => Some(j + 1)
  }

  /** The description of a device: name, functions, logical and physical
      address. */
  function Describe(d: Device): string {
    d.displayName + " | Functions: " + DetermineFunctions(d.deviceType) + " | ID: " + d.logicalAddress
    + " | Phys Addr: " + d.physicalAddress
  }

  /** The summary line of a port with id `id`. */
  function PortLine(id: PyValue, devices: seq<Device>): string {
    "HDMI" + PyStr(id) + " = "
    + match FirstDevice(devices, id)
      case Some(j) => Describe(devices[j])
      case None => "No device detected."
  }

  /** A device whose port could not be determined. */
  predicate IsUnassigned(d: Device) {
    d.portId == -1
  }

  /** `[d for d in connected_devices if d['port_id'] == -1]`. */
  function Unassigned(devices: seq<Device>): (u: seq<Device>)
    ensures |u| <= |devices|
    ensures forall d :: d in u <==> d in devices && d.portId == -1
  {
    if devices == [] then []
    else
      var n := |devices| - 1;
      assert devices == devices[..n] + [devices[n]];
      Unassigned(devices[..n]) + (if IsUnassigned(devices[n]) then [devices[n]] else [])
  }

  /** The unassigned devices are the devices with `port_id == -1`, one per
      such device, in their order. */
  lemma {:induction false} UnassignedInOrder(devices: seq<Device>)
    ensures var pos := Positions(devices, IsUnassigned);
      |Unassigned(devices)| == |pos|
      && forall k :: 0 <= k < |pos| ==> Unassigned(devices)[k] == devices[pos[k]]
  {
    if devices != [] {
      var n := |devices| - 1;
      var init := devices[..n];
      UnassignedInOrder(init);
      var u := Unassigned(devices);
      var pos := Positions(devices, IsUnassigned);
      var posInit := Positions(init, IsUnassigned);
      forall k | 0 <= k < |pos|
        ensures u[k] == devices[pos[k]]
      {
        if k < |posInit| {
          assert pos[k] == posInit[k] && u[k] == Unassigned(init)[k];
          assert init[pos[k]] == devices[pos[k]];
        }
      }
    }
  }

  /** The first line: the local device's `display_name` (`This device` when
      the key is absent) and the number of ports. */
  function HeaderLine(local: Dict<string>, ports: seq<Port>): string {
    var name := match Lookup(local, "display_name") case Some(n) => n case None => "This device";
    name + " has " + NatToString(|ports|) + " HDMI ports detected."
  }

  function ArcLine(ids: seq<string>): string {
    "ARC enabled on ports: " + Join(ids, ", ") + "."
  }

  /** The line of each port, in port order. */
  function PortLines(ports: seq<Port>, devices: seq<Device>): (r: seq<string>)
    requires HasIds(ports)
    ensures |r| == |ports|
    ensures forall i :: 0 <= i < |ports| ==> r[i] == PortLine(IdOf(ports[i]), devices)
  {
    if ports == [] then []
    else
      var n := |ports| - 1;
      assert forall i :: 0 <= i < n ==> ports[..n][i] == ports[i];
      PortLines(ports[..n], devices) + [PortLine(IdOf(ports[n]), devices)]
  }

  /** The description of each device, in order. */
  function Descriptions(devices: seq<Device>): (r: seq<string>)
    ensures |r| == |devices|
    ensures forall i :: 0 <= i < |devices| ==> r[i] == Describe(devices[i])
  {
    if devices == [] then []
    else
      var n := |devices| - 1;
      var init := devices[..n];
      var r := Descriptions(init) + [Describe(devices[n])];
      assert forall i :: 0 <= i < |devices| ==> r[i] == Describe(devices[i]) by {
        forall i | 0 <= i < |devices|
          ensures r[i] == Describe(devices[i])
        {
          if i < n {
            assert init[i] == devices[i];
          }
        }
      }
      r
  }

  /** The closing block: a heading and one description per unassigned
      device, or nothing when no device is unassigned. */
  function OtherLines(devices: seq<Device>): seq<string> {
    var u := Unassigned(devices);
    if u == [] then [] else ["Other detected devices:"] + Descriptions(u)
  }

  /** The number of ARC lines: one when some port has ARC on. */
  function ArcCount(ports: seq<Port>): nat
    requires HasIds(ports)
  {
    ArcIdsSpec(ports);
    if ArcIds(ports).value == [] then 0 else 1
  }

  /** The opening lines: the header, then the ARC line when some port has
      ARC on. */
  function Head(local: Dict<string>, ports: seq<Port>): (h: seq<string>)
    requires HasIds(ports)
    ensures |h| == 1 + ArcCount(ports) && h[0] == HeaderLine(local, ports)
    ensures ArcCount(ports) == 1 ==> ArcIds(ports).Some? && h[1] == ArcLine(ArcIds(ports).value)
  {
    ArcIdsSpec(ports);
    var ids := ArcIds(ports).value;
    [HeaderLine(local, ports)] + (if ids == [] then [] else [ArcLine(ids)])
  }

  /** The lines `generate_summary` appends, or `None` where it raises. */
  function SummaryLines(local: Dict<string>, ports: seq<Port>, devices: seq<Device>): Option<seq<string>> {
    if !HasIds(ports) then None
    else Some(Head(local, ports) + PortLines(ports, devices) + OtherLines(devices))
  }

  /** The text `generate_summary` returns: the lines joined by newlines. */
  function Summary(local: Dict<string>, ports: seq<Port>, devices: seq<Device>): Option<string> {
    match SummaryLines(local, ports, devices)
    case None => None
    case Some(lines) => Some(Join(lines, "\n"))
  }

  /** One more port with a `port_id` adds its line to the port lines. */
  lemma PortLinesStep(ports: seq<Port>, devices: seq<Device>, i: nat)
    requires i < |ports| && HasIds(ports[..i]) && Lookup(ports[i], "port_id").Some?
    ensures HasIds(ports[..i + 1])
    ensures PortLines(ports[..i + 1], devices) == PortLines(ports[..i], devices) + [PortLine(IdOf(ports[i]), devices)]
  {
    assert ports[..i + 1][..i] == ports[..i];
    var upTo := ports[..i + 1];
    forall k | 0 <= k < |upTo|
      ensures Lookup(upTo[k], "port_id").Some?
    {
      if k < i {
        assert upTo[k] == ports[..i][k];
      }
    }
  }

  /** The loop over the ports: each port's line, or `None` at the first port
      without a `port_id`. */
  method DescribePorts(ports: seq<Port>, devices: seq<Device>) returns (lines: Option<seq<string>>)
    ensures lines.Some? <==> HasIds(ports)
    ensures lines.Some? ==> lines.value == PortLines(ports, devices)
  {
    var acc: seq<string> := [];
    var i := 0;
    while i < |ports|
      invariant 0 <= i <= |ports|
      invariant HasIds(ports[..i])
      invariant acc == PortLines(ports[..i], devices)
    {
      var id := Lookup(ports[i], "port_id");
      if id.None? {
        return None;
      }
      var dev := FirstDevice(devices, id.value);
      var described := if dev.Some? then Describe(devices[dev.value]) else "No device detected.";
      var line := "HDMI" + PyStr(id.value) + " = " + described;
      assert line == PortLine(IdOf(ports[i]), devices);
      PortLinesStep(ports, devices, i);
      acc := acc + [line];
      i := i + 1;
    }
    assert ports[..i] == ports;
    lines := Some(acc);
  }

  /** The loop over the unassigned devices. */
  method DescribeDevices(devices: seq<Device>) returns (lines: seq<string>)
    ensures lines == Descriptions(devices)
  {
    lines := [];
    var j := 0;
    while j < |devices|
      invariant 0 <= j <= |devices|
      invariant lines == Descriptions(devices[..j])
    {
      assert devices[..j + 1][..j] == devices[..j];
      lines := lines + [Describe(devices[j])];
      j := j + 1;
    }
    assert devices[..j] == devices;
  }

  /** `generate_summary`: the header, the ARC line, one line per port, and
      the unassigned devices, appended in that order. */
  method GenerateSummary(local: Dict<string>, ports: seq<Port>, devices: seq<Device>) returns (summary: Option<string>)
    ensures summary == Summary(local, ports, devices)
  {
    var lines := [HeaderLine(local, ports)];
    ArcIdsSpec(ports);
    var arc := ArcIds(ports);
    if arc.None? {
      return None;
    }
    if arc.value != [] {
      lines := lines + [ArcLine(arc.value)];
    }
    var portLines := DescribePorts(ports, devices);
    if portLines.None? {
      return None;
    }
    var others: seq<string> := [];
    var unassigned := Unassigned(devices);
    if unassigned != [] {
      var described := DescribeDevices(unassigned);
      others := ["Other detected devices:"] + described;
    }
    assert others == OtherLines(devices);
    assert lines == Head(local, ports);
    lines := lines + portLines.value + others;
    summary := Some(Join(lines, "\n"));
  }

  // -----------------------------------------------------------------------
  // Summary properties

  /** `generate_summary` raises exactly when some port has no `port_id`. */
  lemma SummaryRaises(local: Dict<string>, ports: seq<Port>, devices: seq<Device>)
    ensures Summary(local, ports, devices).None? <==> !HasIds(ports)
  {
  }

  /** The summary has the header, an ARC line when some port has ARC on,
      one line per port, and, when some device is unassigned, a heading and
      one line per such device. */
  lemma SummaryLength(local: Dict<string>, ports: seq<Port>, devices: seq<Device>)
    requires HasIds(ports)
    ensures SummaryLines(local, ports, devices).Some?
    ensures ArcCount(ports) == 1 <==> exists i :: 0 <= i < |ports| && ArcOn(ports[i])
    ensures var u := Unassigned(devices);
      |SummaryLines(local, ports, devices).value| == 1 + ArcCount(ports) + |ports| + (if u == [] then 0 else 1 + |u|)
  {
    ArcIdsSpec(ports);
  }

  /** The summary starts with the header; the port lines follow the ARC line
      in port order. */
  lemma SummaryPortLines(local: Dict<string>, ports: seq<Port>, devices: seq<Device>)
    requires HasIds(ports)
    ensures SummaryLines(local, ports, devices).Some?
    ensures var lines := SummaryLines(local, ports, devices).value;
      && lines[0] == HeaderLine(local, ports)
      && forall i :: 0 <= i < |ports| ==> lines[1 + ArcCount(ports) + i] == PortLines(ports, devices)[i]
  {
    var lines := SummaryLines(local, ports, devices).value;
    var head := Head(local, ports);
    var portLines := PortLines(ports, devices);
    var others := OtherLines(devices);
    forall i | 0 <= i < |ports|
      ensures lines[1 + ArcCount(ports) + i] == portLines[i]
    {
      IndexMiddle(head, portLines, others, i);
    }
  }

  /** After the port lines come the closing lines, which end the summary. */
  lemma SummaryOtherLines(local: Dict<string>, ports: seq<Port>, devices: seq<Device>)
    requires HasIds(ports)
    ensures SummaryLines(local, ports, devices).Some?
    ensures var lines := SummaryLines(local, ports, devices).value;
      var others := OtherLines(devices);
      var start := 1 + ArcCount(ports) + |ports|;
      && |lines| == start + |others|
      && forall i :: 0 <= i < |others| ==> lines[start + i] == others[i]
  {
    var lines := SummaryLines(local, ports, devices).value;
    var before := Head(local, ports) + PortLines(ports, devices);
    var others := OtherLines(devices);
    assert lines == before + others;
    forall i | 0 <= i < |others|
      ensures lines[|before| + i] == others[i]
    {
      IndexMiddle(before, others, [], i);
      assert before + others + [] == lines;
    }
  }

  /** The closing lines are empty when no device is unassigned; otherwise a
      heading and then each unassigned device in order. */
  lemma OtherLinesSpec(devices: seq<Device>)
    ensures var u := Unassigned(devices);
      && (u == [] ==> OtherLines(devices) == [])
      && (u != [] ==> |OtherLines(devices)| == 1 + |u| && OtherLines(devices)[0] == "Other detected devices:"
                      && forall i :: 0 <= i < |u| ==> OtherLines(devices)[1 + i] == Describe(u[i]))
  {
  }

  /** When a port has ARC on, the second line of the summary is the ARC
      line, and it lists that port's id. */
  lemma ArcLineNamesPort(local: Dict<string>, ports: seq<Port>, devices: seq<Device>, i: nat)
    requires HasIds(ports) && i < |ports| && ArcOn(ports[i])
    ensures SummaryLines(local, ports, devices).Some? && ArcIds(ports).Some?
    ensures SummaryLines(local, ports, devices).value[1] == ArcLine(ArcIds(ports).value)
    ensures PyStr(IdOf(ports[i])) in ArcIds(ports).value
  {
    ArcIdsSpec(ports);
    assert ArcCount(ports) == 1;
    var head := Head(local, ports);
    var front := head + PortLines(ports, devices);
    assert front[1] == head[1];
    assert SummaryLines(local, ports, devices).value == front + OtherLines(devices);
  }

  /** No device before index `j` has the id `id`. */
  predicate FirstWithId(devices: seq<Device>, id: PyValue, j: nat)
    requires j <= |devices|
  {
    forall i :: 0 <= i < j ==> !SameId(devices[i].portId, id)
  }

  /** A port line names the first device with the port's id, or says that
      no device was detected when no device has that id. */
  lemma PortLineDevice(id: PyValue, devices: seq<Device>)
    ensures (forall j :: 0 <= j < |devices| ==> !SameId(devices[j].portId, id)) ==>
      PortLine(id, devices) == "HDMI" + PyStr(id) + " = No device detected."
    ensures forall j :: 0 <= j < |devices| && SameId(devices[j].portId, id) && FirstWithId(devices, id, j) ==>
      PortLine(id, devices) == "HDMI" + PyStr(id) + " = " + Describe(devices[j])
  {
  }

  predicate NoBreaks(lines: seq<string>) {
    forall i :: 0 <= i < |lines| ==> '\n' !in lines[i]
  }

  /** When no line holds a newline, splitting the summary text at its
      newlines gives back the lines. */
  lemma SummarySplits(local: Dict<string>, ports: seq<Port>, devices: seq<Device>)
    requires SummaryLines(local, ports, devices).Some? && NoBreaks(SummaryLines(local, ports, devices).value)
    ensures Split(Summary(local, ports, devices).value, '\n') == SummaryLines(local, ports, devices).value
  {
    SplitJoin(SummaryLines(local, ports, devices).value, '\n');
  }

  // -----------------------------------------------------------------------
  // The system properties read by scan_cec_layout

  /** A line as `getprop` prints it: `[key]: [value]`. */
  function GetpropLine(k: string, v: string): string {
    "[" + k + "]: [" + v + "]"
  }

  /** The shape of a property name: non-empty, without brackets, colons or
      whitespace. */
  predicate PropKey(k: string) {
    && k != [] && '[' !in k && ']' !in k && ':' !in k
    && forall i :: 0 <= i < |k| ==> !IsPySpace(k[i])
  }

  /** A property value without brackets that does not start with a colon. */
  predicate PropValue(v: string) {
    '[' !in v && ']' !in v && (v == [] || v[0] != ':')
  }

  /** The comprehension as written: every line holding `:` has its `]`
      removed and is split at the first `[:`; a line without `[:` splits
      into one piece, and unpacking it into `k, v` raises `ValueError`
      (`None`). */
  function SysPropsAsWritten(lines: seq<string>): Option<Dict<string>> {
    if lines == [] then Some([])
    else
      var n := |lines| - 1;
      match SysPropsAsWritten(lines[..n])
      case None => None
      case Some(d) =>
        if ':' !in lines[n] then Some(d)
        else
          match SplitFirst(Remove(lines[n], ']'), "[:")
          case NoSep => None
          case Pair(k, v) => Some(Assign(d, k, v))
  }

  /** Removing `]` from a `getprop` line leaves `[key: [value`. */
  lemma GetpropUnbracketed(k: string, v: string)
    requires PropKey(k) && PropValue(v)
    ensures Remove(GetpropLine(k, v), ']') == "[" + k + ": [" + v
  {
    RemoveAbsent(k, ']');
    RemoveAbsent(v, ']');
    RemoveAppend("[", k, ']');
    RemoveAppend("[" + k, "]: [", ']');
    RemoveAppend("[" + k + "]: [", v, ']');
    RemoveAppend("[" + k + "]: [" + v, "]", ']');
    assert Remove("[", ']') == "[";
    assert Remove("]: [", ']') == ": [";
    assert Remove("]", ']') == [];
  }

  /** `[key: [value` holds no `[:`: the first `[` is followed by the key's
      first character and the second by the value's. */
  lemma UnbracketedHasNoSeparator(k: string, v: string)
    requires PropKey(k) && PropValue(v)
    ensures !Contains("[" + k + ": [" + v, "[:")
  {
    var s := "[" + k + ": [" + v;
    var n := |k|;
    assert |s| == n + 4 + |v|;
    forall i | 0 <= i <= |s| - 2
      ensures !OccursAt(s, "[:", i)
    {
      if i == 0 {
        assert s[1] == k[0];
      } else if i <= n {
        assert s[i] == k[i - 1];
      } else if i <= n + 2 {
        assert s[n + 1] == ':' && s[n + 2] == ' ';
      } else if i == n + 3 {
        assert s[n + 4] == v[0];
      } else {
        assert s[i] == v[i - n - 4];
      }
      assert s[i] != '[' || s[i + 1] != ':';
      OccursPair(s, '[', ':', i);
    }
  }

  /** As written, a line in `getprop`'s own format is never split: the
      comprehension raises on it. */
  lemma AsWrittenRejectsGetprop(k: string, v: string)
    requires PropKey(k) && PropValue(v)
    ensures ':' in GetpropLine(k, v)
    ensures SplitFirst(Remove(GetpropLine(k, v), ']'), "[:").NoSep?
  {
    assert GetpropLine(k, v)[|k| + 2] == ':';
    GetpropUnbracketed(k, v);
    UnbracketedHasNoSeparator(k, v);
    SplitFirstFound("[" + k + ": [" + v, "[:");
  }

  /** So any `getprop` output with a property line in that format makes
      the comprehension, and with it the whole layout scan, raise. */
  lemma {:induction false} SysPropsAsWrittenRaises(lines: seq<string>, j: nat, k: string, v: string)
    requires j < |lines| && lines[j] == GetpropLine(k, v) && PropKey(k) && PropValue(v)
    ensures SysPropsAsWritten(lines).None?
  {
    var n := |lines| - 1;
    if j < n {
      assert lines[..n][j] == lines[j];
      SysPropsAsWrittenRaises(lines[..n], j, k, v);
    } else {
      AsWrittenRejectsGetprop(k, v);
    }
  }

  lemma DeviceTypeKey()
    ensures PropKey("ro.hdmi.device_type")
  {
    var k := "ro.hdmi.device_type";
    assert forall i :: 0 <= i < |k| ==> 'a' <= k[i] <= 'z' || k[i] == '.' || k[i] == '_';
    DottedName(k);
  }

  /** A name of lower-case letters, dots and underscores is a property
      name. */
  lemma DottedName(k: string)
    requires k != [] && forall i :: 0 <= i < |k| ==> 'a' <= k[i] <= 'z' || k[i] == '.' || k[i] == '_'
    ensures PropKey(k)
  {
  }

  /** A line `adb shell getprop | grep -i hdmi` typically prints. */
  lemma DeviceTypePropRaises()
    ensures SysPropsAsWritten(["[ro.hdmi.device_type]: [4]"]).None?
  {
    var k, v := "ro.hdmi.device_type", "4";
    DeviceTypeKey();
    assert ["[ro.hdmi.device_type]: [4]"][0] == GetpropLine(k, v);
    SysPropsAsWrittenRaises(["[ro.hdmi.device_type]: [4]"], 0, k, v);
  }

  /** The evidently intended split of one line: drop both kinds of bracket,
      split at the first `:` and strip both sides; a line without `:` gives
      no entry. */
  function PropEntry(line: string): (r: Option<(string, string)>)
    ensures r.Some? <==> ':' in line
  {
    var t := Remove(Remove(line, '['), ']');
    if ':' in t then
      var i := IndexOf(t, ':');
      Some((PyStrip(t[..i]), PyStrip(t[i + 1..])))
    else None
  }

  /** The corrected `sys_props`: one entry per property line, a later line
      for the same key overwriting an earlier one. */
  function SysProps(lines: seq<string>): Dict<string> {
    Build(lines, PropEntry)
  }

  /** A value that `str.strip` leaves as it is. */
  predicate Stripped(v: string) {
    v == [] || (!IsPySpace(v[0]) && !IsPySpace(v[|v| - 1]))
  }

  /** Removing `[` from a `getprop` line leaves `key]: value]`. */
  lemma GetpropNoOpen(k: string, v: string)
    requires PropKey(k) && PropValue(v)
    ensures Remove(GetpropLine(k, v), '[') == k + "]: " + v + "]"
  {
    RemoveAbsent(k, '[');
    RemoveAbsent(v, '[');
    var s1 := "[" + k;
    var s2 := s1 + "]: [";
    var s3 := s2 + v;
    assert Remove("[", '[') == [];
    RemoveAppend("[", k, '[');
    assert Remove(s1, '[') == k;
    assert Remove("]: [", '[') == "]: ";
    RemoveAppend(s1, "]: [", '[');
    assert Remove(s2, '[') == k + "]: ";
    RemoveAppend(s2, v, '[');
    assert Remove(s3, '[') == k + "]: " + v;
    assert Remove("]", '[') == "]";
    RemoveAppend(s3, "]", '[');
  }

  /** Removing `]` from `key]: value]` leaves `key: value`. */
  lemma GetpropNoClose(k: string, v: string)
    requires PropKey(k) && PropValue(v)
    ensures Remove(k + "]: " + v + "]", ']') == k + ": " + v
  {
    RemoveAbsent(k, ']');
    RemoveAbsent(v, ']');
    RemoveAppend(k, "]: ", ']');
    RemoveAppend(k + "]: ", v, ']');
    RemoveAppend(k + "]: " + v, "]", ']');
    assert Remove("]: ", ']') == ": ";
    assert Remove("]", ']') == [];
  }

  /** `str.strip` of a space followed by an already stripped value is the
      value. */
  lemma StripLeadingSpace(v: string)
    requires Stripped(v)
    ensures PyStrip(" " + v) == v
  {
    var w := " " + v;
    assert SkipLeft(w, IsPySpace, 0) == SkipLeft(w, IsPySpace, 1);
    if v != [] {
      assert w[1] == v[0];
      assert w[|w| - 1] == v[|v| - 1];
    }
    assert SkipLeft(w, IsPySpace, 1) == 1;
    assert SkipRight(w, IsPySpace, 1, |w|) == |w|;
    assert w[1..] == v;
  }

  /** The corrected split reads a `getprop` line back as its key and
      value. */
  lemma PropEntryOfGetprop(k: string, v: string)
    requires PropKey(k) && PropValue(v) && Stripped(v)
    ensures PropEntry(GetpropLine(k, v)) == Some((k, v))
  {
    GetpropNoOpen(k, v);
    GetpropNoClose(k, v);
    var t := k + ": " + v;
    assert t == k + [':'] + (" " + v);
    IndexOfAfter(k, ':', " " + v);
    assert t[..|k|] == k;
    assert t[|k| + 1..] == " " + v;
    StripNoSpace(k, IsPySpace);
    StripLeadingSpace(v);
  }

  /** Corrected, the dictionary gives each property the value of its last
      `getprop` line. */
  lemma SysPropsLastWins(lines: seq<string>, j: nat, k: string, v: string)
    requires j < |lines| && lines[j] == GetpropLine(k, v) && PropKey(k) && PropValue(v) && Stripped(v)
    requires forall i :: j < i < |lines| ==> !Gives(PropEntry, lines[i], k)
    ensures UniqueKeys(SysProps(lines))
    ensures Lookup(SysProps(lines), k) == Some(v)
  {
    PropEntryOfGetprop(k, v);
    BuildLastWins(lines, PropEntry);
    LastEntryOfLast(lines, PropEntry, k, j);
  }
}
