/**
 * The Bluetooth popup (popups/bluetooth_popup.py): the `BluetoothDevice`
 * record and how it renders, the parsers for `bluetoothctl` output, the
 * MAC-unique discovery list a scan builds, and the popup's scan state.
 *
 * Command outputs are inputs (`None` when launching the command raised); the
 * per-device `bluetoothctl info <mac>` output is a function of the MAC.
 */
module Bluetooth {
  import opened Wrappers
  import opened Text
  import opened AsyncUtils

  datatype BluetoothDevice = BluetoothDevice(
    mac: string,
    name: string,
    paired: bool,
    connected: bool,
    trusted: bool,
    rssi: Option<int>,
    deviceType: string)

  const UnknownDevice := "Unknown Device"

  /** `BluetoothDevice(mac, name, ...)`: a missing or empty name becomes
      "Unknown Device"; the type always starts as "Unknown". */
  function NewDevice(mac: string, name: Option<string>, paired: bool, connected: bool, trusted: bool,
                     rssi: Option<int>): (d: BluetoothDevice)
    ensures d.name != ""
    ensures Truthy(name) ==> d.name == name.value
    ensures !Truthy(name) ==> d.name == UnknownDevice
    ensures d.mac == mac && d.paired == paired && d.connected == connected && d.trusted == trusted
    ensures d.rssi == rssi && d.deviceType == "Unknown"
  {
    BluetoothDevice(mac, if Truthy(name) then name.value else UnknownDevice, paired, connected, trusted, rssi, "Unknown")
  }

  // ---------------------------------------------------------------------------
  // Rendering
  // ---------------------------------------------------------------------------

  /** The status words, in the order Connected, Paired, Trusted. */
  function Statuses(d: BluetoothDevice): seq<string> {
    (if d.connected then ["Connected"] else [])
    + (if d.paired then ["Paired"] else [])
    + (if d.trusted then ["Trusted"] else [])
  }

  /** `', '.join(words)`. */
  function JoinComma(words: seq<string>): string {
    if words == [] then ""
    else if |words| == 1 then words[0]
    else words[0] + ", " + JoinComma(words[1..])
  }

  /** `" (...)"` when any status applies, else nothing. */
  function StatusSuffix(d: BluetoothDevice): string {
    var words := Statuses(d);
    if words != [] then " (" + JoinComma(words) + ")" else ""
  }

  /** Python truthiness of the signal strength: present and non-zero. */
  predicate HasRssi(d: BluetoothDevice) {
    d.rssi.Some? && d.rssi.value != 0
  }

  /** `" [<rssi>dBm]"` when the signal strength is truthy, else nothing. */
  function RssiSuffix(d: BluetoothDevice): string {
    if HasRssi(d) then " [" + IntToString(d.rssi.value) + "dBm]" else ""
  }

  /** `__repr__`. */
  function Repr(d: BluetoothDevice): string {
    d.name + StatusSuffix(d) + RssiSuffix(d)
  }

  /** The rendering starts with the name; the status part is present exactly
      when some status applies and lists them Connected, Paired, Trusted; the
      signal part is present exactly when the strength is non-zero, so a
      strength of 0 is left out. */
  lemma ReprParts(d: BluetoothDevice)
    ensures d.name <= Repr(d)
    ensures StatusSuffix(d) == "" <==> !d.connected && !d.paired && !d.trusted
    ensures RssiSuffix(d) == "" <==> d.rssi.None? || d.rssi.value == 0
    ensures |Statuses(d)| == (if d.connected then 1 else 0) + (if d.paired then 1 else 0) + (if d.trusted then 1 else 0)
    ensures d.connected ==> Statuses(d)[0] == "Connected"
    ensures d.trusted ==> Statuses(d)[|Statuses(d)| - 1] == "Trusted"
    ensures Repr(d) == d.name <==> !d.connected && !d.paired && !d.trusted && !HasRssi(d)
  {
    assert Repr(d) == d.name + (StatusSuffix(d) + RssiSuffix(d));
  }

  /** Reading the signal part back gives the signal strength. */
  lemma RssiSuffixReadsBack(d: BluetoothDevice)
    requires HasRssi(d)
    ensures var s := RssiSuffix(d);
      s[..2] == " [" && s[|s| - 4..] == "dBm]" && ParseInt(s[2..|s| - 4]) == d.rssi
  {
    var s := RssiSuffix(d);
    var digits := IntToString(d.rssi.value);
    assert s == " [" + digits + "dBm]";
    assert s[2..|s| - 4] == digits;
    ParseIntToString(d.rssi.value);
  }

  const ConnectedIcon := "\U{F00AF}"
  const PairedIcon := "\U{F00B2}"
  const UnpairedIcon := "\U{F00B1}"

  /** `get_icon`: connected wins over paired. */
  function Icon(d: BluetoothDevice): (icon: string)
    ensures icon == ConnectedIcon <==> d.connected
    ensures icon == PairedIcon <==> !d.connected && d.paired
    ensures icon == UnpairedIcon <==> !d.connected && !d.paired
  {
    if d.connected then ConnectedIcon else if d.paired then PairedIcon else UnpairedIcon
  }

  // ---------------------------------------------------------------------------
  // bluetoothctl show
  // ---------------------------------------------------------------------------

  /** The first line mentioning `Powered:`, if any. */
  function FirstPoweredLine(lines: seq<string>): Option<string> {
    if lines == [] then None
    else if Contains(lines[0], "Powered:") then Some(lines[0])
    else FirstPoweredLine(lines[1..])
  }

  /** What `get_bluetooth_status` answers for the output of `bluetoothctl show`. */
  function PoweredStatus(output: Option<string>): bool {
    if output.None? then false
    else
      var line := FirstPoweredLine(Split(output.value, '\n'));
      line.Some? && Contains(Lower(line.value), "yes")
  }

  /** The answer is decided by the first `Powered:` line alone: true exactly
      when that line contains "yes" in any letter case, false when there is no
      such line. */
  lemma {:induction false} FirstPoweredLineDecides(lines: seq<string>)
    ensures FirstPoweredLine(lines).None? <==> forall i :: 0 <= i < |lines| ==> !Contains(lines[i], "Powered:")
    ensures FirstPoweredLine(lines).Some? ==>
      exists i :: 0 <= i < |lines| && FirstPoweredLine(lines).value == lines[i] && Contains(lines[i], "Powered:")
        && forall j :: 0 <= j < i ==> !Contains(lines[j], "Powered:")
  {
    if lines != [] && !Contains(lines[0], "Powered:") {
      FirstPoweredLineDecides(lines[1..]);
      if FirstPoweredLine(lines).Some? {
        var i :| 0 <= i < |lines[1..]| && FirstPoweredLine(lines[1..]).value == lines[1..][i]
          && Contains(lines[1..][i], "Powered:") && forall j :: 0 <= j < i ==> !Contains(lines[1..][j], "Powered:");
        forall j | 0 <= j < i + 1
          ensures !Contains(lines[j], "Powered:")
        {
          if j > 0 {
            assert lines[j] == lines[1..][j - 1];
          }
        }
        assert lines[i + 1] == lines[1..][i];
      } else {
        forall i | 0 <= i < |lines|
          ensures !Contains(lines[i], "Powered:")
        {
          if i > 0 {
            assert lines[i] == lines[1..][i - 1];
          }
        }
      }
    } else if lines != [] {
      assert Contains(lines[0], "Powered:");
    }
  }

  /** `get_bluetooth_status`: scans the lines and answers at the first
      `Powered:` line. */
  method GetBluetoothStatus(output: Option<string>) returns (powered: bool)
    ensures powered == PoweredStatus(output)
  {
    if output.None? {
      return false;
    }
    var lines := Split(output.value, '\n');
    var i := 0;
    while i < |lines|
      invariant 0 <= i <= |lines|
      invariant FirstPoweredLine(lines[i..]) == FirstPoweredLine(lines)
    {
      assert lines[i..][1..] == lines[i + 1..];
      if Contains(lines[i], "Powered:") {
        return Contains(Lower(lines[i]), "yes");
      }
      i := i + 1;
    }
    return false;
  }

  // ---------------------------------------------------------------------------
  // bluetoothctl devices Paired
  // ---------------------------------------------------------------------------

  /** `"Connected: yes" in <output of bluetoothctl info mac>`, false when the
      command raised. */
  predicate IsDeviceConnected(info: Option<string>) {
    info.Some? && Contains(info.value, "Connected: yes")
  }

  /** The device a line of `bluetoothctl devices Paired` describes: blank
      lines (see `BlankIffStripEmpty`) and lines with fewer than three space-separated parts are skipped;
      the MAC is the second part and the name all the rest. */
  function PairedLine(line: string, info: string -> Option<string>): Option<BluetoothDevice> {
    if Blank(line) then None
    else
      var parts := SplitAtMost(line, ' ', 2);
      if |parts| >= 3 then
        Some(NewDevice(parts[1], Some(parts[2]), true, IsDeviceConnected(info(parts[1])), true, None))
      else None
  }

  /** The present values, in order. */
  function Present<T>(xs: seq<Option<T>>): seq<T> {
    if xs == [] then [] else (if xs[0].Some? then [xs[0].value] else []) + Present(xs[1..])
  }

  /** Each line's device, before skipped lines are dropped. */
  function PairedLines(lines: seq<string>, info: string -> Option<string>): (parsed: seq<Option<BluetoothDevice>>)
    ensures |parsed| == |lines|
  {
    if lines == [] then [] else [PairedLine(lines[0], info)] + PairedLines(lines[1..], info)
  }

  /** Each line's entry is that line's device. */
  lemma {:induction false} PairedLinesAt(lines: seq<string>, info: string -> Option<string>, i: nat)
    requires i < |lines|
    ensures PairedLines(lines, info)[i] == PairedLine(lines[i], info)
  {
    if i > 0 {
      PairedLinesAt(lines[1..], info, i - 1);
    }
  }

  /** The devices `get_paired_devices` lists for the given output. */
  function PairedDevices(output: Option<string>, info: string -> Option<string>): seq<BluetoothDevice> {
    Present(PairedLines(Lines(output), info))
  }

  /** `stdout.strip().split('\n')`, or no lines when the command raised. */
  function Lines(output: Option<string>): seq<string> {
    if output.None? then [] else Split(Strip(output.value), '\n')
  }

  /** A parsed line is the line's first part, the MAC and the name joined by
      single spaces; the MAC holds no space, and the device is paired and
      trusted, connected exactly when its info says so. */
  lemma PairedLineShape(line: string, info: string -> Option<string>)
    requires PairedLine(line, info).Some?
    ensures var d := PairedLine(line, info).value;
      && d.paired && d.trusted && d.connected == IsDeviceConnected(info(d.mac))
      && ' ' !in d.mac
      && exists first, rawName :: line == first + " " + d.mac + " " + rawName && ' ' !in first
           && (rawName != "" ==> d.name == rawName) && (rawName == "" ==> d.name == UnknownDevice)
  {
    var parts := SplitAtMost(line, ' ', 2);
    assert |parts| == 3;
    SplitInThree(line, ' ');
    var d := PairedLine(line, info).value;
    assert d.mac == parts[1];
    assert line == parts[0] + " " + d.mac + " " + parts[2];
  }

  lemma {:induction false} PresentMembers<T>(xs: seq<Option<T>>)
    ensures forall x :: x in Present(xs) <==> Some(x) in xs
    ensures |Present(xs)| <= |xs|
  {
    if xs != [] {
      PresentMembers(xs[1..]);
      assert xs == [xs[0]] + xs[1..];
    }
  }

  /** Every listed device comes from a line of the output, and every line that
      parses is listed. */
  lemma PairedDevicesFromLines(output: Option<string>, info: string -> Option<string>)
    ensures var lines := Lines(output);
      forall d :: d in PairedDevices(output, info) <==>
        exists i :: 0 <= i < |lines| && PairedLine(lines[i], info) == Some(d)
  {
    var lines := Lines(output);
    var parsed := PairedLines(lines, info);
    PresentMembers(parsed);
    forall d | d in PairedDevices(output, info)
      ensures exists i :: 0 <= i < |lines| && PairedLine(lines[i], info) == Some(d)
    {
      var i :| 0 <= i < |parsed| && parsed[i] == Some(d);
      PairedLinesAt(lines, info, i);
    }
    forall d, i | 0 <= i < |lines| && PairedLine(lines[i], info) == Some(d)
      ensures d in PairedDevices(output, info)
    {
      PairedLinesAt(lines, info, i);
      assert parsed[i] == Some(d);
    }
  }

  /** Every listed device is paired and trusted. */
  lemma PairedDevicesAreTrusted(output: Option<string>, info: string -> Option<string>)
    ensures forall d :: d in PairedDevices(output, info) ==> d.paired && d.trusted
  {
    var lines := Lines(output);
    var parsed := PairedLines(lines, info);
    PresentMembers(parsed);
    forall d | d in PairedDevices(output, info)
      ensures d.paired && d.trusted
    {
      var i :| 0 <= i < |parsed| && parsed[i] == Some(d);
      PairedLinesAt(lines, info, i);
      PairedLineShape(lines[i], info);
    }
  }

  /** `get_paired_devices`. */
  method GetPairedDevices(output: Option<string>, info: string -> Option<string>) returns (devices: seq<BluetoothDevice>)
    ensures devices == PairedDevices(output, info)
  {
    devices := CollectPairedDevices(Lines(output), info);
  }

  /** The present values from position `i` on: the one at `i`, if any, then the rest. */
  lemma PresentStep<T>(xs: seq<Option<T>>, i: nat)
    requires i < |xs|
    ensures Present(xs[i..]) == (if xs[i].Some? then [xs[i].value] else []) + Present(xs[i + 1..])
  {
    assert xs[i..][1..] == xs[i + 1..];
  }

  /** The loop of `get_paired_devices`, over the output's lines. */
  method CollectPairedDevices(lines: seq<string>, info: string -> Option<string>) returns (devices: seq<BluetoothDevice>)
    ensures devices == Present(PairedLines(lines, info))
  {
    ghost var parsed := PairedLines(lines, info);
    devices := [];
    var i := 0;
    while i < |lines|
      invariant 0 <= i <= |lines|
      invariant devices + Present(parsed[i..]) == Present(parsed)
    {
      var device := PairedLine(lines[i], info);
      PairedLinesAt(lines, info, i);
      PresentStep(parsed, i);
      if device.Some? {
        devices := devices + [device.value];
      }
      i := i + 1;
    }
    assert parsed[i..] == [];
  }

  // ---------------------------------------------------------------------------
  // Discovery
  // ---------------------------------------------------------------------------

  /** The device `detection_callback` builds from an advertisement: the
      device's name, else the advertised local name, else "Unknown Device". */
  function Detected(mac: string, deviceName: Option<string>, localName: Option<string>, rssi: int): BluetoothDevice {
    var name := if Truthy(deviceName) then deviceName.value else if Truthy(localName) then localName.value else UnknownDevice;
    NewDevice(mac, Some(name), false, false, false, Some(rssi))
  }

  predicate HasMac(devices: seq<BluetoothDevice>, mac: string) {
    exists i :: 0 <= i < |devices| && devices[i].mac == mac
  }

  predicate DistinctMacs(devices: seq<BluetoothDevice>) {
    forall i, j :: 0 <= i < j < |devices| ==> devices[i].mac != devices[j].mac
  }

  /** The discovery list after one detection: unchanged when the MAC is
      already listed, else the device appended. */
  function AfterDetection(devices: seq<BluetoothDevice>, d: BluetoothDevice): seq<BluetoothDevice> {
    if HasMac(devices, d.mac) then devices else devices + [d]
  }

  /** The discovery list after a series of detections, from empty. */
  function AfterDetections(events: seq<BluetoothDevice>): seq<BluetoothDevice> {
    if events == [] then [] else AfterDetection(AfterDetections(events[..|events| - 1]), events[|events| - 1])
  }

  /** A detection keeps MACs unique, only ever appends (so devices stay in
      first-seen order), and leaves the detected MAC listed. */
  lemma AfterDetectionKeepsUnique(devices: seq<BluetoothDevice>, d: BluetoothDevice)
    requires DistinctMacs(devices)
    ensures DistinctMacs(AfterDetection(devices, d))
    ensures devices <= AfterDetection(devices, d)
    ensures HasMac(AfterDetection(devices, d), d.mac)
  {
    if !HasMac(devices, d.mac) {
      assert (devices + [d])[|devices|] == d;
    }
  }

  /** After any series of detections the list is MAC-unique. */
  lemma {:induction false} AfterDetectionsUnique(events: seq<BluetoothDevice>)
    ensures DistinctMacs(AfterDetections(events))
  {
    if events != [] {
      var init := events[..|events| - 1];
      AfterDetectionsUnique(init);
      AfterDetectionKeepsUnique(AfterDetections(init), events[|events| - 1]);
    }
  }

  /** After any series of detections every detected MAC is listed. */
  lemma {:induction false} AfterDetectionsListAll(events: seq<BluetoothDevice>)
    ensures forall i :: 0 <= i < |events| ==> HasMac(AfterDetections(events), events[i].mac)
  {
    if events != [] {
      var init := events[..|events| - 1];
      var last := events[|events| - 1];
      var before := AfterDetections(init);
      AfterDetectionsListAll(init);
      AfterDetectionsUnique(init);
      AfterDetectionKeepsUnique(before, last);
      var after := AfterDetections(events);
      assert after == AfterDetection(before, last);
      forall i | 0 <= i < |events| - 1
        ensures HasMac(after, events[i].mac)
      {
        assert events[i] == init[i];
        var p :| 0 <= p < |before| && before[p].mac == init[i].mac;
        assert after[p] == before[p];
      }
    }
  }

  /** A MAC the list does not hold after some detections was never detected. */
  lemma UnlistedMacIsNew(events: seq<BluetoothDevice>, mac: string)
    requires !HasMac(AfterDetections(events), mac)
    ensures forall j :: 0 <= j < |events| ==> events[j].mac != mac
  {
    AfterDetectionsListAll(events);
  }

  /** After any series of detections each listed device is the first
      detection with its MAC. */
  lemma {:induction false} AfterDetectionsFirstOnly(events: seq<BluetoothDevice>)
    ensures forall k :: 0 <= k < |AfterDetections(events)| ==>
      exists i :: 0 <= i < |events| && events[i] == AfterDetections(events)[k]
        && forall j :: 0 <= j < i ==> events[j].mac != events[i].mac
  {
    if events != [] {
      var init := events[..|events| - 1];
      var last := events[|events| - 1];
      var before := AfterDetections(init);
      AfterDetectionsFirstOnly(init);
      AfterDetectionsListAll(init);
      AfterDetectionsUnique(init);
      AfterDetectionKeepsUnique(before, last);
      var after := AfterDetections(events);
      assert after == AfterDetection(before, last);
      forall k | 0 <= k < |after|
        ensures exists i :: (0 <= i < |events| && events[i] == after[k]
          && forall j :: 0 <= j < i ==> events[j].mac != events[i].mac)
      {
        if k < |before| {
          assert after[k] == before[k];
          var i :| 0 <= i < |init| && init[i] == before[k] && forall j :: 0 <= j < i ==> init[j].mac != init[i].mac;
          assert events[i] == init[i];
          assert forall j :: 0 <= j < i ==> events[j] == init[j];
        } else {
          assert !HasMac(before, last.mac) && after[k] == last;
          UnlistedMacIsNew(init, last.mac);
          assert forall j :: 0 <= j < |events| - 1 ==> events[j] == init[j];
          assert events[|events| - 1] == after[k];
        }
      }
    } else {
      assert AfterDetections(events) == [];
    }
  }

  /** After any series of detections the list is MAC-unique, every detected
      MAC is listed, and each listed device is the first detection with its
      MAC. */
  lemma AfterDetectionsFirstSeen(events: seq<BluetoothDevice>)
    ensures DistinctMacs(AfterDetections(events))
    ensures forall i :: 0 <= i < |events| ==> HasMac(AfterDetections(events), events[i].mac)
    ensures forall k :: 0 <= k < |AfterDetections(events)| ==>
      exists i :: 0 <= i < |events| && events[i] == AfterDetections(events)[k]
        && forall j :: 0 <= j < i ==> events[j].mac != events[i].mac
  {
    AfterDetectionsUnique(events);
    AfterDetectionsListAll(events);
    AfterDetectionsFirstOnly(events);
  }

  /** The list `scan_devices_async` fills while Bleak reports detections. */
  class DiscoveryScan {
    var devices: seq<BluetoothDevice>

    constructor ()
      ensures devices == []
    {
      devices := [];
    }

    /** `detection_callback`. */
    method OnDetection(mac: string, deviceName: Option<string>, localName: Option<string>, rssi: int)
      modifies this
      ensures devices == AfterDetection(old(devices), Detected(mac, deviceName, localName, rssi))
    {
      var device := Detected(mac, deviceName, localName, rssi);
      var seen := false;
      var i := 0;
      while i < |devices| && !seen
        invariant 0 <= i <= |devices|
        invariant seen <==> exists k :: 0 <= k < i && devices[k].mac == device.mac
      {
        seen := devices[i].mac == device.mac;
        i := i + 1;
      }
      if !seen {
        devices := devices + [device];
      }
    }
  }

  /** The dictionary `scan_devices_sync` returns. */
  datatype ScanResult = ScanResult(success: bool, devices: seq<BluetoothDevice>, totalFound: nat, error: Option<string>)

  /** `scan_devices_sync`, given how the async scan ended and the detections
      its callback saw; the list it returns is the one `detection_callback`
      built from them. */
  function ScanDevicesSync(scan: Outcome, events: seq<BluetoothDevice>): (r: ScanResult)
    ensures r.success <==> scan.Returned?
    ensures r.success ==> r.devices == AfterDetections(events) && r.totalFound == |r.devices| && r.error.None?
    ensures r.success ==> DistinctMacs(r.devices)
    ensures r.success ==> forall i :: 0 <= i < |events| ==> HasMac(r.devices, events[i].mac)
    ensures !r.success ==> r.devices == [] && r.totalFound == 0 && r.error == Some(scan.exception)
  {
    match scan
    case Returned(_) =>
      AfterDetectionsFirstSeen(events);
      var found := AfterDetections(events);
      ScanResult(true, found, |found|, None)
    case Raised(e) => ScanResult(false, [], 0, Some(e))
  }

  // ---------------------------------------------------------------------------
  // Popup scan state
  // ---------------------------------------------------------------------------

  /** Callback handles the popup passes to `run_async`. */
  const OnScanCompleteHandle: Handle := 1
  const OnScanErrorHandle: Handle := 2
  const OnScanProgressHandle: Handle := 3
  const ScanThreadName := "bleak_scan"

  /** The device list without any device of the given MAC, order kept. */
  function WithoutMac(devices: seq<BluetoothDevice>, mac: string): seq<BluetoothDevice> {
    if devices == [] then []
    else (if devices[0].mac != mac then [devices[0]] else []) + WithoutMac(devices[1..], mac)
  }

  /** After a successful pairing no device of that MAC is offered, and every
      other device still is. */
  lemma {:induction false} WithoutMacRemovesExactly(devices: seq<BluetoothDevice>, mac: string)
    ensures forall d :: d in WithoutMac(devices, mac) <==> d in devices && d.mac != mac
    ensures |WithoutMac(devices, mac)| <= |devices|
  {
    if devices != [] {
      WithoutMacRemovesExactly(devices[1..], mac);
      assert devices == [devices[0]] + devices[1..];
    }
  }

  /** The task `start_scan` hands to the runner as its `counter`-th
      submission: no keyword arguments, the three scan callbacks, the thread
      name "bleak_scan", and a target whose only parameter is
      `progress_callback`. */
  function ScanTask(counter: nat): Task {
    Task(counter, Some(ScanThreadName), map[], Some(OnScanCompleteHandle), Some(OnScanErrorHandle),
         Some(OnScanProgressHandle), Some({ProgressKey}))
  }

  class BluetoothPopup {
    const runner: ThreadRunner
    var currentScanThread: Option<string>
    var scanningActive: bool
    var pairedDevices: seq<BluetoothDevice>
    var discoverableDevices: seq<BluetoothDevice>
    /** The loading widget's text. */
    var statusText: string

    /** The scan button is in its "Stop Scan" state exactly while a scan
        thread is remembered. */
    ghost predicate Valid()
      reads this`scanningActive, this`currentScanThread, runner
    {
      && runner.Valid()
      && (scanningActive <==> currentScanThread.Some?)
    }

    /** `__init__` followed by the initial `refresh_device_lists`. */
    constructor (runner: ThreadRunner, powered: bool, pairedOutput: Option<string>, info: string -> Option<string>)
      requires runner.Valid()
      ensures Valid() && this.runner == runner
      ensures currentScanThread == None && !scanningActive && discoverableDevices == []
      ensures pairedDevices == (if powered then PairedDevices(pairedOutput, info) else [])
      ensures statusText == "Ready to scan"
    {
      this.runner := runner;
      currentScanThread := None;
      scanningActive := false;
      discoverableDevices := [];
      statusText := "Ready to scan";
      if powered {
        pairedDevices := PairedDevices(pairedOutput, info);
      } else {
        pairedDevices := [];
      }
    }

    /** `start_scan`: does nothing to the popup while a scan thread is
        remembered or Bluetooth is off, or when Bleak is missing (that case
        only shows a notification); otherwise clears the discovery list,
        shows the scanning text and submits the scan. */
    method StartScan(powered: bool, bleakAvailable: bool)
      requires Valid()
      modifies this, runner
      ensures Valid()
      ensures old(currentScanThread).Some? || !powered || !bleakAvailable ==>
        && currentScanThread == old(currentScanThread) && scanningActive == old(scanningActive)
        && discoverableDevices == old(discoverableDevices) && statusText == old(statusText)
        && runner.activeThreads == old(runner.activeThreads) && runner.threadCounter == old(runner.threadCounter)
      ensures old(currentScanThread).None? && powered && bleakAvailable ==>
        && scanningActive && discoverableDevices == [] && statusText == "Scanning for devices..."
        && currentScanThread == Some(ThreadId(runner.threadCounter, Some(ScanThreadName)))
        && runner.threadCounter == old(runner.threadCounter) + 1
        && currentScanThread.value !in old(runner.activeThreads)
        && runner.activeThreads == old(runner.activeThreads)[currentScanThread.value := ScanTask(runner.threadCounter)]
      ensures pairedDevices == old(pairedDevices)
      ensures runner.idleQueue == old(runner.idleQueue) && runner.delivered == old(runner.delivered)
    {
      if currentScanThread.Some? || !powered || !bleakAvailable {
        return;
      }
      scanningActive := true;
      statusText := "Scanning for devices...";
      discoverableDevices := [];
      var scan := ScanTask(runner.threadCounter + 1);
      var id := runner.RunAsync(scan.kwargs, scan.onSuccess, scan.onError, scan.onProgress, scan.name, scan.varnames);
      currentScanThread := Some(id);
    }

    /** `stop_scan`: asks the runner about the thread (which changes nothing
        there) and forgets it; the scan state is reset either way. */
    method StopScan()
      requires Valid()
      modifies this
      ensures Valid()
      ensures currentScanThread == None && !scanningActive && statusText == "Scan stopped"
      ensures discoverableDevices == old(discoverableDevices) && pairedDevices == old(pairedDevices)
    {
      if currentScanThread.Some? {
        var _ := runner.CancelThread(currentScanThread.value);
        currentScanThread := None;
      }
      scanningActive := false;
      statusText := "Scan stopped";
    }

    /** `on_scan_clicked`: the button stops a running scan, else starts one. */
    method OnScanClicked(powered: bool, bleakAvailable: bool)
      requires Valid()
      modifies this, runner
      ensures Valid()
      ensures old(scanningActive) ==>
        && !scanningActive && currentScanThread == None && statusText == "Scan stopped"
        && discoverableDevices == old(discoverableDevices)
        && runner.activeThreads == old(runner.activeThreads) && runner.threadCounter == old(runner.threadCounter)
      ensures !old(scanningActive) && powered && bleakAvailable ==>
        && scanningActive && discoverableDevices == [] && statusText == "Scanning for devices..."
        && currentScanThread == Some(ThreadId(runner.threadCounter, Some(ScanThreadName)))
        && runner.threadCounter == old(runner.threadCounter) + 1
        && currentScanThread.value !in old(runner.activeThreads)
        && runner.activeThreads == old(runner.activeThreads)[currentScanThread.value := ScanTask(runner.threadCounter)]
      ensures !old(scanningActive) && !(powered && bleakAvailable) ==>
        && !scanningActive && currentScanThread == None
        && statusText == old(statusText) && discoverableDevices == old(discoverableDevices)
        && runner.activeThreads == old(runner.activeThreads) && runner.threadCounter == old(runner.threadCounter)
      ensures pairedDevices == old(pairedDevices)
      ensures runner.idleQueue == old(runner.idleQueue) && runner.delivered == old(runner.delivered)
    {
      if scanningActive {
        StopScan();
      } else {
        StartScan(powered, bleakAvailable);
      }
    }

    /** `on_scan_complete`: forgets the thread, and shows the devices found
        when the scan succeeded. */
    method OnScanComplete(result: ScanResult)
      requires Valid()
      modifies this
      ensures Valid()
      ensures currentScanThread == None && !scanningActive
      ensures discoverableDevices == (if result.success then result.devices else old(discoverableDevices))
      ensures result.success ==> statusText == "Scan complete! Found " + IntToString(result.totalFound) + " devices"
      ensures !result.success ==> statusText == "Scan failed: " + (if result.error.Some? then result.error.value else "Unknown error")
      ensures pairedDevices == old(pairedDevices)
    {
      currentScanThread := None;
      scanningActive := false;
      if result.success {
        discoverableDevices := result.devices;
        statusText := "Scan complete! Found " + IntToString(result.totalFound) + " devices";
      } else {
        var error := if result.error.Some? then result.error.value else "Unknown error";
        statusText := "Scan failed: " + error;
      }
    }

    /** `on_scan_error`. */
    method OnScanError(error: string)
      requires Valid()
      modifies this
      ensures Valid()
      ensures currentScanThread == None && !scanningActive && statusText == "Scan error: " + error
      ensures discoverableDevices == old(discoverableDevices) && pairedDevices == old(pairedDevices)
    {
      currentScanThread := None;
      scanningActive := false;
      statusText := "Scan error: " + error;
    }

    /** `_update_device_list_safe`: a progress report replaces the discovery list. */
    method UpdateDeviceListSafe(devices: seq<BluetoothDevice>, status: string)
      requires Valid()
      modifies this
      ensures Valid()
      ensures discoverableDevices == devices && statusText == status
      ensures currentScanThread == old(currentScanThread) && scanningActive == old(scanningActive)
      ensures pairedDevices == old(pairedDevices)
    {
      statusText := status;
      discoverableDevices := devices;
    }

    /** `refresh_device_lists`: re-reads the paired devices while Bluetooth is on. */
    method RefreshDeviceLists(powered: bool, pairedOutput: Option<string>, info: string -> Option<string>)
      requires Valid()
      modifies this
      ensures Valid()
      ensures powered ==> pairedDevices == PairedDevices(pairedOutput, info)
      ensures !powered ==> pairedDevices == old(pairedDevices)
      ensures discoverableDevices == old(discoverableDevices) && statusText == old(statusText)
      ensures currentScanThread == old(currentScanThread) && scanningActive == old(scanningActive)
    {
      if powered {
        pairedDevices := PairedDevices(pairedOutput, info);
      }
    }

    /** `on_pair_success` for a device: on success, refreshes the paired list
        and removes every device with that MAC from the discovery list. */
    method OnPairSuccess(mac: string, success: bool, powered: bool, pairedOutput: Option<string>,
                         info: string -> Option<string>)
      requires Valid()
      modifies this
      ensures Valid()
      ensures success ==> discoverableDevices == WithoutMac(old(discoverableDevices), mac)
      ensures success ==> pairedDevices == (if powered then PairedDevices(pairedOutput, info) else old(pairedDevices))
      ensures !success ==> discoverableDevices == old(discoverableDevices) && pairedDevices == old(pairedDevices)
      ensures statusText == (if success then "Ready to scan" else "Pairing failed")
      ensures currentScanThread == old(currentScanThread) && scanningActive == old(scanningActive)
    {
      if success {
        RefreshDeviceLists(powered, pairedOutput, info);
        discoverableDevices := WithoutMac(discoverableDevices, mac);
        statusText := "Ready to scan";
      } else {
        statusText := "Pairing failed";
      }
    }
  }
}
