# myui-popups: a verified model of the popup daemon's logic

myui-popups is a GTK4/libadwaita popup daemon for a Wayland desktop. A
single `PopupManager` application receives command lines such as
`manager.py volume`. For each one it opens the requested popup, or closes it
when it is already showing. The popups include network, Bluetooth, volume
and system information. They are built from a small widget library
(`SliderRow`, `ProgressRow`, `ListWidget`) and a base window that closes
itself when it loses focus. They run slow work on background threads via
`ThreadRunner`.

This project models the sequential logic underneath the GTK calls:

- `Manager` (manager.py) models the toggle dispatcher. It holds the
  `open_windows` table and the windows it refers to. Closing a window and
  destroying it are separate events.
- `AsyncUtils` (async_utils.py) models the background-task bookkeeping:
  - `ThreadRunner`: its id counter, its active-task map and the callbacks its
    workers queue on the main loop (`GLib.idle_add`);
  - `ProgressMonitor`: its clamp and its freeze after cancellation;
  - `AsyncCommand`: its cancel flag and its result dictionary.
- `Network` (network_popup.py) models:
  - the icon and signal-bar classifiers;
  - the parsers of nmcli's terse output;
  - the de-duplication and stable sort of a scan;
  - the connect decision.
- `Bluetooth` (bluetooth_popup.py) models:
  - `BluetoothDevice` construction, its text form and its icon;
  - the bluetoothctl parsers;
  - the MAC-unique discovery list and the `scan_devices_sync` result;
  - the popup's scan state and its pairing filter.
- `Volume` (volume_popup.py) models:
  - the pactl volume and mute parsers;
  - the popup's slider, mute switch and presets.
- `SystemInfo` (system_info_popup.py) models the uptime decomposition and
  format, and the extraction of the CPU model and core count.
- `Widgets` (widgets.py) models:
  - `SliderRow`'s value and drag debounce;
  - `ProgressRow`'s clamp;
  - `ListWidget`'s rows and its table of row callbacks.
- `BaseWindow` (base_window.py) models:
  - `AppWindow`'s focus-loss timers;
  - the application id and window arguments `QuickApp` derives from a window
    tag.

`Text` models the Python `str` operations the code relies on:

- `split(sep)`, `split()`, `strip()` and `rstrip(c)`;
- `lower()` on ASCII letters;
- `replace(old, "")`;
- `int()` on ASCII digits;
- integer formatting.

`Wrappers` holds `Option` and Python truthiness for optional text.

Subprocess calls, file reads and library calls do not happen in the model.
They are represented by their results, passed in as parameters: a command's
output as `Option<string>` (`None` when the call raised), a `PactlRun` or
`NprocRun` outcome, a task's `Outcome`, and booleans such as `powered` or
`bleakAvailable`. Callables and GTK objects become opaque `Handle`s. Timers
and idle callbacks become explicit ids and queues in the objects that own
them. Where the source updates an object in place, the model is a class with
`modifies` clauses, and each method's `ensures` gives the new values of the
fields it changes. `PopupManager.DoCommandLine` and `ProgressMonitor.Notify`
are proved equal to functions on values (`Dispatched`, `NotifyAll`), and the
lemmas about them are stated on those functions. The widget, window and popup
classes state their new fields directly. They do so in terms of value
functions such as `PairedDevices`, `WithoutMac`, `ClampInt` and `AppId`, and
the lemmas are proved about those functions.

## Model

| member | source | states |
|---|---|---|
| Manager.PopupManager.constructor | manager.py:39 | The daemon starts with an empty `open_windows` table and no windows, which satisfies the registry invariant. |
| Manager.PopupManager.DoCommandLine | manager.py:75-128 | One command line changes the registry and returns exactly what the dispatch function gives: no-op, toggle-close, create, failed creation or unknown name. The registry invariant is preserved. |
| Manager.PopupManager.CloseWindow | manager.py:89-91 | Closing a window hides it and keeps it alive. The table is not edited. The invariant is preserved. |
| Manager.PopupManager.OnWindowDestroyed | manager.py:112-116 | The destroy handler marks the window dead and deletes the table entry for the window's name. The invariant is preserved. |
| Manager.ExitCodeAlwaysZero | manager.py:80-83 | Every path of `do_command_line` returns 0: no argument, toggle-close, create, unknown name and caught exception. |
| Manager.DispatchKeepsValid | manager.py:104-109 | After any command line, the table names only the seven popups of `popup_map`. Each entry leads to a live window created for that name, and shown windows are alive. |
| Manager.CloseKeepsValid | manager.py:89-91 | Closing a window keeps the registry invariant. |
| Manager.DestroyKeepsValid | manager.py:112-116 | The destroy handler keeps the registry invariant, because no entry is left pointing at the destroyed window. |
| Manager.NoArgumentIsNoOp | manager.py:80-83 | With fewer than two arguments, nothing is created and the registry is unchanged. |
| Manager.ToggleCloses | manager.py:89-91 | When the named popup is registered and visible, that window is closed and nothing is created. The table itself is not edited at dispatch. |
| Manager.UnknownNameUnchanged | manager.py:94-104 | A name outside `popup_map` leaves any valid registry unchanged and is reported as unknown. A valid registry never holds such a name. |
| Manager.CreateRegisters | manager.py:104-109 | A known name that is not showing gets a fresh visible window. The table maps the name to it, overwriting any stale entry, and other entries are kept. |
| Manager.DestroyDeletesByName | manager.py:112-114 | The destroy handler deletes by name, not by window identity. It is a no-op when the name is already absent. |
| Manager.ToggleRoundTrip | manager.py:89-116 | Open, toggle-close, destroy, open again: the second open creates a new window, and the table maps the name to it. |
| Manager.StaleDestroyRemovesNewerEntry | manager.py:112-116 | A concrete run shows that a window closed but not yet destroyed can have its late destroy delete the entry of a newer window with the same name. |
| AsyncUtils.ThreadId | widgets/myui/async_utils.py:164-168 | The text after the last underscore of a task id is its counter value. |
| AsyncUtils.ThreadIdsDistinct | widgets/myui/async_utils.py:164-168 | Tasks submitted under different counter values get different ids, named or not. |
| AsyncUtils.AtMostOneCallback | widgets/myui/async_utils.py:172-185 | A finished worker queues at most one callback. It is the success callback exactly when the target returned and one was given, and the error callback exactly when the worker's `try` block raised and one was given. The queued call carries the result or the exception and the task's id. |
| AsyncUtils.ProgressInjection | widgets/myui/async_utils.py:174-175 | The target's keyword arguments hold `progress_callback` exactly when the caller passed one there, or a progress callback was supplied and the target's code names it. Every other keyword argument is passed unchanged. |
| AsyncUtils.ThreadRunner.constructor | widgets/myui/async_utils.py:134-136 | A new runner has no active tasks, a zero counter and an empty queue. |
| AsyncUtils.ThreadRunner.RunAsync | widgets/myui/async_utils.py:138-197 | The counter grows by exactly one. The returned id is formed from the new counter, was not active before, and is registered before the worker runs. |
| AsyncUtils.ThreadRunner.ThreadWorker | widgets/myui/async_utils.py:170-189 | A finishing worker calls the target with the injected arguments and appends exactly the scheduled callbacks to the idle queue. Its id is removed from the active map on every outcome. |
| AsyncUtils.ThreadRunner.RunIdle | widgets/myui/async_utils.py:199-205 | The main loop runs the oldest queued call once. An exception raised by the callback is swallowed, and the call is not repeated. |
| AsyncUtils.ThreadRunner.CancelThread | widgets/myui/async_utils.py:207-213 | `cancel_thread` only reports whether the id is active. It changes nothing. |
| AsyncUtils.ThreadRunner.GetActiveThreads | widgets/myui/async_utils.py:215-217 | The list returned holds exactly the active ids, each once, ordered by the counter each task was given when submitted, which is the insertion order `list(self.active_threads.keys())` gives. |
| AsyncUtils.Clamp01 | widgets/myui/async_utils.py:115 | The progress is clamped into [0, 1]. Values already inside are kept. |
| AsyncUtils.NotifyAll | widgets/myui/async_utils.py:120-121 | Each registered callback is notified once, in registration order, with the same progress and status. |
| AsyncUtils.ProgressMonitor.constructor | widgets/myui/async_utils.py:99-104 | A monitor starts uncancelled at progress 0 with status "Starting..." and no callbacks. |
| AsyncUtils.ProgressMonitor.AddCallback | widgets/myui/async_utils.py:106-108 | The callback is appended. Nothing is notified. |
| AsyncUtils.ProgressMonitor.Notify | widgets/myui/async_utils.py:120-121 | The current progress and status are queued for every callback. |
| AsyncUtils.ProgressMonitor.UpdateProgress | widgets/myui/async_utils.py:110-121 | Once cancelled, nothing changes. Otherwise the progress is stored clamped, the status is replaced only by a non-empty one, and every callback is notified once. |
| AsyncUtils.ProgressMonitor.Cancel | widgets/myui/async_utils.py:123-128 | The monitor is cancelled with status "Cancelled", the progress is kept, and every callback is notified. |
| AsyncUtils.AsyncCommand.constructor | widgets/myui/async_utils.py:25-31 | A command starts uncancelled, with no process and no collected lines. |
| AsyncUtils.AsyncCommand.Cancel | widgets/myui/async_utils.py:33-37 | The flag is set. The process is terminated only if one was started, and never killed. |
| AsyncUtils.AsyncCommand.Run | widgets/myui/async_utils.py:39-93 | An already cancelled command fails without spawning and changes nothing. Each other way the run can end gives its own result and state: exit, cancelled while reading, time-out or spawn failure. A cancellation while reading leaves the flag set, so the next run fails at once. It counts two terminate calls, one from `cancel` and one from the loop. A time-out, which can only happen when a timeout was given, kills the process. The result reports success exactly when the process exited with code 0. |
| Network.Icon | popups/network_popup.py:55-64 | Icon priority: connected, then known, then secured, then open. Each icon is shown exactly in its case. |
| Network.SignalBarsByCount | popups/network_popup.py:66-77 | Below 20 the bars are "."; from 20 up they are the first 1 to 4 bars, one more for each further 20 points. |
| Network.SignalBarsMonotone | popups/network_popup.py:66-77 | A stronger signal never earns fewer bars. |
| Network.KnownNamesExactly | popups/network_popup.py:274-279 | A name is known exactly when some non-empty line has it as its first field and "802-11-wireless" as its second. |
| Network.KnownConnections | popups/network_popup.py:265-283 | The loop collects exactly the known names. When nmcli raised, the set is empty. |
| Network.CollectKnownNames | popups/network_popup.py:274-279 | Over the output's lines, the loop gathers the name of every non-empty line whose type is 802-11-wireless, and nothing else. |
| Network.ActiveConnectionIsFirst | popups/network_popup.py:176-188 | The active connection comes from the first line whose third field is "802-11-wireless". There is none exactly when no line qualifies. |
| Network.ActiveConnectionFlags | popups/network_popup.py:168-205 | A reported active connection is connected and known, and its signal is read from the signal command. None is reported exactly when no active WiFi line exists. |
| Network.ScanLineFields | popups/network_popup.py:228-247 | A scan line yields a network exactly when it is non-empty, has at least four fields and a non-blank trimmed SSID. The signal comes from field 2 (0 when empty or unparsable). Connected means '*' is in field 4, and known means the SSID is saved. |
| Network.FirstPerSsidDistinct | popups/network_popup.py:227-238 | The scan list holds no SSID twice. |
| Network.FirstPerSsidFirstWins | popups/network_popup.py:235-238 | Every listed network is the first parsed network with its SSID. |
| Network.FirstPerSsidComplete | popups/network_popup.py:228-256 | Every SSID that some line parses to appears in the list. |
| Network.ParseScan | popups/network_popup.py:227-256 | The parsing loop produces exactly the first-per-SSID list of the parsed lines. |
| Network.SortNetworksCorrect | popups/network_popup.py:262 | The display order puts connected networks first, then sorts by descending signal. It is a permutation of the scan, and networks with equal keys keep their scan order. |
| Network.SortKeepsDistinct | popups/network_popup.py:262 | Sorting keeps SSIDs distinct. |
| Network.ScanWifiNetworks | popups/network_popup.py:207-263 | The scan returns the sorted first-per-SSID list. It is sorted, SSID-unique and holds exactly the de-duplicated networks. |
| Network.OnNetworkClicked | popups/network_popup.py:589-608 | A connected network needs no action. A known or open one is connected without a password. An unknown secured one is skipped. |
| Network.SkipSecuredShowsSecuredIcon | popups/network_popup.py:55-64 | A network is skipped on click exactly when it shows the secured icon, and needs no action exactly when it shows the connected icon. |
| Bluetooth.NewDevice | popups/bluetooth_popup.py:37-44 | A missing or empty name becomes "Unknown Device". Every other field is stored as given, and the device type is "Unknown". |
| Bluetooth.ReprParts | popups/bluetooth_popup.py:46-57 | The text starts with the name. The status part is present exactly when some status applies, and lists Connected first and Trusted last. The signal part is absent exactly when the rssi is missing or 0. |
| Bluetooth.RssiSuffixReadsBack | popups/bluetooth_popup.py:56 | The signal part is " [<rssi>dBm]", and the rssi can be read back from it. |
| Bluetooth.Icon | popups/bluetooth_popup.py:59-66 | Icon priority: connected, then paired, then unpaired. |
| Bluetooth.FirstPoweredLineDecides | popups/bluetooth_popup.py:86-89 | The status is decided by the first line containing "Powered:": powered exactly when it contains "yes" in any case. It is not powered when no such line exists. |
| Bluetooth.GetBluetoothStatus | popups/bluetooth_popup.py:76-91 | The scanning loop answers what the first "Powered:" line decides. It answers false when the command raised. |
| Bluetooth.PairedLineShape | popups/bluetooth_popup.py:120-131 | A parsed line is "<first> <mac> <name>". The name keeps its spaces. The device is paired and trusted, and connected as its info says. |
| Bluetooth.PairedDevicesFromLines | popups/bluetooth_popup.py:120-132 | A device is listed exactly when some output line parses to it. |
| Bluetooth.PairedDevicesAreTrusted | popups/bluetooth_popup.py:131 | Every listed device is paired and trusted. |
| Bluetooth.GetPairedDevices | popups/bluetooth_popup.py:107-137 | The parsing loop returns exactly the devices of the parsed lines, in order. |
| Bluetooth.CollectPairedDevices | popups/bluetooth_popup.py:120-132 | Over the output's lines, the loop appends the device of every line that is not blank and has at least three space-separated parts, in line order. |
| Bluetooth.AfterDetectionKeepsUnique | popups/bluetooth_popup.py:175-176 | One detection keeps MACs unique, only appends, and leaves the detected MAC present. |
| Bluetooth.AfterDetectionsFirstSeen | popups/bluetooth_popup.py:164-176 | After any series of detections the list is MAC-unique and holds every detected MAC. Each entry is the first detection of its MAC, in first-seen order. |
| Bluetooth.DiscoveryScan.constructor | popups/bluetooth_popup.py:158 | A scan starts with an empty device list. |
| Bluetooth.DiscoveryScan.OnDetection | popups/bluetooth_popup.py:164-176 | `detection_callback` adds the device, named from the device, else from the advertisement, else "Unknown Device", unless its MAC is already listed. |
| Bluetooth.ScanDevicesSync | popups/bluetooth_popup.py:209-237 | On success the result has the devices `detection_callback` kept from the scan's detections (`AfterDetections`): no MAC twice, every detected MAC present, and `total_found == len(devices)`. On failure it has no devices, a count of 0 and the error text. |
| Bluetooth.WithoutMacRemovesExactly | popups/bluetooth_popup.py:671 | The pairing filter keeps exactly the devices whose MAC differs. |
| Bluetooth.BluetoothPopup.constructor | popups/bluetooth_popup.py:308-327 | A new popup has no scan thread, is not scanning, and has no discoverable devices. Its paired devices are the parsed ones when Bluetooth is on. The loading text starts as "Ready to scan", the text `setup_scan_progress` gives the loading widget. |
| Bluetooth.BluetoothPopup.StartScan | popups/bluetooth_popup.py:438-464 | Nothing in the popup changes while a scan thread is remembered, or when Bluetooth is off or Bleak is missing. The loading text is kept too; a missing Bleak only shows a notification. Otherwise scanning is on, the text reads "Scanning for devices..." and the discoverable list is cleared. The runner gets exactly one new task under a fresh id, and every other task is kept. The new task is `ScanTask`: the three scan callbacks, the name "bleak_scan", no keyword arguments, and `progress_callback` as the target's parameter. |
| Bluetooth.BluetoothPopup.StopScan | popups/bluetooth_popup.py:466-477 | The thread is forgotten, scanning is off, and the text reads "Scan stopped". The device lists are kept. |
| Bluetooth.BluetoothPopup.OnScanClicked | popups/bluetooth_popup.py:431-436 | A click on a running scan stops it: "Scan stopped", the lists kept, the runner untouched. Otherwise it starts a scan when Bluetooth is on and Bleak is present, with the text, cleared list and registered `ScanTask` that `start_scan` gives. When it cannot start, nothing changes. The paired list is always kept. |
| Bluetooth.BluetoothPopup.OnScanComplete | popups/bluetooth_popup.py:507-521 | The thread is forgotten and scanning is off. A successful result replaces the discoverable list and reports the count; a failed one reports the error or "Unknown error". |
| Bluetooth.BluetoothPopup.OnScanError | popups/bluetooth_popup.py:523-529 | The thread is forgotten, scanning is off, and the error is shown. |
| Bluetooth.BluetoothPopup.UpdateDeviceListSafe | popups/bluetooth_popup.py:497-505 | A progress report replaces the discoverable list and the status text. |
| Bluetooth.BluetoothPopup.RefreshDeviceLists | popups/bluetooth_popup.py:531-537 | The paired list is re-read only while Bluetooth is on. The discoverable list and the loading text are kept. |
| Bluetooth.BluetoothPopup.OnPairSuccess | popups/bluetooth_popup.py:665-676 | A successful pairing refreshes the paired list and removes every device with that MAC from the discoverable list. A failed one changes neither list. The loading text ends as "Ready to scan" after success and "Pairing failed" after failure. |
| Volume.FirstPercentToken | popups/volume_popup.py:84-86 | The token found ends in '%' and is the first such token. None is found exactly when no token ends in '%'. |
| Volume.TokenVolume | popups/volume_popup.py:86 | The token without its trailing '%' is read as an integer. It raises exactly when that text is not one. |
| Volume.CurrentVolume | popups/volume_popup.py:72-89 | A failed pactl gives the default 50. A missing pactl raises, because only `CalledProcessError` is caught. |
| Volume.ScanVolumeLine | popups/volume_popup.py:81-86 | The inner loop finds the first '%' token of a line that mentions "Volume:". |
| Volume.GetCurrentVolume | popups/volume_popup.py:72-89 | The nested loops answer the volume of the first "Volume:" line that has a '%' token. They answer 50 when there is none. |
| Volume.FirstVolumeToken | popups/volume_popup.py:80-85 | The nested loops stop at the first token ending in '%' of the first "Volume:" line that has one. They find nothing when no line has such a token. |
| Volume.VolumeLineToken | popups/volume_popup.py:81-86 | In a "Volume: <token> ..." line, the token ending in '%' is the one found. |
| Volume.VolumeReadsBack | popups/volume_popup.py:72-89 | A pactl output "Volume: <v>% ..." reads back as volume v. |
| Volume.MuteState | popups/volume_popup.py:91-100 | A failed pactl reads as unmuted. A missing pactl raises. Any output gives a reading. |
| Volume.MutedOnYesInAnyCase | popups/volume_popup.py:98 | An output containing "yes" in any letter case reads as muted. |
| Volume.UnmutedWithoutYes | popups/volume_popup.py:98 | An output without "yes" in any case reads as unmuted. |
| Volume.VolumePopup.constructor | popups/volume_popup.py:39-60 | The slider starts at the volume read, clamped to [0, 100]. The mute switch starts at the mute state read. |
| Volume.VolumePopup.OnMuteToggle | popups/volume_popup.py:119-130 | Whatever state is requested, the call issued is "toggle". |
| Volume.VolumePopup.SetMuteActive | popups/volume_popup.py:114-117 | Setting the switch emits its handler, and so a toggle call, only when its state changes. |
| Volume.VolumePopup.OnVolumeChange | popups/volume_popup.py:102-117 | The volume is sent to pactl. When pactl is present, the mute switch ends up active exactly when the volume is 0, and is left alone when it already matches. |
| Volume.VolumePopup.SetVolume | popups/volume_popup.py:132-136 | The slider is set (clamped). Only a change reaches the slider callback: the calls issued are exactly `set-sink-volume` with the new volume, then one mute toggle when pactl is present and the switch disagreed with "volume is 0". Without pactl the switch is left alone; with it, the switch is on exactly at 0. An unchanged value issues nothing. |
| Volume.VolumePopup.PressPreset | popups/volume_popup.py:64-69 | A preset button sets the volume to 25, 50, 75 or 100. A change issues `set-sink-volume`, then a mute toggle exactly when pactl is present and the switch was on, so a change unmutes. Otherwise the switch is kept. An unchanged volume issues nothing. |
| SystemInfo.Decompose | popups/system_info_popup.py:229-231 | The uptime splits into days, hours below 24 and minutes below 60. |
| SystemInfo.DecomposeBounds | popups/system_info_popup.py:229-231 | The days, hours and minutes account for the seconds, to within the last started minute. |
| SystemInfo.DecomposeUnique | popups/system_info_popup.py:229-231 | Any days, hours below 24 and minutes below 60 that account for the seconds this way are the decomposition. |
| SystemInfo.FormatUptimeFields | popups/system_info_popup.py:233-238 | The text is "Dd Hh Mm" when there are days (hours shown even when 0), "Hh Mm" when there are only hours, and "Mm" otherwise. |
| SystemInfo.FormatUptimeReadsBack | popups/system_info_popup.py:233-238 | The uptime text reads back to the days, hours and minutes it shows. |
| SystemInfo.UptimeTextReadsBack | popups/system_info_popup.py:223-240 | The text of a reading reads back as the reading's decomposition. |
| SystemInfo.FirstModelLine | popups/system_info_popup.py:146-149 | The line found starts with "model name" and comes from the file. None is found exactly when no line starts that way. |
| SystemInfo.FirstModelLineIsFirst | popups/system_info_popup.py:146-149 | The search stops at the first line that starts with "model name". |
| SystemInfo.ModelName | popups/system_info_popup.py:145-151 | Without a "model name" line the model is "Unknown CPU". Extraction fails, as `split(':')[1]` does, exactly when that line has no ':'. |
| SystemInfo.CleanModel | popups/system_info_popup.py:158 | Removing "(R)" and then "(TM)" never lengthens the model. |
| SystemInfo.CleanModelShortensMarked | popups/system_info_popup.py:158 | A model that contains either mark gets strictly shorter. |
| SystemInfo.CleanModelRemovesBothMarks | popups/system_info_popup.py:158 | A "(R)" and a later "(TM)" between texts without '(' are both removed, and nothing else is. |
| SystemInfo.CleanModelKeepsPlainNames | popups/system_info_popup.py:158 | A model without the marks is shown unchanged. |
| SystemInfo.GetCpuInfo | popups/system_info_popup.py:141-162 | An unreadable cpuinfo, a missing nproc or a malformed model line gives ("Unknown CPU", "?"). A non-zero nproc exit gives "?" cores. |
| SystemInfo.ModelLineName | popups/system_info_popup.py:145-151 | The first "model name: <name>" line yields exactly the name. |
| SystemInfo.CpuModelReadsBack | popups/system_info_popup.py:141-159 | For a cpuinfo whose first model line is "model name: <name>" and a successful nproc, the result is the cleaned name and the trimmed core count. |
| Widgets.ClampInt | widgets/myui/components/widgets.py:106-108 | A value is clamped into the slider's range. Values inside it are kept. |
| Widgets.PercentLabel | widgets/myui/components/widgets.py:71-72 | The value label is a number followed by '%'. |
| Widgets.PercentLabelReadsBack | widgets/myui/components/widgets.py:71-72 | The number before the '%' parses back as the slider's value. |
| Widgets.SliderRow.constructor | widgets/myui/components/widgets.py:19-60 | The slider shows the clamped initial value. The last released value is the initial value as given. No timer is pending and no callback has run. |
| Widgets.SliderRow.OnValueChanged | widgets/myui/components/widgets.py:66-76 | The label follows the value when shown. The plain callback fires exactly when one is set and no release callback is. |
| Widgets.SliderRow.SetValue | widgets/myui/components/widgets.py:106-108 | The value is clamped, and value-changed is emitted only when it changes. |
| Widgets.SliderRow.UserChange | widgets/myui/components/widgets.py:78-88 | With a release callback, any pending drag timeout is cancelled before a new one is scheduled, so exactly one is pending. The value is then set as `set_value` does, and a change refreshes the shown percentage label. |
| Widgets.SliderRow.OnDragTimeout | widgets/myui/components/widgets.py:90-100 | The release callback fires exactly when the value differs from the last released one. That value then becomes the last released one, and no timer remains. |
| Widgets.ProgressRow.constructor | widgets/myui/components/widgets.py:214-223 | The initial fraction is stored unclamped. |
| Widgets.ProgressRow.SetProgress | widgets/myui/components/widgets.py:225-227 | The fraction is stored clamped to [0, 1]. Fractions inside are kept. |
| Widgets.ListWidget.constructor | widgets/myui/components/widgets.py:238-260 | A list starts without rows or callback entries. |
| Widgets.ListWidget.AddItem | widgets/myui/components/widgets.py:262-317 | The row is appended under a fresh id. A callback entry is recorded for it exactly when a left or right callback is given. |
| Widgets.ListWidget.ClearItems | widgets/myui/components/widgets.py:319-329 | Every row is removed and the callback table is emptied. |
| Widgets.ListWidget.OnRowActivated | widgets/myui/components/widgets.py:331-344 | The stored left callback is called with the row's data exactly when an entry exists and its left callback is set. A separator never activates. |
| Widgets.ListWidget.SetLoading | widgets/myui/components/widgets.py:346-351 | Loading leaves exactly one "Loading..." row and an empty callback table. |
| Widgets.ListWidget.AddSeparator | widgets/myui/components/widgets.py:353-364 | A separator row is appended without a callback entry. |
| BaseWindow.AppWindow.constructor | widgets/myui/base_window.py:41-52 | A new window cannot close on focus loss and has no close timer. The grace timer is scheduled exactly when focus loss should close it. |
| BaseWindow.AppWindow.EnableFocusLossClose | widgets/myui/base_window.py:62-65 | The grace timer enables closing on focus loss and does not repeat. |
| BaseWindow.AppWindow.OnFocusLeave | widgets/myui/base_window.py:76-86 | Nothing happens until closing is enabled. Then any pending close timer is removed before a new one is scheduled, so exactly one is pending. |
| BaseWindow.AppWindow.OnFocusEnter | widgets/myui/base_window.py:88-93 | Any pending close timer is removed and forgotten. |
| BaseWindow.AppWindow.CloseTimeout | widgets/myui/base_window.py:95-99 | The close timer closes the window once and is forgotten. |
| BaseWindow.AppId | widgets/myui/base_window.py:133-134 | A non-empty tag gives "myui.<tag>". Otherwise the id passed in is kept. |
| BaseWindow.AppIdTagReadsBack | widgets/myui/base_window.py:133-134 | The tag can be read back from a derived id. |
| BaseWindow.AppIdsDistinct | widgets/myui/base_window.py:133-134 | Different tags give different application ids. |
| BaseWindow.QuickApp.constructor | widgets/myui/base_window.py:131-142 | The id is derived from the tag. "window_tag" is added to the window arguments only when a tag is given and not already present, and the arguments given are kept. |

## Left out

- Threads, `GLib.idle_add` and timers are modelled as atomic steps, explicit queues and timer ids. Interleavings, `wait_for_all` and the module-level `run_async`, `cancel_async` and `get_active_async` wrappers are not modelled; the wrappers only forward to one global runner.
- Subprocess, D-Bus, Bleak and `notify-send` calls, file reads, printing and logging are not modelled. Their results are parameters.
- `AsyncUtils.AsyncCommand.Run`: the pipe-reading loop, `communicate` and the time-out are taken as a given `ProcessRun` outcome. The lines read before the loop ends are not modelled line by line.
- Floating-point arithmetic is not modelled. Progress values are `real`. The Bleak scan steps, progress fractions and the one-second update throttle depend on the clock, and are not modelled.
- The SIGTERM handler and `hold()` in manager.py are process lifecycle, and are not modelled. A window constructor that raises is a boolean parameter.
- `Manager.StaleDestroyRemovesNewerEntry` exhibits that deleting by name can drop the entry of a newer window; the model keeps this behaviour as written.
- GTK widget construction and layout are not modelled. This covers `TabWidget`, `LoadingWidget`, `ButtonRow`, `InfoRow` and `ToggleRow` building, and the rebuilding of the system information view. GTK's own clamping in `set_fraction` and the slider's float values are not modelled; slider values are integers.
- `Widgets.ListWidget.AddItem`: the right-click gesture closure is not modelled. The tuple entries that `_on_row_activated` also accepts are never created by `add_item`, so they are left out.
- `Volume.VolumePopup.OnVolumeChange`: a missing pactl (an uncaught `FileNotFoundError`) aborts the handler before the mute sync. The model takes pactl as present or absent for the whole popup.
- `Volume.UnmutedWithoutYes` and `Volume.MuteState`: `lower()` is modelled on ASCII letters only.
- `SystemInfo.UptimeText`: the uptime is modelled as the whole seconds of a non-negative reading. Fractional seconds are dropped, as the integer divisions do. Negative, NaN and infinite readings are not modelled. A reading that cannot be taken is `None`, which gives "Unknown".
- `SystemInfo.GetCpuInfo`: the lines of `/proc/cpuinfo` are the text split at '\n'. Iterating the file keeps the newline, which `strip()` removes, so the model is equivalent. Files with '\r'-only line endings are not modelled.
- `SystemInfo.CleanModel`: no claim is made that the result is free of "(R)" and "(TM)". One pass of `replace` can form a new mark, as in "((R)R)".
- `Network.ActiveConnection` and `Bluetooth.PoweredStatus` are first-match searches, modelled as functions with lemmas rather than as loops.
- The remaining NetworkManager, BluetoothManager and popup handlers only run commands and show notifications. This covers power, airplane mode, Wi-Fi toggles, connect, disconnect, forget, unpair, device clicks and notifications, and they are not modelled.
- `QuickApp.on_activate` and `run_quick` create and present GTK windows, and are not modelled. `AppWindow._set_window_tag` only writes a debug line to stderr, and is not modelled.
- theming.py, battery_popup.py, brightness_popup.py, widget_showcase.py and `__init__.py` are not part of this model.
