/**
 * The WiFi side of the network popup (popups/network_popup.py): the
 * `NetworkConnection` record with its icon and signal bars, the parsers for
 * nmcli's terse (`-t`, colon-separated) output, the order the scan list is
 * shown in, and what a click on a network decides to do.
 *
 * Each nmcli call is an input: `Some(stdout)` when the command ran, `None`
 * when launching it raised (nmcli missing, timeout), which every caller
 * catches.
 */
module Network {
  import opened Wrappers
  import opened Text

  datatype NetworkConnection = NetworkConnection(
    ssid: string,
    signalStrength: int,
    security: string,
    connected: bool,
    known: bool,
    devicePath: string)

  // ---------------------------------------------------------------------------
  // Icon and signal bars
  // ---------------------------------------------------------------------------

  const ConnectedIcon := "\U{F0928}"
  const KnownIcon := "\U{F0925}"
  const SecuredIcon := "\U{F0921}"
  const OpenIcon := "\U{F0922}"

  /** `get_icon`: connected wins over known, known over secured, secured over open. */
  function Icon(n: NetworkConnection): (icon: string)
    ensures icon == ConnectedIcon <==> n.connected
    ensures icon == KnownIcon <==> !n.connected && n.known
    ensures icon == SecuredIcon <==> !n.connected && !n.known && n.security != ""
    ensures icon == OpenIcon <==> !n.connected && !n.known && n.security == ""
  {
    if n.connected then ConnectedIcon
    else if n.known then KnownIcon
    else if n.security != "" then SecuredIcon
    else OpenIcon
  }

  /** Four bars of rising height. */
  const FullBars := "▂▄▆█"

  /** `get_signal_bars`. */
  function SignalBars(strength: int): string {
    if strength >= 80 then "▂▄▆█"
    else if strength >= 60 then "▂▄▆"
    else if strength >= 40 then "▂▄"
    else if strength >= 20 then "▂"
    else "."
  }

  /** The number of bars a strength earns: one per 20 points from 20 up, at most four. */
  function BarCount(strength: int): nat {
    if strength < 20 then 0 else if strength >= 80 then 4 else strength / 20
  }

  /** Below 20 the bars are a single dot; from 20 up they are the first
      `BarCount` of the four bars. */
  lemma SignalBarsByCount(strength: int)
    ensures strength < 20 ==> SignalBars(strength) == "."
    ensures strength >= 20 ==> 1 <= BarCount(strength) <= 4 && SignalBars(strength) == FullBars[..BarCount(strength)]
  {
    if strength >= 20 {
      assert 1 <= BarCount(strength) <= 4;
    }
  }

  /** A stronger signal never shows fewer bars: for strengths from 20 up, the
      weaker one's bars are a prefix of the stronger one's. */
  lemma SignalBarsMonotone(a: int, b: int)
    requires a <= b
    ensures BarCount(a) <= BarCount(b)
    ensures a >= 20 ==> SignalBars(a) <= SignalBars(b)
  {
    SignalBarsByCount(a);
    SignalBarsByCount(b);
  }

  // ---------------------------------------------------------------------------
  // Terse output
  // ---------------------------------------------------------------------------

  /** `stdout.strip().split('\n')`, or no lines when the command raised. */
  function Lines(output: Option<string>): seq<string> {
    if output.None? then [] else Split(Strip(output.value), '\n')
  }

  const WirelessType := "802-11-wireless"

  /** The saved connection a line of `nmcli -t -f NAME,TYPE connection show`
      describes, when its type is WiFi. */
  function KnownName(line: string): Option<string> {
    var parts := Split(line, ':');
    if line != "" && |parts| >= 2 && parts[1] == WirelessType then Some(parts[0]) else None
  }

  /** The names of saved WiFi connections among `lines`. */
  function KnownNames(lines: seq<string>): set<string> {
    if lines == [] then {}
    else (if KnownName(lines[0]).Some? then {KnownName(lines[0]).value} else {}) + KnownNames(lines[1..])
  }

  /** A name is known exactly when some line's first field is that name and its
      second field is the WiFi type. */
  lemma {:induction false} KnownNamesExactly(lines: seq<string>, name: string)
    ensures name in KnownNames(lines) <==>
      exists i :: 0 <= i < |lines| && KnownName(lines[i]) == Some(name)
  {
    if lines != [] {
      KnownNamesExactly(lines[1..], name);
      if name in KnownNames(lines[1..]) {
        var i :| 0 <= i < |lines[1..]| && KnownName(lines[1..][i]) == Some(name);
        assert KnownName(lines[i + 1]) == Some(name);
      }
      if exists i :: 0 <= i < |lines| && KnownName(lines[i]) == Some(name) {
        var i :| 0 <= i < |lines| && KnownName(lines[i]) == Some(name);
        if i > 0 {
          assert KnownName(lines[1..][i - 1]) == Some(name);
        }
      }
    }
  }

  /** The names of the lines from `i` on: line `i`'s, then the rest. */
  lemma KnownNamesStep(lines: seq<string>, i: nat)
    requires i < |lines|
    ensures KnownNames(lines[i..]) ==
      (if KnownName(lines[i]).Some? then {KnownName(lines[i]).value} else {}) + KnownNames(lines[i + 1..])
  {
    assert lines[i..][1..] == lines[i + 1..];
  }

  /** `_get_known_connections`. */
  method KnownConnections(output: Option<string>) returns (known: set<string>)
    ensures known == KnownNames(Lines(output))
  {
    known := CollectKnownNames(Lines(output));
  }

  /** The loop of `_get_known_connections`, over the output's lines. */
  method CollectKnownNames(lines: seq<string>) returns (known: set<string>)
    ensures known == KnownNames(lines)
  {
    known := {};
    var i := 0;
    while i < |lines|
      invariant 0 <= i <= |lines|
      invariant known + KnownNames(lines[i..]) == KnownNames(lines)
    {
      var name := KnownName(lines[i]);
      KnownNamesStep(lines, i);
      if name.Some? {
        known := known + {name.value};
      }
      i := i + 1;
    }
  }

  // ---------------------------------------------------------------------------
  // Active connection
  // ---------------------------------------------------------------------------

  /** `_get_active_signal_strength`: the integer on the first line, 0 when
      there is none, it does not parse, or nmcli raised. */
  function ActiveSignalStrength(output: Option<string>): int {
    var lines := Lines(output);
    if lines != [] && lines[0] != "" && ParseInt(lines[0]).Some? then ParseInt(lines[0]).value else 0
  }

  /** Whether a line of `nmcli -t -f NAME,DEVICE,TYPE connection show --active`
      is a WiFi connection. */
  predicate IsActiveWireless(line: string) {
    var parts := Split(line, ':');
    line != "" && |parts| >= 3 && parts[2] == WirelessType
  }

  /** The first active WiFi connection's name. */
  function FirstActiveWireless(lines: seq<string>): Option<string> {
    if lines == [] then None
    else if IsActiveWireless(lines[0]) then Some(Split(lines[0], ':')[0])
    else FirstActiveWireless(lines[1..])
  }

  /** `get_active_connection`, given both command outputs. */
  function ActiveConnection(activeOutput: Option<string>, signalOutput: Option<string>): Option<NetworkConnection> {
    match FirstActiveWireless(Lines(activeOutput))
    case None => None
    case Some(name) => Some(NetworkConnection(name, ActiveSignalStrength(signalOutput), "", true, true, ""))
  }

  /** The active connection is reported exactly when some line is an active
      WiFi connection; it is then the first such line's name, flagged
      connected and known. */
  lemma {:induction false} ActiveConnectionIsFirst(lines: seq<string>)
    ensures FirstActiveWireless(lines).None? <==> forall i :: 0 <= i < |lines| ==> !IsActiveWireless(lines[i])
    ensures FirstActiveWireless(lines).Some? ==>
      exists i :: 0 <= i < |lines| && IsActiveWireless(lines[i])
        && FirstActiveWireless(lines).value == Split(lines[i], ':')[0]
        && forall j :: 0 <= j < i ==> !IsActiveWireless(lines[j])
  {
    if lines != [] && !IsActiveWireless(lines[0]) {
      ActiveConnectionIsFirst(lines[1..]);
      if FirstActiveWireless(lines).Some? {
        var i :| 0 <= i < |lines[1..]| && IsActiveWireless(lines[1..][i])
          && FirstActiveWireless(lines[1..]).value == Split(lines[1..][i], ':')[0]
          && forall j :: 0 <= j < i ==> !IsActiveWireless(lines[1..][j]);
        assert forall j :: 0 <= j < i + 1 ==> !IsActiveWireless(lines[j]) by {
          forall j | 0 <= j < i + 1
            ensures !IsActiveWireless(lines[j])
          {
            if j > 0 {
              assert lines[j] == lines[1..][j - 1];
            }
          }
        }
      } else {
        forall i | 0 <= i < |lines|
          ensures !IsActiveWireless(lines[i])
        {
          if i > 0 {
            assert lines[i] == lines[1..][i - 1];
          }
        }
      }
    } else if lines != [] {
      assert IsActiveWireless(lines[0]);
    }
  }

  lemma ActiveConnectionFlags(activeOutput: Option<string>, signalOutput: Option<string>)
    ensures ActiveConnection(activeOutput, signalOutput).Some? ==>
      var n := ActiveConnection(activeOutput, signalOutput).value;
      n.connected && n.known && n.signalStrength == ActiveSignalStrength(signalOutput)
    ensures ActiveConnection(activeOutput, signalOutput).None? <==> FirstActiveWireless(Lines(activeOutput)).None?
  {
  }

  // ---------------------------------------------------------------------------
  // Scan list
  // ---------------------------------------------------------------------------

  /** The network a line of `nmcli -t -f SSID,SIGNAL,SECURITY,IN-USE device
      wifi list` describes, before de-duplication: skipped when empty, when it
      has fewer than four fields or when its stripped SSID is empty. */
  function ScanLine(line: string, known: set<string>): Option<NetworkConnection>
  {
    var parts := Split(line, ':');
    if line == "" || |parts| < 4 then None
    else
      var ssid := Strip(parts[0]);
      if ssid == "" then None
      else
        var signal := if parts[1] != "" && ParseInt(parts[1]).Some? then ParseInt(parts[1]).value else 0;
        Some(NetworkConnection(ssid, signal, parts[2], '*' in parts[3], ssid in known, ""))
  }

  /** A line yields a network exactly when it is non-empty, has at least four
      fields and a non-blank SSID; the network's SSID is the stripped first
      field, its signal the integer of the second field (0 when that does not
      parse), it is connected exactly when the fourth field holds `*`, and
      known exactly when its SSID is saved. */
  lemma ScanLineFields(line: string, known: set<string>)
    ensures var n := ScanLine(line, known);
      && (n.Some? <==> line != "" && |Split(line, ':')| >= 4 && Strip(Split(line, ':')[0]) != "")
      && (n.Some? ==>
        && n.value.ssid == Strip(Split(line, ':')[0]) && n.value.ssid != ""
        && n.value.security == Split(line, ':')[2]
        && (n.value.connected <==> '*' in Split(line, ':')[3])
        && (n.value.known <==> n.value.ssid in known)
        && n.value.signalStrength == (if ParseInt(Split(line, ':')[1]).Some? then ParseInt(Split(line, ':')[1]).value else 0))
  {
  }

  /** Each line's network, before de-duplication. */
  function ScanLines(lines: seq<string>, known: set<string>): (parsed: seq<Option<NetworkConnection>>)
    ensures |parsed| == |lines|
    ensures forall i :: 0 <= i < |lines| ==> parsed[i] == ScanLine(lines[i], known)
  {
    seq(|lines|, i requires 0 <= i < |lines| => ScanLine(lines[i], known))
  }

  /** The scan list in scan order: each parsed network, unless a network with
      the same SSID came earlier (or its SSID is in `seen`). */
  function FirstPerSsid(parsed: seq<Option<NetworkConnection>>, seen: set<string>): seq<NetworkConnection> {
    if parsed == [] then []
    else
      var n := parsed[0];
      if n.Some? && n.value.ssid !in seen then [n.value] + FirstPerSsid(parsed[1..], seen + {n.value.ssid})
      else FirstPerSsid(parsed[1..], seen)
  }

  /** No two networks in a list share an SSID. */
  predicate DistinctSsids(ns: seq<NetworkConnection>) {
    forall i, j :: 0 <= i < j < |ns| ==> ns[i].ssid != ns[j].ssid
  }

  /** The de-duplicated list holds no SSID twice and none from `seen`. */
  lemma {:induction false} FirstPerSsidDistinct(parsed: seq<Option<NetworkConnection>>, seen: set<string>)
    ensures forall n :: n in FirstPerSsid(parsed, seen) ==> n.ssid !in seen
    ensures DistinctSsids(FirstPerSsid(parsed, seen))
  {
    if parsed != [] {
      var n := parsed[0];
      if n.Some? && n.value.ssid !in seen {
        FirstPerSsidDistinct(parsed[1..], seen + {n.value.ssid});
      } else {
        FirstPerSsidDistinct(parsed[1..], seen);
      }
    }
  }

  /** Whether a parsed line is a network with the given SSID. */
  predicate HasSsid(n: Option<NetworkConnection>, ssid: string) {
    n.Some? && n.value.ssid == ssid
  }

  /** Every listed network is the first parsed network with its SSID. */
  lemma {:induction false} FirstPerSsidFirstWins(parsed: seq<Option<NetworkConnection>>, seen: set<string>)
    ensures forall n :: n in FirstPerSsid(parsed, seen) ==>
      exists i :: 0 <= i < |parsed| && parsed[i] == Some(n) && forall j :: 0 <= j < i ==> !HasSsid(parsed[j], n.ssid)
  {
    if parsed != [] {
      var first := parsed[0];
      var seen' := if first.Some? && first.value.ssid !in seen then seen + {first.value.ssid} else seen;
      var rest := FirstPerSsid(parsed[1..], seen');
      FirstPerSsidFirstWins(parsed[1..], seen');
      FirstPerSsidDistinct(parsed[1..], seen');
      forall n | n in FirstPerSsid(parsed, seen)
        ensures exists i :: 0 <= i < |parsed| && parsed[i] == Some(n) && forall j :: 0 <= j < i ==> !HasSsid(parsed[j], n.ssid)
      {
        if first.Some? && first.value.ssid !in seen && n == first.value {
          assert parsed[0] == Some(n);
        } else {
          assert n in rest;
          var i :| 0 <= i < |parsed[1..]| && parsed[1..][i] == Some(n)
            && forall j :: 0 <= j < i ==> !HasSsid(parsed[1..][j], n.ssid);
          assert n.ssid !in seen';
          assert parsed[i + 1] == Some(n);
          forall j | 0 <= j < i + 1
            ensures !HasSsid(parsed[j], n.ssid)
          {
            if j > 0 {
              assert parsed[j] == parsed[1..][j - 1];
            }
          }
        }
      }
    }
  }

  /** Every parsed SSID not in `seen` is listed. */
  lemma {:induction false} FirstPerSsidComplete(parsed: seq<Option<NetworkConnection>>, seen: set<string>)
    ensures forall i :: 0 <= i < |parsed| && parsed[i].Some? && parsed[i].value.ssid !in seen ==>
      exists n :: n in FirstPerSsid(parsed, seen) && n.ssid == parsed[i].value.ssid
  {
    if parsed != [] {
      var first := parsed[0];
      var seen' := if first.Some? && first.value.ssid !in seen then seen + {first.value.ssid} else seen;
      var rest := FirstPerSsid(parsed[1..], seen');
      FirstPerSsidComplete(parsed[1..], seen');
      forall i | 0 <= i < |parsed| && parsed[i].Some? && parsed[i].value.ssid !in seen
        ensures exists n :: n in FirstPerSsid(parsed, seen) && n.ssid == parsed[i].value.ssid
      {
        var ssid := parsed[i].value.ssid;
        if first.Some? && first.value.ssid !in seen && ssid == first.value.ssid {
          assert first.value in FirstPerSsid(parsed, seen);
        } else {
          assert parsed[1..][i - 1] == parsed[i];
          var n :| n in rest && n.ssid == ssid;
          assert n in FirstPerSsid(parsed, seen);
        }
      }
    }
  }

  /** The parsing loop of `scan_wifi_networks_simple`, before sorting. */
  method ParseScan(output: Option<string>, known: set<string>) returns (networks: seq<NetworkConnection>)
    ensures networks == FirstPerSsid(ScanLines(Lines(output), known), {})
  {
    var lines := Lines(output);
    ghost var parsed := ScanLines(lines, known);
    networks := [];
    var seen: set<string> := {};
    var i := 0;
    while i < |lines|
      invariant 0 <= i <= |lines|
      invariant networks + FirstPerSsid(parsed[i..], seen) == FirstPerSsid(parsed, {})
    {
      var network := ScanLine(lines[i], known);
      assert parsed[i..][0] == network && parsed[i..][1..] == parsed[i + 1..];
      if network.Some? && network.value.ssid !in seen {
        seen := seen + {network.value.ssid};
        networks := networks + [network.value];
      }
      i := i + 1;
    }
    assert parsed[i..] == [];
  }

  // ---------------------------------------------------------------------------
  // Display order
  // ---------------------------------------------------------------------------

  /** `key(a) <= key(b)` for the key `(not connected, -signal_strength)`:
      connected networks first, then stronger before weaker. */
  predicate KeyLe(a: NetworkConnection, b: NetworkConnection) {
    (a.connected && !b.connected) || (a.connected == b.connected && a.signalStrength >= b.signalStrength)
  }

  /** Two networks have the same sort key. */
  predicate SameKey(a: NetworkConnection, b: NetworkConnection) {
    a.connected == b.connected && a.signalStrength == b.signalStrength
  }

  predicate SortedByKey(ns: seq<NetworkConnection>) {
    forall i, j :: 0 <= i < j < |ns| ==> KeyLe(ns[i], ns[j])
  }

  /** The networks of `ns` whose key equals `k`'s, in their order in `ns`. */
  function WithKeyOf(ns: seq<NetworkConnection>, k: NetworkConnection): seq<NetworkConnection> {
    if ns == [] then []
    else (if SameKey(ns[0], k) then [ns[0]] else []) + WithKeyOf(ns[1..], k)
  }

  /** Places `x` before the first element whose key is not smaller than its own. */
  function Insert(x: NetworkConnection, ns: seq<NetworkConnection>): seq<NetworkConnection> {
    if ns == [] || KeyLe(x, ns[0]) then [x] + ns else [ns[0]] + Insert(x, ns[1..])
  }

  /** What `networks.sort(key=...)` produces: Python's sort is stable, and so
      is this insertion sort. */
  function SortNetworks(ns: seq<NetworkConnection>): seq<NetworkConnection> {
    if ns == [] then [] else Insert(ns[0], SortNetworks(ns[1..]))
  }

  lemma {:induction false} InsertPermutes(x: NetworkConnection, ns: seq<NetworkConnection>)
    ensures multiset(Insert(x, ns)) == multiset([x] + ns)
  {
    if ns != [] && !KeyLe(x, ns[0]) {
      InsertPermutes(x, ns[1..]);
      assert [x] + ns == [x] + [ns[0]] + ns[1..];
      assert ns == [ns[0]] + ns[1..];
    }
  }

  lemma {:induction false} InsertSorted(x: NetworkConnection, ns: seq<NetworkConnection>)
    requires SortedByKey(ns)
    ensures SortedByKey(Insert(x, ns))
  {
    if ns != [] && !KeyLe(x, ns[0]) {
      var tail := ns[1..];
      InsertSorted(x, tail);
      InsertMembers(x, tail);
      var r := Insert(x, tail);
      forall j | 0 <= j < |r|
        ensures KeyLe(ns[0], r[j])
      {
        if r[j] != x {
          assert r[j] in r;
          var k :| 0 <= k < |tail| && tail[k] == r[j];
          assert ns[k + 1] == r[j];
        }
      }
    }
  }

  lemma {:induction false} InsertStable(x: NetworkConnection, ns: seq<NetworkConnection>, k: NetworkConnection)
    ensures WithKeyOf(Insert(x, ns), k) == WithKeyOf([x] + ns, k)
  {
    if ns == [] || KeyLe(x, ns[0]) {
    } else {
      InsertStable(x, ns[1..], k);
      assert ([ns[0]] + Insert(x, ns[1..]))[1..] == Insert(x, ns[1..]);
      assert ([x] + ns[1..])[1..] == ns[1..];
      assert ([x] + ns)[1..] == ns;
      if SameKey(ns[0], k) {
        assert !SameKey(x, k);
      }
    }
  }

  /** The display order is sorted by the key, is a permutation of the scan
      list, and keeps networks with equal keys in scan order. */
  lemma {:induction false} SortNetworksCorrect(ns: seq<NetworkConnection>)
    ensures SortedByKey(SortNetworks(ns))
    ensures multiset(SortNetworks(ns)) == multiset(ns)
    ensures forall k :: WithKeyOf(SortNetworks(ns), k) == WithKeyOf(ns, k)
  {
    if ns != [] {
      SortNetworksCorrect(ns[1..]);
      InsertSorted(ns[0], SortNetworks(ns[1..]));
      InsertPermutes(ns[0], SortNetworks(ns[1..]));
      assert ns == [ns[0]] + ns[1..];
      forall k
        ensures WithKeyOf(SortNetworks(ns), k) == WithKeyOf(ns, k)
      {
        InsertStable(ns[0], SortNetworks(ns[1..]), k);
        assert ([ns[0]] + SortNetworks(ns[1..]))[1..] == SortNetworks(ns[1..]);
      }
    }
  }

  lemma {:induction false} InsertDistinct(x: NetworkConnection, ns: seq<NetworkConnection>)
    requires DistinctSsids(ns)
    requires forall y :: y in ns ==> y.ssid != x.ssid
    ensures DistinctSsids(Insert(x, ns))
  {
    if ns == [] || KeyLe(x, ns[0]) {
      ConsDistinct(x, ns);
    } else {
      var tail := ns[1..];
      assert forall y :: y in tail ==> y in ns;
      InsertDistinct(x, tail);
      InsertMembers(x, tail);
      var r := Insert(x, tail);
      forall y | y in r
        ensures y.ssid != ns[0].ssid
      {
        if y != x {
          var k :| 0 <= k < |tail| && tail[k] == y;
          assert ns[k + 1] == y;
        }
      }
      ConsDistinct(ns[0], r);
    }
  }

  /** The inserted list holds the new network and those of the list, and no
      other. */
  lemma {:induction false} InsertMembers(x: NetworkConnection, ns: seq<NetworkConnection>)
    ensures forall y :: y in Insert(x, ns) <==> y == x || y in ns
  {
    if ns != [] && !KeyLe(x, ns[0]) {
      InsertMembers(x, ns[1..]);
      assert ns == [ns[0]] + ns[1..];
    }
  }

  /** A network put in front of a list with distinct SSIDs, none of them its
      own, keeps the SSIDs distinct. */
  lemma ConsDistinct(x: NetworkConnection, ns: seq<NetworkConnection>)
    requires DistinctSsids(ns)
    requires forall y :: y in ns ==> y.ssid != x.ssid
    ensures DistinctSsids([x] + ns)
  {
    var r := [x] + ns;
    forall i, j | 0 <= i < j < |r|
      ensures r[i].ssid != r[j].ssid
    {
      assert r[j] == ns[j - 1];
      if i > 0 {
        assert r[i] == ns[i - 1];
      }
    }
  }

  /** Sorting keeps SSIDs distinct. */
  lemma {:induction false} SortKeepsDistinct(ns: seq<NetworkConnection>)
    requires DistinctSsids(ns)
    ensures DistinctSsids(SortNetworks(ns))
  {
    if ns != [] {
      assert DistinctSsids(ns[1..]);
      SortKeepsDistinct(ns[1..]);
      SortNetworksCorrect(ns[1..]);
      forall y | y in SortNetworks(ns[1..])
        ensures y.ssid != ns[0].ssid
      {
        assert y in multiset(ns[1..]);
        var k :| 0 <= k < |ns[1..]| && ns[1..][k] == y;
        assert ns[k + 1] == y;
      }
      InsertDistinct(ns[0], SortNetworks(ns[1..]));
    }
  }

  /** `scan_wifi_networks_simple`, given the outputs of the list and the
      saved-connections commands (`None` for the list when the rescan or the
      listing raised): parse, then sort. */
  method ScanWifiNetworks(listOutput: Option<string>, savedOutput: Option<string>)
    returns (networks: seq<NetworkConnection>)
    ensures networks == SortNetworks(FirstPerSsid(ScanLines(Lines(listOutput), KnownNames(Lines(savedOutput))), {}))
    ensures SortedByKey(networks) && DistinctSsids(networks)
    ensures forall n :: n in networks <==> n in FirstPerSsid(ScanLines(Lines(listOutput), KnownNames(Lines(savedOutput))), {})
  {
    var known := KnownConnections(savedOutput);
    var parsed := ParseScan(listOutput, known);
    networks := SortNetworks(parsed);
    SortNetworksCorrect(parsed);
    FirstPerSsidDistinct(ScanLines(Lines(listOutput), known), {});
    SortKeepsDistinct(parsed);
    assert forall n :: n in networks <==> n in multiset(networks);
    assert forall n :: n in parsed <==> n in multiset(parsed);
  }

  // ---------------------------------------------------------------------------
  // Connecting
  // ---------------------------------------------------------------------------

  datatype ConnectDecision =
    | AlreadyConnected          // the click is ignored
    | ConnectWithoutPassword    // `connect_to_network(ssid)` runs in the background
    | SkipSecured               // the worker returns False without calling nmcli

  /** `on_network_clicked` and its `connect_worker`. */
  function OnNetworkClicked(n: NetworkConnection): (d: ConnectDecision)
    ensures d == AlreadyConnected <==> n.connected
    ensures d == ConnectWithoutPassword <==> !n.connected && (n.known || n.security == "")
    ensures d == SkipSecured <==> !n.connected && !n.known && n.security != ""
  {
    if n.connected then AlreadyConnected
    else if n.known then ConnectWithoutPassword
    else if n.security == "" then ConnectWithoutPassword
    else SkipSecured
  }

  /** Only a secured network that was never saved is refused; its icon is the
      secured icon. */
  lemma SkipSecuredShowsSecuredIcon(n: NetworkConnection)
    ensures OnNetworkClicked(n) == SkipSecured <==> Icon(n) == SecuredIcon
    ensures OnNetworkClicked(n) == AlreadyConnected <==> Icon(n) == ConnectedIcon
  {
  }
}
