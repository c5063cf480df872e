// The volume popup: reading the sink volume and mute state from `pactl`
// output, and keeping the mute switch in step with the volume slider.

module Volume {
  import opened Wrappers
  import opened Text
  import Widgets

  /** How a `pactl` query ended: it ran and printed `stdout`, it exited with a
      non-zero status (`CalledProcessError`), or the program could not be
      started (`FileNotFoundError`). */
  datatype PactlRun = Ran(stdout: string) | ExitedNonZero | NotFound

  /** What a query method gives back: a value, or an exception that escapes it. */
  datatype Reading<T> = Value(value: T) | Raises(error: string)

  const DefaultVolume: int := 50

  // ---------------------------------------------------------------------------
  // get_current_volume
  // ---------------------------------------------------------------------------

  /** The first of the tokens that ends in '%'. */
  function FirstPercentToken(tokens: seq<string>): (r: Option<string>)
    ensures r.Some? ==> r.value in tokens && EndsWith(r.value, '%')
    ensures r.None? <==> forall i :: 0 <= i < |tokens| ==> !EndsWith(tokens[i], '%')
  {
    if |tokens| == 0 then None
    else if EndsWith(tokens[0], '%') then Some(tokens[0])
    else FirstPercentToken(tokens[1..])
  }

  /** The percentage token a line offers: its first whitespace-separated token
      ending in '%', provided the line mentions "Volume:". */
  function LinePercentToken(line: string): Option<string> {
    if Contains(line, "Volume:") then FirstPercentToken(SplitWhitespace(line)) else None
  }

  /** The percentage token of every line. */
  function LinePercentTokens(lines: seq<string>): (toks: seq<Option<string>>)
    ensures |toks| == |lines|
  {
    if lines == [] then [] else [LinePercentToken(lines[0])] + LinePercentTokens(lines[1..])
  }

  /** Each line's entry is that line's percentage token. */
  lemma {:induction false} LinePercentTokensAt(lines: seq<string>, i: nat)
    requires i < |lines|
    ensures LinePercentTokens(lines)[i] == LinePercentToken(lines[i])
  {
    if i > 0 {
      LinePercentTokensAt(lines[1..], i - 1);
    }
  }

  /** The first present value. */
  function FirstSome<T>(xs: seq<Option<T>>): (r: Option<T>)
    ensures r.None? <==> forall i :: 0 <= i < |xs| ==> xs[i].None?
  {
    if |xs| == 0 then None else if xs[0].Some? then xs[0] else FirstSome(xs[1..])
  }

  /** `FirstSome` picks the value at the first present position. */
  lemma {:induction false} FirstSomeIsFirst<T>(xs: seq<Option<T>>, i: nat)
    requires i < |xs| && xs[i].Some?
    requires forall j :: 0 <= j < i ==> xs[j].None?
    ensures FirstSome(xs) == xs[i]
    decreases i
  {
    if i > 0 {
      FirstSomeIsFirst(xs[1..], i - 1);
    }
  }

  /** `int(token.rstrip('%'))`, which raises on a malformed number. */
  function TokenVolume(token: string): (r: Reading<int>)
    ensures r.Raises? <==> ParseInt(RStripChar(token, '%')).None?
  {
    match ParseInt(RStripChar(token, '%'))
    case Some(v) => Value(v)
    case None => Raises("ValueError")
  }

  /** The volume in `pactl get-sink-volume` output: the percentage token of the
      first "Volume:" line that has one, or 50 when no line has one. */
  function VolumeFromOutput(stdout: string): Reading<int> {
    match FirstSome(LinePercentTokens(Split(stdout, '\n')))
    case None => Value(DefaultVolume)
    case Some(token) => TokenVolume(token)
  }

  /** `get_current_volume`: only a non-zero exit is caught; a missing `pactl`
      and a malformed percentage escape as exceptions. */
  function CurrentVolume(run: PactlRun): (r: Reading<int>)
    ensures run.ExitedNonZero? ==> r == Value(DefaultVolume)
    ensures run.NotFound? ==> r.Raises?
  {
    match run
    case Ran(stdout) => VolumeFromOutput(stdout)
    case ExitedNonZero => Value(DefaultVolume)
    case NotFound => Raises("FileNotFoundError")
  }

  /** The inner loop of `get_current_volume` over one line: the first token
      ending in '%' of a "Volume:" line. */
  method ScanVolumeLine(line: string) returns (token: Option<string>)
    ensures token == LinePercentToken(line)
  {
    if !Contains(line, "Volume:") {
      return None;
    }
    var parts := SplitWhitespace(line);
    var j := 0;
    while j < |parts|
      invariant 0 <= j <= |parts|
      invariant FirstPercentToken(parts) == FirstPercentToken(parts[j..])
    {
      if EndsWith(parts[j], '%') {
        return Some(parts[j]);
      }
      assert parts[j..][1..] == parts[j + 1..];
      j := j + 1;
    }
    return None;
  }

  /** `get_current_volume`: the lines of `pactl` output are scanned in order,
      returning at the first percentage token of a "Volume:" line. */
  method GetCurrentVolume(run: PactlRun) returns (r: Reading<int>)
    ensures r == CurrentVolume(run)
  {
    match run
    case NotFound =>
      return Raises("FileNotFoundError");
    case ExitedNonZero =>
      return Value(DefaultVolume);
    case Ran(stdout) =>
      var token := FirstVolumeToken(Split(stdout, '\n'));
      if token.Some? {
        return TokenVolume(token.value);
      }
      return Value(DefaultVolume);
  }

  /** The outer loop of `get_current_volume`: the percentage token of the
      first "Volume:" line that has one. */
  method FirstVolumeToken(lines: seq<string>) returns (token: Option<string>)
    ensures token == FirstSome(LinePercentTokens(lines))
  {
    ghost var toks := LinePercentTokens(lines);
    var i := 0;
    while i < |lines|
      invariant 0 <= i <= |lines|
      invariant forall k :: 0 <= k < i ==> toks[k].None?
    {
      token := ScanVolumeLine(lines[i]);
      LinePercentTokensAt(lines, i);
      if token.Some? {
        FirstSomeIsFirst(toks, i);
        return;
      }
      i := i + 1;
    }
    return None;
  }

  /** The tokens of `Volume: <v>% <rest>`. */
  lemma VolumeLineWords(token: string, rest: string)
    requires |token| > 0 && NoSpace(token)
    ensures SplitWhitespace("Volume: " + token + " " + rest) == ["Volume:", token] + SplitWhitespace(rest)
  {
    assert "Volume: " + token + " " + rest == "Volume:" + " " + (token + " " + rest);
    WordThenSpace("Volume:", token + " " + rest);
    WordThenSpace(token, rest);
  }

  /** After "Volume:", a token ending in '%' is the first such token. */
  lemma PercentTokenAfterLabel(token: string, more: seq<string>)
    requires EndsWith(token, '%')
    ensures FirstPercentToken(["Volume:", token] + more) == Some(token)
  {
    assert (["Volume:", token] + more)[1..] == [token] + more;
  }

  /** A first token ending in '%' after "Volume:" is the token the line offers. */
  lemma VolumeLineToken(token: string, rest: string)
    requires |token| > 0 && NoSpace(token) && EndsWith(token, '%')
    ensures LinePercentToken("Volume: " + token + " " + rest) == Some(token)
  {
    var line := "Volume: " + token + " " + rest;
    ContainsAt(line, "Volume:", 0);
    VolumeLineWords(token, rest);
    PercentTokenAfterLabel(token, SplitWhitespace(rest));
  }

  /** The token `<v>%` is one word ending in '%', and stripping the '%'
      leaves the digits. */
  lemma PercentTokenShape(v: nat)
    ensures var token := NatToString(v) + "%";
      && |token| > 0 && NoSpace(token) && EndsWith(token, '%') && '\n' !in token
      && RStripChar(token, '%') == NatToString(v)
  {
    var digits := NatToString(v);
    assert forall k :: 0 <= k < |digits| ==> IsDigit(digits[k]);
    assert (digits + "%")[..|digits + "%"| - 1] == digits;
  }

  /** The token `<v>%` reads back as `v`. */
  lemma PercentTokenReadsBack(v: nat)
    ensures TokenVolume(NatToString(v) + "%") == Value(v)
  {
    PercentTokenShape(v);
    ParseIntToString(v);
  }

  /** Output of one line with a percentage token reads as that token. */
  lemma OneLineVolume(line: string, token: string)
    requires '\n' !in line && LinePercentToken(line) == Some(token)
    ensures VolumeFromOutput(line) == TokenVolume(token)
  {
    SplitJoin([line], '\n');
    LinePercentTokensAt([line], 0);
    FirstSomeIsFirst(LinePercentTokens([line]), 0);
  }

  /** A one-line report of a percentage token reads back as the token's value. */
  lemma TokenLineReadsBack(v: nat, rest: string)
    requires '\n' !in rest
    ensures CurrentVolume(Ran("Volume: " + (NatToString(v) + "%") + " " + rest)) == Value(v)
  {
    var token := NatToString(v) + "%";
    PercentTokenShape(v);
    var line := "Volume: " + token + " " + rest;
    assert '\n' !in line;
    VolumeLineToken(token, rest);
    OneLineVolume(line, token);
    PercentTokenReadsBack(v);
  }

  /** A one-line report `Volume: <v>% <rest>` reads back as `v`. */
  lemma VolumeReadsBack(v: nat, rest: string)
    requires '\n' !in rest
    ensures CurrentVolume(Ran("Volume: " + NatToString(v) + "% " + rest)) == Value(v)
  {
    var digits := NatToString(v);
    assert "Volume: " + (digits + "%") + " " + rest == "Volume: " + digits + "% " + rest;
    TokenLineReadsBack(v, rest);
  }

  // ---------------------------------------------------------------------------
  // get_mute_state
  // ---------------------------------------------------------------------------

  /** `get_mute_state`: "yes" anywhere in the lower-cased output means muted;
      a non-zero exit reads as not muted, and a missing `pactl` escapes. */
  function MuteState(run: PactlRun): (r: Reading<bool>)
    ensures run.ExitedNonZero? ==> r == Value(false)
    ensures run.NotFound? ==> r.Raises?
    ensures run.Ran? ==> r.Value?
  {
    match run
    case Ran(stdout) => Value(Contains(Lower(stdout), "yes"))
    case ExitedNonZero => Value(false)
    case NotFound => Raises("FileNotFoundError")
  }

  /** "yes" in any mix of cases anywhere in the output reads as muted. */
  lemma MutedOnYesInAnyCase(before: string, yes: string, after: string)
    requires |yes| == 3 && Lower(yes) == "yes"
    ensures MuteState(Ran(before + yes + after)) == Value(true)
  {
    var s := before + yes + after;
    var low := Lower(s);
    assert low[|before|..|before| + 3] == Lower(yes) by {
      forall k | 0 <= k < 3
        ensures low[|before|..|before| + 3][k] == Lower(yes)[k]
      {
        assert s[|before| + k] == yes[k];
      }
    }
    ContainsAt(low, "yes", |before|);
  }

  /** Without a "yes" in the lower-cased output the sink reads as not muted. */
  lemma UnmutedWithoutYes(stdout: string)
    requires !Contains(Lower(stdout), "yes")
    ensures MuteState(Ran(stdout)) == Value(false)
  {
  }

  // ---------------------------------------------------------------------------
  // VolumePopup
  // ---------------------------------------------------------------------------

  /** A `pactl` command the popup issues. */
  datatype PactlCall = SetSinkVolume(percent: int) | ToggleMute

  /** The preset buttons' volumes, left to right. */
  const Presets: seq<int> := [25, 50, 75, 100]

  /** The popup's volume slider (range 0 to 100, plain callback), its mute
      switch and the `pactl` commands it has issued. `pactlFound` says whether
      `pactl` can be started at all. */
  class VolumePopup {
    const pactlFound: bool
    var volume: int
    var muteActive: bool
    var calls: seq<PactlCall>

    ghost predicate Valid()
      reads this
    {
      0 <= volume <= 100
    }

    /** The slider clamps the initial volume to its range and the switch takes
        the initial mute state; both are set before their handlers are
        connected, so no command is issued. */
    constructor (initialVolume: int, isMuted: bool, pactlFound: bool)
      ensures Valid()
      ensures volume == Widgets.ClampInt(initialVolume, 0, 100)
      ensures muteActive == isMuted && calls == []
      ensures this.pactlFound == pactlFound
    {
      this.pactlFound := pactlFound;
      volume := Widgets.ClampInt(initialVolume, 0, 100);
      muteActive := isMuted;
      calls := [];
    }

    /** `on_mute_toggle`: whatever state the switch moved to, the sink's mute
        is toggled. */
    method OnMuteToggle(state: bool)
      modifies this
      ensures calls == old(calls) + [ToggleMute]
      ensures volume == old(volume) && muteActive == old(muteActive)
    {
      calls := calls + [ToggleMute];
    }

    /** The switch's `set_active`: a change of state emits "state-set", which
        runs `on_mute_toggle`, and the switch then takes the new state. */
    method SetMuteActive(active: bool)
      modifies this
      ensures muteActive == active
      ensures calls == old(calls) + (if active != old(muteActive) then [ToggleMute] else [])
      ensures volume == old(volume)
    {
      if active != muteActive {
        OnMuteToggle(active);
        muteActive := active;
      }
    }

    /** `on_volume_change`: sets the sink volume, then brings the mute switch
        in line with it: on exactly at volume 0, left alone when it already
        agrees. A missing `pactl` raises before the switch is looked at. */
    method OnVolumeChange()
      requires Valid()
      modifies this
      ensures Valid()
      ensures pactlFound ==> (muteActive <==> volume == 0)
      ensures !pactlFound ==> muteActive == old(muteActive)
      ensures calls == old(calls) + [SetSinkVolume(volume)] +
        (if pactlFound && old(muteActive) != (volume == 0) then [ToggleMute] else [])
      ensures volume == old(volume)
    {
      calls := calls + [SetSinkVolume(volume)];
      if !pactlFound {
        return;
      }
      if volume == 0 && !muteActive {
        SetMuteActive(true);
      } else if volume > 0 && muteActive {
        SetMuteActive(false);
      }
    }

    /** `set_volume`, and equally a drag of the slider: the slider clamps the
        value and, when it changed, runs `on_volume_change`. */
    method SetVolume(v: int)
      requires Valid()
      modifies this
      ensures Valid()
      ensures volume == Widgets.ClampInt(v, 0, 100)
      ensures volume == old(volume) ==> calls == old(calls) && muteActive == old(muteActive)
      ensures volume != old(volume) && pactlFound ==> (muteActive <==> volume == 0)
      ensures !pactlFound ==> muteActive == old(muteActive)
      ensures calls == old(calls) + (if volume != old(volume) then [SetSinkVolume(volume)] +
        (if pactlFound && old(muteActive) != (volume == 0) then [ToggleMute] else []) else [])
    {
      var clamped := Widgets.ClampInt(v, 0, 100);
      if clamped != volume {
        volume := clamped;
        OnVolumeChange();
      }
    }

    /** A preset button sets the volume to its preset. */
    method PressPreset(i: nat)
      requires Valid() && i < |Presets|
      modifies this
      ensures Valid()
      ensures volume == Presets[i]
      ensures pactlFound && volume != old(volume) ==> !muteActive
      ensures !pactlFound || volume == old(volume) ==> muteActive == old(muteActive)
      ensures calls == old(calls) + (if volume != old(volume) then [SetSinkVolume(volume)] +
        (if pactlFound && old(muteActive) then [ToggleMute] else []) else [])
    {
      SetVolume(Presets[i]);
    }
  }
}
