// The system information popup's uptime text and CPU description.

module SystemInfo {
  import opened Wrappers
  import opened Text

  // ---------------------------------------------------------------------------
  // get_uptime
  // ---------------------------------------------------------------------------

  /** An uptime broken into whole days, hours and minutes. */
  datatype Uptime = Uptime(days: nat, hours: nat, minutes: nat)

  /** The seconds an uptime stands for, up to the next minute. */
  function Seconds(u: Uptime): nat {
    u.days * 86400 + u.hours * 3600 + u.minutes * 60
  }

  /** `seconds // 86400`, `(seconds % 86400) // 3600` and
      `(seconds % 3600) // 60`, on the whole seconds of the reading. */
  function Decompose(seconds: nat): (u: Uptime)
    ensures u.hours < 24 && u.minutes < 60
  {
    Uptime(seconds / 86400, (seconds % 86400) / 3600, (seconds % 3600) / 60)
  }

  /** The decomposition accounts for every second but the last started minute. */
  lemma DecomposeBounds(seconds: nat)
    ensures Seconds(Decompose(seconds)) <= seconds < Seconds(Decompose(seconds)) + 60
  {
    var d, r1 := seconds / 86400, seconds % 86400;
    var h, r2 := r1 / 3600, r1 % 3600;
    assert seconds % 3600 == r2;
  }

  /** Days, hours below 24 and minutes below 60 that account for the seconds
      to within a minute are the decomposition. */
  lemma DecomposeUnique(seconds: nat, u: Uptime)
    requires u.hours < 24 && u.minutes < 60
    requires Seconds(u) <= seconds < Seconds(u) + 60
    ensures Decompose(seconds) == u
  {
    var r2 := seconds - Seconds(u) + u.minutes * 60;
    var r1 := u.hours * 3600 + r2;
    assert seconds / 86400 == u.days && seconds % 86400 == r1;
    assert seconds % 3600 == r2;
  }

  /** A number followed by its unit letter, as in `"5h"`. */
  function Field(n: nat, unit: char): (f: string)
    ensures |f| >= 2 && f[|f| - 1] == unit
  {
    NatToString(n) + [unit]
  }

  /** `"{days}d {hours}h {minutes}m"` when there are days, `"{hours}h
      {minutes}m"` when there are hours, and `"{minutes}m"` otherwise. */
  function FormatUptime(u: Uptime): string {
    if u.days > 0 then Field(u.days, 'd') + " " + Field(u.hours, 'h') + " " + Field(u.minutes, 'm')
    else if u.hours > 0 then Field(u.hours, 'h') + " " + Field(u.minutes, 'm')
    else Field(u.minutes, 'm')
  }

  /** `get_uptime`: `None` stands for a reading that could not be taken (the
      file missing, empty or not a number), which gives "Unknown". */
  function UptimeText(seconds: Option<nat>): string {
    match seconds
    case None => "Unknown"
    case Some(s) => FormatUptime(Decompose(s))
  }

  /** The value of a field with the given unit letter. */
  function FieldValue(f: string, unit: char): Option<nat> {
    if |f| >= 1 && f[|f| - 1] == unit then
      match ParseInt(f[..|f| - 1])
      case Some(n) => if n >= 0 then Some(n as nat) else None
      case None => None
    else None
  }

  /** The fields an uptime text shows. */
  function UptimeFields(u: Uptime): seq<string> {
    if u.days > 0 then [Field(u.days, 'd'), Field(u.hours, 'h'), Field(u.minutes, 'm')]
    else if u.hours > 0 then [Field(u.hours, 'h'), Field(u.minutes, 'm')]
    else [Field(u.minutes, 'm')]
  }

  /** Reads an uptime text back: three, two or one space-separated fields. */
  function ParseUptime(t: string): Option<Uptime> {
    ParseFields(Split(t, ' '))
  }

  /** Reads uptime fields back. */
  function ParseFields(fields: seq<string>): Option<Uptime>
    requires |fields| >= 1
  {
    if |fields| == 3 then
      match (FieldValue(fields[0], 'd'), FieldValue(fields[1], 'h'), FieldValue(fields[2], 'm'))
      case (Some(d), Some(h), Some(m)) => Some(Uptime(d, h, m))
      case _ => None
    else if |fields| == 2 then
      match (FieldValue(fields[0], 'h'), FieldValue(fields[1], 'm'))
      case (Some(h), Some(m)) => Some(Uptime(0, h, m))
      case _ => None
    else
      match FieldValue(fields[0], 'm')
      case Some(m) => Some(Uptime(0, 0, m))
      case None => None
  }

  lemma FieldReadsBack(n: nat, unit: char)
    ensures FieldValue(Field(n, unit), unit) == Some(n)
  {
    var f := Field(n, unit);
    assert f[..|f| - 1] == NatToString(n);
    ParseIntToString(n);
  }

  lemma FieldHasNoSpace(n: nat, unit: char)
    requires unit != ' '
    ensures ' ' !in Field(n, unit)
  {
    var digits := NatToString(n);
    assert forall k :: 0 <= k < |digits| ==> IsDigit(digits[k]);
    assert Field(n, unit) == digits + [unit];
  }

  /** The fields of an uptime text: minutes always, hours when there are days
      or hours, days only when there are days. */
  lemma FormatUptimeFields(u: Uptime)
    ensures Split(FormatUptime(u), ' ') == UptimeFields(u)
  {
    FieldHasNoSpace(u.days, 'd');
    FieldHasNoSpace(u.hours, 'h');
    FieldHasNoSpace(u.minutes, 'm');
    var fd, fh, fm := Field(u.days, 'd'), Field(u.hours, 'h'), Field(u.minutes, 'm');
    assert Join([fh, fm], ' ') == fh + " " + fm by {
      JoinCons(fh, [fm], ' ');
    }
    if u.days > 0 {
      assert Join([fd, fh, fm], ' ') == FormatUptime(u) by {
        JoinCons(fd, [fh, fm], ' ');
        assert [fd] + [fh, fm] == [fd, fh, fm];
      }
      SplitJoin([fd, fh, fm], ' ');
    } else if u.hours > 0 {
      SplitJoin([fh, fm], ' ');
    } else {
      SplitJoin([fm], ' ');
    }
  }

  /** Days, hours and minutes fields read back as those three values. */
  lemma ThreeFieldsReadBack(d: nat, h: nat, m: nat)
    ensures ParseFields([Field(d, 'd'), Field(h, 'h'), Field(m, 'm')]) == Some(Uptime(d, h, m))
  {
    FieldReadsBack(d, 'd');
    FieldReadsBack(h, 'h');
    FieldReadsBack(m, 'm');
  }

  /** Hours and minutes fields read back as those values, with no days. */
  lemma TwoFieldsReadBack(h: nat, m: nat)
    ensures ParseFields([Field(h, 'h'), Field(m, 'm')]) == Some(Uptime(0, h, m))
  {
    FieldReadsBack(h, 'h');
    FieldReadsBack(m, 'm');
  }

  /** A minutes field alone reads back as the minutes. */
  lemma OneFieldReadsBack(m: nat)
    ensures ParseFields([Field(m, 'm')]) == Some(Uptime(0, 0, m))
  {
    FieldReadsBack(m, 'm');
  }

  /** The fields of an uptime read back as that uptime. */
  lemma UptimeFieldsReadBack(u: Uptime)
    ensures ParseFields(UptimeFields(u)) == Some(u)
  {
    if u.days > 0 {
      ThreeFieldsReadBack(u.days, u.hours, u.minutes);
    } else if u.hours > 0 {
      TwoFieldsReadBack(u.hours, u.minutes);
    } else {
      OneFieldReadsBack(u.minutes);
    }
  }

  /** Every uptime text reads back as the uptime it shows. */
  lemma FormatUptimeReadsBack(u: Uptime)
    ensures ParseUptime(FormatUptime(u)) == Some(u)
  {
    FormatUptimeFields(u);
    UptimeFieldsReadBack(u);
  }

  /** The popup's uptime text reads back as the decomposition of the seconds. */
  lemma UptimeTextReadsBack(seconds: nat)
    ensures ParseUptime(UptimeText(Some(seconds))) == Some(Decompose(seconds))
  {
    FormatUptimeReadsBack(Decompose(seconds));
  }

  // ---------------------------------------------------------------------------
  // get_cpu_info
  // ---------------------------------------------------------------------------

  /** How `nproc` ended: it exited with a status and printed `stdout`, or it
      could not be started. */
  datatype NprocRun = NprocExited(returnCode: int, stdout: string) | NprocNotFound

  datatype CpuInfo = CpuInfo(model: string, cores: string)

  /** What any failure gives: the bare `except` clause's answer. */
  const UnknownCpu: CpuInfo := CpuInfo("Unknown CPU", "?")

  const ModelNameKey: string := "model name"

  /** The first line that starts with "model name". */
  function FirstModelLine(lines: seq<string>): (r: Option<string>)
    ensures r.Some? ==> r.value in lines && ModelNameKey <= r.value
    ensures r.None? <==> forall i :: 0 <= i < |lines| ==> !(ModelNameKey <= lines[i])
  {
    if |lines| == 0 then None
    else if ModelNameKey <= lines[0] then Some(lines[0])
    else FirstModelLine(lines[1..])
  }

  /** `FirstModelLine` finds the first line that starts with "model name". */
  lemma {:induction false} FirstModelLineIsFirst(lines: seq<string>, i: nat)
    requires i < |lines| && ModelNameKey <= lines[i]
    requires forall j :: 0 <= j < i ==> !(ModelNameKey <= lines[j])
    ensures FirstModelLine(lines) == Some(lines[i])
    decreases i
  {
    if i > 0 {
      FirstModelLineIsFirst(lines[1..], i - 1);
    }
  }

  /** The model read from the lines of `/proc/cpuinfo`: the trimmed second
      ':'-separated field of the first "model name" line, or "Unknown CPU"
      when there is none. `None` where that line has no ':', on which
      `split(':')[1]` raises `IndexError`. */
  function ModelName(lines: seq<string>): (r: Option<string>)
    ensures FirstModelLine(lines).None? ==> r == Some("Unknown CPU")
    ensures r.None? <==> FirstModelLine(lines).Some? && ':' !in FirstModelLine(lines).value
  {
    match FirstModelLine(lines)
    case None => Some("Unknown CPU")
    case Some(line) =>
      var fields := Split(line, ':');
      SplitSeveral(line, ':');
      if |fields| < 2 then None else Some(Strip(fields[1]))
  }

  /** `model.replace('(R)', '').replace('(TM)', '')`. */
  function CleanModel(model: string): (r: string)
    ensures |r| <= |model|
  {
    RemoveShrinks(model, "(R)");
    RemoveShrinks(Replace(model, "(R)", ""), "(TM)");
    Replace(Replace(model, "(R)", ""), "(TM)", "")
  }

  /** A model name without the marks is shown as it is. */
  lemma CleanModelKeepsPlainNames(model: string)
    requires !Contains(model, "(R)") && !Contains(model, "(TM)")
    ensures CleanModel(model) == model
  {
    RemoveShrinks(model, "(R)");
    RemoveShrinks(model, "(TM)");
  }

  /** A model that shows either mark gets strictly shorter: a mark is
      removed, not just allowed to be. */
  lemma CleanModelShortensMarked(model: string)
    requires Contains(model, "(R)") || Contains(model, "(TM)")
    ensures |CleanModel(model)| < |model|
  {
    var once := Replace(model, "(R)", "");
    RemoveShrinks(once, "(TM)");
    if Contains(model, "(R)") {
      RemoveFoundShrinks(model, "(R)");
    } else {
      RemoveShrinks(model, "(R)");
      RemoveFoundShrinks(model, "(TM)");
    }
  }

  /** Removing "(R)" leaves a "(TM)" mark followed by plain text alone. */
  lemma {:induction false} TrademarkSurvivesRegistered(c: string)
    requires '(' !in c
    ensures Replace("(TM)" + c, "(R)", "") == "(TM)" + c
  {
    var tail := "(TM)" + c;
    assert tail[1] == 'T';
    assert !("(R)" <= tail);
    assert tail[1..] == "TM)" + c;
    RemoveSkipsPlain("TM)", c, "(R)");
    RemoveSkipsPlain(c, "", "(R)");
    assert c + "" == c;
    assert "TM)" + c == tail[1..];
    assert [tail[0]] + tail[1..] == tail;
  }

  /** The first `replace` removes exactly the "(R)". */
  lemma {:induction false} RegisteredRemoved(a: string, b: string, c: string)
    requires '(' !in a && '(' !in b && '(' !in c
    ensures Replace(a + "(R)" + b + "(TM)" + c, "(R)", "") == a + b + ("(TM)" + c)
  {
    var tail := "(TM)" + c;
    assert a + "(R)" + b + "(TM)" + c == a + ("(R)" + (b + tail));
    RemoveSkipsPlain(a, "(R)" + (b + tail), "(R)");
    RemoveLeading("(R)", b + tail);
    RemoveSkipsPlain(b, tail, "(R)");
    TrademarkSurvivesRegistered(c);
    assert a + (b + tail) == a + b + tail;
  }

  /** The second `replace` removes exactly the "(TM)". */
  lemma {:induction false} TrademarkRemoved(ab: string, c: string)
    requires '(' !in ab && '(' !in c
    ensures Replace(ab + ("(TM)" + c), "(TM)", "") == ab + c
  {
    RemoveSkipsPlain(ab, "(TM)" + c, "(TM)");
    RemoveLeading("(TM)", c);
    RemoveSkipsPlain(c, "", "(TM)");
    assert c + "" == c;
  }

  /** One "(R)" and a later "(TM)" between plain text are both removed and
      nothing else is. */
  lemma CleanModelRemovesBothMarks(a: string, b: string, c: string)
    requires '(' !in a && '(' !in b && '(' !in c
    ensures CleanModel(a + "(R)" + b + "(TM)" + c) == a + b + c
  {
    RegisteredRemoved(a, b, c);
    assert '(' !in a + b;
    TrademarkRemoved(a + b, c);
  }

  /** `get_cpu_info`. `cpuinfo` is the text of `/proc/cpuinfo`, `None` when
      it cannot be opened. The core count is nproc's trimmed output when it
      exits with 0, and "?" otherwise; any exception gives `UnknownCpu`. */
  function GetCpuInfo(cpuinfo: Option<string>, nproc: NprocRun): (info: CpuInfo)
    ensures cpuinfo.None? || nproc.NprocNotFound? ==> info == UnknownCpu
    ensures nproc.NprocExited? && nproc.returnCode != 0 ==> info.cores == "?"
  {
    match cpuinfo
    case None => UnknownCpu
    case Some(text) =>
      match ModelName(Split(text, '\n'))
      case None => UnknownCpu
      case Some(model) =>
        match nproc
        case NprocNotFound => UnknownCpu
        case NprocExited(code, out) =>
          CpuInfo(CleanModel(model), if code == 0 then Strip(out) else "?")
  }

  /** The fields of `<key>: <name>` when neither part holds ':'. */
  lemma ModelLineFields(key: string, name: string)
    requires ':' !in key && ':' !in name
    ensures Split(key + ": " + name, ':') == [key, " " + name]
  {
    var value := " " + name;
    assert ':' !in value by {
      assert forall k :: 1 <= k < |value| ==> value[k] == name[k - 1];
    }
    var parts := [key, value];
    assert Join(parts, ':') == key + [':'] + value by {
      assert parts[1..] == [value];
    }
    assert key + [':'] + value == key + ": " + name;
    SplitJoin(parts, ':');
  }

  /** A first model line `<key>: <name>`, with no ':' in the key part or the
      name and no surrounding whitespace on the name, names `name`. */
  lemma ModelLineName(lines: seq<string>, i: nat, key: string, name: string)
    requires i < |lines| && lines[i] == key + ": " + name
    requires ModelNameKey <= key && ':' !in key && ':' !in name
    requires |name| == 0 || (!IsSpace(name[0]) && !IsSpace(name[|name| - 1]))
    requires forall j :: 0 <= j < i ==> !(ModelNameKey <= lines[j])
    ensures ModelName(lines) == Some(name)
  {
    assert key <= lines[i];
    FirstModelLineIsFirst(lines, i);
    ModelLineFields(key, name);
    assert Strip(" " + name) == name by {
      assert (" " + name)[1..] == name;
      assert LStrip(" " + name) == name;
    }
  }

  /** A file whose lines hold a first model line `<key>: <name>` as above
      shows that name, cleaned, next to nproc's count. */
  lemma CpuModelReadsBack(lines: seq<string>, i: nat, key: string, name: string, cores: string)
    requires i < |lines| && lines[i] == key + ": " + name
    requires ModelNameKey <= key && ':' !in key && ':' !in name
    requires |name| == 0 || (!IsSpace(name[0]) && !IsSpace(name[|name| - 1]))
    requires forall j :: 0 <= j < i ==> !(ModelNameKey <= lines[j])
    requires |lines| >= 1 && forall j :: 0 <= j < |lines| ==> '\n' !in lines[j]
    ensures GetCpuInfo(Some(Join(lines, '\n')), NprocExited(0, cores)) == CpuInfo(CleanModel(name), Strip(cores))
  {
    SplitJoin(lines, '\n');
    ModelLineName(lines, i, key, name);
  }
}
