/** Configurations written as files: what can be loaded, and that writing and loading are inverse. */
module ConfigText {
  import opened MachineTypes
  import opened Text
  import opened DaemonConfig
  import opened Daemon
  import Assignments

  // ---------- What a loaded configuration can hold ----------

  predicate Trimmed(s: string) {
    s != [] ==> !IsSpace(s[0]) && !IsSpace(s[|s| - 1])
  }

  lemma TrimIsTrimmed(s: string)
    ensures Trimmed(Trim(s))
  {
    var _, _ := TrimSplits(s);
  }

  lemma TrimmedStays(s: string)
    requires Trimmed(s)
    ensures Trim(s) == s
  {
  }

  predicate InRange(s: Setting) {
    match s
    case SensorId(n) => n <= 255
    case Width(n) => 16 <= n <= 8192
    case Height(n) => 16 <= n <= 8192
    case Framerate(n) => 1 <= n <= 240
    case Bitrate(n) => 100 <= n <= 200000
    case Gop(n) => 1 <= n <= 10000
    case Host(text) => Trimmed(text)
    case Port(n) => 1 <= n <= 65535
    case Output(_) => true
    case RtspPort(n) => 1 <= n <= 65535
    case RtspMount(text) => Trimmed(text)
    case SnapshotFile(text) => Trimmed(text)
    case SnapshotOnStart(_) => true
  }

  ghost predicate AllInRange(c: Config) {
    forall k: nat :: k < 13 ==> InRange(Current(c, k))
  }

  lemma ParseIntInRange(value: string, minimum: nat, maximum: nat)
    ensures var r := ParseInt(value, minimum, maximum); r.Success? ==> minimum <= r.value <= maximum
  {
  }

  lemma SizeInRange(name: Name, value: string)
    requires name.SensorIdName? || name.WidthName? || name.HeightName?
    requires Interpret(name, value).Success?
    ensures InRange(Interpret(name, value).value)
  {
    ParseIntInRange(value, 0, 255);
    ParseIntInRange(value, 16, 8192);
  }

  lemma RateInRange(name: Name, value: string)
    requires name.FramerateName? || name.BitrateName? || name.GopName?
    requires Interpret(name, value).Success?
    ensures InRange(Interpret(name, value).value)
  {
    ParseIntInRange(value, 1, 240);
    ParseIntInRange(value, 100, 200000);
    ParseIntInRange(value, 1, 10000);
  }

  lemma PortInRange(name: Name, value: string)
    requires name.PortName? || name.RtspPortName?
    requires Interpret(name, value).Success?
    ensures InRange(Interpret(name, value).value)
  {
    ParseIntInRange(value, 1, 65535);
  }

  lemma ChoiceInRange(name: Name, value: string)
    requires name.OutputName? || name.SnapshotOnStartName?
    requires Interpret(name, value).Success?
    ensures InRange(Interpret(name, value).value)
  {
  }

  lemma TextInRange(name: Name, value: string)
    requires name.HostName? || name.RtspMountName? || name.SnapshotFileName?
    requires Trimmed(value)
    ensures InRange(Interpret(name, value).value)
  {
  }

  lemma InterpretedInRange(name: Name, value: string)
    requires Trimmed(value) && Interpret(name, value).Success?
    ensures InRange(Interpret(name, value).value)
  {
    match name {
      case SensorIdName => SizeInRange(name, value);
      case WidthName => SizeInRange(name, value);
      case HeightName => SizeInRange(name, value);
      case FramerateName => RateInRange(name, value);
      case BitrateName => RateInRange(name, value);
      case GopName => RateInRange(name, value);
      case PortName => PortInRange(name, value);
      case RtspPortName => PortInRange(name, value);
      case OutputName => ChoiceInRange(name, value);
      case SnapshotOnStartName => ChoiceInRange(name, value);
      case HostName => TextInRange(name, value);
      case RtspMountName => TextInRange(name, value);
      case SnapshotFileName => TextInRange(name, value);
    }
  }

  lemma WithKeepsRanges(c: Config, s: Setting)
    requires AllInRange(c) && InRange(s)
    ensures AllInRange(With(c, s))
  {
    forall k: nat | k < 13 ensures InRange(Current(With(c, s), k)) {
      WithSets(c, s, k);
    }
  }

  lemma AssignKeepsRanges(c: Config, rawKey: string, rawValue: string)
    requires AllInRange(c) && Assign(c, rawKey, rawValue).Success?
    ensures AllInRange(Assign(c, rawKey, rawValue).value)
  {
    var name := NameOf(Trim(rawKey));
    TrimIsTrimmed(rawValue);
    InterpretedInRange(name.value, Trim(rawValue));
    WithKeepsRanges(c, Interpret(name.value, Trim(rawValue)).value);
  }

  lemma {:induction false} LinesKeepRanges(c: Config, lines: seq<string>, number: nat)
    requires AllInRange(c) && ApplyLines(c, lines, number).Success?
    ensures AllInRange(ApplyLines(c, lines, number).value)
    decreases |lines|
  {
    if lines != [] {
      var t := Trim(lines[0]);
      if t != [] && t[0] != '#' {
        AssignKeepsRanges(c, t[..Find(t, '=')], t[Find(t, '=') + 1..]);
      }
      LinesKeepRanges(ApplyLine(c, lines[0]).value, lines[1..], number + 1);
    }
  }

  lemma DefaultsInRange()
    ensures AllInRange(DEFAULTS)
  {
  }

  /** Every configuration that loads is in all ranges and passes validation. */
  lemma LoadedInRange(file: string)
    requires Load(Some(file)).Success?
    ensures AllInRange(Load(Some(file)).value) && Validate(Load(Some(file)).value).Success?
  {
    DefaultsInRange();
    LinesKeepRanges(DEFAULTS, Lines(file), 1);
  }

  lemma SetKeepsRanges(c: Config, assignment: string)
    requires AllInRange(c) && SetAssignment(c, assignment).Success?
    ensures AllInRange(SetAssignment(c, assignment).value)
  {
    var separator := Find(assignment, '=');
    AssignKeepsRanges(c, assignment[..separator], assignment[separator + 1..]);
  }

  /** Every configuration the program goes on with is in all ranges and validated, however files,
      --set arguments and flags were mixed. */
  lemma {:induction false} ServedInRange(args: seq<string>, files: Files, c: Config, printPipeline: bool)
    requires AllInRange(c)
    ensures var r := Arguments(args, files, c, printPipeline);
      r.Success? && r.value.Serve? ==> AllInRange(r.value.config) && Validate(r.value.config).Success?
    decreases |args|
  {
    if args != [] && Arguments(args, files, c, printPipeline).Success? {
      var word := WordOf(args[0]);
      if word == ConfigWord && |args| > 1 {
        ConfigStep(args, files, c, printPipeline);
        LoadedInRange(Content(files, args[1]).value);
        ServedInRange(args[2..], files, Load(Content(files, args[1])).value, printPipeline);
      } else if word == SetWord && |args| > 1 {
        SetStep(args, files, c, printPipeline);
        SetKeepsRanges(c, args[1]);
        ServedInRange(args[2..], files, SetAssignment(c, args[1]).value, printPipeline);
      } else if word == PrintWord {
        ServedInRange(args[1..], files, c, true);
      }
    }
  }

  // ---------- Writing ----------

  function ValueText(s: Setting): string {
    match s
    case SensorId(n) => Decimal(n)
    case Width(n) => Decimal(n)
    case Height(n) => Decimal(n)
    case Framerate(n) => Decimal(n)
    case Bitrate(n) => Decimal(n)
    case Gop(n) => Decimal(n)
    case Host(text) => text
    case Port(n) => Decimal(n)
    case Output(mode) => if mode.Udp? then "udp" else "rtsp"
    case RtspPort(n) => Decimal(n)
    case RtspMount(text) => text
    case SnapshotFile(text) => text
    case SnapshotOnStart(start) => if start then "true" else "false"
  }

  function LineText(name: Name, value: string): string {
    TextOf(name) + ['='] + value
  }

  function LinesFrom(c: Config, k: nat): seq<string>
    requires k <= 13
    decreases 13 - k
  {
    if k == 13 then [] else [LineText(NAMES[k], ValueText(Current(c, k)))] + LinesFrom(c, k + 1)
  }

  /** A file with one line for each key. */
  function Written(c: Config): string {
    Unlines(LinesFrom(c, 0), ['\n'])
  }

  // ---------- Reading what was written ----------

  lemma TextOfPlain(name: Name)
    ensures TextOf(name) != []
    ensures forall i :: 0 <= i < |TextOf(name)| ==> 'a' <= TextOf(name)[i] <= 'z' || TextOf(name)[i] == '_'
  {
  }

  lemma TextsDiffer(a: Name, b: Name)
    requires |TextOf(a)| == |TextOf(b)| && TextOf(a)[0] == TextOf(b)[0]
    ensures a == b
  {
  }

  lemma NameOfText(k: nat)
    requires k < 13
    ensures NameOf(TextOf(NAMES[k])) == Some(NAMES[k])
  {
    forall a: Name, b: Name | TextOf(a) == TextOf(b) ensures a == b {
      TextOfPlain(a);
      TextsDiffer(a, b);
    }
    Assignments.FindsName(TextOf, NAMES, k);
  }

  lemma LineParts(key: string, value: string)
    requires key != [] && Trimmed(value)
    requires forall i :: 0 <= i < |key| ==> 'a' <= key[i] <= 'z' || key[i] == '_'
    ensures var t := key + ['='] + value;
      && Trim(t) == t && t[0] != '#' && FirstAt(t, '=', |key|)
      && t[..|key|] == key && t[|key| + 1..] == value && Trim(key) == key && Trim(value) == value
  {
    var t := key + ['='] + value;
    assert t[|t| - 1] == if value == [] then '=' else value[|value| - 1];
    assert t[0] == key[0];
    TrimmedStays(t);
    TrimmedStays(key);
    TrimmedStays(value);
  }

  lemma LineReads(k: nat, value: string)
    requires k < 13 && Trimmed(value) && Interpret(NAMES[k], value).Success?
    ensures LineSetting(LineText(NAMES[k], value)) == Success(Some(Interpret(NAMES[k], value).value))
  {
    var key := TextOf(NAMES[k]);
    TextOfPlain(NAMES[k]);
    LineParts(key, value);
    NameOfText(k);
    PartsRead(LineText(NAMES[k], value), key, value, NAMES[k]);
  }

  lemma PartsRead(t: string, key: string, value: string, name: Name)
    requires Trim(t) == t && t != [] && t[0] != '#' && FirstAt(t, '=', |key|)
    requires t[..|key|] == key && t[|key| + 1..] == value && Trim(key) == key && Trim(value) == value
    requires NameOf(key) == Some(name) && Interpret(name, value).Success?
    ensures LineSetting(t) == Success(Some(Interpret(name, value).value))
  {
    FindFirst(t, '=', |key|);
  }

  lemma DecimalTrimmed(n: nat)
    ensures Trimmed(Decimal(n))
  {
    assert IsDigit(Decimal(n)[0]) && IsDigit(Decimal(n)[|Decimal(n)| - 1]);
  }

  lemma NumberReads(n: nat, minimum: nat, maximum: nat)
    requires minimum <= n <= maximum <= LONG_MAX
    ensures Trimmed(Decimal(n)) && ParseInt(Decimal(n), minimum, maximum) == Success(n)
  {
    DecimalTrimmed(n);
    ParseIntInvertsDecimal(n, minimum, maximum);
  }

  lemma FlagReads(start: bool)
    ensures ParseBool(if start then "true" else "false") == Success(start)
  {
    assert Lower("true") == "true" && Lower("false") == "false";
  }

  /** The name of the key a setting belongs to. */
  function NameFor(s: Setting): Name {
    match s
    case SensorId(_) => SensorIdName
    case Width(_) => WidthName
    case Height(_) => HeightName
    case Framerate(_) => FramerateName
    case Bitrate(_) => BitrateName
    case Gop(_) => GopName
    case Host(_) => HostName
    case Port(_) => PortName
    case Output(_) => OutputName
    case RtspPort(_) => RtspPortName
    case RtspMount(_) => RtspMountName
    case SnapshotFile(_) => SnapshotFileName
    case SnapshotOnStart(_) => SnapshotOnStartName
  }

  lemma CurrentName(c: Config, k: nat)
    requires k < 13
    ensures NameFor(Current(c, k)) == NAMES[k]
  {
  }

  predicate ReadsBack(s: Setting) {
    Trimmed(ValueText(s)) && Interpret(NameFor(s), ValueText(s)) == Success(s)
  }

  lemma SizeReads(s: Setting)
    requires InRange(s) && (s.SensorId? || s.Width? || s.Height?)
    ensures ReadsBack(s)
  {
    match s {
      case SensorId(n) => NumberReads(n, 0, 255);
      case Width(n) => NumberReads(n, 16, 8192);
      case Height(n) => NumberReads(n, 16, 8192);
    }
  }

  lemma RateReads(s: Setting)
    requires InRange(s) && (s.Framerate? || s.Bitrate? || s.Gop?)
    ensures ReadsBack(s)
  {
    match s {
      case Framerate(n) => NumberReads(n, 1, 240);
      case Bitrate(n) => NumberReads(n, 100, 200000);
      case Gop(n) => NumberReads(n, 1, 10000);
    }
  }

  lemma PortReads(s: Setting)
    requires InRange(s) && (s.Port? || s.RtspPort?)
    ensures ReadsBack(s)
  {
    match s {
      case Port(n) => NumberReads(n, 1, 65535);
      case RtspPort(n) => NumberReads(n, 1, 65535);
    }
  }

  /** Every setting is read back from its own text, under its own key. */
  lemma SettingReads(s: Setting)
    requires InRange(s)
    ensures ReadsBack(s)
  {
    match s {
      case SensorId(_) => SizeReads(s);
      case Width(_) => SizeReads(s);
      case Height(_) => SizeReads(s);
      case Framerate(_) => RateReads(s);
      case Bitrate(_) => RateReads(s);
      case Gop(_) => RateReads(s);
      case Port(_) => PortReads(s);
      case RtspPort(_) => PortReads(s);
      case SnapshotOnStart(start) => FlagReads(start);
      case Output(_) =>
      case Host(_) =>
      case RtspMount(_) =>
      case SnapshotFile(_) =>
    }
  }

  function SettingsFrom(c: Config, k: nat): seq<Setting>
    requires k <= 13
    decreases 13 - k
  {
    if k == 13 then [] else [Current(c, k)] + SettingsFrom(c, k + 1)
  }

  lemma {:induction false} LinesRead(c: Config, k: nat)
    requires k <= 13 && AllInRange(c)
    ensures Settings(LinesFrom(c, k)) == Some(SettingsFrom(c, k))
    decreases 13 - k
  {
    if k < 13 {
      LinesRead(c, k + 1);
      SettingReads(Current(c, k));
      CurrentName(c, k);
      LineReads(k, ValueText(Current(c, k)));
      assert LinesFrom(c, k)[1..] == LinesFrom(c, k + 1);
    }
  }

  lemma CurrentKey(c: Config, k: nat)
    requires k < 13
    ensures Key(Current(c, k)) == k
  {
  }

  lemma {:induction false} SettingsSetAll(base: Config, c: Config, k: nat, j: nat)
    requires k <= 13 && j < 13
    ensures Current(WithAll(base, SettingsFrom(c, k)), j) == if j >= k then Current(c, j) else Current(base, j)
    decreases 13 - k
  {
    if k < 13 {
      var next := With(base, Current(c, k));
      SettingsSetAll(next, c, k + 1, j);
      assert SettingsFrom(c, k)[1..] == SettingsFrom(c, k + 1);
      CurrentKey(c, k);
      WithSets(base, Current(c, k), j);
    }
  }

  lemma OneMoreLine(line: string, rest: seq<string>)
    requires NoNewline(line) && NoNewlines(rest)
    ensures NoNewlines([line] + rest)
  {
  }

  lemma {:induction false} LinesHaveNoNewline(c: Config, k: nat)
    requires k <= 13 && Validate(c).Success?
    ensures NoNewlines(LinesFrom(c, k))
    decreases 13 - k
  {
    if k < 13 {
      LinesHaveNoNewline(c, k + 1);
      LineHasNoNewline(c, k);
      OneMoreLine(LineText(NAMES[k], ValueText(Current(c, k))), LinesFrom(c, k + 1));
    }
  }

  lemma LineHasNoNewline(c: Config, k: nat)
    requires k < 13 && Validate(c).Success?
    ensures NoNewline(LineText(NAMES[k], ValueText(Current(c, k))))
  {
    TextOfPlain(NAMES[k]);
    ValueHasNoNewline(c, k);
    JoinedNoNewline(TextOf(NAMES[k]), ValueText(Current(c, k)));
  }

  lemma JoinedNoNewline(key: string, value: string)
    requires NoNewline(value) && forall i :: 0 <= i < |key| ==> 'a' <= key[i] <= 'z' || key[i] == '_'
    ensures NoNewline(key + ['='] + value)
  {
  }

  lemma ValueHasNoNewline(c: Config, k: nat)
    requires k < 13 && Validate(c).Success?
    ensures NoNewline(ValueText(Current(c, k)))
  {
    if k == 10 {
      assert c.rtspMount == ['/'] + c.rtspMount[1..];
    }
  }

  lemma WrittenMeans(c: Config)
    requires AllInRange(c)
    ensures ApplyLines(DEFAULTS, LinesFrom(c, 0), 1) == Success(c)
  {
    LinesRead(c, 0);
    LinesFoldSettings(DEFAULTS, LinesFrom(c, 0), 1);
    forall j: nat | j < 13 ensures Current(WithAll(DEFAULTS, SettingsFrom(c, 0)), j) == Current(c, j) {
      SettingsSetAll(DEFAULTS, c, 0, j);
    }
    SameEverywhere(WithAll(DEFAULTS, SettingsFrom(c, 0)), c);
  }

  lemma LinesOfWritten(c: Config)
    requires Validate(c).Success?
    ensures Lines(Written(c)) == LinesFrom(c, 0)
  {
    LinesHaveNoNewline(c, 0);
    LinesOfUnlines(LinesFrom(c, 0));
  }

  /** A configuration in range that passes validation is what its own file loads. */
  lemma LoadInvertsWritten(c: Config)
    requires AllInRange(c) && Validate(c).Success?
    ensures Load(Some(Written(c))) == Success(c)
  {
    LinesOfWritten(c);
    WrittenLoads(c);
  }

  lemma WrittenLoads(c: Config)
    requires AllInRange(c) && Validate(c).Success?
    ensures LoadLines(LinesFrom(c, 0)) == Success(c)
  {
    WrittenMeans(c);
  }

  /** Whatever file was loaded, writing the result and loading it again gives it back. */
  lemma LoadedSurvivesWriting(file: string)
    requires Load(Some(file)).Success?
    ensures Load(Some(Written(Load(Some(file)).value))) == Load(Some(file))
  {
    LoadedInRange(file);
    LoadInvertsWritten(Load(Some(file)).value);
  }

  /** A configuration can be loaded from some file if and only if it is in range and validated. */
  lemma LoadableIff(c: Config)
    ensures (exists file: string :: Load(Some(file)) == Success(c)) <==> AllInRange(c) && Validate(c).Success?
  {
    if AllInRange(c) && Validate(c).Success? {
      LoadInvertsWritten(c);
    } else {
      forall file: string ensures Load(Some(file)) != Success(c) {
        if Load(Some(file)).Success? {
          LoadedInRange(file);
        }
      }
    }
  }
}
