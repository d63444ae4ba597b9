/** The configuration of jetcamd: assignments, validation and files. */
module DaemonConfig {
  import opened MachineTypes
  import opened Text
  import Assignments

  datatype OutputMode = Udp | Rtsp

  /** Every number is read by ParseInt with a minimum of 0 or more. */
  datatype Config = Config(
    sensorId: nat, width: nat, height: nat, framerate: nat, bitrateKbps: nat, gop: nat,
    host: string, port: nat, output: OutputMode, rtspPort: nat, rtspMount: string,
    snapshotFile: string, snapshotOnStart: bool)

  const DEFAULTS := Config(0, 1280, 720, 60, 6000, 60, "127.0.0.1", 5000, Udp, 8554, "/jetcam",
                           "jetcam-snapshot.jpg", false)

  datatype ConfigError =
    | InvalidInteger | IntegerOutOfRange | InvalidBoolean | BadOutput | UnknownKey | NoSeparator
    | UnsupportedMode | BadHost | BadMount | BadSnapshotFile
    | CannotOpen | InLine(number: nat, error: ConfigError) | BadArgument

  // ---------- Values ----------

  const LONG_MAX := 0x7FFF_FFFF_FFFF_FFFF

  /** Whether a long can hold the number. */
  predicate FitsLong(n: Scanned) {
    n.magnitude <= if n.negative then LONG_MAX + 1 else LONG_MAX
  }

  function ParseInt(value: string, minimum: nat, maximum: nat): Result<nat, ConfigError> {
    match Scan(value)
    case None => Failure(InvalidInteger)
    case Some(n) =>
      if !FitsLong(n) then Failure(InvalidInteger)
      else if n.rest != [] || (n.negative && n.magnitude > 0) || n.magnitude < minimum || n.magnitude > maximum
      then Failure(IntegerOutOfRange)
      else Success(n.magnitude)
  }

  /** Reading undoes printing, and accepts exactly the range. */
  lemma ParseIntInvertsDecimal(n: nat, minimum: nat, maximum: nat)
    requires maximum <= LONG_MAX
    ensures ParseInt(Decimal(n), minimum, maximum) ==
      if minimum <= n <= maximum then Success(n)
      else Failure(if n <= LONG_MAX then IntegerOutOfRange else InvalidInteger)
  {
    ScanDecimal(n);
  }

  /** A text is an integer for the program exactly when it is white space, a sign and digits, and nothing
      else, and the number is in range; -0 is 0. */
  lemma ParseIntIff(text: string, minimum: nat, maximum: nat, n: nat)
    requires maximum <= 0x7FFF_FFFF_FFFF_FFFF
    ensures ParseInt(text, minimum, maximum) == Success(n) <==>
      && minimum <= n <= maximum
      && exists spaces, sign, digits :: Integer(text, n, spaces, sign, digits)
  {
    if ParseInt(text, minimum, maximum) == Success(n) {
      var spaces, sign, digits := ScanParts(text);
      assert sign + digits + [] == sign + digits;
      assert Integer(text, n, spaces, sign, digits);
    }
    if minimum <= n <= maximum {
      forall spaces, sign, digits | Integer(text, n, spaces, sign, digits)
        ensures ParseInt(text, minimum, maximum) == Success(n)
      {
        ScanReads(spaces, sign, digits, []);
        assert sign + digits + [] == sign + digits;
      }
    }
  }

  predicate Integer(text: string, n: nat, spaces: string, sign: string, digits: string) {
    && AllSpaces(spaces) && IsSign(sign) && AllDigits(digits) && digits != ""
    && text == spaces + (sign + digits) && n == NumberOf(digits) && (sign == "-" ==> n == 0)
  }

  /** Other texts have no number at their front that fits in 64 bits, or are out of range. */
  lemma ParseIntErrors(text: string, minimum: nat, maximum: nat)
    ensures var n := ParseInt(text, minimum, maximum);
      && (n.Failure? ==> n.error == InvalidInteger || n.error == IntegerOutOfRange)
      && (n == Failure(InvalidInteger) <==>
           !exists spaces, sign, digits, rest :: StartsWithLong(text, spaces, sign, digits, rest))
  {
    if Scan(text).Some? && FitsLong(Scan(text).value) {
      var spaces, sign, digits := ScanParts(text);
      RestStarts(text);
      assert StartsWithLong(text, spaces, sign, digits, Scan(text).value.rest);
    }
    forall spaces, sign, digits, rest | StartsWithLong(text, spaces, sign, digits, rest)
      ensures Scan(text).Some? && FitsLong(Scan(text).value)
    {
      ScanReads(spaces, sign, digits, rest);
    }
  }

  predicate StartsWithLong(text: string, spaces: string, sign: string, digits: string, rest: string) {
    && text == spaces + (sign + digits + rest) && AllSpaces(spaces) && IsSign(sign)
    && AllDigits(digits) && digits != [] && (rest != [] ==> !IsDigit(rest[0]))
    && NumberOf(digits) <= if sign == "-" then 0x8000_0000_0000_0000 else 0x7FFF_FFFF_FFFF_FFFF
  }

  function Lower(s: string): (t: string)
    ensures |t| == |s|
  {
    seq(|s|, i requires 0 <= i < |s| => if 'A' <= s[i] <= 'Z' then (s[i] as int + 32) as char else s[i])
  }

  function ParseBool(value: string): Result<bool, ConfigError> {
    var v := Lower(value);
    if v == "true" || v == "yes" || v == "1" then Success(true)
    else if v == "false" || v == "no" || v == "0" then Success(false)
    else Failure(InvalidBoolean)
  }

  predicate SafeChar(c: char) {
    IsDigit(c) || 'a' <= c <= 'z' || 'A' <= c <= 'Z' || c == '.' || c == ':' || c == '-' || c == '_'
  }

  predicate SafeToken(s: string) {
    s != [] && forall i :: 0 <= i < |s| ==> SafeChar(s[i])
  }

  // ---------- Assignments ----------

  datatype Setting =
    | SensorId(id: nat) | Width(pixels: nat) | Height(rows: nat) | Framerate(rate: nat)
    | Bitrate(kbps: nat) | Gop(frames: nat) | Host(host: string) | Port(port: nat)
    | Output(mode: OutputMode) | RtspPort(rtspPort: nat) | RtspMount(mount: string)
    | SnapshotFile(file: string) | SnapshotOnStart(start: bool)

  function Key(s: Setting): (k: nat)
    ensures k < 13
  {
    match s
    case SensorId(_) => 0 case Width(_) => 1 case Height(_) => 2 case Framerate(_) => 3
    case Bitrate(_) => 4 case Gop(_) => 5 case Host(_) => 6 case Port(_) => 7 case Output(_) => 8
    case RtspPort(_) => 9 case RtspMount(_) => 10 case SnapshotFile(_) => 11 case SnapshotOnStart(_) => 12
  }

  function With(c: Config, s: Setting): Config {
    match s
    case SensorId(v) => c.(sensorId := v)
    case Width(v) => c.(width := v)
    case Height(v) => c.(height := v)
    case Framerate(v) => c.(framerate := v)
    case Bitrate(v) => c.(bitrateKbps := v)
    case Gop(v) => c.(gop := v)
    case Host(v) => c.(host := v)
    case Port(v) => c.(port := v)
    case Output(v) => c.(output := v)
    case RtspPort(v) => c.(rtspPort := v)
    case RtspMount(v) => c.(rtspMount := v)
    case SnapshotFile(v) => c.(snapshotFile := v)
    case SnapshotOnStart(v) => c.(snapshotOnStart := v)
  }

  /** The setting that leaves field k as it is. */
  function Current(c: Config, k: nat): Setting
  {
    if k == 0 then SensorId(c.sensorId) else if k == 1 then Width(c.width)
    else if k == 2 then Height(c.height) else if k == 3 then Framerate(c.framerate)
    else if k == 4 then Bitrate(c.bitrateKbps) else if k == 5 then Gop(c.gop)
    else if k == 6 then Host(c.host) else if k == 7 then Port(c.port) else if k == 8 then Output(c.output)
    else if k == 9 then RtspPort(c.rtspPort) else if k == 10 then RtspMount(c.rtspMount)
    else if k == 11 then SnapshotFile(c.snapshotFile) else SnapshotOnStart(c.snapshotOnStart)
  }

  datatype Name =
    | SensorIdName | WidthName | HeightName | FramerateName | BitrateName | GopName | HostName | PortName
    | OutputName | RtspPortName | RtspMountName | SnapshotFileName | SnapshotOnStartName

  function TextOf(name: Name): string {
    match name
    case SensorIdName => "sensor_id"
    case WidthName => "width"
    case HeightName => "height"
    case FramerateName => "framerate"
    case BitrateName => "bitrate_kbps"
    case GopName => "gop"
    case HostName => "host"
    case PortName => "port"
    case OutputName => "output"
    case RtspPortName => "rtsp_port"
    case RtspMountName => "rtsp_mount"
    case SnapshotFileName => "snapshot_file"
    case SnapshotOnStartName => "snapshot_on_start"
  }

  const NAMES := [SensorIdName, WidthName, HeightName, FramerateName, BitrateName, GopName, HostName, PortName,
                  OutputName, RtspPortName, RtspMountName, SnapshotFileName, SnapshotOnStartName]

  function NameOf(key: string): Option<Name> {
    Assignments.FirstNamed(TextOf, NAMES, key)
  }

  /** What a key and a value, both trimmed, ask for. */
  function Interpret(name: Name, value: string): Result<Setting, ConfigError> {
    match name
    case SensorIdName => var n :- ParseInt(value, 0, 255); Success(SensorId(n))
    case WidthName => var n :- ParseInt(value, 16, 8192); Success(Width(n))
    case HeightName => var n :- ParseInt(value, 16, 8192); Success(Height(n))
    case FramerateName => var n :- ParseInt(value, 1, 240); Success(Framerate(n))
    case BitrateName => var n :- ParseInt(value, 100, 200000); Success(Bitrate(n))
    case GopName => var n :- ParseInt(value, 1, 10000); Success(Gop(n))
    case HostName => Success(Host(value))
    case PortName => var n :- ParseInt(value, 1, 65535); Success(Port(n))
    case OutputName =>
      if value == "udp" then Success(Output(Udp))
      else if value == "rtsp" then Success(Output(Rtsp))
      else Failure(BadOutput)
    case RtspPortName => var n :- ParseInt(value, 1, 65535); Success(RtspPort(n))
    case RtspMountName => Success(RtspMount(value))
    case SnapshotFileName => Success(SnapshotFile(value))
    case SnapshotOnStartName => var b :- ParseBool(value); Success(SnapshotOnStart(b))
  }

  /** The setting an assignment stands for. */
  function SettingOf(rawKey: string, rawValue: string): Result<Setting, ConfigError> {
    match NameOf(Trim(rawKey))
    case None => Failure(UnknownKey)
    case Some(name) => Interpret(name, Trim(rawValue))
  }

  function Assign(c: Config, rawKey: string, rawValue: string): Result<Config, ConfigError> {
    var s :- SettingOf(rawKey, rawValue);
    Success(With(c, s))
  }

  predicate SupportedMode(c: Config) {
    || (c.width == 1280 && c.height == 720 && c.framerate == 60)
    || (c.width == 1920 && c.height == 1080 && c.framerate == 30)
  }

  function Validate(c: Config): Result<Config, ConfigError> {
    if !SupportedMode(c) then Failure(UnsupportedMode)
    else if !SafeToken(c.host) then Failure(BadHost)
    else if c.rtspMount == [] || c.rtspMount[0] != '/' || !SafeToken(c.rtspMount[1..]) then Failure(BadMount)
    else if c.snapshotFile == [] || !NoNewline(c.snapshotFile) then Failure(BadSnapshotFile)
    else Success(c)
  }

  // ---------- Files ----------

  /** The configuration after one line. */
  function ApplyLine(c: Config, line: string): Result<Config, ConfigError> {
    ApplyTrimmed(c, Trim(line))
  }

  function ApplyTrimmed(c: Config, t: string): Result<Config, ConfigError> {
    if t == [] || t[0] == '#' then Success(c)
    else
      var separator := Find(t, '=');
      if separator == |t| then Failure(NoSeparator)
      else Assign(c, t[..separator], t[separator + 1..])
  }

  /** The configuration after the lines; the first of them has this number. */
  function ApplyLines(c: Config, lines: seq<string>, number: nat): Result<Config, ConfigError>
    decreases |lines|
  {
    if lines == [] then Success(c)
    else match ApplyLine(c, lines[0])
      case Failure(e) => Failure(InLine(number, e))
      case Success(d) => ApplyLines(d, lines[1..], number + 1)
  }

  function LoadLines(lines: seq<string>): Result<Config, ConfigError> {
    var c :- ApplyLines(DEFAULTS, lines, 1);
    Validate(c)
  }

  /** What a file holds, or that it cannot be opened, decides what loading it gives. */
  function Load(file: Option<string>): Result<Config, ConfigError> {
    if file.None? then Failure(CannotOpen) else LoadLines(Lines(file.value))
  }

  /** The part of a text after its first line. */
  function AfterLine(input: string): (rest: string)
    requires input != []
    ensures |rest| < |input|
  {
    var length := Find(input, '\n');
    if length < |input| then input[length + 1..] else []
  }

  lemma NextLine(c: Config, input: string, number: nat)
    requires input != []
    ensures ApplyLines(c, Lines(input), number) ==
      match ApplyLine(c, input[..Find(input, '\n')])
      case Failure(e) => Failure(InLine(number, e))
      case Success(d) => ApplyLines(d, Lines(AfterLine(input)), number + 1)
  {
    assert Lines(input)[0] == input[..Find(input, '\n')] && Lines(input)[1..] == Lines(AfterLine(input));
  }

  /** A configuration under construction. */
  class ConfigCell {
    var config: Config

    constructor ()
      ensures config == DEFAULTS
    {
      config := DEFAULTS;
    }

    /** Stores one value in its field. */
    method Set(setting: Setting)
      modifies this
      ensures config == With(old(config), setting)
    {
      match setting {
        case SensorId(v) => config := config.(sensorId := v);
        case Width(v) => config := config.(width := v);
        case Height(v) => config := config.(height := v);
        case Framerate(v) => config := config.(framerate := v);
        case Bitrate(v) => config := config.(bitrateKbps := v);
        case Gop(v) => config := config.(gop := v);
        case Host(v) => config := config.(host := v);
        case Port(v) => config := config.(port := v);
        case Output(v) => config := config.(output := v);
        case RtspPort(v) => config := config.(rtspPort := v);
        case RtspMount(v) => config := config.(rtspMount := v);
        case SnapshotFile(v) => config := config.(snapshotFile := v);
        case SnapshotOnStart(v) => config := config.(snapshotOnStart := v);
      }
    }

    /** A failed assignment leaves the configuration unchanged. */
    method ApplyAssignment(rawKey: string, rawValue: string) returns (error: Option<ConfigError>)
      modifies this
      ensures match Assign(old(config), rawKey, rawValue)
        case Success(c) => error == None && config == c
        case Failure(e) => error == Some(e) && config == old(config)
    {
      var name := NameOf(Trim(rawKey));
      if name.None? {
        return Some(UnknownKey);
      }
      var setting := Interpret(name.value, Trim(rawValue));
      if setting.Failure? {
        return Some(setting.error);
      }
      Set(setting.value);
      error := None;
    }
  }

  /** One line of a file: a comment, an assignment, or an error. */
  method ReadLine(cell: ConfigCell, input: string) returns (error: Option<ConfigError>)
    modifies cell
    ensures match ApplyLine(old(cell.config), input)
      case Success(c) => error == None && cell.config == c
      case Failure(e) => error == Some(e)
  {
    var line := Trim(input);
    if line == [] || line[0] == '#' {
      return None;
    }
    var separator := Find(line, '=');
    if separator == |line| {
      return Some(NoSeparator);
    }
    error := cell.ApplyAssignment(line[..separator], line[separator + 1..]);
  }

  method LoadConfig(file: Option<string>) returns (r: Result<Config, ConfigError>)
    ensures r == Load(file)
  {
    if file.None? {
      return Failure(CannotOpen);
    }
    var cell := new ConfigCell();
    var input, lineNumber := file.value, 0;
    ghost var whole := ApplyLines(DEFAULTS, Lines(input), 1);
    while input != []
      invariant whole == ApplyLines(cell.config, Lines(input), lineNumber + 1)
      invariant fresh(cell)
      decreases |input|
    {
      NextLine(cell.config, input, lineNumber + 1);
      var line := input[..Find(input, '\n')];
      input := AfterLine(input);
      lineNumber := lineNumber + 1;
      var error := ReadLine(cell, line);
      if error.Some? {
        return Failure(InLine(lineNumber, error.value));
      }
    }
    r := Validate(cell.config);
  }
}
