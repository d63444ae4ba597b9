/** The configuration of jetcamd key by key: every key under its own name, with its own range. Words
    and numbers stand for themselves here. */
module ConfigWords {
  import opened MachineTypes
  import opened Text
  import opened DaemonConfig
  import opened Daemon
  import opened ConfigText
  import Assignments

  // ---------- Keys ----------

  /** The line key=value turns c into the result, whatever spaces are around it. */
  ghost predicate Gives(key: string, value: string, c: Config, r: Result<Config, ConfigError>) {
    forall a: string, b: string :: AllSpaces(a) && AllSpaces(b) ==> ApplyLine(c, a + (key + "=" + value) + b) == r
  }

  function Made(c: Config, r: Result<Setting, ConfigError>): Result<Config, ConfigError> {
    match r case Success(s) => Success(With(c, s)) case Failure(e) => Failure(e)
  }

  lemma NameIsNamed(name: Name)
    ensures NameOf(TextOf(name)) == Some(name)
  {
    match name {
      case SensorIdName => NameOfText(0);
      case WidthName => NameOfText(1);
      case HeightName => NameOfText(2);
      case FramerateName => NameOfText(3);
      case BitrateName => NameOfText(4);
      case GopName => NameOfText(5);
      case HostName => NameOfText(6);
      case PortName => NameOfText(7);
      case OutputName => NameOfText(8);
      case RtspPortName => NameOfText(9);
      case RtspMountName => NameOfText(10);
      case SnapshotFileName => NameOfText(11);
      case SnapshotOnStartName => NameOfText(12);
    }
  }

  lemma PartsMean(c: Config, t: string, key: string, value: string, name: Name)
    requires Trim(t) == t && t != [] && t[0] != '#' && FirstAt(t, '=', |key|)
    requires t[..|key|] == key && t[|key| + 1..] == value && Trim(key) == key && Trim(value) == value
    requires NameOf(key) == Some(name)
    ensures ApplyLine(c, t) == Made(c, Interpret(name, value))
  {
    FindFirst(t, '=', |key|);
  }

  /** A key and a value mean what the value means under this name. */
  ghost predicate Means(key: string, name: Name, value: string, c: Config) {
    Gives(key, value, c, Made(c, Interpret(name, value)))
  }

  lemma Meaning(key: string, name: Name, value: string, c: Config)
    requires key == TextOf(name) && Trimmed(value)
    ensures Means(key, name, value, c)
  {
    TextOfPlain(name);
    LineParts(key, value);
    NameIsNamed(name);
    var t := key + "=" + value;
    assert t == key + ['='] + value;
    PartsMean(c, t, key, value, name);
    forall a: string, b: string | AllSpaces(a) && AllSpaces(b)
      ensures ApplyLine(c, a + t + b) == Made(c, Interpret(name, value))
    {
      TrimIgnoresPadding(a, t, b);
    }
  }

  lemma Given(key: string, name: Name, value: string, c: Config, r: Result<Config, ConfigError>)
    requires Means(key, name, value, c) && r == Made(c, Interpret(name, value))
    ensures Gives(key, value, c, r)
  {
  }

  /** Which texts are integers says ParseIntIff. */
  lemma SensorIdReads(text: string, c: Config)
    requires Trimmed(text)
    ensures var n := ParseInt(text, 0, 255);
      Gives("sensor_id", text, c, if n.Success? then Success(c.(sensorId := n.value)) else Failure(n.error))
  {
    Meaning("sensor_id", SensorIdName, text, c);
    var n := ParseInt(text, 0, 255);
    Given("sensor_id", SensorIdName, text, c, if n.Success? then Success(c.(sensorId := n.value)) else Failure(n.error));
  }

  lemma WidthReads(text: string, c: Config)
    requires Trimmed(text)
    ensures var n := ParseInt(text, 16, 8192);
      Gives("width", text, c, if n.Success? then Success(c.(width := n.value)) else Failure(n.error))
  {
    Meaning("width", WidthName, text, c);
    var n := ParseInt(text, 16, 8192);
    Given("width", WidthName, text, c, if n.Success? then Success(c.(width := n.value)) else Failure(n.error));
  }

  lemma HeightReads(text: string, c: Config)
    requires Trimmed(text)
    ensures var n := ParseInt(text, 16, 8192);
      Gives("height", text, c, if n.Success? then Success(c.(height := n.value)) else Failure(n.error))
  {
    Meaning("height", HeightName, text, c);
    var n := ParseInt(text, 16, 8192);
    Given("height", HeightName, text, c, if n.Success? then Success(c.(height := n.value)) else Failure(n.error));
  }

  lemma FramerateReads(text: string, c: Config)
    requires Trimmed(text)
    ensures var n := ParseInt(text, 1, 240);
      Gives("framerate", text, c, if n.Success? then Success(c.(framerate := n.value)) else Failure(n.error))
  {
    Meaning("framerate", FramerateName, text, c);
    var n := ParseInt(text, 1, 240);
    Given("framerate", FramerateName, text, c, if n.Success? then Success(c.(framerate := n.value)) else Failure(n.error));
  }

  lemma BitrateReads(text: string, c: Config)
    requires Trimmed(text)
    ensures var n := ParseInt(text, 100, 200000);
      Gives("bitrate_kbps", text, c, if n.Success? then Success(c.(bitrateKbps := n.value)) else Failure(n.error))
  {
    Meaning("bitrate_kbps", BitrateName, text, c);
    var n := ParseInt(text, 100, 200000);
    Given("bitrate_kbps", BitrateName, text, c, if n.Success? then Success(c.(bitrateKbps := n.value)) else Failure(n.error));
  }

  lemma GopReads(text: string, c: Config)
    requires Trimmed(text)
    ensures var n := ParseInt(text, 1, 10000);
      Gives("gop", text, c, if n.Success? then Success(c.(gop := n.value)) else Failure(n.error))
  {
    Meaning("gop", GopName, text, c);
    var n := ParseInt(text, 1, 10000);
    Given("gop", GopName, text, c, if n.Success? then Success(c.(gop := n.value)) else Failure(n.error));
  }

  lemma PortReads(text: string, c: Config)
    requires Trimmed(text)
    ensures var n := ParseInt(text, 1, 65535);
      Gives("port", text, c, if n.Success? then Success(c.(port := n.value)) else Failure(n.error))
  {
    Meaning("port", PortName, text, c);
    var n := ParseInt(text, 1, 65535);
    Given("port", PortName, text, c, if n.Success? then Success(c.(port := n.value)) else Failure(n.error));
  }

  lemma RtspPortReads(text: string, c: Config)
    requires Trimmed(text)
    ensures var n := ParseInt(text, 1, 65535);
      Gives("rtsp_port", text, c, if n.Success? then Success(c.(rtspPort := n.value)) else Failure(n.error))
  {
    Meaning("rtsp_port", RtspPortName, text, c);
    var n := ParseInt(text, 1, 65535);
    Given("rtsp_port", RtspPortName, text, c, if n.Success? then Success(c.(rtspPort := n.value)) else Failure(n.error));
  }

  lemma HostReads(text: string, c: Config)
    requires Trimmed(text)
    ensures Gives("host", text, c, Success(c.(host := text)))
  {
    Meaning("host", HostName, text, c);
    Given("host", HostName, text, c, Success(c.(host := text)));
  }

  lemma RtspMountReads(text: string, c: Config)
    requires Trimmed(text)
    ensures Gives("rtsp_mount", text, c, Success(c.(rtspMount := text)))
  {
    Meaning("rtsp_mount", RtspMountName, text, c);
    Given("rtsp_mount", RtspMountName, text, c, Success(c.(rtspMount := text)));
  }

  lemma SnapshotFileReads(text: string, c: Config)
    requires Trimmed(text)
    ensures Gives("snapshot_file", text, c, Success(c.(snapshotFile := text)))
  {
    Meaning("snapshot_file", SnapshotFileName, text, c);
    Given("snapshot_file", SnapshotFileName, text, c, Success(c.(snapshotFile := text)));
  }

  lemma OutputReads(text: string, c: Config)
    requires Trimmed(text)
    ensures Gives("output", text, c,
                  if text == "udp" then Success(c.(output := Udp))
                  else if text == "rtsp" then Success(c.(output := Rtsp))
                  else Failure(BadOutput))
  {
    Meaning("output", OutputName, text, c);
    Given("output", OutputName, text, c,
          if text == "udp" then Success(c.(output := Udp))
          else if text == "rtsp" then Success(c.(output := Rtsp))
          else Failure(BadOutput));
  }

  /** Letters may be large or small. */
  predicate SameLetters(a: string, b: string) {
    |a| == |b| && forall i :: 0 <= i < |a| ==> a[i] == b[i] || ('A' <= a[i] <= 'Z' && a[i] as int + 32 == b[i] as int)
  }

  lemma LowerIs(a: string, b: string)
    requires forall i :: 0 <= i < |b| ==> !('A' <= b[i] <= 'Z')
    ensures Lower(a) == b <==> SameLetters(a, b)
  {
    if Lower(a) == b {
      forall i | 0 <= i < |a| ensures a[i] == b[i] || ('A' <= a[i] <= 'Z' && a[i] as int + 32 == b[i] as int) {
        assert Lower(a)[i] == b[i];
      }
    }
  }

  predicate Yes(text: string) {
    SameLetters(text, "true") || SameLetters(text, "yes") || SameLetters(text, "1")
  }

  predicate No(text: string) {
    SameLetters(text, "false") || SameLetters(text, "no") || SameLetters(text, "0")
  }

  lemma ParseBoolReads(text: string)
    ensures ParseBool(text) ==
      if Yes(text) then Success(true) else if No(text) then Success(false) else Failure(InvalidBoolean)
  {
    LowerIs(text, "true");
    LowerIs(text, "yes");
    LowerIs(text, "1");
    LowerIs(text, "false");
    LowerIs(text, "no");
    LowerIs(text, "0");
  }

  lemma SnapshotOnStartReads(text: string, c: Config)
    requires Trimmed(text)
    ensures Gives("snapshot_on_start", text, c,
                  if Yes(text) then Success(c.(snapshotOnStart := true))
                  else if No(text) then Success(c.(snapshotOnStart := false))
                  else Failure(InvalidBoolean))
  {
    ParseBoolReads(text);
    Meaning("snapshot_on_start", SnapshotOnStartName, text, c);
    Given("snapshot_on_start", SnapshotOnStartName, text, c,
          if Yes(text) then Success(c.(snapshotOnStart := true))
          else if No(text) then Success(c.(snapshotOnStart := false))
          else Failure(InvalidBoolean));
  }

  /** The texts that are no key. */
  predicate NoKey(key: string) {
    && key != "sensor_id" && key != "width" && key != "height" && key != "framerate" && key != "bitrate_kbps"
    && key != "gop" && key != "host" && key != "port" && key != "output" && key != "rtsp_port" && key != "rtsp_mount"
    && key != "snapshot_file" && key != "snapshot_on_start"
  }

  lemma UnknownKeyFails(rawKey: string, rawValue: string, c: Config)
    requires NoKey(Trim(rawKey))
    ensures Assign(c, rawKey, rawValue) == Failure(UnknownKey)
  {
    forall name: Name ensures TextOf(name) != Trim(rawKey) {
    }
    Assignments.NoneNamed(TextOf, NAMES, Trim(rawKey));
  }

  /** Empty lines and comments change nothing; any other line needs a separator. */
  lemma OtherLines(line: string, c: Config)
    ensures Trim(line) == "" || Trim(line)[0] == '#' ==> ApplyLine(c, line) == Success(c)
    ensures Trim(line) != "" && Trim(line)[0] != '#' && '=' !in line ==> ApplyLine(c, line) == Failure(NoSeparator)
  {
    if '=' !in line {
      var a, b := TrimSplits(line);
      forall i | 0 <= i < |Trim(line)| ensures Trim(line)[i] != '=' {
        assert line[|a| + i] == Trim(line)[i];
      }
    }
  }

  /** The first wrong line of a file is the one that is reported, lines counted from 1. */
  lemma FirstWrongLine(file: string, k: nat, d: Config, error: ConfigError)
    requires k < |Lines(file)| && ApplyLines(DEFAULTS, Lines(file)[..k], 1) == Success(d)
    requires ApplyLine(d, Lines(file)[k]) == Failure(error)
    ensures Load(Some(file)) == Failure(InLine(k + 1, error))
  {
    WrongAmong(DEFAULTS, Lines(file), k, d, error);
  }

  lemma WrongAmong(c: Config, lines: seq<string>, k: nat, d: Config, error: ConfigError)
    requires k < |lines| && ApplyLines(c, lines[..k], 1) == Success(d) && ApplyLine(d, lines[k]) == Failure(error)
    ensures ApplyLines(c, lines, 1) == Failure(InLine(k + 1, error))
  {
    assert lines == lines[..k] + lines[k..];
    LinesThenLines(c, lines[..k], lines[k..], 1);
    WrongFirst(d, lines[k..], k + 1, error);
  }

  lemma WrongFirst(d: Config, lines: seq<string>, number: nat, error: ConfigError)
    requires lines != [] && ApplyLine(d, lines[0]) == Failure(error)
    ensures ApplyLines(d, lines, number) == Failure(InLine(number, error))
  {
  }

  /** A file that cannot be opened is no configuration. */
  lemma NoFile()
    ensures Load(None) == Failure(CannotOpen)
  {
  }

  // ---------- Validation ----------

  /** Letters, digits, and . : - _ */
  predicate Plain(text: string) {
    text != [] && forall i :: 0 <= i < |text| ==>
      || 'a' <= text[i] <= 'z' || 'A' <= text[i] <= 'Z' || '0' <= text[i] <= '9'
      || text[i] == '.' || text[i] == ':' || text[i] == '-' || text[i] == '_'
  }

  /** Exactly 720p60 and 1080p30 are served, to a plain host, from a plain path below /, with
      snapshots in a file whose name has one line. */
  lemma ValidIff(c: Config)
    ensures Validate(c).Success? <==>
      && ((c.width, c.height, c.framerate) == (1280, 720, 60) || (c.width, c.height, c.framerate) == (1920, 1080, 30))
      && Plain(c.host)
      && c.rtspMount != [] && c.rtspMount[0] == '/' && Plain(c.rtspMount[1..])
      && c.snapshotFile != [] && '\n' !in c.snapshotFile
    ensures Validate(c).Success? ==> Validate(c).value == c
  {
    PlainIsSafe(c.host);
    if c.rtspMount != [] {
      PlainIsSafe(c.rtspMount[1..]);
    }
  }

  lemma PlainIsSafe(text: string)
    ensures SafeToken(text) <==> Plain(text)
  {
  }

  /** Without a file and arguments: 720p60 at 6000 kbit/s to 127.0.0.1:5000. */
  lemma NoLines()
    ensures Load(Some([])) == Success(Config(0, 1280, 720, 60, 6000, 60, "127.0.0.1", 5000, Udp, 8554, "/jetcam",
                                             "jetcam-snapshot.jpg", false))
  {
    PlainIsSafe(DEFAULTS.host);
    assert DEFAULTS.rtspMount[1..] == "jetcam";
  }

  // ---------- Arguments ----------

  lemma ConfigReads(path: string, rest: seq<string>, files: Files, c: Config, printing: bool)
    ensures Arguments(["--config", path] + rest, files, c, printing) ==
      var loaded := Load(if path in files then Some(files[path]) else None);
      if loaded.Failure? then Failure(loaded.error) else Arguments(rest, files, loaded.value, printing)
  {
    assert WordOf("--config") == ConfigWord;
    TwoWords("--config", path, rest);
    ConfigStep(["--config", path] + rest, files, c, printing);
  }

  lemma TwoWords(word: string, text: string, rest: seq<string>)
    ensures var args := [word, text] + rest; args[0] == word && args[1] == text && args[2..] == rest
  {
  }

  lemma SetReads(text: string, rest: seq<string>, files: Files, c: Config, printing: bool)
    ensures Arguments(["--set", text] + rest, files, c, printing) ==
      var updated := SetAssignment(c, text);
      if updated.Failure? then Failure(updated.error) else Arguments(rest, files, updated.value, printing)
  {
    assert WordOf("--set") == SetWord;
    TwoWords("--set", text, rest);
    SetStep(["--set", text] + rest, files, c, printing);
  }

  /** A --set text is split at its first separator, and needs one. */
  lemma SetSplits(key: string, value: string, c: Config)
    requires '=' !in key
    ensures SetAssignment(c, key + "=" + value) == Assign(c, key, value)
    ensures SetAssignment(c, key) == Failure(NoSeparator)
  {
    var text := key + "=" + value;
    FindUnique(text, '=', |key|);
    FindUnique(key, '=', |key|);
    assert text[..|key|] == key && text[|key| + 1..] == value;
  }

  /** At the end the configuration is validated once more. */
  lemma NoMoreArguments(files: Files, c: Config, printing: bool)
    ensures Arguments([], files, c, printing) ==
      if Validate(c).Success? then Success(Serve(c, printing)) else Failure(Validate(c).error)
  {
  }

  lemma OneWord(word: string, rest: seq<string>)
    ensures ([word] + rest)[0] == word && ([word] + rest)[1..] == rest
  {
  }

  lemma PrintPipelineReads(rest: seq<string>, files: Files, c: Config, printing: bool)
    ensures Arguments(["--print-pipeline"] + rest, files, c, printing) == Arguments(rest, files, c, true)
  {
    assert WordOf("--print-pipeline") == PrintWord;
    OneWord("--print-pipeline", rest);
    PrintStep(["--print-pipeline"] + rest, files, c, printing);
  }

  lemma PrintStep(args: seq<string>, files: Files, c: Config, printing: bool)
    requires args != [] && WordOf(args[0]) == PrintWord
    ensures Arguments(args, files, c, printing) == Arguments(args[1..], files, c, true)
  {
  }

  lemma OtherStep(args: seq<string>, files: Files, c: Config, printing: bool)
    requires args != [] && WordOf(args[0]) != PrintWord
    requires |args| == 1 || (WordOf(args[0]) != ConfigWord && WordOf(args[0]) != SetWord)
    ensures Arguments(args, files, c, printing) ==
      if WordOf(args[0]) == HelpWord then Success(Help) else Failure(BadArgument)
  {
  }

  lemma HelpReads(rest: seq<string>, files: Files, c: Config, printing: bool)
    ensures Arguments(["--help"] + rest, files, c, printing) == Success(Help)
  {
    assert WordOf("--help") == HelpWord;
    OneWord("--help", rest);
    OtherStep(["--help"] + rest, files, c, printing);
  }

  /** Any other word, and one that lacks its value, is refused. */
  lemma OtherArgumentsFail(word: string, rest: seq<string>, files: Files, c: Config, printing: bool)
    requires word != "--print-pipeline" && word != "--help"
    requires rest == [] || (word != "--config" && word != "--set")
    ensures Arguments([word] + rest, files, c, printing) == Failure(BadArgument)
  {
    OneWord(word, rest);
    OtherStep([word] + rest, files, c, printing);
  }
}
