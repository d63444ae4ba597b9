/** The command line of jetcam-raw-test word by word: every option under its own name, with its own
    range. Words and numbers stand for themselves here. */
module OptionWords {
  import opened MachineTypes
  import opened KernelInterface
  import opened Text
  import opened CaptureOptions
  import opened CommandText
  import Assignments

  // ---------- Options with a value ----------

  /** The words turn o into p, whatever follows them. */
  ghost predicate Sets(words: seq<string>, o: Options, p: Options, readReal: ReadReal) {
    forall rest: seq<string> :: Read(words + rest, o, readReal) == Read(rest, p, readReal)
  }

  /** The words are refused, whatever follows them. */
  ghost predicate Refuses(words: seq<string>, o: Options, complaint: Complaint, readReal: ReadReal) {
    forall rest: seq<string> :: Read(words + rest, o, readReal) == Failure(complaint)
  }

  lemma KindOfKind(kind: Kind)
    ensures KindOf(TextOf(kind)) == Some(kind)
  {
    match kind {
      case DeviceKind => KindOfText(0);
      case WidthKind => KindOfText(1);
      case HeightKind => KindOfText(2);
      case FormatKind => KindOfText(3);
      case FpsKind => KindOfText(4);
      case FramesKind => KindOfText(5);
      case DurationKind => KindOfText(6);
      case TimeoutKind => KindOfText(7);
      case BuffersKind => KindOfText(8);
      case ModeKind => KindOfText(9);
      case SaveKind => KindOfText(10);
      case SaveAtKind => KindOfText(11);
      case ReportKind => KindOfText(12);
    }
  }

  lemma GroupSetsIt(g: Group, o: Options, readReal: ReadReal)
    requires Complete(g, readReal)
    ensures Sets(g.words, o, Apply(o, g.assignment), readReal)
  {
    forall rest: seq<string> ensures Read(g.words + rest, o, readReal) == Read(rest, Apply(o, g.assignment), readReal) {
      ReadGroup(g, rest, o, readReal);
    }
  }

  lemma WordRefused(word: string, kind: Kind, text: string, rest: seq<string>, o: Options, readReal: ReadReal)
    requires !IsHelp(word) && KindOf(word) == Some(kind) && Interpret(kind, text, readReal).Failure?
    ensures Read([word, text] + rest, o, readReal) == Failure(Interpret(kind, text, readReal).error)
  {
    var args := [word, text] + rest;
    assert args[0] == word && args[1] == text;
  }

  /** The words mean what was read: an assignment, or the refusal of it. */
  ghost predicate Understood(words: seq<string>, o: Options, r: Result<Assignment, Complaint>, readReal: ReadReal) {
    && (r.Success? ==> Sets(words, o, Apply(o, r.value), readReal))
    && (r.Failure? ==> Refuses(words, o, r.error, readReal))
  }

  /** A word and a text mean what the text means as a value of the option with this name. */
  lemma Meaning(word: string, kind: Kind, text: string, o: Options, readReal: ReadReal)
    requires word == TextOf(kind)
    ensures Understood([word, text], o, Interpret(kind, text, readReal), readReal)
  {
    var r := Interpret(kind, text, readReal);
    TextOfLong(kind);
    KindOfKind(kind);
    if r.Success? {
      PairRead([word, text], kind, r.value, readReal);
      GroupSetsIt(Group([word, text], r.value), o, readReal);
    } else {
      forall rest: seq<string> ensures Read([word, text] + rest, o, readReal) == Failure(r.error) {
        WordRefused(word, kind, text, rest, o, readReal);
      }
    }
  }

  lemma Accepted(word: string, kind: Kind, text: string, a: Assignment, o: Options, p: Options, readReal: ReadReal)
    requires word == TextOf(kind) && Interpret(kind, text, readReal) == Success(a) && p == Apply(o, a)
    ensures Sets([word, text], o, p, readReal)
  {
    Meaning(word, kind, text, o, readReal);
  }

  lemma Rejected(word: string, kind: Kind, text: string, complaint: Complaint, o: Options, readReal: ReadReal)
    requires word == TextOf(kind) && Interpret(kind, text, readReal) == Failure(complaint)
    ensures Refuses([word, text], o, complaint, readReal)
  {
    Meaning(word, kind, text, o, readReal);
  }

  lemma FlagMeaning(word: string, a: Assignment, o: Options, readReal: ReadReal)
    requires Complete(Group([word], a), readReal)
    ensures Understood([word], o, Success(a), readReal)
  {
    GroupSetsIt(Group([word], a), o, readReal);
  }

  lemma FlagAccepted(word: string, a: Assignment, o: Options, p: Options, readReal: ReadReal)
    requires Understood([word], o, Success(a), readReal) && p == Apply(o, a)
    ensures Sets([word], o, p, readReal)
  {
  }

  /** What a number that is not accepted is refused with; which texts are numbers says ParseUnsignedIff. */
  function NumberRefusal(n: Result<uint64, Complaint>): Complaint {
    if n.Success? then OutOfRange else InvalidInteger
  }

  lemma WidthReads(text: string, o: Options, readReal: ReadReal)
    ensures var n := ParseUnsigned(text);
      if n.Success? && 1 <= n.value <= 4294967295 then Sets(["--width", text], o, o.(width := n.value), readReal)
      else Refuses(["--width", text], o, NumberRefusal(n), readReal)
  {
    var n := ParseUnsigned(text);
    if n.Success? && 1 <= n.value <= 4294967295 {
      Accepted("--width", WidthKind, text, Width(n.value), o, o.(width := n.value), readReal);
    } else {
      Rejected("--width", WidthKind, text, NumberRefusal(n), o, readReal);
    }
  }

  lemma HeightReads(text: string, o: Options, readReal: ReadReal)
    ensures var n := ParseUnsigned(text);
      if n.Success? && 1 <= n.value <= 4294967295 then Sets(["--height", text], o, o.(height := n.value), readReal)
      else Refuses(["--height", text], o, NumberRefusal(n), readReal)
  {
    var n := ParseUnsigned(text);
    if n.Success? && 1 <= n.value <= 4294967295 {
      Accepted("--height", HeightKind, text, Height(n.value), o, o.(height := n.value), readReal);
    } else {
      Rejected("--height", HeightKind, text, NumberRefusal(n), o, readReal);
    }
  }

  lemma FramesReads(text: string, o: Options, readReal: ReadReal)
    ensures var n := ParseUnsigned(text);
      if n.Success? then Sets(["--frames", text], o, o.(frameLimit := n.value), readReal)
      else Refuses(["--frames", text], o, InvalidInteger, readReal)
  {
    var n := ParseUnsigned(text);
    if n.Success? {
      Accepted("--frames", FramesKind, text, Frames(n.value), o, o.(frameLimit := n.value), readReal);
    } else {
      Rejected("--frames", FramesKind, text, InvalidInteger, o, readReal);
    }
  }

  lemma TimeoutReads(text: string, o: Options, readReal: ReadReal)
    ensures var n := ParseUnsigned(text);
      if n.Success? && 1 <= n.value <= 2147483647 then Sets(["--timeout-ms", text], o, o.(timeoutMs := n.value), readReal)
      else Refuses(["--timeout-ms", text], o, NumberRefusal(n), readReal)
  {
    var n := ParseUnsigned(text);
    if n.Success? && 1 <= n.value <= 2147483647 {
      Accepted("--timeout-ms", TimeoutKind, text, Timeout(n.value), o, o.(timeoutMs := n.value), readReal);
    } else {
      Rejected("--timeout-ms", TimeoutKind, text, NumberRefusal(n), o, readReal);
    }
  }

  lemma BuffersReads(text: string, o: Options, readReal: ReadReal)
    ensures var n := ParseUnsigned(text);
      if n.Success? && 2 <= n.value <= 32 then Sets(["--buffers", text], o, o.(bufferCount := n.value), readReal)
      else Refuses(["--buffers", text], o, NumberRefusal(n), readReal)
  {
    var n := ParseUnsigned(text);
    if n.Success? && 2 <= n.value <= 32 {
      Accepted("--buffers", BuffersKind, text, Buffers(n.value), o, o.(bufferCount := n.value), readReal);
    } else {
      Rejected("--buffers", BuffersKind, text, NumberRefusal(n), o, readReal);
    }
  }

  lemma SensorModeReads(text: string, o: Options, readReal: ReadReal)
    requires text != "none"
    ensures var n := ParseUnsigned(text);
      if n.Success? && n.value <= 9223372036854775807 then Sets(["--sensor-mode", text], o, o.(sensorMode := Some(n.value)), readReal)
      else Refuses(["--sensor-mode", text], o, NumberRefusal(n), readReal)
  {
    var n := ParseUnsigned(text);
    if n.Success? && n.value <= 9223372036854775807 {
      Accepted("--sensor-mode", ModeKind, text, SensorMode(Some(n.value)), o, o.(sensorMode := Some(n.value)), readReal);
    } else {
      Rejected("--sensor-mode", ModeKind, text, NumberRefusal(n), o, readReal);
    }
  }

  lemma NoSensorModeReads(o: Options, readReal: ReadReal)
    ensures Sets(["--sensor-mode", "none"], o, o.(sensorMode := None), readReal)
  {
    Accepted("--sensor-mode", ModeKind, "none", SensorMode(None), o, o.(sensorMode := None), readReal);
  }

  lemma SaveAtReads(text: string, o: Options, readReal: ReadReal)
    ensures var n := ParseUnsigned(text);
      if n.Success? && n.value > 0 then Sets(["--save-at", text], o, o.(saveAt := n.value), readReal)
      else Refuses(["--save-at", text], o, if n.Success? then SaveAtZero else InvalidInteger, readReal)
  {
    var n := ParseUnsigned(text);
    if n.Success? && n.value > 0 {
      Accepted("--save-at", SaveAtKind, text, SaveAt(n.value), o, o.(saveAt := n.value), readReal);
    } else {
      Rejected("--save-at", SaveAtKind, text, if n.Success? then SaveAtZero else InvalidInteger, o, readReal);
    }
  }

  lemma DeviceReads(text: string, o: Options, readReal: ReadReal)
    ensures Sets(["--device", text], o, o.(device := text), readReal)
  {
    Accepted("--device", DeviceKind, text, Device(text), o, o.(device := text), readReal);
  }

  lemma SaveFrameReads(text: string, o: Options, readReal: ReadReal)
    ensures Sets(["--save-frame", text], o, o.(savePath := Some(text)), readReal)
  {
    Accepted("--save-frame", SaveKind, text, SavePath(Some(text)), o, o.(savePath := Some(text)), readReal);
  }

  /** Four characters are the bytes of the format, the first one the lowest. */
  lemma PixelFormatReads(text: string, o: Options, readReal: ReadReal)
    requires forall i :: 0 <= i < |text| ==> text[i] as int < 256
    ensures if |text| == 4 then
              Sets(["--pixel-format", text], o,
                   o.(pixelFormat := text[0] as int + text[1] as int * 256 + text[2] as int * 65536
                                     + text[3] as int * 16777216), readReal)
            else Refuses(["--pixel-format", text], o, BadPixelFormat, readReal)
  {
    if |text| == 4 {
      var format := FormatBytes(text);
      Accepted("--pixel-format", FormatKind, text, PixelFormat(format), o, o.(pixelFormat := format), readReal);
    } else {
      Rejected("--pixel-format", FormatKind, text, BadPixelFormat, o, readReal);
    }
  }

  lemma FormatBytes(text: string) returns (format: uint32)
    requires |text| == 4 && forall i :: 0 <= i < |text| ==> text[i] as int < 256
    ensures format == text[0] as int + text[1] as int * 256 + text[2] as int * 65536 + text[3] as int * 16777216
    ensures ParseFourcc(text) == Success(format)
  {
    assert ByteOf(text[0]) == text[0] as int && ByteOf(text[1]) == text[1] as int;
    assert ByteOf(text[2]) == text[2] as int && ByteOf(text[3]) == text[3] as int;
    format := ParseFourcc(text).value;
  }

  lemma FpsReads(text: string, o: Options, readReal: ReadReal)
    ensures var x := readReal(text);
      if x.Some? && x.value > 0.0 then Sets(["--fps", text], o, o.(fps := x.value), readReal)
      else Refuses(["--fps", text], o, InvalidNumber, readReal)
  {
    var x := readReal(text);
    if x.Some? && x.value > 0.0 {
      Accepted("--fps", FpsKind, text, Fps(x.value), o, o.(fps := x.value), readReal);
    } else {
      Rejected("--fps", FpsKind, text, InvalidNumber, o, readReal);
    }
  }

  lemma DurationReads(text: string, o: Options, readReal: ReadReal)
    ensures var x := readReal(text);
      if x.Some? && x.value >= 0.0 then Sets(["--duration", text], o, o.(durationSeconds := x.value), readReal)
      else Refuses(["--duration", text], o, InvalidNumber, readReal)
  {
    var x := readReal(text);
    if x.Some? && x.value >= 0.0 {
      Accepted("--duration", DurationKind, text, Duration(x.value), o, o.(durationSeconds := x.value), readReal);
    } else {
      Rejected("--duration", DurationKind, text, InvalidNumber, o, readReal);
    }
  }

  lemma ReportIntervalReads(text: string, o: Options, readReal: ReadReal)
    ensures var x := readReal(text);
      if x.Some? && x.value > 0.0 then Sets(["--report-interval", text], o, o.(reportInterval := x.value), readReal)
      else Refuses(["--report-interval", text], o, InvalidNumber, readReal)
  {
    var x := readReal(text);
    if x.Some? && x.value > 0.0 {
      Accepted("--report-interval", ReportKind, text, ReportInterval(x.value), o, o.(reportInterval := x.value), readReal);
    } else {
      Rejected("--report-interval", ReportKind, text, InvalidNumber, o, readReal);
    }
  }

  // ---------- Options without a value ----------

  lemma ListMeaning(o: Options, readReal: ReadReal)
    ensures Understood(["--list"], o, Success(ListOnly(true)), readReal)
  {
    ListRead(readReal);
    FlagMeaning("--list", ListOnly(true), o, readReal);
  }

  lemma AllowMeaning(o: Options, readReal: ReadReal)
    ensures Understood(["--allow-drops"], o, Success(AllowDrops(true)), readReal)
  {
    AllowRead(readReal);
    FlagMeaning("--allow-drops", AllowDrops(true), o, readReal);
  }

  lemma ListReads(o: Options, readReal: ReadReal)
    ensures Sets(["--list"], o, o.(listOnly := true), readReal)
  {
    ListMeaning(o, readReal);
    FlagAccepted("--list", ListOnly(true), o, o.(listOnly := true), readReal);
  }

  lemma AllowDropsReads(o: Options, readReal: ReadReal)
    ensures Sets(["--allow-drops"], o, o.(allowDrops := true), readReal)
  {
    AllowMeaning(o, readReal);
    FlagAccepted("--allow-drops", AllowDrops(true), o, o.(allowDrops := true), readReal);
  }

  lemma HelpReads(rest: seq<string>, o: Options, readReal: ReadReal)
    ensures Read(["--help"] + rest, o, readReal) == Read(["-h"] + rest, o, readReal) == Success(None)
  {
    assert (["--help"] + rest)[0] == "--help" && (["-h"] + rest)[0] == "-h";
  }

  // ---------- The rest ----------

  /** The words that are no option. */
  predicate NoOption(word: string) {
    && word != "--device" && word != "--width" && word != "--height" && word != "--pixel-format" && word != "--fps"
    && word != "--frames" && word != "--duration" && word != "--timeout-ms" && word != "--buffers"
    && word != "--sensor-mode" && word != "--save-frame" && word != "--save-at" && word != "--report-interval"
    && word != "--list" && word != "--allow-drops" && word != "--help" && word != "-h"
  }

  lemma UnknownOptionFails(word: string, rest: seq<string>, o: Options, readReal: ReadReal)
    requires NoOption(word)
    ensures Read([word] + rest, o, readReal) == Failure(UnknownOption)
  {
    forall kind: Kind ensures TextOf(kind) != word {
    }
    Assignments.NoneNamed(TextOf, KINDS, word);
    assert ([word] + rest)[0] == word;
  }

  /** An option at the end of the line lacks its value. */
  lemma LastOptionFails(k: nat, o: Options, readReal: ReadReal)
    requires k < 13
    ensures Read([TextOf(KINDS[k])], o, readReal) == Failure(MissingValue)
  {
    TextOfLong(KINDS[k]);
    KindOfText(k);
  }

  /** Without arguments: 120 frames of 1280x720 in the format RG10 at 60 a second, from /dev/video0. */
  lemma NoArguments(readReal: ReadReal)
    ensures CommandLine([], readReal) == Success(Some(Options(
      "/dev/video0", 1280, 720, 0x3031_4752, 60.0, 120, 0.0, 2500, 4, Some(4), None, 1, 1.0, false, false)))
  {
  }

  /** At the end: a frame to save must lie within the frame limit. */
  lemma LineEnds(o: Options, args: seq<string>, readReal: ReadReal)
    requires Read(args, DEFAULTS, readReal) == Success(Some(o))
    ensures CommandLine(args, readReal) ==
      if o.savePath.Some? && o.frameLimit != 0 && o.saveAt > o.frameLimit then Failure(SaveAtBeyondFrames)
      else Success(Some(o))
  {
  }
}
