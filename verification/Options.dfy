/** The command line of jetcam-raw-test. */
module CaptureOptions {
  import opened MachineTypes
  import opened KernelInterface
  import opened Text
  import Assignments

  const INT_MAX := 0x7FFF_FFFF
  const INT64_MAX := 0x7FFF_FFFF_FFFF_FFFF

  datatype Options = Options(
    device: string, width: uint32, height: uint32, pixelFormat: uint32, fps: real,
    frameLimit: uint64, durationSeconds: real, timeoutMs: int, bufferCount: uint32,
    sensorMode: Option<int>, savePath: Option<string>, saveAt: uint64,
    reportInterval: real, listOnly: bool, allowDrops: bool)
  {
    /** What every accepted command line guarantees. */
    predicate Valid() {
      && 0 < width && 0 < height && fps > 0.0 && durationSeconds >= 0.0
      && 0 < timeoutMs <= INT_MAX && 2 <= bufferCount <= 32
      && (sensorMode.Some? ==> 0 <= sensorMode.value <= INT64_MAX)
      && 0 < saveAt && reportInterval > 0.0
    }

    /** The save position is within the frame limit, when both apply. */
    predicate SaveWithinFrames() {
      savePath.Some? && frameLimit != 0 ==> saveAt <= frameLimit
    }
  }

  // ---------- Pixel formats ----------

  function ByteOf(c: char): byte {
    c as int % 256
  }

  function Fourcc(a: byte, b: byte, c: byte, d: byte): uint32 {
    a + b * 0x100 + c * 0x1_0000 + d * 0x100_0000
  }

  function ParseFourcc(text: string): Result<uint32, Complaint> {
    if |text| != 4 then Failure(BadPixelFormat)
    else Success(Fourcc(ByteOf(text[0]), ByteOf(text[1]), ByteOf(text[2]), ByteOf(text[3])))
  }

  function Printable(b: byte): char {
    if 32 <= b <= 126 then b as char else '?'
  }

  function FourccToString(value: uint32): string {
    [Printable(value % 256), Printable(value / 0x100 % 256),
     Printable(value / 0x1_0000 % 256), Printable(value / 0x100_0000 % 256)]
  }

  predicate PrintableText(text: string) {
    forall i :: 0 <= i < |text| ==> 32 <= text[i] as int <= 126
  }

  lemma LowByte(v: nat, low: byte, high: nat)
    requires v == low + 256 * high
    ensures v % 256 == low
  {
  }

  lemma Quotients(v: nat, a: byte, b: byte, c: byte, d: byte)
    requires v == a + b * 0x100 + c * 0x1_0000 + d * 0x100_0000
    ensures v / 0x100 == b + 256 * (c + 256 * d) && v / 0x1_0000 == c + 256 * d && v / 0x100_0000 == d
  {
  }

  lemma FourccBytes(a: byte, b: byte, c: byte, d: byte)
    ensures var v := Fourcc(a, b, c, d);
      v % 256 == a && v / 0x100 % 256 == b && v / 0x1_0000 % 256 == c && v / 0x100_0000 % 256 == d
  {
    var v := Fourcc(a, b, c, d);
    Quotients(v, a, b, c, d);
    LowByte(v, a, b + 256 * (c + 256 * d));
    LowByte(v / 0x100, b, c + 256 * d);
    LowByte(v / 0x1_0000, c, d);
    LowByte(v / 0x100_0000, d, 0);
  }

  /** A pixel format is shown as it was typed if and only if every character can be shown. */
  lemma FourccRoundTripIff(text: string)
    requires |text| == 4
    ensures ParseFourcc(text).Success?
    ensures FourccToString(ParseFourcc(text).value) == text <==> PrintableText(text)
    ensures var shown := FourccToString(ParseFourcc(text).value);
      && |shown| == 4
      && forall k :: 0 <= k < 4 && text[k] as int < 256 ==>
           shown[k] == if 32 <= text[k] as int <= 126 then text[k] else '?'
  {
    var a, b, c, d := ByteOf(text[0]), ByteOf(text[1]), ByteOf(text[2]), ByteOf(text[3]);
    FourccBytes(a, b, c, d);
    var shown := FourccToString(ParseFourcc(text).value);
    assert shown == [Printable(a), Printable(b), Printable(c), Printable(d)];
    forall k | 0 <= k < 4
      ensures Printable(ByteOf(text[k])) == text[k] <==> 32 <= text[k] as int <= 126
      ensures text[k] as int < 256 ==>
        Printable(ByteOf(text[k])) == if 32 <= text[k] as int <= 126 then text[k] else '?'
    {
    }
    if shown == text {
      assert shown[0] == text[0] && shown[1] == text[1] && shown[2] == text[2] && shown[3] == text[3];
    }
  }

  // ---------- Numbers ----------

  function ParseUnsigned(text: string): Result<uint64, Complaint> {
    if text == [] || text[0] == '-' then Failure(InvalidInteger)
    else match Scan(text)
      case None => Failure(InvalidInteger)
      case Some(n) =>
        if n.magnitude >= TWO_TO_THE_64 || n.rest != [] then Failure(InvalidInteger)
        else if n.negative && n.magnitude > 0 then Success(TWO_TO_THE_64 - n.magnitude)
        else Success(n.magnitude)
  }

  lemma ParseUnsignedInvertsDecimal(n: uint64)
    ensures ParseUnsigned(Decimal(n)) == Success(n)
  {
    ScanDecimal(n);
    assert IsDigit(Decimal(n)[0]);
  }

  /** The number a text denotes. */
  function Denotes(n: Scanned): int {
    var m: int := n.magnitude;
    if n.negative then -m else m
  }

  /** An accepted text stands for the number it denotes unless that number is negative: only a
      minus sign in the first place is refused, one after spaces wraps around. */
  lemma UnsignedMeaningIff(text: string)
    requires ParseUnsigned(text).Success?
    ensures Scan(text).Some?
    ensures ParseUnsigned(text).value == Denotes(Scan(text).value) <==> Denotes(Scan(text).value) >= 0
  {
  }

  /** A text is a number for the program exactly when it is white space, a sign and digits, and nothing
      else, does not start with a minus sign, and has fewer than 2^64 as its digits; a minus sign after
      white space wraps around. */
  lemma ParseUnsignedIff(text: string, n: uint64)
    ensures ParseUnsigned(text) == Success(n) <==>
      exists spaces, sign, digits :: Unsigned(text, n, spaces, sign, digits)
  {
    if ParseUnsigned(text) == Success(n) {
      var spaces, sign, digits := ScanParts(text);
      assert sign + digits + [] == sign + digits;
      assert Unsigned(text, n, spaces, sign, digits);
    }
    forall spaces, sign, digits | Unsigned(text, n, spaces, sign, digits) ensures ParseUnsigned(text) == Success(n) {
      ScanReads(spaces, sign, digits, []);
      assert sign + digits + [] == sign + digits;
    }
  }

  predicate Unsigned(text: string, n: nat, spaces: string, sign: string, digits: string) {
    && AllSpaces(spaces) && (sign == "" || sign == "+" || sign == "-") && AllDigits(digits) && digits != ""
    && text == spaces + (sign + digits) && text[0] != '-' && NumberOf(digits) < 0x1_0000_0000_0000_0000
    && n == if sign == "-" && NumberOf(digits) > 0 then 0x1_0000_0000_0000_0000 - NumberOf(digits) else NumberOf(digits)
  }

  lemma MinusOneAfterSpace()
    ensures ParseUnsigned([' ', '-', '1']) == Success(TWO_TO_THE_64 - 1)
  {
    var text := [' ', '-', '1'];
    assert text[1..] == ['-', '1'] && ['-', '1'][1..] == ['1'];
    assert SkipSpaces(['-', '1']) == ['-', '1'];
    assert SkipSpaces(text) == ['-', '1'];
    DigitCountAll(['1']);
    assert ['1'][..1] == ['1'] && ['1'][1..] == [] && ['1'][..0] == [];
    assert NumberOf([]) == 0;
    assert NumberOf(['1']) == 1;
  }

  // ---------- Assignments ----------

  /** One option with its value. */
  datatype Assignment =
    | Device(device: string) | Width(width: uint32) | Height(height: uint32)
    | PixelFormat(format: uint32) | Fps(fps: real) | Frames(limit: uint64)
    | Duration(seconds: real) | Timeout(ms: int) | Buffers(count: uint32)
    | SensorMode(mode: Option<int>) | SavePath(path: Option<string>) | SaveAt(at: uint64)
    | ReportInterval(interval: real) | ListOnly(list: bool) | AllowDrops(allow: bool)

  function Key(a: Assignment): (k: nat)
    ensures k < 15
  {
    match a
    case Device(_) => 0 case Width(_) => 1 case Height(_) => 2 case PixelFormat(_) => 3
    case Fps(_) => 4 case Frames(_) => 5 case Duration(_) => 6 case Timeout(_) => 7
    case Buffers(_) => 8 case SensorMode(_) => 9 case SavePath(_) => 10 case SaveAt(_) => 11
    case ReportInterval(_) => 12 case ListOnly(_) => 13 case AllowDrops(_) => 14
  }

  function Apply(o: Options, a: Assignment): Options {
    match a
    case Device(v) => o.(device := v)
    case Width(v) => o.(width := v)
    case Height(v) => o.(height := v)
    case PixelFormat(v) => o.(pixelFormat := v)
    case Fps(v) => o.(fps := v)
    case Frames(v) => o.(frameLimit := v)
    case Duration(v) => o.(durationSeconds := v)
    case Timeout(v) => o.(timeoutMs := v)
    case Buffers(v) => o.(bufferCount := v)
    case SensorMode(v) => o.(sensorMode := v)
    case SavePath(v) => o.(savePath := v)
    case SaveAt(v) => o.(saveAt := v)
    case ReportInterval(v) => o.(reportInterval := v)
    case ListOnly(v) => o.(listOnly := v)
    case AllowDrops(v) => o.(allowDrops := v)
  }

  /** The assignment that leaves option k as it is. */
  function Current(o: Options, k: nat): Assignment
  {
    if k == 0 then Device(o.device) else if k == 1 then Width(o.width)
    else if k == 2 then Height(o.height) else if k == 3 then PixelFormat(o.pixelFormat)
    else if k == 4 then Fps(o.fps) else if k == 5 then Frames(o.frameLimit)
    else if k == 6 then Duration(o.durationSeconds) else if k == 7 then Timeout(o.timeoutMs)
    else if k == 8 then Buffers(o.bufferCount) else if k == 9 then SensorMode(o.sensorMode)
    else if k == 10 then SavePath(o.savePath) else if k == 11 then SaveAt(o.saveAt)
    else if k == 12 then ReportInterval(o.reportInterval) else if k == 13 then ListOnly(o.listOnly)
    else AllowDrops(o.allowDrops)
  }

  // ---------- Reading the command line ----------

  /** The default options: /dev/video0, RG10, 120 frames of 1280x720 at 60 a second. */
  const DEFAULTS := Options("/dev/video0", 1280, 720, Fourcc(0x52, 0x47, 0x31, 0x30), 60.0, 120, 0.0, 2500, 4,
                            Some(4), None, 1, 1.0, false, false)

  predicate IsHelp(argument: string) {
    argument == "--help" || argument == "-h"
  }

  /** The options without a value. */
  function FlagOf(name: string): Option<Assignment> {
    if name == "--list" then Some(ListOnly(true))
    else if name == "--allow-drops" then Some(AllowDrops(true))
    else None
  }

  datatype Kind =
    | DeviceKind | WidthKind | HeightKind | FormatKind | FpsKind | FramesKind | DurationKind | TimeoutKind
    | BuffersKind | ModeKind | SaveKind | SaveAtKind | ReportKind

  /** The options with a value. */
  function TextOf(kind: Kind): string {
    match kind
    case DeviceKind => "--device"
    case WidthKind => "--width"
    case HeightKind => "--height"
    case FormatKind => "--pixel-format"
    case FpsKind => "--fps"
    case FramesKind => "--frames"
    case DurationKind => "--duration"
    case TimeoutKind => "--timeout-ms"
    case BuffersKind => "--buffers"
    case ModeKind => "--sensor-mode"
    case SaveKind => "--save-frame"
    case SaveAtKind => "--save-at"
    case ReportKind => "--report-interval"
  }

  const KINDS := [DeviceKind, WidthKind, HeightKind, FormatKind, FpsKind, FramesKind, DurationKind, TimeoutKind,
                  BuffersKind, ModeKind, SaveKind, SaveAtKind, ReportKind]

  function KindOf(name: string): Option<Kind> {
    Assignments.FirstNamed(TextOf, KINDS, name)
  }

  /** The finite number strtod reads from a whole text, if there is one. */
  type ReadReal = string -> Option<real>

  function ParsePositive(text: string, allowZero: bool, readReal: ReadReal): Result<real, Complaint> {
    match readReal(text)
    case None => Failure(InvalidNumber)
    case Some(x) => if (if allowZero then x >= 0.0 else x > 0.0) then Success(x) else Failure(InvalidNumber)
  }

  function InRange(value: uint64, low: nat, high: nat): Result<nat, Complaint> {
    if low <= value <= high then Success(value) else Failure(OutOfRange)
  }

  /** What one option with its value asks for. */
  function Interpret(kind: Kind, text: string, readReal: ReadReal): Result<Assignment, Complaint> {
    match kind
    case DeviceKind => Success(Device(text))
    case WidthKind => var n :- ParseUnsigned(text); var v :- InRange(n, 1, TWO_TO_THE_32 - 1); Success(Width(v))
    case HeightKind => var n :- ParseUnsigned(text); var v :- InRange(n, 1, TWO_TO_THE_32 - 1); Success(Height(v))
    case FormatKind => var v :- ParseFourcc(text); Success(PixelFormat(v))
    case FpsKind => var v :- ParsePositive(text, false, readReal); Success(Fps(v))
    case FramesKind => var v :- ParseUnsigned(text); Success(Frames(v))
    case DurationKind => var v :- ParsePositive(text, true, readReal); Success(Duration(v))
    case TimeoutKind => var n :- ParseUnsigned(text); var v :- InRange(n, 1, INT_MAX); Success(Timeout(v))
    case BuffersKind => var n :- ParseUnsigned(text); var v :- InRange(n, 2, 32); Success(Buffers(v))
    case ModeKind =>
      if text == "none" then Success(SensorMode(None))
      else var n :- ParseUnsigned(text); var v :- InRange(n, 0, INT64_MAX); Success(SensorMode(Some(v)))
    case SaveKind => Success(SavePath(Some(text)))
    case SaveAtKind => var v :- ParseUnsigned(text); if v == 0 then Failure(SaveAtZero) else Success(SaveAt(v))
    case ReportKind => var v :- ParsePositive(text, false, readReal); Success(ReportInterval(v))
  }

  /** The options after the arguments; none when help was asked for. */
  function Read(args: seq<string>, o: Options, readReal: ReadReal): Result<Option<Options>, Complaint> {
    if args == [] then Success(Some(o))
    else if IsHelp(args[0]) then Success(None)
    else match KindOf(args[0])
      case Some(kind) =>
        if |args| < 2 then Failure(MissingValue)
        else var a :- Interpret(kind, args[1], readReal); Read(args[2..], Apply(o, a), readReal)
      case None =>
        match FlagOf(args[0])
        case Some(a) => Read(args[1..], Apply(o, a), readReal)
        case None => Failure(UnknownOption)
  }

  /** The last check of a command line. */
  function Checked(o: Options): Result<Option<Options>, Complaint> {
    if o.SaveWithinFrames() then Success(Some(o)) else Failure(SaveAtBeyondFrames)
  }

  function CommandLine(args: seq<string>, readReal: ReadReal): Result<Option<Options>, Complaint> {
    var o :- Read(args, DEFAULTS, readReal);
    if o.None? then Success(None) else Checked(o.value)
  }

  /** The program's argument loop; argv[0] is the program's name. */
  method ParseOptions(argv: seq<string>, readReal: ReadReal) returns (r: Result<Option<Options>, Complaint>)
    requires argv != []
    ensures r == CommandLine(argv[1..], readReal)
  {
    var options := DEFAULTS;
    var index := 1;
    while index < |argv|
      invariant 1 <= index <= |argv|
      invariant Read(argv[1..], DEFAULTS, readReal) == Read(argv[index..], options, readReal)
    {
      var argument := argv[index];
      if IsHelp(argument) {
        return Success(None);
      }
      var kind := KindOf(argument);
      if kind.Some? {
        if index + 1 >= |argv| {
          return Failure(MissingValue);
        }
        index := index + 1;
        var assignment := Interpret(kind.value, argv[index], readReal);
        if assignment.Failure? {
          return Failure(assignment.error);
        }
        options := Apply(options, assignment.value);
      } else {
        var flag := FlagOf(argument);
        if flag.None? {
          return Failure(UnknownOption);
        }
        options := Apply(options, flag.value);
      }
      index := index + 1;
    }
    if options.savePath.Some? && options.frameLimit != 0 && options.saveAt > options.frameLimit {
      return Failure(SaveAtBeyondFrames);
    }
    r := Success(Some(options));
  }

  // ---------- The order of options ----------

  /** The first option of some arguments and how many of them it takes; none for help or an error. */
  function FirstOption(args: seq<string>, readReal: ReadReal): (r: Option<(Assignment, nat)>)
    ensures r.Some? ==> 1 <= r.value.1 <= |args|
  {
    if args == [] || IsHelp(args[0]) then None
    else match KindOf(args[0])
      case Some(kind) =>
        if |args| < 2 then None
        else (match Interpret(kind, args[1], readReal) case Success(a) => Some((a, 2)) case Failure(_) => None)
      case None => match FlagOf(args[0]) case Some(a) => Some((a, 1)) case None => None
  }

  lemma ReadFirst(args: seq<string>, o: Options, readReal: ReadReal)
    requires args != []
    ensures var first, r := FirstOption(args, readReal), Read(args, o, readReal);
      if first.Some? then r == Read(args[first.value.1..], Apply(o, first.value.0), readReal)
      else r.Failure? || r.value.None?
  {
  }

  lemma FirstOptionStays(args: seq<string>, more: seq<string>, readReal: ReadReal)
    requires FirstOption(args, readReal).Some?
    ensures FirstOption(args + more, readReal) == FirstOption(args, readReal)
  {
    assert (args + more)[0] == args[0];
    if |args| >= 2 {
      assert (args + more)[1] == args[1];
    }
  }

  lemma NumberInRange(kind: Kind, text: string, readReal: ReadReal, o: Options)
    requires kind.WidthKind? || kind.HeightKind? || kind.FramesKind? || kind.TimeoutKind? || kind.BuffersKind?
    requires o.Valid() && Interpret(kind, text, readReal).Success?
    ensures Apply(o, Interpret(kind, text, readReal).value).Valid()
  {
  }

  lemma RealInRange(kind: Kind, text: string, readReal: ReadReal, o: Options)
    requires kind.FpsKind? || kind.DurationKind? || kind.ReportKind?
    requires o.Valid() && Interpret(kind, text, readReal).Success?
    ensures Apply(o, Interpret(kind, text, readReal).value).Valid()
  {
  }

  lemma PlaceInRange(kind: Kind, text: string, readReal: ReadReal, o: Options)
    requires kind.ModeKind? || kind.SaveAtKind?
    requires o.Valid() && Interpret(kind, text, readReal).Success?
    ensures Apply(o, Interpret(kind, text, readReal).value).Valid()
  {
  }

  lemma TextInRange(kind: Kind, text: string, readReal: ReadReal, o: Options)
    requires kind.DeviceKind? || kind.FormatKind? || kind.SaveKind?
    requires o.Valid() && Interpret(kind, text, readReal).Success?
    ensures Apply(o, Interpret(kind, text, readReal).value).Valid()
  {
  }

  lemma InterpretedInRange(kind: Kind, text: string, readReal: ReadReal, o: Options)
    requires o.Valid() && Interpret(kind, text, readReal).Success?
    ensures Apply(o, Interpret(kind, text, readReal).value).Valid()
  {
    match kind {
      case WidthKind => NumberInRange(kind, text, readReal, o);
      case HeightKind => NumberInRange(kind, text, readReal, o);
      case FramesKind => NumberInRange(kind, text, readReal, o);
      case TimeoutKind => NumberInRange(kind, text, readReal, o);
      case BuffersKind => NumberInRange(kind, text, readReal, o);
      case FpsKind => RealInRange(kind, text, readReal, o);
      case DurationKind => RealInRange(kind, text, readReal, o);
      case ReportKind => RealInRange(kind, text, readReal, o);
      case ModeKind => PlaceInRange(kind, text, readReal, o);
      case SaveAtKind => PlaceInRange(kind, text, readReal, o);
      case DeviceKind => TextInRange(kind, text, readReal, o);
      case FormatKind => TextInRange(kind, text, readReal, o);
      case SaveKind => TextInRange(kind, text, readReal, o);
    }
  }

  lemma FirstInRange(args: seq<string>, o: Options, readReal: ReadReal)
    requires o.Valid() && FirstOption(args, readReal).Some?
    ensures Apply(o, FirstOption(args, readReal).value.0).Valid()
  {
    var kind := KindOf(args[0]);
    if kind.Some? {
      InterpretedInRange(kind.value, args[1], readReal, o);
    }
  }

  lemma {:induction false} ReadKeepsRanges(args: seq<string>, o: Options, readReal: ReadReal)
    requires o.Valid()
    ensures var r := Read(args, o, readReal); r.Success? && r.value.Some? ==> r.value.value.Valid()
    decreases |args|
  {
    if args != [] {
      ReadFirst(args, o, readReal);
      var first := FirstOption(args, readReal);
      if first.Some? {
        FirstInRange(args, o, readReal);
        ReadKeepsRanges(args[first.value.1..], Apply(o, first.value.0), readReal);
      }
    }
  }

  /** Every accepted command line satisfies all range checks. */
  lemma AcceptedIsValid(args: seq<string>, readReal: ReadReal)
    ensures var r := CommandLine(args, readReal);
      r.Success? && r.value.Some? ==> r.value.value.Valid() && r.value.value.SaveWithinFrames()
  {
    ReadKeepsRanges(args, DEFAULTS, readReal);
  }

  /** The options after some assignments. */
  function ApplyAll(o: Options, list: seq<Assignment>): Options {
    Assignments.ApplyAll(Apply, o, list)
  }

  /** One complete option: the words it is typed as, and what they ask for. */
  datatype Group = Group(words: seq<string>, assignment: Assignment)

  ghost predicate Complete(g: Group, readReal: ReadReal) {
    FirstOption(g.words, readReal) == Some((g.assignment, |g.words|))
  }

  ghost predicate AllComplete(groups: seq<Group>, readReal: ReadReal) {
    forall i :: 0 <= i < |groups| ==> Complete(groups[i], readReal)
  }

  function Words(groups: seq<Group>): seq<string> {
    if groups == [] then [] else groups[0].words + Words(groups[1..])
  }

  function Values(groups: seq<Group>): (list: seq<Assignment>)
    ensures |list| == |groups| && forall i :: 0 <= i < |groups| ==> list[i] == groups[i].assignment
  {
    seq(|groups|, i requires 0 <= i < |groups| => groups[i].assignment)
  }

  lemma ReadGroup(g: Group, rest: seq<string>, o: Options, readReal: ReadReal)
    requires Complete(g, readReal)
    ensures Read(g.words + rest, o, readReal) == Read(rest, Apply(o, g.assignment), readReal)
  {
    FirstOptionStays(g.words, rest, readReal);
    ReadFirst(g.words + rest, o, readReal);
    assert (g.words + rest)[|g.words|..] == rest;
  }

  lemma {:induction false} ReadGroups(groups: seq<Group>, o: Options, readReal: ReadReal)
    requires AllComplete(groups, readReal)
    ensures Read(Words(groups), o, readReal) == Success(Some(ApplyAll(o, Values(groups))))
    decreases |groups|
  {
    if groups != [] {
      assert Complete(groups[0], readReal);
      ReadGroup(groups[0], Words(groups[1..]), o, readReal);
      ReadGroups(groups[1..], Apply(o, groups[0].assignment), readReal);
      assert Values(groups)[1..] == Values(groups[1..]);
    }
  }

  /** Every accepted help-free command line is a list of complete options. */
  lemma {:induction false} AcceptedIsGroups(args: seq<string>, o: Options, readReal: ReadReal)
    returns (groups: seq<Group>)
    requires Read(args, o, readReal).Success? && Read(args, o, readReal).value.Some?
    ensures AllComplete(groups, readReal) && Words(groups) == args
    decreases |args|
  {
    if args == [] {
      groups := [];
    } else {
      ReadFirst(args, o, readReal);
      var (a, width) := FirstOption(args, readReal).value;
      var rest := AcceptedIsGroups(args[width..], Apply(o, a), readReal);
      FirstOptionAlone(args, readReal);
      var first := Group(args[..width], a);
      groups := [first] + rest;
      assert groups[1..] == rest;
      assert args == args[..width] + args[width..];
    }
  }

  lemma FirstOptionAlone(args: seq<string>, readReal: ReadReal)
    requires FirstOption(args, readReal).Some?
    ensures var (a, width) := FirstOption(args, readReal).value;
      FirstOption(args[..width], readReal) == Some((a, width))
  {
  }

  /** The last assignment to option k. */
  function LastOf(list: seq<Assignment>, k: nat): Option<Assignment> {
    Assignments.LastOf(Key, list, k)
  }

  lemma ApplySets(o: Options, a: Assignment, k: nat)
    requires k < 15
    ensures Current(Apply(o, a), k) == if Key(a) == k then a else Current(o, k)
  {
  }

  lemma SameEverywhere(o: Options, p: Options)
    requires forall k: nat :: k < 15 ==> Current(o, k) == Current(p, k)
    ensures o == p
  {
    assert Current(o, 0) == Current(p, 0) && Current(o, 1) == Current(p, 1) && Current(o, 2) == Current(p, 2);
    assert Current(o, 3) == Current(p, 3) && Current(o, 4) == Current(p, 4) && Current(o, 5) == Current(p, 5);
    assert Current(o, 6) == Current(p, 6) && Current(o, 7) == Current(p, 7) && Current(o, 8) == Current(p, 8);
    assert Current(o, 9) == Current(p, 9) && Current(o, 10) == Current(p, 10) && Current(o, 11) == Current(p, 11);
    assert Current(o, 12) == Current(p, 12) && Current(o, 13) == Current(p, 13) && Current(o, 14) == Current(p, 14);
  }

  lemma OptionsAssign()
    ensures Assignments.SetsOne(Apply, Key, Current, 15) && Assignments.Determines(Current, 15)
  {
    forall o: Options, a: Assignment, k: nat | k < 15
      ensures Current(Apply(o, a), k) == if Key(a) == k then a else Current(o, k)
    {
      ApplySets(o, a, k);
    }
    forall o: Options, p: Options | Assignments.Agree(Current, 15, o, p) ensures o == p {
      SameEverywhere(o, p);
    }
  }

  lemma LastWins(o: Options, list: seq<Assignment>, k: nat)
    requires k < 15
    ensures Current(ApplyAll(o, list), k) ==
      match LastOf(list, k) case Some(a) => a case None => Current(o, k)
  {
    OptionsAssign();
    Assignments.LastWins(Apply, Key, Current, 15, o, list, k);
  }

  lemma SameLast(o: Options, list: seq<Assignment>, other: seq<Assignment>)
    requires forall k: nat :: k < 15 ==> LastOf(list, k) == LastOf(other, k)
    ensures ApplyAll(o, list) == ApplyAll(o, other)
  {
    OptionsAssign();
    forall k: nat | k < 15 ensures Assignments.LastOf(Key, list, k) == Assignments.LastOf(Key, other, k) {
      assert LastOf(list, k) == LastOf(other, k);
    }
    Assignments.OnlyLastMatter(Apply, Key, Current, 15, o, list, other);
  }

  /** Two help-free valid command lines that agree on the last value of every option mean the
      same: options with different keys may be swapped, and of equal keys the last one counts. */
  lemma OnlyLastValuesMatter(groups: seq<Group>, others: seq<Group>, readReal: ReadReal)
    requires AllComplete(groups, readReal) && AllComplete(others, readReal)
    requires forall k: nat :: k < 15 ==> LastOf(Values(groups), k) == LastOf(Values(others), k)
    ensures CommandLine(Words(groups), readReal) == CommandLine(Words(others), readReal)
  {
    ReadGroups(groups, DEFAULTS, readReal);
    ReadGroups(others, DEFAULTS, readReal);
    SameLast(DEFAULTS, Values(groups), Values(others));
  }

  lemma ValuesAround(before: seq<Group>, g: Group, h: Group, after: seq<Group>)
    ensures Values(before + [g, h] + after) == Values(before) + [g.assignment, h.assignment] + Values(after)
  {
  }

  /** Adjacent options with different keys may be swapped anywhere in a command line. */
  lemma SwapKeepsMeaning(before: seq<Group>, g: Group, h: Group, after: seq<Group>, readReal: ReadReal)
    requires AllComplete(before, readReal) && AllComplete(after, readReal)
    requires Complete(g, readReal) && Complete(h, readReal) && Key(g.assignment) != Key(h.assignment)
    ensures CommandLine(Words(before + [g, h] + after), readReal)
         == CommandLine(Words(before + [h, g] + after), readReal)
  {
    forall k: nat | k < 15
      ensures LastOf(Values(before + [g, h] + after), k) == LastOf(Values(before + [h, g] + after), k)
    {
      ValuesAround(before, g, h, after);
      ValuesAround(before, h, g, after);
      Assignments.SwapKeepsLast(Key, Values(before), g.assignment, h.assignment, Values(after), k);
    }
    OnlyLastValuesMatter(before + [g, h] + after, before + [h, g] + after, readReal);
  }
}
