/** Options written as a command line: every set of options the program can run with can be asked
    for, and reading gives it back. */
module CommandText {
  import opened MachineTypes
  import opened KernelInterface
  import opened Text
  import opened CaptureOptions
  import Assignments

  /** A way to write real numbers. */
  type ShowReal = real -> string

  /** What is written for the real number of an assignment, if it has one, is read as that number. */
  predicate Shown(a: Assignment, show: ShowReal, readReal: ReadReal) {
    match a
    case Fps(x) => readReal(show(x)) == Some(x)
    case Duration(x) => readReal(show(x)) == Some(x)
    case ReportInterval(x) => readReal(show(x)) == Some(x)
    case _ => true
  }

  ghost predicate AllShown(o: Options, show: ShowReal, readReal: ReadReal) {
    forall k: nat :: k < 15 ==> Shown(Current(o, k), show, readReal)
  }

  // ---------- Names ----------

  lemma TextsDiffer(a: Kind, b: Kind)
    requires |TextOf(a)| == |TextOf(b)| && TextOf(a)[2] == TextOf(b)[2]
    ensures a == b
  {
  }

  lemma TextOfLong(kind: Kind)
    ensures |TextOf(kind)| > 2 && !IsHelp(TextOf(kind))
  {
    assert kind.HeightKind? || TextOf(kind)[2] != 'h';
  }

  lemma KindOfText(k: nat)
    requires k < 13
    ensures KindOf(TextOf(KINDS[k])) == Some(KINDS[k])
  {
    forall a: Kind, b: Kind | TextOf(a) == TextOf(b) ensures a == b {
      TextOfLong(a);
      TextsDiffer(a, b);
    }
    Assignments.FindsName(TextOf, KINDS, k);
  }

  // ---------- Values ----------

  /** The four characters of a pixel format. */
  function FourccText(v: uint32): (text: string)
    ensures |text| == 4
  {
    [(v % 256) as char, (v / 0x100 % 256) as char, (v / 0x1_0000 % 256) as char, (v / 0x100_0000 % 256) as char]
  }

  lemma FourBytes(v: uint32) returns (a: byte, b: byte, c: byte, d: byte)
    ensures v == Fourcc(a, b, c, d)
  {
    var v1 := v / 256;
    var v2 := v1 / 256;
    a, b, c, d := v % 256, v1 % 256, v2 % 256, v2 / 256;
  }

  lemma ByteOfChar(b: byte)
    ensures ByteOf(b as char) == b
  {
  }

  lemma CharsRead(text: string, a: byte, b: byte, c: byte, d: byte)
    requires |text| == 4 && ByteOf(text[0]) == a && ByteOf(text[1]) == b && ByteOf(text[2]) == c && ByteOf(text[3]) == d
    ensures ParseFourcc(text) == Success(Fourcc(a, b, c, d))
  {
  }

  /** Any 32-bit pixel format can be typed. */
  lemma FourccReads(v: uint32)
    ensures ParseFourcc(FourccText(v)) == Success(v)
  {
    var a, b, c, d := FourBytes(v);
    FourccBytes(a, b, c, d);
    ByteOfChar(a);
    ByteOfChar(b);
    ByteOfChar(c);
    ByteOfChar(d);
    CharsRead(FourccText(v), a, b, c, d);
  }

  /** An assignment that can come from an option with a value. */
  predicate Sayable(a: Assignment) {
    match a
    case Device(_) => true
    case Width(v) => v > 0
    case Height(v) => v > 0
    case PixelFormat(_) => true
    case Fps(v) => v > 0.0
    case Frames(_) => true
    case Duration(v) => v >= 0.0
    case Timeout(v) => 0 < v <= INT_MAX
    case Buffers(v) => 2 <= v <= 32
    case SensorMode(v) => v.Some? ==> 0 <= v.value <= INT64_MAX
    case SavePath(v) => v.Some?
    case SaveAt(v) => v > 0
    case ReportInterval(v) => v > 0.0
    case ListOnly(_) => false
    case AllowDrops(_) => false
  }

  function ValueText(a: Assignment, show: ShowReal): string
    requires Sayable(a)
  {
    match a
    case Device(v) => v
    case Width(v) => Decimal(v)
    case Height(v) => Decimal(v)
    case PixelFormat(v) => FourccText(v)
    case Fps(v) => show(v)
    case Frames(v) => Decimal(v)
    case Duration(v) => show(v)
    case Timeout(v) => Decimal(v)
    case Buffers(v) => Decimal(v)
    case SensorMode(v) => if v.None? then "none" else Decimal(v.value)
    case SavePath(v) => v.value
    case SaveAt(v) => Decimal(v)
    case ReportInterval(v) => show(v)
  }

  lemma NumberReads(n: uint64)
    ensures ParseUnsigned(Decimal(n)) == Success(n)
    ensures Decimal(n) != "none"
  {
    ParseUnsignedInvertsDecimal(n);
    assert IsDigit(Decimal(n)[0]) && !IsDigit("none"[0]);
  }

  ghost predicate ReadsBack(a: Assignment, show: ShowReal, readReal: ReadReal)
    requires Sayable(a) && Key(a) < 13
  {
    Interpret(KINDS[Key(a)], ValueText(a, show), readReal) == Success(a)
  }

  lemma SizeReads(a: Assignment, show: ShowReal, readReal: ReadReal)
    requires Sayable(a) && (a.Width? || a.Height?)
    ensures ReadsBack(a, show, readReal)
  {
    match a {
      case Width(v) => NumberReads(v);
      case Height(v) => NumberReads(v);
    }
  }

  lemma FormatReads(a: Assignment, show: ShowReal, readReal: ReadReal)
    requires a.PixelFormat?
    ensures ReadsBack(a, show, readReal)
  {
    FourccReads(a.format);
  }

  lemma LimitReads(a: Assignment, show: ShowReal, readReal: ReadReal)
    requires Sayable(a) && (a.Frames? || a.Timeout? || a.Buffers?)
    ensures ReadsBack(a, show, readReal)
  {
    match a {
      case Frames(v) => NumberReads(v);
      case Timeout(v) => NumberReads(v);
      case Buffers(v) => NumberReads(v);
    }
  }

  lemma PlaceReads(a: Assignment, show: ShowReal, readReal: ReadReal)
    requires Sayable(a) && a.SaveAt?
    ensures ReadsBack(a, show, readReal)
  {
    NumberReads(a.at);
  }

  lemma ModeReads(a: Assignment, show: ShowReal, readReal: ReadReal)
    requires Sayable(a) && a.SensorMode?
    ensures ReadsBack(a, show, readReal)
  {
    if a.mode.Some? {
      NumberReads(a.mode.value);
    }
  }

  lemma RealReads(a: Assignment, show: ShowReal, readReal: ReadReal)
    requires Sayable(a) && Shown(a, show, readReal) && (a.Fps? || a.Duration? || a.ReportInterval?)
    ensures ReadsBack(a, show, readReal)
  {
  }

  /** Every assignment is read back from its own text, under its own option. */
  lemma AssignmentReads(a: Assignment, show: ShowReal, readReal: ReadReal)
    requires Sayable(a) && Shown(a, show, readReal)
    ensures Key(a) < 13 && ReadsBack(a, show, readReal)
  {
    match a {
      case Width(_) => SizeReads(a, show, readReal);
      case Height(_) => SizeReads(a, show, readReal);
      case PixelFormat(_) => FormatReads(a, show, readReal);
      case Frames(_) => LimitReads(a, show, readReal);
      case Timeout(_) => LimitReads(a, show, readReal);
      case Buffers(_) => LimitReads(a, show, readReal);
      case SaveAt(_) => PlaceReads(a, show, readReal);
      case SensorMode(_) => ModeReads(a, show, readReal);
      case Fps(_) => RealReads(a, show, readReal);
      case Duration(_) => RealReads(a, show, readReal);
      case ReportInterval(_) => RealReads(a, show, readReal);
      case Device(_) =>
      case SavePath(_) =>
    }
  }

  // ---------- Command lines ----------

  /** The option that sets key k as in o; none if it is as if never set. */
  function GroupOf(o: Options, k: nat, show: ShowReal): seq<Group>
    requires k < 15
  {
    var a := Current(o, k);
    if k == 13 then if o.listOnly then [Group(["--list"], a)] else []
    else if k == 14 then if o.allowDrops then [Group(["--allow-drops"], a)] else []
    else if Sayable(a) then [Group([TextOf(KINDS[k]), ValueText(a, show)], a)]
    else []
  }

  function GroupsFrom(o: Options, k: nat, show: ShowReal): seq<Group>
    requires k <= 15
    decreases 15 - k
  {
    if k == 15 then [] else GroupOf(o, k, show) + GroupsFrom(o, k + 1, show)
  }

  /** A command line that asks for these options. */
  function Line(o: Options, show: ShowReal): seq<string> {
    Words(GroupsFrom(o, 0, show))
  }

  lemma CurrentKey(o: Options, k: nat)
    requires k < 15
    ensures Key(Current(o, k)) == k
  {
  }

  lemma CurrentSayable(o: Options, k: nat)
    requires o.Valid() && k < 13 && (k == 10 ==> o.savePath.Some?)
    ensures Sayable(Current(o, k))
  {
  }

  lemma PairRead(words: seq<string>, kind: Kind, a: Assignment, readReal: ReadReal)
    requires |words| == 2 && !IsHelp(words[0]) && KindOf(words[0]) == Some(kind)
    requires Interpret(kind, words[1], readReal) == Success(a)
    ensures Complete(Group(words, a), readReal)
  {
  }

  lemma WordRead(word: string, a: Assignment, readReal: ReadReal)
    requires !IsHelp(word) && KindOf(word) == None && FlagOf(word) == Some(a)
    ensures Complete(Group([word], a), readReal)
  {
  }

  lemma ListRead(readReal: ReadReal)
    ensures Complete(Group(["--list"], ListOnly(true)), readReal)
  {
    var word := "--list";
    assert |word| == 6;
    forall kind: Kind ensures TextOf(kind) != word {
    }
    Assignments.NoneNamed(TextOf, KINDS, word);
    assert word != "--help" by { assert word[2] == 'l'; }
    WordRead(word, ListOnly(true), readReal);
  }

  lemma AllowRead(readReal: ReadReal)
    ensures Complete(Group(["--allow-drops"], AllowDrops(true)), readReal)
  {
    var word := "--allow-drops";
    assert |word| == 13 && word[2] == 'a';
    forall kind: Kind ensures TextOf(kind) != word {
    }
    Assignments.NoneNamed(TextOf, KINDS, word);
    WordRead(word, AllowDrops(true), readReal);
  }

  lemma GroupComplete(o: Options, k: nat, show: ShowReal, readReal: ReadReal)
    requires k < 15 && Shown(Current(o, k), show, readReal)
    ensures AllComplete(GroupOf(o, k, show), readReal)
  {
    var a := Current(o, k);
    if k >= 13 {
      ListRead(readReal);
      AllowRead(readReal);
    } else if Sayable(a) {
      CurrentKey(o, k);
      AssignmentReads(a, show, readReal);
      TextOfLong(KINDS[k]);
      KindOfText(k);
      PairRead([TextOf(KINDS[k]), ValueText(a, show)], KINDS[k], a, readReal);
    }
  }

  lemma {:induction false} GroupsComplete(o: Options, k: nat, show: ShowReal, readReal: ReadReal)
    requires k <= 15 && AllShown(o, show, readReal)
    ensures AllComplete(GroupsFrom(o, k, show), readReal)
    decreases 15 - k
  {
    if k < 15 {
      GroupComplete(o, k, show, readReal);
      GroupsComplete(o, k + 1, show, readReal);
    }
  }

  lemma GroupSets(o: Options, k: nat, show: ShowReal)
    requires k < 15
    ensures GroupOf(o, k, show) == [] || Values(GroupOf(o, k, show)) == [Current(o, k)]
  {
  }

  /** The keys from k on that no option sets are as in o already. */
  ghost predicate RestUnset(base: Options, o: Options, k: nat, show: ShowReal) {
    forall j: nat :: k <= j < 15 && GroupOf(o, j, show) == [] ==> Current(base, j) == Current(o, j)
  }

  lemma DefaultsUnset(o: Options, show: ShowReal)
    requires o.Valid()
    ensures RestUnset(DEFAULTS, o, 0, show)
  {
    forall j: nat | j < 15 && GroupOf(o, j, show) == [] ensures Current(DEFAULTS, j) == Current(o, j) {
      if j < 13 && (j == 10 ==> o.savePath.Some?) {
        CurrentSayable(o, j);
      }
    }
  }

  /** The options after the option for key k, if there is one. */
  ghost function After(base: Options, o: Options, k: nat, show: ShowReal): Options
    requires k < 15
  {
    if GroupOf(o, k, show) == [] then base else Apply(base, Current(o, k))
  }

  ghost function Result(base: Options, o: Options, k: nat, show: ShowReal): Options
    requires k <= 15
  {
    ApplyAll(base, Values(GroupsFrom(o, k, show)))
  }

  lemma ResultStep(base: Options, o: Options, k: nat, show: ShowReal)
    requires k < 15
    ensures Result(base, o, k, show) == Result(After(base, o, k, show), o, k + 1, show)
  {
    GroupSets(o, k, show);
    ValuesStep(o, k, show);
    var rest := Values(GroupsFrom(o, k + 1, show));
    ApplyFirst(base, Current(o, k), rest);
    assert [] + rest == rest;
  }

  lemma ValuesStep(o: Options, k: nat, show: ShowReal)
    requires k < 15
    ensures Values(GroupsFrom(o, k, show)) == Values(GroupOf(o, k, show)) + Values(GroupsFrom(o, k + 1, show))
  {
  }

  lemma ApplyFirst(base: Options, a: Assignment, rest: seq<Assignment>)
    ensures ApplyAll(base, [a] + rest) == ApplyAll(Apply(base, a), rest)
  {
    assert ([a] + rest)[1..] == rest;
  }

  lemma {:induction false} GroupsSetAll(base: Options, o: Options, k: nat, j: nat, show: ShowReal)
    requires k <= 15 && j < 15 && RestUnset(base, o, k, show)
    ensures Current(Result(base, o, k, show), j) == if j >= k then Current(o, j) else Current(base, j)
    decreases 15 - k
  {
    if k < 15 {
      ResultStep(base, o, k, show);
      AfterSets(base, o, k, j, show);
      GroupsSetAll(After(base, o, k, show), o, k + 1, j, show);
    }
  }

  lemma AfterSets(base: Options, o: Options, k: nat, j: nat, show: ShowReal)
    requires k < 15 && j < 15 && RestUnset(base, o, k, show)
    ensures RestUnset(After(base, o, k, show), o, k + 1, show)
    ensures Current(After(base, o, k, show), j) == if j == k then Current(o, j) else Current(base, j)
  {
    OneSet(base, o, k, show);
    CurrentKey(o, k);
    ApplySets(base, Current(o, k), j);
  }

  lemma OneSet(base: Options, o: Options, k: nat, show: ShowReal)
    requires k < 15 && RestUnset(base, o, k, show)
    ensures RestUnset(Apply(base, Current(o, k)), o, k + 1, show)
  {
    CurrentKey(o, k);
    forall j: nat | k + 1 <= j < 15 && GroupOf(o, j, show) == []
      ensures Current(Apply(base, Current(o, k)), j) == Current(o, j)
    {
      ApplySets(base, Current(o, k), j);
    }
  }

  /** Reading inverts writing: the program can be asked for exactly the options its checks allow. */
  lemma ReadInvertsLine(o: Options, show: ShowReal, readReal: ReadReal)
    requires o.Valid() && o.SaveWithinFrames() && AllShown(o, show, readReal)
    ensures CommandLine(Line(o, show), readReal) == Success(Some(o))
  {
    var groups := GroupsFrom(o, 0, show);
    GroupsComplete(o, 0, show, readReal);
    ReadGroups(groups, DEFAULTS, readReal);
    DefaultsUnset(o, show);
    var p := ApplyAll(DEFAULTS, Values(groups));
    forall k: nat | k < 15 ensures Current(p, k) == Current(o, k) {
      GroupsSetAll(DEFAULTS, o, 0, k, show);
    }
    SameEverywhere(p, o);
  }

  /** The converse is AcceptedIsValid: a set of options, with numbers that can be written, can be
      asked for if and only if it is in range. */
  lemma AskableIff(o: Options, show: ShowReal, readReal: ReadReal)
    requires AllShown(o, show, readReal)
    ensures (exists args: seq<string> :: CommandLine(args, readReal) == Success(Some(o)))
       <==> o.Valid() && o.SaveWithinFrames()
  {
    if o.Valid() && o.SaveWithinFrames() {
      ReadInvertsLine(o, show, readReal);
    } else {
      forall args: seq<string> ensures CommandLine(args, readReal) != Success(Some(o)) {
        AcceptedIsValid(args, readReal);
      }
    }
  }
}
