/** The command line of jetcamd, and how files and --set assignments combine. */
module Daemon {
  import opened MachineTypes
  import opened Text
  import opened DaemonConfig
  import Assignments

  /** What the arguments ask for. */
  datatype Command = Help | Serve(config: Config, printPipeline: bool)

  /** The contents of the files that can be opened. */
  type Files = map<string, string>

  function Content(files: Files, path: string): Option<string> {
    if path in files then Some(files[path]) else None
  }

  datatype Word = ConfigWord | SetWord | PrintWord | HelpWord | OtherWord

  function WordOf(argument: string): Word {
    if argument == "--config" then ConfigWord
    else if argument == "--set" then SetWord
    else if argument == "--print-pipeline" then PrintWord
    else if argument == "--help" then HelpWord
    else OtherWord
  }

  /** One --set argument. */
  function SetAssignment(c: Config, assignment: string): Result<Config, ConfigError> {
    var separator := Find(assignment, '=');
    if separator == |assignment| then Failure(NoSeparator)
    else Assign(c, assignment[..separator], assignment[separator + 1..])
  }

  /** The command after the arguments, read from a configuration. */
  function Arguments(args: seq<string>, files: Files, c: Config, printPipeline: bool): Result<Command, ConfigError>
    decreases |args|
  {
    if args == [] then
      var valid :- Validate(c);
      Success(Serve(valid, printPipeline))
    else if WordOf(args[0]) == ConfigWord && |args| > 1 then
      var loaded :- Load(Content(files, args[1]));
      Arguments(args[2..], files, loaded, printPipeline)
    else if WordOf(args[0]) == SetWord && |args| > 1 then
      var updated :- SetAssignment(c, args[1]);
      Arguments(args[2..], files, updated, printPipeline)
    else if WordOf(args[0]) == PrintWord then Arguments(args[1..], files, c, true)
    else if WordOf(args[0]) == HelpWord then Success(Help)
    else Failure(BadArgument)
  }

  lemma Suffixes(argv: seq<string>, index: nat)
    requires index < |argv|
    ensures var rest := argv[index..];
      rest[0] == argv[index] && rest[1..] == argv[index + 1..] && (|rest| > 1 ==> rest[2..] == argv[index + 2..])
  {
  }

  lemma SetStep(args: seq<string>, files: Files, c: Config, printPipeline: bool)
    requires |args| > 1 && WordOf(args[0]) == SetWord
    ensures var updated := SetAssignment(c, args[1]);
      Arguments(args, files, c, printPipeline) ==
        if updated.Failure? then Failure(updated.error)
        else Arguments(args[2..], files, updated.value, printPipeline)
  {
  }

  lemma ConfigStep(args: seq<string>, files: Files, c: Config, printPipeline: bool)
    requires |args| > 1 && WordOf(args[0]) == ConfigWord
    ensures var loaded := Load(Content(files, args[1]));
      Arguments(args, files, c, printPipeline) ==
        if loaded.Failure? then Failure(loaded.error)
        else Arguments(args[2..], files, loaded.value, printPipeline)
  {
  }

  /** The argument after --set. */
  method SetArgument(cell: ConfigCell, assignment: string) returns (error: Option<ConfigError>)
    modifies cell
    ensures match SetAssignment(old(cell.config), assignment)
      case Success(c) => error == None && cell.config == c
      case Failure(e) => error == Some(e) && cell.config == old(cell.config)
  {
    var separator := Find(assignment, '=');
    if separator == |assignment| {
      return Some(NoSeparator);
    }
    error := cell.ApplyAssignment(assignment[..separator], assignment[separator + 1..]);
  }

  /** The argument loop of the program; argv[0] is the program's name. */
  method ReadArguments(argv: seq<string>, files: Files) returns (r: Result<Command, ConfigError>)
    requires argv != []
    ensures r == Arguments(argv[1..], files, DEFAULTS, false)
  {
    var cell := new ConfigCell();
    var printPipeline, index := false, 1;
    ghost var rest := argv[1..];
    ghost var whole := Arguments(rest, files, DEFAULTS, false);
    while index < |argv|
      invariant 1 <= index <= |argv| && fresh(cell) && rest == argv[index..]
      invariant whole == Arguments(rest, files, cell.config, printPipeline)
      decreases |argv| - index
    {
      Suffixes(argv, index);
      var word := WordOf(argv[index]);
      if word == ConfigWord && index + 1 < |argv| {
        ConfigStep(rest, files, cell.config, printPipeline);
        var loaded := LoadConfig(Content(files, argv[index + 1]));
        if loaded.Failure? {
          return Failure(loaded.error);
        }
        cell.config := loaded.value;
        rest, index := rest[2..], index + 2;
      } else if word == SetWord && index + 1 < |argv| {
        SetStep(rest, files, cell.config, printPipeline);
        var error := SetArgument(cell, argv[index + 1]);
        if error.Some? {
          return Failure(error.value);
        }
        rest, index := rest[2..], index + 2;
      } else if word == PrintWord {
        printPipeline := true;
        rest, index := rest[1..], index + 1;
      } else if word == HelpWord {
        return Success(Help);
      } else {
        return Failure(BadArgument);
      }
    }
    var valid := Validate(cell.config);
    if valid.Failure? {
      return Failure(valid.error);
    }
    r := Success(Serve(cell.config, printPipeline));
  }

  // ---------- Lines and --set arguments ----------

  /** A text that is an assignment both as a line and as an argument: it has a separator, no
      newline, and is not a comment. */
  predicate AssignmentText(s: string) {
    Find(s, '=') < |s| && NoNewline(s) && (Trim(s) == [] || Trim(s)[0] != '#')
  }

  lemma PaddedAt(s: string, a: string, t: string, b: string, i: nat)
    requires s == a + t + b && i < |s|
    ensures s[i] == if i < |a| then a[i] else if i < |a| + |t| then t[i - |a|] else b[i - |a| - |t|]
  {
  }

  /** Spaces around a text move its separator, and hold none. */
  lemma SeparatorInside(s: string, a: string, t: string, b: string, i: nat)
    requires AllSpaces(a) && AllSpaces(b) && s == a + t + b && i < |s| && s[i] == '='
    ensures |a| <= i < |a| + |t| && t[i - |a|] == '='
  {
    PaddedAt(s, a, t, b, i);
  }

  ghost predicate FirstAt(s: string, c: char, n: nat) {
    n < |s| && s[n] == c && forall i :: 0 <= i < n ==> s[i] != c
  }

  lemma SeparatorStays(s: string, a: string, t: string, b: string, i: nat)
    requires AllSpaces(a) && AllSpaces(b) && s == a + t + b && FirstAt(s, '=', i)
    ensures i >= |a| && FirstAt(t, '=', i - |a|)
  {
    SeparatorInside(s, a, t, b, i);
    forall k | 0 <= k < i - |a| ensures t[k] != '=' {
      PaddedAt(s, a, t, b, |a| + k);
    }
  }

  lemma FindIsFirst(s: string, c: char)
    requires Find(s, c) < |s|
    ensures FirstAt(s, c, Find(s, c))
  {
  }

  lemma FindFirst(s: string, c: char, n: nat)
    requires FirstAt(s, c, n)
    ensures Find(s, c) == n
  {
    FindUnique(s, c, n);
  }

  lemma PiecesOfPadded(s: string, a: string, t: string, b: string, i: nat, j: nat)
    requires s == a + t + b && j < |t| && i == |a| + j
    ensures s[..i] == a + t[..j] && s[i + 1..] == t[j + 1..] + b
  {
  }

  lemma PiecesKeepTrim(s: string, a: string, t: string, b: string, i: nat, j: nat)
    requires AllSpaces(a) && AllSpaces(b) && s == a + t + b && j < |t| && i == |a| + j
    ensures Trim(s[..i]) == Trim(t[..j]) && Trim(s[i + 1..]) == Trim(t[j + 1..])
  {
    PiecesOfPadded(s, a, t, b, i, j);
    TrimPadding(a, t[..j], t[j + 1..], b);
  }

  lemma TrimPadding(a: string, key: string, value: string, b: string)
    requires AllSpaces(a) && AllSpaces(b)
    ensures Trim(a + key) == Trim(key) && Trim(value + b) == Trim(value)
  {
    assert a + key + [] == a + key && [] + value + b == value + b;
    TrimIgnoresPadding(a, key, []);
    TrimIgnoresPadding([], value, b);
  }

  lemma TrimPieces(s: string, i: nat) returns (j: nat)
    requires FirstAt(s, '=', i)
    ensures var t := Trim(s);
      FirstAt(t, '=', j) && Trim(s[..i]) == Trim(t[..j]) && Trim(s[i + 1..]) == Trim(t[j + 1..])
  {
    var a, b := TrimSplits(s);
    SeparatorStays(s, a, Trim(s), b, i);
    j := i - |a|;
    PiecesKeepTrim(s, a, Trim(s), b, i, j);
  }

  /** Trimming a line before it is split at its separator changes neither key nor value. */
  lemma TrimThenSplit(s: string)
    requires Find(s, '=') < |s|
    ensures var t := Trim(s); var i, j := Find(s, '='), Find(t, '=');
      j < |t| && Trim(s[..i]) == Trim(t[..j]) && Trim(s[i + 1..]) == Trim(t[j + 1..])
  {
    FindIsFirst(s, '=');
    var j := TrimPieces(s, Find(s, '='));
    FindFirst(Trim(s), '=', j);
  }

  lemma LineIsSet(c: Config, s: string)
    requires AssignmentText(s)
    ensures ApplyLine(c, s) == SetAssignment(c, s)
  {
    var i, t := Find(s, '='), Trim(s);
    TrimThenSplit(s);
    var j := Find(t, '=');
    assert t != [] && t[0] != '#';
    SamePieces(c, s[..i], s[i + 1..], t[..j], t[j + 1..]);
  }

  lemma SamePieces(c: Config, rawKey: string, rawValue: string, key: string, value: string)
    requires Trim(rawKey) == Trim(key) && Trim(rawValue) == Trim(value)
    ensures Assign(c, rawKey, rawValue) == Assign(c, key, value)
  {
  }

  /** An error without the number of its line. */
  function Bare(e: ConfigError): ConfigError {
    if e.InLine? then e.error else e
  }

  /** Two results agree, except that the first may say in which line its error was. */
  predicate Agree<T(==)>(a: Result<T, ConfigError>, b: Result<T, ConfigError>) {
    if a.Success? then a == b else b.Failure? && Bare(a.error) == b.error
  }

  lemma {:induction false} LinesThenLines(c: Config, a: seq<string>, b: seq<string>, number: nat)
    ensures ApplyLines(c, a + b, number) ==
      match ApplyLines(c, a, number)
      case Failure(e) => Failure(e)
      case Success(d) => ApplyLines(d, b, number + |a|)
    decreases |a|
  {
    if a == [] {
      assert a + b == b;
    } else {
      assert (a + b)[0] == a[0] && (a + b)[1..] == a[1..] + b;
      var first := ApplyLine(c, a[0]);
      if first.Success? {
        LinesThenLines(first.value, a[1..], b, number + 1);
      }
    }
  }

  /** The arguments --set s for each of the texts. */
  function Sets(texts: seq<string>): seq<string> {
    if texts == [] then [] else ["--set", texts[0]] + Sets(texts[1..])
  }

  lemma {:induction false} SetsAreLines(c: Config, texts: seq<string>, files: Files, printing: bool, number: nat)
    requires forall i :: 0 <= i < |texts| ==> AssignmentText(texts[i])
    ensures var r := Arguments(Sets(texts), files, c, printing);
      match ApplyLines(c, texts, number)
      case Failure(e) => r == Failure(Bare(e))
      case Success(d) => r == Arguments([], files, d, printing)
    decreases |texts|
  {
    if texts != [] {
      LineIsSet(c, texts[0]);
      assert Sets(texts)[0] == "--set" && Sets(texts)[1] == texts[0] && Sets(texts)[2..] == Sets(texts[1..]);
      assert WordOf("--set") == SetWord;
      var first := ApplyLine(c, texts[0]);
      if first.Success? {
        SetsAreLines(first.value, texts[1..], files, printing, number + 1);
      }
    }
  }

  lemma {:induction false} LinesOfUnlines(texts: seq<string>)
    requires NoNewlines(texts)
    ensures Lines(Unlines(texts, ['\n'])) == texts
    decreases |texts|
  {
    if texts != [] {
      LinesOfUnlines(texts[1..]);
      LinesOfLine(texts[0], Unlines(texts[1..], ['\n']));
      assert texts == [texts[0]] + texts[1..];
    }
  }

  /** The command to serve a loaded configuration. */
  function Serving(loaded: Result<Config, ConfigError>): Result<Command, ConfigError> {
    match loaded case Success(c) => Success(Serve(c, false)) case Failure(e) => Failure(e)
  }

  function Validated(r: Result<Config, ConfigError>): Result<Config, ConfigError> {
    match r case Success(c) => Validate(c) case Failure(e) => Failure(e)
  }

  lemma LinesOfAppended(file: string, texts: seq<string>)
    requires NoNewlines(texts)
    ensures Lines(WholeLines(file) + Unlines(texts, ['\n'])) == Lines(file) + texts
  {
    WholeLinesSame(file);
    LinesAppend(WholeLines(file), Unlines(texts, ['\n']));
    LinesOfUnlines(texts);
  }

  lemma LoadMoreLines(first: seq<string>, second: seq<string>, base: Config)
    requires ApplyLines(DEFAULTS, first, 1) == Success(base)
    ensures LoadLines(first + second) == Validated(ApplyLines(base, second, 1 + |first|))
  {
    LinesThenLines(DEFAULTS, first, second, 1);
  }

  lemma ConfigArgument(path: string, rest: seq<string>, files: Files, base: Config)
    requires Load(Content(files, path)) == Success(base)
    ensures Arguments(["--config", path] + rest, files, DEFAULTS, false) == Arguments(rest, files, base, false)
  {
    var args := ["--config", path] + rest;
    assert WordOf("--config") == ConfigWord;
    assert args[0] == "--config" && args[1] == path && args[2..] == rest;
  }

  lemma SetsServe(base: Config, texts: seq<string>, files: Files, number: nat)
    requires forall i :: 0 <= i < |texts| ==> AssignmentText(texts[i])
    ensures Agree(Serving(Validated(ApplyLines(base, texts, number))), Arguments(Sets(texts), files, base, false))
  {
    SetsAreLines(base, texts, files, false, number);
  }

  lemma LoadedBase(lines: seq<string>)
    requires LoadLines(lines).Success?
    ensures ApplyLines(DEFAULTS, lines, 1) == LoadLines(lines)
  {
  }

  lemma TextsAreLines(texts: seq<string>)
    requires forall i :: 0 <= i < |texts| ==> AssignmentText(texts[i])
    ensures NoNewlines(texts)
  {
  }

  lemma SetsMeanLines(path: string, lines: seq<string>, texts: seq<string>, files: Files)
    requires Load(Content(files, path)) == LoadLines(lines) && LoadLines(lines).Success?
    requires forall i :: 0 <= i < |texts| ==> AssignmentText(texts[i])
    ensures Agree(Serving(LoadLines(lines + texts)),
                  Arguments(["--config", path] + Sets(texts), files, DEFAULTS, false))
  {
    var base := LoadLines(lines).value;
    LoadedBase(lines);
    LoadMoreLines(lines, texts, base);
    ConfigArgument(path, Sets(texts), files, base);
    SetsServe(base, texts, files, 1 + |lines|);
  }

  /** After a file that loads, --set arguments mean what the same lines at its end mean. */
  lemma SetsMeanAppendedLines(path: string, file: string, texts: seq<string>, files: Files)
    requires path in files && files[path] == file && Load(Some(file)).Success?
    requires forall i :: 0 <= i < |texts| ==> AssignmentText(texts[i])
    ensures Agree(Serving(Load(Some(WholeLines(file) + Unlines(texts, ['\n'])))),
                  Arguments(["--config", path] + Sets(texts), files, DEFAULTS, false))
  {
    TextsAreLines(texts);
    LinesOfAppended(file, texts);
    SetsMeanLines(path, Lines(file), texts, files);
  }

  // ---------- Line endings ----------

  function WithReturn(lines: seq<string>): (r: seq<string>)
    ensures |r| == |lines|
  {
    seq(|lines|, i requires 0 <= i < |lines| => lines[i] + ['\r'])
  }

  lemma TrimReturn(line: string)
    ensures Trim(line + ['\r']) == Trim(line)
  {
    assert [] + line + ['\r'] == line + ['\r'];
    TrimIgnoresPadding([], line, ['\r']);
  }

  lemma ReturnIgnored(c: Config, line: string)
    ensures ApplyLine(c, line + ['\r']) == ApplyLine(c, line)
  {
    TrimReturn(line);
  }

  lemma {:induction false} ReturnsIgnored(c: Config, lines: seq<string>, number: nat)
    ensures ApplyLines(c, WithReturn(lines), number) == ApplyLines(c, lines, number)
    decreases |lines|
  {
    if lines != [] {
      ReturnIgnored(c, lines[0]);
      assert WithReturn(lines)[1..] == WithReturn(lines[1..]);
      var first := ApplyLine(c, lines[0]);
      if first.Success? {
        ReturnsIgnored(first.value, lines[1..], number + 1);
      }
    }
  }

  lemma {:induction false} UnlinesReturn(lines: seq<string>)
    ensures Unlines(lines, ['\r', '\n']) == Unlines(WithReturn(lines), ['\n'])
    decreases |lines|
  {
    if lines != [] {
      UnlinesReturn(lines[1..]);
      assert WithReturn(lines)[1..] == WithReturn(lines[1..]);
      assert lines[0] + ['\r', '\n'] == lines[0] + ['\r'] + ['\n'];
    }
  }

  /** A file with CRLF line ends loads like the same lines with LF, errors and line numbers included. */
  lemma LineEndsDoNotMatter(lines: seq<string>)
    requires NoNewlines(lines)
    ensures Load(Some(Unlines(lines, ['\r', '\n']))) == Load(Some(Unlines(lines, ['\n'])))
  {
    UnlinesReturn(lines);
    LinesOfUnlines(lines);
    LinesOfReturns(lines);
    SameLoad(Unlines(lines, ['\r', '\n']), Unlines(lines, ['\n']), lines);
  }

  lemma LinesOfReturns(lines: seq<string>)
    requires NoNewlines(lines)
    ensures Lines(Unlines(WithReturn(lines), ['\n'])) == WithReturn(lines)
  {
    forall i | 0 <= i < |lines| ensures NoNewline(WithReturn(lines)[i]) {
      assert NoNewline(lines[i]);
    }
    LinesOfUnlines(WithReturn(lines));
  }

  lemma SameLoad(returned: string, plain: string, lines: seq<string>)
    requires Lines(plain) == lines && Lines(returned) == WithReturn(lines)
    ensures Load(Some(returned)) == Load(Some(plain))
  {
    ReturnsIgnored(DEFAULTS, lines, 1);
  }

  // ---------- The order of lines ----------

  /** The settings the lines stand for, comments and empty lines left out; none if one is wrong. */
  function Settings(lines: seq<string>): Option<seq<Setting>> {
    if lines == [] then Some([])
    else
      var first := LineSetting(lines[0]);
      var rest := Settings(lines[1..]);
      if first.Failure? || rest.None? then None
      else if first.value.None? then rest
      else Some([first.value.value] + rest.value)
  }

  /** The setting of one line, if it has one. */
  function LineSetting(line: string): Result<Option<Setting>, ConfigError> {
    TrimmedSetting(Trim(line))
  }

  function TrimmedSetting(t: string): Result<Option<Setting>, ConfigError> {
    if t == [] || t[0] == '#' then Success(None)
    else
      var separator := Find(t, '=');
      if separator == |t| then Failure(NoSeparator)
      else
        var s :- SettingOf(t[..separator], t[separator + 1..]);
        Success(Some(s))
  }

  /** The configuration after some settings. */
  function WithAll(c: Config, list: seq<Setting>): Config {
    Assignments.ApplyAll(With, c, list)
  }

  lemma LineSets(c: Config, line: string)
    ensures ApplyLine(c, line) ==
      match LineSetting(line)
      case Failure(e) => Failure(e)
      case Success(None) => Success(c)
      case Success(Some(s)) => Success(With(c, s))
  {
  }

  lemma {:induction false} LinesFoldSettings(c: Config, lines: seq<string>, number: nat)
    ensures var r, settings := ApplyLines(c, lines, number), Settings(lines);
      if settings.Some? then r == Success(WithAll(c, settings.value)) else r.Failure?
    decreases |lines|
  {
    if lines != [] {
      LineSets(c, lines[0]);
      var first := ApplyLine(c, lines[0]);
      if first.Success? {
        LinesFoldSettings(first.value, lines[1..], number + 1);
        if LineSetting(lines[0]).value.Some? && Settings(lines[1..]).Some? {
          assert Settings(lines).value[1..] == Settings(lines[1..]).value;
        }
      }
    }
  }

  /** The last setting of field k. */
  function LastOf(list: seq<Setting>, k: nat): Option<Setting> {
    Assignments.LastOf(Key, list, k)
  }

  lemma WithSets(c: Config, s: Setting, k: nat)
    requires k < 13
    ensures Current(With(c, s), k) == if Key(s) == k then s else Current(c, k)
  {
  }

  lemma SameEverywhere(c: Config, d: Config)
    requires forall k: nat :: k < 13 ==> Current(c, k) == Current(d, k)
    ensures c == d
  {
    assert Current(c, 0) == Current(d, 0) && Current(c, 1) == Current(d, 1) && Current(c, 2) == Current(d, 2);
    assert Current(c, 3) == Current(d, 3) && Current(c, 4) == Current(d, 4) && Current(c, 5) == Current(d, 5);
    assert Current(c, 6) == Current(d, 6) && Current(c, 7) == Current(d, 7) && Current(c, 8) == Current(d, 8);
    assert Current(c, 9) == Current(d, 9) && Current(c, 10) == Current(d, 10);
    assert Current(c, 11) == Current(d, 11) && Current(c, 12) == Current(d, 12);
  }

  lemma ConfigAssigns()
    ensures Assignments.SetsOne(With, Key, Current, 13) && Assignments.Determines(Current, 13)
  {
    forall c: Config, s: Setting, k: nat | k < 13
      ensures Current(With(c, s), k) == if Key(s) == k then s else Current(c, k)
    {
      WithSets(c, s, k);
    }
    forall c: Config, d: Config | Assignments.Agree(Current, 13, c, d) ensures c == d {
      SameEverywhere(c, d);
    }
  }

  lemma LastWins(c: Config, list: seq<Setting>, k: nat)
    requires k < 13
    ensures Current(WithAll(c, list), k) == match LastOf(list, k) case Some(s) => s case None => Current(c, k)
  {
    ConfigAssigns();
    Assignments.LastWins(With, Key, Current, 13, c, list, k);
  }

  lemma SameLast(c: Config, list: seq<Setting>, other: seq<Setting>)
    requires forall k: nat :: k < 13 ==> LastOf(list, k) == LastOf(other, k)
    ensures WithAll(c, list) == WithAll(c, other)
  {
    ConfigAssigns();
    forall k: nat | k < 13 ensures Assignments.LastOf(Key, list, k) == Assignments.LastOf(Key, other, k) {
      assert LastOf(list, k) == LastOf(other, k);
    }
    Assignments.OnlyLastMatter(With, Key, Current, 13, c, list, other);
  }

  /** Of files whose assignments are all valid, only the last value of each key matters: comments,
      and repeated keys before the last, do nothing. */
  lemma OnlyLastValuesMatter(file: string, other: string)
    requires Settings(Lines(file)).Some? && Settings(Lines(other)).Some?
    requires forall k: nat :: k < 13 ==>
      LastOf(Settings(Lines(file)).value, k) == LastOf(Settings(Lines(other)).value, k)
    ensures Load(Some(file)) == Load(Some(other))
  {
    var a, b := Settings(Lines(file)).value, Settings(Lines(other)).value;
    LinesFoldSettings(DEFAULTS, Lines(file), 1);
    LinesFoldSettings(DEFAULTS, Lines(other), 1);
    SameLast(DEFAULTS, a, b);
  }

  /** Where not all assignments are valid, the file does not load. */
  lemma WrongLineFailsToLoad(file: string)
    ensures Settings(Lines(file)).None? ==> Load(Some(file)).Failure?
  {
    LinesFoldSettings(DEFAULTS, Lines(file), 1);
  }

  // ---------- The places of lines ----------

  /** A line that is right by itself, and the key it sets, if any. */
  predicate Right(line: string) {
    NoNewline(line) && LineSetting(line).Success?
  }

  /** The lines do not set the same key. */
  predicate Independent(a: string, b: string)
    requires Right(a) && Right(b)
  {
    var s, t := LineSetting(a).value, LineSetting(b).value;
    s.Some? && t.Some? ==> Key(s.value) != Key(t.value)
  }

  lemma WithCommutes(c: Config, s: Setting, t: Setting)
    requires Key(s) != Key(t)
    ensures With(With(c, s), t) == With(With(c, t), s)
  {
    var d, e := With(With(c, s), t), With(With(c, t), s);
    forall k: nat | k < 13 ensures Current(d, k) == Current(e, k) {
      WithSets(With(c, s), t, k);
      WithSets(c, s, k);
      WithSets(With(c, t), s, k);
      WithSets(c, t, k);
    }
    SameEverywhere(d, e);
  }

  lemma TwoLines(c: Config, a: string, b: string, number: nat)
    requires Right(a) && Right(b) && Independent(a, b)
    ensures ApplyLines(c, [a, b], number).Success?
    ensures ApplyLines(c, [a, b], number) == ApplyLines(c, [b, a], number)
  {
    LineSets(c, a);
    LineSets(c, b);
    var s, t := LineSetting(a).value, LineSetting(b).value;
    var d, e := ApplyLine(c, a).value, ApplyLine(c, b).value;
    LineSets(d, b);
    LineSets(e, a);
    TwoApply(c, a, b, number);
    TwoApply(c, b, a, number);
    if s.Some? && t.Some? {
      WithCommutes(c, s.value, t.value);
    }
  }

  lemma TwoApply(c: Config, a: string, b: string, number: nat)
    requires ApplyLine(c, a).Success? && ApplyLine(ApplyLine(c, a).value, b).Success?
    ensures ApplyLines(c, [a, b], number) == ApplyLine(ApplyLine(c, a).value, b)
  {
    assert [a, b][1..] == [b] && [b][1..] == [];
    assert ApplyLines(ApplyLine(c, a).value, [b], number + 1) == ApplyLine(ApplyLine(c, a).value, b);
  }

  /** The configuration after more lines, if all went well so far. */
  function Onward(r: Result<Config, ConfigError>, lines: seq<string>, number: nat): Result<Config, ConfigError> {
    if r.Failure? then r else ApplyLines(r.value, lines, number)
  }

  lemma InTwoParts(c: Config, a: seq<string>, b: seq<string>, number: nat)
    ensures ApplyLines(c, a + b, number) == Onward(ApplyLines(c, a, number), b, number + |a|)
  {
    LinesThenLines(c, a, b, number);
  }

  /** As many lines that do the same to this configuration. */
  predicate SameEffect(c: Config, m: seq<string>, n: seq<string>, number: nat) {
    |m| == |n| && ApplyLines(c, m, number) == ApplyLines(c, n, number)
  }

  lemma InThreeParts(c: Config, before: seq<string>, m: seq<string>, after: seq<string>, number: nat)
    ensures ApplyLines(c, before + m + after, number)
         == Onward(Onward(ApplyLines(c, before, number), m, number + |before|), after, number + |before| + |m|)
  {
    InTwoParts(c, before + m, after, number);
    InTwoParts(c, before, m, number);
  }

  lemma SameMiddle(c: Config, before: seq<string>, m: seq<string>, n: seq<string>, after: seq<string>, number: nat)
    requires ApplyLines(c, before, number).Success? ==>
      SameEffect(ApplyLines(c, before, number).value, m, n, number + |before|)
    requires |m| == |n|
    ensures ApplyLines(c, before + m + after, number) == ApplyLines(c, before + n + after, number)
  {
    InThreeParts(c, before, m, after, number);
    InThreeParts(c, before, n, after, number);
  }

  lemma SameMiddleLoads(before: seq<string>, m: seq<string>, n: seq<string>, after: seq<string>)
    requires |m| == |n|
    requires var first := ApplyLines(DEFAULTS, before, 1);
      first.Success? ==> SameEffect(first.value, m, n, 1 + |before|)
    ensures LoadLines(before + m + after) == LoadLines(before + n + after)
  {
    SameMiddle(DEFAULTS, before, m, n, after, 1);
  }

  lemma SwapInLines(before: seq<string>, a: string, b: string, after: seq<string>)
    requires Right(a) && Right(b) && Independent(a, b)
    ensures LoadLines(before + [a, b] + after) == LoadLines(before + [b, a] + after)
  {
    var first := ApplyLines(DEFAULTS, before, 1);
    if first.Success? {
      TwoLines(first.value, a, b, 1 + |before|);
    }
    SameMiddleLoads(before, [a, b], [b, a], after);
  }

  lemma LinesDecideLoad(lines: seq<string>, others: seq<string>)
    requires NoNewlines(lines) && NoNewlines(others) && LoadLines(lines) == LoadLines(others)
    ensures Load(Some(Unlines(lines, ['\n']))) == Load(Some(Unlines(others, ['\n'])))
  {
    LinesOfUnlines(lines);
    LinesOfUnlines(others);
  }

  lemma NoNewlinesBetween(before: seq<string>, m: seq<string>, after: seq<string>)
    requires NoNewlines(before) && NoNewlines(m) && NoNewlines(after)
    ensures NoNewlines(before + m + after)
  {
  }

  /** Neighbouring lines that are right and set different keys, or none, may change places in any
      file, with wrong lines elsewhere or not: it loads alike, the error and its line included. */
  lemma SwapKeepsMeaning(before: seq<string>, a: string, b: string, after: seq<string>)
    requires NoNewlines(before) && NoNewlines(after) && Right(a) && Right(b) && Independent(a, b)
    ensures Load(Some(Unlines(before + [a, b] + after, ['\n']))) == Load(Some(Unlines(before + [b, a] + after, ['\n'])))
  {
    NoNewlinesBetween(before, [a, b], after);
    NoNewlinesBetween(before, [b, a], after);
    SwapInLines(before, a, b, after);
    LinesDecideLoad(before + [a, b] + after, before + [b, a] + after);
  }
}
