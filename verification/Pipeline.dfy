/** The pipeline texts of jetcamd, and what can be read back from them. */
module Pipeline {
  import opened MachineTypes
  import opened Text
  import opened DaemonConfig

  // ---------- Texts with fields ----------

  /** The text of a stream that was given literals with a field between each two. */
  function Weave(literals: seq<string>, fields: seq<string>): string
    requires |literals| == |fields| + 1
  {
    if fields == [] then literals[0]
    else literals[0] + fields[0] + Weave(literals[1..], fields[1..])
  }

  predicate SafeChars(s: string) {
    forall i :: 0 <= i < |s| ==> SafeChar(s[i])
  }

  predicate AllSafe(fields: seq<string>) {
    forall i :: 0 <= i < |fields| ==> SafeChars(fields[i])
  }

  /** This text cannot be taken for a part of a field before it. */
  predicate Breaks(literal: string) {
    literal != [] && !SafeChar(literal[0])
  }

  predicate Delimited(literals: seq<string>) {
    forall i :: 1 <= i < |literals| ==> Breaks(literals[i])
  }

  function SafeCount(s: string): (n: nat)
    ensures n <= |s| && SafeChars(s[..n])
    ensures n < |s| ==> !SafeChar(s[n])
  {
    if s != [] && SafeChar(s[0]) then
      var n := 1 + SafeCount(s[1..]);
      assert s[..n] == [s[0]] + s[1..][..n - 1];
      n
    else 0
  }

  /** The fields of a woven text: each is as long as the characters fit. */
  function Unweave(literals: seq<string>, text: string): Option<seq<string>>
    requires literals != []
  {
    if |literals| == 1 then if text == literals[0] then Some([]) else None
    else if !(literals[0] <= text) then None
    else
      var rest := text[|literals[0]|..];
      var n := SafeCount(rest);
      match Unweave(literals[1..], rest[n..])
      case None => None
      case Some(fields) => Some([rest[..n]] + fields)
  }

  lemma {:induction false} SafeCountOf(field: string, rest: string)
    requires SafeChars(field) && rest != [] && !SafeChar(rest[0])
    ensures SafeCount(field + rest) == |field|
    decreases |field|
  {
    if field == [] {
      assert field + rest == rest;
    } else {
      assert (field + rest)[0] == field[0] && (field + rest)[1..] == field[1..] + rest;
      SafeCountOf(field[1..], rest);
    }
  }

  lemma WeaveStarts(literals: seq<string>, fields: seq<string>)
    requires |literals| == |fields| + 1 && literals[0] != []
    ensures Weave(literals, fields) != [] && Weave(literals, fields)[0] == literals[0][0]
  {
  }

  lemma CutFirst(literal: string, field: string, tail: string)
    ensures var text := literal + field + tail;
      literal <= text && text[|literal|..] == field + tail
    ensures (field + tail)[..|field|] == field && (field + tail)[|field|..] == tail
  {
    assert literal + field + tail == literal + (field + tail);
  }

  lemma UnweaveStep(literals: seq<string>, field: string, tail: string, fields: seq<string>)
    requires |literals| > 1 && SafeChars(field) && tail != [] && !SafeChar(tail[0])
    requires Unweave(literals[1..], tail) == Some(fields)
    ensures Unweave(literals, literals[0] + field + tail) == Some([field] + fields)
  {
    CutFirst(literals[0], field, tail);
    SafeCountOf(field, tail);
  }

  lemma DelimitedTail(literals: seq<string>)
    requires |literals| > 1 && Delimited(literals)
    ensures Delimited(literals[1..]) && literals[1..][0] != [] && !SafeChar(literals[1..][0][0])
  {
    forall i | 1 <= i < |literals[1..]| ensures literals[1..][i] != [] && !SafeChar(literals[1..][i][0]) {
      assert literals[1..][i] == literals[i + 1];
    }
  }

  lemma {:induction false} UnweaveInvertsWeave(literals: seq<string>, fields: seq<string>)
    requires |literals| == |fields| + 1 && Delimited(literals) && AllSafe(fields)
    ensures Unweave(literals, Weave(literals, fields)) == Some(fields)
    decreases |fields|
  {
    if fields != [] {
      DelimitedTail(literals);
      UnweaveInvertsWeave(literals[1..], fields[1..]);
      WeaveStarts(literals[1..], fields[1..]);
      UnweaveStep(literals, fields[0], Weave(literals[1..], fields[1..]), fields[1..]);
      assert [fields[0]] + fields[1..] == fields;
    }
  }

  lemma WeaveStep(literals: seq<string>, field: string, fields: seq<string>)
    requires |literals| == |fields| + 2
    ensures Weave(literals, [field] + fields) == literals[0] + field + Weave(literals[1..], fields)
  {
    assert ([field] + fields)[1..] == fields;
  }

  lemma PrefixAndRest(literal: string, text: string, n: nat)
    requires literal <= text && n <= |text| - |literal|
    ensures var rest := text[|literal|..]; text == literal + rest[..n] + rest[n..]
  {
  }

  /** A text has fields exactly when it is woven from them. */
  lemma {:induction false} UnweaveIsExact(literals: seq<string>, text: string)
    requires literals != [] && Unweave(literals, text).Some?
    ensures var fields := Unweave(literals, text).value;
      |literals| == |fields| + 1 && AllSafe(fields) && Weave(literals, fields) == text
    decreases |literals|
  {
    if |literals| > 1 {
      var rest := text[|literals[0]|..];
      var n := SafeCount(rest);
      UnweaveIsExact(literals[1..], rest[n..]);
      var fields := Unweave(literals[1..], rest[n..]).value;
      WeaveStep(literals, rest[..n], fields);
      PrefixAndRest(literals[0], text, n);
    }
  }

  // ---------- Tokens ----------

  /** The parts of a text between its spaces. */
  function Split(s: string): (tokens: seq<string>)
    ensures tokens != []
  {
    if s == [] then [[]]
    else if s[0] == ' ' then [[]] + Split(s[1..])
    else
      var rest := Split(s[1..]);
      [[s[0]] + rest[0]] + rest[1..]
  }

  /** Two lists of tokens joined at a token that goes across the border. */
  function Join(a: seq<string>, b: seq<string>): seq<string>
    requires a != [] && b != []
  {
    a[..|a| - 1] + [a[|a| - 1] + b[0]] + b[1..]
  }

  lemma SplitCons(c: char, s: string)
    requires c != ' '
    ensures Split([c] + s) == [[c] + Split(s)[0]] + Split(s)[1..]
  {
    assert ([c] + s)[1..] == s;
  }

  lemma SplitSpace(s: string)
    ensures Split([' '] + s) == [[]] + Split(s)
  {
    assert ([' '] + s)[1..] == s;
  }

  /** One more character at the front of the first token. */
  lemma JoinLonger(c: char, a: seq<string>, b: seq<string>)
    requires a != [] && b != []
    ensures Join([[c] + a[0]] + a[1..], b) == [[c] + Join(a, b)[0]] + Join(a, b)[1..]
  {
    if |a| == 1 {
      assert [c] + (a[0] + b[0]) == [c] + a[0] + b[0];
    }
  }

  lemma {:induction false} SplitJoins(s: string, t: string)
    ensures Split(s + t) == Join(Split(s), Split(t))
    decreases |s|
  {
    if s == [] {
      assert s + t == t && [] + Split(t)[0] == Split(t)[0];
      assert Join([[]], Split(t)) == Split(t);
    } else {
      var c, rest := s[0], s[1..];
      assert s == [c] + rest && s + t == [c] + (rest + t);
      SplitJoins(rest, t);
      if c == ' ' {
        SplitSpace(rest);
        SplitSpace(rest + t);
        JoinAfter([], Split(rest), Split(t));
      } else {
        SplitCons(c, rest);
        SplitCons(c, rest + t);
        JoinLonger(c, Split(rest), Split(t));
      }
    }
  }

  lemma JoinAfter(first: string, a: seq<string>, b: seq<string>)
    requires a != [] && b != []
    ensures Join([first] + a, b) == [first] + Join(a, b)
  {
  }

  lemma {:induction false} SplitSafe(field: string)
    requires SafeChars(field)
    ensures Split(field) == [field]
    decreases |field|
  {
    if field != [] {
      assert field == [field[0]] + field[1..];
      SplitSafe(field[1..]);
    }
  }

  /** Tokens with holes: each is the list of literals around its holes. */
  type Skeleton = seq<seq<string>>

  ghost predicate WellFormed(k: Skeleton) {
    forall i :: 0 <= i < |k| ==> k[i] != []
  }

  function Holes(k: Skeleton): int {
    if k == [] then 0 else |k[0]| - 1 + Holes(k[1..])
  }

  function Fill(k: Skeleton, fields: seq<string>): (tokens: seq<string>)
    requires WellFormed(k) && Holes(k) == |fields|
    ensures |tokens| == |k|
    decreases |k|
  {
    if k == [] then []
    else
      HolesPositive(k[1..]);
      var n := |k[0]| - 1;
      [Weave(k[0], fields[..n])] + Fill(k[1..], fields[n..])
  }

  lemma {:induction false} HolesPositive(k: Skeleton)
    requires WellFormed(k)
    ensures Holes(k) >= 0
    decreases |k|
  {
    if k != [] {
      HolesPositive(k[1..]);
    }
  }

  function Singles(tokens: seq<string>): (k: Skeleton)
    ensures |k| == |tokens| && forall i :: 0 <= i < |k| ==> k[i] == [tokens[i]]
  {
    seq(|tokens|, i requires 0 <= i < |tokens| => [tokens[i]])
  }

  /** The tokens of a woven text before its fields are known. */
  function SkeletonOf(literals: seq<string>): (k: Skeleton)
    requires literals != []
    ensures k != []
    decreases |literals|
  {
    var a := Split(literals[0]);
    if |literals| == 1 then Singles(a)
    else
      var b := SkeletonOf(literals[1..]);
      Singles(a[..|a| - 1]) + [[a[|a| - 1]] + b[0]] + b[1..]
  }

  lemma {:induction false} FillSingles(tokens: seq<string>, k: Skeleton, fields: seq<string>)
    requires WellFormed(k) && Holes(k) == |fields|
    ensures WellFormed(Singles(tokens) + k) && Holes(Singles(tokens) + k) == |fields|
    ensures Fill(Singles(tokens) + k, fields) == tokens + Fill(k, fields)
    decreases |tokens|
  {
    var all := Singles(tokens) + k;
    if tokens == [] {
      assert all == k;
    } else {
      FillSingles(tokens[1..], k, fields);
      assert all[1..] == Singles(tokens[1..]) + k;
      assert all[0] == [tokens[0]] && fields[..0] == [] && fields[0..] == fields;
      assert tokens == [tokens[0]] + tokens[1..];
    }
  }

  /** One literal and one field before the first token with holes. */
  lemma FillFirst(literal: string, field: string, k: Skeleton, fields: seq<string>)
    requires k != [] && WellFormed(k) && Holes(k) == |fields|
    ensures var longer := [[literal] + k[0]] + k[1..];
      && WellFormed(longer) && Holes(longer) == |fields| + 1
      && Fill(longer, [field] + fields) == [literal + field + Fill(k, fields)[0]] + Fill(k, fields)[1..]
  {
    var longer := [[literal] + k[0]] + k[1..];
    HolesPositive(k[1..]);
    var n := |k[0]| - 1;
    assert longer[1..] == k[1..] && |longer[0]| - 1 == n + 1;
    assert ([field] + fields)[..n + 1] == [field] + fields[..n];
    assert ([field] + fields)[n + 1..] == fields[n..];
    WeaveStep(longer[0], field, fields[..n]);
    assert longer[0][1..] == k[0];
  }

  lemma SplitField(literal: string, field: string, tail: string)
    requires SafeChars(field)
    ensures var a, c := Split(literal), Split(tail);
      Split(literal + field + tail) == a[..|a| - 1] + [a[|a| - 1] + field + c[0]] + c[1..]
  {
    var a, c := Split(literal), Split(tail);
    SplitSafe(field);
    SplitJoins(literal, field);
    SplitJoins(literal + field, tail);
    var b := a[..|a| - 1] + [a[|a| - 1] + field];
    assert Split(literal + field) == b;
    assert b[..|b| - 1] == a[..|a| - 1];
  }

  lemma FirstFill(a: seq<string>, field: string, b: Skeleton, fields: seq<string>)
    requires a != [] && b != [] && WellFormed(b) && Holes(b) == |fields|
    ensures var n := |a| - 1; var k, tokens := Singles(a[..n]) + [[a[n]] + b[0]] + b[1..], Fill(b, fields);
      && WellFormed(k) && Holes(k) == |fields| + 1
      && Fill(k, [field] + fields) == a[..n] + [a[n] + field + tokens[0]] + tokens[1..]
  {
    var n := |a| - 1;
    var tokens := Fill(b, fields);
    FillFirst(a[n], field, b, fields);
    FillSingles(a[..n], [[a[n]] + b[0]] + b[1..], [field] + fields);
    Associates(Singles(a[..n]), [[a[n]] + b[0]], b[1..]);
    Associates(a[..n], [a[n] + field + tokens[0]], tokens[1..]);
  }

  /** Fields never add, remove or move a token: the tokens of a woven text are the skeleton of
      the literals with the fields in its holes. */
  lemma {:induction false} TokensAreFilledSkeleton(literals: seq<string>, fields: seq<string>)
    requires |literals| == |fields| + 1 && AllSafe(fields)
    ensures WellFormed(SkeletonOf(literals)) && Holes(SkeletonOf(literals)) == |fields|
    ensures Split(Weave(literals, fields)) == Fill(SkeletonOf(literals), fields)
    decreases |fields|
  {
    var a := Split(literals[0]);
    if fields == [] {
      FillSingles(a, [], []);
      assert Singles(a) + [] == Singles(a);
    } else {
      TokensAreFilledSkeleton(literals[1..], fields[1..]);
      FirstFill(a, fields[0], SkeletonOf(literals[1..]), fields[1..]);
      SplitField(literals[0], fields[0], Weave(literals[1..], fields[1..]));
      assert [fields[0]] + fields[1..] == fields;
    }
  }

  // ---------- The texts of the program ----------

  /** The text of a stream after these insertions. */
  function Stream(insertions: seq<string>): string {
    if insertions == [] then [] else insertions[0] + Stream(insertions[1..])
  }

  /** Each word with a space before it. */
  function Spaced(words: seq<string>): string {
    if words == [] then [] else [' '] + words[0] + Spaced(words[1..])
  }

  const SOURCE := "nvarguscamerasrc"
  const CAPS := "video/x-raw(memory:NVMM)" + ",format=NV12"
  const CAMERA := SOURCE + Spaced(["sensor-id="])
  const WIDTH := Spaced(["!", CAPS + ",width="])
  const HEIGHT := ",height="
  const FRAMERATE := ",framerate="
  const CONVERTER := ["!", "nvvidconv", "!", "video/x-raw" + ",format=I420"]
  const TEE := ["!", "tee", "name=rawtee", "rawtee.", "!", "queue", "max-size-buffers=4", "leaky=downstream"]
  const PROBE := ["!", "identity", "name=frame_probe", "silent=true"]
  const ENCODER := ["!", "x264enc", "tune=zerolatency", "speed-preset=ultrafast"]
  const BITRATE := Spaced(["bitrate="])
  const GOP := Spaced(["key-int-max="])
  const PARSER := ["bframes=0", "byte-stream=true", "aud=true", "sliced-threads=true"]
    + ["!", "video/x-h264" + ",profile=baseline", "!", "h264parse", "config-interval=1"]
  const UDP_SINK := ["!", "mpegtsmux", "alignment=7", "!", "udpsink"]
  const HOST := Spaced(["host="])
  const PORT := Spaced(["port="])
  const BRANCH := ["sync=false", "async=false", "rawtee.", "!", "queue", "max-size-buffers=1", "leaky=downstream"]
  const VALVE := ["!", "valve", "name=snapshot_valve", "drop=true", "!", "videoconvert", "!", "jpegenc", "quality=90"]
  const APPSINK := ["!", "appsink", "name=snapshot_sink", "emit-signals=true"] + ["max-buffers=1", "drop=true", "sync=false"]
  const SNAPSHOT := BRANCH + VALVE + APPSINK
  const RTSP_SINK := ["!", "rtph264pay", "pt=96", "config-interval=1"]
    + ["!", "udpsink", "host=127.0.0.1", "port=5400", "sync=false", "async=false"]

  /** From the frame rate to the bit rate, where the raw frames also feed snapshots. */
  const UDP_ENCODER := "/1" + Spaced(CONVERTER + TEE + PROBE + ENCODER) + BITRATE
  const RTSP_ENCODER := "/1" + Spaced(CONVERTER + PROBE + ENCODER) + BITRATE
  const UDP_PARSER := Spaced(PARSER + UDP_SINK) + HOST

  function BuildUdpPipeline(c: Config): string {
    Stream([CAMERA, Decimal(c.sensorId), WIDTH, Decimal(c.width), HEIGHT, Decimal(c.height),
            FRAMERATE, Decimal(c.framerate), UDP_ENCODER, Decimal(c.bitrateKbps), GOP, Decimal(c.gop),
            UDP_PARSER, c.host, PORT, Decimal(c.port), Spaced(SNAPSHOT)])
  }

  function CaptureAndEncode(c: Config): string {
    Stream([CAMERA, Decimal(c.sensorId), WIDTH, Decimal(c.width), HEIGHT, Decimal(c.height),
            FRAMERATE, Decimal(c.framerate), RTSP_ENCODER, Decimal(c.bitrateKbps), GOP, Decimal(c.gop),
            Spaced(PARSER)])
  }

  function BuildRtspCapturePipeline(c: Config): string {
    CaptureAndEncode(c) + Spaced(RTSP_SINK)
  }

  // ---------- Reading the texts back ----------

  function UdpLiterals(): (l: seq<string>)
    ensures |l| == 9 && Delimited(l)
  {
    assert Breaks(WIDTH) && Breaks(UDP_ENCODER) && Breaks(UDP_PARSER) && Breaks(Spaced(SNAPSHOT));
    [CAMERA, WIDTH, HEIGHT, FRAMERATE, UDP_ENCODER, GOP, UDP_PARSER, PORT, Spaced(SNAPSHOT)]
  }

  function RtspLiterals(): (l: seq<string>)
    ensures |l| == 7 && Delimited(l)
  {
    assert Breaks(WIDTH) && Breaks(RTSP_ENCODER) && Breaks(Spaced(PARSER) + Spaced(RTSP_SINK));
    [CAMERA, WIDTH, HEIGHT, FRAMERATE, RTSP_ENCODER, GOP, Spaced(PARSER) + Spaced(RTSP_SINK)]
  }

  function UdpFields(c: Config): (f: seq<string>)
    ensures |f| == 8
  {
    [Decimal(c.sensorId), Decimal(c.width), Decimal(c.height), Decimal(c.framerate), Decimal(c.bitrateKbps),
     Decimal(c.gop), c.host, Decimal(c.port)]
  }

  function RtspFields(c: Config): (f: seq<string>)
    ensures |f| == 6
  {
    UdpFields(c)[..6]
  }

  function Insertions(literals: seq<string>, fields: seq<string>): (list: seq<string>)
    requires |literals| == |fields| + 1
    ensures |list| == |literals| + |fields|
    decreases |fields|
  {
    if fields == [] then [literals[0]]
    else [literals[0], fields[0]] + Insertions(literals[1..], fields[1..])
  }

  lemma {:induction false} InsertionsAt(literals: seq<string>, fields: seq<string>, i: nat)
    requires |literals| == |fields| + 1 && i < |literals|
    ensures Insertions(literals, fields)[i + i] == literals[i]
    ensures i < |fields| ==> Insertions(literals, fields)[i + i + 1] == fields[i]
    decreases |fields|
  {
    if i > 0 {
      InsertionsAt(literals[1..], fields[1..], i - 1);
    }
  }

  lemma {:induction false} InsertionsWeave(literals: seq<string>, fields: seq<string>)
    requires |literals| == |fields| + 1
    ensures Stream(Insertions(literals, fields)) == Weave(literals, fields)
    decreases |fields|
  {
    var list := Insertions(literals, fields);
    if fields == [] {
      assert list[1..] == [] && literals[0] + [] == literals[0];
    } else {
      var rest := Insertions(literals[1..], fields[1..]);
      InsertionsWeave(literals[1..], fields[1..]);
      assert list[1..] == [fields[0]] + rest && list[1..][1..] == rest;
      assert Stream(list[1..]) == fields[0] + Stream(rest);
      Associates(literals[0], fields[0], Stream(rest));
    }
  }

  /** For any literals and fields, so that the characters of the program's texts do not matter. */
  lemma EightInsertions(l: seq<string>, f: seq<string>)
    requires |l| == 9 && |f| == 8
    ensures Insertions(l, f) == [l[0], f[0], l[1], f[1], l[2], f[2], l[3], f[3], l[4], f[4], l[5], f[5],
                                 l[6], f[6], l[7], f[7], l[8]]
  {
    InsertionsAt(l, f, 0);
    InsertionsAt(l, f, 1);
    InsertionsAt(l, f, 2);
    InsertionsAt(l, f, 3);
    InsertionsAt(l, f, 4);
    InsertionsAt(l, f, 5);
    InsertionsAt(l, f, 6);
    InsertionsAt(l, f, 7);
    InsertionsAt(l, f, 8);
  }

  lemma SixInsertions(l: seq<string>, f: seq<string>)
    requires |l| == 7 && |f| == 6
    ensures Insertions(l, f) == [l[0], f[0], l[1], f[1], l[2], f[2], l[3], f[3], l[4], f[4], l[5], f[5], l[6]]
  {
    InsertionsAt(l, f, 0);
    InsertionsAt(l, f, 1);
    InsertionsAt(l, f, 2);
    InsertionsAt(l, f, 3);
    InsertionsAt(l, f, 4);
    InsertionsAt(l, f, 5);
    InsertionsAt(l, f, 6);
  }

  lemma {:induction false} WeaveLonger(literals: seq<string>, fields: seq<string>, tail: string)
    requires |literals| == |fields| + 1
    ensures var n := |fields|;
      Weave(literals, fields) + tail == Weave(literals[..n] + [literals[n] + tail], fields)
    decreases |fields|
  {
    var n := |fields|;
    var longer := literals[..n] + [literals[n] + tail];
    if n > 0 {
      WeaveLonger(literals[1..], fields[1..], tail);
      assert longer[1..] == literals[1..][..n - 1] + [literals[1..][n - 1] + tail];
      Associates(literals[0] + fields[0], Weave(literals[1..], fields[1..]), tail);
    }
  }

  lemma UdpIsWoven(c: Config)
    ensures BuildUdpPipeline(c) == Weave(UdpLiterals(), UdpFields(c))
  {
    EightInsertions(UdpLiterals(), UdpFields(c));
    InsertionsWeave(UdpLiterals(), UdpFields(c));
  }

  function EncodeLiterals(): (l: seq<string>)
    ensures |l| == 7
  {
    [CAMERA, WIDTH, HEIGHT, FRAMERATE, RTSP_ENCODER, GOP, Spaced(PARSER)]
  }

  lemma EncodeIsWoven(c: Config)
    ensures CaptureAndEncode(c) == Weave(EncodeLiterals(), RtspFields(c))
  {
    SixInsertions(EncodeLiterals(), RtspFields(c));
    InsertionsWeave(EncodeLiterals(), RtspFields(c));
  }

  lemma RtspIsWoven(c: Config)
    ensures BuildRtspCapturePipeline(c) == Weave(RtspLiterals(), RtspFields(c))
  {
    EncodeIsWoven(c);
    WeaveLonger(EncodeLiterals(), RtspFields(c), Spaced(RTSP_SINK));
    assert RtspLiterals() == EncodeLiterals()[..6] + [EncodeLiterals()[6] + Spaced(RTSP_SINK)];
  }

  /** What a camera and encoder part says. */
  datatype Video = Video(sensorId: nat, width: nat, height: nat, framerate: nat, bitrateKbps: nat, gop: nat)

  datatype UdpStream = UdpStream(video: Video, host: string, port: nat)

  function VideoOf(c: Config): Video {
    Video(c.sensorId, c.width, c.height, c.framerate, c.bitrateKbps, c.gop)
  }

  predicate Numeric(fields: seq<string>) {
    forall i :: 0 <= i < |fields| ==> AllDigits(fields[i])
  }

  function ReadVideo(fields: seq<string>): Option<Video>
    requires |fields| >= 6
  {
    if !Numeric(fields[..6]) then None
    else
      Some(Video(NumberOf(fields[0]), NumberOf(fields[1]), NumberOf(fields[2]), NumberOf(fields[3]),
                 NumberOf(fields[4]), NumberOf(fields[5])))
  }

  function ReadUdp(fields: seq<string>): Option<UdpStream> {
    if |fields| != 8 || !AllDigits(fields[7]) then None
    else match ReadVideo(fields)
      case None => None
      case Some(video) => Some(UdpStream(video, fields[6], NumberOf(fields[7])))
  }

  /** The values a UDP pipeline text was built from. */
  function DecodeUdp(text: string): Option<UdpStream> {
    match Unweave(UdpLiterals(), text)
    case None => None
    case Some(fields) => ReadUdp(fields)
  }

  function DecodeRtsp(text: string): Option<Video> {
    match Unweave(RtspLiterals(), text)
    case None => None
    case Some(f) => if |f| != 6 then None else ReadVideo(f)
  }

  lemma VideoFields(c: Config)
    ensures ReadVideo(UdpFields(c)) == Some(VideoOf(c)) && ReadVideo(RtspFields(c)) == Some(VideoOf(c))
  {
    NumberOfDecimal(c.sensorId);
    NumberOfDecimal(c.width);
    NumberOfDecimal(c.height);
    NumberOfDecimal(c.framerate);
    NumberOfDecimal(c.bitrateKbps);
    NumberOfDecimal(c.gop);
  }

  lemma DigitsAreSafe(s: string)
    requires AllDigits(s)
    ensures SafeChars(s)
  {
  }

  lemma FieldsAreSafe(c: Config)
    requires SafeToken(c.host)
    ensures AllSafe(UdpFields(c)) && AllSafe(RtspFields(c))
  {
    UdpFieldsButHost(c);
  }

  /** The text says every value it was built from. */
  lemma UdpRoundTrip(c: Config)
    requires Validate(c).Success?
    ensures DecodeUdp(BuildUdpPipeline(c)) == Some(UdpStream(VideoOf(c), c.host, c.port))
  {
    UdpUnwoven(c);
    DecodeFields(BuildUdpPipeline(c), c);
  }

  lemma DecodeFields(text: string, c: Config)
    requires Unweave(UdpLiterals(), text) == Some(UdpFields(c))
    ensures DecodeUdp(text) == Some(UdpStream(VideoOf(c), c.host, c.port))
  {
    ReadUdpFields(c);
  }

  lemma ReadUdpFields(c: Config)
    ensures ReadUdp(UdpFields(c)) == Some(UdpStream(VideoOf(c), c.host, c.port))
  {
    VideoFields(c);
    NumberOfDecimal(c.port);
  }

  lemma UdpUnwoven(c: Config)
    requires SafeToken(c.host)
    ensures Unweave(UdpLiterals(), BuildUdpPipeline(c)) == Some(UdpFields(c))
  {
    UdpIsWoven(c);
    FieldsAreSafe(c);
    UnweaveInvertsWeave(UdpLiterals(), UdpFields(c));
  }

  /** No value of a validated configuration can change another one's text: equal texts, equal values. */
  lemma UdpTextIsInjective(c: Config, d: Config)
    requires Validate(c).Success? && Validate(d).Success?
    ensures BuildUdpPipeline(c) == BuildUdpPipeline(d)
       <==> VideoOf(c) == VideoOf(d) && c.host == d.host && c.port == d.port
  {
    UdpRoundTrip(c);
    UdpRoundTrip(d);
  }

  lemma RtspFieldsAreSafe(c: Config)
    ensures AllSafe(RtspFields(c))
  {
    forall i | 0 <= i < 6 ensures SafeChars(RtspFields(c)[i]) {
      DigitsAreSafe(RtspFields(c)[i]);
    }
  }

  /** Here nothing has to be valid: the host is no part of the text. */
  lemma RtspRoundTrip(c: Config)
    ensures DecodeRtsp(BuildRtspCapturePipeline(c)) == Some(VideoOf(c))
  {
    RtspIsWoven(c);
    RtspFieldsAreSafe(c);
    UnweaveInvertsWeave(RtspLiterals(), RtspFields(c));
    VideoFields(c);
  }

  /** The tokens of the text are those of the program's literals; a value only fills its hole. */
  lemma UdpSkeletonIsFixed(c: Config)
    requires Validate(c).Success?
    ensures WellFormed(SkeletonOf(UdpLiterals())) && Holes(SkeletonOf(UdpLiterals())) == 8
    ensures Split(BuildUdpPipeline(c)) == Fill(SkeletonOf(UdpLiterals()), UdpFields(c))
  {
    UdpIsWoven(c);
    FieldsAreSafe(c);
    TokensAreFilledSkeleton(UdpLiterals(), UdpFields(c));
  }

  lemma RtspSkeletonIsFixed(c: Config)
    ensures WellFormed(SkeletonOf(RtspLiterals())) && Holes(SkeletonOf(RtspLiterals())) == 6
    ensures Split(BuildRtspCapturePipeline(c)) == Fill(SkeletonOf(RtspLiterals()), RtspFields(c))
  {
    RtspIsWoven(c);
    RtspFieldsAreSafe(c);
    TokensAreFilledSkeleton(RtspLiterals(), RtspFields(c));
  }

  // ---------- Hosts with spaces ----------

  function Spaces(s: string): nat {
    if s == [] then 0 else (if s[0] == ' ' then 1 else 0) + Spaces(s[1..])
  }

  lemma {:induction false} SplitCounts(s: string)
    ensures |Split(s)| == Spaces(s) + 1
    decreases |s|
  {
    if s != [] {
      SplitCounts(s[1..]);
    }
  }

  lemma SpacesAdd(s: string, t: string)
    ensures Spaces(s + t) == Spaces(s) + Spaces(t)
  {
    SplitCounts(s);
    SplitCounts(t);
    SplitCounts(s + t);
    SplitJoins(s, t);
  }

  lemma WeaveSpaces(literals: seq<string>, f: seq<string>)
    requires |literals| == |f| + 1 && f != []
    ensures Spaces(Weave(literals, f)) == Spaces(literals[0]) + Spaces(f[0]) + Spaces(Weave(literals[1..], f[1..]))
  {
    SpacesAdd(literals[0], f[0]);
    SpacesAdd(literals[0] + f[0], Weave(literals[1..], f[1..]));
  }

  lemma {:induction false} SafeHasNoSpaces(s: string)
    requires SafeChars(s)
    ensures Spaces(s) == 0
    decreases |s|
  {
    if s != [] {
      SafeHasNoSpaces(s[1..]);
    }
  }

  /** Of fields that are safe but for one, only that one can add tokens: one for each space in it. */
  lemma {:induction false} FieldTokens(literals: seq<string>, f: seq<string>, k: nat)
    requires |literals| == |f| + 1 && k < |f|
    requires forall i :: 0 <= i < |f| && i != k ==> SafeChars(f[i])
    ensures Spaces(Weave(literals, f)) + 1 == |SkeletonOf(literals)| + Spaces(f[k])
    decreases |f|
  {
    WeaveSpaces(literals, f);
    SplitCounts(literals[0]);
    if k > 0 {
      SafeHasNoSpaces(f[0]);
      FieldTokens(literals[1..], f[1..], k - 1);
    } else {
      TokensAreFilledSkeleton(literals[1..], f[1..]);
      SplitCounts(Weave(literals[1..], f[1..]));
    }
  }

  lemma UdpFieldsButHost(c: Config)
    ensures forall i :: 0 <= i < 8 && i != 6 ==> SafeChars(UdpFields(c)[i])
  {
    forall i | 0 <= i < 8 && i != 6 ensures SafeChars(UdpFields(c)[i]) {
      DigitsAreSafe(UdpFields(c)[i]);
    }
  }

  /** Why validation guards the host: each space in it makes one more token, and without one the
      count is that of the program's own literals. */
  lemma HostSpacesAreTokens(c: Config)
    ensures |Split(BuildUdpPipeline(c))| == |SkeletonOf(UdpLiterals())| + Spaces(c.host)
  {
    UdpIsWoven(c);
    UdpFieldsButHost(c);
    FieldTokens(UdpLiterals(), UdpFields(c), 6);
    SplitCounts(BuildUdpPipeline(c));
  }
}
