/** The pipeline texts of jetcamd word by word, and a reader that finds a value by its name. Words stand
    for themselves here. */
module PipelineWords {
  import opened MachineTypes
  import opened Text
  import opened DaemonConfig
  import opened Pipeline

  // ---------- Words ----------

  lemma {:induction false} SpacedAppend(a: seq<string>, b: seq<string>)
    ensures Spaced(a + b) == Spaced(a) + Spaced(b)
    decreases |a|
  {
    if a == [] {
      assert a + b == b;
    } else {
      assert (a + b)[0] == a[0] && (a + b)[1..] == a[1..] + b;
      SpacedAppend(a[1..], b);
    }
  }

  /** A value after a word belongs to the word. */
  lemma ValueInWord(a: seq<string>, word: string, value: string, rest: seq<string>)
    ensures (Spaced(a) + Spaced([word])) + value + Spaced(rest) == Spaced(a + ([word + value] + rest))
  {
    SpacedAppend(a, [word + value] + rest);
    assert ([word + value] + rest)[1..] == rest;
    OneWord(word);
    Regroup(Spaced(a), [' '] + word, value, Spaced(rest));
    assert [' '] + word + value == [' '] + (word + value);
  }

  lemma OneWord(word: string)
    ensures Spaced([word]) == [' '] + word
  {
    assert [' '] + word + [] == [' '] + word;
  }

  lemma Regroup(a: string, b: string, c: string, d: string)
    ensures (a + b) + c + d == a + (b + c + d)
  {
  }

  lemma FirstValue(word: string, value: string, rest: seq<string>)
    ensures Spaced([word]) + value + Spaced(rest) == Spaced([word + value] + rest)
  {
    ValueInWord([], word, value, rest);
    assert [] + ([word + value] + rest) == [word + value] + rest;
    assert Spaced([]) + Spaced([word]) == Spaced([word]);
  }

  // ---------- From literals to words ----------

  /** The text from literal k on. */
  lemma WeaveFrom(literals: seq<string>, fields: seq<string>, k: nat)
    requires |literals| == |fields| + 1 && k < |fields|
    ensures Weave(literals[k..], fields[k..]) == literals[k] + fields[k] + Weave(literals[k + 1..], fields[k + 1..])
  {
    assert literals[k..][1..] == literals[k + 1..] && fields[k..][1..] == fields[k + 1..];
  }

  lemma WeaveLast(literals: seq<string>, fields: seq<string>)
    requires |literals| == |fields| + 1
    ensures Weave(literals[|fields|..], fields[|fields|..]) == literals[|fields|]
  {
  }

  lemma SevenParts(a: string, b: string, c: string, d: string, e: string, f: string, rest: string)
    ensures a + b + (c + d + (e + f + rest)) == (a + (b + c + d + e + f)) + rest
  {
    Regroup(c, d, e, f + rest);
    assert c + d + (e + f + rest) == (c + d + e + f) + rest;
    assert a + b + ((c + d + e + f) + rest) == a + (b + (c + d + e + f)) + rest;
    assert b + (c + d + e + f) == b + c + d + e + f;
  }

  /** Size and rate: width, height and framerate are in one word. */
  function Size(c: Config): string {
    Decimal(c.width) + ",height=" + Decimal(c.height) + ",framerate=" + Decimal(c.framerate) + "/1"
  }

  lemma SizeText(c: Config, rest: string)
    ensures WIDTH + Decimal(c.width)
            + (HEIGHT + Decimal(c.height) + (FRAMERATE + Decimal(c.framerate) + ("/1" + rest)))
         == WIDTH + Size(c) + rest
  {
    SevenParts(WIDTH, Decimal(c.width), HEIGHT, Decimal(c.height), FRAMERATE, Decimal(c.framerate), "/1" + rest);
    var size := Decimal(c.width) + HEIGHT + Decimal(c.height) + FRAMERATE + Decimal(c.framerate);
    Regroup(WIDTH, size, "/1", rest);
    assert WIDTH + size + ("/1" + rest) == WIDTH + (size + "/1") + rest;
  }

  lemma SizeWord(c: Config, rest: seq<string>)
    ensures WIDTH + Size(c) + Spaced(rest) == Spaced(["!", CAPS + ",width=" + Size(c)] + rest)
  {
    var word := CAPS + ",width=";
    SpacedAppend(["!"], [word]);
    assert ["!"] + [word] == ["!", word];
    ValueInWord(["!"], word, Size(c), rest);
    assert ["!"] + ([word + Size(c)] + rest) == ["!", word + Size(c)] + rest;
  }

  lemma CameraWord(sensor: string, rest: seq<string>)
    ensures CAMERA + sensor + Spaced(rest) == SOURCE + Spaced(["sensor-id=" + sensor] + rest)
  {
    FirstValue("sensor-id=", sensor, rest);
    Regroup(SOURCE, Spaced(["sensor-id="]), sensor, Spaced(rest));
  }

  /** The words up to the frame rate, before those of the rest. */
  lemma CameraWords(l: seq<string>, f: seq<string>, c: Config, rest: seq<string>)
    requires |l| == |f| + 1 && |f| > 4 && l[..4] == [CAMERA, WIDTH, HEIGHT, FRAMERATE]
    requires f[..4] == [Decimal(c.sensorId), Decimal(c.width), Decimal(c.height), Decimal(c.framerate)]
    requires Weave(l[4..], f[4..]) == "/1" + Spaced(rest)
    ensures Weave(l, f)
         == SOURCE + Spaced(["sensor-id=" + Decimal(c.sensorId)] + (["!", CAPS + ",width=" + Size(c)] + rest))
  {
    FirstFour(l, [CAMERA, WIDTH, HEIGHT, FRAMERATE]);
    FirstFour(f, [Decimal(c.sensorId), Decimal(c.width), Decimal(c.height), Decimal(c.framerate)]);
    WeaveFrom(l, f, 0);
    WeaveFrom(l, f, 1);
    WeaveFrom(l, f, 2);
    WeaveFrom(l, f, 3);
    SizeText(c, Spaced(rest));
    SizeWord(c, rest);
    CameraWord(Decimal(c.sensorId), ["!", CAPS + ",width=" + Size(c)] + rest);
    assert l[0..] == l && f[0..] == f;
  }

  lemma FirstFour(all: seq<string>, first: seq<string>)
    requires |all| >= 4 && |first| == 4 && all[..4] == first
    ensures all[0] == first[0] && all[1] == first[1] && all[2] == first[2] && all[3] == first[3]
  {
    assert all[..4][0] == all[0] && all[..4][1] == all[1] && all[..4][2] == all[2] && all[..4][3] == all[3];
  }

  /** The words of the encoder. */
  lemma EncoderWords(words: seq<string>, bitrate: string, gop: string, rest: seq<string>)
    ensures ("/1" + Spaced(words) + BITRATE) + bitrate + (GOP + gop + Spaced(rest))
         == "/1" + Spaced(words + (["bitrate=" + bitrate] + (["key-int-max=" + gop] + rest)))
  {
    FirstValue("key-int-max=", gop, rest);
    ValueInWord(words, "bitrate=", bitrate, ["key-int-max=" + gop] + rest);
    var tail := Spaced(["key-int-max=" + gop] + rest);
    Regroup("/1", Spaced(words), BITRATE, bitrate);
    assert ("/1" + Spaced(words) + BITRATE) + bitrate + tail == "/1" + (Spaced(words) + BITRATE + bitrate + tail);
  }

  lemma SinkWords(host: string, port: string)
    ensures UDP_PARSER + host + (PORT + port + Spaced(SNAPSHOT))
         == Spaced(PARSER + UDP_SINK + (["host=" + host] + (["port=" + port] + SNAPSHOT)))
  {
    FirstValue("port=", port, SNAPSHOT);
    ValueInWord(PARSER + UDP_SINK, "host=", host, ["port=" + port] + SNAPSHOT);
  }

  /** The words of the UDP text after the first. */
  function UdpWords(c: Config): seq<string> {
    ["sensor-id=" + Decimal(c.sensorId)] + (["!", CAPS + ",width=" + Size(c)] + (CONVERTER + TEE + PROBE + ENCODER
    + (["bitrate=" + Decimal(c.bitrateKbps)] + (["key-int-max=" + Decimal(c.gop)] + (PARSER + UDP_SINK
    + (["host=" + c.host] + (["port=" + Decimal(c.port)] + SNAPSHOT)))))))
  }

  /** The words of the RTSP text after the first. */
  function RtspWords(c: Config): seq<string> {
    ["sensor-id=" + Decimal(c.sensorId)] + (["!", CAPS + ",width=" + Size(c)] + (CONVERTER + PROBE + ENCODER
    + (["bitrate=" + Decimal(c.bitrateKbps)] + (["key-int-max=" + Decimal(c.gop)] + (PARSER + RTSP_SINK)))))
  }

  lemma UdpTail(c: Config)
    ensures Weave(UdpLiterals()[4..], UdpFields(c)[4..])
         == "/1" + Spaced(CONVERTER + TEE + PROBE + ENCODER
              + (["bitrate=" + Decimal(c.bitrateKbps)] + (["key-int-max=" + Decimal(c.gop)] + (PARSER + UDP_SINK
              + (["host=" + c.host] + (["port=" + Decimal(c.port)] + SNAPSHOT))))))
  {
    var l, f := UdpLiterals(), UdpFields(c);
    WeaveFrom(l, f, 4);
    WeaveFrom(l, f, 5);
    WeaveFrom(l, f, 6);
    WeaveFrom(l, f, 7);
    WeaveLast(l, f);
    SinkWords(c.host, Decimal(c.port));
    EncoderWords(CONVERTER + TEE + PROBE + ENCODER, Decimal(c.bitrateKbps), Decimal(c.gop), PARSER + UDP_SINK
      + (["host=" + c.host] + (["port=" + Decimal(c.port)] + SNAPSHOT)));
  }

  lemma UdpIsSpaced(c: Config)
    ensures BuildUdpPipeline(c) == SOURCE + Spaced(UdpWords(c))
  {
    UdpIsWoven(c);
    UdpTail(c);
    CameraWords(UdpLiterals(), UdpFields(c), c, CONVERTER + TEE + PROBE + ENCODER
      + (["bitrate=" + Decimal(c.bitrateKbps)] + (["key-int-max=" + Decimal(c.gop)] + (PARSER + UDP_SINK
      + (["host=" + c.host] + (["port=" + Decimal(c.port)] + SNAPSHOT))))));
  }

  lemma RtspTail(c: Config)
    ensures Weave(RtspLiterals()[4..], RtspFields(c)[4..])
         == "/1" + Spaced(CONVERTER + PROBE + ENCODER
              + (["bitrate=" + Decimal(c.bitrateKbps)] + (["key-int-max=" + Decimal(c.gop)] + (PARSER + RTSP_SINK))))
  {
    var l, f := RtspLiterals(), RtspFields(c);
    WeaveFrom(l, f, 4);
    WeaveFrom(l, f, 5);
    WeaveLast(l, f);
    SpacedAppend(PARSER, RTSP_SINK);
    EncoderWords(CONVERTER + PROBE + ENCODER, Decimal(c.bitrateKbps), Decimal(c.gop), PARSER + RTSP_SINK);
  }

  lemma RtspIsSpaced(c: Config)
    ensures BuildRtspCapturePipeline(c) == SOURCE + Spaced(RtspWords(c))
  {
    RtspIsWoven(c);
    RtspTail(c);
    CameraWords(RtspLiterals(), RtspFields(c), c, CONVERTER + PROBE + ENCODER
      + (["bitrate=" + Decimal(c.bitrateKbps)] + (["key-int-max=" + Decimal(c.gop)] + (PARSER + RTSP_SINK))));
  }

  // ---------- Finding a value by its name ----------

  /** What comes after the first occurrence of the key. */
  function After(text: string, key: string): Option<string>
    decreases |text|
  {
    if key <= text then Some(text[|key|..]) else if text == [] then None else After(text[1..], key)
  }

  /** The value of the key: as many characters after its first occurrence as are safe. */
  function ValueOf(text: string, key: string): Option<string> {
    match After(text, key)
    case None => None
    case Some(rest) => Some(rest[..SafeCount(rest)])
  }

  predicate Lacks(text: string, c: char) {
    forall i :: 0 <= i < |text| ==> text[i] != c
  }

  /** The key does not begin in this part, whatever follows. */
  predicate Passed(part: string, key: string) {
    && key != [] && (part != [] ==> Lacks(part[1..], key[0]))
    && (part == [] || part[0] != key[0] || exists i :: 0 <= i < |part| && i < |key| && part[i] != key[i])
  }

  lemma {:induction false} AfterPassed(part: string, key: string, rest: string)
    requires Passed(part, key)
    ensures After(part + rest, key) == After(rest, key)
    decreases |part|
  {
    if part == [] {
      assert part + rest == rest;
    } else {
      NotHere(part, key, rest);
      assert (part + rest)[1..] == part[1..] + rest;
      if part[1..] != [] {
        assert part[1..][0] != key[0];
      }
      assert Lacks(part[1..], key[0]) ==> part[1..] == [] || Lacks(part[1..][1..], key[0]);
      AfterPassed(part[1..], key, rest);
    }
  }

  lemma NotHere(part: string, key: string, rest: string)
    requires part != [] && Passed(part, key)
    ensures !(key <= part + rest)
  {
    if part[0] != key[0] {
      assert (part + rest)[0] != key[0];
    } else {
      var i :| 0 <= i < |part| && i < |key| && part[i] != key[i];
      assert (part + rest)[i] != key[i];
    }
  }

  lemma AfterFound(key: string, rest: string)
    ensures After(key + rest, key) == Some(rest)
  {
    assert (key + rest)[|key|..] == rest;
  }

  /** Another word than one that starts with the key. */
  predicate Other(word: string, key: string) {
    && Lacks(word, ' ') && word != [] && key != []
    && (word[0] != key[0] || (|word| > 1 && |key| > 1 && word[1] != key[1]))
  }

  predicate AllOther(words: seq<string>, key: string) {
    forall i :: 0 <= i < |words| ==> Other(words[i], key)
  }

  lemma OtherIsPassed(word: string, key: string)
    requires Other(word, key)
    ensures Passed([' '] + word, [' '] + key)
  {
    var part, k := [' '] + word, [' '] + key;
    assert part[1..] == word;
    if word[0] != key[0] {
      assert part[1] != k[1];
    } else {
      assert part[2] != k[2];
    }
  }

  lemma {:induction false} AfterOthers(words: seq<string>, key: string, rest: string)
    requires AllOther(words, key)
    ensures After(Spaced(words) + rest, [' '] + key) == After(rest, [' '] + key)
    decreases |words|
  {
    if words == [] {
      assert [] + rest == rest;
    } else {
      OtherIsPassed(words[0], key);
      AfterPassed([' '] + words[0], [' '] + key, Spaced(words[1..]) + rest);
      Associates([' '] + words[0], Spaced(words[1..]), rest);
      AfterOthers(words[1..], key, rest);
    }
  }

  lemma SpacedEnds(words: seq<string>)
    ensures words != [] ==> Spaced(words) != [] && Spaced(words)[0] == ' '
  {
  }

  lemma ValueEnds(value: string, rest: string)
    requires SafeChars(value) && (rest != [] ==> !SafeChar(rest[0]))
    ensures (value + rest)[..SafeCount(value + rest)] == value
  {
    if rest == [] {
      assert value + rest == value;
      AllSafeCount(value);
    } else {
      SafeCountOf(value, rest);
    }
  }

  lemma {:induction false} AllSafeCount(value: string)
    requires SafeChars(value)
    ensures SafeCount(value) == |value|
    decreases |value|
  {
    if value != [] {
      AllSafeCount(value[1..]);
    }
  }

  /** The value of a word is found behind its name, if no word before starts like it. */
  lemma WordFound(source: string, before: seq<string>, key: string, value: string, after: seq<string>)
    requires Lacks(source, ' ') && AllOther(before, key) && SafeChars(value) && key != []
    ensures ValueOf(source + Spaced(before + ([key + value] + after)), [' '] + key) == Some(value)
  {
    var k, rest := [' '] + key, [key + value] + after;
    SpacedAppend(before, rest);
    assert source == [] || (Lacks(source[1..], ' ') && source[0] != ' ');
    AfterPassed(source, k, Spaced(before) + Spaced(rest));
    AfterOthers(before, key, Spaced(rest));
    assert rest[0] == key + value && rest[1..] == after;
    assert Spaced(rest) == k + (value + Spaced(after));
    AfterFound(k, value + Spaced(after));
    SpacedEnds(after);
    ValueEnds(value, Spaced(after));
  }

  lemma AllOtherAppend(a: seq<string>, b: seq<string>, key: string)
    requires AllOther(a, key) && AllOther(b, key)
    ensures AllOther(a + b, key)
  {
  }

  lemma OneOther(word: string, key: string)
    requires Other(word, key)
    ensures AllOther([word], key)
  {
  }

  // ---------- The words of the program ----------

  predicate NoSpaces(words: seq<string>) {
    forall i :: 0 <= i < |words| ==> words[i] != [] && Lacks(words[i], ' ')
  }

  lemma ConverterPlain()
    ensures NoSpaces(CONVERTER)
  {
  }

  lemma TeePlain()
    ensures NoSpaces(TEE)
  {
  }

  lemma ProbePlain()
    ensures NoSpaces(PROBE)
  {
  }

  lemma EncoderPlain()
    ensures NoSpaces(ENCODER)
  {
  }

  lemma ParserPlain()
    ensures NoSpaces(PARSER)
  {
  }

  lemma UdpSinkPlain()
    ensures NoSpaces(UDP_SINK)
  {
  }

  lemma BranchPlain()
    ensures NoSpaces(BRANCH)
  {
  }

  lemma ValvePlain()
    ensures NoSpaces(VALVE)
  {
  }

  lemma AppsinkPlain()
    ensures NoSpaces(APPSINK)
  {
  }

  lemma RtspSinkPlain()
    ensures NoSpaces(RTSP_SINK)
  {
  }

  lemma NoSpacesAppend(a: seq<string>, b: seq<string>)
    requires NoSpaces(a) && NoSpaces(b)
    ensures NoSpaces(a + b)
  {
  }

  lemma ValuePlain(word: string, value: string)
    requires word != [] && Lacks(word, ' ') && SafeChars(value)
    ensures NoSpaces([word + value])
  {
  }

  lemma SizePlain(c: Config)
    ensures NoSpaces(["!", CAPS + ",width=" + Size(c)]) && Lacks(Size(c), ' ')
  {
    var a, b := Decimal(c.width) + ",height=", Decimal(c.height) + ",framerate=";
    var d := Decimal(c.framerate) + "/1";
    assert Lacks(a, ' ') && Lacks(b, ' ') && Lacks(d, ' ');
    Regroup(a, Decimal(c.height), ",framerate=", d);
    assert Size(c) == a + b + d;
    assert Lacks("video/x-raw(memory:NVMM)", ' ') && Lacks(",format=NV12", ' ') && Lacks(",width=", ' ');
  }

  lemma EncodingPlain()
    ensures NoSpaces(CONVERTER + TEE + PROBE + ENCODER) && NoSpaces(CONVERTER + PROBE + ENCODER)
  {
    ConverterPlain();
    TeePlain();
    ProbePlain();
    EncoderPlain();
    NoSpacesAppend(CONVERTER, TEE);
    NoSpacesAppend(CONVERTER + TEE, PROBE);
    NoSpacesAppend(CONVERTER + TEE + PROBE, ENCODER);
    NoSpacesAppend(CONVERTER, PROBE);
    NoSpacesAppend(CONVERTER + PROBE, ENCODER);
  }

  lemma SnapshotPlain()
    ensures NoSpaces(SNAPSHOT)
  {
    BranchPlain();
    ValvePlain();
    AppsinkPlain();
    NoSpacesAppend(BRANCH, VALVE);
    NoSpacesAppend(BRANCH + VALVE, APPSINK);
  }

  lemma UdpWordsPlain(c: Config)
    requires SafeToken(c.host)
    ensures NoSpaces(UdpWords(c))
  {
    EncodingPlain();
    ParserPlain();
    UdpSinkPlain();
    SnapshotPlain();
    SizePlain(c);
    ValuePlain("sensor-id=", Decimal(c.sensorId));
    ValuePlain("bitrate=", Decimal(c.bitrateKbps));
    ValuePlain("key-int-max=", Decimal(c.gop));
    ValuePlain("host=", c.host);
    ValuePlain("port=", Decimal(c.port));
    UdpWordsJoined(c);
  }

  lemma UdpWordsJoined(c: Config)
    requires NoSpaces(["sensor-id=" + Decimal(c.sensorId)]) && NoSpaces(["!", CAPS + ",width=" + Size(c)])
    requires NoSpaces(CONVERTER + TEE + PROBE + ENCODER) && NoSpaces(["bitrate=" + Decimal(c.bitrateKbps)])
    requires NoSpaces(["key-int-max=" + Decimal(c.gop)]) && NoSpaces(PARSER) && NoSpaces(UDP_SINK)
    requires NoSpaces(["host=" + c.host]) && NoSpaces(["port=" + Decimal(c.port)]) && NoSpaces(SNAPSHOT)
    ensures NoSpaces(UdpWords(c))
  {
  }

  lemma RtspWordsPlain(c: Config)
    ensures NoSpaces(RtspWords(c))
  {
    EncodingPlain();
    ParserPlain();
    RtspSinkPlain();
    SizePlain(c);
    ValuePlain("sensor-id=", Decimal(c.sensorId));
    ValuePlain("bitrate=", Decimal(c.bitrateKbps));
    ValuePlain("key-int-max=", Decimal(c.gop));
    RtspWordsJoined(c);
  }

  lemma RtspWordsJoined(c: Config)
    requires NoSpaces(["sensor-id=" + Decimal(c.sensorId)]) && NoSpaces(["!", CAPS + ",width=" + Size(c)])
    requires NoSpaces(CONVERTER + PROBE + ENCODER) && NoSpaces(["bitrate=" + Decimal(c.bitrateKbps)])
    requires NoSpaces(["key-int-max=" + Decimal(c.gop)]) && NoSpaces(PARSER) && NoSpaces(RTSP_SINK)
    ensures NoSpaces(RtspWords(c))
  {
  }

  lemma {:induction false} SplitPlain(word: string)
    requires Lacks(word, ' ')
    ensures Split(word) == [word]
    decreases |word|
  {
    if word != [] {
      assert word == [word[0]] + word[1..];
      SplitPlain(word[1..]);
    }
  }

  lemma JoinFirst(first: string, words: seq<string>)
    requires words != []
    ensures Join([first], [[]] + ([words[0]] + words[1..])) == [first] + words
  {
    assert first + [] == first;
    assert [words[0]] + words[1..] == words;
  }

  /** Split at its spaces, a text of words is its words. */
  lemma {:induction false} SplitWords(first: string, words: seq<string>)
    requires Lacks(first, ' ') && NoSpaces(words)
    ensures Split(first + Spaced(words)) == [first] + words
    decreases |words|
  {
    SplitPlain(first);
    SplitJoins(first, Spaced(words));
    if words == [] {
      assert first + [] == first;
    } else {
      SplitWords(words[0], words[1..]);
      SplitSpace(words[0] + Spaced(words[1..]));
      Associates([' '], words[0], Spaced(words[1..]));
      assert Spaced(words) == [' '] + (words[0] + Spaced(words[1..]));
      JoinFirst(first, words);
    }
  }

  // ---------- The texts, word by word ----------

  lemma FlatList(source: string, s: string, a: string, caps: string, e: seq<string>, b: string, g: string,
                 rest: seq<string>)
    ensures [source] + ([s] + ([a, caps] + (e + ([b] + ([g] + rest))))) == [source, s, a, caps] + e + [b, g] + rest
  {
    assert [b] + ([g] + rest) == [b, g] + rest;
    assert [source] + ([s] + ([a, caps] + (e + ([b, g] + rest)))) == [source, s, a, caps] + (e + ([b, g] + rest));
    Associates([source, s, a, caps], e, [b, g] + rest);
    Associates([source, s, a, caps] + e, [b, g], rest);
  }

  lemma FlatSink(before: seq<string>, p: seq<string>, h: string, o: string, n: seq<string>)
    ensures before + (p + ([h] + ([o] + n))) == before + p + [h, o] + n
  {
    assert [h] + ([o] + n) == [h, o] + n;
    Associates(before, p, [h, o] + n);
    Associates(before + p, [h, o], n);
  }

  /** The UDP text of a validated configuration, split at its spaces. */
  lemma UdpTokens(c: Config)
    requires Validate(c).Success?
    ensures Split(BuildUdpPipeline(c)) ==
      ["nvarguscamerasrc", "sensor-id=" + Decimal(c.sensorId), "!",
       "video/x-raw(memory:NVMM)" + ",format=NV12"
         + ",width=" + (Decimal(c.width) + ",height=" + Decimal(c.height) + ",framerate=" + Decimal(c.framerate) + "/1")]
      + (["!", "nvvidconv", "!", "video/x-raw" + ",format=I420"]
         + ["!", "tee", "name=rawtee", "rawtee.", "!", "queue", "max-size-buffers=4", "leaky=downstream"]
         + ["!", "identity", "name=frame_probe", "silent=true"]
         + ["!", "x264enc", "tune=zerolatency", "speed-preset=ultrafast"])
      + ["bitrate=" + Decimal(c.bitrateKbps), "key-int-max=" + Decimal(c.gop)]
      + (["bframes=0", "byte-stream=true", "aud=true", "sliced-threads=true"]
         + ["!", "video/x-h264" + ",profile=baseline", "!", "h264parse", "config-interval=1"]
         + ["!", "mpegtsmux", "alignment=7", "!", "udpsink"])
      + ["host=" + c.host, "port=" + Decimal(c.port)]
      + (["sync=false", "async=false", "rawtee.", "!", "queue", "max-size-buffers=1", "leaky=downstream"]
         + ["!", "valve", "name=snapshot_valve", "drop=true", "!", "videoconvert", "!", "jpegenc", "quality=90"]
         + (["!", "appsink", "name=snapshot_sink", "emit-signals=true"] + ["max-buffers=1", "drop=true", "sync=false"]))
  {
    UdpSplit(c);
    var encoding, caps := CONVERTER + TEE + PROBE + ENCODER, CAPS + ",width=" + Size(c);
    var sensor, bitrate := "sensor-id=" + Decimal(c.sensorId), "bitrate=" + Decimal(c.bitrateKbps);
    var gop, host, port := "key-int-max=" + Decimal(c.gop), "host=" + c.host, "port=" + Decimal(c.port);
    FlatList(SOURCE, sensor, "!", caps, encoding, bitrate, gop, PARSER + UDP_SINK + ([host] + ([port] + SNAPSHOT)));
    FlatSink([SOURCE, sensor, "!", caps] + encoding + [bitrate, gop], PARSER + UDP_SINK, host, port, SNAPSHOT);
  }

  lemma UdpSplit(c: Config)
    requires Validate(c).Success?
    ensures Split(BuildUdpPipeline(c)) == [SOURCE] + UdpWords(c)
  {
    UdpIsSpaced(c);
    UdpWordsPlain(c);
    SplitWords(SOURCE, UdpWords(c));
  }

  lemma RtspSplit(c: Config)
    ensures Split(BuildRtspCapturePipeline(c)) == [SOURCE] + RtspWords(c)
  {
    RtspIsSpaced(c);
    RtspWordsPlain(c);
    SplitWords(SOURCE, RtspWords(c));
  }

  /** The RTSP text of any configuration, split at its spaces. */
  lemma RtspTokens(c: Config)
    ensures Split(BuildRtspCapturePipeline(c)) ==
      ["nvarguscamerasrc", "sensor-id=" + Decimal(c.sensorId), "!",
       "video/x-raw(memory:NVMM)" + ",format=NV12"
         + ",width=" + (Decimal(c.width) + ",height=" + Decimal(c.height) + ",framerate=" + Decimal(c.framerate) + "/1")]
      + (["!", "nvvidconv", "!", "video/x-raw" + ",format=I420"]
         + ["!", "identity", "name=frame_probe", "silent=true"]
         + ["!", "x264enc", "tune=zerolatency", "speed-preset=ultrafast"])
      + ["bitrate=" + Decimal(c.bitrateKbps), "key-int-max=" + Decimal(c.gop)]
      + (["bframes=0", "byte-stream=true", "aud=true", "sliced-threads=true"]
         + ["!", "video/x-h264" + ",profile=baseline", "!", "h264parse", "config-interval=1"]
         + (["!", "rtph264pay", "pt=96", "config-interval=1"]
            + ["!", "udpsink", "host=127.0.0.1", "port=5400", "sync=false", "async=false"]))
  {
    RtspSplit(c);
    FlatList(SOURCE, "sensor-id=" + Decimal(c.sensorId), "!", CAPS + ",width=" + Size(c), CONVERTER + PROBE + ENCODER,
             "bitrate=" + Decimal(c.bitrateKbps), "key-int-max=" + Decimal(c.gop), PARSER + RTSP_SINK);
  }

  /** The elements the program looks up by name, and the closed valve. */
  lemma NamedElements(c: Config)
    requires Validate(c).Success?
    ensures var tokens := Split(BuildUdpPipeline(c));
      && |tokens| == 65 && tokens[18] == "name=frame_probe"
      && tokens[50] == "valve" && tokens[51] == "name=snapshot_valve" && tokens[52] == "drop=true"
      && tokens[59] == "appsink" && tokens[60] == "name=snapshot_sink"
  {
    UdpTokens(c);
  }

  // ---------- Every value under its own name ----------

  /** Words that start like none of the names after the frame rate. */
  predicate StartElse(words: seq<string>) {
    forall i :: 0 <= i < |words| ==> words[i] != [] && words[i][0] !in {'b', 'k', 'h', 'p'}
  }

  lemma ElseIsOther(words: seq<string>, key: string)
    requires NoSpaces(words) && StartElse(words) && key != [] && key[0] in {'b', 'k', 'h', 'p'}
    ensures AllOther(words, key)
  {
  }

  lemma ConverterStarts()
    ensures StartElse(CONVERTER)
  {
  }

  lemma TeeStarts()
    ensures StartElse(TEE)
  {
  }

  lemma ProbeStarts()
    ensures StartElse(PROBE)
  {
  }

  lemma EncoderStarts()
    ensures StartElse(ENCODER)
  {
  }

  /** The words before the bit rate. */
  function Front(c: Config, encoding: seq<string>): seq<string> {
    ["sensor-id=" + Decimal(c.sensorId)] + (["!", CAPS + ",width=" + Size(c)] + encoding)
  }

  lemma FrontStarts(c: Config, encoding: seq<string>)
    requires NoSpaces(encoding) && StartElse(encoding)
    ensures NoSpaces(Front(c, encoding)) && StartElse(Front(c, encoding))
  {
    SizePlain(c);
    ValuePlain("sensor-id=", Decimal(c.sensorId));
    assert ("sensor-id=" + Decimal(c.sensorId))[0] == 's' && (CAPS + ",width=" + Size(c))[0] == 'v';
  }

  lemma EncodingStarts()
    ensures StartElse(CONVERTER + TEE + PROBE + ENCODER) && StartElse(CONVERTER + PROBE + ENCODER)
  {
    ConverterStarts();
    TeeStarts();
    ProbeStarts();
    EncoderStarts();
  }

  /** The words between the GOP and the host look like neither host nor port. */
  lemma ParserOther()
    ensures AllOther(PARSER + UDP_SINK, "host=") && AllOther(PARSER + UDP_SINK, "port=")
  {
    ParserPlain();
    UdpSinkPlain();
    assert "host="[0] == 'h' && "host="[1] == 'o' && "port="[0] == 'p';
  }

  lemma SensorFound(source: string, sensor: string, rest: seq<string>)
    requires Lacks(source, ' ') && SafeChars(sensor)
    ensures ValueOf(source + Spaced(["sensor-id=" + sensor] + rest), " sensor-id=") == Some(sensor)
  {
    WordFound(source, [], "sensor-id=", sensor, rest);
    assert [] + (["sensor-id=" + sensor] + rest) == ["sensor-id=" + sensor] + rest;
    assert " sensor-id=" == [' '] + "sensor-id=";
  }

  lemma BitrateFound(source: string, front: seq<string>, value: string, rest: seq<string>)
    requires Lacks(source, ' ') && NoSpaces(front) && StartElse(front) && SafeChars(value)
    ensures ValueOf(source + Spaced(front + (["bitrate=" + value] + rest)), " bitrate=") == Some(value)
  {
    assert "bitrate="[0] == 'b';
    ElseIsOther(front, "bitrate=");
    WordFound(source, front, "bitrate=", value, rest);
    assert " bitrate=" == [' '] + "bitrate=";
  }

  lemma GopFound(source: string, front: seq<string>, bitrate: string, value: string, rest: seq<string>)
    requires Lacks(source, ' ') && NoSpaces(front) && StartElse(front) && SafeChars(bitrate) && SafeChars(value)
    ensures ValueOf(source + Spaced(front + (["bitrate=" + bitrate] + (["key-int-max=" + value] + rest))), " key-int-max=")
         == Some(value)
  {
    var key, before := "key-int-max=", front + ["bitrate=" + bitrate];
    assert key[0] == 'k' && ("bitrate=" + bitrate)[0] == 'b';
    ElseIsOther(front, key);
    ValuePlain("bitrate=", bitrate);
    OneOther("bitrate=" + bitrate, key);
    AllOtherAppend(front, ["bitrate=" + bitrate], key);
    WordFound(source, before, key, value, rest);
    Associates(front, ["bitrate=" + bitrate], [key + value] + rest);
    assert " key-int-max=" == [' '] + "key-int-max=";
  }

  /** The words up to the host. */
  function UpToHost(front: seq<string>, bitrate: string, gop: string, words: seq<string>): seq<string> {
    front + (["bitrate=" + bitrate] + (["key-int-max=" + gop] + words))
  }

  lemma UpToHostOther(front: seq<string>, bitrate: string, gop: string, words: seq<string>, key: string)
    requires NoSpaces(front) && StartElse(front) && SafeChars(bitrate) && SafeChars(gop) && AllOther(words, key)
    requires key != [] && key[0] in {'h', 'p'}
    ensures AllOther(UpToHost(front, bitrate, gop, words), key)
  {
    ElseIsOther(front, key);
    assert ("bitrate=" + bitrate)[0] == 'b' && ("key-int-max=" + gop)[0] == 'k';
    ValuePlain("bitrate=", bitrate);
    ValuePlain("key-int-max=", gop);
    OneOther("bitrate=" + bitrate, key);
    OneOther("key-int-max=" + gop, key);
    AllOtherAppend(["key-int-max=" + gop], words, key);
    AllOtherAppend(["bitrate=" + bitrate], ["key-int-max=" + gop] + words, key);
    AllOtherAppend(front, ["bitrate=" + bitrate] + (["key-int-max=" + gop] + words), key);
  }

  lemma HostFound(source: string, before: seq<string>, host: string, rest: seq<string>)
    requires Lacks(source, ' ') && AllOther(before, "host=") && SafeChars(host)
    ensures ValueOf(source + Spaced(before + (["host=" + host] + rest)), " host=") == Some(host)
  {
    WordFound(source, before, "host=", host, rest);
    assert " host=" == [' '] + "host=";
  }

  lemma PortFound(source: string, before: seq<string>, host: string, port: string, rest: seq<string>)
    requires Lacks(source, ' ') && AllOther(before, "port=") && SafeChars(host) && SafeChars(port)
    ensures ValueOf(source + Spaced(before + (["host=" + host] + (["port=" + port] + rest))), " port=") == Some(port)
  {
    var key := "port=";
    assert key[0] == 'p' && ("host=" + host)[0] == 'h';
    ValuePlain("host=", host);
    OneOther("host=" + host, key);
    AllOtherAppend(before, ["host=" + host], key);
    WordFound(source, before + ["host=" + host], key, port, rest);
    Associates(before, ["host=" + host], [key + port] + rest);
    assert " port=" == [' '] + "port=";
  }

  // ---------- The size in the capabilities ----------

  lemma CapsPlace(source: string, sensor: string, caps: string, rest: seq<string>)
    ensures source + Spaced([sensor] + (["!", caps] + rest))
         == (source + Spaced([sensor, "!"]) + [' ']) + (caps + Spaced(rest))
  {
    assert [sensor] + (["!", caps] + rest) == [sensor, "!"] + ([caps] + rest);
    SpacedAppend([sensor, "!"], [caps] + rest);
    assert ([caps] + rest)[1..] == rest;
    Regroup(source, Spaced([sensor, "!"]), [' '], caps + Spaced(rest));
    Associates([' '], caps, Spaced(rest));
    Associates(Spaced([sensor, "!"]), [' '], caps + Spaced(rest));
  }

  lemma CapsParts(c: Config, rest: string)
    ensures (CAPS + ",width=" + Size(c)) + rest
         == "video/x-raw(memory:NVMM)" + (",format=NV12" + (",width=" + (Decimal(c.width) + (",height="
            + (Decimal(c.height) + (",framerate=" + (Decimal(c.framerate) + ("/1" + rest))))))))
  {
    EightParts("video/x-raw(memory:NVMM)", ",format=NV12", ",width=", Decimal(c.width), ",height=", Decimal(c.height),
               ",framerate=", Decimal(c.framerate), rest);
  }

  lemma EightParts(a: string, b: string, c: string, d: string, e: string, f: string, g: string, h: string, rest: string)
    ensures (a + b + c + (d + e + f + g + h + "/1")) + rest
         == a + (b + (c + (d + (e + (f + (g + (h + ("/1" + rest))))))))
  {
    assert d + e + f + g + h + "/1" + rest == d + (e + (f + (g + (h + ("/1" + rest))))) by {
      SizeParts(d, e, f, g, h, rest);
    }
    var size := d + e + f + g + h + "/1";
    assert (a + b + c + size) + rest == a + (b + (c + (size + rest)));
  }

  lemma SizeParts(d: string, e: string, f: string, g: string, h: string, rest: string)
    ensures d + e + f + g + h + "/1" + rest == d + (e + (f + (g + (h + ("/1" + rest)))))
  {
    Associates(d + e + f + g + h, "/1", rest);
    Associates(d + e + f + g, h, "/1" + rest);
    Associates(d + e + f, g, h + ("/1" + rest));
    Associates(d + e, f, g + (h + ("/1" + rest)));
    Associates(d, e, f + (g + (h + ("/1" + rest))));
  }

  predicate NoCommas(text: string) {
    Lacks(text, ',')
  }

  lemma CommaPassed(part: string, key: string)
    requires NoCommas(part) && key != [] && key[0] == ','
    ensures Passed(part, key)
  {
  }

  /** A part that begins with another name. */
  lemma NamePassed(name: string, value: string, key: string)
    requires |name| > 2 && |key| > 2 && name[0] == ',' == key[0] && (name[1] != key[1] || name[2] != key[2])
    requires NoCommas(name[1..]) && SafeChars(value)
    ensures Passed(name + value, key)
  {
    var part := name + value;
    assert part[1..] == name[1..] + value;
    assert part[0] == name[0] && part[1] == name[1] && part[2] == name[2];
  }

  lemma NamedValue(key: string, value: string, rest: string)
    requires key != [] && SafeChars(value) && (rest != [] ==> !SafeChar(rest[0]))
    ensures ValueOf(key + (value + rest), key) == Some(value)
  {
    AfterFound(key, value + rest);
    ValueEnds(value, rest);
  }

  lemma PastPart(part: string, key: string, rest: string)
    requires Passed(part, key)
    ensures ValueOf(part + rest, key) == ValueOf(rest, key)
  {
    AfterPassed(part, key, rest);
  }

  lemma PastNamed(name: string, value: string, key: string, rest: string)
    requires Passed(name + value, key)
    ensures ValueOf(name + (value + rest), key) == ValueOf(rest, key)
  {
    PastPart(name + value, key, rest);
    Associates(name, value, rest);
  }

  lemma PastTwo(a: string, b: string, key: string, rest: string)
    requires NoCommas(a) && NoCommas(b) && key != [] && key[0] == ','
    ensures ValueOf(a + (b + rest), key) == ValueOf(rest, key)
  {
    CommaPassed(a, key);
    CommaPassed(b, key);
    PastPart(a, key, b + rest);
    PastPart(b, key, rest);
  }

  lemma FormatPassed()
    ensures Passed(",format=NV12", ",width=") && Passed(",format=NV12", ",height=") && Passed(",format=NV12", ",framerate=")
  {
    assert ",format=NV12"[1] == 'f' && ",format=NV12"[2] == 'o';
    assert ",width="[1] == 'w' && ",height="[1] == 'h' && ",framerate="[2] == 'r';
  }

  lemma WidthFound(a: string, b: string, w: string, rest: string)
    requires NoCommas(a) && NoCommas(b) && SafeChars(w) && rest != [] && !SafeChar(rest[0])
    ensures ValueOf(a + (b + (",format=NV12" + (",width=" + (w + rest)))), ",width=") == Some(w)
  {
    PastTwo(a, b, ",width=", ",format=NV12" + (",width=" + (w + rest)));
    FormatPassed();
    PastPart(",format=NV12", ",width=", ",width=" + (w + rest));
    NamedValue(",width=", w, rest);
  }

  lemma HeightFound(a: string, b: string, w: string, h: string, rest: string)
    requires NoCommas(a) && NoCommas(b) && SafeChars(w) && SafeChars(h) && rest != [] && !SafeChar(rest[0])
    ensures ValueOf(a + (b + (",format=NV12" + (",width=" + (w + (",height=" + (h + rest)))))), ",height=") == Some(h)
  {
    var tail := ",height=" + (h + rest);
    PastTwo(a, b, ",height=", ",format=NV12" + (",width=" + (w + tail)));
    FormatPassed();
    PastPart(",format=NV12", ",height=", ",width=" + (w + tail));
    NamePassed(",width=", w, ",height=");
    PastNamed(",width=", w, ",height=", tail);
    NamedValue(",height=", h, rest);
  }

  lemma RateAfterSize(w: string, h: string, f: string, rest: string)
    requires SafeChars(w) && SafeChars(h) && SafeChars(f) && rest != [] && !SafeChar(rest[0])
    ensures ValueOf(",width=" + (w + (",height=" + (h + (",framerate=" + (f + rest))))), ",framerate=") == Some(f)
  {
    var tail := ",framerate=" + (f + rest);
    NamePassed(",width=", w, ",framerate=");
    PastNamed(",width=", w, ",framerate=", ",height=" + (h + tail));
    NamePassed(",height=", h, ",framerate=");
    PastNamed(",height=", h, ",framerate=", tail);
    NamedValue(",framerate=", f, rest);
  }

  lemma RateFound(a: string, b: string, w: string, h: string, f: string, rest: string)
    requires NoCommas(a) && NoCommas(b) && SafeChars(w) && SafeChars(h) && SafeChars(f)
    requires rest != [] && !SafeChar(rest[0])
    ensures ValueOf(a + (b + (",format=NV12" + (",width=" + (w + (",height=" + (h + (",framerate=" + (f + rest)))))))),
                    ",framerate=") == Some(f)
  {
    var tail := ",width=" + (w + (",height=" + (h + (",framerate=" + (f + rest)))));
    PastTwo(a, b, ",framerate=", ",format=NV12" + tail);
    FormatPassed();
    PastPart(",format=NV12", ",framerate=", tail);
    RateAfterSize(w, h, f, rest);
  }

  lemma CameraFound(c: Config, rest: seq<string>)
    ensures var text := SOURCE + Spaced(["sensor-id=" + Decimal(c.sensorId)] + (["!", CAPS + ",width=" + Size(c)] + rest));
      && ValueOf(text, " sensor-id=") == Some(Decimal(c.sensorId)) && ValueOf(text, ",width=") == Some(Decimal(c.width))
      && ValueOf(text, ",height=") == Some(Decimal(c.height))
      && ValueOf(text, ",framerate=") == Some(Decimal(c.framerate))
  {
    var sensor, caps := "sensor-id=" + Decimal(c.sensorId), CAPS + ",width=" + Size(c);
    var before, raw := SOURCE + Spaced([sensor, "!"]) + [' '], "video/x-raw(memory:NVMM)";
    SensorFound(SOURCE, Decimal(c.sensorId), ["!", caps] + rest);
    CapsPlace(SOURCE, sensor, caps, rest);
    CapsParts(c, Spaced(rest));
    BeforeLacksCommas(Decimal(c.sensorId));
    SlashEnds(Spaced(rest));
    var end := "/1" + Spaced(rest);
    var rate := ",framerate=" + (Decimal(c.framerate) + end);
    WidthFound(before, raw, Decimal(c.width), ",height=" + (Decimal(c.height) + rate));
    HeightFound(before, raw, Decimal(c.width), Decimal(c.height), rate);
    RateFound(before, raw, Decimal(c.width), Decimal(c.height), Decimal(c.framerate), end);
  }

  lemma BeforeLacksCommas(sensor: string)
    requires SafeChars(sensor)
    ensures NoCommas(SOURCE + Spaced(["sensor-id=" + sensor, "!"]) + [' ']) && NoCommas("video/x-raw(memory:NVMM)")
  {
    var words := ["sensor-id=" + sensor, "!"];
    assert words[1..] == ["!"];
    OneWord("!");
    assert Spaced(words) == [' '] + ("sensor-id=" + sensor) + Spaced(["!"]);
  }

  lemma SlashEnds(rest: string)
    ensures ("/1" + rest)[0] == '/' && !SafeChar('/')
  {
  }

  // ---------- The values of a text ----------

  lemma FrontPlace(c: Config, encoding: seq<string>, rest: seq<string>)
    ensures ["sensor-id=" + Decimal(c.sensorId)] + (["!", CAPS + ",width=" + Size(c)] + (encoding + rest))
         == Front(c, encoding) + rest
  {
    var sensor, caps := ["sensor-id=" + Decimal(c.sensorId)], ["!", CAPS + ",width=" + Size(c)];
    Associates(caps, encoding, rest);
    Associates(sensor, caps + encoding, rest);
  }

  lemma SourcePlain()
    ensures Lacks(SOURCE, ' ')
  {
  }

  lemma DecimalSafe(n: nat)
    ensures SafeChars(Decimal(n))
  {
    DigitsAreSafe(Decimal(n));
  }

  /** The bit rate and the GOP, whatever follows them. */
  lemma EncoderFound(c: Config, encoding: seq<string>, rest: seq<string>)
    requires NoSpaces(encoding) && StartElse(encoding)
    ensures var text := SOURCE + Spaced(Front(c, encoding)
        + (["bitrate=" + Decimal(c.bitrateKbps)] + (["key-int-max=" + Decimal(c.gop)] + rest)));
      && ValueOf(text, " bitrate=") == Some(Decimal(c.bitrateKbps))
      && ValueOf(text, " key-int-max=") == Some(Decimal(c.gop))
  {
    SourcePlain();
    FrontStarts(c, encoding);
    DecimalSafe(c.bitrateKbps);
    DecimalSafe(c.gop);
    BitrateFound(SOURCE, Front(c, encoding), Decimal(c.bitrateKbps), ["key-int-max=" + Decimal(c.gop)] + rest);
    GopFound(SOURCE, Front(c, encoding), Decimal(c.bitrateKbps), Decimal(c.gop), rest);
  }

  lemma SinkFound(c: Config, front: seq<string>, words: seq<string>, rest: seq<string>)
    requires NoSpaces(front) && StartElse(front) && SafeChars(c.host)
    requires AllOther(words, "host=") && AllOther(words, "port=")
    ensures var text := SOURCE + Spaced(UpToHost(front, Decimal(c.bitrateKbps), Decimal(c.gop), words)
        + (["host=" + c.host] + (["port=" + Decimal(c.port)] + rest)));
      ValueOf(text, " host=") == Some(c.host) && ValueOf(text, " port=") == Some(Decimal(c.port))
  {
    SourcePlain();
    DecimalSafe(c.bitrateKbps);
    DecimalSafe(c.gop);
    DecimalSafe(c.port);
    assert "host="[0] == 'h' && "port="[0] == 'p';
    UpToHostOther(front, Decimal(c.bitrateKbps), Decimal(c.gop), words, "host=");
    UpToHostOther(front, Decimal(c.bitrateKbps), Decimal(c.gop), words, "port=");
    HostFound(SOURCE, UpToHost(front, Decimal(c.bitrateKbps), Decimal(c.gop), words), c.host,
              ["port=" + Decimal(c.port)] + rest);
    PortFound(SOURCE, UpToHost(front, Decimal(c.bitrateKbps), Decimal(c.gop), words), c.host, Decimal(c.port), rest);
  }

  lemma HostPlace(front: seq<string>, b: string, g: string, words: seq<string>, rest: seq<string>)
    ensures front + (["bitrate=" + b] + (["key-int-max=" + g] + (words + rest))) == UpToHost(front, b, g, words) + rest
  {
    Associates(["key-int-max=" + g], words, rest);
    Associates(["bitrate=" + b], ["key-int-max=" + g] + words, rest);
    Associates(front, ["bitrate=" + b] + (["key-int-max=" + g] + words), rest);
  }

  /** In the UDP text of a validated configuration a reader finds every value behind its own name. */
  lemma UdpValues(c: Config)
    requires Validate(c).Success?
    ensures var text := BuildUdpPipeline(c);
      && ValueOf(text, " sensor-id=") == Some(Decimal(c.sensorId))
      && ValueOf(text, ",width=") == Some(Decimal(c.width))
      && ValueOf(text, ",height=") == Some(Decimal(c.height))
      && ValueOf(text, ",framerate=") == Some(Decimal(c.framerate))
      && ValueOf(text, " bitrate=") == Some(Decimal(c.bitrateKbps))
      && ValueOf(text, " key-int-max=") == Some(Decimal(c.gop))
      && ValueOf(text, " host=") == Some(c.host)
      && ValueOf(text, " port=") == Some(Decimal(c.port))
  {
    var encoding, sink := CONVERTER + TEE + PROBE + ENCODER, ["host=" + c.host] + (["port=" + Decimal(c.port)] + SNAPSHOT);
    var tail := ["bitrate=" + Decimal(c.bitrateKbps)] + (["key-int-max=" + Decimal(c.gop)] + (PARSER + UDP_SINK + sink));
    UdpIsSpaced(c);
    EncodingPlain();
    EncodingStarts();
    FrontStarts(c, encoding);
    CameraFound(c, encoding + tail);
    FrontPlace(c, encoding, tail);
    EncoderFound(c, encoding, PARSER + UDP_SINK + sink);
    ParserOther();
    HostPlace(Front(c, encoding), Decimal(c.bitrateKbps), Decimal(c.gop), PARSER + UDP_SINK, sink);
    SinkFound(c, Front(c, encoding), PARSER + UDP_SINK, SNAPSHOT);
  }

  /** The same for the six numbers of the RTSP text, of any configuration. */
  lemma RtspValues(c: Config)
    ensures var text := BuildRtspCapturePipeline(c);
      && ValueOf(text, " sensor-id=") == Some(Decimal(c.sensorId))
      && ValueOf(text, ",width=") == Some(Decimal(c.width))
      && ValueOf(text, ",height=") == Some(Decimal(c.height))
      && ValueOf(text, ",framerate=") == Some(Decimal(c.framerate))
      && ValueOf(text, " bitrate=") == Some(Decimal(c.bitrateKbps))
      && ValueOf(text, " key-int-max=") == Some(Decimal(c.gop))
  {
    var encoding := CONVERTER + PROBE + ENCODER;
    var tail := ["bitrate=" + Decimal(c.bitrateKbps)] + (["key-int-max=" + Decimal(c.gop)] + (PARSER + RTSP_SINK));
    RtspIsSpaced(c);
    EncodingPlain();
    EncodingStarts();
    CameraFound(c, encoding + tail);
    FrontPlace(c, encoding, tail);
    EncoderFound(c, encoding, PARSER + RTSP_SINK);
  }
}
