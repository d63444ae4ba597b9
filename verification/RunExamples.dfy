/** Runs that happen: the logs the program makes in some environments, for any options, and what
    follows about empty runs and about stop signals. */
module RunExamples {
  import opened MachineTypes
  import opened KernelInterface
  import opened SequenceAccounting
  import opened FrameRate
  import opened CaptureOptions
  import opened CaptureSession
  import opened SessionTheorems
  import opened CaptureFlow
  import opened CaptureRun
  import opened CaptureProcess

  // ---------- Logs in parts ----------

  ghost function Play(s: Session, entries: seq<Entry>): Session
    decreases |entries|
  {
    if entries == [] then s else Play(Step(s, entries[0]), entries[1..])
  }

  lemma PlayOne(s: Session, a: Entry)
    ensures Play(s, [a]) == Step(s, a)
  {
  }

  lemma PlayTwo(s: Session, a: Entry, b: Entry)
    ensures Play(s, [a, b]) == Step(Step(s, a), b)
  {
    assert [a, b][1..] == [b];
    PlayOne(Step(s, a), b);
  }

  lemma PlayThree(s: Session, a: Entry, b: Entry, c: Entry)
    ensures Play(s, [a, b, c]) == Step(Step(Step(s, a), b), c)
  {
    assert [a, b, c][1..] == [b, c];
    PlayTwo(Step(s, a), b, c);
  }

  /** Where the entries lead from a session and a flow; none if one of them does not have to come. */
  ghost function Course(o: Options, s: Session, f: Flow, entries: seq<Entry>): Option<Flow>
    requires o.Valid()
    decreases |entries|
  {
    if entries == [] then Some(f)
    else if Next(o, f) != Some(entries[0].request) then None
    else
      var t := Step(s, entries[0]);
      Course(o, t, Onward(o, f, t, entries[0]), entries[1..])
  }

  /** The log follows the course, and this is where it leads; put as a bound on its prefixes. */
  ghost predicate Reaches(o: Options, log: seq<Entry>, s: Session, f: Flow)
    requires o.Valid()
  {
    forall k :: |log| <= k <= |log| ==>
      Replay(log[..k]) == s && FlowOf(o, log[..k]) == f && Follows(o, log[..k])
  }

  lemma ReachesIff(o: Options, log: seq<Entry>, s: Session, f: Flow)
    requires o.Valid()
    ensures Reaches(o, log, s, f) <==> Replay(log) == s && FlowOf(o, log) == f && Follows(o, log)
  {
    assert log[..|log|] == log;
  }

  lemma ReachesNext(o: Options, log: seq<Entry>, s: Session, f: Flow, e: Entry)
    requires o.Valid() && Reaches(o, log, s, f) && Next(o, f) == Some(e.request)
    ensures Reaches(o, log + [e], Step(s, e), Onward(o, f, Step(s, e), e))
  {
    ReachesIff(o, log, s, f);
    FollowsNext(o, log, e);
    FlowExtends(o, log, e);
    ReplayExtends(log, e);
    ReachesIff(o, log + [e], Step(s, e), Onward(o, f, Step(s, e), e));
  }

  lemma CourseFirst(o: Options, s: Session, f: Flow, more: seq<Entry>, t: Session, g: Flow)
    requires o.Valid() && more != [] && Play(s, more) == t && Course(o, s, f, more) == Some(g)
    ensures Next(o, f) == Some(more[0].request)
    ensures var u := Step(s, more[0]);
      Play(u, more[1..]) == t && Course(o, u, Onward(o, f, u, more[0]), more[1..]) == Some(g)
  {
  }

  lemma OneByOne(log: seq<Entry>, more: seq<Entry>)
    requires more != []
    ensures log + [more[0]] + more[1..] == log + more
  {
  }

  lemma {:induction false} CourseExtends(
    o: Options, log: seq<Entry>, s: Session, f: Flow, more: seq<Entry>, t: Session, g: Flow)
    requires o.Valid() && Reaches(o, log, s, f) && Play(s, more) == t && Course(o, s, f, more) == Some(g)
    ensures Reaches(o, log + more, t, g)
    decreases |more|
  {
    if more == [] {
      assert log + more == log;
    } else {
      CourseFirst(o, s, f, more, t, g);
      ReachesNext(o, log, s, f, more[0]);
      var u := Step(s, more[0]);
      CourseExtends(o, log + [more[0]], u, Onward(o, f, u, more[0]), more[1..], t, g);
      OneByOne(log, more);
    }
  }

  /** One entry, which leads to g. */
  ghost predicate Leads(o: Options, f: Flow, t: Session, e: Entry, g: Flow)
    requires o.Valid()
  {
    Next(o, f) == Some(e.request) && Moved(o, f, t, e, g)
  }

  lemma LeadsOnward(o: Options, f: Flow, t: Session, e: Entry, g: Flow)
    requires o.Valid()
    ensures Leads(o, f, t, e, g) <==> Next(o, f) == Some(e.request) && Onward(o, f, t, e) == g
  {
    MovedOnward(o, f, t, e, g);
  }

  lemma CourseStep(o: Options, s: Session, f: Flow, a: Entry, g: Flow, rest: seq<Entry>)
    requires o.Valid() && Leads(o, f, Step(s, a), a, g)
    ensures Course(o, s, f, [a] + rest) == Course(o, Step(s, a), g, rest)
  {
    LeadsOnward(o, f, Step(s, a), a, g);
    assert ([a] + rest)[1..] == rest;
  }

  lemma CourseOne(o: Options, s: Session, f: Flow, a: Entry, g: Flow)
    requires o.Valid() && Leads(o, f, Step(s, a), a, g)
    ensures Course(o, s, f, [a]) == Some(g)
  {
    CourseStep(o, s, f, a, g, []);
    assert [a] + [] == [a];
  }

  lemma CourseTwo(o: Options, s: Session, f: Flow, a: Entry, g: Flow, b: Entry, h: Flow)
    requires o.Valid() && Leads(o, f, Step(s, a), a, g) && Leads(o, g, Step(Step(s, a), b), b, h)
    ensures Course(o, s, f, [a, b]) == Some(h)
  {
    assert [a] + [b] == [a, b];
    CourseStep(o, s, f, a, g, [b]);
    CourseOne(o, Step(s, a), g, b, h);
  }

  lemma CourseThree(o: Options, s: Session, f: Flow, a: Entry, g: Flow, b: Entry, h: Flow, c: Entry, i: Flow)
    requires o.Valid() && Leads(o, f, Step(s, a), a, g) && Leads(o, g, Step(Step(s, a), b), b, h)
    requires Leads(o, h, Step(Step(Step(s, a), b), c), c, i)
    ensures Course(o, s, f, [a, b, c]) == Some(i)
  {
    assert [a] + [b, c] == [a, b, c];
    CourseStep(o, s, f, a, g, [b, c]);
    CourseTwo(o, Step(s, a), g, b, h, c, i);
  }

  // ---------- Setting up ----------

  const NO_BUFFER := Buffer(0, 0, 0, 0, 0, false)
  const LENGTH := 16

  /** A call that succeeds with a value. */
  function Done(request: Request, value: nat): Entry {
    Entry(request, Reply(0, value, 0, (0, 0), NO_BUFFER, [], {}, 0))
  }

  /** A call a stop signal interrupts. */
  function InterruptedCall(request: Request, signal: nat): Entry {
    Entry(request, Reply(EINTR, 0, 0, (0, 0), NO_BUFFER, [], {}, signal))
  }

  function OpeningCalls(o: Options): seq<Entry> {
    [Done(OpenDevice(o.device), 0), Done(QueryCapabilities, CAP_VIDEO_CAPTURE + CAP_STREAMING)]
  }

  function ModeSetting(o: Options): seq<Entry> {
    if o.sensorMode.None? then []
    else
      var mode := o.sensorMode.value;
      [Entry(QueryMode(mode), Reply(0, 0, 0, (mode, mode), NO_BUFFER, [], {}, 0)), Done(SetMode(mode), 0)]
  }

  function FormatSetting(o: Options): seq<Entry>
    requires o.Valid() && RateFits(o)
  {
    var rate := TimePerFrame(o.fps).value;
    [Done(SetFormat(o.width, o.height, o.pixelFormat), 0), Done(SetParameters(rate.0, rate.1), 0)]
  }

  function Allocating(o: Options): seq<Entry> {
    [Done(RequestBuffers(o.bufferCount), 2)]
  }

  function MappingCalls(i: nat): seq<Entry> {
    [Done(QueryBuffer(i), LENGTH), Done(MapBuffer(i, LENGTH), 0)]
  }

  const STARTING := [Done(QueueBuffer(0), 0), Done(QueueBuffer(1), 0), Done(StreamOn, 0)]

  /** Everything up to a running stream of two buffers. */
  function StartingCalls(o: Options): seq<Entry>
    requires o.Valid() && RateFits(o)
  {
    OpeningCalls(o) + ModeSetting(o) + FormatSetting(o) + Allocating(o) + MappingCalls(0) + MappingCalls(1) + STARTING
  }

  ghost function Identified(o: Options): Settings {
    NOTHING_SET.(device := Some(o.device), identified := true)
  }

  /** A session with these settings and mapped, idle buffers. */
  ghost function Idle(settings: Settings, regions: map<nat, nat>): Session {
    START.(res := START.res.(attached := true, regions := regions), own := START.own.(idle := regions.Keys),
           cap := START.cap.(settings := settings))
  }

  ghost function Streaming(o: Options): Session
    requires o.Valid()
  {
    var s := Idle(Wanted(o), map[0 := LENGTH, 1 := LENGTH]);
    s.(res := s.res.(stream := On), own := Ownership({}, {0, 1}, {}, {}, NoOne))
  }

  lemma OpeningPlays(o: Options)
    ensures Play(START, OpeningCalls(o)) == Idle(Identified(o), map[])
  {
    PlayTwo(START, OpeningCalls(o)[0], OpeningCalls(o)[1]);
    assert Step(START, OpeningCalls(o)[0]) == Idle(NOTHING_SET.(device := Some(o.device)), map[]);
  }

  lemma ModePlays(o: Options, settings: Settings)
    requires settings.mode.None?
    ensures Play(Idle(settings, map[]), ModeSetting(o)) == Idle(settings.(mode := o.sensorMode), map[])
  {
    if o.sensorMode.Some? {
      var s := Idle(settings, map[]);
      PlayTwo(s, ModeSetting(o)[0], ModeSetting(o)[1]);
      assert Step(s, ModeSetting(o)[0]) == s;
    } else {
      assert settings.(mode := None) == settings;
    }
  }

  lemma FormatPlays(o: Options, settings: Settings)
    requires o.Valid() && RateFits(o)
    ensures Play(Idle(settings, map[]), FormatSetting(o))
         == Idle(settings.(format := Wanted(o).format, rate := Wanted(o).rate), map[])
  {
    PlayTwo(Idle(settings, map[]), FormatSetting(o)[0], FormatSetting(o)[1]);
  }

  lemma AllocatingPlays(o: Options, settings: Settings)
    ensures Play(Idle(settings, map[]), Allocating(o)) == Idle(settings.(buffers := Some(o.bufferCount)), map[])
  {
    PlayOne(Idle(settings, map[]), Allocating(o)[0]);
  }

  lemma MappingPlays(settings: Settings, regions: map<nat, nat>, i: nat)
    requires i !in regions
    ensures Play(Idle(settings, regions), MappingCalls(i)) == Idle(settings, regions[i := LENGTH])
  {
    var s := Idle(settings, regions);
    PlayTwo(s, MappingCalls(i)[0], MappingCalls(i)[1]);
    assert Step(s, MappingCalls(i)[0]) == s;
    assert regions[i := LENGTH].Keys == regions.Keys + {i};
  }

  lemma StreamPlays(o: Options)
    requires o.Valid()
    ensures Play(Idle(Wanted(o), map[0 := LENGTH, 1 := LENGTH]), STARTING) == Streaming(o)
  {
    var s := Idle(Wanted(o), map[0 := LENGTH, 1 := LENGTH]);
    PlayThree(s, STARTING[0], STARTING[1], STARTING[2]);
    assert s.own.idle == {0, 1};
    QueuePlays(s, 0);
    QueuePlays(Step(s, STARTING[0]), 1);
    StreamOnPlays(Step(Step(s, STARTING[0]), STARTING[1]));
  }

  lemma StreamOnPlays(s: Session)
    requires s.res.attached && s.own.blame.NoOne? && s.signal == 0 && s.cap.fatal.None?
    ensures Step(s, Done(StreamOn, 0)) == s.(res := s.res.(stream := On))
  {
  }

  lemma QueuePlays(s: Session, i: nat)
    requires s.res.attached && s.own.blame.NoOne? && i in s.own.idle && s.own.done == s.own.held == {}
    requires s.signal == 0 && s.cap.fatal.None?
    ensures Step(s, Done(QueueBuffer(i), 0))
         == s.(own := Ownership(s.own.idle - {i}, s.own.queued + {i}, {}, {}, NoOne))
  {
  }

  function Configuring(o: Options): seq<Entry>
    requires o.Valid() && RateFits(o)
  {
    OpeningCalls(o) + ModeSetting(o) + FormatSetting(o) + Allocating(o)
  }

  // ---------- The course of the set-up ----------

  const HEAD := Flow(AtLimits, 2, 2, true)
  const TORN_DOWN := Flow(Unmapping(0), 2, 2, false)

  /** Before anything is mapped. */
  function Unmapped(p: Point, granted: nat): Flow {
    Flow(p, granted, 0, false)
  }

  lemma DoneNeverFails(t: Session, request: Request, value: nat)
    requires t.signal == 0 && !request.DequeueBuffer? && !request.WriteFile? && !request.Poll?
    requires request.QueryCapabilities? ==> value == CAP_VIDEO_CAPTURE + CAP_STREAMING
    requires request.RequestBuffers? ==> value >= 2
    requires !request.QueryMode?
    ensures !Fails(t, Done(request, value))
  {
  }

  /** A call of the set-up that succeeds. */
  lemma SetUpLeads(o: Options, f: Flow, t: Session, e: Entry)
    requires o.Valid() && t.signal == 0 && Next(o, f) == Some(e.request) && e.reply.errno == 0 && !Fails(t, e)
    requires IsSettingUp(f.point) || IsBuffers(f.point)
    ensures Leads(o, f, t, e, if IsSettingUp(f.point) then OnwardSettingUp(o, f, t, e) else OnwardBuffers(f, t, e))
  {
    LeadsOnward(o, f, t, e, Onward(o, f, t, e));
  }

  lemma OpeningCourse(o: Options)
    requires o.Valid() && !o.listOnly
    ensures Course(o, START, START_FLOW, OpeningCalls(o)) == Some(Unmapped(ConfiguredPoint(o, Identifying), 0))
  {
    var a, b := OpeningCalls(o)[0], OpeningCalls(o)[1];
    var s := Step(START, a);
    OpeningPlays(o);
    SetUpLeads(o, START_FLOW, s, a);
    DoneNeverFails(Step(s, b), QueryCapabilities, CAP_VIDEO_CAPTURE + CAP_STREAMING);
    SetUpLeads(o, Unmapped(Identifying, 0), Step(s, b), b);
    CourseTwo(o, START, START_FLOW, a, Unmapped(Identifying, 0), b, Unmapped(ConfiguredPoint(o, Identifying), 0));
  }

  lemma ModeCourse(o: Options, s: Session)
    requires o.Valid() && !o.listOnly && s.signal == 0
    ensures Course(o, s, Unmapped(ConfiguredPoint(o, Identifying), 0), ModeSetting(o)) == Some(Unmapped(SettingFormat, 0))
  {
    if o.sensorMode.Some? {
      var mode, calls := o.sensorMode.value, ModeSetting(o);
      var f, g := Unmapped(QueryingMode(mode), 0), Unmapped(SettingMode(mode), 0);
      var t := Step(s, calls[0]);
      var u := Step(t, calls[1]);
      SetUpLeads(o, f, t, calls[0]);
      DoneNeverFails(u, SetMode(mode), 0);
      SetUpLeads(o, g, u, calls[1]);
      CourseTwo(o, s, f, calls[0], g, calls[1], Unmapped(SettingFormat, 0));
    }
  }

  lemma FormatCourse(o: Options, s: Session)
    requires o.Valid() && RateFits(o) && s.signal == 0
    ensures Course(o, s, Unmapped(SettingFormat, 0), FormatSetting(o)) == Some(Unmapped(Requesting, 0))
  {
    var rate, calls := TimePerFrame(o.fps).value, FormatSetting(o);
    var f, g := Unmapped(SettingFormat, 0), Unmapped(SettingRate(rate.0, rate.1), 0);
    var t := Step(s, calls[0]);
    var u := Step(t, calls[1]);
    DoneNeverFails(t, calls[0].request, 0);
    SetUpLeads(o, f, t, calls[0]);
    DoneNeverFails(u, calls[1].request, 0);
    SetUpLeads(o, g, u, calls[1]);
    CourseTwo(o, s, f, calls[0], g, calls[1], Unmapped(Requesting, 0));
  }

  lemma AllocatingCourse(o: Options, s: Session)
    requires o.Valid() && s.signal == 0
    ensures Course(o, s, Unmapped(Requesting, 0), Allocating(o)) == Some(Unmapped(Querying, 2))
  {
    var t := Step(s, Allocating(o)[0]);
    DoneNeverFails(t, RequestBuffers(o.bufferCount), 2);
    SetUpLeads(o, Unmapped(Requesting, 0), t, Allocating(o)[0]);
    CourseOne(o, s, Unmapped(Requesting, 0), Allocating(o)[0], Unmapped(Querying, 2));
  }

  lemma MappingCourse(o: Options, s: Session, i: nat)
    requires o.Valid() && s.signal == 0 && i < 2
    ensures Course(o, s, Flow(Querying, 2, i, false), MappingCalls(i))
         == Some(Flow(if i == 0 then Querying else Queuing(0), 2, i + 1, false))
  {
    var calls, f := MappingCalls(i), Flow(Querying, 2, i, false);
    var g, h := f.(point := Mapping(LENGTH)), Flow(if i == 0 then Querying else Queuing(0), 2, i + 1, false);
    var t := Step(s, calls[0]);
    var u := Step(t, calls[1]);
    DoneNeverFails(t, QueryBuffer(i), LENGTH);
    SetUpLeads(o, f, t, calls[0]);
    DoneNeverFails(u, MapBuffer(i, LENGTH), 0);
    SetUpLeads(o, g, u, calls[1]);
    CourseTwo(o, s, f, calls[0], g, calls[1], h);
  }

  lemma StreamCourse(o: Options, s: Session)
    requires o.Valid() && s.signal == 0
    ensures Course(o, s, Flow(Queuing(0), 2, 2, false), STARTING) == Some(HEAD)
  {
    var f, g, h := Flow(Queuing(0), 2, 2, false), Flow(Queuing(1), 2, 2, false), Flow(Starting, 2, 2, false);
    var t := Step(s, STARTING[0]);
    var u := Step(t, STARTING[1]);
    var v := Step(u, STARTING[2]);
    DoneNeverFails(t, QueueBuffer(0), 0);
    SetUpLeads(o, f, t, STARTING[0]);
    DoneNeverFails(u, QueueBuffer(1), 0);
    SetUpLeads(o, g, u, STARTING[1]);
    DoneNeverFails(v, StreamOn, 0);
    SetUpLeads(o, h, v, STARTING[2]);
    CourseThree(o, s, f, STARTING[0], g, STARTING[1], h, STARTING[2], HEAD);
  }

  lemma ConfiguringCourse(o: Options)
    requires o.Valid() && RateFits(o) && !o.listOnly
    ensures Reaches(o, Configuring(o), Idle(Wanted(o), map[]), Unmapped(Querying, 2))
  {
    var a := OpeningCalls(o);
    var b := a + ModeSetting(o);
    var c := b + FormatSetting(o);
    var identified := Identified(o);
    var moded := identified.(mode := o.sensorMode);
    var first := Unmapped(ConfiguredPoint(o, Identifying), 0);
    ReachesIff(o, [], START, START_FLOW);
    OpeningCourse(o);
    OpeningPlays(o);
    CourseExtends(o, [], START, START_FLOW, a, Idle(identified, map[]), first);
    assert [] + a == a;
    ModeCourse(o, Idle(identified, map[]));
    ModePlays(o, identified);
    CourseExtends(o, a, Idle(identified, map[]), first, ModeSetting(o), Idle(moded, map[]), Unmapped(SettingFormat, 0));
    FormatCourse(o, Idle(moded, map[]));
    FormatPlays(o, moded);
    var wanted := Wanted(o).(buffers := None);
    CourseExtends(o, b, Idle(moded, map[]), Unmapped(SettingFormat, 0), FormatSetting(o), Idle(wanted, map[]),
                  Unmapped(Requesting, 0));
    AllocatingCourse(o, Idle(wanted, map[]));
    AllocatingPlays(o, wanted);
    CourseExtends(o, c, Idle(wanted, map[]), Unmapped(Requesting, 0), Allocating(o), Idle(Wanted(o), map[]),
                  Unmapped(Querying, 2));
  }

  lemma MappedCourse(o: Options, log: seq<Entry>, i: nat, regions: map<nat, nat>)
    requires o.Valid() && i < 2 && i !in regions
    requires Reaches(o, log, Idle(Wanted(o), regions), Flow(Querying, 2, i, false))
    ensures Reaches(o, log + MappingCalls(i), Idle(Wanted(o), regions[i := LENGTH]),
                    Flow(if i == 0 then Querying else Queuing(0), 2, i + 1, false))
  {
    MappingCourse(o, Idle(Wanted(o), regions), i);
    MappingPlays(Wanted(o), regions, i);
    CourseExtends(o, log, Idle(Wanted(o), regions), Flow(Querying, 2, i, false), MappingCalls(i),
                  Idle(Wanted(o), regions[i := LENGTH]), Flow(if i == 0 then Querying else Queuing(0), 2, i + 1, false));
  }

  lemma BothMappedCourse(o: Options)
    requires o.Valid() && RateFits(o) && !o.listOnly
    ensures Reaches(o, Configuring(o) + MappingCalls(0) + MappingCalls(1),
                    Idle(Wanted(o), map[0 := LENGTH, 1 := LENGTH]), Flow(Queuing(0), 2, 2, false))
  {
    ConfiguringCourse(o);
    MappedCourse(o, Configuring(o), 0, map[]);
    MappedCourse(o, Configuring(o) + MappingCalls(0), 1, map[0 := LENGTH]);
  }

  lemma StartingCourse(o: Options)
    requires o.Valid() && RateFits(o) && !o.listOnly
    ensures Reaches(o, StartingCalls(o), Streaming(o), HEAD)
  {
    var log := Configuring(o) + MappingCalls(0) + MappingCalls(1);
    var mapped := Idle(Wanted(o), map[0 := LENGTH, 1 := LENGTH]);
    BothMappedCourse(o);
    StreamCourse(o, mapped);
    StreamPlays(o);
    CourseExtends(o, log, mapped, Flow(Queuing(0), 2, 2, false), STARTING, Streaming(o), HEAD);
  }

  // ---------- Ending ----------

  /** What the destructor does once the stream is off. */
  const CLOSING := [Done(UnmapBuffer(0), 0), Done(UnmapBuffer(1), 0), Done(CloseDevice, 0)]

  /** The stream is off and both buffers are the program's. */
  ghost predicate Stopped(s: Session) {
    && s.res == Resources(true, false, map[0 := LENGTH, 1 := LENGTH], Off, false, false)
    && s.own == Ownership({0, 1}, {}, {}, {}, NoOne)
  }

  /** Both buffers are the driver's. */
  ghost predicate Filling(s: Session) {
    && s.res == Resources(true, false, map[0 := LENGTH, 1 := LENGTH], s.res.stream, false, false)
    && s.own == Ownership({}, {0, 1}, {}, {}, NoOne)
  }

  lemma ClockPlays(s: Session, value: nat)
    requires s.own.blame.NoOne?
    ensures Step(s, Done(ReadClock, value))
         == s.(cap := if value != 0 then s.cap.(elapsed := true) else s.cap, signalAtClock := s.signal)
  {
  }

  lemma StopPlays(s: Session)
    requires Filling(s)
    ensures var t := Step(s, Done(StreamOff, 0));
      Stopped(t) && t.cap == s.cap && t.signal == s.signal && t.signalAtClock == s.signalAtClock
  {
    assert {} + {0, 1} + {} + {} == {0, 1};
  }

  lemma PollPlays(s: Session, timeout: int, signal: nat)
    requires Filling(s) && s.res.stream.On? && s.signal == 0 && signal > 0
    ensures Step(s, Done(Poll(timeout), 1)) == s
    ensures Step(s, InterruptedCall(Poll(timeout), signal)) == s.(signal := signal)
  {
  }

  lemma DequeuePlays(s: Session, signal: nat)
    requires Filling(s) && s.res.stream.On? && s.signal == 0 && signal > 0 && s.cap.fatal.None?
    ensures Step(s, InterruptedCall(DequeueBuffer, signal))
         == s.(signal := signal, cap := s.cap.(fatal := Some(SystemError(DequeueBuffer, EINTR))))
  {
  }

  lemma InterruptedStopPlays(s: Session)
    requires Filling(s) && s.res.stream.On? && s.signal != 0 && s.cap.stopError.None? && s.cap.fatal.None?
    ensures Step(s, InterruptedCall(StreamOff, s.signal))
         == s.(res := s.res.(stream := StopAsked), cap := s.cap.(stopError := Some(EINTR)))
  {
  }

  /** All is released, nobody broke a rule, and these are the record and the signal at the clock. */
  ghost predicate Over(s: Session, c: Capture, signalAtClock: nat) {
    Released(s.res) && Safe(s) && s.own.blame.NoOne? && s.cap == c && s.signalAtClock == signalAtClock
  }

  lemma ClosingPlays(s: Session)
    requires Stopped(s)
    ensures Over(Play(s, CLOSING), s.cap, s.signalAtClock)
  {
    PlayThree(s, CLOSING[0], CLOSING[1], CLOSING[2]);
    var t := Step(s, CLOSING[0]);
    UnmapPlays(s, 0);
    assert t.res.regions == map[1 := LENGTH];
    UnmapPlays(t, 1);
    assert Step(t, CLOSING[1]).res.regions == map[];
    ClosePlays(Step(t, CLOSING[1]));
  }

  /** The stream is off, and nobody broke a rule. */
  ghost predicate TearingDown(s: Session) {
    s.res.attached && s.res.stream.Off? && !s.res.fileOpen && Safe(s) && s.own.blame.NoOne?
  }

  lemma UnmapPlays(s: Session, i: nat)
    requires TearingDown(s) && i in s.res.regions
    ensures var t := Step(s, Done(UnmapBuffer(i), 0));
      && TearingDown(t) && t.res.regions == s.res.regions - {i}
      && t.cap == s.cap && t.signalAtClock == s.signalAtClock
  {
  }

  lemma ClosePlays(s: Session)
    requires TearingDown(s) && s.res.regions == map[]
    ensures Over(Step(s, Done(CloseDevice, 0)), s.cap, s.signalAtClock)
  {
  }

  // ---------- The course of the ending ----------

  lemma ClockLeads(o: Options, f: Flow, t: Session, value: nat)
    requires o.Valid() && IsClock(f.point)
    ensures Leads(o, f, t, Done(ReadClock, value), ClockedFlow(o, f, t, value != 0))
  {
    LeadsOnward(o, f, t, Done(ReadClock, value), ClockedFlow(o, f, t, value != 0));
  }

  lemma StopLeads(o: Options, f: Flow, t: Session)
    requires o.Valid() && (f.point.Stopping? || f.point.Abandoning?)
    ensures var off := f.(streaming := false);
      Leads(o, f, t, Done(StreamOff, 0), if f.point.Stopping? then off.(point := Finishing) else Unwound(off))
  {
    LeadsOnward(o, f, t, Done(StreamOff, 0), Onward(o, f, t, Done(StreamOff, 0)));
  }

  lemma InterruptedStopLeads(o: Options, f: Flow, t: Session, signal: nat)
    requires o.Valid() && f.point.Stopping? && t.signal != 0
    ensures Leads(o, f, t, InterruptedCall(StreamOff, signal), Unwound(f))
  {
    LeadsOnward(o, f, t, InterruptedCall(StreamOff, signal), Unwound(f));
  }

  lemma PollLeads(o: Options, f: Flow, t: Session, signal: nat)
    requires o.Valid() && f.point.Polling?
    ensures t.signal == 0 ==> Leads(o, f, t, Done(Poll(o.timeoutMs), 1), f.(point := Dequeuing))
    ensures t.signal != 0 ==> Leads(o, f, t, InterruptedCall(Poll(o.timeoutMs), signal), f.(point := Stopping))
  {
    LeadsOnward(o, f, t, Done(Poll(o.timeoutMs), 1), f.(point := Dequeuing));
    LeadsOnward(o, f, t, InterruptedCall(Poll(o.timeoutMs), signal), f.(point := Stopping));
  }

  lemma DequeueLeads(o: Options, f: Flow, t: Session, signal: nat)
    requires o.Valid() && f.point.Dequeuing? && t.signal != 0
    ensures Leads(o, f, t, InterruptedCall(DequeueBuffer, signal), Unwound(f))
  {
    LeadsOnward(o, f, t, InterruptedCall(DequeueBuffer, signal), Unwound(f));
  }

  lemma EndLeads(o: Options, f: Flow, t: Session, request: Request)
    requires o.Valid() && Next(o, f) == Some(request) && (f.point.Unmapping? || f.point.Closing?)
    ensures Leads(o, f, t, Done(request, 0), OnwardEnding(f, Done(request, 0)))
  {
    LeadsOnward(o, f, t, Done(request, 0), OnwardEnding(f, Done(request, 0)));
  }

  /** The stream is stopped and the clock read, whatever the session. */
  lemma StopCourse(o: Options, s: Session, value: nat)
    requires o.Valid()
    ensures Course(o, s, HEAD.(point := Stopping), [Done(StreamOff, 0), Done(ReadClock, value)]) == Some(TORN_DOWN)
  {
    var a, b := Done(StreamOff, 0), Done(ReadClock, value);
    StopLeads(o, HEAD.(point := Stopping), Step(s, a));
    ClockLeads(o, Flow(Finishing, 2, 2, false), Step(Step(s, a), b), value);
    CourseTwo(o, s, HEAD.(point := Stopping), a, Flow(Finishing, 2, 2, false), b, TORN_DOWN);
  }

  lemma AbandonCourse(o: Options, s: Session)
    requires o.Valid()
    ensures Course(o, s, HEAD.(point := Abandoning), [Done(StreamOff, 0)]) == Some(TORN_DOWN)
  {
    StopLeads(o, HEAD.(point := Abandoning), Step(s, Done(StreamOff, 0)));
    CourseOne(o, s, HEAD.(point := Abandoning), Done(StreamOff, 0), TORN_DOWN);
  }

  /** The first look at the clock, with no limit reached. */
  lemma HeadCourse(o: Options, rest: seq<Entry>)
    requires o.Valid()
    ensures Course(o, Streaming(o), HEAD, [Done(ReadClock, 0)] + rest)
         == Course(o, Streaming(o), HEAD.(point := Polling), rest)
  {
    var s := Streaming(o);
    ClockPlays(s, 0);
    ClockLeads(o, HEAD, s, 0);
    CourseStep(o, s, HEAD, Done(ReadClock, 0), HEAD.(point := Polling), rest);
  }

  lemma ClosingCourse(o: Options, s: Session)
    requires o.Valid()
    ensures Course(o, s, TORN_DOWN, CLOSING) == Some(Flow(Ended, 2, 2, false))
  {
    var f, g := Flow(Unmapping(1), 2, 2, false), Flow(Closing, 2, 2, false);
    var t := Step(s, CLOSING[0]);
    var u := Step(t, CLOSING[1]);
    EndLeads(o, TORN_DOWN, t, UnmapBuffer(0));
    EndLeads(o, f, u, UnmapBuffer(1));
    EndLeads(o, g, Step(u, CLOSING[2]), CloseDevice);
    CourseThree(o, s, TORN_DOWN, CLOSING[0], f, CLOSING[1], g, CLOSING[2], Flow(Ended, 2, 2, false));
  }

  /** The log of the run with these calls between set-up and mappings. */
  function RunLog(o: Options, middle: seq<Entry>): seq<Entry>
    requires o.Valid() && RateFits(o)
  {
    StartingCalls(o) + middle + CLOSING
  }

  lemma LogIsOver(o: Options, middle: seq<Entry>, s: Session)
    requires o.Valid() && RateFits(o) && !o.listOnly
    requires Play(Streaming(o), middle) == s && Stopped(s) && Course(o, Streaming(o), HEAD, middle) == Some(TORN_DOWN)
    ensures Whole(o, RunLog(o, middle)) && Over(Replay(RunLog(o, middle)), s.cap, s.signalAtClock)
  {
    StartingCourse(o);
    CourseExtends(o, StartingCalls(o), Streaming(o), HEAD, middle, s, TORN_DOWN);
    ClosingCourse(o, s);
    ClosingPlays(s);
    CourseExtends(o, StartingCalls(o) + middle, s, TORN_DOWN, CLOSING, Play(s, CLOSING), Flow(Ended, 2, 2, false));
    ReachesIff(o, RunLog(o, middle), Play(s, CLOSING), Flow(Ended, 2, 2, false));
  }

  // ---------- The program in an environment ----------

  /** There is one whole log for the replies of a whole log. */
  lemma WholeIsOnly(o: Options, log: seq<Entry>, other: seq<Entry>)
    requires o.Valid() && Whole(o, log) && Follows(o, other) && Replies(other) <= Replies(log)
    requires Whole(o, other) || Replies(other) == Replies(log)
    ensures other == log
  {
    var n := |other|;
    assert |other| == |Replies(other)| <= |Replies(log)| == |log|;
    FollowsBefore(o, log, n);
    forall i | 0 <= i < n ensures log[..n][i].reply == other[i].reply {
      assert Replies(other)[i] == Replies(log)[i];
    }
    SameUntil(o, log[..n], other, n);
    assert log[..n][..n] == log[..n] && other[..n] == other;
    if n < |log| {
      assert IsNext(o, log, n);
      EndedIff(o, FlowOf(o, other));
      assert false;
    }
    assert log[..n] == log;
  }

  /** The program makes the calls of a whole log in every environment that answers like it. */
  method RunAlong(o: Options, ghost log: seq<Entry>, environment: seq<Reply>, ghost expected: Attempt<Ending>)
    returns (r: Attempt<Ending>, ghost made: seq<Entry>)
    requires o.Valid() && o.SaveWithinFrames() && Whole(o, log) && environment == Replies(log)
    requires Explains(o, expected, Replay(log).cap, Replay(log).signalAtClock)
    ensures r == expected && made == log
  {
    var os := new Kernel(o, environment);
    r := RunCapture(os, o);
    WholeIsOnly(o, log, os.log);
    made := log;
    if r.Pending? {
      assert false;
    }
    OneOutcome(o, r, expected, Replay(log).cap, Replay(log).signalAtClock);
  }

  // ---------- Empty runs ----------

  /** The duration is over at the first look at the clock. */
  const EMPTY := [Done(ReadClock, 1), Done(StreamOff, 0), Done(ReadClock, 1)]

  lemma EmptyPlays(o: Options)
    requires o.Valid()
    ensures var s := Play(Streaming(o), EMPTY);
      Stopped(s) && s.cap == Streaming(o).cap.(elapsed := true) && s.signalAtClock == 0
  {
    var s := Streaming(o);
    PlayThree(s, EMPTY[0], EMPTY[1], EMPTY[2]);
    ClockPlays(s, 1);
    StopPlays(Step(s, EMPTY[0]));
    ClockPlays(Step(Step(s, EMPTY[0]), EMPTY[1]), 1);
  }

  lemma EmptyCourse(o: Options)
    requires o.Valid() && o.durationSeconds > 0.0
    ensures Course(o, Streaming(o), HEAD, EMPTY) == Some(TORN_DOWN)
  {
    var s, rest := Streaming(o), [Done(StreamOff, 0), Done(ReadClock, 1)];
    ClockPlays(s, 1);
    ClockLeads(o, HEAD, Step(s, EMPTY[0]), 1);
    CourseStep(o, s, HEAD, EMPTY[0], HEAD.(point := Stopping), rest);
    StopCourse(o, Step(s, EMPTY[0]), 1);
    assert EMPTY == [EMPTY[0]] + rest;
  }

  /** The whole log of a run that keeps every rule, gives everything back, and passes without a frame. */
  ghost predicate PassesEmpty(log: seq<Entry>, o: Options)
    requires o.Valid()
  {
    var s := Replay(log);
    && Whole(o, log)
    && Safe(s) && s.own.blame.NoOne? && Released(s.res) && Orderly(o, s.cap) && s.cap.frames == []
    && Explains(o, Value(Verdict(true)), s.cap, s.signalAtClock)
  }

  lemma EmptyRecordPasses(o: Options)
    requires o.Valid() && RateFits(o) && !o.listOnly && o.durationSeconds > 0.0 && o.savePath.None?
    ensures var c := Streaming(o).cap.(elapsed := true);
      c.frames == [] && Orderly(o, c) && Explains(o, Value(Verdict(true)), c, 0)
  {
    assert Tally([]) == ZERO;
  }

  lemma EmptyLogPasses(o: Options)
    requires o.Valid() && RateFits(o) && !o.listOnly && o.durationSeconds > 0.0 && o.savePath.None?
    ensures PassesEmpty(RunLog(o, EMPTY), o)
  {
    EmptyPlays(o);
    EmptyCourse(o);
    LogIsOver(o, EMPTY, Play(Streaming(o), EMPTY));
    EmptyRecordPasses(o);
  }

  /** The program itself, in the environment of that log. */
  method PassEmpty(o: Options) returns (r: Attempt<Ending>, ghost made: seq<Entry>)
    requires o.Valid() && RateFits(o) && !o.listOnly && o.durationSeconds > 0.0 && o.savePath.None?
    ensures r == Value(Verdict(true)) && PassesEmpty(made, o)
  {
    EmptyLogPasses(o);
    r, made := RunAlong(o, RunLog(o, EMPTY), Replies(RunLog(o, EMPTY)), Value(Verdict(true)));
  }

  /** A verdict without a frame comes from the duration alone, and it is a pass. */
  lemma EmptyVerdict(o: Options, r: Attempt<Ending>, c: Capture, signalAtClock: nat)
    requires o.Valid() && Explains(o, r, c, signalAtClock) && c.frames == [] && r.Value? && r.value.Verdict?
    ensures r.value.pass && o.durationSeconds > 0.0 && c.elapsed && o.savePath.None?
    ensures !o.listOnly && RateFits(o)
  {
    assert Tally([]) == ZERO;
  }

  /** A run can pass without any frame exactly when a duration is set, no frame is to be saved, and
      the options ask for a capture at a rate a fraction can hold. */
  lemma EmptyPassIff(o: Options)
    requires o.Valid()
    ensures (exists log :: PassesEmpty(log, o))
       <==> !o.listOnly && RateFits(o) && o.durationSeconds > 0.0 && o.savePath.None?
  {
    if !o.listOnly && RateFits(o) && o.durationSeconds > 0.0 && o.savePath.None? {
      EmptyLogPasses(o);
    }
    forall log | PassesEmpty(log, o)
      ensures !o.listOnly && RateFits(o) && o.durationSeconds > 0.0 && o.savePath.None?
    {
      EmptyVerdict(o, Value(Verdict(true)), Replay(log).cap, Replay(log).signalAtClock);
    }
  }

  /** Without a duration, or with a frame to save, every pass has a frame. */
  lemma PassHasFrame(o: Options, c: Capture, signalAtClock: nat)
    requires o.Valid() && Explains(o, Value(Verdict(true)), c, signalAtClock)
    requires o.durationSeconds == 0.0 || o.savePath.Some?
    ensures c.frames != []
  {
    if c.frames == [] {
      EmptyVerdict(o, Value(Verdict(true)), c, signalAtClock);
    }
  }

  // ---------- Stop signals ----------

  /** The signal comes while the program waits for the first frame. */
  function StoppedWaiting(o: Options, signal: nat): seq<Entry> {
    [Done(ReadClock, 0), InterruptedCall(Poll(o.timeoutMs), signal), Done(StreamOff, 0), Done(ReadClock, 0)]
  }

  /** The signal comes while the first frame is dequeued. */
  function StoppedDequeuing(o: Options, signal: nat): seq<Entry> {
    [Done(ReadClock, 0), Done(Poll(o.timeoutMs), 1), InterruptedCall(DequeueBuffer, signal), Done(StreamOff, 0)]
  }

  /** The signal comes while the program waits, and again while it stops the stream. */
  function StoppedStopping(o: Options, signal: nat): seq<Entry> {
    [Done(ReadClock, 0), InterruptedCall(Poll(o.timeoutMs), signal), InterruptedCall(StreamOff, signal),
     Done(StreamOff, 0)]
  }

  lemma PlayFour(s: Session, a: Entry, b: Entry, c: Entry, d: Entry)
    ensures Play(s, [a, b, c, d]) == Step(Step(Step(Step(s, a), b), c), d)
  {
    assert [a, b, c, d][1..] == [b, c, d];
    PlayThree(Step(s, a), b, c, d);
  }

  lemma WaitingPlays(o: Options, signal: nat)
    requires o.Valid() && signal > 0
    ensures var s := Play(Streaming(o), StoppedWaiting(o, signal));
      Stopped(s) && s.cap == Streaming(o).cap && s.signalAtClock == signal
  {
    var s, calls := Streaming(o), StoppedWaiting(o, signal);
    PlayFour(s, calls[0], calls[1], calls[2], calls[3]);
    ClockPlays(s, 0);
    PollPlays(s, o.timeoutMs, signal);
    StopPlays(s.(signal := signal));
    ClockPlays(Step(s.(signal := signal), calls[2]), 0);
  }

  lemma WaitingCourse(o: Options, signal: nat)
    requires o.Valid() && signal > 0
    ensures Course(o, Streaming(o), HEAD, StoppedWaiting(o, signal)) == Some(TORN_DOWN)
  {
    var s, poll := Streaming(o), InterruptedCall(Poll(o.timeoutMs), signal);
    var rest := [Done(StreamOff, 0), Done(ReadClock, 0)];
    HeadCourse(o, [poll] + rest);
    PollPlays(s, o.timeoutMs, signal);
    PollLeads(o, HEAD.(point := Polling), Step(s, poll), signal);
    CourseStep(o, s, HEAD.(point := Polling), poll, HEAD.(point := Stopping), rest);
    StopCourse(o, Step(s, poll), 0);
    assert StoppedWaiting(o, signal) == [Done(ReadClock, 0)] + ([poll] + rest);
  }

  lemma DequeuingPlays(o: Options, signal: nat)
    requires o.Valid() && signal > 0
    ensures var s := Play(Streaming(o), StoppedDequeuing(o, signal));
      && Stopped(s) && s.cap == Streaming(o).cap.(fatal := Some(SystemError(DequeueBuffer, EINTR)))
      && s.signalAtClock == 0
  {
    var s, calls := Streaming(o), StoppedDequeuing(o, signal);
    PlayFour(s, calls[0], calls[1], calls[2], calls[3]);
    ClockPlays(s, 0);
    PollPlays(s, o.timeoutMs, signal);
    DequeuePlays(s, signal);
    StopPlays(Step(s, calls[2]));
  }

  lemma DequeuingCourse(o: Options, signal: nat)
    requires o.Valid() && signal > 0
    ensures Course(o, Streaming(o), HEAD, StoppedDequeuing(o, signal)) == Some(TORN_DOWN)
  {
    var s, poll, call := Streaming(o), Done(Poll(o.timeoutMs), 1), InterruptedCall(DequeueBuffer, signal);
    var rest := [Done(StreamOff, 0)];
    HeadCourse(o, [poll] + ([call] + rest));
    PollPlays(s, o.timeoutMs, signal);
    PollLeads(o, HEAD.(point := Polling), s, signal);
    CourseStep(o, s, HEAD.(point := Polling), poll, HEAD.(point := Dequeuing), [call] + rest);
    DequeuePlays(s, signal);
    DequeueLeads(o, HEAD.(point := Dequeuing), Step(s, call), signal);
    CourseStep(o, s, HEAD.(point := Dequeuing), call, HEAD.(point := Abandoning), rest);
    AbandonCourse(o, Step(s, call));
    assert StoppedDequeuing(o, signal) == [Done(ReadClock, 0)] + ([poll] + ([call] + rest));
  }

  lemma StoppingPlays(o: Options, signal: nat)
    requires o.Valid() && signal > 0
    ensures var s := Play(Streaming(o), StoppedStopping(o, signal));
      Stopped(s) && s.cap == Streaming(o).cap.(stopError := Some(EINTR)) && s.signalAtClock == 0
  {
    var s, calls := Streaming(o), StoppedStopping(o, signal);
    PlayFour(s, calls[0], calls[1], calls[2], calls[3]);
    ClockPlays(s, 0);
    PollPlays(s, o.timeoutMs, signal);
    InterruptedStopPlays(s.(signal := signal));
    StopPlays(Step(s.(signal := signal), calls[2]));
  }

  lemma StoppingCourse(o: Options, signal: nat)
    requires o.Valid() && signal > 0
    ensures Course(o, Streaming(o), HEAD, StoppedStopping(o, signal)) == Some(TORN_DOWN)
  {
    var s, poll, call := Streaming(o), InterruptedCall(Poll(o.timeoutMs), signal), InterruptedCall(StreamOff, signal);
    var rest := [Done(StreamOff, 0)];
    HeadCourse(o, [poll] + ([call] + rest));
    PollPlays(s, o.timeoutMs, signal);
    var t := s.(signal := signal);
    PollLeads(o, HEAD.(point := Polling), t, signal);
    CourseStep(o, s, HEAD.(point := Polling), poll, HEAD.(point := Stopping), [call] + rest);
    InterruptedStopPlays(t);
    InterruptedStopLeads(o, HEAD.(point := Stopping), Step(t, call), signal);
    CourseStep(o, t, HEAD.(point := Stopping), call, HEAD.(point := Abandoning), rest);
    AbandonCourse(o, Step(t, call));
    assert StoppedStopping(o, signal) == [Done(ReadClock, 0)] + ([poll] + ([call] + rest));
  }

  ghost predicate Delivered(log: seq<Entry>, signal: nat) {
    exists k :: 0 <= k < |log| && log[k].reply.signal == signal
  }

  /** The whole log of a run that keeps every rule, gives everything back, and ends like this after
      the signal was delivered. */
  ghost predicate EndsAs(log: seq<Entry>, o: Options, r: Attempt<Ending>, signal: nat)
    requires o.Valid()
  {
    var s := Replay(log);
    && Whole(o, log)
    && Safe(s) && s.own.blame.NoOne? && Released(s.res) && Orderly(o, s.cap)
    && Explains(o, r, s.cap, s.signalAtClock) && Delivered(log, signal)
  }

  lemma WaitingEnds(o: Options, signal: nat)
    requires o.Valid() && RateFits(o) && !o.listOnly && signal > 0
    ensures EndsAs(RunLog(o, StoppedWaiting(o, signal)), o, Value(Ending.Interrupted(signal)), signal)
  {
    var middle := StoppedWaiting(o, signal);
    WaitingPlays(o, signal);
    WaitingCourse(o, signal);
    LogIsOver(o, middle, Play(Streaming(o), middle));
    assert RunLog(o, middle)[|StartingCalls(o)| + 1] == middle[1];
  }

  lemma DequeuingEnds(o: Options, signal: nat)
    requires o.Valid() && RateFits(o) && !o.listOnly && signal > 0
    ensures EndsAs(RunLog(o, StoppedDequeuing(o, signal)), o, Raised(SystemError(DequeueBuffer, EINTR)), signal)
  {
    var middle := StoppedDequeuing(o, signal);
    DequeuingPlays(o, signal);
    DequeuingCourse(o, signal);
    LogIsOver(o, middle, Play(Streaming(o), middle));
    assert RunLog(o, middle)[|StartingCalls(o)| + 2] == middle[2];
  }

  lemma StoppingEnds(o: Options, signal: nat)
    requires o.Valid() && RateFits(o) && !o.listOnly && signal > 0
    ensures EndsAs(RunLog(o, StoppedStopping(o, signal)), o, Raised(SystemError(StreamOff, EINTR)), signal)
  {
    var middle := StoppedStopping(o, signal);
    StoppingPlays(o, signal);
    StoppingCourse(o, signal);
    LogIsOver(o, middle, Play(Streaming(o), middle));
    assert RunLog(o, middle)[|StartingCalls(o)| + 1] == middle[1];
  }

  /** The same signal to the same program: 128 plus the signal when it comes during the wait for a
      frame, and 3 when it comes during the dequeue, or again while the stream is stopped. */
  lemma SignalExitsBothWays(o: Options, signal: nat)
    requires o.Valid() && RateFits(o) && !o.listOnly && signal > 0
    ensures exists log, r :: EndsAs(log, o, r, signal) && ExitCode(r) == 128 + signal
    ensures exists log :: EndsAs(log, o, Raised(SystemError(DequeueBuffer, EINTR)), signal)
    ensures exists log :: EndsAs(log, o, Raised(SystemError(StreamOff, EINTR)), signal)
    ensures forall operation: Request :: ExitCode(Raised(SystemError(operation, EINTR))) == 3
  {
    WaitingEnds(o, signal);
    assert ExitCode(Value(Ending.Interrupted(signal))) == 128 + signal;
    DequeuingEnds(o, signal);
    StoppingEnds(o, signal);
  }

  /** The program itself, in the environments of these logs. */
  method StopThreeWays(o: Options, signal: nat) returns (waiting: Attempt<Ending>, dequeuing: Attempt<Ending>,
                                                         stopping: Attempt<Ending>)
    requires o.Valid() && o.SaveWithinFrames() && RateFits(o) && !o.listOnly && signal > 0
    ensures waiting == Value(Ending.Interrupted(signal))
    ensures dequeuing == Raised(SystemError(DequeueBuffer, EINTR))
    ensures stopping == Raised(SystemError(StreamOff, EINTR))
  {
    WaitingEnds(o, signal);
    DequeuingEnds(o, signal);
    StoppingEnds(o, signal);
    var a, b, c := StoppedWaiting(o, signal), StoppedDequeuing(o, signal), StoppedStopping(o, signal);
    ghost var made;
    waiting, made := RunAlong(o, RunLog(o, a), Replies(RunLog(o, a)), Value(Ending.Interrupted(signal)));
    dequeuing, made := RunAlong(o, RunLog(o, b), Replies(RunLog(o, b)), Raised(SystemError(DequeueBuffer, EINTR)));
    stopping, made := RunAlong(o, RunLog(o, c), Replies(RunLog(o, c)), Raised(SystemError(StreamOff, EINTR)));
  }
}
