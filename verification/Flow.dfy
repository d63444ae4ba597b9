/** The course of a run: which call comes next, given the options and what came before. */
module CaptureFlow {
  import opened MachineTypes
  import opened KernelInterface
  import opened SequenceAccounting
  import opened FrameRate
  import opened CaptureOptions
  import opened CaptureSession

  /** Whether a fraction can hold the requested rate. */
  predicate RateFits(o: Options) {
    o.fps * SCALE as real <= LARGEST_RATE
  }

  // ---------- Where a run can stand ----------

  /** The call a run is about to make. Abandoning, Unmapping and Closing are the destructor's. */
  datatype Point =
    | Opening | Identifying | Listing(format: nat)
    | QueryingMode(wanted: int) | SettingMode(mode: int) | SettingFormat
    | SettingRate(numerator: uint32, denominator: uint32)
    | Requesting | Querying | Mapping(length: nat) | Queuing(index: nat) | Starting
    | AtLimits | Polling | Dequeuing
    | OpeningFile(buffer: Buffer, path: string)
    | Writing(buffer: Buffer, offset: nat, remaining: nat)
    | ClosingFile(buffer: Buffer, failed: bool)
    | Requeuing(buffer: Buffer, refused: bool)
    | Reporting | Stopping | Finishing
    | Abandoning | Unmapping(region: nat) | Closing | Ended

  /** granted is how many buffers the driver allocated, buffers how many are mapped. */
  datatype Flow = Flow(point: Point, granted: nat, buffers: nat, streaming: bool)

  const START_FLOW := Flow(Opening, 0, 0, false)

  /** The call of a point; none once the run is over. */
  function Next(o: Options, f: Flow): Option<Request> {
    match f.point
    case Opening => Some(OpenDevice(o.device))
    case Identifying => Some(QueryCapabilities)
    case Listing(format) => Some(EnumerateFormat(format))
    case QueryingMode(mode) => Some(QueryMode(mode))
    case SettingMode(mode) => Some(SetMode(mode))
    case SettingFormat => Some(SetFormat(o.width, o.height, o.pixelFormat))
    case SettingRate(numerator, denominator) => Some(SetParameters(numerator, denominator))
    case Requesting => Some(RequestBuffers(o.bufferCount))
    case Querying => Some(QueryBuffer(f.buffers))
    case Mapping(length) => Some(MapBuffer(f.buffers, length))
    case Queuing(index) => Some(QueueBuffer(index))
    case Starting => Some(StreamOn)
    case AtLimits => Some(ReadClock)
    case Polling => Some(Poll(o.timeoutMs))
    case Dequeuing => Some(DequeueBuffer)
    case OpeningFile(_, path) => Some(OpenFile(path))
    case Writing(buffer, offset, remaining) => Some(WriteFile(buffer.index, offset, remaining))
    case ClosingFile(_, _) => Some(CloseFile)
    case Requeuing(buffer, _) => Some(QueueBuffer(buffer.index))
    case Reporting => Some(ReadClock)
    case Stopping => Some(StreamOff)
    case Finishing => Some(ReadClock)
    case Abandoning => Some(StreamOff)
    case Unmapping(region) => Some(UnmapBuffer(region))
    case Closing => Some(CloseDevice)
    case Ended => None
  }

  // ---------- How a run goes on ----------

  /** The first call of the destructor. */
  function UnwindPoint(buffers: nat, streaming: bool): Point {
    if streaming then Abandoning else if buffers > 0 then Unmapping(0) else Closing
  }

  function Unwound(f: Flow): Flow {
    f.(point := UnwindPoint(f.buffers, f.streaming))
  }

  /** The head of the capture loop. */
  function HeadPoint(signal: nat): Point {
    if signal != 0 then Stopping else AtLimits
  }

  /** After the limits were looked at, with so many frames. */
  function LimitPoint(o: Options, frames: nat, elapsed: bool): Point {
    if (o.frameLimit != 0 && frames >= o.frameLimit) || (o.durationSeconds > 0.0 && elapsed) then Stopping
    else Polling
  }

  /** What is done with a buffer that came as the n-th frame. */
  function TakenPoint(o: Options, n: nat, b: Buffer): Point {
    if o.savePath.Some? && n == o.saveAt then
      if b.error then Requeuing(b, true) else OpeningFile(b, o.savePath.value)
    else Requeuing(b, false)
  }

  /** After all but some bytes of a frame were written. */
  function WritePoint(b: Buffer, offset: nat, remaining: nat): Point {
    if remaining == 0 then ClosingFile(b, false) else Writing(b, offset, remaining)
  }

  predicate Fails(s: Session, e: Entry) {
    ErrorOf(e, s.res.regions, s.signal).Some?
  }

  /** After a successful call of the configuration. */
  function ConfiguredPoint(o: Options, p: Point): Point
    requires o.Valid()
  {
    match p
    case Identifying =>
      if o.listOnly then Listing(0)
      else if o.sensorMode.Some? then QueryingMode(o.sensorMode.value)
      else SettingFormat
    case QueryingMode(mode) => SettingMode(mode)
    case SettingMode(_) => SettingFormat
    case SettingFormat =>
      var rate := TimePerFrame(o.fps);
      if rate.Success? then SettingRate(rate.value.0, rate.value.1) else Closing
    case _ => Requesting
  }

  /** While nothing is mapped or on. */
  function OnwardSettingUp(o: Options, f: Flow, s: Session, e: Entry): Flow
    requires o.Valid()
  {
    match f.point
    case Opening => f.(point := if e.reply.errno == 0 then Identifying else Ended)
    case Listing(format) => if e.reply.errno == 0 then f.(point := Listing(format + 1)) else Unwound(f)
    case Requesting => if Fails(s, e) then Unwound(f) else f.(point := Querying, granted := e.reply.value)
    case _ => if Fails(s, e) then Unwound(f) else f.(point := ConfiguredPoint(o, f.point))
  }

  function OnwardBuffers(f: Flow, s: Session, e: Entry): Flow {
    if Fails(s, e) then Unwound(f)
    else match f.point
      case Querying => f.(point := Mapping(e.reply.value))
      case Mapping(_) =>
        f.(buffers := f.buffers + 1, point := if f.buffers + 1 < f.granted then Querying else Queuing(0))
      case Queuing(index) => f.(point := if index + 1 < f.buffers then Queuing(index + 1) else Starting)
      case _ => f.(streaming := true, point := HeadPoint(s.signal))
  }

  function OnwardPolling(f: Flow, s: Session, e: Entry): Flow {
    if e.reply.errno == EINTR then if s.signal == 0 then f else f.(point := Stopping)
    else if Fails(s, e) || e.reply.value == 0 then Unwound(f)
    else f.(point := if s.signal != 0 then Stopping else Dequeuing)
  }

  function OnwardSaving(f: Flow, s: Session, e: Entry): Flow {
    match f.point
    case OpeningFile(b, _) => if Fails(s, e) then Unwound(f) else f.(point := WritePoint(b, 0, b.bytesused))
    case Writing(b, offset, remaining) =>
      if e.reply.errno == EINTR then f
      else if Fails(s, e) then f.(point := ClosingFile(b, true))
      else
        var amount := Written(e.reply, remaining);
        f.(point := WritePoint(b, offset + amount, remaining - amount))
    case ClosingFile(b, failed) => if failed || Fails(s, e) then Unwound(f) else f.(point := Requeuing(b, false))
    case _ => f
  }

  function OnwardLoop(o: Options, f: Flow, s: Session, e: Entry): Flow {
    match f.point
    case AtLimits => f.(point := LimitPoint(o, |s.cap.frames|, e.reply.value != 0))
    case Polling => OnwardPolling(f, s, e)
    case Dequeuing =>
      if e.reply.errno == EAGAIN then f.(point := HeadPoint(s.signal))
      else if Fails(s, e) then Unwound(f)
      else f.(point := TakenPoint(o, |s.cap.frames|, e.reply.buffer))
    case Requeuing(_, refused) => if refused || Fails(s, e) then Unwound(f) else f.(point := Reporting)
    case Reporting => f.(point := HeadPoint(s.signal))
    case _ => OnwardSaving(f, s, e)
  }

  function OnwardEnding(f: Flow, e: Entry): Flow {
    match f.point
    case Stopping => if e.reply.errno == 0 then f.(streaming := false, point := Finishing) else Unwound(f)
    case Finishing => Unwound(f)
    case Abandoning => Unwound(f.(streaming := false))
    case Unmapping(region) => f.(point := if region + 1 < f.buffers then Unmapping(region + 1) else Closing)
    case _ => f.(point := Ended)
  }

  predicate IsSettingUp(p: Point) {
    p.Opening? || p.Identifying? || p.Listing? || p.QueryingMode? || p.SettingMode? || p.SettingFormat?
    || p.SettingRate? || p.Requesting?
  }

  predicate IsBuffers(p: Point) {
    p.Querying? || p.Mapping? || p.Queuing? || p.Starting?
  }

  predicate IsEnding(p: Point) {
    p.Stopping? || p.Finishing? || p.Abandoning? || p.Unmapping? || p.Closing? || p.Ended?
  }

  /** Where the run stands after one more call, which led to session s. */
  function Onward(o: Options, f: Flow, s: Session, e: Entry): Flow
    requires o.Valid()
  {
    if Retried(e, s.signal) && !f.point.Abandoning? then f
    else if IsSettingUp(f.point) then OnwardSettingUp(o, f, s, e)
    else if IsBuffers(f.point) then OnwardBuffers(f, s, e)
    else if IsEnding(f.point) then OnwardEnding(f, e)
    else OnwardLoop(o, f, s, e)
  }

  // ---------- Whole logs ----------

  ghost function FlowOf(o: Options, log: seq<Entry>): Flow
    requires o.Valid()
  {
    if log == [] then START_FLOW
    else Onward(o, FlowOf(o, log[..|log| - 1]), Replay(log), log[|log| - 1])
  }

  /** The k-th call is the one that had to come. */
  ghost predicate IsNext(o: Options, log: seq<Entry>, k: nat)
    requires o.Valid() && k < |log|
  {
    Next(o, FlowOf(o, log[..k])) == Some(log[k].request)
  }

  ghost predicate Follows(o: Options, log: seq<Entry>)
    requires o.Valid()
  {
    forall k :: 0 <= k < |log| ==> IsNext(o, log, k)
  }

  /** The log is one of a whole run. */
  ghost predicate Whole(o: Options, log: seq<Entry>)
    requires o.Valid()
  {
    Follows(o, log) && FlowOf(o, log).point.Ended?
  }

  lemma EndedIff(o: Options, f: Flow)
    ensures Next(o, f) == None <==> f.point.Ended?
  {
  }

  lemma FollowsBefore(o: Options, log: seq<Entry>, k: nat)
    requires o.Valid() && Follows(o, log) && k <= |log|
    ensures Follows(o, log[..k])
  {
    forall j | 0 <= j < k ensures IsNext(o, log[..k], j) {
      assert IsNext(o, log, j);
      assert log[..k][..j] == log[..j];
    }
  }

  lemma FlowExtends(o: Options, log: seq<Entry>, e: Entry)
    requires o.Valid()
    ensures FlowOf(o, log + [e]) == Onward(o, FlowOf(o, log), Step(Replay(log), e), e)
  {
    assert (log + [e])[..|log|] == log;
    ReplayExtends(log, e);
  }

  lemma FollowsNext(o: Options, log: seq<Entry>, e: Entry)
    requires o.Valid() && Follows(o, log) && Next(o, FlowOf(o, log)) == Some(e.request)
    ensures Follows(o, log + [e])
  {
    var longer := log + [e];
    forall k | 0 <= k < |longer| ensures IsNext(o, longer, k) {
      if k < |log| {
        assert IsNext(o, log, k);
        assert longer[..k] == log[..k];
      } else {
        assert longer[..k] == log;
      }
    }
  }

  lemma SameAt(o: Options, log: seq<Entry>, other: seq<Entry>, k: nat)
    requires o.Valid() && k < |log| == |other| && Follows(o, log) && Follows(o, other)
    requires log[..k] == other[..k] && log[k].reply == other[k].reply
    ensures log[..k + 1] == other[..k + 1]
  {
    assert IsNext(o, log, k) && IsNext(o, other, k);
    assert log[k] == other[k];
    assert log[..k + 1] == log[..k] + [log[k]] && other[..k + 1] == other[..k] + [other[k]];
  }

  lemma {:induction false} SameUntil(o: Options, log: seq<Entry>, other: seq<Entry>, k: nat)
    requires o.Valid() && Follows(o, log) && Follows(o, other) && k <= |log| == |other|
    requires forall i :: 0 <= i < |log| ==> log[i].reply == other[i].reply
    ensures log[..k] == other[..k]
    decreases k
  {
    if k > 0 {
      SameUntil(o, log, other, k - 1);
      SameAt(o, log, other, k - 1);
    }
  }

  /** The options and the replies determine the calls: two courses with the same replies are one. */
  lemma RepliesDecideLog(o: Options, log: seq<Entry>, other: seq<Entry>)
    requires o.Valid() && Follows(o, log) && Follows(o, other) && Replies(log) == Replies(other)
    ensures log == other
  {
    assert |log| == |Replies(log)| == |other|;
    forall i | 0 <= i < |log| ensures log[i].reply == other[i].reply {
      assert Replies(log)[i] == Replies(other)[i];
    }
    SameUntil(o, log, other, |log|);
    assert log[..|log|] == log && other[..|log|] == other;
  }

  // ---------- Single calls ----------

  /** The call e, which led to session s, moved the run from f to g; put over the entries of a log
      of one, which keeps the whole course out of the proofs about single calls. */
  ghost predicate Moved(o: Options, f: Flow, s: Session, e: Entry, g: Flow)
    requires o.Valid()
  {
    forall k :: 0 <= k < |[e]| ==> g == Onward(o, f, s, [e][k])
  }

  lemma MovedOnward(o: Options, f: Flow, s: Session, e: Entry, g: Flow)
    requires o.Valid()
    ensures Moved(o, f, s, e, g) <==> g == Onward(o, f, s, e)
  {
    assert [e][0] == e;
  }

  lemma RetryMoves(o: Options, f: Flow, s: Session, e: Entry, g: Flow)
    requires o.Valid() && Moved(o, f, s, e, g) && Retried(e, s.signal) && !f.point.Abandoning?
    ensures g == f
  {
    MovedOnward(o, f, s, e, g);
  }

  lemma OpeningMoves(o: Options, f: Flow, s: Session, e: Entry, g: Flow)
    requires o.Valid() && Moved(o, f, s, e, g) && f.point.Opening? && e.request.OpenDevice?
    ensures g == f.(point := if e.reply.errno == 0 then Identifying else Ended)
  {
    MovedOnward(o, f, s, e, g);
  }

  predicate IsControl(p: Point) {
    p.Identifying? || p.QueryingMode? || p.SettingMode? || p.SettingFormat? || p.SettingRate?
    || p.Requesting? || p.Querying?
  }

  /** Where a control call leads that is not repeated. */
  function ControlledFlow(o: Options, f: Flow, s: Session, e: Entry): Flow
    requires o.Valid()
  {
    if Fails(s, e) then Unwound(f)
    else match f.point
      case Requesting => f.(point := Querying, granted := e.reply.value)
      case Querying => f.(point := Mapping(e.reply.value))
      case _ => f.(point := ConfiguredPoint(o, f.point))
  }

  lemma ControlMoves(o: Options, f: Flow, s: Session, e: Entry, g: Flow)
    requires o.Valid() && Moved(o, f, s, e, g) && Next(o, f) == Some(e.request) && IsControl(f.point)
    requires !Retried(e, s.signal)
    ensures g == ControlledFlow(o, f, s, e)
  {
    MovedOnward(o, f, s, e, g);
  }

  lemma ListingMoves(o: Options, f: Flow, s: Session, e: Entry, g: Flow)
    requires o.Valid() && Moved(o, f, s, e, g) && f.point.Listing? && !Retried(e, s.signal)
    ensures g == if e.reply.errno == 0 then f.(point := Listing(f.point.format + 1)) else Unwound(f)
  {
    MovedOnward(o, f, s, e, g);
  }

  lemma MapMoves(o: Options, f: Flow, s: Session, e: Entry, g: Flow)
    requires o.Valid() && Moved(o, f, s, e, g) && f.point.Mapping? && e.request.MapBuffer?
    ensures g == if e.reply.errno != 0 then Unwound(f)
      else f.(buffers := f.buffers + 1, point := if f.buffers + 1 < f.granted then Querying else Queuing(0))
  {
    MovedOnward(o, f, s, e, g);
  }

  lemma QueueMoves(o: Options, f: Flow, s: Session, e: Entry, g: Flow)
    requires o.Valid() && Moved(o, f, s, e, g) && e.request.QueueBuffer? && !Retried(e, s.signal)
    requires f.point.Queuing? || f.point.Requeuing?
    ensures g == if e.reply.errno != 0 then Unwound(f)
      else if f.point.Requeuing? then if f.point.refused then Unwound(f) else f.(point := Reporting)
      else f.(point := if f.point.index + 1 < f.buffers then Queuing(f.point.index + 1) else Starting)
  {
    MovedOnward(o, f, s, e, g);
  }

  lemma StartMoves(o: Options, f: Flow, s: Session, e: Entry, g: Flow)
    requires o.Valid() && Moved(o, f, s, e, g) && f.point.Starting? && e.request.StreamOn? && !Retried(e, s.signal)
    ensures g == if e.reply.errno != 0 then Unwound(f) else f.(streaming := true, point := HeadPoint(s.signal))
  {
    MovedOnward(o, f, s, e, g);
  }

  lemma PollMoves(o: Options, f: Flow, s: Session, e: Entry, g: Flow)
    requires o.Valid() && Moved(o, f, s, e, g) && f.point.Polling? && e.request.Poll?
    ensures g == OnwardPolling(f, s, e)
  {
    MovedOnward(o, f, s, e, g);
  }

  lemma DequeueMoves(o: Options, f: Flow, s: Session, e: Entry, g: Flow)
    requires o.Valid() && Moved(o, f, s, e, g) && f.point.Dequeuing? && e.request.DequeueBuffer?
    requires !Retried(e, s.signal)
    ensures g == if e.reply.errno == EAGAIN then f.(point := HeadPoint(s.signal))
      else if e.reply.errno != 0 || !Acceptable(s.res.regions, e.reply.buffer) then Unwound(f)
      else f.(point := TakenPoint(o, |s.cap.frames|, e.reply.buffer))
  {
    MovedOnward(o, f, s, e, g);
  }

  lemma OpenFileMoves(o: Options, f: Flow, s: Session, e: Entry, g: Flow)
    requires o.Valid() && Moved(o, f, s, e, g) && f.point.OpeningFile? && e.request.OpenFile?
    ensures g == if e.reply.errno != 0 then Unwound(f)
      else f.(point := WritePoint(f.point.buffer, 0, f.point.buffer.bytesused))
  {
    MovedOnward(o, f, s, e, g);
  }

  /** Where a write(2) leads that took so many bytes. */
  function WrittenPoint(b: Buffer, offset: nat, remaining: nat, amount: nat, errno: nat): Point
    requires amount <= remaining
  {
    if errno == EINTR then Writing(b, offset, remaining)
    else if errno != 0 || amount == 0 then ClosingFile(b, true)
    else WritePoint(b, offset + amount, remaining - amount)
  }

  lemma WriteMoves(o: Options, f: Flow, s: Session, e: Entry, g: Flow)
    requires o.Valid() && Moved(o, f, s, e, g) && f.point.Writing? && e.request.WriteFile? && f.point.remaining > 0
    ensures var amount := if e.reply.errno == 0 then Written(e.reply, f.point.remaining) else 0;
      g == f.(point := WrittenPoint(f.point.buffer, f.point.offset, f.point.remaining, amount, e.reply.errno))
  {
    MovedOnward(o, f, s, e, g);
  }

  lemma CloseFileMoves(o: Options, f: Flow, s: Session, e: Entry, g: Flow)
    requires o.Valid() && Moved(o, f, s, e, g) && f.point.ClosingFile? && e.request.CloseFile?
    ensures g == if f.point.failed || e.reply.errno != 0 then Unwound(f)
      else f.(point := Requeuing(f.point.buffer, false))
  {
    MovedOnward(o, f, s, e, g);
  }

  predicate IsClock(p: Point) {
    p.AtLimits? || p.Reporting? || p.Finishing?
  }

  /** Where a look at the clock leads. */
  function ClockedFlow(o: Options, f: Flow, s: Session, elapsed: bool): Flow {
    match f.point
    case AtLimits => f.(point := LimitPoint(o, |s.cap.frames|, elapsed))
    case Reporting => f.(point := HeadPoint(s.signal))
    case _ => Unwound(f)
  }

  lemma ClockMoves(o: Options, f: Flow, s: Session, e: Entry, g: Flow)
    requires o.Valid() && Moved(o, f, s, e, g) && IsClock(f.point) && e.request.ReadClock?
    ensures g == ClockedFlow(o, f, s, e.reply.value != 0)
  {
    MovedOnward(o, f, s, e, g);
  }

  lemma StopMoves(o: Options, f: Flow, s: Session, e: Entry, g: Flow)
    requires o.Valid() && Moved(o, f, s, e, g) && f.point.Stopping? && !Retried(e, s.signal)
    ensures g == if e.reply.errno == 0 then f.(streaming := false, point := Finishing) else Unwound(f)
  {
    MovedOnward(o, f, s, e, g);
  }

  lemma EndMoves(o: Options, f: Flow, s: Session, e: Entry, g: Flow)
    requires o.Valid() && Moved(o, f, s, e, g) && (f.point.Abandoning? || f.point.Unmapping? || f.point.Closing?)
    requires Next(o, f) == Some(e.request)
    ensures g == match f.point
      case Abandoning => Unwound(f.(streaming := false))
      case Unmapping(region) => f.(point := if region + 1 < f.buffers then Unmapping(region + 1) else Closing)
      case _ => f.(point := Ended)
  {
    MovedOnward(o, f, s, e, g);
  }

  // ---------- The environment ----------

  /** f is where the log leads, and the log follows the course; put as a bound on its prefixes. */
  ghost predicate Traces(o: Options, log: seq<Entry>, f: Flow)
    requires o.Valid()
  {
    forall k :: |log| <= k <= |log| ==> FlowOf(o, log[..k]) == f && Follows(o, log[..k])
  }

  lemma TracesFlow(o: Options, log: seq<Entry>, f: Flow)
    requires o.Valid()
    ensures Traces(o, log, f) <==> FlowOf(o, log) == f && Follows(o, log)
  {
    assert log[..|log|] == log;
  }

  lemma TracesNext(o: Options, log: seq<Entry>, f: Flow, s: Session, e: Entry) returns (g: Flow)
    requires o.Valid() && Traces(o, log, f) && Next(o, f) == Some(e.request) && s == Replay(log)
    ensures Traces(o, log + [e], g) && Moved(o, f, Step(s, e), e, g)
  {
    g := Onward(o, f, Step(s, e), e);
    TracesFlow(o, log, f);
    FlowExtends(o, log, e);
    FollowsNext(o, log, e);
    TracesFlow(o, log + [e], g);
    MovedOnward(o, f, Step(s, e), e, g);
  }

  lemma LogGrows(log: seq<Entry>, e: Entry, script: seq<Reply>, environment: seq<Reply>)
    requires script != [] && e.reply == script[0] && Replies(log) + script == environment
    ensures Replies(log + [e]) + script[1..] == environment
  {
    assert Replies(log + [e]) == Replies(log) + [script[0]];
  }

  /** The environment, and what it and the program have done so far. */
  class Kernel {
    ghost const plan: Options
    ghost const environment: seq<Reply>
    var script: seq<Reply>
    var stopSignal: nat
    ghost var log: seq<Entry>
    ghost var now: Session
    ghost var interruptions: nat
    ghost var flow: Flow

    /** The log follows the course of the plan; it holds the replies of the environment
        up to the script's rest. */
    ghost predicate Valid()
      reads this
    {
      && now.signal == stopSignal && Records(log, now, interruptions) && Replies(log) + script == environment
      && plan.Valid() && Traces(plan, log, flow)
    }

    /** The environment owes an answer. */
    ghost predicate Cut()
      reads this
    {
      script == [] && !flow.point.Ended?
    }

    constructor (ghost plan: Options, script: seq<Reply>)
      requires plan.Valid()
      ensures Valid() && this.plan == plan && this.script == script == environment
      ensures log == [] && now == START && interruptions == 0 && flow == START_FLOW
    {
      environment, this.plan := script, plan;
      this.script, stopSignal, log, now, interruptions, flow := script, 0, [], START, 0, START_FLOW;
      RecordsReplay([], START, 0);
      TracesFlow(plan, [], START_FLOW);
      assert Replies([]) + script == script;
    }

    /** One system call: the next reply of the script, or none when it is used up. */
    method Call(request: Request) returns (reply: Option<Reply>)
      requires Valid() && Next(plan, flow) == Some(request)
      modifies this
      ensures Valid()
      ensures reply.None? <==> old(script) == []
      ensures reply.None? ==> script == [] && unchanged(this)
      ensures reply.Some? ==>
        && reply.value == old(script)[0] && script == old(script)[1..]
        && log == old(log) + [Entry(request, reply.value)]
        && now == Step(old(now), Entry(request, reply.value))
        && interruptions == old(interruptions) + (if reply.value.errno == EINTR then 1 else 0)
        && Moved(plan, old(flow), now, Entry(request, reply.value), flow)
    {
      if script == [] {
        reply := None;
      } else {
        reply := Some(script[0]);
        LogGrows(log, Entry(request, script[0]), script, environment);
        script := script[1..];
        if reply.value.signal != 0 {
          stopSignal := reply.value.signal;
        }
        ghost var entry := Entry(request, reply.value);
        RecordsReplay(log, now, interruptions);
        ReplayExtends(log, entry);
        flow := TracesNext(plan, log, flow, now, entry);
        log := log + [entry];
        now := Step(now, entry);
        interruptions := interruptions + if reply.value.errno == EINTR then 1 else 0;
        RecordsReplay(log, now, interruptions);
      }
    }
  }
}
