/** What the calls of a run look like, one after the other: the log itself, without the points of
    its course. Numbers stand for themselves here. */
module LogTheorems {
  import opened MachineTypes
  import opened KernelInterface
  import opened SequenceAccounting
  import opened FrameRate
  import opened CaptureOptions
  import opened CaptureSession
  import opened SessionTheorems
  import opened CaptureFlow
  import opened FlowTheorems

  // ---------- Counting calls ----------

  function MapsOne(e: Entry): nat {
    if e.request.MapBuffer? && e.reply.errno == 0 then 1 else 0
  }

  function StartsOne(e: Entry): nat {
    if e.request.StreamOn? && e.reply.errno == 0 then 1 else 0
  }

  function TakesOne(e: Entry): nat {
    if e.request.DequeueBuffer? && e.reply.errno == 0 then 1 else 0
  }

  /** The buffer that was dequeued last. */
  ghost function LastTaken(log: seq<Entry>): Option<Buffer> {
    if log == [] then None
    else if TakesOne(log[|log| - 1]) == 1 then Some(log[|log| - 1].reply.buffer)
    else LastTaken(log[..|log| - 1])
  }

  /** A stop signal was delivered by the k-th call or before. */
  ghost predicate Signalled(log: seq<Entry>, k: nat) {
    exists j :: 0 <= j <= k && j < |log| && log[j].reply.signal != 0
  }

  /** What the calls so far add up to. */
  datatype Totals = Totals(mapped: nat, granted: nat, started: nat, taken: nat, last: Option<Buffer>)

  ghost function TotalsOf(log: seq<Entry>): Totals {
    Totals(Sum(log, MapsOne), Sum(log, Granted), Sum(log, StartsOne), Sum(log, TakesOne), LastTaken(log))
  }

  function TotalsNext(c: Totals, e: Entry): Totals {
    Totals(c.mapped + MapsOne(e), c.granted + Granted(e), c.started + StartsOne(e), c.taken + TakesOne(e),
           if TakesOne(e) == 1 then Some(e.reply.buffer) else c.last)
  }

  lemma TotalsStep(log: seq<Entry>, k: nat)
    requires k < |log|
    ensures TotalsOf(log[..k + 1]) == TotalsNext(TotalsOf(log[..k]), log[k])
  {
    SumNext(log, MapsOne, k);
    SumNext(log, Granted, k);
    SumNext(log, StartsOne, k);
    SumNext(log, TakesOne, k);
    assert log[..k + 1][..k] == log[..k];
  }

  // ---------- Totals and the course ----------

  /** The buffer a point holds, if it holds one. */
  function HeldAt(p: Point): Option<Buffer> {
    match p
    case OpeningFile(b, _) => Some(b)
    case Writing(b, _, _) => Some(b)
    case ClosingFile(b, _) => Some(b)
    case Requeuing(b, _) => Some(b)
    case _ => None
  }

  /** What the point says about the frame to save. */
  predicate SavingAt(o: Options, p: Point, taken: nat) {
    match p
    case OpeningFile(b, path) => o.savePath == Some(path) && taken == o.saveAt && !b.error
    case Writing(b, offset, remaining) => !b.error && remaining > 0 && offset + remaining == b.bytesused
    case ClosingFile(b, _) => !b.error
    case Requeuing(b, refused) => refused == (o.savePath.Some? && taken == o.saveAt && b.error)
    case _ => true
  }

  /** The totals are those the point supposes; frames is how many were recorded. */
  predicate Matches(o: Options, f: Flow, frames: nat, c: Totals) {
    && f.buffers == c.mapped && (!IsEnding(f.point) ==> f.granted == c.granted)
    && (IsSettingUp(f.point) ==> c.granted == 0)
    && (IsSettingUp(f.point) || IsBuffers(f.point) ==> c.started == 0)
    && (InLoop(f.point) ==> c.started == 1)
    && (!IsEnding(f.point) ==> frames == c.taken)
    && (HeldAt(f.point).Some? ==> HeldAt(f.point) == c.last)
    && SavingAt(o, f.point, c.taken)
  }

  lemma SettingUpMatches(o: Options, f: Flow, frames: nat, c: Totals, t: Session, e: Entry)
    requires o.Valid() && Matches(o, f, frames, c) && Next(o, f) == Some(e.request) && IsSettingUp(f.point)
    requires !Retried(e, t.signal)
    ensures Matches(o, OnwardSettingUp(o, f, t, e), frames, TotalsNext(c, e))
  {
  }

  lemma BuffersMatches(o: Options, f: Flow, frames: nat, c: Totals, t: Session, e: Entry)
    requires Matches(o, f, frames, c) && Next(o, f) == Some(e.request) && IsBuffers(f.point)
    requires !Retried(e, t.signal)
    ensures Matches(o, OnwardBuffers(f, t, e), frames, TotalsNext(c, e))
  {
  }

  lemma EndingMatches(o: Options, f: Flow, frames: nat, c: Totals, e: Entry)
    requires Matches(o, f, frames, c) && Next(o, f) == Some(e.request) && IsEnding(f.point)
    ensures Matches(o, OnwardEnding(f, e), frames, TotalsNext(c, e))
  {
  }

  lemma DequeuingMatches(o: Options, f: Flow, frames: nat, c: Totals, s: Session, e: Entry)
    requires o.Valid() && Matches(o, f, frames, c) && f.point.Dequeuing? && e.request.DequeueBuffer?
    requires frames == |s.cap.frames| && !Retried(e, Step(s, e).signal)
    ensures var t := Step(s, e); Matches(o, OnwardLoop(o, f, t, e), |t.cap.frames|, TotalsNext(c, e))
  {
  }

  lemma LoopMatches(o: Options, f: Flow, frames: nat, c: Totals, t: Session, e: Entry)
    requires Matches(o, f, frames, c) && Next(o, f) == Some(e.request) && InLoop(f.point) && !f.point.Dequeuing?
    requires !Retried(e, t.signal)
    ensures Matches(o, OnwardLoop(o, f, t, e), frames, TotalsNext(c, e))
  {
  }

  lemma RetriedMatches(o: Options, f: Flow, frames: nat, c: Totals, e: Entry)
    requires Matches(o, f, frames, c) && e.reply.errno != 0
    ensures Matches(o, f, frames, TotalsNext(c, e))
  {
  }

  /** A frame is recorded by a dequeue only. */
  lemma OthersRecordNothing(s: Session, e: Entry)
    requires !e.request.DequeueBuffer? || e.reply.errno != 0
    ensures |Step(s, e).cap.frames| == |s.cap.frames|
  {
  }

  lemma CallMatches(o: Options, f: Flow, c: Totals, s: Session, e: Entry, g: Flow)
    requires o.Valid() && Matches(o, f, |s.cap.frames|, c) && Next(o, f) == Some(e.request)
    requires Moved(o, f, Step(s, e), e, g)
    ensures Matches(o, g, |Step(s, e).cap.frames|, TotalsNext(c, e))
  {
    var t := Step(s, e);
    MovedOnward(o, f, t, e, g);
    if e.request.DequeueBuffer? && !Retried(e, t.signal) {
      DequeuingMatches(o, f, |s.cap.frames|, c, s, e);
    } else {
      OthersRecordNothing(s, e);
      OtherMatches(o, f, |s.cap.frames|, c, t, e);
    }
  }

  lemma OtherMatches(o: Options, f: Flow, frames: nat, c: Totals, t: Session, e: Entry)
    requires o.Valid() && Matches(o, f, frames, c) && Next(o, f) == Some(e.request)
    requires !e.request.DequeueBuffer? || Retried(e, t.signal)
    ensures Matches(o, Onward(o, f, t, e), frames, TotalsNext(c, e))
  {
    if Retried(e, t.signal) && !f.point.Abandoning? {
      RetriedMatches(o, f, frames, c, e);
    } else if IsSettingUp(f.point) {
      SettingUpMatches(o, f, frames, c, t, e);
    } else if IsBuffers(f.point) {
      BuffersMatches(o, f, frames, c, t, e);
    } else if IsEnding(f.point) {
      EndingMatches(o, f, frames, c, e);
    } else {
      LoopMatches(o, f, frames, c, t, e);
    }
  }

  /** The course and the totals agree after k calls; put as a bound on the prefixes. */
  ghost predicate Agreed(o: Options, log: seq<Entry>, k: nat)
    requires o.Valid()
  {
    forall i :: k <= i <= k && i <= |log| ==>
      Matches(o, FlowOf(o, log[..i]), |Replay(log[..i]).cap.frames|, TotalsOf(log[..i]))
  }

  lemma AgreedNext(o: Options, log: seq<Entry>, k: nat)
    requires o.Valid() && k < |log| && Follows(o, log) && Agreed(o, log, k)
    ensures Agreed(o, log, k + 1)
  {
    assert |log[..k]| == k;
    FlowNext(o, log, k);
    ReplayNext(log, k);
    TotalsStep(log, k);
    CallMatches(o, FlowOf(o, log[..k]), TotalsOf(log[..k]), Replay(log[..k]), log[k], FlowOf(o, log[..k + 1]));
  }

  lemma {:induction false} AgreedAlways(o: Options, log: seq<Entry>, k: nat)
    requires o.Valid() && k <= |log| && Follows(o, log)
    ensures Agreed(o, log, k)
    decreases k
  {
    if k == 0 {
      assert log[..0] == [];
    } else {
      AgreedAlways(o, log, k - 1);
      AgreedNext(o, log, k - 1);
    }
  }

  // ---------- Two calls in a row ----------

  /** The run stands here after k calls; put as a bound on the prefixes. */
  ghost predicate StandsAt(o: Options, log: seq<Entry>, k: nat, f: Flow)
    requires o.Valid()
  {
    forall i :: k <= i <= k && i <= |log| ==> f == FlowOf(o, log[..i])
  }

  lemma AdjacentAt(o: Options, log: seq<Entry>, k: nat) returns (f: Flow, t: Session, g: Flow)
    requires o.Valid() && Follows(o, log) && k + 1 < |log|
    ensures Next(o, f) == Some(log[k].request) && Next(o, g) == Some(log[k + 1].request)
    ensures Moved(o, f, t, log[k], g) && InPlace(f)
    ensures StandsAt(o, log, k, f) && StandsAt(o, log, k + 1, g) && t == Replay(log[..k + 1])
    ensures t.signal != 0 <==> Signalled(log, k)
    ensures TakesOne(log[k]) == 0 ==> Matches(o, f, |t.cap.frames|, TotalsOf(log[..k]))
    ensures Matches(o, g, |t.cap.frames|, TotalsOf(log[..k + 1]))
  {
    f, t, g := FlowOf(o, log[..k]), Replay(log[..k + 1]), FlowOf(o, log[..k + 1]);
    if TakesOne(log[k]) == 0 {
      ReplayNext(log, k);
      OthersRecordNothing(Replay(log[..k]), log[k]);
    }
    FlowNext(o, log, k);
    FlowNext(o, log, k + 1);
    AlwaysInPlace(o, log, k);
    AgreedAlways(o, log, k);
    AgreedAlways(o, log, k + 1);
    assert |log[..k]| == k && |log[..k + 1]| == k + 1;
    SignalledPrefix(log, k);
  }

  lemma SignalledPrefix(log: seq<Entry>, k: nat)
    requires k < |log|
    ensures Replay(log[..k + 1]).signal != 0 <==> Signalled(log, k)
  {
    SignalPendingIff(log[..k + 1]);
    if Signalled(log, k) {
      var j :| 0 <= j <= k && j < |log| && log[j].reply.signal != 0;
      assert log[..k + 1][j] == log[j];
    }
  }

  lemma SamePlace(o: Options, log: seq<Entry>, k: nat, f: Flow, g: Flow)
    requires o.Valid() && k <= |log| && StandsAt(o, log, k, f) && StandsAt(o, log, k, g)
    ensures f == g
  {
    assert |log[..k]| == k;
  }

  /** The k-th call leads from f to g, in session t. */
  lemma Adjacent(o: Options, log: seq<Entry>, k: nat) returns (f: Flow, t: Session, g: Flow)
    requires o.Valid() && Follows(o, log) && k + 1 < |log|
    ensures Next(o, f) == Some(log[k].request) && Next(o, g) == Some(log[k + 1].request)
    ensures Moved(o, f, t, log[k], g) && InPlace(f)
    ensures t.signal != 0 <==> Signalled(log, k)
    ensures TakesOne(log[k]) == 0 ==> Matches(o, f, |t.cap.frames|, TotalsOf(log[..k]))
    ensures Matches(o, g, |t.cap.frames|, TotalsOf(log[..k + 1]))
  {
    f, t, g := AdjacentAt(o, log, k);
  }

  /** The same with the call before: it led from e to f. */
  lemma Surrounded(o: Options, log: seq<Entry>, k: nat) returns (e: Flow, s: Session, f: Flow, t: Session, g: Flow)
    requires o.Valid() && Follows(o, log) && 0 < k && k + 1 < |log|
    ensures Next(o, e) == Some(log[k - 1].request) && Moved(o, e, s, log[k - 1], f) && InPlace(e)
    ensures Next(o, f) == Some(log[k].request) && Next(o, g) == Some(log[k + 1].request)
    ensures Moved(o, f, t, log[k], g) && InPlace(f)
    ensures t.signal != 0 <==> Signalled(log, k)
    ensures TakesOne(log[k]) == 0 ==> Matches(o, f, |t.cap.frames|, TotalsOf(log[..k]))
  {
    f, t, g := AdjacentAt(o, log, k);
    var f';
    e, s, f' := AdjacentAt(o, log, k - 1);
    SamePlace(o, log, k, f, f');
  }

  // ---------- Where a point comes from ----------

  lemma FromSettingUp(o: Options, f: Flow, t: Session, e: Entry)
    requires o.Valid() && IsSettingUp(f.point)
    ensures var p := OnwardSettingUp(o, f, t, e).point; IsSettingUp(p) || p.Querying? || IsEnding(p)
  {
  }

  lemma FromBuffers(o: Options, f: Flow, t: Session, e: Entry)
    requires InPlace(f) && IsBuffers(f.point) && Next(o, f) == Some(e.request) && !Retried(e, t.signal)
    ensures var g := OnwardBuffers(f, t, e); var p := g.point;
      && (IsBuffers(p) || IsEnding(p) || (f.point.Starting? && p.AtLimits?))
      && (p.Mapping? ==> f.point.Querying? && e.reply.errno == 0 && p.length == e.reply.value && g.buffers == f.buffers)
  {
  }

  lemma FromEnding(f: Flow, e: Entry)
    requires IsEnding(f.point)
    ensures var p := OnwardEnding(f, e).point; IsEnding(p) && (p.Finishing? ==> f.point.Stopping?)
  {
  }

  lemma FromLoop(o: Options, f: Flow, t: Session, e: Entry)
    requires InLoop(f.point)
    ensures var p := OnwardLoop(o, f, t, e).point;
      && (InLoop(p) || IsEnding(p)) && !p.Finishing?
      && (p.Reporting? ==> f.point.Requeuing?)
      && (p.AtLimits? ==> f.point.Reporting? || f.point.Dequeuing?)
  {
  }

  lemma LoopSources(o: Options, f: Flow, t: Session, e: Entry)
    requires InLoop(f.point) && Next(o, f) == Some(e.request) && !Retried(e, t.signal)
    ensures var p := OnwardLoop(o, f, t, e).point;
      && (p.Dequeuing? ==> e.request.Poll? && e.reply.errno == 0 && e.reply.value != 0)
      && (p.OpeningFile? ==> e.request.DequeueBuffer? && e.reply.errno == 0)
  {
  }

  lemma ClosingSources(o: Options, f: Flow, t: Session, e: Entry)
    requires InLoop(f.point) && Next(o, f) == Some(e.request) && OnwardLoop(o, f, t, e).point.ClosingFile?
    requires !Retried(e, t.signal)
    ensures e.request.OpenFile? || e.request.WriteFile?
    ensures OnwardLoop(o, f, t, e).point.failed <==> e.request.WriteFile? && (e.reply.errno != 0 || e.reply.value == 0)
  {
  }

  /** Which call leads to a point. */
  predicate SourceOf(g: Flow, e: Entry) {
    && (g.point.Mapping? ==>
         e.request == QueryBuffer(g.buffers) && e.reply.errno == 0 && g.point.length == e.reply.value)
    && (IsClock(g.point) ==>
         (g.point.Reporting? <==> e.request.QueueBuffer?) && (g.point.Finishing? <==> e.request.StreamOff?))
    && (g.point.Dequeuing? ==>
         || (e.request.Poll? && e.reply.errno == 0 && e.reply.value != 0)
         || (e.request.DequeueBuffer? && e.reply.errno == EINTR))
    && (g.point.OpeningFile? ==> e.request.DequeueBuffer? && e.reply.errno == 0)
    && (g.point.ClosingFile? ==>
         && (e.request.OpenFile? || e.request.WriteFile?)
         && (g.point.failed <==> e.request.WriteFile? && (e.reply.errno != 0 || e.reply.value == 0)))
  }

  lemma Sources(o: Options, f: Flow, t: Session, e: Entry, g: Flow)
    requires o.Valid() && InPlace(f) && Moved(o, f, t, e, g) && Next(o, f) == Some(e.request)
    ensures SourceOf(g, e)
  {
    MovedOnward(o, f, t, e, g);
    if Retried(e, t.signal) && !f.point.Abandoning? {
    } else if IsSettingUp(f.point) {
      FromSettingUp(o, f, t, e);
    } else if IsBuffers(f.point) {
      FromBuffers(o, f, t, e);
    } else if IsEnding(f.point) {
      FromEnding(f, e);
    } else {
      FromLoop(o, f, t, e);
      LoopSources(o, f, t, e);
      if g.point.ClosingFile? {
        ClosingSources(o, f, t, e);
      }
    }
  }

  // ---------- The set-up ----------

  /** A capture starts by opening its device, once, and reading what it can do. */
  lemma OpensFirst(o: Options, log: seq<Entry>)
    requires o.Valid() && Follows(o, log) && log != []
    ensures log[0].request == OpenDevice(o.device)
    ensures |log| > 1 ==> log[0].reply.errno == 0 && log[1].request == QueryCapabilities
  {
    FlowNext(o, log, 0);
    assert log[..0] == [];
    if |log| > 1 {
      var f, t, g := Adjacent(o, log, 0);
      OpeningMoves(o, f, t, log[0], g);
    }
  }

  /** The device must capture video and stream; the capabilities of the opened node count, if it
      reports them. */
  lemma AfterCapabilities(o: Options, log: seq<Entry>, k: nat)
    requires o.Valid() && Follows(o, log) && k + 1 < |log|
    requires log[k].request == QueryCapabilities && log[k].reply.errno == 0
    ensures var r := log[k].reply; var word := if r.value / 0x8000_0000 % 2 == 1 then r.deviceCaps else r.value;
      log[k + 1].request ==
        if word % 2 == 0 || word / 0x400_0000 % 2 == 0 then CloseDevice
        else if o.listOnly then EnumerateFormat(0)
        else if o.sensorMode.Some? then QueryMode(o.sensorMode.value)
        else SetFormat(o.width, o.height, o.pixelFormat)
  {
    var f, t, g := Adjacent(o, log, k);
    ControlMoves(o, f, t, log[k], g);
  }

  /** A mode is set unless the control is read-only or the mode out of its range. */
  lemma AfterQueryMode(o: Options, log: seq<Entry>, k: nat)
    requires o.Valid() && Follows(o, log) && k + 1 < |log|
    requires log[k].request.QueryMode? && log[k].reply.errno == 0
    ensures var mode, r := log[k].request.wanted, log[k].reply;
      log[k + 1].request ==
        if r.value / 4 % 2 == 1 || mode < r.range.0 || mode > r.range.1 then CloseDevice else SetMode(mode)
  {
    var f, t, g := Adjacent(o, log, k);
    ControlMoves(o, f, t, log[k], g);
  }

  lemma AfterSetMode(o: Options, log: seq<Entry>, k: nat)
    requires o.Valid() && Follows(o, log) && k + 1 < |log| && log[k].request.SetMode? && log[k].reply.errno == 0
    ensures log[k + 1].request == SetFormat(o.width, o.height, o.pixelFormat)
  {
    var f, t, g := Adjacent(o, log, k);
    ControlMoves(o, f, t, log[k], g);
  }

  /** After the format the rate: one that fits is asked for as the fraction in lowest terms of its
      rounded thousandths. */
  lemma AfterSetFormat(o: Options, log: seq<Entry>, k: nat)
    requires o.Valid() && Follows(o, log) && k + 1 < |log| && log[k].request.SetFormat? && log[k].reply.errno == 0
    ensures var next := log[k + 1].request;
      if o.fps * 1000.0 > 4294967295.0 then next == CloseDevice
      else
        && next.SetParameters? && next.numerator > 0 && Coprime(next.numerator, next.denominator)
        && next.numerator * (o.fps * 1000.0 + 0.5).Floor == next.denominator * 1000
  {
    var f, t, g := Adjacent(o, log, k);
    ControlMoves(o, f, t, log[k], g);
    RateAsked(o.fps);
  }

  lemma RateAsked(fps: real)
    requires fps > 0.0
    ensures var rate := TimePerFrame(fps);
      if fps * 1000.0 > 4294967295.0 then rate.Failure?
      else
        && rate.Success? && rate.value.0 > 0 && Coprime(rate.value.0, rate.value.1)
        && rate.value.0 * (fps * 1000.0 + 0.5).Floor == rate.value.1 * 1000
  {
    if fps * 1000.0 <= 4294967295.0 {
      TimePerFrameIsTheRate(fps);
    }
  }

  lemma AfterSetParameters(o: Options, log: seq<Entry>, k: nat)
    requires o.Valid() && Follows(o, log) && k + 1 < |log| && log[k].request.SetParameters? && log[k].reply.errno == 0
    ensures log[k + 1].request == RequestBuffers(o.bufferCount)
  {
    var f, t, g := Adjacent(o, log, k);
    ControlMoves(o, f, t, log[k], g);
  }

  /** Every format is listed until the driver knows no other. */
  lemma AfterListing(o: Options, log: seq<Entry>, k: nat)
    requires o.Valid() && Follows(o, log) && k + 1 < |log| && log[k].request.EnumerateFormat?
    requires log[k].reply.errno != 4 || Signalled(log, k)
    ensures log[k + 1].request ==
      if log[k].reply.errno == 0 then EnumerateFormat(log[k].request.format + 1) else CloseDevice
  {
    var f, t, g := Adjacent(o, log, k);
    ListingMoves(o, f, t, log[k], g);
  }

  // ---------- The buffers ----------

  /** Fewer than two buffers end the run. */
  lemma AfterRequestBuffers(o: Options, log: seq<Entry>, k: nat)
    requires o.Valid() && Follows(o, log) && k + 1 < |log| && log[k].request.RequestBuffers? && log[k].reply.errno == 0
    ensures log[k + 1].request == if log[k].reply.value < 2 then CloseDevice else QueryBuffer(0)
  {
    var f, t, g := Adjacent(o, log, k);
    ControlMoves(o, f, t, log[k], g);
  }

  /** A buffer is mapped with the length the driver reported for it. */
  lemma AfterQueryBuffer(o: Options, log: seq<Entry>, k: nat)
    requires o.Valid() && Follows(o, log) && k + 1 < |log| && log[k].request.QueryBuffer? && log[k].reply.errno == 0
    ensures log[k + 1].request == MapBuffer(log[k].request.query, log[k].reply.value)
  {
    var f, t, g := Adjacent(o, log, k);
    ControlMoves(o, f, t, log[k], g);
  }

  /** Each of the granted buffers is mapped, then the first is queued. */
  lemma AfterMapBuffer(o: Options, log: seq<Entry>, k: nat)
    requires o.Valid() && Follows(o, log) && k + 1 < |log| && log[k].request.MapBuffer? && log[k].reply.errno == 0
    ensures var next := log[k].request.region + 1;
      log[k + 1].request == if next < Sum(log[..k], Granted) then QueryBuffer(next) else QueueBuffer(0)
  {
    var f, t, g := Adjacent(o, log, k);
    MapMoves(o, f, t, log[k], g);
  }

  /** A buffer is mapped directly after the driver was asked for this very buffer, with the length it
      reported, and the buffers are numbered in the order of their mappings. */
  lemma BeforeMapping(o: Options, log: seq<Entry>, k: nat)
    requires o.Valid() && Follows(o, log) && k < |log| && log[k].request.MapBuffer?
    ensures k > 0 && log[k - 1].request == QueryBuffer(log[k].request.region)
    ensures log[k - 1].reply.errno == 0 && log[k - 1].reply.value == log[k].request.length
    ensures log[k].request.region == Sum(log[..k], MapsOne)
  {
    OpensFirst(o, log);
    var f, t, g := Adjacent(o, log, k - 1);
    Sources(o, f, t, log[k - 1], g);
  }

  /** All mapped buffers are queued in order, then the stream is started. */
  lemma AfterFirstQueuing(o: Options, log: seq<Entry>, k: nat)
    requires o.Valid() && Follows(o, log) && k + 1 < |log|
    requires log[k].request.QueueBuffer? && log[k].reply.errno == 0 && Sum(log[..k], StartsOne) == 0
    ensures var next := log[k].request.index + 1;
      log[k + 1].request == if next < Sum(log[..k], MapsOne) then QueueBuffer(next) else StreamOn
  {
    var f, t, g := Adjacent(o, log, k);
    QueueMoves(o, f, t, log[k], g);
  }

  lemma AfterStarting(o: Options, log: seq<Entry>, k: nat)
    requires o.Valid() && Follows(o, log) && k + 1 < |log| && log[k].request.StreamOn? && log[k].reply.errno == 0
    ensures log[k + 1].request == if Signalled(log, k) then StreamOff else ReadClock
  {
    var f, t, g := Adjacent(o, log, k);
    StartMoves(o, f, t, log[k], g);
  }

  // ---------- The loop ----------

  /** The clock is read at the head of the loop, not after a frame or after the stream was stopped. */
  predicate HeadReading(log: seq<Entry>, k: nat) {
    && 0 < k < |log| && log[k].request.ReadClock?
    && !log[k - 1].request.QueueBuffer? && !log[k - 1].request.StreamOff?
  }

  /** At the head of the loop the two limits, and nothing else, decide between waiting for a frame and
      stopping the stream. */
  lemma LimitsDecide(o: Options, log: seq<Entry>, k: nat)
    requires o.Valid() && Follows(o, log) && k + 1 < |log| && HeadReading(log, k)
    ensures var frames := Sum(log[..k], TakesOne);
      log[k + 1].request ==
        if (o.frameLimit != 0 && frames >= o.frameLimit) || (o.durationSeconds > 0.0 && log[k].reply.value != 0)
        then StreamOff else Poll(o.timeoutMs)
  {
    var e, s, f, t, g := Surrounded(o, log, k);
    Sources(o, e, s, log[k - 1], f);
    ClockMoves(o, f, t, log[k], g);
  }

  /** After the report the loop starts again, unless a signal was delivered. */
  lemma AfterReport(o: Options, log: seq<Entry>, k: nat)
    requires o.Valid() && Follows(o, log) && 0 < k && k + 1 < |log|
    requires log[k].request.ReadClock? && log[k - 1].request.QueueBuffer?
    ensures log[k + 1].request == if Signalled(log, k) then StreamOff else ReadClock
  {
    var e, s, f, t, g := Surrounded(o, log, k);
    Sources(o, e, s, log[k - 1], f);
    ClockMoves(o, f, t, log[k], g);
  }

  /** After the last reading of the clock only the mappings and the descriptor are left. */
  lemma AfterLastReading(o: Options, log: seq<Entry>, k: nat)
    requires o.Valid() && Follows(o, log) && 0 < k && k + 1 < |log|
    requires log[k].request.ReadClock? && log[k - 1].request.StreamOff?
    ensures log[k + 1].request == if Sum(log[..k], MapsOne) > 0 then UnmapBuffer(0) else CloseDevice
  {
    var e, s, f, t, g := Surrounded(o, log, k);
    Sources(o, e, s, log[k - 1], f);
    ClockMoves(o, f, t, log[k], g);
  }

  /** A wait begins only below both limits. */
  lemma WaitsWithinLimits(o: Options, log: seq<Entry>, k: nat)
    requires o.Valid() && Follows(o, log) && k + 1 < |log|
    requires log[k].request.ReadClock? && log[k + 1].request.Poll?
    ensures o.frameLimit == 0 || Sum(log[..k], TakesOne) < o.frameLimit
    ensures !(o.durationSeconds > 0.0 && log[k].reply.value != 0)
  {
    OpensFirst(o, log);
    if log[k - 1].request.QueueBuffer? {
      AfterReport(o, log, k);
    } else if log[k - 1].request.StreamOff? {
      AfterLastReading(o, log, k);
    } else {
      LimitsDecide(o, log, k);
    }
  }

  /** A wait is repeated when it is interrupted; a timeout, an error or the loss of the device ends
      the loop, and so does a signal; otherwise a frame is dequeued. */
  lemma AfterPoll(o: Options, log: seq<Entry>, k: nat)
    requires o.Valid() && Follows(o, log) && k + 1 < |log| && log[k].request.Poll?
    ensures var errno, events := log[k].reply.errno, log[k].reply.value;
      log[k + 1].request ==
        if Signalled(log, k) then StreamOff
        else if errno == 4 then Poll(o.timeoutMs)
        else if errno != 0 || events == 0 || events / 16 % 2 == 1 || events / 32 % 2 == 1 then StreamOff
        else DequeueBuffer
  {
    var f, t, g := Adjacent(o, log, k);
    PollMoves(o, f, t, log[k], g);
  }

  // ---------- Frames ----------

  /** The driver mapped the buffer, with room for these bytes. */
  ghost predicate MappedFor(log: seq<Entry>, index: nat, bytes: nat) {
    exists j :: 0 <= j < |log| && MapsOne(log[j]) == 1
      && log[j].request.region == index && bytes <= log[j].request.length
  }

  lemma MappedForNext(log: seq<Entry>, k: nat, index: nat, bytes: nat)
    requires k < |log|
    ensures MappedFor(log[..k + 1], index, bytes) <==>
      || MappedFor(log[..k], index, bytes)
      || (MapsOne(log[k]) == 1 && log[k].request.region == index && bytes <= log[k].request.length)
  {
    var longer, shorter := log[..k + 1], log[..k];
    if MappedFor(longer, index, bytes) {
      var j :| 0 <= j < |longer| && MapsOne(longer[j]) == 1 && longer[j].request.region == index
        && bytes <= longer[j].request.length;
      if j < k {
        assert shorter[j] == longer[j];
      }
    }
    if MappedFor(shorter, index, bytes) {
      var j :| 0 <= j < |shorter| && MapsOne(shorter[j]) == 1 && shorter[j].request.region == index
        && bytes <= shorter[j].request.length;
      assert longer[j] == shorter[j];
    }
    if MapsOne(log[k]) == 1 && log[k].request.region == index && bytes <= log[k].request.length {
      assert MapsOne(longer[k]) == 1;
    }
  }

  /** The regions are those of the mapping calls. */
  ghost predicate RegionsOf(log: seq<Entry>, regions: map<nat, nat>) {
    forall index: nat, bytes: nat :: MappedFor(log, index, bytes) <==> index in regions && bytes <= regions[index]
  }

  lemma RegionsStep(s: Session, e: Entry)
    requires ResourcesAllow(s.res, s.signal, e.request) && !e.request.UnmapBuffer?
    ensures Step(s, e).res.regions ==
      if MapsOne(e) == 1 then s.res.regions[e.request.region := e.request.length] else s.res.regions
    ensures MapsOne(e) == 1 ==> e.request.region !in s.res.regions
  {
  }

  lemma RegionsOfNext(log: seq<Entry>, k: nat)
    requires k < |log| && Safe(Replay(log)) && !log[k].request.UnmapBuffer?
    requires RegionsOf(log[..k], Replay(log[..k]).res.regions)
    ensures RegionsOf(log[..k + 1], Replay(log[..k + 1]).res.regions)
  {
    EveryCallAllowed(log, k);
    ReplayNext(log, k);
    RegionsStep(Replay(log[..k]), log[k]);
    RegionsGrow(log, k, Replay(log[..k]).res.regions);
  }

  lemma RegionsGrow(log: seq<Entry>, k: nat, regions: map<nat, nat>)
    requires k < |log| && RegionsOf(log[..k], regions) && (MapsOne(log[k]) == 1 ==> log[k].request.region !in regions)
    ensures RegionsOf(log[..k + 1],
                      if MapsOne(log[k]) == 1 then regions[log[k].request.region := log[k].request.length] else regions)
  {
    var next := if MapsOne(log[k]) == 1 then regions[log[k].request.region := log[k].request.length] else regions;
    var longer := log[..k + 1];
    forall index: nat, bytes: nat
      ensures MappedFor(longer, index, bytes) <==> index in next && bytes <= next[index]
    {
      MappedForNext(log, k, index, bytes);
      assert MappedFor(log[..k], index, bytes) <==> index in regions && bytes <= regions[index];
    }
  }

  /** Until the teardown the regions are those that were mapped; put as a bound on the prefixes. */
  ghost predicate RegionsKnown(o: Options, log: seq<Entry>, k: nat)
    requires o.Valid()
  {
    forall i :: k <= i <= k && i <= |log| && !IsEnding(FlowOf(o, log[..i]).point) ==>
      RegionsOf(log[..i], Replay(log[..i]).res.regions)
  }

  lemma EndingStays(o: Options, f: Flow, t: Session, e: Entry, g: Flow)
    requires o.Valid() && Moved(o, f, t, e, g) && IsEnding(f.point)
    ensures IsEnding(g.point)
  {
    MovedOnward(o, f, t, e, g);
    if !(Retried(e, t.signal) && !f.point.Abandoning?) {
      FromEnding(f, e);
    }
  }

  lemma OnlyEndingUnmaps(o: Options, f: Flow)
    requires Next(o, f).Some? && Next(o, f).value.UnmapBuffer?
    ensures IsEnding(f.point)
  {
  }

  lemma RegionsKnownNext(o: Options, log: seq<Entry>, k: nat)
    requires o.Valid() && k < |log| && Follows(o, log) && Safe(Replay(log)) && RegionsKnown(o, log, k)
    ensures RegionsKnown(o, log, k + 1)
  {
    assert |log[..k]| == k;
    FlowNext(o, log, k);
    var f, g := FlowOf(o, log[..k]), FlowOf(o, log[..k + 1]);
    if !IsEnding(g.point) {
      if IsEnding(f.point) {
        EndingStays(o, f, Replay(log[..k + 1]), log[k], g);
      }
      if log[k].request.UnmapBuffer? {
        OnlyEndingUnmaps(o, f);
      }
      RegionsOfNext(log, k);
    }
  }

  lemma {:induction false} RegionsAlwaysKnown(o: Options, log: seq<Entry>, k: nat)
    requires o.Valid() && k <= |log| && Follows(o, log) && Safe(Replay(log))
    ensures RegionsKnown(o, log, k)
    decreases k
  {
    if k == 0 {
      assert log[..0] == [];
    } else {
      RegionsAlwaysKnown(o, log, k - 1);
      RegionsKnownNext(o, log, k - 1);
    }
  }

  lemma OthersKeepRegions(s: Session, e: Entry)
    requires !e.request.MapBuffer? && !e.request.UnmapBuffer?
    ensures Step(s, e).res.regions == s.res.regions
  {
  }

  /** A dequeued buffer is acceptable when it was mapped, with room for its bytes. */
  lemma AcceptableMeans(o: Options, log: seq<Entry>, k: nat, f: Flow, t: Session, b: Buffer)
    requires o.Valid() && Follows(o, log) && Safe(Replay(log)) && k < |log| && log[k].request.DequeueBuffer?
    requires StandsAt(o, log, k, f) && f.point.Dequeuing? && t == Replay(log[..k + 1])
    ensures Acceptable(t.res.regions, b) <==> MappedFor(log[..k], b.index, b.bytesused)
  {
    RegionsAlwaysKnown(o, log, k);
    assert |log[..k]| == k;
    RegionsKept(log, k);
  }

  lemma RegionsKept(log: seq<Entry>, k: nat)
    requires k < |log| && log[k].request.DequeueBuffer?
    ensures Replay(log[..k + 1]).res.regions == Replay(log[..k]).res.regions
  {
    ReplayNext(log, k);
    OthersKeepRegions(Replay(log[..k]), log[k]);
  }

  lemma Dequeued(o: Options, log: seq<Entry>, k: nat) returns (f: Flow, t: Session, g: Flow)
    requires o.Valid() && Follows(o, log) && Safe(Replay(log)) && k + 1 < |log| && log[k].request.DequeueBuffer?
    ensures Next(o, f) == Some(log[k].request) && Next(o, g) == Some(log[k + 1].request)
    ensures Moved(o, f, t, log[k], g) && InPlace(f)
    ensures t.signal != 0 <==> Signalled(log, k)
    ensures Matches(o, g, |t.cap.frames|, TotalsOf(log[..k + 1]))
    ensures var b := log[k].reply.buffer; Acceptable(t.res.regions, b) <==> MappedFor(log[..k], b.index, b.bytesused)
  {
    f, t, g := AdjacentAt(o, log, k);
    AcceptableMeans(o, log, k, f, t, log[k].reply.buffer);
  }

  /** A frame is asked for only after a wait that ended well, and before any signal. */
  lemma BeforeDequeue(o: Options, log: seq<Entry>, k: nat)
    requires o.Valid() && Follows(o, log) && k < |log| && log[k].request.DequeueBuffer?
    ensures k > 0
    ensures var e := log[k - 1];
      || (e.request.Poll? && e.reply.errno == 0 && e.reply.value != 0)
      || (e.request.DequeueBuffer? && e.reply.errno == 4)
  {
    OpensFirst(o, log);
    var f, t, g := Adjacent(o, log, k - 1);
    Sources(o, f, t, log[k - 1], g);
  }

  /** Without a buffer that is ready the loop starts again; any other failed dequeue ends the run. */
  lemma AfterFailedDequeue(o: Options, log: seq<Entry>, k: nat)
    requires o.Valid() && Follows(o, log) && k + 1 < |log| && log[k].request.DequeueBuffer? && log[k].reply.errno != 0
    requires log[k].reply.errno == 4 ==> Signalled(log, k)
    ensures log[k + 1].request == if log[k].reply.errno == 11 && !Signalled(log, k) then ReadClock else StreamOff
  {
    var f, t, g := Adjacent(o, log, k);
    DequeueMoves(o, f, t, log[k], g);
  }

  /** The frame to be saved goes to the file, unless it is flagged; every other one goes back; and a
      buffer that was not mapped, or is too long for its mapping, ends the run. */
  lemma AfterDequeue(o: Options, log: seq<Entry>, k: nat)
    requires o.Valid() && Follows(o, log) && Safe(Replay(log)) && k + 1 < |log|
    requires log[k].request.DequeueBuffer? && log[k].reply.errno == 0
    ensures var b, frames := log[k].reply.buffer, Sum(log[..k], TakesOne) + 1;
      log[k + 1].request ==
        if !MappedFor(log[..k], b.index, b.bytesused) then StreamOff
        else if o.savePath.Some? && frames == o.saveAt && !b.error then OpenFile(o.savePath.value)
        else QueueBuffer(b.index)
  {
    var f, t, g := Dequeued(o, log, k);
    SumNext(log, TakesOne, k);
    DequeuedNext(o, f, t, log[k], g, Sum(log[..k], TakesOne) + 1);
  }

  lemma DequeuedNext(o: Options, f: Flow, t: Session, e: Entry, g: Flow, frames: nat)
    requires o.Valid() && InPlace(f) && Next(o, f) == Some(e.request) && Moved(o, f, t, e, g)
    requires e.request.DequeueBuffer? && e.reply.errno == 0 && (!IsEnding(g.point) ==> |t.cap.frames| == frames)
    ensures Next(o, g) == Some(
      if !Acceptable(t.res.regions, e.reply.buffer) then StreamOff
      else if o.savePath.Some? && frames == o.saveAt && !e.reply.buffer.error then OpenFile(o.savePath.value)
      else QueueBuffer(e.reply.buffer.index))
  {
    DequeueMoves(o, f, t, e, g);
  }

  // ---------- The saved frame ----------

  /** A call that saves a frame moves the run on. */
  lemma SavingMoves(o: Options, f: Flow, t: Session, e: Entry, g: Flow)
    requires o.Valid() && Moved(o, f, t, e, g)
    requires f.point.OpeningFile? || f.point.Writing? || f.point.ClosingFile?
    requires Next(o, f) == Some(e.request)
    ensures g == OnwardSaving(f, t, e)
  {
    MovedOnward(o, f, t, e, g);
  }

  /** The output file is opened for the requested frame, directly after its dequeue. */
  lemma BeforeOpenFile(o: Options, log: seq<Entry>, k: nat)
    requires o.Valid() && Follows(o, log) && k + 1 < |log| && log[k].request.OpenFile?
    ensures k > 0 && log[k - 1].request.DequeueBuffer? && log[k - 1].reply.errno == 0 && !log[k - 1].reply.buffer.error
    ensures o.savePath == Some(log[k].request.path) && Sum(log[..k], TakesOne) == o.saveAt
    ensures LastTaken(log[..k]) == Some(log[k - 1].reply.buffer)
  {
    OpensFirst(o, log);
    var e, s, f, t, g := Surrounded(o, log, k);
    Sources(o, e, s, log[k - 1], f);
    assert log[..k][..k - 1] == log[..k - 1];
  }

  /** The frame is written from its start, all of it. */
  lemma AfterOpenFile(o: Options, log: seq<Entry>, k: nat)
    requires o.Valid() && Follows(o, log) && k + 1 < |log| && log[k].request.OpenFile? && LastTaken(log[..k]).Some?
    ensures var b := LastTaken(log[..k]).value;
      log[k + 1].request ==
        if log[k].reply.errno != 0 then StreamOff
        else if b.bytesused == 0 then CloseFile
        else WriteFile(b.index, 0, b.bytesused)
  {
    var f, t, g := Adjacent(o, log, k);
    SavingMoves(o, f, t, log[k], g);
  }

  /** A short write is followed by one of the rest, an interrupted one by the same; after an error, or
      a write of nothing, or the last byte, the file is closed. */
  lemma AfterWriteFile(o: Options, log: seq<Entry>, k: nat)
    requires o.Valid() && Follows(o, log) && k + 1 < |log| && log[k].request.WriteFile?
    ensures var WriteFile(source, offset, size) := log[k].request;
      var errno, written := log[k].reply.errno, log[k].reply.value;
      log[k + 1].request ==
        if errno == 4 then log[k].request
        else if errno != 0 || written == 0 || written >= size then CloseFile
        else WriteFile(source, offset + written, size - written)
    ensures LastTaken(log[..k]).Some? && LastTaken(log[..k]).value.index == log[k].request.source
    ensures log[k].request.offset + log[k].request.size == LastTaken(log[..k]).value.bytesused
  {
    var f, t, g := Adjacent(o, log, k);
    SavingMoves(o, f, t, log[k], g);
  }

  /** The saved frame goes back to the driver, unless the file could not be written or closed. */
  lemma AfterCloseFile(o: Options, log: seq<Entry>, k: nat)
    requires o.Valid() && Follows(o, log) && 0 < k && k + 1 < |log| && log[k].request.CloseFile?
    ensures LastTaken(log[..k]).Some?
    ensures log[k + 1].request ==
      if log[k].reply.errno != 0
         || (log[k - 1].request.WriteFile? && (log[k - 1].reply.errno != 0 || log[k - 1].reply.value == 0))
      then StreamOff else QueueBuffer(LastTaken(log[..k]).value.index)
  {
    var e, s, f, t, g := Surrounded(o, log, k);
    Sources(o, e, s, log[k - 1], f);
    SavingMoves(o, f, t, log[k], g);
  }

  /** The buffer that goes back is the one dequeued last; then comes the report, unless it was the
      frame to be saved and flagged. */
  lemma AfterRequeue(o: Options, log: seq<Entry>, k: nat)
    requires o.Valid() && Follows(o, log) && k + 1 < |log|
    requires log[k].request.QueueBuffer? && Sum(log[..k], StartsOne) > 0
    requires log[k].reply.errno == 4 ==> Signalled(log, k)
    ensures LastTaken(log[..k]).Some? && LastTaken(log[..k]).value.index == log[k].request.index
    ensures var b := LastTaken(log[..k]).value;
      log[k + 1].request ==
        if log[k].reply.errno != 0 || (o.savePath.Some? && Sum(log[..k], TakesOne) == o.saveAt && b.error)
        then StreamOff else ReadClock
  {
    var f, t, g := Adjacent(o, log, k);
    QueueMoves(o, f, t, log[k], g);
  }

  // ---------- The end ----------

  /** Stopped by a limit or at the head of the loop, the stream is followed by a last look at the clock;
      if it cannot be stopped, the destructor tries again. */
  lemma AfterStop(o: Options, log: seq<Entry>, k: nat)
    requires o.Valid() && Follows(o, log) && 0 < k && k + 1 < |log|
    requires log[k].request.StreamOff? && log[k - 1].request.ReadClock?
    ensures log[k + 1].request == if log[k].reply.errno == 0 then ReadClock else StreamOff
  {
    var e, s, f, t, g := Surrounded(o, log, k);
    ClockStops(o, e, s, log[k - 1], f);
    if !(log[k].reply.errno == 4 && !Signalled(log, k)) {
      StopMoves(o, f, t, log[k], g);
    } else {
      RetryMoves(o, f, t, log[k], g);
    }
  }

  lemma ClockStops(o: Options, f: Flow, t: Session, e: Entry, g: Flow)
    requires o.Valid() && InPlace(f) && Moved(o, f, t, e, g) && Next(o, f) == Some(e.request) && e.request.ReadClock?
    requires Next(o, g) == Some(StreamOff)
    ensures g.point.Stopping?
  {
    ClockMoves(o, f, t, e, g);
  }

  /** A wait that timed out is followed by the destructor. */
  lemma AfterTimeout(o: Options, log: seq<Entry>, k: nat)
    requires o.Valid() && Follows(o, log) && 0 < k && k + 1 < |log|
    requires log[k].request.StreamOff? && log[k - 1].request.Poll?
    requires log[k - 1].reply.errno == 0 && log[k - 1].reply.value == 0
    ensures log[k + 1].request == if Sum(log[..k], MapsOne) > 0 then UnmapBuffer(0) else CloseDevice
  {
    var e, s, f, t, g := Surrounded(o, log, k);
    PollMoves(o, e, s, log[k - 1], f);
    EndMoves(o, f, t, log[k], g);
  }

  /** Each mapped buffer is unmapped in order, then the descriptor is closed. */
  lemma AfterUnmapBuffer(o: Options, log: seq<Entry>, k: nat)
    requires o.Valid() && Follows(o, log) && k + 1 < |log| && log[k].request.UnmapBuffer?
    ensures var next := log[k].request.unmapped + 1;
      log[k + 1].request == if next < Sum(log[..k], MapsOne) then UnmapBuffer(next) else CloseDevice
  {
    var f, t, g := Adjacent(o, log, k);
    EndMoves(o, f, t, log[k], g);
  }

  /** Nothing comes after the descriptor was closed. */
  lemma ClosesLast(o: Options, log: seq<Entry>, k: nat)
    requires o.Valid() && Follows(o, log) && k < |log| && log[k].request.CloseDevice?
    ensures k == |log| - 1 && Whole(o, log)
  {
    if k + 1 < |log| {
      var f, t, g := Adjacent(o, log, k);
      EndMoves(o, f, t, log[k], g);
    } else {
      CloseEnds(o, log);
    }
  }

  lemma CloseEnds(o: Options, log: seq<Entry>)
    requires o.Valid() && Follows(o, log) && log != [] && log[|log| - 1].request.CloseDevice?
    ensures Whole(o, log)
  {
    var k := |log| - 1;
    FlowNext(o, log, k);
    assert log[..k + 1] == log;
    EndMoves(o, FlowOf(o, log[..k]), Replay(log), log[k], FlowOf(o, log));
  }

  // ---------- Calls that fail ----------

  /** An ioctl that is interrupted is made again, unless a signal is pending, or it stops the stream. */
  lemma AfterInterruption(o: Options, log: seq<Entry>, k: nat)
    requires o.Valid() && Follows(o, log) && k + 1 < |log| && log[k].reply.errno == 4 && !Signalled(log, k)
    requires var r := log[k].request;
      !(r.OpenDevice? || r.MapBuffer? || r.Poll? || r.StreamOff? || r.UnmapBuffer? || r.CloseDevice? || r.ReadClock?
        || r.OpenFile? || r.WriteFile? || r.CloseFile?)
    ensures log[k + 1].request == log[k].request
  {
    var f, t, g := Adjacent(o, log, k);
    RetryMoves(o, f, t, log[k], g);
  }

  /** A call of the set-up that fails ends the run: what was mapped is unmapped. */
  lemma AfterFailedSetUp(o: Options, log: seq<Entry>, k: nat)
    requires o.Valid() && Follows(o, log) && k + 1 < |log| && log[k].reply.errno != 0
    requires log[k].reply.errno == 4 ==> Signalled(log, k) || log[k].request.MapBuffer?
    requires var r := log[k].request;
      || r.QueryCapabilities? || r.QueryMode? || r.SetMode? || r.SetFormat? || r.SetParameters? || r.RequestBuffers?
      || r.QueryBuffer? || r.MapBuffer? || r.StreamOn? || (r.QueueBuffer? && Sum(log[..k], StartsOne) == 0)
    ensures log[k + 1].request == if Sum(log[..k], MapsOne) > 0 then UnmapBuffer(0) else CloseDevice
  {
    var f, t, g := Adjacent(o, log, k);
    FailedSetUpUnwinds(o, f, t, log[k], g);
  }

  lemma FailedSetUpUnwinds(o: Options, f: Flow, t: Session, e: Entry, g: Flow)
    requires o.Valid() && InPlace(f) && Next(o, f) == Some(e.request) && Moved(o, f, t, e, g) && e.reply.errno != 0
    requires !Retried(e, t.signal) && !f.point.Opening? && !f.point.Listing?
    requires IsSettingUp(f.point) || IsBuffers(f.point)
    ensures g == Unwound(f) && !f.streaming
  {
    MovedOnward(o, f, t, e, g);
  }
}
