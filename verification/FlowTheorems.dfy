/** How long a run can be: what bounds its calls, and how soon it ends. */
module FlowTheorems {
  import opened MachineTypes
  import opened KernelInterface
  import opened SequenceAccounting
  import opened CaptureOptions
  import opened CaptureSession
  import opened SessionTheorems
  import opened CaptureFlow

  // ---------- Where a run can stand ----------

  predicate InLoop(p: Point) {
    !IsSettingUp(p) && !IsBuffers(p) && !IsEnding(p)
  }

  /** The buffers and the stream are as the point supposes. */
  predicate InPlace(f: Flow) {
    match f.point
    case Querying => !f.streaming && f.buffers < f.granted
    case Mapping(_) => !f.streaming && f.buffers < f.granted
    case Queuing(index) => !f.streaming && index < f.buffers
    case Starting => !f.streaming
    case Finishing => !f.streaming
    case Unmapping(region) => !f.streaming && region < f.buffers
    case Closing => !f.streaming
    case Ended => !f.streaming
    case _ => if IsSettingUp(f.point) then !f.streaming && f.buffers == 0 else f.streaming
  }

  // ---------- How many calls are ahead ----------

  function AheadSettingUp(p: Point): nat {
    match p
    case Opening => 13
    case Identifying => 12
    case QueryingMode(_) => 11
    case SettingMode(_) => 10
    case SettingFormat => 9
    case SettingRate(_, _) => 8
    case Requesting => 7
    case _ => 2
  }

  function AheadBuffers(f: Flow): int {
    match f.point
    case Querying => 4 * f.granted - 2 * f.buffers + 6
    case Mapping(_) => 4 * f.granted - 2 * f.buffers + 5
    case Queuing(index) => 2 * f.buffers - index + 6
    case _ => f.buffers + 6
  }

  function AheadLoop(p: Point): nat {
    match p
    case AtLimits => 5
    case Polling => 4
    case Dequeuing => 3
    case OpeningFile(b, _) => 10 + b.bytesused
    case Writing(_, _, remaining) => 9 + remaining
    case ClosingFile(_, _) => 8
    case Requeuing(_, _) => 7
    case _ => 6
  }

  function AheadEnding(f: Flow): int {
    match f.point
    case Stopping => f.buffers + 3
    case Finishing => f.buffers + 2
    case Abandoning => f.buffers + 2
    case Unmapping(region) => f.buffers - region + 1
    case Closing => 1
    case _ => 0
  }

  /** At most so many calls are ahead, unless more frames, formats or interruptions come. */
  function Ahead(f: Flow): int {
    if IsSettingUp(f.point) then AheadSettingUp(f.point)
    else if IsBuffers(f.point) then AheadBuffers(f)
    else if IsEnding(f.point) then AheadEnding(f)
    else f.buffers + AheadLoop(f.point)
  }

  lemma AheadIsSome(f: Flow)
    requires InPlace(f)
    ensures Ahead(f) >= 0 && (Ahead(f) == 0 <==> f.point.Ended?)
  {
  }

  function Interrupted(e: Entry): nat {
    if e.reply.errno == EINTR then 1 else 0
  }

  function Listed(e: Entry): nat {
    if e.request.EnumerateFormat? && e.reply.errno == 0 then 1 else 0
  }

  function Granted(e: Entry): nat {
    if e.request.RequestBuffers? && e.reply.errno == 0 then e.reply.value else 0
  }

  function NotYet(e: Entry): nat {
    if e.request.DequeueBuffer? && e.reply.errno == EAGAIN then 1 else 0
  }

  /** The bytes of the frame that is to be saved, once it was taken. */
  function BytesToSave(o: Options, c: Capture): nat
    requires |c.images| == |c.frames| && o.Valid()
  {
    if o.savePath.Some? && |c.frames| >= o.saveAt then |c.images[o.saveAt - 1]| else 0
  }

  /** How many more calls one reply can bring about. */
  function Credit(o: Options, before: Capture, after: Capture, e: Entry): int
    requires |before.images| == |before.frames| && |after.images| == |after.frames| && o.Valid()
  {
    Interrupted(e) + Listed(e) + 4 * Granted(e) + 3 * NotYet(e)
    + 8 * (|after.frames| - |before.frames|) + BytesToSave(o, after) - BytesToSave(o, before)
  }

  // ---------- One call ----------

  lemma UnwoundAhead(f: Flow)
    requires !f.streaming || !IsSettingUp(f.point)
    ensures InPlace(Unwound(f)) && IsEnding(Unwound(f).point)
    ensures Ahead(Unwound(f)) == f.buffers + if f.streaming then 2 else 1
  {
  }

  lemma SettingUpStep(o: Options, f: Flow, s: Session, e: Entry)
    requires o.Valid() && InPlace(f) && IsSettingUp(f.point) && Next(o, f) == Some(e.request)
    requires !Retried(e, s.signal)
    ensures var g := OnwardSettingUp(o, f, s, e);
      InPlace(g) && Ahead(g) + 1 <= Ahead(f) + Listed(e) + 4 * Granted(e)
  {
    UnwoundAhead(f);
  }

  lemma BuffersStep(f: Flow, s: Session, e: Entry)
    requires InPlace(f) && IsBuffers(f.point)
    ensures var g := OnwardBuffers(f, s, e); InPlace(g) && Ahead(g) + 1 <= Ahead(f)
  {
    UnwoundAhead(f);
  }

  lemma EndingStep(f: Flow, e: Entry)
    requires InPlace(f) && IsEnding(f.point) && !f.point.Ended?
    ensures var g := OnwardEnding(f, e);
      InPlace(g) && IsEnding(g.point) && g.buffers == f.buffers && Ahead(g) + 1 <= Ahead(f)
  {
    UnwoundAhead(f);
    UnwoundAhead(f.(streaming := false));
  }

  lemma PollingStep(f: Flow, s: Session, e: Entry)
    requires InPlace(f) && f.point.Polling?
    ensures var g := OnwardPolling(f, s, e); InPlace(g) && Ahead(g) + 1 <= Ahead(f) + Interrupted(e)
  {
    UnwoundAhead(f);
  }

  lemma SavingStep(o: Options, f: Flow, s: Session, e: Entry)
    requires o.Valid() && InPlace(f) && Next(o, f) == Some(e.request)
    requires f.point.OpeningFile? || f.point.Writing? || f.point.ClosingFile?
    ensures var g := OnwardSaving(f, s, e); InPlace(g) && Ahead(g) + 1 <= Ahead(f) + Interrupted(e)
  {
    UnwoundAhead(f);
  }

  lemma DequeuingStep(o: Options, f: Flow, s: Session, t: Session, e: Entry)
    requires o.Valid() && InPlace(f) && f.point.Dequeuing? && e.request.DequeueBuffer? && !Retried(e, t.signal)
    requires t == Step(s, e) && WellKept(s.cap) && WellKept(t.cap)
    ensures var g := OnwardLoop(o, f, t, e);
      InPlace(g) && Ahead(g) + 1 <= Ahead(f) + Credit(o, s.cap, t.cap, e)
  {
    UnwoundAhead(f);
    FrameCredit(o, s, e);
  }

  /** What a taken frame adds to the record. */
  lemma FrameCredit(o: Options, s: Session, e: Entry)
    requires o.Valid() && e.request.DequeueBuffer? && WellKept(s.cap) && WellKept(Step(s, e).cap)
    ensures var c, d, b := s.cap, Step(s, e).cap, e.reply.buffer;
      && Step(s, e).res.regions == s.res.regions
      && if e.reply.errno == 0 && Acceptable(s.res.regions, b) then
           && |d.frames| == |c.frames| + 1
           && BytesToSave(o, d) == BytesToSave(o, c) +
                (if o.savePath.Some? && |d.frames| == o.saveAt then b.bytesused else 0)
         else |d.frames| == |c.frames| && BytesToSave(o, d) == BytesToSave(o, c)
  {
  }

  lemma NoFrameCredit(o: Options, s: Session, e: Entry)
    requires o.Valid() && !e.request.DequeueBuffer? && WellKept(s.cap) && WellKept(Step(s, e).cap)
    ensures var c, d := s.cap, Step(s, e).cap;
      |d.frames| == |c.frames| && BytesToSave(o, d) == BytesToSave(o, c)
  {
  }

  lemma LoopStep(o: Options, f: Flow, s: Session, t: Session, e: Entry)
    requires o.Valid() && InPlace(f) && InLoop(f.point) && Next(o, f) == Some(e.request) && !Retried(e, t.signal)
    requires t == Step(s, e) && WellKept(s.cap) && WellKept(t.cap)
    ensures var g := OnwardLoop(o, f, t, e);
      InPlace(g) && Ahead(g) + 1 <= Ahead(f) + Credit(o, s.cap, t.cap, e)
  {
    if f.point.Dequeuing? {
      DequeuingStep(o, f, s, t, e);
    } else {
      NoFrameCredit(o, s, e);
      UnwoundAhead(f);
      if f.point.Polling? {
        PollingStep(f, t, e);
      } else if f.point.OpeningFile? || f.point.Writing? || f.point.ClosingFile? {
        SavingStep(o, f, t, e);
      }
    }
  }

  /** One call less is ahead, but for what its reply brings about. */
  lemma OneCall(o: Options, f: Flow, s: Session, t: Session, e: Entry, g: Flow)
    requires o.Valid() && InPlace(f) && Next(o, f) == Some(e.request) && Moved(o, f, t, e, g)
    requires t == Step(s, e) && WellKept(s.cap) && WellKept(t.cap)
    ensures InPlace(g) && Ahead(g) + 1 <= Ahead(f) + Credit(o, s.cap, t.cap, e)
  {
    MovedOnward(o, f, t, e, g);
    if !(Retried(e, t.signal) && !f.point.Abandoning?) && InLoop(f.point) {
      LoopStep(o, f, s, t, e);
    } else {
      OutsideLoop(o, f, s, t, e);
    }
  }

  lemma OutsideLoop(o: Options, f: Flow, s: Session, t: Session, e: Entry)
    requires o.Valid() && InPlace(f) && Next(o, f) == Some(e.request)
    requires t == Step(s, e) && WellKept(s.cap) && WellKept(t.cap)
    requires (Retried(e, t.signal) && !f.point.Abandoning?) || !InLoop(f.point)
    ensures var g := Onward(o, f, t, e); InPlace(g) && Ahead(g) + 1 <= Ahead(f) + Credit(o, s.cap, t.cap, e)
  {
    if e.request.DequeueBuffer? {
      FrameCredit(o, s, e);
    } else {
      NoFrameCredit(o, s, e);
    }
    if Retried(e, t.signal) && !f.point.Abandoning? {
      assert Interrupted(e) == 1;
    } else if IsSettingUp(f.point) {
      SettingUpStep(o, f, t, e);
    } else if IsBuffers(f.point) {
      BuffersStep(f, t, e);
    } else {
      EndingStep(f, e);
    }
  }

  // ---------- Whole logs ----------

  ghost function Sum(log: seq<Entry>, of: Entry -> nat): nat {
    if log == [] then 0 else Sum(log[..|log| - 1], of) + of(log[|log| - 1])
  }

  lemma SumNext(log: seq<Entry>, of: Entry -> nat, j: nat)
    requires j < |log|
    ensures Sum(log[..j + 1], of) == Sum(log[..j], of) + of(log[j])
  {
    assert log[..j + 1][..j] == log[..j];
  }

  /** How many calls the replies of a log can have brought about. */
  ghost function Credits(o: Options, log: seq<Entry>): int
    requires o.Valid()
  {
    RecordWellKept(log);
    var c := Replay(log).cap;
    Sum(log, Interrupted) + Sum(log, Listed) + 4 * Sum(log, Granted) + 3 * Sum(log, NotYet)
    + 8 * |c.frames| + BytesToSave(o, c)
  }

  lemma CreditsNext(o: Options, log: seq<Entry>, j: nat)
    requires o.Valid() && j < |log|
    ensures WellKept(Replay(log[..j]).cap) && WellKept(Replay(log[..j + 1]).cap)
    ensures Replay(log[..j + 1]) == Step(Replay(log[..j]), log[j])
    ensures Credits(o, log[..j + 1])
         == Credits(o, log[..j]) + Credit(o, Replay(log[..j]).cap, Replay(log[..j + 1]).cap, log[j])
  {
    RecordWellKept(log[..j]);
    RecordWellKept(log[..j + 1]);
    ReplayNext(log, j);
    SumNext(log, Interrupted, j);
    SumNext(log, Listed, j);
    SumNext(log, Granted, j);
    SumNext(log, NotYet, j);
  }

  lemma FlowNext(o: Options, log: seq<Entry>, j: nat)
    requires o.Valid() && j < |log| && Follows(o, log)
    ensures Next(o, FlowOf(o, log[..j])) == Some(log[j].request)
    ensures Moved(o, FlowOf(o, log[..j]), Replay(log[..j + 1]), log[j], FlowOf(o, log[..j + 1]))
  {
    assert IsNext(o, log, j);
    FlowMoves(o, log[..j + 1]);
    assert log[..j + 1][..j] == log[..j];
  }

  lemma FlowMoves(o: Options, log: seq<Entry>)
    requires o.Valid() && log != []
    ensures var j := |log| - 1; Moved(o, FlowOf(o, log[..j]), Replay(log), log[j], FlowOf(o, log))
  {
    var j := |log| - 1;
    MovedOnward(o, FlowOf(o, log[..j]), Replay(log), log[j], FlowOf(o, log));
  }

  lemma CallNext(o: Options, log: seq<Entry>, j: nat)
    requires o.Valid() && j < |log| && Follows(o, log) && InPlace(FlowOf(o, log[..j]))
    ensures InPlace(FlowOf(o, log[..j + 1]))
    ensures 1 + Ahead(FlowOf(o, log[..j + 1])) - Credits(o, log[..j + 1])
         <= Ahead(FlowOf(o, log[..j])) - Credits(o, log[..j])
  {
    FlowNext(o, log, j);
    CreditsNext(o, log, j);
    OneCall(o, FlowOf(o, log[..j]), Replay(log[..j]), Replay(log[..j + 1]), log[j], FlowOf(o, log[..j + 1]));
  }

  lemma {:induction false} AlwaysInPlace(o: Options, log: seq<Entry>, j: nat)
    requires o.Valid() && j <= |log| && Follows(o, log)
    ensures InPlace(FlowOf(o, log[..j]))
    decreases j
  {
    if j > 0 {
      AlwaysInPlace(o, log, j - 1);
      CallNext(o, log, j - 1);
    }
  }

  /** So many calls bound what was made and is ahead after k calls, less what the replies brought
      about; put as a bound on the prefixes, which keeps the log out of the induction. */
  ghost predicate Within(o: Options, log: seq<Entry>, k: nat, bound: int)
    requires o.Valid()
  {
    forall i :: k <= i <= k && i <= |log| ==> i + Ahead(FlowOf(o, log[..i])) - Credits(o, log[..i]) <= bound
  }

  lemma WithinNext(o: Options, log: seq<Entry>, k: nat, bound: int)
    requires o.Valid() && k < |log| && Follows(o, log) && Within(o, log, k, bound)
    ensures Within(o, log, k + 1, bound)
  {
    assert |log[..k]| == k;
    AlwaysInPlace(o, log, k);
    CallNext(o, log, k);
  }

  lemma {:induction false} WithinUntil(o: Options, log: seq<Entry>, k: nat, j: nat, bound: int)
    requires o.Valid() && k <= j <= |log| && Follows(o, log) && Within(o, log, k, bound)
    ensures Within(o, log, j, bound)
    decreases j
  {
    if k < j {
      WithinUntil(o, log, k, j - 1, bound);
      WithinNext(o, log, j - 1, bound);
    }
  }

  /** From any moment of a run to a later one, the calls made and ahead are those that were ahead,
      but for what the replies in between brought about. */
  lemma CallsBetween(o: Options, log: seq<Entry>, k: nat, j: nat)
    requires o.Valid() && k <= j <= |log| && Follows(o, log)
    ensures j - k + Ahead(FlowOf(o, log[..j])) - Credits(o, log[..j])
         <= Ahead(FlowOf(o, log[..k])) - Credits(o, log[..k])
  {
    WithinUntil(o, log, k, j, k + Ahead(FlowOf(o, log[..k])) - Credits(o, log[..k]));
    assert |log[..j]| == j;
  }

  /** A run is bounded by its interruptions, the formats listed, the buffers granted, the waits for
      nothing, the frames taken, and the bytes of the frame that is saved. */
  lemma CallsBounded(o: Options, log: seq<Entry>)
    requires o.Valid() && Follows(o, log)
    ensures |log| + Ahead(FlowOf(o, log)) <= 13 + Credits(o, log)
    ensures Ahead(FlowOf(o, log)) >= 0 && (Ahead(FlowOf(o, log)) == 0 <==> Whole(o, log))
  {
    CallsBetween(o, log, 0, |log|);
    AlwaysInPlace(o, log, |log|);
    assert log[..|log|] == log && log[..0] == [];
    AheadIsSome(FlowOf(o, log));
    NoCredits(o);
  }

  lemma NoCredits(o: Options)
    requires o.Valid()
    ensures Credits(o, []) == 0 && Ahead(FlowOf(o, [])) == 13
  {
  }

  // ---------- What ends a run ----------

  lemma TeardownNext(o: Options, f: Flow, t: Session, e: Entry, g: Flow)
    requires o.Valid() && InPlace(f) && IsEnding(f.point) && Next(o, f) == Some(e.request) && Moved(o, f, t, e, g)
    ensures IsEnding(g.point) && g.buffers == f.buffers && Ahead(g) + 1 <= Ahead(f) + Interrupted(e)
  {
    MovedOnward(o, f, t, e, g);
    if !(Retried(e, t.signal) && !f.point.Abandoning?) {
      EndingStep(f, e);
    }
  }

  lemma AheadOfTeardown(f: Flow)
    requires InPlace(f) && IsEnding(f.point)
    ensures Ahead(f) <= f.buffers + 3
  {
  }

  lemma TeardownCall(o: Options, log: seq<Entry>, j: nat)
    requires o.Valid() && j < |log| && Follows(o, log) && IsEnding(FlowOf(o, log[..j]).point)
    ensures var f, g := FlowOf(o, log[..j]), FlowOf(o, log[..j + 1]);
      && IsEnding(g.point)
      && 1 + Ahead(g) - Sum(log[..j + 1], Interrupted) <= Ahead(f) - Sum(log[..j], Interrupted)
  {
    AlwaysInPlace(o, log, j);
    FlowNext(o, log, j);
    SumNext(log, Interrupted, j);
    TeardownNext(o, FlowOf(o, log[..j]), Replay(log[..j + 1]), log[j], FlowOf(o, log[..j + 1]));
  }

  /** After k calls only a teardown is ahead, within the bound; put as a bound on the prefixes. */
  ghost predicate TearingDown(o: Options, log: seq<Entry>, k: nat, bound: int)
    requires o.Valid()
  {
    forall i :: k <= i <= k && i <= |log| ==>
      && IsEnding(FlowOf(o, log[..i]).point)
      && i + Ahead(FlowOf(o, log[..i])) - Sum(log[..i], Interrupted) <= bound
  }

  lemma TearingDownNext(o: Options, log: seq<Entry>, k: nat, bound: int)
    requires o.Valid() && k < |log| && Follows(o, log) && TearingDown(o, log, k, bound)
    ensures TearingDown(o, log, k + 1, bound)
  {
    assert |log[..k]| == k;
    TeardownCall(o, log, k);
  }

  lemma {:induction false} TearingDownUntil(o: Options, log: seq<Entry>, k: nat, j: nat, bound: int)
    requires o.Valid() && k <= j <= |log| && Follows(o, log) && TearingDown(o, log, k, bound)
    ensures TearingDown(o, log, j, bound)
    decreases j
  {
    if k < j {
      TearingDownUntil(o, log, k, j - 1, bound);
      TearingDownNext(o, log, j - 1, bound);
    }
  }

  /** Once the stream is to be stopped or the run to be unwound, only a teardown follows: three
      calls and one for each buffer, and those that are repeated after an interruption. */
  lemma TeardownIsShort(o: Options, log: seq<Entry>, k: nat)
    requires o.Valid() && k <= |log| && Follows(o, log) && IsEnding(FlowOf(o, log[..k]).point)
    ensures |log| - k <= FlowOf(o, log[..k]).buffers + 3 + Sum(log, Interrupted) - Sum(log[..k], Interrupted)
    ensures IsEnding(FlowOf(o, log).point)
  {
    assert log[..|log|] == log;
    TearingDownUntil(o, log, k, |log|, k + Ahead(FlowOf(o, log[..k])) - Sum(log[..k], Interrupted));
    AlwaysInPlace(o, log, |log|);
    AheadIsSome(FlowOf(o, log));
    AlwaysInPlace(o, log, k);
    AheadOfTeardown(FlowOf(o, log[..k]));
  }

  // ---------- After a stop signal ----------

  lemma NothingTaken(o: Options, log: seq<Entry>, j: nat)
    requires o.Valid() && j < |log| && Safe(Replay(log)) && Replay(log[..j]).signal != 0
    ensures Replay(log[..j + 1]).signal != 0
    ensures Credits(o, log[..j + 1])
         == Credits(o, log[..j]) + Interrupted(log[j]) + Listed(log[j]) + 4 * Granted(log[j])
  {
    CreditsNext(o, log, j);
    EveryCallAllowed(log, j);
    NoFrameCredit(o, Replay(log[..j]), log[j]);
  }

  ghost function SetupCredits(log: seq<Entry>): nat {
    Sum(log, Interrupted) + Sum(log, Listed) + 4 * Sum(log, Granted)
  }

  lemma SetupCreditsNext(log: seq<Entry>, j: nat)
    requires j < |log|
    ensures SetupCredits(log[..j + 1])
         == SetupCredits(log[..j]) + Interrupted(log[j]) + Listed(log[j]) + 4 * Granted(log[j])
  {
    SumNext(log, Interrupted, j);
    SumNext(log, Listed, j);
    SumNext(log, Granted, j);
  }

  /** A signal was delivered after k calls, and since then only the set-up brought about calls; put
      as a bound on the prefixes. */
  ghost predicate OnlySetup(o: Options, log: seq<Entry>, k: nat, taken: int)
    requires o.Valid()
  {
    forall i :: k <= i <= k && i <= |log| ==>
      Replay(log[..i]).signal != 0 && Credits(o, log[..i]) - SetupCredits(log[..i]) == taken
  }

  lemma OnlySetupNext(o: Options, log: seq<Entry>, j: nat, taken: int)
    requires o.Valid() && j < |log| && Safe(Replay(log)) && OnlySetup(o, log, j, taken)
    ensures OnlySetup(o, log, j + 1, taken)
  {
    assert |log[..j]| == j;
    NothingTaken(o, log, j);
    SetupCreditsNext(log, j);
  }

  lemma {:induction false} OnlySetupUntil(o: Options, log: seq<Entry>, k: nat, j: nat, taken: int)
    requires o.Valid() && k <= j <= |log| && Safe(Replay(log)) && OnlySetup(o, log, k, taken)
    ensures OnlySetup(o, log, j, taken)
    decreases j
  {
    if k < j {
      OnlySetupUntil(o, log, k, j - 1, taken);
      OnlySetupNext(o, log, j - 1, taken);
    }
  }

  lemma NothingTakenUntil(o: Options, log: seq<Entry>, k: nat, j: nat)
    requires o.Valid() && k <= j <= |log| && Safe(Replay(log)) && Replay(log[..k]).signal != 0
    ensures Credits(o, log[..j]) - Credits(o, log[..k]) == SetupCredits(log[..j]) - SetupCredits(log[..k])
  {
    OnlySetupUntil(o, log, k, j, Credits(o, log[..k]) - SetupCredits(log[..k]));
    assert |log[..j]| == j;
  }

  /** The bytes still to be written of the frame that is being saved. */
  function AtHand(p: Point): nat {
    match p
    case OpeningFile(b, _) => b.bytesused
    case Writing(_, _, remaining) => remaining
    case _ => 0
  }

  lemma AheadAtHand(f: Flow)
    requires InPlace(f) && f.streaming
    ensures Ahead(f) <= f.buffers + 10 + AtHand(f.point)
  {
  }

  /** What the set-up alone brings about. */
  ghost function ListedAndGranted(log: seq<Entry>): nat {
    Sum(log, Listed) + 4 * Sum(log, Granted)
  }

  lemma BuffersStaySetUp(f: Flow, t: Session, e: Entry)
    requires IsBuffers(f.point)
    ensures !IsSettingUp(OnwardBuffers(f, t, e).point)
  {
  }

  lemma LoopStaysSetUp(o: Options, f: Flow, t: Session, e: Entry)
    requires InLoop(f.point)
    ensures !IsSettingUp(OnwardLoop(o, f, t, e).point)
  {
  }

  lemma EndingStaysSetUp(f: Flow, e: Entry)
    requires IsEnding(f.point)
    ensures !IsSettingUp(OnwardEnding(f, e).point)
  {
  }

  lemma PastSetUpMoves(o: Options, f: Flow, t: Session, e: Entry, g: Flow)
    requires o.Valid() && !IsSettingUp(f.point) && Moved(o, f, t, e, g)
    ensures !IsSettingUp(g.point)
  {
    MovedOnward(o, f, t, e, g);
    if IsBuffers(f.point) {
      BuffersStaySetUp(f, t, e);
    } else if IsEnding(f.point) {
      EndingStaysSetUp(f, e);
    } else {
      LoopStaysSetUp(o, f, t, e);
    }
  }

  lemma PastSetUpAsks(o: Options, f: Flow, e: Entry)
    requires Next(o, f) == Some(e.request) && !IsSettingUp(f.point)
    ensures Listed(e) == Granted(e) == 0
  {
  }

  /** After k calls the set-up is over; put as a bound on the prefixes. */
  ghost predicate PastSetUp(o: Options, log: seq<Entry>, k: nat, total: nat)
    requires o.Valid()
  {
    forall i :: k <= i <= k && i <= |log| ==>
      !IsSettingUp(FlowOf(o, log[..i]).point) && ListedAndGranted(log[..i]) == total
  }

  lemma PastSetUpNext(o: Options, log: seq<Entry>, k: nat, total: nat)
    requires o.Valid() && k < |log| && Follows(o, log) && PastSetUp(o, log, k, total)
    ensures PastSetUp(o, log, k + 1, total)
  {
    assert |log[..k]| == k;
    FlowNext(o, log, k);
    PastSetUpMoves(o, FlowOf(o, log[..k]), Replay(log[..k + 1]), log[k], FlowOf(o, log[..k + 1]));
    PastSetUpAsks(o, FlowOf(o, log[..k]), log[k]);
    SumNext(log, Listed, k);
    SumNext(log, Granted, k);
  }

  lemma {:induction false} PastSetUpUntil(o: Options, log: seq<Entry>, k: nat, j: nat, total: nat)
    requires o.Valid() && k <= j <= |log| && Follows(o, log) && PastSetUp(o, log, k, total)
    ensures PastSetUp(o, log, j, total)
    decreases j
  {
    if k < j {
      PastSetUpUntil(o, log, k, j - 1, total);
      PastSetUpNext(o, log, j - 1, total);
    }
  }

  lemma SetupCreditsOfStreaming(o: Options, log: seq<Entry>, k: nat)
    requires o.Valid() && k <= |log| && Follows(o, log) && !IsSettingUp(FlowOf(o, log[..k]).point)
    ensures SetupCredits(log) - SetupCredits(log[..k]) == Sum(log, Interrupted) - Sum(log[..k], Interrupted)
  {
    PastSetUpUntil(o, log, k, |log|, ListedAndGranted(log[..k]));
    assert log[..|log|] == log;
  }

  lemma StreamingIsSetUp(f: Flow)
    requires InPlace(f) && f.streaming
    ensures !IsSettingUp(f.point)
  {
  }

  /** A stop signal ends the run: after it come only the calls that were ahead, and what is left of
      the set-up. Once the stream is on these are the rest of one frame and the teardown, and the calls
      that are repeated after an interruption. */
  lemma SignalEndsRun(o: Options, log: seq<Entry>, k: nat)
    requires o.Valid() && k <= |log| && Follows(o, log) && Safe(Replay(log)) && Replay(log[..k]).signal != 0
    ensures var f, g := FlowOf(o, log[..k]), FlowOf(o, log);
      && |log| - k + Ahead(g) <= Ahead(f) + SetupCredits(log) - SetupCredits(log[..k])
      && (f.streaming ==>
            |log| - k + Ahead(g) <=
              f.buffers + 10 + AtHand(f.point) + Sum(log, Interrupted) - Sum(log[..k], Interrupted))
  {
    CallsBetween(o, log, k, |log|);
    NothingTakenUntil(o, log, k, |log|);
    assert log[..|log|] == log;
    AlwaysInPlace(o, log, k);
    if FlowOf(o, log[..k]).streaming {
      AheadAtHand(FlowOf(o, log[..k]));
      StreamingIsSetUp(FlowOf(o, log[..k]));
      SetupCreditsOfStreaming(o, log, k);
    }
  }

  // ---------- After a failed call ----------

  /** The run is to be unwound, or the output file to be closed first. */
  predicate GivenUp(p: Point) {
    IsEnding(p) || (p.ClosingFile? && p.failed)
  }

  lemma FailedSettingUp(o: Options, f: Flow, t: Session, e: Entry)
    requires o.Valid() && Next(o, f) == Some(e.request) && Fails(t, e) && IsSettingUp(f.point)
    ensures GivenUp(OnwardSettingUp(o, f, t, e).point)
  {
  }

  lemma FailedInLoop(o: Options, f: Flow, t: Session, e: Entry)
    requires o.Valid() && Next(o, f) == Some(e.request) && Fails(t, e) && InLoop(f.point)
    ensures GivenUp(OnwardLoop(o, f, t, e).point)
  {
  }

  lemma EndingNeverFails(o: Options, f: Flow, t: Session, e: Entry)
    requires Next(o, f) == Some(e.request) && IsEnding(f.point)
    ensures !Fails(t, e)
  {
  }

  lemma FailedIsNotRetried(t: Session, e: Entry)
    requires Fails(t, e)
    ensures !Retried(e, t.signal)
  {
  }

  lemma FailedCallGivesUp(o: Options, f: Flow, t: Session, e: Entry, g: Flow)
    requires o.Valid() && Next(o, f) == Some(e.request) && Fails(t, e) && Moved(o, f, t, e, g)
    ensures GivenUp(g.point)
  {
    MovedOnward(o, f, t, e, g);
    FailedIsNotRetried(t, e);
    if IsSettingUp(f.point) {
      FailedSettingUp(o, f, t, e);
    } else if IsEnding(f.point) {
      EndingNeverFails(o, f, t, e);
    } else if InLoop(f.point) {
      FailedInLoop(o, f, t, e);
    }
  }

  lemma GivenUpStays(o: Options, f: Flow, t: Session, e: Entry, g: Flow)
    requires o.Valid() && Next(o, f) == Some(e.request) && GivenUp(f.point) && Moved(o, f, t, e, g)
    ensures GivenUp(g.point)
  {
    MovedOnward(o, f, t, e, g);
  }

  lemma NewErrorFails(s: Session, e: Entry)
    requires s.cap.fatal.None? && Step(s, e).cap.fatal.Some?
    ensures Fails(Step(s, e), e)
  {
  }

  /** After k calls the run is given up if a reply called for an error; put as a bound on the prefixes. */
  ghost predicate FailureShows(o: Options, log: seq<Entry>, k: nat)
    requires o.Valid()
  {
    forall i :: k <= i <= k && i <= |log| && Replay(log[..i]).cap.fatal.Some? ==> GivenUp(FlowOf(o, log[..i]).point)
  }

  lemma FailureNext(o: Options, log: seq<Entry>, j: nat)
    requires o.Valid() && j < |log| && Follows(o, log) && Replay(log[..j + 1]).cap.fatal.Some?
    requires Replay(log[..j]).cap.fatal.Some? ==> GivenUp(FlowOf(o, log[..j]).point)
    ensures GivenUp(FlowOf(o, log[..j + 1]).point)
  {
    FlowNext(o, log, j);
    var t, f, g := Replay(log[..j + 1]), FlowOf(o, log[..j]), FlowOf(o, log[..j + 1]);
    if GivenUp(f.point) {
      GivenUpStays(o, f, t, log[j], g);
    } else {
      ReplayNext(log, j);
      NewErrorFails(Replay(log[..j]), log[j]);
      FailedCallGivesUp(o, f, t, log[j], g);
    }
  }

  lemma FailureShowsNext(o: Options, log: seq<Entry>, j: nat)
    requires o.Valid() && j < |log| && Follows(o, log) && FailureShows(o, log, j)
    ensures FailureShows(o, log, j + 1)
  {
    assert |log[..j]| == j;
    if Replay(log[..j + 1]).cap.fatal.Some? {
      FailureNext(o, log, j);
    }
  }

  lemma {:induction false} FailureAlwaysShows(o: Options, log: seq<Entry>, j: nat)
    requires o.Valid() && j <= |log| && Follows(o, log)
    ensures FailureShows(o, log, j)
    decreases j
  {
    if j > 0 {
      FailureAlwaysShows(o, log, j - 1);
      FailureShowsNext(o, log, j - 1);
    }
  }

  /** A reply that calls for an error ends the run: it is given up at once, and for good. */
  lemma FailureEndsRun(o: Options, log: seq<Entry>, j: nat)
    requires o.Valid() && j <= |log| && Follows(o, log) && Replay(log[..j]).cap.fatal.Some?
    ensures GivenUp(FlowOf(o, log[..j]).point)
  {
    FailureAlwaysShows(o, log, j);
  }
}
