/** What it means that a log of calls is safe, and what it means that everything is released. */
module SessionTheorems {
  import opened MachineTypes
  import opened KernelInterface
  import opened SequenceAccounting
  import opened SequenceTheorems
  import opened CaptureSession

  // ---------- Safety holds at every moment ----------

  lemma StepKeepsFaults(s: Session, e: Entry)
    ensures Safe(Step(s, e)) ==> Safe(s) && ResourcesAllow(s.res, s.signal, e.request)
    ensures Safe(Step(s, e)) && s.own.blame.NoOne? ==> OwnershipAllows(s.own, s.res.stream, e.request)
    ensures Step(s, e).own.blame.NoOne? ==> s.own.blame.NoOne?
  {
  }

  /** A log that is safe at its end was safe all along: each call used only what was held and
      gave up nothing out of order, and no frame was asked for after a stop signal; and until the
      driver broke the protocol, the program queued only its own buffers, waited only when the
      driver had all of them, took one at a time, and read only the one it held. */
  lemma {:induction false} EveryCallAllowed(log: seq<Entry>, k: nat)
    requires k < |log| && Safe(Replay(log))
    ensures var s := Replay(log[..k]);
      && Safe(s) && ResourcesAllow(s.res, s.signal, log[k].request)
      && (s.own.blame.NoOne? ==> OwnershipAllows(s.own, s.res.stream, log[k].request))
    decreases |log|
  {
    var n := |log| - 1;
    StepKeepsFaults(Replay(log[..n]), log[n]);
    if k < n {
      EveryCallAllowed(log[..n], k);
      assert log[..n][..k] == log[..k] && log[..n][k] == log[k];
    }
  }

  /** No frame is asked for once a stop signal was delivered, whatever the driver did. */
  lemma NoDequeueAfterSignal(log: seq<Entry>, j: nat, k: nat)
    requires j < k < |log| && Safe(Replay(log))
    requires log[j].reply.signal != 0
    ensures !log[k].request.DequeueBuffer?
  {
    EveryCallAllowed(log, k);
    SignalStays(log[..k], j);
  }

  lemma {:induction false} SignalStays(log: seq<Entry>, j: nat)
    requires j < |log| && log[j].reply.signal != 0
    ensures Replay(log).signal != 0
    decreases |log|
  {
    var n := |log| - 1;
    if j < n {
      SignalStays(log[..n], j);
    }
  }

  // ---------- Every buffer has one owner ----------

  ghost predicate Partition(o: Ownership, all: set<nat>) {
    && o.idle + o.queued + o.done + o.held == all
    && o.idle !! o.queued && o.idle !! o.done && o.idle !! o.held
    && o.queued !! o.done && o.queued !! o.held && o.done !! o.held
    && (o.held == {} || exists i :: o.held == {i})
  }

  lemma FillingKeepsPartition(o: Ownership, filled: set<nat>, all: set<nat>)
    requires Partition(o, all) && filled <= o.queued
    ensures Partition(AfterFilling(o, filled), all)
  {
  }

  /** The change of owners a single call makes, after the driver filled what it filled. */
  lemma CallKeepsPartition(s: Session, e: Entry)
    requires Partition(s.own, s.res.regions.Keys) && Safe(Step(s, e)) && Step(s, e).own.blame.NoOne?
    ensures Partition(Step(s, e).own, Step(s, e).res.regions.Keys)
  {
    StepKeepsFaults(s, e);
    FillingKeepsPartition(s.own, e.reply.filled, s.res.regions.Keys);
    var p, q := AfterFilling(s.own, e.reply.filled), Step(s, e).own;
    if e.request.DequeueBuffer? && e.reply.errno == 0 {
      var i := e.reply.buffer.index;
      assert q.held == {i};
    } else if e.request.QueueBuffer? && e.reply.errno == 0 {
      var i := e.request.index;
      assert q.held == {} || q.held == p.held;
    } else if e.request.UnmapBuffer? {
      var i := e.request.unmapped;
      assert q.held == {} || q.held == p.held;
    }
  }

  /** While nobody broke the protocol, every mapped buffer is in exactly one of the four sets,
      and the program never holds two. */
  lemma {:induction false} OneOwnerEach(log: seq<Entry>)
    requires Safe(Replay(log)) && Replay(log).own.blame.NoOne?
    ensures Partition(Replay(log).own, Replay(log).res.regions.Keys)
  {
    if log != [] {
      var n := |log| - 1;
      StepKeepsFaults(Replay(log[..n]), log[n]);
      OneOwnerEach(log[..n]);
      CallKeepsPartition(Replay(log[..n]), log[n]);
    }
  }

  // ---------- Everything is given up exactly once ----------

  datatype Event =
    | Mapped(region: nat) | Unmapped(region: nat)
    | Attached | Detached
    | FileOpened | FileClosed

  predicate Is(e: Entry, event: Event) {
    match event
    case Mapped(i) => e.request.MapBuffer? && e.request.region == i && e.reply.errno == 0
    case Unmapped(i) => e.request.UnmapBuffer? && e.request.unmapped == i
    case Attached => e.request.OpenDevice? && e.reply.errno == 0
    case Detached => e.request.CloseDevice?
    case FileOpened => e.request.OpenFile? && e.reply.errno == 0
    case FileClosed => e.request.CloseFile?
  }

  ghost function Count(log: seq<Entry>, event: Event): nat {
    if log == [] then 0 else Count(log[..|log| - 1], event) + if Is(log[|log| - 1], event) then 1 else 0
  }

  function One(b: bool): nat {
    if b then 1 else 0
  }

  lemma StepMovesRegions(s: Session, e: Entry, i: nat)
    requires Safe(Step(s, e))
    ensures One(i in s.res.regions) + One(Is(e, Mapped(i)))
         == One(i in Step(s, e).res.regions) + One(Is(e, Unmapped(i)))
  {
    StepKeepsFaults(s, e);
  }

  lemma StepMovesDescriptors(s: Session, e: Entry)
    requires Safe(Step(s, e)) && !(s.res.attached && s.res.detached)
    ensures var r, q := s.res, Step(s, e).res;
      && One(r.attached) + One(Is(e, Attached)) == One(q.attached) + One(Is(e, Detached))
      && One(r.fileOpen) + One(Is(e, FileOpened)) == One(q.fileOpen) + One(Is(e, FileClosed))
      && One(q.detached) == One(r.detached) + One(Is(e, Detached))
      && !(q.attached && q.detached)
  {
    StepKeepsFaults(s, e);
  }

  /** What is acquired and not given up is what is held. */
  lemma {:induction false} HeldIsTheDifference(log: seq<Entry>, i: nat)
    requires Safe(Replay(log))
    ensures var r := Replay(log).res;
      && Count(log, Mapped(i)) == Count(log, Unmapped(i)) + One(i in r.regions)
      && Count(log, Attached) == Count(log, Detached) + One(r.attached)
      && Count(log, FileOpened) == Count(log, FileClosed) + One(r.fileOpen)
      && Count(log, Detached) == One(r.detached) && !(r.attached && r.detached)
  {
    if log != [] {
      var n := |log| - 1;
      var s := Replay(log[..n]);
      StepKeepsFaults(s, log[n]);
      HeldIsTheDifference(log[..n], i);
      StepMovesRegions(s, log[n], i);
      StepMovesDescriptors(s, log[n]);
    }
  }

  /** When all is released, each mapping was unmapped as often as it was mapped, the device was
      closed once if it was opened, and the output file as often as it was opened. */
  lemma ReleasedMeansBalanced(log: seq<Entry>, i: nat)
    requires Safe(Replay(log)) && Released(Replay(log).res)
    ensures Count(log, Mapped(i)) == Count(log, Unmapped(i))
    ensures Count(log, Attached) == Count(log, Detached) <= 1
    ensures Count(log, FileOpened) == Count(log, FileClosed)
  {
    HeldIsTheDifference(log, i);
  }

  // ---------- What the record keeps ----------

  /** Each frame has its image and its settings, and the file is there once it was opened. */
  ghost predicate WellKept(c: Capture) {
    && |c.images| == |c.frames| == |c.taken|
    && (c.file.None? <==> c.openings == [])
    && forall i :: 0 <= i < |c.openings| ==> c.openings[i] <= |c.frames|
  }

  /** From c to d the record grew: nothing in it was taken back or changed. */
  ghost predicate Grows(c: Capture, d: Capture) {
    && c.frames <= d.frames && c.images <= d.images && c.taken <= d.taken && c.openings <= d.openings
    && (c.file.Some? && d.openings == c.openings ==>
          && d.file.Some? && d.file.value.path == c.file.value.path
          && c.file.value.content <= d.file.value.content)
  }

  lemma DataKeepsRecord(c: Capture, regions: map<nat, nat>, signal: nat, e: Entry)
    requires WellKept(c)
    ensures var d := AfterData(c, regions, signal, e); WellKept(d) && Grows(c, d)
  {
    if e.request.DequeueBuffer? {
      FrameKeepsRecord(c, regions, signal, e);
    } else if e.request.WriteFile? {
      WriteKeepsRecord(c, regions, signal, e);
    }
  }

  lemma FrameKeepsRecord(c: Capture, regions: map<nat, nat>, signal: nat, e: Entry)
    requires WellKept(c) && e.request.DequeueBuffer?
    ensures var d := AfterData(c, regions, signal, e); WellKept(d) && Grows(c, d)
  {
  }

  lemma WriteKeepsRecord(c: Capture, regions: map<nat, nat>, signal: nat, e: Entry)
    requires WellKept(c) && e.request.WriteFile?
    ensures var d := AfterData(c, regions, signal, e); WellKept(d) && Grows(c, d)
  {
  }

  lemma StepKeepsRecord(s: Session, e: Entry)
    requires WellKept(s.cap)
    ensures WellKept(Step(s, e).cap) && Grows(s.cap, Step(s, e).cap)
  {
    DataKeepsRecord(s.cap, s.res.regions, Step(s, e).signal, e);
  }

  lemma {:induction false} RecordWellKept(log: seq<Entry>)
    ensures WellKept(Replay(log).cap)
  {
    if log != [] {
      RecordWellKept(log[..|log| - 1]);
      StepKeepsRecord(Replay(log[..|log| - 1]), log[|log| - 1]);
    }
  }

  // ---------- What ends a run ----------

  lemma StepKeepsFirstError(s: Session, e: Entry)
    ensures var t := Step(s, e);
      t.cap.fatal == if s.cap.fatal.Some? then s.cap.fatal else ErrorOf(e, s.res.regions, t.signal)
  {
  }

  lemma StepKeepsError(s: Session, e: Entry)
    requires s.cap.fatal.Some?
    ensures Step(s, e).cap.fatal == s.cap.fatal
  {
  }

  /** The errors a run decides on by itself, not by a single reply. */
  predicate OwnDecision(error: Error) {
    error == DeviceError(EndedBeforeSave) || error == DeviceError(ErroneousFrame)
    || error == UsageError(RateTooLarge) || (error.SystemError? && error.operation.StreamOff?)
  }

  lemma ErrorIsNoDecision(e: Entry, regions: map<nat, nat>, signal: nat)
    ensures var error := ErrorOf(e, regions, signal); error.Some? ==> !OwnDecision(error.value)
  {
  }

  lemma {:induction false} RepliesDecideNothing(log: seq<Entry>)
    ensures var fatal := Replay(log).cap.fatal; fatal.Some? ==> !OwnDecision(fatal.value)
  {
    if log != [] {
      var n := |log| - 1;
      var s := Replay(log[..n]);
      RepliesDecideNothing(log[..n]);
      StepKeepsFirstError(s, log[n]);
      ErrorIsNoDecision(log[n], s.res.regions, Step(s, log[n]).signal);
    }
  }

  lemma ReplayNext(log: seq<Entry>, k: nat)
    requires k < |log|
    ensures Replay(log[..k + 1]) == Step(Replay(log[..k]), log[k])
  {
    ReplayExtends(log[..k], log[k]);
    assert log[..k] + [log[k]] == log[..k + 1];
  }

  lemma NextKeepsError(log: seq<Entry>, j: nat)
    requires j < |log| && Replay(log[..j]).cap.fatal.Some?
    ensures Replay(log[..j + 1]).cap.fatal == Replay(log[..j]).cap.fatal
  {
    ReplayNext(log, j);
    StepKeepsError(Replay(log[..j]), log[j]);
  }

  lemma {:induction false} ErrorStaysUntil(log: seq<Entry>, k: nat, j: nat)
    requires k <= j <= |log| && Replay(log[..k]).cap.fatal.Some?
    ensures Replay(log[..j]).cap.fatal == Replay(log[..k]).cap.fatal
    decreases j
  {
    if k < j {
      ErrorStaysUntil(log, k, j - 1);
      NextKeepsError(log, j - 1);
    }
  }

  lemma ErrorStays(log: seq<Entry>, k: nat)
    requires k <= |log| && Replay(log[..k]).cap.fatal.Some?
    ensures Replay(log).cap.fatal == Replay(log[..k]).cap.fatal
  {
    ErrorStaysUntil(log, k, |log|);
    assert log[..|log|] == log;
  }

  /** The first reply that calls for an error is the one that is kept. */
  lemma FirstErrorKept(log: seq<Entry>, k: nat)
    requires k < |log| && Replay(log[..k]).cap.fatal.None?
    requires var s := Replay(log[..k]); ErrorOf(log[k], s.res.regions, Step(s, log[k]).signal).Some?
    ensures var s := Replay(log[..k]); Replay(log).cap.fatal == ErrorOf(log[k], s.res.regions, Step(s, log[k]).signal)
  {
    ReplayNext(log, k);
    StepKeepsFirstError(Replay(log[..k]), log[k]);
    ErrorStays(log, k + 1);
  }

  // ---------- Undisturbed runs ----------

  /** The reply calls for an error. */
  predicate CallsForError(s: Session, e: Entry) {
    ErrorOf(e, s.res.regions, Step(s, e).signal).Some?
  }

  /** The call is a poll that times out. */
  predicate TimesOut(e: Entry) {
    e.request.Poll? && e.reply.errno == 0 && e.reply.value == 0
  }

  /** The call is a STREAMOFF that fails for good. */
  predicate StopFails(e: Entry, signal: nat) {
    e.request.StreamOff? && e.reply.errno != 0 && !Retried(e, signal)
  }

  ghost predicate Disturbs(log: seq<Entry>, k: nat)
    requires k < |log|
  {
    var s := Replay(log[..k]);
    CallsForError(s, log[k]) || TimesOut(log[k]) || StopFails(log[k], Step(s, log[k]).signal)
  }

  /** No call failed, but for what the program repeats or expects, and no wait timed out. */
  ghost predicate Undisturbed(log: seq<Entry>) {
    forall k :: 0 <= k < |log| ==> !Disturbs(log, k)
  }

  ghost predicate Calm(c: Capture) {
    c.fatal.None? && c.timedOut.None? && c.stopError.None?
  }

  lemma DataCalm(c: Capture, regions: map<nat, nat>, signal: nat, e: Entry)
    ensures var d := AfterData(c, regions, signal, e);
      && (d.timedOut.None? <==> c.timedOut.None? && !TimesOut(e))
      && (d.stopError.None? <==> c.stopError.None? && !StopFails(e, signal))
      && d.fatal == c.fatal
  {
  }

  lemma StepCalm(s: Session, e: Entry)
    ensures var t := Step(s, e);
      Calm(t.cap) <==> Calm(s.cap) && !CallsForError(s, e) && !TimesOut(e) && !StopFails(e, t.signal)
  {
    DataCalm(s.cap, s.res.regions, Step(s, e).signal, e);
  }

  lemma UndisturbedBefore(log: seq<Entry>)
    requires log != []
    ensures var n := |log| - 1; Undisturbed(log) <==> Undisturbed(log[..n]) && !Disturbs(log, n)
  {
    var n := |log| - 1;
    forall k | 0 <= k < n ensures Disturbs(log[..n], k) == Disturbs(log, k) {
      assert log[..n][..k] == log[..k];
    }
  }

  /** The record shows no error and no timeout exactly when no call disturbed the run. */
  lemma {:induction false} CalmIff(log: seq<Entry>)
    ensures Calm(Replay(log).cap) <==> Undisturbed(log)
  {
    if log != [] {
      CalmIff(log[..|log| - 1]);
      StepCalm(Replay(log[..|log| - 1]), log[|log| - 1]);
      UndisturbedBefore(log);
    }
  }

  /** A stop signal was delivered at or before a reading of the clock. */
  ghost predicate SignalBeforeClock(log: seq<Entry>) {
    exists j, k :: 0 <= j <= k < |log| && log[j].reply.signal != 0 && log[k].request.ReadClock?
  }

  lemma {:induction false} SignalComesFrom(log: seq<Entry>) returns (j: nat)
    requires Replay(log).signal != 0
    ensures j < |log| && log[j].reply.signal != 0
    decreases |log|
  {
    var n := |log| - 1;
    if log[n].reply.signal != 0 {
      j := n;
    } else {
      j := SignalComesFrom(log[..n]);
    }
  }

  lemma SignalPendingIff(log: seq<Entry>)
    ensures Replay(log).signal != 0 <==> exists j :: 0 <= j < |log| && log[j].reply.signal != 0
  {
    if Replay(log).signal != 0 {
      var _ := SignalComesFrom(log);
    }
    forall j | 0 <= j < |log| && log[j].reply.signal != 0 ensures Replay(log).signal != 0 {
      SignalStays(log, j);
    }
  }

  lemma SignalBeforeClockGrows(log: seq<Entry>)
    requires log != []
    ensures var n := |log| - 1;
      SignalBeforeClock(log) <==>
        || SignalBeforeClock(log[..n])
        || (log[n].request.ReadClock? && exists j :: 0 <= j < |log| && log[j].reply.signal != 0)
  {
    var n := |log| - 1;
    if SignalBeforeClock(log[..n]) {
      var j, k :| 0 <= j <= k < n && log[..n][j].reply.signal != 0 && log[..n][k].request.ReadClock?;
      assert log[j].reply.signal != 0 && log[k].request.ReadClock?;
    }
    if SignalBeforeClock(log) {
      var j, k :| 0 <= j <= k < |log| && log[j].reply.signal != 0 && log[k].request.ReadClock?;
      if k < n {
        assert log[..n][j].reply.signal != 0 && log[..n][k].request.ReadClock?;
      }
    }
  }

  /** The clock was last read with a stop signal pending exactly when one was delivered by then. */
  lemma {:induction false} SignalAtClockIff(log: seq<Entry>)
    ensures Replay(log).signalAtClock != 0 <==> SignalBeforeClock(log)
  {
    if log != [] {
      var n := |log| - 1;
      SignalAtClockIff(log[..n]);
      SignalBeforeClockGrows(log);
      SignalPendingIff(log);
      if SignalBeforeClock(log[..n]) {
        var j, k :| 0 <= j <= k < n && log[..n][j].reply.signal != 0 && log[..n][k].request.ReadClock?;
        SignalStays(log, j);
      }
    }
  }

  lemma DataKeepsStopError(c: Capture, regions: map<nat, nat>, signal: nat, e: Entry)
    requires c.stopError.Some?
    ensures AfterData(c, regions, signal, e).stopError == c.stopError
  {
  }

  lemma StepKeepsStopError(s: Session, e: Entry)
    requires s.cap.stopError.Some?
    ensures Step(s, e).cap.stopError == s.cap.stopError
  {
    DataKeepsStopError(s.cap, s.res.regions, Step(s, e).signal, e);
  }

  /** The first failed STREAMOFF is the one that is kept. */
  lemma NextKeepsStopError(log: seq<Entry>, j: nat)
    requires j < |log| && Replay(log[..j]).cap.stopError.Some?
    ensures Replay(log[..j + 1]).cap.stopError == Replay(log[..j]).cap.stopError
  {
    ReplayNext(log, j);
    StepKeepsStopError(Replay(log[..j]), log[j]);
  }

  lemma {:induction false} StopErrorStaysUntil(log: seq<Entry>, k: nat, j: nat)
    requires k <= j <= |log| && Replay(log[..k]).cap.stopError.Some?
    ensures Replay(log[..j]).cap.stopError == Replay(log[..k]).cap.stopError
    decreases j
  {
    if k < j {
      StopErrorStaysUntil(log, k, j - 1);
      NextKeepsStopError(log, j - 1);
    }
  }

  lemma StopErrorStays(log: seq<Entry>, k: nat)
    requires k <= |log| && Replay(log[..k]).cap.stopError.Some?
    ensures Replay(log).cap.stopError == Replay(log[..k]).cap.stopError
  {
    StopErrorStaysUntil(log, k, |log|);
    assert log[..|log|] == log;
  }
}
