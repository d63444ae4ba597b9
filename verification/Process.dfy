/** The process around a run: command line in, exit code out; and what the exit code tells. */
module CaptureProcess {
  import opened MachineTypes
  import opened KernelInterface
  import opened SequenceAccounting
  import opened SequenceTheorems
  import opened CaptureSession
  import opened SessionTheorems
  import opened CaptureFlow
  import opened CaptureDevice
  import opened CaptureOptions
  import opened CaptureRun

  const EXIT_SUCCESS := 0
  const EXIT_USAGE := 2
  const EXIT_DEVICE := 3
  const EXIT_TIMEOUT := 4
  const EXIT_VALIDATION := 5

  function ExitCode(r: Attempt<Ending>): nat
    requires !r.Pending?
  {
    match r
    case Raised(UsageError(_)) => EXIT_USAGE
    case Raised(_) => EXIT_DEVICE
    case Value(Listed) => EXIT_SUCCESS
    case Value(TimedOut) => EXIT_TIMEOUT
    case Value(Interrupted(signal)) => 128 + signal
    case Value(Verdict(pass)) => if pass then EXIT_SUCCESS else EXIT_VALIDATION
  }

  /** The whole program, in an environment: log holds its calls, and run is the outcome of the
      capture, if there was one. */
  method RunProcess(argv: seq<string>, environment: seq<Reply>, readReal: ReadReal)
    returns (code: Option<nat>, ghost log: seq<Entry>, ghost run: Attempt<Ending>)
    requires argv != []
    ensures CommandLine(argv[1..], readReal).Failure? ==> code == Some(2)
    ensures CommandLine(argv[1..], readReal) == Success(None) ==> code == Some(0)
    ensures Safe(Replay(log)) && Replies(log) <= environment && (code.None? ==> Replies(log) == environment)
    ensures match CommandLine(argv[1..], readReal)
      case Failure(_) => log == []
      case Success(None) => log == []
      case Success(Some(o)) =>
        && o.Valid() && o.SaveWithinFrames()
        && Follows(o, log) && (code.Some? <==> Whole(o, log))
        && (forall k :: 0 <= k <= |log| ==> GoodAt(log, o, k))
        && (run.Pending? <==> code == None)
        && (!run.Pending? ==>
              var s := Replay(log);
              && code == Some(ExitCode(run)) && Released(s.res) && Explains(o, run, s.cap, s.signalAtClock)
              && (code == Some(0) <==> run == Value(Listed) || run == Value(Verdict(true)))
              && (code == Some(2) <==> run.Raised? && run.error.UsageError?)
              && (code == Some(3) <==> run.Raised? && !run.error.UsageError?)
              && (code == Some(4) <==> run == Value(TimedOut))
              && (code == Some(5) <==> run == Value(Verdict(false)))
              && (code.value > 5 <==> run.Value? && run.value.Interrupted?)
              && (run.Value? && run.value.Interrupted? ==> code == Some(128 + run.value.signal)))
  {
    run, log := Pending, [];
    AcceptedIsValid(argv[1..], readReal);
    var options := ParseOptions(argv, readReal);
    if options.Failure? {
      return Some(EXIT_USAGE), log, run;
    }
    if options.value.None? {
      return Some(EXIT_SUCCESS), log, run;
    }
    var os := new Kernel(options.value.value, environment);
    var r := RunCapture(os, options.value.value);
    run, log := r, os.log;
    code := if r.Pending? then None else Some(ExitCode(r));
    if !r.Pending? {
      ExitCodes(options.value.value, r, Replay(log).cap, Replay(log).signalAtClock);
    }
  }

  /** The exit codes tell the outcomes apart. */
  lemma ExitCodes(o: Options, r: Attempt<Ending>, c: Capture, signalAtClock: nat)
    requires o.Valid() && Explains(o, r, c, signalAtClock)
    ensures ExitCode(r) == 0 <==> r == Value(Listed) || r == Value(Verdict(true))
    ensures ExitCode(r) == 2 <==> r.Raised? && r.error.UsageError?
    ensures ExitCode(r) == 3 <==> r.Raised? && !r.error.UsageError?
    ensures ExitCode(r) == 4 <==> r == Value(TimedOut)
    ensures ExitCode(r) == 5 <==> r == Value(Verdict(false))
    ensures ExitCode(r) > 5 <==> r.Value? && r.value.Interrupted?
    ensures r.Value? && r.value.Interrupted? ==> ExitCode(r) == 128 + r.value.signal
  {
  }

  // ---------- What the outcome tells ----------

  /** Without --allow-drops a capture exits with 0 exactly when it reached its verdict and every
      dequeued frame followed its predecessor, modulo 2^32, without an error flag. */
  lemma ExitZeroMeansConsecutive(o: Options, r: Attempt<Ending>, c: Capture, signalAtClock: nat)
    requires o.Valid() && !o.allowDrops && !o.listOnly && Explains(o, r, c, signalAtClock) && NoWrap(|c.frames|)
    ensures ExitCode(r) == 0 <==> r.Value? && r.value.Verdict? && Consecutive(c.frames)
    ensures ExitCode(r) == 5 <==> r.Value? && r.value.Verdict? && !Consecutive(c.frames)
  {
    CleanMeansConsecutive(c.frames);
  }

  /** The same from the log alone: a capture exits with 0 exactly when no call failed, no wait timed
      out, no stop signal came before the clock was last read, the requested frame was reached, and
      the frames were consecutive. */
  lemma ExitZeroIff(log: seq<Entry>, o: Options, r: Attempt<Ending>)
    requires o.Valid() && !o.allowDrops && !o.listOnly
    requires Explains(o, r, Replay(log).cap, Replay(log).signalAtClock) && NoWrap(|Replay(log).cap.frames|)
    ensures var frames := Replay(log).cap.frames;
      ExitCode(r) == 0 <==>
        && RateFits(o) && Undisturbed(log) && !SignalBeforeClock(log)
        && (o.savePath.Some? ==> |frames| >= o.saveAt) && Consecutive(frames)
  {
    CalmIff(log);
    SignalAtClockIff(log);
    CleanMeansConsecutive(Replay(log).cap.frames);
  }

  /** A run that reached its frame limit never ends for want of the requested frame: it was saved
      whole, or it came with the error flag, or some reply called for an error. */
  lemma FrameLimitSavesFrame(log: seq<Entry>, o: Options, r: Attempt<Ending>, c: Capture, signalAtClock: nat)
    requires o.Valid() && o.SaveWithinFrames() && c == Replay(log).cap && Explains(o, r, c, signalAtClock)
    requires o.savePath.Some? && o.frameLimit != 0 && |c.frames| == o.frameLimit
    ensures r != Raised(DeviceError(EndedBeforeSave))
    ensures c.fatal.None? && c.stopError.None? && !FlaggedFrame(o, c) ==>
      r.Value? && c.file == Some(File(o.savePath.value, c.images[o.saveAt - 1]))
  {
    RepliesDecideNothing(log);
    FrameLimitDecided(o, r, c, signalAtClock);
  }

  lemma FrameLimitDecided(o: Options, r: Attempt<Ending>, c: Capture, signalAtClock: nat)
    requires o.Valid() && o.SaveWithinFrames() && Explains(o, r, c, signalAtClock)
    requires c.fatal.Some? ==> !OwnDecision(c.fatal.value)
    requires o.savePath.Some? && o.frameLimit != 0 && |c.frames| == o.frameLimit
    ensures r != Raised(DeviceError(EndedBeforeSave))
    ensures c.fatal.None? && c.stopError.None? && !FlaggedFrame(o, c) ==>
      r.Value? && c.file == Some(File(o.savePath.value, c.images[o.saveAt - 1]))
  {
    if c.fatal.None? && c.stopError.None? && !FlaggedFrame(o, c) {
      assert r.Value?;
    }
  }

  /** A record calls for one outcome only. */
  lemma OneOutcome(o: Options, r: Attempt<Ending>, q: Attempt<Ending>, c: Capture, signalAtClock: nat)
    requires o.Valid() && Explains(o, r, c, signalAtClock) && Explains(o, q, c, signalAtClock)
    ensures r == q
  {
  }

  /** The first reply that calls for an error ends the run, with that error. */
  lemma FirstErrorEndsRun(log: seq<Entry>, k: nat, o: Options, r: Attempt<Ending>)
    requires k < |log| && Replay(log[..k]).cap.fatal.None?
    requires o.Valid() && Explains(o, r, Replay(log).cap, Replay(log).signalAtClock)
    requires CallsForError(Replay(log[..k]), log[k])
    ensures var s := Replay(log[..k]);
      r == Raised(ErrorOf(log[k], s.res.regions, Step(s, log[k]).signal).value)
  {
    FirstErrorKept(log, k);
  }

  // ---------- Stop signals ----------

  /** The exit code is 128 plus a signal exactly when the signal was delivered before the clock was
      last read, no call failed and no wait timed out, and the requested frame was not refused. It
      is then the signal pending at that reading. */
  lemma InterruptedExitIff(log: seq<Entry>, o: Options, r: Attempt<Ending>)
    requires o.Valid() && Explains(o, r, Replay(log).cap, Replay(log).signalAtClock)
    ensures ExitCode(r) > 128 <==>
      && !o.listOnly && RateFits(o) && !FlaggedFrame(o, Replay(log).cap)
      && Undisturbed(log) && SignalBeforeClock(log)
    ensures ExitCode(r) > 128 ==> ExitCode(r) == 128 + Replay(log).signalAtClock
  {
    CalmIff(log);
    SignalAtClockIff(log);
  }

  lemma InterruptedIsAnError(s: Session, e: Entry)
    requires IsIoctl(e.request) && !e.request.StreamOff? && e.reply.errno == EINTR && Step(s, e).signal != 0
    ensures ErrorOf(e, s.res.regions, Step(s, e).signal) == Some(SystemError(e.request, EINTR))
  {
  }

  /** A stop signal that interrupts an ioctl ends the run with a system error: exit code 3, not 128
      plus the signal, although the run was stopped by the signal. */
  lemma InterruptedIoctlIsAnError(log: seq<Entry>, k: nat, o: Options, r: Attempt<Ending>)
    requires k < |log| && Replay(log[..k]).cap.fatal.None?
    requires IsIoctl(log[k].request) && !log[k].request.StreamOff?
    requires log[k].reply.errno == EINTR && Replay(log[..k + 1]).signal != 0
    requires o.Valid() && Explains(o, r, Replay(log).cap, Replay(log).signalAtClock)
    ensures r == Raised(SystemError(log[k].request, EINTR)) && ExitCode(r) == 3
  {
    ReplayNext(log, k);
    InterruptedIsAnError(Replay(log[..k]), log[k]);
    FirstErrorEndsRun(log, k, o, r);
  }

  lemma InterruptedStop(s: Session, e: Entry)
    requires e.request.StreamOff? && e.reply.errno == EINTR && Step(s, e).signal != 0 && s.cap.stopError.None?
    ensures Step(s, e).cap.stopError == Some(EINTR)
  {
  }

  /** The same for STREAMOFF, in a run that was not ended by something else before. */
  lemma InterruptedStreamOffIsAnError(log: seq<Entry>, k: nat, o: Options, r: Attempt<Ending>)
    requires k < |log| && Replay(log[..k]).cap.stopError.None? && log[k].request.StreamOff?
    requires log[k].reply.errno == EINTR && Replay(log[..k + 1]).signal != 0
    requires o.Valid() && Explains(o, r, Replay(log).cap, Replay(log).signalAtClock)
    requires var c := Replay(log).cap; c.fatal.None? && c.timedOut.None? && !FlaggedFrame(o, c)
    ensures r == Raised(SystemError(StreamOff, EINTR)) && ExitCode(r) == 3
  {
    ReplayNext(log, k);
    InterruptedStop(Replay(log[..k]), log[k]);
    StopErrorStays(log, k + 1);
  }
}
