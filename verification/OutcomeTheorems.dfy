/** What a run comes to, told from its calls: the frames, and the exit code. Numbers stand for
    themselves here. */
module OutcomeTheorems {
  import opened MachineTypes
  import opened KernelInterface
  import opened SequenceAccounting
  import opened SequenceTheorems
  import opened CaptureOptions
  import opened CaptureSession
  import opened SessionTheorems
  import opened CaptureFlow
  import opened FlowTheorems
  import opened LogTheorems
  import opened CaptureRun
  import opened CaptureProcess

  // ---------- Frames ----------

  /** The dequeues that brought a buffer, in order. */
  ghost function Dequeues(log: seq<Entry>): seq<Entry> {
    if log == [] then []
    else Dequeues(log[..|log| - 1]) + if TakesOne(log[|log| - 1]) == 1 then [log[|log| - 1]] else []
  }

  lemma {:induction false} DequeuesCounted(log: seq<Entry>)
    ensures |Dequeues(log)| == Sum(log, TakesOne)
  {
    if log != [] {
      DequeuesCounted(log[..|log| - 1]);
    }
  }

  lemma DequeuesNext(log: seq<Entry>, k: nat)
    requires k < |log|
    ensures Dequeues(log[..k + 1]) == Dequeues(log[..k]) + if TakesOne(log[k]) == 1 then [log[k]] else []
  {
    assert log[..k + 1][..k] == log[..k];
  }

  /** The frame is the buffer of the reply: its sequence, its time in seconds, its error flag; and the
      image is as many bytes of the data as the buffer has. */
  predicate FrameFrom(f: Frame, image: seq<byte>, r: Reply) {
    && f.sequence == r.buffer.sequence && f.error == r.buffer.error
    && f.timestamp == r.buffer.seconds as real + r.buffer.microseconds as real / 1000000.0
    && |image| == r.buffer.bytesused
    && forall i :: 0 <= i < |image| ==> image[i] == if i < |r.data| then r.data[i] else 0
  }

  ghost predicate FramesFrom(c: Capture, taken: seq<Entry>) {
    && |c.images| == |c.frames| <= |taken|
    && forall i :: 0 <= i < |c.frames| ==> FrameFrom(c.frames[i], c.images[i], taken[i].reply)
  }

  lemma FramesFromNext(s: Session, e: Entry, taken: seq<Entry>)
    requires FramesFrom(s.cap, taken) && (e.request.DequeueBuffer? ==> |s.cap.frames| == |taken|)
    ensures FramesFrom(Step(s, e).cap, taken + if TakesOne(e) == 1 then [e] else [])
  {
    if TakesOne(e) == 0 {
      NothingRecorded(s, e);
    }
  }

  lemma NothingRecorded(s: Session, e: Entry)
    requires TakesOne(e) == 0
    ensures Step(s, e).cap.frames == s.cap.frames && Step(s, e).cap.images == s.cap.images
  {
  }

  /** Put as a bound on the prefixes. */
  ghost predicate FramesKnown(log: seq<Entry>, k: nat) {
    forall i :: k <= i <= k && i <= |log| ==> FramesFrom(Replay(log[..i]).cap, Dequeues(log[..i]))
  }

  lemma NotEndingTakes(o: Options, f: Flow)
    requires Next(o, f) == Some(DequeueBuffer)
    ensures !IsEnding(f.point)
  {
  }

  lemma AllRecorded(o: Options, log: seq<Entry>, k: nat)
    requires o.Valid() && k < |log| && Follows(o, log) && log[k].request.DequeueBuffer?
    ensures |Replay(log[..k]).cap.frames| == |Dequeues(log[..k])|
  {
    FlowNext(o, log, k);
    AgreedAlways(o, log, k);
    assert |log[..k]| == k;
    NotEndingTakes(o, FlowOf(o, log[..k]));
    DequeuesCounted(log[..k]);
  }

  lemma FramesKnownNext(o: Options, log: seq<Entry>, k: nat)
    requires o.Valid() && k < |log| && Follows(o, log) && FramesKnown(log, k)
    ensures FramesKnown(log, k + 1)
  {
    assert |log[..k]| == k;
    if log[k].request.DequeueBuffer? {
      AllRecorded(o, log, k);
    }
    ReplayNext(log, k);
    DequeuesNext(log, k);
    FramesFromNext(Replay(log[..k]), log[k], Dequeues(log[..k]));
  }

  lemma {:induction false} FramesAlwaysKnown(o: Options, log: seq<Entry>, k: nat)
    requires o.Valid() && k <= |log| && Follows(o, log)
    ensures FramesKnown(log, k)
    decreases k
  {
    if k == 0 {
      assert log[..0] == [];
    } else {
      FramesAlwaysKnown(o, log, k - 1);
      FramesKnownNext(o, log, k - 1);
    }
  }

  /** The recorded frames are the dequeued buffers, in order. */
  lemma FramesAreDequeues(o: Options, log: seq<Entry>, i: nat)
    requires o.Valid() && Follows(o, log) && i < |Replay(log).cap.frames|
    ensures var c := Replay(log).cap;
      && |c.images| == |c.frames| <= |Dequeues(log)|
      && c.frames[i].sequence == Dequeues(log)[i].reply.buffer.sequence
      && c.frames[i].error == Dequeues(log)[i].reply.buffer.error
      && c.frames[i].timestamp == Dequeues(log)[i].reply.buffer.seconds as real
                                  + Dequeues(log)[i].reply.buffer.microseconds as real / 1000000.0
      && |c.images[i]| == Dequeues(log)[i].reply.buffer.bytesused
      && forall j :: 0 <= j < |c.images[i]| ==>
           c.images[i][j] == if j < |Dequeues(log)[i].reply.data| then Dequeues(log)[i].reply.data[j] else 0
  {
    FramesAlwaysKnown(o, log, |log|);
    assert log[..|log|] == log;
    assert FrameFrom(Replay(log).cap.frames[i], Replay(log).cap.images[i], Dequeues(log)[i].reply);
  }

  // ---------- Errors ----------

  /** Which replies of the set-up call for which error; an interruption without a signal calls for none. */
  lemma SetUpErrors(e: Entry, regions: map<nat, nat>, signal: nat)
    requires !(e.reply.errno == 4 && signal == 0)
    ensures var r, reply, error := e.request, e.reply, ErrorOf(e, regions, signal);
      var word := if reply.value / 0x8000_0000 % 2 == 1 then reply.deviceCaps else reply.value;
      var failed := Some(SystemError(r, reply.errno));
      && (r.SetMode? || r.SetFormat? || r.SetParameters? || r.QueryBuffer? || r.QueueBuffer? || r.StreamOn? ==>
            error == if reply.errno != 0 then failed else None)
      && (r.EnumerateFormat? ==> error == if reply.errno != 0 && reply.errno != 22 then failed else None)
      && (r.QueryCapabilities? ==>
            error == if reply.errno != 0 then failed
                     else if word % 2 == 0 then Some(DeviceError(NotACaptureDevice))
                     else if word / 0x400_0000 % 2 == 0 then Some(DeviceError(NoStreaming))
                     else None)
      && (r.QueryMode? ==>
            error == if reply.errno != 0 then failed
                     else if reply.value / 4 % 2 == 1 then Some(DeviceError(ModeReadOnly))
                     else if r.wanted < reply.range.0 || r.wanted > reply.range.1 then Some(UsageError(ModeOutOfRange))
                     else None)
      && (r.RequestBuffers? ==>
            error == if reply.errno != 0 then failed
                     else if reply.value < 2 then Some(DeviceError(TooFewBuffers))
                     else None)
  {
  }

  /** The calls that are no ioctl, and the dequeue. */
  lemma OtherErrors(e: Entry, regions: map<nat, nat>, signal: nat)
    ensures var r, reply, error := e.request, e.reply, ErrorOf(e, regions, signal);
      var failed := Some(SystemError(r, reply.errno));
      && (r.OpenDevice? || r.MapBuffer? || r.OpenFile? || r.CloseFile? ==>
            error == if reply.errno != 0 then failed else None)
      && (r.Poll? ==>
            error == if reply.errno == 4 then None
                     else if reply.errno != 0 then failed
                     else if reply.value / 32 % 2 == 1 || reply.value / 16 % 2 == 1 then Some(DeviceError(Unavailable))
                     else None)
      && (r.DequeueBuffer? ==>
            error == if reply.errno == 11 || (reply.errno == 4 && signal == 0) then None
                     else if reply.errno != 0 then failed
                     else if reply.buffer.index !in regions || reply.buffer.bytesused > regions[reply.buffer.index]
                     then Some(DeviceError(InvalidBuffer))
                     else None)
      && (r.WriteFile? ==>
            error == if reply.errno == 4 then None
                     else if reply.errno != 0 then failed
                     else if reply.value == 0 then Some(SystemError(r, 5))
                     else None)
      && (r.StreamOff? || r.UnmapBuffer? || r.CloseDevice? || r.ReadClock? ==> error == None)
  {
  }

  lemma ErrorBefore(log: seq<Entry>)
    requires log != []
    ensures var n := |log| - 1;
      Replay(log).cap.fatal.None? <==> Replay(log[..n]).cap.fatal.None? && !CallsForError(Replay(log[..n]), log[n])
  {
    StepKeepsFirstError(Replay(log[..|log| - 1]), log[|log| - 1]);
  }

  ghost predicate ErrorAt(log: seq<Entry>, k: nat)
    requires k < |log|
  {
    CallsForError(Replay(log[..k]), log[k])
  }

  /** The record shows an error exactly when some reply called for one. */
  lemma {:induction false} ErrorIff(log: seq<Entry>)
    ensures Replay(log).cap.fatal.Some? <==> exists k :: 0 <= k < |log| && ErrorAt(log, k)
  {
    if log != [] {
      var n := |log| - 1;
      ErrorIff(log[..n]);
      ErrorBefore(log);
      SomeErrorBefore(log);
    }
  }

  lemma SomeErrorBefore(log: seq<Entry>)
    requires log != []
    ensures var n := |log| - 1;
      (exists k :: 0 <= k < |log| && ErrorAt(log, k)) <==>
        (exists k :: 0 <= k < n && ErrorAt(log[..n], k)) || CallsForError(Replay(log[..n]), log[n])
  {
    var n := |log| - 1;
    forall k | 0 <= k < n ensures ErrorAt(log[..n], k) == ErrorAt(log, k) {
      assert log[..n][..k] == log[..k];
    }
    assert ErrorAt(log, n) == CallsForError(Replay(log[..n]), log[n]);
  }

  lemma TimeoutBefore(s: Session, e: Entry)
    ensures Step(s, e).cap.timedOut.Some? <==> s.cap.timedOut.Some? || TimesOut(e)
  {
    DataCalm(s.cap, s.res.regions, Step(s, e).signal, e);
  }

  /** The record shows a timeout exactly when a wait came back with nothing. */
  lemma {:induction false} TimeoutIff(log: seq<Entry>)
    ensures Replay(log).cap.timedOut.Some? <==>
      exists k :: 0 <= k < |log| && log[k].request.Poll? && log[k].reply.errno == 0 && log[k].reply.value == 0
  {
    if log != [] {
      var n := |log| - 1;
      TimeoutIff(log[..n]);
      TimeoutBefore(Replay(log[..n]), log[n]);
      forall k | 0 <= k < n ensures log[..n][k] == log[k] {
      }
    }
  }

  // ---------- All dequeues are frames ----------

  lemma DequeueRecorded(s: Session, e: Entry)
    requires !CallsForError(s, e)
    ensures |Step(s, e).cap.frames| == |s.cap.frames| + TakesOne(e)
  {
  }

  lemma {:induction false} AllAreFrames(log: seq<Entry>)
    requires Replay(log).cap.fatal.None?
    ensures |Replay(log).cap.frames| == |Dequeues(log)|
  {
    if log != [] {
      ErrorBefore(log);
      AllAreFrames(log[..|log| - 1]);
      DequeueRecorded(Replay(log[..|log| - 1]), log[|log| - 1]);
    }
  }

  /** The buffers came one by one, modulo 2^32, and none is flagged. */
  ghost predicate Straight(taken: seq<Entry>) {
    forall i :: 0 <= i < |taken| ==>
      && taken[i].reply.buffer.sequence == (taken[0].reply.buffer.sequence + i) % 0x1_0000_0000
      && !taken[i].reply.buffer.error
  }

  lemma ConsecutiveIsStraight(o: Options, log: seq<Entry>)
    requires o.Valid() && Follows(o, log) && Replay(log).cap.fatal.None?
    ensures Consecutive(Replay(log).cap.frames) <==> Straight(Dequeues(log))
  {
    AllAreFrames(log);
    forall i | 0 <= i < |Dequeues(log)|
      ensures Replay(log).cap.frames[i].sequence == Dequeues(log)[i].reply.buffer.sequence
      ensures Replay(log).cap.frames[i].error == Dequeues(log)[i].reply.buffer.error
    {
      FramesAreDequeues(o, log, i);
    }
    SameOrder(Replay(log).cap.frames, Dequeues(log));
  }

  lemma SameOrder(h: seq<Frame>, taken: seq<Entry>)
    requires |h| == |taken|
    requires forall i :: 0 <= i < |h| ==>
      h[i].sequence == taken[i].reply.buffer.sequence && h[i].error == taken[i].reply.buffer.error
    ensures Consecutive(h) <==> Straight(taken)
  {
  }

  /** The frame to be saved came last, and flagged. */
  ghost predicate Flagged(o: Options, taken: seq<Entry>)
    requires o.Valid()
  {
    o.savePath.Some? && |taken| == o.saveAt && taken[o.saveAt - 1].reply.buffer.error
  }

  lemma FlaggedIs(o: Options, log: seq<Entry>)
    requires o.Valid() && Follows(o, log) && Replay(log).cap.fatal.None?
    ensures FlaggedFrame(o, Replay(log).cap) <==> Flagged(o, Dequeues(log))
  {
    AllAreFrames(log);
    forall i | 0 <= i < |Dequeues(log)|
      ensures Replay(log).cap.frames[i].error == Dequeues(log)[i].reply.buffer.error
    {
      FramesAreDequeues(o, log, i);
    }
    SameFlags(o, Replay(log).cap, Dequeues(log));
  }

  lemma SameFlags(o: Options, c: Capture, taken: seq<Entry>)
    requires o.Valid() && |c.frames| == |taken|
    requires forall i :: 0 <= i < |taken| ==> c.frames[i].error == taken[i].reply.buffer.error
    ensures FlaggedFrame(o, c) <==> Flagged(o, taken)
  {
  }

  // ---------- The exit code ----------

  /** No call of the capture went wrong, and it was not interrupted, and the requested frame came. */
  ghost predicate Completed(o: Options, log: seq<Entry>)
    requires o.Valid()
  {
    && Undisturbed(log) && !SignalBeforeClock(log) && !Flagged(o, Dequeues(log))
    && (o.savePath.Some? ==> |Dequeues(log)| >= o.saveAt)
  }

  /** The exit code of a capture, from its calls alone: 0 and 5 say whether the frames came one by one,
      4 that a wait timed out and nothing failed, above 128 that a signal came in time and nothing
      failed. */
  lemma ExitCodeFromCalls(o: Options, log: seq<Entry>, r: Attempt<Ending>)
    requires o.Valid() && !o.listOnly && o.fps * 1000.0 <= 4294967295.0 && Follows(o, log)
    requires Explains(o, r, Replay(log).cap, Replay(log).signalAtClock) && |Dequeues(log)| <= 8589934605
    ensures ExitCode(r) == 0 <==> Completed(o, log) && (o.allowDrops || Straight(Dequeues(log)))
    ensures ExitCode(r) == 5 <==> Completed(o, log) && !(o.allowDrops || Straight(Dequeues(log)))
    ensures ExitCode(r) == 4 <==>
      && (exists k :: 0 <= k < |log| && log[k].request.Poll? && log[k].reply.errno == 0 && log[k].reply.value == 0)
      && !exists k :: 0 <= k < |log| && ErrorAt(log, k)
    ensures ExitCode(r) > 128 <==> Undisturbed(log) && SignalBeforeClock(log) && !Flagged(o, Dequeues(log))
    ensures ExitCode(r) == 2 ==> exists k :: 0 <= k < |log| && ErrorAt(log, k)
    ensures ExitCode(r) in {0, 2, 3, 4, 5} || ExitCode(r) > 128
  {
    CalmIff(log);
    SignalAtClockIff(log);
    ErrorIff(log);
    TimeoutIff(log);
    if Replay(log).cap.fatal.None? {
      AllAreFrames(log);
      FlaggedIs(o, log);
      ConsecutiveIsStraight(o, log);
      CleanMeansConsecutive(Replay(log).cap.frames);
    }
    ExitCodeOf(o, r, Replay(log).cap, Replay(log).signalAtClock);
  }

  lemma ExitCodeOf(o: Options, r: Attempt<Ending>, c: Capture, signalAtClock: nat)
    requires o.Valid() && !o.listOnly && o.fps * 1000.0 <= 4294967295.0 && Explains(o, r, c, signalAtClock)
    ensures var done := Calm(c) && signalAtClock == 0 && !FlaggedFrame(o, c)
                        && (o.savePath.Some? ==> |c.frames| >= o.saveAt);
      && (ExitCode(r) == 0 <==> done && (o.allowDrops || Clean(Tally(c.frames))))
      && (ExitCode(r) == 5 <==> done && !(o.allowDrops || Clean(Tally(c.frames))))
    ensures ExitCode(r) == 4 <==> c.timedOut.Some? && c.fatal.None?
    ensures ExitCode(r) > 128 <==> Calm(c) && signalAtClock != 0 && !FlaggedFrame(o, c)
    ensures ExitCode(r) == 2 ==> c.fatal.Some?
    ensures ExitCode(r) in {0, 2, 3, 4, 5} || ExitCode(r) > 128
  {
  }

  /** The saved file of a capture that reached its verdict: the data of the requested buffer, as many
      bytes as it has. */
  lemma SavedFileIsBuffer(o: Options, log: seq<Entry>, pass: bool)
    requires o.Valid() && Follows(o, log) && o.savePath.Some?
    requires Explains(o, Value(Verdict(pass)), Replay(log).cap, Replay(log).signalAtClock)
    ensures var c := Replay(log).cap; o.saveAt <= |Dequeues(log)| && c.file.Some?
    ensures var file, r := Replay(log).cap.file.value, Dequeues(log)[o.saveAt - 1].reply;
      && file.path == o.savePath.value && |file.content| == r.buffer.bytesused && !r.buffer.error
      && forall j :: 0 <= j < |file.content| ==> file.content[j] == if j < |r.data| then r.data[j] else 0
  {
    VerdictHasFile(o, Replay(log).cap, Replay(log).signalAtClock, pass);
    AllAreFrames(log);
    FramesAreDequeues(o, log, o.saveAt - 1);
  }

  lemma VerdictHasFile(o: Options, c: Capture, signalAtClock: nat, pass: bool)
    requires o.Valid() && Explains(o, Value(Verdict(pass)), c, signalAtClock) && o.savePath.Some?
    ensures c.fatal.None? && o.saveAt <= |c.frames| && |c.images| == |c.frames| && !c.frames[o.saveAt - 1].error
    ensures c.file.Some? && c.file.value.path == o.savePath.value && c.file.value.content == c.images[o.saveAt - 1]
  {
  }

  // ---------- Which signal ----------

  /** The signal that is pending is the last one that was delivered. */
  lemma {:induction false} LastSignal(log: seq<Entry>) returns (j: nat)
    requires Replay(log).signal != 0
    ensures j < |log| && log[j].reply.signal == Replay(log).signal
    ensures forall i :: j < i < |log| ==> log[i].reply.signal == 0
    decreases |log|
  {
    var n := |log| - 1;
    if log[n].reply.signal != 0 {
      j := n;
    } else {
      j := LastSignal(log[..n]);
      forall i | j < i < |log| ensures log[i].reply.signal == 0 {
        if i < n {
          assert log[..n][i] == log[i];
        }
      }
    }
  }

  /** The signal of an interrupted run is the last one delivered when the clock was read last. */
  lemma {:induction false} SignalAtLastClock(log: seq<Entry>) returns (j: nat, k: nat)
    requires Replay(log).signalAtClock != 0
    ensures j <= k < |log| && log[k].request.ReadClock? && log[j].reply.signal == Replay(log).signalAtClock
    ensures forall i :: k < i < |log| ==> !log[i].request.ReadClock?
    ensures forall i :: j < i <= k ==> log[i].reply.signal == 0
    decreases |log|
  {
    var n := |log| - 1;
    if log[n].request.ReadClock? {
      j := LastSignal(log);
      k := n;
    } else {
      j, k := SignalAtLastClock(log[..n]);
      assert forall i :: 0 <= i < n ==> log[..n][i] == log[i];
    }
  }

  /** An exit code above 128 is 128 plus that signal. */
  lemma InterruptedBySignal(o: Options, log: seq<Entry>, r: Attempt<Ending>) returns (j: nat, k: nat)
    requires o.Valid() && Explains(o, r, Replay(log).cap, Replay(log).signalAtClock) && ExitCode(r) > 128
    ensures j <= k < |log| && log[k].request.ReadClock? && ExitCode(r) == 128 + log[j].reply.signal
    ensures forall i :: k < i < |log| ==> !log[i].request.ReadClock?
    ensures forall i :: j < i <= k ==> log[i].reply.signal == 0
  {
    j, k := SignalAtLastClock(log);
  }

  // ---------- Listings and refused rates ----------

  lemma ExitCodeWithoutCapture(o: Options, log: seq<Entry>, r: Attempt<Ending>)
    requires o.Valid() && Explains(o, r, Replay(log).cap, Replay(log).signalAtClock)
    requires !exists k :: 0 <= k < |log| && ErrorAt(log, k)
    ensures o.listOnly ==> ExitCode(r) == 0
    ensures !o.listOnly && o.fps * 1000.0 > 4294967295.0 ==> r == Raised(UsageError(RateTooLarge)) && ExitCode(r) == 2
  {
    ErrorIff(log);
  }

  /** A run with a call that failed exits with 3, or with 2 if the sensor mode is out of range. */
  lemma ExitCodeAfterError(o: Options, log: seq<Entry>, k: nat, r: Attempt<Ending>)
    requires o.Valid() && Explains(o, r, Replay(log).cap, Replay(log).signalAtClock)
    requires k < |log| && ErrorAt(log, k) && forall i :: 0 <= i < k ==> !ErrorAt(log, i)
    ensures r == Raised(ErrorOf(log[k], Replay(log[..k]).res.regions, Step(Replay(log[..k]), log[k]).signal).value)
    ensures ExitCode(r) == if r.error == UsageError(ModeOutOfRange) then 2 else 3
  {
    ErrorIff(log[..k]);
    forall i | 0 <= i < k ensures !ErrorAt(log[..k], i) {
      assert log[..k][..i] == log[..i];
      assert !ErrorAt(log, i);
    }
    FirstErrorEndsRun(log, k, o, r);
    OnlyModeIsUsage(log[k], Replay(log[..k]).res.regions, Step(Replay(log[..k]), log[k]).signal);
  }

  lemma OnlyModeIsUsage(e: Entry, regions: map<nat, nat>, signal: nat)
    ensures var error := ErrorOf(e, regions, signal);
      error.Some? && error.value.UsageError? ==> error.value == UsageError(ModeOutOfRange)
  {
  }
}
