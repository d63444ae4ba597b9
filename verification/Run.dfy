/** One run of jetcam-raw-test: configuration, the capture loop, the verdict and the exit code. */
module CaptureRun {
  import opened MachineTypes
  import opened KernelInterface
  import opened SequenceAccounting
  import opened SequenceTheorems
  import opened CaptureSession
  import opened SessionTheorems
  import opened CaptureFlow
  import opened CaptureDevice
  import opened CaptureOptions
  import opened FrameRate

  /** The results a run can report. */
  datatype Ending = Listed | TimedOut | Interrupted(signal: nat) | Verdict(pass: bool)

  // ---------- What the record of a run says ----------

  /** The settings the options ask for. */
  ghost function Wanted(o: Options): Settings
    requires o.Valid()
  {
    Settings(Some(o.device), true, o.sensorMode, Some((o.width, o.height, o.pixelFormat)),
             if RateFits(o) then Some(TimePerFrame(o.fps).value) else None, Some(o.bufferCount))
  }

  ghost predicate AllUnder(taken: seq<Settings>, settings: Settings) {
    forall i :: 0 <= i < |taken| ==> taken[i] == settings
  }

  /** The requested frame was saved, or none was requested or reached yet; and the device is, and
      was for every frame, set up as the options ask. */
  ghost predicate Snapshot(o: Options, saved: bool, c: Capture)
    requires o.Valid()
  {
    && |c.images| == |c.frames| == |c.taken|
    && RateFits(o) && c.settings == Wanted(o) && AllUnder(c.taken, Wanted(o))
    && (saved <==> o.savePath.Some? && |c.frames| >= o.saveAt)
    && (saved ==>
          && c.openings == [o.saveAt] && c.file == Some(File(o.savePath.value, c.images[o.saveAt - 1]))
          && !c.frames[o.saveAt - 1].error)
    && (!saved ==> c.openings == [] && c.file.None?)
  }

  /** At every moment: frames are taken only from a device set up as asked, the frame limit is
      respected, and the output file was opened once at most, when its frame had just been taken
      without an error flag, and holds the start of that frame and nothing else. */
  ghost predicate Orderly(o: Options, c: Capture)
    requires o.Valid()
  {
    && |c.images| == |c.frames| == |c.taken| && AllUnder(c.taken, Wanted(o))
    && (o.frameLimit != 0 ==> |c.frames| <= o.frameLimit)
    && (c.file.None? ==> c.openings == [])
    && (c.file.Some? ==>
          && c.openings == [o.saveAt] && o.savePath.Some? && |c.frames| >= o.saveAt && !c.frames[o.saveAt - 1].error
          && c.file.value.path == o.savePath.value
          && c.file.value.content <= c.images[o.saveAt - 1])
  }

  /** A limit of the run was reached. */
  ghost predicate LimitReached(o: Options, c: Capture) {
    (o.frameLimit != 0 && |c.frames| == o.frameLimit) || (o.durationSeconds > 0.0 && c.elapsed)
  }

  /** The requested frame came with the error flag. */
  ghost predicate FlaggedFrame(o: Options, c: Capture)
    requires o.Valid()
  {
    o.savePath.Some? && |c.frames| == o.saveAt && c.frames[o.saveAt - 1].error
  }

  /** The outcome a record calls for: the first reply that calls for an error decides, then what
      the options rule out, a timeout, a flagged frame, a failed STREAMOFF, a stop signal pending
      when the clock was last read, and last the frames. */
  ghost function Outcome(o: Options, c: Capture, signalAtClock: nat): Attempt<Ending>
    requires o.Valid()
  {
    if c.fatal.Some? then Raised(c.fatal.value)
    else if o.listOnly then Value(Listed)
    else if !RateFits(o) then Raised(UsageError(RateTooLarge))
    else if c.timedOut.Some? then Value(TimedOut)
    else if FlaggedFrame(o, c) then Raised(DeviceError(ErroneousFrame))
    else if c.stopError.Some? then Raised(SystemError(StreamOff, c.stopError.value))
    else if signalAtClock != 0 then Value(Interrupted(signalAtClock))
    else if o.savePath.Some? && |c.frames| < o.saveAt then Raised(DeviceError(EndedBeforeSave))
    else Value(Verdict(o.allowDrops || Clean(Tally(c.frames))))
  }

  /** A capture whose requested frame was saved as soon as it was dequeued, or refused. */
  ghost predicate Recorded(o: Options, c: Capture)
    requires o.Valid()
  {
    if FlaggedFrame(o, c) then c.file.None? else Snapshot(o, o.savePath.Some? && |c.frames| >= o.saveAt, c)
  }

  /** What the record of a finished run without a failed call looks like. */
  ghost predicate Complete(o: Options, c: Capture, signalAtClock: nat)
    requires o.Valid()
  {
    && (o.listOnly ==> c.settings == IdentifiedAs(o.device))
    && (o.listOnly || !RateFits(o) ==> c.frames == [] && c.file.None? && c.timedOut.None? && c.stopError.None?)
    && (!o.listOnly && RateFits(o) ==>
          && Recorded(o, c) && (c.timedOut.Some? ==> c.timedOut.value == o.timeoutMs)
          && (c.timedOut.None? && !FlaggedFrame(o, c) && c.stopError.None? && signalAtClock == 0 ==>
                LimitReached(o, c)))
  }

  /** The outcome of a run is the one its record calls for, and without a failed call the record
      is complete. */
  ghost predicate Explains(o: Options, r: Attempt<Ending>, c: Capture, signalAtClock: nat)
    requires o.Valid()
  {
    r == Outcome(o, c, signalAtClock) && (c.fatal.None? ==> Complete(o, c, signalAtClock))
  }

  // ---------- One frame ----------

  /** The state at the head of the capture loop. */
  ghost predicate AtHead(device: V4l2Device, stats: CaptureStats, o: Options, saved: bool)
    requires o.Valid()
    reads device, device.os, stats
  {
    var c := device.os.now.cap;
    && device.Flowing({}) && stats.Valid() && stats.history == c.frames
    && Snapshot(o, saved, c) && c.timedOut.None?
    && (o.frameLimit != 0 ==> |c.frames| <= o.frameLimit)
  }

  lemma HeadIsOrderly(o: Options, saved: bool, c: Capture)
    requires o.Valid() && Snapshot(o, saved, c) && (o.frameLimit != 0 ==> |c.frames| <= o.frameLimit)
    ensures Orderly(o, c)
  {
  }

  /** A frame before or after the requested one leaves the snapshot as it is. */
  lemma OtherFrame(o: Options, saved: bool, c: Capture, b: Buffer, data: seq<byte>)
    requires o.Valid() && Snapshot(o, saved, c)
    requires !(o.savePath.Some? && !saved && |c.frames| + 1 == o.saveAt)
    ensures Snapshot(o, saved, Took(c, b, data))
  {
  }

  /** Whatever part of the requested frame was written, the record stays in order. */
  lemma PartlySaved(o: Options, c: Capture, b: Buffer, data: seq<byte>, now: Capture)
    requires o.Valid() && Snapshot(o, false, c) && !b.error
    requires o.savePath.Some? && |c.frames| + 1 == o.saveAt && (o.frameLimit != 0 ==> |c.frames| < o.frameLimit)
    requires SavingPart(Took(c, b, data), now, b.index, o.savePath.value, b.bytesused, now.fatal)
    ensures Orderly(o, now) && now.timedOut == c.timedOut
  {
    var k :| 0 <= k <= b.bytesused && Saving(Took(c, b, data), now, b.index, o.savePath.value, k, now.fatal);
    assert Slice(data, 0, k) == Slice(data, 0, b.bytesused)[..k];
  }

  lemma FullySaved(o: Options, c: Capture, b: Buffer, data: seq<byte>, now: Capture)
    requires o.Valid() && Snapshot(o, false, c) && !b.error
    requires o.savePath.Some? && |c.frames| + 1 == o.saveAt
    requires Saving(Took(c, b, data), now, b.index, o.savePath.value, b.bytesused, None)
    ensures Snapshot(o, true, now)
  {
  }

  lemma FrameReached(h: seq<Frame>, limit: uint64)
    requires |h| <= limit
    ensures Tally(h).frames == |h|
  {
    TallyCountsFrames(h);
  }

  lemma FrameNotYet(o: Options, saved: bool, c: Capture, h: seq<Frame>)
    requires o.Valid() && Snapshot(o, saved, c) && |h| == |c.frames| + 1
    ensures o.savePath.Some? && !saved ==> (Tally(h).frames == o.saveAt <==> |h| == o.saveAt)
  {
    if o.savePath.Some? && !saved {
      FrameReached(h, o.saveAt);
    }
  }

  /** Nothing the record says is out of order, and the run goes on. */
  ghost predicate Unfinished(o: Options, c: Capture)
    requires o.Valid()
  {
    Orderly(o, c) && c.timedOut.None?
  }

  /** The error the loop ends with is the one its record calls for. */
  ghost predicate LoopFailure(o: Options, error: Error, c: Capture)
    requires o.Valid()
  {
    && Orderly(o, c) && c.timedOut.None? && RateFits(o)
    && (c.fatal == Some(error)
        || (c.fatal.None? && error == DeviceError(ErroneousFrame) && FlaggedFrame(o, c)))
  }

  /** Saves the held frame, which is the requested one and not flagged. */
  method SaveRequested(device: V4l2Device, o: Options, buffer: Buffer, ghost before: Capture, ghost data: seq<byte>)
    returns (r: Attempt<()>)
    requires o.Valid() && o.savePath.Some? && Snapshot(o, false, before) && |before.frames| + 1 == o.saveAt
    requires Untroubled(before) && before.timedOut.None? && !buffer.error
    requires o.frameLimit != 0 ==> |before.frames| < o.frameLimit
    requires buffer.index < |device.buffers| && buffer.bytesused <= device.buffers[buffer.index].length
    requires device.Flowing({buffer.index}) && device.os.now.cap == Took(before, buffer, data)
    requires device.os.plan == o && device.At(OpeningFile(buffer, o.savePath.value))
    modifies device.os
    ensures device.Valid() && (!r.Pending? ==> !device.os.now.res.fileOpen)
    ensures device.Stands(r, Requeuing(buffer, false))
    ensures r.Pending? ==> Unfinished(o, device.os.now.cap)
    ensures |device.os.script| <= |old(device.os.script)|
    ensures device.os.now.cap.frames == old(device.os.now.cap.frames)
    ensures r.Value? ==>
      device.Flowing({buffer.index}) && Snapshot(o, true, device.os.now.cap) && device.os.now.cap.timedOut.None?
    ensures r.Raised? ==> r.error.SystemError?
    ensures r.Raised? ==> LoopFailure(o, r.error, device.os.now.cap)
  {
    ghost var now := device.os.now.cap;
    r := device.SaveBuffer(buffer, o.savePath.value);
    if r.Value? {
      FullySaved(o, before, buffer, data, device.os.now.cap);
    } else if !Raises(now, device.os.now.cap, r) {
      PartlySaved(o, before, buffer, data, device.os.now.cap);
    }
  }

  /** What the loop does with a dequeued buffer: count it, save it if it is the one, requeue it. */
  method TakeFrame(device: V4l2Device, stats: CaptureStats, o: Options, buffer: Buffer, saved: bool,
                   ghost before: Capture, ghost data: seq<byte>)
    returns (r: Attempt<bool>)
    requires o.Valid() && Snapshot(o, saved, before) && Untroubled(before) && before.timedOut.None?
    requires o.frameLimit != 0 ==> |before.frames| < o.frameLimit
    requires stats.Valid() && stats.history == before.frames
    requires buffer.index < |device.buffers| && buffer.bytesused <= device.buffers[buffer.index].length
    requires device.Flowing({buffer.index}) && device.os.now.cap == Took(before, buffer, data)
    requires device.os.plan == o && device.At(TakenPoint(o, |before.frames| + 1, buffer))
    modifies device.os, stats
    ensures device.Valid() && (!r.Pending? ==> !device.os.now.res.fileOpen)
    ensures device.Stands(r, Reporting)
    ensures r.Pending? ==> Unfinished(o, device.os.now.cap)
    ensures |device.os.script| <= |old(device.os.script)|
    ensures r.Value? ==> AtHead(device, stats, o, r.value)
    ensures r == Raised(DeviceError(ErroneousFrame)) ==> device.Flowing({})
    ensures r.Raised? ==> LoopFailure(o, r.error, device.os.now.cap)
  {
    stats.AddFrame(buffer.sequence, Timestamp(buffer), buffer.error);
    FrameNotYet(o, saved, before, stats.history);
    var savedNow := saved;
    if o.savePath.Some? && !saved && stats.frames == o.saveAt {
      if buffer.error {
        r := RefuseFlagged(device, o, buffer, saved, before, data);
        return;
      }
      var _ :- SaveRequested(device, o, buffer, before, data);
      savedNow := true;
    } else {
      OtherFrame(o, saved, before, buffer, data);
    }
    HeadIsOrderly(o, savedNow, device.os.now.cap);
    r := RequeueTaken(device, stats, o, buffer, savedNow);
  }

  /** Gives the requested frame back to the driver, because it is flagged. */
  method RefuseFlagged(device: V4l2Device, o: Options, buffer: Buffer, saved: bool,
                       ghost before: Capture, ghost data: seq<byte>)
    returns (r: Attempt<bool>)
    requires o.Valid() && Snapshot(o, saved, before) && Untroubled(before) && before.timedOut.None?
    requires o.frameLimit != 0 ==> |before.frames| < o.frameLimit
    requires o.savePath.Some? && !saved && |before.frames| + 1 == o.saveAt && buffer.error
    requires buffer.index < |device.buffers|
    requires device.Flowing({buffer.index}) && device.os.now.cap == Took(before, buffer, data)
    requires device.os.plan == o && device.At(Requeuing(buffer, true))
    modifies device.os
    ensures device.Valid() && !device.os.now.res.fileOpen && !r.Value?
    ensures device.Stands(r, Reporting)
    ensures r.Pending? ==> Unfinished(o, device.os.now.cap)
    ensures |device.os.script| <= |old(device.os.script)|
    ensures r == Raised(DeviceError(ErroneousFrame)) ==> device.Flowing({})
    ensures r.Raised? ==> LoopFailure(o, r.error, device.os.now.cap)
  {
    OtherFrameRecord(o, saved, before, buffer, data);
    var _ :- device.Requeue(buffer);
    r := Raised(DeviceError(ErroneousFrame));
  }

  /** A frame that is not saved leaves the record in order. */
  lemma OtherFrameRecord(o: Options, saved: bool, c: Capture, b: Buffer, data: seq<byte>)
    requires o.Valid() && Snapshot(o, saved, c) && (o.frameLimit != 0 ==> |c.frames| < o.frameLimit)
    ensures Orderly(o, Took(c, b, data))
  {
  }

  /** Gives the frame back to the driver; the loop can go on. */
  method RequeueTaken(device: V4l2Device, stats: CaptureStats, o: Options, buffer: Buffer, saved: bool)
    returns (r: Attempt<bool>)
    requires o.Valid() && Snapshot(o, saved, device.os.now.cap) && Unfinished(o, device.os.now.cap)
    requires buffer.index < |device.buffers| && device.Flowing({buffer.index})
    requires stats.Valid() && stats.history == device.os.now.cap.frames
    requires device.os.plan == o && device.At(Requeuing(buffer, false))
    modifies device.os
    ensures device.Valid() && !device.os.now.res.fileOpen
    ensures device.Stands(r, Reporting)
    ensures r.Pending? ==> Unfinished(o, device.os.now.cap)
    ensures |device.os.script| <= |old(device.os.script)|
    ensures r.Value? ==> AtHead(device, stats, o, r.value)
    ensures r.Raised? ==> r.error.SystemError?
    ensures r.Raised? ==> LoopFailure(o, r.error, device.os.now.cap)
  {
    var _ :- device.Requeue(buffer);
    r := Value(saved);
  }

  // ---------- The loop and the verdict ----------

  /** Reads the clock in the loop: whether the duration is over. */
  method LoopClock(device: V4l2Device, stats: CaptureStats, o: Options, saved: bool) returns (r: Attempt<bool>)
    requires o.Valid() && AtHead(device, stats, o, saved)
    requires device.os.plan == o && device.At(device.os.flow.point) && IsClock(device.os.flow.point)
    modifies device.os
    ensures AtHead(device, stats, o, saved)
    ensures device.os.now.cap.frames == old(device.os.now.cap.frames)
    ensures !r.Raised? && (r.Pending? ==> device.os.Cut())
    ensures r.Value? ==> device.os.flow == ClockedFlow(o, old(device.os.flow), device.os.now, r.value)
    ensures |device.os.script| <= |old(device.os.script)| && (r.Value? ==> |device.os.script| < |old(device.os.script)|)
    ensures r == Value(true) ==> device.os.now.cap.elapsed
  {
    r := device.Clock();
  }

  /** Takes the next filled buffer, if there is one: whether the requested frame is saved then. */
  method NextFrame(device: V4l2Device, stats: CaptureStats, o: Options, saved: bool)
    returns (r: Attempt<bool>)
    requires o.Valid() && AtHead(device, stats, o, saved) && device.os.stopSignal == 0
    requires o.frameLimit != 0 ==> |stats.history| < o.frameLimit
    requires device.os.plan == o && device.At(Dequeuing)
    modifies device.os, stats
    ensures device.Valid() && (!r.Pending? ==> !device.os.now.res.fileOpen)
    ensures device.Stands(r, HeadPoint(device.os.stopSignal))
    ensures r.Pending? ==> Unfinished(o, device.os.now.cap)
    ensures |device.os.script| <= |old(device.os.script)|
    ensures r.Raised? ==> LoopFailure(o, r.error, device.os.now.cap)
    ensures r.Value? ==> AtHead(device, stats, o, r.value)
  {
    ghost var before := device.os.now.cap;
    HeadIsOrderly(o, saved, before);
    var maybeBuffer :- device.Dequeue();
    if maybeBuffer.None? {
      return Value(saved);
    }
    ghost var data :| device.os.now.cap == Took(before, maybeBuffer.value, data);
    r := FinishFrame(device, stats, o, maybeBuffer.value, saved, before, data);
  }

  /** Takes the frame, and then reads the clock for the progress report. */
  method FinishFrame(device: V4l2Device, stats: CaptureStats, o: Options, buffer: Buffer, saved: bool,
                     ghost before: Capture, ghost data: seq<byte>)
    returns (r: Attempt<bool>)
    requires o.Valid() && Snapshot(o, saved, before) && Untroubled(before) && before.timedOut.None?
    requires o.frameLimit != 0 ==> |before.frames| < o.frameLimit
    requires stats.Valid() && stats.history == before.frames
    requires buffer.index < |device.buffers| && buffer.bytesused <= device.buffers[buffer.index].length
    requires device.Flowing({buffer.index}) && device.os.now.cap == Took(before, buffer, data)
    requires device.os.plan == o && device.At(TakenPoint(o, |before.frames| + 1, buffer))
    modifies device.os, stats
    ensures device.Valid() && (!r.Pending? ==> !device.os.now.res.fileOpen)
    ensures device.Stands(r, HeadPoint(device.os.stopSignal))
    ensures r.Pending? ==> Unfinished(o, device.os.now.cap)
    ensures |device.os.script| <= |old(device.os.script)|
    ensures r.Value? ==> AtHead(device, stats, o, r.value)
    ensures r.Raised? ==> LoopFailure(o, r.error, device.os.now.cap)
  {
    var savedNow :- TakeFrame(device, stats, o, buffer, saved, before, data);
    r := EndRound(device, stats, o, savedNow);
  }

  /** How one round of the loop goes on. */
  datatype Round = Again(saved: bool) | NoFrame | SignalSeen

  /** One round after the limits were checked: wait, dequeue, and take the frame if there is one. */
  method AwaitFrame(device: V4l2Device, stats: CaptureStats, o: Options, saved: bool) returns (r: Attempt<Round>)
    requires o.Valid() && AtHead(device, stats, o, saved)
    requires o.frameLimit != 0 ==> |stats.history| < o.frameLimit
    requires device.os.plan == o && device.At(Polling)
    modifies device.os, stats
    ensures device.Valid() && (!r.Pending? ==> !device.os.now.res.fileOpen)
    ensures if r == Value(NoFrame) then device.Unwinding() else device.Stands(r, HeadPoint(device.os.stopSignal))
    ensures r.Pending? ==> Unfinished(o, device.os.now.cap)
    ensures |device.os.script| <= |old(device.os.script)|
    ensures r.Raised? ==> LoopFailure(o, r.error, device.os.now.cap)
    ensures r == Value(NoFrame) ==>
      && device.os.now.cap == old(device.os.now.cap).(timedOut := Some(o.timeoutMs))
    ensures r == Value(SignalSeen) ==> AtHead(device, stats, o, saved) && device.os.stopSignal != 0
    ensures r.Value? && r.value.Again? ==> AtHead(device, stats, o, r.value.saved)
  {
    var waited :- WaitRound(device, stats, o, saved);
    if waited.Some? {
      return Value(waited.value);
    }
    var savedNow :- NextFrame(device, stats, o, saved);
    r := Value(Again(savedNow));
  }

  /** Waits for a frame: how the round ends if there is nothing to dequeue. */
  method WaitRound(device: V4l2Device, stats: CaptureStats, o: Options, saved: bool)
    returns (r: Attempt<Option<Round>>)
    requires o.Valid() && AtHead(device, stats, o, saved)
    requires device.os.plan == o && device.At(Polling)
    modifies device.os
    ensures device.Valid() && (!r.Pending? ==> !device.os.now.res.fileOpen)
    ensures if r == Value(Some(NoFrame)) then device.Unwinding()
            else device.Stands(r, if r == Value(None) then Dequeuing else HeadPoint(device.os.stopSignal))
    ensures r.Pending? ==> Unfinished(o, device.os.now.cap)
    ensures |device.os.script| <= |old(device.os.script)|
    ensures r.Raised? ==> LoopFailure(o, r.error, device.os.now.cap)
    ensures r.Value? && r.value != None ==> r.value == Some(NoFrame) || r.value == Some(SignalSeen)
    ensures r == Value(Some(NoFrame)) ==> device.os.now.cap == old(device.os.now.cap).(timedOut := Some(o.timeoutMs))
    ensures r == Value(Some(SignalSeen)) ==> AtHead(device, stats, o, saved) && device.os.stopSignal != 0
    ensures r == Value(None) ==>
      && AtHead(device, stats, o, saved) && device.os.stopSignal == 0
  {
    HeadIsOrderly(o, saved, device.os.now.cap);
    var ready :- device.WaitForFrame(o.timeoutMs);
    if !ready {
      return Value(Some(NoFrame));
    }
    r := Value(if device.os.stopSignal != 0 then Some(SignalSeen) else None);
  }

  /** Reads the clock for the progress report. */
  method EndRound(device: V4l2Device, stats: CaptureStats, o: Options, saved: bool) returns (r: Attempt<bool>)
    requires o.Valid() && AtHead(device, stats, o, saved)
    requires device.os.plan == o && device.At(Reporting)
    modifies device.os
    ensures AtHead(device, stats, o, saved) && Unfinished(o, device.os.now.cap)
    ensures |device.os.script| <= |old(device.os.script)|
    ensures if r.Pending? then device.os.Cut() else r == Value(saved) && device.At(HeadPoint(device.os.stopSignal))
  {
    var _ :- LoopClock(device, stats, o, saved);
    HeadIsOrderly(o, saved, device.os.now.cap);
    r := Value(saved);
  }

  /** The capture loop: none after a timeout, otherwise whether the requested frame was saved. */
  method CaptureLoop(device: V4l2Device, stats: CaptureStats, o: Options) returns (r: Attempt<Option<bool>>)
    requires o.Valid() && AtHead(device, stats, o, false)
    requires device.os.plan == o && device.At(HeadPoint(device.os.stopSignal))
    modifies device.os, stats
    ensures device.Valid() && (!r.Pending? ==> !device.os.now.res.fileOpen)
    ensures if r == Value(None) then device.Unwinding() else device.Stands(r, Stopping)
    ensures r.Pending? ==> Unfinished(o, device.os.now.cap)
    ensures r.Raised? ==> LoopFailure(o, r.error, device.os.now.cap)
    ensures r == Value(None) ==>
      && device.os.now.cap.timedOut == Some(o.timeoutMs) && Untroubled(device.os.now.cap)
      && Snapshot(o, o.savePath.Some? && |device.os.now.cap.frames| >= o.saveAt, device.os.now.cap)
      && Orderly(o, device.os.now.cap)
    ensures r.Value? && r.value.Some? ==>
      && AtHead(device, stats, o, r.value.value)
      && (device.os.stopSignal != 0 || LimitReached(o, device.os.now.cap))
  {
    var os := device.os;
    var saved := false;
    while os.stopSignal == 0
      invariant AtHead(device, stats, o, saved) && device.At(HeadPoint(os.stopSignal))
      decreases |os.script|
    {
      HeadIsOrderly(o, saved, os.now.cap);
      var reached :- AtALimit(device, stats, o, saved);
      if reached {
        break;
      }
      ghost var before := os.now.cap;
      var round :- AwaitFrame(device, stats, o, saved);
      if round.NoFrame? {
        TimeoutRecord(o, saved, before);
        return Value(None);
      }
      if round.SignalSeen? {
        break;
      }
      saved := round.saved;
    }
    r := Value(Some(saved));
  }

  /** Looks at the limits of the run. */
  method AtALimit(device: V4l2Device, stats: CaptureStats, o: Options, saved: bool) returns (r: Attempt<bool>)
    requires o.Valid() && AtHead(device, stats, o, saved)
    requires device.os.plan == o && device.At(AtLimits)
    modifies device.os
    ensures AtHead(device, stats, o, saved) && Unfinished(o, device.os.now.cap)
    ensures |device.os.script| <= |old(device.os.script)| && (r.Value? ==> |device.os.script| < |old(device.os.script)|)
    ensures !r.Raised? && device.Stands(r, if r == Value(true) then Stopping else Polling)
    ensures r == Value(true) ==> LimitReached(o, device.os.now.cap)
    ensures r == Value(false) ==> (o.frameLimit != 0 ==> |stats.history| < o.frameLimit)
  {
    HeadIsOrderly(o, saved, device.os.now.cap);
    var elapsed :- LoopClock(device, stats, o, saved);
    HeadIsOrderly(o, saved, device.os.now.cap);
    FrameLimitSeen(o, stats.history);
    r := Value((o.frameLimit != 0 && stats.frames >= o.frameLimit) || (o.durationSeconds > 0.0 && elapsed));
  }

  lemma TimeoutRecord(o: Options, saved: bool, c: Capture)
    requires o.Valid() && Snapshot(o, saved, c) && (o.frameLimit != 0 ==> |c.frames| <= o.frameLimit)
    ensures var d := c.(timedOut := Some(o.timeoutMs));
      Snapshot(o, o.savePath.Some? && |d.frames| >= o.saveAt, d) && Orderly(o, d)
  {
  }

  lemma FrameLimitSeen(o: Options, h: seq<Frame>)
    requires o.frameLimit != 0 ==> |h| <= o.frameLimit
    ensures o.frameLimit != 0 ==> (Tally(h).frames >= o.frameLimit <==> |h| == o.frameLimit)
  {
    if o.frameLimit != 0 {
      FrameReached(h, o.frameLimit);
    }
  }

  // ---------- A whole run ----------

  /** The result of a run whose loop and stream have ended. */
  function Decision(o: Options, saved: bool, signal: nat, c: Counters): Attempt<Ending> {
    if signal != 0 then Value(Interrupted(signal))
    else if o.savePath.Some? && !saved then Raised(DeviceError(EndedBeforeSave))
    else Value(Verdict(Clean(c) || o.allowDrops))
  }

  /** The record when the loop has ended without a failure. */
  ghost predicate Concluding(o: Options, saved: bool, c: Capture)
    requires o.Valid()
  {
    && Snapshot(o, saved, c) && Untroubled(c) && c.timedOut.None?
    && (o.frameLimit != 0 ==> |c.frames| <= o.frameLimit)
  }

  lemma ClockKeeps(o: Options, saved: bool, c: Capture, d: Capture)
    requires o.Valid() && Concluding(o, saved, c) && (d == c || d == c.(elapsed := true))
    ensures Concluding(o, saved, d) && (LimitReached(o, c) ==> LimitReached(o, d)) && Orderly(o, d)
    ensures d.frames == c.frames
  {
  }

  lemma DecisionExplains(o: Options, saved: bool, signal: nat, c: Capture)
    requires o.Valid() && o.SaveWithinFrames() && !o.listOnly && Concluding(o, saved, c)
    requires signal == 0 ==> LimitReached(o, c)
    ensures Orderly(o, c) && Explains(o, Decision(o, saved, signal, Tally(c.frames)), c, signal)
  {
  }

  /** After the loop: the stream is stopped, then the result is decided. */
  method Conclude(device: V4l2Device, stats: CaptureStats, o: Options, saved: bool) returns (r: Attempt<Ending>)
    requires o.Valid() && o.SaveWithinFrames() && !o.listOnly && AtHead(device, stats, o, saved)
    requires device.os.stopSignal != 0 || LimitReached(o, device.os.now.cap)
    requires device.os.plan == o && device.At(Stopping)
    modifies device, device.os
    ensures device.Valid() && !device.os.now.res.fileOpen
    ensures if r.Pending? then device.os.Cut() else device.Unwinding()
    ensures Decided(r, device.os.now.cap) ==> !device.streaming
    ensures Orderly(o, device.os.now.cap)
    ensures !r.Pending? ==> Explains(o, r, device.os.now.cap, device.os.now.signalAtClock)
  {
    var _ :- StopLoop(device, o, saved);
    r := ConcludeStopped(device, stats, o, saved);
  }

  /** Stops the stream after the loop. */
  method StopLoop(device: V4l2Device, o: Options, saved: bool) returns (r: Attempt<()>)
    requires o.Valid() && !o.listOnly && device.Flowing({}) && Concluding(o, saved, device.os.now.cap)
    requires device.os.plan == o && device.At(Stopping)
    requires device.os.stopSignal != 0 || LimitReached(o, device.os.now.cap)
    modifies device, device.os
    ensures device.Valid() && !device.os.now.res.fileOpen && device.Stands(r, Finishing)
    ensures Orderly(o, device.os.now.cap)
    ensures !r.Raised? ==> device.os.now.cap == old(device.os.now.cap)
    ensures r.Value? ==>
      && !device.streaming && (device.os.stopSignal != 0 || LimitReached(o, device.os.now.cap))
    ensures r.Raised? ==>
      && Explains(o, Raised(r.error), device.os.now.cap, device.os.now.signalAtClock)
      && !Decided(Raised(r.error), device.os.now.cap)
  {
    ghost var c := device.os.now.cap;
    ClockKeeps(o, saved, c, c);
    r := device.StopStreaming();
    if r.Raised? {
      StopExplains(o, saved, c, r.error.errno, device.os.now.signalAtClock);
    }
  }

  method ConcludeStopped(device: V4l2Device, stats: CaptureStats, o: Options, saved: bool) returns (r: Attempt<Ending>)
    requires o.Valid() && o.SaveWithinFrames() && !o.listOnly && device.os.plan == o
    requires device.Valid() && !device.os.now.res.fileOpen && !device.streaming && device.At(Finishing)
    requires Concluding(o, saved, device.os.now.cap) && stats.Valid() && stats.history == device.os.now.cap.frames
    requires device.os.stopSignal != 0 || LimitReached(o, device.os.now.cap)
    modifies device.os
    ensures device.Valid() && !device.os.now.res.fileOpen
    ensures if r.Pending? then device.os.Cut() else device.Unwinding()
    ensures Orderly(o, device.os.now.cap)
    ensures !r.Pending? ==> Explains(o, r, device.os.now.cap, device.os.now.signalAtClock)
  {
    ghost var c := device.os.now.cap;
    ClockKeeps(o, saved, c, c);
    var _ :- LastClock(device, o);
    ClockKeeps(o, saved, c, device.os.now.cap);
    DecisionExplains(o, saved, device.os.stopSignal, device.os.now.cap);
    r := Decide(stats, o, saved, device.os.stopSignal);
  }

  /** Reads the clock once the stream is off. */
  method LastClock(device: V4l2Device, o: Options) returns (r: Attempt<()>)
    requires device.Valid() && !device.os.now.res.fileOpen && device.os.plan == o && device.At(Finishing)
    modifies device.os
    ensures device.Valid() && !device.os.now.res.fileOpen
    ensures var c, d := old(device.os.now.cap), device.os.now.cap; d == c || d == c.(elapsed := true)
    ensures if r.Pending? then device.os.Cut() else r.Value? && device.Unwinding()
    ensures r.Value? ==> device.os.now.signalAtClock == device.os.stopSignal
    ensures old(device.os.stopSignal) != 0 ==> device.os.stopSignal != 0
  {
    var _ :- device.Clock();
    r := Value(());
  }

  lemma StopExplains(o: Options, saved: bool, c: Capture, errno: nat, signalAtClock: nat)
    requires o.Valid() && !o.listOnly && Concluding(o, saved, c)
    ensures var d := c.(stopError := Some(errno));
      Orderly(o, d) && Explains(o, Raised(SystemError(StreamOff, errno)), d, signalAtClock)
  {
  }

  /** The result once the stream is off: of the signal, the missing frame, and the counters. */
  method Decide(stats: CaptureStats, o: Options, saved: bool, stopSignal: nat) returns (r: Attempt<Ending>)
    requires stats.Valid()
    ensures r == Decision(o, saved, stopSignal, Tally(stats.history))
  {
    if stopSignal != 0 {
      return Value(Interrupted(stopSignal));
    }
    if o.savePath.Some? && !saved {
      return Raised(DeviceError(EndedBeforeSave));
    }
    var sequenceOk := stats.dropped == 0 && stats.discontinuities == 0 && stats.bufferErrors == 0;
    r := Value(Verdict(sequenceOk || o.allowDrops));
  }

  method EnumerateFormats(device: V4l2Device) returns (r: Attempt<()>)
    requires device.Prepared() && device.At(Listing(0))
    modifies device.os
    ensures device.Waiting() && Raises(old(device.os.now.cap), device.os.now.cap, r)
    ensures if r.Pending? then device.os.Cut() else device.Unwinding()
  {
    var index := 0;
    while true
      invariant device.At(Listing(index)) && device.Prepared() && device.os.now.cap == old(device.os.now.cap)
      decreases |device.os.script|
    {
      ghost var f := device.os.flow;
      var format := device.Ask(EnumerateFormat(index));
      if format.None? {
        return Pending;
      }
      ListingMoves(device.os.plan, f, device.os.now, Entry(EnumerateFormat(index), format.value), device.os.flow);
      if format.value.errno == EINVAL {
        return Value(());
      }
      if format.value.errno != 0 {
        return Raised(SystemError(EnumerateFormat(index), format.value.errno));
      }
      index := index + 1;
    }
  }

  /** An error raised before streaming: one a reply called for, or a rate no fraction can hold. */
  ghost predicate SetupFailure(o: Options, error: Error, c: Capture) {
    || c == Noting(START.cap.(settings := c.settings), Some(error))
    || (OnlySettings(START.cap, c) && error == UsageError(RateTooLarge) && !o.listOnly && !RateFits(o))
  }

  lemma SetupExplains(o: Options, error: Error, c: Capture, signalAtClock: nat)
    requires o.Valid() && SetupFailure(o, error, c)
    ensures Explains(o, Raised(error), c, signalAtClock) && Orderly(o, c)
  {
  }

  /** The sensor mode, unless it is not to be set. */
  method SetSensorMode(device: V4l2Device, mode: int) returns (r: Attempt<()>)
    requires device.Prepared() && device.At(QueryingMode(mode))
    modifies device.os
    ensures device.Waiting()
    ensures Raises(if r.Value? then WithMode(old(device.os.now.cap), mode) else old(device.os.now.cap),
                   device.os.now.cap, r)
    ensures device.Stands(r, SettingFormat)
  {
    var control :- device.Control(QueryMode(mode));
    if HasBit(control.value, CTRL_READ_ONLY) {
      return Raised(DeviceError(ModeReadOnly));
    }
    if mode < control.range.0 || mode > control.range.1 {
      return Raised(UsageError(ModeOutOfRange));
    }
    var _ :- device.Control(SetMode(mode));
    r := Value(());
  }

  ghost function WithMode(c: Capture, mode: int): Capture {
    c.(settings := c.settings.(mode := Some(mode)))
  }

  /** The calls that set up the device: sensor mode, format and frame rate. */
  method Configure(device: V4l2Device, o: Options) returns (r: Attempt<()>)
    requires o.Valid() && !o.listOnly && device.Prepared()
    requires device.os.now.cap == START.cap.(settings := IdentifiedAs(o.device))
    requires device.buffers == []
    requires device.os.plan == o
    requires device.At(if o.sensorMode.Some? then QueryingMode(o.sensorMode.value) else SettingFormat)
    modifies device.os
    ensures device.Waiting()
    ensures !r.Raised? ==> OnlySettings(START.cap, device.os.now.cap)
    ensures device.Stands(r, Requesting)
    ensures r.Raised? ==> SetupFailure(o, r.error, device.os.now.cap)
    ensures r.Value? ==> RateFits(o) && device.os.now.cap.settings == Wanted(o).(buffers := None)
  {
    if o.sensorMode.Some? {
      var _ :- SetSensorMode(device, o.sensorMode.value);
    }
    var _ :- device.Control(SetFormat(o.width, o.height, o.pixelFormat));
    var fraction := TimePerFrame(o.fps);
    if fraction.Failure? {
      return Raised(UsageError(fraction.error));
    }
    var _ :- device.Control(SetParameters(fraction.value.0, fraction.value.1));
    r := Value(());
  }

  /** From the capability query to the mapped buffers: false after a listing, which needs none. */
  method SetUp(device: V4l2Device, o: Options) returns (r: Attempt<bool>)
    requires o.Valid() && device.Prepared() && device.buffers == []
    requires device.os.now.cap == AttachedTo(o.device)
    requires device.os.plan == o && device.At(Identifying)
    modifies device, device.os
    ensures device.Waiting()
    ensures !r.Raised? ==> OnlySettings(START.cap, device.os.now.cap)
    ensures if r == Value(false) then device.Unwinding() else device.Stands(r, Queuing(0))
    ensures r == Value(true) ==> device.buffers != []
    ensures r.Raised? ==> SetupFailure(o, r.error, device.os.now.cap)
    ensures r == Value(false) ==> device.os.now.cap.settings == IdentifiedAs(o.device)
    ensures r.Value? ==> r.value == !o.listOnly && (r.value ==> RateFits(o) && device.os.now.cap.settings == Wanted(o))
  {
    var capability :- device.Control(QueryCapabilities);
    var capabilities := Capabilities(capability);
    if !HasBit(capabilities, CAP_VIDEO_CAPTURE) {
      return Raised(DeviceError(NotACaptureDevice));
    }
    if !HasBit(capabilities, CAP_STREAMING) {
      return Raised(DeviceError(NoStreaming));
    }
    if o.listOnly {
      var _ :- EnumerateFormats(device);
      return Value(false);
    }
    var _ :- Configure(device, o);
    var _ :- device.AllocateBuffers(o.bufferCount);
    r := Value(true);
  }

  /** From the start of the stream to the result. */
  method Record(device: V4l2Device, o: Options) returns (r: Attempt<Ending>)
    requires o.Valid() && o.SaveWithinFrames() && !o.listOnly
    requires device.Prepared() && OnlySettings(START.cap, device.os.now.cap)
    requires RateFits(o) && device.os.now.cap.settings == Wanted(o)
    requires device.os.plan == o && device.At(Queuing(0)) && device.buffers != []
    modifies device, device.os
    ensures device.Valid() && (!r.Pending? ==> !device.os.now.res.fileOpen)
    ensures if r.Pending? then device.os.Cut() else device.Unwinding()
    ensures Decided(r, device.os.now.cap) ==> !device.streaming
    ensures Orderly(o, device.os.now.cap)
    ensures !r.Pending? ==> Explains(o, r, device.os.now.cap, device.os.now.signalAtClock)
  {
    var _ :- Start(device, o);
    r := Stream(device, o);
  }

  /** From the first look at the limits to the result. */
  method Stream(device: V4l2Device, o: Options) returns (r: Attempt<Ending>)
    requires o.Valid() && o.SaveWithinFrames() && !o.listOnly
    requires device.Flowing({}) && Snapshot(o, false, device.os.now.cap) && Unfinished(o, device.os.now.cap)
    requires device.os.plan == o && device.At(HeadPoint(device.os.stopSignal)) && device.os.now.cap.frames == []
    modifies device, device.os
    ensures device.Valid() && (!r.Pending? ==> !device.os.now.res.fileOpen)
    ensures if r.Pending? then device.os.Cut() else device.Unwinding()
    ensures Decided(r, device.os.now.cap) ==> !device.streaming
    ensures Orderly(o, device.os.now.cap)
    ensures !r.Pending? ==> Explains(o, r, device.os.now.cap, device.os.now.signalAtClock)
  {
    var stats := new CaptureStats();
    var saved :- Capturing(device, stats, o);
    if saved.None? {
      return Value(TimedOut);
    }
    r := Conclude(device, stats, o, saved.value);
  }

  /** The capture loop, with what its failure or timeout means for the run. */
  method Capturing(device: V4l2Device, stats: CaptureStats, o: Options) returns (r: Attempt<Option<bool>>)
    requires o.Valid() && !o.listOnly && AtHead(device, stats, o, false)
    requires device.os.plan == o && device.At(HeadPoint(device.os.stopSignal))
    modifies device.os, stats
    ensures device.Valid() && (!r.Pending? ==> !device.os.now.res.fileOpen)
    ensures if r == Value(None) then device.Unwinding() else device.Stands(r, Stopping)
    ensures Orderly(o, device.os.now.cap)
    ensures r.Raised? ==>
      && Explains(o, Raised(r.error), device.os.now.cap, device.os.now.signalAtClock)
      && !Decided(Raised(r.error), device.os.now.cap)
    ensures r == Value(None) ==> Explains(o, Value(TimedOut), device.os.now.cap, device.os.now.signalAtClock)
    ensures r.Value? && r.value.Some? ==>
      && AtHead(device, stats, o, r.value.value)
      && (device.os.stopSignal != 0 || LimitReached(o, device.os.now.cap))
  {
    r := CaptureLoop(device, stats, o);
    if r.Raised? {
      FailureExplains(o, r.error, device.os.now.cap, device.os.now.signalAtClock);
    } else if r == Value(None) {
      TimeoutExplains(o, device.os.now.cap, device.os.now.signalAtClock);
    } else if r.Value? {
      HeadIsOrderly(o, r.value.value, device.os.now.cap);
    }
  }

  lemma TimeoutExplains(o: Options, c: Capture, signalAtClock: nat)
    requires o.Valid() && !o.listOnly && c.timedOut == Some(o.timeoutMs) && Untroubled(c)
    requires Snapshot(o, o.savePath.Some? && |c.frames| >= o.saveAt, c)
    ensures Explains(o, Value(TimedOut), c, signalAtClock)
  {
  }

  /** Queues the buffers and starts the stream. */
  method Start(device: V4l2Device, o: Options) returns (r: Attempt<()>)
    requires o.Valid() && device.Prepared() && OnlySettings(START.cap, device.os.now.cap)
    requires RateFits(o) && device.os.now.cap.settings == Wanted(o)
    requires device.os.plan == o && device.At(Queuing(0)) && device.buffers != []
    modifies device, device.os
    ensures device.Valid() && !device.os.now.res.fileOpen
    ensures device.Stands(r, HeadPoint(device.os.stopSignal))
    ensures !r.Raised? ==>
      && device.os.now.cap == old(device.os.now.cap)
      && Orderly(o, device.os.now.cap) && Snapshot(o, false, device.os.now.cap)
    ensures r.Value? ==> device.Flowing({})
    ensures r.Raised? ==> device.os.now.cap.fatal.Some?
    ensures r.Raised? ==>
      Explains(o, Raised(r.error), device.os.now.cap, device.os.now.signalAtClock) && Orderly(o, device.os.now.cap)
  {
    r := device.StartStreaming();
    if r.Raised? {
      SetupExplains(o, r.error, device.os.now.cap, device.os.now.signalAtClock);
    }
  }

  lemma FailureExplains(o: Options, error: Error, c: Capture, signalAtClock: nat)
    requires o.Valid() && !o.listOnly && LoopFailure(o, error, c)
    ensures Explains(o, Raised(error), c, signalAtClock) && !Decided(Raised(error), c)
  {
  }

  /** Everything between opening the device and its destruction. */
  method UseDevice(device: V4l2Device, o: Options) returns (r: Attempt<Ending>)
    requires o.Valid() && o.SaveWithinFrames()
    requires device.Prepared() && device.buffers == [] && device.os.now.cap == AttachedTo(o.device)
    requires device.os.plan == o && device.At(Identifying)
    modifies device, device.os
    ensures device.Valid() && (!r.Pending? ==> !device.os.now.res.fileOpen)
    ensures if r.Pending? then device.os.Cut() else device.Unwinding()
    ensures Decided(r, device.os.now.cap) ==> !device.streaming
    ensures Orderly(o, device.os.now.cap)
    ensures !r.Pending? ==> Explains(o, r, device.os.now.cap, device.os.now.signalAtClock)
  {
    var ready := SetUp(device, o);
    if ready.Raised? {
      SetupExplains(o, ready.error, device.os.now.cap, device.os.now.signalAtClock);
    }
    var streams :- ready;
    if !streams {
      return Value(Listed);
    }
    r := Record(device, o);
  }

  // ---------- At every moment ----------

  /** Records only grow, so a record in order was in order all along. */
  lemma OrderlyBefore(o: Options, c: Capture, d: Capture)
    requires o.Valid() && WellKept(c) && Grows(c, d) && Orderly(o, d)
    ensures Orderly(o, c)
  {
    forall i | 0 <= i < |c.taken| ensures c.taken[i] == Wanted(o) {
      assert c.taken[i] == d.taken[i];
    }
    if c.file.Some? {
      assert d.openings == c.openings;
      assert c.openings[0] == o.saveAt;
    }
  }

  lemma {:induction false} OrderlyAllAlong(log: seq<Entry>, o: Options, k: nat)
    requires k <= |log| && o.Valid() && Orderly(o, Replay(log).cap)
    ensures Orderly(o, Replay(log[..k]).cap)
    decreases |log|
  {
    if k == |log| {
      assert log[..k] == log;
    } else {
      var n := |log| - 1;
      RecordWellKept(log[..n]);
      StepKeepsRecord(Replay(log[..n]), log[n]);
      OrderlyBefore(o, Replay(log[..n]).cap, Replay(log).cap);
      OrderlyAllAlong(log[..n], o, k);
      assert log[..n][..k] == log[..k];
    }
  }

  /** Whatever the moment: the program broke no rule, and the record is in order. */
  ghost predicate GoodAt(log: seq<Entry>, o: Options, k: nat)
    requires k <= |log| && o.Valid()
  {
    Safe(Replay(log[..k])) && Orderly(o, Replay(log[..k]).cap)
  }

  lemma GoodAllAlong(log: seq<Entry>, o: Options)
    requires o.Valid() && Safe(Replay(log)) && Orderly(o, Replay(log).cap)
    ensures forall k :: 0 <= k <= |log| ==> GoodAt(log, o, k)
  {
    forall k | 0 <= k <= |log| ensures GoodAt(log, o, k) {
      OrderlyAllAlong(log, o, k);
      if k < |log| {
        EveryCallAllowed(log, k);
      } else {
        assert log[..k] == log;
      }
    }
  }

  /** A run on a fresh process. Each of its calls is the one that has to come, and it is not over
      exactly when another has to. Its log holds the replies of the environment, all of them if the
      run is not over. Whatever they are, the program never broke a rule of the resources or the
      streaming protocol and the record was always in order; when the run is over, everything is
      released and the outcome is the one the record calls for. */
  method RunCapture(os: Kernel, o: Options) returns (r: Attempt<Ending>)
    requires o.Valid() && o.SaveWithinFrames() && os.plan == o && os.Valid() && os.log == []
    modifies os
    ensures os.Valid() && os.now == Replay(os.log) && Safe(os.now) && Orderly(o, os.now.cap)
    ensures Replies(os.log) <= os.environment && (r.Pending? ==> Replies(os.log) == os.environment)
    ensures Follows(o, os.log) && (!r.Pending? <==> Whole(o, os.log))
    ensures forall k :: 0 <= k <= |os.log| ==> GoodAt(os.log, o, k)
    ensures !r.Pending? ==> Released(os.now.res) && Explains(o, r, os.now.cap, os.now.signalAtClock)
  {
    RecordsReplay([], os.now, os.interruptions);
    TracesFlow(o, [], os.flow);
    r := Live(os, o);
    RecordOfLog(os.log, os.now, os.interruptions, o);
    CourseOfLog(os.log, os.flow, o);
  }

  /** What the environment's fields say about the log of a run. */
  lemma RecordOfLog(log: seq<Entry>, s: Session, interruptions: nat, o: Options)
    requires o.Valid() && Records(log, s, interruptions) && Safe(s) && Orderly(o, s.cap)
    ensures s == Replay(log) && forall k :: 0 <= k <= |log| ==> GoodAt(log, o, k)
  {
    RecordsReplay(log, s, interruptions);
    GoodAllAlong(log, o);
  }

  lemma CourseOfLog(log: seq<Entry>, f: Flow, o: Options)
    requires o.Valid() && Traces(o, log, f)
    ensures Follows(o, log) && FlowOf(o, log) == f
  {
    TracesFlow(o, log, f);
  }

  /** The life of the device object. */
  method Live(os: Kernel, o: Options) returns (r: Attempt<Ending>)
    requires o.Valid() && o.SaveWithinFrames() && os.Valid() && os.now == START
    requires os.plan == o && os.flow == START_FLOW
    modifies os
    ensures os.Valid() && Safe(os.now) && Orderly(o, os.now.cap)
    ensures if r.Pending? then os.Cut() else os.flow.point.Ended?
    ensures !r.Pending? ==> Released(os.now.res) && Explains(o, r, os.now.cap, os.now.signalAtClock)
  {
    var opening := V4l2Device.Open(os, o.device);
    if opening.Raised? {
      SetupExplains(o, opening.error, os.now.cap, os.now.signalAtClock);
    }
    var device :- opening;
    r := UseDevice(device, o);
    if !r.Pending? {
      ghost var c := os.now.cap;
      var _ :- device.Destroy();
      DestructionKeeps(o, r, c, os.now.cap, os.now.signalAtClock);
    }
  }

  /** Outcomes only a run with its stream off can have. */
  ghost predicate Decided(r: Attempt<Ending>, c: Capture) {
    && c.fatal.None? && r != Value(TimedOut)
    && (r.Value? || r == Raised(DeviceError(EndedBeforeSave)) || r == Raised(UsageError(RateTooLarge)))
  }

  lemma DestructionKeeps(o: Options, r: Attempt<Ending>, c: Capture, d: Capture, signalAtClock: nat)
    requires o.Valid() && NotingStop(c, d) && Orderly(o, c) && Explains(o, r, c, signalAtClock)
    requires Decided(r, c) ==> c == d
    ensures Orderly(o, d) && Explains(o, r, d, signalAtClock)
  {
  }
}
