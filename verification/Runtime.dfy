/** The frame counter of jetcamd: the streaming thread counts, the main loop reports. */
module FrameMeter {
  import opened MachineTypes
  import SequenceAccounting

  /** Times are seconds since the start. */
  datatype Tick = Counted | Reported(at: real)

  datatype Meter = Meter(frames: uint64, lastFrames: uint64, lastReport: real)

  /** Subtraction of 64-bit unsigned numbers. */
  function Sub64(x: uint64, y: uint64): uint64 {
    if x >= y then x - y else x - y + TWO_TO_THE_64
  }

  function Ticked(m: Meter, t: Tick): Meter {
    match t
    case Counted => m.(frames := SequenceAccounting.Add64(m.frames, 1))
    case Reported(at) => m.(lastFrames := m.frames, lastReport := at)
  }

  function Count(run: seq<Tick>): Meter {
    if run == [] then Meter(0, 0, 0.0) else Ticked(Count(run[..|run| - 1]), run[|run| - 1])
  }

  /** m is where the ticks lead. */
  ghost predicate Reaches(run: seq<Tick>, m: Meter) {
    forall k :: |run| <= k <= |run| ==> Count(run[..k]) == m
  }

  lemma ReachesCount(run: seq<Tick>, m: Meter)
    ensures Reaches(run, m) <==> m == Count(run)
  {
    assert run[..|run|] == run;
  }

  lemma ReachesTick(run: seq<Tick>, m: Meter, t: Tick)
    requires Reaches(run, m)
    ensures Reaches(run + [t], Ticked(m, t))
  {
    ReachesCount(run, m);
    assert (run + [t])[..|run|] == run;
    ReachesCount(run + [t], Ticked(m, t));
  }

  /** How many frames came since the last report. */
  function Since(run: seq<Tick>): nat {
    if run == [] || run[|run| - 1].Reported? then 0 else Since(run[..|run| - 1]) + 1
  }

  /** The frame count a report at the end of the run would print. */
  function Delta(run: seq<Tick>): uint64 {
    Sub64(Count(run).frames, Count(run).lastFrames)
  }

  /** When the last report was made. */
  function LastReport(run: seq<Tick>): real {
    if run == [] then 0.0
    else if run[|run| - 1].Reported? then run[|run| - 1].at
    else LastReport(run[..|run| - 1])
  }

  lemma {:induction false} MeterKeepsTime(run: seq<Tick>)
    ensures Count(run).lastReport == LastReport(run)
    decreases |run|
  {
    if run != [] {
      MeterKeepsTime(run[..|run| - 1]);
    }
  }

  /** Frames a second; none, as a finite number, when no time has passed. */
  function Rate(delta: uint64, seconds: real): (fps: Option<real>)
    ensures fps.None? <==> seconds == 0.0
    ensures fps.Some? ==> fps.value * seconds == delta as real
  {
    if seconds == 0.0 then None else Some(delta as real / seconds)
  }

  function Frames(run: seq<Tick>): nat {
    if run == [] then 0 else Frames(run[..|run| - 1]) + (if run[|run| - 1] == Counted then 1 else 0)
  }

  /** The sum of what the reports of the run printed. */
  function Printed(run: seq<Tick>): nat {
    if run == [] then 0
    else
      var before := run[..|run| - 1];
      Printed(before) + (if run[|run| - 1].Reported? then Delta(before) else 0)
  }

  /** No stretch between two reports has 2^64 frames. */
  predicate OftenReported(run: seq<Tick>) {
    forall i :: 0 <= i <= |run| ==> Since(run[..i]) < TWO_TO_THE_64
  }

  lemma OftenBefore(run: seq<Tick>)
    requires run != [] && OftenReported(run)
    ensures OftenReported(run[..|run| - 1]) && Since(run) < TWO_TO_THE_64
  {
    var before := run[..|run| - 1];
    assert run[..|run|] == run;
    forall i | 0 <= i <= |before| ensures Since(before[..i]) < TWO_TO_THE_64 {
      assert before[..i] == run[..i];
      assert Since(run[..i]) < TWO_TO_THE_64;
    }
  }

  /** Each report prints the frames since the one before, even after the counter has wrapped. */
  lemma {:induction false} ReportsAreExact(run: seq<Tick>)
    requires OftenReported(run)
    ensures Delta(run) == Since(run)
    decreases |run|
  {
    if run != [] {
      OftenBefore(run);
      ReportsAreExact(run[..|run| - 1]);
    }
  }

  /** No frame is left out of the reports, and none is in two of them. */
  lemma {:induction false} ReportsTelescope(run: seq<Tick>)
    requires OftenReported(run)
    ensures Printed(run) + Since(run) == Frames(run)
    decreases |run|
  {
    if run != [] {
      OftenBefore(run);
      ReportsTelescope(run[..|run| - 1]);
      ReportsAreExact(run[..|run| - 1]);
    }
  }
}

/** The state the callbacks of jetcamd share. */
module DaemonRuntime {
  import opened MachineTypes
  import opened SnapshotProtocol
  import FrameMeter
  import SequenceAccounting

  /** The steps of the pipeline between the callbacks are methods here too: Arrive and Take. */
  class Runtime {
    var drop: bool
    var queue: Option<Frame>
    var produced: nat
    var phase: Phase
    var file: Option<seq<byte>>
    var frames: uint64
    var lastFrames: uint64
    var lastReport: real
    ghost var events: seq<Event>
    ghost var now: State
    ghost var ticks: seq<FrameMeter.Tick>
    ghost var meter: FrameMeter.Meter

    /** The fields are what the steps so far have made of them. */
    ghost predicate Valid()
      reads this
    {
      && Reaches(events, now) && FrameMeter.Reaches(ticks, meter)
      && drop == !now.open && queue == now.queue && produced == now.produced
      && phase == now.phase && file == now.file
      && frames == meter.frames && lastFrames == meter.lastFrames && lastReport == meter.lastReport
    }

    /** From before to now, one step of the snapshot branch was made. */
    twostate predicate Stepped(e: Event)
      reads this
    {
      events == old(events) + [e] && now == Step(old(now), e) && ticks == old(ticks)
    }

    twostate predicate Ticked(t: FrameMeter.Tick)
      reads this
    {
      events == old(events) && ticks == old(ticks) + [t] && meter == FrameMeter.Ticked(old(meter), t)
    }

    constructor ()
      ensures Valid() && events == [] && ticks == []
      ensures drop && queue == None && phase == Idle && file == None && frames == 0
    {
      drop, queue, produced, phase, file := true, None, 0, Idle, None;
      frames, lastFrames, lastReport := 0, 0, 0.0;
      events, now, ticks, meter := [], INITIAL, [], FrameMeter.Meter(0, 0, 0.0);
      ReachesRun([], INITIAL);
      FrameMeter.ReachesCount([], FrameMeter.Meter(0, 0, 0.0));
    }

    method RequestSnapshot()
      requires Valid()
      modifies this
      ensures Valid() && Stepped(Request)
      ensures !drop && queue == old(queue) && phase == old(phase) && file == old(file) && frames == old(frames)
    {
      ReachesStep(events, now, Request);
      drop := false;
      events, now := events + [Request], Step(now, Request);
    }

    method OnFrame()
      requires Valid()
      modifies this
      ensures Valid() && Ticked(FrameMeter.Counted)
      ensures frames == (old(frames) + 1) % 0x1_0000_0000_0000_0000
    {
      FrameMeter.ReachesTick(ticks, meter, FrameMeter.Counted);
      frames := SequenceAccounting.Add64(frames, 1);
      ticks, meter := ticks + [FrameMeter.Counted], FrameMeter.Ticked(meter, FrameMeter.Counted);
    }

    /** The frames since the last report, and their rate unless no time has passed. */
    method ReportFps(time: real) returns (delta: uint64, fps: Option<real>)
      requires Valid()
      modifies this
      ensures Valid() && Ticked(FrameMeter.Reported(time))
      ensures delta == FrameMeter.Delta(old(ticks))
      ensures FrameMeter.OftenReported(old(ticks)) ==> delta == FrameMeter.Since(old(ticks))
      ensures fps == FrameMeter.Rate(delta, time - FrameMeter.LastReport(old(ticks)))
    {
      FrameMeter.ReachesTick(ticks, meter, FrameMeter.Reported(time));
      FrameMeter.ReachesCount(ticks, meter);
      FrameMeter.MeterKeepsTime(ticks);
      if FrameMeter.OftenReported(ticks) {
        FrameMeter.ReportsAreExact(ticks);
      }
      delta := FrameMeter.Sub64(frames, lastFrames);
      fps := FrameMeter.Rate(delta, time - lastReport);
      lastFrames, lastReport := frames, time;
      ticks, meter := ticks + [FrameMeter.Reported(time)], FrameMeter.Ticked(meter, FrameMeter.Reported(time));
    }

    /** The camera produces its next frame. */
    method Arrive(frame: Frame)
      requires Valid() && frame.number == produced
      modifies this
      ensures Valid() && Stepped(Camera(frame.jpeg))
      ensures queue == Some(frame) && drop == old(drop) && phase == old(phase) && file == old(file)
    {
      ReachesStep(events, now, Camera(frame.jpeg));
      queue, produced := Some(frame), produced + 1;
      events, now := events + [Camera(frame.jpeg)], Step(now, Camera(frame.jpeg));
    }

    /** The next frame comes to the valve. */
    method Take()
      requires Valid()
      modifies this
      ensures Valid() && Stepped(SnapshotProtocol.Take)
      ensures drop == old(drop) && file == old(file)
      ensures old(phase) != Idle || old(queue) == None ==> phase == old(phase) && queue == old(queue)
      ensures old(phase) == Idle && old(queue).Some? ==>
        queue == None && phase == if old(drop) then Idle else Pulling(old(queue).value)
    {
      ReachesStep(events, now, SnapshotProtocol.Take);
      if phase == Idle && queue.Some? {
        if !drop {
          phase := Pulling(queue.value);
        }
        queue := None;
      }
      events, now := events + [SnapshotProtocol.Take], Step(now, SnapshotProtocol.Take);
    }

    method PullSample(got: bool)
      requires Valid() && phase.Pulling?
      modifies this
      ensures Valid() && Stepped(Pull(got))
      ensures phase == if got then Saving(old(phase).frame) else Ended
      ensures drop == old(drop) && file == old(file)
    {
      ReachesStep(events, now, Pull(got));
      phase := if got then Saving(phase.frame) else Ended;
      events, now := events + [Pull(got)], Step(now, Pull(got));
    }

    method WriteFile(outcome: Outcome)
      requires Valid() && phase.Saving?
      modifies this
      ensures Valid() && Stepped(Write(outcome))
      ensures phase == Closing(outcome.Wrote? && outcome.good) && drop == old(drop)
      ensures outcome.Wrote? ==>
        var jpeg := old(phase).frame.jpeg; file == Some(if outcome.count < |jpeg| then jpeg[..outcome.count] else jpeg)
      ensures !outcome.Wrote? ==> file == old(file)
    {
      ReachesStep(events, now, Write(outcome));
      file := Stored(file, phase.frame.jpeg, outcome);
      phase := Closing(Good(outcome));
      events, now := events + [Write(outcome)], Step(now, Write(outcome));
    }

    method CloseValve() returns (ok: bool)
      requires Valid() && phase.Closing?
      modifies this
      ensures Valid() && Stepped(Close)
      ensures drop && file == old(file) && ok == old(phase).saved && phase == if ok then Idle else Ended
    {
      ReachesStep(events, now, Close);
      ok := phase.saved;
      drop := true;
      phase := if ok then Idle else Ended;
      events, now := events + [Close], Step(now, Close);
    }

    /** The callback for a sample when no step of the main loop comes between. */
    method OnSnapshot(got: bool, outcome: Outcome) returns (ok: bool)
      requires Valid() && phase.Pulling?
      modifies this
      ensures Valid() && ticks == old(ticks)
      ensures events == old(events) + if got then [Pull(true), Write(outcome), Close] else [Pull(false)]
      ensures ok == (got && Good(outcome))
      ensures phase == (if ok then Idle else Ended) && (got ==> drop) && (!got ==> !drop)
    {
      ReachesRun(events, now);
      RunCounted(events);
      ghost var start := events;
      PullSample(got);
      if !got {
        return false;
      }
      WriteFile(outcome);
      ok := CloseValve();
      assert start + [Pull(true)] + [Write(outcome)] + [Close] == start + [Pull(true), Write(outcome), Close];
    }
  }
}
