/** The snapshot valve of jetcamd. The main loop opens it, and the streaming thread of the
    snapshot branch closes it after a save; their atomic steps come in any order. */
module SnapshotProtocol {
  import opened MachineTypes

  /** A raw frame of the camera, with the JPEG image the encoder makes of it. */
  datatype Frame = Frame(number: nat, jpeg: seq<byte>)

  /** What the streaming thread of the branch does: waiting for a frame, or at some point between
      the valve and the end of the callback. After an error it takes no more frames. */
  datatype Phase =
    | Idle
    | Pulling(frame: Frame)
    | Saving(frame: Frame)
    | Closing(saved: bool)
    | Ended

  /** How writing the file went. */
  datatype Outcome =
    | Unmapped
    | Unopened
    | Wrote(count: nat, good: bool)

  /** The stream says that all was written. */
  predicate Good(outcome: Outcome) {
    outcome.Wrote? && outcome.good
  }

  /** One atomic step of one of the threads. */
  datatype Event =
    | Request
    | Camera(jpeg: seq<byte>)
    | Take
    | Pull(got: bool)
    | Write(outcome: Outcome)
    | Close

  /** The queue before the valve has room for one frame and keeps the newest. */
  datatype State = State(
    open: bool, phase: Phase, queue: Option<Frame>, file: Option<seq<byte>>,
    produced: nat, requests: nat, openings: nat, closes: nat, saves: nat,
    openedAt: nat, admitted: seq<Frame>)

  const INITIAL := State(false, Idle, None, None, 0, 0, 0, 0, 0, 0, [])

  function Requested(s: State): State {
    var opening := !s.open;
    s.(open := true, requests := s.requests + 1, openings := s.openings + (if opening then 1 else 0),
       openedAt := if opening then s.produced else s.openedAt)
  }

  function Arrived(s: State, jpeg: seq<byte>): State {
    s.(produced := s.produced + 1, queue := Some(Frame(s.produced, jpeg)))
  }

  /** The next frame comes to the valve: it goes on to the encoder, or is dropped. */
  function Taken(s: State): State {
    if s.phase != Idle || s.queue == None then s
    else if s.open then s.(queue := None, phase := Pulling(s.queue.value), admitted := s.admitted + [s.queue.value])
    else s.(queue := None)
  }

  /** Without a sample the callback ends in an error, and leaves the valve open. */
  function Pulled(s: State, got: bool): State {
    if !s.phase.Pulling? then s
    else if got then s.(phase := Saving(s.phase.frame))
    else s.(phase := Ended)
  }

  function Stored(file: Option<seq<byte>>, jpeg: seq<byte>, outcome: Outcome): Option<seq<byte>> {
    match outcome
    case Wrote(count, _) => Some(if count < |jpeg| then jpeg[..count] else jpeg)
    case _ => file
  }

  function WroteFile(s: State, outcome: Outcome): State {
    if !s.phase.Saving? then s
    else s.(phase := Closing(Good(outcome)), file := Stored(s.file, s.phase.frame.jpeg, outcome))
  }

  function Closed(s: State): State {
    if !s.phase.Closing? then s
    else if s.phase.saved then s.(open := false, phase := Idle, closes := s.closes + 1, saves := s.saves + 1)
    else s.(open := false, phase := Ended, closes := s.closes + 1)
  }

  function Step(s: State, e: Event): State {
    match e
    case Request => Requested(s)
    case Camera(jpeg) => Arrived(s, jpeg)
    case Take => Taken(s)
    case Pull(got) => Pulled(s, got)
    case Write(outcome) => WroteFile(s, outcome)
    case Close => Closed(s)
  }

  /** The state after the steps of a run. */
  function Run(run: seq<Event>): State {
    if run == [] then INITIAL else Step(Run(run[..|run| - 1]), run[|run| - 1])
  }

  lemma RunStep(run: seq<Event>, e: Event)
    ensures Run(run + [e]) == Step(Run(run), e)
  {
    assert (run + [e])[..|run|] == run;
  }

  /** s is where the run leads; put as a bound on its prefixes, which keeps the steps of the run
      out of the proofs about single steps. */
  ghost predicate Reaches(run: seq<Event>, s: State) {
    forall k :: |run| <= k <= |run| ==> Run(run[..k]) == s
  }

  lemma ReachesRun(run: seq<Event>, s: State)
    ensures Reaches(run, s) <==> s == Run(run)
  {
    assert run[..|run|] == run;
  }

  lemma ReachesStep(run: seq<Event>, s: State, e: Event)
    requires Reaches(run, s)
    ensures Reaches(run + [e], Step(s, e))
  {
    ReachesRun(run, s);
    RunStep(run, e);
    ReachesRun(run + [e], Step(s, e));
  }

  // ---------- Counting ----------

  /** A frame is on its way from the valve to the end of the callback, or was lost there. */
  predicate Busy(s: State) {
    s.phase.Pulling? || s.phase.Saving? || s.phase.Closing?
  }

  predicate Counted(s: State) {
    && s.saves <= s.closes && s.openings <= s.requests
    && s.openings == s.closes + (if s.open then 1 else 0)
    && s.closes <= |s.admitted| <= s.openings
    && (s.phase == Idle ==> |s.admitted| == s.closes == s.saves)
    && (Busy(s) ==> s.open && |s.admitted| == s.closes + 1 && s.saves == s.closes)
    && (s.phase == Ended ==> s.saves + 1 == |s.admitted|)
  }

  lemma StepCounted(s: State, e: Event)
    requires Counted(s)
    ensures Counted(Step(s, e))
  {
  }

  lemma {:induction false} RunCounted(run: seq<Event>)
    ensures Counted(Run(run))
    decreases |run|
  {
    if run != [] {
      RunCounted(run[..|run| - 1]);
      StepCounted(Run(run[..|run| - 1]), run[|run| - 1]);
    }
  }

  /** Whatever the order of the steps: never more saves than requests, with one to spare while the
      valve is open; and each opening lets exactly one frame through before it closes. */
  lemma EachOpeningAdmitsOneFrame(run: seq<Event>)
    ensures var s := Run(run);
      && s.saves + (if s.open then 1 else 0) <= s.requests
      && s.openings == s.closes + (if s.open then 1 else 0)
      && s.closes <= |s.admitted| <= s.openings
      && |s.admitted| - 1 <= s.saves <= |s.admitted|
  {
    RunCounted(run);
  }

  /** The k-th frame the valve lets through goes through its k-th opening. */
  lemma AdmittedInItsOpening(run: seq<Event>)
    ensures var s, t := Run(run), Run(run + [Take]);
      |t.admitted| != |s.admitted| ==> |t.admitted| == t.openings == |s.admitted| + 1
  {
    RunCounted(run);
    RunStep(run, Take);
  }

  // ---------- When the valve is open ----------

  /** At this step of the run the valve closes. */
  predicate ClosesAt(run: seq<Event>, i: nat)
    requires i < |run|
  {
    run[i] == Close && Run(run[..i]).phase.Closing?
  }

  predicate RequestAfterLastClose(run: seq<Event>, i: nat)
    requires i < |run|
  {
    run[i] == Request && forall j :: i < j < |run| ==> !ClosesAt(run, j)
  }

  lemma ShorterRun(run: seq<Event>, n: nat, i: nat)
    requires i < n <= |run|
    ensures ClosesAt(run[..n], i) == ClosesAt(run, i)
  {
    assert run[..n][..i] == run[..i];
  }

  lemma StepOpen(s: State, e: Event)
    requires Counted(s)
    ensures Step(s, e).open == (e == Request || (s.open && !(e == Close && s.phase.Closing?)))
  {
  }

  lemma {:induction false} ValveOpenIff(run: seq<Event>)
    ensures Run(run).open <==> exists i :: 0 <= i < |run| && RequestAfterLastClose(run, i)
    decreases |run|
  {
    if run != [] {
      var n := |run| - 1;
      var before := run[..n];
      ValveOpenIff(before);
      RunCounted(before);
      StepOpen(Run(before), run[n]);
      if run[n] == Request {
        assert RequestAfterLastClose(run, n);
      } else if ClosesAt(run, n) {
        assert !Run(run).open;
      } else {
        forall i | 0 <= i < n ensures RequestAfterLastClose(run, i) == RequestAfterLastClose(before, i) {
          SameWithoutLast(run, i);
        }
      }
    }
  }

  lemma SameWithoutLast(run: seq<Event>, i: nat)
    requires i + 1 < |run| && !ClosesAt(run, |run| - 1)
    ensures RequestAfterLastClose(run, i) == RequestAfterLastClose(run[..|run| - 1], i)
  {
    var n := |run| - 1;
    forall j | i < j < n ensures ClosesAt(run[..n], j) == ClosesAt(run, j) {
      ShorterRun(run, n, j);
    }
  }

  // ---------- Requests that come together ----------

  /** How many requests found the valve open already. */
  function Coalesced(run: seq<Event>): nat {
    if run == [] then 0
    else
      var before := run[..|run| - 1];
      Coalesced(before) + (if run[|run| - 1] == Request && Run(before).open then 1 else 0)
  }

  /** Every request is accounted for: it opened the valve or came while the valve was open. */
  lemma {:induction false} RequestsConserved(run: seq<Event>)
    ensures Run(run).requests == Run(run).openings + Coalesced(run)
    decreases |run|
  {
    if run != [] {
      RequestsConserved(run[..|run| - 1]);
    }
  }

  /** Where a run stands after a request, as long as no other request comes and no frame is taken. */
  predicate AfterRequest(wasIdle: bool, s: State) {
    if wasIdle then s.phase == Idle && s.open
    else s.phase == Idle ==> !s.open
  }

  predicate Quiet(during: seq<Event>) {
    forall i :: 0 <= i < |during| ==> during[i] != Request && during[i] != Take
  }

  lemma {:induction false} QuietKeeps(before: seq<Event>, during: seq<Event>)
    requires Quiet(during)
    ensures AfterRequest(Run(before).phase == Idle, Run(before + [Request] + during))
    decreases |during|
  {
    var start := before + [Request];
    if during == [] {
      assert start + during == start;
      RunStep(before, Request);
    } else {
      var n := |during| - 1;
      QuietKeeps(before, during[..n]);
      assert start + during == start + during[..n] + [during[n]];
      RunStep(start + during[..n], during[n]);
    }
  }

  /** The first frame that comes to the valve after a request is let through exactly when the
      branch was idle at the request; one that comes during a save is lost with that save. */
  lemma NextFrameAdmittedIff(before: seq<Event>, during: seq<Event>)
    requires Quiet(during)
    requires var s := Run(before + [Request] + during); s.phase == Idle && s.queue.Some?
    ensures var s, t := Run(before + [Request] + during), Run(before + [Request] + during + [Take]);
      && (Run(before).phase == Idle ==> t.admitted == s.admitted + [s.queue.value])
      && (Run(before).phase != Idle ==> t.admitted == s.admitted && t.phase == Idle && !t.open)
  {
    QuietKeeps(before, during);
    RunStep(before + [Request] + during, Take);
  }

  function WithMore(s: State, requests: nat): State {
    s.(requests := s.requests + requests)
  }

  lemma StepWithMore(s: State, requests: nat, e: Event)
    ensures Step(WithMore(s, requests), e) == WithMore(Step(s, e), requests)
  {
  }

  lemma RunSplit(run: seq<Event>, after: seq<Event>)
    requires after != []
    ensures var n := |after| - 1; Run(run + after) == Step(Run(run + after[..n]), after[n])
  {
    assert (run + after)[..|run + after| - 1] == run + after[..|after| - 1];
  }

  lemma {:induction false} SameButRequests(a: seq<Event>, b: seq<Event>, requests: nat, after: seq<Event>)
    requires Run(b) == WithMore(Run(a), requests)
    ensures Run(b + after) == WithMore(Run(a + after), requests)
    decreases |after|
  {
    if after == [] {
      assert a + after == a && b + after == b;
    } else {
      var n := |after| - 1;
      SameButRequests(a, b, requests, after[..n]);
      RunSplit(a, after);
      RunSplit(b, after);
      StepWithMore(Run(a + after[..n]), requests, after[n]);
    }
  }

  /** A request that finds the valve open changes nothing, now or later: whatever steps follow,
      the same frames are let through and saved as without it. */
  lemma RequestWhileOpenIsLost(before: seq<Event>, after: seq<Event>)
    requires Run(before).open
    ensures Run(before + [Request] + after) == WithMore(Run(before + after), 1)
  {
    RunStep(before, Request);
    SameButRequests(before, before + [Request], 1, after);
  }

  lemma RunTwo(run: seq<Event>, a: Event, b: Event)
    ensures Run(run + [a, b]) == Step(Step(Run(run), a), b)
  {
    RunSplit(run, [a, b]);
    assert [a, b][..1] == [a];
    RunStep(run, a);
  }

  lemma RunThree(run: seq<Event>, a: Event, b: Event, c: Event)
    ensures Run(run + [a, b, c]) == Step(Step(Step(Run(run), a), b), c)
  {
    RunSplit(run, [a, b, c]);
    assert [a, b, c][..2] == [a, b];
    RunTwo(run, a, b);
  }

  /** Two requests, every step a success, a frame after the second: still only one image. */
  lemma ARequestCanBeLost(jpeg: seq<byte>)
    ensures var run := [Request, Camera(jpeg), Take] + [Request, Pull(true), Write(Wrote(|jpeg|, true))]
        + [Close, Camera(jpeg), Take];
      Run(run).requests == 2 && Run(run).saves == 1 && !Run(run).open && Run(run).phase == Idle
  {
    var first := [Request, Camera(jpeg), Take];
    RunThree([], Request, Camera(jpeg), Take);
    assert [] + first == first;
    RunThree(first, Request, Pull(true), Write(Wrote(|jpeg|, true)));
    RunThree(first + [Request, Pull(true), Write(Wrote(|jpeg|, true))], Close, Camera(jpeg), Take);
  }

  // ---------- Which frames ----------

  predicate Ordered(s: State) {
    && (s.queue.Some? ==> s.queue.value.number + 1 == s.produced)
    && (forall i :: 0 <= i < |s.admitted| ==>
         s.admitted[i].number + (if s.queue.Some? then 1 else 0) < s.produced)
    && (forall i, j :: 0 <= i < j < |s.admitted| ==> s.admitted[i].number < s.admitted[j].number)
    && s.openedAt <= s.produced
    && (s.open && s.closes < |s.admitted| ==> s.openedAt <= s.admitted[|s.admitted| - 1].number + 1)
  }

  lemma StepOrdered(s: State, e: Event)
    requires Ordered(s) && Counted(s)
    ensures Ordered(Step(s, e))
  {
  }

  /** Frames are let through in the order of the camera and none twice; and one that is let through
      is at most one frame older than the opening of the valve. */
  lemma {:induction false} RunOrdered(run: seq<Event>)
    ensures Ordered(Run(run))
    decreases |run|
  {
    if run != [] {
      RunOrdered(run[..|run| - 1]);
      RunCounted(run[..|run| - 1]);
      StepOrdered(Run(run[..|run| - 1]), run[|run| - 1]);
    }
  }

  /** The frame that is let through is the newest the camera has produced. */
  lemma NewestIsAdmitted(run: seq<Event>)
    ensures var s, t := Run(run), Run(run + [Take]);
      |t.admitted| > |s.admitted| ==> t.admitted[|s.admitted|].number + 1 == s.produced
  {
    RunOrdered(run);
    RunStep(run, Take);
  }

  // ---------- The file ----------

  /** A stream that reports success has stored everything. */
  predicate HonestAt(s: State, e: Event) {
    s.phase.Saving? && e.Write? && Good(e.outcome) ==> e.outcome.count >= |s.phase.frame.jpeg|
  }

  predicate Honest(run: seq<Event>) {
    forall i :: 0 <= i < |run| ==> HonestAt(Run(run[..i]), run[i])
  }

  /** The file after the saves so far. */
  predicate HoldsSave(s: State, saves: nat)
    requires saves <= |s.admitted|
  {
    s.file == if saves == 0 then None else Some(s.admitted[saves - 1].jpeg)
  }

  predicate FileRight(s: State)
    requires Counted(s)
  {
    match s.phase
    case Idle => HoldsSave(s, s.saves)
    case Pulling(frame) => HoldsSave(s, s.saves) && s.admitted[s.saves] == frame
    case Saving(frame) => HoldsSave(s, s.saves) && s.admitted[s.saves] == frame
    case Closing(true) => HoldsSave(s, s.saves + 1)
    case _ => HoldsSave(s, s.saves) || (s.file.Some? && s.file.value <= s.admitted[s.saves].jpeg)
  }

  lemma StepFile(s: State, e: Event)
    requires Counted(s) && FileRight(s) && HonestAt(s, e)
    ensures Counted(Step(s, e)) && FileRight(Step(s, e))
  {
    StepCounted(s, e);
  }

  /** The file holds all of the last saved frame, from the write of one to the write of the next;
      after a failed write it holds a part of the frame that could not be saved, or is untouched. */
  lemma {:induction false} FileHoldsLastSave(run: seq<Event>)
    requires Honest(run)
    ensures Counted(Run(run)) && FileRight(Run(run))
    decreases |run|
  {
    RunCounted(run);
    if run != [] {
      var n := |run| - 1;
      assert Honest(run[..n]) by {
        forall i | 0 <= i < n ensures HonestAt(Run(run[..n][..i]), run[..n][i]) {
          assert run[..n][..i] == run[..i];
          assert HonestAt(Run(run[..i]), run[i]);
        }
      }
      FileHoldsLastSave(run[..n]);
      assert HonestAt(Run(run[..n]), run[n]);
      StepFile(Run(run[..n]), run[n]);
    }
  }

  // ---------- Saves that fail ----------

  /** After a callback that fails the branch takes no more frames, and the file stays as it is. */
  predicate Failed(s: State) {
    s.phase == Ended || s.phase == Closing(false)
  }

  lemma StepAfterFailure(s: State, e: Event)
    requires Failed(s)
    ensures Failed(Step(s, e)) && Step(s, e).file == s.file && Step(s, e).saves == s.saves
  {
  }

  lemma {:induction false} RunAfterFailure(run: seq<Event>, after: seq<Event>)
    requires Failed(Run(run))
    ensures var s, t := Run(run), Run(run + after); Failed(t) && t.file == s.file && t.saves == s.saves
    decreases |after|
  {
    if after == [] {
      assert run + after == run;
    } else {
      RunAfterFailure(run, after[..|after| - 1]);
      RunSplit(run, after);
      StepAfterFailure(Run(run + after[..|after| - 1]), after[|after| - 1]);
    }
  }

  /** What the file holds is decided by the outcome of the save, and for ever if the save failed:
      the earlier image survives exactly when the file was not opened, or the bytes that were
      written happen to be the earlier image. */
  lemma EarlierImageSurvivesIff(run: seq<Event>, outcome: Outcome, after: seq<Event>)
    requires Run(run).phase.Saving? && Run(run).file.Some? && !Good(outcome)
    ensures var s, t := Run(run), Run(run + [Write(outcome)] + after);
      var jpeg := s.phase.frame.jpeg;
      && t.saves == s.saves
      && (t.file == s.file <==>
           || !outcome.Wrote?
           || s.file.value == if outcome.count < |jpeg| then jpeg[..outcome.count] else jpeg)
  {
    RunStep(run, Write(outcome));
    RunAfterFailure(run + [Write(outcome)], after);
  }

  /** A save that is reported as done has stored the whole image exactly when the stream, which may
      still fail when it is closed, stored all of it. */
  lemma ReportedSaveIsWholeIff(run: seq<Event>, outcome: Outcome)
    requires Run(run).phase.Saving? && Good(outcome)
    ensures var s, t := Run(run), Run(run + [Write(outcome), Close]);
      && t.saves == s.saves + 1
      && (t.file == Some(s.phase.frame.jpeg) <==> outcome.count >= |s.phase.frame.jpeg|)
  {
    RunTwo(run, Write(outcome), Close);
  }

  /** A saved image does not outlive a later save that fails: the file is emptied first. */
  lemma AFailedSaveLosesTheFile(jpeg: seq<byte>)
    ensures var run := [Request, Camera(jpeg), Take] + [Pull(true), Write(Wrote(|jpeg|, true)), Close]
        + [Request, Camera(jpeg), Take] + [Pull(true), Write(Wrote(0, false)), Close];
      Run(run).saves == 1 && Run(run).file == Some([])
  {
    var take := [Request, Camera(jpeg), Take];
    var save := [Pull(true), Write(Wrote(|jpeg|, true)), Close];
    RunThree([], Request, Camera(jpeg), Take);
    assert [] + take == take;
    RunThree(take, Pull(true), Write(Wrote(|jpeg|, true)), Close);
    RunThree(take + save, Request, Camera(jpeg), Take);
    FailedSave(take + save + take, jpeg);
  }

  lemma FailedSave(run: seq<Event>, jpeg: seq<byte>)
    requires Run(run).phase.Pulling? && Run(run).phase.frame.jpeg == jpeg
    ensures var s := Run(run + [Pull(true), Write(Wrote(0, false)), Close]);
      s.saves == Run(run).saves && s.file == Some([])
  {
    RunThree(run, Pull(true), Write(Wrote(0, false)), Close);
  }

  // ---------- Steps of other threads during the callback ----------

  /** A step that is no part of the callback. */
  predicate Outside(e: Event) {
    e.Request? || e.Camera? || e.Take?
  }

  predicate AllOutside(steps: seq<Event>) {
    forall i :: 0 <= i < |steps| ==> Outside(steps[i])
  }

  /** The same but for the camera, its queue, and the number of requests. */
  predicate SameBranch(s: State, t: State) {
    && s.open == t.open && s.phase == t.phase && s.file == t.file && s.openings == t.openings
    && s.closes == t.closes && s.saves == t.saves && s.admitted == t.admitted && s.openedAt == t.openedAt
  }

  lemma OutsideStep(s: State, e: Event)
    requires Busy(s) && s.open && Outside(e)
    ensures SameBranch(s, Step(s, e))
  {
  }

  lemma {:induction false} OutsideSteps(run: seq<Event>, steps: seq<Event>)
    requires Busy(Run(run)) && Run(run).open && AllOutside(steps)
    ensures SameBranch(Run(run), Run(run + steps))
    decreases |steps|
  {
    if steps == [] {
      assert run + steps == run;
    } else {
      OutsideSteps(run, steps[..|steps| - 1]);
      RunSplit(run, steps);
      OutsideStep(Run(run + steps[..|steps| - 1]), steps[|steps| - 1]);
    }
  }

  lemma SameBranchStep(s: State, t: State, e: Event)
    requires SameBranch(s, t) && Busy(s) && (e.Pull? || e.Write? || e.Close?)
    ensures SameBranch(Step(s, e), Step(t, e))
  {
  }

  /** One step of the callback after steps of other threads. */
  lemma InterleavedStep(run: seq<Event>, other: seq<Event>, steps: seq<Event>, e: Event)
    requires SameBranch(Run(run), Run(other)) && Counted(Run(run)) && Busy(Run(run))
    requires AllOutside(steps) && (e.Pull? || e.Write? || e.Close?)
    ensures SameBranch(Run(run + [e]), Run(other + steps + [e]))
  {
    OutsideSteps(other, steps);
    RunStep(run, e);
    RunStep(other + steps, e);
    SameBranchStep(Run(run), Run(other + steps), e);
  }

  /** Requests, new frames and anything else outside the callback, wherever they come between its
      steps, change neither its result nor the file nor what is saved; nor do requests keep the
      valve open after it. */
  lemma CallbackIsAtomic(run: seq<Event>, x: seq<Event>, y: seq<Event>, z: seq<Event>, outcome: Outcome)
    requires Run(run).phase.Pulling? && AllOutside(x) && AllOutside(y) && AllOutside(z)
    ensures SameBranch(Run(run + [Pull(true)] + [Write(outcome)] + [Close]),
                       Run(run + x + [Pull(true)] + y + [Write(outcome)] + z + [Close]))
    ensures !Run(run + x + [Pull(true)] + y + [Write(outcome)] + z + [Close]).open
  {
    var pulled, wrote := run + [Pull(true)], run + [Pull(true)] + [Write(outcome)];
    RunCounted(run);
    InterleavedStep(run, run, x, Pull(true));
    RunCounted(pulled);
    RunStep(run, Pull(true));
    InterleavedStep(pulled, run + x + [Pull(true)], y, Write(outcome));
    RunCounted(wrote);
    RunStep(pulled, Write(outcome));
    InterleavedStep(wrote, run + x + [Pull(true)] + y + [Write(outcome)], z, Close);
    RunStep(wrote, Close);
  }

  /** The same for a callback without a sample, which leaves the valve open. */
  lemma FailedPullIsAtomic(run: seq<Event>, x: seq<Event>)
    requires Run(run).phase.Pulling? && AllOutside(x)
    ensures SameBranch(Run(run + [Pull(false)]), Run(run + x + [Pull(false)])) && Run(run + [Pull(false)]).open
  {
    RunCounted(run);
    InterleavedStep(run, run, x, Pull(false));
    RunStep(run, Pull(false));
  }
}
