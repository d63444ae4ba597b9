# Verified model of jetcam-raw-test and jetcamd

A Dafny model of the two programs of the JetCam stack: the V4L2 RAW capture check `jetcam-raw-test`
and the streaming daemon `jetcamd`. `dafny verify dfyconfig.toml` checks all of it.

## The files

| file | what it models |
|---|---|
| `MachineTypes.dfy`, `Assignments.dfy` | fixed-width integers, options, results; assignments of which the last wins, and names |
| `CaptureStats.dfy`, `SequenceTheorems.dfy` | the sequence counters as a class, and what they say about the driver's frames |
| `Kernel.dfy` | system calls, replies and errors |
| `Session.dfy`, `SessionTheorems.dfy` | what a log of calls means: resources held, owner of each buffer, frames, file, first error |
| `Flow.dfy`, `FlowTheorems.dfy` | which call has to come next in a run, and the environment that answers it; how many calls a run can have |
| `LogTheorems.dfy`, `OutcomeTheorems.dfy` | which calls stand next to each other in the log of a run, and the exit code, told from the calls alone |
| `Device.dfy` | `V4l2Device`, method by method |
| `FrameRate.dfy`, `Options.dfy`, `CommandText.dfy` | the time-per-frame fraction, the command line, and command lines written from options |
| `OptionWords.dfy`, `ConfigWords.dfy`, `PipelineWords.dfy` | every option, key and pipeline word by its own name, with its own range |
| `Run.dfy`, `Process.dfy`, `RunExamples.dfy` | `run_capture`, its loop and verdict; `main` and its exit codes; whole runs that happen |
| `Text.dfy`, `Config.dfy`, `Daemon.dfy`, `ConfigText.dfy` | trimming, lines and numbers; configuration files; the `--config`/`--set` loop; files written from configurations |
| `Pipeline.dfy` | the pipeline texts, a decoder for them, and their tokens |
| `Snapshot.dfy`, `Runtime.dfy` | the snapshot valve between two threads, the frame counter, and the callbacks over them |

## How the environment is modelled

The kernel is an arbitrary finite script of replies: error numbers, short writes, buffers, events,
stop signals and the buffers the driver fills, in any combination. The log of a run holds these replies,
one for each call, as `Kernel.Valid` says. A method that runs out of replies returns `Pending`, and then the log
holds all of them. Safety and order of a run are stated for every prefix of its log.

`Flow.dfy` folds a log into the point the run has reached, and `Next` is the call of a point. `Follows` says
that every call of a log was the next one, `Whole` that none has to come any more. `RunCapture` ensures
both: the program makes just these calls, and returns exactly when there is none left. By
`FlowTheorems.CallsBounded` only interruptions, dequeues that find nothing, listed formats, granted buffers, frames
and saved bytes can make a run longer, so it is `Pending` only in an environment too short for what its own
replies bring about. Because the replies determine the log (`CaptureFlow.RepliesDecideLog`), a log that is whole is
the log of the program in the environment of its replies (`RunExamples.RunAlong`).

`LogTheorems.dfy` says the same without `Next`: for each kind of call and reply, which call comes directly after it
or before it, counted and decided on the log alone. `OutcomeTheorems.dfy` says from the calls which exit code a
capture has. There, in the files named after words, and in `SequenceTheorems.FrameCounted`, every word and number is written
out, so that these statements do not depend on how a constant of the model is defined.

`Session.dfy` replays a log without knowing the program. `Safe` means that no call used a resource
that was not held, gave one up out of order, or broke the streaming rules of section 3.2 (Streaming
I/O, Memory Mapping) of the Linux V4L2 API specification. The driver may break those rules as well, for
example by returning an index it was not given, which the program cannot detect. Then the replay puts
the blame on the driver, and buffer ownership is claimed up to that call only. Resources, stop signals,
the saved file, the frames and the outcome are claimed with any driver.

For the snapshot valve the assumptions about GStreamer are: the valve and the appsink are served by the
same streaming thread, one raw frame becomes one JPEG image, the queue before the valve keeps the newest
frame, and a callback error ends the branch. A step of a thread that is not enabled does nothing, so
theorems about all step sequences are theorems about all interleavings.

## Where the code and its documentation differ

- `app/jetcam-raw-test/README.md:71` promises exit code 128+signal for an interrupted run. A signal that
  interrupts an ioctl gives exit code 3 (`CaptureProcess.InterruptedIoctlIsAnError`,
  `CaptureProcess.InterruptedStreamOffIsAnError`), whatever the capture options
  (`RunExamples.SignalExitsBothWays`, and of the program itself `RunExamples.StopThreeWays`).
  `CaptureProcess.InterruptedExitIff` says exactly when a run that is over kept the promise, and
  `FlowTheorems.SignalEndsRun` that a run is over soon after a signal.
- Integers are documented as non-negative, but only a minus sign in the first place is refused
  (`CaptureOptions.UnsignedMeaningIff`, `CaptureOptions.MinusOneAfterSpace`).
- A rate below 0.0005 frames a second passes the check for positive numbers and reaches the driver with
  denominator 0 (`FrameRate.TimePerFrameIsTheRate`).
- PASS can mean that no frame arrived at all, exactly when a duration is set and no frame is to be saved
  (`RunExamples.EmptyPassIff`, and of the program itself `RunExamples.PassEmpty`).
- The clean verdict is sound and complete up to 8589934605 frames; from the next one on the drop counter
  can have wrapped to 0 (`SequenceTheorems.VerdictTrustedIff`).
- `config/jetcamd.conf:16` says that SIGUSR1 opens the snapshot branch for exactly one frame. Requests that
  come before the valve is closed again share one image (`SnapshotProtocol.RequestWhileOpenIsLost`,
  `SnapshotProtocol.NextFrameAdmittedIff`).
- A failed snapshot can destroy the earlier one, because the file is truncated first
  (`SnapshotProtocol.AFailedSaveLosesTheFile`); `SnapshotProtocol.EarlierImageSurvivesIff` says exactly when.

## Model

| member | source | states |
|---|---|---|
| `SequenceAccounting.CaptureStats.AddFrame` | app/jetcam-raw-test/include/jetcam/capture_stats.hpp:10-30 | The eight fields stay the fold of 32-bit and 64-bit wrapping steps over the whole history of frames, one frame longer |
| `SequenceAccounting.CaptureStats.MeasuredFps` | app/jetcam-raw-test/include/jetcam/capture_stats.hpp:48-60 | The reported seconds and rate are those of the whole history |
| `SequenceTheorems.FrameCounted` | app/jetcam-raw-test/include/jetcam/capture_stats.hpp:10-30 | After a frame numbered a modulo 2^32, one numbered b modulo 2^32: b-a from 1 to 0x7FFF_FFFE adds b-a-1 to `dropped` and nothing to `discontinuities`; a-b from 0 to 0x8000_0001 adds one discontinuity and no drop; an error flag adds one error, and the first and last numbers and times are kept up |
| `SequenceTheorems.FirstFrameCounted` | app/jetcam-raw-test/include/jetcam/capture_stats.hpp:12-15 | The first frame drops nothing and is the first and the last |
| `SequenceTheorems.TallyExact` | app/jetcam-raw-test/include/jetcam/capture_stats.hpp:10-30 | As long as `NoWrap` holds for the number of frames, the 64-bit counters equal the unbounded counts of the history |
| `SequenceTheorems.CountsBounded` | app/jetcam-raw-test/include/jetcam/capture_stats.hpp:16-29 | `dropped` is at most (frames-1)*0x7FFF_FFFD, `discontinuities` at most frames-1, for every history |
| `SequenceTheorems.StepCounted` | app/jetcam-raw-test/include/jetcam/capture_stats.hpp:16-19 | One forward step of unbounded frame numbers is counted exactly if and only if it is shorter than 0x7FFF_FFFF; a longer one is undercounted |
| `SequenceTheorems.AccountingExactIff` | app/jetcam-raw-test/include/jetcam/capture_stats.hpp:10-30 | For increasing unbounded frame numbers seen modulo 2^32: no discontinuity and `dropped` = the cardinality of the set of missing numbers, if and only if no gap reaches 0x7FFF_FFFF; never more than that cardinality |
| `SequenceTheorems.MissingCount` | app/jetcam-raw-test/include/jetcam/capture_stats.hpp:16-19 | The missing numbers between t0 and tn are tn-t0-n many |
| `SequenceTheorems.ContinuousHistoriesUnwrap` | app/jetcam-raw-test/include/jetcam/capture_stats.hpp:16-21 | Conversely, a history without discontinuities has an increasing unwrapping whose missing numbers are exactly the drops |
| `SequenceTheorems.Conservation` | app/jetcam-raw-test/include/jetcam/capture_stats.hpp:10-30 | For arbitrary histories: last = first + (frames-1) + dropped + jumps of the discontinuous steps, modulo 2^32 |
| `SequenceTheorems.CountsCompose` | app/jetcam-raw-test/include/jetcam/capture_stats.hpp:16-29 | The counts of two histories in a row are the sums plus one term for the seam |
| `SequenceTheorems.ShiftChangesNothing` | app/jetcam-raw-test/include/jetcam/capture_stats.hpp:16-21 | Shifting all sequence numbers by a constant modulo 2^32 changes no count |
| `SequenceTheorems.LostFrameCounted` | app/jetcam-raw-test/include/jetcam/capture_stats.hpp:16-19 | Losing an interior frame between two forward steps adds exactly one drop and no discontinuity |
| `SequenceTheorems.ZeroCountsMeanConsecutive` | app/jetcam-raw-test/src/main.cpp:722-724 | The three counts are zero if and only if the i-th sequence is (first+i) modulo 2^32 for every i and no frame is flagged |
| `SequenceTheorems.CleanMeansConsecutive` | app/jetcam-raw-test/src/main.cpp:722-724 | The same for the 64-bit counters, within `NoWrap` |
| `SequenceTheorems.VerdictTrustedIff` | app/jetcam-raw-test/src/main.cpp:722-741 | The verdict means consecutive frames for all histories of n frames if and only if n <= 8589934605; beyond, a history that loses exactly 2^64 frames passes |
| `SequenceTheorems.SecondsBetweenEnds` | app/jetcam-raw-test/include/jetcam/capture_stats.hpp:48-53 | The seconds are those between the first and the last frame, and 0 if there are none or time went back |
| `SequenceTheorems.FpsIsStepsBySeconds` | app/jetcam-raw-test/include/jetcam/capture_stats.hpp:55-60 | The rate times the seconds is the number of frames less one |
| `SequenceTheorems.FpsWithinGapBounds` | app/jetcam-raw-test/include/jetcam/capture_stats.hpp:48-60 | If all timestamp gaps lie in [lo,hi], lo > 0, the rate lies in [1/hi,1/lo] |
| `CaptureFlow.Kernel.Call` | app/jetcam-raw-test/src/main.cpp:67-92 | One system call, which must be the one that has to come: takes the next reply of an arbitrary script, and delivers its stop signal; the log holds exactly the replies of the environment up to there |
| `CaptureFlow.RepliesDecideLog` | app/jetcam-raw-test/src/main.cpp:638-742 | The options and the replies determine the calls: two logs that follow the course of a run and have the same replies are equal |
| `CaptureDevice.Xioctl` | app/jetcam-raw-test/src/main.cpp:86-92 | An interrupted ioctl is repeated until it is not, or a stop signal is pending; the repetitions change nothing but what the driver fills meanwhile |
| `CaptureDevice.V4l2Device.Open` | app/jetcam-raw-test/src/main.cpp:274-279 | An opened device, or the error with nothing held |
| `CaptureDevice.V4l2Device.AllocateBuffers` | app/jetcam-raw-test/src/main.cpp:416-445 | All buffers the driver granted, at least two, are mapped and idle, numbered from 0; on any error the mapped ones are exactly those the device object knows |
| `CaptureDevice.V4l2Device.StartStreaming` | app/jetcam-raw-test/src/main.cpp:447-463 | All mapped buffers queued once each, then the stream is on |
| `CaptureDevice.V4l2Device.PollAgain` | app/jetcam-raw-test/src/main.cpp:466-472 | A poll is repeated while it is interrupted and no stop signal is pending, and is made only while the driver has every buffer |
| `CaptureDevice.V4l2Device.WaitForFrame` | app/jetcam-raw-test/src/main.cpp:465-486 | A timeout, a ready frame or a stop signal, or the error the reply calls for |
| `CaptureDevice.V4l2Device.Dequeue` | app/jetcam-raw-test/src/main.cpp:488-503 | The dequeued buffer becomes the only held one, its index and size fit its mapping, and frame and image are recorded; none after EAGAIN, an error otherwise |
| `CaptureDevice.V4l2Device.Requeue` | app/jetcam-raw-test/src/main.cpp:505-510 | The held buffer, and only it, goes back to the driver |
| `CaptureDevice.V4l2Device.WriteSome` | app/jetcam-raw-test/src/main.cpp:523-526 | One write of the rest: the file grows by the bytes the call took, which lie in the mapping |
| `CaptureDevice.V4l2Device.WriteFrame` | app/jetcam-raw-test/src/main.cpp:519-535 | For any sequence of short writes and interruptions: on success the file holds all bytesused bytes, on an error the first ones; calls made <= bytes + interruptions + 2 |
| `CaptureDevice.V4l2Device.SaveBuffer` | app/jetcam-raw-test/src/main.cpp:512-541 | The file is opened once and closed on every path; it holds all bytes of the held frame, or a prefix of them and an error is raised |
| `CaptureDevice.V4l2Device.StopStreaming` | app/jetcam-raw-test/src/main.cpp:543-553 | The stream is off, or the error is raised and recorded |
| `CaptureDevice.V4l2Device.StopStreamingNoexcept` | app/jetcam-raw-test/src/main.cpp:618-625 | One attempt to stop the stream if it is on, whatever it returns |
| `CaptureDevice.V4l2Device.Destroy` | app/jetcam-raw-test/src/main.cpp:284-294 | From any state of the object: stream off if it was on, then each mapping once, then the descriptor; afterwards everything is released |
| `CaptureRun.TakeFrame` | app/jetcam-raw-test/src/main.cpp:682-693 | The frame is counted; the save_at-th one is saved whole before it is requeued, or requeued and refused if flagged; otherwise nothing is written |
| `CaptureRun.CaptureLoop` | app/jetcam-raw-test/src/main.cpp:662-707 | At every loop head: all buffers with the driver, `saved` if and only if frames >= save_at, the file holds exactly the save_at-th frame; ends by timeout, signal, limit or the recorded error. The limits are looked at and a frame waited for in every round before a dequeue, and the first round after a signal stops the stream |
| `CaptureRun.Conclude` | app/jetcam-raw-test/src/main.cpp:709-741 | The stream is off before the outcome is interrupted, a missing-frame error or a verdict, and the outcome is the one the recorded frames call for |
| `CaptureRun.Configure` | app/jetcam-raw-test/src/main.cpp:338-414 | Sensor mode, within the range and flags the driver reports, format and rate were accepted by the driver as the options ask, the rate as the fraction of `TimePerFrame` |
| `CaptureRun.RunCapture` | app/jetcam-raw-test/src/main.cpp:638-742 | Each call of the log is the one that has to come, given the options and the replies so far, and the run is over if and only if no other has to come. The log holds the replies of the environment, all of them if the run is not over. Whatever they are, at every moment of the log no call had misused a resource or a buffer and the record was `Orderly`: frames only from a device set up as asked, no more than the limit, the file opened at most once, just when the save_at-th frame was taken, and a prefix of that frame. When the run is over everything is released and the outcome is the one `Outcome` computes from the record |
| `FlowTheorems.CallsBounded` | app/jetcam-raw-test/src/main.cpp:638-742 | A run has at most 13 calls, and one more for each interruption and each format listed, 4 for each buffer granted, 3 for each dequeue that found nothing, 8 for each frame, and one for each byte of the frame that is saved; a log that follows the course and is that long is a whole run |
| `FlowTheorems.TeardownIsShort` | app/jetcam-raw-test/src/main.cpp:284-294 | Once the stream is to be stopped or the run to be unwound, at most 3 calls, one for each mapped buffer and the repeated ones follow, and nothing but the teardown |
| `FlowTheorems.SignalEndsRun` | app/jetcam-raw-test/src/main.cpp:662-678 | After a delivered stop signal only the calls that were ahead follow: in the capture loop at most 10, one for each mapped buffer, the bytes left of the frame being saved, and the repeated ones |
| `FlowTheorems.FailureEndsRun` | app/jetcam-raw-test/src/main.cpp:755-773 | From the first reply that calls for an error on, the run is being unwound, or closes the output file first |
| `CaptureRun.OrderlyAllAlong` | app/jetcam-raw-test/src/main.cpp:638-742 | Records only grow, so a record in order at the end of a log was in order at each of its prefixes |
| `SessionTheorems.EveryCallAllowed` | app/jetcam-raw-test/src/main.cpp:416-510 | A safe log was safe at every call: only held resources used, given up in order; only own buffers queued, waiting only with all buffers at the driver, one held at a time, only the held one read |
| `SessionTheorems.OneOwnerEach` | app/jetcam-raw-test/src/main.cpp:416-510 | While neither side broke the protocol, every mapped index is in exactly one of idle, queued, done and held, and at most one is held |
| `SessionTheorems.NoDequeueAfterSignal` | app/jetcam-raw-test/src/main.cpp:662-678 | No frame is asked for once a stop signal was delivered, whatever the driver did |
| `SessionTheorems.HeldIsTheDifference` | app/jetcam-raw-test/src/main.cpp:284-294 | At every moment: mappings made = unmappings + held ones, for each index; the same for the descriptor and the file; the descriptor is closed at most once |
| `SessionTheorems.ReleasedMeansBalanced` | app/jetcam-raw-test/src/main.cpp:284-294 | At the end of a run each mapping was unmapped exactly once per mapping, the descriptor closed exactly once if it was opened, the file as often as opened |
| `SessionTheorems.FirstErrorKept` | app/jetcam-raw-test/src/main.cpp:755-773 | The record keeps the error of the first reply that calls for one |
| `CaptureProcess.FirstErrorEndsRun` | app/jetcam-raw-test/src/main.cpp:755-773 | The run ends with the error of the first reply that calls for one |
| `SessionTheorems.CalmIff` | app/jetcam-raw-test/src/main.cpp:86-92 | The record shows neither error nor timeout nor failed STREAMOFF if and only if no call of the log, with its retries, was one |
| `SessionTheorems.SignalAtClockIff` | app/jetcam-raw-test/src/main.cpp:709-713 | A stop signal is pending when the clock is last read if and only if one was delivered at or before a clock reading |
| `SessionTheorems.RepliesDecideNothing` | app/jetcam-raw-test/src/main.cpp:686-689 | The refusals the loop decides on by itself are never called for by a single reply |
| `CaptureProcess.RunProcess` | app/jetcam-raw-test/src/main.cpp:746-773 | Command line to exit code: usage errors and help make no call; otherwise the exit code is that of the one outcome the record calls for: 2 if and only if a usage error, 3 any other error, 4 a timeout, 5 a failed verdict, 0 help, a listing or a passed verdict, and above 128 an interruption. Everything is released, and every moment of the log was safe and in order; there is an exit code if and only if the log is one of a whole run, and without one the log holds all replies |
| `CaptureProcess.ExitCodes` | app/jetcam-raw-test/src/main.cpp:36-42 | Which outcome has which exit code, both ways, in numbers |
| `CaptureProcess.ExitZeroMeansConsecutive` | app/jetcam-raw-test/src/main.cpp:722-741 | Without --allow-drops, and within `NoWrap`, a capture exits with 0 if and only if it reached its verdict with consecutive, unflagged frames |
| `CaptureProcess.ExitZeroIff` | app/jetcam-raw-test/src/main.cpp:638-742 | From the log alone: without --allow-drops and within `NoWrap`, exit code 0 if and only if the rate fits a fraction, no call failed, no wait timed out, no signal came before the last clock reading, the requested frame was reached, and the frames were consecutive |
| `RunExamples.EmptyVerdict` | app/jetcam-raw-test/src/main.cpp:718-741 | A verdict without a frame is a pass, and comes only from a set and elapsed duration with no frame to save |
| `RunExamples.EmptyPassIff` | app/jetcam-raw-test/src/main.cpp:662-741 | There is a log of a whole run, call by call those the program makes, that keeps every rule, releases everything and passes without a frame, if and only if a duration is set, no frame is to be saved, the options ask for a capture, and the rate fits a fraction |
| `RunExamples.WholeIsOnly` | app/jetcam-raw-test/src/main.cpp:638-742 | There is one log only for the replies of a whole run, and no shorter one is over |
| `RunExamples.RunAlong` | app/jetcam-raw-test/src/main.cpp:638-742 | In the environment of a whole log the program makes exactly its calls, and its outcome is the one the log calls for |
| `RunExamples.PassEmpty` | app/jetcam-raw-test/src/main.cpp:662-741 | The program itself passes without a frame, in an environment constructed for any such options |
| `RunExamples.PassHasFrame` | app/jetcam-raw-test/src/main.cpp:662-741 | Without a duration, or with a frame to save, every pass has a frame |
| `CaptureProcess.FrameLimitSavesFrame` | app/jetcam-raw-test/src/main.cpp:665-720 | A run that took as many frames as its limit never ends for want of the requested frame; without an error or flag the file is exactly that frame |
| `CaptureProcess.InterruptedExitIff` | app/jetcam-raw-test/src/main.cpp:709-717 | The exit code is 128 plus a signal if and only if the options ask for a capture at a rate that fits, the signal was delivered by the last clock reading, no call failed and no wait timed out, and no flagged frame was refused; the signal is the one pending at that reading |
| `CaptureProcess.InterruptedIoctlIsAnError` | app/jetcam-raw-test/src/main.cpp:86-92 | A pending signal that interrupts any ioctl but STREAMOFF ends the run with a system error, exit code 3 |
| `CaptureProcess.InterruptedStreamOffIsAnError` | app/jetcam-raw-test/src/main.cpp:543-553 | The same for STREAMOFF, unless the run had already been ended by a timeout or a flagged frame |
| `RunExamples.SignalExitsBothWays` | app/jetcam-raw-test/src/main.cpp:86-92 | For all options of a capture at a rate that fits, and any signal: logs of whole runs, call by call those the program makes, that keep every rule; one exits with 128 plus the signal, two with 3, after an interrupted dequeue and an interrupted STREAMOFF |
| `RunExamples.StopThreeWays` | app/jetcam-raw-test/src/main.cpp:86-92 | The program itself, in the environments of these three logs, ends in these three ways |
| `LogTheorems.OpensFirst` | app/jetcam-raw-test/src/main.cpp:274-317 | The first call opens the device asked for, the second reads its capabilities |
| `LogTheorems.AfterCapabilities` | app/jetcam-raw-test/src/main.cpp:296-317 | From the bits of the reply: not a capture device or no streaming ends the run; otherwise listing, mode or format comes next as the options ask |
| `LogTheorems.AfterQueryMode` | app/jetcam-raw-test/src/main.cpp:338-364 | The mode asked for is set, unless the control is read-only or the mode outside the range reported |
| `LogTheorems.AfterSetMode` | app/jetcam-raw-test/src/main.cpp:366-382 | The format of the options follows |
| `LogTheorems.AfterSetFormat` | app/jetcam-raw-test/src/main.cpp:384-414 | The fraction asked for is in lowest terms and equal to the rate in thousandths, rounded; no call but closing if the rate does not fit in 32 bits |
| `LogTheorems.AfterSetParameters` | app/jetcam-raw-test/src/main.cpp:416-422 | As many buffers are asked for as the options say |
| `LogTheorems.AfterListing` | app/jetcam-raw-test/src/main.cpp:319-336 | The next format is asked for until a call fails |
| `LogTheorems.AfterRequestBuffers` | app/jetcam-raw-test/src/main.cpp:424-431 | Fewer than two buffers end the run, otherwise buffer 0 is queried |
| `LogTheorems.AfterQueryBuffer` | app/jetcam-raw-test/src/main.cpp:431-443 | The buffer that was queried is mapped with the length reported |
| `LogTheorems.BeforeMapping` | app/jetcam-raw-test/src/main.cpp:431-443 | Every mapping of buffer i comes directly after a successful query of buffer i that reported its length, and i counts the mappings before |
| `LogTheorems.AfterMapBuffer` | app/jetcam-raw-test/src/main.cpp:431-445 | The next of the granted buffers is queried, and after the last one buffer 0 queued |
| `LogTheorems.AfterFirstQueuing` | app/jetcam-raw-test/src/main.cpp:447-463 | Before the stream is on, the next mapped buffer is queued, and after the last one the stream started |
| `LogTheorems.AfterStarting` | app/jetcam-raw-test/src/main.cpp:662-664 | The loop starts with a look at the clock, unless a signal is pending |
| `LogTheorems.LimitsDecide` | app/jetcam-raw-test/src/main.cpp:662-668 | At the head of the loop: the stream is stopped if and only if the frame limit is reached or a duration is set and over; otherwise a frame is waited for |
| `LogTheorems.WaitsWithinLimits` | app/jetcam-raw-test/src/main.cpp:665-668 | A clock reading followed by a wait was below the frame limit, and within the duration |
| `LogTheorems.AfterPoll` | app/jetcam-raw-test/src/main.cpp:465-486 | A signal stops the stream, an interruption repeats the wait; so do timeout, error and loss of the device stop it; otherwise a frame is dequeued |
| `LogTheorems.BeforeDequeue` | app/jetcam-raw-test/src/main.cpp:670-679 | A dequeue comes directly after a wait that found a frame, or repeats an interrupted one |
| `LogTheorems.AfterFailedDequeue` | app/jetcam-raw-test/src/main.cpp:488-503 | EAGAIN without a signal goes back to the head of the loop; any other failure stops the stream |
| `LogTheorems.AfterDequeue` | app/jetcam-raw-test/src/main.cpp:488-503 | A buffer that no mapping has room for stops the stream; the save_at-th unflagged frame opens the output file; any other goes back to the driver |
| `LogTheorems.BeforeOpenFile` | app/jetcam-raw-test/src/main.cpp:682-690 | The file is opened directly after the dequeue of the save_at-th frame, which is not flagged |
| `LogTheorems.AfterOpenFile` | app/jetcam-raw-test/src/main.cpp:512-526 | The frame is written from its first byte, all bytesused of them |
| `LogTheorems.AfterWriteFile` | app/jetcam-raw-test/src/main.cpp:519-535 | The rest is written from where the last write ended; an error, a write of nothing or the last byte closes the file |
| `LogTheorems.AfterCloseFile` | app/jetcam-raw-test/src/main.cpp:536-541 | The saved frame is requeued, unless a write or the closing failed |
| `LogTheorems.AfterRequeue` | app/jetcam-raw-test/src/main.cpp:682-693 | The buffer given back is the one dequeued last; the loop goes on unless the frame was to be saved and flagged |
| `LogTheorems.AfterReport` | app/jetcam-raw-test/src/main.cpp:694-707 | After a frame the loop starts again, unless a signal is pending |
| `LogTheorems.AfterStop` | app/jetcam-raw-test/src/main.cpp:709-713 | After a regular stop the clock is read; if the stop failed, the destructor tries again |
| `LogTheorems.AfterLastReading` | app/jetcam-raw-test/src/main.cpp:284-294 | Then the mappings are given up from buffer 0 on, and the descriptor |
| `LogTheorems.AfterTimeout` | app/jetcam-raw-test/src/main.cpp:672-675 | A timeout stops the stream once and unwinds the run |
| `LogTheorems.AfterUnmapBuffer` | app/jetcam-raw-test/src/main.cpp:284-294 | The next mapped buffer is unmapped, after the last one the descriptor closed |
| `LogTheorems.ClosesLast` | app/jetcam-raw-test/src/main.cpp:284-294 | Closing the descriptor is the last call, and the run is whole |
| `LogTheorems.AfterInterruption` | app/jetcam-raw-test/src/main.cpp:86-92 | An interrupted ioctl other than STREAMOFF is made again if no signal is pending |
| `LogTheorems.AfterFailedSetUp` | app/jetcam-raw-test/src/main.cpp:284-294 | A failed call of the set-up is followed by giving up what was mapped, without stopping a stream |
| `OutcomeTheorems.FramesAreDequeues` | app/jetcam-raw-test/src/main.cpp:488-503 | The i-th frame and image of the record are the sequence, the seconds and microseconds, the error flag and the bytes of the i-th successful dequeue |
| `OutcomeTheorems.SetUpErrors` | app/jetcam-raw-test/src/main.cpp:296-463 | Which reply of a call of the set-up calls for which error, in bits and numbers |
| `OutcomeTheorems.OtherErrors` | app/jetcam-raw-test/src/main.cpp:465-553 | The same for the calls of the loop, of the file and of the teardown |
| `OutcomeTheorems.ErrorIff` | app/jetcam-raw-test/src/main.cpp:755-773 | The record has an error if and only if some reply called for one |
| `OutcomeTheorems.TimeoutIff` | app/jetcam-raw-test/src/main.cpp:672-675 | The record has a timeout if and only if some poll returned 0 |
| `OutcomeTheorems.ExitCodeFromCalls` | app/jetcam-raw-test/src/main.cpp:638-742 | For any capture at a rate that fits, from its calls alone and up to 8589934605 frames: exactly when the exit code is 0, 5, 4 or above 128, and there is no other but 2 and 3 |
| `OutcomeTheorems.ExitCodeAfterError` | app/jetcam-raw-test/src/main.cpp:755-773 | If some reply calls for an error, the run ends with the error of the first such reply, code 2 for a mode out of range and 3 for any other |
| `OutcomeTheorems.ExitCodeWithoutCapture` | app/jetcam-raw-test/src/main.cpp:641-658 | Without an error a listing exits with 0, and a rate that does not fit with 2 |
| `OutcomeTheorems.SavedFileIsBuffer` | app/jetcam-raw-test/src/main.cpp:512-541 | After a verdict the file is the data of the save_at-th dequeued buffer, all of it, under the path of the options |
| `OutcomeTheorems.InterruptedBySignal` | app/jetcam-raw-test/src/main.cpp:709-717 | An exit code above 128 is 128 plus the signal that was delivered last when the clock was read last |
| `FrameRate.TimePerFrameIsTheRate` | app/jetcam-raw-test/src/main.cpp:384-401 | The fraction passed to the driver is in lowest terms, equals the rate rounded to thousandths (1000 over the floor of 1000 times the rate plus a half), is within 1/2000 of the request, and its denominator is 0 if and only if the rate is below 0.0005 |
| `FrameRate.TooLargeIff` | app/jetcam-raw-test/src/main.cpp:386-392 | A rate is refused if and only if it is above 4294967.295 |
| `FrameRate.CommonDivisorsDivideGcd` | app/jetcam-raw-test/src/main.cpp:394-396 | Every common divisor divides the divisor that is taken out |
| `CaptureOptions.ParseOptions` | app/jetcam-raw-test/src/main.cpp:178-270 | The argument loop computes `CommandLine`: terminates on every argv, with its errors in its order |
| `CaptureOptions.AcceptedIsValid` | app/jetcam-raw-test/src/main.cpp:186-268 | Every accepted command line is in all ranges, with save_at <= frame_limit when both apply |
| `CaptureOptions.AcceptedIsGroups` | app/jetcam-raw-test/src/main.cpp:178-259 | Every accepted help-free command line is a list of complete options |
| `CaptureOptions.ReadGroups` | app/jetcam-raw-test/src/main.cpp:178-259 | A list of complete options means its assignments, applied in order |
| `CaptureOptions.OnlyLastValuesMatter` | app/jetcam-raw-test/src/main.cpp:178-270 | Two valid command lines with the same last value for each option mean the same |
| `CaptureOptions.SwapKeepsMeaning` | app/jetcam-raw-test/src/main.cpp:178-270 | Adjacent options with different keys may be swapped anywhere |
| `CaptureOptions.LastWins` | app/jetcam-raw-test/src/main.cpp:178-259 | Each option has its last value, or its default |
| `CaptureOptions.FourccRoundTripIff` | app/jetcam-raw-test/src/main.cpp:94-116 | A pixel format is shown as it was typed if and only if all four characters are printable; any other character is shown as a question mark |
| `CaptureOptions.ParseUnsignedInvertsDecimal` | app/jetcam-raw-test/src/main.cpp:118-130 | Reading inverts printing for every 64-bit number |
| `CaptureOptions.UnsignedMeaningIff` | app/jetcam-raw-test/src/main.cpp:118-130 | An accepted text stands for the number it denotes if and only if that number is not negative |
| `CaptureOptions.MinusOneAfterSpace` | app/jetcam-raw-test/src/main.cpp:119-129 | The text " -1" is accepted as 2^64-1 |
| `OptionWords.DeviceReads` | app/jetcam-raw-test/src/main.cpp:186-187 | --device: any text |
| `OptionWords.WidthReads` | app/jetcam-raw-test/src/main.cpp:188-194 | --width: any text that is a number from 1 to 4294967295; any other text is refused |
| `OptionWords.HeightReads` | app/jetcam-raw-test/src/main.cpp:195-201 | --height: the same |
| `OptionWords.PixelFormatReads` | app/jetcam-raw-test/src/main.cpp:111-116 | --pixel-format: four characters, the first one the lowest byte; any other length is refused |
| `OptionWords.FpsReads` | app/jetcam-raw-test/src/main.cpp:205-207 | --fps: a positive real number; any other text is refused |
| `OptionWords.FramesReads` | app/jetcam-raw-test/src/main.cpp:208-210 | --frames: any text that is a 64-bit number; any other text is refused |
| `OptionWords.DurationReads` | app/jetcam-raw-test/src/main.cpp:211-213 | --duration: a real number that is not negative; any other text is refused |
| `OptionWords.TimeoutReads` | app/jetcam-raw-test/src/main.cpp:214-220 | --timeout-ms: a number from 1 to 2147483647; any other text is refused |
| `OptionWords.BuffersReads` | app/jetcam-raw-test/src/main.cpp:221-227 | --buffers: a number from 2 to 32; any other text is refused |
| `OptionWords.SensorModeReads` | app/jetcam-raw-test/src/main.cpp:228-239 | --sensor-mode: a number up to 9223372036854775807; any other text but none is refused |
| `OptionWords.NoSensorModeReads` | app/jetcam-raw-test/src/main.cpp:228-231 | --sensor-mode none: no mode is set |
| `OptionWords.SaveFrameReads` | app/jetcam-raw-test/src/main.cpp:240-241 | --save-frame: any text |
| `OptionWords.SaveAtReads` | app/jetcam-raw-test/src/main.cpp:242-247 | --save-at: any 64-bit number but 0; any other text is refused |
| `OptionWords.ReportIntervalReads` | app/jetcam-raw-test/src/main.cpp:248-251 | --report-interval: a positive real number; any other text is refused |
| `OptionWords.ListReads` | app/jetcam-raw-test/src/main.cpp:252-253 | --list sets list_only, and nothing else |
| `OptionWords.AllowDropsReads` | app/jetcam-raw-test/src/main.cpp:254-255 | --allow-drops sets allow_drops, and nothing else |
| `OptionWords.HelpReads` | app/jetcam-raw-test/src/main.cpp:182-185 | --help and -h end the reading, whatever follows |
| `OptionWords.UnknownOptionFails` | app/jetcam-raw-test/src/main.cpp:256-258 | Any word that is none of the seventeen is refused |
| `OptionWords.LastOptionFails` | app/jetcam-raw-test/src/main.cpp:146-152 | An option at the end of the line lacks its value |
| `OptionWords.NoArguments` | app/jetcam-raw-test/src/main.cpp:44-60 | No arguments: 120 frames of 1280x720 RG10 at 60 a second from /dev/video0, mode 4, four buffers, 2500 ms |
| `OptionWords.LineEnds` | app/jetcam-raw-test/src/main.cpp:265-269 | A frame to save beyond the frame limit is refused at the end |
| `CaptureOptions.ParseUnsignedIff` | app/jetcam-raw-test/src/main.cpp:118-130 | A text is read as n if and only if it is white space, an optional sign and digits, does not start with -, denotes a number below 2^64, and n is that number, modulo 2^64 negated after a - |
| `CommandText.FourccReads` | app/jetcam-raw-test/src/main.cpp:111-116 | Every 32-bit pixel format can be typed as four characters |
| `CommandText.AssignmentReads` | app/jetcam-raw-test/src/main.cpp:186-253 | The text of a value, given after the name of its option, sets that option to that value |
| `CommandText.ReadInvertsLine` | app/jetcam-raw-test/src/main.cpp:178-270 | For any options in range, reading the command line written from them gives exactly these options |
| `CommandText.AskableIff` | app/jetcam-raw-test/src/main.cpp:178-270 | A set of options whose real numbers can be written is the result of some command line if and only if it is in range |
| `Text.TrimSplits` | app/jetcamd/src/config.cpp:13-18 | A text is its trimmed form between white space, and the trimmed form neither starts nor ends with white space |
| `Text.TrimIgnoresPadding` | app/jetcamd/src/config.cpp:13-18 | White space around a text does not change its trimmed form |
| `DaemonConfig.ParseIntInvertsDecimal` | app/jetcamd/src/config.cpp:20-32 | Reading inverts printing exactly on [minimum, maximum], and fails with the right error elsewhere |
| `DaemonConfig.ConfigCell.ApplyAssignment` | app/jetcamd/src/config.cpp:59-97 | The one field the key names gets the value read; a failed assignment leaves the configuration unchanged |
| `DaemonConfig.ReadLine` | app/jetcamd/src/config.cpp:128-140 | One line is a comment, an assignment, or its error |
| `DaemonConfig.LoadConfig` | app/jetcamd/src/config.cpp:117-144 | The line loop computes `Load`: comments and empty lines skipped, first wrong line reported by number, then validation |
| `Daemon.ReadArguments` | app/jetcamd/src/main.cpp:125-157 | The argument loop computes `Arguments`, with its errors in its order |
| `Daemon.TrimThenSplit` | app/jetcamd/src/config.cpp:128-137 | Trimming a line before it is split at the first = gives the same trimmed key and value as splitting first |
| `Daemon.SetsMeanAppendedLines` | app/jetcamd/src/main.cpp:131-152 | After a file that loads, any list of --set texts means what the file with these lines appended means, or fails with the same error but for the line number (texts with =, no newline, not trimmed to a comment); a last line without newline included |
| `Daemon.LineEndsDoNotMatter` | app/jetcamd/src/config.cpp:126-131 | The same lines with CRLF or LF ends load alike, errors and line numbers included |
| `Daemon.LinesFoldSettings` | app/jetcamd/src/config.cpp:126-141 | Lines are a fold of their settings if all assignments are valid, and fail otherwise |
| `Daemon.LastWins` | app/jetcamd/src/config.cpp:59-97 | Each key has its last value, or its default |
| `Daemon.OnlyLastValuesMatter` | app/jetcamd/src/config.cpp:117-144 | Files with valid assignments that agree on the last value of each key load alike |
| `Daemon.SwapKeepsMeaning` | app/jetcamd/src/config.cpp:117-144 | Neighbouring right lines with different keys, or none, may change places in any file, wrong lines elsewhere included: it loads alike, errors and line numbers too |
| `Daemon.WrongLineFailsToLoad` | app/jetcamd/src/config.cpp:132-140 | A file with a wrong line does not load |
| `ConfigText.LoadedInRange` | app/jetcamd/src/config.cpp:59-115 | Every configuration that loads is in all ranges, has trimmed texts, and is validated |
| `ConfigText.ServedInRange` | app/jetcamd/src/main.cpp:130-157 | The same for every configuration the program goes on with, however files and --set arguments are mixed |
| `ConfigText.SettingReads` | app/jetcamd/src/config.cpp:59-97 | The text of a value, under its own key, is read as that setting |
| `ConfigText.LoadInvertsWritten` | app/jetcamd/src/config.cpp:117-144 | A configuration in range and validated, written as one key=value line for each field, loads as itself |
| `ConfigText.LoadedSurvivesWriting` | app/jetcamd/src/config.cpp:117-144 | Whatever file was loaded, writing the result and loading it again gives it back |
| `ConfigText.LoadableIff` | app/jetcamd/src/config.cpp:59-144 | A configuration can be loaded from some file if and only if it is in range and validated |
| `DaemonConfig.ParseIntErrors` | app/jetcamd/src/config.cpp:20-32 | Other texts are no integer if no number that fits in 64 bits stands at their front, and out of range otherwise |
| `ConfigWords.SensorIdReads` | app/jetcamd/src/config.cpp:62-63 | sensor_id: any text that is an integer from 0 to 255, whatever white space is around; any other text is refused |
| `ConfigWords.WidthReads` | app/jetcamd/src/config.cpp:64-65 | width: an integer from 16 to 8192; any other text is refused |
| `ConfigWords.HeightReads` | app/jetcamd/src/config.cpp:66-67 | height: an integer from 16 to 8192; any other text is refused |
| `ConfigWords.FramerateReads` | app/jetcamd/src/config.cpp:68-69 | framerate: an integer from 1 to 240; any other text is refused |
| `ConfigWords.BitrateReads` | app/jetcamd/src/config.cpp:70-71 | bitrate_kbps: an integer from 100 to 200000; any other text is refused |
| `ConfigWords.GopReads` | app/jetcamd/src/config.cpp:72-73 | gop: an integer from 1 to 10000; any other text is refused |
| `ConfigWords.HostReads` | app/jetcamd/src/config.cpp:74-75 | host: any text |
| `ConfigWords.PortReads` | app/jetcamd/src/config.cpp:76-77 | port: an integer from 1 to 65535; any other text is refused |
| `ConfigWords.OutputReads` | app/jetcamd/src/config.cpp:78-85 | output: udp or rtsp; any other text is refused |
| `ConfigWords.RtspPortReads` | app/jetcamd/src/config.cpp:86-87 | rtsp_port: an integer from 1 to 65535; any other text is refused |
| `ConfigWords.RtspMountReads` | app/jetcamd/src/config.cpp:88-89 | rtsp_mount: any text |
| `ConfigWords.SnapshotFileReads` | app/jetcamd/src/config.cpp:90-91 | snapshot_file: any text |
| `ConfigWords.ParseBoolReads` | app/jetcamd/src/config.cpp:34-44 | In small or large letters: true, yes, 1; false, no, 0; anything else is no boolean |
| `ConfigWords.SnapshotOnStartReads` | app/jetcamd/src/config.cpp:92-93 | snapshot_on_start: a boolean; any other text is refused |
| `ConfigWords.UnknownKeyFails` | app/jetcamd/src/config.cpp:94-96 | Any key that is none of the thirteen is refused |
| `ConfigWords.OtherLines` | app/jetcamd/src/config.cpp:128-135 | Empty lines and comments change nothing; any other line without = is refused |
| `ConfigWords.FirstWrongLine` | app/jetcamd/src/config.cpp:126-140 | The first wrong line is the one reported, counted from 1 |
| `ConfigWords.ValidIff` | app/jetcamd/src/config.cpp:99-115 | Validated if and only if 1280x720 at 60 or 1920x1080 at 30, host of letters, digits and .:-_, mount such a text after a /, snapshot file not empty and without a newline; validation changes nothing |
| `ConfigWords.NoLines` | app/jetcamd/include/jetcam/config.hpp:11-25 | An empty file: 720p60 at 6000 kbit/s over UDP to 127.0.0.1:5000 |
| `ConfigWords.ConfigReads` | app/jetcamd/src/main.cpp:133-134 | --config: the file is loaded and replaces all values, or its error ends the reading |
| `ConfigWords.SetReads` | app/jetcamd/src/main.cpp:135-142 | --set: the assignment is applied, or its error ends the reading |
| `ConfigWords.SetSplits` | app/jetcamd/src/main.cpp:136-142 | A --set text is the key before its first =, and the value after it; without = it is refused |
| `ConfigWords.PrintPipelineReads` | app/jetcamd/src/main.cpp:143-144 | --print-pipeline is remembered |
| `ConfigWords.NoMoreArguments` | app/jetcamd/src/main.cpp:152-162 | After the last argument the configuration is validated, and served if it is valid |
| `ConfigWords.HelpReads` | app/jetcamd/src/main.cpp:145-147 | --help ends the reading, whatever follows |
| `ConfigWords.OtherArgumentsFail` | app/jetcamd/src/main.cpp:148-150 | Any other word, and --config or --set at the end, is refused |
| `DaemonConfig.ParseIntIff` | app/jetcamd/src/config.cpp:20-32 | A text is read as n if and only if it is white space, an optional sign and digits, it denotes n, and n is in the range |
| `Pipeline.UdpRoundTrip` | app/jetcamd/src/pipeline.cpp:26-49 | For every validated configuration the built text decodes to its sensor id, width, height, frame rate, bit rate, GOP, host and port |
| `Pipeline.UdpTextIsInjective` | app/jetcamd/src/pipeline.cpp:26-49 | Two validated configurations have the same text if and only if they agree on these eight values |
| `Pipeline.RtspRoundTrip` | app/jetcamd/src/pipeline.cpp:51-55 | For every configuration, validated or not, the RTSP text decodes to its six numbers |
| `Pipeline.UdpSkeletonIsFixed` | app/jetcamd/src/pipeline.cpp:26-49 | The space-separated tokens of the text are the same skeleton for all validated configurations, with the values in its eight holes |
| `Pipeline.RtspSkeletonIsFixed` | app/jetcamd/src/pipeline.cpp:51-55 | The same for the RTSP text and its six holes |
| `PipelineWords.UdpTokens` | app/jetcamd/src/pipeline.cpp:26-49 | The tokens of the text of a validated configuration, written out word by word |
| `PipelineWords.RtspTokens` | app/jetcamd/src/pipeline.cpp:51-55 | The tokens of the RTSP text of any configuration, written out word by word |
| `PipelineWords.NamedElements` | app/jetcamd/src/main.cpp:202-213 | The frame probe, the closed valve and the snapshot sink have the names the program looks up |
| `PipelineWords.UdpValues` | app/jetcamd/src/pipeline.cpp:26-49 | A reader that looks for the first sensor-id=, width=, height=, framerate=, bitrate=, key-int-max=, host= or port= finds that very value of every validated configuration |
| `PipelineWords.RtspValues` | app/jetcamd/src/pipeline.cpp:51-55 | The same for the six numbers in the RTSP text, of any configuration |
| `Pipeline.HostSpacesAreTokens` | app/jetcamd/src/config.cpp:46-51 | Why the host is guarded: for any configuration, each space in the host adds exactly one token |
| `Pipeline.UnweaveInvertsWeave` | app/jetcamd/src/pipeline.cpp:26-49 | A text woven from literals and safe fields gives back the fields |
| `Pipeline.UnweaveIsExact` | app/jetcamd/src/pipeline.cpp:26-49 | Only texts woven from safe fields are decoded |
| `Pipeline.TokensAreFilledSkeleton` | app/jetcamd/src/config.cpp:46-51 | Safe fields never add, remove or move a token, for any literals |
| `SnapshotProtocol.EachOpeningAdmitsOneFrame` | app/jetcamd/src/main.cpp:37-76 | Over all interleavings: saves + (1 if the valve is open) <= requests; openings = closings + (1 if open); each closed opening let exactly one frame through, an open one at most one |
| `SnapshotProtocol.AdmittedInItsOpening` | app/jetcamd/src/main.cpp:51-76 | The k-th frame let through goes through the k-th opening |
| `SnapshotProtocol.ValveOpenIff` | app/jetcamd/src/main.cpp:37-76 | The valve is open if and only if some request came after the last closing |
| `SnapshotProtocol.RequestsConserved` | app/jetcamd/src/main.cpp:37-44 | Every request opened the valve or came while it was open |
| `SnapshotProtocol.RequestWhileOpenIsLost` | app/jetcamd/src/main.cpp:37-76 | A request that finds the valve open changes nothing, whatever steps follow |
| `SnapshotProtocol.NextFrameAdmittedIff` | app/jetcamd/src/main.cpp:37-76 | The first frame at the valve after a request is let through if and only if the branch was idle at the request |
| `SnapshotProtocol.ARequestCanBeLost` | app/jetcamd/src/main.cpp:37-76 | A run with two requests, no failure, a frame after the second, and only one image |
| `SnapshotProtocol.RunOrdered` | app/jetcamd/src/main.cpp:51-76 | Frames are let through in camera order, none twice, and none more than one frame older than the opening |
| `SnapshotProtocol.NewestIsAdmitted` | app/jetcamd/src/main.cpp:51-76 | A frame is let through only as the newest the camera has produced |
| `SnapshotProtocol.FileHoldsLastSave` | app/jetcamd/src/main.cpp:61-74 | The file holds all of the last saved image until the next write; after a failed write a prefix of the unsaved one, or what it held |
| `SnapshotProtocol.AFailedSaveLosesTheFile` | app/jetcamd/src/main.cpp:61-68 | A run in which a save that fails leaves an empty file although an earlier one succeeded |
| `SnapshotProtocol.EarlierImageSurvivesIff` | app/jetcamd/src/main.cpp:61-75 | After a failed save, and whatever follows, the earlier image is still in the file if and only if the file was not opened, or the bytes written are that image |
| `SnapshotProtocol.ReportedSaveIsWholeIff` | app/jetcamd/src/main.cpp:62-74 | A save reported as done has left the whole image if and only if the stream stored all of it, also when it was closed |
| `SnapshotProtocol.CallbackIsAtomic` | app/jetcamd/src/main.cpp:37-76 | Requests, frames and any other steps outside the callback, wherever they come between pull, write and close, change neither its result, nor the file, nor what is saved, and the valve is closed after it |
| `SnapshotProtocol.FailedPullIsAtomic` | app/jetcamd/src/main.cpp:51-56 | The same for a callback without a sample, which leaves the valve open |
| `DaemonRuntime.Runtime.RequestSnapshot` | app/jetcamd/src/main.cpp:37-44 | Opens the valve: the run gets one request longer |
| `DaemonRuntime.Runtime.PullSample` | app/jetcamd/src/main.cpp:51-56 | Without a sample the callback fails with the valve left open |
| `DaemonRuntime.Runtime.WriteFile` | app/jetcamd/src/main.cpp:61-66 | The image goes to the truncated file as far as the stream stored it in the end; the callback goes on with what the stream reported, which may be more |
| `DaemonRuntime.Runtime.CloseValve` | app/jetcamd/src/main.cpp:68-75 | The valve is closed after the write, whether it succeeded or not, and the result says which |
| `DaemonRuntime.Runtime.OnSnapshot` | app/jetcamd/src/main.cpp:51-76 | The whole callback in one go: success if and only if a sample was reported as written; the valve is closed if and only if there was a sample. `CallbackIsAtomic` says that steps of other threads in between do not matter |
| `DaemonRuntime.Runtime.OnFrame` | app/jetcamd/src/main.cpp:46-49 | The frame counter is the 64-bit count of the handed-off frames |
| `DaemonRuntime.Runtime.ReportFps` | app/jetcamd/src/main.cpp:78-88 | The difference is the number of frames since the last report, if no stretch between reports has 2^64 frames, and the rate times the seconds since that report is the difference; there is no finite rate if no time has passed |
| `FrameMeter.ReportsAreExact` | app/jetcamd/src/main.cpp:78-88 | Differences are exact even after the counter has wrapped |
| `FrameMeter.ReportsTelescope` | app/jetcamd/src/main.cpp:46-88 | The printed differences and the frames since the last report add up to all frames |

## Left out

- Console output, usage texts, log formats, `print_config`, `output_mode_name` and the RTSP factory text, a constant.
- Enumerating sizes and intervals: the listing is one loop of VIDIOC_ENUM_FMT calls.
- The wall clock and the report interval: a clock call answers whether the duration is over.
- Signals take effect at system calls; one delivered between two calls is seen with the next one.
- `strtod` and the finiteness check are a parameter that turns a text into a real number or refuses it. Doubles are
  reals and timestamps are exact, so rounding is not modelled. `CommandText.AskableIff` is about options whose real numbers
  the parameter reads from some text.
- `strtoull` and `stol` read base 10 in the C locale; a character is one unsigned byte, as `char` is on the Jetson.
- Addresses: a mapping is identified by its buffer index. The memory of a held buffer does not change, write(2)
  reports no more than it was asked for, and munmap and close always take effect.
- `SnapshotProtocol.FileHoldsLastSave`: assumes that what the stream reports as written is stored in the end
  (`SnapshotProtocol.Honest`); without it, `SnapshotProtocol.ReportedSaveIsWholeIff` holds.
- `app/jetcamd/src/rtsp_server.cpp`, element creation, bus messages, reference counts and the gst-launch grammar:
  a pipeline text is literals, values and tokens.
- Handling of arguments by `gst_init`, and memory exhaustion.
- Driver patches, device trees, scripts, baselines.
