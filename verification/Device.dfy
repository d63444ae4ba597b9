/** The capture device of jetcam-raw-test: buffers, streaming, and the calls around one frame. */
module CaptureDevice {
  import opened MachineTypes
  import opened KernelInterface
  import opened SequenceAccounting
  import opened CaptureSession
  import opened CaptureFlow

  // ---------- How a session may stand between calls ----------

  function Upto(n: nat): (s: set<nat>)
    ensures forall i: nat :: i in s <==> i < n
  {
    if n == 0 then {} else Upto(n - 1) + {n - 1}
  }

  /** Unless the driver broke the protocol, the buffers are shared out like this. */
  ghost predicate Shares(o: Ownership, idle: set<nat>, driver: set<nat>, held: set<nat>) {
    o.blame.NoOne? ==>
      && o.idle == idle && o.held == held
      && o.queued + o.done == driver && o.queued !! o.done
  }

  /** From o to p the driver may have filled buffers, or broken the protocol; nothing else happened. */
  ghost predicate Quiet(o: Ownership, p: Ownership) {
    && (p.blame.Program? ==> o.blame.Program?)
    && (p.blame.NoOne? ==>
      && o.blame.NoOne? && p.idle == o.idle && p.held == o.held
      && p.queued + p.done == o.queued + o.done
      && (o.queued !! o.done ==> p.queued !! p.done))
  }

  /** From s to t the program waited, through attempts at the request that came to nothing. */
  ghost predicate Waited(s: Session, t: Session, request: Request) {
    && (t.res == s.res || (request.StreamOff? && s.res.stream.On? && t.res == s.res.(stream := StopAsked)))
    && Quiet(s.own, t.own)
    && t.cap == s.cap && t.signal == s.signal && t.signalAtClock == s.signalAtClock
  }

  ghost predicate Allowed(s: Session, request: Request) {
    && ResourcesAllow(s.res, s.signal, request)
    && (s.own.blame.NoOne? ==> OwnershipAllows(s.own, s.res.stream, request))
  }

  lemma FailedAttempt(s: Session, request: Request, reply: Reply)
    requires IsIoctl(request) && Allowed(s, request)
    requires reply.errno == EINTR && reply.signal == 0 && s.signal == 0
    ensures var t := Step(s, Entry(request, reply)); Waited(s, t, request) && Allowed(t, request)
  {
  }

  lemma WaitedTwice(s: Session, t: Session, u: Session, request: Request)
    requires Waited(s, t, request) && Waited(t, u, request)
    ensures Waited(s, u, request)
  {
  }

  /** An ioctl that is repeated while it is interrupted and no stop signal is pending. */
  method Xioctl(os: Kernel, request: Request) returns (reply: Option<Reply>, ghost before: Session)
    requires os.Valid() && IsIoctl(request) && Allowed(os.now, request)
    requires Next(os.plan, os.flow) == Some(request) && !os.flow.point.Abandoning?
    modifies os
    ensures os.Valid() && Waited(old(os.now), before, request) && Allowed(before, request)
    ensures reply.None? ==> os.script == [] && os.now == before && os.flow == old(os.flow)
    ensures reply.Some? ==>
      && os.now == Step(before, Entry(request, reply.value))
      && Moved(os.plan, old(os.flow), os.now, Entry(request, reply.value), os.flow)
    ensures reply.Some? && reply.value.errno == EINTR ==> os.stopSignal != 0
    ensures |os.script| <= |old(os.script)| && (reply.Some? ==> |os.script| < |old(os.script)|)
  {
    before := os.now;
    reply := os.Call(request);
    while reply.Some? && reply.value.errno == EINTR && os.stopSignal == 0
      invariant os.Valid() && Waited(old(os.now), before, request) && Allowed(before, request)
      invariant reply.None? ==> os.script == [] && os.now == before && os.flow == old(os.flow)
      invariant reply.Some? ==>
        && os.now == Step(before, Entry(request, reply.value))
        && Moved(os.plan, old(os.flow), os.now, Entry(request, reply.value), os.flow)
      invariant |os.script| <= |old(os.script)| && (reply.Some? ==> |os.script| < |old(os.script)|)
      decreases |os.script|, reply.Some?
    {
      FailedAttempt(before, request, reply.value);
      RetryMoves(os.plan, old(os.flow), os.now, Entry(request, reply.value), os.flow);
      WaitedTwice(old(os.now), before, os.now, request);
      before := os.now;
      reply := os.Call(request);
    }
  }

  // ---------- What one call changes ----------

  lemma ShapeKept(s: Session, t: Session, request: Request, idle: set<nat>, driver: set<nat>, held: set<nat>)
    requires Waited(s, t, request) && Shares(s.own, idle, driver, held)
    ensures Shares(t.own, idle, driver, held)
  {
  }

  /** The record with one more reply: it may end the run. */
  ghost function Noting(c: Capture, error: Option<Error>): Capture {
    if c.fatal.None? then c.(fatal := error) else c
  }

  /** No reply called for an error yet. */
  ghost predicate Untroubled(c: Capture) {
    c.fatal.None? && c.stopError.None?
  }

  /** Only the error a call raised was noted. */
  ghost predicate Raises<T>(before: Capture, now: Capture, r: Attempt<T>) {
    now == if r.Raised? then Noting(before, Some(r.error)) else before
  }

  /** The record with the settings one more call made. */
  ghost function Settled(c: Capture, e: Entry): Capture {
    c.(settings := AfterSettings(c.settings, e))
  }

  /** Any ioctl that touches neither buffers nor stream. */
  lemma ControlStep(s: Session, request: Request, reply: Reply, idle: set<nat>, driver: set<nat>, held: set<nat>)
    requires IsIoctl(request) && Allowed(s, request) && Shares(s.own, idle, driver, held)
    requires !request.QueueBuffer? && !request.DequeueBuffer? && !request.StreamOn? && !request.StreamOff?
    ensures var e := Entry(request, reply); var t := Step(s, e);
      && t.res == s.res && (t.own.blame.Program? ==> s.own.blame.Program?)
      && t.cap == Noting(Settled(s.cap, e), ErrorOf(e, s.res.regions, t.signal))
      && Shares(t.own, idle, driver, held)
  {
  }

  lemma MapStep(s: Session, i: nat, length: nat, reply: Reply, idle: set<nat>)
    requires Allowed(s, MapBuffer(i, length)) && Shares(s.own, idle, {}, {})
    ensures var t := Step(s, Entry(MapBuffer(i, length), reply));
      && t.cap == Noting(s.cap, SystemErrorOf(Entry(MapBuffer(i, length), reply)))
      && (t.own.blame.Program? ==> s.own.blame.Program?)
      && t.res == (if reply.errno == 0 then s.res.(regions := s.res.regions[i := length]) else s.res)
      && Shares(t.own, if reply.errno == 0 then idle + {i} else idle, {}, {})
  {
  }

  lemma QueueStep(s: Session, i: nat, reply: Reply, idle: set<nat>, driver: set<nat>, held: set<nat>)
    requires Allowed(s, QueueBuffer(i)) && Shares(s.own, idle, driver, held) && i !in driver
    requires reply.errno == EINTR ==> Step(s, Entry(QueueBuffer(i), reply)).signal != 0
    ensures var t := Step(s, Entry(QueueBuffer(i), reply));
      && t.res == s.res && (t.own.blame.Program? ==> s.own.blame.Program?)
      && t.cap == Noting(s.cap, SystemErrorOf(Entry(QueueBuffer(i), reply)))
      && (if reply.errno == 0 then Shares(t.own, idle - {i}, driver + {i}, held - {i})
          else Shares(t.own, idle, driver, held))
  {
  }

  lemma StreamOnStep(s: Session, reply: Reply, idle: set<nat>, driver: set<nat>, held: set<nat>)
    requires Allowed(s, StreamOn) && Shares(s.own, idle, driver, held)
    requires reply.errno == EINTR ==> Step(s, Entry(StreamOn, reply)).signal != 0
    ensures var t := Step(s, Entry(StreamOn, reply));
      && t.cap == Noting(s.cap, SystemErrorOf(Entry(StreamOn, reply)))
      && (t.own.blame.Program? ==> s.own.blame.Program?)
      && t.res == (if reply.errno == 0 then s.res.(stream := On) else s.res)
      && Shares(t.own, idle, driver, held)
  {
  }

  lemma PollStep(s: Session, timeout: int, reply: Reply, driver: set<nat>)
    requires Allowed(s, Poll(timeout)) && Shares(s.own, {}, driver, {})
    ensures var t := Step(s, Entry(Poll(timeout), reply));
      && t.res == s.res && (t.own.blame.Program? ==> s.own.blame.Program?)
      && t.cap == (if reply.errno == 0 && reply.value == 0 then s.cap.(timedOut := Some(timeout))
                   else Noting(s.cap, ErrorOf(Entry(Poll(timeout), reply), s.res.regions, t.signal)))
      && Shares(t.own, {}, driver, {})
  {
  }

  /** The capture record after a buffer was taken. */
  ghost function Took(c: Capture, b: Buffer, data: seq<byte>): Capture {
    c.(memory := c.memory[b.index := data], frames := c.frames + [FrameOf(b)],
       images := c.images + [Slice(data, 0, b.bytesused)], taken := c.taken + [c.settings])
  }

  lemma DequeueStep(s: Session, reply: Reply, driver: set<nat>)
    requires Allowed(s, DequeueBuffer) && Shares(s.own, {}, driver, {})
    ensures var t := Step(s, Entry(DequeueBuffer, reply)); var b := reply.buffer;
      && t.res == s.res && (t.own.blame.Program? ==> s.own.blame.Program?)
      && (reply.errno == 0 ==> Shares(t.own, {}, driver - {b.index}, {b.index}))
      && (reply.errno != 0 ==> Shares(t.own, {}, driver, {}))
      && (reply.errno == 0 && Acceptable(s.res.regions, b) ==> t.cap == Took(s.cap, b, reply.data))
      && (reply.errno == 0 && !Acceptable(s.res.regions, b) ==>
            t.cap == Noting(s.cap.(memory := s.cap.memory[b.index := reply.data]), Some(DeviceError(InvalidBuffer))))
      && (reply.errno == EAGAIN ==> t.cap == s.cap)
      && (reply.errno != 0 && reply.errno != EAGAIN && (reply.errno == EINTR ==> t.signal != 0) ==>
            t.cap == Noting(s.cap, Some(SystemError(DequeueBuffer, reply.errno))))
  {
  }

  /** The record may have noted a failed STREAMOFF, if it is the first. */
  ghost predicate NotingStop(c: Capture, d: Capture) {
    d == c.(stopError := d.stopError) && (c.stopError.Some? ==> d == c)
  }

  lemma StreamOffStep(s: Session, reply: Reply)
    requires Allowed(s, StreamOff)
    ensures var t := Step(s, Entry(StreamOff, reply));
      && NotingStop(s.cap, t.cap)
      && (reply.errno == 0 ==> t.cap == s.cap)
      && (reply.errno != 0 && (reply.errno == EINTR ==> t.signal != 0) && s.cap.stopError.None? ==>
            t.cap.stopError == Some(reply.errno))
      && (t.own.blame.Program? ==> s.own.blame.Program?)
      && t.res == s.res.(stream := t.res.stream) && !t.res.stream.On?
      && (reply.errno == 0 ==> t.res.stream.Off?)
      && t.signalAtClock == s.signalAtClock
  {
  }

  lemma UnmapStep(s: Session, i: nat, reply: Reply)
    requires ResourcesAllow(s.res, s.signal, UnmapBuffer(i))
    ensures var t := Step(s, Entry(UnmapBuffer(i), reply));
      && t.cap == s.cap && (t.own.blame.Program? ==> s.own.blame.Program?)
      && t.res == s.res.(regions := s.res.regions - {i})
      && t.signalAtClock == s.signalAtClock
  {
  }

  lemma CloseStep(s: Session, reply: Reply)
    requires ResourcesAllow(s.res, s.signal, CloseDevice)
    ensures var t := Step(s, Entry(CloseDevice, reply));
      && t.cap == s.cap && (t.own.blame.Program? ==> s.own.blame.Program?)
      && t.res == s.res.(attached := false, detached := true)
      && t.signalAtClock == s.signalAtClock
  {
  }

  lemma OpenFileStep(s: Session, path: string, reply: Reply, driver: set<nat>, held: set<nat>)
    requires Allowed(s, OpenFile(path)) && Shares(s.own, {}, driver, held)
    ensures var t := Step(s, Entry(OpenFile(path), reply));
      && t.res == s.res.(fileOpen := reply.errno == 0) && (t.own.blame.Program? ==> s.own.blame.Program?)
      && Shares(t.own, {}, driver, held)
      && t.cap == (if reply.errno == 0 then s.cap.(file := Some(File(path, [])),
                                                     openings := s.cap.openings + [|s.cap.frames|])
                   else Noting(s.cap, Some(SystemError(OpenFile(path), reply.errno))))
  {
  }

  /** The error of a write(2) that took some bytes, or none: an interrupted one has none. */
  ghost function WriteError(i: nat, offset: nat, size: nat, amount: nat, errno: nat): Option<Error> {
    if errno == EINTR || amount > 0 then None
    else Some(SystemError(WriteFile(i, offset, size), if errno != 0 then errno else EIO))
  }

  /** A file holding the first bytes of a frame gets the bytes that follow. */
  lemma WriteStep(s: Session, i: nat, offset: nat, size: nat, reply: Reply, path: string, driver: set<nat>)
    requires Allowed(s, WriteFile(i, offset, size)) && Shares(s.own, {}, driver, {i}) && size > 0
    requires i in s.cap.memory && s.cap.file == Some(File(path, Slice(s.cap.memory[i], 0, offset)))
    ensures var t := Step(s, Entry(WriteFile(i, offset, size), reply));
      var amount := if reply.errno == 0 then Written(reply, size) else 0;
      && t.res == s.res && (t.own.blame.Program? ==> s.own.blame.Program?)
      && Shares(t.own, {}, driver, {i})
      && t.cap == Noting(s.cap.(file := Some(File(path, Slice(s.cap.memory[i], 0, offset + amount)))),
                         WriteError(i, offset, size, amount, reply.errno))
  {
    if reply.errno == 0 {
      SliceJoins(s.cap.memory[i], offset, Written(reply, size));
    }
  }

  lemma CloseFileStep(s: Session, reply: Reply, driver: set<nat>, held: set<nat>)
    requires Allowed(s, CloseFile) && Shares(s.own, {}, driver, held)
    ensures var t := Step(s, Entry(CloseFile, reply));
      && t.res == s.res.(fileOpen := false) && (t.own.blame.Program? ==> s.own.blame.Program?)
      && Shares(t.own, {}, driver, held)
      && t.cap == Noting(s.cap, SystemErrorOf(Entry(CloseFile, reply)))
  {
  }

  /** The file holds the first bytes of the frame in buffer i; only an error was noted besides. */
  ghost predicate Saving(before: Capture, now: Capture, i: nat, path: string, offset: nat, error: Option<Error>)
    requires i in before.memory
  {
    now == before.(file := Some(File(path, Slice(before.memory[i], 0, offset))),
                   openings := before.openings + [|before.frames|],
                   fatal := error)
  }

  lemma ClockStep(s: Session, reply: Reply)
    requires !s.own.blame.Program?
    ensures var t := Step(s, Entry(ReadClock, reply));
      && t.res == s.res && Quiet(s.own, t.own) && !t.own.blame.Program?
      && t.cap == (if reply.value != 0 then s.cap.(elapsed := true) else s.cap)
      && t.signalAtClock == t.signal
  {
  }

  ghost predicate SavingPart(before: Capture, now: Capture, i: nat, path: string, size: nat, error: Option<Error>)
    requires i in before.memory
  {
    exists k :: 0 <= k <= size && Saving(before, now, i, path, k, error)
  }

  /** The record of an opened device, before anything was set. */
  ghost function AttachedTo(path: string): Capture {
    START.cap.(settings := NOTHING_SET.(device := Some(path)))
  }

  /** The settings of a device that was opened and identified. */
  ghost function IdentifiedAs(path: string): Settings {
    NOTHING_SET.(device := Some(path), identified := true)
  }

  /** From c to d only settings changed. */
  ghost predicate OnlySettings(c: Capture, d: Capture) {
    d == c.(settings := d.settings)
  }

  // ---------- The device ----------

  datatype MappedBuffer = MappedBuffer(length: nat)

  function Regions(buffers: seq<MappedBuffer>): (m: map<nat, nat>)
    ensures m.Keys == Upto(|buffers|)
    ensures forall i: nat :: i < |buffers| ==> m[i] == buffers[i].length
  {
    map i: nat | i in Upto(|buffers|) :: buffers[i].length
  }

  lemma RegionsExtend(buffers: seq<MappedBuffer>, length: nat)
    ensures Regions(buffers + [MappedBuffer(length)]) == Regions(buffers)[|buffers| := length]
  {
  }

  class V4l2Device {
    const os: Kernel
    var buffers: seq<MappedBuffer>
    var streaming: bool

    ghost predicate Valid()
      reads this, os
    {
      && os.Valid() && Safe(os.now) && os.now.res.attached
      && os.now.res.regions == Regions(buffers)
      && (os.now.res.stream.On? ==> streaming)
    }

    /** Every buffer is the program's and none was queued yet. */
    ghost predicate Waiting()
      reads this, os
    {
      Valid() && !streaming && !os.now.res.fileOpen && Shares(os.now.own, Upto(|buffers|), {}, {})
    }

    ghost predicate Prepared()
      reads this, os
    {
      Waiting() && Untroubled(os.now.cap)
    }

    /** The stream is on and the driver has every buffer but the held ones. */
    ghost predicate Running(held: set<nat>)
      reads this, os
    {
      && Valid() && streaming && os.now.res.stream.On? && !os.now.res.fileOpen
      && Shares(os.now.own, {}, Upto(|buffers|) - held, held)
    }

    ghost predicate Flowing(held: set<nat>)
      reads this, os
    {
      Running(held) && Untroubled(os.now.cap)
    }

    /** The run stands at this call. */
    ghost predicate At(p: Point)
      reads this, os
    {
      os.flow.point == p && os.flow.buffers == |buffers| && os.flow.streaming == streaming
    }

    /** The next call is the first of the destructor. */
    ghost predicate Unwinding()
      reads this, os
    {
      At(UnwindPoint(|buffers|, streaming))
    }

    /** The run goes on at this call, is to be unwound, or lacks an answer. */
    ghost predicate Stands<T>(r: Attempt<T>, p: Point)
      reads this, os
    {
      if r.Pending? then os.Cut() else if r.Raised? then Unwinding() else At(p)
    }

    constructor (os: Kernel)
      ensures this.os == os && buffers == [] && !streaming
    {
      this.os, buffers, streaming := os, [], false;
    }

    static method Open(os: Kernel, path: string) returns (r: Attempt<V4l2Device>)
      requires os.Valid() && os.now == START && os.flow == START_FLOW && os.plan.device == path
      modifies os
      ensures os.Valid() && Safe(os.now)
      ensures Raises(if r.Value? then AttachedTo(path) else START.cap, os.now.cap, r)
      ensures r.Pending? ==> os.Cut()
      ensures r.Raised? ==> Released(os.now.res) && os.flow.point.Ended?
      ensures r.Value? ==> fresh(r.value) && r.value.os == os && r.value.Prepared() && r.value.buffers == []
      ensures r.Value? ==> r.value.At(Identifying)
    {
      var reply := os.Call(OpenDevice(path));
      if reply.None? {
        return Pending;
      }
      OpeningMoves(os.plan, START_FLOW, os.now, Entry(OpenDevice(path), reply.value), os.flow);
      if reply.value.errno != 0 {
        return Raised(SystemError(OpenDevice(path), reply.value.errno));
      }
      var device := new V4l2Device(os);
      r := Value(device);
      assert Upto(0) == {};
    }

    /** One control ioctl before streaming. */
    method Ask(request: Request) returns (reply: Option<Reply>)
      requires Prepared() && IsIoctl(request)
      requires !request.QueueBuffer? && !request.DequeueBuffer? && !request.StreamOn? && !request.StreamOff?
      requires Next(os.plan, os.flow) == Some(request)
      modifies os
      ensures Waiting()
      ensures reply.None? ==> os.script == [] && os.now.cap == old(os.now.cap) && os.flow == old(os.flow)
      ensures reply.Some? ==>
        && Moved(os.plan, old(os.flow), os.now, Entry(request, reply.value), os.flow)
        && (reply.value.errno == EINTR ==> os.stopSignal != 0)
        && os.now.cap == Noting(Settled(old(os.now.cap), Entry(request, reply.value)),
                                ErrorOf(Entry(request, reply.value), os.now.res.regions, os.stopSignal))
        && |os.script| < |old(os.script)|
    {
      ghost var before;
      reply, before := Xioctl(os, request);
      ghost var all := Upto(|buffers|);
      ShapeKept(old(os.now), before, request, all, {}, {});
      if reply.Some? {
        ControlStep(before, request, reply.value, all, {}, {});
      }
    }

    /** A control ioctl whose error becomes a system error. */
    method Control(request: Request) returns (r: Attempt<Reply>)
      requires Prepared() && IsIoctl(request) && !request.EnumerateFormat?
      requires !request.QueueBuffer? && !request.DequeueBuffer? && !request.StreamOn? && !request.StreamOff?
      requires At(os.flow.point) && IsControl(os.flow.point) && Next(os.plan, os.flow) == Some(request)
      modifies os
      ensures Waiting()
      ensures r.Pending? ==> os.Cut()
      ensures !r.Value? ==> Raises(old(os.now.cap), os.now.cap, r)
      ensures r.Value? ==>
        && r.value.errno == 0
        && os.now.cap == Noting(Settled(old(os.now.cap), Entry(request, r.value)),
                                ErrorOf(Entry(request, r.value), os.now.res.regions, os.stopSignal))
      ensures r.Raised? ==> Unwinding()
      ensures r.Value? ==>
        os.flow == ControlledFlow(os.plan, old(os.flow), os.now, Entry(request, r.value))
    {
      ghost var f := os.flow;
      var reply := Ask(request);
      if reply.None? {
        return Pending;
      }
      ControlMoves(os.plan, f, os.now, Entry(request, reply.value), os.flow);
      if reply.value.errno != 0 {
        return Raised(SystemError(request, reply.value.errno));
      }
      r := Value(reply.value);
    }

    method AllocateBuffers(requestedCount: uint32) returns (r: Attempt<()>)
      requires Prepared() && buffers == [] && At(Requesting) && os.plan.bufferCount == requestedCount
      modifies this, os
      ensures Waiting() && Raises(old(os.now.cap).(settings := os.now.cap.settings), os.now.cap, r)
      ensures Stands(r, Queuing(0))
      ensures r.Value? ==>
        && 2 <= |buffers| == os.flow.granted
        && os.now.cap.settings == old(os.now.cap.settings).(buffers := Some(requestedCount))
    {
      var request :- Control(RequestBuffers(requestedCount));
      if request.value < 2 {
        return Raised(DeviceError(TooFewBuffers));
      }
      ghost var settings := old(os.now.cap.settings).(buffers := Some(requestedCount));
      for index := 0 to request.value
        invariant Prepared() && |buffers| == index && os.flow.granted == request.value
        invariant At(if index < request.value then Querying else Queuing(0))
        invariant os.now.cap == old(os.now.cap).(settings := settings)
      {
        var _ :- MapNext(index);
      }
      r := Value(());
    }

    /** Maps one of the granted buffers. */
    method MapNext(index: nat) returns (r: Attempt<()>)
      requires Prepared() && |buffers| == index < os.flow.granted && At(Querying)
      modifies this, os
      ensures Waiting() && Raises(old(os.now.cap), os.now.cap, r)
      ensures Stands(r, if index + 1 < os.flow.granted then Querying else Queuing(0))
      ensures r.Value? ==> |buffers| == index + 1 && os.flow.granted == old(os.flow.granted)
    {
      var buffer :- Control(QueryBuffer(index));
      var length := buffer.value;
      ghost var before, f := os.now, os.flow;
      var address := os.Call(MapBuffer(index, length));
      if address.None? {
        return Pending;
      }
      MapMoves(os.plan, f, os.now, Entry(MapBuffer(index, length), address.value), os.flow);
      MapStep(before, index, length, address.value, Upto(|buffers|));
      if address.value.errno != 0 {
        return Raised(SystemError(MapBuffer(index, length), address.value.errno));
      }
      RegionsExtend(buffers, length);
      assert Upto(index + 1) == Upto(index) + {index};
      buffers := buffers + [MappedBuffer(length)];
      r := Value(());
    }

    /** The first buffers are the driver's, the others are idle, and the stream is off. */
    ghost predicate Filling(queued: nat)
      reads this, os
    {
      && Valid() && !streaming && !os.now.res.fileOpen
      && Shares(os.now.own, Upto(|buffers|) - Upto(queued), Upto(queued), {})
    }

    method StartStreaming() returns (r: Attempt<()>)
      requires Prepared() && At(Queuing(0)) && buffers != []
      modifies this, os
      ensures Valid() && !os.now.res.fileOpen && buffers == old(buffers)
      ensures Raises(old(os.now.cap), os.now.cap, r)
      ensures Stands(r, HeadPoint(os.stopSignal))
      ensures r.Value? ==> Flowing({})
    {
      var _ :- QueueAll();
      r := TurnOn();
    }

    method QueueAll() returns (r: Attempt<()>)
      requires Prepared() && At(Queuing(0)) && buffers != []
      modifies os
      ensures Valid() && !os.now.res.fileOpen
      ensures Raises(old(os.now.cap), os.now.cap, r)
      ensures Stands(r, Starting)
      ensures r.Value? ==> Shares(os.now.own, {}, Upto(|buffers|), {})
    {
      assert Upto(|buffers|) - Upto(0) == Upto(|buffers|);
      for index := 0 to |buffers|
        invariant Filling(index) && os.now.cap == old(os.now.cap)
        invariant At(if index < |buffers| then Queuing(index) else Starting)
      {
        var _ :- QueueNext(index);
      }
      assert Upto(|buffers|) - Upto(|buffers|) == {};
      r := Value(());
    }

    method QueueNext(index: nat) returns (r: Attempt<()>)
      requires Filling(index) && index < |buffers| && Untroubled(os.now.cap) && At(Queuing(index))
      modifies os
      ensures Valid() && !os.now.res.fileOpen && Raises(old(os.now.cap), os.now.cap, r)
      ensures Stands(r, if index + 1 < |buffers| then Queuing(index + 1) else Starting)
      ensures r.Value? ==> Filling(index + 1)
    {
      ghost var all := Upto(|buffers|);
      var reply, before := Xioctl(os, QueueBuffer(index));
      ShapeKept(old(os.now), before, QueueBuffer(index), all - Upto(index), Upto(index), {});
      if reply.None? {
        return Pending;
      }
      QueueStep(before, index, reply.value, all - Upto(index), Upto(index), {});
      QueueMoves(os.plan, old(os.flow), os.now, Entry(QueueBuffer(index), reply.value), os.flow);
      if reply.value.errno != 0 {
        return Raised(SystemError(QueueBuffer(index), reply.value.errno));
      }
      assert all - Upto(index) - {index} == all - Upto(index + 1);
      assert Upto(index) + {index} == Upto(index + 1);
      r := Value(());
    }

    method TurnOn() returns (r: Attempt<()>)
      requires Valid() && !streaming && !os.now.res.fileOpen && Untroubled(os.now.cap) && At(Starting)
      requires Shares(os.now.own, {}, Upto(|buffers|), {})
      modifies this, os
      ensures Valid() && !os.now.res.fileOpen && buffers == old(buffers)
      ensures Raises(old(os.now.cap), os.now.cap, r)
      ensures Stands(r, HeadPoint(os.stopSignal))
      ensures r.Value? ==> Flowing({})
    {
      ghost var all := Upto(|buffers|);
      var reply, before := Xioctl(os, StreamOn);
      ShapeKept(old(os.now), before, StreamOn, {}, all, {});
      if reply.None? {
        return Pending;
      }
      StreamOnStep(before, reply.value, {}, all, {});
      StartMoves(os.plan, old(os.flow), os.now, Entry(StreamOn, reply.value), os.flow);
      if reply.value.errno != 0 {
        return Raised(SystemError(StreamOn, reply.value.errno));
      }
      streaming := true;
      assert all - {} == all;
      r := Value(());
    }

    /** The record after a poll. */
    ghost function Polled(c: Capture, timeoutMs: int, reply: Reply): Capture
      reads os
    {
      if reply.errno == 0 && reply.value == 0 then c.(timedOut := Some(timeoutMs))
      else Noting(c, ErrorOf(Entry(Poll(timeoutMs), reply), os.now.res.regions, os.stopSignal))
    }

    /** One poll, which is to be repeated if it is interrupted and no stop signal is pending. */
    method PollOnce(timeoutMs: int) returns (reply: Option<Reply>)
      requires Flowing({}) && At(Polling) && os.plan.timeoutMs == timeoutMs
      modifies os
      ensures Running({})
      ensures reply.None? ==> os.now.cap == old(os.now.cap) && os.script == [] && os.flow == old(os.flow)
      ensures reply.Some? ==>
        && os.now.cap == Polled(old(os.now.cap), timeoutMs, reply.value)
        && os.flow == OnwardPolling(old(os.flow), os.now, Entry(Poll(timeoutMs), reply.value))
        && |os.script| < |old(os.script)|
    {
      ghost var all, before := Upto(|buffers|), os.now;
      assert all - {} == all;
      reply := os.Call(Poll(timeoutMs));
      if reply.Some? {
        PollStep(before, timeoutMs, reply.value, all);
        PollMoves(os.plan, old(os.flow), os.now, Entry(Poll(timeoutMs), reply.value), os.flow);
      }
    }

    /** A poll that is repeated while it is interrupted and no stop signal is pending. */
    method PollAgain(timeoutMs: int) returns (reply: Option<Reply>)
      requires Flowing({}) && At(Polling) && os.plan.timeoutMs == timeoutMs
      modifies os
      ensures Running({})
      ensures reply.None? ==> os.now.cap == old(os.now.cap) && os.script == [] && os.flow == old(os.flow)
      ensures reply.Some? ==>
        && os.now.cap == Polled(old(os.now.cap), timeoutMs, reply.value)
        && (reply.value.errno == EINTR ==> os.stopSignal != 0)
        && os.flow == OnwardPolling(old(os.flow), os.now, Entry(Poll(timeoutMs), reply.value))
      ensures |os.script| <= |old(os.script)| && (reply.Some? ==> |os.script| < |old(os.script)|)
    {
      reply := PollOnce(timeoutMs);
      while reply.Some? && reply.value.errno == EINTR && os.stopSignal == 0
        invariant Running({})
        invariant reply.None? ==> os.now.cap == old(os.now.cap) && os.script == [] && os.flow == old(os.flow)
        invariant reply.Some? ==>
          && os.now.cap == Polled(old(os.now.cap), timeoutMs, reply.value)
          && os.flow == OnwardPolling(old(os.flow), os.now, Entry(Poll(timeoutMs), reply.value))
        invariant |os.script| <= |old(os.script)| && (reply.Some? ==> |os.script| < |old(os.script)|)
        decreases |os.script|, reply.Some?
      {
        reply := PollOnce(timeoutMs);
      }
    }

    /** Whether to go on after waiting: false for a timeout, true for a frame or a stop signal. */
    method WaitForFrame(timeoutMs: int) returns (r: Attempt<bool>)
      requires Flowing({}) && At(Polling) && os.plan.timeoutMs == timeoutMs
      modifies os
      ensures Running({})
      ensures if r == Value(false) then os.now.cap == old(os.now.cap).(timedOut := Some(timeoutMs))
              else Raises(old(os.now.cap), os.now.cap, r)
      ensures if r == Value(false) then Unwinding()
              else Stands(r, if os.stopSignal != 0 then Stopping else Dequeuing)
      ensures r.Pending? || r == Value(true) ==> Flowing({})
      ensures |os.script| <= |old(os.script)| && (r.Value? ==> |os.script| < |old(os.script)|)
    {
      var reply := PollAgain(timeoutMs);
      if reply.None? {
        return Pending;
      }
      if reply.value.errno != 0 {
        if reply.value.errno == EINTR && os.stopSignal != 0 {
          return Value(true);
        }
        return Raised(SystemError(Poll(timeoutMs), reply.value.errno));
      }
      if reply.value.value == 0 {
        return Value(false);
      }
      if HasBit(reply.value.value, POLLNVAL) || HasBit(reply.value.value, POLLHUP) {
        return Raised(DeviceError(Unavailable));
      }
      r := Value(true);
    }

    /** The next filled buffer, if there is one. */
    method Dequeue() returns (r: Attempt<Option<Buffer>>)
      requires Flowing({}) && os.stopSignal == 0 && At(Dequeuing)
      modifies os
      ensures Valid() && !os.now.res.fileOpen
      ensures Stands(r, if r == Value(None) then HeadPoint(os.stopSignal)
                        else if r.Value? then TakenPoint(os.plan, |os.now.cap.frames|, r.value.value)
                        else Dequeuing)
      ensures |os.script| <= |old(os.script)| && (r.Value? ==> |os.script| < |old(os.script)|)
      ensures r == Value(None) ==> Flowing({}) && os.now.cap == old(os.now.cap)
      ensures r.Value? && r.value.Some? ==>
        var b := r.value.value;
        && b.index < |buffers| && b.bytesused <= buffers[b.index].length
        && Flowing({b.index})
        && exists data :: os.now.cap == Took(old(os.now.cap), b, data)
      ensures r.Raised? ==>
        exists memory :: os.now.cap == Noting(old(os.now.cap).(memory := memory), Some(r.error))
      ensures r.Pending? ==> os.now.cap == old(os.now.cap)
    {
      ghost var all := Upto(|buffers|);
      assert all - {} == all;
      var reply, before := Xioctl(os, DequeueBuffer);
      ShapeKept(old(os.now), before, DequeueBuffer, {}, all, {});
      if reply.None? {
        return Pending;
      }
      DequeueStep(before, reply.value, all);
      DequeueMoves(os.plan, old(os.flow), os.now, Entry(DequeueBuffer, reply.value), os.flow);
      if reply.value.errno != 0 {
        if reply.value.errno == EAGAIN {
          return Value(None);
        }
        return Raised(SystemError(DequeueBuffer, reply.value.errno));
      }
      var buffer := reply.value.buffer;
      if buffer.index >= |buffers| || buffer.bytesused > buffers[buffer.index].length {
        return Raised(DeviceError(InvalidBuffer));
      }
      assert Acceptable(os.now.res.regions, buffer);
      r := Value(Some(buffer));
    }

    method Requeue(dequeued: Buffer) returns (r: Attempt<()>)
      requires dequeued.index < |buffers| && Flowing({dequeued.index})
      requires os.flow.point.Requeuing? && At(Requeuing(dequeued, os.flow.point.refused))
      modifies os
      ensures Valid() && !os.now.res.fileOpen && Raises(old(os.now.cap), os.now.cap, r)
      ensures r.Raised? ==> r.error.SystemError?
      ensures if r.Value? && old(os.flow.point.refused) then Unwinding() else Stands(r, Reporting)
      ensures |os.script| <= |old(os.script)|
      ensures r.Value? ==> Flowing({})
    {
      var i := dequeued.index;
      ghost var all := Upto(|buffers|);
      var reply, before := Xioctl(os, QueueBuffer(i));
      ShapeKept(old(os.now), before, QueueBuffer(i), {}, all - {i}, {i});
      if reply.None? {
        return Pending;
      }
      QueueStep(before, i, reply.value, {}, all - {i}, {i});
      QueueMoves(os.plan, old(os.flow), os.now, Entry(QueueBuffer(i), reply.value), os.flow);
      if reply.value.errno != 0 {
        return Raised(SystemError(QueueBuffer(i), reply.value.errno));
      }
      assert {} - {i} == {} && {i} - {i} == {} && all - {i} + {i} == all - {};
      r := Value(());
    }

    /** The output file is open and holds the first bytes of the held frame. */
    ghost predicate WritingOut(before: Capture, i: nat, path: string, offset: nat, error: Option<Error>)
      requires i in before.memory
      reads this, os
    {
      && Valid() && streaming && os.now.res.stream.On? && os.now.res.fileOpen && Untroubled(before)
      && Shares(os.now.own, {}, Upto(|buffers|) - {i}, {i})
      && Saving(before, os.now.cap, i, path, offset, error)
    }

    /** One write(2) of the rest of the held frame: the bytes it took, and its error number. */
    method WriteSome(ghost before: Capture, ghost b: Buffer, i: nat, ghost path: string, offset: nat, remaining: nat)
      returns (r: Attempt<(nat, nat)>)
      requires i < |buffers| && offset + remaining <= buffers[i].length && remaining > 0
      requires i in before.memory && WritingOut(before, i, path, offset, None)
      requires b.index == i && At(Writing(b, offset, remaining))
      modifies os
      ensures r.Pending? ==> os.Cut() && |old(os.script)| == 0
      ensures r.Pending? ==> WritingOut(before, i, path, offset, None) && os.interruptions == old(os.interruptions)
      ensures !r.Raised?
      ensures r.Value? ==> var (amount, errno) := r.value;
        && amount <= remaining && (errno != 0 ==> amount == 0)
        && At(WrittenPoint(b, offset, remaining, amount, errno))
        && WritingOut(before, i, path, offset + amount, WriteError(i, offset, remaining, amount, errno))
        && |os.script| + 1 == |old(os.script)|
        && os.interruptions == old(os.interruptions) + if errno == EINTR then 1 else 0
    {
      ghost var s := os.now;
      var written := os.Call(WriteFile(i, offset, remaining));
      if written.None? {
        return Pending;
      }
      WriteMoves(os.plan, old(os.flow), os.now, Entry(WriteFile(i, offset, remaining), written.value), os.flow);
      WriteStep(s, i, offset, remaining, written.value, path, Upto(|buffers|) - {i});
      var errno := written.value.errno;
      r := Value((if errno == 0 then Written(written.value, remaining) else 0, errno));
    }

    /** Closes the output file, after an error or at the end. */
    method CloseOutput(ghost before: Capture, ghost b: Buffer, i: nat, ghost path: string, ghost offset: nat,
                       ghost error: Option<Error>)
      returns (r: Attempt<nat>)
      requires i < |buffers| && i in before.memory && WritingOut(before, i, path, offset, error)
      requires b.index == i && At(ClosingFile(b, error.Some?))
      modifies os
      ensures !r.Raised? && Valid()
      ensures r.Pending? ==>
        && os.Cut() && |old(os.script)| == 0 && os.interruptions == old(os.interruptions)
        && Saving(before, os.now.cap, i, path, offset, error)
      ensures r.Value? ==> At(if error.Some? || r.value != 0 then UnwindPoint(|buffers|, streaming) else Requeuing(b, false))
      ensures r.Value? ==>
        && Running({i})
        && Saving(before, os.now.cap, i, path, offset,
                  if error.Some? || r.value == 0 then error else Some(SystemError(CloseFile, r.value)))
        && |os.script| + 1 == |old(os.script)| && os.interruptions >= old(os.interruptions)
    {
      ghost var s := os.now;
      var closed := os.Call(CloseFile);
      if closed.None? {
        return Pending;
      }
      CloseFileMoves(os.plan, old(os.flow), os.now, Entry(CloseFile, closed.value), os.flow);
      CloseFileStep(s, closed.value, Upto(|buffers|) - {i}, {i});
      r := Value(closed.value.errno);
    }

    /** Opens the output file and empties it. */
    method OpenOutput(ghost b: Buffer, i: nat, path: string) returns (r: Attempt<()>)
      requires i < |buffers| && i in os.now.cap.memory && Flowing({i})
      requires b.index == i && At(OpeningFile(b, path))
      modifies os
      ensures !r.Value? ==> Valid() && !os.now.res.fileOpen && Raises(old(os.now.cap), os.now.cap, r)
      ensures r.Value? ==> WritingOut(old(os.now.cap), i, path, 0, None)
      ensures r.Raised? ==> r.error.SystemError?
      ensures Stands(r, WritePoint(b, 0, b.bytesused))
      ensures r.Pending? ==> |old(os.script)| == 0 && os.interruptions == old(os.interruptions)
      ensures !r.Pending? ==> |os.script| + 1 == |old(os.script)| && os.interruptions >= old(os.interruptions)
    {
      ghost var start, s := os.now.cap, os.now;
      var output := os.Call(OpenFile(path));
      if output.None? {
        return Pending;
      }
      OpenFileMoves(os.plan, old(os.flow), os.now, Entry(OpenFile(path), output.value), os.flow);
      OpenFileStep(s, path, output.value, Upto(|buffers|) - {i}, {i});
      if output.value.errno != 0 {
        return Raised(SystemError(OpenFile(path), output.value.errno));
      }
      assert Slice(start.memory[i], 0, 0) == [];
      r := Value(());
    }

    /** Closes the file after a write that failed. */
    method AbandonFile(ghost before: Capture, ghost b: Buffer, i: nat, ghost path: string, ghost offset: nat, error: Error)
      returns (r: Attempt<()>)
      requires i < |buffers| && i in before.memory && WritingOut(before, i, path, offset, Some(error))
      requires b.index == i && At(ClosingFile(b, true))
      modifies os
      ensures Valid() && Saving(before, os.now.cap, i, path, offset, Some(error))
      ensures if r.Pending? then os.Cut() else r == Raised(error) && Unwinding() && !os.now.res.fileOpen
      ensures |os.script| <= |old(os.script)| <= |os.script| + 1 && os.interruptions >= old(os.interruptions)
    {
      var closed := CloseOutput(before, b, i, path, offset, Some(error));
      r := if closed.Pending? then Pending else Raised(error);
    }

    /** One more write, and if it fails the end of the writing: the bytes it took. */
    method WriteNext(ghost before: Capture, ghost b: Buffer, i: nat, ghost path: string, offset: nat, remaining: nat)
      returns (r: Attempt<nat>)
      requires i < |buffers| && offset + remaining <= buffers[i].length && remaining > 0
      requires i in before.memory && WritingOut(before, i, path, offset, None)
      requires b.index == i && At(Writing(b, offset, remaining))
      modifies os
      ensures r.Value? ==>
        && r.value <= remaining && WritingOut(before, i, path, offset + r.value, None)
        && At(WritePoint(b, offset + r.value, remaining - r.value))
        && |os.script| + 1 == |old(os.script)|
        && 1 <= r.value + os.interruptions - old(os.interruptions)
      ensures r.Raised? ==> r.error.SystemError? && Unwinding() && !os.now.res.fileOpen
      ensures r.Pending? ==> os.Cut()
      ensures r.Raised? ==> os.now.cap.fatal == Some(r.error)
      ensures !r.Value? ==>
        && Valid() && SavingPart(before, os.now.cap, i, path, offset + remaining, os.now.cap.fatal)
        && |os.script| <= |old(os.script)| <= |os.script| + 2 && os.interruptions >= old(os.interruptions)
    {
      var outcome := WriteSome(before, b, i, path, offset, remaining);
      if outcome.Pending? {
        assert Saving(before, os.now.cap, i, path, offset, os.now.cap.fatal);
        return Pending;
      }
      var (written, errno) := outcome.value;
      if errno == EINTR {
        return Value(0);
      }
      if errno != 0 || written == 0 {
        var error := SystemError(WriteFile(i, offset, remaining), if errno != 0 then errno else EIO);
        var abandoned := AbandonFile(before, b, i, path, offset, error);
        assert Saving(before, os.now.cap, i, path, offset, os.now.cap.fatal);
        return if abandoned.Pending? then Pending else Raised(error);
      }
      r := Value(written);
    }

    /** Writes the frame through any short writes and interruptions, closing the file on an error.
        Every call that is not interrupted makes progress, so their number is bounded. */
    method WriteFrame(ghost before: Capture, ghost b: Buffer, i: nat, ghost path: string, size: nat) returns (r: Attempt<()>)
      requires i < |buffers| && size <= buffers[i].length
      requires i in before.memory && WritingOut(before, i, path, 0, None)
      requires b.index == i && At(WritePoint(b, 0, size))
      modifies os
      ensures Stands(r, ClosingFile(b, false))
      ensures r.Value? ==> WritingOut(before, i, path, size, None)
      ensures r.Raised? ==> r.error.SystemError? && !os.now.res.fileOpen && os.now.cap.fatal == Some(r.error)
      ensures !r.Value? ==> Valid() && SavingPart(before, os.now.cap, i, path, size, os.now.cap.fatal)
      ensures |os.script| <= |old(os.script)|
      ensures |old(os.script)| - |os.script| <=
        size + os.interruptions - old(os.interruptions) + if r.Raised? then 2 else 1
    {
      var remaining, offset := size, 0;
      while remaining != 0
        invariant 0 <= remaining && 0 <= offset && offset + remaining == size
        invariant WritingOut(before, i, path, offset, None) && At(WritePoint(b, offset, remaining))
        invariant |os.script| <= |old(os.script)|
        invariant |old(os.script)| - |os.script| <= offset + os.interruptions - old(os.interruptions)
        decreases |os.script|
      {
        var outcome :- WriteNext(before, b, i, path, offset, remaining);
        offset := offset + outcome;
        remaining := remaining - outcome;
      }
      r := Value(());
    }

    /** Saves the held frame to a new file: all of it, or the start of it and an error. */
    method SaveBuffer(buffer: Buffer, path: string) returns (r: Attempt<()>)
      requires buffer.index < |buffers| && buffer.bytesused <= buffers[buffer.index].length
      requires Flowing({buffer.index}) && buffer.index in os.now.cap.memory
      requires At(OpeningFile(buffer, path))
      modifies os
      ensures Valid() && (!r.Pending? ==> !os.now.res.fileOpen)
      ensures r.Raised? ==> r.error.SystemError?
      ensures Stands(r, Requeuing(buffer, false))
      ensures |os.script| <= |old(os.script)|
      ensures |old(os.script)| - |os.script| <= buffer.bytesused + 3 + os.interruptions - old(os.interruptions)
      ensures r.Value? ==>
        Flowing({buffer.index}) && Saving(old(os.now.cap), os.now.cap, buffer.index, path, buffer.bytesused, None)
      ensures r.Raised? ==> os.now.cap.fatal == Some(r.error)
      ensures !r.Value? ==>
        || Raises(old(os.now.cap), os.now.cap, r)
        || SavingPart(old(os.now.cap), os.now.cap, buffer.index, path, buffer.bytesused, os.now.cap.fatal)
    {
      var i := buffer.index;
      ghost var start := os.now.cap;
      var _ :- OpenOutput(buffer, i, path);
      var _ :- WriteFrame(start, buffer, i, path, buffer.bytesused);
      var closed := CloseOutput(start, buffer, i, path, buffer.bytesused, None);
      if closed.Pending? {
        assert Saving(start, os.now.cap, i, path, buffer.bytesused, None);
        return Pending;
      }
      if closed.value != 0 {
        assert Saving(start, os.now.cap, i, path, buffer.bytesused, os.now.cap.fatal);
        return Raised(SystemError(CloseFile, closed.value));
      }
      r := Value(());
    }

    /** Reads the clock: whether the requested duration is over. */
    method Clock() returns (r: Attempt<bool>)
      requires Valid() && At(os.flow.point) && IsClock(os.flow.point)
      modifies os
      ensures Valid() && os.now.res == old(os.now.res) && Quiet(old(os.now.own), os.now.own)
      ensures !r.Raised? && (r.Pending? ==> os.Cut() && os.now == old(os.now))
      ensures r.Value? ==> os.flow == ClockedFlow(os.plan, old(os.flow), os.now, r.value)
      ensures old(os.stopSignal) != 0 ==> os.stopSignal != 0
      ensures |os.script| <= |old(os.script)| && (r.Value? ==> |os.script| < |old(os.script)|)
      ensures r.Value? ==>
        && os.now.cap == (if r.value then old(os.now.cap).(elapsed := true) else old(os.now.cap))
        && os.now.signalAtClock == os.stopSignal
    {
      ghost var s := os.now;
      var reply := os.Call(ReadClock);
      if reply.None? {
        return Pending;
      }
      ClockMoves(os.plan, old(os.flow), os.now, Entry(ReadClock, reply.value), os.flow);
      ClockStep(s, reply.value);
      r := Value(reply.value.value != 0);
    }

    method StopStreaming() returns (r: Attempt<()>)
      requires Valid() && !os.now.res.fileOpen && Untroubled(os.now.cap)
      requires At(if streaming then Stopping else Finishing)
      modifies this, os
      ensures Valid() && !os.now.res.fileOpen && buffers == old(buffers)
      ensures Stands(r, Finishing)
      ensures !r.Raised? ==> os.now.cap == old(os.now.cap)
      ensures r.Raised? ==>
        && r.error.SystemError? && r.error.operation == StreamOff
        && os.now.cap == old(os.now.cap).(stopError := Some(r.error.errno))
      ensures old(os.stopSignal) != 0 ==> os.stopSignal != 0
      ensures r.Value? ==> !streaming
    {
      if !streaming {
        return Value(());
      }
      var reply, before := Xioctl(os, StreamOff);
      if reply.None? {
        return Pending;
      }
      StreamOffStep(before, reply.value);
      StopMoves(os.plan, old(os.flow), os.now, Entry(StreamOff, reply.value), os.flow);
      if reply.value.errno != 0 {
        return Raised(SystemError(StreamOff, reply.value.errno));
      }
      streaming := false;
      r := Value(());
    }

    /** One attempt to stop the stream, whatever it returns. */
    method StopStreamingNoexcept() returns (r: Attempt<()>)
      requires Valid() && !os.now.res.fileOpen && Unwinding()
      modifies this, os
      ensures Valid() && !os.now.res.fileOpen && buffers == old(buffers)
      ensures NotingStop(old(os.now.cap), os.now.cap) && (!old(streaming) ==> os.now.cap == old(os.now.cap))
      ensures os.now.signalAtClock == old(os.now.signalAtClock)
      ensures !r.Raised? && (r.Pending? ==> os.Cut())
      ensures r.Value? ==> !streaming && Unwinding()
    {
      if streaming {
        ghost var before := os.now;
        var reply := os.Call(StreamOff);
        if reply.None? {
          return Pending;
        }
        StreamOffStep(before, reply.value);
        EndMoves(os.plan, old(os.flow), os.now, Entry(StreamOff, reply.value), os.flow);
        streaming := false;
      }
      r := Value(());
    }

    /** Only the mappings and the descriptor are left, and of the mappings those from index on. */
    ghost predicate Unmapped(index: nat)
      reads this, os
    {
      && os.Valid() && Safe(os.now)
      && os.now.res.attached && !os.now.res.stream.On? && !os.now.res.fileOpen
      && os.now.res.regions == Regions(buffers) - Upto(index)
      && !streaming && At(if index < |buffers| then Unmapping(index) else Closing)
    }

    method UnmapNext(index: nat) returns (r: Attempt<()>)
      requires Unmapped(index) && index < |buffers|
      modifies os
      ensures os.Valid() && Safe(os.now) && os.now.cap == old(os.now.cap)
      ensures os.now.signalAtClock == old(os.now.signalAtClock)
      ensures if r.Pending? then os.Cut() else r.Value? && Unmapped(index + 1)
    {
      ghost var before := os.now;
      var reply := os.Call(UnmapBuffer(index));
      if reply.None? {
        return Pending;
      }
      UnmapStep(before, index, reply.value);
      EndMoves(os.plan, old(os.flow), os.now, Entry(UnmapBuffer(index), reply.value), os.flow);
      assert Upto(index + 1) == Upto(index) + {index};
      r := Value(());
    }

    /** The destructor: stream, mappings, descriptor, in this order, whatever the calls return. */
    method Destroy() returns (r: Attempt<()>)
      requires Valid() && !os.now.res.fileOpen && Unwinding()
      modifies this, os
      ensures os.Valid() && Safe(os.now) && NotingStop(old(os.now.cap), os.now.cap)
      ensures !old(streaming) ==> os.now.cap == old(os.now.cap)
      ensures os.now.signalAtClock == old(os.now.signalAtClock)
      ensures !r.Raised? && (r.Pending? ==> os.Cut())
      ensures r.Value? ==> Released(os.now.res) && os.flow.point.Ended?
    {
      var _ :- StopStreamingNoexcept();
      assert Regions(buffers) - Upto(0) == Regions(buffers);
      var _ :- UnmapAll();
      r := CloseDescriptor();
    }

    method UnmapAll() returns (r: Attempt<()>)
      requires Unmapped(0)
      modifies os
      ensures os.Valid() && Safe(os.now) && os.now.cap == old(os.now.cap)
      ensures os.now.signalAtClock == old(os.now.signalAtClock)
      ensures if r.Pending? then os.Cut() else r.Value? && Unmapped(|buffers|)
    {
      for index := 0 to |buffers|
        invariant Unmapped(index) && os.now.cap == old(os.now.cap)
        invariant os.now.signalAtClock == old(os.now.signalAtClock)
      {
        var _ :- UnmapNext(index);
      }
      r := Value(());
    }

    method CloseDescriptor() returns (r: Attempt<()>)
      requires Unmapped(|buffers|)
      modifies os
      ensures os.Valid() && Safe(os.now) && os.now.cap == old(os.now.cap)
      ensures os.now.signalAtClock == old(os.now.signalAtClock)
      ensures if r.Pending? then os.Cut() else r.Value? && Released(os.now.res) && os.flow.point.Ended?
    {
      ghost var before := os.now;
      var reply := os.Call(CloseDevice);
      if reply.None? {
        return Pending;
      }
      CloseStep(before, reply.value);
      EndMoves(os.plan, old(os.flow), os.now, Entry(CloseDevice, reply.value), os.flow);
      r := Value(());
    }
  }
}
