/** What a log of system calls means: which resources are held, who owns which buffer, and what
    was captured. The functions know the calls only, not the program that makes them. */
module CaptureSession {
  import opened MachineTypes
  import opened KernelInterface
  import opened SequenceAccounting

  // ---------- Descriptors, mappings and the stream ----------

  datatype Stream = Off | On | StopAsked

  datatype Resources = Resources(attached: bool, detached: bool, regions: map<nat, nat>,
                                 stream: Stream, fileOpen: bool, fault: bool)

  /** Whether a call uses only what is held, and gives up nothing out of order: the stream
      before the mappings, the mappings before the descriptor. No frame is asked for once a stop
      signal was delivered. */
  predicate ResourcesAllow(r: Resources, signal: nat, request: Request) {
    match request
    case OpenDevice(_) => !r.attached && !r.detached
    case MapBuffer(i, _) => r.attached && i !in r.regions
    case UnmapBuffer(i) => r.attached && i in r.regions && !r.stream.On?
    case CloseDevice => r.attached && r.regions == map[] && !r.stream.On? && !r.fileOpen
    case ReadClock => true
    case OpenFile(_) => !r.fileOpen
    case WriteFile(i, offset, size) => r.fileOpen && i in r.regions && offset + size <= r.regions[i]
    case CloseFile => r.fileOpen
    case DequeueBuffer => r.attached && signal == 0
    case _ => r.attached
  }

  function AfterResources(r: Resources, signal: nat, e: Entry): Resources {
    var ok := e.reply.errno == 0;
    if !ResourcesAllow(r, signal, e.request) then r.(fault := true)
    else match e.request
      case OpenDevice(_) => if ok then r.(attached := true) else r
      case MapBuffer(i, length) => if ok then r.(regions := r.regions[i := length]) else r
      case StreamOn => if ok then r.(stream := On) else r
      case StreamOff => if ok then r.(stream := Off) else if r.stream.On? then r.(stream := StopAsked) else r
      case UnmapBuffer(i) => r.(regions := r.regions - {i})
      case CloseDevice => r.(attached := false, detached := true)
      case OpenFile(_) => if ok then r.(fileOpen := true) else r
      case CloseFile => r.(fileOpen := false)
      case _ => r
  }

  /** Everything that was acquired has been given up. */
  predicate Released(r: Resources) {
    !r.attached && r.regions == map[] && !r.stream.On? && !r.fileOpen
  }

  // ---------- Buffer ownership ----------

  /** Who broke the streaming protocol first. */
  datatype Blame = NoOne | Program | Driver

  /** Mapped buffers by owner: idle and held ones are the program's, the others the driver's. */
  datatype Ownership = Ownership(idle: set<nat>, queued: set<nat>, done: set<nat>, held: set<nat>,
                                 blame: Blame)

  /** The program queues only what it owns, waits for and takes a buffer only when the stream is on and
      the driver has every one of them, and reads only the one it holds. */
  predicate OwnershipAllows(o: Ownership, stream: Stream, request: Request) {
    match request
    case QueueBuffer(i) => i in o.idle + o.held
    case Poll(_) => stream.On? && o.idle == {} && o.held == {}
    case DequeueBuffer => stream.On? && o.idle == {} && o.held == {}
    case WriteFile(i, _, _) => o.held == {i}
    case _ => true
  }

  function AfterFilling(o: Ownership, filled: set<nat>): Ownership {
    o.(queued := o.queued - filled, done := o.done + filled)
  }

  /** The driver fills only buffers queued to a running stream, and returns only filled ones. */
  predicate DriverHonest(o: Ownership, stream: Stream, e: Entry) {
    && e.reply.filled <= o.queued && (e.reply.filled != {} ==> stream.On?)
    && (e.request.DequeueBuffer? && e.reply.errno == 0 ==> e.reply.buffer.index in o.done + e.reply.filled)
  }

  function AfterOwnership(o: Ownership, stream: Stream, e: Entry): Ownership {
    var ok := e.reply.errno == 0;
    if !o.blame.NoOne? then o
    else if !OwnershipAllows(o, stream, e.request) then o.(blame := Program)
    else if !DriverHonest(o, stream, e) then o.(blame := Driver)
    else
      var p := AfterFilling(o, e.reply.filled);
      match e.request
      case MapBuffer(i, _) => if ok then p.(idle := p.idle + {i}) else p
      case QueueBuffer(i) =>
        if ok then p.(idle := p.idle - {i}, held := p.held - {i}, queued := p.queued + {i}) else p
      case DequeueBuffer =>
        var i := e.reply.buffer.index;
        if ok then p.(done := p.done - {i}, held := p.held + {i}) else p
      case StreamOff =>
        if ok then p.(idle := p.idle + p.queued + p.done + p.held, queued := {}, done := {}, held := {}) else p
      case UnmapBuffer(i) =>
        p.(idle := p.idle - {i}, queued := p.queued - {i}, done := p.done - {i}, held := p.held - {i})
      case _ => p
  }

  // ---------- Frames, the saved file, and what ended the waiting ----------

  datatype File = File(path: string, content: seq<byte>)

  /** What the device was opened as, whether its capabilities were read, and what it was last set to,
      where the call succeeded: the format is width, height and pixel format, the rate is the time of
      one frame. */
  datatype Settings = Settings(device: Option<string>, identified: bool, mode: Option<int>,
                               format: Option<(uint32, uint32, uint32)>, rate: Option<(uint32, uint32)>,
                               buffers: Option<nat>)

  const NOTHING_SET := Settings(None, false, None, None, None, None)

  function AfterSettings(s: Settings, e: Entry): Settings {
    if e.reply.errno != 0 then s
    else match e.request
      case OpenDevice(device) => s.(device := Some(device))
      case QueryCapabilities => s.(identified := true)
      case SetMode(mode) => s.(mode := Some(mode))
      case SetFormat(width, height, pixelFormat) => s.(format := Some((width, height, pixelFormat)))
      case SetParameters(numerator, denominator) => s.(rate := Some((numerator, denominator)))
      case RequestBuffers(count) => s.(buffers := Some(count))
      case _ => s
  }

  /** settings  how the device was set up
      frames    every accepted buffer, in order, as the accounting sees it
      images    the bytes each of them held
      taken     the settings of the device when each of them was taken
      memory    the last data the driver put into each buffer
      file      the output file, once it was opened
      openings  how many frames there were each time it was opened
      fatal     the error the first reply that ends a run ends it with
      stopError the error of the first failed STREAMOFF
      timedOut  the timeout of the wait for a frame that timed out
      elapsed   the requested duration was seen to be over */
  datatype Capture = Capture(settings: Settings, frames: seq<Frame>, images: seq<seq<byte>>,
                             taken: seq<Settings>, memory: map<nat, seq<byte>>, file: Option<File>,
                             openings: seq<nat>, fatal: Option<Error>, stopError: Option<nat>,
                             timedOut: Option<int>, elapsed: bool)

  function Timestamp(b: Buffer): real {
    b.seconds as real + b.microseconds as real / 1000000.0
  }

  function FrameOf(b: Buffer): Frame {
    Frame(b.sequence, Timestamp(b), b.error)
  }

  predicate Acceptable(regions: map<nat, nat>, b: Buffer) {
    b.index in regions && b.bytesused <= regions[b.index]
  }

  predicate IsIoctl(request: Request) {
    match request
    case OpenDevice(_) => false
    case MapBuffer(_, _) => false
    case Poll(_) => false
    case UnmapBuffer(_) => false
    case CloseDevice => false
    case ReadClock => false
    case OpenFile(_) => false
    case WriteFile(_, _, _) => false
    case CloseFile => false
    case _ => true
  }

  /** An interrupted ioctl is repeated unless a stop signal is pending. */
  predicate Retried(e: Entry, signal: nat) {
    IsIoctl(e.request) && e.reply.errno == EINTR && signal == 0
  }

  function SystemErrorOf(e: Entry): Option<Error> {
    if e.reply.errno == 0 then None else Some(SystemError(e.request, e.reply.errno))
  }

  /** The error a single reply ends a run with, if it does. */
  function ErrorOf(e: Entry, regions: map<nat, nat>, signal: nat): Option<Error> {
    var errno, value := e.reply.errno, e.reply.value;
    if Retried(e, signal) then None
    else match e.request
      case QueryCapabilities =>
        if errno != 0 then SystemErrorOf(e)
        else if !HasBit(Capabilities(e.reply), CAP_VIDEO_CAPTURE) then Some(DeviceError(NotACaptureDevice))
        else if !HasBit(Capabilities(e.reply), CAP_STREAMING) then Some(DeviceError(NoStreaming))
        else None
      case EnumerateFormat(_) => if errno == EINVAL then None else SystemErrorOf(e)
      case QueryMode(wanted) =>
        if errno != 0 then SystemErrorOf(e)
        else if HasBit(value, CTRL_READ_ONLY) then Some(DeviceError(ModeReadOnly))
        else if wanted < e.reply.range.0 || wanted > e.reply.range.1 then Some(UsageError(ModeOutOfRange))
        else None
      case RequestBuffers(_) =>
        if errno != 0 then SystemErrorOf(e)
        else if value < 2 then Some(DeviceError(TooFewBuffers))
        else None
      case Poll(_) =>
        if errno != 0 then if errno == EINTR then None else SystemErrorOf(e)
        else if HasBit(value, POLLNVAL) || HasBit(value, POLLHUP) then Some(DeviceError(Unavailable))
        else None
      case DequeueBuffer =>
        if errno != 0 then if errno == EAGAIN then None else SystemErrorOf(e)
        else if !Acceptable(regions, e.reply.buffer) then Some(DeviceError(InvalidBuffer))
        else None
      case WriteFile(_, _, _) =>
        if errno != 0 then if errno == EINTR then None else SystemErrorOf(e)
        else if value == 0 then Some(SystemError(e.request, EIO))
        else None
      case StreamOff => None
      case UnmapBuffer(_) => None
      case CloseDevice => None
      case ReadClock => None
      case _ => SystemErrorOf(e)
  }

  function AfterData(c: Capture, regions: map<nat, nat>, signal: nat, e: Entry): Capture {
    var ok := e.reply.errno == 0;
    match e.request
    case DequeueBuffer =>
      var b := e.reply.buffer;
      if !ok then c
      else if !Acceptable(regions, b) then c.(memory := c.memory[b.index := e.reply.data])
      else c.(memory := c.memory[b.index := e.reply.data],
              frames := c.frames + [FrameOf(b)],
              images := c.images + [Slice(e.reply.data, 0, b.bytesused)],
              taken := c.taken + [c.settings])
    case OpenFile(path) => if ok then c.(file := Some(File(path, [])), openings := c.openings + [|c.frames|]) else c
    case WriteFile(i, offset, size) =>
      if ok && c.file.Some? && i in c.memory then
        var bytes := Slice(c.memory[i], offset, Written(e.reply, size));
        c.(file := Some(File(c.file.value.path, c.file.value.content + bytes)))
      else c
    case StreamOff =>
      if ok || Retried(e, signal) || c.stopError.Some? then c else c.(stopError := Some(e.reply.errno))
    case Poll(timeout) => if ok && e.reply.value == 0 then c.(timedOut := Some(timeout)) else c
    case ReadClock => if e.reply.value != 0 then c.(elapsed := true) else c
    case _ => c.(settings := AfterSettings(c.settings, e))
  }

  /** The record after one more call, with the signal that is pending then. */
  function AfterCapture(c: Capture, regions: map<nat, nat>, signal: nat, e: Entry): Capture {
    var d := AfterData(c, regions, signal, e);
    if c.fatal.Some? then d else d.(fatal := ErrorOf(e, regions, signal))
  }

  // ---------- Whole logs ----------

  /** signal         the last stop signal delivered, 0 for none
      signalAtClock  the signal pending when the clock was last read */
  datatype Session = Session(res: Resources, own: Ownership, cap: Capture, signal: nat, signalAtClock: nat)

  const START := Session(Resources(false, false, map[], Off, false, false),
                         Ownership({}, {}, {}, {}, NoOne),
                         Capture(NOTHING_SET, [], [], [], map[], None, [], None, None, None, false), 0, 0)

  function Step(s: Session, e: Entry): Session {
    var signal := if e.reply.signal != 0 then e.reply.signal else s.signal;
    Session(AfterResources(s.res, s.signal, e),
            AfterOwnership(s.own, s.res.stream, e),
            AfterCapture(s.cap, s.res.regions, signal, e),
            signal,
            if e.request.ReadClock? then signal else s.signalAtClock)
  }

  ghost function Replay(log: seq<Entry>): Session {
    if log == [] then START else Step(Replay(log[..|log| - 1]), log[|log| - 1])
  }

  /** The program did nothing wrong, whatever the environment did. */
  ghost predicate Safe(s: Session) {
    !s.res.fault && !s.own.blame.Program?
  }

  ghost function Interruptions(log: seq<Entry>): nat {
    if log == [] then 0
    else Interruptions(log[..|log| - 1]) + if log[|log| - 1].reply.errno == EINTR then 1 else 0
  }

  lemma ReplayExtends(log: seq<Entry>, e: Entry)
    ensures Replay(log + [e]) == Step(Replay(log), e)
    ensures Interruptions(log + [e]) == Interruptions(log) + if e.reply.errno == EINTR then 1 else 0
  {
    assert (log + [e])[..|log|] == log;
  }

  /** s is what the log means; put as a bound on its prefixes, which keeps the log out of the
      proofs about single calls. */
  ghost predicate Records(log: seq<Entry>, s: Session, interruptions: nat) {
    forall k :: |log| <= k <= |log| ==> Replay(log[..k]) == s && Interruptions(log[..k]) == interruptions
  }

  lemma RecordsReplay(log: seq<Entry>, s: Session, interruptions: nat)
    ensures Records(log, s, interruptions) <==> Replay(log) == s && Interruptions(log) == interruptions
  {
    assert log[..|log|] == log;
  }
}
