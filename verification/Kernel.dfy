/** The system calls of jetcam-raw-test and the environment that answers them.

    The environment is a finite script of replies, one for each call the program makes. Nothing
    is assumed of a script: every sequence of errors, interruptions, buffers and signals is one.
    A program that asks for more replies than the script holds is still running. */
module KernelInterface {
  import opened MachineTypes

  const EINTR := 4
  const EIO := 5
  const EAGAIN := 11
  const EINVAL := 22

  const CAP_VIDEO_CAPTURE := 0x1
  const CAP_STREAMING := 0x400_0000
  const CAP_DEVICE_CAPS := 0x8000_0000
  const CTRL_READ_ONLY := 0x4
  const POLLHUP := 0x10
  const POLLNVAL := 0x20

  predicate HasBit(word: nat, bit: nat)
    requires bit > 0
  {
    word / bit % 2 == 1
  }

  /** The fields of a v4l2_buffer the program reads. */
  datatype Buffer = Buffer(index: uint32, bytesused: uint32, sequence: uint32,
                           seconds: int, microseconds: int, error: bool)

  datatype Request =
    | OpenDevice(device: string)
    | QueryCapabilities
    | EnumerateFormat(format: nat)
    | QueryMode(wanted: int)
    | SetMode(mode: int)
    | SetFormat(width: uint32, height: uint32, pixelFormat: uint32)
    | SetParameters(numerator: uint32, denominator: uint32)
    | RequestBuffers(count: uint32)
    | QueryBuffer(query: nat)
    | MapBuffer(region: nat, length: nat)
    | QueueBuffer(index: nat)
    | StreamOn
    | Poll(timeout: int)
    | DequeueBuffer
    | StreamOff
    | UnmapBuffer(unmapped: nat)
    | CloseDevice
    | ReadClock
    | OpenFile(path: string)
    | WriteFile(source: nat, offset: nat, size: nat)
    | CloseFile

  /** What one call came back with.
      errno   0 for success
      value   a count, a length, a number of bytes, a flag word; for Poll the returned events,
              0 after a timeout; for ReadClock not 0 once the requested duration is over
      deviceCaps  for QueryCapabilities, what the opened node can do, if the flag word has the bit for it
      range   for QueryMode, the least and the greatest sensor mode
      buffer  what DequeueBuffer returns
      data    the bytes of that buffer's mapping, followed by zeros
      filled  the buffers the driver finished filling before the call returned
      signal  a stop signal delivered before the call returned, 0 for none */
  datatype Reply = Reply(errno: nat, value: nat, deviceCaps: nat, range: (int, int), buffer: Buffer, data: seq<byte>,
                         filled: set<nat>, signal: nat)

  datatype Entry = Entry(request: Request, reply: Reply)

  /** The replies of a log. */
  function Replies(log: seq<Entry>): (replies: seq<Reply>)
    ensures |replies| == |log| && forall i :: 0 <= i < |log| ==> replies[i] == log[i].reply
  {
    seq(|log|, i requires 0 <= i < |log| => log[i].reply)
  }

  /** What the device can do, as VIDIOC_QUERYCAP says. */
  function Capabilities(reply: Reply): nat {
    if HasBit(reply.value, CAP_DEVICE_CAPS) then reply.deviceCaps else reply.value
  }

  /** The bytes from position start on, zero beyond the given ones. */
  function Slice(data: seq<byte>, start: nat, size: nat): (s: seq<byte>)
    ensures |s| == size
  {
    seq(size, i requires 0 <= i => if start + i < |data| then data[start + i] else 0)
  }

  lemma SliceJoins(data: seq<byte>, a: nat, b: nat)
    ensures Slice(data, 0, a) + Slice(data, a, b) == Slice(data, 0, a + b)
  {
  }

  /** A write reports at most what it was asked for. */
  function Written(reply: Reply, size: nat): nat {
    if reply.value <= size then reply.value else size
  }

  /** The outcome of a call chain: a value, a thrown exception, or no outcome yet. */
  datatype Attempt<+T> = Value(value: T) | Raised(error: Error) | Pending {
    predicate IsFailure() {
      !Value?
    }

    function PropagateFailure<U>(): Attempt<U>
      requires !Value?
    {
      if Raised? then Raised(error) else Pending
    }

    function Extract(): T
      requires Value?
    {
      value
    }
  }

  datatype Error =
    | SystemError(operation: Request, errno: nat)
    | DeviceError(cause: Cause)
    | UsageError(complaint: Complaint)

  /** The messages of the program's runtime errors. */
  datatype Cause =
    | NotACaptureDevice | NoStreaming | ModeReadOnly | TooFewBuffers
    | Unavailable | InvalidBuffer | ErroneousFrame | EndedBeforeSave

  /** The messages of the program's argument errors. */
  datatype Complaint =
    | UnknownOption | MissingValue | InvalidInteger | InvalidNumber | OutOfRange
    | BadPixelFormat | SaveAtZero | SaveAtBeyondFrames | ModeOutOfRange | RateTooLarge
}
