/** Sequence accounting of jetcam-raw-test: what the counters mean, and the class that
    keeps them one frame at a time. */
module SequenceAccounting {
  import opened MachineTypes

  /** What one dequeued buffer tells the accounting. Timestamps are exact numbers of seconds. */
  datatype Frame = Frame(sequence: uint32, timestamp: real, error: bool)

  /** Half of the largest 32-bit number: a forward step this long or longer counts as backward. */
  const BACKWARD_THRESHOLD: uint32 := 0x7FFF_FFFF

  /** The most frames one forward step can report as dropped. */
  const MAX_DROP := BACKWARD_THRESHOLD - 2

  /** Subtraction of 32-bit unsigned numbers. */
  function Delta(previous: uint32, next: uint32): uint32 {
    if previous <= next then next - previous else next - previous + TWO_TO_THE_32
  }

  function DropsBetween(previous: uint32, next: uint32): uint32 {
    var delta := Delta(previous, next);
    if 1 < delta < BACKWARD_THRESHOLD then delta - 1 else 0
  }

  function BreakBetween(previous: uint32, next: uint32): uint32 {
    var delta := Delta(previous, next);
    if delta == 0 || delta >= BACKWARD_THRESHOLD then 1 else 0
  }

  // ---------- The counts, as unbounded numbers of a whole history ----------

  ghost function Dropped(h: seq<Frame>): nat {
    if |h| < 2 then 0
    else Dropped(h[..|h| - 1]) + DropsBetween(h[|h| - 2].sequence, h[|h| - 1].sequence)
  }

  ghost function Discontinuities(h: seq<Frame>): nat {
    if |h| < 2 then 0
    else Discontinuities(h[..|h| - 1]) + BreakBetween(h[|h| - 2].sequence, h[|h| - 1].sequence)
  }

  ghost function Errors(h: seq<Frame>): nat {
    if |h| == 0 then 0
    else Errors(h[..|h| - 1]) + if h[|h| - 1].error then 1 else 0
  }

  // ---------- The counters, as the 64-bit and 32-bit fields the program keeps ----------

  datatype Counters = Counters(
    frames: uint64, dropped: uint64, discontinuities: uint64, errors: uint64,
    firstSequence: uint32, lastSequence: uint32, firstTimestamp: real, lastTimestamp: real)

  const ZERO := Counters(0, 0, 0, 0, 0, 0, 0.0, 0.0)

  /** Addition of 64-bit unsigned numbers. */
  function Add64(x: uint64, y: uint32): uint64 {
    if x + y < TWO_TO_THE_64 then x + y else x + y - TWO_TO_THE_64
  }

  /** The counters after one more frame; frames == 0 marks a first frame, even after a wrap. */
  function Count(c: Counters, f: Frame): Counters {
    var first := c.frames == 0;
    Counters(
      Add64(c.frames, 1),
      if first then c.dropped else Add64(c.dropped, DropsBetween(c.lastSequence, f.sequence)),
      if first then c.discontinuities else Add64(c.discontinuities, BreakBetween(c.lastSequence, f.sequence)),
      if f.error then Add64(c.errors, 1) else c.errors,
      if first then f.sequence else c.firstSequence,
      f.sequence,
      if first then f.timestamp else c.firstTimestamp,
      f.timestamp)
  }

  ghost function Tally(h: seq<Frame>): Counters {
    if h == [] then ZERO else Count(Tally(h[..|h| - 1]), h[|h| - 1])
  }

  lemma TallyAppend(h: seq<Frame>, f: Frame)
    ensures Tally(h + [f]) == Count(Tally(h), f)
  {
    assert (h + [f])[..|h|] == h;
  }

  /** The three counters that decide the result of a capture are all zero. */
  predicate Clean(c: Counters) {
    c.dropped == 0 && c.discontinuities == 0 && c.errors == 0
  }

  function ElapsedSeconds(c: Counters): real {
    if c.frames < 2 || c.lastTimestamp <= c.firstTimestamp then 0.0
    else c.lastTimestamp - c.firstTimestamp
  }

  function Fps(c: Counters): real {
    var elapsed := ElapsedSeconds(c);
    if elapsed <= 0.0 then 0.0 else (c.frames - 1) as real / elapsed
  }

  class CaptureStats {
    var frames: uint64
    var dropped: uint64
    var discontinuities: uint64
    var bufferErrors: uint64
    var firstSequence: uint32
    var lastSequence: uint32
    var firstTimestamp: real
    var lastTimestamp: real
    ghost var history: seq<Frame>

    ghost function Value(): Counters
      reads this
    {
      Counters(frames, dropped, discontinuities, bufferErrors,
               firstSequence, lastSequence, firstTimestamp, lastTimestamp)
    }

    ghost predicate Valid()
      reads this
    {
      Value() == Tally(history)
    }

    constructor ()
      ensures Valid() && history == []
    {
      frames, dropped, discontinuities, bufferErrors := 0, 0, 0, 0;
      firstSequence, lastSequence := 0, 0;
      firstTimestamp, lastTimestamp := 0.0, 0.0;
      history := [];
    }

    method AddFrame(sequence: uint32, timestamp: real, bufferError: bool)
      requires Valid()
      modifies this
      ensures Valid()
      ensures history == old(history) + [Frame(sequence, timestamp, bufferError)]
    {
      if frames == 0 {
        firstSequence := sequence;
        firstTimestamp := timestamp;
      } else {
        var delta := Delta(lastSequence, sequence);
        if delta > 1 && delta < BACKWARD_THRESHOLD {
          dropped := Add64(dropped, delta - 1);
        } else if delta == 0 || delta >= BACKWARD_THRESHOLD {
          discontinuities := Add64(discontinuities, 1);
        }
      }
      lastSequence := sequence;
      lastTimestamp := timestamp;
      frames := Add64(frames, 1);
      if bufferError {
        bufferErrors := Add64(bufferErrors, 1);
      }
      assert Value() == Count(old(Value()), Frame(sequence, timestamp, bufferError));
      TallyAppend(history, Frame(sequence, timestamp, bufferError));
      history := history + [Frame(sequence, timestamp, bufferError)];
    }

    /** The seconds between the first and the last frame, and the rate they give. */
    method MeasuredFps() returns (elapsed: real, fps: real)
      requires Valid()
      ensures elapsed == ElapsedSeconds(Tally(history))
      ensures fps == Fps(Tally(history))
    {
      if frames < 2 || lastTimestamp <= firstTimestamp {
        elapsed := 0.0;
      } else {
        elapsed := lastTimestamp - firstTimestamp;
      }
      if elapsed <= 0.0 {
        fps := 0.0;
      } else {
        fps := (frames - 1) as real / elapsed;
      }
    }
  }
}
