/** What the counters of CaptureStats say about the frames the driver produced. */
module SequenceTheorems {
  import opened MachineTypes
  import opened SequenceAccounting

  // ---------- The 64-bit counters and the unbounded counts ----------

  /** No counter has wrapped after n frames, whatever the frames were: n - 1 steps of at most
      2^31 - 3 drops stay below 2^64. */
  predicate NoWrap(n: nat) {
    n <= 8589934605
  }

  lemma {:induction false} TallyCountsFrames(h: seq<Frame>)
    ensures Tally(h).frames == |h| % TWO_TO_THE_64
  {
    if h != [] {
      TallyCountsFrames(h[..|h| - 1]);
    }
  }

  lemma {:induction false} TallyEnds(h: seq<Frame>)
    requires 0 < |h| < TWO_TO_THE_64
    ensures Tally(h).frames == |h|
    ensures Tally(h).firstSequence == h[0].sequence && Tally(h).lastSequence == h[|h| - 1].sequence
    ensures Tally(h).firstTimestamp == h[0].timestamp && Tally(h).lastTimestamp == h[|h| - 1].timestamp
  {
    TallyCountsFrames(h);
    if |h| > 1 {
      TallyEnds(h[..|h| - 1]);
    } else {
      assert h[..0] == [];
    }
  }

  lemma {:induction false} CountsBounded(h: seq<Frame>)
    requires h != []
    ensures Dropped(h) <= (|h| - 1) * 0x7FFF_FFFD
    ensures Discontinuities(h) <= |h| - 1 && Errors(h) <= |h|
  {
    var previous := h[..|h| - 1];
    if previous != [] {
      CountsBounded(previous);
    }
  }

  lemma {:induction false} TallyExact(h: seq<Frame>)
    requires NoWrap(|h|)
    ensures Tally(h).frames == |h| && Tally(h).dropped == Dropped(h)
    ensures Tally(h).discontinuities == Discontinuities(h) && Tally(h).errors == Errors(h)
  {
    if h != [] {
      var previous := h[..|h| - 1];
      TallyExact(previous);
      CountsBounded(h);
      if previous != [] {
        TallyEnds(previous);
      }
    }
  }

  // ---------- One frame ----------

  /** What one more frame does to the counters, for frames numbered a and b without bound: a step
      forward by less than 2^31 - 1 adds the numbers in between, every other step one
      discontinuity. */
  lemma FrameCounted(h: seq<Frame>, f: Frame, a: int, b: int)
    requires |h| % 0x1_0000_0000_0000_0000 != 0
    requires h[|h| - 1].sequence == a % 0x1_0000_0000 && f.sequence == b % 0x1_0000_0000
    ensures var c, d := Tally(h), Tally(h + [f]);
      && (0 < b - a <= 0x7FFF_FFFE ==>
            d.dropped == (c.dropped + (b - a - 1)) % 0x1_0000_0000_0000_0000 && d.discontinuities == c.discontinuities)
      && (0 <= a - b <= 0x8000_0001 ==>
            d.dropped == c.dropped && d.discontinuities == (c.discontinuities + 1) % 0x1_0000_0000_0000_0000)
      && d.frames == (c.frames + 1) % 0x1_0000_0000_0000_0000
      && d.errors == (c.errors + (if f.error then 1 else 0)) % 0x1_0000_0000_0000_0000
      && d.firstSequence == c.firstSequence && d.lastSequence == f.sequence
      && d.firstTimestamp == c.firstTimestamp && d.lastTimestamp == f.timestamp
  {
    TallyAppend(h, f);
    TallyCountsFrames(h);
    TallyEndsWith(h);
    CountedNext(Tally(h), f, a, b);
  }

  lemma AddIsModular(x: uint64, y: uint32)
    ensures Add64(x, y) == (x + y) % 0x1_0000_0000_0000_0000
  {
  }

  lemma CountedNext(c: Counters, f: Frame, a: int, b: int)
    requires c.frames != 0 && c.lastSequence == a % 0x1_0000_0000 && f.sequence == b % 0x1_0000_0000
    ensures var d := Count(c, f);
      && (0 < b - a <= 0x7FFF_FFFE ==>
            d.dropped == (c.dropped + (b - a - 1)) % 0x1_0000_0000_0000_0000 && d.discontinuities == c.discontinuities)
      && (0 <= a - b <= 0x8000_0001 ==>
            d.dropped == c.dropped && d.discontinuities == (c.discontinuities + 1) % 0x1_0000_0000_0000_0000)
      && d.frames == (c.frames + 1) % 0x1_0000_0000_0000_0000
      && d.errors == (c.errors + (if f.error then 1 else 0)) % 0x1_0000_0000_0000_0000
      && d.firstSequence == c.firstSequence && d.lastSequence == f.sequence
      && d.firstTimestamp == c.firstTimestamp && d.lastTimestamp == f.timestamp
  {
    AddIsModular(c.frames, 1);
    AddIsModular(c.errors, 1);
    AddIsModular(c.dropped, DropsBetween(c.lastSequence, f.sequence));
    AddIsModular(c.discontinuities, BreakBetween(c.lastSequence, f.sequence));
    if 0 < b - a <= 0x7FFF_FFFE {
      ShortStep(a, b);
    }
    if 0 <= a - b <= 0x8000_0001 {
      OtherStep(a, b);
    }
  }

  lemma ShortStep(a: int, b: int)
    requires 0 < b - a <= 0x7FFF_FFFE
    ensures var p, q := a % 0x1_0000_0000, b % 0x1_0000_0000; DropsBetween(p, q) == b - a - 1 && BreakBetween(p, q) == 0
  {
    DeltaOfResidues(a, b);
  }

  lemma OtherStep(a: int, b: int)
    requires 0 <= a - b <= 0x8000_0001
    ensures var p, q := a % 0x1_0000_0000, b % 0x1_0000_0000; DropsBetween(p, q) == 0 && BreakBetween(p, q) == 1
  {
    DeltaOfResidues(a, b);
  }

  lemma TallyEndsWith(h: seq<Frame>)
    requires h != []
    ensures Tally(h).lastSequence == h[|h| - 1].sequence
  {
  }

  /** The first frame, of all or after 2^64 of them, is compared with nothing. */
  lemma FirstFrameCounted(h: seq<Frame>, f: Frame)
    requires |h| % 0x1_0000_0000_0000_0000 == 0
    ensures var c, d := Tally(h), Tally(h + [f]);
      && d.frames == 1 && d.dropped == c.dropped && d.discontinuities == c.discontinuities
      && d.errors == (c.errors + (if f.error then 1 else 0)) % 0x1_0000_0000_0000_0000
      && d.firstSequence == f.sequence == d.lastSequence && d.firstTimestamp == f.timestamp == d.lastTimestamp
  {
    TallyAppend(h, f);
    TallyCountsFrames(h);
    AddIsModular(Tally(h).errors, 1);
  }

  // ---------- Unwrapped frame numbers ----------

  ghost predicate Increasing(t: seq<int>) {
    forall i, j :: 0 <= i < j < |t| ==> t[i] < t[j]
  }

  /** h carries the frame numbers t, each reduced to 32 bits. */
  ghost predicate Encodes(h: seq<Frame>, t: seq<int>) {
    |h| == |t| && forall i :: 0 <= i < |t| ==> h[i].sequence == t[i] % TWO_TO_THE_32
  }

  /** The frame numbers between the first and the last that never arrived. */
  ghost function Missing(t: seq<int>): set<int>
    requires t != []
  {
    set x: int | t[0] <= x <= t[|t| - 1] && x !in t
  }

  ghost predicate ShortGaps(t: seq<int>) {
    forall i :: 0 <= i < |t| - 1 ==> t[i + 1] - t[i] < 0x7FFF_FFFF
  }

  ghost function Between(a: int, b: int): (s: set<int>)
    ensures forall x :: x in s <==> a < x < b
    ensures |s| == if a < b then b - a - 1 else 0
    decreases b - a
  {
    if b <= a + 1 then {} else Between(a, b - 1) + {b - 1}
  }

  lemma {:induction false} MissingCount(t: seq<int>)
    requires t != [] && Increasing(t)
    ensures |Missing(t)| == t[|t| - 1] - t[0] - (|t| - 1)
  {
    if |t| == 1 {
      assert Missing(t) == {};
    } else {
      var n := |t| - 1;
      MissingCount(t[..n]);
      assert t == t[..n] + [t[n]];
      var gap := Between(t[n - 1], t[n]);
      forall x ensures x in Missing(t) <==> x in Missing(t[..n]) || x in gap {
        NotBetween(t, x);
      }
      assert Missing(t) == Missing(t[..n]) + gap;
      assert Missing(t[..n]) !! gap;
    }
  }

  /** Nothing that arrived lies in the last gap, and the last number is the only new one. */
  lemma NotBetween(t: seq<int>, x: int)
    requires |t| > 1 && Increasing(t)
    ensures x in t <==> x in t[..|t| - 1] || x == t[|t| - 1]
    ensures x in t ==> x <= t[|t| - 2] || x == t[|t| - 1]
  {
    var n := |t| - 1;
    assert t == t[..n] + [t[n]];
    assert forall i :: 0 <= i < n ==> t[i] <= t[n - 1];
  }

  lemma DeltaOfResidues(a: int, b: int)
    ensures Delta(a % TWO_TO_THE_32, b % TWO_TO_THE_32) == (b - a) % TWO_TO_THE_32
  {
  }

  /** One forward step is counted exactly when it is short; a long one is undercounted. */
  lemma StepCounted(a: int, b: int)
    requires a < b
    ensures var p, q := a % TWO_TO_THE_32, b % TWO_TO_THE_32;
      && DropsBetween(p, q) <= b - a - 1
      && (BreakBetween(p, q) == 0 && DropsBetween(p, q) == b - a - 1 <==> b - a < 0x7FFF_FFFF)
  {
    DeltaOfResidues(a, b);
  }

  /** For frames numbered in increasing order without bound, through any number of wraparounds,
      the counters name exactly the missing frames if and only if no gap reaches the threshold. */
  lemma {:induction false} AccountingExactIff(h: seq<Frame>, t: seq<int>)
    requires t != [] && Increasing(t) && Encodes(h, t)
    ensures Dropped(h) <= |Missing(t)|
    ensures Discontinuities(h) == 0 && Dropped(h) == |Missing(t)| <==> ShortGaps(t)
  {
    MissingCount(t);
    if |t| > 1 {
      var n := |t| - 1;
      var h', t' := h[..n], t[..n];
      AccountingExactIff(h', t');
      MissingCount(t');
      StepCounted(t[n - 1], t[n]);
      LastGap(t);
    }
  }

  lemma LastGap(t: seq<int>)
    requires |t| > 1
    ensures var n := |t| - 1; ShortGaps(t) <==> ShortGaps(t[..n]) && t[n] - t[n - 1] < 0x7FFF_FFFF
  {
    var n := |t| - 1;
    if ShortGaps(t) {
      assert t[n - 1 + 1] - t[n - 1] < 0x7FFF_FFFF;
    }
    if ShortGaps(t[..n]) && t[n] - t[n - 1] < 0x7FFF_FFFF {
      forall i | 0 <= i < n ensures t[i + 1] - t[i] < 0x7FFF_FFFF {
        if i < n - 1 {
          assert t[..n][i + 1] - t[..n][i] < 0x7FFF_FFFF;
        }
      }
    }
  }

  /** The frame numbers a history stands for when every step is taken as a forward one. */
  ghost function Unwrap(h: seq<Frame>): (t: seq<int>)
    ensures |t| == |h|
  {
    if |h| == 0 then []
    else if |h| == 1 then [h[0].sequence]
    else
      var t := Unwrap(h[..|h| - 1]);
      t + [t[|t| - 1] + Delta(h[|h| - 2].sequence, h[|h| - 1].sequence)]
  }

  /** A history without discontinuities has an unwrapping the counters describe exactly. */
  lemma {:induction false} ContinuousHistoriesUnwrap(h: seq<Frame>)
    requires h != [] && Discontinuities(h) == 0
    ensures Increasing(Unwrap(h)) && Encodes(h, Unwrap(h)) && ShortGaps(Unwrap(h))
    ensures Dropped(h) == |Missing(Unwrap(h))|
  {
    UnwrapSteps(h);
    AccountingExactIff(h, Unwrap(h));
  }

  lemma NumbersExtend(t: seq<int>, next: int)
    requires t != [] && Increasing(t) && ShortGaps(t)
    requires 0 < next - t[|t| - 1] < 0x7FFF_FFFF
    ensures Increasing(t + [next]) && ShortGaps(t + [next])
  {
    var u := t + [next];
    forall i, j | 0 <= i < j < |u| ensures u[i] < u[j] {
      if j == |t| {
        assert t[i] <= t[|t| - 1];
      }
    }
  }

  lemma {:induction false} UnwrapSteps(h: seq<Frame>)
    requires h != [] && Discontinuities(h) == 0
    ensures Increasing(Unwrap(h)) && Encodes(h, Unwrap(h)) && ShortGaps(Unwrap(h))
  {
    if |h| > 1 {
      var n := |h| - 1;
      UnwrapSteps(h[..n]);
      var t := Unwrap(h[..n]);
      var p, q := h[n - 1].sequence, h[n].sequence;
      var next := t[n - 1] + Delta(p, q);
      assert Unwrap(h) == t + [next];
      assert BreakBetween(p, q) == 0;
      NumbersExtend(t, next);
      assert p == t[n - 1] % TWO_TO_THE_32 by { assert h[..n][n - 1] == h[n - 1]; }
      DeltaAdvances(t[n - 1], q);
      EncodingExtends(h, t, next);
    }
  }

  lemma EncodingExtends(h: seq<Frame>, t: seq<int>, next: int)
    requires |h| == |t| + 1 && Encodes(h[..|t|], t) && h[|t|].sequence == next % TWO_TO_THE_32
    ensures Encodes(h, t + [next])
  {
    forall i | 0 <= i < |t| ensures h[i].sequence == t[i] % TWO_TO_THE_32 {
      assert h[..|t|][i] == h[i];
    }
  }

  lemma DeltaAdvances(a: int, q: uint32)
    ensures q == (a + Delta(a % TWO_TO_THE_32, q)) % TWO_TO_THE_32
  {
  }

  // ---------- Arbitrary histories ----------

  /** What the discontinuous steps moved the sequence by, beyond one frame each. */
  ghost function Jumped(h: seq<Frame>): int {
    if |h| < 2 then 0
    else
      var p, q := h[|h| - 2].sequence, h[|h| - 1].sequence;
      Jumped(h[..|h| - 1]) + if BreakBetween(p, q) == 1 then Delta(p, q) - 1 else 0
  }

  /** First number, frames, drops and jumps account for the last number, whatever the driver sent. */
  lemma {:induction false} Conservation(h: seq<Frame>)
    requires h != []
    ensures h[|h| - 1].sequence ==
      (h[0].sequence + (|h| - 1) + Dropped(h) + Jumped(h)) % TWO_TO_THE_32
  {
    if |h| > 1 {
      var n := |h| - 1;
      Conservation(h[..n]);
      var before := h[0].sequence + (n - 1) + Dropped(h[..n]) + Jumped(h[..n]);
      ConservationStep(before, h[n - 1].sequence, h[n].sequence);
    }
  }

  lemma ConservationStep(before: int, p: uint32, q: uint32)
    requires p == before % TWO_TO_THE_32
    ensures var jump := if BreakBetween(p, q) == 1 then Delta(p, q) - 1 else 0;
      q == (before + 1 + DropsBetween(p, q) + jump) % TWO_TO_THE_32
  {
    DeltaAdvances(before, q);
    var jump := if BreakBetween(p, q) == 1 then Delta(p, q) - 1 else 0;
    assert 1 + DropsBetween(p, q) + jump == Delta(p, q);
    assert before + 1 + DropsBetween(p, q) + jump == before + Delta(p, q);
  }

  /** The counts of two histories in a row: the sums, and one term for the seam. */
  lemma {:induction false} CountsCompose(a: seq<Frame>, b: seq<Frame>)
    requires a != [] && b != []
    ensures Dropped(a + b) == Dropped(a) + Dropped(b) + DropsBetween(a[|a| - 1].sequence, b[0].sequence)
    ensures Discontinuities(a + b) ==
      Discontinuities(a) + Discontinuities(b) + BreakBetween(a[|a| - 1].sequence, b[0].sequence)
    ensures Errors(a + b) == Errors(a) + Errors(b)
    decreases |b|
  {
    var b' := b[..|b| - 1];
    assert (a + b)[..|a + b| - 1] == a + b';
    if b' != [] {
      CountsCompose(a, b');
    } else {
      assert a + b' == a;
    }
  }

  ghost function Shifted(h: seq<Frame>, k: int): (r: seq<Frame>)
    ensures |r| == |h|
  {
    seq(|h|, i requires 0 <= i < |h| => h[i].(sequence := (h[i].sequence + k) % TWO_TO_THE_32))
  }

  /** Only differences of sequence numbers matter: no count depends on where the driver starts. */
  lemma {:induction false} ShiftChangesNothing(h: seq<Frame>, k: int)
    ensures Dropped(Shifted(h, k)) == Dropped(h)
    ensures Discontinuities(Shifted(h, k)) == Discontinuities(h)
    ensures Errors(Shifted(h, k)) == Errors(h)
  {
    if h != [] {
      var n := |h| - 1;
      ShiftChangesNothing(h[..n], k);
      assert Shifted(h, k)[..n] == Shifted(h[..n], k);
      if n > 0 {
        ShiftKeepsDelta(h[n - 1].sequence, h[n].sequence, k);
      }
    }
  }

  lemma ShiftKeepsDelta(p: uint32, q: uint32, k: int)
    ensures Delta((p + k) % TWO_TO_THE_32, (q + k) % TWO_TO_THE_32) == Delta(p, q)
  {
    DeltaOfResidues(p + k, q + k);
  }

  /** Losing one frame between two forward steps is reported as one more drop, and nothing else. */
  lemma LostFrameCounted(a: seq<Frame>, f: Frame, b: seq<Frame>)
    requires a != [] && b != []
    requires 1 <= Delta(a[|a| - 1].sequence, f.sequence) && 1 <= Delta(f.sequence, b[0].sequence)
    requires Delta(a[|a| - 1].sequence, f.sequence) + Delta(f.sequence, b[0].sequence) < 0x7FFF_FFFF
    ensures Dropped(a + b) == Dropped(a + [f] + b) + 1
    ensures Discontinuities(a + b) == Discontinuities(a + [f] + b)
  {
    CountsCompose(a, b);
    CountsCompose(a, [f]);
    CountsCompose(a + [f], b);
  }

  // ---------- The verdict ----------

  /** Every frame follows its predecessor, modulo 2^32, and none is flagged. */
  ghost predicate Consecutive(h: seq<Frame>) {
    forall i :: 0 <= i < |h| ==>
      h[i].sequence == (h[0].sequence + i) % 0x1_0000_0000 && !h[i].error
  }

  lemma NextNumber(first: int, n: nat, q: uint32)
    requires n > 0
    ensures Delta((first + (n - 1)) % TWO_TO_THE_32, q) == 1 <==> q == (first + n) % TWO_TO_THE_32
  {
    DeltaOfResidues(first + (n - 1), first + n);
    DeltaAdvances(first + (n - 1), q);
  }

  lemma ConsecutiveBefore(h: seq<Frame>)
    requires |h| > 1
    ensures var n := |h| - 1;
      Consecutive(h) <==>
        Consecutive(h[..n]) && h[n].sequence == (h[0].sequence + n) % TWO_TO_THE_32 && !h[n].error
  {
    var n := |h| - 1;
    var h' := h[..n];
    if Consecutive(h) {
      forall i | 0 <= i < n ensures h'[i].sequence == (h'[0].sequence + i) % TWO_TO_THE_32 && !h'[i].error {
        assert h'[i] == h[i];
      }
    }
    if Consecutive(h') && h[n].sequence == (h[0].sequence + n) % TWO_TO_THE_32 && !h[n].error {
      forall i | 0 <= i < |h| ensures h[i].sequence == (h[0].sequence + i) % TWO_TO_THE_32 && !h[i].error {
        if i < n {
          assert h[i] == h'[i];
        }
      }
    }
  }

  lemma ConsecutiveExtends(h: seq<Frame>)
    requires |h| > 1
    ensures var n := |h| - 1;
      Consecutive(h) <==> Consecutive(h[..n]) && Delta(h[n - 1].sequence, h[n].sequence) == 1 && !h[n].error
  {
    var n := |h| - 1;
    ConsecutiveBefore(h);
    if Consecutive(h[..n]) {
      assert h[..n][n - 1].sequence == (h[..n][0].sequence + (n - 1)) % TWO_TO_THE_32;
      NextNumber(h[0].sequence, n, h[n].sequence);
    }
  }

  lemma {:induction false} ZeroCountsMeanConsecutive(h: seq<Frame>)
    ensures Dropped(h) == 0 && Discontinuities(h) == 0 && Errors(h) == 0 <==> Consecutive(h)
  {
    if |h| == 1 {
      assert Errors(h[..0]) == 0;
    } else if h != [] {
      ZeroCountsMeanConsecutive(h[..|h| - 1]);
      ConsecutiveExtends(h);
    }
  }

  lemma CleanMeansConsecutive(h: seq<Frame>)
    requires NoWrap(|h|)
    ensures Clean(Tally(h)) <==> Consecutive(h)
  {
    TallyExact(h);
    ZeroCountsMeanConsecutive(h);
  }

  // ---------- How long the verdict can be trusted ----------

  const FULL_STEPS := TWO_TO_THE_64 / MAX_DROP
  const LAST_DROPS := TWO_TO_THE_64 % MAX_DROP

  /** Frame k of a history that loses exactly 2^64 frames: as many as the longest countable
      gaps allow, then the rest in one gap, then consecutive frames. */
  ghost function LossyNumber(k: nat): int {
    if k == 0 then 0
    else LossyNumber(k - 1) + 1 +
         if k <= FULL_STEPS then MAX_DROP else if k == FULL_STEPS + 1 then LAST_DROPS else 0
  }

  ghost function LossyHistory(n: nat): (h: seq<Frame>)
    ensures |h| == n
  {
    seq(n, (i: int) requires 0 <= i => Frame(LossyNumber(i) % TWO_TO_THE_32, 0.0, false))
  }

  ghost function LostBy(k: nat): nat {
    if k <= FULL_STEPS then k * MAX_DROP else TWO_TO_THE_64
  }

  ghost predicate LostSoFar(c: Counters, k: nat) {
    && c.dropped == LostBy(k) % TWO_TO_THE_64
    && c.discontinuities == 0 && c.errors == 0
    && c.lastSequence == LossyNumber(k) % TWO_TO_THE_32
  }

  lemma {:induction false} LossyTally(n: nat)
    requires n > 0
    ensures LostSoFar(Tally(LossyHistory(n)), n - 1)
  {
    var h := LossyHistory(n);
    assert h[..n - 1] == LossyHistory(n - 1);
    if n > 1 {
      LossyTally(n - 1);
      TallyCountsFrames(LossyHistory(n - 1));
      LossyStep(n - 1);
      LossyCount(Tally(LossyHistory(n - 1)), n - 1);
    } else {
      assert Tally(h[..0]) == ZERO;
    }
  }

  lemma LossyCount(c: Counters, k: nat)
    requires k > 0 && c.frames == k % TWO_TO_THE_64 && LostSoFar(c, k - 1)
    ensures LostSoFar(Count(c, Frame(LossyNumber(k) % TWO_TO_THE_32, 0.0, false)), k)
  {
    LossyStep(k);
    if c.frames == 0 {
      assert k >= TWO_TO_THE_64;
    } else {
      AddWraps(LostBy(k - 1), DropsBetween(c.lastSequence, LossyNumber(k) % TWO_TO_THE_32));
    }
  }

  lemma AddWraps(x: nat, y: uint32)
    ensures Add64(x % TWO_TO_THE_64, y) == (x + y) % TWO_TO_THE_64
  {
  }

  lemma LossyStep(k: nat)
    requires k > 0
    ensures var p, q := LossyNumber(k - 1) % TWO_TO_THE_32, LossyNumber(k) % TWO_TO_THE_32;
      && DropsBetween(p, q) == LostBy(k) - LostBy(k - 1)
      && BreakBetween(p, q) == 0
    ensures k >= TWO_TO_THE_64 ==> LostBy(k) == LostBy(k - 1)
  {
    DeltaOfResidues(LossyNumber(k - 1), LossyNumber(k));
  }

  /** The clean verdict means consecutive frames for every history of n frames if and only if
      n is too small for the drop counter to wrap; beyond, some lossy history passes. */
  lemma VerdictTrustedIff(n: nat)
    ensures (forall h: seq<Frame> :: |h| == n ==> (Clean(Tally(h)) <==> Consecutive(h))) <==> n <= 8589934605
  {
    if NoWrap(n) {
      forall h: seq<Frame> | |h| == n ensures Clean(Tally(h)) <==> Consecutive(h) {
        CleanMeansConsecutive(h);
      }
    } else {
      var h := LossyHistory(n);
      LossyTally(n);
      assert LostBy(n - 1) == TWO_TO_THE_64;
      assert h[0].sequence == 0 && h[1].sequence == MAX_DROP + 1;
      assert !Consecutive(h);
      assert Clean(Tally(h));
    }
  }

  // ---------- The measured rate ----------

  ghost predicate GapsWithin(h: seq<Frame>, lo: real, hi: real) {
    forall i :: 0 <= i < |h| - 1 ==> lo <= h[i + 1].timestamp - h[i].timestamp <= hi
  }

  ghost function Multiple(k: nat, x: real): real {
    if k == 0 then 0.0 else Multiple(k - 1, x) + x
  }

  lemma {:induction false} MultipleIsProduct(k: nat, x: real)
    ensures Multiple(k, x) == k as real * x
  {
    if k > 0 {
      MultipleIsProduct(k - 1, x);
      assert (k - 1) as real * x + x == ((k - 1) as real + 1.0) * x;
    }
  }

  lemma {:induction false} GapsTelescope(h: seq<Frame>, lo: real, hi: real)
    requires h != [] && GapsWithin(h, lo, hi)
    ensures Multiple(|h| - 1, lo) <= h[|h| - 1].timestamp - h[0].timestamp <= Multiple(|h| - 1, hi)
  {
    var n := |h| - 1;
    if n > 0 {
      var h' := h[..n];
      forall i | 0 <= i < n - 1 ensures lo <= h'[i + 1].timestamp - h'[i].timestamp <= hi {
        assert lo <= h[i + 1].timestamp - h[i].timestamp <= hi;
      }
      GapsTelescope(h', lo, hi);
      assert lo <= h[n - 1 + 1].timestamp - h[n - 1].timestamp <= hi;
    }
  }

  lemma LessByProduct(x: real, y: real, scale: real)
    requires scale > 0.0 && x * scale <= y * scale
    ensures x <= y
  {
  }

  lemma QuotientBounds(k: real, elapsed: real, lo: real, hi: real)
    requires k > 0.0 && lo > 0.0 && elapsed > 0.0 && hi > 0.0 && k * lo <= elapsed <= k * hi
    ensures 1.0 / hi <= k / elapsed <= 1.0 / lo
  {
    var rate, least, most := k / elapsed, 1.0 / hi, 1.0 / lo;
    assert rate * elapsed == k && least * hi == 1.0 && most * lo == 1.0;
    assert least * hi * elapsed == elapsed && rate * elapsed * hi == k * hi;
    LessByProduct(least, rate, hi * elapsed);
    assert rate * elapsed * lo == k * lo && most * lo * elapsed == elapsed;
    LessByProduct(rate, most, lo * elapsed);
  }

  lemma SpanPositive(k: real, elapsed: real, lo: real, hi: real)
    requires k > 0.0 && lo > 0.0 && k * lo <= elapsed <= k * hi
    ensures elapsed > 0.0 && hi > 0.0
  {
    assert k * lo > 0.0;
    assert hi <= 0.0 ==> k * hi <= 0.0;
  }

  lemma RateBounds(c: Counters, elapsed: real, lo: real, hi: real)
    requires c.frames >= 2 && lo > 0.0
    requires elapsed == c.lastTimestamp - c.firstTimestamp
    requires Multiple(c.frames - 1, lo) <= elapsed <= Multiple(c.frames - 1, hi)
    ensures hi > 0.0 && 1.0 / hi <= Fps(c) <= 1.0 / lo
  {
    var k := (c.frames - 1) as real;
    MultipleIsProduct(c.frames - 1, lo);
    MultipleIsProduct(c.frames - 1, hi);
    SpanPositive(k, elapsed, lo, hi);
    QuotientBounds(k, elapsed, lo, hi);
    assert Fps(c) == k / elapsed;
  }

  lemma QuotientTimes(x: real, y: real)
    requires y != 0.0
    ensures x / y * y == x
  {
  }

  /** The seconds are those between the first and the last frame, if these show that time has passed. */
  lemma SecondsBetweenEnds(h: seq<Frame>)
    requires |h| < 0x1_0000_0000_0000_0000
    ensures ElapsedSeconds(Tally(h)) ==
      if |h| >= 2 && h[0].timestamp < h[|h| - 1].timestamp then h[|h| - 1].timestamp - h[0].timestamp else 0.0
  {
    if h != [] {
      TallyEnds(h);
    }
  }

  /** The rate is that of the steps between the frames, and 0 if no time can be seen to have passed. */
  lemma FpsIsStepsBySeconds(h: seq<Frame>)
    requires |h| < 0x1_0000_0000_0000_0000
    ensures var seconds := ElapsedSeconds(Tally(h));
      if seconds > 0.0 then Fps(Tally(h)) * seconds == (|h| - 1) as real else Fps(Tally(h)) == 0.0
  {
    TallyCountsFrames(h);
    RateTimesSeconds(Tally(h));
  }

  lemma RateTimesSeconds(c: Counters)
    ensures var seconds := ElapsedSeconds(c);
      if seconds > 0.0 then Fps(c) * seconds == (c.frames - 1) as real else Fps(c) == 0.0
  {
    if ElapsedSeconds(c) > 0.0 {
      QuotientTimes((c.frames - 1) as real, ElapsedSeconds(c));
    }
  }

  /** Frame gaps between lo and hi seconds give a rate between 1/hi and 1/lo. */
  lemma FpsWithinGapBounds(h: seq<Frame>, lo: real, hi: real)
    requires 2 <= |h| < TWO_TO_THE_64 && lo > 0.0 && GapsWithin(h, lo, hi)
    ensures hi > 0.0 && 1.0 / hi <= Fps(Tally(h)) <= 1.0 / lo
  {
    TallyEnds(h);
    GapsTelescope(h, lo, hi);
    RateBounds(Tally(h), h[|h| - 1].timestamp - h[0].timestamp, lo, hi);
  }
}
