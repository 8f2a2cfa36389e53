/**
 * The playback worklet `MoshiProcessor`: a FIFO of decoded frames read from
 * a cursor into the head frame. Incoming frames are queued and, when the
 * queue overflows, the oldest samples are trimmed down to an exact target;
 * each `process` call copies queued samples into the output block and
 * widens the adaptive thresholds on underrun. Only sample counts and sample
 * order are modelled; samples themselves are an opaque type.
 */
module JitterBuffer {
  import opened Seqs

  function Min(a: int, b: int): int { if a < b then a else b }

  /**
   * `asSamples(ms)`, that is `Math.round(ms * sampleRate / 1000)`, for a
   * whole-number sample rate: the nearest integer, halves rounded up.
   */
  function AsSamples(ms: nat, sampleRate: nat): (r: nat)
    ensures 2000 * r <= 2 * (ms * sampleRate) + 1000 < 2000 * (r + 1)
  {
    (2 * (ms * sampleRate) + 1000) / 2000
  }

  /** A longer duration never gives fewer samples. */
  lemma AsSamplesMonotone(a: nat, b: nat, sampleRate: nat)
    requires a <= b
    ensures AsSamples(a, sampleRate) <= AsSamples(b, sampleRate)
  {
    var x, y := a * sampleRate, b * sampleRate;
    assert y == x + (b - a) * sampleRate;
    assert 2000 * AsSamples(a, sampleRate) <= 2 * x + 1000 <= 2 * y + 1000 < 2000 * (AsSamples(b, sampleRate) + 1);
  }

  /** Advancing the cursor into the head frame drops exactly that many queued samples. */
  lemma AdvanceCursor<Sample>(frames: seq<seq<Sample>>, off: nat, k: nat)
    requires frames != [] && off + k <= |frames[0]|
    ensures off + k <= |Flatten(frames)|
    ensures Flatten(frames)[off + k..] == Flatten(frames)[off..][k..]
    ensures Flatten(frames)[off..][..k] == frames[0][off..off + k]
    ensures off + k == |frames[0]| ==> Flatten(frames)[off + k..] == Flatten(frames[1..])
  {
  }

  /** Queuing one more frame extends the queued samples by that frame. */
  lemma PushFrame<Sample>(frames: seq<seq<Sample>>, off: nat, frame: seq<Sample>)
    requires off <= |Flatten(frames)|
    ensures Flatten(frames + [frame]) == Flatten(frames) + frame
    ensures Flatten(frames + [frame])[off..] == Flatten(frames)[off..] + frame
  {
    FlattenSnoc(frames, frame);
  }

  /** One pass of the copying loop keeps "output = played prefix + untouched rest". */
  lemma DrainStep<Sample>(q0: seq<Sample>, blk: seq<Sample>, before: seq<Sample>, after: seq<Sample>,
                          q: seq<Sample>, chunk: seq<Sample>, i: nat, n: nat)
    requires i + n <= |q0| && i + n <= |blk|
    requires before == q0[..i] + blk[i..]
    requires q == q0[i..] && chunk == q[..n]
    requires after == before[..i] + chunk + before[i + n..]
    ensures after == q0[..i + n] + blk[i + n..]
    ensures q[n..] == q0[i + n..]
  {
    assert q0[..i + n] == q0[..i] + q0[i..i + n];
  }

  /** The messages the worklet's port receives. */
  datatype WorkletMessage<Sample> = Reset | AudioFrame(frame: seq<Sample>)

  class MoshiProcessor<Sample> {
    const sampleRate: nat
    const initialBufferSamples: nat
    const partialBufferIncrement: nat
    const maxPartialWithIncrements: nat
    const maxBufferSamplesIncrement: nat
    const maxMaxBufferWithIncrements: nat

    var frames: seq<seq<Sample>>
    var offsetInFirstBuffer: nat
    var firstOut: bool
    var remainingPartialBufferSamples: int
    var started: bool
    var partialBufferSamples: nat
    var maxBufferSamples: nat

    /** The tuning constants the constructor derives from the sample rate. */
    ghost predicate Configured()
    {
      && initialBufferSamples == AsSamples(80, sampleRate)
      && partialBufferIncrement == AsSamples(5, sampleRate)
      && maxPartialWithIncrements == AsSamples(80, sampleRate)
      && maxBufferSamplesIncrement == AsSamples(5, sampleRate)
      && maxMaxBufferWithIncrements == AsSamples(80, sampleRate)
    }

    ghost predicate Valid()
      reads this
    {
      && (frames == [] ==> offsetInFirstBuffer == 0)
      && (frames != [] ==> offsetInFirstBuffer <= |frames[0]|)
      && partialBufferSamples <= maxPartialWithIncrements
      && maxBufferSamples <= maxMaxBufferWithIncrements
    }

    /** The samples still to be played, oldest first. */
    ghost function Queued(): seq<Sample>
      reads this
      requires Valid()
    {
      Flatten(frames)[offsetInFirstBuffer..]
    }

    /** The state `initState` establishes. */
    ghost predicate Initial()
      reads this
    {
      && frames == [] && offsetInFirstBuffer == 0
      && !firstOut && remainingPartialBufferSamples == 0 && !started
      && partialBufferSamples == AsSamples(10, sampleRate)
      && maxBufferSamples == AsSamples(10, sampleRate)
    }

    constructor (sampleRate: nat)
      ensures this.sampleRate == sampleRate
      ensures Configured() && Valid() && Initial() && Queued() == []
    {
      this.sampleRate := sampleRate;
      var frameSize := AsSamples(80, sampleRate);
      initialBufferSamples := 1 * frameSize;
      partialBufferSamples := AsSamples(10, sampleRate);
      maxBufferSamples := AsSamples(10, sampleRate);
      partialBufferIncrement := AsSamples(5, sampleRate);
      maxPartialWithIncrements := AsSamples(80, sampleRate);
      maxBufferSamplesIncrement := AsSamples(5, sampleRate);
      maxMaxBufferWithIncrements := AsSamples(80, sampleRate);
      new;
      InitState();
    }

    /** `initState`, also what a 'reset' message runs. */
    method InitState()
      requires Configured()
      modifies this
      ensures Valid() && Initial() && Queued() == []
    {
      frames := [];
      offsetInFirstBuffer := 0;
      firstOut := false;
      remainingPartialBufferSamples := 0;
      started := false;
      partialBufferSamples := AsSamples(10, sampleRate);
      maxBufferSamples := AsSamples(10, sampleRate);
      AsSamplesMonotone(10, 80, sampleRate);
    }

    /** `totalMaxBufferSamples`: the overflow threshold is never below the trimming target. */
    function TotalMaxBufferSamples(): (r: nat)
      reads this
      ensures r >= initialBufferSamples + partialBufferSamples
    {
      maxBufferSamples + partialBufferSamples + initialBufferSamples
    }

    /** `currentSamples`: sum of the queued frames' lengths minus the cursor. */
    method CurrentSamples() returns (samples: int)
      requires Valid()
      ensures samples == |Queued()|
    {
      var total := 0;
      var k := 0;
      while k < |frames|
        invariant 0 <= k <= |frames|
        invariant total == |Flatten(frames[..k])|
      {
        assert frames[..k + 1] == frames[..k] + [frames[k]];
        FlattenSnoc(frames[..k], frames[k]);
        total := total + |frames[k]|;
        k := k + 1;
      }
      assert frames[..k] == frames;
      samples := total - offsetInFirstBuffer;
    }

    method Start()
      requires Valid()
      modifies this`started, this`remainingPartialBufferSamples, this`firstOut
      ensures Valid()
      ensures started && firstOut && remainingPartialBufferSamples == partialBufferSamples
    {
      started := true;
      remainingPartialBufferSamples := partialBufferSamples;
      firstOut := true;
    }

    predicate CanPlay()
      reads this
    {
      started && |frames| > 0 && remainingPartialBufferSamples <= 0
    }

    /**
     * Move the cursor `k` samples into the head frame, dropping the head
     * (and resetting the cursor to 0) once it is exhausted.
     */
    method Advance(k: nat)
      requires Valid() && frames != [] && offsetInFirstBuffer + k <= |frames[0]|
      modifies this`frames, this`offsetInFirstBuffer
      ensures Valid()
      ensures k <= |old(Queued())|
      ensures Queued() == old(Queued())[k..]
      ensures old(Queued())[..k] == old(frames[0][offsetInFirstBuffer..offsetInFirstBuffer + k])
      ensures |frames| <= old(|frames|)
      ensures k == 0 && old(offsetInFirstBuffer) == old(|frames[0]|) ==> |frames| < old(|frames|)
      ensures if old(offsetInFirstBuffer) + k == old(|frames[0]|) then
                frames == old(frames[1..]) && offsetInFirstBuffer == 0
              else
                frames == old(frames) && offsetInFirstBuffer == old(offsetInFirstBuffer) + k
    {
      AdvanceCursor(frames, offsetInFirstBuffer, k);
      offsetInFirstBuffer := offsetInFirstBuffer + k;
      if offsetInFirstBuffer == |frames[0]| {
        frames := frames[1..];
        offsetInFirstBuffer := 0;
      }
    }

    /** The trimming loop of the frame handler: drop the oldest samples until `target` remain. */
    method TrimTo(target: nat)
      requires Valid() && target <= |Queued()|
      modifies this`frames, this`offsetInFirstBuffer
      ensures Valid()
      ensures Queued() == old(Queued())[|old(Queued())| - target..]
    {
      ghost var q0 := Queued();
      var current := CurrentSamples();
      while current > target
        invariant Valid() && current == |Queued()| && target <= current <= |q0|
        invariant Queued() == q0[|q0| - current..]
        decreases current + |frames|
      {
        var first := frames[0];
        var toRemove := Min(|first| - offsetInFirstBuffer, current - target);
        Advance(toRemove);
        current := CurrentSamples();
      }
    }

    /**
     * The `onmessage` handler for an audio frame: queue it, start playback
     * once the initial buffer is reached, and on overflow trim the queue to
     * `initialBufferSamples + partialBufferSamples` and raise the overflow
     * allowance up to its cap.
     */
    method OnFrame(frame: seq<Sample>)
      requires Valid()
      modifies this
      ensures Valid()
      ensures partialBufferSamples == old(partialBufferSamples)
      ensures started == (old(started) || |old(Queued())| + |frame| >= initialBufferSamples)
      ensures !old(started) && started ==>
                firstOut && remainingPartialBufferSamples == partialBufferSamples
      ensures old(started) || !started ==>
                firstOut == old(firstOut) && remainingPartialBufferSamples == old(remainingPartialBufferSamples)
      ensures var pushed := old(Queued()) + frame;
              if Overflowing(|pushed|, old(maxBufferSamples)) then
                && Queued() == pushed[|pushed| - (initialBufferSamples + partialBufferSamples)..]
                && maxBufferSamples == Min(old(maxBufferSamples) + maxBufferSamplesIncrement, maxMaxBufferWithIncrements)
              else
                && frames == old(frames) + [frame]
                && offsetInFirstBuffer == old(offsetInFirstBuffer)
                && Queued() == pushed
                && maxBufferSamples == old(maxBufferSamples)
    {
      Enqueue(frame);
      ghost var pushed := Queued();
      var current := CurrentSamples();
      if current >= initialBufferSamples && !started {
        Start();
      }
      TrimIfOverflowing();
    }

    /** The overflow branch of the frame handler. */
    method TrimIfOverflowing()
      requires Valid()
      modifies this`frames, this`offsetInFirstBuffer, this`maxBufferSamples
      ensures Valid()
      ensures Overflowing(old(|Queued()|), old(maxBufferSamples)) ==>
                && Queued() == old(Queued())[old(|Queued()|) - (initialBufferSamples + partialBufferSamples)..]
                && maxBufferSamples == Min(old(maxBufferSamples) + maxBufferSamplesIncrement, maxMaxBufferWithIncrements)
      ensures !Overflowing(old(|Queued()|), old(maxBufferSamples)) ==>
                && frames == old(frames) && offsetInFirstBuffer == old(offsetInFirstBuffer)
                && maxBufferSamples == old(maxBufferSamples)
    {
      var current := CurrentSamples();
      if current < TotalMaxBufferSamples() {
        return;
      }
      ghost var q := Queued();
      // The allowance is raised before the trim; neither step reads what the other writes.
      maxBufferSamples := Min(maxBufferSamples + maxBufferSamplesIncrement, maxMaxBufferWithIncrements);
      assert Valid() && Queued() == q;
      TrimTo(initialBufferSamples + partialBufferSamples);
    }

    /** `currentSamples() >= totalMaxBufferSamples()` for the given queue length and allowance. */
    predicate Overflowing(current: nat, maxBuffer: nat)
      reads this
    {
      current >= maxBuffer + partialBufferSamples + initialBufferSamples
    }

    /** `this.frames.push(frame)`. */
    method Enqueue(frame: seq<Sample>)
      requires Valid()
      modifies this`frames
      ensures Valid()
      ensures frames == old(frames) + [frame]
      ensures Queued() == old(Queued()) + frame
    {
      PushFrame(frames, offsetInFirstBuffer, frame);
      frames := frames + [frame];
    }

    /** `port.onmessage`: a reset message restores the initial state, anything else is a frame. */
    method OnMessage(m: WorkletMessage<Sample>)
      requires Configured() && Valid()
      modifies this
      ensures Valid()
      ensures m.Reset? ==> Initial()
      ensures m.AudioFrame? ==>
                var pushed := old(Queued()) + m.frame;
                || Queued() == pushed
                || (&& initialBufferSamples + partialBufferSamples <= |pushed|
                    && Queued() == pushed[|pushed| - (initialBufferSamples + partialBufferSamples)..])
    {
      match m
      case Reset => InitState();
      case AudioFrame(frame) => OnFrame(frame);
    }

    /** The copying loop of `process`: fill `output` from the queue in FIFO order. */
    method Drain(output: array<Sample>) returns (written: nat)
      requires Valid()
      modifies this`frames, this`offsetInFirstBuffer, output
      ensures Valid()
      ensures written == Min(output.Length, |old(Queued())|)
      ensures output[..] == old(Queued())[..written] + old(output[..])[written..]
      ensures Queued() == old(Queued())[written..]
    {
      ghost var q0 := Queued();
      ghost var blk := output[..];
      written := 0;
      while written < output.Length && |frames| > 0
        invariant Valid()
        invariant written <= output.Length && written <= |q0|
        invariant Queued() == q0[written..]
        invariant output[..] == q0[..written] + blk[written..]
        decreases output.Length - written + |frames|
      {
        ghost var q, before := Queued(), output[..];
        var toCopy := CopyFromHead(output, written);
        DrainStep(q0, blk, before, output[..], q, q[..toCopy], written, toCopy);
        written := written + toCopy;
      }
    }

    /**
     * One pass of the copying loop: as many samples of the head frame as
     * fit go to `output` at `at`, and the cursor moves past them.
     */
    method CopyFromHead(output: array<Sample>, at: nat) returns (toCopy: nat)
      requires Valid() && frames != [] && at < output.Length
      modifies this`frames, this`offsetInFirstBuffer, output
      ensures Valid()
      ensures at + toCopy <= output.Length && toCopy <= |old(Queued())|
      ensures output[..] == old(output[..])[..at] + old(Queued())[..toCopy] + old(output[..])[at + toCopy..]
      ensures Queued() == old(Queued())[toCopy..]
      ensures |frames| <= old(|frames|) && (toCopy > 0 || |frames| < old(|frames|))
    {
      var first, from := frames[0], offsetInFirstBuffer;
      toCopy := Min(|first| - from, output.Length - at);
      ghost var q := Queued();
      CopyOut(output, at, first, from, toCopy);
      ghost var after := output[..];
      assert frames[0] == first && offsetInFirstBuffer == from && Queued() == q;
      Advance(toCopy);
      assert output[..] == after;
    }

    /**
     * `process`: when playback may not proceed, only the pre-roll counter
     * runs down; otherwise samples are copied out, and an underrun stops
     * playback and widens the partial buffer up to its cap.
     */
    method Process(output: array?<Sample>)
      requires Valid()
      modifies this, output
      ensures Valid()
      ensures maxBufferSamples == old(maxBufferSamples)
      ensures output == null ==> unchanged(this)
      ensures output != null && !old(CanPlay()) ==>
                && frames == old(frames) && offsetInFirstBuffer == old(offsetInFirstBuffer)
                && started == old(started) && firstOut == old(firstOut)
                && partialBufferSamples == old(partialBufferSamples)
                && remainingPartialBufferSamples == old(remainingPartialBufferSamples) - output.Length
                && output[..] == old(output[..])
      ensures output != null && old(CanPlay()) ==>
                var n := Min(output.Length, |old(Queued())|);
                && output[..] == old(Queued())[..n] + old(output[..])[n..]
                && Queued() == old(Queued())[n..]
                && !firstOut
                && if n < output.Length then
                     && partialBufferSamples == Min(old(partialBufferSamples) + partialBufferIncrement, maxPartialWithIncrements)
                     && !started && remainingPartialBufferSamples == 0
                   else
                     && partialBufferSamples == old(partialBufferSamples)
                     && started == old(started)
                     && remainingPartialBufferSamples == old(remainingPartialBufferSamples)
    {
      if output == null {
        return;
      }
      if !CanPlay() {
        remainingPartialBufferSamples := remainingPartialBufferSamples - output.Length;
        return;
      }
      var written := Drain(output);
      if firstOut {
        firstOut := false;
      }
      if written < output.Length {
        partialBufferSamples := Min(partialBufferSamples + partialBufferIncrement, maxPartialWithIncrements);
        started := false;
        remainingPartialBufferSamples := 0;
      }
    }
  }

  /** `output.set(first.subarray(from, from + n), at)`. */
  method CopyOut<Sample>(output: array<Sample>, at: nat, first: seq<Sample>, from: nat, n: nat)
    requires at + n <= output.Length && from + n <= |first|
    modifies output
    ensures output[..] == old(output[..])[..at] + first[from..from + n] + old(output[..])[at + n..]
  {
    forall k | 0 <= k < n {
      output[at + k] := first[from + k];
    }
    assert output[..] == old(output[..])[..at] + first[from..from + n] + old(output[..])[at + n..];
  }
}
