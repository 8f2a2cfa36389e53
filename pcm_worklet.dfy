/**
 * The microphone worklet `PCMProcessor`: it re-chunks whatever number of
 * samples each `process` call brings into frames of exactly `FRAME_SIZE`
 * samples, keeping the remainder in a fixed buffer between calls. Samples are
 * only copied, so their type is a parameter.
 */
module PcmWorklet {
  import opened Wrappers
  import opened Seqs

  /** 20 ms at 24 kHz. */
  const FRAME_SIZE: nat := 480

  class PCMProcessor<Sample(0)> {
    var buf: array<Sample>
    var off: nat

    ghost predicate Valid()
      reads this
    {
      buf.Length == FRAME_SIZE && off < FRAME_SIZE
    }

    /** The samples waiting in `_buf[0.._off)` for the next frame. */
    ghost function Pending(): seq<Sample>
      reads this, buf
      requires Valid()
    {
      buf[..off]
    }

    constructor ()
      ensures Valid() && fresh(buf)
      ensures Pending() == []
    {
      buf := new Sample[FRAME_SIZE];
      off := 0;
    }

    /**
     * `process(inputs)`: `input` is the first channel of the first input,
     * `None` when there is none. `posted` lists the frames sent with
     * `port.postMessage`, in order.
     */
    method Process(input: Option<seq<Sample>>) returns (posted: seq<seq<Sample>>)
      requires Valid()
      modifies this, buf
      ensures Valid() && buf == old(buf)
      ensures forall k :: 0 <= k < |posted| ==> |posted[k]| == FRAME_SIZE
      ensures input.None? ==> posted == [] && Pending() == old(Pending())
      ensures input.Some? ==> Flatten(posted) + Pending() == old(Pending()) + input.value
      ensures input.Some? ==> |posted| == (old(off) + |input.value|) / FRAME_SIZE
      ensures input.Some? ==> off == (old(off) + |input.value|) % FRAME_SIZE
    {
      posted := [];
      if input.Some? {
        posted := Rechunk(input.value);
        FlattenUniformLength(posted, FRAME_SIZE);
        FramesOfTotal(old(off) + |input.value|, |posted|, off);
      }
    }

    /** The `while (i < ch.length)` loop of `process`. */
    method Rechunk(ch: seq<Sample>) returns (posted: seq<seq<Sample>>)
      requires Valid()
      modifies this, buf
      ensures Valid() && buf == old(buf)
      ensures FullFrames(posted)
      ensures Flatten(posted) + Pending() == old(Pending()) + ch
    {
      posted := [];
      ghost var pending0 := Pending();
      var i := 0;
      while i < |ch|
        invariant 0 <= i <= |ch|
        invariant buf == old(buf) && Valid()
        invariant FullFrames(posted)
        invariant Flatten(posted) + Pending() == pending0 + ch[..i]
        decreases |ch| - i
      {
        ghost var waiting := Pending();
        var n, out := Absorb(ch, i);
        RechunkStep(posted, out, waiting, Pending(), pending0, ch, i, n);
        posted := posted + out;
        i := i + n;
      }
      assert ch[..i] == ch;
    }

    /**
     * One pass of the loop in `process`: copy as many samples from `ch[i..]`
     * as the frame still needs, and post the frame (`out`) when it is full.
     */
    method Absorb(ch: seq<Sample>, i: nat) returns (n: nat, out: seq<seq<Sample>>)
      requires Valid() && i < |ch|
      modifies this, buf
      ensures Valid() && buf == old(buf)
      ensures 0 < n && i + n <= |ch|
      ensures |out| <= 1 && FullFrames(out)
      ensures Flatten(out) + Pending() == old(Pending()) + ch[i..i + n]
    {
      var need := FRAME_SIZE - off;
      n := if need < |ch| - i then need else |ch| - i;
      CopyIn(ch, i, n);
      out := [];
      if off == FRAME_SIZE {
        out := [buf[..]];
        assert buf[..off] == buf[..];
        assert Flatten(out) == buf[..] + Flatten([]);
        off := 0;
      }
    }

    /** `this._buf.set(ch.subarray(i, i + n), this._off); this._off += n`. */
    method CopyIn(ch: seq<Sample>, i: nat, n: nat)
      requires Valid()
      requires 0 < n <= FRAME_SIZE - off && i + n <= |ch|
      modifies this, buf
      ensures buf == old(buf) && off == old(off) + n && off <= FRAME_SIZE
      ensures buf[..off] == old(buf[..off]) + ch[i..i + n]
    {
      forall k | 0 <= k < n {
        buf[off + k] := ch[i + k];
      }
      off := off + n;
    }
  }

  /** Every frame holds exactly `FRAME_SIZE` samples. */
  ghost predicate FullFrames<Sample>(frames: seq<seq<Sample>>)
  {
    forall k :: 0 <= k < |frames| ==> |frames[k]| == FRAME_SIZE
  }

  /** Posting `out` after `posted` keeps the stream accounted for, one loop pass further on. */
  lemma RechunkStep<Sample>(posted: seq<seq<Sample>>, out: seq<seq<Sample>>, waiting: seq<Sample>,
                            now: seq<Sample>, pending0: seq<Sample>, ch: seq<Sample>, i: nat, n: nat)
    requires i + n <= |ch|
    requires FullFrames(posted) && FullFrames(out)
    requires Flatten(posted) + waiting == pending0 + ch[..i]
    requires Flatten(out) + now == waiting + ch[i..i + n]
    ensures FullFrames(posted + out)
    ensures Flatten(posted + out) + now == pending0 + ch[..i + n]
  {
    FlattenAppend(posted, out);
    calc {
      Flatten(posted + out) + now;
      Flatten(posted) + (Flatten(out) + now);
      (Flatten(posted) + waiting) + ch[i..i + n];
      { assert ch[..i + n] == ch[..i] + ch[i..i + n]; }
      pending0 + ch[..i + n];
    }
  }

  /** Whole frames and the remainder are the quotient and remainder by the frame size. */
  lemma FramesOfTotal(total: nat, frames: nat, rest: nat)
    requires total == FRAME_SIZE * frames + rest && rest < FRAME_SIZE
    ensures frames == total / FRAME_SIZE && rest == total % FRAME_SIZE
  {
  }
}
