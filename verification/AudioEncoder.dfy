/** The sample accumulator in front of the AAC codec. A sample is any value; the codec is
    whatever takes the submitted frames. */
module AudioEncoder {

  const COMPACT_ABOVE := 8192

  // ---- the plain queue it stands for --------------------------------------------------------

  /** Samples waiting, and the frames' worth of interleaved samples taken so far. */
  datatype Fifo<T> = Fifo(rest: seq<T>, chunks: seq<seq<T>>)

  /** One call: everything is queued, and at most one frame is taken. */
  function Fed<T>(q: Fifo<T>, input: seq<T>, chunk: nat): Fifo<T> {
    var all := q.rest + input;
    if |all| < chunk then Fifo(all, q.chunks) else Fifo(all[chunk..], q.chunks + [all[..chunk]])
  }

  function Run<T>(inputs: seq<seq<T>>, chunk: nat): Fifo<T> {
    if inputs == [] then Fifo([], []) else Fed(Run(inputs[..|inputs| - 1], chunk), inputs[|inputs| - 1], chunk)
  }

  function Flat<T>(parts: seq<seq<T>>): seq<T> {
    if parts == [] then [] else Flat(parts[..|parts| - 1]) + parts[|parts| - 1]
  }

  lemma FlatMore<T>(parts: seq<seq<T>>, part: seq<T>)
    ensures Flat(parts + [part]) == Flat(parts) + part
  {
    assert (parts + [part])[..|parts|] == parts;
  }

  lemma FedLosesNothing<T>(q: Fifo<T>, input: seq<T>, chunk: nat)
    ensures var r := Fed(q, input, chunk); Flat(r.chunks) + r.rest == Flat(q.chunks) + q.rest + input
  {
    hide Flat;
    var all := q.rest + input;
    assert Flat(q.chunks) + q.rest + input == Flat(q.chunks) + all;
    if |all| >= chunk {
      FlatMore(q.chunks, all[..chunk]);
      assert all == all[..chunk] + all[chunk..];
      assert Flat(q.chunks) + all[..chunk] + all[chunk..] == Flat(q.chunks) + (all[..chunk] + all[chunk..]);
    }
  }

  /** Conservation: the frames taken, one after the other, and what waits are the input. */
  lemma {:induction false} NothingLost<T>(inputs: seq<seq<T>>, chunk: nat)
    ensures var q := Run(inputs, chunk); Flat(q.chunks) + q.rest == Flat(inputs)
  {
    hide Fed;
    if inputs != [] {
      var before, input := inputs[..|inputs| - 1], inputs[|inputs| - 1];
      NothingLost(before, chunk);
      FedLosesNothing(Run(before, chunk), input, chunk);
    }
  }

  lemma {:induction false} ChunksAreWhole<T>(inputs: seq<seq<T>>, chunk: nat, k: nat)
    requires k < |Run(inputs, chunk).chunks|
    ensures |Run(inputs, chunk).chunks[k]| == chunk
  {
    if inputs != [] {
      var before := inputs[..|inputs| - 1];
      if k < |Run(before, chunk).chunks| {
        ChunksAreWhole(before, chunk, k);
      }
    }
  }

  lemma {:induction false} FlatAt<T>(parts: seq<seq<T>>, chunk: nat, k: nat, j: nat)
    requires (forall i | 0 <= i < |parts| :: |parts[i]| == chunk) && k < |parts| && j < chunk
    ensures k * chunk + j < |Flat(parts)| && Flat(parts)[k * chunk + j] == parts[k][j]
  {
    var n := |parts| - 1;
    FlatLength(parts[..n], chunk);
    var at := k * chunk + j;
    if k < n {
      FlatAt(parts[..n], chunk, k, j);
      assert Flat(parts)[at] == Flat(parts[..n])[at];
    } else {
      assert Flat(parts)[at] == parts[n][at - |Flat(parts[..n])|];
    }
  }

  lemma {:induction false} FlatLength<T>(parts: seq<seq<T>>, chunk: nat)
    requires forall i | 0 <= i < |parts| :: |parts[i]| == chunk
    ensures |Flat(parts)| == |parts| * chunk
  {
    if parts != [] {
      var n := |parts| - 1;
      FlatLength(parts[..n], chunk);
      assert n * chunk + chunk == |parts| * chunk;
    }
  }

  /** Sample j of frame k is input sample k * chunk + j, and the frames and the rest account
      for every input sample by count. */
  lemma ChunkSample<T>(inputs: seq<seq<T>>, chunk: nat, k: nat, j: nat)
    requires k < |Run(inputs, chunk).chunks| && j < chunk
    ensures k * chunk + j < |Flat(inputs)|
    ensures |Run(inputs, chunk).chunks[k]| == chunk
    ensures Run(inputs, chunk).chunks[k][j] == Flat(inputs)[k * chunk + j]
  {
    hide Run;
    var q := Run(inputs, chunk);
    forall i | 0 <= i < |q.chunks| ensures |q.chunks[i]| == chunk {
      ChunksAreWhole(inputs, chunk, i);
    }
    FlatAt(q.chunks, chunk, k, j);
    NothingLost(inputs, chunk);
  }

  function Sum<T>(parts: seq<seq<T>>): nat {
    if parts == [] then 0 else Sum(parts[..|parts| - 1]) + |parts[|parts| - 1]|
  }

  /** One frame a call: calls that bring no more than a frame each leave less than a frame
      waiting; beyond that, a call that brings more leaves the surplus to pile up. */
  lemma {:induction false} Backlog<T>(inputs: seq<seq<T>>, chunk: nat)
    requires chunk > 0
    ensures |Run(inputs, chunk).rest| == Sum(inputs) - |Run(inputs, chunk).chunks| * chunk
    ensures |Run(inputs, chunk).chunks| <= |inputs|
    ensures (forall i | 0 <= i < |inputs| :: |inputs[i]| <= chunk) ==> |Run(inputs, chunk).rest| < chunk
  {
    if inputs != [] {
      var before := inputs[..|inputs| - 1];
      Backlog(before, chunk);
      var n := |Run(before, chunk).chunks|;
      assert n * chunk + chunk == (n + 1) * chunk;
      assert forall i | 0 <= i < |before| :: before[i] == inputs[i];
    }
  }

  /** A call takes a frame exactly when, with what it brings, enough samples wait for one. */
  lemma TakesWhenFull<T>(inputs: seq<seq<T>>, input: seq<T>, chunk: nat)
    ensures var q, r := Run(inputs, chunk), Run(inputs + [input], chunk);
            && (|q.rest| + |input| >= chunk ==> |r.chunks| == |q.chunks| + 1 && r.chunks[..|q.chunks|] == q.chunks)
            && (|q.rest| + |input| < chunk ==> r.chunks == q.chunks && r.rest == q.rest + input)
  {
    assert (inputs + [input])[..|inputs|] == inputs;
  }

  // ---- planes ------------------------------------------------------------------------------------

  /** Where sample i of channel c is among interleaved samples. */
  function Index(channels: nat, c: nat, i: nat): nat {
    i * channels + c
  }

  lemma SampleInChunk(frameSize: nat, channels: nat, c: nat, i: nat)
    requires c < channels && i < frameSize
    ensures Index(channels, c, i) < frameSize * channels
  {
    assert i * channels + channels == (i + 1) * channels;
    assert (i + 1) * channels <= frameSize * channels;
  }

  /** What the codec gets: for each channel its samples, and the time stamp. */
  datatype Frame<T> = Frame(planes: seq<seq<T>>, pts: int)

  ghost predicate PlaneOf<T>(plane: seq<T>, chunk: seq<T>, frameSize: nat, channels: nat, c: nat) {
    && |plane| == frameSize
    && (forall i: nat | i < frameSize ::
          Index(channels, c, i) < |chunk| && plane[i] == chunk[Index(channels, c, i)])
  }

  /** The planes hold the chunk, channel by channel. */
  ghost predicate Planar<T>(planes: seq<seq<T>>, chunk: seq<T>, frameSize: nat, channels: nat) {
    |planes| == channels && (forall c: nat | c < channels :: PlaneOf(planes[c], chunk, frameSize, channels, c))
  }

  ghost predicate FrameOf<T>(frame: Frame<T>, chunk: seq<T>, k: nat, frameSize: nat, channels: nat) {
    frame.pts == k * frameSize && Planar(frame.planes, chunk, frameSize, channels)
  }

  /** The submitted frames are the chunks of the queue, de-interleaved, stamped one frame
      apart. */
  ghost predicate FramesOf<T>(frames: seq<Frame<T>>, chunks: seq<seq<T>>, frameSize: nat, channels: nat) {
    && |frames| == |chunks|
    && (forall k: nat | k < |frames| :: FrameOf(frames[k], chunks[k], k, frameSize, channels))
  }

  /** Where every sample goes: plane c, sample i of frame k is the input sample
      k * frameSize * channels + i * channels + c, at time k * frameSize. */
  lemma PlaneSample<T>(inputs: seq<seq<T>>, frames: seq<Frame<T>>, frameSize: nat, channels: nat,
                       k: nat, c: nat, i: nat)
    requires FramesOf(frames, Run(inputs, frameSize * channels).chunks, frameSize, channels)
    requires k < |frames| && c < channels && i < frameSize
    ensures |frames[k].planes| == channels && |frames[k].planes[c]| == frameSize
    ensures k * (frameSize * channels) + i * channels + c < |Flat(inputs)|
    ensures frames[k].planes[c][i] == Flat(inputs)[k * (frameSize * channels) + i * channels + c]
    ensures frames[k].pts == k * frameSize
  {
    hide Run, Flat;
    SampleInChunk(frameSize, channels, c, i);
    assert FrameOf(frames[k], Run(inputs, frameSize * channels).chunks[k], k, frameSize, channels);
    assert PlaneOf(frames[k].planes[c], Run(inputs, frameSize * channels).chunks[k], frameSize, channels, c);
    ChunkSample(inputs, frameSize * channels, k, i * channels + c);
  }

  // ---- the encoder as it runs -----------------------------------------------------------------

  class Encoder<T(0)> {
    const frameSize: nat
    const channels: nat
    const plane: array2<T>
    var ready: bool
    var pts: int
    var buf: seq<T>
    var bufPos: nat
    ghost var inputs: seq<seq<T>>
    ghost var submitted: seq<Frame<T>>

    ghost predicate Valid()
      reads this
    {
      && frameSize > 0 && channels > 0 && plane.Length0 == channels && plane.Length1 == frameSize
      && bufPos <= |buf|
      && buf[bufPos..] == Run(inputs, Chunk()).rest
      && FramesOf(submitted, Run(inputs, Chunk()).chunks, frameSize, channels)
      && pts == |submitted| * frameSize
    }

    function Chunk(): nat {
      frameSize * channels
    }

    /** open() on a codec that takes frames of this size. */
    constructor (frameSize: nat, channels: nat)
      requires frameSize > 0 && channels > 0
      ensures Valid() && ready && inputs == [] && submitted == []
      ensures this.frameSize == frameSize && this.channels == channels && fresh(plane)
    {
      this.frameSize, this.channels := frameSize, channels;
      plane := new T[channels, frameSize];
      ready, pts, buf, bufPos := true, 0, [], 0;
      inputs, submitted := [], [];
    }

    /** close() drops what waits; nothing of it is ever submitted. */
    method Close()
      requires Valid()
      modifies this`ready, this`buf, this`bufPos, this`pts, this`inputs, this`submitted
      ensures Valid() && (old(ready) ==> !ready && inputs == [] && submitted == [])
      ensures !old(ready) ==> unchanged(this)
    {
      if ready {
        ready, pts, buf, bufPos := false, 0, [], 0;
        inputs, submitted := [], [];
      }
    }

    ghost function Planes(): seq<seq<T>>
      reads plane
      requires plane.Length0 == channels && plane.Length1 == frameSize
    {
      seq(channels, c requires 0 <= c < channels reads plane =>
        seq(frameSize, i requires 0 <= i < frameSize reads plane => plane[c, i]))
    }

    /** Interleaved samples from `start` on into the codec's planes. */
    method Deinterleave(samples: seq<T>, start: nat)
      requires plane.Length0 == channels && plane.Length1 == frameSize
      requires start + frameSize * channels <= |samples|
      modifies plane
      ensures Planar(Planes(), samples[start..start + frameSize * channels], frameSize, channels)
    {
      hide Index;
      ghost var chunk := samples[start..start + frameSize * channels];
      for c := 0 to channels
        invariant forall d: nat, i: nat | d < c && i < frameSize ::
          Index(channels, d, i) < |chunk| && plane[d, i] == chunk[Index(channels, d, i)]
      {
        for i := 0 to frameSize
          invariant forall d: nat, j: nat | d < c && j < frameSize ::
            Index(channels, d, j) < |chunk| && plane[d, j] == chunk[Index(channels, d, j)]
          invariant forall j: nat | j < i ::
            Index(channels, c, j) < |chunk| && plane[c, j] == chunk[Index(channels, c, j)]
        {
          SampleInChunk(frameSize, channels, c, i);
          plane[c, i] := samples[start + Index(channels, c, i)];
        }
      }
    }

    /** Queues the samples and submits at most one frame. The queue it keeps, the frames and
        their stamps are those of the plain queue, compacted or not. */
    method Encode(samples: seq<T>, usable: bool)
      requires Valid()
      modifies this`buf, this`bufPos, this`pts, this`inputs, this`submitted, plane
      ensures Valid() && ready == old(ready)
      ensures inputs == if ready && usable then old(inputs) + [samples] else old(inputs)
      ensures old(submitted) <= submitted
      ensures var full := ready && usable && |old(buf)| - old(bufPos) + |samples| >= frameSize * channels;
              |submitted| == |old(submitted)| + if full then 1 else 0
      ensures old(bufPos) <= 8192 ==> bufPos <= 8192
    {
      if !ready || !usable {
        return;
      }
      ghost var q := Run(inputs, Chunk());
      ghost var all := q.rest + samples;
      assert (inputs + [samples])[..|inputs|] == inputs;
      inputs := inputs + [samples];
      assert Run(inputs, Chunk()) == Fed(q, samples, Chunk());
      buf := buf + samples;
      assert buf[bufPos..] == all;
      if |buf| - bufPos < Chunk() {
        return;
      }
      Deinterleave(buf, bufPos);
      assert buf[bufPos..bufPos + Chunk()] == all[..Chunk()];
      Submitted(submitted, q.chunks, Frame(Planes(), pts), all[..Chunk()], frameSize, channels);
      submitted := submitted + [Frame(Planes(), pts)];
      pts := pts + frameSize;
      bufPos := bufPos + Chunk();
      assert buf[bufPos..] == all[Chunk()..];
      if bufPos > COMPACT_ABOVE {
        buf := buf[bufPos..];
        bufPos := 0;
      }
    }
  }

  lemma Submitted<T>(frames: seq<Frame<T>>, chunks: seq<seq<T>>, frame: Frame<T>, chunk: seq<T>,
                     frameSize: nat, channels: nat)
    requires FramesOf(frames, chunks, frameSize, channels)
    requires FrameOf(frame, chunk, |frames|, frameSize, channels)
    ensures FramesOf(frames + [frame], chunks + [chunk], frameSize, channels)
    ensures |frames| * frameSize + frameSize == |frames + [frame]| * frameSize
  {
  }
}
