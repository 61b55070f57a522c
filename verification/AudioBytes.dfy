/** `AudioByteStream` of agent/livekit/agents/utils/audio.py: bytes in, frames of a fixed size out. */
module AudioBytes {
  import opened Bytes
  import opened Strings
  import opened Subsequences

  datatype AudioFrame = AudioFrame(data: seq<byte>, samples: nat)

  /**
    Bytes per sample over all channels, two per channel, and bytes per frame, for `samples` samples per
    channel and frame.
   */
  datatype Format = Format(channels: nat, samples: nat, unit: nat, frameSize: nat) {
    ghost predicate Valid() {
      channels > 0 && samples > 0 && unit > 0 && frameSize > 0
    }

    /** As the constructor computes them. */
    ghost predicate Computed() {
      Valid() && unit == channels * 2 && frameSize == samples * unit
    }
  }

  lemma WholeSamples(f: Format)
    requires f.Computed()
    ensures f.frameSize % f.unit == 0 && SamplesIn(f.frameSize, f.unit) == f.samples
  {
    DivUnique(f.frameSize, f.unit, f.samples);
  }

  lemma DivUnique(n: nat, u: nat, q: nat)
    requires u > 0 && n == q * u
    ensures n / u == q && n % u == 0
  {
    var p, r := n / u, n % u;
    assert (q - p) * u == r;
    if q > p {
      assert (q - p) * u >= 1 * u by { MulMono(u, q - p, 1); }
    } else if q < p {
      assert (p - q) * u >= 1 * u by { MulMono(u, p - q, 1); }
    }
  }

  lemma MulMono(a: nat, c: nat, d: nat)
    requires c >= d
    ensures c * a >= d * a
  {
    assert (c - d) * a >= 0;
  }

  /** `len(frame_data) // bytes_per_sample`. */
  function SamplesIn(bytes: nat, unit: nat): nat
    requires unit > 0
  {
    bytes / unit
  }

  /** The full frames of a buffer. */
  function Frames(f: Format, buf: seq<byte>): seq<AudioFrame>
    requires f.frameSize > 0 && f.unit > 0
    decreases |buf|
  {
    if |buf| < f.frameSize then []
    else [AudioFrame(buf[..f.frameSize], SamplesIn(f.frameSize, f.unit))] + Frames(f, buf[f.frameSize..])
  }

  /** What is left of it. */
  function Rest(f: Format, buf: seq<byte>): seq<byte>
    requires f.frameSize > 0
    decreases |buf|
  {
    if |buf| < f.frameSize then buf else Rest(f, buf[f.frameSize..])
  }

  /** The frame of a flush, its samples counted as if there were one channel. */
  function FlushFrames(f: Format, buf: seq<byte>): seq<AudioFrame>
    requires f.unit > 0
  {
    if |buf| == 0 || |buf| % f.unit != 0 then [] else [AudioFrame(buf, |buf| / 2)]
  }

  /** A flush that drops an incomplete sample leaves the buffer as it was. */
  function FlushRest(f: Format, buf: seq<byte>): seq<byte>
    requires f.unit > 0
  {
    if |buf| % f.unit != 0 then buf else []
  }

  lemma FramesStep(f: Format, buf: seq<byte>, before: seq<AudioFrame>)
    requires f.Valid() && |buf| >= f.frameSize
    ensures before + Frames(f, buf) ==
            before + [AudioFrame(buf[..f.frameSize], SamplesIn(f.frameSize, f.unit))] + Frames(f, buf[f.frameSize..])
  {
  }

  class AudioByteStream {
    const format: Format
    var buf: seq<byte>

    constructor (format: Format)
      ensures this.format == format && buf == []
    {
      this.format := format;
      buf := [];
    }

    /** `push`. */
    method Push(data: seq<byte>) returns (frames: seq<AudioFrame>)
      requires format.Valid()
      modifies this
      ensures frames == Frames(format, old(buf) + data)
      ensures buf == Rest(format, old(buf) + data)
    {
      buf := buf + data;
      frames := [];
      while |buf| >= format.frameSize
        invariant frames + Frames(format, buf) == Frames(format, old(buf) + data)
        invariant Rest(format, buf) == Rest(format, old(buf) + data)
        decreases |buf|
      {
        FramesStep(format, buf, frames);
        var frameData := buf[..format.frameSize];
        buf := buf[format.frameSize..];
        frames := frames + [AudioFrame(frameData, SamplesIn(|frameData|, format.unit))];
      }
    }

    /** `flush`. */
    method Flush() returns (frames: seq<AudioFrame>)
      requires format.Valid()
      modifies this
      ensures frames == FlushFrames(format, old(buf)) && buf == FlushRest(format, old(buf))
    {
      if |buf| == 0 {
        return [];
      }
      if |buf| % format.unit != 0 {
        return [];
      }
      frames := [AudioFrame(buf, |buf| / 2)];
      buf := [];
    }
  }

  function Data(frames: seq<AudioFrame>): seq<byte> {
    if frames == [] then [] else Data(DropLast(frames)) + Last(frames).data
  }

  lemma {:induction false} DataJoin(a: seq<AudioFrame>, b: seq<AudioFrame>)
    ensures Data(a + b) == Data(a) + Data(b)
  {
    if b == [] {
      assert a + b == a && Data(a) + [] == Data(a);
    } else {
      assert DropLast(a + b) == a + DropLast(b);
      DataJoin(a, DropLast(b));
      assert Data(a) + Data(DropLast(b)) + Last(b).data == Data(a) + (Data(DropLast(b)) + Last(b).data);
    }
  }

  lemma DataOne(x: AudioFrame)
    ensures Data([x]) == x.data
  {
    assert DropLast([x]) == [] && [] + x.data == x.data;
  }

  /** Nothing is lost, and what is left is shorter than a frame. */
  lemma {:induction false} FramesConserve(f: Format, buf: seq<byte>)
    requires f.Valid()
    ensures Data(Frames(f, buf)) + Rest(f, buf) == buf
    ensures |Rest(f, buf)| < f.frameSize
    decreases |buf|
  {
    if |buf| < f.frameSize {
      assert [] + buf == buf;
    } else {
      var data, rest := buf[..f.frameSize], buf[f.frameSize..];
      FramesConserve(f, rest);
      DataCons(AudioFrame(data, SamplesIn(f.frameSize, f.unit)), Frames(f, rest));
      Regroup2(data, Data(Frames(f, rest)), Rest(f, rest));
      assert data + rest == buf;
    }
  }

  /** Every frame of a push is full and carries the samples of a full frame. */
  lemma {:induction false} FramesFull(f: Format, buf: seq<byte>)
    requires f.Valid()
    ensures forall x :: x in Frames(f, buf) ==> |x.data| == f.frameSize && x.samples == SamplesIn(f.frameSize, f.unit)
    decreases |buf|
  {
    if |buf| >= f.frameSize {
      FramesFull(f, buf[f.frameSize..]);
    }
  }

  lemma DataCons(x: AudioFrame, b: seq<AudioFrame>)
    ensures Data([x] + b) == x.data + Data(b)
  {
    DataJoin([x], b);
    DataOne(x);
  }

  /** For every chunking: what comes out of the pushes, then of a flush, is what went in. */
  lemma {:induction false} ChunksConserve(f: Format, chunks: seq<seq<byte>>, buf: seq<byte>)
    returns (frames: seq<AudioFrame>, rest: seq<byte>)
    requires f.Valid() && |buf| < f.frameSize
    ensures |rest| < f.frameSize && Data(frames) + rest == buf + Concat(chunks)
    ensures forall x :: x in frames ==> |x.data| == f.frameSize && x.samples == SamplesIn(f.frameSize, f.unit)
  {
    if chunks == [] {
      frames, rest := [], buf;
      assert [] + buf == buf + [];
    } else {
      frames, rest := ChunksConserve(f, DropLast(chunks), buf);
      var more := Frames(f, rest + Last(chunks));
      FramesConserve(f, rest + Last(chunks));
      FramesFull(f, rest + Last(chunks));
      DataJoin(frames, more);
      Regroup(Data(frames), rest, Last(chunks), Data(more), Rest(f, rest + Last(chunks)));
      Regroup2(buf, Concat(DropLast(chunks)), Last(chunks));
      frames, rest := frames + more, Rest(f, rest + Last(chunks));
    }
  }

  lemma Regroup<T>(a: seq<T>, b: seq<T>, c: seq<T>, d: seq<T>, e: seq<T>)
    requires d + e == b + c
    ensures (a + d) + e == (a + b) + c
  {
    assert (a + d) + e == a + (d + e);
    assert (a + b) + c == a + (b + c);
  }

  lemma Regroup2<T>(a: seq<T>, b: seq<T>, c: seq<T>)
    ensures (a + b) + c == a + (b + c)
  {
  }

  /**
    A flushed frame counts its samples rightly exactly when there is one channel: with more, the count
    is that many times too high.
   */
  lemma FlushSamples(f: Format, buf: seq<byte>)
    requires f.Computed() && FlushFrames(f, buf) != []
    ensures FlushFrames(f, buf)[0].samples * f.unit == |buf| <==> f.channels == 1
  {
    var n, u, c := |buf|, f.unit, f.channels;
    var q := n / u;
    assert n == q * u == q * (c * 2) == (q * c) * 2;
    var s := q * c;
    assert n / 2 == s;
    assert s > 0;
    if c == 1 {
      assert s * u == n;
    } else {
      assert s * u == s * (c * 2) == c * (s * 2);
      MulMono(s * 2, c, 2);
    }
  }
}
