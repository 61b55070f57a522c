/**
  `AudioEmitter` of agent/livekit/agents/tts/tts.py on its raw PCM path: commands in, frames out, one
  frame always held back so that the last of a segment can be marked. Durations are counted in samples.
 */
module AudioEmission {
  import opened Wrappers
  import opened Subsequences
  import opened Bytes
  import opened AudioBytes

  datatype Segment = Segment(id: string, duration: nat)

  /** A `SynthesizedAudio` on the destination channel. */
  datatype Emitted = Emitted(data: seq<byte>, transcripts: seq<string>, segment: string, isFinal: bool)

  datatype Command = Timed(text: string) | Start(id: string) | Bytes(data: seq<byte>) | Flush | End

  /** `silence` is the size in bytes of the frame standing in for a missing last one. */
  datatype Config = Config(format: Format, silence: nat, streaming: bool) {
    /** The format comes from the constructor of the byte stream, the silence is made of whole samples. */
    ghost predicate Computed() {
      format.Computed() && silence % format.unit == 0
    }
  }

  /** What `_emit_frame` and `_main_task` make of the arguments of `initialize`. */
  function ConfigOf(sampleRate: nat, frameSizeMs: nat, channels: nat, streaming: bool): Config {
    var samples, unit := sampleRate / 1000 * frameSizeMs, channels * 2;
    Config(Format(channels, samples, unit, samples * unit), sampleRate / 100 * unit, streaming)
  }

  lemma ConfigComputed(sampleRate: nat, frameSizeMs: nat, channels: nat, streaming: bool)
    requires sampleRate >= 1000 && frameSizeMs > 0 && channels > 0
    ensures ConfigOf(sampleRate, frameSizeMs, channels, streaming).Computed()
  {
    var perMs, unit := sampleRate / 1000, channels * 2;
    MulMono(frameSizeMs, perMs, 1);
    MulMono(unit, perMs * frameSizeMs, 1);
    DivUnique(sampleRate / 100 * unit, unit, sampleRate / 100);
  }

  /**
    What the arguments of `initialize` come to: frames of the given milliseconds at so many thousand samples a second,
    two bytes for each sample and channel, and 10 ms of silence, whole samples of it.
   */
  lemma ConfigTimes(sampleRate: nat, frameSizeMs: nat, channels: nat, streaming: bool)
    requires channels > 0
    ensures var c := ConfigOf(sampleRate, frameSizeMs, channels, streaming);
            && c.format.channels == channels && c.format.unit == 2 * channels && c.streaming == streaming
            && c.format.samples * 1000 == (sampleRate - sampleRate % 1000) * frameSizeMs
            && c.format.frameSize == c.format.samples * c.format.unit
            && c.silence * 100 == (sampleRate - sampleRate % 100) * (2 * channels)
  {
    var thousands, hundreds, unit := sampleRate / 1000, sampleRate / 100, channels * 2;
    assert sampleRate - sampleRate % 1000 == thousands * 1000 && sampleRate - sampleRate % 100 == hundreds * 100;
    assert thousands * frameSizeMs * 1000 == (thousands * 1000) * frameSizeMs;
    assert hundreds * unit * 100 == (hundreds * 100) * unit;
  }

  lemma SilenceIsZero(n: nat)
    ensures |Silence(n)| == n && forall i :: 0 <= i < n ==> Silence(n)[i] == 0
  {
  }

  datatype State = State(
    stream: Option<seq<byte>>, segment: Option<Segment>, last: Option<AudioFrame>,
    pending: seq<string>, durations: seq<nat>, out: seq<Emitted>)

  const INITIAL := State(None, None, None, [], [], [])

  function Silence(n: nat): seq<byte> {
    seq(n, _ => 0)
  }

  function Send(st: State, data: seq<byte>, isFinal: bool): State
    requires st.segment.Some?
  {
    st.(out := st.out + [Emitted(data, st.pending, st.segment.value.id, isFinal)], pending := [])
  }

  /** The duration of a sent frame goes to the segment and to the last entry of the list. */
  function Count(st: State, samples: nat): State
    requires st.segment.Some? && st.durations != []
  {
    st.(segment := Some(st.segment.value.(duration := st.segment.value.duration + samples)),
        durations := DropLast(st.durations) + [Last(st.durations) + samples])
  }

  /** `_emit_frame`. */
  function EmitFrame(c: Config, st: State, frame: Option<AudioFrame>, isFinal: bool): State
    requires st.segment.Some? && st.durations != []
  {
    if st.last == None && !isFinal then st.(last := frame)
    else if st.last == None && st.segment.value.duration > 0 then
      match frame
      case None => Send(st, Silence(c.silence), true)
      case Some(x) => Send(Count(st, x.samples), x.data, true)
    else if st.last.Some? then
      Count(Send(st, st.last.value.data, isFinal), st.last.value.samples).(last := frame)
    else st.(last := frame)
  }

  /** Emitting several frames, none of them final. */
  function EmitFrames(c: Config, st: State, frames: seq<AudioFrame>): (r: State)
    requires st.segment.Some? && st.durations != []
    ensures r.segment.Some? && r.durations != []
  {
    if frames == [] then st
    else EmitFrame(c, EmitFrames(c, st, DropLast(frames)), Some(Last(frames)), false)
  }

  /** `_flush_frame`. */
  function FlushFrame(st: State): State
    requires st.segment.Some? && st.durations != []
  {
    match st.last
    case None => st
    case Some(x) => Count(Send(st, x.data, false), x.samples).(last := None)
  }

  function Buffer(st: State): seq<byte> {
    if st.stream.Some? then st.stream.value else []
  }

  function EndSegment(c: Config, st: State): State
    requires st.segment.Some? && st.durations != []
  {
    EmitFrame(c, st, None, true).(segment := None, stream := None, last := None)
  }

  /** One command taken from the channel; `None` when the loop raises. */
  function Step(c: Config, st: State, cmd: Command): Option<State>
    requires c.format.Valid()
  {
    match cmd
    case Timed(text) => Some(st.(pending := st.pending + [text]))
    case Start(id) =>
      if st.segment.Some? then None
      else Some(st.(durations := st.durations + [0], segment := Some(Segment(id, 0))))
    case Bytes(data) =>
      var frames := Frames(c.format, Buffer(st) + data);
      var rest := Rest(c.format, Buffer(st) + data);
      if st.segment == None && (c.streaming || frames != []) then None
      else if st.segment == None then Some(st.(stream := Some(rest)))
      else if st.durations == [] then None
      else Some(EmitFrames(c, st.(stream := Some(rest)), frames))
    case Flush =>
      if st.segment == None && c.streaming then Some(st)
      else if st.stream == None then Some(st)
      else if st.segment == None || st.durations == [] then None
      else
        var frames := FlushFrames(c.format, st.stream.value);
        Some(FlushFrame(EmitFrames(c, st.(stream := Some(FlushRest(c.format, st.stream.value))), frames)))
    case End =>
      if st.segment == None && c.streaming then Some(st)
      else if st.stream == None then Some(st)
      else if st.segment == None || st.durations == [] then None
      else
        var frames := FlushFrames(c.format, st.stream.value);
        Some(EndSegment(c, EmitFrames(c, st.(stream := Some(FlushRest(c.format, st.stream.value))), frames)))
  }

  function Run(c: Config, st: State, cmds: seq<Command>): Option<State>
    requires c.format.Valid()
  {
    if cmds == [] then Some(st)
    else match Run(c, st, DropLast(cmds))
      case None => None
      case Some(mid) => Step(c, mid, Last(cmds))
  }

  /**
    What an emission sends: the frame held back if there is one, counted, and the new frame is held; with none held a
    frame that is not final is held, and a final one goes out itself, counted, or the silence for it, not counted,
    once something went out for the segment.
   */
  lemma EmitSends(c: Config, st: State, frame: Option<AudioFrame>, isFinal: bool)
    requires st.segment.Some? && st.durations != []
    ensures var next := EmitFrame(c, st, frame, isFinal);
            var seg := st.segment.value;
            var sent := if st.last.Some? then Some((st.last.value.data, st.last.value.samples))
                        else if !isFinal || seg.duration == 0 then None
                        else if frame.Some? then Some((frame.value.data, frame.value.samples))
                            else Some((Silence(c.silence), 0));
            match sent
            case None => next == st.(last := frame)
            case Some(x) => && next.out == st.out + [Emitted(x.0, st.pending, seg.id, isFinal)] && next.pending == []
                            && next.segment == Some(Segment(seg.id, seg.duration + x.1))
                            && |next.durations| == |st.durations| && Last(next.durations) == Last(st.durations) + x.1
                            && next.last == (if st.last.Some? then frame else None)
  {
    if st.last == None && isFinal && frame == None && st.segment.value.duration > 0 {
      assert st.segment == Some(Segment(st.segment.value.id, st.segment.value.duration + 0));
    }
  }

  /**
    Outside a segment, when streaming: flush and end change nothing, bytes raise. Inside one another start raises. A
    timed transcript waits in any case.
   */
  lemma OutsideAndInside(c: Config, st: State, data: seq<byte>, id: string, text: string)
    requires c.format.Valid()
    ensures st.segment == None && c.streaming ==>
              Step(c, st, Flush) == Some(st) && Step(c, st, End) == Some(st) && Step(c, st, Bytes(data)) == None
    ensures st.segment.Some? <==> Step(c, st, Start(id)) == None
    ensures st.segment == None ==> Step(c, st, Start(id)).value.segment == Some(Segment(id, 0))
    ensures Step(c, st, Timed(text)) == Some(st.(pending := st.pending + [text]))
  {
  }

  /**
    Outside a segment, when not streaming: bytes are kept until they fill a frame, which raises, as do flush and
    end.
   */
  lemma OutsideUnstreamed(c: Config, st: State, data: seq<byte>)
    requires c.format.Valid() && st.segment == None && !c.streaming
    ensures |Buffer(st)| + |data| < c.format.frameSize ==>
              Step(c, st, Bytes(data)) == Some(st.(stream := Some(Buffer(st) + data)))
    ensures |Buffer(st)| + |data| >= c.format.frameSize ==> Step(c, st, Bytes(data)) == None
    ensures st.stream.Some? <==> Step(c, st, Flush) == None
    ensures st.stream.Some? <==> Step(c, st, End) == None
  {
  }

  class AudioEmitter {
    const config: Config
    var audioByteStream: AudioByteStream?
    var segmentCtx: Option<Segment>
    var lastFrame: Option<AudioFrame>
    var timedTranscripts: seq<string>
    var audioDurations: seq<nat>
    var dstCh: seq<Emitted>

    ghost predicate Valid()
      reads this, audioByteStream
    {
      && config.format.Valid()
      && (audioByteStream != null ==> audioByteStream.format == config.format)
      && (segmentCtx.Some? ==> audioDurations != [])
    }

    ghost function Value(): State
      reads this, audioByteStream
    {
      State(if audioByteStream == null then None else Some(audioByteStream.buf), segmentCtx, lastFrame,
            timedTranscripts, audioDurations, dstCh)
    }

    constructor (config: Config)
      requires config.format.Valid()
      ensures this.config == config && Valid() && Value() == INITIAL && audioByteStream == null
    {
      this.config := config;
      audioByteStream, segmentCtx, lastFrame := null, None, None;
      timedTranscripts, audioDurations, dstCh := [], [], [];
    }

    method SendFrame(data: seq<byte>, isFinal: bool)
      requires Valid() && segmentCtx.Some?
      modifies `dstCh, `timedTranscripts
      ensures Valid() && Value() == Send(old(Value()), data, isFinal)
    {
      dstCh := dstCh + [Emitted(data, timedTranscripts, segmentCtx.value.id, isFinal)];
      timedTranscripts := [];
    }

    method CountFrame(samples: nat)
      requires Valid() && segmentCtx.Some?
      modifies `segmentCtx, `audioDurations
      ensures Valid() && segmentCtx.Some? && Value() == Count(old(Value()), samples)
    {
      segmentCtx := Some(segmentCtx.value.(duration := segmentCtx.value.duration + samples));
      audioDurations := audioDurations[|audioDurations| - 1 := Last(audioDurations) + samples];
      assert audioDurations == DropLast(old(audioDurations)) + [Last(old(audioDurations)) + samples];
    }

    /** `_emit_frame`. */
    method Emit(frame: Option<AudioFrame>, isFinal: bool)
      requires Valid() && segmentCtx.Some?
      modifies `dstCh, `timedTranscripts, `segmentCtx, `audioDurations, `lastFrame
      ensures Valid() && segmentCtx.Some? && Value() == EmitFrame(config, old(Value()), frame, isFinal)
    {
      if lastFrame == None {
        if !isFinal {
          lastFrame := frame;
          return;
        } else if segmentCtx.value.duration > 0 {
          var data := Silence(config.silence);
          if frame.Some? {
            CountFrame(frame.value.samples);
            data := frame.value.data;
          }
          SendFrame(data, true);
          return;
        }
      }
      if lastFrame.Some? {
        var x := lastFrame.value;
        SendFrame(x.data, isFinal);
        CountFrame(x.samples);
      }
      lastFrame := frame;
    }

    method EmitAll(frames: seq<AudioFrame>)
      requires Valid() && segmentCtx.Some?
      modifies `dstCh, `timedTranscripts, `segmentCtx, `audioDurations, `lastFrame
      ensures Valid() && segmentCtx.Some? && Value() == EmitFrames(config, old(Value()), frames)
    {
      for i := 0 to |frames|
        invariant Valid() && segmentCtx.Some? && Value() == EmitFrames(config, old(Value()), frames[..i])
      {
        assert DropLast(frames[..i + 1]) == frames[..i];
        Emit(Some(frames[i]), false);
      }
      assert frames[..|frames|] == frames;
    }

    /** `_flush_frame`. */
    method FlushLast()
      requires Valid() && segmentCtx.Some?
      modifies `dstCh, `timedTranscripts, `segmentCtx, `audioDurations, `lastFrame
      ensures Valid() && segmentCtx.Some? && Value() == FlushFrame(old(Value()))
    {
      if lastFrame == None {
        return;
      }
      var x := lastFrame.value;
      SendFrame(x.data, false);
      CountFrame(x.samples);
      lastFrame := None;
    }

    /** Bytes on the raw PCM path. */
    method TakeBytes(data: seq<byte>) returns (ok: bool)
      requires Valid()
      modifies this, audioByteStream
      ensures ok <==> Step(config, old(Value()), Bytes(data)).Some?
      ensures ok ==> Valid() && Value() == Step(config, old(Value()), Bytes(data)).value
      ensures audioByteStream == old(audioByteStream) || fresh(audioByteStream)
    {
      if segmentCtx == None && config.streaming {
        return false;
      }
      if audioByteStream == null {
        audioByteStream := new AudioByteStream(config.format);
      }
      var frames := audioByteStream.Push(data);
      if segmentCtx == None {
        return frames == [];
      }
      EmitAll(frames);
      ok := true;
    }

    method TakeFlush() returns (ok: bool)
      requires Valid()
      modifies this, audioByteStream
      ensures ok <==> Step(config, old(Value()), Flush).Some?
      ensures ok ==> Valid() && Value() == Step(config, old(Value()), Flush).value
      ensures audioByteStream == old(audioByteStream)
    {
      if segmentCtx == None && config.streaming {
        return true;
      }
      if audioByteStream == null {
        return true;
      }
      if segmentCtx == None {
        return false;
      }
      var frames := audioByteStream.Flush();
      EmitAll(frames);
      FlushLast();
      ok := true;
    }

    method TakeEnd() returns (ok: bool)
      requires Valid()
      modifies this, audioByteStream
      ensures ok <==> Step(config, old(Value()), End).Some?
      ensures ok ==> Valid() && Value() == Step(config, old(Value()), End).value
      ensures audioByteStream == old(audioByteStream) || audioByteStream == null
    {
      if segmentCtx == None && config.streaming {
        return true;
      }
      if audioByteStream == null {
        return true;
      }
      if segmentCtx == None {
        return false;
      }
      var frames := audioByteStream.Flush();
      EmitAll(frames);
      Emit(None, true);
      segmentCtx, audioByteStream, lastFrame := None, null, None;
      ok := true;
    }

    /** The body of the command loop of `_main_task`; `ok` false when it raises. */
    method Handle(cmd: Command) returns (ok: bool)
      requires Valid()
      modifies this, audioByteStream
      ensures ok <==> Step(config, old(Value()), cmd).Some?
      ensures ok ==> Valid() && Value() == Step(config, old(Value()), cmd).value
      ensures audioByteStream == old(audioByteStream) || audioByteStream == null || fresh(audioByteStream)
    {
      match cmd
      case Timed(text) =>
        timedTranscripts := timedTranscripts + [text];
        ok := true;
      case Start(id) =>
        if segmentCtx.Some? {
          return false;
        }
        audioDurations := audioDurations + [0];
        segmentCtx := Some(Segment(id, 0));
        ok := true;
      case Bytes(data) =>
        ok := TakeBytes(data);
      case Flush =>
        ok := TakeFlush();
      case End =>
        ok := TakeEnd();
    }

    /** `_main_task` over the commands of a closed channel; `ok` false when it raises. */
    method MainTask(cmds: seq<Command>) returns (ok: bool)
      requires Valid()
      modifies this, audioByteStream
      ensures ok <==> Run(config, old(Value()), cmds).Some?
      ensures ok ==> Valid() && Value() == Run(config, old(Value()), cmds).value
    {
      for i := 0 to |cmds|
        invariant Valid()
        invariant audioByteStream == old(audioByteStream) || audioByteStream == null || fresh(audioByteStream)
        invariant Run(config, old(Value()), cmds[..i]) == Some(Value())
      {
        assert DropLast(cmds[..i + 1]) == cmds[..i];
        ok := Handle(cmds[i]);
        if !ok {
          RaisedForGood(config, old(Value()), cmds, i + 1);
          return;
        }
      }
      assert cmds[..|cmds|] == cmds;
      ok := true;
    }
  }

  lemma {:induction false} RaisedForGood(c: Config, st: State, cmds: seq<Command>, i: nat)
    requires c.format.Valid() && i <= |cmds| && Run(c, st, cmds[..i]) == None
    ensures Run(c, st, cmds) == None
  {
    if i == |cmds| {
      assert cmds[..i] == cmds;
    } else {
      assert DropLast(cmds)[..i] == cmds[..i];
      RaisedForGood(c, st, DropLast(cmds), i);
    }
  }
}
