/** What a segment of the audio emitter puts out. */
module AudioLaws {
  import opened Wrappers
  import opened Strings
  import opened Subsequences
  import opened Bytes
  import opened AudioBytes
  import opened AudioEmission

  function OutData(out: seq<Emitted>): seq<byte> {
    if out == [] then [] else OutData(DropLast(out)) + Last(out).data
  }

  function LastData(last: Option<AudioFrame>): seq<byte> {
    if last.Some? then last.value.data else []
  }

  predicate Aligned(data: seq<byte>, f: Format)
    requires f.Valid()
  {
    |data| % f.unit == 0
  }

  lemma AlignedSum(a: seq<byte>, b: seq<byte>, f: Format)
    requires f.Valid() && Aligned(a, f)
    ensures Aligned(a + b, f) <==> Aligned(b, f)
  {
    var u := f.unit;
    ModSum(|a|, |b|, u);
  }

  lemma ModSum(a: nat, b: nat, u: nat)
    requires u > 0 && a % u == 0
    ensures (a + b) % u == b % u
  {
    var q := a / u;
    assert a == q * u;
    var p, r := b / u, b % u;
    assert a + b == (q + p) * u + r by {
      assert (q + p) * u == q * u + p * u;
    }
    ModUnique(a + b, u, q + p, r);
  }

  lemma ModPart(a: nat, b: nat, u: nat)
    requires u > 0
    ensures (a % u + b) % u == (a + b) % u
  {
    var q, r := a / u, a % u;
    assert a == q * u + r;
    DivUnique(q * u, u, q);
    ModSum(q * u, r + b, u);
  }

  lemma ModUnique(n: nat, u: nat, q: nat, r: nat)
    requires u > 0 && n == q * u + r && r < u
    ensures n % u == r
  {
    var p, s := n / u, n % u;
    assert (q - p) * u == s - r;
    if q > p {
      MulMono(u, q - p, 1);
    } else if q < p {
      assert (p - q) * u == r - s;
      MulMono(u, p - q, 1);
    }
  }

  /**
    In the middle of a segment: `emitted` has gone out for it, none of it final, one frame may be held
    back, and together they are the audio `audio` taken off the byte stream so far.
   */
  ghost predicate Holding(c: Config, st: State, base: State, id: string, emitted: seq<Emitted>, audio: seq<byte>)
    requires c.format.Valid()
  {
    && st.segment.Some? && st.segment.value.id == id
    && st.out == base.out + emitted
    && st.durations == base.durations + [st.segment.value.duration]
    && (forall e :: e in emitted ==> e.segment == id && !e.isFinal && e.data != [])
    && (st.last.Some? ==> st.last.value.data != [] && st.last.value.samples > 0)
    && (st.segment.value.duration > 0 <==> emitted != [])
    && OutData(emitted) + LastData(st.last) == audio
    && (c.format.channels == 1 ==>
          st.segment.value.duration * 2 == |OutData(emitted)| &&
              (st.last.Some? ==> st.last.value.samples * 2 == |st.last.value.data|))
  }

  /** A frame with something in it, its samples counted rightly when there is one channel. */
  predicate Filled(c: Config, x: AudioFrame) {
    x.data != [] && x.samples > 0 && (c.format.channels == 1 ==> x.samples * 2 == |x.data|)
  }

  lemma OutSnoc(emitted: seq<Emitted>, e: Emitted)
    ensures OutData(emitted + [e]) == OutData(emitted) + e.data
  {
    assert DropLast(emitted + [e]) == emitted;
  }

  lemma CountLast(durations: seq<nat>, d: nat, n: nat)
    ensures DropLast(durations + [d]) + [Last(durations + [d]) + n] == durations + [d + n]
  {
    assert DropLast(durations + [d]) == durations;
  }

  lemma OneFrame(c: Config, st: State, base: State, id: string, emitted: seq<Emitted>, audio: seq<byte>, x: AudioFrame)
    returns (emitted': seq<Emitted>)
    requires c.format.Valid() && Holding(c, st, base, id, emitted, audio) && Filled(c, x)
    ensures Holding(c, EmitFrame(c, st, Some(x), false), base, id, emitted', audio + x.data)
    ensures EmitFrame(c, st, Some(x), false).last == Some(x)
  {
    if st.last == None {
      emitted' := emitted;
      assert OutData(emitted) + [] == OutData(emitted);
    } else {
      var e := Emitted(st.last.value.data, st.pending, id, false);
      emitted' := emitted + [e];
      OutSnoc(emitted, e);
      CountLast(base.durations, st.segment.value.duration, st.last.value.samples);
      assert base.out + emitted + [e] == base.out + emitted';
    }
  }

  lemma {:induction false} ManyFrames(c: Config, st: State, base: State, id: string, emitted: seq<Emitted>,
                                      audio: seq<byte>, frames: seq<AudioFrame>)
    returns (emitted': seq<Emitted>)
    requires c.format.Valid() && Holding(c, st, base, id, emitted, audio)
    requires forall x :: x in frames ==> Filled(c, x)
    ensures Holding(c, EmitFrames(c, st, frames), base, id, emitted', audio + Data(frames))
    ensures frames != [] ==> EmitFrames(c, st, frames).last.Some?
    ensures frames == [] ==> EmitFrames(c, st, frames) == st
    ensures EmitFrames(c, st, frames).stream == st.stream
  {
    if frames == [] {
      emitted' := emitted;
      assert audio + [] == audio;
    } else {
      var mid := ManyFrames(c, st, base, id, emitted, audio, DropLast(frames));
      emitted' := OneFrame(c, EmitFrames(c, st, DropLast(frames)), base, id, mid, audio + Data(DropLast(frames)),
                           Last(frames));
      Regroup2(audio, Data(DropLast(frames)), Last(frames).data);
    }
  }

  lemma FlushHeld(c: Config, st: State, base: State, id: string, emitted: seq<Emitted>, audio: seq<byte>)
    returns (emitted': seq<Emitted>)
    requires c.format.Valid() && Holding(c, st, base, id, emitted, audio)
    ensures Holding(c, FlushFrame(st), base, id, emitted', audio)
    ensures FlushFrame(st).last == None && FlushFrame(st).stream == st.stream
  {
    emitted' := emitted;
    if st.last.Some? {
      var e := Emitted(st.last.value.data, st.pending, id, false);
      emitted' := emitted + [e];
      OutSnoc(emitted, e);
      CountLast(base.durations, st.segment.value.duration, st.last.value.samples);
      assert base.out + emitted + [e] == base.out + emitted';
      assert OutData(emitted') + [] == OutData(emitted');
    }
  }

  // ----- the commands of a segment

  /**
    In the middle of a segment, after `total` bytes: `since` of them came since a flush last emptied the
    buffer, and `held` says whether a frame is held back.
   */
  ghost predicate Body(c: Config, st: State, base: State, id: string, emitted: seq<Emitted>, audio: seq<byte>,
                       total: seq<byte>, since: nat, held: bool)
    requires c.format.Valid()
  {
    && Holding(c, st, base, id, emitted, audio)
    && |Buffer(st)| == since % c.format.frameSize && since <= |total|
    && audio + Buffer(st) == total
    && Aligned(audio, c.format)
    && (st.last.Some? <==> held)
    && (st.stream == None ==> total == [])
  }

  lemma FullIsFilled(c: Config, x: AudioFrame)
    requires c.format.Computed() && |x.data| == c.format.frameSize &&
             x.samples == SamplesIn(c.format.frameSize, c.format.unit)
    ensures Filled(c, x)
  {
    WholeSamples(c.format);
  }

  lemma {:induction false} PushedAligned(f: Format, buf: seq<byte>)
    requires f.Valid() && f.frameSize % f.unit == 0
    ensures Aligned(Data(Frames(f, buf)), f)
    decreases |buf|
  {
    if |buf| >= f.frameSize {
      var head, rest := buf[..f.frameSize], buf[f.frameSize..];
      PushedAligned(f, rest);
      DataCons(AudioFrame(head, SamplesIn(f.frameSize, f.unit)), Frames(f, rest));
      AlignedSum(head, Data(Frames(f, rest)), f);
    }
  }

  lemma PushedFilled(c: Config, buf: seq<byte>)
    requires c.format.Computed()
    ensures forall x :: x in Frames(c.format, buf) ==> Filled(c, x)
    ensures Aligned(Data(Frames(c.format, buf)), c.format)
  {
    FramesFull(c.format, buf);
    WholeSamples(c.format);
    PushedAligned(c.format, buf);
    forall x | x in Frames(c.format, buf)
      ensures Filled(c, x)
    {
      FullIsFilled(c, x);
    }
  }

  /** The rest is what division by the frame size leaves, and a frame comes out exactly when there is enough for one. */
  lemma {:induction false} RestLength(f: Format, buf: seq<byte>)
    requires f.Valid()
    ensures |Rest(f, buf)| == |buf| % f.frameSize
    ensures Frames(f, buf) == [] <==> |buf| < f.frameSize
    decreases |buf|
  {
    if |buf| >= f.frameSize {
      RestLength(f, buf[f.frameSize..]);
      ModSum(f.frameSize, |buf| - f.frameSize, f.frameSize);
    }
  }

  lemma BytesStep(c: Config, st: State, base: State, id: string, emitted: seq<Emitted>, audio: seq<byte>,
                  total: seq<byte>, since: nat, held: bool, data: seq<byte>, held': bool)
    returns (emitted': seq<Emitted>, audio': seq<byte>)
    requires c.format.Computed() && Body(c, st, base, id, emitted, audio, total, since, held)
    requires held' <==> held || since % c.format.frameSize + |data| >= c.format.frameSize
    ensures Step(c, st, Bytes(data)).Some? && Step(c, st, Bytes(data)).value.stream.Some?
    ensures Body(c, Step(c, st, Bytes(data)).value, base, id, emitted', audio', total + data, since + |data|, held')
  {
    var buf := Buffer(st) + data;
    var frames, rest := Frames(c.format, buf), Rest(c.format, buf);
    FramesConserve(c.format, buf);
    RestLength(c.format, buf);
    ModPart(since, |data|, c.format.frameSize);
    PushedFilled(c, buf);
    var pushed := st.(stream := Some(rest));
    emitted' := ManyFrames(c, pushed, base, id, emitted, audio, frames);
    audio' := audio + Data(frames);
    AlignedSum(audio, Data(frames), c.format);
    Regroup(audio, Buffer(st), data, Data(frames), rest);
  }

  lemma FlushedFilled(c: Config, buf: seq<byte>)
    requires c.format.Computed()
    ensures forall x :: x in FlushFrames(c.format, buf) ==> Filled(c, x)
    ensures Data(FlushFrames(c.format, buf)) + FlushRest(c.format, buf) == buf
    ensures Aligned(Data(FlushFrames(c.format, buf)), c.format)
    ensures Aligned(buf, c.format) ==> FlushRest(c.format, buf) == []
  {
    var f := c.format;
    if FlushFrames(f, buf) != [] {
      DataOne(AudioFrame(buf, |buf| / 2));
      EvenLength(f, buf);
    }
  }

  lemma EvenLength(f: Format, buf: seq<byte>)
    requires f.Computed() && Aligned(buf, f) && buf != []
    ensures |buf| / 2 * 2 == |buf| && |buf| >= 2
  {
    var n, u := |buf|, f.unit;
    var q := n / u;
    assert n == q * u == q * (f.channels * 2) == (q * f.channels) * 2;
  }

  /** A flush of the byte stream, as both `Flush` and `End` begin. */
  lemma FlushStream(c: Config, st: State, base: State, id: string, emitted: seq<Emitted>, audio: seq<byte>)
    returns (emitted': seq<Emitted>, audio': seq<byte>)
    requires c.format.Computed() && Holding(c, st, base, id, emitted, audio) && Aligned(audio, c.format)
    ensures var rest := FlushRest(c.format, Buffer(st));
            && audio' + rest == audio + Buffer(st) && Aligned(audio', c.format)
            && Holding(c, EmitFrames(c, st.(stream := Some(rest)), FlushFrames(c.format, Buffer(st))), base, id,
                       emitted', audio')
    ensures Aligned(audio + Buffer(st), c.format) <==> FlushRest(c.format, Buffer(st)) == []
    ensures var flushed := EmitFrames(c, st.(stream := Some(FlushRest(c.format, Buffer(st)))),
                                      FlushFrames(c.format, Buffer(st)));
            flushed.last.Some? <==> st.last.Some? || (Buffer(st) != [] && FlushRest(c.format, Buffer(st)) == [])
  {
    var frames, rest := FlushFrames(c.format, Buffer(st)), FlushRest(c.format, Buffer(st));
    FlushedFilled(c, Buffer(st));
    AlignedSum(audio, Data(frames), c.format);
    AlignedSum(audio, Buffer(st), c.format);
    var flushed := st.(stream := Some(rest));
    emitted' := ManyFrames(c, flushed, base, id, emitted, audio, frames);
    audio' := audio + Data(frames);
    Regroup2(audio, Data(frames), rest);
  }

  lemma FlushStep(c: Config, st: State, base: State, id: string, emitted: seq<Emitted>, audio: seq<byte>,
                  total: seq<byte>, since: nat, held: bool)
    returns (emitted': seq<Emitted>, audio': seq<byte>)
    requires c.format.Computed() && Body(c, st, base, id, emitted, audio, total, since, held)
    ensures Step(c, st, Flush).Some? && Step(c, st, Flush).value.stream.Some? == st.stream.Some?
    ensures Body(c, Step(c, st, Flush).value, base, id, emitted', audio', total,
                 if Aligned(total, c.format) then 0 else since, false)
  {
    emitted', audio' := emitted, audio;
    if st.stream.Some? {
      emitted', audio' := FlushStream(c, st, base, id, emitted, audio);
      var rest := FlushRest(c.format, Buffer(st));
      var mid := EmitFrames(c, st.(stream := Some(rest)), FlushFrames(c.format, Buffer(st)));
      StreamKept(c, st.(stream := Some(rest)), FlushFrames(c.format, Buffer(st)));
      emitted' := FlushHeld(c, mid, base, id, emitted', audio');
    }
  }

  lemma {:induction false} StreamKept(c: Config, st: State, frames: seq<AudioFrame>)
    requires st.segment.Some? && st.durations != []
    ensures EmitFrames(c, st, frames).stream == st.stream
  {
    if frames != [] {
      StreamKept(c, st, DropLast(frames));
    }
  }

  // ----- the end of a segment

  /** Everything that went out for a segment: only the last frame is final, all carry the segment's id. */
  ghost predicate Closed(out: seq<Emitted>, id: string) {
    && (forall i :: 0 <= i < |out| ==> out[i].segment == id)
    && (forall i :: 0 <= i < |out| ==> (out[i].isFinal <==> i == |out| - 1))
  }

  predicate Idle(st: State) {
    st.segment == None && st.stream == None && st.last == None
  }

  /** The final emission: the frame held back, or silence when everything had been flushed, or nothing at all. */
  lemma FinalFrame(c: Config, st: State, base: State, id: string, emitted: seq<Emitted>, audio: seq<byte>)
    returns (emitted': seq<Emitted>)
    requires c.format.Computed() && Holding(c, st, base, id, emitted, audio)
    ensures Idle(EndSegment(c, st)) && EndSegment(c, st).out == base.out + emitted' && Closed(emitted', id)
    ensures OutData(emitted') == audio + (if st.last == None && emitted != [] then Silence(c.silence) else [])
    ensures emitted' == [] <==> audio == []
    ensures emitted' != [] ==> EndSegment(c, st).pending == []
    ensures exists d :: && EndSegment(c, st).durations == base.durations + [d]
                        && (c.format.channels == 1 ==> d * 2 == |audio|)
  {
    var d := st.segment.value.duration;
    if st.last.Some? {
      var x := st.last.value;
      var e := Emitted(x.data, st.pending, id, true);
      emitted' := emitted + [e];
      OutSnoc(emitted, e);
      CountLast(base.durations, d, x.samples);
      assert base.out + emitted + [e] == base.out + emitted';
      assert audio + [] == audio;
      assert EndSegment(c, st).durations == base.durations + [d + x.samples];
    } else {
      assert OutData(emitted) + [] == OutData(emitted);
      NonEmptyOut(emitted);
      assert EndSegment(c, st).durations == base.durations + [d];
      if emitted == [] {
        emitted' := [];
        assert audio == [] && audio + [] == audio;
      } else {
        var e := Emitted(Silence(c.silence), st.pending, id, true);
        emitted' := emitted + [e];
        OutSnoc(emitted, e);
        assert base.out + emitted + [e] == base.out + emitted';
      }
    }
  }

  lemma NonEmptyOut(emitted: seq<Emitted>)
    requires forall e :: e in emitted ==> e.data != []
    ensures emitted != [] ==> OutData(emitted) != []
  {
    if emitted != [] {
      assert Last(emitted) in emitted;
    }
  }

  /**
    The bytes left over at the end: none of whole samples, else all since the buffer was last empty that fill no
    frame.
   */
  function Dropped(f: Format, total: seq<byte>, since: nat): (n: nat)
    requires f.Valid() && since <= |total|
    ensures n <= |total|
  {
    if Aligned(total, f) then 0 else ModAtMost(since, f.frameSize); since % f.frameSize
  }

  lemma ModAtMost(n: nat, u: nat)
    requires u > 0
    ensures n % u <= n
  {
    var q := n / u;
    assert n == q * u + n % u;
    MulMono(u, q, 0);
  }

  function Kept(f: Format, total: seq<byte>, since: nat): seq<byte>
    requires f.Valid() && since <= |total|
  {
    total[..|total| - Dropped(f, total, since)]
  }

  /** The silence that closes a segment: due when something was sent, and all of it before the end. */
  function Closing(c: Config, total: seq<byte>, since: nat, held: bool): seq<byte>
    requires c.format.Valid() && since <= |total|
  {
    if Kept(c.format, total, since) != [] && !held && (Aligned(total, c.format) ==> since % c.format.frameSize == 0)
    then Silence(c.silence) else []
  }

  lemma EndStep(c: Config, st: State, base: State, id: string, emitted: seq<Emitted>, audio: seq<byte>,
                total: seq<byte>, since: nat, held: bool)
    returns (emitted': seq<Emitted>)
    requires c.Computed() && Body(c, st, base, id, emitted, audio, total, since, held) && st.stream.Some?
    ensures Step(c, st, End).Some?
    ensures var st' := Step(c, st, End).value;
            && Idle(st') && st'.out == base.out + emitted' && Closed(emitted', id)
            && (emitted' != [] ==> st'.pending == [])
            && exists d :: && st'.durations == base.durations + [d]
                           && (c.format.channels == 1 ==> d * 2 == |Kept(c.format, total, since)|)
    ensures var kept := Kept(c.format, total, since);
            && Aligned(kept, c.format) && (emitted' == [] <==> kept == [])
            && OutData(emitted') == kept + Closing(c, total, since, held)
  {
    var mid, audio' := FlushStream(c, st, base, id, emitted, audio);
    var rest := FlushRest(c.format, Buffer(st));
    var frames := FlushFrames(c.format, Buffer(st));
    var flushed := EmitFrames(c, st.(stream := Some(rest)), frames);
    emitted' := FinalFrame(c, flushed, base, id, mid, audio');
    KeptIs(c, total, since, audio', rest);
    NonEmptyOut(mid);
    assert flushed.last == None ==> OutData(mid) + [] == OutData(mid);
  }

  lemma KeptIs(c: Config, total: seq<byte>, since: nat, audio: seq<byte>, rest: seq<byte>)
    requires c.format.Valid() && since <= |total| && audio + rest == total
    requires |rest| == if Aligned(total, c.format) then 0 else since % c.format.frameSize
    ensures Kept(c.format, total, since) == audio
  {
  }

  lemma EmitsLast(c: Config, st: State, frames: seq<AudioFrame>)
    requires st.segment.Some? && st.durations != [] && frames != []
    ensures EmitFrames(c, st, frames).last.Some?
  {
  }

  lemma PadNeverHelps(c: Config, audio: seq<byte>, sent: seq<byte>, total: seq<byte>, pad: seq<byte>)
    requires c.Computed() && Aligned(audio, c.format) && !Aligned(total, c.format)
    requires |sent| == 0 || |sent| == c.silence
    requires |pad| == 0 || |pad| == c.silence
    ensures audio + sent != total + pad
  {
    if audio + sent == total + pad {
      NotBoth(|audio|, |sent|, |total|, |pad|, c.silence, c.format.unit);
    }
  }

  lemma NotBoth(a: nat, s: nat, t: nat, p: nat, silence: nat, u: nat)
    requires u > 0 && a % u == 0 && silence % u == 0 && t % u != 0
    requires (s == 0 || s == silence) && (p == 0 || p == silence)
    ensures a + s != t + p
  {
    ModSum(a, s, u);
    ModSum(p, t, u);
  }

  // ----- whole segments and sessions

  /** What may be sent between the start and the end of a segment. */
  predicate Inside(cmd: Command) {
    cmd.Timed? || cmd.Bytes? || cmd.Flush?
  }

  function Total(body: seq<Command>): seq<byte> {
    if body == [] then []
    else Total(DropLast(body)) + (if Last(body).Bytes? then Last(body).data else [])
  }

  /** What came after the last flush. */
  function Recent(body: seq<Command>): seq<byte> {
    if body == [] || Last(body).Flush? then []
    else Recent(DropLast(body)) + (if Last(body).Bytes? then Last(body).data else [])
  }

  /** The bytes since a flush last emptied the buffer: it does when whole samples have come in. */
  function Since(f: Format, body: seq<Command>): (n: nat)
    requires f.Valid()
    ensures n <= |Total(body)|
  {
    if body == [] then 0
    else
      match Last(body)
      case Bytes(data) => Since(f, DropLast(body)) + |data|
      case Flush => if Aligned(Total(DropLast(body)), f) then 0 else Since(f, DropLast(body))
      case _ => Since(f, DropLast(body))
  }

  /** A full frame has come together since the last flush. */
  predicate Completed(f: Format, body: seq<Command>)
    requires f.Valid()
  {
    && body != [] && !Last(body).Flush?
    && (Completed(f, DropLast(body)) ||
        (Last(body).Bytes? && Since(f, DropLast(body)) % f.frameSize + |Last(body).data| >= f.frameSize))
  }

  /** The audio that goes out for a segment. */
  function Played(c: Config, body: seq<Command>): seq<byte>
    requires c.format.Valid()
  {
    Kept(c.format, Total(body), Since(c.format, body)) +
        Closing(c, Total(body), Since(c.format, body), Completed(c.format, body))
  }

  /** Whether a segment puts anything out. */
  predicate Sounds(c: Config, body: seq<Command>)
    requires c.format.Valid()
  {
    Dropped(c.format, Total(body), Since(c.format, body)) < |Total(body)|
  }

  /** Without a full frame, what came since the last flush is in the buffer. */
  lemma {:induction false} RecentHeld(f: Format, body: seq<Command>)
    requires f.Valid() && !Completed(f, body)
    ensures |Recent(body)| <= Since(f, body) % f.frameSize
  {
    if body != [] && !Last(body).Flush? {
      RecentHeld(f, DropLast(body));
      if Last(body).Bytes? {
        var part := Since(f, DropLast(body)) % f.frameSize;
        ModPart(Since(f, DropLast(body)), |Last(body).data|, f.frameSize);
        ModUnique(part + |Last(body).data|, f.frameSize, 0, part + |Last(body).data|);
      }
    }
  }

  lemma {:induction false} NoneRecent(f: Format, body: seq<Command>)
    requires f.Valid() && Recent(body) == [] && Aligned(Total(body), f)
    ensures !Completed(f, body) && Since(f, body) % f.frameSize == 0
  {
    if body != [] {
      var front := DropLast(body);
      if Last(body).Flush? {
        assert Total(body) == Total(front);
      } else {
        assert Recent(front) == [] && (Last(body).Bytes? ==> Last(body).data == []);
        assert Total(body) == Total(front);
        NoneRecent(f, front);
      }
    }
  }

  /** Everything goes out, with the silence when it is due, exactly when whole samples came in. */
  lemma PlayedWhole(c: Config, body: seq<Command>)
    requires c.Computed() && Aligned(Kept(c.format, Total(body), Since(c.format, body)), c.format)
    ensures Played(c, body) == Total(body) + Pad(c, Total(body), Recent(body)) <==> Aligned(Total(body), c.format)
  {
    var f, total := c.format, Total(body);
    if Aligned(total, f) {
      assert total[..|total|] == total;
      if Recent(body) == [] {
        NoneRecent(f, body);
      } else if !Completed(f, body) {
        RecentHeld(f, body);
      }
    } else {
      PadNeverHelps(c, Kept(f, total, Since(f, body)), Closing(c, total, Since(f, body), Completed(f, body)), total,
                    Pad(c, total, Recent(body)));
    }
  }

  /** The silence that closes a segment in which nothing arrived after the last flush. */
  function Pad(c: Config, total: seq<byte>, recent: seq<byte>): seq<byte> {
    if total != [] && recent == [] then Silence(c.silence) else []
  }

  predicate HasBytes(body: seq<Command>) {
    body != [] && (Last(body).Bytes? || HasBytes(DropLast(body)))
  }

  lemma RunOne(c: Config, st: State, cmd: Command)
    requires c.format.Valid()
    ensures Run(c, st, [cmd]) == Step(c, st, cmd)
  {
    assert DropLast([cmd]) == [];
  }

  lemma {:induction false} RunJoin(c: Config, st: State, a: seq<Command>, b: seq<Command>)
    requires c.format.Valid()
    ensures Run(c, st, a + b) == match Run(c, st, a) case None => None case Some(mid) => Run(c, mid, b)
  {
    if b == [] {
      assert a + b == a;
    } else {
      assert DropLast(a + b) == a + DropLast(b);
      RunJoin(c, st, a, DropLast(b));
    }
  }

  lemma RunSnoc(c: Config, st: State, a: seq<Command>, cmd: Command)
    requires c.format.Valid()
    ensures Run(c, st, a + [cmd]) == match Run(c, st, a) case None => None case Some(mid) => Step(c, mid, cmd)
  {
    assert DropLast(a + [cmd]) == a;
  }

  function Started(base: State, id: string): State {
    base.(durations := base.durations + [0], segment := Some(Segment(id, 0)))
  }

  lemma StartBody(c: Config, base: State, id: string)
    requires c.format.Computed() && Idle(base)
    ensures Step(c, base, Start(id)) == Some(Started(base, id))
    ensures Body(c, Started(base, id), base, id, [], [], [], 0, false)
  {
    assert base.out + [] == base.out;
  }

  lemma TimedStep(c: Config, st: State, base: State, id: string, emitted: seq<Emitted>, audio: seq<byte>,
                  total: seq<byte>, since: nat, held: bool, text: string)
    requires c.format.Computed() && Body(c, st, base, id, emitted, audio, total, since, held)
    ensures Step(c, st, Timed(text)).Some? && Step(c, st, Timed(text)).value.stream == st.stream
    ensures Body(c, Step(c, st, Timed(text)).value, base, id, emitted, audio, total, since, held)
  {
  }

  /** The middle of a segment never raises. */
  lemma {:induction false} BodyRun(c: Config, base: State, id: string, body: seq<Command>)
    returns (st: State, emitted: seq<Emitted>, audio: seq<byte>)
    requires c.format.Computed() && Idle(base)
    requires forall cmd :: cmd in body ==> Inside(cmd)
    ensures Run(c, Started(base, id), body) == Some(st) && (st.stream.Some? <==> HasBytes(body))
    ensures Body(c, st, base, id, emitted, audio, Total(body), Since(c.format, body), Completed(c.format, body))
  {
    if body == [] {
      st, emitted, audio := Started(base, id), [], [];
      StartBody(c, base, id);
    } else {
      var front, cmd := DropLast(body), Last(body);
      st, emitted, audio := BodyRun(c, base, id, front);
      var next := Step(c, st, cmd);
      var total, since, held := Total(front), Since(c.format, front), Completed(c.format, front);
      if cmd.Bytes? {
        emitted, audio := BytesStep(c, st, base, id, emitted, audio, total, since, held, cmd.data,
                                    Completed(c.format, body));
      } else {
        assert Total(body) == total + [] == total;
        if cmd.Flush? {
          emitted, audio := FlushStep(c, st, base, id, emitted, audio, total, since, held);
        } else {
          assert Inside(cmd);
          TimedStep(c, st, base, id, emitted, audio, total, since, held, cmd.text);
        }
      }
      st := next.value;
    }
  }

  function SegmentScript(id: string, body: seq<Command>): seq<Command> {
    [Start(id)] + body + [End]
  }

  /** What went out for a piece and the duration recorded for it. */
  ghost predicate Rendered(c: Config, p: Piece, emitted: seq<Emitted>, d: nat)
    requires c.format.Valid()
  {
    && Closed(emitted, p.id)
    && OutData(emitted) == Played(c, p.body)
    && (OutData(emitted) == Total(p.body) + Pad(c, Total(p.body), Recent(p.body)) <==> Aligned(Total(p.body), c.format))
    && (emitted != [] <==> Sounds(c, p.body))
    && (c.format.channels == 1 ==> d * 2 == |Total(p.body)| - Dropped(c.format, Total(p.body), Since(c.format, p.body)))
  }

  /**
    The transcripts told by a piece: all that waited before it and all its own, in order, when anything goes
    out for it; otherwise they all go on waiting.
   */
  ghost predicate Tells(c: Config, before: seq<string>, p: Piece, emitted: seq<Emitted>, after: seq<string>)
    requires c.format.Valid()
  {
    if Sounds(c, p.body) then Told(emitted) == before + Texts(p.body) && after == []
    else Told(emitted) == [] && after == before + Texts(p.body)
  }

  /** A segment with audio, from start to end: it never raises and leaves the emitter ready for the next one. */
  lemma SegmentRuns(c: Config, base: State, id: string, body: seq<Command>)
    returns (st: State, emitted: seq<Emitted>, d: nat)
    requires c.Computed() && Idle(base) && HasBytes(body)
    requires forall cmd :: cmd in body ==> Inside(cmd)
    ensures Run(c, base, SegmentScript(id, body)) == Some(st) && Idle(st)
    ensures st.out == base.out + emitted && st.durations == base.durations + [d]
    ensures Rendered(c, Piece(id, body), emitted, d)
    ensures Tells(c, base.pending, Piece(id, body), emitted, st.pending)
  {
    var mid, sent, audio := BodyRun(c, base, id, body);
    RunJoin(c, base, [Start(id)], body);
    RunOne(c, base, Start(id));
    RunSnoc(c, base, [Start(id)] + body, End);
    StartBody(c, base, id);
    emitted := EndStep(c, mid, base, id, sent, audio, Total(body), Since(c.format, body), Completed(c.format, body));
    st := Step(c, mid, End).value;
    d :| st.durations == base.durations + [d]
         && (c.format.channels == 1 ==> d * 2 == |Kept(c.format, Total(body), Since(c.format, body))|);
    PlayedWhole(c, body);
    SegmentTells(c, base, id, body, st, emitted);
  }

  lemma SegmentTells(c: Config, base: State, id: string, body: seq<Command>, st: State, emitted: seq<Emitted>)
    requires c.format.Valid() && Run(c, base, SegmentScript(id, body)) == Some(st) && st.out == base.out + emitted
    requires emitted != [] ==> st.pending == []
    ensures if emitted != [] then Told(emitted) == base.pending + Texts(body)
            else st.pending == base.pending + Texts(body)
  {
    TranscriptsOnce(c, base, SegmentScript(id, body));
    TextsScript(id, body);
    ToldJoin(base.out, emitted);
    var told := Told(base.out);
    Regroup2(told, Told(emitted), st.pending);
    Regroup2(told, base.pending, Texts(body));
    assert (told + (Told(emitted) + st.pending))[|told|..] == Told(emitted) + st.pending;
    assert (told + (base.pending + Texts(body)))[|told|..] == base.pending + Texts(body);
    if emitted == [] {
      assert [] + st.pending == st.pending;
    } else {
      assert Told(emitted) + [] == Told(emitted);
    }
  }

  lemma {:induction false} ToldJoin(a: seq<Emitted>, b: seq<Emitted>)
    ensures Told(a + b) == Told(a) + Told(b)
  {
    if b == [] {
      assert a + b == a && Told(a) + [] == Told(a);
    } else {
      assert DropLast(a + b) == a + DropLast(b);
      ToldJoin(a, DropLast(b));
      Regroup2(Told(a), Told(DropLast(b)), Last(b).transcripts);
    }
  }

  lemma {:induction false} TextsScript(id: string, body: seq<Command>)
    ensures Texts(SegmentScript(id, body)) == Texts(body)
  {
    assert DropLast(SegmentScript(id, body)) == [Start(id)] + body;
    TextsBehind(id, body);
    assert Texts(body) + [] == Texts(body);
  }

  lemma {:induction false} TextsBehind(id: string, body: seq<Command>)
    ensures Texts([Start(id)] + body) == Texts(body)
  {
    var all := [Start(id)] + body;
    if body == [] {
      assert DropLast(all) == [];
    } else {
      assert DropLast(all) == [Start(id)] + DropLast(body) && Last(all) == Last(body);
      TextsBehind(id, DropLast(body));
    }
  }

  /**
    The end of a segment closes it exactly when bytes were pushed in it, be they none; otherwise the next start
    raises.
   */
  lemma SegmentClosesIff(c: Config, base: State, id: string, body: seq<Command>, next: string)
    requires c.Computed() && Idle(base)
    requires forall cmd :: cmd in body ==> Inside(cmd)
    ensures Run(c, base, SegmentScript(id, body)).Some?
    ensures Run(c, base, SegmentScript(id, body)).value.segment == None <==> HasBytes(body)
    ensures Run(c, base, SegmentScript(id, body) + [Start(next)]).Some? <==> HasBytes(body)
  {
    RunSnoc(c, base, SegmentScript(id, body), Start(next));
    if HasBytes(body) {
      var st, emitted, d := SegmentRuns(c, base, id, body);
    } else {
      var mid, sent, audio := BodyRun(c, base, id, body);
      RunJoin(c, base, [Start(id)], body);
      RunOne(c, base, Start(id));
      RunSnoc(c, base, [Start(id)] + body, End);
      StartBody(c, base, id);
    }
  }

  datatype Piece = Piece(id: string, body: seq<Command>)

  function Script(pieces: seq<Piece>): seq<Command> {
    if pieces == [] then [] else Script(DropLast(pieces)) + SegmentScript(Last(pieces).id, Last(pieces).body)
  }

  ghost predicate WithAudio(p: Piece) {
    HasBytes(p.body) && forall cmd :: cmd in p.body ==> Inside(cmd)
  }

  /** The transcripts that wait after some pieces: those since the last that put anything out. */
  function Owed(c: Config, pieces: seq<Piece>): seq<string>
    requires c.format.Valid()
  {
    if pieces == [] || Sounds(c, Last(pieces).body) then [] else Owed(c, DropLast(pieces)) + Texts(Last(pieces).body)
  }

  ghost predicate AllRendered(c: Config, pieces: seq<Piece>, outs: seq<seq<Emitted>>, durations: seq<nat>)
    requires c.format.Valid()
  {
    && |outs| == |durations| == |pieces|
    && forall i :: 0 <= i < |pieces| ==> Rendered(c, pieces[i], outs[i], durations[i])
  }

  /** Each piece tells what waited before it and its own. */
  ghost predicate AllTold(c: Config, pieces: seq<Piece>, outs: seq<seq<Emitted>>)
    requires c.format.Valid()
  {
    && |outs| == |pieces|
    && forall i :: 0 <= i < |pieces| ==> Tells(c, Owed(c, pieces[..i]), pieces[i], outs[i], Owed(c, pieces[..i + 1]))
  }

  lemma RenderedSnoc(c: Config, pieces: seq<Piece>, outs: seq<seq<Emitted>>, durations: seq<nat>, emitted: seq<Emitted>,
                     d: nat)
    requires c.format.Valid() && pieces != [] && AllRendered(c, DropLast(pieces), outs, durations)
    requires Rendered(c, Last(pieces), emitted, d)
    ensures AllRendered(c, pieces, outs + [emitted], durations + [d])
  {
    forall i | 0 <= i < |pieces| - 1
      ensures Rendered(c, pieces[i], outs[i], durations[i])
    {
      assert Rendered(c, DropLast(pieces)[i], outs[i], durations[i]);
    }
  }

  lemma ToldSnoc(c: Config, pieces: seq<Piece>, outs: seq<seq<Emitted>>, emitted: seq<Emitted>)
    requires c.format.Valid() && pieces != [] && AllTold(c, DropLast(pieces), outs)
    requires Tells(c, Owed(c, DropLast(pieces)), Last(pieces), emitted, Owed(c, pieces))
    ensures AllTold(c, pieces, outs + [emitted])
  {
    var front := DropLast(pieces);
    assert pieces[..|front|] == front && pieces[..|pieces|] == pieces;
    forall i | 0 <= i < |front|
      ensures Tells(c, Owed(c, pieces[..i]), pieces[i], outs[i], Owed(c, pieces[..i + 1]))
    {
      assert front[..i] == pieces[..i] && front[..i + 1] == pieces[..i + 1] && front[i] == pieces[i];
    }
  }

  /**
    A whole session of segments with audio never raises, and its output falls into one stretch for each
    segment, in order, each rendering it, with its duration recorded, and telling the transcripts that wait.
   */
  lemma {:induction false} SessionRuns(c: Config, pieces: seq<Piece>) returns (st: State, outs: seq<seq<Emitted>>)
    requires c.Computed()
    requires forall p :: p in pieces ==> WithAudio(p)
    ensures Run(c, INITIAL, Script(pieces)) == Some(st) && Idle(st)
    ensures st.out == Concat(outs) && AllRendered(c, pieces, outs, st.durations)
    ensures AllTold(c, pieces, outs) && st.pending == Owed(c, pieces)
  {
    if pieces == [] {
      st, outs := INITIAL, [];
    } else {
      var front, p := DropLast(pieces), Last(pieces);
      assert WithAudio(p);
      var mid, emitted, d;
      mid, outs := SessionRuns(c, front);
      RunJoin(c, INITIAL, Script(front), SegmentScript(p.id, p.body));
      st, emitted, d := SegmentRuns(c, mid, p.id, p.body);
      assert p == Piece(p.id, p.body);
      RenderedSnoc(c, pieces, outs, mid.durations, emitted, d);
      ToldSnoc(c, pieces, outs, emitted);
      assert DropLast(outs + [emitted]) == outs;
      outs := outs + [emitted];
    }
  }

  /** When every segment puts something out, each tells exactly its own transcripts and none is left. */
  lemma EachTellsItsOwn(c: Config, pieces: seq<Piece>) returns (st: State, outs: seq<seq<Emitted>>)
    requires c.Computed()
    requires forall p :: p in pieces ==> WithAudio(p) && Sounds(c, p.body)
    ensures Run(c, INITIAL, Script(pieces)) == Some(st) && st.out == Concat(outs) && |outs| == |pieces|
    ensures forall i :: 0 <= i < |pieces| ==> Told(outs[i]) == Texts(pieces[i].body)
    ensures st.pending == []
  {
    st, outs := SessionRuns(c, pieces);
    NothingOwed(c, pieces);
    forall i | 0 <= i < |pieces|
      ensures Told(outs[i]) == Texts(pieces[i].body)
    {
      OwnTold(c, pieces, outs, i);
    }
  }

  lemma OwnTold(c: Config, pieces: seq<Piece>, outs: seq<seq<Emitted>>, i: nat)
    requires c.format.Valid() && i < |pieces| && AllTold(c, pieces, outs)
    requires forall p :: p in pieces ==> Sounds(c, p.body)
    ensures Told(outs[i]) == Texts(pieces[i].body)
  {
    var before := pieces[..i];
    NothingOwed(c, before);
    assert Tells(c, Owed(c, before), pieces[i], outs[i], Owed(c, pieces[..i + 1]));
    assert pieces[i] in pieces;
    assert [] + Texts(pieces[i].body) == Texts(pieces[i].body);
  }

  lemma NothingOwed(c: Config, pieces: seq<Piece>)
    requires c.format.Valid() && forall p :: p in pieces ==> Sounds(c, p.body)
    ensures Owed(c, pieces) == []
  {
    assert pieces != [] ==> Last(pieces) in pieces;
  }

  /**
    A segment of one channel whose bytes are no whole samples and fill no frame puts nothing out: all of it is
    dropped, and its transcripts go on waiting.
   */
  lemma OddSegmentIsLost(c: Config, id: string, text: string, data: seq<byte>) returns (st: State)
    requires c.Computed() && c.format.channels == 1 && |data| % 2 == 1 && |data| < c.format.frameSize
    ensures Run(c, INITIAL, SegmentScript(id, [Timed(text), Bytes(data)])) == Some(st)
    ensures st.out == [] && st.durations == [0] && st.pending == [text]
  {
    var body := [Timed(text), Bytes(data)];
    OddBody(c.format, text, data);
    var emitted, d;
    st, emitted, d := SegmentRuns(c, INITIAL, id, body);
    assert [] + [text] == [text];
  }

  lemma OddBody(f: Format, text: string, data: seq<byte>)
    requires f.Computed() && f.channels == 1 && |data| % 2 == 1 && |data| < f.frameSize
    ensures var body := [Timed(text), Bytes(data)];
            && Total(body) == data && Since(f, body) == |data| && Texts(body) == [text] && HasBytes(body)
            && Dropped(f, data, |data|) == |data|
  {
    var one := [Timed(text)];
    var body := [Timed(text), Bytes(data)];
    assert DropLast(one) == [] && DropLast(body) == one;
    ModUnique(|data|, f.frameSize, 0, |data|);
    assert Total(one) == [] && Texts(one) == [text] && Since(f, one) == 0;
    assert [] + data == data && [text] + [] == [text];
  }

  // ----- timed transcripts

  function Texts(cmds: seq<Command>): seq<string> {
    if cmds == [] then []
    else Texts(DropLast(cmds)) + (if Last(cmds).Timed? then [Last(cmds).text] else [])
  }

  function Told(out: seq<Emitted>): seq<string> {
    if out == [] then [] else Told(DropLast(out)) + Last(out).transcripts
  }

  lemma TellSend(st: State, data: seq<byte>, isFinal: bool)
    requires st.segment.Some?
    ensures var r := Send(st, data, isFinal); Told(r.out) + r.pending == Told(st.out) + st.pending
  {
    var e := Emitted(data, st.pending, st.segment.value.id, isFinal);
    assert DropLast(st.out + [e]) == st.out;
    assert Told(st.out + [e]) + [] == Told(st.out + [e]);
  }

  lemma TellEmit(c: Config, st: State, frame: Option<AudioFrame>, isFinal: bool)
    requires st.segment.Some? && st.durations != []
    ensures var r := EmitFrame(c, st, frame, isFinal); Told(r.out) + r.pending == Told(st.out) + st.pending
  {
    if st.last.Some? {
      TellSend(st, st.last.value.data, isFinal);
    } else if isFinal && st.segment.value.duration > 0 {
      match frame
      case None => TellSend(st, Silence(c.silence), true);
      case Some(x) => TellSend(Count(st, x.samples), x.data, true);
    }
  }

  lemma {:induction false} TellFrames(c: Config, st: State, frames: seq<AudioFrame>)
    requires st.segment.Some? && st.durations != []
    ensures var r := EmitFrames(c, st, frames); Told(r.out) + r.pending == Told(st.out) + st.pending
  {
    if frames != [] {
      TellFrames(c, st, DropLast(frames));
      TellEmit(c, EmitFrames(c, st, DropLast(frames)), Some(Last(frames)), false);
    }
  }

  lemma TellStep(c: Config, st: State, cmd: Command)
    requires c.format.Valid() && Step(c, st, cmd).Some?
    ensures var r := Step(c, st, cmd).value;
            Told(r.out) + r.pending == Told(st.out) + st.pending + (if cmd.Timed? then [cmd.text] else [])
  {
    var r := Step(c, st, cmd).value;
    if cmd.Timed? {
      Regroup2(Told(st.out), st.pending, [cmd.text]);
    } else {
      assert Told(st.out) + st.pending + [] == Told(st.out) + st.pending;
      if r.out != st.out || r.pending != st.pending {
        var rest := if cmd.Bytes? then Rest(c.format, Buffer(st) + cmd.data) else FlushRest(c.format, Buffer(st));
        var frames := if cmd.Bytes? then Frames(c.format, Buffer(st) + cmd.data) else FlushFrames(c.format, Buffer(st));
        var ready := st.(stream := Some(rest));
        TellFrames(c, ready, frames);
        var mid := EmitFrames(c, ready, frames);
        if cmd.Flush? && mid.last.Some? {
          TellSend(mid, mid.last.value.data, false);
        } else if cmd.End? {
          TellEmit(c, mid, None, true);
        }
      }
    }
  }

  /** Over any run whatever, every timed transcript has gone out once, in order, or is still waiting for a frame. */
  lemma {:induction false} TranscriptsOnce(c: Config, st: State, cmds: seq<Command>)
    requires c.format.Valid() && Run(c, st, cmds).Some?
    ensures var r := Run(c, st, cmds).value; Told(r.out) + r.pending == Told(st.out) + st.pending + Texts(cmds)
  {
    if cmds == [] {
      assert Told(st.out) + st.pending + [] == Told(st.out) + st.pending;
    } else {
      TranscriptsOnce(c, st, DropLast(cmds));
      TellStep(c, Run(c, st, DropLast(cmds)).value, Last(cmds));
      Regroup2(Told(st.out) + st.pending, Texts(DropLast(cmds)), if Last(cmds).Timed? then [Last(cmds).text] else []);
    }
  }
}
