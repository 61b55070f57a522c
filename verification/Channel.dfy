/**
  agent/livekit/agents/ipc/channel.py and the `write` and `read` methods of the messages, on a `BytesIO`
  whose cursor they move: each does what the functions of the wire say.
 */
module Channel {
  import opened Wrappers
  import opened Bytes
  import opened Wire
  import opened IpcMessages

  class BytesIO {
    var data: seq<byte>
    var pos: nat

    ghost predicate AtEnd()
      reads this
    {
      pos == |data|
    }

    ghost function Rest(): seq<byte>
      reads this
    {
      Left(data, pos)
    }

    constructor (data: seq<byte>)
      ensures this.data == data && pos == 0 && Rest() == data
    {
      this.data, pos := data, 0;
    }

    /** Writers only write where the buffer ends. */
    method Write(b: seq<byte>)
      requires AtEnd()
      modifies this
      ensures AtEnd() && data == old(data) + b
    {
      data := data + b;
      pos := pos + |b|;
    }

    method Read(n: nat) returns (b: seq<byte>)
      modifies `pos
      ensures b == Taken(old(Rest()), n) && Rest() == Left(old(Rest()), n)
    {
      var rest := if pos <= |data| then data[pos..] else [];
      b := Taken(rest, n);
      pos := pos + |b|;
    }
  }

  /** What a writer that may raise did to the buffer. */
  ghost predicate Appended(before: seq<byte>, p: Option<seq<byte>>, ok: bool, after: seq<byte>) {
    (ok <==> p.Some?) && (ok ==> after == before + p.value)
  }

  /** What a reader that may raise took from the rest of the buffer. */
  ghost predicate Took<T>(p: Parsed<T>, r: Option<T>, rest: seq<byte>) {
    if p.Raised? then r == None else r == Some(p.value) && rest == p.rest
  }

  lemma Then(a: seq<byte>, p: Option<seq<byte>>, b: seq<byte>, q: Option<seq<byte>>, ok: bool, d: seq<byte>)
    requires Appended(a, p, true, b) && Appended(b, q, ok, d)
    ensures Appended(a, Both(p, q), ok, d)
  {
    if ok {
      Chain(a, p.value, q.value);
    }
  }

  // ----- writing

  method WriteNumber(b: BytesIO, n: int, width: nat) returns (ok: bool)
    requires b.AtEnd()
    modifies b
    ensures b.AtEnd() && Appended(old(b.data), PutNumber(n, width), ok, b.data)
  {
    if n < 0 || n >= Range(width) {
      return false;
    }
    b.Write(BigEndian(n, width));
    ok := true;
  }

  method WriteBool(b: BytesIO, x: bool)
    requires b.AtEnd()
    modifies b
    ensures b.AtEnd() && Appended(old(b.data), PutBool(x), true, b.data)
  {
    b.Write([if x then 1 else 0]);
  }

  method WriteBytes(b: BytesIO, x: seq<byte>) returns (ok: bool)
    requires b.AtEnd()
    modifies b
    ensures b.AtEnd() && Appended(old(b.data), PutBytes(x), ok, b.data)
  {
    ok := WriteNumber(b, |x|, 4);
    if ok {
      ghost var mid := b.data;
      b.Write(x);
      Then(old(b.data), PutInt(|x|), mid, Some(x), true, b.data);
    }
  }

  method WriteString(c: Codec, b: BytesIO, s: string) returns (ok: bool)
    requires b.AtEnd()
    modifies b
    ensures b.AtEnd() && Appended(old(b.data), PutString(c, s), ok, b.data)
  {
    var encoded := c.encode(s);
    if encoded == None {
      return false;
    }
    ok := WriteBytes(b, encoded.value);
  }

  method WriteFloat(c: Codec, b: BytesIO, x: real) returns (ok: bool)
    requires b.AtEnd()
    modifies b
    ensures b.AtEnd() && Appended(old(b.data), PutFloat(c, x), ok, b.data)
  {
    var packed := c.pack(x);
    if packed == None {
      return false;
    }
    b.Write(packed.value);
    ok := true;
  }

  method WriteStrings(c: Codec, b: BytesIO, x: string, y: string, z: string) returns (ok: bool)
    requires b.AtEnd()
    modifies b
    ensures b.AtEnd() && Appended(old(b.data), PutStrings(c, x, y, z), ok, b.data)
  {
    ok := WriteString(c, b, x);
    if !ok {
      return;
    }
    ghost var d1 := b.data;
    ok := WriteString(c, b, y);
    if !ok {
      return;
    }
    ghost var d2 := b.data;
    ok := WriteString(c, b, z);
    Then(d1, PutString(c, y), d2, PutString(c, z), ok, b.data);
    Then(old(b.data), PutString(c, x), d1, Both(PutString(c, y), PutString(c, z)), ok, b.data);
  }

  method WriteFloats(c: Codec, b: BytesIO, x: real, y: real, z: real) returns (ok: bool)
    requires b.AtEnd()
    modifies b
    ensures b.AtEnd() && Appended(old(b.data), PutFloats(c, x, y, z), ok, b.data)
  {
    ok := WriteFloat(c, b, x);
    if !ok {
      return;
    }
    ghost var d1 := b.data;
    ok := WriteFloat(c, b, y);
    if !ok {
      return;
    }
    ghost var d2 := b.data;
    ok := WriteFloat(c, b, z);
    Then(d1, PutFloat(c, y), d2, PutFloat(c, z), ok, b.data);
    Then(old(b.data), PutFloat(c, x), d1, Both(PutFloat(c, y), PutFloat(c, z)), ok, b.data);
  }

  /** `StartJobRequest.write`, and the body of the loop of `ActiveJobsResponse.write`. */
  method WriteJob(c: Codec, b: BytesIO, j: RunningJobInfo) returns (ok: bool)
    requires b.AtEnd()
    modifies b
    ensures b.AtEnd() && Appended(old(b.data), PutJob(c, j), ok, b.data)
  {
    var a := j.acceptArguments;
    ok := WriteBytes(b, j.job);
    if !ok {
      return;
    }
    ghost var d1 := b.data;
    ok := WriteStrings(c, b, a.name, a.identity, a.metadata);
    if !ok {
      return;
    }
    ghost var d2 := b.data;
    ok := WriteStrings(c, b, j.url, j.token, j.workerId);
    ghost var p := PutBytes(j.job);
    ghost var q, r := PutStrings(c, a.name, a.identity, a.metadata), PutStrings(c, j.url, j.token, j.workerId);
    Then(d1, q, d2, r, ok, b.data);
    Then(old(b.data), p, d1, Both(q, r), ok, b.data);
  }

  /** The jobs from `i` on are still to be written, so that all of them will have been. */
  ghost predicate ToWrite(c: Codec, before: seq<byte>, jobs: seq<RunningJobInfo>, i: nat, now: seq<byte>)
    requires i <= |jobs|
  {
    && (PutJobs(c, jobs).Some? <==> PutJobs(c, jobs[i..]).Some?)
    && (PutJobs(c, jobs).Some? ==> now + PutJobs(c, jobs[i..]).value == before + PutJobs(c, jobs).value)
  }

  lemma ToWriteStep(c: Codec, before: seq<byte>, jobs: seq<RunningJobInfo>, i: nat, now: seq<byte>, ok: bool,
                    next: seq<byte>)
    requires i < |jobs| && ToWrite(c, before, jobs, i, now) && Appended(now, PutJob(c, jobs[i]), ok, next)
    ensures if ok then ToWrite(c, before, jobs, i + 1, next) else PutJobs(c, jobs) == None
  {
    assert jobs[i..][0] == jobs[i] && jobs[i..][1..] == jobs[i + 1..];
    if PutJobs(c, jobs).Some? {
      Chain(now, PutJob(c, jobs[i]).value, PutJobs(c, jobs[i + 1..]).value);
    }
  }

  method WriteJobs(c: Codec, b: BytesIO, jobs: seq<RunningJobInfo>) returns (ok: bool)
    requires b.AtEnd()
    modifies b
    ensures b.AtEnd() && Appended(old(b.data), PutJobs(c, jobs), ok, b.data)
  {
    assert jobs[0..] == jobs;
    for i := 0 to |jobs|
      invariant b.AtEnd() && ToWrite(c, old(b.data), jobs, i, b.data)
    {
      ghost var now := b.data;
      ok := WriteJob(c, b, jobs[i]);
      ToWriteStep(c, old(b.data), jobs, i, now, ok, b.data);
      if !ok {
        return;
      }
    }
    assert b.data + [] == b.data;
    ok := true;
  }

  /** `ActiveJobsResponse.write`. */
  method WriteJobList(c: Codec, b: BytesIO, jobs: seq<RunningJobInfo>, reloadCount: int) returns (ok: bool)
    requires b.AtEnd()
    modifies b
    ensures b.AtEnd() && Appended(old(b.data), PutJobList(c, jobs, reloadCount), ok, b.data)
  {
    ok := WriteNumber(b, |jobs|, 4);
    if !ok {
      return;
    }
    ghost var d1 := b.data;
    ok := WriteJobs(c, b, jobs);
    if !ok {
      return;
    }
    ghost var d2 := b.data;
    ok := WriteNumber(b, reloadCount, 4);
    Then(d1, PutJobs(c, jobs), d2, PutInt(reloadCount), ok, b.data);
    Then(old(b.data), PutInt(|jobs|), d1, Both(PutJobs(c, jobs), PutInt(reloadCount)), ok, b.data);
  }

  method WriteInitialize(c: Codec, b: BytesIO, m: Message) returns (ok: bool)
    requires b.AtEnd() && m.InitializeRequest?
    modifies b
    ensures b.AtEnd() && Appended(old(b.data), PutBody(c, m), ok, b.data)
  {
    WriteBool(b, m.asyncioDebug);
    ghost var d1 := b.data;
    ok := WriteFloats(c, b, m.pingInterval, m.pingTimeout, m.highPingThreshold);
    if !ok {
      return;
    }
    ghost var d2 := b.data;
    ok := WriteString(c, b, m.httpProxy);
    ghost var p, q := PutFloats(c, m.pingInterval, m.pingTimeout, m.highPingThreshold), PutString(c, m.httpProxy);
    Then(d1, p, d2, q, ok, b.data);
    Then(old(b.data), PutBool(m.asyncioDebug), d1, Both(p, q), ok, b.data);
  }

  method WritePong(b: BytesIO, last: int, timestamp: int) returns (ok: bool)
    requires b.AtEnd()
    modifies b
    ensures b.AtEnd() && Appended(old(b.data), Both(PutLong(last), PutLong(timestamp)), ok, b.data)
  {
    ok := WriteNumber(b, last, 8);
    if ok {
      ghost var d := b.data;
      ok := WriteNumber(b, timestamp, 8);
      Then(old(b.data), PutLong(last), d, PutLong(timestamp), ok, b.data);
    }
  }

  method WriteRequest(c: Codec, b: BytesIO, m: Message) returns (ok: bool)
    requires b.AtEnd() && m.InferenceRequest?
    modifies b
    ensures b.AtEnd() && Appended(old(b.data), PutBody(c, m), ok, b.data)
  {
    ok := WriteString(c, b, m.methodName);
    if !ok {
      return;
    }
    ghost var d1 := b.data;
    ok := WriteString(c, b, m.requestId);
    if !ok {
      return;
    }
    ghost var d2 := b.data;
    ok := WriteBytes(b, m.data);
    ghost var p, q := PutString(c, m.requestId), PutBytes(m.data);
    Then(d1, p, d2, q, ok, b.data);
    Then(old(b.data), PutString(c, m.methodName), d1, Both(p, q), ok, b.data);
  }

  method WriteOptional(b: BytesIO, x: Option<seq<byte>>) returns (ok: bool)
    requires b.AtEnd()
    modifies b
    ensures b.AtEnd() && Appended(old(b.data), PutOptional(x), ok, b.data)
  {
    WriteBool(b, x.Some?);
    ghost var d := b.data;
    ok := true;
    if x.Some? {
      ok := WriteBytes(b, x.value);
    } else {
      assert d + [] == d;
    }
    Then(old(b.data), PutBool(x.Some?), d, if x.Some? then PutBytes(x.value) else Some([]), ok, b.data);
  }

  method WriteResponse(c: Codec, b: BytesIO, m: Message) returns (ok: bool)
    requires b.AtEnd() && m.InferenceResponse?
    modifies b
    ensures b.AtEnd() && Appended(old(b.data), PutBody(c, m), ok, b.data)
  {
    ok := WriteString(c, b, m.requestId);
    if !ok {
      return;
    }
    ghost var d1 := b.data;
    ok := WriteOptional(b, m.result);
    if !ok {
      return;
    }
    ghost var d2 := b.data;
    ok := WriteString(c, b, m.error);
    ghost var p, q := PutOptional(m.result), PutString(c, m.error);
    Then(d1, p, d2, q, ok, b.data);
    Then(old(b.data), PutString(c, m.requestId), d1, Both(p, q), ok, b.data);
  }

  method WriteBody(c: Codec, b: BytesIO, m: Message) returns (ok: bool)
    requires b.AtEnd()
    modifies b
    ensures b.AtEnd() && Appended(old(b.data), PutBody(c, m), ok, b.data)
  {
    match m
    case InitializeRequest(_, _, _, _, _) => ok := WriteInitialize(c, b, m);
    case InitializeResponse(error) => ok := WriteString(c, b, error);
    case PingRequest(timestamp) => ok := WriteNumber(b, timestamp, 8);
    case PongResponse(last, timestamp) => ok := WritePong(b, last, timestamp);
    case StartJobRequest(job) => ok := WriteJob(c, b, job);
    case ShutdownRequest(reason) => ok := WriteString(c, b, reason);
    case Exiting(reason) => ok := WriteString(c, b, reason);
    case InferenceRequest(_, _, _) => ok := WriteRequest(c, b, m);
    case InferenceResponse(_, _, _) => ok := WriteResponse(c, b, m);
  }

  /** `_write_message`; `None` when it raises. */
  method WriteMessage(c: Codec, m: Message) returns (data: Option<seq<byte>>)
    ensures data == Write(c, m)
  {
    var b := new BytesIO([]);
    var ok := WriteNumber(b, MsgId(m), 4);
    if !ok {
      return None;
    }
    ghost var d := b.data;
    ok := WriteBody(c, b, m);
    Then([], PutInt(MsgId(m)), d, PutBody(c, m), ok, b.data);
    data := if ok then Some(b.data) else None;
    assert ok ==> [] + Write(c, m).value == Write(c, m).value;
  }

  method WriteReloadMessage(c: Codec, m: ReloadMessage) returns (data: Option<seq<byte>>)
    ensures data == WriteReload(c, m)
  {
    var b := new BytesIO([]);
    var ok := WriteNumber(b, ReloadId(m), 4);
    if !ok {
      return None;
    }
    ghost var d := b.data;
    if m.ActiveJobsResponse? || m.ReloadJobsResponse? {
      ok := WriteJobList(c, b, m.jobs, m.reloadCount);
      Then([], PutInt(ReloadId(m)), d, PutJobList(c, m.jobs, m.reloadCount), ok, b.data);
    } else {
      assert d + [] == d;
      Then([], PutInt(ReloadId(m)), d, Some([]), ok, b.data);
    }
    data := if ok then Some(b.data) else None;
    assert ok ==> [] + WriteReload(c, m).value == WriteReload(c, m).value;
  }

  // ----- reading

  method ReadNumber(b: BytesIO, width: nat) returns (n: nat)
    modifies b`pos
    ensures Took(GetNumber(old(b.Rest()), width), Some(n), b.Rest())
  {
    var data := b.Read(width);
    n := FromBytes(data);
  }

  method ReadBool(b: BytesIO) returns (x: bool)
    modifies b`pos
    ensures Took(GetBool(old(b.Rest())), Some(x), b.Rest())
  {
    var data := b.Read(1);
    x := FromBytes(data) != 0;
  }

  method ReadBytes(b: BytesIO) returns (x: seq<byte>)
    modifies b`pos
    ensures Took(GetBytes(old(b.Rest())), Some(x), b.Rest())
  {
    var n := ReadNumber(b, 4);
    x := b.Read(n);
  }

  method ReadString(c: Codec, b: BytesIO) returns (s: Option<string>)
    modifies b`pos
    ensures Took(GetString(c, old(b.Rest())), s, b.Rest())
  {
    var data := ReadBytes(b);
    s := c.decode(data);
  }

  method ReadFloat(c: Codec, b: BytesIO) returns (x: Option<real>)
    modifies b`pos
    ensures Took(GetFloat(c, old(b.Rest())), x, b.Rest())
  {
    var data := b.Read(4);
    x := if |data| < 4 then None else Some(c.unpack(data));
  }

  method ReadStrings(c: Codec, b: BytesIO) returns (r: Option<(string, string, string)>)
    modifies b`pos
    ensures Took(GetStrings(c, old(b.Rest())), r, b.Rest())
  {
    var x := ReadString(c, b);
    if x == None {
      return None;
    }
    var y := ReadString(c, b);
    if y == None {
      return None;
    }
    var z := ReadString(c, b);
    r := if z == None then None else Some((x.value, y.value, z.value));
  }

  method ReadFloats(c: Codec, b: BytesIO) returns (r: Option<(real, real, real)>)
    modifies b`pos
    ensures Took(GetFloats(c, old(b.Rest())), r, b.Rest())
  {
    var x := ReadFloat(c, b);
    if x == None {
      return None;
    }
    var y := ReadFloat(c, b);
    if y == None {
      return None;
    }
    var z := ReadFloat(c, b);
    r := if z == None then None else Some((x.value, y.value, z.value));
  }

  method ReadJob(c: Codec, b: BytesIO) returns (r: Option<RunningJobInfo>)
    modifies b`pos
    ensures Took(GetJob(c, old(b.Rest())), r, b.Rest())
  {
    var job := ReadBytes(b);
    var a := ReadStrings(c, b);
    if a == None {
      return None;
    }
    var u := ReadStrings(c, b);
    if u == None {
      return None;
    }
    r := Some(RunningJobInfo(JobAcceptArguments(a.value.0, a.value.1, a.value.2, None), job, u.value.0, u.value.1,
                             u.value.2));
  }

  /** The jobs read so far, in front of those to come, are what is to be read. */
  ghost predicate ToRead(c: Codec, whole: Parsed<seq<RunningJobInfo>>, jobs: seq<RunningJobInfo>, n: nat,
                         rest: seq<byte>) {
    var p := GetJobs(c, rest, n);
    if p.Raised? then whole == Raised else whole == Parsed(jobs + p.value, p.rest)
  }

  lemma ToReadStep(c: Codec, whole: Parsed<seq<RunningJobInfo>>, jobs: seq<RunningJobInfo>, n: nat, rest: seq<byte>,
                   j: Option<RunningJobInfo>, next: seq<byte>)
    requires n > 0 && ToRead(c, whole, jobs, n, rest) && Took(GetJob(c, rest), j, next)
    ensures if j == None then whole == Raised else ToRead(c, whole, jobs + [j.value], n - 1, next)
  {
    if j.Some? && GetJobs(c, next, n - 1).Parsed? {
      var js := GetJobs(c, next, n - 1).value;
      assert jobs + ([j.value] + js) == (jobs + [j.value]) + js;
    }
  }

  lemma ToReadStart(c: Codec, n: nat, rest: seq<byte>)
    ensures ToRead(c, GetJobs(c, rest, n), [], n, rest)
  {
    var p := GetJobs(c, rest, n);
    assert p.Parsed? ==> [] + p.value == p.value;
  }

  lemma ToReadEnd(c: Codec, whole: Parsed<seq<RunningJobInfo>>, jobs: seq<RunningJobInfo>, rest: seq<byte>)
    requires ToRead(c, whole, jobs, 0, rest)
    ensures whole == Parsed(jobs, rest)
  {
    assert jobs + [] == jobs;
  }

  /** The loop of `ActiveJobsResponse.read`. */
  method ReadJobs(c: Codec, b: BytesIO, n: nat) returns (r: Option<seq<RunningJobInfo>>)
    modifies b`pos
    ensures Took(GetJobs(c, old(b.Rest()), n), r, b.Rest())
  {
    var jobs: seq<RunningJobInfo> := [];
    ghost var whole := GetJobs(c, b.Rest(), n);
    ToReadStart(c, n, b.Rest());
    for i := 0 to n
      invariant ToRead(c, whole, jobs, n - i, b.Rest())
    {
      ghost var rest := b.Rest();
      var j := ReadJob(c, b);
      ToReadStep(c, whole, jobs, n - i, rest, j, b.Rest());
      if j == None {
        return None;
      }
      jobs := jobs + [j.value];
    }
    ToReadEnd(c, whole, jobs, b.Rest());
    r := Some(jobs);
  }

  method ReadOptional(b: BytesIO) returns (x: Option<seq<byte>>)
    modifies b`pos
    ensures Took(GetOptional(old(b.Rest())), Some(x), b.Rest())
  {
    var has := ReadBool(b);
    x := None;
    if has {
      var data := ReadBytes(b);
      x := Some(data);
    }
  }

  method ReadInitialize(c: Codec, b: BytesIO) returns (m: Option<Message>)
    modifies b`pos
    ensures Took(GetInitialize(c, old(b.Rest())), m, b.Rest())
  {
    var debug := ReadBool(b);
    var f := ReadFloats(c, b);
    if f == None {
      return None;
    }
    var proxy := ReadString(c, b);
    m := if proxy == None then None else Some(InitializeRequest(debug, f.value.0, f.value.1, f.value.2, proxy.value));
  }

  method ReadStart(c: Codec, b: BytesIO) returns (m: Option<Message>)
    modifies b`pos
    ensures Took(GetStart(c, old(b.Rest())), m, b.Rest())
  {
    var j := ReadJob(c, b);
    m := if j == None then None else Some(StartJobRequest(j.value));
  }

  method ReadPong(b: BytesIO) returns (m: Message)
    modifies b`pos
    ensures Took(GetPong(old(b.Rest())), Some(m), b.Rest())
  {
    var last := ReadNumber(b, 8);
    var timestamp := ReadNumber(b, 8);
    m := PongResponse(last, timestamp);
  }

  method ReadRequest(c: Codec, b: BytesIO) returns (m: Option<Message>)
    modifies b`pos
    ensures Took(GetRequest(c, old(b.Rest())), m, b.Rest())
  {
    var name := ReadString(c, b);
    if name == None {
      return None;
    }
    var id := ReadString(c, b);
    if id == None {
      return None;
    }
    var data := ReadBytes(b);
    m := Some(InferenceRequest(name.value, id.value, data));
  }

  method ReadResponse(c: Codec, b: BytesIO) returns (m: Option<Message>)
    modifies b`pos
    ensures Took(GetResponse(c, old(b.Rest())), m, b.Rest())
  {
    var id := ReadString(c, b);
    if id == None {
      return None;
    }
    var data := ReadOptional(b);
    var error := ReadString(c, b);
    m := if error == None then None else Some(InferenceResponse(id.value, data, error.value));
  }

  method ReadText(c: Codec, b: BytesIO, id: nat) returns (m: Option<Message>)
    modifies b`pos
    ensures Took(GetText(c, old(b.Rest()), id), m, b.Rest())
  {
    var s := ReadString(c, b);
    if s == None {
      return None;
    }
    m := Some(TextOf(id, s.value));
  }

  method ReadBody(c: Codec, b: BytesIO, id: nat) returns (m: Option<Message>)
    modifies b`pos
    ensures Took(GetBody(c, id, old(b.Rest())), m, b.Rest())
  {
    if id == 0 {
      m := ReadInitialize(c, b);
    } else if id == 2 {
      var timestamp := ReadNumber(b, 8);
      m := Some(PingRequest(timestamp));
    } else if id == 3 {
      var pong := ReadPong(b);
      m := Some(pong);
    } else if id == 4 {
      m := ReadStart(c, b);
    } else if id == 7 {
      m := ReadRequest(c, b);
    } else if id == 8 {
      m := ReadResponse(c, b);
    } else if id == 1 || id == 5 || id == 6 {
      m := ReadText(c, b, id);
    } else {
      m := None;
    }
  }

  function Outcome<T>(p: Parsed<T>): Option<T> {
    if p.Raised? then None else Some(p.value)
  }

  /** `_read_message`; `None` when it raises, which an unknown id does. */
  method ReadMessage(c: Codec, data: seq<byte>) returns (m: Option<Message>)
    ensures m == Outcome(Read(c, data))
  {
    var b := new BytesIO(data);
    var id := ReadNumber(b, 4);
    m := ReadBody(c, b, id);
  }

  method ReadJobList(c: Codec, b: BytesIO, active: bool) returns (m: Option<ReloadMessage>)
    modifies b`pos
    ensures Took(GetJobList(c, old(b.Rest()), active), m, b.Rest())
  {
    var n := ReadNumber(b, 4);
    var jobs := ReadJobs(c, b, n);
    if jobs == None {
      return None;
    }
    var count := ReadNumber(b, 4);
    m := Some(if active then ActiveJobsResponse(jobs.value, count) else ReloadJobsResponse(jobs.value, count));
  }

  method ReadReloadMessage(c: Codec, data: seq<byte>) returns (m: Option<ReloadMessage>)
    ensures m == Outcome(ReadReload(c, data))
  {
    var b := new BytesIO(data);
    var id := ReadNumber(b, 4);
    if id == 1 {
      m := Some(ActiveJobsRequest);
    } else if id == 2 {
      m := ReadJobList(c, b, true);
    } else if id == 3 {
      m := Some(ReloadJobsRequest);
    } else if id == 4 {
      m := ReadJobList(c, b, false);
    } else if id == 5 {
      m := Some(Reloaded);
    } else {
      m := None;
    }
  }
}
