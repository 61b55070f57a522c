/**
  The messages between the worker and its processes (agent/livekit/agents/ipc/proto.py) and those of the
  reloader (agent/livekit/agents/cli/proto.py), on the wire and back.
 */
module IpcMessages {
  import opened Wrappers
  import opened Bytes
  import opened Wire

  datatype JobAcceptArguments = JobAcceptArguments(
    name: string, identity: string, metadata: string, attributes: Option<map<string, string>>)

  /** `job` stands for the serialized protobuf. */
  datatype RunningJobInfo = RunningJobInfo(
    acceptArguments: JobAcceptArguments, job: seq<byte>, url: string, token: string, workerId: string)

  datatype Message =
    | InitializeRequest(asyncioDebug: bool, pingInterval: real, pingTimeout: real, highPingThreshold: real,
                        httpProxy: string)
    | InitializeResponse(error: string)
    | PingRequest(timestamp: int)
    | PongResponse(lastTimestamp: int, timestamp: int)
    | StartJobRequest(runningJob: RunningJobInfo)
    | ShutdownRequest(reason: string)
    | Exiting(reason: string)
    | InferenceRequest(methodName: string, requestId: string, data: seq<byte>)
    | InferenceResponse(requestId: string, result: Option<seq<byte>>, error: string)

  datatype ReloadMessage =
    | ActiveJobsRequest
    | ActiveJobsResponse(jobs: seq<RunningJobInfo>, reloadCount: int)
    | ReloadJobsRequest
    | ReloadJobsResponse(jobs: seq<RunningJobInfo>, reloadCount: int)
    | Reloaded

  // ----- writing

  function PutJob(c: Codec, j: RunningJobInfo): Option<seq<byte>> {
    var a := j.acceptArguments;
    Both(PutBytes(j.job), Both(PutStrings(c, a.name, a.identity, a.metadata),
                               PutStrings(c, j.url, j.token, j.workerId)))
  }

  function PutJobs(c: Codec, jobs: seq<RunningJobInfo>): Option<seq<byte>> {
    if jobs == [] then Some([]) else Both(PutJob(c, jobs[0]), PutJobs(c, jobs[1..]))
  }

  function PutOptional(b: Option<seq<byte>>): Option<seq<byte>> {
    Both(PutBool(b.Some?), if b.Some? then PutBytes(b.value) else Some([]))
  }

  function MsgId(m: Message): nat {
    match m
    case InitializeRequest(_, _, _, _, _) => 0
    case InitializeResponse(_) => 1
    case PingRequest(_) => 2
    case PongResponse(_, _) => 3
    case StartJobRequest(_) => 4
    case ShutdownRequest(_) => 5
    case Exiting(_) => 6
    case InferenceRequest(_, _, _) => 7
    case InferenceResponse(_, _, _) => 8
  }

  /** The `write` methods. */
  function PutBody(c: Codec, m: Message): Option<seq<byte>> {
    match m
    case InitializeRequest(debug, interval, timeout, threshold, proxy) =>
      Both(PutBool(debug), Both(PutFloats(c, interval, timeout, threshold), PutString(c, proxy)))
    case InitializeResponse(error) => PutString(c, error)
    case PingRequest(timestamp) => PutLong(timestamp)
    case PongResponse(last, timestamp) => Both(PutLong(last), PutLong(timestamp))
    case StartJobRequest(job) => PutJob(c, job)
    case ShutdownRequest(reason) => PutString(c, reason)
    case Exiting(reason) => PutString(c, reason)
    case InferenceRequest(name, id, data) => Both(PutString(c, name), Both(PutString(c, id), PutBytes(data)))
    case InferenceResponse(id, data, error) => Both(PutString(c, id), Both(PutOptional(data), PutString(c, error)))
  }

  /** `_write_message`. */
  function Write(c: Codec, m: Message): Option<seq<byte>> {
    Both(PutInt(MsgId(m)), PutBody(c, m))
  }

  function ReloadId(m: ReloadMessage): nat {
    match m
    case ActiveJobsRequest => 1
    case ActiveJobsResponse(_, _) => 2
    case ReloadJobsRequest => 3
    case ReloadJobsResponse(_, _) => 4
    case Reloaded => 5
  }

  /** `ActiveJobsResponse.write`: a count, the jobs, the reload count. */
  function PutJobList(c: Codec, jobs: seq<RunningJobInfo>, reloadCount: int): Option<seq<byte>> {
    Both(PutInt(|jobs|), Both(PutJobs(c, jobs), PutInt(reloadCount)))
  }

  function WriteReload(c: Codec, m: ReloadMessage): Option<seq<byte>> {
    Both(PutInt(ReloadId(m)),
         if m.ActiveJobsResponse? || m.ReloadJobsResponse? then PutJobList(c, m.jobs, m.reloadCount) else Some([]))
  }

  // ----- reading

  function GetJob(c: Codec, d: seq<byte>): Parsed<RunningJobInfo> {
    var job := GetBytes(d);
    match GetStrings(c, job.rest)
    case Raised => Raised
    case Parsed(a, d1) =>
      match GetStrings(c, d1)
      case Raised => Raised
      case Parsed(u, d2) =>
        Parsed(RunningJobInfo(JobAcceptArguments(a.0, a.1, a.2, None), job.value, u.0, u.1, u.2), d2)
  }

  function GetJobs(c: Codec, d: seq<byte>, n: nat): Parsed<seq<RunningJobInfo>>
    decreases n
  {
    if n == 0 then Parsed([], d)
    else match GetJob(c, d)
      case Raised => Raised
      case Parsed(j, d1) =>
        match GetJobs(c, d1, n - 1)
        case Raised => Raised
        case Parsed(js, d2) => Parsed([j] + js, d2)
  }

  function GetOptional(d: seq<byte>): Parsed<Option<seq<byte>>> {
    var has := GetBool(d);
    if has.value then
      var b := GetBytes(has.rest);
      Parsed(Some(b.value), b.rest)
    else Parsed(None, has.rest)
  }

  function GetInitialize(c: Codec, d: seq<byte>): Parsed<Message> {
    var debug := GetBool(d);
    match GetFloats(c, debug.rest)
    case Raised => Raised
    case Parsed(f, d1) =>
      match GetString(c, d1)
      case Raised => Raised
      case Parsed(proxy, d2) => Parsed(InitializeRequest(debug.value, f.0, f.1, f.2, proxy), d2)
  }

  function GetRequest(c: Codec, d: seq<byte>): Parsed<Message> {
    match GetString(c, d)
    case Raised => Raised
    case Parsed(name, d1) =>
      match GetString(c, d1)
      case Raised => Raised
      case Parsed(id, d2) => Parsed(InferenceRequest(name, id, GetBytes(d2).value), GetBytes(d2).rest)
  }

  function GetResponse(c: Codec, d: seq<byte>): Parsed<Message> {
    match GetString(c, d)
    case Raised => Raised
    case Parsed(id, d1) =>
      var data := GetOptional(d1);
      match GetString(c, data.rest)
      case Raised => Raised
      case Parsed(error, d2) => Parsed(InferenceResponse(id, data.value, error), d2)
  }

  function TextOf(id: nat, text: string): Message {
    if id == 1 then InitializeResponse(text) else if id == 5 then ShutdownRequest(text) else Exiting(text)
  }

  function GetText(c: Codec, d: seq<byte>, id: nat): Parsed<Message> {
    match GetString(c, d)
    case Raised => Raised
    case Parsed(s, d1) => Parsed(TextOf(id, s), d1)
  }

  function GetStart(c: Codec, d: seq<byte>): Parsed<Message> {
    match GetJob(c, d)
    case Raised => Raised
    case Parsed(j, d1) => Parsed(StartJobRequest(j), d1)
  }

  function GetPing(d: seq<byte>): Parsed<Message> {
    var t := GetLong(d);
    Parsed(PingRequest(t.value), t.rest)
  }

  function GetPong(d: seq<byte>): Parsed<Message> {
    var last := GetLong(d);
    var t := GetLong(last.rest);
    Parsed(PongResponse(last.value, t.value), t.rest)
  }

  /** The `read` method of the message with this id; an unknown id raises. */
  function GetBody(c: Codec, id: nat, d: seq<byte>): Parsed<Message> {
    if id == 0 then GetInitialize(c, d)
    else if id == 2 then GetPing(d)
    else if id == 3 then GetPong(d)
    else if id == 4 then GetStart(c, d)
    else if id == 7 then GetRequest(c, d)
    else if id == 8 then GetResponse(c, d)
    else if id == 1 || id == 5 || id == 6 then GetText(c, d, id)
    else Raised
  }

  /** `_read_message`. */
  function Read(c: Codec, d: seq<byte>): Parsed<Message> {
    var id := GetInt(d);
    GetBody(c, id.value, id.rest)
  }

  function GetJobList(c: Codec, d: seq<byte>, active: bool): Parsed<ReloadMessage> {
    var n := GetInt(d);
    match GetJobs(c, n.rest, n.value)
    case Raised => Raised
    case Parsed(jobs, d1) =>
      var count := GetInt(d1);
      var m := if active then ActiveJobsResponse(jobs, count.value) else ReloadJobsResponse(jobs, count.value);
      Parsed(m, count.rest)
  }

  function GetReloadBody(c: Codec, id: nat, d: seq<byte>): Parsed<ReloadMessage> {
    if id == 1 then Parsed(ActiveJobsRequest, d)
    else if id == 2 then GetJobList(c, d, true)
    else if id == 3 then Parsed(ReloadJobsRequest, d)
    else if id == 4 then GetJobList(c, d, false)
    else if id == 5 then Parsed(Reloaded, d)
    else Raised
  }

  function ReadReload(c: Codec, d: seq<byte>): Parsed<ReloadMessage> {
    var id := GetInt(d);
    GetReloadBody(c, id.value, id.rest)
  }

  // ----- what arrives

  /** Accept attributes are not written. */
  function SentJob(j: RunningJobInfo): RunningJobInfo {
    j.(acceptArguments := j.acceptArguments.(attributes := None))
  }

  function SentJobs(jobs: seq<RunningJobInfo>): seq<RunningJobInfo> {
    if jobs == [] then [] else [SentJob(jobs[0])] + SentJobs(jobs[1..])
  }

  /** Floats arrive in single precision. */
  function Sent(c: Codec, m: Message): Message
    requires PutBody(c, m).Some?
  {
    match m
    case InitializeRequest(debug, interval, timeout, threshold, proxy) =>
      InitializeRequest(debug, Single(c, interval), Single(c, timeout), Single(c, threshold), proxy)
    case StartJobRequest(job) => StartJobRequest(SentJob(job))
    case _ => m
  }

  function SentReload(m: ReloadMessage): ReloadMessage {
    match m
    case ActiveJobsResponse(jobs, n) => ActiveJobsResponse(SentJobs(jobs), n)
    case ReloadJobsResponse(jobs, n) => ReloadJobsResponse(SentJobs(jobs), n)
    case _ => m
  }

  lemma JobReads(c: Codec, j: RunningJobInfo, rest: seq<byte>)
    requires c.Valid() && PutJob(c, j).Some?
    ensures GetJob(c, PutJob(c, j).value + rest) == Parsed(SentJob(j), rest)
  {
    var a := j.acceptArguments;
    var x, y, z := PutBytes(j.job).value, PutStrings(c, a.name, a.identity, a.metadata).value,
        PutStrings(c, j.url, j.token, j.workerId).value;
    Chain(x, y + z, rest);
    Chain(y, z, rest);
    BytesRead(j.job, y + (z + rest));
    StringsRead(c, a.name, a.identity, a.metadata, z + rest);
    StringsRead(c, j.url, j.token, j.workerId, rest);
  }

  lemma {:induction false} JobsRead(c: Codec, jobs: seq<RunningJobInfo>, rest: seq<byte>)
    requires c.Valid() && PutJobs(c, jobs).Some?
    ensures GetJobs(c, PutJobs(c, jobs).value + rest, |jobs|) == Parsed(SentJobs(jobs), rest)
  {
    if jobs == [] {
      assert [] + rest == rest;
    } else {
      var y := PutJobs(c, jobs[1..]).value;
      JobsRead(c, jobs[1..], rest);
      Chain(PutJob(c, jobs[0]).value, y, rest);
      JobReads(c, jobs[0], y + rest);
    }
  }

  lemma OptionalReads(b: Option<seq<byte>>, rest: seq<byte>)
    requires PutOptional(b).Some?
    ensures GetOptional(PutOptional(b).value + rest) == Parsed(b, rest)
  {
    var y := if b.Some? then PutBytes(b.value).value else [];
    Chain(PutBool(b.Some?).value, y, rest);
    BoolReads(b.Some?, y + rest);
    if b.Some? {
      BytesRead(b.value, rest);
    } else {
      assert [] + rest == rest;
    }
  }

  // each kind of message: what its `write` appends, read by the message its id names

  lemma InitializeReads(c: Codec, m: Message, body: seq<byte>, rest: seq<byte>)
    requires c.Valid() && m.InitializeRequest? && PutBody(c, m) == Some(body)
    ensures GetInitialize(c, body + rest) == Parsed(Sent(c, m), rest)
  {
    var x, y, z := PutBool(m.asyncioDebug).value,
        PutFloats(c, m.pingInterval, m.pingTimeout, m.highPingThreshold).value, PutString(c, m.httpProxy).value;
    Chain(x, y + z, rest);
    Chain(y, z, rest);
    BoolReads(m.asyncioDebug, y + (z + rest));
    FloatsRead(c, m.pingInterval, m.pingTimeout, m.highPingThreshold, z + rest);
    StringReads(c, m.httpProxy, rest);
  }

  lemma PingReads(c: Codec, m: Message, body: seq<byte>, rest: seq<byte>)
    requires m.PingRequest? && PutBody(c, m) == Some(body)
    ensures GetBody(c, 2, body + rest) == Parsed(m, rest)
  {
    NumberReads(m.timestamp, 8, rest);
  }

  lemma PongReads(c: Codec, m: Message, body: seq<byte>, rest: seq<byte>)
    requires m.PongResponse? && PutBody(c, m) == Some(body)
    ensures GetBody(c, 3, body + rest) == Parsed(m, rest)
  {
    var x, y := PutLong(m.lastTimestamp).value, PutLong(m.timestamp).value;
    Chain(x, y, rest);
    NumberReads(m.lastTimestamp, 8, y + rest);
    NumberReads(m.timestamp, 8, rest);
  }

  lemma StartReads(c: Codec, m: Message, body: seq<byte>, rest: seq<byte>)
    requires c.Valid() && m.StartJobRequest? && PutJob(c, m.runningJob) == Some(body)
    ensures GetStart(c, body + rest) == Parsed(StartJobRequest(SentJob(m.runningJob)), rest)
  {
    JobReads(c, m.runningJob, rest);
  }

  lemma RequestReads(c: Codec, m: Message, body: seq<byte>, rest: seq<byte>)
    requires c.Valid() && m.InferenceRequest? && PutBody(c, m) == Some(body)
    ensures GetRequest(c, body + rest) == Parsed(m, rest)
  {
    var x, y, z := PutString(c, m.methodName).value, PutString(c, m.requestId).value, PutBytes(m.data).value;
    Chain(x, y + z, rest);
    Chain(y, z, rest);
    StringReads(c, m.methodName, y + (z + rest));
    StringReads(c, m.requestId, z + rest);
    BytesRead(m.data, rest);
  }

  lemma ResponseReads(c: Codec, m: Message, body: seq<byte>, rest: seq<byte>)
    requires c.Valid() && m.InferenceResponse? && PutBody(c, m) == Some(body)
    ensures GetResponse(c, body + rest) == Parsed(m, rest)
  {
    var x, y, z := PutString(c, m.requestId).value, PutOptional(m.result).value, PutString(c, m.error).value;
    Chain(x, y + z, rest);
    Chain(y, z, rest);
    StringReads(c, m.requestId, y + (z + rest));
    OptionalReads(m.result, z + rest);
    StringReads(c, m.error, rest);
  }

  /** A message that is one text. */
  lemma TextReads(c: Codec, id: nat, text: string, body: seq<byte>, rest: seq<byte>)
    requires c.Valid() && PutString(c, text) == Some(body)
    ensures GetText(c, body + rest, id) == Parsed(TextOf(id, text), rest)
  {
    StringReads(c, text, rest);
  }

  lemma TextBody(c: Codec, id: nat, text: string, body: seq<byte>, rest: seq<byte>)
    requires c.Valid() && PutString(c, text) == Some(body) && (id == 1 || id == 5 || id == 6)
    ensures GetBody(c, id, body + rest) == Parsed(TextOf(id, text), rest)
  {
    TextReads(c, id, text, body, rest);
  }

  lemma InitializeBody(c: Codec, m: Message, body: seq<byte>, rest: seq<byte>)
    requires c.Valid() && m.InitializeRequest? && PutBody(c, m) == Some(body)
    ensures GetBody(c, 0, body + rest) == Parsed(Sent(c, m), rest)
  {
    InitializeReads(c, m, body, rest);
  }

  lemma StartBody(c: Codec, m: Message, body: seq<byte>, rest: seq<byte>)
    requires c.Valid() && m.StartJobRequest? && PutBody(c, m) == Some(body)
    ensures GetBody(c, 4, body + rest) == Parsed(Sent(c, m), rest)
  {
    StartReads(c, m, body, rest);
  }

  lemma RequestBody(c: Codec, m: Message, body: seq<byte>, rest: seq<byte>)
    requires c.Valid() && m.InferenceRequest? && PutBody(c, m) == Some(body)
    ensures GetBody(c, 7, body + rest) == Parsed(Sent(c, m), rest)
  {
    RequestReads(c, m, body, rest);
  }

  lemma ResponseBody(c: Codec, m: Message, body: seq<byte>, rest: seq<byte>)
    requires c.Valid() && m.InferenceResponse? && PutBody(c, m) == Some(body)
    ensures GetBody(c, 8, body + rest) == Parsed(Sent(c, m), rest)
  {
    ResponseReads(c, m, body, rest);
  }

  lemma BodyReads(c: Codec, m: Message, body: seq<byte>, rest: seq<byte>)
    requires c.Valid() && PutBody(c, m) == Some(body)
    ensures GetBody(c, MsgId(m), body + rest) == Parsed(Sent(c, m), rest)
  {
    match m
    case InitializeRequest(_, _, _, _, _) => InitializeBody(c, m, body, rest);
    case InitializeResponse(error) => TextBody(c, 1, error, body, rest);
    case PingRequest(_) => PingReads(c, m, body, rest);
    case PongResponse(_, _) => PongReads(c, m, body, rest);
    case StartJobRequest(_) => StartBody(c, m, body, rest);
    case ShutdownRequest(reason) => TextBody(c, 5, reason, body, rest);
    case Exiting(reason) => TextBody(c, 6, reason, body, rest);
    case InferenceRequest(_, _, _) => RequestBody(c, m, body, rest);
    case InferenceResponse(_, _, _) => ResponseBody(c, m, body, rest);
  }

  /** Every message that can be written is read back as sent, and the reader stops right behind it. */
  lemma MessageReads(c: Codec, m: Message, rest: seq<byte>)
    requires c.Valid() && Write(c, m).Some?
    ensures Read(c, Write(c, m).value + rest) == Parsed(Sent(c, m), rest)
  {
    Chain(PutInt(MsgId(m)).value, PutBody(c, m).value, rest);
    NumberReads(MsgId(m), 4, PutBody(c, m).value + rest);
    BodyReads(c, m, PutBody(c, m).value, rest);
  }

  lemma JobListReads(c: Codec, jobs: seq<RunningJobInfo>, reloadCount: int, active: bool, rest: seq<byte>)
    requires c.Valid() && PutJobList(c, jobs, reloadCount).Some?
    ensures GetJobList(c, PutJobList(c, jobs, reloadCount).value + rest, active) ==
            Parsed(if active then ActiveJobsResponse(SentJobs(jobs), reloadCount)
                   else ReloadJobsResponse(SentJobs(jobs), reloadCount),
                   rest)
  {
    var x, y, z := PutInt(|jobs|).value, PutJobs(c, jobs).value, PutInt(reloadCount).value;
    Chain(x, y + z, rest);
    Chain(y, z, rest);
    NumberReads(|jobs|, 4, y + (z + rest));
    JobsRead(c, jobs, z + rest);
    NumberReads(reloadCount, 4, rest);
  }

  lemma ReloadReads(c: Codec, m: ReloadMessage, rest: seq<byte>)
    requires c.Valid() && WriteReload(c, m).Some?
    ensures ReadReload(c, WriteReload(c, m).value + rest) == Parsed(SentReload(m), rest)
  {
    if m.ActiveJobsResponse? || m.ReloadJobsResponse? {
      var list := PutJobList(c, m.jobs, m.reloadCount).value;
      Chain(PutInt(ReloadId(m)).value, list, rest);
      NumberReads(ReloadId(m), 4, list + rest);
      ListReads(c, m, list, rest);
    } else {
      assert PutInt(ReloadId(m)).value + [] == PutInt(ReloadId(m)).value;
      NumberReads(ReloadId(m), 4, rest);
    }
  }

  lemma ListReads(c: Codec, m: ReloadMessage, list: seq<byte>, rest: seq<byte>)
    requires c.Valid() && (m.ActiveJobsResponse? || m.ReloadJobsResponse?) &&
             PutJobList(c, m.jobs, m.reloadCount) == Some(list)
    ensures GetReloadBody(c, ReloadId(m), list + rest) == Parsed(SentReload(m), rest)
  {
    JobListReads(c, m.jobs, m.reloadCount, m.ActiveJobsResponse?, rest);
  }

  // ----- when a message comes back as it was

  ghost predicate Exact(c: Codec, m: Message)
    requires PutBody(c, m).Some?
  {
    match m
    case InitializeRequest(_, interval, timeout, threshold, _) =>
      Single(c, interval) == interval && Single(c, timeout) == timeout && Single(c, threshold) == threshold
    case StartJobRequest(job) => job.acceptArguments.attributes == None
    case _ => true
  }

  /**
    The round trip over a whole buffer gives the message back exactly when its floats are single precision and
    it has no accept attributes.
   */
  lemma RoundTripIff(c: Codec, m: Message)
    requires c.Valid() && Write(c, m).Some?
    ensures Read(c, Write(c, m).value) == Parsed(m, []) <==> Exact(c, m)
  {
    var w := Write(c, m).value;
    MessageReads(c, m, []);
    assert w + [] == w;
  }

  ghost predicate ExactReload(m: ReloadMessage) {
    m.ActiveJobsResponse? || m.ReloadJobsResponse? ==> forall j :: j in m.jobs ==> j.acceptArguments.attributes == None
  }

  lemma {:induction false} SentJobsSame(jobs: seq<RunningJobInfo>)
    ensures SentJobs(jobs) == jobs <==> forall j :: j in jobs ==> j.acceptArguments.attributes == None
  {
    if jobs != [] {
      SentJobsSame(jobs[1..]);
      assert jobs == [jobs[0]] + jobs[1..];
      assert SentJobs(jobs)[1..] == SentJobs(jobs[1..]);
    }
  }

  lemma ReloadRoundTripIff(c: Codec, m: ReloadMessage)
    requires c.Valid() && WriteReload(c, m).Some?
    ensures ReadReload(c, WriteReload(c, m).value) == Parsed(m, []) <==> ExactReload(m)
  {
    var w := WriteReload(c, m).value;
    ReloadReads(c, m, []);
    assert w + [] == w;
    if m.ActiveJobsResponse? || m.ReloadJobsResponse? {
      SentJobsSame(m.jobs);
    }
  }

  /** A text fits when it can be encoded in fewer than 2^32 bytes. */
  ghost predicate Fits(c: Codec, s: string) {
    c.encode(s).Some? && |c.encode(s).value| < 0x1_0000_0000
  }

  /** A job can be written exactly when its texts and its protobuf fit. */
  lemma JobWritesIff(c: Codec, j: RunningJobInfo)
    ensures var a := j.acceptArguments;
            PutJob(c, j).Some? <==> && |j.job| < 0x1_0000_0000
                                    && Fits(c, a.name) && Fits(c, a.identity) && Fits(c, a.metadata)
                                    && Fits(c, j.url) && Fits(c, j.token) && Fits(c, j.workerId)
  {
    RangeValues();
  }

  lemma {:induction false} JobsWriteIff(c: Codec, jobs: seq<RunningJobInfo>)
    ensures PutJobs(c, jobs).Some? <==> forall j :: j in jobs ==> PutJob(c, j).Some?
  {
    if jobs != [] {
      JobsWriteIff(c, jobs[1..]);
      assert jobs == [jobs[0]] + jobs[1..];
    }
  }

  /** What a message must satisfy to be written: texts and data that fit, timestamps of 64 bits, floats that pack. */
  lemma WritesIff(c: Codec, m: Message)
    ensures Write(c, m).Some? <==>
            match m
            case InitializeRequest(_, x, y, z, proxy) =>
              c.pack(x).Some? && c.pack(y).Some? && c.pack(z).Some? && Fits(c, proxy)
            case InitializeResponse(error) => Fits(c, error)
            case PingRequest(t) => 0 <= t < 0x1_0000_0000_0000_0000
            case PongResponse(last, t) => 0 <= last < 0x1_0000_0000_0000_0000 && 0 <= t < 0x1_0000_0000_0000_0000
            case StartJobRequest(job) => PutJob(c, job).Some?
            case ShutdownRequest(reason) => Fits(c, reason)
            case Exiting(reason) => Fits(c, reason)
            case InferenceRequest(name, id, data) => Fits(c, name) && Fits(c, id) && |data| < 0x1_0000_0000
            case InferenceResponse(id, data, error) =>
              Fits(c, id) && (data.Some? ==> |data.value| < 0x1_0000_0000) && Fits(c, error)
  {
    RangeValues();
  }

  lemma ReloadWritesIff(c: Codec, m: ReloadMessage)
    ensures WriteReload(c, m).Some? <==>
            (m.ActiveJobsResponse? || m.ReloadJobsResponse? ==>
               && |m.jobs| < 0x1_0000_0000 && 0 <= m.reloadCount < 0x1_0000_0000
               && forall j :: j in m.jobs ==> PutJob(c, j).Some?)
  {
    RangeValues();
    if m.ActiveJobsResponse? || m.ReloadJobsResponse? {
      JobsWriteIff(c, m.jobs);
    }
  }
}
