/** The bytes of every message, written out. */
module WireLayout {
  import opened Wrappers
  import opened Bytes
  import opened Wire
  import opened IpcMessages

  function Byte(n: nat): byte {
    (n % 256) as byte
  }

  /** Four bytes, the most significant first. */
  function Four(n: nat): seq<byte> {
    [Byte(n / 0x100_0000), Byte(n / 0x1_0000), Byte(n / 0x100), Byte(n)]
  }

  function Eight(n: nat): seq<byte> {
    Four(n / 0x1_0000_0000) + Four(n)
  }

  lemma Quotients(n: nat)
    ensures n / 256 / 256 == n / 0x1_0000 && n / 256 / 256 / 256 == n / 0x100_0000
    ensures n / 256 / 256 / 256 / 256 == n / 0x1_0000_0000
  {
  }

  lemma LastByte(n: nat, q: nat, width: nat, w: nat)
    requires width == w + 1 && q == n / 256
    ensures BigEndian(n, width) == BigEndian(q, w) + [Byte(n)]
  {
  }

  lemma LowFour(n: nat, q: nat, width: nat, w: nat)
    requires width == w + 4 && q == n / 0x1_0000_0000
    ensures BigEndian(n, width) == BigEndian(q, w) + Four(n)
  {
    Quotients(n);
    var a, b, d := n / 256, n / 0x1_0000, n / 0x100_0000;
    LastByte(n, a, width, w + 3);
    LastByte(a, b, w + 3, w + 2);
    LastByte(b, d, w + 2, w + 1);
    LastByte(d, q, w + 1, w);
    Assembled(BigEndian(q, w), Byte(d), Byte(b), Byte(a), Byte(n));
  }

  lemma Assembled(high: seq<byte>, x: byte, y: byte, z: byte, t: byte)
    ensures high + [x] + [y] + [z] + [t] == high + [x, y, z, t]
  {
  }

  lemma FourBytes(n: nat)
    ensures BigEndian(n, 4) == Four(n)
  {
    LowFour(n, n / 0x1_0000_0000, 4, 0);
  }

  lemma EightBytes(n: nat)
    ensures BigEndian(n, 8) == Eight(n)
  {
    LowFour(n, n / 0x1_0000_0000, 8, 4);
    FourBytes(n / 0x1_0000_0000);
  }

  /** A length and that many bytes. */
  function Counted(b: seq<byte>): seq<byte> {
    Four(|b|) + b
  }

  function Encoded(c: Codec, s: string): seq<byte> {
    if c.encode(s).Some? then Counted(c.encode(s).value) else []
  }

  function Packed(c: Codec, x: real): seq<byte> {
    if c.pack(x).Some? then c.pack(x).value else []
  }

  lemma CountedIs(b: seq<byte>)
    requires PutBytes(b).Some?
    ensures PutBytes(b) == Some(Counted(b))
  {
    FourBytes(|b|);
  }

  lemma EncodedIs(c: Codec, s: string)
    requires PutString(c, s).Some?
    ensures PutString(c, s) == Some(Encoded(c, s))
  {
    CountedIs(c.encode(s).value);
  }

  lemma ThreeEncoded(c: Codec, x: string, y: string, z: string)
    requires PutStrings(c, x, y, z).Some?
    ensures PutStrings(c, x, y, z) == Some(Encoded(c, x) + (Encoded(c, y) + Encoded(c, z)))
  {
    EncodedIs(c, x);
    EncodedIs(c, y);
    EncodedIs(c, z);
  }

  /** A job: its protobuf, what its worker accepted it with, and where it runs. */
  function JobBytes(c: Codec, j: RunningJobInfo): seq<byte> {
    var a := j.acceptArguments;
    Counted(j.job) + ((Encoded(c, a.name) + (Encoded(c, a.identity) + Encoded(c, a.metadata)))
                      + (Encoded(c, j.url) + (Encoded(c, j.token) + Encoded(c, j.workerId))))
  }

  lemma JobBytesAre(c: Codec, j: RunningJobInfo)
    requires PutJob(c, j).Some?
    ensures PutJob(c, j) == Some(JobBytes(c, j))
  {
    var a := j.acceptArguments;
    CountedIs(j.job);
    ThreeEncoded(c, a.name, a.identity, a.metadata);
    ThreeEncoded(c, j.url, j.token, j.workerId);
  }

  /** The bytes behind the id. */
  function Body(c: Codec, m: Message): seq<byte> {
    match m
    case InitializeRequest(debug, interval, timeout, threshold, proxy) =>
      [if debug then 1 else 0]
      + ((Packed(c, interval) + (Packed(c, timeout) + Packed(c, threshold))) + Encoded(c, proxy))
    case InitializeResponse(error) => Encoded(c, error)
    case PingRequest(timestamp) => if timestamp >= 0 then Eight(timestamp) else []
    case PongResponse(last, timestamp) => if last >= 0 && timestamp >= 0 then Eight(last) + Eight(timestamp) else []
    case StartJobRequest(job) => JobBytes(c, job)
    case ShutdownRequest(reason) => Encoded(c, reason)
    case Exiting(reason) => Encoded(c, reason)
    case InferenceRequest(name, id, data) => Encoded(c, name) + (Encoded(c, id) + Counted(data))
    case InferenceResponse(id, data, error) =>
      Encoded(c, id) + (OptionalBytes(data) + Encoded(c, error))
  }

  lemma BodyIs(c: Codec, m: Message)
    requires PutBody(c, m).Some?
    ensures PutBody(c, m) == Some(Body(c, m))
  {
    match m
    case InitializeRequest(_, _, _, _, proxy) => EncodedIs(c, proxy);
    case InitializeResponse(error) => EncodedIs(c, error);
    case PingRequest(timestamp) => EightBytes(timestamp);
    case PongResponse(last, timestamp) => EightBytes(last); EightBytes(timestamp);
    case StartJobRequest(job) => JobBytesAre(c, job);
    case ShutdownRequest(reason) => EncodedIs(c, reason);
    case Exiting(reason) => EncodedIs(c, reason);
    case InferenceRequest(name, id, data) => EncodedIs(c, name); EncodedIs(c, id); CountedIs(data);
    case InferenceResponse(id, data, error) => EncodedIs(c, id); OptionalIs(data); EncodedIs(c, error);
  }

  function OptionalBytes(data: Option<seq<byte>>): seq<byte> {
    if data.Some? then [1] + Counted(data.value) else [0]
  }

  lemma OptionalIs(data: Option<seq<byte>>)
    requires PutOptional(data).Some?
    ensures PutOptional(data) == Some(OptionalBytes(data))
  {
    if data.Some? {
      CountedIs(data.value);
    } else {
      assert [0] + [] == [0];
    }
  }

  /** The ids on the wire, by the order of the messages. */
  predicate HasId(m: Message, id: nat) {
    match id
    case 0 => m.InitializeRequest?
    case 1 => m.InitializeResponse?
    case 2 => m.PingRequest?
    case 3 => m.PongResponse?
    case 4 => m.StartJobRequest?
    case 5 => m.ShutdownRequest?
    case 6 => m.Exiting?
    case 7 => m.InferenceRequest?
    case 8 => m.InferenceResponse?
    case _ => false
  }

  lemma IdBytes(id: nat)
    requires id < 256
    ensures PutInt(id) == Some([0, 0, 0, id as byte])
  {
    FourBytes(id);
    RangeValues();
  }

  /** A written message is its id in four bytes and its fields in their order. */
  lemma MessageBytes(c: Codec, m: Message, id: nat)
    requires Write(c, m).Some? && HasId(m, id)
    ensures Write(c, m) == Some([0, 0, 0, id as byte] + Body(c, m))
  {
    IdBytes(id);
    BodyIs(c, m);
  }

  function JobsBytes(c: Codec, jobs: seq<RunningJobInfo>): seq<byte> {
    if jobs == [] then [] else JobBytes(c, jobs[0]) + JobsBytes(c, jobs[1..])
  }

  lemma {:induction false} JobsBytesAre(c: Codec, jobs: seq<RunningJobInfo>)
    requires PutJobs(c, jobs).Some?
    ensures PutJobs(c, jobs) == Some(JobsBytes(c, jobs))
  {
    if jobs != [] {
      JobBytesAre(c, jobs[0]);
      JobsBytesAre(c, jobs[1..]);
    }
  }

  function CountBytes(n: int): seq<byte> {
    if n >= 0 then Four(n) else []
  }

  /** A number of jobs, the jobs, and how often they were reloaded. */
  function ListBytes(c: Codec, m: ReloadMessage): seq<byte> {
    if m.ActiveJobsResponse? || m.ReloadJobsResponse?
    then Four(|m.jobs|) + (JobsBytes(c, m.jobs) + CountBytes(m.reloadCount)) else []
  }

  lemma ListIs(c: Codec, m: ReloadMessage)
    requires m.ActiveJobsResponse? || m.ReloadJobsResponse?
    requires PutJobList(c, m.jobs, m.reloadCount).Some?
    ensures PutJobList(c, m.jobs, m.reloadCount) == Some(ListBytes(c, m))
  {
    FourBytes(|m.jobs|);
    JobsBytesAre(c, m.jobs);
    FourBytes(m.reloadCount);
  }

  predicate HasReloadId(m: ReloadMessage, id: nat) {
    match id
    case 1 => m.ActiveJobsRequest?
    case 2 => m.ActiveJobsResponse?
    case 3 => m.ReloadJobsRequest?
    case 4 => m.ReloadJobsResponse?
    case 5 => m.Reloaded?
    case _ => false
  }

  /** So is a reload message; the two that carry jobs have a body. */
  lemma ReloadBytes(c: Codec, m: ReloadMessage, id: nat)
    requires WriteReload(c, m).Some? && HasReloadId(m, id)
    ensures WriteReload(c, m) == Some([0, 0, 0, id as byte] + ListBytes(c, m))
  {
    IdBytes(id);
    if m.ActiveJobsResponse? || m.ReloadJobsResponse? {
      ListIs(c, m);
    }
  }
}
