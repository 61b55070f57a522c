/**
  The primitives of agent/livekit/agents/ipc/channel.py as functions on bytes: `Put…` is what a writer
  appends, `None` when it raises; `Get…` is what a reader takes off the front. Text encoding and 4-byte
  floats are a pair of opaque functions each.
 */
module Wire {
  import opened Wrappers
  import opened Bytes

  datatype Codec = Codec(
    encode: string -> Option<seq<byte>>, decode: seq<byte> -> Option<string>,
    pack: real -> Option<seq<byte>>, unpack: seq<byte> -> real)
  {
    /** What was encoded decodes to itself; a packed float has four bytes. */
    ghost predicate Valid() {
      && (forall s :: encode(s).Some? ==> decode(encode(s).value) == Some(s))
      && (forall x :: pack(x).Some? ==> |pack(x).value| == 4)
    }
  }

  datatype Parsed<T> = Parsed(value: T, rest: seq<byte>) | Raised

  /** `BytesIO.read(n)`: up to `n` bytes. */
  function Taken(data: seq<byte>, n: nat): seq<byte> {
    if n <= |data| then data[..n] else data
  }

  function Left(data: seq<byte>, n: nat): seq<byte> {
    if n <= |data| then data[n..] else []
  }

  function Both(a: Option<seq<byte>>, b: Option<seq<byte>>): Option<seq<byte>> {
    if a.Some? && b.Some? then Some(a.value + b.value) else None
  }

  function PutNumber(n: int, width: nat): Option<seq<byte>> {
    if 0 <= n < Range(width) then Some(BigEndian(n, width)) else None
  }

  function PutInt(n: int): Option<seq<byte>> {
    PutNumber(n, 4)
  }

  function PutLong(n: int): Option<seq<byte>> {
    PutNumber(n, 8)
  }

  function PutBool(b: bool): Option<seq<byte>> {
    Some([if b then 1 else 0])
  }

  function PutBytes(b: seq<byte>): Option<seq<byte>> {
    Both(PutInt(|b|), Some(b))
  }

  function PutString(c: Codec, s: string): Option<seq<byte>> {
    match c.encode(s)
    case None => None
    case Some(b) => PutBytes(b)
  }

  function PutFloat(c: Codec, x: real): Option<seq<byte>> {
    c.pack(x)
  }

  /** A short read gives a smaller number. */
  function GetNumber(d: seq<byte>, width: nat): Parsed<nat> {
    Parsed(FromBytes(Taken(d, width)), Left(d, width))
  }

  function GetInt(d: seq<byte>): Parsed<nat> {
    GetNumber(d, 4)
  }

  function GetLong(d: seq<byte>): Parsed<nat> {
    GetNumber(d, 8)
  }

  function GetBool(d: seq<byte>): Parsed<bool> {
    Parsed(FromBytes(Taken(d, 1)) != 0, Left(d, 1))
  }

  function GetBytes(d: seq<byte>): Parsed<seq<byte>> {
    var n := GetInt(d);
    Parsed(Taken(n.rest, n.value), Left(n.rest, n.value))
  }

  function GetString(c: Codec, d: seq<byte>): Parsed<string> {
    var b := GetBytes(d);
    match c.decode(b.value)
    case None => Raised
    case Some(s) => Parsed(s, b.rest)
  }

  /** `struct.unpack` raises unless there are four bytes. */
  function GetFloat(c: Codec, d: seq<byte>): Parsed<real> {
    if |d| < 4 then Raised else Parsed(c.unpack(d[..4]), d[4..])
  }

  /** What a float is after the trip: rounded to single precision. */
  function Single(c: Codec, x: real): real
    requires c.pack(x).Some?
  {
    c.unpack(c.pack(x).value)
  }

  // ----- reading back

  lemma Chain(a: seq<byte>, b: seq<byte>, rest: seq<byte>)
    ensures (a + b) + rest == a + (b + rest)
  {
  }

  lemma TakeFront(a: seq<byte>, rest: seq<byte>)
    ensures Taken(a + rest, |a|) == a && Left(a + rest, |a|) == rest
  {
  }

  lemma NumberReads(n: int, width: nat, rest: seq<byte>)
    requires PutNumber(n, width).Some?
    ensures n >= 0 && GetNumber(PutNumber(n, width).value + rest, width) == Parsed(n as nat, rest)
  {
    BigEndianReads(n, width);
    TakeFront(BigEndian(n, width), rest);
  }

  lemma BoolReads(b: bool, rest: seq<byte>)
    ensures GetBool(PutBool(b).value + rest) == Parsed(b, rest)
  {
    var data := PutBool(b).value;
    TakeFront(data, rest);
    assert data == [data[0]] && FromBytes([]) == 0;
  }

  lemma BytesRead(b: seq<byte>, rest: seq<byte>)
    requires PutBytes(b).Some?
    ensures GetBytes(PutBytes(b).value + rest) == Parsed(b, rest)
  {
    var n := PutInt(|b|).value;
    Chain(n, b, rest);
    NumberReads(|b|, 4, b + rest);
    TakeFront(b, rest);
  }

  lemma StringReads(c: Codec, s: string, rest: seq<byte>)
    requires c.Valid() && PutString(c, s).Some?
    ensures GetString(c, PutString(c, s).value + rest) == Parsed(s, rest)
  {
    BytesRead(c.encode(s).value, rest);
  }

  lemma FloatReads(c: Codec, x: real, rest: seq<byte>)
    requires c.Valid() && PutFloat(c, x).Some?
    ensures GetFloat(c, PutFloat(c, x).value + rest) == Parsed(Single(c, x), rest)
  {
    var p := c.pack(x).value;
    assert |p| == 4 && (p + rest)[..4] == p && (p + rest)[4..] == rest;
  }

  // ----- three in a row

  function PutStrings(c: Codec, x: string, y: string, z: string): Option<seq<byte>> {
    Both(PutString(c, x), Both(PutString(c, y), PutString(c, z)))
  }

  function GetStrings(c: Codec, d: seq<byte>): Parsed<(string, string, string)> {
    match GetString(c, d)
    case Raised => Raised
    case Parsed(x, d1) =>
      match GetString(c, d1)
      case Raised => Raised
      case Parsed(y, d2) =>
        match GetString(c, d2)
        case Raised => Raised
        case Parsed(z, d3) => Parsed((x, y, z), d3)
  }

  lemma StringsRead(c: Codec, x: string, y: string, z: string, rest: seq<byte>)
    requires c.Valid() && PutStrings(c, x, y, z).Some?
    ensures GetStrings(c, PutStrings(c, x, y, z).value + rest) == Parsed((x, y, z), rest)
  {
    var a, b, d := PutString(c, x).value, PutString(c, y).value, PutString(c, z).value;
    Chain(a, b + d, rest);
    Chain(b, d, rest);
    StringReads(c, x, b + (d + rest));
    StringReads(c, y, d + rest);
    StringReads(c, z, rest);
  }

  function PutFloats(c: Codec, x: real, y: real, z: real): Option<seq<byte>> {
    Both(PutFloat(c, x), Both(PutFloat(c, y), PutFloat(c, z)))
  }

  function GetFloats(c: Codec, d: seq<byte>): Parsed<(real, real, real)> {
    match GetFloat(c, d)
    case Raised => Raised
    case Parsed(x, d1) =>
      match GetFloat(c, d1)
      case Raised => Raised
      case Parsed(y, d2) =>
        match GetFloat(c, d2)
        case Raised => Raised
        case Parsed(z, d3) => Parsed((x, y, z), d3)
  }

  lemma FloatsRead(c: Codec, x: real, y: real, z: real, rest: seq<byte>)
    requires c.Valid() && PutFloats(c, x, y, z).Some?
    ensures GetFloats(c, PutFloats(c, x, y, z).value + rest) == Parsed((Single(c, x), Single(c, y), Single(c, z)), rest)
  {
    var a, b, d := PutFloat(c, x).value, PutFloat(c, y).value, PutFloat(c, z).value;
    Chain(a, b + d, rest);
    Chain(b, d, rest);
    FloatReads(c, x, b + (d + rest));
    FloatReads(c, y, d + rest);
    FloatReads(c, z, rest);
  }
}
