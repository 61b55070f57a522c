/** What is read from bytes that no writer made: cut short, or with an id nobody has. */
module WireShort {
  import opened Subsequences
  import opened Bytes
  import opened Wire
  import opened IpcMessages

  /** A number cut short is that of the bytes there are; nothing is left. */
  lemma NumberCutShort(d: seq<byte>, width: nat)
    requires |d| < width
    ensures GetNumber(d, width) == Parsed(FromBytes(d), [])
  {
  }

  /** Any byte but zero is true, no byte is false. */
  lemma BoolOfByte(b: byte, rest: seq<byte>)
    ensures GetBool([b] + rest) == Parsed(b != 0, rest)
    ensures GetBool([]) == Parsed(false, [])
  {
    assert ([b] + rest)[..1] == [b] && ([b] + rest)[1..] == rest && DropLast([b]) == [];
    assert FromBytes([b]) == b as nat;
  }

  /** Data cut short is what there is of it. */
  lemma BytesCutShort(head: seq<byte>, tail: seq<byte>)
    requires |head| == 4
    ensures GetBytes(head + tail) ==
            if FromBytes(head) <= |tail| then Parsed(tail[..FromBytes(head)], tail[FromBytes(head)..])
                else Parsed(tail, [])
  {
    assert (head + tail)[..4] == head && (head + tail)[4..] == tail;
  }

  /** A float is four bytes or raises. */
  lemma FloatCutShort(c: Codec, d: seq<byte>)
    ensures GetFloat(c, d) == if |d| >= 4 then Parsed(c.unpack(d[..4]), d[4..]) else Raised
  {
  }

  /** An id no message has raises, whatever follows. */
  lemma UnknownIdRaises(c: Codec, id: nat, rest: seq<byte>)
    requires id < Range(4)
    ensures id > 8 ==> Read(c, BigEndian(id, 4) + rest) == Raised
    ensures id == 0 || id > 5 ==> ReadReload(c, BigEndian(id, 4) + rest) == Raised
  {
    NumberReads(id, 4, rest);
  }

  /** No bytes at all have the id zero: a request to initialize without its floats, and no reload message. */
  lemma NothingRaises(c: Codec)
    ensures Read(c, []) == Raised && ReadReload(c, []) == Raised
  {
    assert GetInt([]) == Parsed(0, []);
  }
}
