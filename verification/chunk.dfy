/** The chunk record of src/chunk.rs: construction from a type and data,
    the wire layout `[length: 4 BE][type: 4][data][crc: 4 BE]`, and the
    CRC-gated parser `TryFrom<&[u8]>`. */
module Chunks {
  import opened Prelude
  import opened ChunkTypes
  import opened BigEndian
  import opened Crc32
  import Utf8

  /** `struct Chunk`. The fields are the accessors `length()`,
      `chunk_type()`, `data()` and `crc()`, which hand them back unchanged.
      Nothing ties `length` to `|data|` or `crc` to the other fields: a
      parsed chunk carries whatever its header said. */
  datatype Chunk = Chunk(length: uint32, chunkType: ChunkType, data: Bytes, crc: uint32)

  const InvalidChunk := Error("invalid chunk")
  const InvalidString := Error("invalid string")

  /** The checksum field covers the type and the data, not the length. */
  predicate CrcConsistent(c: Chunk) {
    c.crc == Crc(c.chunkType.bytes + c.data)
  }

  /** `Chunk::new`: keeps the type and the data, records the data length
      truncated to 32 bits (`data.len() as u32`) and the checksum of
      `type ‖ data`. */
  function New(chunkType: ChunkType, data: Bytes): (c: Chunk)
    ensures c.chunkType == chunkType && c.data == data
    ensures c.length as int == |data| % 0x1_0000_0000
    ensures |data| < 0x1_0000_0000 ==> c.length as int == |data|
    ensures CrcConsistent(c)
  {
    var concated := chunkType.bytes + data;
    var checksum := Crc(concated);
    Chunk((|data| % 0x1_0000_0000) as uint32, chunkType, data, checksum)
  }

  /** The wire layout the source's tests assemble: the length, the type,
      the data and the checksum, each word big-endian. Every field can be
      read back from its position. */
  function Encode(c: Chunk): (r: Bytes)
    ensures |r| == 12 + |c.data|
    ensures CalculateFromBytes(r[..4]) == c.length
    ensures r[4..8] == c.chunkType.bytes
    ensures r[8..|r| - 4] == c.data
    ensures CalculateFromBytes(r[|r| - 4..]) == c.crc
    ensures r[4..|r| - 4] == c.chunkType.bytes + c.data
  {
    var r := ToBeBytes(c.length) + c.chunkType.bytes + c.data + ToBeBytes(c.crc);
    assert r[..4] == ToBeBytes(c.length);
    assert r[|r| - 4..] == ToBeBytes(c.crc);
    r
  }

  /** The trailing word of a would-be chunk: the checksum it claims. */
  function ProvidedCrc(bytes: Bytes): uint32
    requires |bytes| >= 4
  {
    CalculateFromBytes(bytes[|bytes| - 4..])
  }

  /** The checksum of everything between the length word and the trailing word. */
  function ComputedCrc(bytes: Bytes): uint32
    requires |bytes| >= 8
  {
    Crc(bytes[4..|bytes| - 4])
  }

  /** The inputs on which `try_from` returns rather than panics: with fewer
      than 8 bytes the slice `bytes[4..len-4]` is out of order, and with 8
      to 11 bytes the data slice `bytes[8..len-4]` is, but it is only taken
      once the checksums agree. */
  predicate ParseDefined(bytes: Bytes) {
    |bytes| >= 12 || (|bytes| >= 8 && ProvidedCrc(bytes) != ComputedCrc(bytes))
  }

  /** `TryFrom<&[u8]>::try_from`: accepts exactly when the trailing
      big-endian word equals the checksum of `bytes[4..len-4]`, and then
      loses nothing: the chunk encodes back to the input and keeps the
      invariant `Chunk::new` establishes. Neither the length word nor the
      type letters are checked. */
  function Parse(bytes: Bytes): (r: Result<Chunk>)
    requires ParseDefined(bytes)
    ensures r.Ok? <==> ProvidedCrc(bytes) == ComputedCrc(bytes)
    ensures r.Ok? ==> Encode(r.value) == bytes && CrcConsistent(r.value)
    ensures r.Err? ==> r.error == InvalidChunk
  {
    var originalCrc := ProvidedCrc(bytes);
    var checksum := ComputedCrc(bytes);
    if originalCrc == checksum then
      var length := CalculateFromBytes(bytes[0..4]);
      var data := bytes[8..|bytes| - 4];
      var chunkType: Quad := bytes[4..8];
      var c := Chunk(length, ChunkType(chunkType), data, checksum);
      ToBeBytesOfCalculate(bytes[0..4]);
      ToBeBytesOfCalculate(bytes[|bytes| - 4..]);
      assert bytes == bytes[0..4] + bytes[4..8] + data + bytes[|bytes| - 4..];
      assert bytes[4..|bytes| - 4] == chunkType + data;
      Ok(c)
    else
      Err(InvalidChunk)
  }

  /** `data_as_string`: the data as a `String`, i.e. as the same bytes once
      they are known to be UTF-8; any other data is an error. */
  function DataAsString(c: Chunk): (r: Result<Bytes>)
    ensures r.Ok? <==> Utf8.IsUtf8(c.data)
    ensures r.Ok? ==> r.value == c.data
    ensures r.Err? ==> r.error == InvalidString
  {
    if Utf8.IsUtf8(c.data) then Ok(c.data) else Err(InvalidString)
  }

  /** On success the fields are read off their positions: the type is bytes
      4..8, the data is everything up to the trailing word, the length is
      the header word verbatim and the checksum is the trailing word. */
  lemma ParseFields(bytes: Bytes)
    requires ParseDefined(bytes) && Parse(bytes).Ok?
    ensures |bytes| >= 12
    ensures Parse(bytes).value.chunkType.bytes == bytes[4..8]
    ensures Parse(bytes).value.data == bytes[8..|bytes| - 4]
    ensures Parse(bytes).value.length as int == BigEndianValue(bytes[..4])
    ensures Parse(bytes).value.crc == ProvidedCrc(bytes)
  {
    var c := Parse(bytes).value;
    assert Encode(c) == bytes;
    assert bytes[..4][..4] == bytes[..4];
  }

  /** Inputs of 8 to 11 bytes never parse. */
  lemma ShortInputRejected(bytes: Bytes)
    requires ParseDefined(bytes) && |bytes| < 12
    ensures Parse(bytes) == Err(InvalidChunk)
  {
  }

  /** Parsing the encoding of any chunk succeeds exactly when its checksum
      is consistent, and then gives the chunk back. */
  lemma ParseEncode(c: Chunk)
    ensures ParseDefined(Encode(c))
    ensures Parse(Encode(c)).Ok? <==> CrcConsistent(c)
    ensures CrcConsistent(c) ==> Parse(Encode(c)) == Ok(c)
  {
  }

  /** The round trip the tests exercise: a chunk built by `Chunk::new` is
      laid out as `BE(|data|) ‖ type ‖ data ‖ BE(crc)` and parses back to
      itself. */
  lemma NewRoundTrip(chunkType: ChunkType, data: Bytes)
    requires |data| < 0x1_0000_0000
    ensures Encode(New(chunkType, data))
         == ToBeBytes(|data| as uint32) + chunkType.bytes + data
            + ToBeBytes(Crc(chunkType.bytes + data))
    ensures ParseDefined(Encode(New(chunkType, data)))
    ensures Parse(Encode(New(chunkType, data))) == Ok(New(chunkType, data))
  {
  }

  /** The header word is taken verbatim and the type bytes are not
      validated: any length word and any four type bytes parse, as long as
      the trailing word is the checksum of `type ‖ data`. */
  lemma HeaderNotChecked(length: uint32, typeBytes: Quad, data: Bytes)
    ensures ParseDefined(ToBeBytes(length) + typeBytes + data + ToBeBytes(Crc(typeBytes + data)))
    ensures Parse(ToBeBytes(length) + typeBytes + data + ToBeBytes(Crc(typeBytes + data)))
         == Ok(Chunk(length, ChunkType(typeBytes), data, Crc(typeBytes + data)))
  {
    ParseEncode(Chunk(length, ChunkType(typeBytes), data, Crc(typeBytes + data)));
  }

  /** Changing the checksum of a consistent chunk makes its encoding fail
      to parse. */
  lemma CorruptedCrcRejected(c: Chunk, wrong: uint32)
    requires CrcConsistent(c) && wrong != c.crc
    ensures ParseDefined(Encode(c.(crc := wrong)))
    ensures Parse(Encode(c.(crc := wrong))) == Err(InvalidChunk)
  {
  }

  /** A chunk built from ASCII text reads back as that text. */
  lemma AsciiMessageReadsBack(chunkType: ChunkType, message: Bytes)
    requires IsAsciiBytes(message)
    ensures DataAsString(New(chunkType, message)) == Ok(message)
  {
    Utf8.AsciiIsUtf8(message);
  }
}
