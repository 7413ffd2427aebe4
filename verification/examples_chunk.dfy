/** The unit tests of src/chunk.rs, stated as lemmas about the model. The
    tests pin the checksum to the literal 1432711019; here the trailing word
    is written as `Crc(...)` of the covered bytes instead, since no proof
    evaluates the checksum. */
module ChunkExamples {
  import opened Prelude
  import opened ChunkTypes
  import opened BigEndian
  import opened Crc32
  import opened Chunks
  import ChunkTypeExamples

  const Message: string := "This is where your secret message will be!"

  function RuSt(): ChunkType {
    ChunkType([82, 117, 83, 116])
  }

  /** The buffer `testing_chunk` assembles: length 42, "RuSt", the message
      and the checksum of "RuSt" followed by the message. */
  function TestingBytes(): Bytes {
    var data := AsciiBytes(Message);
    ToBeBytes(42) + RuSt().bytes + data + ToBeBytes(Crc(RuSt().bytes + data))
  }

  /** `test_new_chunk`: the message is 42 bytes long. */
  lemma NewChunkLength()
    ensures New(RuSt(), AsciiBytes(Message)).length == 42
  {
  }

  /** `testing_chunk`: the buffer parses to the chunk `Chunk::new` builds. */
  lemma TestingChunkParses()
    ensures ParseDefined(TestingBytes())
    ensures Parse(TestingBytes()) == Ok(New(RuSt(), AsciiBytes(Message)))
  {
    var data := AsciiBytes(Message);
    NewRoundTrip(RuSt(), data);
    assert TestingBytes() == Encode(New(RuSt(), data));
  }

  /** `test_chunk_length`: the parsed chunk's length is 42. */
  lemma TestingChunkLength()
    ensures ParseDefined(TestingBytes()) && Parse(TestingBytes()).Ok?
    ensures Parse(TestingBytes()).value.length == 42
  {
    TestingChunkParses();
  }

  /** `test_chunk_type`: the parsed chunk's type prints as "RuSt". */
  lemma TestingChunkType()
    ensures ParseDefined(TestingBytes()) && Parse(TestingBytes()).Ok?
    ensures IsAsciiBytes(Parse(TestingBytes()).value.chunkType.bytes)
    ensures ToString(Parse(TestingBytes()).value.chunkType) == "RuSt"
  {
    TestingChunkParses();
    assert Parse(TestingBytes()).value.chunkType == RuSt();
    ChunkTypeExamples.RuStToString();
  }

  /** `test_chunk_string`: the parsed chunk's data reads as the message. */
  lemma TestingChunkString()
    ensures ParseDefined(TestingBytes()) && Parse(TestingBytes()).Ok?
    ensures DataAsString(Parse(TestingBytes()).value) == Ok(AsciiBytes(Message))
  {
    TestingChunkParses();
    AsciiMessageReadsBack(RuSt(), AsciiBytes(Message));
  }

  /** `test_invalid_chunk_from_bytes`: the same buffer with any other
      trailing word is refused. */
  lemma InvalidChunkRejected(wrong: uint32)
    requires wrong != Crc(RuSt().bytes + AsciiBytes(Message))
    ensures ParseDefined(Encode(New(RuSt(), AsciiBytes(Message)).(crc := wrong)))
    ensures Parse(Encode(New(RuSt(), AsciiBytes(Message)).(crc := wrong))) == Err(InvalidChunk)
  {
  }

  /** A header claiming 7 bytes of data over an empty data field, with a
      type made of digits, is accepted as is. */
  lemma InconsistentHeaderAccepted()
    ensures ParseDefined(ToBeBytes(7) + [48, 49, 50, 51] + [] + ToBeBytes(Crc([48, 49, 50, 51])))
    ensures Parse(ToBeBytes(7) + [48, 49, 50, 51] + [] + ToBeBytes(Crc([48, 49, 50, 51])))
         == Ok(Chunk(7, ChunkType([48, 49, 50, 51]), [], Crc([48, 49, 50, 51])))
  {
    assert [48, 49, 50, 51] + [] == [48, 49, 50, 51];
    HeaderNotChecked(7, [48, 49, 50, 51], []);
  }
}
