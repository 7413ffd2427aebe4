# PNG chunk layer of a steganography CLI, in Dafny

This project models the chunk layer of a small Rust command-line tool that
hides text messages in PNG files as extra chunks. Two pieces are modelled.

- **`ChunkType`** (`src/chunk_type.rs`) is a four-byte chunk name. The case of
  each letter carries one PNG property bit: ancillary, private, reserved and
  safe-to-copy (section 3.3 of the PNG specification).
  - The string constructor `from_str` accepts exactly four ASCII letters.
  - The array constructor `try_from([u8; 4])` checks only that byte 2 is
    uppercase.
  - The four predicates each test the case of one byte.
- **`Chunk`** (`src/chunk.rs`) is a record of length, type, data and CRC.
  - `Chunk::new` records the data length and the checksum of `type ‖ data`.
  - `try_from(&[u8])` parses the wire layout `[len:4 BE][type:4][data][crc:4 BE]`.
    It accepts the input exactly when the trailing word equals the checksum of
    the bytes between the length word and the trailing word.

Files and modules:

| file | module | contents |
|---|---|---|
| `prelude.dfy` | `Prelude` | `uint8`, `uint32`, the crate's `Error`/`Result`, ASCII text as bytes |
| `crc.dfy` | `Crc32` | the CRC-32/MEF checksum of the `crc` crate |
| `big_endian.dfy` | `BigEndian` | `calculate_from_bytes` and `u32::to_be_bytes` |
| `utf8.dfy` | `Utf8` | well-formed UTF-8, as `str::from_utf8` decides it |
| `chunk_type.dfy` | `ChunkTypes` | `ChunkType`, its predicates and constructors |
| `chunk.dfy` | `Chunks` | `Chunk`, `new`, the wire layout, the parser, `data_as_string` |
| `examples_chunk_type.dfy` | `ChunkTypeExamples` | the unit tests of `src/chunk_type.rs` |
| `examples_chunk.dfy` | `ChunkExamples` | the unit tests of `src/chunk.rs` |

The proofs never look inside the checksum. Every property of `Chunks` holds
for any function from byte strings to `uint32`. `Crc32.Crc` has a body only
because every function needs one. That body follows the published CRC-32/MEF
parameters:
- polynomial 0x741B8CD7;
- reflected input and output;
- initial register 0xFFFFFFFF;
- no final XOR.

## Behaviour the model follows

The model follows the code. In several places the code is looser than PNG
practice:

- `try_from([u8; 4])` and `is_valid` look only at byte 2. Digits and other
  non-letters are accepted in the other three positions. `TryFromIgnoresLetters`
  shows `"11A1"` being accepted.
- `from_str` checks that every byte is a letter and that there are four bytes.
  It does not check the reserved bit, so `"Rust"` parses but is not valid.
- The chunk parser checks the CRC only. It does not compare the length word
  with the data size, does not check that the type bytes are letters, and does
  not check for truncation. `HeaderNotChecked` and `InconsistentHeaderAccepted`
  state this.
- The checksum is CRC-32/MEF, not the CRC-32/ISO-HDLC that PNG prescribes.
- `Chunk::new` stores `data.len() as u32`, which wraps modulo 2^32. The model
  writes the truncation out.

## Model

| member | source | states |
|---|---|---|
| ChunkTypes.IsValidByte | src/chunk_type.rs:52-57 | true exactly for the letters `A`..`Z` and `a`..`z`; for a letter, uppercase is the same as PNG property bit 5 being clear |
| ChunkTypes.IsCritical | src/chunk_type.rs:18-24 | true exactly when byte 0 is in `A`..`Z`; for a letter byte, this is the same as the ancillary bit being 0 |
| ChunkTypes.IsPublic | src/chunk_type.rs:26-32 | true exactly when byte 1 is in `A`..`Z`; for a letter byte, this is the same as the private bit being 0 |
| ChunkTypes.IsReservedBitValid | src/chunk_type.rs:35-41 | true exactly when byte 2 is in `A`..`Z`; for a letter byte, this is the same as the reserved bit being 0 |
| ChunkTypes.IsSafeToCopy | src/chunk_type.rs:43-49 | the negation of "byte 3 is in `A`..`Z`", so a non-letter byte also counts as safe; for a letter byte, true exactly when the safe-to-copy bit is 1 |
| ChunkTypes.IsValid | src/chunk_type.rs:62-68 | agrees with `is_reserved_bit_valid` on every type; the other bytes are ignored |
| ChunkTypes.ValidIffReservedBitValid | src/chunk_type.rs:35-41 | `is_valid` and `is_reserved_bit_valid` agree on every chunk type |
| ChunkTypes.AllValidBytes | src/chunk_type.rs:75-79 | the scan passes exactly when every byte of the input is a letter |
| ChunkTypes.FromStr | src/chunk_type.rs:73-84 | succeeds exactly when the input is four bytes that are all letters; on success the bytes are the input; otherwise the error is "not a valid string" |
| ChunkTypes.FromStrYieldsLetters | src/chunk_type.rs:73-84 | every type that `from_str` builds is four ASCII letters |
| ChunkTypes.TryFromBytes | src/chunk_type.rs:89-95 | succeeds exactly when byte 2 is in `A`..`Z`, which is exactly when `is_valid` holds; on success the bytes are the input array; otherwise the error is "bytes is invalid bytes" |
| ChunkTypes.FromStrAgreesWithTryFrom | src/chunk_type.rs:116-120 | on four-letter arrays with an uppercase byte 2, `from_str` and `try_from` build the same type |
| ChunkTypes.ToString | src/chunk_type.rs:58-60 | for ASCII bytes, gives four characters whose byte encoding is the type's bytes |
| ChunkTypes.ToStringOfFromStr | src/chunk_type.rs:186-189 | `to_string` of a type parsed by `from_str` is the original string |
| ChunkTypeExamples.RuStToString | src/chunk_type.rs:186-189 | the type `[82, 117, 83, 116]` prints as "RuSt" |
| ChunkTypeExamples.RuStFromBytesAndStr | src/chunk_type.rs:109-120 | `try_from([82, 117, 83, 116])` keeps its bytes and equals `from_str("RuSt")` |
| ChunkTypeExamples.RuStProperties | src/chunk_type.rs:122-174 | "RuSt" is critical, not public, reserved-bit-valid, safe to copy and valid |
| ChunkTypeExamples.CaseFlips | src/chunk_type.rs:128-168 | "ruSt" is not critical; "RUSt" is public; "RuST" is not safe to copy |
| ChunkTypeExamples.ReservedBitNotChecked | src/chunk_type.rs:152-183 | "Rust" parses but is neither valid nor reserved-bit-valid; "Ru1t" is rejected |
| ChunkTypeExamples.WrongLengthRejected | src/chunk_type.rs:80-82 | five letters, a short string with a digit, and the empty string are all rejected with the same error |
| ChunkTypeExamples.TryFromIgnoresLetters | src/chunk_type.rs:89-95 | `try_from` accepts "11A1", which `from_str` rejects, and refuses a lowercase byte 2 |
| BigEndian.CalculateFromBytes | src/chunk.rs:55-60 | the result is the big-endian value of the first four bytes |
| BigEndian.ToBeBytes | src/chunk.rs:108-113 | gives four bytes that `calculate_from_bytes` reads back as the same word |
| BigEndian.ToBeBytesOfCalculate | src/chunk.rs:55-60 | encoding the word read from four bytes gives those four bytes back |
| BigEndian.CalculateOfPrefix | src/chunk.rs:55-60 | bytes after the fourth do not affect the decoded word |
| Chunks.New | src/chunk.rs:20-29 | keeps the type and the data; the length is `|data|` modulo 2^32, which is `|data|` itself below 2^32; the checksum covers `type ‖ data` |
| Chunks.Encode | src/chunk.rs:102-118 | the layout is 12 bytes longer than the data; the length, type, data and checksum can each be read back from its position; the checksummed region is `type ‖ data` |
| Chunks.Parse | src/chunk.rs:76-94 | succeeds exactly when the trailing big-endian word equals the checksum of bytes 4..len-4, and is otherwise "invalid chunk"; a parsed chunk encodes back to the input byte for byte and satisfies the invariant that `new` establishes |
| Chunks.ParseFields | src/chunk.rs:81-90 | on success the type is bytes 4..8, the data is bytes 8..len-4, the length is the header word verbatim and the checksum is the trailing word |
| Chunks.ShortInputRejected | src/chunk.rs:76-80 | inputs of 8 to 11 bytes never parse |
| Chunks.ParseEncode | src/chunk.rs:158-182 | the encoding of any chunk parses exactly when its checksum is consistent, and then parses to that same chunk |
| Chunks.NewRoundTrip | src/chunk.rs:102-129 | `new(t, d)` lays out as `BE(|d|) ‖ t ‖ d ‖ BE(Crc(t ‖ d))` and parses back to itself |
| Chunks.HeaderNotChecked | src/chunk.rs:81-88 | any length word and any four type bytes are accepted verbatim when the trailing word is the right checksum |
| Chunks.CorruptedCrcRejected | src/chunk.rs:184-203 | changing the checksum word of a consistent chunk makes it fail to parse |
| Chunks.DataAsString | src/chunk.rs:47-52 | succeeds exactly when the data is well-formed UTF-8, giving the same bytes as a `String`; otherwise the error is "invalid string" |
| Chunks.AsciiMessageReadsBack | src/chunk.rs:143-149 | a chunk built from ASCII text reads back as that text |
| Utf8.AsciiIsUtf8 | src/chunk.rs:47-52 | ASCII data is well-formed UTF-8, so `from_utf8` accepts it |
| ChunkExamples.NewChunkLength | src/chunk.rs:120-129 | the test message gives a chunk of length 42 |
| ChunkExamples.TestingChunkParses | src/chunk.rs:102-118 | the test buffer parses to the chunk that `new` builds |
| ChunkExamples.TestingChunkLength | src/chunk.rs:131-135 | the parsed test chunk has length 42 |
| ChunkExamples.TestingChunkType | src/chunk.rs:137-141 | the parsed test chunk's type prints as "RuSt" |
| ChunkExamples.TestingChunkString | src/chunk.rs:143-149 | the parsed test chunk's data reads as the message |
| ChunkExamples.InvalidChunkRejected | src/chunk.rs:184-203 | the test buffer with any other trailing word is refused |
| ChunkExamples.InconsistentHeaderAccepted | src/chunk.rs:81-88 | a header claiming 7 data bytes over empty data, with a type made of digits, is accepted as is |

## Left out

- Chunks.Parse: the slices on src/chunk.rs:77, 79 and 82 panic on some short inputs. Panics are not modelled. The precondition `ParseDefined` admits exactly the inputs on which the source returns: at least 12 bytes, or 8 to 11 bytes with a checksum mismatch.
- ChunkTypes.ToString: defined only for ASCII bytes. The source unwraps `str::from_utf8` on the four bytes. Non-ASCII but valid UTF-8 type bytes are therefore not covered.
- ChunkTypes.FromStr: takes the string's bytes (`s.as_bytes()`), which are what the source inspects. UTF-8 encoding of a `&str` is not modelled. A non-ASCII character only produces bytes of 0x80 and above, which are not letters.
- Crc32.Crc: a concrete CRC-32/MEF with no contract. The values the tests pin (1432711019) are not proved. The examples write the trailing word as `Crc(...)` of the covered bytes.
- The accessors `data()`, `chunk_type()`, `length()`, `crc()` and `bytes()` are the datatype fields themselves, so they need no separate members.
- `Display` for `Chunk` and `ChunkType`: formatting only.
- The `Png` container (signature, chunk list, append before `IEND`, find, remove, `as_bytes`): `src/png.rs` is not part of this model.
- `src/commands.rs`, `src/args.rs` and `src/main.rs`: these cover file I/O, standard output and command-line parsing. `print_chunks` is unimplemented in the source.
- Chunk serialisation as a method of `Chunk` does not exist in `src/chunk.rs`. `Chunks.Encode` is the layout the tests assemble by hand.
