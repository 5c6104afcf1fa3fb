/**
RTMP chunks (protocol/rtmp/src/chunk/mod.rs): the headers and the message they carry,
in the terms of section 5.3.1 of the Adobe RTMP 1.0 specification.
 */
module Chunk {
  import opened Bytesio

  const CHUNK_SIZE: nat := 4096
  const INIT_CHUNK_SIZE: nat := 128
  const SET_CHUNK_SIZE: u8 := 1
  // A 24-bit timestamp field with this value says that a 32-bit field follows the header.
  const EXTENDED: u24 := 0xFFFFFF

  type Format = x: int | 0 <= x < 4

  datatype ExtendTimestampType = NoExtension | Format0 | Format12

  datatype MessageHeader = MessageHeader(
    timestamp: u32,
    length: u24,
    typeId: u8,
    streamId: u32,
    delta: u32,
    ext: ExtendTimestampType)

  datatype ChunkInfo = ChunkInfo(csid: u32, format: Format, header: MessageHeader, payload: Bytes)

  const BLANK_HEADER := MessageHeader(0, 0, 0, 0, 0, NoExtension)

  /** What a sender asks for and a receiver gets back: a chunk without the compression state. */
  datatype Message = Message(csid: u32, timestamp: u32, typeId: u8, streamId: u32, payload: Bytes) {
    // write_u24 panics on a longer length.
    predicate Valid() {
      |payload| < 0x100_0000
    }

    /** `ChunkInfo::new`, which leaves the delta at zero and the extension unset. */
    function ToChunk(): ChunkInfo
      requires Valid()
    {
      ChunkInfo(csid, 0, MessageHeader(timestamp, |payload|, typeId, streamId, 0, NoExtension), payload)
    }
  }

  function FromChunk(c: ChunkInfo): Message {
    Message(c.csid, c.header.timestamp, c.header.typeId, c.header.streamId, c.payload)
  }
}
