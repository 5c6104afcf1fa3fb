/**
The chunk writer (protocol/rtmp/src/chunk/packetizer.rs): headers are compressed against the
last message of the same chunk stream, payloads are cut into chunks of the agreed size.
 */
module ChunkPacketizer {
  import opened Bytesio
  import opened Chunk

  // ---------- What a message becomes ----------

  datatype ChunkHeader = ChunkHeader(format: Format, message: MessageHeader)

  type Headers = map<u32, ChunkHeader>

  /** Formats 1 to 3 leave out what the previous message of the chunk stream already said. */
  function Zip(headers: Headers, c: ChunkInfo): ChunkInfo {
    if c.csid !in headers then c.(format := 0)
    else
      var pre, cur := headers[c.csid].message, c.header;
      if cur.timestamp < pre.timestamp || cur.streamId != pre.streamId then c.(format := 0)
      else
        var delta: u32 := cur.timestamp - pre.timestamp;
        var format :=
          if cur.typeId != pre.typeId || cur.length != pre.length then 1
          else if delta != pre.delta then 2
          else 3;
        c.(format := format, header := cur.(delta := delta))
  }

  function Remember(headers: Headers, zipped: ChunkInfo): Headers {
    headers[zipped.csid := ChunkHeader(zipped.format, zipped.header)]
  }

  function BasicHeaderBytes(format: Format, csid: u32): Bytes {
    if csid >= 64 + 255 then [format * 64 + 1] + U16Be((csid - 64) % 0x1_0000)
    else if csid >= 64 then [format * 64, csid - 64]
    else [format * 64 + csid]
  }

  /** The timestamp or delta of a header, and what follows it when 24 bits do not hold it. */
  function TimestampField(c: ChunkInfo): (Option<u32>, u24) {
    match c.format
    case 0 => Capped(c.header.timestamp)
    case 3 => (None, 0)
    case _ => Capped(c.header.delta)
  }

  function Capped(t: u32): (Option<u32>, u24) {
    if t >= EXTENDED then (Some(t), EXTENDED) else (None, t)
  }

  function MessageHeaderBytes(c: ChunkInfo): Bytes {
    var (_, t) := TimestampField(c);
    match c.format
    case 0 => U24Be(t) + U24Be(c.header.length) + [c.header.typeId] + U32Le(c.header.streamId)
    case 1 => U24Be(t) + U24Be(c.header.length) + [c.header.typeId]
    case 2 => U24Be(t)
    case _ => []
  }

  function ExtensionBytes(ext: Option<u32>): Bytes {
    match ext
    case None => []
    case Some(t) => U32Be(t)
  }

  /** A payload behind `lead`, cut after every `size` bytes; every later piece follows `sep`. */
  function Cut(lead: Bytes, sep: Bytes, payload: Bytes, size: nat): seq<Bytes>
    requires size > 0
    decreases |payload|
  {
    if |payload| <= size then [lead + payload]
    else [lead + payload[..size]] + Cut(sep, sep, payload[size..], size)
  }

  function Lead(zipped: ChunkInfo): Bytes {
    BasicHeaderBytes(zipped.format, zipped.csid) + MessageHeaderBytes(zipped) + ExtensionBytes(TimestampField(zipped).0)
  }

  function Separator(zipped: ChunkInfo): Bytes {
    BasicHeaderBytes(3, zipped.csid) + ExtensionBytes(TimestampField(zipped).0)
  }

  /** The chunks of one message. */
  function Chunks(headers: Headers, c: ChunkInfo, size: nat): seq<Bytes>
    requires size > 0
  {
    var z := Zip(headers, c);
    Cut(Lead(z), Separator(z), z.payload, size)
  }

  function Encode(headers: Headers, c: ChunkInfo, size: nat): Bytes
    requires size > 0
  {
    Flatten(Chunks(headers, c, size))
  }

  lemma CutLead(lead: Bytes, sep: Bytes, payload: Bytes, size: nat)
    requires size > 0
    ensures Flatten(Cut(lead, sep, payload, size)) == lead + Flatten(Cut([], sep, payload, size))
  {
    assert [] + payload == payload;
    if |payload| > size {
      var tail := Cut(sep, sep, payload[size..], size);
      assert ([lead + payload[..size]] + tail)[1..] == tail;
      assert ([[] + payload[..size]] + tail)[1..] == tail;
      assert lead + payload[..size] + Flatten(tail) == lead + (payload[..size] + Flatten(tail));
    }
  }

  // One turn of the loop over the payload.
  lemma CutStep(sep: Bytes, payload: Bytes, size: nat)
    requires size > 0 && payload != []
    ensures Flatten(Cut([], sep, payload, size)) ==
            if |payload| <= size then payload
            else payload[..size] + sep + Flatten(Cut([], sep, payload[size..], size))
  {
    assert [] + payload == payload;
    if |payload| > size {
      var tail := Cut(sep, sep, payload[size..], size);
      assert ([[] + payload[..size]] + tail)[1..] == tail;
      CutLead(sep, sep, payload[size..], size);
    } else {
      assert [payload][1..] == [];
    }
  }

  lemma Regroup(a: Bytes, b: Bytes, c: Bytes, d: Bytes, e: Bytes)
    ensures a + b + c + d + e == a + (b + (c + d) + e)
  {
  }

  lemma CutEmpty(sep: Bytes, size: nat)
    requires size > 0
    ensures Flatten(Cut([], sep, [], size)) == []
  {
    var none: Bytes := [];
    assert none + none == none;
    assert Cut([], sep, [], size) == [none];
    assert [none][1..] == [];
  }

  // ---------- The writer ----------

  class ChunkPacketizer {
    const writer: BytesWriter
    var csid2ChunkHeader: Headers
    var maxChunkSize: nat
    var extendedTimestamp: Option<u32>
    // What `flush` has handed to the connection.
    ghost var sent: Bytes

    constructor ()
      ensures fresh(writer) && writer.bytes == [] && sent == []
      ensures csid2ChunkHeader == map[] && maxChunkSize == 4096 && extendedTimestamp == None
    {
      writer := new BytesWriter();
      csid2ChunkHeader, maxChunkSize, extendedTimestamp, sent := map[], CHUNK_SIZE, None, [];
    }

    method ZipChunkHeader(c: ChunkInfo) returns (z: ChunkInfo)
      // The source asserts this of the first message of a chunk stream.
      requires c.csid !in csid2ChunkHeader ==> c.header.delta == 0
      modifies this`csid2ChunkHeader
      ensures z == Zip(old(csid2ChunkHeader), c)
      ensures csid2ChunkHeader == Remember(old(csid2ChunkHeader), z)
    {
      z := c.(format := 0);
      if c.csid in csid2ChunkHeader {
        var pre := csid2ChunkHeader[c.csid].message;
        var cur := z.header;
        if cur.timestamp < pre.timestamp {
          // Only a warning: the message goes out with a full header.
        } else if cur.streamId == pre.streamId {
          z := z.(format := 1, header := cur.(delta := cur.timestamp - pre.timestamp));
          if cur.typeId == pre.typeId && cur.length == pre.length {
            z := z.(format := 2);
            if z.header.delta == pre.delta {
              z := z.(format := 3);
            }
          }
        }
      }
      csid2ChunkHeader := csid2ChunkHeader[z.csid := ChunkHeader(z.format, z.header)];
    }

    method WriteBasicHeader(format: Format, csid: u32)
      modifies writer
      ensures writer.bytes == old(writer.bytes) + BasicHeaderBytes(format, csid)
    {
      if csid >= 64 + 255 {
        writer.WriteU8(format * 64 + 1);
        writer.WriteU16Be((csid - 64) % 0x1_0000);
      } else if csid >= 64 {
        writer.WriteU8(format * 64);
        writer.WriteU8(csid - 64);
      } else {
        writer.WriteU8(format * 64 + csid);
      }
    }

    method WriteMessageHeader(c: ChunkInfo)
      modifies this`extendedTimestamp, writer
      ensures writer.bytes == old(writer.bytes) + MessageHeaderBytes(c)
      ensures extendedTimestamp == TimestampField(c).0
    {
      var field: u24 := 0;
      match c.format {
        case 0 =>
          if c.header.timestamp >= EXTENDED {
            extendedTimestamp, field := Some(c.header.timestamp), EXTENDED;
          } else {
            extendedTimestamp, field := None, c.header.timestamp;
          }
        case 3 =>
          extendedTimestamp, field := None, 0;
        case _ =>
          if c.header.delta >= EXTENDED {
            extendedTimestamp, field := Some(c.header.delta), EXTENDED;
          } else {
            extendedTimestamp, field := None, c.header.delta;
          }
      }
      match c.format {
        case 0 =>
          writer.WriteU24Be(field);
          writer.WriteU24Be(c.header.length);
          writer.WriteU8(c.header.typeId);
          writer.WriteU32Le(c.header.streamId);
        case 1 =>
          writer.WriteU24Be(field);
          writer.WriteU24Be(c.header.length);
          writer.WriteU8(c.header.typeId);
        case 2 =>
          writer.WriteU24Be(field);
        case _ =>
      }
    }

    method WriteExtension()
      modifies writer
      ensures writer.bytes == old(writer.bytes) + ExtensionBytes(extendedTimestamp)
    {
      match extendedTimestamp
      case Some(t) => writer.WriteU32Be(t);
      case None =>
    }

    method WriteChunk(c: ChunkInfo)
      requires writer.bytes == []
      requires maxChunkSize > 0
      requires c.csid !in csid2ChunkHeader ==> c.header.delta == 0
      modifies this`csid2ChunkHeader, this`extendedTimestamp, this`sent, writer
      ensures writer.bytes == []
      ensures sent == old(sent) + Encode(old(csid2ChunkHeader), c, maxChunkSize)
      ensures csid2ChunkHeader == Remember(old(csid2ChunkHeader), Zip(old(csid2ChunkHeader), c))
    {
      hide Separator, Zip, BasicHeaderBytes, MessageHeaderBytes, ExtensionBytes, TimestampField;
      var z := ZipChunkHeader(c);
      WriteBasicHeader(z.format, z.csid);
      WriteMessageHeader(z);
      WriteExtension();
      WritePayload(z);
      CutLead(Lead(z), Separator(z), z.payload, maxChunkSize);
      sent := sent + writer.bytes;
      var _ := writer.ExtractCurrentBytes();
    }

    method WritePayload(z: ChunkInfo)
      requires maxChunkSize > 0 && extendedTimestamp == TimestampField(z).0
      modifies writer
      ensures writer.bytes == old(writer.bytes) + Flatten(Cut([], Separator(z), z.payload, maxChunkSize))
    {
      ghost var start, sep := writer.bytes, Separator(z);
      assert sep == BasicHeaderBytes(3, z.csid) + ExtensionBytes(extendedTimestamp);
      hide TimestampField, BasicHeaderBytes, ExtensionBytes, Cut, Flatten, Separator;
      var rest := z.payload;
      CutEmpty(sep, maxChunkSize);
      while |rest| > 0
        invariant writer.bytes + Flatten(Cut([], sep, rest, maxChunkSize)) ==
                  start + Flatten(Cut([], sep, z.payload, maxChunkSize))
      {
        ghost var before, was := writer.bytes, rest;
        CutStep(sep, rest, maxChunkSize);
        var size := if |rest| > maxChunkSize then maxChunkSize else |rest|;
        writer.Write(rest[..size]);
        rest := rest[size..];
        if |rest| > 0 {
          WriteBasicHeader(3, z.csid);
          WriteExtension();
          Regroup(before, was[..size], BasicHeaderBytes(3, z.csid), ExtensionBytes(extendedTimestamp),
                  Flatten(Cut([], sep, rest, maxChunkSize)));
        }
      }
    }
  }
}
