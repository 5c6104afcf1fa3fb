/**
The chunk reader (protocol/rtmp/src/chunk/unpacketizer.rs): a resumable machine that keeps
its place inside a header or a payload whenever the bytes run out.
 */
module ChunkUnpacketizer {
  import opened Bytesio
  import opened Chunk

  const PARSE_ERROR_NUMBER: nat := 5

  datatype ChunkReadState =
    InBasicHeader | InMessageHeader | InExtendedTimestamp | InMessagePayload | Finish

  datatype MessageHeaderReadState = ReadTimeStamp | ReadMsgLength | ReadMsgTypeId | ReadMsgStreamId

  // ---------- The machine as a function ----------

  /** The fields of the reader; `header`, `csid`, `format` and `payload` are its current chunk. */
  datatype Reader = Reader(
    buf: Bytes,
    csid: u32,
    format: Format,
    header: MessageHeader,
    payload: Bytes,
    cache: map<u32, MessageHeader>,
    state: ChunkReadState,
    field: MessageHeaderReadState,
    maxChunkSize: nat,
    parseErrors: nat)

  const NEW_READER := Reader([], 0, 0, BLANK_HEADER, [], map[], InBasicHeader, ReadTimeStamp, INIT_CHUNK_SIZE, 0)

  /** What one turn of the loop in `read_chunk` comes to. */
  datatype Outcome =
    | Advanced(r: Reader)
    | Delivered(r: Reader, chunk: ChunkInfo)
    | Starved(r: Reader)
    | Failed(r: Reader, error: Error)

  function Rank(s: ChunkReadState): nat {
    match s
    case Finish => 4
    case InMessageHeader => 3
    case InExtendedTimestamp => 2
    case InMessagePayload => 1
    case InBasicHeader => 0
  }

  /** Section 5.3.1.1: format, chunk stream id and width of the basic header in front of `buf`. */
  function ParseBasicHeader(buf: Bytes): (o: Option<(Format, u32, nat)>)
    ensures o.Some? ==> 1 <= o.value.2 <= |buf|
  {
    if |buf| < 1 then None
    else
      var format, low := buf[0] / 64, buf[0] % 64;
      if low == 0 then
        if |buf| < 2 then None else Some((format, 64 + buf[1] as int, 2))
      else if low == 1 then
        if |buf| < 3 then None else Some((format, 64 + buf[1] as int + buf[2] as int * 256, 3))
      else Some((format, low, 1))
  }

  // The bytes of an incomplete basic header are taken all the same.
  function BasicHeader(r: Reader): (o: Outcome)
    ensures !o.Delivered?
    ensures o.r.state == if o.Advanced? then InMessageHeader else r.state
    ensures r.buf == [] ==> o == Starved(r)
  {
    match ParseBasicHeader(r.buf)
    case None => Starved(r.(buf := []))
    case Some((format, csid, width)) => OnStream(r.(buf := r.buf[width..]), format, csid)
  }

  /** A change of chunk stream brings back the header last completed on it. */
  function OnStream(r: Reader, format: Format, csid: u32): Outcome {
    var known := csid in r.cache;
    if csid != r.csid && !known && format != 0 && r.parseErrors > PARSE_ERROR_NUMBER then
      Failed(r, CannotParse)
    else
      var header := if csid != r.csid && known then r.cache[csid] else r.header;
      var errors :=
        if csid == r.csid || known then r.parseErrors else if format != 0 then r.parseErrors + 1 else 0;
      Advanced(r.(
               header := if format == 0 then header.(delta := 0) else header,
               parseErrors := errors,
               csid := csid,
               format := format,
               state := InMessageHeader))
  }

  /** Section 5.3.1.2, one field at a time: each is kept as soon as it is complete. */
  function HeaderField(r: Reader): Outcome {
    match r.format
    case 0 => FullHeaderField(ForgetExtension(r))
    case 1 => DeltaHeaderField(ForgetExtension(r))
    case 2 => ShortHeaderField(ForgetExtension(r))
    case _ => Advanced(HeaderDone(r))
  }

  // Format 0: timestamp, length, type, stream id.
  function FullHeaderField(r: Reader): Outcome {
    match r.field {
      case ReadTimeStamp =>
        if |r.buf| < 3 then Starved(r)
        else Advanced(Keep(r, 3, r.header.(timestamp := FromU24Be(r.buf[..3])), ReadMsgLength))
      case ReadMsgLength =>
        if |r.buf| < 3 then Starved(r)
        else Advanced(Keep(r, 3, r.header.(length := FromU24Be(r.buf[..3])), ReadMsgTypeId))
      case ReadMsgTypeId =>
        if |r.buf| < 1 then Starved(r)
        else Advanced(Keep(r, 1, r.header.(typeId := r.buf[0]), ReadMsgStreamId))
      case ReadMsgStreamId =>
        if |r.buf| < 4 then Starved(r)
        else
          var h := r.header.(streamId := FromU32Le(r.buf[..4]));
          Advanced(HeaderDone(Keep(r, 4, Extend0(h), ReadTimeStamp)))
    }
  }

  // Format 1: timestamp delta, length, type.
  function DeltaHeaderField(r: Reader): Outcome {
    match r.field {
      case ReadTimeStamp =>
        if |r.buf| < 3 then Starved(r)
        else Advanced(Keep(r, 3, r.header.(delta := FromU24Be(r.buf[..3])), ReadMsgLength))
      case ReadMsgLength =>
        if |r.buf| < 3 then Starved(r)
        else Advanced(Keep(r, 3, r.header.(length := FromU24Be(r.buf[..3])), ReadMsgTypeId))
      case ReadMsgTypeId =>
        if |r.buf| < 1 then Starved(r)
        else
          var h := r.header.(typeId := r.buf[0]);
          Advanced(HeaderDone(Keep(r, 1, Extend12(h), ReadTimeStamp)))
      case ReadMsgStreamId =>
        Advanced(HeaderDone(r.(header := Extend12(r.header))))
    }
  }

  // Format 2: timestamp delta only.
  function ShortHeaderField(r: Reader): Outcome {
    if |r.buf| < 3 then Starved(r)
    else
      var h := r.header.(delta := FromU24Be(r.buf[..3]));
      Advanced(HeaderDone(Keep(r, 3, Extend12(h), r.field)))
  }

  // A chunk of format 3 inherits the extension; every other format starts without one.
  function ForgetExtension(r: Reader): Reader {
    if r.format == 3 then r else r.(header := r.header.(ext := NoExtension))
  }

  function Keep(r: Reader, n: nat, h: MessageHeader, next: MessageHeaderReadState): Reader
    requires n <= |r.buf|
  {
    r.(buf := r.buf[n..], header := h, field := next)
  }

  function HeaderDone(r: Reader): Reader {
    r.(state := InExtendedTimestamp)
  }

  function Extend0(h: MessageHeader): MessageHeader {
    if h.timestamp >= EXTENDED then h.(ext := Format0) else h
  }

  function Extend12(h: MessageHeader): MessageHeader {
    if h.delta >= EXTENDED then h.(ext := Format12) else h
  }

  /** Section 5.3.1.3, then the absolute timestamp of the first chunk of a message. */
  function ExtendedTimestamp(r: Reader): (o: Outcome)
    ensures o.Advanced? || o.Starved?
    ensures o.r.state == if o.Advanced? then InMessagePayload else r.state
  {
    if r.header.ext != NoExtension && |r.buf| < 4 then Starved(r)
    else
      var rest := if r.header.ext == NoExtension then r.buf else r.buf[4..];
      var h :=
        match r.header.ext
        case NoExtension => r.header
        case Format0 => r.header.(timestamp := FromU32Be(r.buf[..4]))
        case Format12 => r.header.(delta := FromU32Be(r.buf[..4]));
      var relative := r.format == 1 || r.format == 2 || (r.format == 3 && r.payload == []);
      Advanced(r.(
               buf := rest,
               header := if relative then h.(timestamp := WrappingAdd(h.timestamp, h.delta)) else h,
               state := InMessagePayload))
  }

  function WrappingAdd(a: u32, b: u32): u32 {
    (a + b) % 0x1_0000_0000
  }

  function Min(a: nat, b: nat): nat {
    if a < b then a else b
  }

  /** The payload of this chunk; a payload longer than the message underflows and panics. */
  function MessagePayload(r: Reader): (o: Outcome)
    ensures o.r.state == if o.Delivered? then Finish else if o.Advanced? then InBasicHeader else r.state
  {
    if |r.payload| > r.header.length then Failed(r, Overflow)
    else
      var remaining := r.header.length - |r.payload|;
      var need := if r.header.length > r.maxChunkSize then Min(remaining, r.maxChunkSize) else remaining;
      if |r.buf| < need then Starved(r)
      else
        var payload := r.payload + r.buf[..need];
        var r' := r.(buf := r.buf[need..]);
        if |payload| == r.header.length then
          Delivered(
            r'.(payload := [], cache := r.cache[r.csid := r.header], state := Finish),
            ChunkInfo(r.csid, r.format, r.header, payload))
        else Advanced(r'.(payload := payload, state := InBasicHeader))
  }

  /** One turn of `read_chunk`; after a delivery the loop also leaves the Finish state. */
  function Step(r: Reader): Outcome {
    match r.state
    case InBasicHeader => BasicHeader(r)
    case InMessageHeader => HeaderField(r)
    case InExtendedTimestamp => ExtendedTimestamp(r)
    case InMessagePayload =>
      var o := MessagePayload(r);
      if o.Delivered? then Delivered(o.r.(state := InBasicHeader), o.chunk) else o
    case Finish => Advanced(r.(state := InBasicHeader))
  }

  lemma StepDecreases(r: Reader)
    ensures |Step(r).r.buf| <= |r.buf|
    ensures Step(r).Advanced? || Step(r).Delivered?
            ==> |Step(r).r.buf| < |r.buf| || Rank(Step(r).r.state) < Rank(r.state)
  {
    hide FromU24Be, FromU32Be, FromU32Le, Extend0, Extend12, WrappingAdd;
  }

  /** `read_chunk`: turns until a message is complete, the bytes run out or parsing fails. */
  function RunChunk(r: Reader): (o: Outcome)
    ensures !o.Advanced?
    ensures o.Failed? ==> o.error == CannotParse || o.error == Overflow
    ensures |o.r.buf| < |r.buf| || (|o.r.buf| == |r.buf| && Rank(o.r.state) <= Rank(r.state))
    ensures o.Delivered? ==> o.r.state == InBasicHeader && (|o.r.buf| < |r.buf| || r.state != InBasicHeader)
    decreases |r.buf|, Rank(r.state)
  {
    StepDecreases(r);
    match Step(r)
    case Advanced(r') => RunChunk(r')
    case other => other
  }

  /** The loops of `read_message_header`: fields until the header is complete. */
  function RunHeader(r: Reader): (o: Outcome)
    ensures o.Advanced? || o.Starved?
    ensures |o.r.buf| <= |r.buf|
    ensures r.state == InMessageHeader ==> o.r.state == if o.Advanced? then InExtendedTimestamp else InMessageHeader
    decreases |r.buf|, Rank(r.state)
  {
    StepDecreases(r);
    if r.state != InMessageHeader then Advanced(r)
    else
      match HeaderField(r)
      case Advanced(r') => RunHeader(r')
      case other => other
  }

  lemma {:induction false} RunChunkThroughHeader(r: Reader)
    requires r.state == InMessageHeader
    ensures RunChunk(r) == match RunHeader(r) { case Advanced(r') => RunChunk(r') case other => other }
    decreases |r.buf|, Rank(r.state)
  {
    StepDecreases(r);
    var o := HeaderField(r);
    if o.Advanced? && o.r.state == InMessageHeader {
      RunChunkThroughHeader(o.r);
    }
  }

  // ---------- The session loop over it ----------

  datatype Status = Waiting | Broken

  /**
  What a session makes of the buffered bytes: the messages it hands on, the reader left
  behind, whether a basic header was cut so that its first bytes are gone, and whether
  every basic header met was of the one-byte form.
   */
  datatype Pumped = Pumped(chunks: seq<ChunkInfo>, r: Reader, status: Status, lost: bool, narrow: bool) {
    function After(c: ChunkInfo): Pumped {
      this.(chunks := [c] + chunks)
    }

    function Narrowed(b: bool): Pumped {
      this.(narrow := narrow && b)
    }
  }

  // The first byte of the basic header the machine is about to read, if it is there.
  predicate NarrowHere(r: Reader) {
    r.state == InBasicHeader && r.buf != [] ==> r.buf[0] % 64 >= 2
  }

  predicate LosesHeaderByte(r: Reader) {
    r.state == InBasicHeader && r.buf != [] && Step(r).Starved?
  }

  /** A SET_CHUNK_SIZE message takes effect before any later byte is read. */
  function Apply(r: Reader, c: ChunkInfo): Result<Reader> {
    if c.header.typeId != SET_CHUNK_SIZE then Ok(r)
    else if |c.payload| < 4 then Err(NotEnoughBytes)
    else Ok(r.(maxChunkSize := FromU32Be(c.payload[..4])))
  }

  function Pump(r: Reader): Pumped
    decreases |r.buf|, Rank(r.state)
  {
    StepDecreases(r);
    match Step(r)
    case Advanced(r') => Pump(r').Narrowed(NarrowHere(r))
    case Delivered(r', c) =>
      (match Apply(r', c)
       case Ok(r'') => Pump(r'').After(c)
       case Err(_) => Pumped([c], r', Broken, false, true))
    case Starved(r') => Pumped([], r', Waiting, LosesHeaderByte(r), !LosesHeaderByte(r))
    case Failed(r', _) => Pumped([], r', Broken, false, NarrowHere(r))
  }

  /** A session consumes one complete message at a time. */
  lemma {:induction false} PumpByChunk(r: Reader)
    ensures var o := RunChunk(r);
            match o
            case Delivered(r', c) =>
              (match Apply(r', c)
               case Ok(r'') => Pump(r).chunks == [c] + Pump(r'').chunks && Pump(r).r == Pump(r'').r && Pump(r).status == Pump(r'').status
               case Err(_) => Pump(r).chunks == [c] && Pump(r).status == Broken)
            case Starved(r') => Pump(r).chunks == [] && Pump(r).r == r' && Pump(r).status == Waiting
            case Failed(r', _) => Pump(r).chunks == [] && Pump(r).r == r' && Pump(r).status == Broken
            case Advanced(_) => false
    decreases |r.buf|, Rank(r.state)
  {
    StepDecreases(r);
    if Step(r).Advanced? {
      PumpByChunk(Step(r).r);
    }
  }

  // ---------- The machine as the source runs it ----------

  datatype UnpackResult = Success | NotEnough | Complete(chunk: ChunkInfo) | Chunks(chunks: seq<ChunkInfo>) | Empty

  /** `read_chunks`: messages up to and including a SET_CHUNK_SIZE. */
  function RunChunks(r: Reader, done: seq<ChunkInfo>): (Result<UnpackResult>, Reader)
    decreases |r.buf|, Rank(r.state)
  {
    var o := RunChunk(r);
    match o
    case Delivered(r', c) =>
      if c.header.typeId == SET_CHUNK_SIZE then (Ok(Chunks(done + [c])), r') else RunChunks(r', done + [c])
    case Failed(r', e) => (Err(e), r')
    case other => (if done == [] then Err(EmptyChunks) else Ok(Chunks(done)), other.r)
  }

  class ChunkUnpacketizer {
    const reader: BytesReader
    var csid: u32
    var format: Format
    var header: MessageHeader
    var payload: Bytes
    var chunkMessageHeaders: map<u32, MessageHeader>
    var chunkReadState: ChunkReadState
    var msgHeaderReadState: MessageHeaderReadState
    var maxChunkSize: nat
    var parseErrorNumber: nat

    function Model(): Reader
      reads this, reader
    {
      Reader(reader.buffer, csid, format, header, payload, chunkMessageHeaders,
             chunkReadState, msgHeaderReadState, maxChunkSize, parseErrorNumber)
    }

    constructor ()
      ensures fresh(reader) && Model() == NEW_READER
    {
      reader := new BytesReader([]);
      csid, format, header, payload := 0, 0, BLANK_HEADER, [];
      chunkMessageHeaders := map[];
      chunkReadState, msgHeaderReadState := InBasicHeader, ReadTimeStamp;
      maxChunkSize, parseErrorNumber := INIT_CHUNK_SIZE, 0;
    }

    method ExtendData(data: Bytes)
      modifies reader
      ensures Model() == old(Model()).(buf := old(Model()).buf + data)
    {
      reader.ExtendFromSlice(data);
    }

    method UpdateMaxChunkSize(chunkSize: nat)
      modifies this
      ensures Model() == old(Model()).(maxChunkSize := chunkSize)
    {
      maxChunkSize := chunkSize;
    }

    method ReadChunks() returns (res: Result<UnpackResult>)
      requires chunkReadState != Finish
      modifies this, reader
      ensures (res, Model()) == RunChunks(old(Model()), [])
      ensures chunkReadState != Finish
    {
      var chunks: seq<ChunkInfo> := [];
      while true
        invariant RunChunks(Model(), chunks) == RunChunks(old(Model()), [])
        invariant chunkReadState != Finish
        decreases |reader.buffer|, Rank(chunkReadState)
      {
        var chunk := ReadChunk();
        match chunk
        case Ok(Complete(c)) =>
          chunks := chunks + [c];
          if c.header.typeId == SET_CHUNK_SIZE {
            return Ok(Chunks(chunks));
          }
        case Err(CannotParse) =>
          return Err(CannotParse);
        case Err(Overflow) =>
          // The subtraction panics and takes the session's task with it.
          return Err(Overflow);
        case _ =>
          break;
      }
      if chunks != [] {
        return Ok(Chunks(chunks));
      } else {
        return Err(EmptyChunks);
      }
    }

    method ReadChunk() returns (res: Result<UnpackResult>)
      requires chunkReadState != Finish
      modifies this, reader
      ensures Model() == RunChunk(old(Model())).r
      ensures chunkReadState != Finish
      ensures match RunChunk(old(Model()))
              case Delivered(_, c) => res == Ok(Complete(c))
              case Failed(_, e) => res == Err(e)
              case _ => res == Err(NotEnoughBytes)
    {
      hide BasicHeader, HeaderField, ExtendedTimestamp, MessagePayload;
      res := Ok(Empty);
      while true
        invariant chunkReadState == Finish ==>
                    res.Ok? && res.value.Complete? &&
                    RunChunk(old(Model())) == Delivered(Model().(state := InBasicHeader), res.value.chunk)
        invariant chunkReadState != Finish ==> RunChunk(Model()) == RunChunk(old(Model()))
        decreases |reader.buffer|, if chunkReadState == Finish then 0 else 1 + Rank(chunkReadState)
      {
        StepDecreases(Model());
        match chunkReadState
        case InBasicHeader =>
          var r :- ReadBasicHeader();
          res := Ok(r);
        case InMessageHeader =>
          RunChunkThroughHeader(Model());
          var r :- ReadMessageHeader();
          res := Ok(r);
        case InExtendedTimestamp =>
          var r :- ReadExtendedTimestamp();
          res := Ok(r);
        case InMessagePayload =>
          var r :- ReadMessagePayload();
          res := Ok(r);
        case Finish =>
          chunkReadState := InBasicHeader;
          break;
      }
    }

    method ReadBasicHeader() returns (res: Result<UnpackResult>)
      requires chunkReadState == InBasicHeader
      modifies this, reader
      ensures Model() == BasicHeader(old(Model())).r
      ensures match BasicHeader(old(Model()))
              case Advanced(_) => res == Ok(Success)
              case Failed(_, e) => res == Err(e)
              case _ => res == Err(NotEnoughBytes) || (res == Ok(NotEnough) && reader.buffer == [] != old(reader.buffer))
    {
      hide OnStream;
      var byte :- reader.ReadU8();
      var formatId: Format := byte / 64;
      var id: u32 := byte % 64;
      match id {
        case 0 =>
          if reader.buffer == [] {
            return Ok(NotEnough);
          }
          var second := reader.ReadU8();
          id := 64 + second.value as int;
        case 1 =>
          if reader.buffer == [] {
            return Ok(NotEnough);
          }
          var second := reader.ReadU8();
          var third :- reader.ReadU8();
          id := 64 + second.value as int + third as int * 256;
        case _ =>
      }
      res := SelectStream(formatId, id);
    }

    method SelectStream(formatId: Format, id: u32) returns (res: Result<UnpackResult>)
      requires chunkReadState == InBasicHeader
      modifies this
      ensures match OnStream(old(Model()), formatId, id)
              case Advanced(r) => res == Ok(Success) && Model() == r
              case Failed(r, e) => res == Err(e) && Model() == r
              case _ => false
    {
      if id != csid {
        if id in chunkMessageHeaders {
          header := chunkMessageHeaders[id];
        } else if formatId != 0 {
          if parseErrorNumber > PARSE_ERROR_NUMBER {
            return Err(CannotParse);
          }
          parseErrorNumber := parseErrorNumber + 1;
        } else {
          parseErrorNumber := 0;
        }
      }
      if formatId == 0 {
        header := header.(delta := 0);
      }
      csid := id;
      format := formatId;
      chunkReadState := InMessageHeader;
      return Ok(Success);
    }

    method ReadMessageHeader() returns (res: Result<UnpackResult>)
      requires chunkReadState == InMessageHeader
      modifies this, reader
      ensures Model() == RunHeader(old(Model())).r
      ensures res == if RunHeader(old(Model())).Advanced? then Ok(Success) else Err(NotEnoughBytes)
    {
      ghost var before := Model();
      if format != 3 {
        header := header.(ext := NoExtension);
      }
      match format {
        case 0 =>
          var _ :- ReadFullHeader(before);
        case 1 =>
          var _ :- ReadDeltaHeader(before);
        case 2 =>
          var x :- reader.ReadU24Be();
          header := header.(delta := x);
          if header.delta >= EXTENDED {
            header := header.(ext := Format12);
          }
          chunkReadState := InExtendedTimestamp;
        case _ =>
          chunkReadState := InExtendedTimestamp;
      }
      return Ok(Success);
    }

    /** Format 0: timestamp, length, type and stream id. */
    method ReadFullHeader(ghost before: Reader) returns (res: Result<UnpackResult>)
      requires chunkReadState == InMessageHeader && format == 0
      requires Model() == ForgetExtension(before)
      modifies this, reader
      ensures Model() == RunHeader(before).r
      ensures res == if RunHeader(before).Advanced? then Ok(Success) else Err(NotEnoughBytes)
    {
      while true
        invariant RunHeader(Model()) == RunHeader(before)
        invariant chunkReadState == InMessageHeader && format == 0 && header.ext == NoExtension
        decreases |reader.buffer|
      {
        match msgHeaderReadState
        case ReadTimeStamp =>
          var x :- reader.ReadU24Be();
          header := header.(timestamp := x);
          msgHeaderReadState := ReadMsgLength;
        case ReadMsgLength =>
          var x :- reader.ReadU24Be();
          header := header.(length := x);
          msgHeaderReadState := ReadMsgTypeId;
        case ReadMsgTypeId =>
          var x :- reader.ReadU8();
          header := header.(typeId := x);
          msgHeaderReadState := ReadMsgStreamId;
        case ReadMsgStreamId =>
          var x :- reader.ReadU32Le();
          header := header.(streamId := x);
          msgHeaderReadState := ReadTimeStamp;
          break;
      }
      if header.timestamp >= EXTENDED {
        header := header.(ext := Format0);
      }
      chunkReadState := InExtendedTimestamp;
      return Ok(Success);
    }

    /** Format 1: timestamp delta, length and type. */
    method ReadDeltaHeader(ghost before: Reader) returns (res: Result<UnpackResult>)
      requires chunkReadState == InMessageHeader && format == 1
      requires Model() == ForgetExtension(before)
      modifies this, reader
      ensures Model() == RunHeader(before).r
      ensures res == if RunHeader(before).Advanced? then Ok(Success) else Err(NotEnoughBytes)
    {
      while true
        invariant RunHeader(Model()) == RunHeader(before)
        invariant chunkReadState == InMessageHeader && format == 1 && header.ext == NoExtension
        decreases |reader.buffer|
      {
        match msgHeaderReadState
        case ReadTimeStamp =>
          var x :- reader.ReadU24Be();
          header := header.(delta := x);
          msgHeaderReadState := ReadMsgLength;
        case ReadMsgLength =>
          var x :- reader.ReadU24Be();
          header := header.(length := x);
          msgHeaderReadState := ReadMsgTypeId;
        case ReadMsgTypeId =>
          var x :- reader.ReadU8();
          header := header.(typeId := x);
          msgHeaderReadState := ReadTimeStamp;
          break;
        case ReadMsgStreamId =>
          break;
      }
      if header.delta >= EXTENDED {
        header := header.(ext := Format12);
      }
      chunkReadState := InExtendedTimestamp;
      return Ok(Success);
    }

    method ReadExtendedTimestamp() returns (res: Result<UnpackResult>)
      requires chunkReadState == InExtendedTimestamp
      modifies this, reader
      ensures Model() == ExtendedTimestamp(old(Model())).r
      ensures match ExtendedTimestamp(old(Model()))
              case Advanced(_) => res == Ok(Success)
              case _ => res == Err(NotEnoughBytes)
    {
      match header.ext {
        case Format0 =>
          var x :- reader.ReadU32Be();
          header := header.(timestamp := x);
        case Format12 =>
          var x :- reader.ReadU32Be();
          header := header.(delta := x);
        case NoExtension =>
      }
      if format == 1 || format == 2 || (format == 3 && payload == []) {
        header := header.(timestamp := WrappingAdd(header.timestamp, header.delta));
      }
      chunkReadState := InMessagePayload;
      return Ok(Success);
    }

    method ReadMessagePayload() returns (res: Result<UnpackResult>)
      requires chunkReadState == InMessagePayload
      modifies this, reader
      ensures Model() == MessagePayload(old(Model())).r
      ensures match MessagePayload(old(Model()))
              case Advanced(_) => res == Ok(Success)
              case Delivered(_, c) => res == Ok(Complete(c))
              case Failed(_, e) => res == Err(e)
              case _ => res == Err(NotEnoughBytes)
    {
      var wholeLength: nat := header.length;
      if wholeLength < |payload| {
        return Err(Overflow);
      }
      var remaining := wholeLength - |payload|;
      var need := remaining;
      if wholeLength > maxChunkSize {
        need := Min(remaining, maxChunkSize);
      }
      var data :- reader.ReadBytes(need);
      payload := payload + data;
      if |payload| == wholeLength {
        chunkReadState := Finish;
        var chunkInfo := ChunkInfo(csid, format, header, payload);
        payload := [];
        chunkMessageHeaders := chunkMessageHeaders[csid := header];
        return Ok(Complete(chunkInfo));
      }
      chunkReadState := InBasicHeader;
      return Ok(Success);
    }
  }
}
