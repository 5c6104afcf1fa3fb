/**
Writer and reader together: what a chunk reader in step with the writer makes of the
chunks of any run of messages.
 */
module ChunkRoundTrip {
  import opened Bytesio
  import opened Chunk
  import opened ChunkPacketizer
  import U = ChunkUnpacketizer
  import opened ChunkSplit

  // ---------- Basic header ----------

  /** The chunk stream ids whose basic header the reader understands as the writer meant it. */
  predicate CsidAgreed(csid: u32) {
    2 <= csid <= 318 || (319 <= csid < 0x1_0040 && (csid - 64) % 257 == 0)
  }

  /**
  The three-byte form is written high byte first and read low byte first, so beyond 318 it
  comes back only when its two bytes are equal; ids 0 and 1 are read as escape codes.
   */
  lemma BasicHeaderRoundTrip(format: Format, csid: u32, rest: Bytes)
    ensures var b := BasicHeaderBytes(format, csid);
            U.ParseBasicHeader(b + rest) == Some((format, csid, |b|)) <==> CsidAgreed(csid)
  {
    var b := BasicHeaderBytes(format, csid);
    var buf := b + rest;
    if csid >= 319 {
      var x := (csid - 64) % 0x1_0000;
      assert buf[0] == format * 64 + 1 && buf[1] == x / 0x100 && buf[2] == x % 0x100;
      assert (buf[0] / 64, buf[0] % 64) == (format, 1);
      assert x == 257 * (x / 0x100) + (x % 0x100 - x / 0x100);
    } else if csid >= 64 {
      assert buf[0] == format * 64 && buf[1] == csid - 64;
      assert (buf[0] / 64, buf[0] % 64) == (format, 0);
    } else {
      assert buf[0] == format * 64 + csid;
      assert (buf[0] / 64, buf[0] % 64) == (format, csid);
    }
  }

  lemma CsidWidth(format: Format, csid: u32)
    requires CsidAgreed(csid)
    ensures BasicHeaderBytes(format, csid)[0] % 64 >= 2 <==> csid < 64
  {
  }

  // ---------- In step ----------

  /** The extension the reader remembers for a chunk stream whose last header was this one. */
  function Extension(h: ChunkHeader): ExtendTimestampType {
    match h.format
    case 0 => if h.message.timestamp >= EXTENDED then Format0 else NoExtension
    case 3 => NoExtension
    case _ => if h.message.delta >= EXTENDED then Format12 else NoExtension
  }

  function Remembered(h: ChunkHeader): MessageHeader {
    h.message.(ext := Extension(h))
  }

  /** Between two messages, with a header cache that mirrors the writer's chunk stream by chunk stream. */
  ghost predicate Synced(headers: Headers, r: U.Reader) {
    && r.state == U.InBasicHeader && r.field == U.ReadTimeStamp && r.payload == []
    && headers.Keys == r.cache.Keys
    && (forall id | id in headers :: r.cache[id] == Remembered(headers[id]))
    && (if r.csid in r.cache then r.header == r.cache[r.csid] else r.csid == 0)
  }

  /** A message sent in format 3 right after a header that carried an extended timestamp. */
  predicate DropsExtension(headers: Headers, c: ChunkInfo) {
    Zip(headers, c).format == 3 && c.csid in headers && Extension(headers[c.csid]) != NoExtension
  }

  /** The reader at the payload of a message whose first header it has read. */
  function Opened(r: U.Reader, z: ChunkInfo, rest: Bytes): U.Reader {
    r.(buf := rest,
       csid := z.csid,
       format := z.format,
       header := Remembered(ChunkHeader(z.format, z.header)),
       parseErrors := if z.csid == r.csid || z.csid in r.cache then r.parseErrors else 0,
       state := U.InMessagePayload)
  }

  lemma PumpThroughHeader(r: U.Reader)
    requires r.state == U.InMessageHeader
    ensures U.RunHeader(r).Advanced? ==> U.Pump(r) == U.Pump(U.RunHeader(r).r)
    decreases |r.buf|, U.Rank(r.state)
  {
    U.StepDecreases(r);
    var o := U.HeaderField(r);
    if o.Advanced? && o.r.state == U.InMessageHeader {
      PumpThroughHeader(o.r);
    }
  }

  // ---------- Reading back each part of a chunk ----------

  function BasicRead(r: U.Reader, z: ChunkInfo, rest: Bytes): U.Reader {
    var known := if z.csid in r.cache then r.cache[z.csid] else r.header;
    Opened(r, z, rest).(
      header := if z.format == 0 then known.(delta := 0) else known,
      state := U.InMessageHeader)
  }

  lemma BasicHeaderRead(headers: Headers, r: U.Reader, c: ChunkInfo, rest: Bytes)
    requires Synced(headers, r) && CsidAgreed(c.csid)
    ensures var z := Zip(headers, c);
            U.Pump(r.(buf := BasicHeaderBytes(z.format, z.csid) + rest)) ==
            U.Pump(BasicRead(r, z, rest)).Narrowed(c.csid < 64)
  {
    var z := Zip(headers, c);
    var b := BasicHeaderBytes(z.format, z.csid);
    var a := r.(buf := b + rest);
    BasicHeaderRoundTrip(z.format, z.csid, rest);
    CsidWidth(z.format, z.csid);
    assert a.buf[0] == b[0];
    TakeDrop(b, rest);
    assert U.OnStream(r.(buf := rest), z.format, z.csid) == U.Advanced(BasicRead(r, z, rest));
    assert U.Step(a) == U.Advanced(BasicRead(r, z, rest));
  }

  // Reading one field off the front of the buffer.
  lemma FrontU24(x: u24, rest: Bytes)
    ensures var b := U24Be(x) + rest; b[..3] == U24Be(x) && b[3..] == rest && FromU24Be(b[..3]) == x
  {
    U24RoundTrip(x);
  }

  lemma FrontU32(x: u32, rest: Bytes)
    ensures var b := U32Be(x) + rest; b[..4] == U32Be(x) && b[4..] == rest && FromU32Be(b[..4]) == x
    ensures var b := U32Le(x) + rest; b[..4] == U32Le(x) && b[4..] == rest && FromU32Le(b[..4]) == x
  {
    U32RoundTrip(x);
  }

  lemma FullHeaderRead(r: U.Reader, t: u24, length: u24, typeId: u8, streamId: u32, rest: Bytes)
    requires r.state == U.InMessageHeader && r.field == U.ReadTimeStamp && r.format == 0
    ensures U.RunHeader(r.(buf := U24Be(t) + (U24Be(length) + ([typeId] + (U32Le(streamId) + rest))))) ==
            U.Advanced(r.(
                         buf := rest,
                         header := U.Extend0(MessageHeader(t, length, typeId, streamId, r.header.delta, NoExtension)),
                         state := U.InExtendedTimestamp))
  {
    var b3 := U32Le(streamId) + rest;
    var b2 := [typeId] + b3;
    var b1 := U24Be(length) + b2;
    FrontU24(t, b1);
    FrontU24(length, b2);
    FrontU32(streamId, rest);
    assert b2[0] == typeId && b2[1..] == b3;
    hide U24Be, U32Le, FromU24Be, FromU32Le, U.Extend0;
    var r1 := r.(buf := b1, header := r.header.(timestamp := t, ext := NoExtension), field := U.ReadMsgLength);
    assert U.HeaderField(r.(buf := U24Be(t) + b1)) == U.Advanced(r1);
    var r2 := r1.(buf := b2, header := r1.header.(length := length), field := U.ReadMsgTypeId);
    assert U.HeaderField(r1) == U.Advanced(r2);
    var r3 := r2.(buf := b3, header := r2.header.(typeId := typeId), field := U.ReadMsgStreamId);
    assert U.HeaderField(r2) == U.Advanced(r3);
    var r4 := r3.(buf := rest, header := U.Extend0(r3.header.(streamId := streamId)), field := U.ReadTimeStamp, state := U.InExtendedTimestamp);
    assert U.HeaderField(r3) == U.Advanced(r4);
    hide U.HeaderField;
    assert U.RunHeader(r4) == U.Advanced(r4);
    assert U.RunHeader(r3) == U.RunHeader(r4);
    assert U.RunHeader(r2) == U.RunHeader(r3);
    assert U.RunHeader(r1) == U.RunHeader(r2);
  }

  lemma DeltaHeaderRead(r: U.Reader, t: u24, length: u24, typeId: u8, rest: Bytes)
    requires r.state == U.InMessageHeader && r.field == U.ReadTimeStamp && r.format == 1
    ensures U.RunHeader(r.(buf := U24Be(t) + (U24Be(length) + ([typeId] + rest)))) ==
            U.Advanced(r.(
                         buf := rest,
                         header := U.Extend12(r.header.(delta := t, length := length, typeId := typeId, ext := NoExtension)),
                         state := U.InExtendedTimestamp))
  {
    var b2 := [typeId] + rest;
    var b1 := U24Be(length) + b2;
    FrontU24(t, b1);
    FrontU24(length, b2);
    assert b2[0] == typeId && b2[1..] == rest;
    hide U24Be, FromU24Be, U.Extend12;
    var r1 := r.(buf := b1, header := r.header.(delta := t, ext := NoExtension), field := U.ReadMsgLength);
    assert U.HeaderField(r.(buf := U24Be(t) + b1)) == U.Advanced(r1);
    var r2 := r1.(buf := b2, header := r1.header.(length := length), field := U.ReadMsgTypeId);
    assert U.HeaderField(r1) == U.Advanced(r2);
    var r3 := r2.(buf := rest, header := U.Extend12(r2.header.(typeId := typeId)), field := U.ReadTimeStamp, state := U.InExtendedTimestamp);
    assert U.HeaderField(r2) == U.Advanced(r3);
    hide U.HeaderField;
    assert U.RunHeader(r3) == U.Advanced(r3);
    assert U.RunHeader(r2) == U.RunHeader(r3);
    assert U.RunHeader(r1) == U.RunHeader(r2);
  }

  lemma ShortHeaderRead(r: U.Reader, t: u24, rest: Bytes)
    requires r.state == U.InMessageHeader && r.format == 2
    ensures U.RunHeader(r.(buf := U24Be(t) + rest)) ==
            U.Advanced(r.(
                         buf := rest,
                         header := U.Extend12(r.header.(delta := t, ext := NoExtension)),
                         state := U.InExtendedTimestamp))
  {
    FrontU24(t, rest);
  }

  /** The reader between the message header and the extended timestamp. */
  function HalfRead(headers: Headers, r: U.Reader, z: ChunkInfo, rest: Bytes): U.Reader
    requires z.format != 0 ==> z.csid in headers
  {
    var o := Opened(r, z, rest);
    var t := TimestampField(z).1;
    o.(header :=
         match z.format
         case 0 => o.header.(timestamp := t)
         case 3 => o.header.(timestamp := headers[z.csid].message.timestamp)
         case _ => o.header.(timestamp := headers[z.csid].message.timestamp, delta := t),
       state := U.InExtendedTimestamp)
  }

  lemma MessageHeaderRead(headers: Headers, r: U.Reader, m: Message, rest: Bytes)
    requires m.Valid() && Synced(headers, r) && !DropsExtension(headers, m.ToChunk())
    ensures var z := Zip(headers, m.ToChunk());
            U.Pump(BasicRead(r, z, MessageHeaderBytes(z) + rest)) == U.Pump(HalfRead(headers, r, z, rest))
  {
    hide U.RunHeader;
    var z := Zip(headers, m.ToChunk());
    PumpThroughHeader(BasicRead(r, z, MessageHeaderBytes(z) + rest));
    if z.format == 0 {
      FullHeaderRuns(headers, r, m, rest);
    } else {
      ZippedHeaderRuns(headers, r, m, rest);
    }
  }

  lemma FullHeaderRuns(headers: Headers, r: U.Reader, m: Message, rest: Bytes)
    requires m.Valid() && Synced(headers, r) && Zip(headers, m.ToChunk()).format == 0
    ensures var z := Zip(headers, m.ToChunk());
            U.RunHeader(BasicRead(r, z, MessageHeaderBytes(z) + rest)) == U.Advanced(HalfRead(headers, r, z, rest))
  {
    hide U.RunHeader, U24Be, U32Le;
    var z := Zip(headers, m.ToChunk());
    assert z == m.ToChunk();
    var a, t := BasicRead(r, z, MessageHeaderBytes(z) + rest), TimestampField(z).1;
    FullHeaderRead(a.(buf := []), t, z.header.length, z.header.typeId, z.header.streamId, rest);
    assert a.buf == U24Be(t) + (U24Be(z.header.length) + ([z.header.typeId] + (U32Le(z.header.streamId) + rest)));
  }

  lemma ZippedHeaderRuns(headers: Headers, r: U.Reader, m: Message, rest: Bytes)
    requires m.Valid() && Synced(headers, r) && Zip(headers, m.ToChunk()).format != 0
    requires !DropsExtension(headers, m.ToChunk())
    ensures var z := Zip(headers, m.ToChunk());
            U.RunHeader(BasicRead(r, z, MessageHeaderBytes(z) + rest)) == U.Advanced(HalfRead(headers, r, z, rest))
  {
    hide U.RunHeader, U24Be, U32Le;
    var z := Zip(headers, m.ToChunk());
    var a, t := BasicRead(r, z, MessageHeaderBytes(z) + rest), TimestampField(z).1;
    match z.format
    case 1 =>
      DeltaHeaderRead(a.(buf := []), t, z.header.length, z.header.typeId, rest);
      assert a.buf == U24Be(t) + (U24Be(z.header.length) + ([z.header.typeId] + rest));
    case 2 =>
      ShortHeaderRead(a, t, rest);
    case _ =>
      InheritedHeaderRead(a);
      assert a.buf == rest;
  }

  lemma InheritedHeaderRead(r: U.Reader)
    requires r.state == U.InMessageHeader && r.format == 3
    ensures U.RunHeader(r) == U.Advanced(r.(state := U.InExtendedTimestamp))
  {
  }

  /** The reader past an extended timestamp field that holds `ext`. */
  function Extended(o: U.Reader, ext: Option<u32>, rest: Bytes): U.Reader {
    var h :=
      if ext.None? then o.header
      else if o.header.ext == Format0 then o.header.(timestamp := ext.value)
      else o.header.(delta := ext.value);
    var relative := o.format == 1 || o.format == 2 || (o.format == 3 && o.payload == []);
    o.(buf := rest,
       header := if relative then h.(timestamp := U.WrappingAdd(h.timestamp, h.delta)) else h,
       state := U.InMessagePayload)
  }

  lemma ExtensionFieldRead(o: U.Reader, ext: Option<u32>, rest: Bytes)
    requires ext.None? <==> o.header.ext == NoExtension
    requires o.buf == ExtensionBytes(ext) + rest
    ensures U.ExtendedTimestamp(o) == U.Advanced(Extended(o, ext, rest))
  {
    if ext.Some? {
      FrontU32(ext.value, rest);
    }
    hide U32Be, FromU32Be, U.WrappingAdd;
  }

  lemma ExtensionRestores(headers: Headers, r: U.Reader, m: Message, rest: Bytes)
    requires m.Valid() && Synced(headers, r) && !DropsExtension(headers, m.ToChunk())
    ensures var z := Zip(headers, m.ToChunk());
            var ext := TimestampField(z).0;
            var a := HalfRead(headers, r, z, ExtensionBytes(ext) + rest);
            (ext.None? <==> a.header.ext == NoExtension) && Extended(a, ext, rest) == Opened(r, z, rest)
  {
    assert r.payload == [];
    hide Synced, ExtensionBytes;
    var z := Zip(headers, m.ToChunk());
    if z.format == 0 {
      assert z == m.ToChunk();
    } else {
      assert U.WrappingAdd(headers[z.csid].message.timestamp, z.header.delta) == z.header.timestamp;
    }
  }

  lemma ExtensionRead(headers: Headers, r: U.Reader, m: Message, rest: Bytes)
    requires m.Valid() && Synced(headers, r) && !DropsExtension(headers, m.ToChunk())
    ensures var z := Zip(headers, m.ToChunk());
            U.Pump(HalfRead(headers, r, z, ExtensionBytes(TimestampField(z).0) + rest)) == U.Pump(Opened(r, z, rest))
  {
    var z := Zip(headers, m.ToChunk());
    var ext := TimestampField(z).0;
    var a := HalfRead(headers, r, z, ExtensionBytes(ext) + rest);
    ExtensionRestores(headers, r, m, rest);
    hide Zip, Synced, DropsExtension, TimestampField, Extended, Opened, U.ExtendedTimestamp, ExtensionBytes;
    ExtensionFieldRead(a, ext, rest);
    assert U.Step(a) == U.Advanced(Opened(r, z, rest));
  }

  /** A reader in step with the writer, in front of the first chunk of a message. */
  lemma LeadRead(headers: Headers, r: U.Reader, m: Message, rest: Bytes)
    requires m.Valid() && CsidAgreed(m.csid)
    requires Synced(headers, r) && !DropsExtension(headers, m.ToChunk())
    ensures var z := Zip(headers, m.ToChunk());
            U.Pump(r.(buf := Lead(z) + rest)) == U.Pump(Opened(r, z, rest)).Narrowed(m.csid < 64)
  {
    var z := Zip(headers, m.ToChunk());
    var b, h, e := BasicHeaderBytes(z.format, z.csid), MessageHeaderBytes(z), ExtensionBytes(TimestampField(z).0);
    assert Lead(z) + rest == b + (h + (e + rest));
    BasicHeaderRead(headers, r, m.ToChunk(), h + (e + rest));
    MessageHeaderRead(headers, r, m, e + rest);
    ExtensionRead(headers, r, m, rest);
  }

  // ---------- Reading back the payload ----------

  /** The sizes the two sides cut at: equal, or both large enough for the whole payload. */
  predicate SizesAgree(size: nat, maxChunkSize: nat, length: nat) {
    size > 0 && (maxChunkSize == size || (length <= size && length <= maxChunkSize))
  }

  /** What a session does with a complete message. */
  function Handed(r: U.Reader, c: ChunkInfo): U.Pumped {
    match U.Apply(r, c)
    case Ok(r') => U.Pump(r').After(c)
    case Err(_) => U.Pumped([c], r, U.Broken, false, true)
  }

  function Closed(o: U.Reader, format: Format, rest: Bytes): U.Reader {
    o.(buf := rest, format := format, payload := [], cache := o.cache[o.csid := o.header], state := U.InBasicHeader)
  }

  lemma SeparatorRead(o: U.Reader, z: ChunkInfo, rest: Bytes)
    requires o.state == U.InBasicHeader && o.payload != []
    requires CsidAgreed(z.csid) && o.csid == z.csid
    requires o.header == Remembered(ChunkHeader(z.format, z.header))
    ensures U.Pump(o.(buf := Separator(z) + rest)) ==
            U.Pump(o.(buf := rest, format := 3, state := U.InMessagePayload)).Narrowed(z.csid < 64)
  {
    var b, e := BasicHeaderBytes(3, z.csid), ExtensionBytes(TimestampField(z).0);
    var a := o.(buf := b + (e + rest));
    assert Separator(z) + rest == b + (e + rest);
    BasicHeaderRoundTrip(3, z.csid, e + rest);
    CsidWidth(3, z.csid);
    assert a.buf[0] == b[0];
    TakeDrop(b, e + rest);
    var a1 := o.(buf := e + rest, format := 3, state := U.InMessageHeader);
    assert U.BasicHeader(a) == U.Advanced(a1);
    var a2 := a1.(state := U.InExtendedTimestamp);
    InheritedHeaderRead(a1);
    PumpThroughHeader(a1);
    SeparatorExtensionRead(a2, z, rest);
    hide U.BasicHeader, U.ExtendedTimestamp, U.RunHeader, U.HeaderField;
    assert U.Pump(a) == U.Pump(a1).Narrowed(z.csid < 64);
  }

  lemma SeparatorExtensionRead(o: U.Reader, z: ChunkInfo, rest: Bytes)
    requires o.payload != [] && o.format == 3
    requires o.header == Remembered(ChunkHeader(z.format, z.header))
    requires o.buf == ExtensionBytes(TimestampField(z).0) + rest
    ensures U.ExtendedTimestamp(o) == U.Advanced(o.(buf := rest, state := U.InMessagePayload))
  {
    ExtensionFieldRead(o, TimestampField(z).0, rest);
    hide U.ExtendedTimestamp;
  }

  // A chunk that is not the last of its message fills the agreed size.
  lemma ChunkFilled(o: U.Reader, piece: Bytes, tail: Bytes)
    requires o.state == U.InMessagePayload
    requires |o.payload| + |piece| < o.header.length
    requires |piece| == o.maxChunkSize
    ensures U.Pump(o.(buf := piece + tail)) ==
            U.Pump(o.(buf := tail, payload := o.payload + piece, state := U.InBasicHeader))
  {
    TakeDrop(piece, tail);
    assert U.MessagePayload(o.(buf := piece + tail)) ==
           U.Advanced(o.(buf := tail, payload := o.payload + piece, state := U.InBasicHeader));
  }

  lemma LastChunkFilled(o: U.Reader, size: nat, piece: Bytes, rest: Bytes)
    requires o.state == U.InMessagePayload
    requires |o.payload| + |piece| == o.header.length
    requires |piece| <= size && SizesAgree(size, o.maxChunkSize, o.header.length)
    ensures U.Pump(o.(buf := piece + rest)) ==
            Handed(Closed(o, o.format, rest), ChunkInfo(o.csid, o.format, o.header, o.payload + piece))
  {
    TakeDrop(piece, rest);
    assert U.MessagePayload(o.(buf := piece + rest)) ==
           U.Delivered(Closed(o, o.format, rest).(state := U.Finish), ChunkInfo(o.csid, o.format, o.header, o.payload + piece));
  }

  lemma Regroup3(a: Bytes, b: Bytes, c: Bytes, bc: Bytes)
    requires bc == b + c
    ensures a + b + c == a + bc
  {
  }

  lemma {:induction false} BodyRead(o: U.Reader, z: ChunkInfo, size: nat, left: Bytes, rest: Bytes)
    requires o.state == U.InMessagePayload
    requires CsidAgreed(z.csid) && o.csid == z.csid
    requires o.header == Remembered(ChunkHeader(z.format, z.header))
    requires o.header.length == |o.payload| + |left|
    requires SizesAgree(size, o.maxChunkSize, o.header.length)
    ensures var format := if |left| <= size then o.format else 3;
            U.Pump(o.(buf := Flatten(Cut([], Separator(z), left, size)) + rest)) ==
            Handed(Closed(o, format, rest), ChunkInfo(o.csid, format, o.header, o.payload + left))
            .Narrowed(|left| <= size || z.csid < 64)
    decreases |left|
  {
    hide Separator, Cut, Flatten, Remembered, U.Pump, Handed;
    var sep := Separator(z);
    if left == [] {
      CutEmpty(sep, size);
    } else {
      CutStep(sep, left, size);
    }
    if |left| <= size {
      LastChunkFilled(o, size, left, rest);
    } else {
      var piece, more := left[..size], left[size..];
      var body := Flatten(Cut([], sep, more, size));
      Concat4(piece, sep, body, rest);
      Regroup3(o.payload, piece, more, left);
      ChunkFilled(o, piece, sep + (body + rest));
      var b := o.(payload := o.payload + piece, state := U.InBasicHeader);
      SeparatorRead(b, z, body + rest);
      BodyRead(b.(format := 3, state := U.InMessagePayload), z, size, more, rest);
    }
  }

  // ---------- One message ----------

  /** The format of the chunk a message ends with. */
  function LastFormat(z: ChunkInfo, size: nat): Format {
    if |z.payload| <= size then z.format else 3
  }

  function Received(headers: Headers, m: Message, size: nat): ChunkInfo
    requires m.Valid()
  {
    var z := Zip(headers, m.ToChunk());
    ChunkInfo(z.csid, LastFormat(z, size), Remembered(ChunkHeader(z.format, z.header)), z.payload)
  }

  function AfterMessage(headers: Headers, r: U.Reader, m: Message, size: nat, rest: Bytes): (r': U.Reader)
    requires m.Valid()
    ensures r'.buf == rest && r'.maxChunkSize == r.maxChunkSize
  {
    var z := Zip(headers, m.ToChunk());
    Closed(Opened(r, z, rest), LastFormat(z, size), rest)
  }

  // The header cache stays the mirror image of the writer's.
  lemma StaysSynced(headers: Headers, r: U.Reader, m: Message, size: nat, rest: Bytes)
    requires m.Valid() && Synced(headers, r)
    ensures FromChunk(Received(headers, m, size)) == m
    ensures Synced(Remember(headers, Zip(headers, m.ToChunk())), AfterMessage(headers, r, m, size, rest))
  {
  }

  lemma MessagePumped(headers: Headers, r: U.Reader, m: Message, size: nat, rest: Bytes)
    requires m.Valid() && CsidAgreed(m.csid)
    requires Synced(headers, r) && !DropsExtension(headers, m.ToChunk())
    requires SizesAgree(size, r.maxChunkSize, |m.payload|)
    ensures U.Pump(r.(buf := Encode(headers, m.ToChunk(), size) + rest)) ==
            Handed(AfterMessage(headers, r, m, size, rest), Received(headers, m, size)).Narrowed(m.csid < 64)
  {
    var z := Zip(headers, m.ToChunk());
    assert z.payload == m.payload && z.csid == m.csid && z.header.length == |m.payload|;
    var body := Flatten(Cut([], Separator(z), m.payload, size));
    CutLead(Lead(z), Separator(z), m.payload, size);
    assert Encode(headers, m.ToChunk(), size) == Lead(z) + body;
    hide Lead, Separator, Cut, Flatten, Zip, Encode;
    Regroup3(Lead(z), body, rest, body + rest);
    LeadRead(headers, r, m, body + rest);
    var o := Opened(r, z, []);
    Regroup3([], m.payload, [], m.payload);
    BodyRead(o, z, size, m.payload, rest);
    assert o.(buf := body + rest) == Opened(r, z, body + rest);
    hide U.Pump;
    PayloadFromNothing(m.payload);
  }

  lemma PayloadFromNothing(b: Bytes)
    ensures [] + b == b
  {
  }

  /** The reader hands on the message it was sent and is in step with the writer again. */
  lemma MessageRoundTrip(headers: Headers, r: U.Reader, m: Message, size: nat, rest: Bytes)
    requires m.Valid() && CsidAgreed(m.csid)
    requires Synced(headers, r) && !DropsExtension(headers, m.ToChunk())
    requires SizesAgree(size, r.maxChunkSize, |m.payload|)
    ensures U.Pump(r.(buf := Encode(headers, m.ToChunk(), size) + rest)) ==
            Handed(AfterMessage(headers, r, m, size, rest), Received(headers, m, size)).Narrowed(m.csid < 64)
    ensures FromChunk(Received(headers, m, size)) == m
    ensures Synced(Remember(headers, Zip(headers, m.ToChunk())), AfterMessage(headers, r, m, size, rest))
  {
    hide *;
    MessagePumped(headers, r, m, size, rest);
    StaysSynced(headers, r, m, size, rest);
  }
}
