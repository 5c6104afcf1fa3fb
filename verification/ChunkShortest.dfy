/**
How far the writer compresses: which bytes in front of a payload a reader decodes to the same message, and when the ones
written are the shortest of them.
 */
module ChunkShortest {
  import opened Bytesio
  import opened Chunk
  import opened ChunkPacketizer
  import U = ChunkUnpacketizer
  import opened ChunkRoundTrip
  import opened ChunkCuts

  // ---------- What a reader makes of a lead ----------

  /** The reader past basic header, message header and extended timestamp, if they are all there. */
  function Led(r: U.Reader): Option<U.Reader> {
    match U.BasicHeader(r)
    case Advanced(a) =>
      (match U.RunHeader(a)
       case Advanced(h) => (match U.ExtendedTimestamp(h) case Advanced(o) => Some(o) case _ => None)
       case _ => None)
    case _ => None
  }

  /** The bytes are all header, and the header is that of the message. */
  predicate DecodesTo(r: U.Reader, b: Bytes, m: Message) {
    var o := Led(r.(buf := b));
    && o.Some? && o.value.buf == [] && o.value.csid == m.csid
    && o.value.header.timestamp == m.timestamp && o.value.header.length == |m.payload|
    && o.value.header.typeId == m.typeId && o.value.header.streamId == m.streamId
  }

  /** The header a chunk on this chunk stream takes over what it leaves out from. */
  function Inherited(r: U.Reader, csid: u32): MessageHeader {
    if csid != r.csid && csid in r.cache then r.cache[csid] else r.header
  }

  /** The step from the inherited timestamp to that of the message, modulo 2^32. */
  function Gap(h: MessageHeader, m: Message): u32 {
    (m.timestamp - h.timestamp) % 0x1_0000_0000
  }

  function Extra(t: u32): nat {
    if t >= EXTENDED then 4 else 0
  }

  predicate SameKind(h: MessageHeader, m: Message) {
    h.length == |m.payload| && h.typeId == m.typeId
  }

  /** How many bytes behind the basic header a lead of this format takes, if one can say the message at all. */
  function Needs(h: MessageHeader, m: Message, format: Format): Option<nat> {
    match format
    case 0 => Some(11 + Extra(m.timestamp))
    case 1 => if h.streamId == m.streamId then Some(7 + Extra(Gap(h, m))) else None
    case 2 => if h.streamId == m.streamId && SameKind(h, m) then Some(3 + Extra(Gap(h, m))) else None
    case _ =>
      if h.streamId != m.streamId || !SameKind(h, m) then None
      else if h.ext != NoExtension then Some(4)
      else if h.delta == Gap(h, m) then Some(0)
      else None
  }

  /** A reader gives up on a chunk stream it does not know once it has seen too many. */
  predicate Accepts(r: U.Reader, csid: u32, format: Format) {
    csid == r.csid || csid in r.cache || format == 0 || r.parseErrors <= U.PARSE_ERROR_NUMBER
  }

  // ---------- No lead takes less ----------

  lemma BasicTakes(r: U.Reader, b: Bytes)
    requires U.BasicHeader(r.(buf := b)).Advanced? && CsidAgreed(U.BasicHeader(r.(buf := b)).r.csid)
    ensures var a := U.BasicHeader(r.(buf := b)).r;
            && |a.buf| + HeaderWidth(a.csid) <= |b| && Accepts(r, a.csid, a.format)
            && a.header == (if a.format == 0 then Inherited(r, a.csid).(delta := 0) else Inherited(r, a.csid))
            && a.field == r.field && a.payload == r.payload && a.state == U.InMessageHeader
  {
  }

  lemma RunOn(a: U.Reader)
    ensures U.RunHeader(a) == if a.state != U.InMessageHeader then U.Advanced(a)
                              else match U.HeaderField(a) { case Advanced(next) => U.RunHeader(next) case other => other }
  {
    hide U.HeaderField;
    U.StepDecreases(a);
  }

  /** One field of a full header. */
  lemma FullField(a: U.Reader)
    requires a.state == U.InMessageHeader && a.format == 0
    ensures var o := U.HeaderField(a);
            var width := match a.field { case ReadTimeStamp => 3 case ReadMsgLength => 3 case ReadMsgTypeId => 1 case ReadMsgStreamId => 4 };
            && (o.Advanced? || o.Starved?)
            && (o.Advanced? ==>
                  && |o.r.buf| + width == |a.buf| && o.r.format == 0 && o.r.csid == a.csid && o.r.payload == a.payload
                  && o.r.state == (if a.field == U.ReadMsgStreamId then U.InExtendedTimestamp else U.InMessageHeader)
                  && o.r.field == (match a.field { case ReadTimeStamp => U.ReadMsgLength case ReadMsgLength => U.ReadMsgTypeId
                                                   case ReadMsgTypeId => U.ReadMsgStreamId case ReadMsgStreamId => U.ReadTimeStamp })
                  && (a.field == U.ReadMsgStreamId ==>
                        o.r.header.ext == if o.r.header.timestamp >= EXTENDED then Format0 else NoExtension))
  {
    hide FromU24Be, FromU32Le;
  }

  lemma FullTakes(a: U.Reader)
    requires a.state == U.InMessageHeader && a.field == U.ReadTimeStamp && a.format == 0 && U.RunHeader(a).Advanced?
    ensures var h := U.RunHeader(a).r;
            && |h.buf| + 11 == |a.buf| && h.format == 0 && h.csid == a.csid && h.payload == a.payload
            && h.header.ext == (if h.header.timestamp >= EXTENDED then Format0 else NoExtension)
  {
    hide U.HeaderField, U.RunHeader;
    RunOn(a);
    FullField(a);
    var r1 := U.HeaderField(a).r;
    RunOn(r1);
    FullField(r1);
    var r2 := U.HeaderField(r1).r;
    RunOn(r2);
    FullField(r2);
    var r3 := U.HeaderField(r2).r;
    RunOn(r3);
    FullField(r3);
    RunOn(U.HeaderField(r3).r);
  }

  /** One field of a header that leaves out the message stream id. */
  lemma DeltaField(a: U.Reader)
    requires a.state == U.InMessageHeader && a.format == 1 && a.field != U.ReadMsgStreamId
    ensures var o := U.HeaderField(a);
            && (o.Advanced? || o.Starved?)
            && (o.Advanced? ==>
                  && |o.r.buf| + (if a.field == U.ReadMsgTypeId then 1 else 3) == |a.buf|
                  && o.r.format == 1 && o.r.csid == a.csid && o.r.payload == a.payload
                  && o.r.header.streamId == a.header.streamId && o.r.header.timestamp == a.header.timestamp
                  && o.r.state == (if a.field == U.ReadMsgTypeId then U.InExtendedTimestamp else U.InMessageHeader)
                  && o.r.field == (match a.field { case ReadTimeStamp => U.ReadMsgLength case ReadMsgLength => U.ReadMsgTypeId
                                                   case _ => U.ReadTimeStamp })
                  && (a.field == U.ReadMsgTypeId ==>
                        o.r.header.ext == if o.r.header.delta >= EXTENDED then Format12 else NoExtension))
  {
    hide FromU24Be;
  }

  lemma DeltaTakes(a: U.Reader)
    requires a.state == U.InMessageHeader && a.field == U.ReadTimeStamp && a.format == 1 && U.RunHeader(a).Advanced?
    ensures var h := U.RunHeader(a).r;
            && |h.buf| + 7 == |a.buf| && h.format == 1 && h.csid == a.csid && h.payload == a.payload
            && h.header.streamId == a.header.streamId && h.header.timestamp == a.header.timestamp
            && h.header.ext == (if h.header.delta >= EXTENDED then Format12 else NoExtension)
  {
    hide U.HeaderField, U.RunHeader;
    RunOn(a);
    DeltaField(a);
    var r1 := U.HeaderField(a).r;
    RunOn(r1);
    DeltaField(r1);
    var r2 := U.HeaderField(r1).r;
    RunOn(r2);
    DeltaField(r2);
    RunOn(U.HeaderField(r2).r);
  }

  lemma ShortTakes(a: U.Reader)
    requires a.state == U.InMessageHeader && a.format >= 2 && U.RunHeader(a).Advanced?
    ensures var h := U.RunHeader(a).r;
            && |h.buf| + (if a.format == 2 then 3 else 0) == |a.buf| && h.format == a.format && h.csid == a.csid && h.payload == a.payload
            && h.header == a.header.(delta := h.header.delta, ext := h.header.ext)
            && (a.format == 2 ==> h.header.ext == (if h.header.delta >= EXTENDED then Format12 else NoExtension))
            && (a.format == 3 ==> h.header == a.header)
  {
    hide FromU24Be;
  }

  lemma WrapIsGap(from: u32, delta: u32, to: u32)
    ensures U.WrappingAdd(from, delta) == to <==> delta == (to - from) % 0x1_0000_0000
  {
  }

  lemma ExtensionTakes(h: U.Reader)
    requires h.payload == [] && U.ExtendedTimestamp(h).Advanced?
    ensures var o := U.ExtendedTimestamp(h).r;
            var extra := if h.header.ext != NoExtension then 4 else 0;
            && |o.buf| + extra == |h.buf| && o.csid == h.csid && o.header.length == h.header.length
            && o.header.typeId == h.header.typeId && o.header.streamId == h.header.streamId
            && (h.header.ext == NoExtension ==>
                  o.header.timestamp == if h.format == 0 then h.header.timestamp else U.WrappingAdd(h.header.timestamp, h.header.delta))
  {
    hide FromU32Be, U.WrappingAdd;
  }

  /** A lead the reader decodes to the message takes no less than its format needs. */
  lemma NoneTakesLess(r: U.Reader, b: Bytes, m: Message)
    requires r.field == U.ReadTimeStamp && r.payload == [] && CsidAgreed(m.csid) && DecodesTo(r, b, m)
    ensures exists format: Format ::
              Accepts(r, m.csid, format) && Needs(Inherited(r, m.csid), m, format).Some?
              && |b| >= HeaderWidth(m.csid) + Needs(Inherited(r, m.csid), m, format).value
  {
    hide U.BasicHeader, U.RunHeader, U.ExtendedTimestamp, CsidAgreed, HeaderWidth, U.WrappingAdd;
    var a := U.BasicHeader(r.(buf := b)).r;
    var h := U.RunHeader(a).r;
    HeaderKeepsCsid(a);
    ExtensionKeepsCsid(h);
    BasicTakes(r, b);
    if a.format == 0 {
      FullTakes(a);
    } else if a.format == 1 {
      DeltaTakes(a);
    } else {
      ShortTakes(a);
    }
    ExtensionTakes(h);
    WrapIsGap(h.header.timestamp, h.header.delta, m.timestamp);
    assert Needs(Inherited(r, m.csid), m, a.format).Some?;
  }

  lemma {:induction false} HeaderKeepsCsid(a: U.Reader)
    ensures U.RunHeader(a).r.csid == a.csid && U.RunHeader(a).r.payload == a.payload
    decreases |a.buf|, U.Rank(a.state)
  {
    hide FromU24Be, FromU32Le;
    U.StepDecreases(a);
    if a.state == U.InMessageHeader && U.HeaderField(a).Advanced? {
      HeaderKeepsCsid(U.HeaderField(a).r);
    }
  }

  lemma ExtensionKeepsCsid(h: U.Reader)
    ensures U.ExtendedTimestamp(h).r.csid == h.csid
  {
  }

  // ---------- Some lead takes no more ----------

  /** The message in a format, its delta the gap. */
  function InFormat(h: MessageHeader, m: Message, format: Format): ChunkInfo
    requires m.Valid()
  {
    ChunkInfo(m.csid, format, MessageHeader(m.timestamp, |m.payload|, m.typeId, m.streamId, Gap(h, m), NoExtension), m.payload)
  }

  /** What the extension of a header without fields has to hold. */
  function Inserted(h: MessageHeader, m: Message): u32 {
    if h.ext == Format0 then (m.timestamp - h.delta) % 0x1_0000_0000 else Gap(h, m)
  }

  /** A lead of this format. */
  function LeadOf(h: MessageHeader, m: Message, format: Format): Bytes
    requires m.Valid()
  {
    if format == 3 && h.ext != NoExtension then BasicHeaderBytes(3, m.csid) + U32Be(Inserted(h, m))
    else Lead(InFormat(h, m, format))
  }

  /** The reader after a basic header of this chunk stream. */
  function Based(r: U.Reader, csid: u32, format: Format, rest: Bytes): U.Reader {
    var h := Inherited(r, csid);
    r.(buf := rest, csid := csid, format := format, header := if format == 0 then h.(delta := 0) else h,
       parseErrors := if csid == r.csid || csid in r.cache then r.parseErrors else if format != 0 then r.parseErrors + 1 else 0,
       state := U.InMessageHeader)
  }

  lemma BasicLed(r: U.Reader, csid: u32, format: Format, rest: Bytes)
    requires CsidAgreed(csid) && Accepts(r, csid, format)
    ensures U.BasicHeader(r.(buf := BasicHeaderBytes(format, csid) + rest)) == U.Advanced(Based(r, csid, format, rest))
  {
    hide BasicHeaderBytes, U.ParseBasicHeader;
    BasicHeaderRoundTrip(format, csid, rest);
    TakeDrop(BasicHeaderBytes(format, csid), rest);
  }

  /** Behind the message header. */
  predicate Headed(a: U.Reader, h: U.Reader, m: Message, format: Format, rest: Bytes) {
    && h.buf == rest && h.csid == a.csid && h.format == format && h.payload == a.payload
    && h.header.length == |m.payload| && h.header.typeId == m.typeId && h.header.streamId == m.streamId
  }

  lemma FullLed(a: U.Reader, c: ChunkInfo, rest: Bytes)
    requires a.state == U.InMessageHeader && a.field == U.ReadTimeStamp && a.format == 0 && c.format == 0
    ensures var o := U.RunHeader(a.(buf := MessageHeaderBytes(c) + rest));
            o == U.Advanced(a.(buf := rest, state := U.InExtendedTimestamp,
                               header := U.Extend0(MessageHeader(TimestampField(c).1, c.header.length, c.header.typeId, c.header.streamId,
                                                                 a.header.delta, NoExtension))))
  {
    hide U.RunHeader, U24Be, U32Le, U.Extend0;
    var t := TimestampField(c).1;
    FullHeaderRead(a.(buf := []), t, c.header.length, c.header.typeId, c.header.streamId, rest);
    assert MessageHeaderBytes(c) + rest == U24Be(t) + (U24Be(c.header.length) + ([c.header.typeId] + (U32Le(c.header.streamId) + rest)));
  }

  lemma DeltaLed(a: U.Reader, c: ChunkInfo, rest: Bytes)
    requires a.state == U.InMessageHeader && a.field == U.ReadTimeStamp && a.format == 1 && c.format == 1
    ensures var o := U.RunHeader(a.(buf := MessageHeaderBytes(c) + rest));
            o == U.Advanced(a.(buf := rest, state := U.InExtendedTimestamp,
                               header := U.Extend12(a.header.(delta := TimestampField(c).1, length := c.header.length,
                                                              typeId := c.header.typeId, ext := NoExtension))))
  {
    hide U.RunHeader, U24Be, U.Extend12;
    var t := TimestampField(c).1;
    DeltaHeaderRead(a.(buf := []), t, c.header.length, c.header.typeId, rest);
    assert MessageHeaderBytes(c) + rest == U24Be(t) + (U24Be(c.header.length) + ([c.header.typeId] + rest));
  }

  lemma ShortLed(a: U.Reader, c: ChunkInfo, rest: Bytes)
    requires a.state == U.InMessageHeader && a.format == 2 && c.format == 2
    ensures var o := U.RunHeader(a.(buf := MessageHeaderBytes(c) + rest));
            o == U.Advanced(a.(buf := rest, state := U.InExtendedTimestamp,
                               header := U.Extend12(a.header.(delta := TimestampField(c).1, ext := NoExtension))))
  {
    hide U.RunHeader, U24Be, U.Extend12;
    ShortHeaderRead(a, TimestampField(c).1, rest);
  }

  /** Every format that can say the message can say it in as many bytes as it needs. */
  lemma SomeTakes(r: U.Reader, m: Message, format: Format)
    requires r.field == U.ReadTimeStamp && r.payload == [] && m.Valid() && CsidAgreed(m.csid)
    requires Accepts(r, m.csid, format) && Needs(Inherited(r, m.csid), m, format).Some?
    ensures var b := LeadOf(Inherited(r, m.csid), m, format);
            DecodesTo(r, b, m) && |b| == HeaderWidth(m.csid) + Needs(Inherited(r, m.csid), m, format).value
  {
    var h := Inherited(r, m.csid);
    WidthIs(format, m.csid);
    if format == 3 {
      InheritedLed(r, m);
    } else {
      FieldsLed(r, m, format);
      var c := InFormat(h, m, format);
      FieldsLength(c);
      hide BasicHeaderBytes, MessageHeaderBytes, ExtensionBytes, HeaderWidth;
    }
  }

  lemma FieldsLength(c: ChunkInfo)
    ensures |MessageHeaderBytes(c)| == (match c.format case 0 => 11 case 1 => 7 case 2 => 3 case _ => 0)
    ensures |ExtensionBytes(TimestampField(c).0)| ==
            (match c.format case 0 => Extra(c.header.timestamp) case 3 => 0 case _ => Extra(c.header.delta))
  {
  }

  lemma FieldsLed(r: U.Reader, m: Message, format: Format)
    requires r.field == U.ReadTimeStamp && r.payload == [] && m.Valid() && CsidAgreed(m.csid) && format < 3
    requires Accepts(r, m.csid, format) && Needs(Inherited(r, m.csid), m, format).Some?
    ensures DecodesTo(r, Lead(InFormat(Inherited(r, m.csid), m, format)), m)
  {
    hide U.BasicHeader, U.RunHeader, U.ExtendedTimestamp, CsidAgreed, BasicHeaderBytes, MessageHeaderBytes, ExtensionBytes, U.WrappingAdd;
    var h := Inherited(r, m.csid);
    var c := InFormat(h, m, format);
    var fields, ext := MessageHeaderBytes(c), TimestampField(c).0;
    var e := ExtensionBytes(ext);
    Concat3(BasicHeaderBytes(format, m.csid), fields, e);
    BasicLed(r, m.csid, format, fields + e);
    var a := Based(r, m.csid, format, fields + e);
    if format == 0 {
      FullLed(a, c, e);
    } else if format == 1 {
      DeltaLed(a, c, e);
    } else {
      ShortLed(a, c, e);
    }
    var o := U.RunHeader(a).r;
    assert e + [] == e;
    ExtensionFieldRead(o, ext, []);
    WrapIsGap(h.timestamp, c.header.delta, m.timestamp);
  }

  lemma InheritedLed(r: U.Reader, m: Message)
    requires r.field == U.ReadTimeStamp && r.payload == [] && m.Valid() && CsidAgreed(m.csid)
    requires Accepts(r, m.csid, 3) && Needs(Inherited(r, m.csid), m, 3).Some?
    ensures var b := LeadOf(Inherited(r, m.csid), m, 3);
            DecodesTo(r, b, m) && |b| == |BasicHeaderBytes(3, m.csid)| + Needs(Inherited(r, m.csid), m, 3).value
  {
    hide U.BasicHeader, U.RunHeader, U.ExtendedTimestamp, CsidAgreed, BasicHeaderBytes, U.WrappingAdd;
    var h := Inherited(r, m.csid);
    var ext := if h.ext == NoExtension then None else Some(Inserted(h, m));
    var e := ExtensionBytes(ext);
    assert LeadOf(h, m, 3) == BasicHeaderBytes(3, m.csid) + e;
    BasicLed(r, m.csid, 3, e);
    var a := Based(r, m.csid, 3, e);
    InheritedHeaderRead(a);
    var o := U.RunHeader(a).r;
    assert e + [] == e;
    ExtensionFieldRead(o, ext, []);
    WrapIsGap(h.timestamp, Gap(h, m), m.timestamp);
    WrapBack(Inserted(h, m), h.delta, m.timestamp);
  }

  lemma WrapBack(from: u32, delta: u32, to: u32)
    ensures from == (to - delta) % 0x1_0000_0000 ==> U.WrappingAdd(from, delta) == to
  {
  }

  // ---------- What is written ----------

  lemma WrittenTakes(headers: Headers, r: U.Reader, m: Message)
    requires m.Valid() && CsidAgreed(m.csid) && Synced(headers, r) && !DropsExtension(headers, m.ToChunk())
    ensures var z := Zip(headers, m.ToChunk());
            Accepts(r, m.csid, z.format) && Needs(Inherited(r, m.csid), m, z.format).Some?
            && |Lead(z)| == HeaderWidth(m.csid) + Needs(Inherited(r, m.csid), m, z.format).value
  {
    var z := Zip(headers, m.ToChunk());
    WidthIs(z.format, z.csid);
    FieldsLength(z);
    hide BasicHeaderBytes, MessageHeaderBytes, ExtensionBytes, HeaderWidth;
  }

  /** No message came before on the chunk stream, or not with this message stream id, or the timestamp goes back. */
  predicate NeedsFull(headers: Headers, m: Message) {
    m.csid !in headers
    || (var pre := headers[m.csid].message; m.timestamp < pre.timestamp || m.streamId != pre.streamId)
  }

  /**
  What a shorter lead could make use of: that the header of another chunk stream or a wrapping delta fits where the writer
  sends everything, and that a remembered extension can be used for a new delta that itself needs one.
   */
  predicate Improvable(headers: Headers, r: U.Reader, m: Message) {
    var h := Inherited(r, m.csid);
    && h.streamId == m.streamId
    && if NeedsFull(headers, m) then
         Accepts(r, m.csid, 1) && (Gap(h, m) < EXTENDED || m.timestamp >= EXTENDED || SameKind(h, m))
       else SameKind(h, m) && Gap(h, m) >= EXTENDED && h.ext != NoExtension
  }

  /**
  The exact condition: no bytes that a reader in step with the writer decodes to the same message are shorter than those
  written, if and only if nothing of this kind can be made use of.
   */
  lemma ShortestExactly(headers: Headers, r: U.Reader, m: Message)
    requires m.Valid() && CsidAgreed(m.csid) && Synced(headers, r) && !DropsExtension(headers, m.ToChunk())
    ensures (forall b :: DecodesTo(r, b, m) ==> |Lead(Zip(headers, m.ToChunk()))| <= |b|) <==> !Improvable(headers, r, m)
  {
    var h := Inherited(r, m.csid);
    var written := Lead(Zip(headers, m.ToChunk()));
    WrittenTakes(headers, r, m);
    if Improvable(headers, r, m) {
      var format := BetterFormat(headers, r, m);
      SomeTakes(r, m, format);
      assert |LeadOf(h, m, format)| < |written|;
    } else {
      forall b | DecodesTo(r, b, m) ensures |written| <= |b| {
        NoneTakesLess(r, b, m);
        var format: Format :| Accepts(r, m.csid, format) && Needs(h, m, format).Some?
                              && |b| >= HeaderWidth(m.csid) + Needs(h, m, format).value;
        NoBetter(headers, r, m, format);
      }
    }
  }

  lemma BetterFormat(headers: Headers, r: U.Reader, m: Message) returns (format: Format)
    requires m.Valid() && Synced(headers, r) && !DropsExtension(headers, m.ToChunk()) && Improvable(headers, r, m)
    requires var z := Zip(headers, m.ToChunk()); Needs(Inherited(r, m.csid), m, z.format).Some?
    ensures var h, z := Inherited(r, m.csid), Zip(headers, m.ToChunk());
            Accepts(r, m.csid, format) && Needs(h, m, format).Some? && Needs(h, m, format).value < Needs(h, m, z.format).value
  {
    var h := Inherited(r, m.csid);
    format := if !NeedsFull(headers, m) then 3 else if SameKind(h, m) then 2 else 1;
  }

  lemma NoBetter(headers: Headers, r: U.Reader, m: Message, format: Format)
    requires m.Valid() && Synced(headers, r) && !DropsExtension(headers, m.ToChunk()) && !Improvable(headers, r, m)
    requires var z := Zip(headers, m.ToChunk()); Needs(Inherited(r, m.csid), m, z.format).Some?
    requires Accepts(r, m.csid, format) && Needs(Inherited(r, m.csid), m, format).Some?
    ensures var h, z := Inherited(r, m.csid), Zip(headers, m.ToChunk());
            Needs(h, m, z.format).value <= Needs(h, m, format).value
  {
  }

  /** In the ordinary course of a chunk stream, with steps below 2^24 - 1 milliseconds, nothing shorter would do. */
  lemma OrdinaryShortest(headers: Headers, r: U.Reader, m: Message, b: Bytes)
    requires m.Valid() && CsidAgreed(m.csid) && Synced(headers, r) && !DropsExtension(headers, m.ToChunk())
    requires !NeedsFull(headers, m) && m.timestamp - headers[m.csid].message.timestamp < EXTENDED && DecodesTo(r, b, m)
    ensures |Lead(Zip(headers, m.ToChunk()))| <= |b|
  {
    assert !Improvable(headers, r, m);
    hide Improvable, DecodesTo, Lead, Zip, Synced;
    ShortestExactly(headers, r, m);
  }

  /**
  The bytes in front of a payload, in plain numbers: big-endian but for the stream id, the time in three bytes, or in four
  behind all the rest once it needs more than 2^24 - 2 milliseconds.
   */
  lemma LeadBytes(c: ChunkInfo)
    requires 2 <= c.csid < 64
    ensures var h := c.header;
            var t := if c.format == 0 then h.timestamp else h.delta;
            var long := c.format < 3 && t >= 16777215;
            var f := if long then 16777215 else t;
            Lead(c) == [c.format * 64 + c.csid]
            + (if c.format < 3 then [f / 65536, f / 256 % 256, f % 256] else [])
            + (if c.format < 2 then [h.length / 65536, h.length / 256 % 256, h.length % 256, h.typeId] else [])
            + (if c.format == 0 then
                 [h.streamId % 256, h.streamId / 256 % 256, h.streamId / 65536 % 256, h.streamId / 16777216]
               else [])
            + (if long then [t / 16777216, t / 65536 % 256, t / 256 % 256, t % 256] else [])
  {
  }

  /** The second message of a kind needs four bytes in front, of which one is the basic header. */
  lemma ShortExample()
    ensures var headers := map[4 := ChunkHeader(0, MessageHeader(0, 1, 9, 1, 0, NoExtension))];
            Lead(Zip(headers, Message(4, 40, 9, 1, [8]).ToChunk())) == [0x84, 0, 0, 40]
  {
  }

  /** The first message of a chunk stream is sent in full even where a blank header would do for the rest. */
  lemma NewStreamExample()
    ensures var m := Message(2, 0, 5, 0, [0, 0, 16, 0]);
            && |Lead(Zip(map[], m.ToChunk()))| == 12
            && DecodesTo(U.NEW_READER, [0x42, 0, 0, 0, 0, 0, 4, 5], m)
  {
    var m, r := Message(2, 0, 5, 0, [0, 0, 16, 0]), U.NEW_READER;
    SomeTakes(r, m, 1);
    NewStreamLead(m);
    hide DecodesTo, Lead, Zip;
  }

  lemma NewStreamLead(m: Message)
    requires m == Message(2, 0, 5, 0, [0, 0, 16, 0])
    ensures LeadOf(BLANK_HEADER, m, 1) == [0x42, 0, 0, 0, 0, 0, 4, 5] && |Lead(Zip(map[], m.ToChunk()))| == 12
  {
    hide Lead, Capped;
    var c := ChunkInfo(2, 1, MessageHeader(0, 4, 5, 0, 0, NoExtension), m.payload);
    assert InFormat(BLANK_HEADER, m, 1) == c;
    LeadBytes(c);
    LeadBytes(m.ToChunk());
  }
}
