/**
Where the network may cut an encoded run: everywhere but inside a basic header of two or three bytes.
 */
module ChunkCuts {
  import opened Bytesio
  import opened Chunk
  import opened ChunkPacketizer
  import U = ChunkUnpacketizer
  import opened ChunkSplit
  import opened ChunkRoundTrip
  import opened ChunkRuns

  // ---------- Positions in an encoded run ----------

  /** Section 5.3.1.1: one byte for ids below 64, two below 319, as the writer has it, and three beyond. */
  function HeaderWidth(csid: u32): nat {
    if csid < 64 then 1 else if csid < 319 then 2 else 3
  }

  /** `k` bytes of the chunks end strictly inside the basic header one of them starts with. */
  predicate InsideHeader(chunks: seq<Bytes>, width: nat, k: nat) {
    chunks != []
    && (0 < k < width || (k >= |chunks[0]| && InsideHeader(chunks[1..], width, k - |chunks[0]|)))
  }

  /** The same for the chunks of a whole run. */
  predicate CutsHeader(headers: Headers, size: nat, ms: seq<Message>, k: nat)
    requires size > 0 && forall m | m in ms :: m.Valid()
    decreases |ms|
  {
    ms != []
    && var length := |Encode(headers, ms[0].ToChunk(), size)|;
       if k < length then InsideHeader(Chunks(headers, ms[0].ToChunk(), size), HeaderWidth(ms[0].csid), k)
       else CutsHeader(HeadersAfter(headers, ms[0]), size, ms[1..], k - length)
  }

  // ---------- A drain that ends inside a part of a chunk ----------

  lemma WidthIs(format: Format, csid: u32)
    requires CsidAgreed(csid)
    ensures |BasicHeaderBytes(format, csid)| == HeaderWidth(csid)
  {
  }

  lemma BasicHeaderLost(r: U.Reader, format: Format, csid: u32, k: nat)
    requires r.state == U.InBasicHeader && CsidAgreed(csid) && 0 < k < HeaderWidth(csid)
    ensures k <= |BasicHeaderBytes(format, csid)| && U.Pump(r.(buf := BasicHeaderBytes(format, csid)[..k])).lost
  {
    WidthIs(format, csid);
    var a := r.(buf := BasicHeaderBytes(format, csid)[..k]);
    assert a.buf[0] == BasicHeaderBytes(format, csid)[0];
    assert a.buf[0] % 64 == if HeaderWidth(csid) == 2 then 0 else 1;
    assert U.ParseBasicHeader(a.buf) == None;
  }

  /** The bytes still missing of a message header. */
  function HeaderNeed(format: Format, field: U.MessageHeaderReadState): nat {
    match format
    case 0 => (match field case ReadTimeStamp => 11 case ReadMsgLength => 8 case ReadMsgTypeId => 5 case ReadMsgStreamId => 4)
    case 1 => (match field case ReadTimeStamp => 7 case ReadMsgLength => 4 case ReadMsgTypeId => 1 case ReadMsgStreamId => 0)
    case 2 => 3
    case _ => 0
  }

  lemma FieldAdvances(r: U.Reader)
    requires r.state == U.InMessageHeader && |r.buf| < HeaderNeed(r.format, r.field)
    ensures var o := U.Step(r);
            (o.Starved? && !U.LosesHeaderByte(r))
            || (o.Advanced? && o.r.state == U.InMessageHeader && |o.r.buf| < HeaderNeed(o.r.format, o.r.field))
  {
  }

  lemma {:induction false} HeaderStarves(r: U.Reader)
    requires r.state == U.InMessageHeader && |r.buf| < HeaderNeed(r.format, r.field)
    ensures !U.Pump(r).lost
    decreases |r.buf|, U.Rank(r.state)
  {
    hide U.Step;
    U.StepDecreases(r);
    FieldAdvances(r);
    if U.Step(r).Advanced? {
      HeaderStarves(U.Step(r).r);
    }
  }

  lemma ExtensionStarves(r: U.Reader)
    requires r.state == U.InExtendedTimestamp && r.header.ext != NoExtension && |r.buf| < 4
    ensures !U.Pump(r).lost
  {
  }

  lemma PayloadStarves(r: U.Reader, size: nat)
    requires r.state == U.InMessagePayload && |r.payload| < r.header.length
    requires SizesAgree(size, r.maxChunkSize, r.header.length)
    requires var left := r.header.length - |r.payload|; |r.buf| < left && |r.buf| < size
    ensures !U.Pump(r).lost
  {
    assert U.Step(r) == U.Starved(r);
  }

  // ---------- Inside the first chunk ----------

  lemma HeaderLength(headers: Headers, r: U.Reader, m: Message, rest: Bytes)
    requires m.Valid() && Synced(headers, r)
    ensures var z := Zip(headers, m.ToChunk());
            var a := BasicRead(r, z, rest);
            a.state == U.InMessageHeader && |MessageHeaderBytes(z)| == HeaderNeed(a.format, a.field)
  {
  }

  lemma HalfReadExtends(headers: Headers, r: U.Reader, m: Message, rest: Bytes)
    requires m.Valid() && Synced(headers, r)
    ensures var z := Zip(headers, m.ToChunk());
            (z.format != 0 ==> z.csid in headers)
            && (TimestampField(z).0.Some? <==> HalfRead(headers, r, z, rest).header.ext != NoExtension)
            && |ExtensionBytes(TimestampField(z).0)| == if TimestampField(z).0.Some? then 4 else 0
  {
  }

  // A prefix of `a + b` that reaches into `b`.
  lemma PrefixPast(a: Bytes, b: Bytes, k: nat)
    requires |a| <= k <= |a| + |b|
    ensures (a + b)[..k] == a + b[..k - |a|]
  {
  }

  lemma HeaderCut(r: U.Reader, format: Format, csid: u32, rest: Bytes, k: nat)
    requires r.state == U.InBasicHeader && CsidAgreed(csid) && k < HeaderWidth(csid)
    ensures k < |BasicHeaderBytes(format, csid) + rest|
            && (U.Pump(r.(buf := (BasicHeaderBytes(format, csid) + rest)[..k])).lost <==> 0 < k < HeaderWidth(csid))
  {
    WidthIs(format, csid);
    hide BasicHeaderBytes, CsidAgreed, HeaderWidth, U.Pump;
    Slices(BasicHeaderBytes(format, csid), rest, k);
    if k == 0 {
      DryBetween(r.(buf := []));
    } else {
      BasicHeaderLost(r, format, csid, k);
    }
  }

  lemma LeadParts(z: ChunkInfo)
    ensures Lead(z) == BasicHeaderBytes(z.format, z.csid) + (MessageHeaderBytes(z) + ExtensionBytes(TimestampField(z).0))
  {
    hide BasicHeaderBytes, MessageHeaderBytes, ExtensionBytes;
    Concat3(BasicHeaderBytes(z.format, z.csid), MessageHeaderBytes(z), ExtensionBytes(TimestampField(z).0));
  }

  lemma SyncedIsBetween(headers: Headers, r: U.Reader, m: Message)
    requires m.Valid() && Synced(headers, r)
    ensures r.state == U.InBasicHeader && Zip(headers, m.ToChunk()).csid == m.csid
  {
  }

  lemma LeadCut(headers: Headers, r: U.Reader, m: Message, k: nat)
    requires m.Valid() && CsidAgreed(m.csid) && Synced(headers, r) && !DropsExtension(headers, m.ToChunk())
    requires k < |Lead(Zip(headers, m.ToChunk()))|
    ensures U.Pump(r.(buf := Lead(Zip(headers, m.ToChunk()))[..k])).lost <==> 0 < k < HeaderWidth(m.csid)
  {
    var z := Zip(headers, m.ToChunk());
    SyncedIsBetween(headers, r, m);
    WidthIs(z.format, z.csid);
    LeadParts(z);
    hide Synced, CsidAgreed, DropsExtension, Lead, Zip, BasicHeaderBytes, MessageHeaderBytes, ExtensionBytes, HeaderWidth, U.Pump;
    var b, rest := BasicHeaderBytes(z.format, z.csid), MessageHeaderBytes(z) + ExtensionBytes(TimestampField(z).0);
    if k < |b| {
      HeaderCut(r, z.format, z.csid, rest, k);
    } else {
      PrefixPast(b, rest, k);
      MiddleCut(headers, r, m, k - |b|);
    }
  }

  lemma MiddleCut(headers: Headers, r: U.Reader, m: Message, k: nat)
    requires m.Valid() && CsidAgreed(m.csid) && Synced(headers, r) && !DropsExtension(headers, m.ToChunk())
    requires var z := Zip(headers, m.ToChunk()); k < |MessageHeaderBytes(z) + ExtensionBytes(TimestampField(z).0)|
    ensures var z := Zip(headers, m.ToChunk());
            !U.Pump(r.(buf := BasicHeaderBytes(z.format, z.csid)
                              + (MessageHeaderBytes(z) + ExtensionBytes(TimestampField(z).0))[..k])).lost
  {
    var z := Zip(headers, m.ToChunk());
    assert z.csid == m.csid;
    var h, e := MessageHeaderBytes(z), ExtensionBytes(TimestampField(z).0);
    BasicHeaderRead(headers, r, m.ToChunk(), (h + e)[..k]);
    if k < |h| {
      Slices(h, e, k);
      HeaderLength(headers, r, m, h[..k]);
      HeaderStarves(BasicRead(r, z, h[..k]));
    } else {
      PrefixPast(h, e, k);
      MessageHeaderRead(headers, r, m, e[..k - |h|]);
      HalfReadExtends(headers, r, m, e[..k - |h|]);
      ExtensionStarves(HalfRead(headers, r, z, e[..k - |h|]));
    }
  }

  lemma FirstCut(headers: Headers, r: U.Reader, m: Message, size: nat, k: nat)
    requires Synced(headers, r) && Sendable(r.maxChunkSize, size, m) && !DropsExtension(headers, m.ToChunk())
    requires var piece := if |m.payload| <= size then m.payload else m.payload[..size];
             k < |Lead(Zip(headers, m.ToChunk())) + piece|
    ensures var piece := if |m.payload| <= size then m.payload else m.payload[..size];
            U.Pump(r.(buf := (Lead(Zip(headers, m.ToChunk())) + piece)[..k])).lost <==> 0 < k < HeaderWidth(m.csid)
  {
    var z := Zip(headers, m.ToChunk());
    assert z.csid == m.csid && z.header.length == |m.payload|;
    var lead, piece := Lead(z), if |m.payload| <= size then m.payload else m.payload[..size];
    WidthIs(z.format, z.csid);
    assert |lead| >= HeaderWidth(m.csid);
    if k < |lead| {
      Slices(lead, piece, k);
      LeadCut(headers, r, m, k);
    } else {
      PrefixPast(lead, piece, k);
      var part := piece[..k - |lead|];
      assert (lead + piece)[..k] == lead + part;
      LeadRead(headers, r, m, part);
      PayloadStarves(Opened(r, z, part).(payload := r.payload), size);
    }
  }

  // ---------- Inside a later chunk ----------

  lemma PartWayReads(headers: Headers, r: U.Reader, o: U.Reader, m: Message, size: nat, left: Bytes)
    requires PartWay(headers, r, o, m, size, left)
    ensures var z := Zip(headers, m.ToChunk());
            && z.csid == m.csid == o.csid && CsidAgreed(m.csid) && o.payload != [] && o.payload + left == m.payload
            && o.header == Remembered(ChunkHeader(z.format, z.header)) && o.header.length == |m.payload|
            && SizesAgree(size, o.maxChunkSize, o.header.length)
  {
  }

  lemma SeparatorParts(z: ChunkInfo)
    ensures Separator(z) == BasicHeaderBytes(3, z.csid) + ExtensionBytes(TimestampField(z).0)
  {
  }

  lemma NextCut(headers: Headers, r: U.Reader, o: U.Reader, m: Message, size: nat, left: Bytes, k: nat)
    requires PartWay(headers, r, o, m, size, left) && Between(o)
    requires var piece := if |left| <= size then left else left[..size];
             k < |Separator(Zip(headers, m.ToChunk())) + piece|
    ensures var piece := if |left| <= size then left else left[..size];
            U.Pump(o.(buf := (Separator(Zip(headers, m.ToChunk())) + piece)[..k])).lost <==> 0 < k < HeaderWidth(m.csid)
  {
    hide PartWay, CsidAgreed, Separator, Zip, BasicHeaderBytes, ExtensionBytes, TimestampField, HeaderWidth, Remembered, U.Pump;
    var z := Zip(headers, m.ToChunk());
    PartWayReads(headers, r, o, m, size, left);
    SeparatorParts(z);
    var b, e := BasicHeaderBytes(3, z.csid), ExtensionBytes(TimestampField(z).0);
    var piece := if |left| <= size then left else left[..size];
    WidthIs(3, z.csid);
    var sep := b + e;
    if k < |b| {
      Concat3(b, e, piece);
      HeaderCut(o, 3, z.csid, e + piece, k);
    } else if k < |sep| {
      Slices(sep, piece, k);
      PrefixPast(b, e, k);
      SeparatorCut(o, z, k - |b|);
    } else {
      PrefixPast(sep, piece, k);
      var part := piece[..k - |sep|];
      SeparatorRead(o, z, part);
      PayloadStarves(o.(buf := part, format := 3, state := U.InMessagePayload), size);
    }
  }

  lemma SeparatorCut(o: U.Reader, z: ChunkInfo, k: nat)
    requires o.state == U.InBasicHeader && CsidAgreed(z.csid) && o.csid == z.csid
    requires o.header == Remembered(ChunkHeader(z.format, z.header))
    requires k < |ExtensionBytes(TimestampField(z).0)|
    ensures !U.Pump(o.(buf := BasicHeaderBytes(3, z.csid) + ExtensionBytes(TimestampField(z).0)[..k])).lost
  {
    var b, e := BasicHeaderBytes(3, z.csid), ExtensionBytes(TimestampField(z).0)[..k];
    var a := o.(buf := b + e);
    BasicHeaderRoundTrip(3, z.csid, e);
    TakeDrop(b, e);
    var a1 := o.(buf := e, format := 3, state := U.InMessageHeader);
    assert U.BasicHeader(a) == U.Advanced(a1);
    InheritedHeaderRead(a1);
    PumpThroughHeader(a1);
    ExtensionStarves(a1.(state := U.InExtendedTimestamp));
  }

  // ---------- Inside a message ----------

  /** In the first chunk only its own basic header counts, behind it only the others. */
  lemma InsideStep(chunks: seq<Bytes>, width: nat, k: nat)
    requires chunks != [] && width <= |chunks[0]| && k <= |Flatten(chunks)|
    ensures InsideHeader(chunks, width, k)
            <==> if k < |chunks[0]| then 0 < k < width else InsideHeader(chunks[1..], width, k - |chunks[0]|)
    ensures Flatten(chunks)[..k]
         == if k < |chunks[0]| then chunks[0][..k] else chunks[0] + Flatten(chunks[1..])[..k - |chunks[0]|]
  {
  }

  lemma Widths(headers: Headers, m: Message)
    requires m.Valid() && CsidAgreed(m.csid)
    ensures var z := Zip(headers, m.ToChunk());
            z.payload == m.payload && HeaderWidth(m.csid) <= |Lead(z)| && HeaderWidth(m.csid) <= |Separator(z)|
  {
    var z := Zip(headers, m.ToChunk());
    assert z.csid == m.csid;
    WidthIs(z.format, z.csid);
    WidthIs(3, z.csid);
    hide BasicHeaderBytes, MessageHeaderBytes, ExtensionBytes;
  }

  /** What is left of the bytes of a message that end inside it, after a first chunk that is not the last. */
  lemma DrainedFirst(r: U.Reader, chunk: Bytes, o: U.Reader, narrow: bool, y: Bytes)
    requires r.buf == [] && U.Pump(Feed(r, chunk)) == U.Pumped([], o, U.Waiting, false, narrow) && o.buf == []
    ensures U.Pump(r.(buf := chunk + y)).lost <==> U.Pump(o.(buf := y)).lost
  {
    hide U.Pump;
    LostAfterDrain(Feed(r, chunk), y);
    assert Feed(Feed(r, chunk), y) == r.(buf := chunk + y);
    assert Feed(o, y) == o.(buf := y);
  }

  lemma {:induction false} TailCut(headers: Headers, r: U.Reader, o: U.Reader, m: Message, size: nat, left: Bytes, k: nat)
    requires PartWay(headers, r, o, m, size, left) && Between(o)
    requires var sep := Separator(Zip(headers, m.ToChunk())); k < |Flatten(Cut(sep, sep, left, size))|
    ensures var sep := Separator(Zip(headers, m.ToChunk()));
            U.Pump(o.(buf := Flatten(Cut(sep, sep, left, size))[..k])).lost
            <==> InsideHeader(Cut(sep, sep, left, size), HeaderWidth(m.csid), k)
    decreases |left|
  {
    hide U.Pump, Separator, Zip, Synced, Opened, InsideHeader, Flatten;
    Widths(headers, m);
    var sep := Separator(Zip(headers, m.ToChunk()));
    var chunks := Cut(sep, sep, left, size);
    assert chunks[0] == sep + if |left| <= size then left else left[..size];
    InsideStep(chunks, HeaderWidth(m.csid), k);
    if k < |chunks[0]| {
      NextCut(headers, r, o, m, size, left, k);
    } else {
      NothingAfter(chunks, k);
      var o' := NextKeepsUp(headers, r, o, m, size, left);
      assert chunks[1..] == Cut(sep, sep, left[size..], size);
      var y := Flatten(chunks[1..])[..k - |chunks[0]|];
      DrainedFirst(o, chunks[0], o', m.csid < 64, y);
      TailCut(headers, r, o', m, size, left[size..], k - |chunks[0]|);
    }
  }

  // A position inside the message, but not inside its first chunk, is in a later one.
  lemma NothingAfter(chunks: seq<Bytes>, k: nat)
    requires chunks != [] && |chunks[0]| <= k < |Flatten(chunks)|
    ensures |chunks| > 1 && k - |chunks[0]| < |Flatten(chunks[1..])|
  {
  }

  lemma MessageCut(headers: Headers, r: U.Reader, m: Message, size: nat, k: nat)
    requires Synced(headers, r) && r.buf == [] && Sendable(r.maxChunkSize, size, m) && !DropsExtension(headers, m.ToChunk())
    requires k < |Encode(headers, m.ToChunk(), size)|
    ensures U.Pump(r.(buf := Encode(headers, m.ToChunk(), size)[..k])).lost
            <==> InsideHeader(Chunks(headers, m.ToChunk(), size), HeaderWidth(m.csid), k)
  {
    hide U.Pump, Lead, Separator, Zip, Synced, DropsExtension, InsideHeader, Flatten;
    Widths(headers, m);
    var z := Zip(headers, m.ToChunk());
    var chunks := Chunks(headers, m.ToChunk(), size);
    assert chunks[0] == Lead(z) + if |m.payload| <= size then m.payload else m.payload[..size];
    InsideStep(chunks, HeaderWidth(m.csid), k);
    if k < |chunks[0]| {
      FirstCut(headers, r, m, size, k);
    } else {
      NothingAfter(chunks, k);
      FirstKeepsUp(headers, r, m, size);
      StartedPartWay(headers, r, m, size);
      assert chunks[1..] == Cut(Separator(z), Separator(z), m.payload[size..], size);
      var y := Flatten(chunks[1..])[..k - |chunks[0]|];
      DrainedFirst(r, chunks[0], Started(headers, r, m, size), m.csid < 64, y);
      TailCut(headers, r, Started(headers, r, m, size), m, size, m.payload[size..], k - |chunks[0]|);
    }
  }

  // ---------- Inside a run ----------

  /** The reader behind a message, its chunk size updated, with nothing buffered. */
  lemma PastMessage(headers: Headers, r: U.Reader, m: Message, size: nat, more: Bytes) returns (r': U.Reader)
    requires Synced(headers, r) && Sendable(r.maxChunkSize, size, m) && !DropsExtension(headers, m.ToChunk())
    ensures Synced(HeadersAfter(headers, m), r') && r'.buf == [] && r'.maxChunkSize == SizeAfter(r.maxChunkSize, m)
    ensures U.Pump(r.(buf := Encode(headers, m.ToChunk(), size) + more)).lost <==> U.Pump(r'.(buf := more)).lost
  {
    var next := HeadersAfter(headers, m);
    hide Synced, Encode, DropsExtension, Zip, Remember, ChunkRoundTrip.Received, AfterMessage, U.Pump, SizeAfter;
    MessageRoundTrip(headers, r, m, size, more);
    var a, c := AfterMessage(headers, r, m, size, more), ChunkRoundTrip.Received(headers, m, size);
    ReceivedType(headers, m, size);
    ApplyKeepsSynced(next, a, c);
    var s := U.Apply(a, c).value;
    StillSynced(next, s, []);
    r' := s.(buf := []);
    assert r'.(buf := more) == s;
  }

  lemma ReceivedType(headers: Headers, m: Message, size: nat)
    requires m.Valid()
    ensures var c := ChunkRoundTrip.Received(headers, m, size);
            c.header.typeId == m.typeId && c.payload == m.payload && FromChunk(c) == m
  {
  }

  lemma NothingCut(headers: Headers, r: U.Reader)
    requires Synced(headers, r)
    ensures !U.Pump(r.(buf := [])).lost
  {
    StillSynced(headers, r, []);
    hide Synced;
    Idle(headers, r.(buf := []));
  }

  /**
  The exact condition, as a caller can see it: a reader that drains after the first `k` bytes of an encoded run loses a
  byte if and only if the `k` bytes end strictly inside a basic header of two or three bytes.
   */
  lemma {:induction false} LostExactly(headers: Headers, r: U.Reader, size: nat, ms: seq<Message>, k: nat)
    requires Synced(headers, r) && r.buf == []
    requires size > 0 && AllSendable(r.maxChunkSize, size, ms)
    requires forall m | m in ms :: m.Valid()
    requires NoneDrops(headers, ms)
    requires k <= |EncodeAll(headers, size, ms)|
    ensures U.Pump(r.(buf := EncodeAll(headers, size, ms)[..k])).lost <==> CutsHeader(headers, size, ms, k)
    decreases |ms|
  {
    hide Synced, Sendable, Encode, DropsExtension, HeadersAfter, SizeAfter, U.Pump, InsideHeader, Chunks;
    if ms == [] {
      NothingCut(headers, r);
    } else {
      var m, next := ms[0], HeadersAfter(headers, ms[0]);
      var bytes, rest := Encode(headers, m.ToChunk(), size), EncodeAll(next, size, ms[1..]);
      if k < |bytes| {
        Slices(bytes, rest, k);
        MessageCut(headers, r, m, size, k);
      } else {
        PrefixPast(bytes, rest, k);
        var r' := PastMessage(headers, r, m, size, rest[..k - |bytes|]);
        LostExactly(next, r', size, ms[1..], k - |bytes|);
      }
    }
  }

  /** Draining after `k` bytes of a run makes no difference to what follows exactly when they do not end inside a basic header. */
  lemma HarmlessExactly(headers: Headers, r: U.Reader, size: nat, ms: seq<Message>, k: nat)
    requires Synced(headers, r) && r.buf == []
    requires size > 0 && AllSendable(r.maxChunkSize, size, ms)
    requires forall m | m in ms :: m.Valid()
    requires NoneDrops(headers, ms)
    requires k <= |EncodeAll(headers, size, ms)|
    ensures (forall y :: SplitAgrees(r.(buf := EncodeAll(headers, size, ms)[..k]), y)) <==> !CutsHeader(headers, size, ms, k)
  {
    hide *;
    LostExactly(headers, r, size, ms, k);
    SplitIndependence(r.(buf := EncodeAll(headers, size, ms)[..k]));
  }

  /** With one-byte chunk stream ids no cut is inside a basic header. */
  lemma {:induction false} NarrowNeverCut(headers: Headers, size: nat, ms: seq<Message>, k: nat)
    requires size > 0 && forall m | m in ms :: m.Valid() && m.csid < 64
    ensures !CutsHeader(headers, size, ms, k)
    decreases |ms|
  {
    if ms != [] {
      var m := ms[0];
      NeverInside(Chunks(headers, m.ToChunk(), size), k);
      if k >= |Encode(headers, m.ToChunk(), size)| {
        NarrowNeverCut(HeadersAfter(headers, m), size, ms[1..], k - |Encode(headers, m.ToChunk(), size)|);
      }
    }
  }

  lemma {:induction false} NeverInside(chunks: seq<Bytes>, k: nat)
    ensures !InsideHeader(chunks, 1, k)
    decreases |chunks|
  {
    if chunks != [] && k >= |chunks[0]| {
      NeverInside(chunks[1..], k - |chunks[0]|);
    }
  }

  /** None of the cuts between the pieces of an encoded run is inside a basic header. */
  predicate HarmlessCuts(headers: Headers, size: nat, ms: seq<Message>, pieces: seq<Bytes>)
    requires size > 0 && forall m | m in ms :: m.Valid()
  {
    forall i :: 0 < i <= |pieces| ==> !CutsHeader(headers, size, ms, |Arrived(pieces, i)|)
  }

  lemma ArrivedIsPrefix(pieces: seq<Bytes>, i: nat)
    requires i <= |pieces|
    ensures Arrived(pieces, i) <= Flatten(pieces)
  {
    FlattenConcat(pieces[..i], pieces[i..]);
    assert pieces == pieces[..i] + pieces[i..];
  }

  /** Draining after each piece loses nothing if and only if no cut is inside a basic header. */
  lemma NoneLostInRun(headers: Headers, r: U.Reader, size: nat, ms: seq<Message>, pieces: seq<Bytes>)
    requires Synced(headers, r) && r.buf == []
    requires size > 0 && AllSendable(r.maxChunkSize, size, ms)
    requires forall m | m in ms :: m.Valid()
    requires NoneDrops(headers, ms)
    requires Flatten(pieces) == EncodeAll(headers, size, ms)
    ensures NoneLost(r, pieces) <==> HarmlessCuts(headers, size, ms, pieces)
  {
    hide Synced, U.Pump, CutsHeader, NoneLost, Arrived, EncodeAll;
    NoneLostExactly(r, pieces);
    forall i | 0 < i <= |pieces|
      ensures WholeAt(r, pieces, i) <==> !CutsHeader(headers, size, ms, |Arrived(pieces, i)|)
    {
      ArrivedIsPrefix(pieces, i);
      LostExactly(headers, r, size, ms, |Arrived(pieces, i)|);
      assert Feed(r, Arrived(pieces, i)) == r.(buf := EncodeAll(headers, size, ms)[..|Arrived(pieces, i)|]);
    }
  }

  /** A run cut wherever the network likes, but not inside a basic header, comes back whole. */
  lemma CutRunRoundTrip(headers: Headers, r: U.Reader, size: nat, ms: seq<Message>, pieces: seq<Bytes>)
    requires Synced(headers, r) && r.buf == []
    requires size > 0 && AllSendable(r.maxChunkSize, size, ms)
    requires forall m | m in ms :: m.Valid()
    requires NoneDrops(headers, ms)
    requires Flatten(pieces) == EncodeAll(headers, size, ms)
    requires HarmlessCuts(headers, size, ms, pieces)
    ensures var p := PumpPieces(r, pieces);
            && Messages(p.chunks) == ms
            && p.status == U.Waiting && p.r.buf == []
            && Synced(HeadersAfterAll(headers, ms), p.r)
  {
    hide Synced, HeadersAfterAll, EncodeAll, U.Pump, PumpPieces, AllSendable, NoneDrops, HarmlessCuts, NoneLost, Messages;
    RunRoundTrip(headers, r, size, ms);
    NoneLostInRun(headers, r, size, ms, pieces);
    assert Feed(r, Flatten(pieces)) == r.(buf := EncodeAll(headers, size, ms));
    PiecesAgree(r, pieces);
  }

  /** Over one-byte chunk stream ids it comes back however it is cut. */
  lemma NarrowRunRoundTrip(headers: Headers, r: U.Reader, size: nat, ms: seq<Message>, pieces: seq<Bytes>)
    requires Synced(headers, r) && r.buf == []
    requires size > 0 && AllSendable(r.maxChunkSize, size, ms)
    requires forall m | m in ms :: m.Valid() && m.csid < 64
    requires NoneDrops(headers, ms)
    requires Flatten(pieces) == EncodeAll(headers, size, ms)
    ensures var p := PumpPieces(r, pieces);
            Messages(p.chunks) == ms && p.status == U.Waiting && p.r.buf == [] && Synced(HeadersAfterAll(headers, ms), p.r)
  {
    hide Synced, HeadersAfterAll, EncodeAll, U.Pump, PumpPieces, AllSendable, NoneDrops, Arrived, CutsHeader;
    forall i | 0 < i <= |pieces| ensures !CutsHeader(headers, size, ms, |Arrived(pieces, i)|) {
      NarrowNeverCut(headers, size, ms, |Arrived(pieces, i)|);
    }
    assert HarmlessCuts(headers, size, ms, pieces);
    CutRunRoundTrip(headers, r, size, ms, pieces);
  }
}
