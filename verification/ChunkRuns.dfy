/**
Whole runs of the chunk codec: any list of messages over any mix of chunk streams, in one
piece, cut anywhere, or chunk by chunk.
 */
module ChunkRuns {
  import opened Bytesio
  import opened Chunk
  import opened ChunkPacketizer
  import U = ChunkUnpacketizer
  import opened ChunkSplit
  import opened ChunkRoundTrip

  // ---------- Runs ----------

  function HeadersAfter(headers: Headers, m: Message): Headers
    requires m.Valid()
  {
    Remember(headers, Zip(headers, m.ToChunk()))
  }

  /** The reader's chunk size after a message; SET_CHUNK_SIZE, of type 1, is the only one that changes it. */
  function SizeAfter(maxChunkSize: nat, m: Message): nat {
    if m.typeId == 1 && |m.payload| >= 4 then FromU32Be(m.payload[..4]) else maxChunkSize
  }

  /** What the protocol asks of a message: a readable id, sizes agreed on, a whole control message. */
  predicate Sendable(maxChunkSize: nat, size: nat, m: Message) {
    && m.Valid() && CsidAgreed(m.csid)
    && SizesAgree(size, maxChunkSize, |m.payload|)
    && (m.typeId == 1 ==> |m.payload| >= 4)
  }

  predicate AllSendable(maxChunkSize: nat, size: nat, ms: seq<Message>)
    decreases |ms|
  {
    ms != [] ==>
      Sendable(maxChunkSize, size, ms[0]) && AllSendable(SizeAfter(maxChunkSize, ms[0]), size, ms[1..])
  }

  /** No message of the run drops an extended timestamp its chunk stream still carries. */
  predicate NoneDrops(headers: Headers, ms: seq<Message>)
    requires forall m | m in ms :: m.Valid()
    decreases |ms|
  {
    ms != [] ==>
      !DropsExtension(headers, ms[0].ToChunk()) && NoneDrops(HeadersAfter(headers, ms[0]), ms[1..])
  }

  function EncodeAll(headers: Headers, size: nat, ms: seq<Message>): Bytes
    requires size > 0 && forall m | m in ms :: m.Valid()
    decreases |ms|
  {
    if ms == [] then []
    else Encode(headers, ms[0].ToChunk(), size) + EncodeAll(HeadersAfter(headers, ms[0]), size, ms[1..])
  }

  function HeadersAfterAll(headers: Headers, ms: seq<Message>): Headers
    requires forall m | m in ms :: m.Valid()
    decreases |ms|
  {
    if ms == [] then headers else HeadersAfterAll(HeadersAfter(headers, ms[0]), ms[1..])
  }

  function Messages(cs: seq<ChunkInfo>): seq<Message> {
    if cs == [] then [] else [FromChunk(cs[0])] + Messages(cs[1..])
  }

  lemma SendableAreValid(maxChunkSize: nat, size: nat, ms: seq<Message>)
    requires AllSendable(maxChunkSize, size, ms)
    ensures forall m | m in ms :: m.Valid()
    decreases |ms|
  {
    if ms != [] {
      SendableAreValid(SizeAfter(maxChunkSize, ms[0]), size, ms[1..]);
      assert ms == [ms[0]] + ms[1..];
    }
  }

  lemma ApplyKeepsSynced(headers: Headers, r: U.Reader, c: ChunkInfo)
    requires Synced(headers, r)
    requires c.header.typeId == SET_CHUNK_SIZE ==> |c.payload| >= 4
    ensures U.Apply(r, c) == Ok(r.(maxChunkSize := SizeAfter(r.maxChunkSize, FromChunk(c))))
    ensures Synced(headers, U.Apply(r, c).value)
  {
  }

  /**
  Round trip of a whole run: the bytes of all the messages, one after the other, come back
  as exactly those messages, every byte is used, and reader and writer end in step.
   */
  lemma {:induction false} RunRoundTrip(headers: Headers, r: U.Reader, size: nat, ms: seq<Message>)
    requires Synced(headers, r)
    requires size > 0 && AllSendable(r.maxChunkSize, size, ms)
    requires forall m | m in ms :: m.Valid()
    requires NoneDrops(headers, ms)
    ensures var p := U.Pump(r.(buf := EncodeAll(headers, size, ms)));
            && Messages(p.chunks) == ms
            && p.status == U.Waiting && p.r.buf == []
            && Synced(HeadersAfterAll(headers, ms), p.r)
            && ((forall m | m in ms :: m.csid < 64) ==> p.narrow)
    decreases |ms|
  {
    hide Synced, Encode, DropsExtension, Zip, Remember, Received, AfterMessage;
    if ms == [] {
      StillSynced(headers, r, []);
      Idle(headers, r.(buf := []));
    } else {
      var m, next := ms[0], HeadersAfter(headers, ms[0]);
      var rest := EncodeAll(next, size, ms[1..]);
      MessageRoundTrip(headers, r, m, size, rest);
      var c := Received(headers, m, size);
      ApplyKeepsSynced(next, AfterMessage(headers, r, m, size, rest), c);
      var r' := U.Apply(AfterMessage(headers, r, m, size, rest), c).value;
      RunRoundTrip(next, r', size, ms[1..]);
      assert r'.(buf := rest) == r';
      assert ms == [m] + ms[1..];
    }
  }

  lemma Idle(headers: Headers, r: U.Reader)
    requires r.buf == [] && Synced(headers, r)
    ensures U.Pump(r) == U.Pumped([], r, U.Waiting, false, true)
  {
  }

  lemma StillSynced(headers: Headers, r: U.Reader, buf: Bytes)
    requires Synced(headers, r)
    ensures Synced(headers, r.(buf := buf))
  {
  }

  lemma FreshSynced()
    ensures Synced(map[], U.NEW_READER)
  {
  }

  /** A SET_CHUNK_SIZE without its four bytes is handed on and ends the session, whatever follows. */
  lemma ShortControlBreaks(headers: Headers, r: U.Reader, m: Message, size: nat, rest: Bytes)
    requires m.Valid() && CsidAgreed(m.csid) && m.typeId == 1 && |m.payload| < 4
    requires Synced(headers, r) && !DropsExtension(headers, m.ToChunk()) && SizesAgree(size, r.maxChunkSize, |m.payload|)
    ensures var p := U.Pump(r.(buf := Encode(headers, m.ToChunk(), size) + rest));
            Messages(p.chunks) == [m] && p.status == U.Broken
  {
    hide Synced, Encode, DropsExtension, Received, AfterMessage, CsidAgreed, U.Pump;
    MessageRoundTrip(headers, r, m, size, rest);
    var c := Received(headers, m, size);
    assert [c][1..] == [];
  }

  // ---------- From the start of a session ----------

  lemma {:induction false} AgreedAreSendable(size: nat, ms: seq<Message>)
    requires size > 0 && forall m | m in ms :: m.Valid() && CsidAgreed(m.csid) && m.typeId != 1
    ensures AllSendable(size, size, ms)
    decreases |ms|
  {
    hide CsidAgreed;
    if ms != [] {
      assert ms[0] in ms;
      AgreedAreSendable(size, ms[1..]);
    }
  }

  lemma AnnouncedSize()
    ensures var first := Message(2, 0, 1, 0, [0, 0, 0x10, 0]);
            && Encode(map[], first.ToChunk(), 4096) == [2, 0, 0, 0, 0, 0, 4, 1, 0, 0, 0, 0, 0, 0, 0x10, 0]
            && Sendable(128, 4096, first) && SizeAfter(128, first) == 4096 && !DropsExtension(map[], first.ToChunk())
            && U.NEW_READER.maxChunkSize == 128
  {
    AnnouncedBytes();
    hide Encode;
  }

  lemma AnnouncedBytes()
    ensures Encode(map[], Message(2, 0, 1, 0, [0, 0, 0x10, 0]).ToChunk(), 4096) == [2, 0, 0, 0, 0, 0, 4, 1, 0, 0, 0, 0, 0, 0, 0x10, 0]
  {
    var c := Message(2, 0, 1, 0, [0, 0, 0x10, 0]).ToChunk();
    AnnouncedLead(c);
    hide Lead, Separator;
    assert Chunks(map[], c, 4096) == [Lead(c) + c.payload];
    assert Chunks(map[], c, 4096)[1..] == [];
  }

  lemma AnnouncedLead(c: ChunkInfo)
    requires c == Message(2, 0, 1, 0, [0, 0, 0x10, 0]).ToChunk()
    ensures Zip(map[], c) == c && Lead(c) == [2, 0, 0, 0, 0, 0, 4, 1, 0, 0, 0, 0]
  {
  }

  /**
  A session as it is opened: the reader starts at 128 bytes a chunk, the writer cuts at 4096 and says so first, and what
  follows comes back message by message whatever its sizes.
   */
  lemma SessionRoundTrip(ms: seq<Message>)
    requires forall m | m in ms :: m.Valid() && CsidAgreed(m.csid) && m.typeId != 1
    requires var first := Message(2, 0, 1, 0, [0, 0, 0x10, 0]); NoneDrops(HeadersAfter(map[], first), ms)
    ensures var first := Message(2, 0, 1, 0, [0, 0, 0x10, 0]);
            var opening := [2, 0, 0, 0, 0, 0, 4, 1, 0, 0, 0, 0, 0, 0, 0x10, 0];
            var p := U.Pump(U.NEW_READER.(buf := opening + EncodeAll(HeadersAfter(map[], first), 4096, ms)));
            Messages(p.chunks) == [first] + ms && p.status == U.Waiting && p.r.buf == []
  {
    var first := Message(2, 0, 1, 0, [0, 0, 0x10, 0]);
    AnnouncedSize();
    AgreedAreSendable(4096, ms);
    FreshSynced();
    hide Sendable, SizeAfter, Synced, Encode, HeadersAfter, DropsExtension, CsidAgreed, U.Pump, Messages;
    var all := [first] + ms;
    assert all[0] == first && all[1..] == ms;
    RunRoundTrip(map[], U.NEW_READER, 4096, all);
  }

  // ---------- Chunk by chunk: exactly when the reader keeps up ----------

  predicate Between(r: U.Reader) {
    r.buf == [] && r.state == U.InBasicHeader
  }

  function FedAll(r: U.Reader, chunks: seq<Bytes>): U.Reader
    decreases |chunks|
  {
    if chunks == [] then r else FedAll(U.Pump(Feed(r, chunks[0])).r, chunks[1..])
  }

  /**
  Each chunk as it arrives leaves nothing behind and puts the reader between chunks; the
  last one, and only the last, makes it hand on the message.
   */
  predicate KeepsUp(r: U.Reader, chunks: seq<Bytes>, m: Message)
    requires chunks != []
    decreases |chunks|
  {
    var p := U.Pump(Feed(r, chunks[0]));
    && p.status == U.Waiting && Between(p.r)
    && if |chunks| == 1 then Messages(p.chunks) == [m] else p.chunks == [] && KeepsUp(p.r, chunks[1..], m)
  }

  predicate RunKeepsUp(headers: Headers, r: U.Reader, size: nat, ms: seq<Message>)
    requires size > 0 && forall m | m in ms :: m.Valid()
    decreases |ms|
  {
    ms != [] ==>
      var chunks := Chunks(headers, ms[0].ToChunk(), size);
      KeepsUp(r, chunks, ms[0]) && RunKeepsUp(HeadersAfter(headers, ms[0]), FedAll(r, chunks), size, ms[1..])
  }

  /** The session's reader after the message, its chunk size updated if that is what it said. */
  function Settled(headers: Headers, r: U.Reader, m: Message, size: nat): U.Reader
    requires m.Valid()
  {
    var r' := AfterMessage(headers, r, m, size, []);
    r'.(maxChunkSize := SizeAfter(r.maxChunkSize, m))
  }

  lemma HandedDry(headers: Headers, r: U.Reader, c: ChunkInfo)
    requires Synced(headers, r) && r.buf == []
    requires c.header.typeId == SET_CHUNK_SIZE ==> |c.payload| >= 4
    ensures var r' := r.(maxChunkSize := SizeAfter(r.maxChunkSize, FromChunk(c)));
            Handed(r, c) == U.Pumped([c], r', U.Waiting, false, true) && Synced(headers, r')
  {
    ApplyKeepsSynced(headers, r, c);
    Idle(headers, U.Apply(r, c).value);
    hide U.Pump;
  }

  lemma DryBetween(r: U.Reader)
    requires Between(r)
    ensures U.Pump(r) == U.Pumped([], r, U.Waiting, false, true)
  {
  }

  /** The reader after some chunks of a message but not all. */
  ghost predicate PartWay(headers: Headers, r: U.Reader, o: U.Reader, m: Message, size: nat, left: Bytes) {
    && Sendable(r.maxChunkSize, size, m) && Synced(headers, r)
    && |m.payload| > size == r.maxChunkSize
    && o.payload != [] && left != [] && o.payload + left == m.payload
    && o == Opened(r, Zip(headers, m.ToChunk()), []).(format := o.format, payload := o.payload, state := U.InBasicHeader)
  }

  lemma LastKeepsUp(headers: Headers, r: U.Reader, o: U.Reader, m: Message, size: nat, left: Bytes)
    requires PartWay(headers, r, o, m, size, left) && |left| <= size
    ensures U.Pump(Feed(o, Separator(Zip(headers, m.ToChunk())) + left)) ==
            U.Pumped([Received(headers, m, size)], Settled(headers, r, m, size), U.Waiting, false, m.csid < 64)
  {
    var z := Zip(headers, m.ToChunk());
    assert z.csid == m.csid && z.payload == m.payload && z.header.length == |m.payload|;
    var sep, b := Separator(z), o.(format := 3, state := U.InMessagePayload);
    StaysSynced(headers, r, m, size, []);
    hide Separator, Zip, U.Pump, Handed, Synced, Remember, Remembered;
    SeparatorRead(o, z, left);
    LastChunkFilled(b, size, left, []);
    Regroup3([], left, [], left);
    assert Closed(b, 3, []) == AfterMessage(headers, r, m, size, []);
    HandedDry(HeadersAfter(headers, m), AfterMessage(headers, r, m, size, []), Received(headers, m, size));
    assert Feed(o, sep + left) == o.(buf := sep + left);
  }

  lemma NextKeepsUp(headers: Headers, r: U.Reader, o: U.Reader, m: Message, size: nat, left: Bytes) returns (o': U.Reader)
    requires PartWay(headers, r, o, m, size, left) && |left| > size
    ensures U.Pump(Feed(o, Separator(Zip(headers, m.ToChunk())) + left[..size])) ==
            U.Pumped([], o', U.Waiting, false, m.csid < 64)
    ensures PartWay(headers, r, o', m, size, left[size..]) && Between(o')
  {
    var z := Zip(headers, m.ToChunk());
    assert z.csid == m.csid && z.payload == m.payload && z.header.length == |m.payload|;
    var sep, b := Separator(z), o.(format := 3, state := U.InMessagePayload);
    var piece, more := left[..size], left[size..];
    o' := b.(payload := o.payload + piece, state := U.InBasicHeader);
    hide Separator, Zip, U.Pump, Synced, Remember, Remembered;
    Regroup3(o.payload, piece, more, left);
    SeparatorRead(o, z, piece);
    Regroup3([], piece, [], piece);
    ChunkFilled(b, piece, []);
    DryBetween(o');
    assert Feed(o, sep + piece) == o.(buf := sep + piece);
  }

  // From the second chunk on.
  lemma {:induction false} TailKeepsUp(headers: Headers, r: U.Reader, o: U.Reader, m: Message, size: nat, left: Bytes)
    requires PartWay(headers, r, o, m, size, left)
    ensures var sep := Separator(Zip(headers, m.ToChunk()));
            var chunks := Cut(sep, sep, left, size);
            KeepsUp(o, chunks, m) && FedAll(o, chunks) == Settled(headers, r, m, size)
    decreases |left|
  {
    var sep := Separator(Zip(headers, m.ToChunk()));
    StaysSynced(headers, r, m, size, []);
    hide Separator, Zip, U.Pump, Synced, Remember, Remembered;
    if |left| <= size {
      LastKeepsUp(headers, r, o, m, size, left);
      assert Messages([Received(headers, m, size)]) == [m];
    } else {
      var o' := NextKeepsUp(headers, r, o, m, size, left);
      TailKeepsUp(headers, r, o', m, size, left[size..]);
    }
  }

  lemma OneChunk(headers: Headers, m: Message, size: nat)
    requires m.Valid() && size > 0 && |m.payload| <= size
    ensures Chunks(headers, m.ToChunk(), size) == [Encode(headers, m.ToChunk(), size)]
  {
    var z := Zip(headers, m.ToChunk());
    assert z.payload == m.payload;
    var chunks := Chunks(headers, m.ToChunk(), size);
    assert chunks[1..] == [];
    assert chunks == [Lead(z) + m.payload];
    Regroup3([], Lead(z) + m.payload, [], Lead(z) + m.payload);
    assert Flatten(chunks) == chunks[0] + [];
  }

  lemma OneChunkKeepsUp(headers: Headers, r: U.Reader, m: Message, size: nat)
    requires Synced(headers, r) && r.buf == [] && Sendable(r.maxChunkSize, size, m)
    requires !DropsExtension(headers, m.ToChunk()) && |m.payload| <= size
    ensures var chunks := Chunks(headers, m.ToChunk(), size);
            KeepsUp(r, chunks, m) && FedAll(r, chunks) == Settled(headers, r, m, size)
  {
    var chunks := Chunks(headers, m.ToChunk(), size);
    MessageRoundTrip(headers, r, m, size, []);
    hide Lead, Separator, Zip, U.Pump, Handed, Synced, Remember, Remembered, Opened, Closed, Received;
    HandedDry(HeadersAfter(headers, m), AfterMessage(headers, r, m, size, []), Received(headers, m, size));
    OneChunk(headers, m, size);
    hide Chunks, Encode, AfterMessage;
    Regroup3([], chunks[0], [], chunks[0]);
    assert Feed(r, chunks[0]) == r.(buf := chunks[0] + []);
    assert Messages([Received(headers, m, size)]) == [m];
  }

  function Started(headers: Headers, r: U.Reader, m: Message, size: nat): U.Reader
    requires m.Valid() && |m.payload| > size
  {
    Opened(r, Zip(headers, m.ToChunk()), []).(payload := m.payload[..size], state := U.InBasicHeader)
  }

  lemma FirstKeepsUp(headers: Headers, r: U.Reader, m: Message, size: nat)
    requires Synced(headers, r) && r.buf == [] && Sendable(r.maxChunkSize, size, m)
    requires !DropsExtension(headers, m.ToChunk()) && |m.payload| > size
    ensures U.Pump(Feed(r, Lead(Zip(headers, m.ToChunk())) + m.payload[..size])) ==
            U.Pumped([], Started(headers, r, m, size), U.Waiting, false, m.csid < 64)
  {
    var z := Zip(headers, m.ToChunk());
    assert z.header.length == |m.payload|;
    var piece, b := m.payload[..size], Opened(r, z, []);
    hide Lead, Zip, U.Pump, Synced, Remembered;
    LeadRead(headers, r, m, piece);
    FirstFilled(b, piece);
    assert Feed(r, Lead(z) + piece) == r.(buf := Lead(z) + piece);
  }

  lemma StartedPartWay(headers: Headers, r: U.Reader, m: Message, size: nat)
    requires Synced(headers, r) && r.buf == [] && Sendable(r.maxChunkSize, size, m)
    requires |m.payload| > size
    ensures PartWay(headers, r, Started(headers, r, m, size), m, size, m.payload[size..])
    ensures Between(Started(headers, r, m, size))
  {
    hide Zip, Synced, Remembered, CsidAgreed;
  }

  lemma FirstFilled(b: U.Reader, piece: Bytes)
    requires b.state == U.InMessagePayload && b.payload == [] && b.buf == []
    requires |piece| < b.header.length && |piece| == b.maxChunkSize
    ensures var o := b.(payload := piece, state := U.InBasicHeader);
            U.Pump(b.(buf := piece)) == U.Pumped([], o, U.Waiting, false, true)
  {
    Regroup3(piece, [], [], []);
    assert piece + [] == piece && [] + piece == piece;
    hide U.Pump;
    ChunkFilled(b, piece, []);
    DryBetween(b.(payload := piece, state := U.InBasicHeader));
  }

  lemma MessageKeepsUp(headers: Headers, r: U.Reader, m: Message, size: nat)
    requires Synced(headers, r) && r.buf == [] && Sendable(r.maxChunkSize, size, m)
    requires !DropsExtension(headers, m.ToChunk())
    ensures var chunks := Chunks(headers, m.ToChunk(), size);
            KeepsUp(r, chunks, m) && FedAll(r, chunks) == Settled(headers, r, m, size)
  {
    if |m.payload| <= size {
      OneChunkKeepsUp(headers, r, m, size);
    } else {
      assert Zip(headers, m.ToChunk()).payload == m.payload;
      hide Lead, Separator, Zip, U.Pump, Synced, Remembered;
      FirstKeepsUp(headers, r, m, size);
      StartedPartWay(headers, r, m, size);
      TailKeepsUp(headers, r, Started(headers, r, m, size), m, size, m.payload[size..]);
    }
  }

  /**
  Where the extension is dropped the reader takes four bytes of the payload for it, and is
  left in the middle of the message's first chunk.
   */
  lemma DroppedFallsBehind(headers: Headers, r: U.Reader, m: Message, size: nat)
    requires Synced(headers, r) && r.buf == [] && Sendable(r.maxChunkSize, size, m)
    requires DropsExtension(headers, m.ToChunk())
    ensures !KeepsUp(r, Chunks(headers, m.ToChunk(), size), m)
  {
    var z := Zip(headers, m.ToChunk());
    assert z.payload == m.payload;
    var piece := if |m.payload| <= size then m.payload else m.payload[..size];
    assert Lead(z) + piece == BasicHeaderBytes(z.format, z.csid) + piece;
    BasicHeaderRead(headers, r, m.ToChunk(), piece);
    var a := BasicRead(r, z, piece);
    assert Feed(r, Lead(z) + piece) == r.(buf := BasicHeaderBytes(z.format, z.csid) + piece);
    var h := a.(state := U.InExtendedTimestamp);
    InheritedHeaderRead(a);
    PumpThroughHeader(a);
    MisreadStarves(h, size, m.payload, piece);
    hide U.Pump, Lead, Zip, Synced;
  }

  lemma MisreadStarves(h: U.Reader, size: nat, payload: Bytes, piece: Bytes)
    requires h.state == U.InExtendedTimestamp && h.header.ext != NoExtension && h.payload == []
    requires h.header.length == |payload| && h.buf == piece
    requires SizesAgree(size, h.maxChunkSize, |payload|)
    requires piece == if |payload| <= size then payload else payload[..size]
    ensures !Between(U.Pump(h).r)
  {
    if |piece| >= 4 {
      var o := U.ExtendedTimestamp(h).r;
      assert U.MessagePayload(o) == U.Starved(o);
    }
  }

  /**
  The exact condition: on every run the reader keeps up with the writer chunk by chunk and
  message by message if and only if no message drops an extended timestamp.
   */
  lemma {:induction false} KeepsUpExactly(headers: Headers, r: U.Reader, size: nat, ms: seq<Message>)
    requires Synced(headers, r) && r.buf == []
    requires size > 0 && AllSendable(r.maxChunkSize, size, ms)
    requires forall m | m in ms :: m.Valid()
    ensures RunKeepsUp(headers, r, size, ms) <==> NoneDrops(headers, ms)
    decreases |ms|
  {
    if ms != [] {
      var m := ms[0];
      if DropsExtension(headers, m.ToChunk()) {
        DroppedFallsBehind(headers, r, m, size);
      } else {
        MessageKeepsUp(headers, r, m, size);
        StaysSynced(headers, r, m, size, []);
        hide Synced, Chunks, U.Pump, KeepsUp, FedAll, DropsExtension, Zip, Remember, Remembered, Opened, Closed;
        SettledSynced(headers, r, m, size);
        KeepsUpExactly(HeadersAfter(headers, m), Settled(headers, r, m, size), size, ms[1..]);
      }
    }
  }

  lemma SettledSynced(headers: Headers, r: U.Reader, m: Message, size: nat)
    requires m.Valid() && Synced(headers, r)
    ensures var s := Settled(headers, r, m, size);
            Synced(HeadersAfter(headers, m), s) && s.buf == [] && s.maxChunkSize == SizeAfter(r.maxChunkSize, m)
  {
    StaysSynced(headers, r, m, size, []);
  }

  /** Two equal messages past 2^24 - 1 milliseconds are enough: the second is never handed on. */
  lemma DroppedExample()
    ensures var m := Message(4, 0x100_0000, 8, 1, [7]);
            var chunk := Chunks(HeadersAfter(map[], m), m.ToChunk(), CHUNK_SIZE);
            && DropsExtension(HeadersAfter(map[], m), m.ToChunk())
            && !KeepsUp(Settled(map[], U.NEW_READER.(maxChunkSize := CHUNK_SIZE), m, CHUNK_SIZE), chunk, m)
  {
    var m, r := Message(4, 0x100_0000, 8, 1, [7]), U.NEW_READER.(maxChunkSize := CHUNK_SIZE);
    assert Synced(map[], r);
    SettledSynced(map[], r, m, CHUNK_SIZE);
    DroppedFallsBehind(HeadersAfter(map[], m), Settled(map[], r, m, CHUNK_SIZE), m, CHUNK_SIZE);
  }
}
