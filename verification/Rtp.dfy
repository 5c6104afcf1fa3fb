/**
RTP packets (protocol/rtsp/src/rtp/rtp_header.rs, protocol/rtsp/src/rtp/mod.rs): the fixed
header of section 5.1 of RFC 3550, its extension and padding.
 */
module Rtp {
  import opened Bytesio

  const FIXED_HEADER_LEN: nat := 12

  type Bit = x: int | 0 <= x < 2
  type Version = x: int | 0 <= x < 4
  type CsrcCount = x: int | 0 <= x < 16
  type PayloadType = x: int | 0 <= x < 128

  /** Each field holds no more bits than the header has for it. */
  datatype Header = Header(
    version: Version,
    paddingFlag: Bit,
    extensionFlag: Bit,
    cc: CsrcCount,
    marker: Bit,
    payloadType: PayloadType,
    seqNumber: u16,
    timestamp: u32,
    ssrc: u32,
    csrcs: seq<u32>)

  datatype Packet = Packet(
    header: Header,
    extensionProfile: u16,
    extensionLength: u16,
    extensionPayload: Bytes,
    payload: Bytes,
    padding: Bytes)

  function NewPacket(header: Header): Packet {
    Packet(header, 0, 0, [], [], [])
  }

  // ---------- Marshal ----------

  function Words(xs: seq<u32>): (b: Bytes)
    ensures |b| == 4 * |xs|
  {
    if xs == [] then [] else U32Be(xs[0]) + Words(xs[1..])
  }

  /** The twelve bytes every packet starts with. */
  function FixedHeader(h: Header): (b: Bytes)
    ensures |b| == FIXED_HEADER_LEN
  {
    [h.version * 64 + h.paddingFlag * 32 + h.extensionFlag * 16 + h.cc, h.marker * 128 + h.payloadType]
    + U16Be(h.seqNumber) + U32Be(h.timestamp) + U32Be(h.ssrc)
  }

  function MarshalHeader(h: Header): Bytes {
    FixedHeader(h) + Words(h.csrcs)
  }

  function ExtensionBytes(p: Packet): Bytes {
    if p.header.extensionFlag == 1 then
      U16Be(p.extensionProfile) + U16Be(p.extensionLength) + p.extensionPayload
    else []
  }

  function PaddingBytes(p: Packet): Bytes {
    if p.header.paddingFlag == 1 then p.padding else []
  }

  function Marshal(p: Packet): Bytes {
    MarshalHeader(p.header) + ExtensionBytes(p) + p.payload + PaddingBytes(p)
  }

  // ---------- Unmarshal ----------

  function ReadWords(b: Bytes, n: nat): Result<(seq<u32>, Bytes)> {
    if n == 0 then Ok(([], b))
    else if |b| < 4 then Err(NotEnoughBytes)
    else
      var (xs, rest) :- ReadWords(b[4..], n - 1);
      Ok(([FromU32Be(b[..4])] + xs, rest))
  }

  function ReadFixedHeader(b: Bytes): Result<(Header, Bytes)> {
    if |b| < FIXED_HEADER_LEN then Err(NotEnoughBytes)
    else
      Ok((Header(b[0] / 64, b[0] / 32 % 2, b[0] / 16 % 2, b[0] % 16, b[1] / 128, b[1] % 128,
                 FromU16Be(b[2..4]), FromU32Be(b[4..8]), FromU32Be(b[8..12]), []),
          b[12..]))
  }

  function UnmarshalHeader(b: Bytes): Result<(Header, Bytes)> {
    var (h, rest) :- ReadFixedHeader(b);
    var (csrcs, rest') :- ReadWords(rest, h.cc);
    Ok((h.(csrcs := csrcs), rest'))
  }

  function ReadExtension(p: Packet, b: Bytes): Result<(Packet, Bytes)> {
    if p.header.extensionFlag != 1 then Ok((p, b))
    else if |b| < 4 then Err(NotEnoughBytes)
    else
      var length := FromU16Be(b[2..4]);
      if |b| < 4 + 4 * length as int then Err(NotEnoughBytes)
      else
        Ok((p.(extensionProfile := FromU16Be(b[..2]), extensionLength := length,
               extensionPayload := b[4..4 + 4 * length as int]),
            b[4 + 4 * length as int..]))
  }

  /** The last byte of a padded packet counts the padding; an empty remainder underflows. */
  function ReadPayload(p: Packet, b: Bytes): Result<Packet> {
    if p.header.paddingFlag != 1 then Ok(p.(payload := b))
    else if b == [] then Err(Overflow)
    else if b[|b| - 1] as int > |b| then Err(Overflow)
    else
      var n := |b| - b[|b| - 1] as int;
      Ok(p.(payload := b[..n], padding := b[n..]))
  }

  function Unmarshal(b: Bytes): Result<Packet> {
    var (h, rest) :- UnmarshalHeader(b);
    var (p, rest') :- ReadExtension(NewPacket(h), rest);
    ReadPayload(p, rest')
  }

  // ---------- Round trip ----------

  /** What the count, the flags and the lengths of a packet say about it is so. */
  predicate Consistent(p: Packet) {
    && |p.header.csrcs| == p.header.cc
    && (if p.header.extensionFlag == 1 then |p.extensionPayload| == 4 * p.extensionLength
        else p.extensionProfile == 0 && p.extensionLength == 0 && p.extensionPayload == [])
    && (if p.header.paddingFlag == 1 then
          var tail := p.payload + p.padding;
          tail != [] && tail[|tail| - 1] as int == |p.padding|
        else p.padding == [])
  }

  lemma {:induction false} WordsRead(xs: seq<u32>, rest: Bytes)
    ensures ReadWords(Words(xs) + rest, |xs|) == Ok((xs, rest))
  {
    hide U32Be, FromU32Be;
    if xs == [] {
      assert [] + rest == rest;
    } else {
      var b, more := Words(xs) + rest, Words(xs[1..]) + rest;
      WordsRead(xs[1..], rest);
      Concat3(U32Be(xs[0]), Words(xs[1..]), rest);
      TakeDrop(U32Be(xs[0]), more);
      U32RoundTrip(xs[0]);
      assert b[..4] == U32Be(xs[0]) && b[4..] == more;
      assert [xs[0]] + xs[1..] == xs;
    }
  }

  lemma FixedHeaderRead(h: Header, rest: Bytes)
    ensures ReadFixedHeader(FixedHeader(h) + rest) == Ok((h.(csrcs := []), rest))
  {
    hide FixedHeader, U16Be, U32Be, FromU16Be, FromU32Be;
    FixedLayout(h, rest);
    FlagBits(h);
    U16RoundTrip(h.seqNumber);
    U32RoundTrip(h.timestamp);
    U32RoundTrip(h.ssrc);
  }

  lemma FixedLayout(h: Header, rest: Bytes)
    ensures var b := FixedHeader(h) + rest;
            && b[0] == h.version * 64 + h.paddingFlag * 32 + h.extensionFlag * 16 + h.cc && b[1] == h.marker * 128 + h.payloadType
            && b[2..4] == U16Be(h.seqNumber) && b[4..8] == U32Be(h.timestamp) && b[8..12] == U32Be(h.ssrc) && b[12..] == rest
  {
  }

  /** The fixed header in plain numbers, as section 5.1 of RFC 3550 lays it out. */
  lemma FixedBytes(h: Header)
    ensures var s, t, x := h.seqNumber, h.timestamp, h.ssrc;
            FixedHeader(h) ==
            [h.version * 64 + h.paddingFlag * 32 + h.extensionFlag * 16 + h.cc, h.marker * 128 + h.payloadType,
             s / 256, s % 256, t / 16777216, t / 65536 % 256, t / 256 % 256, t % 256,
             x / 16777216, x / 65536 % 256, x / 256 % 256, x % 256]
  {
  }

  lemma FlagBits(h: Header)
    ensures var b := h.version * 64 + h.paddingFlag * 32 + h.extensionFlag * 16 + h.cc;
            b / 64 == h.version && b / 32 % 2 == h.paddingFlag && b / 16 % 2 == h.extensionFlag && b % 16 == h.cc
    ensures var b := h.marker * 128 + h.payloadType; b / 128 == h.marker && b % 128 == h.payloadType
  {
    FirstOctet(h.version, h.paddingFlag, h.extensionFlag, h.cc);
  }

  lemma FirstOctet(v: int, p: int, x: int, cc: int)
    requires 0 <= p < 2 && 0 <= x < 2 && 0 <= cc < 16
    ensures var b := v * 64 + p * 32 + x * 16 + cc; b / 64 == v && b / 32 % 2 == p && b / 16 % 2 == x && b % 16 == cc
  {
    var b := v * 64 + p * 32 + x * 16 + cc;
    Quotients(b, v, p, x, cc);
    LastBit(v, p);
    LastBit(v * 2 + p, x);
  }

  lemma Quotients(b: int, v: int, p: int, x: int, cc: int)
    requires 0 <= p < 2 && 0 <= x < 2 && 0 <= cc < 16 && b == v * 64 + p * 32 + x * 16 + cc
    ensures b / 64 == v && b / 32 == v * 2 + p && b / 16 == (v * 2 + p) * 2 + x && b % 16 == cc
  {
  }

  lemma LastBit(q: int, d: int)
    requires 0 <= d < 2
    ensures (q * 2 + d) % 2 == d
  {
  }

  lemma HeaderRead(h: Header, rest: Bytes)
    requires |h.csrcs| == h.cc
    ensures UnmarshalHeader(MarshalHeader(h) + rest) == Ok((h, rest))
  {
    hide FixedHeader, ReadFixedHeader;
    assert MarshalHeader(h) + rest == FixedHeader(h) + (Words(h.csrcs) + rest);
    FixedHeaderRead(h, Words(h.csrcs) + rest);
    WordsRead(h.csrcs, rest);
  }

  lemma ExtensionRead(p: Packet, rest: Bytes)
    requires Consistent(p)
    ensures ReadExtension(NewPacket(p.header), ExtensionBytes(p) + rest) ==
            Ok((p.(payload := [], padding := []), rest))
  {
    if p.header.extensionFlag == 1 {
      var b := ExtensionBytes(p) + rest;
      U16RoundTrip(p.extensionProfile);
      U16RoundTrip(p.extensionLength);
      assert b[..2] == U16Be(p.extensionProfile) && b[2..4] == U16Be(p.extensionLength);
      assert b[4..4 + |p.extensionPayload|] == p.extensionPayload;
      assert b[4 + |p.extensionPayload|..] == rest;
    } else {
      assert [] + rest == rest;
    }
  }

  lemma PayloadRead(p: Packet)
    requires Consistent(p)
    ensures ReadPayload(p.(payload := [], padding := []), p.payload + PaddingBytes(p)) == Ok(p)
  {
    var b := p.payload + PaddingBytes(p);
    if p.header.paddingFlag == 1 {
      assert b[..|p.payload|] == p.payload && b[|p.payload|..] == p.padding;
    } else {
      assert b == p.payload;
    }
  }

  lemma {:induction false} WordsCounted(b: Bytes, n: nat)
    ensures ReadWords(b, n).Ok? ==> |ReadWords(b, n).value.0| == n
  {
    if n > 0 && |b| >= 4 {
      WordsCounted(b[4..], n - 1);
    }
  }

  // Whatever bytes it is given, the parser only ever returns consistent packets.
  lemma UnmarshalConsistent(b: Bytes)
    ensures Unmarshal(b).Ok? ==> Consistent(Unmarshal(b).value)
  {
    var header := ReadFixedHeader(b);
    if header.Ok? {
      WordsCounted(header.value.1, header.value.0.cc);
    }
  }

  /** A packet survives the wire exactly when its count, flags and lengths are true of it. */
  lemma PacketRoundTrip(p: Packet)
    ensures Unmarshal(Marshal(p)) == Ok(p) <==> Consistent(p)
  {
    if Consistent(p) {
      var body := p.payload + PaddingBytes(p);
      assert Marshal(p) == MarshalHeader(p.header) + (ExtensionBytes(p) + body);
      HeaderRead(p.header, ExtensionBytes(p) + body);
      ExtensionRead(p, body);
      PayloadRead(p);
    } else {
      UnmarshalConsistent(Marshal(p));
    }
  }

  // ---------- The methods ----------

  method MarshalHeaderBytes(h: Header) returns (b: Bytes)
    ensures b == MarshalHeader(h)
  {
    var writer := new BytesWriter();
    writer.WriteU8(h.version * 64 + h.paddingFlag * 32 + h.extensionFlag * 16 + h.cc);
    writer.WriteU8(h.marker * 128 + h.payloadType);
    writer.WriteU16Be(h.seqNumber);
    writer.WriteU32Be(h.timestamp);
    writer.WriteU32Be(h.ssrc);
    assert writer.bytes == FixedHeader(h);
    hide FixedHeader, U32Be;
    for i := 0 to |h.csrcs|
      invariant writer.bytes == FixedHeader(h) + Words(h.csrcs[..i])
    {
      WordsSnoc(h.csrcs, i);
      writer.WriteU32Be(h.csrcs[i]);
    }
    assert h.csrcs[..|h.csrcs|] == h.csrcs;
    b := writer.ExtractCurrentBytes();
  }

  method MarshalPacket(p: Packet) returns (b: Bytes)
    ensures b == Marshal(p)
  {
    hide MarshalHeader, U16Be;
    var writer := new BytesWriter();
    var header := MarshalHeaderBytes(p.header);
    writer.Write(header);
    if p.header.extensionFlag == 1 {
      writer.WriteU16Be(p.extensionProfile);
      writer.WriteU16Be(p.extensionLength);
      writer.Write(p.extensionPayload);
    }
    assert writer.bytes == MarshalHeader(p.header) + ExtensionBytes(p);
    writer.Write(p.payload);
    if p.header.paddingFlag == 1 {
      writer.Write(p.padding);
    }
    b := writer.ExtractCurrentBytes();
  }

  lemma {:induction false} WordsSnoc(xs: seq<u32>, i: nat)
    requires i < |xs|
    ensures Words(xs[..i + 1]) == Words(xs[..i]) + U32Be(xs[i])
  {
    if i == 0 {
      assert xs[..1] == [xs[0]] && xs[..1][1..] == [];
    } else {
      WordsSnoc(xs[1..], i - 1);
      assert xs[..i + 1][1..] == xs[1..][..i] && xs[..i][1..] == xs[1..][..i - 1];
    }
  }

  method UnmarshalPacket(reader: BytesReader) returns (r: Result<Packet>)
    modifies reader
    ensures r == Unmarshal(old(reader.buffer))
  {
    hide ReadFixedHeader, ReadWords, ReadExtension, ReadPayload;
    var h :- UnmarshalHeaderFrom(reader);
    var p :- ReadExtensionFrom(NewPacket(h), reader);
    r := ReadPayloadFrom(p, reader);
  }

  method ReadExtensionFrom(p: Packet, reader: BytesReader) returns (r: Result<Packet>)
    modifies reader
    ensures match ReadExtension(p, old(reader.buffer))
            case Ok((p', rest)) => r == Ok(p') && reader.buffer == rest
            case Err(e) => r == Err(e)
  {
    if p.header.extensionFlag != 1 {
      return Ok(p);
    }
    ghost var b := reader.buffer;
    var profile :- reader.ReadU16Be();
    var length :- reader.ReadU16Be();
    assert reader.buffer == b[4..];
    assert b[2..][..2] == b[2..4];
    var size: nat := 4 * length as int;
    var extension :- reader.ReadBytes(size);
    assert b[4..][..size] == b[4..4 + size] && b[4..][size..] == b[4 + size..];
    return Ok(p.(extensionProfile := profile, extensionLength := length, extensionPayload := extension));
  }

  method ReadPayloadFrom(p: Packet, reader: BytesReader) returns (r: Result<Packet>)
    modifies reader
    ensures r == ReadPayload(p, old(reader.buffer))
  {
    if p.header.paddingFlag == 1 {
      var n := |reader.buffer|;
      if n == 0 || reader.buffer[n - 1] as int > n {
        return Err(Overflow);
      }
      var paddingLength := reader.buffer[n - 1] as int;
      assert reader.buffer[n - paddingLength..][..paddingLength] == reader.buffer[n - paddingLength..];
      var payload := reader.ReadBytes(n - paddingLength);
      var padding := reader.ReadBytes(paddingLength);
      return Ok(p.(payload := payload.value, padding := padding.value));
    }
    var payload := reader.ExtractRemainingBytes();
    return Ok(p.(payload := payload));
  }

  method UnmarshalHeaderFrom(reader: BytesReader) returns (r: Result<Header>)
    modifies reader
    ensures match UnmarshalHeader(old(reader.buffer))
            case Ok((h, rest)) => r == Ok(h) && reader.buffer == rest
            case Err(e) => r == Err(e)
  {
    var h :- ReadFixedHeaderFrom(reader);
    hide ReadFixedHeader;
    var csrcs :- ReadWordsFrom(reader, h.cc);
    return Ok(h.(csrcs := csrcs));
  }

  method ReadFixedHeaderFrom(reader: BytesReader) returns (r: Result<Header>)
    modifies reader
    ensures match ReadFixedHeader(old(reader.buffer))
            case Ok((h, rest)) => r == Ok(h) && reader.buffer == rest
            case Err(e) => r == Err(e)
  {
    ghost var b := reader.buffer;
    hide FromU16Be, FromU32Be;
    var byte1 :- reader.ReadU8();
    var byte2 :- reader.ReadU8();
    assert reader.buffer == b[2..];
    var seqNumber :- reader.ReadU16Be();
    assert reader.buffer == b[4..] && b[2..][..2] == b[2..4];
    var timestamp :- reader.ReadU32Be();
    assert reader.buffer == b[8..] && b[4..][..4] == b[4..8];
    var ssrc :- reader.ReadU32Be();
    assert reader.buffer == b[12..] && b[8..][..4] == b[8..12];
    return Ok(Header(byte1 / 64, byte1 / 32 % 2, byte1 / 16 % 2, byte1 % 16, byte2 / 128, byte2 % 128,
                     seqNumber, timestamp, ssrc, []));
  }

  lemma PrefixedSnoc(xs: seq<u32>, b: Bytes, n: nat)
    requires n > 0
    ensures |b| < 4 ==> Prefixed(xs, ReadWords(b, n)) == Err(NotEnoughBytes)
    ensures |b| >= 4 ==>
              Prefixed(xs, ReadWords(b, n)) == Prefixed(xs + [FromU32Be(b[..4])], ReadWords(b[4..], n - 1))
  {
    if |b| >= 4 && ReadWords(b[4..], n - 1).Ok? {
      var ys := ReadWords(b[4..], n - 1).value.0;
      assert xs + ([FromU32Be(b[..4])] + ys) == xs + [FromU32Be(b[..4])] + ys;
    }
  }

  method ReadWordsFrom(reader: BytesReader, n: nat) returns (r: Result<seq<u32>>)
    modifies reader
    ensures match ReadWords(old(reader.buffer), n)
            case Ok((xs, rest)) => r == Ok(xs) && reader.buffer == rest
            case Err(e) => r == Err(e)
  {
    var csrcs: seq<u32> := [];
    ghost var whole := ReadWords(reader.buffer, n);
    assert whole.Ok? ==> [] + whole.value.0 == whole.value.0;
    for i := 0 to n
      invariant whole == Prefixed(csrcs, ReadWords(reader.buffer, n - i))
    {
      PrefixedSnoc(csrcs, reader.buffer, n - i);
      hide ReadWords, FromU32Be;
      var csrc :- reader.ReadU32Be();
      csrcs := csrcs + [csrc];
    }
    assert csrcs + [] == csrcs;
    return Ok(csrcs);
  }

  // ---------- What is read is what was there ----------

  lemma Octets(b: u8)
    ensures b / 64 * 64 + b / 32 % 2 * 32 + b / 16 % 2 * 16 + b % 16 == b
    ensures b / 128 * 128 + b % 128 == b
  {
    assert b / 32 == b / 64 * 2 + b / 32 % 2 && b / 16 == b / 32 * 2 + b / 16 % 2;
  }

  lemma FixedWhole(b: Bytes)
    requires ReadFixedHeader(b).Ok?
    ensures var (h, rest) := ReadFixedHeader(b).value; h.csrcs == [] && FixedHeader(h) + rest == b
  {
    Octets(b[0]);
    Octets(b[1]);
    U16Whole(b[2..4]);
    U32Whole(b[4..8]);
    U32Whole(b[8..12]);
    hide U16Be, U32Be, FromU16Be, FromU32Be;
    assert b == [b[0], b[1]] + b[2..4] + b[4..8] + b[8..12] + b[12..];
  }

  lemma {:induction false} WordsWhole(b: Bytes, n: nat)
    requires ReadWords(b, n).Ok?
    ensures var (xs, rest) := ReadWords(b, n).value; Words(xs) + rest == b
    decreases n
  {
    if n > 0 {
      WordsWhole(b[4..], n - 1);
      U32Whole(b[..4]);
      hide U32Be, FromU32Be;
      var (xs, rest) := ReadWords(b[4..], n - 1).value;
      Concat3(b[..4], Words(xs), rest);
      assert b == b[..4] + b[4..];
    }
  }

  lemma HeaderWhole(b: Bytes)
    requires UnmarshalHeader(b).Ok?
    ensures var (h, rest) := UnmarshalHeader(b).value; MarshalHeader(h) + rest == b
  {
    FixedWhole(b);
    var (h, rest) := ReadFixedHeader(b).value;
    WordsWhole(rest, h.cc);
    hide Words, ReadWords, ReadFixedHeader;
    var (csrcs, rest') := ReadWords(rest, h.cc).value;
    Concat3(FixedHeader(h), Words(csrcs), rest');
  }

  lemma ExtensionWhole(p: Packet, b: Bytes)
    requires ReadExtension(p, b).Ok?
    ensures var (q, rest) := ReadExtension(p, b).value;
            ExtensionBytes(q) + rest == b && q.header == p.header && q.payload == p.payload && q.padding == p.padding
  {
    if p.header.extensionFlag == 1 {
      U16Whole(b[..2]);
      U16Whole(b[2..4]);
      hide U16Be, FromU16Be;
      var n := 4 + 4 * FromU16Be(b[2..4]) as int;
      assert b == b[..2] + b[2..4] + b[4..n] + b[n..];
    }
  }

  lemma PayloadWhole(p: Packet, b: Bytes)
    requires ReadPayload(p, b).Ok?
    ensures var q := ReadPayload(p, b).value; q.payload + PaddingBytes(q) == b && q.header == p.header && ExtensionBytes(q) == ExtensionBytes(p)
  {
  }

  /** Only what marshals to the same bytes is read at all: together with the round trip, bytes are a packet exactly then. */
  lemma UnmarshalInverts(b: Bytes)
    ensures Unmarshal(b).Ok? <==> exists p :: Consistent(p) && Marshal(p) == b
    ensures Unmarshal(b).Ok? ==> Marshal(Unmarshal(b).value) == b
  {
    hide Consistent, Marshal, Unmarshal;
    if Unmarshal(b).Ok? {
      MarshalWhole(b);
      UnmarshalConsistent(b);
    } else if p :| Consistent(p) && Marshal(p) == b {
      PacketRoundTrip(p);
    }
  }

  lemma MarshalWhole(b: Bytes)
    requires Unmarshal(b).Ok?
    ensures Marshal(Unmarshal(b).value) == b
  {
    hide MarshalHeader, ExtensionBytes, PaddingBytes, UnmarshalHeader, ReadExtension, ReadPayload;
    HeaderWhole(b);
    var (h, rest) := UnmarshalHeader(b).value;
    ExtensionWhole(NewPacket(h), rest);
    var (p, rest') := ReadExtension(NewPacket(h), rest).value;
    PayloadWhole(p, rest');
    var q := ReadPayload(p, rest').value;
    Concat3(ExtensionBytes(q), q.payload, PaddingBytes(q));
    Concat3(MarshalHeader(h), ExtensionBytes(q), q.payload + PaddingBytes(q));
    Concat4(MarshalHeader(h), ExtensionBytes(q), q.payload, PaddingBytes(q));
  }
}
