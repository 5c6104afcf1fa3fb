/**
Packetised elementary stream headers (library/container/mpegts/src/pes.rs), and a reader of them
after section 2.4.3.7 of ITU-T H.222.0.
 */
module Pes {
  import opened Bytesio
  import opened Psi

  /** Marks an absent timestamp. */
  const PTS_NO_VALUE: i64 := -0x8000_0000_0000_0000

  const PES_HEADER_LEN: nat := 6

  // ---------- Timestamp fields ----------

  // Shifts of the source are floor divisions here, and casts to u8 remainders, negative values included.
  function TimestampField(prefix: u8, t: i64): (b: Bytes)
    requires prefix <= 0x30
    ensures |b| == 5
  {
    [prefix + t / 0x4000_0000 % 8 * 2 + 1,
     t / 0x40_0000 % 0x100,
     t / 0x8000 % 0x80 * 2 + 1,
     t / 0x80 % 0x100,
     t % 0x80 * 2 + 1]
  }

  /** The 33-bit value of a field, if its prefix is the expected one and its marker bits are set. */
  function ReadTimestamp(prefix: u8, b: Bytes): Option<int>
    requires |b| == 5
  {
    if b[0] / 16 != prefix / 16 || b[0] % 2 == 0 || b[2] % 2 == 0 || b[4] % 2 == 0 then None
    else Some(b[0] as int / 2 % 8 * 0x4000_0000 + b[1] as int * 0x40_0000 + b[2] as int / 2 * 0x8000
              + b[3] as int * 0x80 + b[4] as int / 2)
  }

  /** A timestamp field carries its value modulo 2^33, whatever the sign. */
  lemma TimestampRoundTrip(prefix: u8, t: i64)
    requires prefix in {0x10, 0x20, 0x30}
    ensures ReadTimestamp(prefix, TimestampField(prefix, t)) == Some(t % 0x2_0000_0000)
  {
    DigitsRead(prefix, t / 0x4000_0000 % 8, t / 0x40_0000 % 0x100, t / 0x8000 % 0x80, t / 0x80 % 0x100, t % 0x80);
    Digits(t);
    hide ReadTimestamp;
  }

  lemma DigitsRead(prefix: u8, e: int, d: int, c: int, b: int, a: int)
    requires prefix in {0x10, 0x20, 0x30}
    requires 0 <= e < 8 && 0 <= d < 0x100 && 0 <= c < 0x80 && 0 <= b < 0x100 && 0 <= a < 0x80
    ensures ReadTimestamp(prefix, [prefix + e * 2 + 1, d, c * 2 + 1, b, a * 2 + 1])
         == Some(e * 0x4000_0000 + d * 0x40_0000 + c * 0x8000 + b * 0x80 + a)
  {
  }

  // The 33 bits in groups of 3, 8, 7, 8 and 7.
  lemma Digits(t: int)
    ensures t % 0x2_0000_0000
         == t / 0x4000_0000 % 8 * 0x4000_0000 + t / 0x40_0000 % 0x100 * 0x40_0000 + t / 0x8000 % 0x80 * 0x8000
            + t / 0x80 % 0x100 * 0x80 + t % 0x80
  {
    var t1 := t / 0x80;
    var t2 := t1 / 0x100;
    var t3 := t2 / 0x80;
    var t4 := t3 / 0x100;
    Nested(t);
    Sum(t, t1, t2, t3, t4, t4 / 8);
  }

  lemma Nested(t: int)
    ensures t / 0x80 / 0x100 == t / 0x8000
    ensures t / 0x8000 / 0x80 == t / 0x40_0000
    ensures t / 0x40_0000 / 0x100 == t / 0x4000_0000
  {
  }

  lemma Sum(t: int, t1: int, t2: int, t3: int, t4: int, t5: int)
    requires t1 == t / 0x80 && t2 == t1 / 0x100 && t3 == t2 / 0x80 && t4 == t3 / 0x100 && t5 == t4 / 8
    ensures t % 0x2_0000_0000
         == t4 % 8 * 0x4000_0000 + t3 % 0x100 * 0x40_0000 + t2 % 0x80 * 0x8000 + t1 % 0x100 * 0x80 + t % 0x80
  {
    var r := t4 % 8 * 0x4000_0000 + t3 % 0x100 * 0x40_0000 + t2 % 0x80 * 0x8000 + t1 % 0x100 * 0x80 + t % 0x80;
    assert t == t5 * 0x2_0000_0000 + r;
  }

  // ---------- The header ----------

  predicate HasPts(stream: Stream) {
    stream.pts != PTS_NO_VALUE
  }

  predicate HasDts(stream: Stream) {
    stream.dts != PTS_NO_VALUE && stream.dts != stream.pts
  }

  function PtsField(stream: Stream): Bytes {
    if HasPts(stream) then TimestampField(if HasDts(stream) then 0x30 else 0x20, stream.pts) else []
  }

  function DtsField(stream: Stream): Bytes {
    if HasDts(stream) then TimestampField(0x10, stream.dts) else []
  }

  /** H.264 without access unit delimiters gets one in front of its data. */
  function Delimiter(stream: Stream, withAud: bool): Bytes {
    if stream.codecId == PSI_STREAM_H264 && !withAud then [0x00, 0x00, 0x00, 0x01, 0x09, 0xF0] else []
  }

  function PtsDtsFlags(stream: Stream): u8 {
    (if HasPts(stream) then 0x80 else 0) + (if HasDts(stream) then 0x40 else 0)
  }

  function Flags(stream: Stream): Bytes {
    [if stream.aligned then 0x84 else 0x80, PtsDtsFlags(stream), |PtsField(stream)| + |DtsField(stream)|]
  }

  /** All that follows the packet length. */
  function AfterLength(stream: Stream, withAud: bool): Bytes {
    Flags(stream) + PtsField(stream) + DtsField(stream) + Delimiter(stream, withAud)
  }

  // The start of a packet, before its length is known.
  function Start(stream: Stream): (b: Bytes)
    ensures |b| == PES_HEADER_LEN
  {
    [0x00, 0x00, 0x01, stream.streamId, 0x00, 0x00]
  }

  /** The length of what follows, or zero when sixteen bits cannot hold it. */
  function PacketLength(following: nat): u16 {
    if following > 0xFFFF then 0 else following
  }

  function PesHeader(stream: Stream, withAud: bool, payloadLength: nat): (b: Bytes)
    ensures 9 <= |b| <= 25
  {
    var rest := AfterLength(stream, withAud);
    [0x00, 0x00, 0x01, stream.streamId] + U16Be(PacketLength(|rest| + payloadLength)) + rest
  }

  class PesMuxer {
    var bytesWriter: BytesWriter

    constructor ()
      ensures fresh(bytesWriter) && bytesWriter.bytes == []
    {
      bytesWriter := new BytesWriter();
    }

    method WritePesHeader(payloadLength: nat, stream: Stream, withAud: bool)
      requires bytesWriter.bytes == []
      modifies bytesWriter
      ensures bytesWriter.bytes == PesHeader(stream, withAud, payloadLength)
    {
      hide Start, AfterLength, Flags, PtsField, DtsField, Delimiter;
      WriteStart(stream);
      WriteFlags(stream, withAud);
      ghost var rest := AfterLength(stream, withAud);
      StartThenRest(stream, withAud);
      Patched(stream, PacketLength(|rest| + payloadLength), rest);
      var following := |bytesWriter.bytes| - PES_HEADER_LEN + payloadLength;
      if following > 0xFFFF {
        bytesWriter.WriteU8At(4, 0x00);
        bytesWriter.WriteU8At(5, 0x00);
      } else {
        bytesWriter.WriteU8At(4, following / 0x100 % 0x100);
        bytesWriter.WriteU8At(5, following % 0x100);
      }
    }

    method WriteStart(stream: Stream)
      requires bytesWriter.bytes == []
      modifies bytesWriter
      ensures bytesWriter.bytes == Start(stream)
    {
      bytesWriter.Write([0x00, 0x00, 0x01]);
      bytesWriter.WriteU8(stream.streamId);
      bytesWriter.WriteU8(0x00);
      bytesWriter.WriteU8(0x00);
    }

    method WriteFlags(stream: Stream, withAud: bool)
      requires bytesWriter.bytes == Start(stream)
      modifies bytesWriter
      ensures bytesWriter.bytes
           == Start(stream) + Flags(stream) + PtsField(stream) + DtsField(stream) + Delimiter(stream, withAud)
    {
      bytesWriter.WriteU8(0x80);
      if stream.aligned {
        AlignedFlag();
        bytesWriter.OrU8At(6, 0x04);
      }
      assert bytesWriter.bytes == Start(stream) + [if stream.aligned then 0x84 else 0x80];
      var flags: u8, length: u8 := 0x00, 0x00;
      if PTS_NO_VALUE != stream.pts {
        flags := flags + 0x80;
        length := length + 5;
      }
      if PTS_NO_VALUE != stream.dts && stream.dts != stream.pts {
        flags := flags + 0x40;
        length := length + 5;
      }
      bytesWriter.WriteU8(flags);
      bytesWriter.WriteU8(length);
      assert bytesWriter.bytes == Start(stream) + Flags(stream);
      WriteFields(stream, flags, withAud);
    }

    /** The two timestamp fields and the delimiter. */
    method WriteFields(stream: Stream, flags: u8, withAud: bool)
      requires flags == PtsDtsFlags(stream)
      modifies bytesWriter
      ensures bytesWriter.bytes
           == old(bytesWriter.bytes) + PtsField(stream) + DtsField(stream) + Delimiter(stream, withAud)
    {
      if flags >= 0x80 {
        bytesWriter.Write(TimestampField(flags / 4 / 16 % 4 * 16, stream.pts));
      }
      if flags % 0x80 >= 0x40 {
        bytesWriter.Write(TimestampField(0x10, stream.dts));
      }
      if stream.codecId == PSI_STREAM_H264 && !withAud {
        bytesWriter.Write([0x00, 0x00, 0x00, 0x01, 0x09, 0xF0]);
      }
    }
  }

  lemma StartThenRest(stream: Stream, withAud: bool)
    ensures Start(stream) + Flags(stream) + PtsField(stream) + DtsField(stream) + Delimiter(stream, withAud)
         == Start(stream) + AfterLength(stream, withAud)
  {
    hide Start, Flags, PtsField, DtsField, Delimiter;
    Concat4(Start(stream), Flags(stream), PtsField(stream), DtsField(stream));
    Concat3(Start(stream), Flags(stream) + PtsField(stream) + DtsField(stream), Delimiter(stream, withAud));
  }

  lemma Patched(stream: Stream, length: u16, rest: Bytes)
    ensures (Start(stream) + rest)[4 := length / 0x100][5 := length % 0x100]
         == [0x00, 0x00, 0x01, stream.streamId] + U16Be(length) + rest
  {
  }

  lemma AlignedFlag()
    ensures Or(0x80, 0x04) == 0x84
  {
  }

  // ---------- Reading a header back ----------

  datatype PesView = PesView(streamId: u8, packetLength: u16, aligned: bool, pts: Option<int>, dts: Option<int>, data: Bytes)

  /** The bytes of a packet of an elementary stream with the timestamps its flags announce. */
  function ReadPes(b: Bytes): Option<PesView> {
    if |b| < 9 || b[..3] != [0, 0, 1] || b[6] / 64 != 2 || |b| < 9 + b[8] as int then None
    else
      var ptsLength, dtsLength := b[7] / 128 * 5, b[7] / 64 % 2 * 5;
      if b[8] < ptsLength + dtsLength then None
      else
        var pts := if ptsLength == 0 then None else ReadTimestamp(0x20 + dtsLength / 5 * 0x10, b[9..14]);
        var dts := if dtsLength == 0 then None else ReadTimestamp(0x10, b[9 + ptsLength as int..14 + ptsLength as int]);
        if (ptsLength != 0 && pts.None?) || (dtsLength != 0 && dts.None?) then None
        else Some(PesView(b[3], FromU16Be(b[4..6]), b[6] / 4 % 2 == 1, pts, dts, b[9 + b[8] as int..]))
  }

  function Modulo33(t: i64): int {
    t % 0x2_0000_0000
  }

  /**
  What a decoder should learn of a packet, in plain numbers: 2^63 below zero stands for no timestamp, a DTS is left out when
  it repeats the PTS, and H.264 (stream type 0x1B) without delimiters is sent with one in front.
   */
  function Described(stream: Stream, withAud: bool, payload: Bytes): PesView {
    var none := -0x8000_0000_0000_0000;
    var pts := if stream.pts == none then None else Some(stream.pts % 0x2_0000_0000);
    var dts := if stream.dts == none || stream.dts == stream.pts then None else Some(stream.dts % 0x2_0000_0000);
    var data := (if stream.codecId == 0x1B && !withAud then [0, 0, 0, 1, 9, 0xF0] else []) + payload;
    var length := 3 + (if pts.Some? then 5 else 0) + (if dts.Some? then 5 else 0) + |data|;
    PesView(stream.streamId, if length > 0xFFFF then 0 else length, stream.aligned, pts, dts, data)
  }

  lemma DescribedIs(stream: Stream, withAud: bool, payload: Bytes)
    ensures Described(stream, withAud, payload)
         == PesView(stream.streamId, PacketLength(|AfterLength(stream, withAud)| + |payload|), stream.aligned,
                    if HasPts(stream) then Some(Modulo33(stream.pts)) else None,
                    if HasDts(stream) then Some(Modulo33(stream.dts)) else None,
                    Delimiter(stream, withAud) + payload)
  {
    hide TimestampField;
  }

  /** A decoder reads the stream, the timestamps modulo 2^33, and the payload behind the delimiter. */
  lemma PesRoundTrip(stream: Stream, withAud: bool, payload: Bytes)
    ensures ReadPes(PesHeader(stream, withAud, |payload|) + payload) == Some(Described(stream, withAud, payload))
  {
    DescribedIs(stream, withAud, payload);
    var length := PacketLength(|AfterLength(stream, withAud)| + |payload|);
    if HasPts(stream) {
      TimestampRoundTrip(if HasDts(stream) then 0x30 else 0x20, stream.pts);
    }
    if HasDts(stream) {
      TimestampRoundTrip(0x10, stream.dts);
    }
    HeaderLaid(stream, withAud, payload, length);
    hide PesHeader, AfterLength, ReadPes, Laid, TimestampField, ReadTimestamp, Described;
    var view := Described(stream, withAud, payload);
    ReadLaid(view, PtsField(stream), DtsField(stream));
    assert FlagsOf(view) == Flags(stream);
  }

  lemma HeaderLaid(stream: Stream, withAud: bool, payload: Bytes, length: u16)
    requires length == PacketLength(|AfterLength(stream, withAud)| + |payload|)
    ensures PesHeader(stream, withAud, |payload|) + payload
         == Laid([0x00, 0x00, 0x01, stream.streamId], U16Be(length), Flags(stream), PtsField(stream), DtsField(stream),
                 Delimiter(stream, withAud) + payload)
  {
    hide U16Be, PtsField, DtsField, Delimiter, Flags;
  }

  // The flag bytes of a packet that is to be read as `view`.
  function FlagsOf(view: PesView): Bytes {
    [if view.aligned then 0x84 else 0x80,
     (if view.pts.Some? then 0x80 else 0) + (if view.dts.Some? then 0x40 else 0),
     (if view.pts.Some? then 5 else 0) + (if view.dts.Some? then 5 else 0)]
  }

  predicate Encodes(prefix: u8, field: Bytes, t: Option<int>) {
    if t.Some? then |field| == 5 && ReadTimestamp(prefix, field) == t else field == []
  }

  lemma ReadLaid(view: PesView, pts: Bytes, dts: Bytes)
    requires Encodes(if view.dts.Some? then 0x30 else 0x20, pts, view.pts) && Encodes(0x10, dts, view.dts)
    ensures ReadPes(Laid([0x00, 0x00, 0x01, view.streamId], U16Be(view.packetLength), FlagsOf(view), pts, dts, view.data))
         == Some(view)
  {
    assert |U16Be(view.packetLength)| == 2;
    hide ReadTimestamp, U16Be, FromU16Be, Laid, FlagsOf;
    FlagsRead(view);
    Layout([0x00, 0x00, 0x01, view.streamId], U16Be(view.packetLength), FlagsOf(view), pts, dts, view.data);
    U16RoundTrip(view.packetLength);
  }

  lemma FlagsRead(view: PesView)
    ensures var f := FlagsOf(view);
            var p, d := if view.pts.Some? then 5 else 0, if view.dts.Some? then 5 else 0;
            |f| == 3 && f[0] / 64 == 2 && (f[0] / 4 % 2 == 1) == view.aligned
            && f[1] as int / 128 * 5 == p && f[1] as int / 64 % 2 * 5 == d && f[2] as int == p + d
  {
  }

  function Laid(start: Bytes, length: Bytes, flags: Bytes, pts: Bytes, dts: Bytes, data: Bytes): Bytes {
    start + length + flags + pts + dts + data
  }

  lemma Layout(start: Bytes, length: Bytes, flags: Bytes, pts: Bytes, dts: Bytes, data: Bytes)
    requires |start| == 4 && |length| == 2 && |flags| == 3
    ensures var b := Laid(start, length, flags, pts, dts, data);
            var d := 9 + |pts|;
            |b| == d + |dts| + |data| && b[..3] == start[..3] && b[3] == start[3]
            && b[4..6] == length && b[6] == flags[0] && b[7] == flags[1] && b[8] == flags[2]
            && b[9..d] == pts && b[d..d + |dts|] == dts && b[d + |dts|..] == data
  {
  }

  /** The length field is the exact number of bytes behind it, or zero exactly when that needs more than 16 bits. */
  lemma LengthIsTrue(stream: Stream, withAud: bool, payload: Bytes)
    ensures var b := PesHeader(stream, withAud, |payload|) + payload;
            var view := ReadPes(b);
            view.Some? && view.value.packetLength == (if |b| - PES_HEADER_LEN > 0xFFFF then 0 else |b| - PES_HEADER_LEN)
  {
    PesRoundTrip(stream, withAud, payload);
    DescribedIs(stream, withAud, payload);
    hide ReadPes, AfterLength, Described;
  }
}
