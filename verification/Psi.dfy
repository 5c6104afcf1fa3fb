/**
Program specific information of a transport stream (library/container/mpegts/src/pat.rs, pmt.rs):
the program association and program map sections, and a reader of sections after
section 2.4.4 of ITU-T H.222.0.
 */
module Psi {
  import opened Bytesio
  import opened Crc32

  /** A packet identifier has 13 bits. */
  type Pid = x: int | 0 <= x < 0x2000

  type i64 = x: int | -0x8000_0000_0000_0000 <= x < 0x8000_0000_0000_0000

  const PAT_TID_PAS: u8 := 0x00
  const PAT_TID_PMS: u8 := 0x02
  const TRANSPORT_STREAM_ID: u16 := 1

  const PSI_STREAM_MP3: u8 := 0x04
  const PSI_STREAM_PRIVATE_DATA: u8 := 0x06
  const PSI_STREAM_AAC: u8 := 0x0f
  const PSI_STREAM_H264: u8 := 0x1b
  const PSI_STREAM_MPEG4_AAC: u8 := 0x1c
  const PSI_STREAM_AUDIO_OPUS: u8 := 0x9c

  /** An elementary stream and where its muxing stands. */
  datatype Stream = Stream(pid: Pid, streamId: u8, codecId: u8, counter: u8, aligned: bool, pts: i64, dts: i64)

  /** A program; the repository gives it at most four streams and no descriptors. */
  datatype Pmt = Pmt(pid: Pid, programNumber: u16, version: u8, pcrPid: Pid, streams: seq<Stream>) {
    predicate Valid() {
      version < 0x20 && |streams| <= 4
    }
  }

  // ---------- The sections as they are written ----------

  function StreamType(codecId: u8): u8 {
    if codecId == PSI_STREAM_AUDIO_OPUS then PSI_STREAM_PRIVATE_DATA else codecId
  }

  function PatEntry(pmt: Pmt): Bytes {
    U16Be(pmt.programNumber) + U16Be(0xE000 + pmt.pid)
  }

  function PatEntries(pmts: seq<Pmt>): Bytes {
    if pmts == [] then [] else PatEntries(pmts[..|pmts| - 1]) + PatEntry(pmts[|pmts| - 1])
  }

  /** What precedes the entries of a program association section, `n` of them. */
  function PatHead(n: nat): Bytes
    requires n <= 4
  {
    [PAT_TID_PAS] + U16Be(0xB000 + n * 4 + 5 + 4) + U16Be(TRANSPORT_STREAM_ID) + [0xC1] + U16Be(0)
  }

  function PatBody(pmts: seq<Pmt>): Bytes
    requires |pmts| <= 4
  {
    PatHead(|pmts|) + PatEntries(pmts)
  }

  function PmtEntry(stream: Stream): Bytes {
    [StreamType(stream.codecId)] + U16Be(0xE000 + stream.pid) + U16Be(0xF000)
  }

  function PmtEntries(streams: seq<Stream>): (b: Bytes)
    ensures |b| == 5 * |streams|
  {
    if streams == [] then [] else PmtEntries(streams[..|streams| - 1]) + PmtEntry(streams[|streams| - 1])
  }

  function PmtHead(pmt: Pmt): Bytes
    requires pmt.Valid()
  {
    U16Be(pmt.programNumber) + [0xC1 + 2 * pmt.version] + [0] + [0] + U16Be(0xE000 + pmt.pcrPid) + U16Be(0xF000)
  }

  function PmtFields(pmt: Pmt): (b: Bytes)
    requires pmt.Valid()
    ensures |b| == 9 + 5 * |pmt.streams|
  {
    PmtHead(pmt) + PmtEntries(pmt.streams)
  }

  function PmtBody(pmt: Pmt): Bytes
    requires pmt.Valid()
  {
    [PAT_TID_PMS] + U16Be(0xB000 + (|PmtFields(pmt)| + 4)) + PmtFields(pmt)
  }

  /** A section is its body with the CRC behind it. */
  function Section(body: Bytes): Bytes {
    body + LittleEndian(Crc(0xFFFF_FFFF, body))
  }

  function PatSection(pmts: seq<Pmt>): (s: Bytes)
    requires |pmts| <= 4
    ensures |s| == 12 + 4 * |pmts|
  {
    EntriesLength(pmts);
    Section(PatBody(pmts))
  }

  lemma {:induction false} EntriesLength(pmts: seq<Pmt>)
    ensures |PatEntries(pmts)| == 4 * |pmts|
  {
    if pmts != [] {
      EntriesLength(pmts[..|pmts| - 1]);
    }
  }

  function PmtSection(pmt: Pmt): (s: Bytes)
    requires pmt.Valid()
    ensures |s| == 16 + 5 * |pmt.streams|
  {
    Section(PmtBody(pmt))
  }

  class PatMuxer {
    var bytesWriter: BytesWriter

    constructor ()
      ensures fresh(bytesWriter) && bytesWriter.bytes == []
    {
      bytesWriter := new BytesWriter();
    }

    method Write(pmts: seq<Pmt>) returns (section: Bytes)
      requires |pmts| <= 4 && bytesWriter.bytes == []
      modifies bytesWriter
      ensures section == PatSection(pmts) && bytesWriter.bytes == []
    {
      hide Crc, LittleEndian, PatEntry;
      bytesWriter.WriteU8(PAT_TID_PAS);
      var length := |pmts| * 4 + 5 + 4;
      bytesWriter.WriteU16Be(0xB000 + length);
      bytesWriter.WriteU16Be(TRANSPORT_STREAM_ID);
      bytesWriter.WriteU8(0xC1);
      bytesWriter.WriteU16Be(0x00);
      assert bytesWriter.bytes == PatHead(|pmts|) + PatEntries([]);
      for i := 0 to |pmts|
        invariant bytesWriter.bytes == PatHead(|pmts|) + PatEntries(pmts[..i])
      {
        assert pmts[..i + 1][..i] == pmts[..i];
        WriteEntry(pmts[i]);
        Concat3(PatHead(|pmts|), PatEntries(pmts[..i]), PatEntry(pmts[i]));
      }
      assert pmts[..|pmts|] == pmts;
      var crc := GenCrc32(0xFFFF_FFFF, bytesWriter.bytes);
      bytesWriter.Write(LittleEndian(crc));
      section := bytesWriter.ExtractCurrentBytes();
    }

    method WriteEntry(ele: Pmt)
      modifies bytesWriter
      ensures bytesWriter.bytes == old(bytesWriter.bytes) + PatEntry(ele)
    {
      bytesWriter.WriteU16Be(ele.programNumber);
      bytesWriter.WriteU16Be(0xE000 + ele.pid);
    }
  }

  class PmtMuxer {
    var bytesWriter: BytesWriter

    constructor ()
      ensures fresh(bytesWriter) && bytesWriter.bytes == []
    {
      bytesWriter := new BytesWriter();
    }

    method Write(pmt: Pmt) returns (section: Bytes)
      requires pmt.Valid() && bytesWriter.bytes == []
      modifies bytesWriter
      ensures section == PmtSection(pmt) && bytesWriter.bytes == []
    {
      hide Crc, LittleEndian;
      bytesWriter.WriteU8(PAT_TID_PMS);
      var fields := WriteFields(pmt);
      bytesWriter.WriteU16Be(0xB000 + (|fields| + 4));
      bytesWriter.Write(fields);
      assert bytesWriter.bytes == PmtBody(pmt);
      var crc := GenCrc32(0xFFFF_FFFF, bytesWriter.bytes);
      bytesWriter.Write(LittleEndian(crc));
      section := bytesWriter.ExtractCurrentBytes();
    }

    method WriteFields(pmt: Pmt) returns (fields: Bytes)
      requires pmt.Valid()
      ensures fields == PmtFields(pmt)
    {
      hide PmtEntry;
      var tmp := new BytesWriter();
      tmp.WriteU16Be(pmt.programNumber);
      tmp.WriteU8(0xC1 + 2 * pmt.version);
      tmp.WriteU8(0x00);
      tmp.WriteU8(0x00);
      tmp.WriteU16Be(0xE000 + pmt.pcrPid);
      tmp.WriteU16Be(0xF000);
      assert tmp.bytes == PmtHead(pmt) + PmtEntries([]);
      for i := 0 to |pmt.streams|
        invariant tmp.bytes == PmtHead(pmt) + PmtEntries(pmt.streams[..i])
      {
        assert pmt.streams[..i + 1][..i] == pmt.streams[..i];
        WriteEntry(tmp, pmt.streams[i]);
        Concat3(PmtHead(pmt), PmtEntries(pmt.streams[..i]), PmtEntry(pmt.streams[i]));
      }
      assert pmt.streams[..|pmt.streams|] == pmt.streams;
      fields := tmp.ExtractCurrentBytes();
    }

    method WriteEntry(tmp: BytesWriter, stream: Stream)
      modifies tmp
      ensures tmp.bytes == old(tmp.bytes) + PmtEntry(stream)
    {
      var streamType := if stream.codecId == PSI_STREAM_AUDIO_OPUS then PSI_STREAM_PRIVATE_DATA else stream.codecId;
      tmp.WriteU8(streamType);
      tmp.WriteU16Be(0xE000 + stream.pid);
      tmp.WriteU16Be(0xF000);
    }
  }

  // ---------- Reading sections back ----------

  datatype View = View(tableId: u8, extension: u16, version: u8, number: u8, last: u8, body: Bytes)

  /**
  A section with the long syntax, delimited by its section_length; whatever follows is stuffing.
  A decoder accepts it when the CRC over all of it leaves the register at zero, and heeds it when its
  current_next_indicator is set.
   */
  function ReadSection(data: Bytes): Option<View> {
    if |data| < 3 || data[1] / 16 != 0xB then None
    else
      var end := 3 + data[1] as int % 16 * 0x100 + data[2];
      if |data| < end || end < 12 || Crc(0xFFFF_FFFF, data[..end]) != 0 || data[5] % 2 == 0 then None
      else Some(View(data[0], FromU16Be(data[3..5]), data[5] / 2 % 0x20, data[6], data[7], data[8..end - 4]))
  }

  /** Program numbers and the packet identifiers of their maps. */
  function ReadPrograms(body: Bytes): Option<seq<(u16, Pid)>>
    decreases |body|
  {
    if body == [] then Some([])
    else if |body| < 4 then None
    else
      var n := |body| - 4;
      match ReadPrograms(body[..n])
      case None => None
      case Some(before) => Some(before + [(FromU16Be(body[n..n + 2]), FromU16Be(body[n + 2..]) % 0x2000)])
  }

  /** Stream types and packet identifiers; every ES_info_length must be zero, as no descriptor is written. */
  function ReadStreams(body: Bytes): Option<seq<(u8, Pid)>>
    decreases |body|
  {
    if body == [] then Some([])
    else if |body| < 5 then None
    else
      var n := |body| - 5;
      if FromU16Be(body[n + 3..]) % 0x1000 != 0 then None
      else
        match ReadStreams(body[..n])
        case None => None
        case Some(before) => Some(before + [(body[n], FromU16Be(body[n + 1..n + 3]) % 0x2000)])
  }

  datatype Map = Map(programNumber: u16, version: u8, pcrPid: Pid, streams: seq<(u8, Pid)>)

  /** The table is the only section of its kind. */
  predicate Alone(view: View) {
    view.number == 0 && view.last == 0
  }

  /** A program map without program descriptors. */
  function ReadMap(data: Bytes): Option<Map> {
    match ReadSection(data)
    case None => None
    case Some(view) =>
      if view.tableId != 2 || !Alone(view) || |view.body| < 4 || FromU16Be(view.body[2..4]) % 0x1000 != 0 then None
      else
        match ReadStreams(view.body[4..])
        case None => None
        case Some(streams) => Some(Map(view.extension, view.version, FromU16Be(view.body[..2]) % 0x2000, streams))
  }

  function ReadAssociation(data: Bytes): Option<seq<(u16, Pid)>> {
    match ReadSection(data)
    case None => None
    case Some(view) => if view.tableId != 0 || !Alone(view) then None else ReadPrograms(view.body)
  }

  // ---------- What is written is what is read ----------

  /** A section whose length field counts its bytes is accepted, whatever stuffing follows. */
  lemma SectionAccepted(body: Bytes, rest: Bytes)
    requires 8 <= |body| <= 0xFF0 && body[5] % 2 == 1 && body[1] / 16 == 0xB && body[1] as int % 16 * 0x100 + body[2] == |body| + 1
    ensures ReadSection(Section(body) + rest)
         == Some(View(body[0], FromU16Be(body[3..5]), body[5] / 2 % 0x20, body[6], body[7], body[8..]))
  {
    ResidueIsZero(body);
    hide Crc, LittleEndian;
    var section := Section(body);
    TakeDrop(section, rest);
    var data := section + rest;
    assert data[3..5] == body[3..5];
    assert data[8..|section| - 4] == body[8..];
  }

  function Programs(pmts: seq<Pmt>): seq<(u16, Pid)> {
    seq(|pmts|, i requires 0 <= i < |pmts| => (pmts[i].programNumber, pmts[i].pid))
  }

  /** The stream type a decoder is told: Opus (0x9C) has none of its own and is private data (0x06). */
  function TypeTold(codecId: u8): u8 {
    if codecId == 0x9C then 0x06 else codecId
  }

  function Streams(streams: seq<Stream>): seq<(u8, Pid)> {
    seq(|streams|, i requires 0 <= i < |streams| => (TypeTold(streams[i].codecId), streams[i].pid))
  }

  lemma {:induction false} ProgramsRead(pmts: seq<Pmt>)
    ensures ReadPrograms(PatEntries(pmts)) == Some(Programs(pmts))
  {
    if pmts == [] {
      assert Programs(pmts) == [];
    } else {
      var before, last := pmts[..|pmts| - 1], pmts[|pmts| - 1];
      ProgramsRead(before);
      ProgramFields(last);
      hide PatEntry, ReadPrograms;
      ReadOneProgram(PatEntries(before), PatEntry(last));
      assert Programs(before) + [(last.programNumber, last.pid)] == Programs(pmts);
    }
  }

  lemma ReadOneProgram(before: Bytes, entry: Bytes)
    requires |entry| == 4 && ReadPrograms(before).Some?
    ensures ReadPrograms(before + entry)
         == Some(ReadPrograms(before).value + [(FromU16Be(entry[..2]), FromU16Be(entry[2..]) % 0x2000)])
  {
    var body := before + entry;
    TakeDrop(before, entry);
    assert body[|before|..|before| + 2] == entry[..2];
    assert body[|before| + 2..] == entry[2..];
  }

  lemma ProgramFields(pmt: Pmt)
    ensures var e := PatEntry(pmt);
            |e| == 4 && FromU16Be(e[..2]) == pmt.programNumber && FromU16Be(e[2..]) % 0x2000 == pmt.pid
  {
    var e := PatEntry(pmt);
    assert e[..2] == U16Be(pmt.programNumber);
    assert e[2..] == U16Be(0xE000 + pmt.pid);
    U16RoundTrip(pmt.programNumber);
    U16RoundTrip(0xE000 + pmt.pid);
  }

  lemma {:induction false} StreamsRead(streams: seq<Stream>)
    ensures ReadStreams(PmtEntries(streams)) == Some(Streams(streams))
  {
    hide PmtEntry, ReadStreams, FromU16Be, TypeTold;
    if streams == [] {
      NoStreams(streams);
    } else {
      var before, last := streams[..|streams| - 1], streams[|streams| - 1];
      StreamsRead(before);
      EntryFields(last);
      ReadOneMore(PmtEntries(before), PmtEntry(last));
      assert Streams(before) + [(TypeTold(last.codecId), last.pid)] == Streams(streams);
    }
  }

  lemma NoStreams(streams: seq<Stream>)
    requires streams == []
    ensures ReadStreams(PmtEntries(streams)) == Some(Streams(streams))
  {
    assert Streams(streams) == [];
  }

  lemma ReadOneMore(before: Bytes, entry: Bytes)
    requires |entry| == 5 && FromU16Be(entry[3..]) % 0x1000 == 0 && ReadStreams(before).Some?
    ensures ReadStreams(before + entry)
         == Some(ReadStreams(before).value + [(entry[0], FromU16Be(entry[1..3]) % 0x2000)])
  {
    var body := before + entry;
    TakeDrop(before, entry);
    assert body[|before| + 1..|before| + 3] == entry[1..3];
    assert body[|before| + 3..] == entry[3..];
  }

  lemma EntryFields(stream: Stream)
    ensures var e := PmtEntry(stream);
            |e| == 5 && e[0] == TypeTold(stream.codecId)
            && FromU16Be(e[1..3]) % 0x2000 == stream.pid && FromU16Be(e[3..]) % 0x1000 == 0
  {
    var e := PmtEntry(stream);
    assert e[1..3] == U16Be(0xE000 + stream.pid);
    assert e[3..] == U16Be(0xF000);
    U16RoundTrip(0xE000 + stream.pid);
    U16RoundTrip(0xF000);
  }

  /** The program association section names exactly the programs of transport stream 1, and is as long as it says. */
  lemma PatRoundTrip(pmts: seq<Pmt>, rest: Bytes)
    requires |pmts| <= 4
    ensures |PatSection(pmts)| == 12 + 4 * |pmts|
    ensures ReadAssociation(PatSection(pmts) + rest) == Some(Programs(pmts))
    ensures ReadSection(PatSection(pmts) + rest).Some? && ReadSection(PatSection(pmts) + rest).value.extension == 1
  {
    hide Crc, LittleEndian, ReadSection, ReadPrograms, PatEntries, PatBody, Section, FromU16Be, Programs;
    ProgramsRead(pmts);
    PatLayout(pmts);
    SectionAccepted(PatBody(pmts), rest);
  }

  lemma PatLayout(pmts: seq<Pmt>)
    requires |pmts| <= 4
    ensures var b := PatBody(pmts);
            && |b| == 8 + 4 * |pmts| && b[0] == 0 && b[6] == 0 && b[7] == 0 && b[1] / 16 == 0xB && b[1] as int % 16 * 0x100 + b[2] == |b| + 1
            && FromU16Be(b[3..5]) == 1 && b[5] % 2 == 1 && b[8..] == PatEntries(pmts)
    ensures PatSection(pmts) == Section(PatBody(pmts))
  {
    hide PatEntries, Section, PatHead, FromU16Be;
    EntriesLength(pmts);
    PatHeadBytes(|pmts|);
    var head, entries := PatHead(|pmts|), PatEntries(pmts);
    assert (head + entries)[..8] == head && (head + entries)[8..] == entries;
    assert PatBody(pmts)[3..5] == head[3..5];
  }

  lemma PatHeadBytes(n: nat)
    requires n <= 4
    ensures PatHead(n) == [0, 0xB0, 4 * n + 9, 0, 1, 0xC1, 0, 0]
    ensures FromU16Be(PatHead(n)[3..5]) == 1
  {
  }

  /** The program map section carries the version, the PCR PID and every stream with its type. */
  lemma PmtRoundTrip(pmt: Pmt, rest: Bytes)
    requires pmt.Valid()
    ensures |PmtSection(pmt)| == 16 + 5 * |pmt.streams|
    ensures ReadMap(PmtSection(pmt) + rest)
         == Some(Map(pmt.programNumber, pmt.version, pmt.pcrPid, Streams(pmt.streams)))
  {
    hide Crc, LittleEndian, ReadSection, ReadStreams, PmtEntries, PmtBody, U16Be, FromU16Be, Section;
    StreamsRead(pmt.streams);
    PmtLayout(pmt);
    SectionAccepted(PmtBody(pmt), rest);
    U16RoundTrip(pmt.programNumber);
    U16RoundTrip(0xE000 + pmt.pcrPid);
    U16RoundTrip(0xF000);
  }

  lemma PmtLayout(pmt: Pmt)
    requires pmt.Valid()
    ensures var b := PmtBody(pmt);
            && |b| == 12 + 5 * |pmt.streams| && b[0] == 2 && b[6] == 0 && b[7] == 0 && b[1] / 16 == 0xB && b[1] as int % 16 * 0x100 + b[2] == |b| + 1
            && b[3..5] == U16Be(pmt.programNumber) && b[5] % 2 == 1 && b[5] / 2 % 0x20 == pmt.version
            && b[8..][..2] == U16Be(0xE000 + pmt.pcrPid) && b[8..][2..4] == U16Be(0xF000) && b[8..][4..] == PmtEntries(pmt.streams)
  {
    hide PmtEntries;
  }
}
