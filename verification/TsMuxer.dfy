/**
The class of library/container/mpegts/src/ts.rs, method by method, against the functions of Ts.
 */
module TsMuxer {
  import opened Bytesio
  import opened Psi
  import opened Pes
  import opened TsPacket
  import opened Ts

  /** Timestamps whose products and sums stay within 64 bits, as the arithmetic of the muxer needs. */
  predicate Timely(pts: i64, dts: i64) {
    var clock := if dts == PTS_NO_VALUE then pts else dts;
    -0x8000_0000_0000_0000 <= clock * 300 < 0x8000_0000_0000_0000
  }

  class TsMuxer {
    var bytesWriter: BytesWriter
    var patContinuityCounter: u8
    var pmtContinuityCounter: u8
    var withAud: bool
    var pid: u16
    var patPeriod: i64
    var pmts: seq<Pmt>
    var curPmtIndex: nat
    var curStreamIndex: nat

    ghost function State(): Mux
      reads this
    {
      Mux(patContinuityCounter, pmtContinuityCounter, pid, patPeriod, pmts)
    }

    ghost predicate Valid()
      reads this
    {
      State().Valid()
    }

    /** The indices name a stream of the program. */
    ghost predicate AtStream(j: nat)
      reads this
    {
      Valid() && pmts != [] && curPmtIndex == 0 && curStreamIndex == j < |pmts[0].streams|
    }

    constructor ()
      ensures Valid() && State() == NewMux() && fresh(bytesWriter) && bytesWriter.bytes == []
    {
      bytesWriter := new BytesWriter();
      patContinuityCounter, pmtContinuityCounter := 0, 0;
      withAud := false;
      pid := FIRST_PID;
      patPeriod := 0;
      pmts := [];
      curPmtIndex, curStreamIndex := 0, 0;
    }

    method Reset()
      modifies this`patPeriod
      ensures State() == ResetState(old(State()))
    {
      patPeriod := 0;
    }

    method GetData() returns (data: Bytes)
      modifies bytesWriter
      ensures data == old(bytesWriter.bytes) && bytesWriter.bytes == []
    {
      data := bytesWriter.ExtractCurrentBytes();
    }

    method AddStream(codecId: u8) returns (r: Option<Pid>)
      requires Valid()
      modifies this`pid, this`patPeriod, this`pmts
      ensures Valid()
      ensures match AddStreamState(old(State()), codecId)
              case Some(added) => r == Some(added.1) && State() == added.0
              case None => r == None && State() == old(State())
    {
      if pmts == [] {
        pmts := [Pmt(pid, 1, 0, PCR_PID_NONE, [])];
        pid := pid + 1;
      }
      var pmt := pmts[0];
      if |pmt.streams| == 4 {
        return None;
      }
      var stream := Stream(pid, StreamIdFor(codecId), codecId, 0, false, 0, 0);
      pid := pid + 1;
      pmts := [pmt.(streams := pmt.streams + [stream], version := (pmt.version + 1) % 32)];
      Reset();
      return Some(pid - 1);
    }

    method LookUp(wanted: int) returns (found: bool)
      modifies this`curPmtIndex, this`curStreamIndex
      ensures found == FindStream(pmts, wanted).Some?
      ensures found ==> (curPmtIndex, curStreamIndex) == FindStream(pmts, wanted).value
      ensures !found ==> unchanged(this)
    {
      var streamIndex := 0;
      hide Position, PositionFrom;
      for p := 0 to |pmts|
        invariant unchanged(this) && FindFrom(pmts, p, streamIndex, wanted) == FindStream(pmts, wanted)
      {
        ghost var base := streamIndex;
        var streams := pmts[p].streams;
        PositionWhole(streams, wanted);
        for j := 0 to |streams|
          invariant unchanged(this) && streamIndex == base + j
          invariant Position(streams, wanted) == PositionFrom(streams, j, wanted)
        {
          PositionStep(streams, j, wanted);
          if streams[j].pid == wanted {
            curPmtIndex := p;
            curStreamIndex := streamIndex;
            return true;
          }
          streamIndex := streamIndex + 1;
        }
        PositionStep(streams, |streams|, wanted);
      }
      found := false;
    }

    /** Replace the current stream. */
    method SetStream(stream: Stream)
      requires pmts != [] && curPmtIndex == 0 && curStreamIndex < |pmts[0].streams|
      modifies this`pmts
      ensures pmts == old([WithStream(pmts[0], curStreamIndex, stream)])
    {
      var pmt := pmts[curPmtIndex];
      pmts := [pmt.(streams := pmt.streams[curStreamIndex := stream])];
    }

    method Write(wanted: int, pts: i64, dts: i64, aligned: bool, aud: bool, payload: Bytes) returns (ok: bool)
      requires Valid() && Timely(pts, dts)
      modifies this`patContinuityCounter, this`pmtContinuityCounter, this`withAud, this`patPeriod, this`pmts,
               this`curPmtIndex, this`curStreamIndex, bytesWriter
      ensures Valid()
      ensures match WriteState(old(State()), wanted, pts, dts, aligned, aud, payload)
              case Some(done) => ok && State() == done.0 && bytesWriter.bytes == old(bytesWriter.bytes) + Flatten(done.1)
              case None => !ok && State() == old(State()) && bytesWriter.bytes == old(bytesWriter.bytes)
    {
      hide WriteState, WriteStream, FindStream, Flatten, ValidProgram;
      WriteFound(State(), wanted, pts, dts, aligned, aud, payload);
      withAud := aud;
      var found := LookUp(wanted);
      if !found {
        return false;
      }
      FoundInProgram(State(), wanted);
      WriteCurrent(pts, dts, aligned, payload);
      ok := true;
    }

    /** The part of a write after the stream has been found. */
    method WriteCurrent(pts: i64, dts: i64, aligned: bool, payload: Bytes)
      requires AtStream(curStreamIndex) && Timely(pts, dts)
      modifies this`patContinuityCounter, this`pmtContinuityCounter, this`patPeriod, this`pmts, bytesWriter
      ensures Valid()
      ensures var done := WriteStream(old(State()), curStreamIndex, pts, dts, aligned, withAud, payload);
              State() == done.0 && bytesWriter.bytes == old(bytesWriter.bytes) + Flatten(done.1)
    {
      hide Prepared, Media, AfterMedia, Flatten, AnnouncesAt, Announced, PsiPackets, Timely;
      ghost var before := bytesWriter.bytes;
      Prepare(pts, dts, aligned);
      ghost var ready := State();
      AnnouncesIs(ready, dts);
      NothingFlat();
      if 0 == patPeriod || patPeriod + PAT_PERIOD <= dts {
        Announce(dts);
      }
      ghost var psi := PsiOf(ready, dts);
      assert bytesWriter.bytes == before + Flatten(psi);
      ghost var media := Media(AfterPsi(ready, dts), curStreamIndex, withAud, payload);
      WritePes(payload);
      FlattenConcat(psi, media);
      Concat3(before, Flatten(psi), Flatten(media));
    }

    /** Choose the clock and note the timestamps. */
    method Prepare(pts: i64, dts: i64, aligned: bool)
      requires AtStream(curStreamIndex)
      modifies this`patPeriod, this`pmts
      ensures Valid() && State() == Prepared(old(State()), curStreamIndex, pts, dts, aligned)
    {
      var pmt := pmts[curPmtIndex];
      var stream := pmt.streams[curStreamIndex];
      if PCR_PID_NONE == pmt.pcrPid || (IsVideoId(stream.streamId) && pmt.pcrPid != stream.pid) {
        pmts := [pmt.(pcrPid := stream.pid)];
        patPeriod := 0;
      }
      SetStream(stream.(pts := pts, dts := dts, aligned := aligned));
    }

    /** The association table and the maps. */
    method Announce(dts: i64)
      requires Valid()
      modifies this`patContinuityCounter, this`pmtContinuityCounter, this`patPeriod, bytesWriter
      ensures Valid() && State() == Announced(old(State()), dts)
      ensures bytesWriter.bytes == old(bytesWriter.bytes) + Flatten(PsiPackets(old(State())))
    {
      NothingFlat();
      hide Flatten, PatSection, PmtSection, PsiPacket;
      ghost var before := bytesWriter.bytes;
      ghost var m := State();
      patPeriod := dts;
      var patMuxer := new PatMuxer();
      var association := patMuxer.Write(pmts);
      WritePsi(PAT_TID_PAS as Pid, association, patContinuityCounter);
      ghost var pat := PsiPacket(PAT_TID_PAS as Pid, PatSection(pmts), m.patCounter);
      patContinuityCounter := (patContinuityCounter + 1) % 16;
      for p := 0 to |pmts|
        invariant pmts == m.pmts && pmtContinuityCounter as int == (m.pmtCounter + p) % 16
        invariant patContinuityCounter == (m.patCounter + 1) % 16 && patPeriod == dts
        invariant bytesWriter == old(bytesWriter) && pid == m.nextPid
        invariant bytesWriter.bytes == before + pat + Flatten(PmtPackets(m.pmts[..p], m.pmtCounter))
      {
        var pmtMuxer := new PmtMuxer();
        var section := pmtMuxer.Write(pmts[p]);
        WritePsi(pmts[p].pid, section, pmtContinuityCounter);
        assert pmts[..p] == [] && pmts[..p + 1] == [pmts[0]];
        OneMap(pmts[0], m.pmtCounter);
        pmtContinuityCounter := (pmtContinuityCounter + 1) % 16;
      }
      assert pmts[..|pmts|] == pmts;
      FlattenConcat([pat], PmtPackets(m.pmts, m.pmtCounter));
      FlattenOne(pat);
      Concat3(before, pat, Flatten(PmtPackets(m.pmts, m.pmtCounter)));
    }

    /** A section in a packet of its own. */
    method WritePsi(id: Pid, section: Bytes, counter: u8)
      requires |section| <= 183 && counter < 16
      modifies bytesWriter
      ensures bytesWriter.bytes == old(bytesWriter.bytes) + PsiPacket(id, section, counter)
    {
      bytesWriter.WriteU8(SYNC_BYTE);
      StartFlag(id / 0x100);
      bytesWriter.WriteU8(Or(0x40, id / 0x100));
      bytesWriter.WriteU8(id % 0x100);
      bytesWriter.WriteU8(0x10 + counter);
      bytesWriter.WriteU8(0x00);
      bytesWriter.Write(section);
      ghost var head := bytesWriter.bytes;
      var left := TS_PACKET_SIZE - |section| - 5;
      WriteFill(bytesWriter, left);
      ghost var was := old(bytesWriter.bytes);
      assert head == was + (FourBytes(id, true, false, counter) + [0x00] + section);
      Concat3(was, FourBytes(id, true, false, counter) + [0x00] + section, Repeat(0xFF, left));
    }

    method WritePes(payload: Bytes)
      requires AtStream(curStreamIndex)
      modifies this`pmts, bytesWriter
      ensures Valid()
      ensures var media := old(Media(State(), curStreamIndex, withAud, payload));
              State() == AfterMedia(old(State()), curStreamIndex, |media|)
              && bytesWriter.bytes == old(bytesWriter.bytes) + Flatten(media)
    {
      hide Flatten, PesHeader, TsHeader, DataTaken, ValidProgram;
      NothingFlat();
      AfterNone(State(), curStreamIndex);
      ghost var j, m := curStreamIndex, State();
      ghost var before := bytesWriter.bytes;
      ghost var stream := m.pmts[0].streams[j];
      ghost var pcrPid := m.pmts[0].pcrPid;
      ghost var header := PesHeader(stream, withAud, |payload|);
      ghost var media := Media(m, j, withAud, payload);
      ghost var sent: seq<Bytes> := [];
      var isStart := true;
      var reader := payload;
      while reader != []
        invariant unchanged(this`curPmtIndex, this`curStreamIndex, this`withAud, this`bytesWriter)
        invariant State() == AfterMedia(m, j, |sent|) && AtStream(j)
        invariant isStart ==> sent == [] && reader == payload
        invariant media == sent + Packets(pmts[0].streams[j], pcrPid, if isStart then header else [], reader, isStart)
        invariant bytesWriter.bytes == before + Flatten(sent)
        decreases |reader|
      {
        var pesMuxer := new PesMuxer();
        if isStart {
          pesMuxer.WritePesHeader(|reader|, pmts[curPmtIndex].streams[curStreamIndex], withAud);
        }
        ghost var current := pmts[0].streams[j];
        ghost var front := pesMuxer.bytesWriter.bytes;
        var tsHeader := new BytesWriter();
        var n := WriteTsHeaderForPes(tsHeader, |pesMuxer.bytesWriter.bytes|, |reader|, isStart);
        ghost var tsBytes := tsHeader.bytes;
        ghost var packet := tsBytes + front + reader[..n];
        ghost var left := Packets(Advanced(current), pcrPid, [], reader[n..], false);
        bytesWriter.Append(tsHeader);
        bytesWriter.Append(pesMuxer.bytesWriter);
        bytesWriter.Write(reader[..n]);
        FlattenLast(sent, packet);
        Concat3(before, Flatten(sent), packet);
        Concat4(before + Flatten(sent), tsBytes, front, reader[..n]);
        Concat3(sent, [packet], left);
        AfterOneMore(m, j, |sent|);
        sent := sent + [packet];
        reader := reader[n..];
        isStart := false;
      }
      assert sent + [] == sent;
    }

    /** The header of one packet, adaptation field and stuffing included; says how much data fits behind it. */
    method WriteTsHeaderForPes(tsHeader: BytesWriter, pesLength: nat, data: nat, isStart: bool) returns (n: nat)
      requires AtStream(curStreamIndex) && pesLength <= 25 && tsHeader.bytes == []
      modifies this`pmts, tsHeader
      ensures Valid()
      ensures var stream := old(pmts[0].streams[curStreamIndex]);
              tsHeader.bytes == TsHeader(stream, pmts[0].pcrPid, pesLength, data, isStart)
              && n == DataTaken(stream, pmts[0].pcrPid, pesLength, data, isStart)
              && pmts == [WithStream(old(pmts[0]), curStreamIndex, Advanced(stream))]
    {
      hide StartField, Stuffed;
      var pcrPid := pmts[curPmtIndex].pcrPid;
      var stream := pmts[curPmtIndex].streams[curStreamIndex];
      tsHeader.WriteU8(SYNC_BYTE);
      tsHeader.WriteU8(stream.pid / 0x100 % 0x20);
      tsHeader.WriteU8(stream.pid % 0x100);
      tsHeader.WriteU8(0x10 + stream.counter % 16);
      SetStream(Advanced(stream));
      assert tsHeader.bytes == FourBytes(stream.pid, false, false, Counter(stream)) + [];
      if isStart {
        WriteStartField(tsHeader, stream, pcrPid);
      }
      StartFieldShape(stream, pcrPid);
      n := WriteStuffing(tsHeader, pesLength, data, stream.pid, isStart, Counter(stream), FieldFor(stream, pcrPid, isStart));
    }

    /** The start flag, and the adaptation field for clock and random access. */
    static method WriteStartField(tsHeader: BytesWriter, stream: Stream, pcrPid: Pid)
      requires tsHeader.bytes == FourBytes(stream.pid, false, false, Counter(stream)) + []
      modifies tsHeader
      ensures var field := StartField(stream, pcrPid);
              tsHeader.bytes == FourBytes(stream.pid, true, field != [], Counter(stream)) + field
    {
      StartFlag(stream.pid / 0x100);
      AdaptedFlag(Counter(stream));
      tsHeader.OrU8At(1, 0x40);
      assert tsHeader.bytes == FourBytes(stream.pid, true, false, Counter(stream)) + [];
      if stream.pid == pcrPid || (stream.aligned && PTS_NO_VALUE != stream.pts) {
        tsHeader.OrU8At(3, 0x20);
        assert tsHeader.bytes == FourBytes(stream.pid, true, true, Counter(stream));
        hide FourBytes, Or;
        WriteFieldBytes(tsHeader, stream, pcrPid);
      }
    }

    static method WriteFieldBytes(tsHeader: BytesWriter, stream: Stream, pcrPid: Pid)
      requires |tsHeader.bytes| == 4 && (CarriesPcr(stream, pcrPid) || RandomAccess(stream))
      modifies tsHeader
      ensures tsHeader.bytes == old(tsHeader.bytes) + StartField(stream, pcrPid)
    {
      FieldFlags();
      hide Or, PcrBytes;
      ghost var four := tsHeader.bytes;
      tsHeader.WriteU8(0x01);
      tsHeader.WriteU8(0x00);
      assert tsHeader.bytes == four + [0x01, 0x00];
      if stream.pid == pcrPid {
        tsHeader.OrU8At(5, 0x10);
        var pcr := if PTS_NO_VALUE == stream.dts then stream.pts else stream.dts;
        tsHeader.Write(PcrBytes(pcr * 300));
        tsHeader.AddU8At(4, 6);
        assert tsHeader.bytes == four + ([0x07, 0x10] + PcrBytes(pcr * 300));
      }
      if stream.aligned && PTS_NO_VALUE != stream.pts {
        tsHeader.OrU8At(5, 0x40);
      }
      assert tsHeader.bytes == four + StartField(stream, pcrPid);
    }

    /** Stuffing for what the data does not fill. */
    static method WriteStuffing(tsHeader: BytesWriter, pesLength: nat, data: nat, pid: Pid, isStart: bool, counter: u8, ghost field: Bytes)
      returns (n: nat)
      requires counter < 16 && WellFormed(field) && |field| <= 8 && pesLength <= 25
      requires tsHeader.bytes == FourBytes(pid, isStart, field != [], counter) + field
      modifies tsHeader
      ensures n == Taken(|field| + pesLength, data)
      ensures var stuffed := Stuffed(field, 184 - |field| - pesLength - n);
              tsHeader.bytes == FourBytes(pid, isStart, stuffed != [], counter) + stuffed
    {
      var stuffing := TS_PACKET_SIZE - (|tsHeader.bytes| + pesLength + data);
      if stuffing > 0 {
        ghost var s := stuffing;
        FourBytesRead(pid, isStart, field != [], counter);
        ghost var four := FourBytes(pid, isStart, true, counter);
        if tsHeader.bytes[3] / 0x20 % 2 == 1 {
          assert tsHeader.bytes[4] == field[0];
          tsHeader.AddU8At(4, stuffing);
          assert tsHeader.bytes == four + ([field[0] + s] + field[1..]);
          WriteFill(tsHeader, stuffing);
          Concat3(four, [field[0] + s] + field[1..], Repeat(0xFF, stuffing));
        } else {
          AdaptedFlag(counter);
          tsHeader.OrU8At(3, 0x20);
          assert tsHeader.bytes == four;
          stuffing := stuffing - 1;
          tsHeader.WriteU8(stuffing);
          if stuffing >= 1 {
            stuffing := stuffing - 1;
            tsHeader.WriteU8(0x00);
            assert tsHeader.bytes == four + [s - 1, 0x00];
          }
          WriteFill(tsHeader, stuffing);
          assert s > 1 ==> tsHeader.bytes == four + ([s - 1, 0x00] + Repeat(0xFF, s - 2));
        }
        return data;
      }
      return TS_PACKET_SIZE - |tsHeader.bytes| - pesLength;
    }

    static method WriteFill(tsHeader: BytesWriter, n: nat)
      modifies tsHeader
      ensures tsHeader.bytes == old(tsHeader.bytes) + Repeat(0xFF, n)
    {
      for i := 0 to n
        invariant tsHeader.bytes == old(tsHeader.bytes) + Repeat(0xFF, i)
      {
        tsHeader.WriteU8(0xFF);
        assert Repeat(0xFF, i) + [0xFF] == Repeat(0xFF, i + 1);
        Concat3(old(tsHeader.bytes), Repeat(0xFF, i), [0xFF]);
      }
    }
  }

  lemma OneMap(pmt: Pmt, counter: u8)
    requires pmt.Valid() && counter < 16
    ensures Flatten(PmtPackets([pmt], counter)) == PsiPacket(pmt.pid, PmtSection(pmt), counter)
  {
    hide PsiPacket, PmtSection;
    assert [pmt][1..] == [];
    assert PmtPackets([pmt][1..], (counter + 1) % 16) == [];
    FlattenOne(PsiPacket(pmt.pid, PmtSection(pmt), counter));
  }

  lemma NothingFlat()
    ensures Flatten([]) == []
  {
  }

  lemma StartFlag(a: u8)
    requires a < 0x20
    ensures Or(a, 0x40) == Or(0x40, a) == a + 0x40
  {
  }

  lemma AdaptedFlag(counter: u8)
    requires counter < 16
    ensures Or(0x10 + counter, 0x20) == 0x30 + counter
  {
  }

  lemma FieldFlags()
    ensures Or(0x00, 0x10) == 0x10 && Or(0x00, 0x40) == 0x40 && Or(0x10, 0x40) == 0x50
  {
  }

  function PositionFrom(streams: seq<Stream>, j: nat, pid: int): Option<nat>
    requires j <= |streams|
  {
    match Position(streams[j..], pid) case None => None case Some(i) => Some(j + i)
  }

  lemma PositionWhole(streams: seq<Stream>, pid: int)
    ensures PositionFrom(streams, 0, pid) == Position(streams, pid)
  {
    assert streams[0..] == streams;
  }

  lemma PositionStep(streams: seq<Stream>, j: nat, pid: int)
    requires j <= |streams|
    ensures PositionFrom(streams, j, pid)
         == if j == |streams| then None else if streams[j].pid == pid then Some(j) else PositionFrom(streams, j + 1, pid)
  {
    if j < |streams| {
      assert streams[j..][1..] == streams[j + 1..];
    }
  }
}
