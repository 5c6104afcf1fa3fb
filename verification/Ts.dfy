/**
The transport stream muxer (library/container/mpegts/src/ts.rs).  `TsMuxer` is the class of the
repository; the functions on `Mux` say what its methods do, and TsRuns proves what that means for
whole runs.  One program, as `add_stream` makes it.
 */
module Ts {
  import opened Bytesio
  import opened Psi
  import opened Pes
  import opened TsPacket

  const PAT_PERIOD: int := 400 * 90
  const PCR_PID_NONE: Pid := 0x1FFF
  const FIRST_PID: u16 := 0x0100

  const PES_SID_AUDIO: u8 := 0xC0
  const PES_SID_VIDEO: u8 := 0xE0
  const PES_SID_PRIVATE_1: u8 := 0xBD

  // ---------- Looking a stream up ----------

  function Position(streams: seq<Stream>, pid: int): (r: Option<nat>)
    ensures r.Some? ==> r.value < |streams| && streams[r.value].pid == pid
  {
    if streams == [] then None
    else if streams[0].pid == pid then Some(0)
    else match Position(streams[1..], pid) case None => None case Some(j) => Some(j + 1)
  }

  /** The program and stream index found from program `p` on; `index` is not reset between programs. */
  function FindFrom(pmts: seq<Pmt>, p: nat, index: nat, pid: int): (r: Option<(nat, nat)>)
    requires p <= |pmts|
    ensures r.Some? ==> p <= r.value.0 < |pmts|
    decreases |pmts| - p
  {
    if p == |pmts| then None
    else
      match Position(pmts[p].streams, pid)
      case Some(j) => Some((p, index + j))
      case None => FindFrom(pmts, p + 1, index + |pmts[p].streams|, pid)
  }

  function FindStream(pmts: seq<Pmt>, pid: int): Option<(nat, nat)> {
    FindFrom(pmts, 0, 0, pid)
  }

  function StreamsBefore(pmts: seq<Pmt>, p: nat): nat
    requires p <= |pmts|
  {
    if p == 0 then 0 else StreamsBefore(pmts, p - 1) + |pmts[p - 1].streams|
  }

  predicate DistinctPids(streams: seq<Stream>) {
    forall i, j :: 0 <= i < j < |streams| ==> streams[i].pid != streams[j].pid
  }

  lemma {:induction false} FoundAt(pmts: seq<Pmt>, p: nat, pid: int)
    requires p <= |pmts|
    ensures var r := FindFrom(pmts, p, StreamsBefore(pmts, p), pid);
            r.Some? ==>
              var (q, i) := r.value;
              var position := Position(pmts[q].streams, pid);
              position.Some? && i == StreamsBefore(pmts, q) + position.value
    decreases |pmts| - p
  {
    if p < |pmts| {
      FoundAt(pmts, p + 1, pid);
    }
  }

  /** The index found is that of the stream exactly when no earlier program has a stream. */
  lemma FindStreamExactly(pmts: seq<Pmt>, pid: int)
    requires forall q :: 0 <= q < |pmts| ==> DistinctPids(pmts[q].streams)
    requires FindStream(pmts, pid).Some?
    ensures var (q, i) := FindStream(pmts, pid).value;
            (i < |pmts[q].streams| && pmts[q].streams[i].pid == pid) <==> StreamsBefore(pmts, q) == 0
  {
    FoundAt(pmts, 0, pid);
  }

  /** The only stream of a second program is looked for at an index that program does not have. */
  lemma SecondProgramExample()
    ensures var one, two := Stream(257, 0xE0, 0x1b, 0, false, 0, 0), Stream(259, 0xC0, 0x0f, 0, false, 0, 0);
            FindStream([Pmt(256, 1, 0, 257, [one]), Pmt(258, 2, 0, 259, [two])], 259) == Some((1, 1))
  {
    var one, two := Stream(257, 0xE0, 0x1b, 0, false, 0, 0), Stream(259, 0xC0, 0x0f, 0, false, 0, 0);
    var pmts := [Pmt(256, 1, 0, 257, [one]), Pmt(258, 2, 0, 259, [two])];
    assert Position([one], 259) == None;
    assert FindFrom(pmts, 1, 1, 259) == Some((1, 1));
  }

  // ---------- What the operations do ----------

  /** The state of a muxer, without its output. */
  datatype Mux = Mux(patCounter: u8, pmtCounter: u8, nextPid: u16, patPeriod: i64, pmts: seq<Pmt>) {
    /** One program at most, numbered and given its PIDs by `add_stream`. */
    predicate Valid() {
      && patCounter < 16 && pmtCounter < 16 && |pmts| <= 1
      && (pmts == [] ==> nextPid == FIRST_PID)
      && (pmts != [] ==> ValidProgram(pmts[0]) && nextPid as int == FIRST_PID + 1 + |pmts[0].streams|)
    }
  }

  predicate ValidProgram(pmt: Pmt) {
    && pmt.Valid() && pmt.pid == FIRST_PID && pmt.programNumber == 1
    && (forall j :: 0 <= j < |pmt.streams| ==> pmt.streams[j].pid == FIRST_PID + 1 + j && pmt.streams[j].counter < 16)
  }

  function NewMux(): (m: Mux)
    ensures m.Valid()
  {
    Mux(0, 0, FIRST_PID, 0, [])
  }

  function StreamIdFor(codecId: u8): u8 {
    if codecId == PSI_STREAM_H264 then PES_SID_VIDEO
    else if codecId in {PSI_STREAM_AUDIO_OPUS, PSI_STREAM_AAC, PSI_STREAM_MP3, PSI_STREAM_MPEG4_AAC} then PES_SID_AUDIO
    else PES_SID_PRIVATE_1
  }

  function ResetState(m: Mux): Mux {
    m.(patPeriod := 0)
  }

  /** The program of `add_stream`, made when there is none. */
  function WithProgram(m: Mux): (r: Mux)
    requires m.Valid()
    ensures r.Valid() && |r.pmts| == 1
  {
    if m.pmts != [] then m
    else m.(nextPid := m.nextPid + 1, pmts := [Pmt(m.nextPid, 1, 0, PCR_PID_NONE, [])])
  }

  /** Four streams are the most a program can have; each gets the next PID, and a new version is announced. */
  function AddStreamState(m: Mux, codecId: u8): (r: Option<(Mux, Pid)>)
    requires m.Valid()
    ensures r.Some? ==> r.value.0.Valid()
  {
    var m := WithProgram(m);
    var pmt := m.pmts[0];
    if |pmt.streams| == 4 then None
    else
      var stream := Stream(m.nextPid, StreamIdFor(codecId), codecId, 0, false, 0, 0);
      var pmt' := pmt.(streams := pmt.streams + [stream], version := (pmt.version + 1) % 32);
      Some((ResetState(m.(nextPid := m.nextPid + 1, pmts := [pmt'])), m.nextPid))
  }

  predicate IsVideoId(streamId: u8) {
    streamId / 0x20 == PES_SID_VIDEO / 0x20
  }

  /** The first stream written gives the clock, and any video stream takes it over. */
  predicate TakesClock(pmt: Pmt, stream: Stream) {
    pmt.pcrPid == PCR_PID_NONE || (IsVideoId(stream.streamId) && pmt.pcrPid != stream.pid)
  }

  function WithStream(pmt: Pmt, j: nat, stream: Stream): Pmt
    requires j < |pmt.streams|
  {
    pmt.(streams := pmt.streams[j := stream])
  }

  /** The muxer ready to write to stream `j`: clock chosen, timestamps noted. */
  function Prepared(m: Mux, j: nat, pts: i64, dts: i64, aligned: bool): (r: Mux)
    requires m.Valid() && m.pmts != [] && j < |m.pmts[0].streams|
    ensures r.Valid() && r.pmts != [] && |r.pmts[0].streams| == |m.pmts[0].streams|
  {
    var pmt := m.pmts[0];
    var stream := pmt.streams[j];
    var takes := TakesClock(pmt, stream);
    var pmt' := if takes then pmt.(pcrPid := stream.pid) else pmt;
    m.(patPeriod := if takes then 0 else m.patPeriod,
       pmts := [WithStream(pmt', j, stream.(pts := pts, dts := dts, aligned := aligned))])
  }

  predicate AnnouncesAt(m: Mux, dts: i64) {
    m.patPeriod == 0 || m.patPeriod + PAT_PERIOD <= dts
  }

  lemma AnnouncesIs(m: Mux, dts: i64)
    ensures AnnouncesAt(m, dts) == (0 == m.patPeriod || m.patPeriod + PAT_PERIOD <= dts)
  {
  }

  function PmtPackets(pmts: seq<Pmt>, counter: u8): seq<Bytes>
    requires counter < 16 && forall p :: 0 <= p < |pmts| ==> pmts[p].Valid()
    decreases |pmts|
  {
    if pmts == [] then []
    else
      [PsiPacket(pmts[0].pid, PmtSection(pmts[0]), counter)] + PmtPackets(pmts[1..], (counter + 1) % 16)
  }

  /** The association table, then the map of every program. */
  function PsiPackets(m: Mux): seq<Bytes>
    requires m.Valid()
  {
    [PsiPacket(PAT_TID_PAS as Pid, PatSection(m.pmts), m.patCounter)] + PmtPackets(m.pmts, m.pmtCounter)
  }

  function Announced(m: Mux, dts: i64): (r: Mux)
    requires m.Valid()
    ensures r.Valid()
  {
    m.(patPeriod := dts, patCounter := (m.patCounter + 1) % 16, pmtCounter := (m.pmtCounter + |m.pmts|) % 16)
  }

  /** The packets of one access unit of stream `j`. */
  function Media(m: Mux, j: nat, withAud: bool, payload: Bytes): seq<Bytes>
    requires m.Valid() && m.pmts != [] && j < |m.pmts[0].streams|
  {
    var pmt := m.pmts[0];
    Packets(pmt.streams[j], pmt.pcrPid, PesHeader(pmt.streams[j], withAud, |payload|), payload, true)
  }

  function AfterMedia(m: Mux, j: nat, n: nat): (r: Mux)
    requires m.Valid() && m.pmts != [] && j < |m.pmts[0].streams|
    ensures r.Valid()
  {
    var stream := m.pmts[0].streams[j];
    m.(pmts := [WithStream(m.pmts[0], j, stream.(counter := (stream.counter + n) % 16))])
  }

  lemma AfterNone(m: Mux, j: nat)
    requires m.Valid() && m.pmts != [] && j < |m.pmts[0].streams|
    ensures AfterMedia(m, j, 0) == m
  {
    var streams := m.pmts[0].streams;
    assert streams[j := streams[j].(counter := (streams[j].counter + 0) % 16)] == streams;
  }

  lemma AfterOneMore(m: Mux, j: nat, n: nat)
    requires m.Valid() && m.pmts != [] && j < |m.pmts[0].streams|
    ensures AfterMedia(AfterMedia(m, j, n), j, 1) == AfterMedia(m, j, n + 1)
  {
    var streams := m.pmts[0].streams;
    var counter := streams[j].counter;
    assert ((counter + n) % 16 + 1) % 16 == (counter + n + 1) % 16;
    var one, two := streams[j].(counter := (counter + n) % 16), streams[j].(counter := (counter + n + 1) % 16);
    assert streams[j := one][j := two] == streams[j := two];
  }

  /** The packets a write announces the program with, if it is time. */
  function PsiOf(ready: Mux, dts: i64): seq<Bytes>
    requires ready.Valid()
  {
    if AnnouncesAt(ready, dts) then PsiPackets(ready) else []
  }

  function AfterPsi(ready: Mux, dts: i64): (r: Mux)
    requires ready.Valid()
    ensures r.Valid() && (ready.pmts != [] ==> r.pmts == ready.pmts)
  {
    if AnnouncesAt(ready, dts) then Announced(ready, dts) else ready
  }

  /** A write to stream `j`: the new state and the packets put out. */
  function WriteStream(m: Mux, j: nat, pts: i64, dts: i64, aligned: bool, withAud: bool, payload: Bytes): (r: (Mux, seq<Bytes>))
    requires m.Valid() && m.pmts != [] && j < |m.pmts[0].streams|
    ensures r.0.Valid()
  {
    var ready := Prepared(m, j, pts, dts, aligned);
    var announced := AfterPsi(ready, dts);
    var media := Media(announced, j, withAud, payload);
    (AfterMedia(announced, j, |media|), PsiOf(ready, dts) + media)
  }

  /** A write to a PID; an unknown one is refused. */
  function WriteState(m: Mux, pid: int, pts: i64, dts: i64, aligned: bool, withAud: bool, payload: Bytes): (r: Option<(Mux, seq<Bytes>)>)
    requires m.Valid()
    ensures r.Some? ==> r.value.0.Valid()
  {
    match FindStream(m.pmts, pid)
    case None => None
    case Some(at) =>
      FindStreamExactly(m.pmts, pid);
      Some(WriteStream(m, at.1, pts, dts, aligned, withAud, payload))
  }

  /** With one program a stream found is a stream of that program. */
  lemma FoundInProgram(m: Mux, pid: int)
    requires m.Valid() && FindStream(m.pmts, pid).Some?
    ensures m.pmts != []
    ensures FindStream(m.pmts, pid).value.0 == 0 && FindStream(m.pmts, pid).value.1 < |m.pmts[0].streams|
  {
    FindStreamExactly(m.pmts, pid);
  }

  lemma WriteFound(m: Mux, pid: int, pts: i64, dts: i64, aligned: bool, withAud: bool, payload: Bytes)
    requires m.Valid()
    ensures FindStream(m.pmts, pid).None? ==> WriteState(m, pid, pts, dts, aligned, withAud, payload).None?
    ensures FindStream(m.pmts, pid).Some? ==>
              m.pmts != [] && FindStream(m.pmts, pid).value.1 < |m.pmts[0].streams|
              && WriteState(m, pid, pts, dts, aligned, withAud, payload)
                 == Some(WriteStream(m, FindStream(m.pmts, pid).value.1, pts, dts, aligned, withAud, payload))
  {
    hide WriteStream, FindStream;
    if FindStream(m.pmts, pid).Some? {
      FoundInProgram(m, pid);
    }
  }
}
