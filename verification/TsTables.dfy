/**
When the tables go out: over whole runs of the muxer, told by what was written before and not by its clock.
 */
module TsTables {
  import opened Bytesio
  import opened Psi
  import opened TsPacket
  import opened Ts
  import opened TsRuns
  import opened TsClock

  // ---------- What is observed ----------

  /** The association table and the program's map go in front. */
  predicate Announces(ps: seq<Bytes>)
    requires ArePackets(ps)
  {
    |ps| >= 2 && PidOf(ps[0]) == 0 && PidOf(ps[1]) == 0x100
  }

  /** Neither table is among the packets. */
  predicate NoTables(ps: seq<Bytes>)
    requires ArePackets(ps)
  {
    forall k | 0 <= k < |ps| :: PidOf(ps[k]) > 0x100
  }

  /** How many streams have been asked for. */
  function Adds(ops: seq<Op>): nat {
    if ops == [] then 0 else Adds(ops[..|ops| - 1]) + (if ops[|ops| - 1].Add? then 1 else 0)
  }

  /** The operation is a write to a stream there is. */
  predicate Accepted(ops: seq<Op>, op: Op) {
    op.Write? && CodecOf(Run(ops).0, op.pid).Some?
  }

  /**
  The decoding time of the write that last put the tables out, unless a reset or one of the first four streams came after it.
   */
  function LastTables(ops: seq<Op>): Option<int> {
    if ops == [] then None
    else
      var before, op := ops[..|ops| - 1], ops[|ops| - 1];
      match op
      case Reset => None
      case Add(_) => if Adds(before) < 4 then None else LastTables(before)
      case Write(_, _, dts, _, _, _) =>
        if Accepted(before, op) && TablesOut(before, op) then Some(dts) else LastTables(before)
  }

  predicate TablesOut(ops: seq<Op>, op: Op) {
    var out := Step(Run(ops).0, op).1;
    ArePackets(out) && Announces(out)
  }

  // ---------- What one write puts out ----------

  lemma TablesShow(m: Mux, rest: seq<Bytes>)
    requires m.Valid() && m.pmts != [] && ArePackets(rest)
    ensures ArePackets(PsiPackets(m) + rest) && Announces(PsiPackets(m) + rest)
  {
    hide PsiPackets, PatPacket, MapPacket, IsPacket, PidOf, CounterOf, StartsUnit, Heard, ValidProgram;
    PsiIsTwo(m);
    AssociationHeard(m, Decoder(None, None));
    MapHeard(m, Decoder(Some(FIRST_PID as Pid), None));
  }

  lemma MediaShows(m: Mux, j: nat, withAud: bool, payload: Bytes)
    requires m.Valid() && m.pmts != [] && j < |m.pmts[0].streams|
    ensures var media := Media(m, j, withAud, payload);
            ArePackets(media) && NoTables(media) && !Announces(media)
  {
    assert m.pmts[0].streams[j].pid > 0x100;
    hide Media, IsPacket, PidOf, CounterOf, StartsUnit, Content, UnitHeader, AllMarked, ValidProgram;
    MediaDelivers(m, j, withAud, payload);
    var media := Media(m, j, withAud, payload);
    assert forall k | 0 <= k < |media| :: PidOf(media[k]) == m.pmts[0].streams[j].pid;
  }

  /** The tables are put out when none have been, when 36000 ticks have passed, or when the clock changes hands. */
  lemma WriteShows(m: Mux, j: nat, pts: i64, dts: i64, aligned: bool, withAud: bool, payload: Bytes)
    requires m.Valid() && m.pmts != [] && j < |m.pmts[0].streams|
    ensures var done := WriteStream(m, j, pts, dts, aligned, withAud, payload);
            var moved := done.0.pmts == [] || done.0.pmts[0].pcrPid != m.pmts[0].pcrPid;
            var due := m.patPeriod == 0 || m.patPeriod + 36000 <= dts || moved;
            && ArePackets(done.1) && (Announces(done.1) <==> due) && (NoTables(done.1) <==> !due)
            && done.0.pmts != [] && |done.0.pmts[0].streams| == |m.pmts[0].streams|
            && done.0.patPeriod == (if due then dts else m.patPeriod)
  {
    hide Media, PsiPackets, IsPacket, PidOf, Announces, NoTables;
    var ready := Prepared(m, j, pts, dts, aligned);
    var media := Media(AfterPsi(ready, dts), j, withAud, payload);
    MediaShows(AfterPsi(ready, dts), j, withAud, payload);
    TablesShow(ready, media);
    AnnouncedHasTables(PsiPackets(ready) + media);
    assert [] + media == media;
  }

  lemma AnnouncedHasTables(ps: seq<Bytes>)
    requires ArePackets(ps) && Announces(ps)
    ensures !NoTables(ps)
  {
    hide IsPacket, PidOf;
    assert PidOf(ps[0]) == 0;
  }

  // ---------- Over every run ----------

  // The muxer's memory is what the run says.
  predicate Remembers(m: Mux, last: Option<int>, adds: nat) {
    && m.patPeriod as int == (if last.None? then 0 else last.value)
    && StreamCount(m) == (if adds < 4 then adds else 4)
  }

  /** The codecs of the streams, in the order they were asked for; a fifth is refused. */
  function Codecs(ops: seq<Op>): seq<u8> {
    if ops == [] then []
    else
      var before, op := Codecs(ops[..|ops| - 1]), ops[|ops| - 1];
      if op.Add? && |before| < 4 then before + [op.codecId] else before
  }

  /** The streams of the program: PIDs from 0x101 on, a new version for each. */
  predicate Carries(m: Mux, codecs: seq<u8>) {
    && |codecs| <= 4
    && (m.pmts == [] ==> codecs == [])
    && (m.pmts != [] ==>
          && m.pmts[0].programNumber == 1 && m.pmts[0].version as int == |codecs| && |m.pmts[0].streams| == |codecs|
          && forall j :: 0 <= j < |codecs| ==> m.pmts[0].streams[j].codecId == codecs[j] && m.pmts[0].streams[j].pid == 0x101 + j)
  }

  lemma StepCarries(m: Mux, op: Op, codecs: seq<u8>)
    requires m.Valid() && Carries(m, codecs)
    ensures Carries(Step(m, op).0, if op.Add? && |codecs| < 4 then codecs + [op.codecId] else codecs)
  {
    hide FindStream, Media, PsiPackets, StreamIdFor;
    match op
    case Write(pid, pts, dts, aligned, withAud, payload) => WriteFound(m, pid, pts, dts, aligned, withAud, payload);
    case _ =>
  }

  lemma {:induction false} RunCarries(ops: seq<Op>)
    ensures Carries(Run(ops).0, Codecs(ops))
  {
    hide Carries, Step;
    if ops == [] {
      NewCarries();
    } else {
      RunCarries(ops[..|ops| - 1]);
      StepCarries(Run(ops[..|ops| - 1]).0, ops[|ops| - 1], Codecs(ops[..|ops| - 1]));
    }
  }

  lemma NewCarries()
    ensures Carries(NewMux(), [])
  {
  }

  /** What the tables should say, in plain numbers: Opus (0x9C) goes as private data (0x06). */
  function TablesFor(codecs: seq<u8>, clock: Pid): Map
    requires |codecs| <= 4
  {
    Map(1, |codecs|, clock, seq(|codecs|, i requires 0 <= i < |codecs| => (if codecs[i] == 0x9C then 0x06 else codecs[i], 0x101 + i)))
  }

  lemma CarriesTold(m: Mux, codecs: seq<u8>)
    requires m.pmts != [] && Carries(m, codecs)
    ensures MapOf(m.pmts[0]) == TablesFor(codecs, m.pmts[0].pcrPid)
  {
    var told, due := MapOf(m.pmts[0]).streams, TablesFor(codecs, m.pmts[0].pcrPid).streams;
    assert forall i | 0 <= i < |codecs| :: told[i] == due[i];
    assert told == due;
  }

  lemma AddRemembers(m: Mux, codecId: u8, last: Option<int>, adds: nat)
    requires m.Valid() && Remembers(m, last, adds)
    ensures Remembers(Step(m, Add(codecId)).0, if adds < 4 then None else last, adds + 1)
  {
    hide ValidProgram, StreamIdFor;
  }

  lemma WriteRemembers(ops: seq<Op>, op: Op, last: Option<int>, adds: nat)
    requires op.Write? && Remembers(Run(ops).0, last, adds)
    ensures Remembers(Step(Run(ops).0, op).0, if Accepted(ops, op) && TablesOut(ops, op) then Some(op.dts) else last, adds)
  {
    hide Run, WriteStream, IsPacket, Announces, NoTables, CodecOf, FindStream, ValidProgram;
    var m := Run(ops).0;
    FoundIs(m, op.pid);
    WriteFound(m, op.pid, op.pts, op.dts, op.aligned, op.withAud, op.payload);
    if CodecOf(m, op.pid).Some? {
      WriteShows(m, FindStream(m.pmts, op.pid).value.1, op.pts, op.dts, op.aligned, op.withAud, op.payload);
    }
  }

  lemma {:induction false} RunRemembers(ops: seq<Op>)
    ensures Remembers(Run(ops).0, LastTables(ops), Adds(ops))
  {
    hide Step, Accepted, TablesOut, Remembers;
    if ops == [] {
      NewRemembers();
    } else {
      var before, op := ops[..|ops| - 1], ops[|ops| - 1];
      RunRemembers(before);
      match op
      case Add(codecId) => AddRemembers(Run(before).0, codecId, LastTables(before), Adds(before));
      case Reset => ResetRemembers(Run(before).0, LastTables(before), Adds(before));
      case Write(_, _, _, _, _, _) => WriteRemembers(before, op, LastTables(before), Adds(before));
    }
  }

  lemma NewRemembers()
    ensures Remembers(NewMux(), None, 0)
  {
  }

  lemma ResetRemembers(m: Mux, last: Option<int>, adds: nat)
    requires m.Valid() && Remembers(m, last, adds)
    ensures Remembers(Step(m, Reset).0, None, adds)
  {
  }

  // The clock changes hands in the muxer exactly when it does in the run.
  lemma ClockMoves(m: Mux, m': Mux, clock: Option<int>, clock': Option<int>)
    requires m.pmts != [] && m'.pmts != [] && ClockAt(m, clock) && ClockAt(m', clock')
    ensures m'.pmts[0].pcrPid == m.pmts[0].pcrPid <==> clock == clock'
  {
  }

  /**
  Over every run an accepted write is preceded by both tables exactly when none have gone out since the start, the last reset
  and the last stream added, when those that did went out at time zero or at least 400 milliseconds before, or when this
  write moves the clock to another stream; otherwise it puts out no table at all.
   */
  lemma TablesWhenDue(ops: seq<Op>, op: Op)
    requires Accepted(ops, op)
    ensures var out, last := Step(Run(ops).0, op).1, LastTables(ops);
            var due := last.None? || last.value == 0 || op.dts >= last.value + 400 * 90 || ClockPid(ops + [op]) != ClockPid(ops);
            ArePackets(out) && (Announces(out) <==> due) && (NoTables(out) <==> !due)
  {
    hide WriteStream, IsPacket, Announces, NoTables, CodecOf, FindStream, ValidProgram, LastTables, ClockPid, ClockAt;
    var m := Run(ops).0;
    FoundIs(m, op.pid);
    WriteFound(m, op.pid, op.pts, op.dts, op.aligned, op.withAud, op.payload);
    WriteShows(m, FindStream(m.pmts, op.pid).value.1, op.pts, op.dts, op.aligned, op.withAud, op.payload);
    RunRemembers(ops);
    RunClock(ops);
    RunClock(ops + [op]);
    assert (ops + [op])[..|ops|] == ops;
    ClockMoves(m, Step(m, op).0, ClockPid(ops), ClockPid(ops + [op]));
  }

  /** The tables a write puts out are those of the muxer behind it. */
  lemma TablesHeard(m: Mux, j: nat, pts: i64, dts: i64, aligned: bool, withAud: bool, payload: Bytes)
    requires m.Valid() && m.pmts != [] && j < |m.pmts[0].streams|
    ensures var done := WriteStream(m, j, pts, dts, aligned, withAud, payload);
            ArePackets(done.1) && done.0.pmts != []
            && (Announces(done.1) ==> Heard(Heard(Decoder(None, None), done.1[0]), done.1[1]).table == Some(MapOf(done.0.pmts[0])))
  {
    WriteShows(m, j, pts, dts, aligned, withAud, payload);
    hide Media, PsiPackets, IsPacket, PidOf, Heard, PatPacket, MapPacket, MapOf, ValidProgram;
    var ready := Prepared(m, j, pts, dts, aligned);
    var media := Media(AfterPsi(ready, dts), j, withAud, payload);
    PsiIsTwo(ready);
    AssociationHeard(ready, Decoder(None, None));
    MapHeard(ready, Decoder(Some(FIRST_PID as Pid), None));
    MediaShows(AfterPsi(ready, dts), j, withAud, payload);
    SameMap(AfterPsi(ready, dts), j, |media|);
    assert [] + media == media;
  }

  /**
  Over every run the tables in front of an accepted write tell a fresh decoder the program as it stands: its streams in the
  order they were added with their types, as many versions as there were changes, and the PID of the clock.
   */
  lemma TablesTell(ops: seq<Op>, op: Op)
    requires Accepted(ops, op) && TablesOut(ops, op)
    ensures |Codecs(ops)| <= 4 && ClockPid(ops + [op]).Some? && 0 <= ClockPid(ops + [op]).value < 0x2000
    ensures var out := Step(Run(ops).0, op).1;
            Heard(Heard(Decoder(None, None), out[0]), out[1]).table == Some(TablesFor(Codecs(ops), ClockPid(ops + [op]).value))
  {
    hide WriteStream, IsPacket, PidOf, Heard, CodecOf, FindStream, ValidProgram, ClockPid, MapOf, Codecs, TablesFor;
    var m := Run(ops).0;
    FoundIs(m, op.pid);
    WriteFound(m, op.pid, op.pts, op.dts, op.aligned, op.withAud, op.payload);
    TablesHeard(m, FindStream(m.pmts, op.pid).value.1, op.pts, op.dts, op.aligned, op.withAud, op.payload);
    RunCarries(ops);
    StepCarries(m, op, Codecs(ops));
    assert (ops + [op])[..|ops|] == ops;
    RunClock(ops + [op]);
    ClockChosen(ops, op);
    CarriesTold(Step(m, op).0, Codecs(ops));
  }
}
