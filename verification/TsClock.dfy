/**
The program clock reference: which stream carries it, and what time it tells, over whole runs of the muxer.
 */
module TsClock {
  import opened Bytesio
  import opened Psi
  import opened Pes
  import opened TsPacket
  import opened Ts
  import opened TsRuns

  // ---------- The first packet of a unit ----------

  /** The first packet that is neither of the tables. */
  function FirstMedia(ps: seq<Bytes>): (r: Option<Bytes>)
    requires ArePackets(ps)
    ensures r.Some? ==> IsPacket(r.value)
  {
    if ps == [] then None
    else if IsMediaPid(PidOf(ps[0]) as int) then Some(ps[0])
    else FirstMedia(ps[1..])
  }

  lemma {:induction false} FirstMediaOf(ps: seq<Bytes>, qs: seq<Bytes>)
    requires ArePackets(ps) && ArePackets(qs)
    ensures ArePackets(ps + qs)
    ensures FirstMedia(ps + qs) == if FirstMedia(ps).Some? then FirstMedia(ps) else FirstMedia(qs)
    decreases |ps|
  {
    hide IsPacket, PidOf;
    if ps == [] {
      assert ps + qs == qs;
    } else {
      assert (ps + qs)[1..] == ps[1..] + qs;
      FirstMediaOf(ps[1..], qs);
    }
  }

  lemma TablesAreNoMedia(m: Mux)
    requires m.Valid() && m.pmts != []
    ensures ArePackets(PsiPackets(m)) && FirstMedia(PsiPackets(m)) == None
  {
    hide PsiPackets, PatPacket, MapPacket, IsPacket, PidOf, CounterOf, StartsUnit, Heard, ValidProgram;
    PsiIsTwo(m);
    AssociationHeard(m, Decoder(None, None));
    MapHeard(m, Decoder(Some(FIRST_PID as Pid), None));
    OneTable(PatPacket(m));
    OneTable(MapPacket(m));
    FirstMediaOf([PatPacket(m)], [MapPacket(m)]);
  }

  lemma OneTable(p: Bytes)
    requires IsPacket(p) && !IsMediaPid(PidOf(p) as int)
    ensures ArePackets([p]) && FirstMedia([p]) == None
  {
    hide IsPacket, PidOf;
    assert FirstMedia([p][1..]) == None;
  }

  // ---------- What the clock says ----------

  /** The decoding time if there is one, else the presentation time; 2^63 below zero stands for no timestamp. */
  function TimeOf(pts: i64, dts: i64): i64 {
    if dts == -0x8000_0000_0000_0000 then pts else dts
  }

  /** A reference to this time: 33 bits of it, and nothing of the finer 27 MHz part. */
  predicate Tells(p: Bytes, pts: i64, dts: i64)
    requires IsPacket(p)
  {
    ReadPcr(p[6..12]) == (TimeOf(pts, dts) % 0x2_0000_0000, 0)
  }

  lemma ClockTold(stream: Stream, p: Bytes)
    requires IsPacket(p) && p[6..12] == PcrBytes(Clock(stream) * 300)
    ensures Tells(p, stream.pts, stream.dts)
  {
    hide PcrBytes, ReadPcr, IsPacket;
    PcrRoundTrip(Clock(stream) * 300);
    WholeClock(Clock(stream));
  }

  lemma WholeClock(x: int)
    ensures TruncDiv(x * 300, 300) == x && TruncRem(x * 300, 300) == 0
  {
  }

  lemma MediaClock(m: Mux, j: nat, withAud: bool, payload: Bytes)
    requires m.Valid() && m.pmts != [] && j < |m.pmts[0].streams| && payload != []
    ensures var media, stream := Media(m, j, withAud, payload), m.pmts[0].streams[j];
            ArePackets(media) && FirstMedia(media).Some?
            && var p := FirstMedia(media).value;
               PidOf(p) == stream.pid && HasPcr(p) == (m.pmts[0].pcrPid == stream.pid)
               && (HasPcr(p) ==> Tells(p, stream.pts, stream.dts))
  {
    hide Media, Content, UnitHeader, IsPacket, PidOf, CounterOf, StartsUnit, HasRandomAccess, HasPcr, PcrBytes, Tells, Clock;
    var media, stream := Media(m, j, withAud, payload), m.pmts[0].streams[j];
    MediaDelivers(m, j, withAud, payload);
    assert Marked(media[0], stream, m.pmts[0].pcrPid, true);
    if HasPcr(media[0]) {
      ClockTold(stream, media[0]);
    }
  }

  lemma WriteClock(m: Mux, j: nat, pts: i64, dts: i64, aligned: bool, withAud: bool, payload: Bytes)
    requires m.Valid() && m.pmts != [] && j < |m.pmts[0].streams| && payload != []
    ensures var done, pid := WriteStream(m, j, pts, dts, aligned, withAud, payload), m.pmts[0].streams[j].pid;
            ArePackets(done.1) && FirstMedia(done.1).Some? && done.0.pmts != []
            && var p := FirstMedia(done.1).value;
               PidOf(p) == pid && HasPcr(p) == (done.0.pmts[0].pcrPid == pid) && (HasPcr(p) ==> Tells(p, pts, dts))
  {
    hide Media, PsiPackets, IsPacket, PidOf, HasPcr, Tells, FirstMedia;
    var ready := Prepared(m, j, pts, dts, aligned);
    var announced := AfterPsi(ready, dts);
    MediaClock(announced, j, withAud, payload);
    TablesAreNoMedia(ready);
    NoPacketsNoMedia();
    FirstMediaOf(PsiOf(ready, dts), Media(announced, j, withAud, payload));
  }

  lemma NoPacketsNoMedia()
    ensures FirstMedia([]) == None
  {
  }

  // ---------- Which stream carries it ----------

  /** The codec of the stream with this PID. */
  function CodecOf(m: Mux, pid: int): Option<u8> {
    if m.pmts == [] then None
    else
      match Position(m.pmts[0].streams, pid)
      case None => None
      case Some(j) => Some(m.pmts[0].streams[j].codecId)
  }

  /** The PID that carries the clock: of the last H.264 stream written to, or while there is none of the first stream at all. */
  function ClockPid(ops: seq<Op>): Option<int> {
    if ops == [] then None
    else
      var before, op := ClockPid(ops[..|ops| - 1]), ops[|ops| - 1];
      var codec := if op.Write? then CodecOf(Run(ops[..|ops| - 1]).0, op.pid) else None;
      if codec.None? then before
      else if codec.value == 0x1B || before.None? then Some(op.pid)
      else before
  }

  predicate ClockAt(m: Mux, pid: Option<int>) {
    if m.pmts == [] then pid.None?
    else m.pmts[0].pcrPid as int == (if pid.None? then 0x1FFF else pid.value)
         && (pid.Some? ==> pid.value < 0x1FFF)
  }

  lemma FoundIs(m: Mux, pid: int)
    requires m.Valid()
    ensures FindStream(m.pmts, pid).Some? <==> CodecOf(m, pid).Some?
    ensures FindStream(m.pmts, pid).Some? ==>
              m.pmts != [] && var j := FindStream(m.pmts, pid).value.1;
              j < |m.pmts[0].streams| && m.pmts[0].streams[j].pid as int == pid && m.pmts[0].streams[j].codecId == CodecOf(m, pid).value
  {
    hide ValidProgram;
    if m.pmts != [] {
      assert FindFrom(m.pmts, 1, |m.pmts[0].streams|, pid) == None;
    }
  }

  lemma WriteClockAt(m: Mux, pid: int, pts: i64, dts: i64, aligned: bool, withAud: bool, payload: Bytes, clock: Option<int>)
    requires m.Valid() && Coded(m) && ClockAt(m, clock) && CodecOf(m, pid).Some?
    ensures var codec := CodecOf(m, pid).value;
            ClockAt(Step(m, Write(pid, pts, dts, aligned, withAud, payload)).0, if codec == 0x1B || clock.None? then Some(pid) else clock)
  {
    hide CodecOf, FindStream, Media, PsiPackets;
    FoundIs(m, pid);
    WriteFound(m, pid, pts, dts, aligned, withAud, payload);
    var j := FindStream(m.pmts, pid).value.1;
    assert m.pmts[0].streams[j].streamId == IdOfCodec(m.pmts[0].streams[j].codecId);
  }

  lemma StepClock(m: Mux, op: Op, clock: Option<int>)
    requires m.Valid() && Coded(m) && ClockAt(m, clock)
    ensures var codec := if op.Write? then CodecOf(m, op.pid) else None;
            ClockAt(Step(m, op).0, if codec.None? then clock else if codec.value == 0x1B || clock.None? then Some(op.pid) else clock)
  {
    hide CodecOf, FindStream, WriteState, ValidProgram;
    match op
    case Write(pid, pts, dts, aligned, withAud, payload) =>
      FoundIs(m, pid);
      if CodecOf(m, pid).Some? {
        WriteClockAt(m, pid, pts, dts, aligned, withAud, payload, clock);
      } else {
        WriteFound(m, pid, pts, dts, aligned, withAud, payload);
      }
    case _ =>
  }

  lemma {:induction false} RunClock(ops: seq<Op>)
    ensures ClockAt(Run(ops).0, ClockPid(ops))
  {
    hide ClockAt, Step, CodecOf;
    if ops == [] {
      NewClock();
    } else {
      var before := ops[..|ops| - 1];
      RunClock(before);
      RunCodes(before);
      StepClock(Run(before).0, ops[|ops| - 1], ClockPid(before));
    }
  }

  lemma NewClock()
    ensures ClockAt(NewMux(), None)
  {
  }

  /**
  Over every run: the first packet of the media of an accepted write carries a clock reference exactly when its PID is that
  of the last H.264 stream written to, itself included, or of the very first stream written to while no H.264 stream has
  been; and the reference tells the write's decoding time, or its presentation time if it has no other.
   */
  lemma ClockRuns(ops: seq<Op>, op: Op)
    requires op.Write? && op.payload != [] && FindStream(Run(ops).0.pmts, op.pid).Some?
    ensures var out := Step(Run(ops).0, op).1;
            ArePackets(out) && FirstMedia(out).Some?
            && var p := FirstMedia(out).value;
               PidOf(p) as int == op.pid && (HasPcr(p) <==> ClockPid(ops + [op]) == Some(op.pid))
               && (HasPcr(p) ==> Tells(p, op.pts, op.dts))
  {
    hide IsPacket, PidOf, HasPcr, Tells, FirstMedia, WriteStream, CodecOf, FindStream, ClockPid;
    var m := Run(ops).0;
    FoundIs(m, op.pid);
    WriteFound(m, op.pid, op.pts, op.dts, op.aligned, op.withAud, op.payload);
    WriteClock(m, FindStream(m.pmts, op.pid).value.1, op.pts, op.dts, op.aligned, op.withAud, op.payload);
    assert (ops + [op])[..|ops|] == ops;
    RunClock(ops + [op]);
    ClockChosen(ops, op);
  }

  lemma ClockChosen(ops: seq<Op>, op: Op)
    requires op.Write? && CodecOf(Run(ops).0, op.pid).Some?
    ensures ClockPid(ops + [op]).Some?
  {
    hide CodecOf, Run;
    assert (ops + [op])[..|ops|] == ops;
  }
}
