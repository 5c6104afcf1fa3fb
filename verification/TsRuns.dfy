/**
Whole runs of the transport stream muxer: what a demultiplexer sees of everything put out since the
muxer was made, over any sequence of added streams, writes and resets.  Taking the bytes out with
`get_data` moves them and changes nothing else, so it is no operation here.
 */
module TsRuns {
  import opened Bytesio
  import opened Psi
  import opened Pes
  import opened TsPacket
  import opened Ts

  datatype Op =
    | Add(codecId: u8)
    | Reset
    | Write(pid: int, pts: i64, dts: i64, aligned: bool, withAud: bool, payload: Bytes)

  /** The state after an operation and the packets it puts out; a refused operation does nothing. */
  function Step(m: Mux, op: Op): (r: (Mux, seq<Bytes>))
    requires m.Valid()
    ensures r.0.Valid()
  {
    match op
    case Add(codecId) =>
      (match AddStreamState(m, codecId) case None => (m, []) case Some(added) => (added.0, []))
    case Reset => (ResetState(m), [])
    case Write(pid, pts, dts, aligned, withAud, payload) =>
      (match WriteState(m, pid, pts, dts, aligned, withAud, payload) case None => (m, []) case Some(done) => done)
  }

  function Run(ops: seq<Op>): (r: (Mux, seq<Bytes>))
    ensures r.0.Valid()
  {
    if ops == [] then (NewMux(), [])
    else
      var before := Run(ops[..|ops| - 1]);
      var last := Step(before.0, ops[|ops| - 1]);
      (last.0, before.1 + last.1)
  }

  // ---------- Counters ----------

  /** How many packets have a PID. */
  function Count(ps: seq<Bytes>, pid: int): nat
    requires ArePackets(ps)
  {
    if ps == [] then 0
    else Count(ps[..|ps| - 1], pid) + (if PidOf(ps[|ps| - 1]) == pid then 1 else 0)
  }

  /** A counter of four bits that has counted so far. */
  predicate Due(counter: int, count: int) {
    counter == count % 16
  }

  /** The counter of every packet is the number of packets of its PID before it, modulo 16. */
  predicate CountersRise(ps: seq<Bytes>)
    requires ArePackets(ps)
  {
    forall k :: 0 <= k < |ps| ==> Due(CounterOf(ps[k]) as int, Count(ps[..k], PidOf(ps[k])))
  }

  lemma CountAppend(ps: seq<Bytes>, p: Bytes, pid: int)
    requires ArePackets(ps) && IsPacket(p)
    ensures ArePackets(ps + [p]) && Count(ps + [p], pid) == Count(ps, pid) + (if PidOf(p) == pid then 1 else 0)
  {
    assert (ps + [p])[..|ps|] == ps;
  }

  lemma RiseAppend(ps: seq<Bytes>, p: Bytes)
    requires ArePackets(ps) && CountersRise(ps) && IsPacket(p)
    requires Due(CounterOf(p) as int, Count(ps, PidOf(p)))
    ensures ArePackets(ps + [p]) && CountersRise(ps + [p])
  {
    hide IsPacket, PidOf, CounterOf, Count;
    var all := ps + [p];
    forall k | 0 <= k < |all|
      ensures Due(CounterOf(all[k]) as int, Count(all[..k], PidOf(all[k])))
    {
      assert all[..k] == ps[..k];
      if k == |ps| {
        assert all[..k] == ps;
      }
    }
  }

  // ---------- What a decoder has been told ----------

  /** The tables a decoder holds: where the map of the program is, and the map. */
  datatype Decoder = Decoder(mapPid: Option<Pid>, table: Option<Map>)

  function Heard(d: Decoder, p: Bytes): Decoder
    requires IsPacket(p)
  {
    if PidOf(p) == 0 then
      match ReadAssociation(SectionOf(p))
      case None => d
      case Some(programs) => if |programs| == 1 then d.(mapPid := Some(programs[0].1)) else d
    else if d.mapPid == Some(PidOf(p)) then d.(table := ReadMap(SectionOf(p)))
    else d
  }

  function Listen(ps: seq<Bytes>): Decoder
    requires ArePackets(ps)
  {
    if ps == [] then Decoder(None, None) else Heard(Listen(ps[..|ps| - 1]), ps[|ps| - 1])
  }

  predicate Lists(table: Map, pid: int) {
    exists i :: 0 <= i < |table.streams| && table.streams[i].1 == pid
  }

  /** A packet is a table, or of a stream the decoder's map lists; a clock reference comes on the PID the map gives. */
  predicate Understood(d: Decoder, p: Bytes)
    requires IsPacket(p)
  {
    || PidOf(p) == 0
    || d.mapPid == Some(PidOf(p))
    || (d.table.Some? && Lists(d.table.value, PidOf(p)) && (HasPcr(p) ==> d.table.value.pcrPid == PidOf(p)))
  }

  predicate AllUnderstood(ps: seq<Bytes>)
    requires ArePackets(ps)
  {
    forall k :: 0 <= k < |ps| ==> Understood(Listen(ps[..k]), ps[k])
  }

  lemma ListenAppend(ps: seq<Bytes>, p: Bytes)
    requires ArePackets(ps) && IsPacket(p)
    ensures ArePackets(ps + [p]) && Listen(ps + [p]) == Heard(Listen(ps), p)
  {
    assert (ps + [p])[..|ps|] == ps;
  }

  lemma UnderstoodAppend(ps: seq<Bytes>, p: Bytes)
    requires ArePackets(ps) && AllUnderstood(ps) && IsPacket(p) && Understood(Listen(ps), p)
    ensures ArePackets(ps + [p]) && AllUnderstood(ps + [p])
  {
    hide IsPacket, Listen, Understood;
    var all := ps + [p];
    forall k | 0 <= k < |all|
      ensures Understood(Listen(all[..k]), all[k])
    {
      assert all[..k] == ps[..k];
      if k == |ps| {
        assert all[..k] == ps;
      }
    }
  }

  // ---------- Units ----------

  /** The units of one PID: the payloads of the packets from each start on. */
  function Units(ps: seq<Bytes>, pid: int): seq<Bytes>
    requires ArePackets(ps)
  {
    if ps == [] then []
    else
      var before, p := Units(ps[..|ps| - 1], pid), ps[|ps| - 1];
      if PidOf(p) != pid then before
      else if StartsUnit(p) then before + [PayloadOf(p)]
      else if before == [] then []
      else before[..|before| - 1] + [before[|before| - 1] + PayloadOf(p)]
  }

  lemma UnitsAppend(ps: seq<Bytes>, p: Bytes, pid: int)
    requires ArePackets(ps) && IsPacket(p)
    ensures ArePackets(ps + [p])
    ensures var before := Units(ps, pid);
            Units(ps + [p], pid) == if PidOf(p) != pid then before
                                    else if StartsUnit(p) then before + [PayloadOf(p)]
                                    else if before == [] then []
                                    else before[..|before| - 1] + [before[|before| - 1] + PayloadOf(p)]
  {
    assert (ps + [p])[..|ps|] == ps;
  }

  // ---------- What every operation keeps ----------

  function MapOf(pmt: Pmt): Map {
    Map(pmt.programNumber, pmt.version, pmt.pcrPid, Streams(pmt.streams))
  }

  /** The decoder holds the current map. */
  predicate Tuned(m: Mux, ps: seq<Bytes>)
    requires ArePackets(ps)
  {
    m.pmts != [] && Listen(ps) == Decoder(Some(FIRST_PID as Pid), Some(MapOf(m.pmts[0])))
  }

  function StreamCount(m: Mux): nat {
    if m.pmts == [] then 0 else |m.pmts[0].streams|
  }

  ghost predicate Counted(m: Mux, ps: seq<Bytes>)
    requires m.Valid() && ArePackets(ps)
  {
    && Due(m.patCounter as int, Count(ps, PAT_TID_PAS))
    && Due(m.pmtCounter as int, Count(ps, FIRST_PID))
    && (forall j :: 0 <= j < StreamCount(m) ==> Due(m.pmts[0].streams[j].counter as int, Count(ps, FIRST_PID + 1 + j)))
    && (forall pid :: pid > FIRST_PID + StreamCount(m) ==> Count(ps, pid) == 0)
  }

  /** What is claimed of the output alone. */
  predicate Orderly(ps: seq<Bytes>) {
    ArePackets(ps) && CountersRise(ps) && AllUnderstood(ps)
  }

  ghost predicate Sound(m: Mux, ps: seq<Bytes>)
    requires m.Valid()
  {
    && Orderly(ps) && Counted(m, ps)
    && Listen(ps).mapPid in {None, Some(FIRST_PID as Pid)}
    && (m.patPeriod == 0 || Tuned(m, ps))
  }

  lemma SoundAtFirst()
    ensures Sound(NewMux(), [])
  {
  }

  lemma AddKeeps(m: Mux, ps: seq<Bytes>, codecId: u8)
    requires m.Valid() && Sound(m, ps)
    ensures Sound(Step(m, Add(codecId)).0, ps)
  {
    hide CountersRise, AllUnderstood, Listen, Count;
  }

  lemma ResetKeeps(m: Mux, ps: seq<Bytes>)
    requires m.Valid() && Sound(m, ps)
    ensures Sound(ResetState(m), ps)
  {
    hide CountersRise, AllUnderstood, Listen, Count;
  }

  lemma PreparedKeeps(m: Mux, ps: seq<Bytes>, j: nat, pts: i64, dts: i64, aligned: bool)
    requires m.Valid() && Sound(m, ps) && m.pmts != [] && j < |m.pmts[0].streams|
    ensures Sound(Prepared(m, j, pts, dts, aligned), ps)
  {
    hide CountersRise, AllUnderstood, Listen, Count;
    var ready := Prepared(m, j, pts, dts, aligned);
    assert Streams(ready.pmts[0].streams) == Streams(m.pmts[0].streams);
  }

  // The association table comes first, then the map, and the decoder is up to date.

  function PatPacket(m: Mux): Bytes
    requires m.Valid()
  {
    PsiPacket(PAT_TID_PAS as Pid, PatSection(m.pmts), m.patCounter)
  }

  function MapPacket(m: Mux): Bytes
    requires m.Valid() && m.pmts != []
  {
    PsiPacket(m.pmts[0].pid, PmtSection(m.pmts[0]), m.pmtCounter)
  }

  lemma AssociationHeard(m: Mux, d: Decoder)
    requires m.Valid() && m.pmts != []
    ensures var p := PatPacket(m);
            IsPacket(p) && PidOf(p) == PAT_TID_PAS && CounterOf(p) == m.patCounter && StartsUnit(p)
            && Heard(d, p) == d.(mapPid := Some(FIRST_PID as Pid))
  {
    var section := PatSection(m.pmts);
    PsiPacketRead(PAT_TID_PAS as Pid, section, m.patCounter);
    PatRoundTrip(m.pmts, Repeat(0xFF, 183 - |section|));
    hide PsiPacket, PatSection, ReadAssociation, IsPacket, PidOf, CounterOf, SectionOf;
  }

  lemma MapHeard(m: Mux, d: Decoder)
    requires m.Valid() && m.pmts != [] && d.mapPid == Some(FIRST_PID as Pid)
    ensures var p := MapPacket(m);
            IsPacket(p) && PidOf(p) == FIRST_PID && CounterOf(p) == m.pmtCounter && StartsUnit(p)
            && Heard(d, p) == d.(table := Some(MapOf(m.pmts[0])))
  {
    var section := PmtSection(m.pmts[0]);
    PsiPacketRead(m.pmts[0].pid, section, m.pmtCounter);
    PmtRoundTrip(m.pmts[0], Repeat(0xFF, 183 - |section|));
    hide PsiPacket, PmtSection, ReadMap, IsPacket, PidOf, CounterOf, SectionOf;
  }

  lemma PsiIsTwo(m: Mux)
    requires m.Valid() && m.pmts != []
    ensures PsiPackets(m) == [PatPacket(m), MapPacket(m)]
    ensures PsiPackets(m) == [PatPacket(m)] + [MapPacket(m)]
  {
    hide PsiPacket, PatSection, PmtSection;
    assert m.pmts[1..] == [];
    assert PmtPackets(m.pmts[1..], (m.pmtCounter + 1) % 16) == [];
  }

  /** One more packet whose counter is due and which the decoder understands. */
  lemma AppendKeeps(ps: seq<Bytes>, p: Bytes)
    requires Orderly(ps)
    requires IsPacket(p) && Due(CounterOf(p) as int, Count(ps, PidOf(p))) && Understood(Listen(ps), p)
    ensures Orderly(ps + [p])
    ensures Listen(ps + [p]) == Heard(Listen(ps), p)
    ensures forall pid :: Count(ps + [p], pid) == Count(ps, pid) + (if PidOf(p) == pid then 1 else 0)
  {
    RiseAppend(ps, p);
    UnderstoodAppend(ps, p);
    ListenAppend(ps, p);
    forall pid ensures Count(ps + [p], pid) == Count(ps, pid) + (if PidOf(p) == pid then 1 else 0) {
      CountAppend(ps, p, pid);
    }
  }

  lemma AnnouncedKeeps(m: Mux, ps: seq<Bytes>, dts: i64)
    requires m.Valid() && Sound(m, ps) && m.pmts != []
    ensures var all := ps + PsiPackets(m);
            Sound(Announced(m, dts), all) && Tuned(m, all)
  {
    TablesAppended(m, ps);
    CountedTables(m, ps, ps + PsiPackets(m), dts);
    hide PsiPackets, Counted, Listen, CountersRise, AllUnderstood, ArePackets;
  }

  lemma CountedTables(m: Mux, ps: seq<Bytes>, all: seq<Bytes>, dts: i64)
    requires m.Valid() && m.pmts != [] && ArePackets(ps) && ArePackets(all) && Counted(m, ps)
    requires forall pid :: Count(all, pid) == Count(ps, pid) + (if pid == PAT_TID_PAS || pid == FIRST_PID then 1 else 0)
    ensures Counted(Announced(m, dts), all)
  {
    hide Count, ArePackets;
    CounterDue(m.patCounter as nat, Count(ps, PAT_TID_PAS), 1, Announced(m, dts).patCounter as int);
    CounterDue(m.pmtCounter as nat, Count(ps, FIRST_PID), 1, Announced(m, dts).pmtCounter as int);
    var done := Announced(m, dts);
    assert done.pmts == m.pmts;
    assert done.patCounter == (m.patCounter + 1) % 16 && done.pmtCounter == (m.pmtCounter + 1) % 16;
    hide Announced;
    forall j | 0 <= j < StreamCount(done)
      ensures Due(done.pmts[0].streams[j].counter as int, Count(all, FIRST_PID + 1 + j))
    {
      assert Count(all, FIRST_PID + 1 + j) == Count(ps, FIRST_PID + 1 + j);
    }
  }

  lemma TablesAppended(m: Mux, ps: seq<Bytes>)
    requires m.Valid() && Sound(m, ps) && m.pmts != []
    ensures var all := ps + PsiPackets(m);
            Orderly(all) && Listen(all) == Decoder(Some(FIRST_PID as Pid), Some(MapOf(m.pmts[0])))
            && forall pid :: Count(all, pid) == Count(ps, pid) + (if pid == PAT_TID_PAS || pid == FIRST_PID then 1 else 0)
  {
    hide PsiPackets, PatPacket, MapPacket, IsPacket, PidOf, CounterOf, StartsUnit, Heard, Listen, Count, CountersRise, AllUnderstood,
         MapOf, ValidProgram;
    PsiIsTwo(m);
    var d := Listen(ps);
    AssociationHeard(m, d);
    MapHeard(m, d.(mapPid := Some(FIRST_PID as Pid)));
    AppendKeeps(ps, PatPacket(m));
    AppendKeeps(ps + [PatPacket(m)], MapPacket(m));
    Concat3(ps, [PatPacket(m)], [MapPacket(m)]);
  }

  // ---------- Media ----------

  /** Packets a decoder understands and learns nothing from. */
  predicate Quiet(d: Decoder, qs: seq<Bytes>)
    requires ArePackets(qs)
  {
    forall k :: 0 <= k < |qs| ==> Understood(d, qs[k]) && Heard(d, qs[k]) == d
  }

  /** The packets of one PES packet keep the output orderly. */
  lemma {:induction false} MediaKeeps(ps: seq<Bytes>, qs: seq<Bytes>, n: nat, of: Pid, counter: nat)
    requires Orderly(ps) && ArePackets(qs) && Quiet(Listen(ps), qs) && InOrder(qs, of, counter, true)
    requires Due(counter, Count(ps, of)) && n <= |qs|
    ensures var all := ps + qs[..n];
            Orderly(all) && Listen(all) == Listen(ps)
            && (forall pid :: Count(all, pid) == Count(ps, pid) + (if pid == of then n else 0))
    decreases n
  {
    hide IsPacket, PidOf, CounterOf, StartsUnit, Heard, Understood, Listen, Count, CountersRise, AllUnderstood, InOrder, Due;
    if n == 0 {
      assert ps + qs[..0] == ps;
    } else {
      var k := n - 1;
      var before := ps + qs[..k];
      MediaKeeps(ps, qs, k, of, counter);
      OrderAt(qs, of, counter, k);
      TakeOneMore(ps, qs, n);
      OneMediaKeeps(before, qs[k], Count(ps, of), k, counter);
    }
  }

  lemma OneMediaKeeps(before: seq<Bytes>, q: Bytes, count: nat, n: nat, counter: nat)
    requires Orderly(before) && IsPacket(q) && Understood(Listen(before), q) && Heard(Listen(before), q) == Listen(before)
    requires Count(before, PidOf(q)) == count + n && Due(counter, count) && Due(CounterOf(q) as int, counter + n)
    ensures var all := before + [q];
            Orderly(all) && Listen(all) == Listen(before)
            && (forall pid :: Count(all, pid) == Count(before, pid) + (if PidOf(q) == pid then 1 else 0))
  {
    hide *;
    CounterDue(counter, count, n, CounterOf(q) as int);
    AppendKeeps(before, q);
  }

  lemma OrderAt(qs: seq<Bytes>, of: Pid, counter: nat, k: nat)
    requires ArePackets(qs) && InOrder(qs, of, counter, true) && k < |qs|
    ensures PidOf(qs[k]) == of && Due(CounterOf(qs[k]) as int, counter + k)
  {
    hide PidOf, CounterOf, StartsUnit, IsPacket;
  }

  /** Packets of a stream the map lists tell a tuned decoder nothing new. */
  lemma MediaIsQuiet(m: Mux, j: nat, qs: seq<Bytes>)
    requires m.Valid() && m.pmts != [] && j < |m.pmts[0].streams| && ArePackets(qs)
    requires InOrder(qs, m.pmts[0].streams[j].pid, m.pmts[0].streams[j].counter as nat, true)
    requires AllMarked(qs, m.pmts[0].streams[j], m.pmts[0].pcrPid, true)
    ensures Quiet(Decoder(Some(FIRST_PID as Pid), Some(MapOf(m.pmts[0]))), qs)
  {
    hide IsPacket, PidOf, CounterOf, StartsUnit, HasPcr, HasRandomAccess, MapOf, Understood, Heard;
    forall k | 0 <= k < |qs|
      ensures var d := Decoder(Some(FIRST_PID as Pid), Some(MapOf(m.pmts[0])));
              Understood(d, qs[k]) && Heard(d, qs[k]) == d
    {
      assert Marked(qs[k], m.pmts[0].streams[j], m.pmts[0].pcrPid, k == 0);
      MediaUnderstood(m, j, qs[k]);
    }
  }

  lemma TakeOneMore(ps: seq<Bytes>, qs: seq<Bytes>, n: nat)
    requires 0 < n <= |qs|
    ensures ps + qs[..n] == ps + qs[..n - 1] + [qs[n - 1]]
  {
  }

  lemma CounterDue(counter: nat, count: nat, n: nat, later: int)
    requires Due(counter, count) && Due(later, counter + n)
    ensures Due(later, count + n)
  {
  }

  lemma MediaUnderstood(m: Mux, j: nat, q: Bytes)
    requires m.Valid() && m.pmts != [] && j < |m.pmts[0].streams| && IsPacket(q) && PidOf(q) == m.pmts[0].streams[j].pid
    requires HasPcr(q) ==> m.pmts[0].pcrPid == m.pmts[0].streams[j].pid
    ensures var d := Decoder(Some(FIRST_PID as Pid), Some(MapOf(m.pmts[0])));
            Understood(d, q) && Heard(d, q) == d
  {
    hide IsPacket, HasPcr, PidOf;
    assert Streams(m.pmts[0].streams)[j].1 == PidOf(q);
  }

  lemma AfterMediaKeeps(m: Mux, ps: seq<Bytes>, j: nat, withAud: bool, payload: Bytes)
    requires m.Valid() && Sound(m, ps) && Tuned(m, ps) && j < |m.pmts[0].streams|
    ensures var media := Media(m, j, withAud, payload);
            Sound(AfterMedia(m, j, |media|), ps + media)
  {
    hide Media, InOrder, AllMarked, Listen, Count, CountersRise, AllUnderstood, MapOf, AfterMedia, ValidProgram, Content, UnitHeader, Quiet, Due;
    var media := Media(m, j, withAud, payload);
    MediaDelivers(m, j, withAud, payload);
    CounterOfStream(m, ps, j);
    MediaIsQuiet(m, j, media);
    MediaKeeps(ps, media, |media|, m.pmts[0].streams[j].pid, m.pmts[0].streams[j].counter as nat);
    assert media[..|media|] == media;
    SameMap(m, j, |media|);
    CountedMedia(m, ps, j, ps + media, |media|);
  }

  lemma CounterOfStream(m: Mux, ps: seq<Bytes>, j: nat)
    requires m.Valid() && m.pmts != [] && j < |m.pmts[0].streams| && ArePackets(ps) && Counted(m, ps)
    ensures Due(m.pmts[0].streams[j].counter as int, Count(ps, m.pmts[0].streams[j].pid))
  {
    hide Count, ArePackets;
  }

  lemma SameMap(m: Mux, j: nat, n: nat)
    requires m.Valid() && m.pmts != [] && j < |m.pmts[0].streams|
    ensures var after := AfterMedia(m, j, n);
            after.pmts != [] && MapOf(after.pmts[0]) == MapOf(m.pmts[0]) && after.patPeriod == m.patPeriod
  {
    assert Streams(AfterMedia(m, j, n).pmts[0].streams) == Streams(m.pmts[0].streams);
  }

  lemma CountedMedia(m: Mux, ps: seq<Bytes>, j: nat, all: seq<Bytes>, n: nat)
    requires m.Valid() && m.pmts != [] && j < |m.pmts[0].streams|
    requires ArePackets(ps) && ArePackets(all) && Counted(m, ps)
    requires forall pid :: Count(all, pid) == Count(ps, pid) + (if pid == m.pmts[0].streams[j].pid then n else 0)
    ensures Counted(AfterMedia(m, j, n), all)
  {
    hide Count, ArePackets;
    var after := AfterMedia(m, j, n);
    CounterDue(m.pmts[0].streams[j].counter as nat, Count(ps, FIRST_PID + 1 + j), n, after.pmts[0].streams[j].counter as int);
    forall i | 0 <= i < StreamCount(after)
      ensures Due(after.pmts[0].streams[i].counter as int, Count(all, FIRST_PID + 1 + i))
    {
      assert Count(all, FIRST_PID + 1 + i) == Count(ps, FIRST_PID + 1 + i) + (if i == j then n else 0);
    }
  }

  /** The header in front of an access unit, unless there is none to send. */
  function UnitHeader(m: Mux, j: nat, withAud: bool, payload: Bytes): Bytes
    requires m.Valid() && m.pmts != [] && j < |m.pmts[0].streams|
  {
    if payload == [] then [] else PesHeader(m.pmts[0].streams[j], withAud, |payload|)
  }

  lemma MediaDelivers(m: Mux, j: nat, withAud: bool, payload: Bytes)
    requires m.Valid() && m.pmts != [] && j < |m.pmts[0].streams|
    ensures var media := Media(m, j, withAud, payload);
            var stream := m.pmts[0].streams[j];
            ArePackets(media) && InOrder(media, stream.pid, stream.counter as nat, true)
            && AllMarked(media, stream, m.pmts[0].pcrPid, true)
            && Content(media) == UnitHeader(m, j, withAud, payload) + payload
            && (media == [] <==> payload == [])
  {
    PacketsDeliver(m.pmts[0].streams[j], m.pmts[0].pcrPid, UnitHeader(m, j, withAud, payload), payload, true);
    hide InOrder, AllMarked, PesHeader, TsHeader;
  }

  lemma WriteKeeps(m: Mux, ps: seq<Bytes>, j: nat, pts: i64, dts: i64, aligned: bool, withAud: bool, payload: Bytes)
    requires m.Valid() && Sound(m, ps) && m.pmts != [] && j < |m.pmts[0].streams|
    ensures var done := WriteStream(m, j, pts, dts, aligned, withAud, payload);
            Sound(done.0, ps + done.1)
  {
    var ready := Prepared(m, j, pts, dts, aligned);
    PreparedKeeps(m, ps, j, pts, dts, aligned);
    if AnnouncesAt(ready, dts) {
      AnnouncedKeeps(ready, ps, dts);
    } else {
      assert ps + [] == ps;
    }
    var announced, psi := AfterPsi(ready, dts), PsiOf(ready, dts);
    assert Sound(announced, ps + psi) && Tuned(announced, ps + psi);
    hide Prepared, AfterPsi, PsiOf, Media, AfterMedia, Sound, Tuned;
    AfterMediaKeeps(announced, ps + psi, j, withAud, payload);
    Concat3(ps, psi, Media(announced, j, withAud, payload));
  }

  /**
  Over every run: counters rise by one modulo 16 on each PID, and at every packet a decoder that followed the
  tables knows its stream and the PID of the clock.
   */
  lemma {:induction false} RunIsSound(ops: seq<Op>)
    ensures Sound(Run(ops).0, Run(ops).1)
  {
    if ops == [] {
      SoundAtFirst();
    } else {
      RunIsSound(ops[..|ops| - 1]);
      var before := Run(ops[..|ops| - 1]);
      StepKeeps(before.0, before.1, ops[|ops| - 1]);
    }
  }

  lemma StepKeeps(m: Mux, ps: seq<Bytes>, op: Op)
    requires m.Valid() && Sound(m, ps)
    ensures var done := Step(m, op);
            Sound(done.0, ps + done.1)
  {
    hide CountersRise, AllUnderstood, Listen, Count, ArePackets, WriteStream, MapOf;
    assert ps + [] == ps;
    match op
    case Add(codecId) => AddKeeps(m, ps, codecId);
    case Reset => ResetKeeps(m, ps);
    case Write(pid, pts, dts, aligned, withAud, payload) =>
      if FindStream(m.pmts, pid).Some? {
        FindStreamExactly(m.pmts, pid);
        WriteKeeps(m, ps, FindStream(m.pmts, pid).value.1, pts, dts, aligned, withAud, payload);
      }
  }

  // ---------- What arrives ----------

  predicate IsMediaPid(pid: int) {
    pid != PAT_TID_PAS && pid != FIRST_PID as int
  }

  /** The stream id of a codec, in plain numbers: video, audio, or private data. */
  function IdOfCodec(codecId: u8): u8 {
    if codecId == 0x1B then 0xE0
    else if codecId == 0x04 || codecId == 0x0F || codecId == 0x1C || codecId == 0x9C then 0xC0
    else 0xBD
  }

  /** Every stream has the id of its codec. */
  predicate Coded(m: Mux) {
    m.pmts != [] ==> forall j :: 0 <= j < |m.pmts[0].streams| ==> m.pmts[0].streams[j].streamId == IdOfCodec(m.pmts[0].streams[j].codecId)
  }

  lemma StepCodes(m: Mux, op: Op)
    requires m.Valid() && Coded(m)
    ensures Coded(Step(m, op).0)
  {
    hide FindStream, ValidProgram, Media, PsiPackets;
    match op
    case Write(pid, pts, dts, aligned, withAud, payload) => WriteFound(m, pid, pts, dts, aligned, withAud, payload);
    case _ =>
  }

  lemma {:induction false} RunCodes(ops: seq<Op>)
    ensures Coded(Run(ops).0)
  {
    hide Coded, Step;
    if ops == [] {
      NewIsCoded();
    } else {
      RunCodes(ops[..|ops| - 1]);
      StepCodes(Run(ops[..|ops| - 1]).0, ops[|ops| - 1]);
    }
  }

  lemma NewIsCoded()
    ensures Coded(NewMux())
  {
  }

  /** What a write of data to `pid` should be decoded to, if the write is accepted. */
  function Views(m: Mux, op: Op, pid: int): seq<PesView>
    requires m.Valid()
  {
    if op.Write? && op.pid == pid && op.payload != [] && FindStream(m.pmts, pid).Some? then
      FindStreamExactly(m.pmts, pid);
      var stream := m.pmts[0].streams[FindStream(m.pmts, pid).value.1];
      [Described(stream.(pts := op.pts, dts := op.dts, aligned := op.aligned, streamId := IdOfCodec(stream.codecId)),
                 op.withAud, op.payload)]
    else []
  }

  function RunViews(ops: seq<Op>, pid: int): seq<PesView> {
    if ops == [] then []
    else RunViews(ops[..|ops| - 1], pid) + Views(Run(ops[..|ops| - 1]).0, ops[|ops| - 1], pid)
  }

  predicate Decoded(units: seq<Bytes>, views: seq<PesView>) {
    |units| == |views| && forall i :: 0 <= i < |units| ==> ReadPes(units[i]) == Some(views[i])
  }

  lemma DecodedConcat(units: seq<Bytes>, views: seq<PesView>, unit: Bytes, view: PesView)
    requires Decoded(units, views) && ReadPes(unit) == Some(view)
    ensures Decoded(units + [unit], views + [view])
  {
    hide ReadPes;
  }

  lemma {:induction false} ContentAppend(qs: seq<Bytes>, q: Bytes)
    requires ArePackets(qs) && IsPacket(q)
    ensures ArePackets(qs + [q]) && Content(qs + [q]) == Content(qs) + PayloadOf(q)
    decreases |qs|
  {
    hide IsPacket, PayloadOf;
    if qs == [] {
      assert qs + [q] == [q] && [q][1..] == [];
    } else {
      assert (qs + [q])[1..] == qs[1..] + [q];
      ContentAppend(qs[1..], q);
      Concat3(PayloadOf(qs[0]), Content(qs[1..]), PayloadOf(q));
    }
  }

  /** The packets of one PES packet are one more unit on their PID. */
  lemma {:induction false} MediaUnits(ps: seq<Bytes>, qs: seq<Bytes>, n: nat, of: Pid, counter: nat, pid: int)
    requires ArePackets(ps) && ArePackets(qs) && InOrder(qs, of, counter, true) && n <= |qs|
    ensures ArePackets(ps + qs[..n]) && ArePackets(qs[..n])
    ensures Units(ps + qs[..n], pid) == Units(ps, pid) + (if n == 0 || pid != of then [] else [Content(qs[..n])])
    decreases n
  {
    hide IsPacket, PidOf, CounterOf, StartsUnit, PayloadOf, Units, Content;
    if n == 0 {
      assert ps + qs[..0] == ps;
    } else {
      var before, q := ps + qs[..n - 1], qs[n - 1];
      MediaUnits(ps, qs, n - 1, of, counter, pid);
      TakeOneMore(ps, qs, n);
      UnitsAppend(before, q, pid);
      assert qs[..n] == qs[..n - 1] + [q];
      ContentAppend(qs[..n - 1], q);
      if n == 1 {
        NoContent();
        assert qs[..0] == [] && [] + PayloadOf(q) == PayloadOf(q);
        assert Units(ps, pid) + [] == Units(ps, pid);
      } else if pid == of {
        LastGrows(Units(ps, pid), Content(qs[..n - 1]), PayloadOf(q));
      }
    }
  }

  lemma NoContent()
    ensures Content([]) == []
  {
  }

  lemma LastGrows(units: seq<Bytes>, last: Bytes, more: Bytes)
    ensures var all := units + [last];
            all[..|all| - 1] + [all[|all| - 1] + more] == units + [last + more]
  {
  }

  lemma TablesAreNoUnits(m: Mux, ps: seq<Bytes>, pid: int)
    requires m.Valid() && m.pmts != [] && ArePackets(ps) && IsMediaPid(pid)
    ensures ArePackets(ps + PsiPackets(m)) && Units(ps + PsiPackets(m), pid) == Units(ps, pid)
  {
    hide PsiPackets, PatPacket, MapPacket, IsPacket, PidOf, StartsUnit, PayloadOf, Units, Heard, ValidProgram;
    PsiIsTwo(m);
    AssociationHeard(m, Decoder(None, None));
    MapHeard(m, Decoder(Some(FIRST_PID as Pid), None));
    UnitsAppend(ps, PatPacket(m), pid);
    UnitsAppend(ps + [PatPacket(m)], MapPacket(m), pid);
    Concat3(ps, [PatPacket(m)], [MapPacket(m)]);
  }

  lemma MediaArrives(m: Mux, ps: seq<Bytes>, j: nat, withAud: bool, payload: Bytes, pid: int)
    requires m.Valid() && m.pmts != [] && j < |m.pmts[0].streams| && ArePackets(ps)
    ensures var media := Media(m, j, withAud, payload);
            var stream := m.pmts[0].streams[j];
            ArePackets(ps + media)
            && Units(ps + media, pid) == Units(ps, pid)
                 + (if payload == [] || pid != stream.pid then [] else [PesHeader(stream, withAud, |payload|) + payload])
  {
    hide Media, InOrder, AllMarked, Units, Content, PesHeader, IsPacket, ValidProgram;
    var media, stream := Media(m, j, withAud, payload), m.pmts[0].streams[j];
    MediaDelivers(m, j, withAud, payload);
    MediaUnits(ps, media, |media|, stream.pid, stream.counter as nat, pid);
    assert media[..|media|] == media;
  }

  lemma WriteArrives(m: Mux, ps: seq<Bytes>, j: nat, pts: i64, dts: i64, aligned: bool, withAud: bool, payload: Bytes, pid: int)
    requires m.Valid() && m.pmts != [] && j < |m.pmts[0].streams| && ArePackets(ps) && IsMediaPid(pid)
    ensures var all := ps + WriteStream(m, j, pts, dts, aligned, withAud, payload).1;
            var stream := m.pmts[0].streams[j].(pts := pts, dts := dts, aligned := aligned);
            ArePackets(all)
            && exists header ::
                 (payload != [] ==> ReadPes(header + payload) == Some(Described(stream, withAud, payload)))
                 && Units(all, pid) == Units(ps, pid) + (if payload == [] || pid != stream.pid then [] else [header + payload])
  {
    hide Units, Media, IsPacket, PsiPackets, AfterMedia, ReadPes, ValidProgram, Described;
    var ready := Prepared(m, j, pts, dts, aligned);
    var announced, psi := AfterPsi(ready, dts), PsiOf(ready, dts);
    assert ps + [] == ps;
    if AnnouncesAt(ready, dts) {
      TablesAreNoUnits(ready, ps, pid);
    }
    MediaArrives(announced, ps + psi, j, withAud, payload, pid);
    Concat3(ps, psi, Media(announced, j, withAud, payload));
    var ready' := announced.pmts[0].streams[j];
    assert ready' == m.pmts[0].streams[j].(pts := pts, dts := dts, aligned := aligned);
    PesRoundTrip(ready', withAud, payload);
  }

  /**
  Over every run a demultiplexer that cuts the packets of a PID at their start flags finds, in order, one PES
  packet for each accepted write of data to that PID, and reads back from it the timestamps modulo 2^33 and the
  payload.
   */
  lemma {:induction false} RunArrives(ops: seq<Op>, pid: int)
    requires IsMediaPid(pid)
    ensures ArePackets(Run(ops).1) && Decoded(Units(Run(ops).1, pid), RunViews(ops, pid))
  {
    if ops != [] {
      var before, op := ops[..|ops| - 1], ops[|ops| - 1];
      RunArrives(before, pid);
      RunCodes(before);
      hide Units, ReadPes, IsPacket;
      StepArrives(Run(before).0, Run(before).1, op, pid, RunViews(before, pid));
    }
  }

  lemma StepArrives(m: Mux, ps: seq<Bytes>, op: Op, pid: int, views: seq<PesView>)
    requires m.Valid() && Coded(m) && ArePackets(ps) && IsMediaPid(pid) && Decoded(Units(ps, pid), views)
    ensures var all := ps + Step(m, op).1;
            ArePackets(all) && Decoded(Units(all, pid), views + Views(m, op, pid))
  {
    hide Units, ReadPes, IsPacket, WriteStream, Described, Decoded;
    assert ps + [] == ps && views + [] == views;
    if op.Write? && FindStream(m.pmts, op.pid).Some? {
      FindStreamExactly(m.pmts, op.pid);
      var j := FindStream(m.pmts, op.pid).value.1;
      WriteArrives(m, ps, j, op.pts, op.dts, op.aligned, op.withAud, op.payload, pid);
      var stream := m.pmts[0].streams[j].(pts := op.pts, dts := op.dts, aligned := op.aligned);
      var all := ps + Step(m, op).1;
      var header :| (op.payload != [] ==> ReadPes(header + op.payload) == Some(Described(stream, op.withAud, op.payload)))
                    && Units(all, pid) == Units(ps, pid) + (if op.payload == [] || pid != stream.pid then [] else [header + op.payload]);
      if op.payload != [] && pid == stream.pid {
        DecodedConcat(Units(ps, pid), views, header + op.payload, Described(stream, op.withAud, op.payload));
      } else {
        assert Units(ps, pid) + [] == Units(ps, pid);
      }
    }
  }

  /** After a reset, or a stream added, the next accepted write puts the association table and the map in front of its media. */
  lemma TablesAfterReset(m: Mux, op: Op)
    requires m.Valid() && op.Write? && FindStream(m.pmts, op.pid).Some?
    ensures var ps := Step(ResetState(m), op).1;
            |ps| >= 2 && IsPacket(ps[0]) && PidOf(ps[0]) == PAT_TID_PAS && IsPacket(ps[1]) && PidOf(ps[1]) == FIRST_PID as Pid
            && Heard(Heard(Decoder(None, None), ps[0]), ps[1]).table == Some(MapOf(Step(ResetState(m), op).0.pmts[0]))
  {
    hide Media, IsPacket, PidOf, Heard, PsiPackets, MapOf, PatPacket, MapPacket, FindStream, WriteState;
    FoundInProgram(ResetState(m), op.pid);
    WriteFound(ResetState(m), op.pid, op.pts, op.dts, op.aligned, op.withAud, op.payload);
    var j := FindStream(m.pmts, op.pid).value.1;
    var ready := Prepared(ResetState(m), j, op.pts, op.dts, op.aligned);
    PsiIsTwo(ready);
    AssociationHeard(ready, Decoder(None, None));
    MapHeard(ready, Decoder(Some(FIRST_PID as Pid), None));
    var announced := AfterPsi(ready, op.dts);
    SameMap(announced, j, |Media(announced, j, op.withAud, op.payload)|);
  }
}
