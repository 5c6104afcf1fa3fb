/**
One HLS segment as a player sees it that has seen no other: what its packets tell a fresh decoder, and how its media
starts.
 */
module HlsSegments {
  import opened Bytesio
  import opened Psi
  import opened Pes
  import opened TsPacket
  import opened Ts
  import opened TsRuns
  import opened TsClock
  import opened Hls

  // ---------- A decoder that starts with the segment ----------

  /** A fresh decoder understands all the packets, and is up to date unless the tables come next. */
  predicate Followed(m: Mux, ps: seq<Bytes>) {
    && ArePackets(ps) && AllUnderstood(ps)
    && Listen(ps).mapPid in {None, Some(FIRST_PID as Pid)}
    && (m.patPeriod == 0 || Tuned(m, ps))
  }

  lemma NothingFollowed(m: Mux)
    requires m.patPeriod == 0
    ensures Followed(m, [])
  {
  }

  lemma OneFollows(ps: seq<Bytes>, p: Bytes)
    requires ArePackets(ps) && AllUnderstood(ps) && IsPacket(p) && Understood(Listen(ps), p)
    ensures ArePackets(ps + [p]) && AllUnderstood(ps + [p]) && Listen(ps + [p]) == Heard(Listen(ps), p)
  {
    hide *;
    UnderstoodAppend(ps, p);
    ListenAppend(ps, p);
  }

  lemma TablesFollow(m: Mux, ps: seq<Bytes>)
    requires m.Valid() && m.pmts != [] && ArePackets(ps) && AllUnderstood(ps) && Listen(ps).mapPid in {None, Some(FIRST_PID as Pid)}
    ensures var all := ps + PsiPackets(m);
            ArePackets(all) && AllUnderstood(all) && Listen(all) == Decoder(Some(FIRST_PID as Pid), Some(MapOf(m.pmts[0])))
  {
    hide PsiPackets, PatPacket, MapPacket, IsPacket, PidOf, CounterOf, StartsUnit, Heard, Listen, AllUnderstood, MapOf, ValidProgram;
    PsiIsTwo(m);
    var d := Listen(ps);
    AssociationHeard(m, d);
    MapHeard(m, d.(mapPid := Some(FIRST_PID as Pid)));
    OneFollows(ps, PatPacket(m));
    OneFollows(ps + [PatPacket(m)], MapPacket(m));
    Concat3(ps, [PatPacket(m)], [MapPacket(m)]);
  }

  lemma {:induction false} QuietFollow(ps: seq<Bytes>, qs: seq<Bytes>, n: nat)
    requires ArePackets(ps) && AllUnderstood(ps) && ArePackets(qs) && Quiet(Listen(ps), qs) && n <= |qs|
    ensures var all := ps + qs[..n];
            ArePackets(all) && AllUnderstood(all) && Listen(all) == Listen(ps)
    decreases n
  {
    hide IsPacket, Understood, Heard, Listen, AllUnderstood;
    if n == 0 {
      assert ps + qs[..0] == ps;
    } else {
      QuietFollow(ps, qs, n - 1);
      TakeOneMore(ps, qs, n);
      OneFollows(ps + qs[..n - 1], qs[n - 1]);
    }
  }

  lemma MediaFollows(m: Mux, ps: seq<Bytes>, j: nat, withAud: bool, payload: Bytes)
    requires m.Valid() && Followed(m, ps) && Tuned(m, ps) && j < |m.pmts[0].streams|
    ensures var media := Media(m, j, withAud, payload);
            Followed(AfterMedia(m, j, |media|), ps + media)
  {
    hide Media, InOrder, AllMarked, Listen, AllUnderstood, MapOf, AfterMedia, ValidProgram, Content, UnitHeader, Quiet, IsPacket;
    var media := Media(m, j, withAud, payload);
    MediaDelivers(m, j, withAud, payload);
    MediaIsQuiet(m, j, media);
    QuietFollow(ps, media, |media|);
    assert media[..|media|] == media;
    SameMap(m, j, |media|);
  }

  lemma PreparedFollows(m: Mux, ps: seq<Bytes>, j: nat, pts: i64, dts: i64, aligned: bool)
    requires m.Valid() && Followed(m, ps) && m.pmts != [] && j < |m.pmts[0].streams|
    ensures Followed(Prepared(m, j, pts, dts, aligned), ps)
  {
    hide AllUnderstood, Listen, IsPacket;
    var ready := Prepared(m, j, pts, dts, aligned);
    assert Streams(ready.pmts[0].streams) == Streams(m.pmts[0].streams);
  }

  lemma AnnouncedFollows(m: Mux, ps: seq<Bytes>, dts: i64)
    requires m.Valid() && Followed(m, ps) && m.pmts != []
    ensures Followed(AfterPsi(m, dts), ps + PsiOf(m, dts)) && Tuned(AfterPsi(m, dts), ps + PsiOf(m, dts))
  {
    hide PsiPackets, AllUnderstood, Listen, IsPacket, MapOf;
    if AnnouncesAt(m, dts) {
      TablesFollow(m, ps);
    } else {
      assert ps + [] == ps;
    }
  }

  lemma WriteFollows(m: Mux, ps: seq<Bytes>, j: nat, pts: i64, dts: i64, aligned: bool, withAud: bool, payload: Bytes)
    requires m.Valid() && Followed(m, ps) && m.pmts != [] && j < |m.pmts[0].streams|
    ensures var done := WriteStream(m, j, pts, dts, aligned, withAud, payload);
            Followed(done.0, ps + done.1)
  {
    hide Followed, Tuned, Media, AfterMedia, PsiOf, AfterPsi, Prepared;
    var ready := Prepared(m, j, pts, dts, aligned);
    PreparedFollows(m, ps, j, pts, dts, aligned);
    AnnouncedFollows(ready, ps, dts);
    var announced, psi := AfterPsi(ready, dts), PsiOf(ready, dts);
    MediaFollows(announced, ps + psi, j, withAud, payload);
    Concat3(ps, psi, Media(announced, j, withAud, payload));
  }

  // ---------- How the media of a segment starts ----------

  function PidFor(f: Frame): Pid {
    if f.Video? then VIDEO_PID else AUDIO_PID
  }

  predicate IsKey(f: Frame) {
    f.Video? && f.isKey
  }

  /** The packet starts the PES packet of this frame, and is marked for random access exactly when that is a key frame. */
  predicate Opens(p: Bytes, f: Frame)
    requires IsPacket(p)
  {
    PidOf(p) == PidFor(f) && StartsUnit(p) && (HasRandomAccess(p) <==> IsKey(f))
  }

  predicate StartsWith(packets: seq<Bytes>, first: Option<Frame>)
    requires ArePackets(packets)
  {
    match first
    case None => FirstMedia(packets) == None
    case Some(f) => FirstMedia(packets).Some? && Opens(FirstMedia(packets).value, f)
  }

  lemma MediaOpens(m: Mux, j: nat, payload: Bytes, f: Frame)
    requires m.Valid() && m.pmts != [] && |m.pmts[0].streams| == 2 && j == StreamIndex(f)
    requires m.pmts[0].streams[j].pts != PTS_NO_VALUE && m.pmts[0].streams[j].aligned == IsKey(f)
    ensures var media := Media(m, j, false, payload);
            ArePackets(media) && StartsWith(media, if payload == [] then None else Some(f))
  {
    hide Media, Content, UnitHeader, IsPacket, PidOf, CounterOf, StartsUnit, HasRandomAccess, HasPcr, PcrBytes;
    var media := Media(m, j, false, payload);
    MediaDelivers(m, j, false, payload);
    if payload != [] {
      assert Marked(media[0], m.pmts[0].streams[j], m.pmts[0].pcrPid, true);
      assert m.pmts[0].streams[j].pid == PidFor(f);
    }
  }

  predicate HasData(f: Frame)
    requires IsMedia(f)
  {
    f.data != []
  }

  predicate Muxable(m: Mux, f: Frame) {
    m.Valid() && m.pmts != [] && |m.pmts[0].streams| == 2 && IsMedia(f) && InRange(f)
  }

  lemma MuxedOpens(m: Mux, f: Frame)
    requires Muxable(m, f)
    ensures var ps := Muxed(m, f).1;
            ArePackets(ps) && StartsWith(ps, if HasData(f) then Some(f) else None)
  {
    hide Media, PsiPackets, IsPacket, Opens;
    var ready := Prepared(m, StreamIndex(f), f.pts * 90, f.dts * 90, IsKey(f));
    var announced := AfterPsi(ready, f.dts * 90);
    MediaOpens(announced, StreamIndex(f), f.data, f);
    TablesAreNoMedia(ready);
    FirstMediaOf(PsiOf(ready, f.dts * 90), Media(announced, StreamIndex(f), false, f.data));
  }

  lemma MuxedFollows(m: Mux, ps: seq<Bytes>, f: Frame)
    requires Muxable(m, f) && Followed(m, ps)
    ensures var done := Muxed(m, f); Followed(done.0, ps + done.1) && Muxable(done.0, f)
  {
    WriteFollows(m, ps, StreamIndex(f), f.pts * 90, f.dts * 90, IsKey(f), false, f.data);
    hide Followed, Media, PsiPackets;
  }

  /** Two packets from which a decoder learns where both streams are. */
  predicate Lead(p: Bytes, q: Bytes) {
    && IsPacket(p) && IsPacket(q) && PidOf(p) == PAT_TID_PAS && PidOf(q) == FIRST_PID
    && var heard := Heard(Heard(Decoder(None, None), p), q);
       heard.table.Some? && Lists(heard.table.value, AUDIO_PID) && Lists(heard.table.value, VIDEO_PID)
  }

  /** After a reset the packets start with the tables. */
  lemma MuxedTables(m: Mux, f: Frame)
    requires Muxable(m, f) && m.patPeriod == 0
    ensures var ps := Muxed(m, f).1; |ps| >= 2 && Lead(ps[0], ps[1])
  {
    hide Media, IsPacket, PidOf, Heard, PsiPackets, PatPacket, MapPacket, AfterMedia;
    var ready := Prepared(m, StreamIndex(f), f.pts * 90, f.dts * 90, IsKey(f));
    PsiIsTwo(ready);
    AssociationHeard(ready, Decoder(None, None));
    MapHeard(ready, Decoder(Some(FIRST_PID as Pid), None));
    var streams := Streams(ready.pmts[0].streams);
    assert streams[0].1 == AUDIO_PID && streams[1].1 == VIDEO_PID;
  }

  // ---------- What goes into one segment ----------

  /** The frames muxed into one segment, and the packets they became. */
  datatype Part = Part(frames: seq<Frame>, packets: seq<Bytes>)

  function FirstWithData(frames: seq<Frame>): Option<Frame>
    requires forall f | f in frames :: IsMedia(f)
  {
    if frames == [] then None else if HasData(frames[0]) then Some(frames[0]) else FirstWithData(frames[1..])
  }

  lemma {:induction false} FirstWithDataOf(frames: seq<Frame>, f: Frame)
    requires IsMedia(f) && forall g | g in frames :: IsMedia(g)
    ensures FirstWithData(frames + [f])
         == if FirstWithData(frames).Some? then FirstWithData(frames) else if HasData(f) then Some(f) else None
    decreases |frames|
  {
    if frames == [] {
      assert frames + [f] == [f];
    } else {
      assert (frames + [f])[1..] == frames[1..] + [f];
      FirstWithDataOf(frames[1..], f);
    }
  }

  /**
  A segment a player can start with: it is empty or starts with the tables, a fresh decoder understands all of it, and
  its media starts with its first frame that has data, marked for random access exactly when that is a key frame.
   */
  predicate Playable(part: Part) {
    && (forall f | f in part.frames :: IsMedia(f))
    && ArePackets(part.packets) && AllUnderstood(part.packets)
    && (part.packets == [] <==> part.frames == [])
    && (part.packets != [] ==> |part.packets| >= 2 && Lead(part.packets[0], part.packets[1]))
    && StartsWith(part.packets, FirstWithData(part.frames))
  }

  /** The segment being filled, and the muxer that fills it. */
  predicate Filling(m: Mux, part: Part) {
    Playable(part) && Followed(m, part.packets) && (part.packets == [] ==> m.patPeriod == 0)
  }

  lemma NothingFilled(m: Mux)
    requires m.patPeriod == 0
    ensures Filling(m, Part([], []))
  {
    NothingFollowed(m);
  }

  lemma StartsWithGrows(packets: seq<Bytes>, first: Option<Frame>, more: seq<Bytes>, next: Option<Frame>)
    requires ArePackets(packets) && ArePackets(more) && StartsWith(packets, first) && StartsWith(more, next)
    ensures ArePackets(packets + more) && StartsWith(packets + more, if first.Some? then first else next)
  {
    FirstMediaOf(packets, more);
    hide FirstMedia, IsPacket, Opens;
  }

  /** Muxing one more frame into a segment. */
  lemma FillKeeps(m: Mux, part: Part, f: Frame)
    requires Muxable(m, f) && Filling(m, part)
    ensures var done := Muxed(m, f);
            Filling(done.0, Part(part.frames + [f], part.packets + done.1))
  {
    hide Muxed, Followed, Lead, StartsWith, IsPacket, AllUnderstood, FirstWithData;
    var done := Muxed(m, f);
    MuxedFollows(m, part.packets, f);
    FollowedGives(done.0, part.packets + done.1);
    FillStarts(m, part, f);
    FillLeads(m, part, f);
  }

  lemma FillStarts(m: Mux, part: Part, f: Frame)
    requires Muxable(m, f) && Playable(part)
    ensures var all := part.frames + [f];
            ArePackets(part.packets + Muxed(m, f).1) && (forall g | g in all :: IsMedia(g))
            && StartsWith(part.packets + Muxed(m, f).1, FirstWithData(all))
  {
    hide Muxed, Lead, StartsWith, ArePackets, AllUnderstood, FirstWithData;
    MuxedOpens(m, f);
    FirstWithDataOf(part.frames, f);
    StartsWithGrows(part.packets, FirstWithData(part.frames), Muxed(m, f).1, if HasData(f) then Some(f) else None);
  }

  lemma FillLeads(m: Mux, part: Part, f: Frame)
    requires Muxable(m, f) && Playable(part) && (part.packets == [] ==> m.patPeriod == 0)
    ensures var all := part.packets + Muxed(m, f).1; |all| >= 2 && Lead(all[0], all[1])
  {
    hide Muxed, Lead, StartsWith, ArePackets, AllUnderstood, FirstWithData;
    if part.packets == [] {
      MuxedTables(m, f);
      assert part.packets + Muxed(m, f).1 == Muxed(m, f).1;
    }
  }

  lemma FollowedGives(m: Mux, ps: seq<Bytes>)
    requires Followed(m, ps)
    ensures ArePackets(ps) && AllUnderstood(ps)
  {
  }
}
