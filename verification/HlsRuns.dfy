/**
Whole runs of the HLS remuxer: what the playlist file, the segment files and the segments have to do with each
other and with everything muxed.
 */
module HlsRuns {
  import opened Bytesio
  import opened Ts
  import opened TsPacket
  import opened Hls
  import opened HlsSegments
  import opened TsClock
  import TsRuns

  datatype Op = Take(frame: Frame) | Flush

  /**
  A remuxer with the history of a run: all segments ever added, what went into each of them and what goes into the next,
  and all that was muxed.
   */
  datatype Trace = Trace(r: Remuxer, all: seq<Segment>, parts: seq<Part>, open: Part, muxed: Bytes, flushed: bool)

  function Ready(r: Remuxer, f: Frame): (q: Remuxer)
    requires r.Valid() && NumbersRise(r.playlist)
    ensures q.Valid()
  {
    if Cuts(r, f) then
      FilesKept(r.playlist, f.dts - r.lastTsDts, Discontinuous(f.dts, r.lastTsDts), false, r.pending);
      Cut(r, f.dts)
    else r
  }

  /** The segment a frame belongs to, with the frame in it. */
  function Filled(part: Part, f: Frame, packets: seq<Bytes>): Part {
    Part(part.frames + [f], part.packets + packets)
  }

  function Step(t: Trace, op: Op): Trace
    requires t.r.Valid() && NumbersRise(t.r.playlist) && (op.Take? ==> InRange(op.frame))
  {
    var r := t.r;
    match op
    case Take(f) =>
      if !IsMedia(f) then t
      else
        var put := Muxed(Ready(r, f).mux, f).1;
        if Cuts(r, f) then
          var segment := Segment(f.dts - r.lastTsDts, Discontinuous(f.dts, r.lastTsDts), r.playlist.tsNumber, false);
          Trace(Process(r, f), t.all + [segment], t.parts + [t.open], Filled(Part([], []), f, put), t.muxed + Flatten(put), t.flushed)
        else t.(r := Process(r, f), open := Filled(t.open, f, put), muxed := t.muxed + Flatten(put))
    case Flush =>
      var segment := Segment(r.lastDts - r.lastTsDts, Discontinuous(r.lastDts, r.lastTsDts), r.playlist.tsNumber, true);
      Trace(FlushRemaining(r), t.all + [segment], t.parts + [t.open], Part([], []), t.muxed, true)
  }

  // ---------- The playlist and the files ----------

  /** The playlist lists the latest segments, as many as it may, and its target covers all there ever were. */
  predicate Windowed(p: Playlist, all: seq<Segment>) {
    && p.liveTsCount >= 1 && |p.segments| <= p.liveTsCount
    && |all| == p.tsNumber && p.sequenceNo + |p.segments| == p.tsNumber && p.segments == all[p.sequenceNo..]
    && (|p.segments| < p.liveTsCount ==> p.sequenceNo == 0)
    && (forall i :: 0 <= i < |all| ==> all[i].number == i && all[i].duration <= p.duration)
    && p.vod == if p.needRecord then all else []
  }

  /** The files are those of the listed segments, or of all when they are recorded, each with its packets. */
  predicate Filed(p: Playlist, parts: seq<Part>) {
    && |parts| == p.tsNumber
    && (forall i :: i in p.files ==> i < p.tsNumber && (p.needRecord || p.sequenceNo <= i) && p.files[i] == Flatten(parts[i].packets))
    && (forall i :: 0 <= i < p.tsNumber && (p.needRecord || p.sequenceNo <= i) ==> i in p.files)
  }

  lemma WindowGives(p: Playlist, all: seq<Segment>, parts: seq<Part>)
    requires Windowed(p, all) && Filed(p, parts)
    ensures NumbersRise(p) && FilesThere(p)
  {
    forall i | 0 <= i < |p.segments| ensures p.segments[i].number == p.sequenceNo + i && p.segments[i].number in p.files {
      assert p.segments[i] == all[p.sequenceNo + i];
    }
  }

  lemma WindowSlides(p: Playlist, all: seq<Segment>, duration: int, discontinuity: bool, isEof: bool, data: Bytes)
    requires Windowed(p, all)
    ensures Windowed(WithSegment(p, duration, discontinuity, isEof, data), all + [Segment(duration, discontinuity, p.tsNumber, isEof)])
  {
    var r, more := WithSegment(p, duration, discontinuity, isEof, data), all + [Segment(duration, discontinuity, p.tsNumber, isEof)];
    assert r.segments == more[r.sequenceNo..];
  }

  lemma FilesFollow(p: Playlist, all: seq<Segment>, parts: seq<Part>, duration: int, discontinuity: bool, isEof: bool, part: Part)
    requires Windowed(p, all) && Filed(p, parts)
    ensures Filed(WithSegment(p, duration, discontinuity, isEof, Flatten(part.packets)), parts + [part])
  {
    hide Flatten;
    var r := WithSegment(p, duration, discontinuity, isEof, Flatten(part.packets));
    if |p.segments| >= p.liveTsCount {
      assert p.segments[0] == all[p.sequenceNo];
    }
    forall i | i in r.files
      ensures i < r.tsNumber && (r.needRecord || r.sequenceNo <= i) && r.files[i] == Flatten((parts + [part])[i].packets)
    {
    }
  }

  // ---------- The playlist file ----------

  /** What the playlist file says was refreshed with the last segment; before the first there is none. */
  predicate Posted(p: Playlist, all: seq<Segment>) {
    p.live == if all == [] then None else Some(ListingOf(p))
  }

  predicate NoneEnds(segments: seq<Segment>) {
    forall i :: 0 <= i < |segments| ==> !segments[i].isEof
  }

  /** A segment that ends the stream hides those behind it, so it may only be the last. */
  lemma {:induction false} AllListed(segments: seq<Segment>)
    requires segments == [] || NoneEnds(segments[..|segments| - 1])
    ensures UpToEnd(segments) == segments
    decreases |segments|
  {
    if segments != [] {
      var front, rest := segments[..|segments| - 1], segments[1..];
      if rest != [] {
        var shorter := rest[..|rest| - 1];
        forall i | 0 <= i < |shorter| ensures !shorter[i].isEof {
          assert shorter[i] == front[i + 1];
        }
        assert front[0] == segments[0];
      }
      AllListed(rest);
      assert segments == [segments[0]] + rest;
    }
  }

  lemma TargetIsEnough(duration: int)
    ensures duration <= 1000 * TargetSeconds(duration)
  {
  }

  // ---------- The segments ----------

  function Total(all: seq<Segment>): int {
    if all == [] then 0 else Total(all[..|all| - 1]) + all[|all| - 1].duration
  }

  lemma TotalOneMore(all: seq<Segment>, segment: Segment)
    ensures Total(all + [segment]) == Total(all) + segment.duration
  {
    assert (all + [segment])[..|all|] == all;
  }

  function Joined(parts: seq<Part>): Bytes {
    if parts == [] then [] else Joined(parts[..|parts| - 1]) + Flatten(parts[|parts| - 1].packets)
  }

  lemma JoinedOneMore(parts: seq<Part>, part: Part)
    ensures Joined(parts + [part]) == Joined(parts) + Flatten(part.packets)
  {
    assert (parts + [part])[..|parts|] == parts;
  }

  predicate AllPlayable(parts: seq<Part>) {
    forall i :: 0 <= i < |parts| ==> Playable(parts[i])
  }

  lemma OneMorePlayable(parts: seq<Part>, part: Part)
    requires AllPlayable(parts) && Playable(part)
    ensures AllPlayable(parts + [part])
  {
    hide Playable;
  }

  /** A segment that was started by a cut begins with the frame that made it: a video key frame, or audio. */
  predicate CutOpen(part: Part) {
    part.frames != [] && (part.frames[0].Audio? || IsKey(part.frames[0]))
  }

  predicate AllCutOpen(parts: seq<Part>) {
    forall i :: 0 < i < |parts| ==> CutOpen(parts[i])
  }

  /** While nothing was flushed: durations add up to the last cut, no segment ends the stream, each can be started with. */
  predicate Cutting(t: Trace) {
    && Total(t.all) == t.r.lastTsDts && NoneEnds(t.all)
    && AllPlayable(t.parts) && Filling(t.r.mux, t.open)
    && AllCutOpen(t.parts) && (t.parts != [] ==> CutOpen(t.open))
  }

  predicate Sound(t: Trace) {
    && t.r.Valid() && Windowed(t.r.playlist, t.all) && Filed(t.r.playlist, t.parts) && Posted(t.r.playlist, t.all)
    && t.r.pending == Flatten(t.open.packets) && Joined(t.parts) + t.r.pending == t.muxed
    && (!t.flushed ==> Cutting(t))
  }

  // ---------- Every step ----------

  /** A cut or a flush: one more segment, with what was pending. */
  lemma AddedKeeps(t: Trace, duration: int, discontinuity: bool, isEof: bool)
    requires Sound(t)
    ensures var p, segment := t.r.playlist, Segment(duration, discontinuity, t.r.playlist.tsNumber, isEof);
            var r := Refreshed(WithSegment(p, duration, discontinuity, isEof, t.r.pending));
            r.liveTsCount >= 1 && FilesThere(r) && Windowed(r, t.all + [segment]) && Filed(r, t.parts + [t.open])
            && Posted(r, t.all + [segment]) && Joined(t.parts + [t.open]) == t.muxed
  {
    hide WithSegment, Flatten, Playable, Total, UpToEnd, Joined;
    var p, segment := t.r.playlist, Segment(duration, discontinuity, t.r.playlist.tsNumber, isEof);
    var r := WithSegment(p, duration, discontinuity, isEof, t.r.pending);
    WindowSlides(p, t.all, duration, discontinuity, isEof, t.r.pending);
    FilesFollow(p, t.all, t.parts, duration, discontinuity, isEof, t.open);
    WindowGives(r, t.all + [segment], t.parts + [t.open]);
    JoinedOneMore(t.parts, t.open);
  }

  /** The trace of a frame up to its cut. */
  function AtCut(t: Trace, f: Frame): Trace
    requires t.r.Valid() && NumbersRise(t.r.playlist)
  {
    if Cuts(t.r, f) then
      var r := t.r;
      var segment := Segment(f.dts - r.lastTsDts, Discontinuous(f.dts, r.lastTsDts), r.playlist.tsNumber, false);
      Trace(Ready(r, f), t.all + [segment], t.parts + [t.open], Part([], []), t.muxed, t.flushed)
    else t
  }

  /** Between a cut and the frame that made it. */
  predicate AtCutSound(t: Trace, f: Frame) {
    && t.r.Valid() && Windowed(t.r.playlist, t.all) && Filed(t.r.playlist, t.parts) && Posted(t.r.playlist, t.all)
    && t.r.pending == Flatten(t.open.packets) && Joined(t.parts) + t.r.pending == t.muxed
    && (!t.flushed ==> CuttingAt(t, f))
  }

  predicate CuttingAt(t: Trace, f: Frame) {
    && Total(t.all) == t.r.lastTsDts && NoneEnds(t.all)
    && AllPlayable(t.parts) && Filling(t.r.mux, t.open)
    && AllCutOpen(t.parts) && (t.parts != [] ==> CutOpen(Part(t.open.frames + [f], [])))
  }

  lemma CutKeeps(t: Trace, f: Frame)
    requires Sound(t) && NumbersRise(t.r.playlist) && IsMedia(f)
    ensures AtCutSound(AtCut(t, f), f) && AtCut(t, f).r == Ready(t.r, f)
  {
    hide WithSegment, Flatten, Total, Joined, Windowed, Filed, Posted, FilesThere, Discontinuous, CuttingAt, Cutting;
    if Cuts(t.r, f) {
      AddedKeeps(t, f.dts - t.r.lastTsDts, Discontinuous(f.dts, t.r.lastTsDts), false);
      NothingPending(t.muxed);
      if !t.flushed {
        CutCounts(t, f);
      }
    } else if !t.flushed {
      NoCut(t, f);
    }
  }

  lemma NothingPending(b: Bytes)
    ensures Flatten([]) == [] && b + Flatten([]) == b
  {
  }

  lemma NoCut(t: Trace, f: Frame)
    requires Cutting(t)
    ensures CuttingAt(t, f)
  {
    hide Playable, Filling, Total, NoneEnds, AllPlayable, AllCutOpen;
  }

  lemma CutCounts(t: Trace, f: Frame)
    requires t.r.Valid() && NumbersRise(t.r.playlist) && Cutting(t) && Cuts(t.r, f)
    ensures CuttingAt(AtCut(t, f), f)
  {
    hide Playable, Followed, Total, FilesThere, WithSegment, NumbersRise, Refreshed;
    TotalOneMore(t.all, AtCut(t, f).all[|t.all|]);
    OneMorePlayable(t.parts, t.open);
    NothingFilled(AtCut(t, f).r.mux);
    assert AllCutOpen(t.parts + [t.open]);
  }

  /** Muxing a frame behind the cut. */
  lemma MuxKeeps(t: Trace, f: Frame)
    requires AtCutSound(t, f) && IsMedia(f) && InRange(f)
    ensures var done := Muxed(t.r.mux, f);
            Sound(t.(r := t.r.(mux := done.0, pending := t.r.pending + Flatten(done.1), lastDts := f.dts),
                     open := Filled(t.open, f, done.1), muxed := t.muxed + Flatten(done.1)))
  {
    hide Muxed, Flatten, Windowed, Filed, Posted, Total, Joined, FilesThere, Filling, AllPlayable, AllCutOpen, NoneEnds;
    var done := Muxed(t.r.mux, f);
    StreamsStay(t.r.mux, f);
    Concat3(Joined(t.parts), t.r.pending, Flatten(done.1));
    FlattenConcat(t.open.packets, done.1);
    if !t.flushed {
      FillKeeps(t.r.mux, t.open, f);
      assert t.parts != [] ==> CutOpen(Filled(t.open, f, done.1));
    }
  }

  lemma StreamsStay(m: Mux, f: Frame)
    requires m.Valid() && m.pmts != [] && |m.pmts[0].streams| == 2 && IsMedia(f) && InRange(f)
    ensures var r := Muxed(m, f).0; r.Valid() && r.pmts != [] && |r.pmts[0].streams| == 2
  {
    hide Media, PsiPackets;
  }

  lemma StepKeeps(t: Trace, op: Op)
    requires Sound(t) && (op.Take? ==> InRange(op.frame))
    ensures t.r.Valid() && NumbersRise(t.r.playlist) && Sound(Step(t, op))
  {
    SoundGives(t);
    hide Sound, AtCutSound, Muxed, Flatten, Cuts, Ready, AtCut;
    match op
    case Take(f) =>
      if IsMedia(f) {
        CutKeeps(t, f);
        MuxKeeps(AtCut(t, f), f);
        StepIs(t, f);
      }
    case Flush => FlushKeeps(t);
  }

  lemma SoundGives(t: Trace)
    requires Sound(t)
    ensures t.r.Valid() && NumbersRise(t.r.playlist)
  {
    hide Flatten, Joined, Cutting;
    WindowGives(t.r.playlist, t.all, t.parts);
  }

  lemma StepIs(t: Trace, f: Frame)
    requires t.r.Valid() && NumbersRise(t.r.playlist) && InRange(f) && IsMedia(f)
    ensures var q := AtCut(t, f);
            var done := Muxed(Ready(t.r, f).mux, f);
            q.r == Ready(t.r, f)
            && Step(t, Take(f)) == q.(r := q.r.(mux := done.0, pending := q.r.pending + Flatten(done.1), lastDts := f.dts),
                                      open := Filled(q.open, f, done.1), muxed := t.muxed + Flatten(done.1))
            && q.muxed == t.muxed
  {
    hide Muxed, Flatten, Cuts, WithSegment, Discontinuous, Filled;
  }

  lemma FlushKeeps(t: Trace)
    requires Sound(t) && NumbersRise(t.r.playlist)
    ensures Sound(Step(t, Flush))
  {
    hide Windowed, Filed, Posted, WithSegment, Cutting, FilesThere, Joined;
    AddedKeeps(t, t.r.lastDts - t.r.lastTsDts, Discontinuous(t.r.lastDts, t.r.lastTsDts), true);
    NothingPending(t.muxed);
  }

  // ---------- Runs ----------

  function Start(duration: int, aofRatio: int, liveTsCount: nat, needRecord: bool): Trace {
    Trace(NewRemuxer(duration, aofRatio, liveTsCount, needRecord), [], [], Part([], []), [], false)
  }

  lemma StartsSound(duration: int, aofRatio: int, liveTsCount: nat, needRecord: bool)
    requires liveTsCount >= 1
    ensures Sound(Start(duration, aofRatio, liveTsCount, needRecord))
  {
    NothingFilled(NewRemuxer(duration, aofRatio, liveTsCount, needRecord).mux);
    hide Filling;
  }

  ghost predicate Reaches(t: Trace, ops: seq<Op>, end: Trace)
    decreases |ops|
  {
    if ops == [] then end == t
    else
      t.r.Valid() && NumbersRise(t.r.playlist) && (ops[0].Take? ==> InRange(ops[0].frame)) && Reaches(Step(t, ops[0]), ops[1..], end)
  }

  lemma {:induction false} RunIsSound(t: Trace, ops: seq<Op>, end: Trace)
    requires Sound(t) && Reaches(t, ops, end)
    ensures Sound(end)
    decreases |ops|
  {
    hide Sound, Step;
    if ops != [] {
      StepKeeps(t, ops[0]);
      RunIsSound(Step(t, ops[0]), ops[1..], end);
    }
  }

  /**
  Over every run: the playlist lists the latest segments, numbered on from its media sequence number, and its file says
  so; the segment files are theirs, or all when recording; and the segments together are everything muxed.  Until the
  stream is flushed the durations add up to the last cut, no segment ends the stream, and a fresh decoder can start with
  any of them.
   */
  lemma AnyRun(duration: int, aofRatio: int, liveTsCount: nat, needRecord: bool, ops: seq<Op>, end: Trace)
    requires liveTsCount >= 1 && Reaches(Start(duration, aofRatio, liveTsCount, needRecord), ops, end)
    ensures Sound(end)
    ensures Windowed(end.r.playlist, end.all) && Filed(end.r.playlist, end.parts) && NumbersRise(end.r.playlist)
    ensures Posted(end.r.playlist, end.all)
    ensures Joined(end.parts) + Flatten(end.open.packets) == end.muxed
    ensures !end.flushed ==> Total(end.all) == end.r.lastTsDts && NoneEnds(end.all) && AllPlayable(end.parts)
  {
    StartsSound(duration, aofRatio, liveTsCount, needRecord);
    RunIsSound(Start(duration, aofRatio, liveTsCount, needRecord), ops, end);
    SoundGives(end);
    hide Windowed, Filed, NumbersRise, Flatten, Total, Joined, Playable, Reaches, Posted, NoneEnds, AllPlayable;
  }

  /**
  Where the media of a segment starts a player can tune in if and only if a video key frame made the cut: the first
  packet behind the tables is marked for random access then, and not when audio made it.
   */
  lemma SegmentsOpen(t: Trace, i: nat)
    requires Sound(t) && !t.flushed && 0 < i < |t.parts|
    ensures var part := t.parts[i];
            part.frames != [] && IsMedia(part.frames[0]) && ArePackets(part.packets)
            && (HasData(part.frames[0]) ==>
                  FirstMedia(part.packets).Some?
                  && (HasRandomAccess(FirstMedia(part.packets).value) <==> part.frames[0].Video?))
  {
    hide Flatten, Joined, Total, Windowed, Filed, Posted, Filling, TsRuns.AllUnderstood, Lead, FirstMedia, HasRandomAccess, IsPacket;
    assert Playable(t.parts[i]) && CutOpen(t.parts[i]);
  }

  /** What a client reads in the playlist file is there to be fetched. */
  predicate Fetchable(t: Trace, listing: Listing) {
    forall segment :: segment in listing.segments ==>
      segment.number < |t.parts| && segment.number in t.r.playlist.files
      && t.r.playlist.files[segment.number] == Flatten(t.parts[segment.number].packets)
      && segment.duration <= 1000 * listing.targetSeconds
  }

  /**
  Until the stream is flushed the playlist file, once there is one, lists exactly the segments from its media sequence
  number to the newest and no end; the file of each is there with its packets, and the target duration covers each
  (section 4.3.3.1 of RFC 8216).
   */
  lemma LiveFile(t: Trace)
    requires Sound(t) && !t.flushed && t.all != []
    ensures var p := t.r.playlist;
            p.sequenceNo <= |t.all| && p.live.Some?
            && p.live.value == Listing(TargetSeconds(p.duration), p.sequenceNo, t.all[p.sequenceNo..], false)
            && Fetchable(t, p.live.value)
  {
    hide Flatten, Joined, Total, TargetSeconds, Filling, AllPlayable, AllCutOpen;
    var p := t.r.playlist;
    forall i | 0 <= i < |p.segments| ensures !p.segments[i].isEof {
      assert p.segments[i] == t.all[p.sequenceNo + i];
    }
    AllListed(p.segments);
    hide UpToEnd;
    TargetIsEnough(p.duration);
    ListedAreThere(t, Listing(TargetSeconds(p.duration), p.sequenceNo, t.all[p.sequenceNo..], false));
  }

  lemma ListedAreThere(t: Trace, listing: Listing)
    requires Windowed(t.r.playlist, t.all) && Filed(t.r.playlist, t.parts)
    requires t.r.playlist.duration <= 1000 * listing.targetSeconds && listing.segments == t.all[t.r.playlist.sequenceNo..]
    ensures Fetchable(t, listing)
  {
    hide Flatten;
    var p := t.r.playlist;
    forall segment | segment in listing.segments
      ensures segment.number < |t.parts| && segment.number in p.files
      ensures p.files[segment.number] == Flatten(t.parts[segment.number].packets) && segment.duration <= 1000 * listing.targetSeconds
    {
      var i :| 0 <= i < |listing.segments| && listing.segments[i] == segment;
      assert segment == t.all[p.sequenceNo + i];
    }
  }

  /** The target the playlist file gives is no less than any segment there ever was. */
  lemma TargetCovers(t: Trace, i: nat)
    requires Sound(t) && i < |t.all|
    ensures t.r.playlist.live.Some? && t.all[i].duration <= 1000 * t.r.playlist.live.value.targetSeconds
  {
    hide UpToEnd, TargetSeconds, Filed, Joined, Flatten, Cutting;
    TargetIsEnough(t.r.playlist.duration);
  }

  lemma LastEnds(p: Playlist, all: seq<Segment>)
    requires Windowed(p, all) && Posted(p, all) && all != []
    requires all[|all| - 1].isEof && NoneEnds(all[..|all| - 1])
    ensures p.sequenceNo < |all| && p.live == Some(Listing(TargetSeconds(p.duration), p.sequenceNo, all[p.sequenceNo..], true))
  {
    hide TargetSeconds;
    var front := p.segments[..|p.segments| - 1];
    forall i | 0 <= i < |front| ensures !front[i].isEof {
      assert front[i] == all[..|all| - 1][p.sequenceNo + i];
    }
    AllListed(p.segments);
    hide UpToEnd;
  }

  lemma FlushAdds(t: Trace)
    requires Sound(t) && !t.flushed && NumbersRise(t.r.playlist)
    ensures var r := Step(t, Flush);
            |r.all| == |t.all| + 1 && r.all[..|t.all|] == t.all && r.all[|t.all|].isEof
            && (r.all[|t.all|].discontinuity <==> r.all[|t.all|].duration > 15000)
            && NoneEnds(r.all[..|t.all|]) && Total(r.all) == t.r.lastDts && r.open.packets == [] && r.muxed == t.muxed
  {
    hide Flatten, Joined, Total, WithSegment, Windowed, Filed, Posted, Filling, AllPlayable, AllCutOpen, NoneEnds, FilesThere, Refreshed;
    var r := Step(t, Flush);
    assert r.all[..|t.all|] == t.all;
    TotalOneMore(t.all, r.all[|t.all|]);
  }

  lemma SoundPosted(t: Trace)
    requires Sound(t)
    ensures Windowed(t.r.playlist, t.all) && Filed(t.r.playlist, t.parts) && Posted(t.r.playlist, t.all)
    ensures Joined(t.parts) + Flatten(t.open.packets) == t.muxed
  {
    hide Windowed, Filed, Posted, Joined, Flatten, Cutting;
  }

  /**
  The flush puts the remainder into a last segment: the playlist file ends with it and says so, the durations of all add
  up to the last timestamp, it is marked as discontinuous if it is longer than 15 seconds, and the segments together are
  everything muxed.
   */
  lemma FlushEnds(t: Trace)
    requires Sound(t) && !t.flushed
    ensures NumbersRise(t.r.playlist) && |Step(t, Flush).all| == |t.all| + 1
    ensures var r := Step(t, Flush);
            var p := r.r.playlist;
            p.sequenceNo < |r.all| && p.live == Some(Listing(TargetSeconds(p.duration), p.sequenceNo, r.all[p.sequenceNo..], true))
            && Fetchable(r, p.live.value)
            && (r.all[|t.all|].discontinuity <==> r.all[|t.all|].duration > 15000)
            && Total(r.all) == t.r.lastDts && Joined(r.parts) == t.muxed
  {
    hide Sound, Step, Flatten, Joined, Total, TargetSeconds, UpToEnd, NoneEnds, Fetchable, Windowed, Filed, Posted;
    SoundGives(t);
    FlushKeeps(t);
    FlushAdds(t);
    var r := Step(t, Flush);
    SoundPosted(r);
    LastEnds(r.r.playlist, r.all);
    TargetIsEnough(r.r.playlist.duration);
    ListedAreThere(r, r.r.playlist.live.value);
    NothingPending(Joined(r.parts));
  }
}
