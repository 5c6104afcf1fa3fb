/**
What a player that takes the segments apart finds in them: every frame of the run, once and in order, with its time.
 */
module HlsContents {
  import opened Bytesio
  import opened Psi
  import opened Pes
  import opened TsPacket
  import opened Ts
  import TsRuns
  import opened Hls
  import opened HlsSegments
  import opened HlsRuns

  // ---------- What a frame should be decoded to ----------

  /**
  The PES packet of a frame, in plain numbers: timestamps of 90 to the millisecond and 33 bits, the decoding time left out
  where it is the presentation time, an access unit delimiter in front of video, key frames marked.
   */
  function FrameView(f: Frame): PesView
    requires IsMedia(f)
  {
    var data := (if f.Video? then [0, 0, 0, 1, 9, 0xF0] else []) + f.data;
    var length := 8 + (if f.dts == f.pts then 0 else 5) + |data|;
    PesView(if f.Video? then 0xE0 else 0xC0, if length > 0xFFFF then 0 else length, IsKey(f),
            Some(f.pts * 90 % 0x2_0000_0000), if f.dts == f.pts then None else Some(f.dts * 90 % 0x2_0000_0000), data)
  }

  predicate AreMedia(frames: seq<Frame>) {
    forall i :: 0 <= i < |frames| ==> IsMedia(frames[i])
  }

  /** The frames of one kind, of those that have data. */
  function FrameViews(frames: seq<Frame>, video: bool): seq<PesView>
    requires AreMedia(frames)
  {
    if frames == [] then []
    else
      var f := frames[|frames| - 1];
      FrameViews(frames[..|frames| - 1], video) + (if f.Video? == video && f.data != [] then [FrameView(f)] else [])
  }

  /** Cut at its start flags, each of the two PIDs of the segment gives the PES packets of the frames of its kind. */
  predicate Holds(part: Part) {
    && AreMedia(part.frames) && ArePackets(part.packets)
    && TsRuns.Decoded(TsRuns.Units(part.packets, 0x101), FrameViews(part.frames, false))
    && TsRuns.Decoded(TsRuns.Units(part.packets, 0x102), FrameViews(part.frames, true))
  }

  // ---------- Muxing one frame ----------

  predicate TwoStreams(m: Mux) {
    && m.pmts != [] && |m.pmts[0].streams| == 2
    && m.pmts[0].streams[0].codecId == 0x0F && m.pmts[0].streams[0].streamId == 0xC0
    && m.pmts[0].streams[1].codecId == 0x1B && m.pmts[0].streams[1].streamId == 0xE0
  }

  // No timestamp is 2^63 below zero, which is not a multiple of 90.
  lemma NotNone(t: int)
    ensures t * 90 != -0x8000_0000_0000_0000
  {
  }

  lemma TimesDiffer(a: int, b: int)
    ensures a * 90 == b * 90 <==> a == b
  {
  }

  lemma FrameDescribed(m: Mux, f: Frame)
    requires Muxable(m, f) && TwoStreams(m)
    ensures Described(m.pmts[0].streams[StreamIndex(f)].(pts := f.pts * 90, dts := f.dts * 90, aligned := IsKey(f)), false, f.data)
         == FrameView(f)
  {
    NotNone(f.pts);
    NotNone(f.dts);
    TimesDiffer(f.pts, f.dts);
  }

  /** One more PES packet on the PID of the frame's kind, which is that of the frame. */
  predicate Adds(before: seq<Bytes>, after: seq<Bytes>, f: Frame, pid: int, unit: Bytes)
    requires IsMedia(f)
  {
    && (f.data != [] ==> ReadPes(unit) == Some(FrameView(f)))
    && after == before + (if f.data == [] || (pid == 0x102) != f.Video? then [] else [unit])
  }

  lemma OneFrame(m: Mux, ps: seq<Bytes>, f: Frame, pid: int)
    requires Muxable(m, f) && TwoStreams(m) && ArePackets(ps) && (pid == 0x101 || pid == 0x102)
    ensures var all := ps + Muxed(m, f).1;
            ArePackets(all)
            && exists unit :: Adds(TsRuns.Units(ps, pid), TsRuns.Units(all, pid), f, pid, unit)
  {
    hide TsRuns.Units, Media, IsPacket, PsiPackets, AfterMedia, ReadPes, Described, FrameView, WriteStream;
    FrameDescribed(m, f);
    assert m.pmts[0].streams[StreamIndex(f)].pid == if f.Video? then 0x102 else 0x101;
    TsRuns.WriteArrives(m, ps, StreamIndex(f), f.pts * 90, f.dts * 90, IsKey(f), false, f.data, pid);
    MuxedIs(m, f);
    var all := ps + Muxed(m, f).1;
    var header :| (f.data != [] ==> ReadPes(header + f.data) == Some(FrameView(f)))
                  && TsRuns.Units(all, pid) == TsRuns.Units(ps, pid)
                       + (if f.data == [] || (pid == 0x102) != f.Video? then [] else [header + f.data]);
    var unit := header + f.data;
    assert Adds(TsRuns.Units(ps, pid), TsRuns.Units(all, pid), f, pid, unit);
  }

  lemma MuxedIs(m: Mux, f: Frame)
    requires Muxable(m, f)
    ensures Muxed(m, f) == WriteStream(m, StreamIndex(f), f.pts * 90, f.dts * 90, IsKey(f), false, f.data)
  {
    hide WriteStream;
  }

  lemma OneMoreView(frames: seq<Frame>, f: Frame, video: bool)
    requires AreMedia(frames) && IsMedia(f)
    ensures AreMedia(frames + [f])
    ensures FrameViews(frames + [f], video)
         == FrameViews(frames, video) + (if f.Video? == video && f.data != [] then [FrameView(f)] else [])
  {
    assert (frames + [f])[..|frames|] == frames;
    hide FrameView;
  }

  lemma OneMoreDecoded(m: Mux, part: Part, f: Frame, video: bool)
    requires Muxable(m, f) && TwoStreams(m) && AreMedia(part.frames) && ArePackets(part.packets)
    requires TsRuns.Decoded(TsRuns.Units(part.packets, if video then 0x102 else 0x101), FrameViews(part.frames, video))
    ensures AreMedia(part.frames + [f]) && ArePackets(part.packets + Muxed(m, f).1)
    ensures TsRuns.Decoded(TsRuns.Units(part.packets + Muxed(m, f).1, if video then 0x102 else 0x101), FrameViews(part.frames + [f], video))
  {
    hide TsRuns.Units, TsRuns.Decoded, Muxed, IsPacket, FrameViews, FrameView, ReadPes, TwoStreams;
    var pid := if video then 0x102 else 0x101;
    OneMoreView(part.frames, f, video);
    OneFrame(m, part.packets, f, pid);
    var all, before, views := part.packets + Muxed(m, f).1, TsRuns.Units(part.packets, pid), FrameViews(part.frames, video);
    var unit :| Adds(before, TsRuns.Units(all, pid), f, pid, unit);
    if f.data != [] && f.Video? == video {
      TsRuns.DecodedConcat(before, views, unit, FrameView(f));
    } else {
      assert before + [] == before && views + [] == views;
    }
  }

  lemma StreamsKept(m: Mux, f: Frame)
    requires Muxable(m, f) && TwoStreams(m)
    ensures TwoStreams(Muxed(m, f).0)
  {
    hide Media, PsiPackets;
  }

  lemma FrameHeld(m: Mux, part: Part, f: Frame)
    requires Muxable(m, f) && TwoStreams(m) && Holds(part)
    ensures Holds(Filled(part, f, Muxed(m, f).1)) && TwoStreams(Muxed(m, f).0)
  {
    hide TsRuns.Units, TsRuns.Decoded, Muxed, IsPacket, FrameViews, TwoStreams;
    OneMoreDecoded(m, part, f, false);
    OneMoreDecoded(m, part, f, true);
    StreamsKept(m, f);
  }

  // ---------- Over every run ----------

  function FramesIn(parts: seq<Part>): seq<Frame> {
    if parts == [] then [] else FramesIn(parts[..|parts| - 1]) + parts[|parts| - 1].frames
  }

  /** The frames of a run that are muxed: all video, and audio with data. */
  function MediaOf(ops: seq<Op>): (frames: seq<Frame>)
    ensures AreMedia(frames)
  {
    if ops == [] then []
    else MediaOf(ops[..|ops| - 1]) + (if ops[|ops| - 1].Take? && IsMedia(ops[|ops| - 1].frame) then [ops[|ops| - 1].frame] else [])
  }

  predicate AllHold(parts: seq<Part>) {
    forall k :: 0 <= k < |parts| ==> Holds(parts[k])
  }

  /** The decoding time of the last frame; zero before the first. */
  function LastTime(frames: seq<Frame>): int
    requires AreMedia(frames)
  {
    if frames == [] then 0 else frames[|frames| - 1].dts
  }

  /** What is in the segments so far, after the operations `past`. */
  predicate Told(t: Trace, past: seq<Op>) {
    && TwoStreams(t.r.mux) && AllHold(t.parts) && Holds(t.open) && t.r.lastDts == LastTime(MediaOf(past))
    && FramesIn(t.parts) + t.open.frames == MediaOf(past)
  }

  lemma OneMorePart(parts: seq<Part>, part: Part)
    ensures FramesIn(parts + [part]) == FramesIn(parts) + part.frames
  {
    assert (parts + [part])[..|parts|] == parts;
  }

  lemma NothingHeld()
    ensures Holds(Part([], [])) && FramesIn([]) == []
  {
  }

  lemma ResetKeeps(t: Trace, f: Frame)
    requires t.r.Valid() && NumbersRise(t.r.playlist) && InRange(f) && IsMedia(f) && TwoStreams(t.r.mux)
    ensures Muxable(Ready(t.r, f).mux, f) && TwoStreams(Ready(t.r, f).mux)
  {
    hide Cuts, WithSegment, FilesThere, NumbersRise, Discontinuous;
  }

  lemma TakeTold(t: Trace, f: Frame, past: seq<Op>)
    requires t.r.Valid() && NumbersRise(t.r.playlist) && InRange(f) && IsMedia(f) && Told(t, past)
    ensures Told(Step(t, Take(f)), past + [Take(f)])
  {
    CutTold(t, f, past);
    StepIs(t, f);
    hide Muxed, Holds, TwoStreams, FramesIn, MediaOf, Step, Ready, NumbersRise, AtCut, WithSegment, FilesThere;
    OneMoreOp(past, Take(f));
    var q := AtCut(t, f);
    FrameHeld(q.r.mux, q.open, f);
    Concat3(FramesIn(q.parts), q.open.frames, [f]);
  }

  /** Between a cut and the frame that made it nothing has been lost. */
  lemma CutTold(t: Trace, f: Frame, past: seq<Op>)
    requires t.r.Valid() && NumbersRise(t.r.playlist) && InRange(f) && IsMedia(f) && Told(t, past)
    ensures Told(AtCut(t, f), past) && Muxable(AtCut(t, f).r.mux, f)
  {
    ResetKeeps(t, f);
    hide Muxed, Holds, TwoStreams, FramesIn, MediaOf, NumbersRise, Cuts, WithSegment, FilesThere, Discontinuous;
    NothingHeld();
    OneMorePart(t.parts, t.open);
    if Cuts(t.r, f) {
      assert FramesIn(t.parts + [t.open]) + [] == FramesIn(t.parts) + t.open.frames;
    }
  }

  lemma OneMoreOp(past: seq<Op>, op: Op)
    ensures MediaOf(past + [op]) == MediaOf(past) + if op.Take? && IsMedia(op.frame) then [op.frame] else []
  {
    assert (past + [op])[..|past|] == past;
  }

  lemma StepTold(t: Trace, op: Op, past: seq<Op>)
    requires Sound(t) && (op.Take? ==> InRange(op.frame)) && Told(t, past)
    ensures t.r.Valid() && NumbersRise(t.r.playlist) && Told(Step(t, op), past + [op])
  {
    SoundGives(t);
    hide Sound, NumbersRise, Told, MediaOf, WithSegment, Muxed, Flatten, Cuts, FilesThere;
    OneMoreOp(past, op);
    assert MediaOf(past) + [] == MediaOf(past);
    match op
    case Take(f) =>
      if IsMedia(f) {
        TakeTold(t, f, past);
      } else {
        SameTold(t, past, past + [op]);
      }
    case Flush => FlushTold(t, past);
  }

  lemma SameTold(t: Trace, past: seq<Op>, now: seq<Op>)
    requires Told(t, past) && MediaOf(now) == MediaOf(past)
    ensures Told(t, now)
  {
    hide MediaOf, Holds, FramesIn;
  }

  lemma FlushTold(t: Trace, past: seq<Op>)
    requires t.r.Valid() && NumbersRise(t.r.playlist) && Told(t, past)
    ensures Told(Step(t, Flush), past + [Flush])
  {
    hide NumbersRise, Holds, FramesIn, MediaOf, WithSegment, Flatten, FilesThere, TwoStreams, Discontinuous;
    OneMoreOp(past, Flush);
    NothingHeld();
    OneMorePart(t.parts, t.open);
    assert MediaOf(past) + [] == MediaOf(past);
    assert FramesIn(t.parts + [t.open]) + [] == FramesIn(t.parts) + t.open.frames;
  }

  lemma {:induction false} RunTold(t: Trace, ops: seq<Op>, end: Trace, past: seq<Op>)
    requires Sound(t) && Reaches(t, ops, end) && Told(t, past)
    ensures Told(end, past + ops)
    decreases |ops|
  {
    hide Sound, Step, Told;
    if ops == [] {
      assert past + ops == past;
    } else {
      StepTold(t, ops[0], past);
      StepKeeps(t, ops[0]);
      RunTold(Step(t, ops[0]), ops[1..], end, past + [ops[0]]);
      assert past + [ops[0]] + ops[1..] == past + ops;
    }
  }

  lemma StartsTold(duration: int, ratio: int, liveTsCount: nat, needRecord: bool)
    ensures Told(HlsRuns.Start(duration, ratio, liveTsCount, needRecord), [])
  {
  }

  /** A stream flushed at its end is as long as its segments say: their durations add up to the time of its last frame. */
  lemma DurationsTell(duration: int, ratio: int, liveTsCount: nat, needRecord: bool, ops: seq<Op>, end: Trace)
    requires liveTsCount >= 1 && Reaches(HlsRuns.Start(duration, ratio, liveTsCount, needRecord), ops, end) && !end.flushed
    ensures end.r.Valid() && NumbersRise(end.r.playlist) && Total(Step(end, Flush).all) == LastTime(MediaOf(ops))
  {
    hide Sound, Reaches, Step, MediaOf, Total, LastTime;
    var t := HlsRuns.Start(duration, ratio, liveTsCount, needRecord);
    StartsSound(duration, ratio, liveTsCount, needRecord);
    StartsTold(duration, ratio, liveTsCount, needRecord);
    RunTold(t, ops, end, []);
    assert [] + ops == ops;
    RunIsSound(t, ops, end);
    SoundGives(end);
    FlushAdds(end);
    hide Told;
    TellsLast(end, ops);
  }

  lemma TellsLast(t: Trace, past: seq<Op>)
    requires Told(t, past)
    ensures t.r.lastDts == LastTime(MediaOf(past))
  {
    hide Holds, FramesIn, MediaOf, TwoStreams, LastTime;
  }

  /**
  Over every run the frames of the segments, with those of the segment being filled, are all the video and all the audio with
  data of the run in order; and the packets of each segment give a player exactly its frames, each of those with data as
  one PES packet with the frame's times.
   */
  lemma SegmentsTell(duration: int, ratio: int, liveTsCount: nat, needRecord: bool, ops: seq<Op>, end: Trace)
    requires liveTsCount >= 1 && Reaches(HlsRuns.Start(duration, ratio, liveTsCount, needRecord), ops, end)
    ensures FramesIn(end.parts) + end.open.frames == MediaOf(ops)
    ensures Holds(end.open) && forall k | 0 <= k < |end.parts| :: Holds(end.parts[k])
  {
    hide Sound, Reaches, Step, FramesIn, MediaOf, Holds, TwoStreams;
    var t := HlsRuns.Start(duration, ratio, liveTsCount, needRecord);
    StartsSound(duration, ratio, liveTsCount, needRecord);
    StartsTold(duration, ratio, liveTsCount, needRecord);
    RunTold(t, ops, end, []);
    assert [] + ops == ops;
  }
}
