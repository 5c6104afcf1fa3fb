/**
When the HLS remuxer cuts, told by the frames, and how long its segments are.
 */
module HlsTiming {
  import opened Bytesio
  import opened Hls
  import opened HlsSegments
  import opened HlsRuns

  /**
  A frame a segment that began at `start` has to end before: a key frame once the segment is as long as configured, in
  seconds where timestamps are in milliseconds, or audio once it is `ratio` times that long.
   */
  predicate EndsSegment(f: Frame, start: int, duration: int, ratio: int) {
    match f
    case Video(_, dts, isKey, _) => isKey && dts - start >= 1000 * duration
    case Audio(_, dts, hasData, _) => hasData && dts - start >= 1000 * duration * ratio
    case Other => false
  }

  /** When the segment with this number began: the durations of those before it. */
  function Begin(all: seq<Segment>, k: nat): int
    requires k <= |all|
  {
    Total(all[..k])
  }

  /** No frame of the segment had to end it; the first is the one the segment before was cut for, if there is one before. */
  predicate GoesOn(part: Part, first: bool, start: int, duration: int, ratio: int) {
    forall j :: (if first then 0 else 1) <= j < |part.frames| ==> !EndsSegment(part.frames[j], start, duration, ratio)
  }

  function PartAt(t: Trace, k: nat): Part {
    if k < |t.parts| then t.parts[k] else t.open
  }

  /** A finished segment: no frame of it had to end it, the next one did, and its length and mark tell the time between. */
  predicate Finished(t: Trace, k: nat, duration: int, ratio: int)
    requires k < |t.all|
  {
    var start, next := Begin(t.all, k), PartAt(t, k + 1);
    && GoesOn(PartAt(t, k), k == 0, start, duration, ratio)
    && next.frames != [] && IsMedia(next.frames[0]) && EndsSegment(next.frames[0], start, duration, ratio)
    && t.all[k].duration == next.frames[0].dts - start
    && (t.all[k].discontinuity <==> t.all[k].duration > 15000)
  }

  predicate Timed(t: Trace, duration: int, ratio: int) {
    && t.r.duration == duration && t.r.aofRatio == ratio
    && (!t.flushed ==>
          && |t.parts| == |t.all|
          && (forall k :: 0 <= k < |t.all| ==> Finished(t, k, duration, ratio))
          && GoesOn(t.open, t.all == [], Begin(t.all, |t.all|), duration, ratio))
  }

  lemma BeginStays(all: seq<Segment>, segment: Segment, k: nat)
    requires k <= |all|
    ensures Begin(all + [segment], k) == Begin(all, k)
  {
    assert (all + [segment])[..k] == all[..k];
  }

  lemma WholeTotal(all: seq<Segment>)
    ensures Begin(all, |all|) == Total(all)
  {
    assert all[..|all|] == all;
  }

  /** The three states a step may lead to, without the muxing. */
  predicate CutTo(t: Trace, u: Trace, f: Frame) {
    IsMedia(f) &&
    var segment := Segment(f.dts - t.r.lastTsDts, f.dts > t.r.lastTsDts + 15000, t.r.playlist.tsNumber, false);
    Cuts(t.r, f) && u.all == t.all + [segment] && u.parts == t.parts + [t.open] && u.open.frames == [f]
  }

  predicate WentOn(t: Trace, u: Trace, f: Frame) {
    IsMedia(f) && !Cuts(t.r, f) && u.all == t.all && u.parts == t.parts && u.open.frames == t.open.frames + [f]
  }

  lemma TakeLeads(t: Trace, f: Frame)
    requires t.r.Valid() && NumbersRise(t.r.playlist) && InRange(f) && IsMedia(f)
    ensures var u := Step(t, Take(f));
            u.flushed == t.flushed && u.r.duration == t.r.duration && u.r.aofRatio == t.r.aofRatio
            && (CutTo(t, u, f) || WentOn(t, u, f))
  {
    hide Muxed, Flatten, Cuts, WithSegment, FilesThere, NumbersRise;
    assert [] + [f] == [f];
  }

  lemma CutTimed(t: Trace, u: Trace, f: Frame, duration: int, ratio: int)
    requires Timed(t, duration, ratio) && !t.flushed && !u.flushed && Total(t.all) == t.r.lastTsDts && CutTo(t, u, f)
    requires u.r.duration == duration && u.r.aofRatio == ratio
    ensures Timed(u, duration, ratio)
  {
    hide Total;
    WholeTotal(t.all);
    var n := |t.all|;
    forall k | 0 <= k < |u.all| ensures Finished(u, k, duration, ratio) {
      BeginStays(t.all, u.all[n], k);
      if k < n {
        assert Finished(t, k, duration, ratio);
        assert PartAt(u, k) == PartAt(t, k) && PartAt(u, k + 1).frames == PartAt(t, k + 1).frames;
      } else {
        assert PartAt(u, k) == t.open && PartAt(u, k + 1).frames == [f];
      }
    }
  }

  lemma WentOnTimed(t: Trace, u: Trace, f: Frame, duration: int, ratio: int)
    requires Timed(t, duration, ratio) && !t.flushed && !u.flushed && Total(t.all) == t.r.lastTsDts && WentOn(t, u, f)
    requires u.r.duration == duration && u.r.aofRatio == ratio
    ensures Timed(u, duration, ratio)
  {
    hide Total;
    WholeTotal(t.all);
    forall k | 0 <= k < |u.all| ensures Finished(u, k, duration, ratio) {
      assert Finished(t, k, duration, ratio);
      if k + 1 == |t.all| {
        assert u.open.frames[0] == t.open.frames[0];
      }
    }
  }

  lemma StepTimed(t: Trace, op: Op, duration: int, ratio: int)
    requires Sound(t) && (op.Take? ==> InRange(op.frame)) && Timed(t, duration, ratio)
    ensures t.r.Valid() && NumbersRise(t.r.playlist) && Timed(Step(t, op), duration, ratio)
  {
    SoundGives(t);
    SoundTotal(t);
    hide Sound, Timed, NumbersRise, Cuts, Total, CutTo, WentOn;
    match op
    case Take(f) =>
      if IsMedia(f) {
        TakeLeads(t, f);
        hide Step;
        TimedGives(t, duration, ratio);
        var u := Step(t, op);
        if t.flushed {
          FlushedTimed(t, u, duration, ratio);
        } else if CutTo(t, u, f) {
          CutTimed(t, u, f, duration, ratio);
        } else {
          WentOnTimed(t, u, f, duration, ratio);
        }
      }
    case Flush =>
      TimedGives(t, duration, ratio);
      FlushedTimed(t, Step(t, op), duration, ratio);
  }

  lemma SoundTotal(t: Trace)
    requires Sound(t)
    ensures !t.flushed ==> Total(t.all) == t.r.lastTsDts
  {
    hide Total, Windowed, Filed, Posted, Joined;
  }

  lemma TimedGives(t: Trace, duration: int, ratio: int)
    requires Timed(t, duration, ratio)
    ensures t.r.duration == duration && t.r.aofRatio == ratio
  {
    hide Finished, GoesOn;
  }

  lemma FlushedTimed(t: Trace, u: Trace, duration: int, ratio: int)
    requires Timed(t, duration, ratio) && u.flushed && u.r.duration == duration && u.r.aofRatio == ratio
    ensures Timed(u, duration, ratio)
  {
    hide Finished, GoesOn;
  }

  lemma {:induction false} RunTimed(t: Trace, ops: seq<Op>, end: Trace, duration: int, ratio: int)
    requires Sound(t) && Reaches(t, ops, end) && Timed(t, duration, ratio)
    ensures Timed(end, duration, ratio)
    decreases |ops|
  {
    hide Sound, Step, Timed;
    if ops != [] {
      StepTimed(t, ops[0], duration, ratio);
      StepKeeps(t, ops[0]);
      RunTimed(Step(t, ops[0]), ops[1..], end, duration, ratio);
    }
  }

  /**
  Over every run until the flush a segment ends before the first frame that has to end it, and before no other: behind its
  first frame there is none in it, and the one it was cut for, with which the next segment starts, is one.
   */
  lemma CutsWhenDue(duration: int, ratio: int, liveTsCount: nat, needRecord: bool, ops: seq<Op>, end: Trace, k: nat)
    requires liveTsCount >= 1 && Reaches(Start(duration, ratio, liveTsCount, needRecord), ops, end)
    requires !end.flushed && k <= |end.all|
    ensures |end.parts| == |end.all|
    ensures GoesOn(PartAt(end, k), k == 0, Begin(end.all, k), duration, ratio)
    ensures k < |end.all| ==> Finished(end, k, duration, ratio)
  {
    hide Sound, Reaches, Step, Begin, Timed;
    StartsSound(duration, ratio, liveTsCount, needRecord);
    StartsTimed(duration, ratio, liveTsCount, needRecord);
    RunTimed(Start(duration, ratio, liveTsCount, needRecord), ops, end, duration, ratio);
    TimedAt(end, k, duration, ratio);
  }

  lemma StartsTimed(duration: int, ratio: int, liveTsCount: nat, needRecord: bool)
    ensures Timed(Start(duration, ratio, liveTsCount, needRecord), duration, ratio)
  {
  }

  lemma TimedAt(t: Trace, k: nat, duration: int, ratio: int)
    requires Timed(t, duration, ratio) && !t.flushed && k <= |t.all|
    ensures |t.parts| == |t.all| && GoesOn(PartAt(t, k), k == 0, Begin(t.all, k), duration, ratio)
    ensures k < |t.all| ==> Finished(t, k, duration, ratio)
  {
    hide GoesOn;
    if k < |t.all| {
      assert Finished(t, k, duration, ratio);
    }
  }

  /** So every segment is at least as long as configured. */
  lemma LongEnough(duration: nat, ratio: nat, liveTsCount: nat, needRecord: bool, ops: seq<Op>, end: Trace, k: nat)
    requires liveTsCount >= 1 && Reaches(Start(duration, ratio, liveTsCount, needRecord), ops, end)
    requires !end.flushed && k < |end.all| && ratio >= 1
    ensures end.all[k].duration >= 1000 * duration
  {
    hide Reaches, Begin, GoesOn, EndsSegment;
    CutsWhenDue(duration, ratio, liveTsCount, needRecord, ops, end, k);
    EndsLate(PartAt(end, k + 1).frames[0], Begin(end.all, k), duration, ratio);
  }

  lemma EndsLate(f: Frame, start: int, duration: nat, ratio: nat)
    requires IsMedia(f) && EndsSegment(f, start, duration, ratio) && ratio >= 1
    ensures f.dts - start >= 1000 * duration
  {
    if f.Audio? {
      AtLeastOnce(1000 * duration, ratio);
    }
  }

  lemma AtLeastOnce(x: nat, n: nat)
    requires n >= 1
    ensures x * n >= x
  {
  }

  // ---------- The target duration ----------

  /** The longest segment there ever was, or what was configured (there in seconds) if none was longer. */
  predicate Longest(target: int, configured: int, all: seq<Segment>) {
    && target >= configured && (forall k :: 0 <= k < |all| ==> all[k].duration <= target)
    && (target == configured || exists k :: 0 <= k < |all| && all[k].duration == target)
  }

  lemma LongestGrows(target: int, configured: int, all: seq<Segment>, segment: Segment)
    requires Longest(target, configured, all)
    ensures Longest(if target < segment.duration then segment.duration else target, configured, all + [segment])
  {
    var more := all + [segment];
    if target < segment.duration {
      assert more[|all|].duration == segment.duration;
    } else if target != configured {
      var k :| 0 <= k < |all| && all[k].duration == target;
      assert more[k].duration == target;
    }
  }

  lemma StepLongest(t: Trace, op: Op, configured: int)
    requires t.r.Valid() && NumbersRise(t.r.playlist) && (op.Take? ==> InRange(op.frame)) && Longest(t.r.playlist.duration, configured, t.all)
    ensures var u := Step(t, op); Longest(u.r.playlist.duration, configured, u.all)
  {
    hide Longest, Muxed, Flatten, Cuts, FilesThere, NumbersRise, ListingOf, Discontinuous;
    var u := Step(t, op);
    if |u.all| > |t.all| {
      LongestGrows(t.r.playlist.duration, configured, t.all, u.all[|t.all|]);
    }
  }

  lemma {:induction false} RunLongest(t: Trace, ops: seq<Op>, end: Trace, configured: int)
    requires Reaches(t, ops, end) && Longest(t.r.playlist.duration, configured, t.all)
    ensures Longest(end.r.playlist.duration, configured, end.all)
    decreases |ops|
  {
    hide Step, Longest;
    if ops != [] {
      StepLongest(t, ops[0], configured);
      RunLongest(Step(t, ops[0]), ops[1..], end, configured);
    }
  }

  /** Over every run the target in the playlist file is the least whole number of seconds that covers that. */
  lemma TargetLeast(duration: nat, ratio: int, liveTsCount: nat, needRecord: bool, ops: seq<Op>, end: Trace)
    requires liveTsCount >= 1 && Reaches(Start(duration, ratio, liveTsCount, needRecord), ops, end) && end.all != []
    ensures end.r.playlist.live.Some?
            && var target := end.r.playlist.live.value.targetSeconds;
               exists longest ::
                 Longest(longest, duration, end.all) && 1000 * (target - 1) < longest <= 1000 * target
  {
    hide Reaches, Longest, Sound, Step;
    NothingLonger(duration, ratio, liveTsCount, needRecord);
    RunLongest(Start(duration, ratio, liveTsCount, needRecord), ops, end, duration);
    StartsSound(duration, ratio, liveTsCount, needRecord);
    RunIsSound(Start(duration, ratio, liveTsCount, needRecord), ops, end);
    SoundPosted(end);
    LongestIsNot(end.r.playlist.duration, duration, end.all);
    TargetIsNext(end.r.playlist.duration);
    hide UpToEnd, TargetSeconds;
  }

  lemma NothingLonger(duration: int, ratio: int, liveTsCount: nat, needRecord: bool)
    ensures var t := Start(duration, ratio, liveTsCount, needRecord); Longest(t.r.playlist.duration, duration, t.all)
  {
  }

  lemma LongestIsNot(target: int, configured: nat, all: seq<Segment>)
    requires Longest(target, configured, all)
    ensures target >= 0
  {
  }

  lemma TargetIsNext(duration: nat)
    ensures 1000 * (TargetSeconds(duration) - 1) < duration <= 1000 * TargetSeconds(duration)
  {
  }
}
