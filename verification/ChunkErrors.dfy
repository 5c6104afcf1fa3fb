/**
How many chunk streams may open without a full header before the reader gives up
(protocol/rtmp/src/chunk/unpacketizer.rs), told by what it reads and not by its counter.
 */
module ChunkErrors {
  import opened Bytesio
  import opened Chunk
  import opened ChunkUnpacketizer
  import opened ChunkSplit

  // ---------- What a reader meets ----------

  /** A basic header that was read, or a message that was completed. */
  datatype Event = Opened(format: Format, csid: u32) | Completed(csid: u32)

  function StepEvents(r: Reader): seq<Event> {
    if r.state == InBasicHeader then
      match ParseBasicHeader(r.buf)
      case None => []
      case Some((format, csid, _)) => [Opened(format, csid)]
    else if Step(r).Delivered? then [Completed(Step(r).chunk.csid)]
    else []
  }

  /** The events of draining the buffer, in order. */
  function Log(r: Reader): seq<Event>
    decreases |r.buf|, Rank(r.state)
  {
    StepDecreases(r);
    match Step(r)
    case Advanced(r') => StepEvents(r) + Log(r')
    case Delivered(r', c) => StepEvents(r) + if Apply(r', c).Ok? then Log(Apply(r', c).value) else []
    case Starved(_) => []
    case Failed(_, _) => StepEvents(r)
  }

  /** Draining the buffer ends in the error that closes the session. */
  predicate GivesUp(r: Reader)
    decreases |r.buf|, Rank(r.state)
  {
    StepDecreases(r);
    match Step(r)
    case Advanced(r') => GivesUp(r')
    case Delivered(r', c) => Apply(r', c).Ok? && GivesUp(Apply(r', c).value)
    case Starved(_) => false
    case Failed(_, error) => error == CannotParse
  }

  // ---------- Chunk streams that open without a full header ----------

  /** The chunk stream of the last basic header; zero before the first. */
  function Current(log: seq<Event>): u32 {
    if log == [] then 0
    else
      match log[|log| - 1]
      case Opened(_, csid) => csid
      case Completed(_) => Current(log[..|log| - 1])
  }

  /** Neither goes the chunk stream on, nor has a message been completed on it. */
  predicate Unknown(log: seq<Event>, csid: u32) {
    csid != Current(log) && Completed(csid) !in log
  }

  /** Unknown chunk streams without a full header since the last unknown one with it. */
  function Streak(log: seq<Event>): nat {
    if log == [] then 0
    else
      var before, last := log[..|log| - 1], log[|log| - 1];
      if last.Opened? && Unknown(before, last.csid) then
        if last.format == 0 then 0 else Streak(before) + 1
      else Streak(before)
  }

  /** Until its last event the log has no more than six of them in a row. */
  predicate Tolerable(log: seq<Event>) {
    forall k | 0 <= k < |log| :: Streak(log[..k]) <= 6
  }

  // The reader is where the log leaves it.
  ghost predicate Follows(r: Reader, log: seq<Event>) {
    && r.csid == Current(log) && r.parseErrors == Streak(log) <= 6 && Tolerable(log)
    && CacheFollows(r.cache, log)
  }

  ghost predicate CacheFollows(cache: map<u32, MessageHeader>, log: seq<Event>) {
    forall csid :: csid in cache <==> Completed(csid) in log
  }

  lemma CacheOneMore(cache: map<u32, MessageHeader>, log: seq<Event>, e: Event, h: MessageHeader)
    requires CacheFollows(cache, log)
    ensures e.Opened? ==> CacheFollows(cache, log + [e])
    ensures e.Completed? ==> CacheFollows(cache[e.csid := h], log + [e])
  {
  }

  lemma KnownIs(r: Reader, log: seq<Event>, csid: u32)
    requires Follows(r, log)
    ensures Unknown(log, csid) <==> csid != r.csid && csid !in r.cache
  {
    hide Current, Streak, Tolerable;
  }

  lemma OneMore(log: seq<Event>, e: Event)
    ensures Current(log + [e]) == if e.Opened? then e.csid else Current(log)
    ensures Streak(log + [e])
         == if e.Opened? && Unknown(log, e.csid) then (if e.format == 0 then 0 else Streak(log) + 1) else Streak(log)
    ensures Tolerable(log) && Streak(log) <= 6 ==> Tolerable(log + [e])
  {
    assert (log + [e])[..|log|] == log;
    forall k | 0 <= k < |log + [e]|
      ensures Tolerable(log) && Streak(log) <= 6 ==> Streak((log + [e])[..k]) <= 6
    {
      assert (log + [e])[..k] == log[..k];
      assert log[..|log|] == log;
    }
  }

  lemma HeaderFollows(r: Reader, log: seq<Event>)
    requires Follows(r, log) && r.state == InBasicHeader
    ensures var o, now := Step(r), log + StepEvents(r);
            && !o.Delivered?
            && (o.Failed? ==> o.error == CannotParse && Tolerable(now) && Streak(now) == 7)
            && (!o.Failed? ==> Follows(o.r, if o.Starved? then log else now))
  {
    hide ParseBasicHeader, Streak, Current, Tolerable, CacheFollows, Unknown;
    match ParseBasicHeader(r.buf)
    case None =>
    case Some((format, csid, _)) =>
      OneMore(log, Opened(format, csid));
      CacheOneMore(r.cache, log, Opened(format, csid), r.header);
      KnownIs(r, log, csid);
  }

  lemma PayloadFollows(r: Reader, log: seq<Event>)
    requires Follows(r, log) && r.state == InMessagePayload
    ensures var o := Step(r);
            && (o.Failed? ==> o.error != CannotParse)
            && (!o.Failed? ==> Follows(o.r, log + StepEvents(r)))
            && (!o.Delivered? ==> StepEvents(r) == [])
  {
    hide Streak, Current, Tolerable, CacheFollows, Unknown;
    OneMore(log, Completed(r.csid));
    CacheOneMore(r.cache, log, Completed(r.csid), r.header);
    assert log + [] == log;
  }

  lemma FieldKeeps(r: Reader)
    requires r.state == InMessageHeader || r.state == InExtendedTimestamp || r.state == Finish
    ensures var o := Step(r);
            && (o.Advanced? || o.Starved?) && StepEvents(r) == []
            && o.r.csid == r.csid && o.r.parseErrors == r.parseErrors && o.r.cache == r.cache
  {
    hide FromU24Be, FromU32Be, FromU32Le, Extend0, Extend12, WrappingAdd;
  }

  lemma StepFollows(r: Reader, log: seq<Event>)
    requires Follows(r, log)
    ensures var o, now := Step(r), log + StepEvents(r);
            && (o.Failed? ==> Tolerable(now) && if o.error == CannotParse then Streak(now) == 7 else Streak(now) <= 6)
            && (!o.Failed? ==> Follows(o.r, if o.Starved? then log else now))
  {
    hide Step, StepEvents, Streak, Current, Tolerable;
    assert log + [] == log;
    if r.state == InBasicHeader {
      HeaderFollows(r, log);
    } else if r.state == InMessagePayload {
      PayloadFollows(r, log);
    } else {
      FieldKeeps(r);
    }
  }

  /** Draining goes as the log says: it ends in the error exactly when the log ends with the seventh. */
  lemma {:induction false} DrainFollows(r: Reader, log: seq<Event>)
    requires Follows(r, log)
    ensures var now := log + Log(r);
            && Tolerable(now) && (GivesUp(r) <==> Streak(now) == 7) && Streak(now) <= 7
            && (GivesUp(r) ==> Pump(r).status == Broken)
            && (Pump(r).status == Waiting ==> Follows(Pump(r).r, now))
    decreases |r.buf|, Rank(r.state)
  {
    StepDecreases(r);
    StepFollows(r, log);
    hide Step, StepEvents, Streak, Current, Tolerable;
    assert log + [] == log;
    match Step(r)
    case Advanced(r') =>
      DrainFollows(r', log + StepEvents(r));
      Concat3(log, StepEvents(r), Log(r'));
    case Delivered(r', c) =>
      assert StepEvents(r) + [] == StepEvents(r);
      if Apply(r', c).Ok? {
        DrainFollows(Apply(r', c).value, log + StepEvents(r));
        Concat3(log, StepEvents(r), Log(Apply(r', c).value));
      }
    case _ =>
  }

  // ---------- Over every run ----------

  /** The events of a session that is given the pieces one after the other. */
  function RunLog(r: Reader, pieces: seq<Bytes>): seq<Event>
    decreases |pieces|
  {
    if pieces == [] then []
    else
      var fed := Feed(r, pieces[0]);
      Log(fed) + if Pump(fed).status == Broken then [] else RunLog(Pump(fed).r, pieces[1..])
  }

  predicate RunGivesUp(r: Reader, pieces: seq<Bytes>)
    decreases |pieces|
  {
    pieces != []
    && var fed := Feed(r, pieces[0]);
       GivesUp(fed) || (Pump(fed).status == Waiting && RunGivesUp(Pump(fed).r, pieces[1..]))
  }

  lemma {:induction false} RunFollows(r: Reader, pieces: seq<Bytes>, log: seq<Event>)
    requires Follows(r, log)
    ensures var now := log + RunLog(r, pieces);
            Tolerable(now) && Streak(now) <= 7 && (RunGivesUp(r, pieces) <==> Streak(now) == 7)
    decreases |pieces|
  {
    hide GivesUp, Log, Pump, Streak, Current, Tolerable;
    if pieces == [] {
      assert log + [] == log;
    } else {
      var fed := Feed(r, pieces[0]);
      DrainFollows(fed, log);
      if Pump(fed).status == Waiting {
        RunFollows(Pump(fed).r, pieces[1..], log + Log(fed));
        Concat3(log, Log(fed), RunLog(Pump(fed).r, pieces[1..]));
      } else {
        assert Log(fed) + [] == Log(fed);
      }
    }
  }

  /**
  From the start a session gives up exactly at the seventh unknown chunk stream without a full header since the last one
  with it, and reads on after any six.
   */
  lemma GivesUpExactly(pieces: seq<Bytes>)
    ensures var log := RunLog(NEW_READER, pieces);
            Tolerable(log) && Streak(log) <= 7 && (RunGivesUp(NEW_READER, pieces) <==> Streak(log) == 7)
  {
    RunFollows(NEW_READER, pieces, []);
    assert [] + RunLog(NEW_READER, pieces) == RunLog(NEW_READER, pieces);
  }

  // ---------- An example ----------

  function Orphan(csid: u32): ChunkInfo {
    ChunkInfo(csid, 3, BLANK_HEADER, [])
  }

  // Behind an orphan that was taken for an empty message.
  function Passed(r: Reader, csid: u32): Reader
    requires r.buf != []
  {
    r.(buf := r.buf[1..], csid := csid, format := 3, cache := r.cache[csid := BLANK_HEADER], parseErrors := r.parseErrors + 1)
  }

  predicate Blank(r: Reader, csid: u32) {
    && r.state == InBasicHeader && r.header == BLANK_HEADER && r.payload == []
    && csid != r.csid && csid !in r.cache
  }

  // A blank reader that meets an unknown chunk stream in format 3: its four turns.
  lemma OrphanSteps(r: Reader, csid: u32, r1: Reader)
    requires Blank(r, csid) && 2 <= csid < 64 && r.buf != [] && r.buf[0] == 0xC0 + csid
    requires r1 == r.(buf := r.buf[1..], csid := csid, format := 3, parseErrors := r.parseErrors + 1, state := InMessageHeader)
    ensures r.parseErrors >= 6 ==> Step(r).Failed? && Step(r).error == CannotParse
    ensures r.parseErrors < 6 ==> Step(r) == Advanced(r1)
    ensures Step(r1) == Advanced(r1.(state := InExtendedTimestamp))
    ensures Step(r1.(state := InExtendedTimestamp)) == Advanced(r1.(state := InMessagePayload))
    ensures Step(r1.(state := InMessagePayload)) == Delivered(Passed(r, csid), Orphan(csid))
  {
    assert ParseBasicHeader(r.buf) == Some((3, csid, 1));
    assert r1.buf[..0] == [] && r1.buf[0..] == r1.buf;
    hide ParseBasicHeader;
  }

  lemma OrphanRead(r: Reader, csid: u32)
    requires Blank(r, csid) && 2 <= csid < 64 && r.buf != [] && r.buf[0] == 0xC0 + csid
    ensures if r.parseErrors >= 6 then Pump(r).chunks == [] && GivesUp(r)
            else Pump(r).chunks == [Orphan(csid)] + Pump(Passed(r, csid)).chunks && (GivesUp(r) <==> GivesUp(Passed(r, csid)))
  {
    hide Step;
    var r1 := r.(buf := r.buf[1..], csid := csid, format := 3, parseErrors := r.parseErrors + 1, state := InMessageHeader);
    OrphanSteps(r, csid, r1);
    if r.parseErrors < 6 {
      var r3 := r1.(state := InMessagePayload);
      assert Pump(r3).chunks == [Orphan(csid)] + Pump(Passed(r, csid)).chunks && (GivesUp(r3) <==> GivesUp(Passed(r, csid)));
      var r2 := r1.(state := InExtendedTimestamp);
      assert Pump(r2).chunks == Pump(r3).chunks && (GivesUp(r2) <==> GivesUp(r3));
      assert Pump(r1).chunks == Pump(r2).chunks && (GivesUp(r1) <==> GivesUp(r2));
    }
  }

  function Orphans(first: u32, n: nat): Bytes
    requires 2 <= first && first + n <= 64
    decreases n
  {
    if n == 0 then [] else [0xC0 + first] + Orphans(first + 1, n - 1)
  }

  function OrphanChunks(first: u32, n: nat): seq<ChunkInfo>
    requires first + n <= 64
    decreases n
  {
    if n == 0 then [] else [Orphan(first)] + OrphanChunks(first + 1, n - 1)
  }

  lemma NothingRead(r: Reader)
    requires r.state == InBasicHeader && r.buf == []
    ensures Pump(r).chunks == [] && !GivesUp(r)
  {
  }

  /** Unknown chunk streams that open in format 3 pass as empty messages, six of them; the seventh ends the session. */
  lemma {:induction false} OrphansPass(r: Reader, first: u32, n: nat)
    requires 2 <= first && first + n <= 64 && r.buf == Orphans(first, n)
    requires r.parseErrors <= 6 && forall csid: u32 | first <= csid < first + n :: Blank(r, csid)
    requires r.state == InBasicHeader
    ensures if r.parseErrors + n <= 6 then Pump(r).chunks == OrphanChunks(first, n) && !GivesUp(r)
            else Pump(r).chunks == OrphanChunks(first, 6 - r.parseErrors) && GivesUp(r)
    decreases n
  {
    hide Step;
    if n == 0 {
      NothingRead(r);
    } else {
      assert Blank(r, first);
      OrphanRead(r, first);
      if r.parseErrors < 6 {
        forall csid: u32 | first + 1 <= csid < first + n ensures Blank(Passed(r, first), csid) {
          assert Blank(r, csid);
        }
        OrphansPass(Passed(r, first), first + 1, n - 1);
      }
    }
  }

  /** From the start: six pass, and of any more the session gives up at the seventh. */
  lemma SeventhExample(n: nat)
    requires n <= 61
    ensures var r := Feed(NEW_READER, Orphans(3, n));
            Pump(r).chunks == OrphanChunks(3, if n <= 6 then n else 6) && (GivesUp(r) <==> n > 6)
  {
    var r := Feed(NEW_READER, Orphans(3, n));
    assert [] + Orphans(3, n) == Orphans(3, n);
    OrphansPass(r, 3, n);
  }
}
