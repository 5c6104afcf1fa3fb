/**
HLS segments and the live playlist (protocol/hls/src/ts.rs, m3u8.rs, flv2hls.rs), after RFC 8216.
Files are a map from segment numbers to contents; playlists are structures instead of text, with
durations in whole milliseconds.
 */
module Hls {
  import opened Bytesio
  import opened Psi
  import opened Pes
  import opened Ts
  import TsMuxer
  import TsPacket

  /** A media segment; its file is named by its number. */
  datatype Segment = Segment(duration: int, discontinuity: bool, number: nat, isEof: bool)

  /** What a playlist file says. */
  datatype Listing = Listing(targetSeconds: int, mediaSequence: nat, segments: seq<Segment>, ended: bool)

  // ---------- Segment files ----------

  class TsFiles {
    var tsNumber: nat
    var files: map<nat, Bytes>

    constructor ()
      ensures tsNumber == 0 && files == map[]
    {
      tsNumber := 0;
      files := map[];
    }

    method Write(data: Bytes) returns (name: nat)
      modifies this
      ensures name == old(tsNumber) && tsNumber == old(tsNumber) + 1 && files == old(files)[name := data]
    {
      name := tsNumber;
      tsNumber := tsNumber + 1;
      files := files[name := data];
    }

    /** Removing a file that is not there panics. */
    method Delete(name: nat)
      requires name in files
      modifies this`files
      ensures files == old(files) - {name}
    {
      files := files - {name};
    }
  }

  // ---------- The playlist ----------

  datatype Playlist = Playlist(sequenceNo: nat, duration: int, liveTsCount: nat, segments: seq<Segment>, needRecord: bool,
                               vod: seq<Segment>, tsNumber: nat, files: map<nat, Bytes>, live: Option<Listing>)

  function Max(a: int, b: int): int {
    if a < b then b else a
  }

  /** A playlist that lists as many segments as it may drops the first, and its file with it unless all are recorded. */
  function WithSegment(p: Playlist, duration: int, discontinuity: bool, isEof: bool, data: Bytes): Playlist
    requires p.liveTsCount >= 1
  {
    var full := |p.segments| >= p.liveTsCount;
    var kept := if full then p.segments[1..] else p.segments;
    var files := if full && !p.needRecord then p.files - {p.segments[0].number} else p.files;
    var segment := Segment(duration, discontinuity, p.tsNumber, isEof);
    p.(sequenceNo := if full then p.sequenceNo + 1 else p.sequenceNo,
       duration := Max(duration, p.duration),
       segments := kept + [segment],
       vod := if p.needRecord then p.vod + [segment] else p.vod,
       tsNumber := p.tsNumber + 1,
       files := files[p.tsNumber := data])
  }

  /** The segments up to the one that ends the stream. */
  function UpToEnd(segments: seq<Segment>): seq<Segment> {
    if segments == [] then []
    else if segments[0].isEof then [segments[0]]
    else [segments[0]] + UpToEnd(segments[1..])
  }

  /** Milliseconds to seconds, rounded up by a division that truncates toward zero. */
  function TargetSeconds(duration: int): int {
    TsPacket.TruncDiv(duration + 999, 1000)
  }

  function ListingOf(p: Playlist): Listing {
    var listed := UpToEnd(p.segments);
    Listing(TargetSeconds(p.duration), p.sequenceNo, listed, listed != [] && listed[|listed| - 1].isEof)
  }

  function Refreshed(p: Playlist): Playlist {
    p.(live := Some(ListingOf(p)))
  }

  /** The files to be deleted are there: those of the listed segments. */
  predicate FilesThere(p: Playlist) {
    forall i :: 0 <= i < |p.segments| ==> p.segments[i].number in p.files
  }

  class M3u8 {
    var sequenceNo: nat
    var duration: int
    var liveTsCount: nat
    var segments: seq<Segment>
    var needRecord: bool
    var vod: seq<Segment>
    var tsHandler: TsFiles
    var live: Option<Listing>

    ghost function State(): Playlist
      reads this, tsHandler
    {
      Playlist(sequenceNo, duration, liveTsCount, segments, needRecord, vod, tsHandler.tsNumber, tsHandler.files, live)
    }

    constructor (duration: int, liveTsCount: nat, needRecord: bool)
      ensures fresh(tsHandler)
      ensures State() == Playlist(0, duration, liveTsCount, [], needRecord, [], 0, map[], None)
    {
      sequenceNo := 0;
      this.duration := duration;
      this.liveTsCount := liveTsCount;
      segments := [];
      this.needRecord := needRecord;
      vod := [];
      tsHandler := new TsFiles();
      live := None;
    }

    method AddSegment(length: int, discontinuity: bool, isEof: bool, data: Bytes)
      requires liveTsCount >= 1 && FilesThere(State())
      modifies this`sequenceNo, this`duration, this`segments, this`vod, tsHandler
      ensures State() == WithSegment(old(State()), length, discontinuity, isEof, data)
    {
      if |segments| >= liveTsCount {
        var segment := segments[0];
        segments := segments[1..];
        if !needRecord {
          tsHandler.Delete(segment.number);
        }
        sequenceNo := sequenceNo + 1;
      }
      duration := Max(length, duration);
      var name := tsHandler.Write(data);
      var segment := Segment(length, discontinuity, name, isEof);
      if needRecord {
        vod := vod + [segment];
      }
      segments := segments + [segment];
    }

    method RefreshPlaylist()
      modifies this`live
      ensures State() == Refreshed(old(State()))
    {
      var listed: seq<Segment> := [];
      var ended := false;
      var i := 0;
      assert segments[0..] == segments;
      while i < |segments| && !ended
        invariant 0 <= i <= |segments| && unchanged(this)
        invariant ended == (listed != [] && listed[|listed| - 1].isEof)
        invariant if ended then UpToEnd(segments) == listed else UpToEnd(segments) == listed + UpToEnd(segments[i..])
      {
        assert segments[i..][1..] == segments[i + 1..];
        listed := listed + [segments[i]];
        ended := segments[i].isEof;
        i := i + 1;
      }
      assert !ended ==> segments[i..] == [] && UpToEnd(segments) == listed + [] == listed;
      live := Some(Listing(TargetSeconds(duration), sequenceNo, listed, ended));
    }
  }

  // ---------- Cutting segments ----------

  datatype Frame =
    | Video(pts: int, dts: int, isKey: bool, data: Bytes)
    | Audio(pts: int, dts: int, hasData: bool, data: Bytes)
    | Other

  const AUDIO_PID: Pid := 0x0101
  const VIDEO_PID: Pid := 0x0102

  /** The bytes muxed since the last cut are in `pending`. */
  datatype Remuxer = Remuxer(mux: Mux, pending: Bytes, lastTsDts: int, lastDts: int, duration: int, aofRatio: int, playlist: Playlist) {
    predicate Valid() {
      && mux.Valid() && mux.pmts != [] && |mux.pmts[0].streams| == 2
      && playlist.liveTsCount >= 1 && FilesThere(playlist)
    }
  }

  predicate IsMedia(f: Frame) {
    f.Video? || (f.Audio? && f.hasData)
  }

  /** 90 kHz timestamps that the muxer can work with. */
  predicate InRange(f: Frame) {
    IsMedia(f) ==>
      -0x8000_0000_0000_0000 <= f.pts * 90 < 0x8000_0000_0000_0000 && -0x8000_0000_0000_0000 <= f.dts * 90 < 0x8000_0000_0000_0000
      && TsMuxer.Timely(f.pts * 90, f.dts * 90)
  }

  /** A segment is cut at a key frame once it is long enough, or at audio once it is several times that long. */
  predicate Cuts(r: Remuxer, f: Frame) {
    match f
    case Video(_, dts, isKey, _) => isKey && dts - r.lastTsDts >= r.duration * 1000
    case Audio(_, dts, hasData, _) => hasData && dts - r.lastTsDts >= r.duration * 1000 * r.aofRatio
    case Other => false
  }

  predicate Discontinuous(dts: int, lastTsDts: int) {
    dts > lastTsDts + 15 * 1000
  }

  function Cut(r: Remuxer, dts: int): Remuxer
    requires r.Valid()
  {
    var added := WithSegment(r.playlist, dts - r.lastTsDts, Discontinuous(dts, r.lastTsDts), false, r.pending);
    r.(mux := ResetState(r.mux), pending := [], lastTsDts := dts, playlist := Refreshed(added))
  }

  function StreamIndex(f: Frame): nat {
    if f.Video? then 1 else 0
  }

  function Muxed(m: Mux, f: Frame): (Mux, seq<Bytes>)
    requires m.Valid() && m.pmts != [] && |m.pmts[0].streams| == 2 && IsMedia(f) && InRange(f)
  {
    WriteStream(m, StreamIndex(f), f.pts * 90, f.dts * 90, f.Video? && f.isKey, false, f.data)
  }

  function Process(r: Remuxer, f: Frame): Remuxer
    requires r.Valid() && InRange(f)
  {
    if !IsMedia(f) then r
    else
      var ready := if Cuts(r, f) then Cut(r, f.dts) else r;
      var done := Muxed(ready.mux, f);
      ready.(mux := done.0, pending := ready.pending + Flatten(done.1), lastDts := f.dts)
  }

  /** What remains becomes the last segment. */
  function FlushRemaining(r: Remuxer): Remuxer
    requires r.Valid()
  {
    var added := WithSegment(r.playlist, r.lastDts - r.lastTsDts, Discontinuous(r.lastDts, r.lastTsDts), true, r.pending);
    r.(pending := [], playlist := Refreshed(added))
  }

  lemma FilesKept(p: Playlist, duration: int, discontinuity: bool, isEof: bool, data: Bytes)
    requires p.liveTsCount >= 1 && NumbersRise(p) && FilesThere(p)
    ensures var r := WithSegment(p, duration, discontinuity, isEof, data); FilesThere(r) && NumbersRise(r)
  {
    var r := WithSegment(p, duration, discontinuity, isEof, data);
    forall i | 0 <= i < |r.segments| ensures r.segments[i].number in r.files {
    }
  }

  /** The listed segments are numbered consecutively, up to the last one written. */
  predicate NumbersRise(p: Playlist) {
    p.sequenceNo + |p.segments| == p.tsNumber && forall i :: 0 <= i < |p.segments| ==> p.segments[i].number == p.sequenceNo + i
  }

  class Flv2HlsRemuxer {
    var tsMuxer: TsMuxer.TsMuxer
    var lastTsDts: int
    var lastDts: int
    var duration: int
    var aofRatio: int
    var needNewSegment: bool
    var m3u8Handler: M3u8

    ghost function State(): Remuxer
      reads this, tsMuxer, tsMuxer.bytesWriter, m3u8Handler, m3u8Handler.tsHandler
    {
      Remuxer(tsMuxer.State(), tsMuxer.bytesWriter.bytes, lastTsDts, lastDts, duration, aofRatio, m3u8Handler.State())
    }

    constructor (duration: int, aofRatio: int, liveTsCount: nat, needRecord: bool)
      ensures State() == NewRemuxer(duration, aofRatio, liveTsCount, needRecord)
      ensures fresh(tsMuxer) && fresh(tsMuxer.bytesWriter) && fresh(m3u8Handler) && fresh(m3u8Handler.tsHandler)
    {
      var muxer := new TsMuxer.TsMuxer();
      var audioPid := muxer.AddStream(PSI_STREAM_AAC);
      var videoPid := muxer.AddStream(PSI_STREAM_H264);
      var handler := new M3u8(duration, liveTsCount, needRecord);
      tsMuxer := muxer;
      lastTsDts := 0;
      lastDts := 0;
      this.duration := duration;
      this.aofRatio := aofRatio;
      needNewSegment := false;
      m3u8Handler := handler;
    }

    method FlushRemainingData()
      requires State().Valid()
      modifies tsMuxer.bytesWriter, m3u8Handler, m3u8Handler.tsHandler
      ensures State() == FlushRemaining(old(State()))
    {
      var data := tsMuxer.GetData();
      var discontinuity := false;
      if lastDts > lastTsDts + 15 * 1000 {
        discontinuity := true;
      }
      m3u8Handler.AddSegment(lastDts - lastTsDts, discontinuity, true, data);
      m3u8Handler.RefreshPlaylist();
    }

    method ProcessDemuxData(frame: Frame)
      requires State().Valid() && InRange(frame)
      modifies this`lastTsDts, this`lastDts, this`needNewSegment, tsMuxer, tsMuxer.bytesWriter, m3u8Handler, m3u8Handler.tsHandler
      ensures State() == Process(old(State()), frame)
    {
      hide Process, Cut, Muxed, Flatten;
      ghost var before := State();
      NotMedia(before, frame);
      needNewSegment := false;
      var pid: Pid;
      var pts, dts: int;
      var key := false;
      match frame {
        case Video(p, d, isKey, _) =>
          pts, dts, pid := p, d, VIDEO_PID;
          if isKey {
            key := true;
            if dts - lastTsDts >= duration * 1000 {
              needNewSegment := true;
            }
          }
        case Audio(p, d, hasData, _) =>
          if !hasData {
            return;
          }
          pts, dts, pid := p, d, AUDIO_PID;
          if dts - lastTsDts >= duration * 1000 * aofRatio {
            needNewSegment := true;
          }
        case Other =>
          return;
      }
      assert State() == before && needNewSegment == Cuts(before, frame);
      ProcessFrame(frame, pid, pts, dts, key);
    }

    /** What is common to video and audio. */
    method ProcessFrame(frame: Frame, pid: Pid, pts: int, dts: int, key: bool)
      requires State().Valid() && IsMedia(frame) && InRange(frame) && needNewSegment == Cuts(State(), frame)
      requires pid == (if frame.Video? then VIDEO_PID else AUDIO_PID) && key == (frame.Video? && frame.isKey)
      requires pts == frame.pts && dts == frame.dts
      modifies this`lastTsDts, this`lastDts, this`needNewSegment, tsMuxer, tsMuxer.bytesWriter, m3u8Handler, m3u8Handler.tsHandler
      ensures State() == Process(old(State()), frame)
    {
      hide Cuts, Cut, Muxed, Flatten, FilesThere, InRange;
      if needNewSegment {
        CutSegment(dts);
      }
      lastDts := dts;
      WriteFrame(frame, pid, pts, dts, key);
    }

    method CutSegment(dts: int)
      requires State().Valid()
      modifies this`lastTsDts, this`needNewSegment, tsMuxer, tsMuxer.bytesWriter, m3u8Handler, m3u8Handler.tsHandler
      ensures State() == Cut(old(State()), dts) && tsMuxer.bytesWriter == old(tsMuxer.bytesWriter)
      ensures lastDts == old(lastDts) && tsMuxer.pmts == old(tsMuxer.pmts) && tsMuxer.Valid()
      ensures m3u8Handler.tsHandler == old(m3u8Handler.tsHandler)
    {
      var discontinuity := false;
      if dts > lastTsDts + 15 * 1000 {
        discontinuity := true;
      }
      var data := tsMuxer.GetData();
      m3u8Handler.AddSegment(dts - lastTsDts, discontinuity, false, data);
      m3u8Handler.RefreshPlaylist();
      tsMuxer.Reset();
      lastTsDts := dts;
      needNewSegment := false;
    }

    method WriteFrame(frame: Frame, pid: Pid, pts: int, dts: int, key: bool)
      requires tsMuxer.Valid() && tsMuxer.pmts != [] && |tsMuxer.pmts[0].streams| == 2 && IsMedia(frame) && InRange(frame)
      requires pid == (if frame.Video? then VIDEO_PID else AUDIO_PID) && key == (frame.Video? && frame.isKey)
      requires pts == frame.pts && dts == frame.dts
      modifies tsMuxer, tsMuxer.bytesWriter
      ensures var done := Muxed(old(tsMuxer.State()), frame);
              tsMuxer.State() == done.0 && tsMuxer.bytesWriter.bytes == old(tsMuxer.bytesWriter.bytes) + Flatten(done.1)
              && tsMuxer.bytesWriter == old(tsMuxer.bytesWriter)
    {
      StreamFound(tsMuxer.State(), frame, pid);
      hide WriteStream, WriteState, Flatten;
      var ok := tsMuxer.Write(pid, pts * 90, dts * 90, key, false, frame.data);
    }
  }

  lemma NotMedia(r: Remuxer, f: Frame)
    requires r.Valid() && InRange(f)
    ensures !IsMedia(f) ==> Process(r, f) == r
  {
  }

  /** A remuxer with its two streams, audio first. */
  function NewRemuxer(duration: int, aofRatio: int, liveTsCount: nat, needRecord: bool): Remuxer {
    var withAudio := AddStreamState(NewMux(), PSI_STREAM_AAC).value.0;
    Remuxer(AddStreamState(withAudio, PSI_STREAM_H264).value.0, [], 0, 0, duration, aofRatio,
            Playlist(0, duration, liveTsCount, [], needRecord, [], 0, map[], None))
  }

  lemma StreamFound(m: Mux, f: Frame, pid: Pid)
    requires m.Valid() && m.pmts != [] && |m.pmts[0].streams| == 2 && IsMedia(f) && InRange(f)
    requires pid == if f.Video? then VIDEO_PID else AUDIO_PID
    ensures forall pts: i64, dts: i64, aligned, payload ::
              WriteState(m, pid, pts, dts, aligned, false, payload) == Some(WriteStream(m, StreamIndex(f), pts, dts, aligned, false, payload))
  {
    var streams := m.pmts[0].streams;
    assert streams[0].pid == AUDIO_PID && streams[1].pid == VIDEO_PID;
    assert streams[1..][0] == streams[1];
    assert Position(streams[1..], pid) == if f.Video? then Some(0) else Position(streams[1..][1..], pid);
    assert Position(streams, pid) == Some(StreamIndex(f));
    assert FindStream(m.pmts, pid) == Some((0, StreamIndex(f)));
  }
}
