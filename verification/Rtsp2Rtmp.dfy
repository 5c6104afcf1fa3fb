/**
RTSP video into RTMP tags (protocol/rtmp/src/remuxer/rtsp2rtmp.rs:230-318): a frame becomes a
sequence header or a tag of length-prefixed units, and what a player's demuxer makes of it.
 */
module Rtsp2Rtmp {
  import opened Bytesio
  import opened AnnexB
  import opened Mpeg4Avc
  import opened Mpeg4AvcProcessor

  const NALU_LENGTH: NaluLength := 4

  datatype VideoTag =
    | SequenceHeader(sps: Bytes, pps: Bytes)
    | FrameData(avc: Bytes, keyFrame: bool)

  predicate Typed(n: Bytes, t: u8) {
    n != [] && NalType(n[0]) == t
  }

  /** The last unit of a type. */
  function Last(nalus: seq<Bytes>, t: u8): Option<Bytes> {
    if nalus == [] then None
    else
      var n := nalus[|nalus| - 1];
      if Typed(n, t) then Some(n) else Last(nalus[..|nalus| - 1], t)
  }

  predicate Contains(nalus: seq<Bytes>, t: u8) {
    exists n :: n in nalus && Typed(n, t)
  }

  /** A frame with an empty unit is refused. */
  function Remux(nalus: seq<Bytes>): Result<VideoTag> {
    if [] in nalus then Err(NotEnoughBytes)
    else
      match (Last(nalus, H264_NAL_SPS), Last(nalus, H264_NAL_PPS))
      case (Some(sps), Some(pps)) => Ok(SequenceHeader(sps, pps))
      case _ => Ok(FrameData(ToAvc(nalus, NALU_LENGTH), Contains(nalus, H264_NAL_IDR)))
  }

  lemma {:induction false} LastOfType(nalus: seq<Bytes>, t: u8)
    ensures Last(nalus, t).Some? <==> Contains(nalus, t)
    ensures Last(nalus, t).Some? ==> Last(nalus, t).value in nalus && Typed(Last(nalus, t).value, t)
  {
    if nalus != [] {
      var front, n := nalus[..|nalus| - 1], nalus[|nalus| - 1];
      LastOfType(front, t);
      assert nalus == front + [n];
    }
  }

  lemma NoneOfType()
    ensures forall t :: Last([], t) == None && !Contains([], t)
  {
  }

  lemma TypedAs(n: Bytes)
    requires n != []
    ensures forall t :: Typed(n, t) <==> NalType(n[0]) == t
  {
    hide NalType;
  }

  lemma LastSnoc(nalus: seq<Bytes>, n: Bytes, t: u8)
    ensures Last(nalus + [n], t) == if Typed(n, t) then Some(n) else Last(nalus, t)
  {
    assert (nalus + [n])[..|nalus|] == nalus;
  }

  lemma ContainsSnoc(nalus: seq<Bytes>, n: Bytes, t: u8)
    ensures Contains(nalus + [n], t) <==> Contains(nalus, t) || Typed(n, t)
  {
    assert n in nalus + [n];
    assert forall m | m in nalus :: m in nalus + [n];
  }

  /**
  The classification loop of `on_rtsp_video`; the last parameter sets of the frame win.
   */
  method OnRtspVideo(stream: Bytes, processor: Mpeg4AvcProcessor) returns (tag: Result<VideoTag>)
    requires processor.naluLength == NALU_LENGTH
    ensures tag == Remux(Split(stream))
  {
    hide Split, Last, Contains, Typed, ToAvc;
    var naluVec := SplitNalus(stream);
    NoneOfType();
    var sps: Option<Bytes>, pps: Option<Bytes>, containsIdr := None, None, false;
    for i := 0 to |naluVec|
      invariant [] !in naluVec[..i]
      invariant sps == Last(naluVec[..i], H264_NAL_SPS) && pps == Last(naluVec[..i], H264_NAL_PPS)
      invariant containsIdr == Contains(naluVec[..i], H264_NAL_IDR)
    {
      var nalu := naluVec[i];
      if nalu == [] {
        return Err(NotEnoughBytes);
      }
      assert naluVec[..i + 1] == naluVec[..i] + [nalu];
      ContainsSnoc(naluVec[..i], nalu, H264_NAL_IDR);
      LastSnoc(naluVec[..i], nalu, H264_NAL_SPS);
      LastSnoc(naluVec[..i], nalu, H264_NAL_PPS);
      TypedAs(nalu);
      var t := NalType(nalu[0]);
      if t == H264_NAL_SPS {
        sps := Some(nalu);
      } else if t == H264_NAL_PPS {
        pps := Some(nalu);
      } else if t == H264_NAL_IDR {
        containsIdr := true;
      }
    }
    assert naluVec[..|naluVec|] == naluVec;
    if sps.Some? && pps.Some? {
      return Ok(SequenceHeader(sps.value, pps.value));
    }
    var avc := processor.NalusToMpeg4Avc(naluVec);
    return Ok(FrameData(avc, containsIdr));
  }

  // ---------- What a player gets ----------

  /** The player's demuxer, with the parameter sets it stored: the units of a tag. */
  function Played(tag: VideoTag, sps: seq<Bytes>, pps: seq<Bytes>): Option<seq<Bytes>> {
    match tag
    case SequenceHeader(_, _) => None
    case FrameData(avc, _) =>
      match FromAvc(avc, NALU_LENGTH, ToAnnexB(sps), ToAnnexB(pps))
      case Ok(out) => Some(Split(out))
      case Err(_) => None
  }

  predicate Both(nalus: seq<Bytes>) {
    Contains(nalus, 7) && Contains(nalus, 8)
  }

  lemma PairInside(nalus: seq<Bytes>, a: Bytes, b: Bytes)
    requires a in nalus && b in nalus && a != b
    ensures multiset{a, b} <= multiset(nalus)
    ensures multiset{a, b} == multiset(nalus) <==> |nalus| == 2
  {
    var rest := multiset(nalus) - multiset{a, b};
    assert multiset(nalus) == multiset{a, b} + rest;
    assert |multiset(nalus)| == 2 + |rest|;
  }

  lemma NoneEmpty(nalus: seq<Bytes>)
    ensures Measured(nalus, 4) <==> [] !in nalus && forall n | n in nalus :: |n| < Limit(4)
  {
  }

  /**
  A frame's units reach the player, in order and behind the stored parameter sets if the frame
  opens with an IDR unit, exactly when the frame does not hold both kinds of parameter set.  If it
  does, the last set of each kind goes on as a sequence header and all other units are gone; there
  are none exactly when the frame is just those two.  A frame with an empty unit is refused, and no other.
   */
  lemma UnitsReachPlayer(stream: Bytes, sps: seq<Bytes>, pps: seq<Bytes>)
    requires forall n | n in Split(stream) :: |n| < Limit(4)
    requires Separable(sps + pps + Split(stream))
    ensures Remux(Split(stream)).Ok? <==> [] !in Split(stream)
    ensures Remux(Split(stream)).Ok? ==>
            var nalus := Split(stream);
            var tag := Remux(nalus);
            var whole := if NeedsParameterSets(nalus) then sps + pps + nalus else nalus;
            && (Played(tag.value, sps, pps) == Some(whole) <==> !Both(nalus))
            && (Both(nalus) ==>
                  && Last(nalus, 7).Some? && Last(nalus, 8).Some?
                  && var (s, p) := (Last(nalus, 7).value, Last(nalus, 8).value);
                     && tag.value == SequenceHeader(s, p) && multiset{s, p} <= multiset(nalus)
                     && (multiset{s, p} == multiset(nalus) <==> |nalus| == 2))
            && (tag.value.FrameData? ==> (tag.value.keyFrame <==> Contains(nalus, 5)))
  {
    hide FromAvc, ToAvc, Split, Separable, Measured, NeedsParameterSets, Last, Contains;
    var nalus := Split(stream);
    NoneEmpty(nalus);
    LastOfType(nalus, H264_NAL_SPS);
    LastOfType(nalus, H264_NAL_PPS);
    if Measured(nalus, 4) {
      RemuxPreservesUnits(stream, NALU_LENGTH, sps, pps);
    }
    if Both(nalus) {
      PairInside(nalus, Last(nalus, H264_NAL_SPS).value, Last(nalus, H264_NAL_PPS).value);
    }
  }

  /**
  The parameter sets of a sequence header are what a player puts in front of the IDR frames
  that follow: it is saved by one side and loaded by the other.
   */
  lemma SequenceHeaderLoads(tag: VideoTag, profile: u8, level: u8, parses: Bytes -> bool)
    requires tag.SequenceHeader? && SetsFit([tag.sps]) && SetsFit([tag.pps]) && IsSps(tag.sps, parses)
    ensures Load(SavedHeader(tag, profile, level), parses) == Ok((4, [tag.sps], [tag.pps]))
  {
    ConfigRoundTrip(HeaderConfig(tag, profile, level), parses);
  }

  function HeaderConfig(tag: VideoTag, profile: u8, level: u8): Config
    requires tag.SequenceHeader?
  {
    Config(profile, 0, level, NALU_LENGTH, [tag.sps], [tag.pps], 0, 0, 0)
  }

  function SavedHeader(tag: VideoTag, profile: u8, level: u8): Bytes
    requires tag.SequenceHeader?
  {
    Save(HeaderConfig(tag, profile, level))
  }

  /** The parameter sets a player has stored. */
  datatype Player = Player(sps: seq<Bytes>, pps: seq<Bytes>)

  /** A sequence header is loaded and shows nothing; a frame shows its units. A player that cannot read a tag stops. */
  function Shown(p: Player, tag: VideoTag, profile: u8, level: u8, parses: Bytes -> bool): Option<(Player, seq<Bytes>)> {
    match tag
    case SequenceHeader(_, _) =>
      (match Load(SavedHeader(tag, profile, level), parses)
       case Ok((_, sps, pps)) => Some((Player(if sps == [] then p.sps else sps, if pps == [] then p.pps else pps), []))
       case Err(_) => None)
    case FrameData(_, _) =>
      (match Played(tag, p.sps, p.pps)
       case Some(units) => Some((p, units))
       case None => None)
  }

  /**
  From one frame to the next: of a frame with both kinds of parameter set the last of each kind are what a player, whatever
  it had stored, shows in front of the next frame that opens with an IDR unit, and nothing else of it is ever shown.
   */
  lemma HeaderThenIdr(player: Player, first: Bytes, second: Bytes, profile: u8, level: u8, parses: Bytes -> bool)
    requires Measured(Split(first), 4) && Both(Split(first))
    requires Measured(Split(second), 4) && NeedsParameterSets(Split(second)) && !Both(Split(second))
    requires Remux(Split(first)).Ok? && Remux(Split(first)).value.SequenceHeader? ==>
               var header := Remux(Split(first)).value;
               && SetsFit([header.sps]) && SetsFit([header.pps]) && IsSps(header.sps, parses)
               && Separable([header.sps, header.pps] + Split(second))
    ensures var header, frame := Remux(Split(first)), Remux(Split(second));
            && header.Ok? && header.value.SequenceHeader? && frame.Ok?
            && var loaded := Shown(player, header.value, profile, level, parses);
               && loaded == Some((Player([header.value.sps], [header.value.pps]), []))
               && var shown := Shown(loaded.value.0, frame.value, profile, level, parses);
                  shown == Some((loaded.value.0, [header.value.sps, header.value.pps] + Split(second)))
  {
    hide FromAvc, ToAvc, Split, Separable, Load, SavedHeader, NeedsParameterSets, Measured, Last, Contains, Typed, SetsFit, IsSps;
    NoneEmpty(Split(first));
    NoneEmpty(Split(second));
    LastOfType(Split(first), H264_NAL_SPS);
    LastOfType(Split(first), H264_NAL_PPS);
    var header := Remux(Split(first)).value;
    SequenceHeaderLoads(header, profile, level, parses);
    assert [header.sps] + [header.pps] == [header.sps, header.pps];
    UnitsReachPlayer(second, [header.sps], [header.pps]);
  }
}
