/**
The decoder configuration record as a player reads it, section 5.2.4.1 of ISO/IEC 14496-15: a reader of its own, in plain
numbers, for what the AVC processor saves (library/container/flv/src/mpeg4_avc.rs).
 */
module AvcRecord {
  import opened Bytesio
  import opened Mpeg4AvcProcessor

  /** `depths` are chroma format and the two bit depths less eight, which only the high profiles have. */
  datatype Record = Record(
    profile: u8,
    compatibility: u8,
    level: u8,
    width: nat,
    sps: seq<Bytes>,
    pps: seq<Bytes>,
    depths: Option<(nat, nat, nat)>)

  function ReadSets(b: Bytes, n: nat): Option<(seq<Bytes>, Bytes)>
    decreases n
  {
    if n == 0 then Some(([], b))
    else if |b| < 2 then None
    else
      var e := 2 + b[0] as int * 256 + b[1];
      if |b| < e then None
      else
        match ReadSets(b[e..], n - 1)
        case None => None
        case Some((sets, rest)) => Some(([b[2..e]] + sets, rest))
  }

  predicate HasDepths(profile: u8) {
    profile in {44, 83, 86, 100, 110, 118, 122, 128, 134, 138, 139, 244}
  }

  /** What follows the picture parameter sets: reserved bits set, and no further sets. */
  function ReadDepths(b: Bytes): Option<(nat, nat, nat)> {
    if |b| != 4 || b[0] / 4 != 63 || b[1] / 8 != 31 || b[2] / 8 != 31 || b[3] != 0 then None
    else Some((b[0] % 4, b[1] % 8, b[2] % 8))
  }

  function ReadRecord(b: Bytes): Option<Record> {
    if |b| < 6 || b[0] != 1 || b[4] / 4 != 63 || b[5] / 32 != 7 then None
    else
      match ReadSets(b[6..], b[5] % 32)
      case None => None
      case Some((sps, rest)) =>
        if rest == [] then None
        else
          match ReadSets(rest[1..], rest[0])
          case None => None
          case Some((pps, tail)) =>
            var depths := ReadDepths(tail);
            if HasDepths(b[1]) != depths.Some? || (depths.None? && tail != []) then None
            else Some(Record(b[1], b[2], b[3], b[4] % 4 + 1, sps, pps, depths))
  }

  lemma OneSet(s: Bytes, more: Bytes)
    requires |s| < 0x1_0000
    ensures var b := U16Be(|s|) + (s + more);
            var e := 2 + |s|;
            |b| >= e && b[0] as int * 256 + b[1] == |s| && b[2..e] == s && b[e..] == more
  {
  }

  lemma {:induction false} SetsRead(sets: seq<Bytes>, rest: Bytes)
    requires SetsFit(sets)
    ensures ReadSets(SaveSets(sets) + rest, |sets|) == Some((sets, rest))
  {
    hide U16Be, SetsFit, SaveSets, ReadSets;
    if sets == [] {
      NoSetsRead(sets, rest);
    } else {
      FitFirst(sets);
      SavedFirst(sets, rest);
      SetsRead(sets[1..], rest);
      OneSetRead(sets[0], SaveSets(sets[1..]) + rest, |sets|, sets[1..], rest);
      assert [sets[0]] + sets[1..] == sets;
    }
  }

  lemma NoSetsRead(sets: seq<Bytes>, rest: Bytes)
    requires sets == []
    ensures ReadSets(SaveSets(sets) + rest, |sets|) == Some((sets, rest))
  {
    assert SaveSets(sets) + rest == rest;
  }

  lemma OneSetRead(s: Bytes, more: Bytes, n: nat, sets: seq<Bytes>, rest: Bytes)
    requires n > 0 && |s| < 0x1_0000 && ReadSets(more, n - 1) == Some((sets, rest))
    ensures ReadSets(U16Be(|s|) + (s + more), n) == Some(([s] + sets, rest))
  {
    OneSet(s, more);
    hide U16Be;
  }

  lemma DepthsRead(c: Config)
    ensures var tail := SaveExtension(c);
            if HasDepths(c.profile) then ReadDepths(tail) == Some((c.chromaFormat, c.bitDepthLuma, c.bitDepthChroma))
            else tail == [] && ReadDepths(tail) == None
  {
  }

  // The fixed bytes, then both lists of sets, then `tail`.
  lemma PartsRead(front: Bytes, body: Bytes, sps: seq<Bytes>, pps: seq<Bytes>, more: Bytes, tail: Bytes)
    requires |front| == 6 && front[0] == 1 && front[4] / 4 == 63 && front[5] / 32 == 7 && front[5] % 32 == |sps|
    requires ReadSets(body, |sps|) == Some((sps, more)) && more != [] && more[0] == |pps|
    requires ReadSets(more[1..], |pps|) == Some((pps, tail))
    requires HasDepths(front[1]) == ReadDepths(tail).Some? && (ReadDepths(tail).None? ==> tail == [])
    ensures ReadRecord(front + body)
         == Some(Record(front[1], front[2], front[3], front[4] % 4 + 1, sps, pps, ReadDepths(tail)))
  {
    hide ReadSets, HasDepths, ReadDepths;
    TakeDrop(front, body);
    assert forall i | 0 <= i < 6 :: (front + body)[i] == front[i];
  }

  lemma FrontBits(width: nat, n: nat)
    requires 1 <= width <= 4 && n < 32
    ensures (0xFC + (width - 1)) / 4 == 63 && (0xFC + (width - 1)) % 4 + 1 == width
    ensures (0xE0 + n) / 32 == 7 && (0xE0 + n) % 32 == n
  {
  }

  /** A player reads back every field of the record; chroma format and bit depths are there for the high profiles alone. */
  lemma RecordRead(c: Config)
    requires c.Countable() && SetsFit(c.sps) && SetsFit(c.pps)
    ensures ReadRecord(Save(c))
         == Some(Record(c.profile, c.compatibility, c.level, c.naluLength, c.sps, c.pps,
                        if HasDepths(c.profile) then Some((c.chromaFormat, c.bitDepthLuma, c.bitDepthChroma)) else None))
  {
    hide Save, SaveSets, SaveExtension, ReadSets, HasDepths, ReadDepths, ReadRecord, SetsFit;
    var front: Bytes := [1, c.profile, c.compatibility, c.level, 0xFC + (c.naluLength - 1), 0xE0 + |c.sps|];
    var tail := SaveSets(c.pps) + SaveExtension(c);
    var more := [|c.pps|] + tail;
    SetsRead(c.sps, more);
    SetsRead(c.pps, SaveExtension(c));
    DepthsRead(c);
    SavedInParts(c, front, tail);
    FrontBits(c.naluLength, |c.sps|);
    assert more[1..] == tail;
    PartsRead(front, SaveSets(c.sps) + more, c.sps, c.pps, more, SaveExtension(c));
  }
}
