/**
The AVC processor as the source runs it (library/container/flv/src/mpeg4_avc.rs): loops over
readers and writers, and the stored parameter sets it takes from a configuration record.
 */
module Mpeg4AvcProcessor {
  import opened Bytesio
  import opened AnnexB
  import opened Mpeg4Avc

  type ChromaFormat = x: int | 0 <= x < 4
  type BitDepth = x: int | 0 <= x < 8

  const HIGH_PROFILES: set<u8> := {100, 110, 122, 244, 44, 83, 86, 118, 128, 138, 139, 134}

  // ---------- Decoder configuration record ----------

  datatype Config = Config(
    profile: u8,
    compatibility: u8,
    level: u8,
    naluLength: NaluLength,
    sps: seq<Bytes>,
    pps: seq<Bytes>,
    chromaFormat: ChromaFormat,
    bitDepthLuma: BitDepth,
    bitDepthChroma: BitDepth)
  {
    // Five bits count the sequence parameter sets and eight the picture parameter sets.
    predicate Countable() {
      |sps| < 32 && |pps| < 256
    }
  }

  /** Each set behind its length, of which sixteen bits are kept. */
  function SaveSets(sets: seq<Bytes>): Bytes {
    if sets == [] then [] else U16Be(|sets[0]| % 0x1_0000) + sets[0] + SaveSets(sets[1..])
  }

  function SaveExtension(c: Config): Bytes {
    if c.profile in HIGH_PROFILES then [0xFC + c.chromaFormat, 0xF8 + c.bitDepthLuma, 0xF8 + c.bitDepthChroma, 0] else []
  }

  function Save(c: Config): Bytes
    requires c.Countable()
  {
    [1, c.profile, c.compatibility, c.level, 0xFC + (c.naluLength - 1)] + [0xE0 + |c.sps|]
    + SaveSets(c.sps) + [|c.pps|] + SaveSets(c.pps) + SaveExtension(c)
  }

  function LoadSets(b: Bytes, n: nat): Result<(seq<Bytes>, Bytes)>
    decreases n
  {
    if n == 0 then Ok(([], b))
    else if |b| < 2 then Err(NotEnoughBytes)
    else
      var size := FromU16Be(b[..2]) as int;
      if |b| < 2 + size then Err(NotEnoughBytes)
      else
        var (sets, rest) :- LoadSets(b[2 + size..], n - 1);
        Ok(([b[2..2 + size]] + sets, rest))
  }

  /** A unit of the right type that the SPS parser, which is not part of this model, accepts. */
  predicate IsSps(unit: Bytes, parses: Bytes -> bool) {
    unit != [] && NalType(unit[0]) == H264_NAL_SPS && parses(unit[1..])
  }

  predicate AllSps(units: seq<Bytes>, parses: Bytes -> bool) {
    forall s | s in units :: IsSps(s, parses)
  }

  /** The set in front, if it is there and accepted, and what follows it. */
  function NextSps(b: Bytes, parses: Bytes -> bool): Option<(Bytes, Bytes)> {
    if |b| < 2 || |b| < 2 + FromU16Be(b[..2]) as int then None
    else
      var e := 2 + FromU16Be(b[..2]) as int;
      if IsSps(b[2..e], parses) then Some((b[2..e], b[e..])) else None
  }

  predicate Accepted(r: Result<(seq<Bytes>, Bytes)>, parses: Bytes -> bool) {
    r.Ok? && AllSps(r.value.0, parses)
  }

  /** Width of the length field and the two lists of sets. */
  function Load(b: Bytes, parses: Bytes -> bool): Result<(NaluLength, seq<Bytes>, seq<Bytes>)> {
    if |b| < 6 then Err(NotEnoughBytes)
    else
      var (sps, rest) :- LoadSets(b[6..], b[5] % 32);
      if !AllSps(sps, parses) then Err(CannotParse)
      else if rest == [] then Err(NotEnoughBytes)
      else
        var (pps, _) :- LoadSets(rest[1..], rest[0]);
        Ok((b[4] % 4 + 1, sps, pps))
  }

  predicate SetsFit(sets: seq<Bytes>) {
    forall s | s in sets :: |s| < 0x1_0000
  }

  lemma {:induction false} SetsLoaded(sets: seq<Bytes>, rest: Bytes)
    requires SetsFit(sets)
    ensures LoadSets(SaveSets(sets) + rest, |sets|) == Ok((sets, rest))
  {
    hide SaveSets, U16Be, LoadSets, SetsFit;
    if sets == [] {
      NoSetsLoaded(sets, rest);
    } else {
      FitFirst(sets);
      SetsLoaded(sets[1..], rest);
      SavedFirst(sets, rest);
      SetLoaded(sets[0], SaveSets(sets[1..]) + rest, |sets|, sets[1..], rest);
      assert [sets[0]] + sets[1..] == sets;
    }
  }

  lemma FitFirst(sets: seq<Bytes>)
    requires SetsFit(sets) && sets != []
    ensures |sets[0]| < 0x1_0000 && SetsFit(sets[1..])
  {
    assert sets[0] in sets;
  }

  lemma NoSetsLoaded(sets: seq<Bytes>, rest: Bytes)
    requires sets == []
    ensures LoadSets(SaveSets(sets) + rest, |sets|) == Ok((sets, rest))
  {
    assert [] + rest == rest;
  }

  lemma SavedFirst(sets: seq<Bytes>, rest: Bytes)
    requires SetsFit(sets) && sets != []
    ensures |sets[0]| < 0x1_0000
    ensures SaveSets(sets) + rest == U16Be(|sets[0]|) + (sets[0] + (SaveSets(sets[1..]) + rest))
  {
    var s := sets[0];
    assert s in sets;
    hide U16Be;
    Concat3(U16Be(|s|), s, SaveSets(sets[1..]));
    Concat4(U16Be(|s|), s, SaveSets(sets[1..]), rest);
  }

  lemma SetLoaded(s: Bytes, more: Bytes, n: nat, sets: seq<Bytes>, rest: Bytes)
    requires n > 0 && |s| < 0x1_0000 && LoadSets(more, n - 1) == Ok((sets, rest))
    ensures LoadSets(U16Be(|s|) + (s + more), n) == Ok(([s] + sets, rest))
  {
    var b := U16Be(|s|) + (s + more);
    U16RoundTrip(|s|);
    TakeDrop(U16Be(|s|), s + more);
    hide U16Be, FromU16Be;
    assert b[2..2 + |s|] == s && b[2 + |s|..] == more;
  }

  /** Loading what was saved gives the field width and all the parameter sets back, exactly when every SPS is accepted. */
  lemma ConfigRoundTrip(c: Config, parses: Bytes -> bool)
    requires c.Countable() && SetsFit(c.sps) && SetsFit(c.pps)
    ensures if AllSps(c.sps, parses) then Load(Save(c), parses) == Ok((c.naluLength, c.sps, c.pps)) else Load(Save(c), parses).Err?
  {
    var front: Bytes := [1, c.profile, c.compatibility, c.level, 0xFC + (c.naluLength - 1), 0xE0 + |c.sps|];
    var tail := SaveSets(c.pps) + SaveExtension(c);
    SetsLoaded(c.sps, [|c.pps|] + tail);
    SetsLoaded(c.pps, SaveExtension(c));
    SavedInParts(c, front, tail);
    TakeDrop(front, SaveSets(c.sps) + ([|c.pps|] + tail));
    hide Save, SaveSets, SaveExtension, LoadSets, AllSps, Load;
    LoadedFromParts(front, SaveSets(c.sps) + ([|c.pps|] + tail), c.naluLength, c.sps, c.pps, tail, parses);
  }

  lemma LoadedFromParts(front: Bytes, body: Bytes, nl: NaluLength, sps: seq<Bytes>, pps: seq<Bytes>, tail: Bytes, parses: Bytes -> bool)
    requires |front| == 6 && front[4] == 0xFC + (nl - 1) && |sps| < 32 && front[5] == 0xE0 + |sps|
    requires |pps| < 256 && LoadSets(body, |sps|) == Ok((sps, [|pps|] + tail))
    requires LoadSets(tail, |pps|).Ok? && LoadSets(tail, |pps|).value.0 == pps
    ensures if AllSps(sps, parses) then Load(front + body, parses) == Ok((nl, sps, pps)) else Load(front + body, parses).Err?
  {
    hide LoadSets, AllSps;
    var b, rest := front + body, [|pps|] + tail;
    assert b[6..] == body && b[4] == front[4] && b[5] == front[5];
    assert (0xE0 + |sps|) % 32 == |sps| && (0xFC + (nl - 1)) % 4 + 1 == nl;
    assert rest[0] == |pps| && rest[1..] == tail;
  }

  lemma SavedInParts(c: Config, front: Bytes, tail: Bytes)
    requires c.Countable()
    requires front == [1, c.profile, c.compatibility, c.level, 0xFC + (c.naluLength - 1), 0xE0 + |c.sps|]
    requires tail == SaveSets(c.pps) + SaveExtension(c)
    ensures Save(c) == front + (SaveSets(c.sps) + ([|c.pps|] + tail))
  {
    var five: Bytes := [1, c.profile, c.compatibility, c.level, 0xFC + (c.naluLength - 1)];
    assert five + [0xE0 + |c.sps|] == front;
    hide SaveSets, SaveExtension;
    assert Save(c) == front + SaveSets(c.sps) + [|c.pps|] + SaveSets(c.pps) + SaveExtension(c);
    Concat4(front + SaveSets(c.sps), [|c.pps|], SaveSets(c.pps), SaveExtension(c));
    Concat3(front, SaveSets(c.sps), [|c.pps|] + tail);
  }

  // ---------- The processor ----------

  class Mpeg4AvcProcessor {
    var naluLength: Width
    var sps: seq<Bytes>
    var pps: seq<Bytes>
    var spsAnnexb: Bytes
    var ppsAnnexb: Bytes

    /** The pieced-together data is that of the stored sets. */
    predicate Valid()
      reads this
    {
      spsAnnexb == ToAnnexB(sps) && ppsAnnexb == ToAnnexB(pps)
    }

    constructor (naluLength: Width)
      ensures Valid() && this.naluLength == naluLength && sps == [] && pps == []
    {
      this.naluLength := naluLength;
      sps, pps, spsAnnexb, ppsAnnexb := [], [], [], [];
    }

    method WriteNaluSize(writer: BytesWriter, length: nat)
      modifies writer
      ensures writer.bytes == old(writer.bytes) + SizeBytes(length, naluLength)
    {
      for i := 0 to naluLength
        invariant writer.bytes + SizeBytes(length, naluLength - i) == old(writer.bytes) + SizeBytes(length, naluLength)
      {
        writer.WriteU8(Mpeg4Avc.Shift(length, naluLength - i - 1) % 256);
      }
    }

    method ReadNaluSize(reader: BytesReader) returns (r: Result<nat>)
      modifies reader
      ensures var b, n := old(reader.buffer), naluLength as nat;
              if |b| < n then r.Err? else r == Ok(FromSize(0, b[..n])) && reader.buffer == b[n..]
    {
      var size: nat := 0;
      ghost var b := reader.buffer;
      for i := 0 to naluLength
        invariant i <= |b| && reader.buffer == b[i..]
        invariant |b| >= naluLength ==> FromSize(size, b[i..naluLength]) == FromSize(0, b[..naluLength])
      {
        var byte :- reader.ReadU8();
        assert |b| >= naluLength ==> b[i..naluLength][1..] == b[i + 1..naluLength];
        size := byte as int + size * 256;
      }
      return Ok(size);
    }

    method NalusToMpeg4Avc(nalus: seq<Bytes>) returns (avc: Bytes)
      ensures avc == ToAvc(nalus, naluLength)
    {
      var writer := new BytesWriter();
      for i := 0 to |nalus|
        invariant fresh(writer)
        invariant writer.bytes + ToAvc(nalus[i..], naluLength) == ToAvc(nalus, naluLength)
      {
        assert nalus[i..][1..] == nalus[i + 1..];
        Concat4(writer.bytes, SizeBytes(|nalus[i]|, naluLength), nalus[i], ToAvc(nalus[i + 1..], naluLength));
        hide SizeBytes;
        WriteNaluSize(writer, |nalus[i]|);
        writer.Write(nalus[i]);
      }
      avc := writer.ExtractCurrentBytes();
      assert nalus[|nalus|..] == [];
    }

    /** Puts the stored sets in front of all that was written, for the first IDR unit if no set has passed. */
    method NoteUnit(naluType: u8, seen: bool, writer: BytesWriter) returns (now: bool)
      modifies writer
      ensures now == (seen || IsOpening(naluType))
      ensures writer.bytes == Front(naluType, spsAnnexb + ppsAnnexb, seen) + old(writer.bytes)
    {
      now := seen;
      if naluType == H264_NAL_PPS || naluType == H264_NAL_SPS {
        now := true;
      } else if naluType == H264_NAL_IDR {
        if !seen {
          now := true;
          Concat3(spsAnnexb, ppsAnnexb, writer.bytes);
          writer.Prepend(ppsAnnexb);
          writer.Prepend(spsAnnexb);
        }
      }
      assert writer.bytes == old(writer.bytes) ==> [] + old(writer.bytes) == old(writer.bytes);
    }

    /** One turn of the conversion, whatever the width. */
    method ConvertUnit(reader: BytesReader, writer: BytesWriter, seen: bool) returns (r: Result<bool>)
      requires reader.buffer != []
      modifies reader, writer
      ensures match Turn(Loop(old(reader.buffer), seen, old(writer.bytes)), naluLength, spsAnnexb + ppsAnnexb)
              case Going(l) => r == Ok(l.seen) && reader.buffer == l.b && writer.bytes == l.out
              case Done(_) => r.Err?
    {
      hide FromSize, NalType, IsOpening, Front;
      var size :- ReadNaluSize(reader);
      if reader.buffer == [] {
        return Err(NotEnoughBytes);
      }
      var now := NoteUnit(NalType(reader.buffer[0]), seen, writer);
      writer.Write(START_CODE);
      var data :- reader.ReadBytes(size);
      writer.Write(data);
      return Ok(now);
    }

    /** With a width of zero and something to convert the loop of the source does not end (`EndsExactly`). */
    method H264Mp4ToAnnexB(reader: BytesReader) returns (r: Result<Bytes>)
      requires naluLength > 0 || reader.buffer == []
      modifies reader
      ensures match FromAvc(old(reader.buffer), naluLength, spsAnnexb, ppsAnnexb)
              case Ok(out) => r == Ok(out)
              case Err(_) => r.Err?
    {
      var writer := new BytesWriter();
      var spsPpsFlag := false;
      ghost var ps := spsAnnexb + ppsAnnexb;
      while reader.buffer != []
        invariant fresh(writer) && (naluLength > 0 || reader.buffer == [])
        invariant Convert(reader.buffer, naluLength, ps, spsPpsFlag, writer.bytes) ==
                  FromAvc(old(reader.buffer), naluLength, spsAnnexb, ppsAnnexb)
        decreases |reader.buffer|
      {
        hide Turn;
        spsPpsFlag :- ConvertUnit(reader, writer, spsPpsFlag);
      }
      var out := writer.ExtractCurrentBytes();
      return Ok(out);
    }

    /** One length-prefixed set of a configuration record. */
    method ReadSet(reader: BytesReader) returns (r: Result<Bytes>)
      modifies reader
      ensures var b := old(reader.buffer);
              if |b| < 2 || |b| < 2 + FromU16Be(b[..2]) as int then r.Err?
              else var e := 2 + FromU16Be(b[..2]) as int; r == Ok(b[2..e]) && reader.buffer == b[e..]
    {
      ghost var b := reader.buffer;
      var size :- reader.ReadU16Be();
      hide FromU16Be;
      var item :- reader.ReadBytes(size);
      assert b[2..][..size] == b[2..2 + size as int] && b[2..][size..] == b[2 + size as int..];
      return Ok(item);
    }

    /**
    Takes the width and the sets from a record. A record without sets of a kind leaves the
    stored ones; a broken record leaves the pieced-together data in step with the sets read.
     */
    method DecoderConfigurationRecordLoad(reader: BytesReader, parses: Bytes -> bool) returns (ok: bool)
      requires Valid()
      modifies this, reader
      ensures Valid()
      ensures ok == Load(old(reader.buffer), parses).Ok?
      ensures ok ==> var (nl, newSps, newPps) := Load(old(reader.buffer), parses).value;
                     && naluLength == nl && reader.buffer == []
                     && sps == (if newSps == [] then old(sps) else newSps)
                     && pps == (if newPps == [] then old(pps) else newPps)
    {
      ghost var b := reader.buffer;
      var front := reader.ReadBytes(5);
      if front.Err? {
        return false;
      }
      naluLength := front.value[4] % 4 + 1;
      var count := reader.ReadU8();
      if count.Err? {
        return false;
      }
      var nbSps := count.value % 32;
      assert reader.buffer == b[6..];
      var loaded := LoadSps(reader, nbSps, parses);
      if !loaded || reader.buffer == [] {
        return false;
      }
      var nbPps := reader.ReadU8();
      ok := LoadPps(reader, nbPps.value);
      var _ := reader.ExtractRemainingBytes();
    }

    method AddSps(item: Bytes)
      requires Valid()
      modifies this`sps, this`spsAnnexb
      ensures Valid() && sps == old(sps) + [item]
    {
      AnnexBSnoc(sps, item);
      sps, spsAnnexb := sps + [item], spsAnnexb + START_CODE + item;
    }

    method AddPps(item: Bytes)
      requires Valid()
      modifies this`pps, this`ppsAnnexb
      ensures Valid() && pps == old(pps) + [item]
    {
      AnnexBSnoc(pps, item);
      pps, ppsAnnexb := pps + [item], ppsAnnexb + START_CODE + item;
    }

    /** One sequence parameter set of a record, stored if it is accepted. */
    method TakeSps(reader: BytesReader, parses: Bytes -> bool) returns (ok: bool)
      requires Valid()
      modifies this`sps, this`spsAnnexb, reader
      ensures Valid() && ok == NextSps(old(reader.buffer), parses).Some?
      ensures ok ==> sps == old(sps) + [NextSps(old(reader.buffer), parses).value.0]
                     && reader.buffer == NextSps(old(reader.buffer), parses).value.1
    {
      hide IsSps, ToAnnexB, FromU16Be;
      var item := ReadSet(reader);
      if item.Err? || !IsSps(item.value, parses) {
        return false;
      }
      AddSps(item.value);
      return true;
    }

    method LoadSps(reader: BytesReader, n: nat, parses: Bytes -> bool) returns (ok: bool)
      requires Valid()
      modifies this`sps, this`spsAnnexb, reader
      ensures Valid() && ok == Accepted(LoadSets(old(reader.buffer), n), parses)
      ensures ok ==> var r := LoadSets(old(reader.buffer), n).value;
                     sps == (if n == 0 then old(sps) else r.0) && reader.buffer == r.1
    {
      hide ToAnnexB, LoadSets, Prefixed, NextSps, Accepted, AllSps;
      if n > 0 {
        sps, spsAnnexb := [], [];
        NoSets();
      }
      ghost var whole := LoadSets(reader.buffer, n);
      ghost var read: seq<Bytes> := [];
      PrefixedNone(whole);
      NoSps(read, parses);
      for i := 0 to n
        invariant Valid() && sps == if n == 0 then old(sps) else read
        invariant whole == Prefixed(read, LoadSets(reader.buffer, n - i)) && AllSps(read, parses)
      {
        OneMoreSps(whole, read, reader.buffer, n - i, parses);
        ghost var next := NextSps(reader.buffer, parses);
        var taken := TakeSps(reader, parses);
        if !taken {
          return false;
        }
        read := read + [next.value.0];
      }
      PrefixedAll(read, reader.buffer);
      AllAccepted(whole, parses);
      return true;
    }

    method LoadPps(reader: BytesReader, n: nat) returns (ok: bool)
      requires Valid()
      modifies this, reader
      ensures Valid() && sps == old(sps) && naluLength == old(naluLength)
      ensures var r := LoadSets(old(reader.buffer), n);
              && ok == r.Ok?
              && (ok ==> pps == (if n == 0 then old(pps) else r.value.0))
    {
      if n > 0 {
        pps, ppsAnnexb := [], [];
      }
      hide ToAnnexB, LoadSets, Prefixed, IsSps, AllSps, FromU16Be;
      ghost var whole := LoadSets(reader.buffer, n);
      ghost var read: seq<Bytes> := [];
      PrefixedNone(whole);
      for i := 0 to n
        invariant Valid() && sps == old(sps) && naluLength == old(naluLength)
        invariant pps == if n == 0 then old(pps) else read
        invariant whole == Prefixed(read, LoadSets(reader.buffer, n - i))
      {
        PrefixedStep(read, reader.buffer, n - i);
        var item := ReadSet(reader);
        if item.Err? {
          return false;
        }
        AddPps(item.value);
        read := read + [item.value];
      }
      PrefixedAll(read, reader.buffer);
      return true;
    }
  }

  lemma PrefixedNone(r: Result<(seq<Bytes>, Bytes)>)
    ensures Prefixed([], r) == r
  {
    if r.Ok? {
      assert [] + r.value.0 == r.value.0;
    }
  }

  lemma PrefixedAll(xs: seq<Bytes>, b: Bytes)
    ensures Prefixed(xs, LoadSets(b, 0)) == Ok((xs, b))
  {
    assert xs + [] == xs;
  }

  lemma PrefixedStep(xs: seq<Bytes>, b: Bytes, n: nat)
    requires n > 0
    ensures var r := LoadSets(b, n);
            if |b| < 2 || |b| < 2 + FromU16Be(b[..2]) as int then Prefixed(xs, r).Err?
            else var e := 2 + FromU16Be(b[..2]) as int;
                 Prefixed(xs, r) == Prefixed(xs + [b[2..e]], LoadSets(b[e..], n - 1))
  {
    if |b| >= 2 && |b| >= 2 + FromU16Be(b[..2]) as int {
      var e := 2 + FromU16Be(b[..2]) as int;
      if LoadSets(b[e..], n - 1).Ok? {
        var ys := LoadSets(b[e..], n - 1).value.0;
        assert xs + ([b[2..e]] + ys) == xs + [b[2..e]] + ys;
      }
    }
  }

  lemma NoSps(units: seq<Bytes>, parses: Bytes -> bool)
    requires units == []
    ensures AllSps(units, parses)
  {
  }

  lemma NoSets()
    ensures ToAnnexB([]) == []
  {
  }

  lemma AllAccepted(whole: Result<(seq<Bytes>, Bytes)>, parses: Bytes -> bool)
    requires whole.Ok? && AllSps(whole.value.0, parses)
    ensures Accepted(whole, parses)
  {
  }

  /** The set in front is read and accepted, or all the sets are refused. */
  lemma OneMoreSps(whole: Result<(seq<Bytes>, Bytes)>, read: seq<Bytes>, b: Bytes, n: nat, parses: Bytes -> bool)
    requires n > 0 && AllSps(read, parses) && whole == Prefixed(read, LoadSets(b, n))
    ensures match NextSps(b, parses)
            case None => !Accepted(whole, parses)
            case Some((item, rest)) =>
              AllSps(read + [item], parses) && whole == Prefixed(read + [item], LoadSets(rest, n - 1))
  {
    PrefixedStep(read, b, n);
    hide LoadSets, IsSps, FromU16Be;
    if |b| >= 2 && |b| >= 2 + FromU16Be(b[..2]) as int {
      var e := 2 + FromU16Be(b[..2]) as int;
      if whole.Ok? {
        assert b[2..e] in whole.value.0;
      }
    }
  }

  lemma AnnexBSnoc(sets: seq<Bytes>, item: Bytes)
    ensures ToAnnexB(sets + [item]) == ToAnnexB(sets) + START_CODE + item
  {
    AnnexBConcat(sets, [item]);
    var none: Bytes := [];
    assert [item][1..] == [];
    assert ToAnnexB([item]) == START_CODE + item + none;
  }
}
