/**
Length-prefixed AVC and Annex B (library/container/flv/src/mpeg4_avc.rs), and the remuxing of
RTSP video into RTMP tags that uses it (protocol/rtmp/src/remuxer/rtsp2rtmp.rs).
 */
module Mpeg4Avc {
  import opened Bytesio
  import opened AnnexB

  const H264_NAL_IDR: u8 := 5
  const H264_NAL_SPS: u8 := 7
  const H264_NAL_PPS: u8 := 8

  // Width of a NAL unit's length field; a decoder configuration record can say no other.
  type NaluLength = x: int | 1 <= x <= 4 witness 4

  // The same with what it is before a record is loaded.
  type Width = x: int | 0 <= x <= 4

  function NalType(b: u8): u8 {
    b % 32
  }

  // ---------- Sizes ----------

  function Limit(k: nat): (n: nat)
    ensures n > 0
  {
    if k == 0 then 1 else 256 * Limit(k - 1)
  }

  /** A shift right by `k` bytes. */
  function Shift(n: nat, k: nat): nat
    decreases k
  {
    if k == 0 then n else Shift(n / 256, k - 1)
  }

  /** The low `k` bytes of `n`, highest first. */
  function SizeBytes(n: nat, k: nat): (b: Bytes)
    ensures |b| == k
  {
    if k == 0 then [] else [Shift(n, k - 1) % 256] + SizeBytes(n, k - 1)
  }

  function FromSize(size: nat, b: Bytes): nat
    decreases |b|
  {
    if b == [] then size else FromSize(b[0] as int + size * 256, b[1..])
  }

  lemma {:induction false} SizeSnoc(n: nat, k: nat)
    ensures SizeBytes(n, k + 1) == SizeBytes(n / 256, k) + [n % 256]
  {
    if k > 0 {
      SizeSnoc(n, k - 1);
    }
  }

  lemma {:induction false} FromSizeSnoc(size: nat, b: Bytes, d: u8)
    ensures FromSize(size, b + [d]) == FromSize(size, b) * 256 + d as int
    decreases |b|
  {
    if b == [] {
      assert ([] + [d])[1..] == [];
    } else {
      assert (b + [d])[1..] == b[1..] + [d];
      FromSizeSnoc(b[0] as int + size * 256, b[1..], d);
    }
  }

  /** A length that fits the field is read back. */
  lemma {:induction false} SizeRoundTrip(n: nat, k: nat)
    requires n < Limit(k)
    ensures FromSize(0, SizeBytes(n, k)) == n
  {
    if k > 0 {
      SizeRoundTrip(n / 256, k - 1);
      SizeSnoc(n, k - 1);
      FromSizeSnoc(0, SizeBytes(n / 256, k - 1), n % 256);
    }
  }

  /** Four bytes, highest first, in plain numbers. */
  lemma FourBytesOfSize(n: nat)
    ensures SizeBytes(n, 4) == [n / 0x100_0000 % 256, n / 0x1_0000 % 256, n / 0x100 % 256, n % 256]
  {
    assert n / 256 / 256 == n / 0x1_0000 && n / 0x1_0000 / 256 == n / 0x100_0000;
    assert Shift(n, 1) == Shift(n / 256, 0) && Shift(n, 2) == Shift(n / 256, 1) && Shift(n, 3) == Shift(n / 256, 2);
    assert Shift(n / 256, 1) == Shift(n / 256 / 256, 0) && Shift(n / 256, 2) == Shift(n / 256 / 256, 1);
    assert Shift(n / 256 / 256, 1) == Shift(n / 256 / 256 / 256, 0);
    assert SizeBytes(n, 1) == [n % 256];
    assert SizeBytes(n, 2) == [Shift(n, 1) % 256] + SizeBytes(n, 1);
    assert SizeBytes(n, 3) == [Shift(n, 2) % 256] + SizeBytes(n, 2);
  }

  // ---------- Conversions ----------

  /** `nalus_to_mpeg4avc`: every unit behind its length. */
  function ToAvc(nalus: seq<Bytes>, nl: nat): Bytes {
    if nalus == [] then [] else SizeBytes(|nalus[0]|, nl) + nalus[0] + ToAvc(nalus[1..], nl)
  }

  /** The loop of `h264_mp4toannexb`: what is left, whether a parameter set has passed or been put in front, what is written. */
  datatype Loop = Loop(b: Bytes, seen: bool, out: Bytes)

  datatype Turned = Going(l: Loop) | Done(r: Result<Bytes>)

  /** One turn: a length of `nl` bytes, a look at the next byte, and as many bytes as the length says. */
  function Turn(l: Loop, nl: nat, parameterSets: Bytes): (o: Turned)
    ensures o.Going? ==> |o.l.b| <= |l.b| - nl
  {
    if l.b == [] then Done(Ok(l.out))
    else if |l.b| < nl + 1 then Done(Err(NotEnoughBytes))
    else
      var size, rest := FromSize(0, l.b[..nl]), l.b[nl..];
      var t := NalType(rest[0]);
      if |rest| < size then Done(Err(NotEnoughBytes))
      else
        Going(Loop(rest[size..], l.seen || IsOpening(t), Front(t, parameterSets, l.seen) + l.out + START_CODE + rest[..size]))
  }

  /** A unit behind which no parameter sets are put in front any more. */
  predicate IsOpening(t: u8) {
    t == H264_NAL_IDR || t == H264_NAL_SPS || t == H264_NAL_PPS
  }

  function Front(t: u8, parameterSets: Bytes, seen: bool): Bytes {
    if t == H264_NAL_IDR && !seen then parameterSets else []
  }

  /** The turns until the loop ends, which it does when lengths have a width. */
  function Convert(b: Bytes, nl: nat, parameterSets: Bytes, seen: bool, out: Bytes): Result<Bytes>
    requires nl > 0 || b == []
    decreases |b|
  {
    match Turn(Loop(b, seen, out), nl, parameterSets)
    case Done(r) => r
    case Going(l) => Convert(l.b, nl, parameterSets, l.seen, l.out)
  }

  /** The loop comes to an end, whatever it returns, in at most `n` further turns. */
  predicate EndsWithin(l: Loop, nl: nat, parameterSets: Bytes, n: nat)
    decreases n
  {
    match Turn(l, nl, parameterSets)
    case Done(_) => true
    case Going(next) => n > 0 && EndsWithin(next, nl, parameterSets, n - 1)
  }

  lemma {:induction false} EndsWithWidth(l: Loop, nl: nat, parameterSets: Bytes)
    requires nl > 0 || l.b == []
    ensures EndsWithin(l, nl, parameterSets, |l.b|)
    decreases |l.b|
  {
    NothingToTurn(l, nl, parameterSets);
    hide Turn;
    match Turn(l, nl, parameterSets)
    case Done(_) =>
    case Going(next) =>
      EndsWithWidth(next, nl, parameterSets);
      EndsLater(next, nl, parameterSets, |next.b|, |l.b| - 1);
  }

  lemma NothingToTurn(l: Loop, nl: nat, parameterSets: Bytes)
    ensures l.b == [] ==> Turn(l, nl, parameterSets) == Done(Ok(l.out))
  {
    hide FromSize, NalType, IsOpening, Front;
  }

  lemma {:induction false} EndsLater(l: Loop, nl: nat, parameterSets: Bytes, m: nat, n: nat)
    requires EndsWithin(l, nl, parameterSets, m) && m <= n
    ensures EndsWithin(l, nl, parameterSets, n)
    decreases m
  {
    hide Turn;
    match Turn(l, nl, parameterSets)
    case Done(_) =>
    case Going(next) => EndsLater(next, nl, parameterSets, m - 1, n - 1);
  }

  // Without a width no byte is ever taken.
  lemma {:induction false} NeverEnds(l: Loop, parameterSets: Bytes, n: nat)
    requires l.b != []
    ensures !EndsWithin(l, 0, parameterSets, n)
    decreases n
  {
    var next := Turn(l, 0, parameterSets);
    assert next.Going? && next.l.b == l.b;
    if n > 0 {
      NeverEnds(next.l, parameterSets, n - 1);
    }
  }

  /**
  The exact condition: the conversion ends if and only if lengths have a width or there is nothing to convert.  Before a
  decoder configuration record is loaded they have none, and a frame that comes first is never done.
   */
  lemma EndsExactly(b: Bytes, nl: nat, parameterSets: Bytes)
    ensures (exists n :: EndsWithin(Loop(b, false, []), nl, parameterSets, n)) <==> nl > 0 || b == []
  {
    var l := Loop(b, false, []);
    if nl > 0 || b == [] {
      EndsWithWidth(l, nl, parameterSets);
    } else {
      forall n: nat {
        NeverEnds(l, parameterSets, n);
      }
    }
  }

  /** The frame of one byte a player may be sent before any sequence header. */
  lemma NoWidthExample(n: nat)
    ensures !EndsWithin(Loop([0x65], false, []), 0, [], n)
  {
    NeverEnds(Loop([0x65], false, []), [], n);
  }

  function FromAvc(b: Bytes, nl: nat, sps: Bytes, pps: Bytes): Result<Bytes>
    requires nl > 0 || b == []
  {
    Convert(b, nl, sps + pps, false, [])
  }

  // ---------- What can be converted ----------

  lemma LimitDown(k: nat, n: nat)
    requires k > 0
    ensures n < Limit(k) <==> n / 256 < Limit(k - 1)
  {
  }

  lemma {:induction false} SizeWhole(b: Bytes)
    ensures FromSize(0, b) < Limit(|b|) && SizeBytes(FromSize(0, b), |b|) == b
    decreases |b|
  {
    if b != [] {
      var front, d := b[..|b| - 1], b[|b| - 1];
      assert b == front + [d];
      SizeWhole(front);
      FromSizeSnoc(0, front, d);
      var n := FromSize(0, b);
      assert n / 256 == FromSize(0, front) && n % 256 == d as int;
      SizeSnoc(n, |front|);
      LimitDown(|b|, n);
    }
  }

  /** Units that a length field can measure, of which the last is not empty. */
  predicate Convertible(nalus: seq<Bytes>, nl: nat) {
    (forall n | n in nalus :: |n| < Limit(nl)) && (nalus != [] ==> nalus[|nalus| - 1] != [])
  }

  lemma ConvertibleRest(nalus: seq<Bytes>, nl: nat)
    requires nalus != [] && Convertible(nalus, nl)
    ensures Convertible(nalus[1..], nl) && |nalus[0]| < Limit(nl) && (nalus[1..] == [] ==> nalus[0] != [])
  {
    assert nalus[0] in nalus;
  }

  lemma ConvertibleMore(unit: Bytes, nalus: seq<Bytes>, nl: nat)
    requires Convertible(nalus, nl) && |unit| < Limit(nl) && (nalus == [] ==> unit != [])
    ensures Convertible([unit] + nalus, nl)
  {
    var all := [unit] + nalus;
    assert nalus != [] ==> all[|all| - 1] == nalus[|nalus| - 1];
  }

  lemma {:induction false} SomethingThere(nalus: seq<Bytes>, nl: NaluLength)
    requires nalus != []
    ensures |ToAvc(nalus, nl)| >= nl
  {
  }

  // One turn over the first of them.
  lemma TurnOverUnit(nalus: seq<Bytes>, nl: NaluLength, ps: Bytes, seen: bool, out: Bytes)
    requires nalus != [] && Convertible(nalus, nl)
    ensures var o := Turn(Loop(ToAvc(nalus, nl), seen, out), nl, ps); o.Going? && o.l.b == ToAvc(nalus[1..], nl)
  {
    ConvertibleRest(nalus, nl);
    var n, rest := nalus[0], ToAvc(nalus[1..], nl);
    if nalus[1..] != [] {
      SomethingThere(nalus[1..], nl);
    }
    SizeRoundTrip(|n|, nl);
    hide SizeBytes, FromSize, Limit, NalType, IsOpening, Front, Convertible;
    var size := SizeBytes(|n|, nl);
    assert ToAvc(nalus, nl) == size + (n + rest);
    TakeDrop(size, n + rest);
    TakeDrop(n, rest);
  }

  lemma {:induction false} ConvertsUnits(nalus: seq<Bytes>, nl: NaluLength, ps: Bytes, seen: bool, out: Bytes)
    requires Convertible(nalus, nl)
    ensures Convert(ToAvc(nalus, nl), nl, ps, seen, out).Ok?
    decreases |nalus|
  {
    hide Turn, ToAvc, Convertible, Limit;
    if nalus == [] {
      NothingConverted(nl, ps, seen, out);
    } else {
      TurnOverUnit(nalus, nl, ps, seen, out);
      ConvertibleRest(nalus, nl);
      var o := Turn(Loop(ToAvc(nalus, nl), seen, out), nl, ps);
      ConvertsUnits(nalus[1..], nl, ps, o.l.seen, o.l.out);
    }
  }

  lemma NothingConverted(nl: nat, ps: Bytes, seen: bool, out: Bytes)
    ensures ToAvc([], nl) == [] && Convert([], nl, ps, seen, out).Ok? && Convertible([], nl)
  {
  }

  // What one turn takes is a unit behind its length.
  lemma TurnTakesUnit(l: Loop, nl: NaluLength, ps: Bytes)
    requires Turn(l, nl, ps).Going?
    ensures var size, next := FromSize(0, l.b[..nl]), Turn(l, nl, ps).l.b;
            && size <= |l.b| - nl && size < Limit(nl)
            && l.b == SizeBytes(size, nl) + l.b[nl..][..size] + next && (size == 0 ==> next != [])
  {
    SizeWhole(l.b[..nl]);
    hide SizeBytes, FromSize, Limit, NalType, IsOpening, Front;
    var size, rest := FromSize(0, l.b[..nl]), l.b[nl..];
    assert rest == rest[..size] + rest[size..] && l.b == l.b[..nl] + rest;
    Concat3(l.b[..nl], rest[..size], rest[size..]);
  }

  /** The bytes are these units behind their lengths. */
  predicate AreUnits(b: Bytes, nl: nat, nalus: seq<Bytes>) {
    Convertible(nalus, nl) && ToAvc(nalus, nl) == b
  }

  lemma OneMoreUnit(b: Bytes, nl: NaluLength, unit: Bytes, rest: seq<Bytes>, next: Bytes)
    requires AreUnits(next, nl, rest) && |unit| < Limit(nl) && b == SizeBytes(|unit|, nl) + unit + next && (unit == [] ==> next != [])
    ensures AreUnits(b, nl, [unit] + rest)
  {
    hide SizeBytes, Limit, Convertible;
    ConvertibleMore(unit, rest, nl);
    assert ([unit] + rest)[1..] == rest;
  }

  lemma {:induction false} ConvertedIsUnits(b: Bytes, nl: NaluLength, ps: Bytes, seen: bool, out: Bytes)
    requires Convert(b, nl, ps, seen, out).Ok?
    ensures exists nalus :: AreUnits(b, nl, nalus)
    decreases |b|
  {
    hide Convert, Turn, AreUnits, Limit, SizeBytes, FromSize;
    if b == [] {
      NoUnits(nl);
    } else {
      var l := Loop(b, seen, out);
      ConvertsOn(l, nl, ps);
      TurnTakesUnit(l, nl, ps);
      var next := Turn(l, nl, ps).l;
      assert |next.b| < |b|;
      ConvertedIsUnits(next.b, nl, ps, next.seen, next.out);
      var rest :| AreUnits(next.b, nl, rest);
      OneMoreUnit(b, nl, b[nl..][..FromSize(0, b[..nl])], rest, next.b);
    }
  }

  lemma NoUnits(nl: nat)
    ensures AreUnits([], nl, [])
  {
  }

  lemma ConvertsOn(l: Loop, nl: NaluLength, ps: Bytes)
    requires l.b != [] && Convert(l.b, nl, ps, l.seen, l.out).Ok?
    ensures var o := Turn(l, nl, ps); o.Going? && Convert(o.l.b, nl, ps, o.l.seen, o.l.out).Ok?
  {
    TurnGoes(l, nl, ps);
    hide Turn;
  }

  lemma TurnGoes(l: Loop, nl: nat, ps: Bytes)
    ensures Turn(l, nl, ps).Done? && Turn(l, nl, ps).r.Ok? ==> l.b == []
  {
    hide FromSize, NalType, IsOpening, Front;
  }

  /**
  The exact condition: bytes are converted and not refused if and only if they are units behind their lengths, whole ones, of
  which the last has a byte.
   */
  lemma ConvertsExactly(b: Bytes, nl: NaluLength, sps: Bytes, pps: Bytes)
    ensures FromAvc(b, nl, sps, pps).Ok? <==> exists nalus :: AreUnits(b, nl, nalus)
  {
    hide Convert, Convertible, ToAvc;
    if FromAvc(b, nl, sps, pps).Ok? {
      ConvertedIsUnits(b, nl, sps + pps, false, []);
    } else if nalus :| AreUnits(b, nl, nalus) {
      ConvertsUnits(nalus, nl, sps + pps, false, []);
    }
  }

  // ---------- What survives the conversions ----------

  /** An IDR unit (type 5) before any parameter set (types 7 and 8). */
  predicate NeedsParameterSets(nalus: seq<Bytes>) {
    nalus != [] && nalus[0] != [] &&
    var t := nalus[0][0] % 32;
    (t == 5 || (t != 7 && t != 8 && NeedsParameterSets(nalus[1..])))
  }

  predicate Measured(nalus: seq<Bytes>, nl: nat) {
    forall n | n in nalus :: n != [] && |n| < Limit(nl)
  }

  lemma UnitOfAvc(nalus: seq<Bytes>, nl: NaluLength)
    requires nalus != [] && Measured(nalus, nl)
    ensures var b, n := ToAvc(nalus, nl), nalus[0];
            && |b| >= nl + 1 && FromSize(0, b[..nl]) == |n|
            && |b[nl..]| >= |n| && b[nl..][..|n|] == n && b[nl..][|n|..] == ToAvc(nalus[1..], nl)
            && b[nl..][0] == n[0]
  {
    var n, rest := nalus[0], ToAvc(nalus[1..], nl);
    var size := SizeBytes(|n|, nl);
    assert n in nalus;
    SizeRoundTrip(|n|, nl);
    hide SizeBytes, FromSize, Limit;
    assert ToAvc(nalus, nl) == size + (n + rest);
    TakeDrop(size, n + rest);
    TakeDrop(n, rest);
  }

  lemma TurnOfAvc(nalus: seq<Bytes>, nl: NaluLength, ps: Bytes, seen: bool, out: Bytes)
    requires nalus != [] && Measured(nalus, nl)
    ensures var n := nalus[0];
            n != [] && Measured(nalus[1..], nl)
            && var t := NalType(n[0]);
               Turn(Loop(ToAvc(nalus, nl), seen, out), nl, ps)
               == Going(Loop(ToAvc(nalus[1..], nl), seen || IsOpening(t), Front(t, ps, seen) + out + START_CODE + n))
  {
    UnitOfAvc(nalus, nl);
    assert nalus[0] in nalus;
    hide ToAvc, SizeBytes, FromSize, Limit, NalType, IsOpening, Front;
  }

  /** Parameter sets put in front now are not put in front later. */
  lemma InFront(t: u8, ps: Bytes, seen: bool)
    ensures seen || IsOpening(t) || Front(t, ps, seen) == []
    ensures t == H264_NAL_IDR ==> Front(t, ps, seen) == if seen then [] else ps
    ensures t != H264_NAL_IDR ==> Front(t, ps, seen) == []
    ensures seen ==> Front(t, ps, seen) == []
  {
  }

  lemma {:induction false} AvcConverted(nalus: seq<Bytes>, nl: NaluLength, ps: Bytes, seen: bool, out: Bytes)
    requires Measured(nalus, nl)
    ensures Convert(ToAvc(nalus, nl), nl, ps, seen, out) ==
            Ok((if !seen && NeedsParameterSets(nalus) then ps else []) + out + ToAnnexB(nalus))
    decreases |nalus|
  {
    if nalus == [] {
      assert [] + out + [] == out;
    } else {
      hide ToAvc, Turn, Measured, Front;
      var n, rest := nalus[0], nalus[1..];
      TurnOfAvc(nalus, nl, ps, seen, out);
      var t := NalType(n[0]);
      var front, seen' := Front(t, ps, seen), seen || IsOpening(t);
      InFront(t, ps, seen);
      AvcConverted(rest, nl, ps, seen', front + out + START_CODE + n);
      var front' := if !seen' && NeedsParameterSets(rest) then ps else [];
      Gather(front', front, out, n, ToAnnexB(rest));
    }
  }

  lemma Gather(a: Bytes, b: Bytes, out: Bytes, n: Bytes, tail: Bytes)
    ensures a == [] ==> a + (b + out + START_CODE + n) + tail == b + out + (START_CODE + n + tail)
    ensures b == [] ==> a + (b + out + START_CODE + n) + tail == a + out + (START_CODE + n + tail)
  {
  }

  /**
  Length-prefixing a frame and converting it back gives its units behind start codes, with
  the stored parameter sets once in front exactly when an IDR unit comes before any in the frame.
   */
  lemma AvcRoundTrip(nalus: seq<Bytes>, nl: NaluLength, sps: Bytes, pps: Bytes)
    requires Measured(nalus, nl)
    ensures FromAvc(ToAvc(nalus, nl), nl, sps, pps) ==
            Ok((if NeedsParameterSets(nalus) then sps + pps else []) + ToAnnexB(nalus))
  {
    AvcConverted(nalus, nl, sps + pps, false, []);
    var ps := if NeedsParameterSets(nalus) then sps + pps else [];
    assert ps + [] == ps;
  }

  /**
  Annex B in, length-prefixed, Annex B out: the same units, behind the stored parameter sets
  when the frame needs them.
   */
  lemma RemuxPreservesUnits(stream: Bytes, nl: NaluLength, sps: seq<Bytes>, pps: seq<Bytes>)
    requires Measured(Split(stream), nl)
    requires Separable(sps + pps + Split(stream))
    ensures var nalus := Split(stream);
            var out := FromAvc(ToAvc(nalus, nl), nl, ToAnnexB(sps), ToAnnexB(pps));
            out.Ok? && Split(out.value) == (if NeedsParameterSets(nalus) then sps + pps + nalus else nalus)
  {
    hide FromAvc, ToAvc, Split, Join, Measured;
    var nalus := Split(stream);
    AvcRoundTrip(nalus, nl, ToAnnexB(sps), ToAnnexB(pps));
    AnnexBConcat(sps, pps);
    AnnexBConcat(sps + pps, nalus);
    var all := if NeedsParameterSets(nalus) then sps + pps + nalus else nalus;
    SplitIsSeparable(stream);
    assert [] + ToAnnexB(nalus) == ToAnnexB(nalus);
    AnnexBIsJoin(all);
    SplitOfJoin(LongCodes(all));
  }
}
