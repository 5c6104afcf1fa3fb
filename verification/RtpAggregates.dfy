/**
Aggregation packets: units behind their sizes, sections 5.7 of RFC 6184 and 4.4.2 of RFC 7798, as the two unpackers read
them.
 */
module RtpAggregates {
  import opened Bytesio
  import opened AnnexB
  import opened RtpStreams
  import opened RtpH264
  import H265 = RtpH265

  // ---------- Units behind their sizes ----------

  predicate Sizeable(units: seq<Bytes>) {
    forall unit | unit in units :: |unit| < 0x1_0000
  }

  function Sized(units: seq<Bytes>): Bytes
    requires Sizeable(units)
  {
    if units == [] then [] else U16Be(|units[0]|) + units[0] + Sized(units[1..])
  }

  lemma SizedFirst(unit: Bytes, rest: Bytes)
    requires |unit| < 0x1_0000
    ensures var b := U16Be(|unit|) + unit + rest;
            var n := |unit|;
            |b| >= 2 + n && FromU16Be(b[..2]) == n && b[2..2 + n] == unit && b[2 + n..] == rest
  {
    U16RoundTrip(|unit|);
    var b := U16Be(|unit|) + unit + rest;
    assert b[..2] == U16Be(|unit|);
  }

  lemma {:induction false} UnitsRead(units: seq<Bytes>)
    requires Sizeable(units)
    ensures StapUnits(Sized(units)) == (units, true)
    decreases |units|
  {
    hide FromU16Be;
    if units != [] {
      SizedFirst(units[0], Sized(units[1..]));
      UnitsRead(units[1..]);
      assert units == [units[0]] + units[1..];
    }
  }

  lemma FirstUnit(b: Bytes)
    requires StapUnits(b).1 && b != []
    ensures |b| >= 2
    ensures var e := 2 + FromU16Be(b[..2]) as int;
            e <= |b| && StapUnits(b[e..]).1 && StapUnits(b).0 == [b[2..e]] + StapUnits(b[e..]).0
  {
    hide FromU16Be;
  }

  lemma InThree(b: Bytes, e: nat)
    requires 2 <= e <= |b| && e - 2 == FromU16Be(b[..2])
    ensures b == U16Be(e - 2) + b[2..e] + b[e..]
  {
    hide U16Be, FromU16Be;
    U16Whole(b[..2]);
    assert b == b[..2] + b[2..e] + b[e..];
  }

  /** What is read without falling short is all there is. */
  lemma {:induction false} UnitsAreAll(b: Bytes)
    requires StapUnits(b).1
    ensures Sizeable(StapUnits(b).0) && Sized(StapUnits(b).0) == b
    decreases |b|
  {
    if b != [] {
      FirstUnit(b);
      hide FromU16Be, U16Be, StapUnits;
      var e: nat := 2 + FromU16Be(b[..2]);
      InThree(b, e);
      UnitsAreAll(b[e..]);
      var units := StapUnits(b).0;
      assert units[0] == b[2..e] && units[1..] == StapUnits(b[e..]).0;
    }
  }

  /** The frames tell the units apart. */
  lemma {:induction false} EmitAllTells(u: Unpacker, a: seq<Bytes>, b: seq<Bytes>)
    requires u.EmitAll(a) == u.EmitAll(b)
    ensures a == b
    decreases |a|
  {
    EmitAllFrames(u, a);
    EmitAllFrames(u, b);
    if a != [] {
      var x, y := u.EmitAll(a).frames[|u.frames|].data, u.EmitAll(b).frames[|u.frames|].data;
      assert x == START_CODE + a[0] && y == START_CODE + b[0];
      assert x[|START_CODE|..] == a[0] && y[|START_CODE|..] == b[0];
      EmitAllTells(u.Emit(a[0]), a[1..], b[1..]);
    }
  }

  lemma {:induction false} EmitAllFrames(u: Unpacker, units: seq<Bytes>)
    ensures u.frames <= u.EmitAll(units).frames && |u.EmitAll(units).frames| == |u.frames| + |units|
    ensures units != [] ==> u.EmitAll(units).frames[|u.frames|] == Frame(u.timestamp, START_CODE + units[0])
    decreases |units|
  {
    if units != [] {
      EmitAllFrames(u.Emit(units[0]), units[1..]);
    }
  }

  /** Something is left, but not the size and the bytes it announces. */
  predicate FallsShort(b: Bytes) {
    b != [] && (|b| < 2 || |b| < 2 + b[0] as int * 256 + b[1])
  }

  lemma {:induction false} UnitsCut(units: seq<Bytes>, tail: Bytes)
    requires Sizeable(units) && FallsShort(tail)
    ensures StapUnits(Sized(units) + tail) == (units, false)
    decreases |units|
  {
    if units == [] {
      assert Sized(units) + tail == tail;
    } else {
      hide FromU16Be, U16Be, FallsShort;
      SizedFirst(units[0], Sized(units[1..]) + tail);
      Concat3(U16Be(|units[0]|) + units[0], Sized(units[1..]), tail);
      UnitsCut(units[1..], tail);
      assert units == [units[0]] + units[1..];
    }
  }

  // ---------- Single-time aggregation ----------

  /** Without decoding order numbers the units come out as they went in. */
  lemma StapAArrives(u: Unpacker, b: u8, units: seq<Bytes>)
    requires b % 32 == 24 && Sizeable(units)
    ensures UnpackPayload(u, [b] + Sized(units)) == Outcome(u.EmitAll(units), true)
  {
    UnitsRead(units);
    var payload := [b] + Sized(units);
    assert payload[0] == b && payload[1..] == Sized(units);
    hide StapUnits, Sized;
  }

  /** Of a payload that falls short the units before the cut come out, and the packet is reported broken. */
  lemma StapACut(u: Unpacker, b: u8, units: seq<Bytes>, tail: Bytes)
    requires b % 32 == 24 && Sizeable(units) && FallsShort(tail)
    ensures UnpackPayload(u, [b] + (Sized(units) + tail)) == Outcome(u.EmitAll(units), false)
  {
    hide StapUnits, Sized, Sizeable, FallsShort;
    UnitsCut(units, tail);
    var payload := [b] + (Sized(units) + tail);
    assert payload[0] == b && payload[1..] == Sized(units) + tail;
  }

  /** With a decoding order number they do if and only if the upper bits of the type byte are zero. */
  lemma StapBArrives(u: Unpacker, b: u8, don: u16, units: seq<Bytes>)
    requires b % 32 == 25 && Sizeable(units)
    ensures UnpackPayload(u, [b] + U16Be(don) + Sized(units)) == Outcome(u.EmitAll(units), true) <==> b / 32 == 0
  {
    UnitsRead(units);
    var payload := [b] + U16Be(don) + Sized(units);
    assert payload[0] == b && payload[3..] == Sized(units) && payload[1..] == U16Be(don) + Sized(units);
    hide StapUnits, Sized, Sizeable, U16Be;
    assert b / 32 == 0 <==> b == STAP_B;
    if b != STAP_B {
      var (others, ok) := StapUnits(payload[1..]);
      if UnpackPayload(u, payload) == Outcome(u.EmitAll(units), true) {
        EmitAllTells(u, others, units);
        UnitsAreAll(payload[1..]);
        assert false;
      }
    }
  }

  lemma ApArrives(u: Unpacker, b: u8, c: u8, units: seq<Bytes>)
    requires b / 2 % 64 == 48 && Sizeable(units)
    ensures H265.UnpackPayload(u, [b, c] + Sized(units)) == Outcome(u.EmitAll(units), true)
  {
    UnitsRead(units);
    var payload := [b, c] + Sized(units);
    assert payload[0] == b && payload[2..] == Sized(units);
    hide StapUnits, Sized;
  }

  lemma ApCut(u: Unpacker, b: u8, c: u8, units: seq<Bytes>, tail: Bytes)
    requires b / 2 % 64 == 48 && Sizeable(units) && FallsShort(tail)
    ensures H265.UnpackPayload(u, [b, c] + (Sized(units) + tail)) == Outcome(u.EmitAll(units), false)
  {
    hide StapUnits, Sized, Sizeable, FallsShort;
    UnitsCut(units, tail);
    var payload := [b, c] + (Sized(units) + tail);
    assert payload[0] == b && payload[2..] == Sized(units) + tail;
  }

  // ---------- Multi-time aggregation ----------

  /** A unit with the difference of its decoding order number and its timestamp offset. */
  datatype Timed = Timed(dond: u8, offset: u24, unit: Bytes)

  /** The offset's two or three bytes and the size with all that is counted in it. */
  predicate Encodable(width: nat, x: Timed) {
    (width == 2 || width == 3) && (width == 2 ==> x.offset < 0x1_0000) && |x.unit| + width + 1 < 0x1_0000
  }

  function OffsetBytes(width: nat, offset: u24): Bytes
    requires width == 2 ==> offset < 0x1_0000
  {
    if width == 2 then U16Be(offset) else U24Be(offset)
  }

  function TimedBytes(width: nat, xs: seq<Timed>): Bytes
    requires forall x | x in xs :: Encodable(width, x)
  {
    if xs == [] then []
    else
      assert Encodable(width, xs[0]);
      U16Be(|xs[0].unit| + width + 1) + [xs[0].dond] + OffsetBytes(width, xs[0].offset) + xs[0].unit + TimedBytes(width, xs[1..])
  }

  function Units(xs: seq<Timed>): seq<Bytes> {
    if xs == [] then [] else [xs[0].unit] + Units(xs[1..])
  }

  lemma TimedFirst(width: nat, x: Timed, rest: Bytes, t: u8)
    requires Encodable(width, x) && (ReadsOffset(t) ==> OffsetWidth(t) == width)
    ensures var b := U16Be(|x.unit| + width + 1) + [x.dond] + OffsetBytes(width, x.offset) + x.unit + rest;
            MtapUnit(b, t) == if ReadsOffset(t) && x.offset != 0 then Some((x.unit, rest)) else None
  {
    var size := |x.unit| + width + 1;
    var b := U16Be(size) + [x.dond] + OffsetBytes(width, x.offset) + x.unit + rest;
    U16RoundTrip(size);
    assert b[..2] == U16Be(size);
    if t == MTAP_16 {
      U16RoundTrip(x.offset);
      assert b[3..][..2] == U16Be(x.offset);
    } else if t == MTAP_24 {
      U24RoundTrip(x.offset);
      assert b[3..][..3] == U24Be(x.offset);
    }
    hide FromU16Be, FromU24Be, U16Be, U24Be;
    if OffsetWidth(t) == width {
      var tail := b[3 + width..];
      assert tail == x.unit + rest;
      TakeDrop(x.unit, rest);
    }
  }

  /** The only type bytes the unpacker reads an offset for. */
  predicate ReadsOffset(t: u8) {
    t == MTAP_16 || t == MTAP_24
  }

  predicate NoneZero(xs: seq<Timed>) {
    forall x | x in xs :: x.offset != 0
  }

  lemma NoneZeroFirst(x: Timed, rest: seq<Timed>)
    ensures NoneZero([x] + rest) <==> x.offset != 0 && NoneZero(rest)
  {
    assert x in [x] + rest;
    assert forall y | y in rest :: y in [x] + rest;
  }

  lemma {:induction false} TimedRead(width: nat, xs: seq<Timed>, t: u8)
    requires forall x | x in xs :: Encodable(width, x)
    requires ReadsOffset(t) ==> OffsetWidth(t) == width
    ensures var (units, ok) := MtapUnits(TimedBytes(width, xs), t);
            (ok <==> xs == [] || (ReadsOffset(t) && NoneZero(xs))) && (ok ==> units == Units(xs))
    decreases |xs|
  {
    hide MtapUnit, OffsetWidth, NoneZero, Encodable;
    if xs != [] {
      var x, rest := xs[0], xs[1..];
      assert xs == [x] + rest && Encodable(width, x);
      NoneZeroFirst(x, rest);
      TimedFirst(width, x, TimedBytes(width, rest), t);
      TimedUnfolds(width, xs);
      hide TimedBytes;
      var b := TimedBytes(width, xs);
      assert MtapUnit(b, t) == if ReadsOffset(t) && x.offset != 0 then Some((x.unit, TimedBytes(width, rest))) else None;
      if MtapUnit(b, t).Some? {
        TimedRead(width, rest, t);
        if rest == [] {
          assert NoneZero(rest) by { NoZeroAtAll(rest); }
        }
      }
    }
  }

  lemma NoZeroAtAll(xs: seq<Timed>)
    requires xs == []
    ensures NoneZero(xs)
  {
  }

  lemma TimedUnfolds(width: nat, xs: seq<Timed>)
    requires xs != [] && forall x | x in xs :: Encodable(width, x)
    ensures Encodable(width, xs[0])
    ensures TimedBytes(width, xs)
         == U16Be(|xs[0].unit| + width + 1) + [xs[0].dond] + OffsetBytes(width, xs[0].offset) + xs[0].unit + TimedBytes(width, xs[1..])
    ensures TimedBytes(width, xs) != []
  {
    hide U16Be;
  }

  /**
  Units with timestamp offsets come out as they went in if and only if the upper bits of the type byte are zero and no
  offset is.
   */
  lemma MtapArrives(u: Unpacker, b: u8, base: u16, width: nat, xs: seq<Timed>)
    requires (b % 32 == 26 && width == 2) || (b % 32 == 27 && width == 3)
    requires forall x | x in xs :: Encodable(width, x)
    ensures UnpackPayload(u, [b] + U16Be(base) + TimedBytes(width, xs)) == Outcome(u.EmitAll(Units(xs)), true)
            <==> xs == [] || (b / 32 == 0 && NoneZero(xs))
  {
    var payload := [b] + U16Be(base) + TimedBytes(width, xs);
    assert payload[0] == b && payload[3..] == TimedBytes(width, xs);
    hide MtapUnits, TimedBytes, U16Be, UnpackPayload, Units, Encodable, NoneZero;
    TimedRead(width, xs, b);
    MtapUnpacked(u, payload);
    assert b / 32 == 0 <==> ReadsOffset(b);
  }

  lemma MtapUnpacked(u: Unpacker, payload: Bytes)
    requires |payload| >= 3 && (payload[0] % 32 == 26 || payload[0] % 32 == 27)
    ensures UnpackPayload(u, payload)
         == Outcome(u.EmitAll(MtapUnits(payload[3..], payload[0]).0), MtapUnits(payload[3..], payload[0]).1)
  {
    hide MtapUnits;
  }
}
