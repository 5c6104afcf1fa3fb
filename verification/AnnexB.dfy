/**
Annex B byte streams: NAL units behind start codes, and the splitter shared by the RTP
packers (protocol/rtsp/src/rtp/utils.rs) and the RTSP to RTMP remuxer
(protocol/rtmp/src/remuxer/rtsp2rtmp.rs).
 */
module AnnexB {
  import opened Bytesio

  const START_CODE: Bytes := [0, 0, 0, 1]

  predicate StartCodeAt(s: Bytes, i: int) {
    0 <= i && i + 3 <= |s| && s[i] == 0 && s[i + 1] == 0 && s[i + 2] == 1
  }

  predicate NoStartCode(s: Bytes) {
    forall i: nat | i + 3 <= |s| :: !StartCodeAt(s, i)
  }

  function FindFrom(s: Bytes, i: nat): Option<nat>
    requires i <= |s|
    decreases |s| - i
  {
    if StartCodeAt(s, i) then Some(i)
    else if i == |s| then None
    else FindFrom(s, i + 1)
  }

  /** The position of the first start code. */
  function FindStartCode(s: Bytes): Option<nat> {
    FindFrom(s, 0)
  }

  ghost predicate FirstFrom(s: Bytes, i: nat, p: Option<nat>) {
    match p
    case Some(k) => i <= k && StartCodeAt(s, k) && forall j | i <= j < k :: !StartCodeAt(s, j)
    case None => forall j | i <= j :: !StartCodeAt(s, j)
  }

  lemma {:induction false} FindsFirst(s: Bytes, i: nat)
    requires i <= |s|
    ensures FirstFrom(s, i, FindFrom(s, i))
    decreases |s| - i
  {
    if !StartCodeAt(s, i) && i < |s| {
      FindsFirst(s, i + 1);
    }
  }

  // Only one position can be the first.
  lemma FirstIsFound(s: Bytes, p: Option<nat>)
    requires FirstFrom(s, 0, p)
    ensures FindStartCode(s) == p
  {
    FindsFirst(s, 0);
  }

  /** Back over the zero bytes in front of position `n`. */
  function TrimZeros(s: Bytes, n: nat): (m: nat)
    requires n <= |s|
    ensures m <= n && (m > 0 ==> s[m - 1] != 0)
    ensures forall k | m <= k < n :: s[k] == 0
  {
    if n > 0 && s[n - 1] == 0 then TrimZeros(s, n - 1) else n
  }

  /** Where the NAL unit behind the start code at `first` ends. */
  function UnitEnd(s: Bytes, first: nat): (e: nat)
    requires StartCodeAt(s, first)
    ensures first + 3 <= e <= |s|
  {
    FindsFirst(s[first + 3..], 0);
    match FindStartCode(s[first + 3..])
    case Some(d) => TrimZeros(s, first + 3 + d)
    case None => |s|
  }

  /** The NAL units of a byte stream. */
  function Split(s: Bytes): seq<Bytes>
    decreases |s|
  {
    FindsFirst(s, 0);
    match FindStartCode(s)
    case None => []
    case Some(first) =>
      var e := UnitEnd(s, first);
      [s[first + 3..e]] + Split(s[e..])
  }

  lemma SplitTurn(s: Bytes)
    ensures FindStartCode(s).None? ==> Split(s) == []
    ensures FindStartCode(s).Some? ==>
              StartCodeAt(s, FindStartCode(s).value)
              && var first := FindStartCode(s).value;
                 Split(s) == [s[first + 3..UnitEnd(s, first)]] + Split(s[UnitEnd(s, first)..])
    ensures s == [] ==> FindStartCode(s).None?
  {
    FindsFirst(s, 0);
    hide UnitEnd;
  }

  // ---------- Joining and splitting ----------

  function Zeros(n: nat): (z: Bytes)
    ensures |z| == n && forall i | 0 <= i < n :: z[i] == 0
  {
    if n == 0 then [] else [0] + Zeros(n - 1)
  }

  /** A NAL unit and the number of zero bytes in front of its three-byte start code. */
  datatype Unit = Unit(zeros: nat, nalu: Bytes)

  function Join(us: seq<Unit>): Bytes {
    if us == [] then [] else Zeros(us[0].zeros) + [0, 0, 1] + us[0].nalu + Join(us[1..])
  }

  function Nalus(us: seq<Unit>): (ns: seq<Bytes>)
    ensures |ns| == |us| && forall i | 0 <= i < |us| :: ns[i] == us[i].nalu
  {
    if us == [] then [] else [us[0].nalu] + Nalus(us[1..])
  }

  predicate TrailsZero(n: Bytes) {
    n != [] && n[|n| - 1] == 0
  }

  /** No start code inside a unit, and no zero at the end of any unit but the last. */
  predicate Separable(ns: seq<Bytes>) {
    && (forall i | 0 <= i < |ns| :: NoStartCode(ns[i]))
    && (forall i | 0 <= i < |ns| - 1 :: !TrailsZero(ns[i]))
  }

  // A start code inside a slice is one of the whole.
  lemma SliceStartCode(s: Bytes, lo: nat, hi: nat, i: int)
    requires lo <= hi <= |s| && 0 <= i
    ensures StartCodeAt(s[lo..hi], i) <==> StartCodeAt(s, lo + i) && lo + i + 3 <= hi
  {
  }

  lemma UnitIsClean(s: Bytes, first: nat)
    requires StartCodeAt(s, first)
    ensures var e := UnitEnd(s, first);
            var unit, next := s[first + 3..e], FindStartCode(s[first + 3..]);
            && NoStartCode(unit)
            && (next.None? ==> s[e..] == [])
            && (next.Some? ==> !TrailsZero(unit) && FindStartCode(s[e..]).Some?)
  {
    var e, tail := UnitEnd(s, first), s[first + 3..];
    var unit, next := s[first + 3..e], FindStartCode(tail);
    FindsFirst(tail, 0);
    FindsFirst(s[e..], 0);
    forall i: nat | i + 3 <= |unit| ensures !StartCodeAt(unit, i) {
      SliceStartCode(s, first + 3, e, i);
      SliceStartCode(s, first + 3, |s|, i);
      assert s[first + 3..|s|] == tail;
    }
    if next.Some? {
      var k := first + 3 + next.value;
      assert StartCodeAt(s, k);
      SliceStartCode(s, e, |s|, k - e);
      assert s[e..|s|] == s[e..];
      assert StartCodeAt(s[e..], k - e);
    }
  }

  // Everything the splitter hands out is separable, whatever it was given.
  lemma {:induction false} SplitIsSeparable(s: Bytes)
    ensures Separable(Split(s))
    ensures FindStartCode(s).Some? ==> Split(s) != []
    decreases |s|
  {
    hide FindStartCode, UnitEnd, Separable, Split, NoStartCode, TrailsZero;
    SplitTurn(s);
    NothingToSplit();
    match FindStartCode(s)
    case None => NothingIsSeparable();
    case Some(first) =>
      var e := UnitEnd(s, first);
      UnitIsClean(s, first);
      SplitIsSeparable(s[e..]);
      OneMoreSeparable(s[first + 3..e], Split(s[e..]));
  }

  lemma NothingIsSeparable()
    ensures Separable([])
  {
  }

  lemma OneMoreSeparable(unit: Bytes, units: seq<Bytes>)
    requires NoStartCode(unit) && Separable(units) && (units != [] ==> !TrailsZero(unit))
    ensures Separable([unit] + units)
  {
    hide NoStartCode, TrailsZero;
  }

  lemma NothingToSplit()
    ensures Split([]) == []
  {
  }

  // The first start code of a joined stream is the one in front of its first unit.
  lemma JoinStarts(us: seq<Unit>)
    requires us != []
    ensures FindStartCode(Join(us)) == Some(us[0].zeros) && StartCodeAt(Join(us), us[0].zeros)
    ensures Join(us)[us[0].zeros + 3..] == us[0].nalu + Join(us[1..])
  {
    var z, tail := us[0].zeros, us[0].nalu + Join(us[1..]);
    JoinParts(us);
    hide Join, Zeros, FindStartCode;
    CodeBehindZeros(z, tail);
  }

  lemma JoinParts(us: seq<Unit>)
    requires us != []
    ensures Join(us) == Zeros(us[0].zeros) + [0, 0, 1] + (us[0].nalu + Join(us[1..]))
  {
    hide Zeros;
    Concat3(Zeros(us[0].zeros) + [0, 0, 1], us[0].nalu, Join(us[1..]));
  }

  lemma CodeBehindZeros(z: nat, tail: Bytes)
    ensures var s := Zeros(z) + [0, 0, 1] + tail;
            FindStartCode(s) == Some(z) && StartCodeAt(s, z) && s[z + 3..] == tail
  {
    hide Zeros, FindStartCode;
    var s := Zeros(z) + [0, 0, 1] + tail;
    assert StartCodeAt(s, z);
    forall j: nat | j < z ensures !StartCodeAt(s, j) {
      assert s[j + 2] == 0;
    }
    FirstIsFound(s, Some(z));
  }

  // Behind a separable unit the next start code is found where the next unit has it.
  lemma NextStarts(n: Bytes, j: Bytes, z: nat)
    requires NoStartCode(n) && !TrailsZero(n)
    requires FindStartCode(j) == Some(z)
    ensures FindStartCode(n + j) == Some(|n| + z)
  {
    FindsFirst(j, 0);
    hide NoStartCode, TrailsZero, FindStartCode;
    forall i: nat | i < |n| + z ensures !StartCodeAt(n + j, i) {
      NoneBefore(n, j, i);
    }
    SliceStartCode(n + j, |n|, |n + j|, z);
    assert (n + j)[|n|..|n + j|] == j;
    FirstIsFound(n + j, Some(|n| + z));
  }

  lemma {:induction false} TrimsTo(n: Bytes, j: Bytes, z: nat)
    requires !TrailsZero(n) && z <= |j| && forall k | 0 <= k < z :: j[..z][k] == 0
    ensures TrimZeros(n + j, |n| + z) == |n|
  {
    if z > 0 {
      assert (n + j)[|n| + z - 1] == j[..z][z - 1];
      assert forall k | 0 <= k < z - 1 :: j[..z - 1][k] == j[..z][k];
      TrimsTo(n, j, z - 1);
    }
  }

  lemma NoneBefore(n: Bytes, j: Bytes, i: nat)
    requires NoStartCode(n) && !TrailsZero(n)
    requires i >= |n| ==> !StartCodeAt(j, i - |n|)
    ensures !StartCodeAt(n + j, i)
  {
    SliceStartCode(n + j, 0, |n|, i);
    assert (n + j)[0..|n|] == n;
    if i >= |n| {
      SliceStartCode(n + j, |n|, |n + j|, i - |n|);
      assert (n + j)[|n|..|n + j|] == j;
    } else {
      assert (n + j)[|n| - 1] == n[|n| - 1];
    }
  }

  // The end of a unit depends only on what follows its start code.
  lemma UnitEndAt(s: Bytes, z: nat, n: Bytes, j: Bytes)
    requires StartCodeAt(s, z) && s[z + 3..] == n + j
    requires match FindStartCode(n + j)
             case Some(d) => d <= |n + j| && TrimZeros(n + j, d) == |n|
             case None => j == []
    ensures UnitEnd(s, z) == z + 3 + |n|
  {
    if FindStartCode(n + j).Some? {
      TrimShifted(s, z + 3, FindStartCode(n + j).value);
    }
  }

  lemma NextUnitStarts(us: seq<Unit>)
    requires |us| > 1 && NoStartCode(us[0].nalu) && !TrailsZero(us[0].nalu)
    ensures var n, j, w := us[0].nalu, Join(us[1..]), us[1].zeros;
            w <= |j| && FindStartCode(n + j) == Some(|n| + w) && TrimZeros(n + j, |n| + w) == |n|
  {
    var n, j, w := us[0].nalu, Join(us[1..]), us[1].zeros;
    JoinStarts(us[1..]);
    assert j[..w] == Zeros(w);
    hide Join, NoStartCode, TrailsZero, FindStartCode, Zeros;
    NextStarts(n, j, w);
    TrimsTo(n, j, w);
  }

  lemma StartCodeInside(s: Bytes, z: nat)
    requires StartCodeAt(s, z)
    ensures z + 3 <= |s|
  {
  }

  lemma SlicedBehind(s: Bytes, i: nat, n: Bytes, j: Bytes)
    requires i <= |s| && s[i..] == n + j
    ensures i + |n| <= |s| && s[i..i + |n|] == n && s[i + |n|..] == j
  {
    TakeDrop(n, j);
    assert s[i..i + |n|] == s[i..][..|n|] && s[i + |n|..] == s[i..][|n|..];
  }

  lemma LastUnit(us: seq<Unit>)
    requires |us| == 1 && NoStartCode(us[0].nalu)
    ensures Join(us[1..]) == [] && us[0].nalu + Join(us[1..]) == us[0].nalu && FindStartCode(us[0].nalu) == None
  {
    FirstIsFound(us[0].nalu, None);
  }

  // What stands behind the start code of a unit in a joined stream.
  lemma BehindStart(us: seq<Unit>)
    requires us != [] && NoStartCode(us[0].nalu) && (|us| > 1 ==> !TrailsZero(us[0].nalu))
    ensures var n, j := us[0].nalu, Join(us[1..]);
            match FindStartCode(n + j)
            case Some(d) => d <= |n + j| && TrimZeros(n + j, d) == |n|
            case None => j == []
  {
    hide Join, NoStartCode, TrailsZero, FindStartCode, Zeros, TrimZeros;
    if |us| == 1 {
      LastUnit(us);
    } else {
      NextUnitStarts(us);
    }
  }

  // One unit off the front of a joined stream.
  lemma UnitOfJoin(us: seq<Unit>)
    requires us != [] && NoStartCode(us[0].nalu) && (|us| > 1 ==> !TrailsZero(us[0].nalu))
    ensures FindStartCode(Join(us)) == Some(us[0].zeros) && StartCodeAt(Join(us), us[0].zeros)
    ensures var e := UnitEnd(Join(us), us[0].zeros);
            Join(us)[us[0].zeros + 3..e] == us[0].nalu && Join(us)[e..] == Join(us[1..])
  {
    hide Join, NoStartCode, TrailsZero, FindStartCode, StartCodeAt, Zeros, TrimZeros, UnitEnd;
    var s, z, n, j := Join(us), us[0].zeros, us[0].nalu, Join(us[1..]);
    JoinStarts(us);
    StartCodeInside(s, z);
    BehindStart(us);
    UnitEndAt(s, z, n, j);
    SlicedBehind(s, z + 3, n, j);
  }

  lemma {:induction false} JoinThenSplit(us: seq<Unit>)
    requires Separable(Nalus(us))
    ensures Split(Join(us)) == Nalus(us)
  {
    if us == [] {
      NothingToSplit();
    } else {
      assert NoStartCode(Nalus(us)[0]) && (|us| > 1 ==> !TrailsZero(Nalus(us)[0]));
      assert Separable(Nalus(us[1..])) by {
        assert forall i | 0 <= i < |us| - 1 :: Nalus(us[1..])[i] == Nalus(us)[i + 1];
      }
      UnitOfJoin(us);
      hide Separable, NoStartCode, TrailsZero, StartCodeAt, FindStartCode, UnitEnd, Join;
      JoinThenSplit(us[1..]);
    }
  }

  lemma {:induction false} TrimShifted(s: Bytes, k: nat, n: nat)
    requires k + n <= |s| && k > 0 && s[k - 1] != 0
    ensures TrimZeros(s, k + n) == k + TrimZeros(s[k..], n)
  {
    if n > 0 {
      assert s[k..][n - 1] == s[k + n - 1];
      if s[k + n - 1] == 0 {
        TrimShifted(s, k, n - 1);
      }
    }
  }

  /** Splitting a joined stream returns its units exactly when they are separable. */
  lemma SplitOfJoin(us: seq<Unit>)
    ensures Split(Join(us)) == Nalus(us) <==> Separable(Nalus(us))
  {
    if Separable(Nalus(us)) {
      JoinThenSplit(us);
    } else {
      SplitIsSeparable(Join(us));
    }
  }

  // ---------- Four-byte start codes ----------

  /** Units behind four-byte start codes. */
  function ToAnnexB(nalus: seq<Bytes>): Bytes {
    if nalus == [] then [] else START_CODE + nalus[0] + ToAnnexB(nalus[1..])
  }

  function LongCodes(nalus: seq<Bytes>): seq<Unit> {
    if nalus == [] then [] else [Unit(1, nalus[0])] + LongCodes(nalus[1..])
  }

  lemma {:induction false} AnnexBIsJoin(nalus: seq<Bytes>)
    ensures ToAnnexB(nalus) == Join(LongCodes(nalus)) && Nalus(LongCodes(nalus)) == nalus
  {
    if nalus != [] {
      AnnexBIsJoin(nalus[1..]);
      assert Zeros(1) == [0] + Zeros(0) == [0];
      assert Zeros(1) + [0, 0, 1] == START_CODE;
      assert LongCodes(nalus)[1..] == LongCodes(nalus[1..]);
    }
  }

  lemma {:induction false} AnnexBConcat(a: seq<Bytes>, b: seq<Bytes>)
    ensures ToAnnexB(a + b) == ToAnnexB(a) + ToAnnexB(b)
  {
    if a == [] {
      assert a + b == b;
    } else {
      assert (a + b)[1..] == a[1..] + b;
      AnnexBConcat(a[1..], b);
    }
  }

  // ---------- The loop ----------

  /** The splitter of `on_rtsp_video`: `nalus` is consumed unit by unit. */
  method SplitNalus(stream: Bytes) returns (naluVec: seq<Bytes>)
    ensures naluVec == Split(stream)
  {
    hide Split, UnitEnd;
    naluVec := [];
    var nalus := stream;
    while nalus != []
      invariant naluVec + Split(nalus) == Split(stream)
      decreases |nalus|
    {
      SplitTurn(nalus);
      match FindStartCode(nalus)
      case Some(firstPos) =>
        var end := NextEnd(nalus, firstPos);
        var nalu := nalus[firstPos + 3..end];
        Concat3(naluVec, [nalu], Split(nalus[end..]));
        naluVec := naluVec + [nalu];
        nalus := nalus[end..];
      case None =>
        break;
    }
    SplitTurn(nalus);
  }

  /** How much of `nalus` the unit behind `firstPos` takes. */
  method NextEnd(nalus: Bytes, firstPos: nat) returns (end: nat)
    requires StartCodeAt(nalus, firstPos)
    ensures end == UnitEnd(nalus, firstPos)
  {
    FindsFirst(nalus[firstPos + 3..], 0);
    match FindStartCode(nalus[firstPos + 3..])
    case Some(distance) =>
      var secondPos := firstPos + 3 + distance;
      while secondPos > 0 && nalus[secondPos - 1] == 0
        invariant 0 <= secondPos <= |nalus|
        invariant TrimZeros(nalus, secondPos) == TrimZeros(nalus, firstPos + 3 + distance)
      {
        secondPos := secondPos - 1;
      }
      end := secondPos;
    case None =>
      end := |nalus|;
  }
}
