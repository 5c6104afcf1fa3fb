/**
Split independence of the chunk reader: how the network cuts a byte stream makes no
difference to the messages, to the parser left behind or to where parsing breaks, exactly
as long as no cut falls inside a basic header of two or three bytes.
 */
module ChunkSplit {
  import opened Bytesio
  import opened Chunk
  import opened ChunkUnpacketizer

  function Feed(r: Reader, data: Bytes): Reader {
    r.(buf := r.buf + data)
  }

  /** Feeding `y` after the session has drained what it had, and feeding it beforehand, agree. */
  ghost predicate SplitAgrees(r: Reader, y: Bytes) {
    var first, whole := Pump(r), Pump(Feed(r, y));
    if first.status == Broken then
      whole.chunks == first.chunks && whole.status == Broken && whole.r == Feed(first.r, y)
    else
      var second := Pump(Feed(first.r, y));
      && whole.chunks == first.chunks + second.chunks
      && whole.r == second.r
      && whole.status == second.status
      && whole.lost == second.lost
      && whole.narrow == (first.narrow && second.narrow)
  }

  // ---------- One turn looks only at the bytes it takes ----------

  function FedOutcome(o: Outcome, y: Bytes): Outcome {
    match o
    case Advanced(r) => Advanced(Feed(r, y))
    case Delivered(r, c) => Delivered(Feed(r, y), c)
    case Starved(r) => Starved(Feed(r, y))
    case Failed(r, e) => Failed(Feed(r, y), e)
  }

  lemma StepFed(r: Reader, y: Bytes)
    ensures !Step(r).Starved? ==> Step(Feed(r, y)) == FedOutcome(Step(r), y)
    ensures !Step(r).Starved? ==> NarrowHere(Feed(r, y)) == NarrowHere(r)
    ensures Step(r).Starved? && !LosesHeaderByte(r) ==> Step(Feed(Step(r).r, y)) == Step(Feed(r, y))
    ensures Step(r).Starved? && !LosesHeaderByte(r) ==> Step(r).r.state == r.state
    ensures Step(r).Starved? && !LosesHeaderByte(r) && r.state == InBasicHeader ==> Step(r).r == r
  {
    match r.state
    case InBasicHeader => BasicHeaderFed(r, y);
    case InMessageHeader => HeaderFieldFed(r, y);
    case InExtendedTimestamp => ExtendedTimestampFed(r, y);
    case InMessagePayload => MessagePayloadFed(r, y);
    case Finish =>
  }

  // The slices a header is read through, for the widths that occur.
  lemma HeaderSlices(buf: Bytes, y: Bytes)
    ensures 1 <= |buf| ==> (buf + y)[0] == buf[0] && (buf + y)[1..] == buf[1..] + y
    ensures 2 <= |buf| ==> (buf + y)[1] == buf[1] && (buf + y)[2..] == buf[2..] + y
    ensures 3 <= |buf| ==> (buf + y)[..3] == buf[..3] && (buf + y)[2] == buf[2] && (buf + y)[3..] == buf[3..] + y
    ensures 4 <= |buf| ==> (buf + y)[..4] == buf[..4] && (buf + y)[4..] == buf[4..] + y
  {
  }

  lemma BasicHeaderFed(r: Reader, y: Bytes)
    ensures !BasicHeader(r).Starved? ==> BasicHeader(Feed(r, y)) == FedOutcome(BasicHeader(r), y)
    ensures BasicHeader(r).Starved? && r.buf == [] ==> BasicHeader(r).r == r
  {
    ParseFed(r.buf, y);
    hide ParseBasicHeader, OnStream;
    if ParseBasicHeader(r.buf).Some? {
      var (format, csid, width) := ParseBasicHeader(r.buf).value;
      Slices(r.buf, y, width);
      OnStreamFed(r.(buf := r.buf[width..]), y, format, csid);
    }
  }

  lemma ParseFed(buf: Bytes, y: Bytes)
    ensures ParseBasicHeader(buf).Some? ==> ParseBasicHeader(buf + y) == ParseBasicHeader(buf)
  {
    HeaderSlices(buf, y);
  }

  lemma OnStreamFed(r: Reader, y: Bytes, format: Format, csid: u32)
    ensures OnStream(Feed(r, y), format, csid) == FedOutcome(OnStream(r, format, csid), y)
    ensures !OnStream(r, format, csid).Starved?
  {
  }

  lemma HeaderFieldFed(r: Reader, y: Bytes)
    ensures !HeaderField(r).Starved? ==> HeaderField(Feed(r, y)) == FedOutcome(HeaderField(r), y)
    ensures HeaderField(r).Starved? ==> HeaderField(r).r == ForgetExtension(r)
    ensures HeaderField(Feed(ForgetExtension(r), y)) == HeaderField(Feed(r, y))
  {
    var f := ForgetExtension(r);
    FullHeaderFieldFed(f, y);
    DeltaHeaderFieldFed(f, y);
    ShortHeaderFieldFed(f, y);
    hide FullHeaderField, DeltaHeaderField, ShortHeaderField;
    assert Feed(f, y) == ForgetExtension(Feed(r, y)) == ForgetExtension(Feed(f, y));
  }

  lemma KeepFed(r: Reader, y: Bytes)
    ensures forall n: nat, h, next :: n <= |r.buf| ==> Keep(Feed(r, y), n, h, next) == Feed(Keep(r, n, h, next), y)
  {
    forall n: nat, h, next | n <= |r.buf|
      ensures Keep(Feed(r, y), n, h, next) == Feed(Keep(r, n, h, next), y)
    {
      Slices(r.buf, y, n);
    }
  }

  lemma FullHeaderFieldFed(r: Reader, y: Bytes)
    ensures var o := FullHeaderField(r);
            if o.Starved? then o.r == r else FullHeaderField(Feed(r, y)) == FedOutcome(o, y)
  {
    HeaderSlices(r.buf, y);
    KeepFed(r, y);
    hide Keep, FromU24Be, FromU32Le, Extend0;
  }

  lemma DeltaHeaderFieldFed(r: Reader, y: Bytes)
    ensures var o := DeltaHeaderField(r);
            if o.Starved? then o.r == r else DeltaHeaderField(Feed(r, y)) == FedOutcome(o, y)
  {
    HeaderSlices(r.buf, y);
    KeepFed(r, y);
    hide Keep, FromU24Be, Extend12;
  }

  lemma ShortHeaderFieldFed(r: Reader, y: Bytes)
    ensures var o := ShortHeaderField(r);
            if o.Starved? then o.r == r else ShortHeaderField(Feed(r, y)) == FedOutcome(o, y)
  {
    HeaderSlices(r.buf, y);
  }

  lemma ExtendedTimestampFed(r: Reader, y: Bytes)
    ensures !ExtendedTimestamp(r).Starved? ==> ExtendedTimestamp(Feed(r, y)) == FedOutcome(ExtendedTimestamp(r), y)
    ensures ExtendedTimestamp(r).Starved? ==> ExtendedTimestamp(r).r == r
  {
    HeaderSlices(r.buf, y);
  }

  lemma MessagePayloadFed(r: Reader, y: Bytes)
    ensures !MessagePayload(r).Starved? ==> MessagePayload(Feed(r, y)) == FedOutcome(MessagePayload(r), y)
    ensures MessagePayload(r).Starved? ==> MessagePayload(r).r == r
  {
    if !MessagePayload(r).Starved? && |r.payload| <= r.header.length {
      var remaining := r.header.length - |r.payload|;
      var need := if r.header.length > r.maxChunkSize then Min(remaining, r.maxChunkSize) else remaining;
      Slices(r.buf, y, need);
    }
  }

  // ---------- Whole runs ----------

  lemma {:induction false} PumpFed(r: Reader, y: Bytes)
    requires !Pump(r).lost
    ensures SplitAgrees(r, y)
    decreases |r.buf|, Rank(r.state)
  {
    hide Step;
    StepDecreases(r);
    StepFed(r, y);
    match Step(r)
    case Advanced(r') => PumpFed(r', y);
    case Delivered(r', c) =>
      if Apply(r', c).Ok? {
        PumpFed(Apply(r', c).value, y);
      }
    case Starved(r') =>
      assert Pump(Feed(r', y)) == Pump(Feed(r, y));
    case Failed(_, _) =>
  }

  lemma DryStep(r: Reader)
    requires r.buf == []
    ensures Step(r).r.csid == r.csid && Step(r).r.buf == []
    ensures r.state == InMessageHeader && r.format == 0 ==> Step(r).Starved? && Step(r).r.state == InMessageHeader
  {
  }

  // With nothing buffered no basic header can be read.
  lemma {:induction false} DryPump(r: Reader)
    requires r.buf == []
    ensures Pump(r).r.csid == r.csid
    ensures r.state == InMessageHeader && r.format == 0 ==> Pump(r).r.state == InMessageHeader
    decreases Rank(r.state)
  {
    hide Step;
    StepDecreases(r);
    DryStep(r);
    match Step(r)
    case Advanced(r') => DryPump(r');
    case Delivered(r', c) =>
      if Apply(r', c).Ok? {
        DryPump(Apply(r', c).value);
      }
    case _ =>
  }

  // A probe that tells the two apart: one byte that is a basic header of its own.
  const PROBE: Bytes := [5]

  lemma {:induction false} LossShows(r: Reader)
    requires Pump(r).lost
    ensures Pump(Feed(r, PROBE)).r != Pump(Feed(Pump(r).r, PROBE)).r
    ensures Pump(r).status == Waiting
    decreases |r.buf|, Rank(r.state)
  {
    hide Step;
    StepDecreases(r);
    StepFed(r, PROBE);
    match Step(r)
    case Advanced(r') => LossShows(r');
    case Delivered(r', c) => LossShows(Apply(r', c).value);
    case Starved(r') => LostByteShows(r);
  }

  lemma LostByteShows(r: Reader)
    requires LosesHeaderByte(r)
    ensures Pump(Feed(r, PROBE)).r != Pump(Feed(Step(r).r, PROBE)).r
  {
    var late := Feed(Step(r).r, PROBE);
    assert late.buf[1..] == [];
    DryPump(Step(late).r);
    assert Pump(late).r.csid == 5 && Pump(late).r.state == InMessageHeader;
    var early := Feed(r, PROBE);
    if Step(early).Advanced? {
      DryPump(Step(early).r);
    }
  }

  /**
  The exact condition: every continuation parses the same whether or not the session drained
  first if and only if draining did not stop inside a basic header of two or three bytes.
   */
  lemma SplitIndependence(r: Reader)
    ensures (forall y :: SplitAgrees(r, y)) <==> !Pump(r).lost
  {
    if Pump(r).lost {
      LossShows(r);
      assert !SplitAgrees(r, PROBE);
    } else {
      forall y {
        PumpFed(r, y);
      }
    }
  }

  /** The first byte of a two-byte header is enough: drained on its own, it is gone. */
  lemma CutExample()
    ensures var r := NEW_READER.(buf := [0x40]);
            Pump(r).lost && Pump(r).r.buf == [] && !SplitAgrees(r, PROBE)
  {
    var r := NEW_READER.(buf := [0x40]);
    assert LosesHeaderByte(r);
    LossShows(r);
  }

  // ---------- Any number of cuts ----------

  /** A session that receives the pieces one by one and drains after each. */
  function PumpPieces(r: Reader, pieces: seq<Bytes>): Pumped
    decreases |pieces|
  {
    if pieces == [] then Pump(r)
    else
      var p := Pump(Feed(r, pieces[0]));
      if p.status == Broken then p
      else
        var q := PumpPieces(p.r, pieces[1..]);
        q.(chunks := p.chunks + q.chunks, narrow := p.narrow && q.narrow)
  }

  lemma {:induction false} NarrowIsNotLost(r: Reader)
    ensures Pump(r).narrow ==> !Pump(r).lost
    decreases |r.buf|, Rank(r.state)
  {
    hide Step;
    StepDecreases(r);
    match Step(r)
    case Advanced(r') => NarrowIsNotLost(r');
    case Delivered(r', c) =>
      if Apply(r', c).Ok? {
        NarrowIsNotLost(Apply(r', c).value);
      }
    case _ =>
  }

  // If the whole stream has only one-byte basic headers, no prefix of it ends inside one.
  lemma {:induction false} NarrowPrefix(r: Reader, y: Bytes)
    requires Pump(Feed(r, y)).narrow
    ensures !Pump(r).lost
    decreases |r.buf|, Rank(r.state)
  {
    hide Step;
    StepDecreases(r);
    StepFed(r, y);
    match Step(r)
    case Advanced(r') => NarrowPrefix(r', y);
    case Delivered(r', c) =>
      if Apply(r', c).Ok? {
        NarrowPrefix(Apply(r', c).value, y);
      }
    case Starved(r') =>
      if LosesHeaderByte(r) {
        LossIsNotNarrow(r, y);
        assert false;
      }
    case _ =>
  }

  lemma LossIsNotNarrow(r: Reader, y: Bytes)
    requires LosesHeaderByte(r)
    ensures !Pump(Feed(r, y)).narrow
  {
    assert r.buf[0] % 64 < 2;
    assert Feed(r, y).buf[0] == r.buf[0];
    assert !NarrowHere(Feed(r, y));
  }

  /** No drain stops inside a basic header. */
  predicate NoneLost(r: Reader, pieces: seq<Bytes>)
    decreases |pieces|
  {
    pieces != [] ==>
      var p := Pump(Feed(r, pieces[0]));
      !p.lost && (p.status == Waiting ==> NoneLost(p.r, pieces[1..]))
  }

  /**
  However a stream is cut, as long as no drain stops inside a basic header the session hands on the same messages and
  ends in the same state.
   */
  lemma {:induction false} PiecesAgree(r: Reader, pieces: seq<Bytes>)
    requires NoneLost(r, pieces)
    ensures var whole, cut := Pump(Feed(r, Flatten(pieces))), PumpPieces(r, pieces);
            && cut.chunks == whole.chunks
            && cut.status == whole.status
            && (whole.status == Waiting ==> cut.r == whole.r)
    decreases |pieces|
  {
    hide Step;
    if pieces == [] {
      assert Feed(r, []) == r;
    } else {
      var fed, rest := Feed(r, pieces[0]), Flatten(pieces[1..]);
      assert Feed(fed, rest) == Feed(r, Flatten(pieces));
      PumpFed(fed, rest);
      if Pump(fed).status == Waiting {
        PiecesAgree(Pump(fed).r, pieces[1..]);
      }
    }
  }

  /** A stream of one-byte basic headers can be cut anywhere. */
  lemma {:induction false} NarrowNoneLost(r: Reader, pieces: seq<Bytes>)
    requires Pump(Feed(r, Flatten(pieces))).narrow
    ensures NoneLost(r, pieces)
    decreases |pieces|
  {
    hide Step, Pump;
    if pieces != [] {
      var fed, rest := Feed(r, pieces[0]), Flatten(pieces[1..]);
      assert Feed(fed, rest) == Feed(r, Flatten(pieces));
      NarrowPrefix(fed, rest);
      PumpFed(fed, rest);
      if Pump(fed).status == Waiting {
        NarrowNoneLost(Pump(fed).r, pieces[1..]);
      }
    }
  }

  lemma {:induction false} BrokenIsNotLost(r: Reader)
    ensures Pump(r).status == Broken ==> !Pump(r).lost
    decreases |r.buf|, Rank(r.state)
  {
    hide Step;
    StepDecreases(r);
    match Step(r)
    case Advanced(r') => BrokenIsNotLost(r');
    case Delivered(r', c) =>
      if Apply(r', c).Ok? {
        BrokenIsNotLost(Apply(r', c).value);
      }
    case _ =>
  }

  // Draining once loses a byte exactly where draining in pieces would.
  lemma LostAfterDrain(r: Reader, y: Bytes)
    requires !Pump(r).lost
    ensures Pump(Feed(r, y)).lost <==> (Pump(r).status == Waiting && Pump(Feed(Pump(r).r, y)).lost)
  {
    PumpFed(r, y);
    BrokenIsNotLost(Feed(r, y));
    hide Pump;
  }

  function Arrived(pieces: seq<Bytes>, i: nat): Bytes
    requires i <= |pieces|
  {
    Flatten(pieces[..i])
  }

  lemma ArrivedFrom(pieces: seq<Bytes>, i: nat)
    requires 0 < i <= |pieces|
    ensures Arrived(pieces, i) == pieces[0] + Arrived(pieces[1..], i - 1)
  {
    assert pieces[..i][1..] == pieces[1..][..i - 1];
  }

  /** All that has arrived with piece `i`, drained at once, does not end inside a basic header. */
  predicate WholeAt(r: Reader, pieces: seq<Bytes>, i: nat)
    requires i <= |pieces|
  {
    !Pump(Feed(r, Arrived(pieces, i))).lost
  }

  lemma FirstWhole(r: Reader, pieces: seq<Bytes>)
    requires pieces != []
    ensures WholeAt(r, pieces, 1) <==> !Pump(Feed(r, pieces[0])).lost
  {
    hide Pump;
    assert pieces[..1] == [pieces[0]];
    FlattenOne(pieces[0]);
  }

  lemma LaterWhole(r: Reader, pieces: seq<Bytes>, i: nat)
    requires 1 < i <= |pieces| && !Pump(Feed(r, pieces[0])).lost
    ensures var p := Pump(Feed(r, pieces[0]));
            WholeAt(r, pieces, i) <==> (p.status == Broken || WholeAt(p.r, pieces[1..], i - 1))
  {
    hide Pump, Arrived;
    var fed, more := Feed(r, pieces[0]), Arrived(pieces[1..], i - 1);
    ArrivedFrom(pieces, i);
    Concat3(r.buf, pieces[0], more);
    assert Feed(fed, more) == Feed(r, Arrived(pieces, i));
    LostAfterDrain(fed, more);
  }

  /** What matters is where the cuts are in the stream, not what the drains before them made of it. */
  lemma {:induction false} NoneLostExactly(r: Reader, pieces: seq<Bytes>)
    ensures NoneLost(r, pieces) <==> forall i :: 0 < i <= |pieces| ==> WholeAt(r, pieces, i)
    decreases |pieces|
  {
    hide Pump, WholeAt;
    if pieces != [] {
      FirstWhole(r, pieces);
      if WholeAt(r, pieces, 1) {
        var p, rest := Pump(Feed(r, pieces[0])), pieces[1..];
        NoneLostExactly(p.r, rest);
        forall i | 1 < i <= |pieces|
          ensures WholeAt(r, pieces, i) <==> (p.status == Broken || WholeAt(p.r, rest, i - 1))
        {
          LaterWhole(r, pieces, i);
        }
        forall j | 0 < j <= |rest|
          ensures WholeAt(r, pieces, j + 1) <==> (p.status == Broken || WholeAt(p.r, rest, j))
        {
          LaterWhole(r, pieces, j + 1);
        }
      }
    }
  }
}
