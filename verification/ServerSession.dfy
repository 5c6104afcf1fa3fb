/**
The receiving side of a session (protocol/rtmp/src/session/server_session.rs:170-208): buffer
what arrived, then take batches of messages until none is left.
 */
module ServerSession {
  import opened Bytesio
  import opened Chunk
  import U = ChunkUnpacketizer
  import opened ChunkSplit

  /** A batch ends with the SET_CHUNK_SIZE in it, if there is one. */
  predicate OnlyLastSetsSize(cs: seq<ChunkInfo>) {
    forall i | 0 <= i < |cs| - 1 :: cs[i].header.typeId != SET_CHUNK_SIZE
  }

  predicate EndsWithSize(cs: seq<ChunkInfo>) {
    cs != [] && cs[|cs| - 1].header.typeId == SET_CHUNK_SIZE
  }

  /** What is left to pump after a batch has been handled. */
  ghost predicate Continues(r: U.Reader, batch: seq<ChunkInfo>, r': U.Reader) {
    && U.Pump(r).chunks == batch + U.Pump(r').chunks
    && U.Pump(r).r == U.Pump(r').r
    && U.Pump(r).status == U.Pump(r').status
  }

  /** What a batch, or the failure to read one, says about everything there is to pump. */
  ghost predicate Accounts(r: U.Reader, done: seq<ChunkInfo>, res: Result<U.UnpackResult>, r': U.Reader) {
    match res
    case Ok(Chunks(cs)) =>
      && done <= cs && cs != [] && OnlyLastSetsSize(cs)
      && (|r'.buf| < |r.buf| || (|r'.buf| == |r.buf| && U.Rank(r'.state) <= U.Rank(r.state)))
      && (|done| < |cs| ==> |r'.buf| < |r.buf| || U.Rank(r'.state) < U.Rank(r.state))
      && (match U.Apply(r', cs[|cs| - 1])
          case Ok(r'') => Continues(r, cs[|done|..], if EndsWithSize(cs) then r'' else r')
          case Err(_) => EndsWithSize(cs) ==> U.Pump(r).chunks == cs[|done|..] && U.Pump(r).status == U.Broken)
    case Ok(_) => false
    case Err(EmptyChunks) => done == [] && U.Pump(r).chunks == [] && U.Pump(r).r == r' && U.Pump(r).status == U.Waiting
    case Err(_) => U.Pump(r).status == U.Broken
  }

  lemma {:induction false} BatchPumped(r: U.Reader, done: seq<ChunkInfo>)
    requires forall c | c in done :: c.header.typeId != SET_CHUNK_SIZE
    ensures var (res, r') := U.RunChunks(r, done); Accounts(r, done, res, r')
    decreases |r.buf|, U.Rank(r.state)
  {
    hide U.Pump, U.RunChunk, U.Apply;
    U.PumpByChunk(r);
    match U.RunChunk(r)
    case Delivered(r', c) =>
      UnlessSize(r', c);
      if c.header.typeId != SET_CHUNK_SIZE {
        BatchPumped(r', done + [c]);
        var (res, last) := U.RunChunks(r', done + [c]);
        hide U.RunChunks;
        OneMore(r, done, r', c, res, last);
      } else {
        assert (done + [c])[|done|..] == [c];
      }
    case Starved(r') =>
      StarvedAgain(r);
      if done != [] {
        UnlessSize(r', done[|done| - 1]);
      }
      assert done[|done|..] == [];
    case Failed(_, _) =>
  }

  lemma OneMore(r: U.Reader, done: seq<ChunkInfo>, r': U.Reader, c: ChunkInfo, res: Result<U.UnpackResult>, last: U.Reader)
    requires U.RunChunk(r) == U.Delivered(r', c) && c.header.typeId != SET_CHUNK_SIZE
    requires Continues(r, [c], r')
    requires Accounts(r', done + [c], res, last)
    ensures Accounts(r, done, res, last)
  {
    hide U.Pump, U.Apply;
    if res.Ok? {
      var cs := res.value.chunks;
      assert cs[|done|..] == [c] + cs[|done| + 1..];
    }
  }

  // Once the bytes have run out, looking again changes nothing.
  lemma {:induction false} StarvedAgain(r: U.Reader)
    requires U.RunChunk(r).Starved?
    ensures var r' := U.RunChunk(r).r;
            U.Pump(r').chunks == [] && U.Pump(r').r == r' && U.Pump(r').status == U.Waiting
    decreases |r.buf|, U.Rank(r.state)
  {
    hide U.Step;
    U.StepDecreases(r);
    match U.Step(r)
    case Advanced(r') => StarvedAgain(r');
    case Starved(r') =>
      StepFed(r, []);
      assert Feed(r, []) == r && Feed(r', []) == r';
      if U.LosesHeaderByte(r) {
        LosesAll(r);
      }
    case _ =>
  }

  lemma LosesAll(r: U.Reader)
    requires U.LosesHeaderByte(r)
    ensures U.Step(r).r == r.(buf := []) && U.Step(r.(buf := [])) == U.Starved(r.(buf := []))
  {
  }

  class ServerSession {
    const unpacketizer: U.ChunkUnpacketizer
    // The messages handed to the session's message handlers.
    var handled: seq<ChunkInfo>

    constructor ()
      ensures fresh(unpacketizer) && fresh(unpacketizer.reader)
      ensures unpacketizer.Model() == U.NEW_READER && handled == []
    {
      unpacketizer := new U.ChunkUnpacketizer();
      handled := [];
    }

    /** One message: SET_CHUNK_SIZE is parsed and applied, every other type is handed on. */
    method ProcessMessage(c: ChunkInfo) returns (ok: bool)
      requires unpacketizer.chunkReadState != U.Finish
      modifies this, unpacketizer
      ensures handled == old(handled) + [c]
      ensures ok == U.Apply(old(unpacketizer.Model()), c).Ok?
      ensures ok ==> unpacketizer.Model() == U.Apply(old(unpacketizer.Model()), c).value
      ensures !ok ==> unpacketizer.Model() == old(unpacketizer.Model())
    {
      handled := handled + [c];
      if c.header.typeId == SET_CHUNK_SIZE {
        if |c.payload| < 4 {
          return false;
        }
        unpacketizer.UpdateMaxChunkSize(FromU32Be(c.payload[..4]));
      }
      return true;
    }

    /** The messages of one batch, in order. */
    method ProcessBatch(chunks: seq<ChunkInfo>) returns (ok: bool)
      requires unpacketizer.chunkReadState != U.Finish
      requires chunks != [] && OnlyLastSetsSize(chunks)
      modifies this, unpacketizer
      ensures unpacketizer.chunkReadState != U.Finish
      ensures handled == old(handled) + chunks
      ensures var r := old(unpacketizer.Model());
              var applied := U.Apply(r, chunks[|chunks| - 1]);
              ok == applied.Ok? && unpacketizer.Model() == if ok then applied.value else r
    {
      ghost var last := chunks[|chunks| - 1];
      for i := 0 to |chunks|
        invariant unpacketizer.chunkReadState != U.Finish
        invariant handled == old(handled) + chunks[..i]
        invariant i < |chunks| ==> unpacketizer.Model() == old(unpacketizer.Model())
        invariant i == |chunks| ==> U.Apply(old(unpacketizer.Model()), last) == Ok(unpacketizer.Model())
      {
        assert chunks[..i] + [chunks[i]] == chunks[..i + 1];
        var parsed := ProcessMessage(chunks[i]);
        if !parsed {
          assert chunks[..i + 1] == chunks;
          return false;
        }
      }
      assert chunks[..|chunks|] == chunks;
      return true;
    }

    /**
    Handles everything the received bytes complete. When the session breaks it has handled
    a prefix of what it would have; the batch being read at that point is dropped.
     */
    method OnReceive(data: Bytes) returns (ok: bool)
      requires unpacketizer.chunkReadState != U.Finish
      modifies this, unpacketizer, unpacketizer.reader
      ensures unpacketizer.chunkReadState != U.Finish
      ensures var p := U.Pump(Feed(old(unpacketizer.Model()), data));
              && ok == (p.status == U.Waiting)
              && (ok ==> handled == old(handled) + p.chunks && unpacketizer.Model() == p.r)
              && old(handled) <= handled <= old(handled) + p.chunks
    {
      hide U.Pump, U.RunChunks, U.RunChunk, U.Apply;
      unpacketizer.ExtendData(data);
      ghost var start, p := handled, U.Pump(unpacketizer.Model());
      assert p == U.Pump(Feed(old(unpacketizer.Model()), data));
      while true
        invariant unpacketizer.chunkReadState != U.Finish
        invariant start <= handled
        invariant start + p.chunks == handled + U.Pump(unpacketizer.Model()).chunks
        invariant p.r == U.Pump(unpacketizer.Model()).r && p.status == U.Pump(unpacketizer.Model()).status
        decreases |unpacketizer.reader.buffer|, U.Rank(unpacketizer.chunkReadState)
      {
        ghost var before, sofar := unpacketizer.Model(), handled;
        BatchPumped(before, []);
        var res := unpacketizer.ReadChunks();
        match res
        case Ok(Chunks(chunks)) =>
          assert chunks[0..] == chunks;
          assert Accounts(before, [], res, unpacketizer.Model());
          UnlessSize(unpacketizer.Model(), chunks[|chunks| - 1]);
          var parsed := ProcessBatch(chunks);
          if !parsed {
            return false;
          }
        case Err(EmptyChunks) =>
          return true;
        case _ =>
          return false;
      }
    }
  }

  lemma UnlessSize(r: U.Reader, c: ChunkInfo)
    ensures c.header.typeId != SET_CHUNK_SIZE ==> U.Apply(r, c) == Ok(r)
    ensures U.Apply(r, c).Ok? ==> U.Apply(r, c).value.buf == r.buf && U.Apply(r, c).value.state == r.state
  {
  }
}
