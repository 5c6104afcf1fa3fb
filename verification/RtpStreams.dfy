/**
NAL units over RTP, whatever the codec: a codec packs a unit into payloads and unpacks payloads into frames, and what
arrives of a whole stream follows from what it does with one unit.
 */
module RtpStreams {
  import opened Bytesio
  import opened AnnexB
  import opened Rtp
  import opened RtpPacking

  // ---------- Packing a stream ----------

  function AllPayloads(packs: Bytes -> seq<Payload>, nalus: seq<Bytes>): seq<Payload> {
    if nalus == [] then [] else packs(nalus[0]) + AllPayloads(packs, nalus[1..])
  }

  /** The payloads of a stream: those in `done` and those of what is left of it. */
  function StreamWhole(packs: Bytes -> seq<Payload>, done: seq<Payload>, nalus: Bytes): seq<Payload> {
    done + AllPayloads(packs, Split(nalus))
  }

  lemma StreamStart(packs: Bytes -> seq<Payload>, nalus: Bytes)
    ensures StreamWhole(packs, [], nalus) == AllPayloads(packs, Split(nalus))
  {
  }

  // One turn of a packer's loop over the start codes.
  lemma StreamTurn(packs: Bytes -> seq<Payload>, done: seq<Payload>, nalus: Bytes)
    ensures FindStartCode(nalus).None? ==> StreamWhole(packs, done, nalus) == done
    ensures FindStartCode(nalus).Some? ==>
              StartCodeAt(nalus, FindStartCode(nalus).value) &&
              var first := FindStartCode(nalus).value;
              var e := UnitEnd(nalus, first);
              StreamWhole(packs, done, nalus) == StreamWhole(packs, done + packs(nalus[first + 3..e]), nalus[e..])
    ensures nalus == [] ==> FindStartCode(nalus).None?
  {
    SplitTurn(nalus);
    hide Split, FindStartCode, UnitEnd, StartCodeAt;
    if FindStartCode(nalus).Some? {
      var first := FindStartCode(nalus).value;
      var unit, rest := nalus[first + 3..UnitEnd(nalus, first)], Split(nalus[UnitEnd(nalus, first)..]);
      assert ([unit] + rest)[1..] == rest;
      Concat3(done, packs(unit), AllPayloads(packs, rest));
    }
  }

  // ---------- Unpacking ----------

  datatype Frame = Frame(timestamp: u32, data: Bytes)

  /** The fields of an unpacker and the frames it has handed on; a failed packet keeps both. */
  datatype Unpacker = Unpacker(sequenceNumber: u16, timestamp: u32, fuBuffer: Bytes, frames: seq<Frame>) {
    function Emit(nalu: Bytes): Unpacker {
      this.(frames := frames + [Frame(timestamp, START_CODE + nalu)])
    }

    function EmitAll(nalus: seq<Bytes>): Unpacker
      decreases |nalus|
    {
      if nalus == [] then this else Emit(nalus[0]).EmitAll(nalus[1..])
    }
  }

  datatype Outcome = Outcome(u: Unpacker, ok: bool)

  type Unpacking = (Unpacker, Bytes) -> Outcome

  /** `unpack`: one datagram. */
  function UnpackBytes(unpacks: Unpacking, u: Unpacker, b: Bytes): Outcome {
    match Unmarshal(b)
    case Ok(p) => unpacks(u.(timestamp := p.header.timestamp, sequenceNumber := p.header.seqNumber), p.payload)
    case Err(_) => Outcome(u, false)
  }

  /** Datagrams in order, up to the first that fails. */
  function Receive(unpacks: Unpacking, u: Unpacker, packets: seq<Packet>): Outcome
    decreases |packets|
  {
    if packets == [] then Outcome(u, true)
    else
      var o := UnpackBytes(unpacks, u, Marshal(packets[0]));
      if o.ok then Receive(unpacks, o.u, packets[1..]) else o
  }

  lemma EmitAllFirst(u: Unpacker, unit: Bytes, rest: seq<Bytes>)
    ensures u.EmitAll([unit] + rest) == u.Emit(unit).EmitAll(rest)
  {
    assert ([unit] + rest)[1..] == rest;
  }

  /** The unpacker before it looks at the payload of a packet with this header. */
  function Stamped(u: Unpacker, h: Header): Unpacker {
    u.(timestamp := h.timestamp, sequenceNumber := h.seqNumber)
  }

  lemma PlainReceived(unpacks: Unpacking, u: Unpacker, h: Header, data: Bytes)
    requires Plain(h)
    ensures UnpackBytes(unpacks, u, Marshal(NewPacket(h).(payload := data))) == unpacks(Stamped(u, h), data)
  {
    PlainPacket(h, data);
    PacketRoundTrip(NewPacket(h).(payload := data));
    hide Marshal, Unmarshal, Consistent;
  }

  lemma ReceiveFirst(unpacks: Unpacking, u: Unpacker, h: Header, ps: seq<Payload>)
    requires Plain(h) && ps != []
    ensures var o := unpacks(Stamped(u, h), ps[0].data);
            Receive(unpacks, u, Numbered(h, ps)) == if o.ok then Receive(unpacks, o.u, Numbered(Next(h, 1), ps[1..])) else o
  {
    PlainReceived(unpacks, u, h.(marker := ps[0].marker), ps[0].data);
    hide UnpackBytes, Marshal;
    assert Numbered(h, ps)[1..] == Numbered(Next(h, 1), ps[1..]);
  }

  lemma NothingReceived(unpacks: Unpacking, u: Unpacker, h: Header, ps: seq<Payload>)
    requires ps == []
    ensures Receive(unpacks, u, Numbered(h, ps)) == Outcome(u, true)
  {
  }

  lemma {:induction false} ReceiveConcat(unpacks: Unpacking, u: Unpacker, ps: seq<Packet>, qs: seq<Packet>)
    ensures var o := Receive(unpacks, u, ps);
            Receive(unpacks, u, ps + qs) == if o.ok then Receive(unpacks, o.u, qs) else o
    decreases |ps|
  {
    hide UnpackBytes, Marshal;
    if ps == [] {
      assert ps + qs == qs;
    } else {
      assert (ps + qs)[1..] == ps[1..] + qs;
      var o := UnpackBytes(unpacks, u, Marshal(ps[0]));
      if o.ok {
        ReceiveConcat(unpacks, o.u, ps[1..], qs);
      }
    }
  }

  // ---------- Reassembly ----------

  /** The unpacker after the last fragment of a unit. */
  ghost predicate Delivered(u: Unpacker, timestamp: u32, nalu: Bytes, o: Outcome) {
    o.ok && o.u.fuBuffer == [] && o.u.frames == u.frames + [Frame(timestamp, START_CODE + nalu)]
  }

  lemma DeliveredNow(u: Unpacker, h: Header, nalu: Bytes)
    ensures Delivered(u, h.timestamp, nalu, Outcome(Stamped(u, h).(fuBuffer := []).Emit(nalu), true))
  {
  }

  // Reassembling on the way changes neither the frames handed on so far nor the timestamp.
  lemma DeliveredLater(u: Unpacker, s: Unpacker, h: Header, nalu: Bytes, o: Outcome)
    requires s.frames == u.frames && Delivered(s, Next(h, 1).timestamp, nalu, o)
    ensures Delivered(u, h.timestamp, nalu, o)
  {
  }

  /** A fragment that is neither the first nor the last is added to the buffer; the last one empties it into a frame. */
  ghost predicate Reassembles(unpacks: Unpacking, head: Bytes, middle: u8, last: u8) {
    && (forall u, piece :: unpacks(u, head + [middle] + piece) == Outcome(u.(fuBuffer := u.fuBuffer + piece), true))
    && (forall u, piece :: unpacks(u, head + [last] + piece) == Outcome(u.(fuBuffer := []).Emit(u.fuBuffer + piece), true))
  }

  lemma FuPayloadsParts(head: Bytes, first: u8, middle: u8, last: u8, pieces: seq<Bytes>)
    requires pieces != []
    ensures var ps := FuPayloads(head, first, middle, last, pieces);
            && ps != []
            && ps[0].data == head + [if |pieces| == 1 then last else first] + pieces[0]
            && ps[1..] == FuPayloads(head, middle, middle, last, pieces[1..])
    ensures Flatten(pieces) == pieces[0] + Flatten(pieces[1..])
    ensures |pieces| == 1 ==> Flatten(pieces) == pieces[0] && FuPayloads(head, middle, middle, last, pieces[1..]) == []
  {
    if |pieces| == 1 {
      assert pieces[1..] == [];
      assert pieces[0] + [] == pieces[0];
    }
  }

  /** The fragments behind the first. */
  lemma {:induction false} TailReassembled(unpacks: Unpacking, u: Unpacker, h: Header, head: Bytes, middle: u8, last: u8,
                                           pieces: seq<Bytes>, nalu: Bytes)
    requires Plain(h) && Reassembles(unpacks, head, middle, last) && pieces != []
    requires nalu == u.fuBuffer + Flatten(pieces)
    ensures Delivered(u, h.timestamp, nalu, Receive(unpacks, u, Numbered(h, FuPayloads(head, middle, middle, last, pieces))))
    decreases |pieces|
  {
    hide Numbered, Receive, FuPayloads, Delivered, Flatten;
    var ps := FuPayloads(head, middle, middle, last, pieces);
    FuPayloadsParts(head, middle, middle, last, pieces);
    ReceiveFirst(unpacks, u, h, ps);
    var s := Stamped(u, h);
    if |pieces| == 1 {
      assert unpacks(s, head + [last] + pieces[0]) == Outcome(s.(fuBuffer := []).Emit(nalu), true);
      NothingReceived(unpacks, s.(fuBuffer := []).Emit(nalu), Next(h, 1), ps[1..]);
      DeliveredNow(u, h, nalu);
    } else {
      var s' := s.(fuBuffer := u.fuBuffer + pieces[0]);
      assert unpacks(s, head + [middle] + pieces[0]) == Outcome(s', true);
      Concat3(u.fuBuffer, pieces[0], Flatten(pieces[1..]));
      TailReassembled(unpacks, s', Next(h, 1), head, middle, last, pieces[1..], nalu);
      DeliveredLater(u, s', h, nalu, Receive(unpacks, s', Numbered(Next(h, 1), ps[1..])));
    }
  }

  // ---------- Codecs ----------

  /**
  How a codec packs units and unpacks payloads, which units it sends alone, and which payloads its unpacker takes for
  single units.
   */
  datatype Codec = Codec(packs: Bytes -> seq<Payload>, unpacks: Unpacking, alone: Bytes -> bool, single: Bytes -> bool)

  /** The frames from `i` on hold less than `n` bytes behind their start code. */
  ghost predicate AllShorter(frames: seq<Frame>, i: nat, n: nat) {
    forall j | i <= j < |frames| :: |frames[j].data| < |START_CODE| + n
  }

  /** Of `n` bytes of a unit one frame comes at most, or only frames that are shorter. */
  ghost predicate Emits(before: seq<Frame>, after: seq<Frame>, n: nat) {
    before <= after && (|after| <= |before| + 1 || AllShorter(after, |before|, n))
  }

  ghost predicate AllShort(units: seq<Bytes>, n: int) {
    forall i | 0 <= i < |units| :: |units[i]| < n
  }

  lemma {:induction false} EmitsEach(u: Unpacker, units: seq<Bytes>, n: nat)
    requires AllShort(units, n)
    ensures u.frames <= u.EmitAll(units).frames && AllShorter(u.EmitAll(units).frames, |u.frames|, n)
    decreases |units|
  {
    if units != [] {
      EmitsEach(u.Emit(units[0]), units[1..], n);
      var more := u.Emit(units[0]);
      assert more.frames[..|u.frames|] == u.frames;
    }
  }

  /** A unit sent in fragments comes out whole, behind what was in the buffer before. */
  ghost predicate ComesWhole(c: Codec, u: Unpacker, h: Header, nalu: Bytes) {
    Delivered(u, h.timestamp, u.fuBuffer + nalu, Receive(c.unpacks, u, Numbered(h, c.packs(nalu))))
  }

  /** A payload taken for a single unit comes out as it is, any other does not. */
  ghost predicate Understands(c: Codec, u: Unpacker, payload: Bytes) {
    && Emits(u.frames, c.unpacks(u, payload).u.frames, |payload|)
    && (c.single(payload) ==> c.unpacks(u, payload) == Outcome(u.Emit(payload), true))
    && (!c.single(payload) && u.fuBuffer == [] ==>
          c.unpacks(u, payload).u.frames != u.frames + [Frame(u.timestamp, START_CODE + payload)])
  }

  /** What a codec has to do with one unit, and with one payload, for the results about whole streams. */
  ghost predicate Works(c: Codec) {
    && (forall nalu :: c.alone(nalu) ==> c.packs(nalu) == [Payload(nalu, 1)])
    && (forall u, h, nalu :: Plain(h) && !c.alone(nalu) ==> ComesWhole(c, u, h, nalu))
    && (forall u, payload :: Understands(c, u, payload))
  }

  /** Sent in fragments, or alone and taken for a single unit. */
  predicate Survives(c: Codec, nalu: Bytes) {
    !c.alone(nalu) || c.single(nalu)
  }

  lemma AloneReceived(c: Codec, u: Unpacker, h: Header, nalu: Bytes)
    requires Works(c) && Plain(h) && c.alone(nalu)
    ensures Receive(c.unpacks, u, Numbered(h, c.packs(nalu))) == c.unpacks(Stamped(u, h), nalu)
  {
    var ps := [Payload(nalu, 1)];
    assert c.packs(nalu) == ps;
    ReceiveFirst(c.unpacks, u, h, ps);
    hide Works, Numbered, Receive;
    NothingReceived(c.unpacks, c.unpacks(Stamped(u, h), nalu).u, Next(h, 1), ps[1..]);
  }

  /** A unit comes back as one frame, start code first, exactly when it survives. */
  lemma UnitArrives(c: Codec, u: Unpacker, h: Header, nalu: Bytes)
    requires Works(c) && Plain(h) && u.fuBuffer == []
    ensures var o := Receive(c.unpacks, u, Numbered(h, c.packs(nalu)));
            && (Delivered(u, h.timestamp, nalu, o) <==> Survives(c, nalu))
            && (o.u.frames == u.frames + [Frame(h.timestamp, START_CODE + nalu)] <==> Survives(c, nalu))
  {
    hide Numbered, Receive;
    if c.alone(nalu) {
      AloneReceived(c, u, h, nalu);
      assert Understands(c, Stamped(u, h), nalu);
    } else {
      assert [] + nalu == nalu;
      assert ComesWhole(c, u, h, nalu);
    }
  }

  lemma UnitEmits(c: Codec, u: Unpacker, h: Header, nalu: Bytes)
    requires Works(c) && Plain(h)
    ensures Emits(u.frames, Receive(c.unpacks, u, Numbered(h, c.packs(nalu))).u.frames, |nalu|)
  {
    hide Numbered, Receive;
    if c.alone(nalu) {
      AloneReceived(c, u, h, nalu);
      assert Understands(c, Stamped(u, h), nalu);
    } else {
      assert ComesWhole(c, u, h, nalu);
    }
  }

  // ---------- Whole streams ----------

  function FramesOf(timestamp: u32, nalus: seq<Bytes>): seq<Frame> {
    if nalus == [] then [] else [Frame(timestamp, START_CODE + nalus[0])] + FramesOf(timestamp, nalus[1..])
  }

  lemma UnitsReceived(c: Codec, u: Unpacker, h: Header, nalus: seq<Bytes>)
    requires Plain(h) && nalus != []
    ensures var ps := c.packs(nalus[0]);
            var o := Receive(c.unpacks, u, Numbered(h, ps));
            Receive(c.unpacks, u, Numbered(h, AllPayloads(c.packs, nalus)))
            == if o.ok then Receive(c.unpacks, o.u, Numbered(Next(h, |ps|), AllPayloads(c.packs, nalus[1..]))) else o
  {
    hide Receive;
    var ps, qs := c.packs(nalus[0]), AllPayloads(c.packs, nalus[1..]);
    NumberedConcat(h, ps, qs);
    ReceiveConcat(c.unpacks, u, Numbered(h, ps), Numbered(Next(h, |ps|), qs));
  }

  lemma {:induction false} AllArrive(c: Codec, u: Unpacker, h: Header, nalus: seq<Bytes>)
    requires Works(c) && Plain(h) && u.fuBuffer == []
    requires forall n | n in nalus :: Survives(c, n)
    ensures var o := Receive(c.unpacks, u, Numbered(h, AllPayloads(c.packs, nalus)));
            o.ok && o.u.fuBuffer == [] && o.u.frames == u.frames + FramesOf(h.timestamp, nalus)
    decreases |nalus|
  {
    hide Works, Survives, Numbered;
    if nalus == [] {
      NothingReceived(c.unpacks, u, h, []);
    } else {
      hide Receive, AllPayloads;
      var unit := Frame(h.timestamp, START_CODE + nalus[0]);
      UnitArrives(c, u, h, nalus[0]);
      UnitsReceived(c, u, h, nalus);
      var o := Receive(c.unpacks, u, Numbered(h, c.packs(nalus[0])));
      AllArrive(c, o.u, Next(h, |c.packs(nalus[0])|), nalus[1..]);
      Concat3(u.frames, [unit], FramesOf(h.timestamp, nalus[1..]));
    }
  }

  lemma {:induction false} FramesAt(timestamp: u32, nalus: seq<Bytes>, k: nat)
    requires k <= |nalus|
    ensures |FramesOf(timestamp, nalus)| == |nalus|
    ensures FramesOf(timestamp, nalus)[k..] == FramesOf(timestamp, nalus[k..])
    ensures k < |nalus| ==> FramesOf(timestamp, nalus)[k] == Frame(timestamp, START_CODE + nalus[k])
  {
    if nalus != [] {
      var all := FramesOf(timestamp, nalus);
      assert all[1..] == FramesOf(timestamp, nalus[1..]);
      if k > 0 {
        FramesAt(timestamp, nalus[1..], k - 1);
        assert all[k..] == all[1..][k - 1..];
        assert nalus[k..] == nalus[1..][k - 1..];
      } else {
        FramesAt(timestamp, nalus[1..], 0);
        assert all[0..] == all && nalus[0..] == nalus;
      }
    }
  }

  /** With frames still owed before it, a unit cannot make up for them and come out itself. */
  lemma StillOwed(before: seq<Frame>, after: seq<Frame>, last: seq<Frame>, timestamp: u32, owed: seq<Bytes>, unit: Bytes, rest: seq<Bytes>)
    returns (left: seq<Bytes>)
    requires owed != [] && Emits(before, after, |unit|) && after <= last
    requires last == before + FramesOf(timestamp, owed + [unit] + rest)
    ensures left != [] && last == after + FramesOf(timestamp, left + rest)
  {
    hide FramesOf;
    var all, k := owed + [unit] + rest, |after| - |before|;
    FramesAt(timestamp, all, |owed|);
    var frames := FramesOf(timestamp, all);
    assert last[|before| + |owed|] == frames[|owed|];
    assert |frames[|owed|].data| == |START_CODE| + |unit|;
    if k > |owed| {
      assert false;
    }
    left := (owed + [unit])[k..];
    FramesAt(timestamp, all, k);
    assert all[k..] == left + rest;
    assert last[|after|..] == frames[k..];
    assert last == last[..|after|] + last[|after|..];
  }

  lemma {:induction false} ReceiveGrows(c: Codec, u: Unpacker, packets: seq<Packet>)
    requires Works(c)
    ensures u.frames <= Receive(c.unpacks, u, packets).u.frames
    decreases |packets|
  {
    hide Unmarshal, Marshal;
    if packets != [] {
      var b := Marshal(packets[0]);
      match Unmarshal(b) {
        case Ok(p) => assert Understands(c, u.(timestamp := p.header.timestamp, sequenceNumber := p.header.seqNumber), p.payload);
        case Err(_) =>
      }
      var o := UnpackBytes(c.unpacks, u, b);
      assert u.frames <= o.u.frames;
      if o.ok {
        ReceiveGrows(c, o.u, packets[1..]);
        Prefixes(u.frames, o.u.frames, Receive(c.unpacks, o.u, packets[1..]).u.frames);
      }
    }
  }

  lemma Prefixes(a: seq<Frame>, b: seq<Frame>, c: seq<Frame>)
    requires a <= b <= c
    ensures a <= c
  {
    assert c[..|a|] == b[..|a|];
  }

  lemma NothingLeft(c: Codec, u: Unpacker, h: Header, owed: seq<Bytes>)
    requires owed != []
    ensures Receive(c.unpacks, u, Numbered(h, AllPayloads(c.packs, []))).u.frames != u.frames + FramesOf(h.timestamp, owed)
  {
    NothingReceived(c.unpacks, u, h, []);
    FramesAt(h.timestamp, owed, 0);
    assert |u.frames + FramesOf(h.timestamp, owed)| > |u.frames|;
  }

  /** A frame owed once is owed for good: no later unit brings more frames than its own and those in front of it. */
  lemma {:induction false} StaysBehind(c: Codec, u: Unpacker, h: Header, owed: seq<Bytes>, nalus: seq<Bytes>)
    requires Works(c) && Plain(h) && owed != []
    ensures Receive(c.unpacks, u, Numbered(h, AllPayloads(c.packs, nalus))).u.frames != u.frames + FramesOf(h.timestamp, owed + nalus)
    decreases |nalus|
  {
    hide Works, Numbered, Emits, Receive, AllPayloads, FramesOf;
    if nalus == [] {
      NothingLeft(c, u, h, owed);
      assert owed + nalus == owed;
    } else {
      var o := Receive(c.unpacks, u, Numbered(h, c.packs(nalus[0])));
      var next, rest := Next(h, |c.packs(nalus[0])|), nalus[1..];
      var all := Receive(c.unpacks, u, Numbered(h, AllPayloads(c.packs, nalus)));
      var last := u.frames + FramesOf(h.timestamp, owed + nalus);
      UnitsReceived(c, u, h, nalus);
      UnitEmits(c, u, h, nalus[0]);
      assert owed + nalus == owed + [nalus[0]] + rest;
      if all.u.frames == last {
        if o.ok {
          ReceiveGrows(c, o.u, Numbered(next, AllPayloads(c.packs, rest)));
        }
        var left := StillOwed(u.frames, o.u.frames, last, h.timestamp, owed, nalus[0], rest);
        if o.ok {
          StaysBehind(c, o.u, next, left, rest);
        } else {
          FramesAt(h.timestamp, left + rest, 0);
        }
        assert false;
      }
    }
  }

  // What comes first is the frame of the first unit, or nothing comes yet.
  lemma FirstFrame(before: seq<Frame>, after: seq<Frame>, last: seq<Frame>, timestamp: u32, unit: Bytes, rest: seq<Bytes>)
    requires Emits(before, after, |unit|) && after <= last && last == before + FramesOf(timestamp, [unit] + rest)
    ensures after == before || after == before + [Frame(timestamp, START_CODE + unit)]
  {
    FramesAt(timestamp, [unit] + rest, 0);
    if |after| > |before| {
      assert last[|before|] == after[|before|] == Frame(timestamp, START_CODE + unit);
      assert after[..|before|] == before;
    }
  }

  lemma LostForGood(c: Codec, u: Unpacker, h: Header, nalus: seq<Bytes>)
    requires Works(c) && Plain(h) && u.fuBuffer == [] && nalus != [] && !Survives(c, nalus[0])
    ensures Receive(c.unpacks, u, Numbered(h, AllPayloads(c.packs, nalus))).u.frames != u.frames + FramesOf(h.timestamp, nalus)
  {
    hide Works, Numbered, Survives, Receive, AllPayloads, FramesOf, Emits;
    var unit, rest := nalus[0], nalus[1..];
    var last := u.frames + FramesOf(h.timestamp, nalus);
    FramesAt(h.timestamp, nalus, 0);
    assert |last| > |u.frames|;
    assert nalus == [unit] + rest;
    UnitArrives(c, u, h, unit);
    UnitEmits(c, u, h, unit);
    UnitsReceived(c, u, h, nalus);
    var o := Receive(c.unpacks, u, Numbered(h, c.packs(unit)));
    if Receive(c.unpacks, u, Numbered(h, AllPayloads(c.packs, nalus))).u.frames == last {
      if o.ok {
        var next := Next(h, |c.packs(unit)|);
        ReceiveGrows(c, o.u, Numbered(next, AllPayloads(c.packs, rest)));
        StaysBehind(c, o.u, next, [unit], rest);
      }
      FirstFrame(u.frames, o.u.frames, last, h.timestamp, unit, rest);
      assert false;
    }
  }

  /** A stream comes back as exactly its units if and only if every one of them survives. */
  lemma {:induction false} StreamArrives(c: Codec, u: Unpacker, h: Header, nalus: seq<Bytes>)
    requires Works(c) && Plain(h) && u.fuBuffer == []
    ensures Receive(c.unpacks, u, Numbered(h, AllPayloads(c.packs, nalus))).u.frames == u.frames + FramesOf(h.timestamp, nalus)
            <==> forall n | n in nalus :: Survives(c, n)
    decreases |nalus|
  {
    hide Works, Numbered, Survives;
    if nalus == [] {
      NothingReceived(c.unpacks, u, h, []);
    } else {
      hide Receive, AllPayloads;
      var unit, rest := nalus[0], nalus[1..];
      var o := Receive(c.unpacks, u, Numbered(h, c.packs(unit)));
      assert nalus == [unit] + rest;
      UnitsReceived(c, u, h, nalus);
      UnitArrives(c, u, h, unit);
      if Survives(c, unit) {
        StreamArrives(c, o.u, Next(h, |c.packs(unit)|), rest);
        Concat3(u.frames, [Frame(h.timestamp, START_CODE + unit)], FramesOf(h.timestamp, rest));
      } else {
        LostForGood(c, u, h, nalus);
      }
    }
  }

  function Joined(frames: seq<Frame>): Bytes {
    if frames == [] then [] else frames[0].data + Joined(frames[1..])
  }

  /** The data of the frames, in order, is again an Annex B stream of the same units. */
  lemma {:induction false} FramesJoined(timestamp: u32, nalus: seq<Bytes>)
    ensures Joined(FramesOf(timestamp, nalus)) == ToAnnexB(nalus)
  {
    if nalus != [] {
      FramesJoined(timestamp, nalus[1..]);
      assert FramesOf(timestamp, nalus)[1..] == FramesOf(timestamp, nalus[1..]);
    }
  }

  /**
  Packing a stream, sending every packet and unpacking them gives the stream's units in order, if and only if they all
  survive; what the receiver gets, read as a stream, splits into the same units.
   */
  lemma StreamRoundTrip(c: Codec, u: Unpacker, h: Header, us: seq<Unit>)
    requires Works(c) && Plain(h) && u.fuBuffer == [] && Separable(Nalus(us))
    ensures var o := Receive(c.unpacks, u, Numbered(h, AllPayloads(c.packs, Split(Join(us)))));
            && (o.u.frames == u.frames + FramesOf(h.timestamp, Nalus(us)) <==> forall n | n in Nalus(us) :: Survives(c, n))
            && ((forall n | n in Nalus(us) :: Survives(c, n)) ==> o.ok && o.u.fuBuffer == [])
            && Split(Joined(FramesOf(h.timestamp, Nalus(us)))) == Nalus(us)
  {
    hide Works, Numbered, Survives, Receive, AllPayloads;
    SplitOfJoin(us);
    StreamArrives(c, u, h, Nalus(us));
    if forall n | n in Nalus(us) :: Survives(c, n) {
      AllArrive(c, u, h, Nalus(us));
    }
    FramesJoined(h.timestamp, Nalus(us));
    AnnexBIsJoin(Nalus(us));
    SplitOfJoin(LongCodes(Nalus(us)));
  }
}
