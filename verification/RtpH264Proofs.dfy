/**
From an Annex B stream through RTP and back: which H.264 NAL units arrive, and what they
arrive as.
 */
module RtpH264Proofs {
  import opened Bytesio
  import opened AnnexB
  import opened Rtp
  import opened RtpPacking
  import opened RtpStreams
  import opened RtpH264

  // ---------- Reassembly ----------

  // Indicator and FU header together carry the first byte of the unit.
  lemma HeaderSplit(b: u8)
    ensures Upper(b) + FU_A < 0x100
    ensures Type(Upper(b) + FU_A) == FU_A && Upper(Upper(b) + FU_A) == Upper(b)
    ensures Type(Type(b) + FU_START) == Type(b) < 32 && Upper(b) + Type(b) == b
  {
  }

  lemma FirstReceived(u: Unpacker, b: u8, piece: Bytes)
    ensures UnpackPayload(u, [Upper(b) + FU_A] + [Type(b) + FU_START] + piece) ==
            Outcome(u.(fuBuffer := u.fuBuffer + [b] + piece), true)
  {
    HeaderSplit(b);
    var payload := [Upper(b) + FU_A] + [Type(b) + FU_START] + piece;
    assert payload[0] == Upper(b) + FU_A && payload[1] == Type(b) + FU_START && payload[2..] == piece;
    var t := Type(b);
    assert (t + FU_START) / FU_END % 2 == 0;
  }

  lemma MiddleReceived(u: Unpacker, head: Bytes, t: u8, piece: Bytes)
    requires |head| == 1 && Type(head[0]) == FU_A && t < 32
    ensures UnpackPayload(u, head + [t] + piece) == Outcome(u.(fuBuffer := u.fuBuffer + piece), true)
  {
    var payload := head + [t] + piece;
    assert payload[0] == head[0] && payload[1] == t && payload[2..] == piece;
    assert u.fuBuffer + [] + piece == u.fuBuffer + piece;
  }

  lemma LastReceived(u: Unpacker, head: Bytes, last: u8, piece: Bytes)
    requires |head| == 1 && Type(head[0]) == FU_A && FU_END <= last < FU_END + 32
    ensures UnpackPayload(u, head + [last] + piece) == Outcome(u.(fuBuffer := []).Emit(u.fuBuffer + piece), true)
  {
    var payload := head + [last] + piece;
    assert payload[0] == head[0] && payload[1] == last && payload[2..] == piece;
    assert u.fuBuffer + [] + piece == u.fuBuffer + piece;
  }

  lemma FragmentsUnderstood(head: Bytes, t: u8, last: u8)
    requires |head| == 1 && Type(head[0]) == FU_A && t < 32 && FU_END <= last < FU_END + 32
    ensures Reassembles(UnpackPayload, head, t, last)
  {
    hide UnpackPayload, Type;
    forall u: Unpacker, piece: Bytes
      ensures UnpackPayload(u, head + [t] + piece) == Outcome(u.(fuBuffer := u.fuBuffer + piece), true)
      ensures UnpackPayload(u, head + [last] + piece) == Outcome(u.(fuBuffer := []).Emit(u.fuBuffer + piece), true)
    {
      MiddleReceived(u, head, t, piece);
      LastReceived(u, head, last, piece);
    }
  }

  /** The fragments of a unit come out as that unit, behind what was in the buffer before. */
  lemma FuReassembled(u: Unpacker, h: Header, nalu: Bytes, mtu: nat)
    requires Plain(h) && mtu > FU_OVERHEAD && !FitsOnePacket(nalu, mtu)
    ensures Delivered(u, h.timestamp, u.fuBuffer + nalu, Receive(UnpackPayload, u, Numbered(h, NaluPayloads(nalu, mtu))))
  {
    hide Fragments, Type, Upper, Numbered, Receive, UnpackPayload, FuPayloads, Delivered, Flatten, Reassembles;
    var b, t, room := nalu[0], Type(nalu[0]), mtu - FU_OVERHEAD;
    var pieces := Fragments(nalu[1..], room);
    FragmentsWhole(nalu[1..], room);
    HeaderSplit(b);
    var indicator: u8 := Upper(b) + FU_A;
    var ps := NaluPayloads(nalu, mtu);
    assert ps == FuPayloads([indicator], t + FU_START, t, t + FU_END, pieces);
    hide NaluPayloads;
    FuPayloadsParts([indicator], t + FU_START, t, t + FU_END, pieces);
    NaluWhole(nalu, pieces);
    Concat4(u.fuBuffer, [b], pieces[0], Flatten(pieces[1..]));
    ReceiveFirst(UnpackPayload, u, h, ps);
    FirstReceived(Stamped(u, h), b, pieces[0]);
    FragmentsUnderstood([indicator], t, t + FU_END);
    var s := Stamped(u, h).(fuBuffer := u.fuBuffer + [b] + pieces[0]);
    TailReassembled(UnpackPayload, s, Next(h, 1), [indicator], t, t + FU_END, pieces[1..], u.fuBuffer + nalu);
    DeliveredLater(u, s, h, u.fuBuffer + nalu, Receive(UnpackPayload, s, Numbered(Next(h, 1), ps[1..])));
  }

  lemma NaluWhole(nalu: Bytes, pieces: seq<Bytes>)
    requires nalu != [] && pieces != [] && Flatten(pieces) == nalu[1..]
    ensures nalu == [nalu[0]] + pieces[0] + Flatten(pieces[1..])
  {
    assert nalu == [nalu[0]] + nalu[1..];
    Concat3([nalu[0]], pieces[0], Flatten(pieces[1..]));
  }

  /**
  The fragments in plain numbers: type 28 with the upper bits of the unit's first byte, its lower bits with 128 in the first
  and 64 in the last, and the bytes of the unit behind its first in order, all packets but the last as full as the mtu allows.
   */
  lemma FragmentBytes(nalu: Bytes, mtu: nat, i: nat)
    requires mtu > 14 && |nalu| + 12 > mtu && i < |NaluPayloads(nalu, mtu)|
    ensures var n, room := |NaluPayloads(nalu, mtu)|, mtu - 14;
            && n > 1 && CutInto(|nalu| - 1, room, n) && Stretch(|nalu| - 1, room, n, i)
            && NaluPayloads(nalu, mtu)[i]
            == Payload([nalu[0] / 32 * 32 + 28, nalu[0] % 32 + (if i == 0 then 128 else if i == n - 1 then 64 else 0)]
                       + Piece(nalu[1..], room, n, i),
                       if i == n - 1 then 1 else 0)
  {
    hide Fragments, FuPayloads, CutInto, Stretch, Piece, NaluPayloads, Upper, Type;
    var b, room := nalu[0], mtu - 14;
    PayloadsAre(nalu, mtu);
    PayloadsLaid([b / 32 * 32 + 28], b % 32 + 128, b % 32, b % 32 + 64, nalu[1..], room, i);
  }

  lemma PayloadsAre(nalu: Bytes, mtu: nat)
    requires mtu > 14 && |nalu| + 12 > mtu
    ensures var b := nalu[0];
            NaluPayloads(nalu, mtu) == FuPayloads([b / 32 * 32 + 28], b % 32 + 128, b % 32, b % 32 + 64, Fragments(nalu[1..], mtu - 14))
  {
    hide Fragments, FuPayloads;
  }

  /** Packets of the types 28 and 29 are taken for fragments, the second with an order number to skip. */
  lemma FragmentTaken(u: Unpacker, payload: Bytes)
    requires |payload| >= 4 && (payload[0] % 32 == 28 || payload[0] % 32 == 29)
    ensures var start := if payload[1] >= 128 then [payload[0] / 32 * 32 + payload[1] % 32] else [];
            var buffer := u.fuBuffer + start + payload[if payload[0] == 29 then 4 else 2..];
            UnpackPayload(u, payload) ==
            Outcome(if payload[1] / 64 % 2 == 0 then u.(fuBuffer := buffer)
                    else u.(fuBuffer := [], frames := u.frames + [Frame(u.timestamp, [0, 0, 0, 1] + buffer)]), true)
  {
  }

  // ---------- Exactly which units arrive ----------

  /** A payload the unpacker takes for a single unit. */
  predicate IsSingle(payload: Bytes) {
    payload != [] && 1 <= payload[0] % 32 <= 23
  }

  function H264(mtu: nat): Codec
    requires mtu > FU_OVERHEAD
  {
    Codec(Packs(mtu), UnpackPayload, nalu => FitsOnePacket(nalu, mtu), IsSingle)
  }

  lemma {:induction false} StapUnitsShort(b: Bytes)
    ensures AllShort(StapUnits(b).0, |b|)
    decreases |b|
  {
    if |b| >= 2 && |b| >= 2 + FromU16Be(b[..2]) as int {
      StapUnitsShort(b[2 + FromU16Be(b[..2]) as int..]);
    }
  }

  lemma {:induction false} MtapUnitsShort(b: Bytes, t: u8)
    ensures AllShort(MtapUnits(b, t).0, |b|)
    decreases |b|
  {
    if MtapUnit(b, t).Some? {
      MtapUnitsShort(MtapUnit(b, t).value.1, t);
    }
  }

  lemma AggregateIsShort(u: Unpacker, payload: Bytes)
    requires payload != [] && Type(payload[0]) in {STAP_A, STAP_B, MTAP_16, MTAP_24}
    ensures var frames := UnpackPayload(u, payload).u.frames;
            u.frames <= frames && AllShorter(frames, |u.frames|, |payload|)
  {
    var t, n := payload[0], |payload|;
    if Type(t) == STAP_A || Type(t) == STAP_B {
      var skip := if t == STAP_B then 3 else 1;
      if n >= skip {
        StapUnitsShort(payload[skip..]);
        EmitsEach(u, StapUnits(payload[skip..]).0, n);
      }
    } else if n >= 3 {
      MtapUnitsShort(payload[3..], t);
      EmitsEach(u, MtapUnits(payload[3..], t).0, n);
    }
  }

  // A unit the unpacker takes for something else never comes out whole.
  lemma MisreadIsLost(u: Unpacker, nalu: Bytes, timestamp: u32)
    requires u.fuBuffer == [] && !IsSingle(nalu)
    ensures UnpackPayload(u, nalu).u.frames != u.frames + [Frame(timestamp, START_CODE + nalu)]
  {
    if nalu != [] {
      if Type(nalu[0]) in {STAP_A, STAP_B, MTAP_16, MTAP_24} {
        AggregateIsShort(u, nalu);
      }
      var whole := Frame(timestamp, START_CODE + nalu);
      assert |whole.data| == |START_CODE| + |nalu|;
      assert (u.frames + [whole])[|u.frames|] == whole;
    }
  }

  lemma UnpackEmits(u: Unpacker, payload: Bytes)
    ensures Emits(u.frames, UnpackPayload(u, payload).u.frames, |payload|)
  {
    if payload != [] && Type(payload[0]) in {STAP_A, STAP_B, MTAP_16, MTAP_24} {
      AggregateIsShort(u, payload);
    }
  }

  lemma H264Works(mtu: nat)
    requires mtu > FU_OVERHEAD
    ensures Works(H264(mtu))
  {
    hide UnpackPayload, Receive, Numbered, Emits, Delivered;
    var c := H264(mtu);
    forall u: Unpacker, h: Header, nalu: Bytes | Plain(h) && !c.alone(nalu)
      ensures ComesWhole(c, u, h, nalu)
    {
      FuReassembled(u, h, nalu, mtu);
    }
    forall u: Unpacker, payload: Bytes
      ensures Understands(c, u, payload)
    {
      UnpackEmits(u, payload);
      if IsSingle(payload) {
        SingleEmitted(u, payload);
      } else if u.fuBuffer == [] {
        MisreadIsLost(u, payload, u.timestamp);
      }
    }
  }

  lemma SingleEmitted(u: Unpacker, payload: Bytes)
    requires IsSingle(payload)
    ensures UnpackPayload(u, payload) == Outcome(u.Emit(payload), true)
  {
  }

  /** A unit comes back as one frame, start code first, exactly when it was fragmented or its type is 1 to 23. */
  lemma NaluArrives(u: Unpacker, h: Header, nalu: Bytes, mtu: nat)
    requires Plain(h) && u.fuBuffer == [] && Packable(nalu, mtu)
    ensures Delivered(u, h.timestamp, nalu, Receive(UnpackPayload, u, Numbered(h, NaluPayloads(nalu, mtu))))
            <==> !FitsOnePacket(nalu, mtu) || IsSingle(nalu)
  {
    var room := if mtu > FU_OVERHEAD then mtu else FU_OVERHEAD + 1;
    assert NaluPayloads(nalu, mtu) == NaluPayloads(nalu, room);
    hide Receive, Numbered, Delivered, UnpackPayload, NaluPayloads, Works;
    H264Works(room);
    UnitArrives(H264(room), u, h, nalu);
  }

  /** A stream comes back as exactly its units if and only if every one of them does. */
  lemma StreamArrives(u: Unpacker, h: Header, nalus: seq<Bytes>, mtu: nat)
    requires Plain(h) && u.fuBuffer == [] && mtu > FU_OVERHEAD
    ensures Receive(UnpackPayload, u, Numbered(h, AllPayloads(Packs(mtu), nalus))).u.frames == u.frames + FramesOf(h.timestamp, nalus)
            <==> forall n | n in nalus :: !FitsOnePacket(n, mtu) || IsSingle(n)
  {
    hide Receive, Numbered, UnpackPayload, NaluPayloads, Works, AllPayloads, FramesOf;
    H264Works(mtu);
    RtpStreams.StreamArrives(H264(mtu), u, h, nalus);
  }

  /** The units of a stream come back, and the frames joined split to them again. */
  lemma StreamRoundTrip(u: Unpacker, h: Header, us: seq<Unit>, mtu: nat)
    requires Plain(h) && u.fuBuffer == [] && mtu > FU_OVERHEAD && Separable(Nalus(us))
    ensures var o := Receive(UnpackPayload, u, Numbered(h, AllPayloads(Packs(mtu), Split(Join(us)))));
            && (o.u.frames == u.frames + FramesOf(h.timestamp, Nalus(us))
                <==> forall n | n in Nalus(us) :: !FitsOnePacket(n, mtu) || IsSingle(n))
            && ((forall n | n in Nalus(us) :: !FitsOnePacket(n, mtu) || IsSingle(n)) ==> o.ok && o.u.fuBuffer == [])
            && Split(Joined(FramesOf(h.timestamp, Nalus(us)))) == Nalus(us)
  {
    hide Receive, Numbered, UnpackPayload, NaluPayloads, Works, AllPayloads, FramesOf, Separable, Split, Joined, Nalus, Join;
    H264Works(mtu);
    RtpStreams.StreamRoundTrip(H264(mtu), u, h, us);
  }
}
