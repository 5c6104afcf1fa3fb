/**
From an Annex B stream through RTP and back: which H.265 NAL units arrive, and what they arrive as.
 */
module RtpH265Proofs {
  import opened Bytesio
  import opened AnnexB
  import opened Rtp
  import opened RtpPacking
  import opened RtpStreams
  import opened RtpH265
  import H264 = RtpH264
  import P = RtpH264Proofs

  // ---------- Reassembly ----------

  // Payload header and FU header together carry the first byte of the unit.
  lemma HeaderSplit(b: u8)
    ensures Type(Retyped(b, FU)) == FU && Retyped(Retyped(b, FU), Type(b)) == b
    ensures (Type(b) + FU_START) % 64 == Type(b) && (Type(b) + FU_START) / FU_END % 2 == 0
  {
    Fields(b / 128, Type(b), b % 2);
    Fields(b / 128, FU, b % 2);
    assert b == 128 * (b / 128) + 2 * Type(b) + b % 2;
    var t := Type(b);
    assert (t + FU_START) / FU_END == 2;
  }

  // A header byte taken apart.
  lemma Fields(f: int, t: int, l: int)
    requires 0 <= f < 2 && 0 <= t < 64 && 0 <= l < 2
    ensures var b := 128 * f + 2 * t + l; b / 128 == f && Type(b) == t && b % 2 == l
  {
    var b := 128 * f + 2 * t + l;
    assert b / 2 == 64 * f + t;
  }

  lemma FirstReceived(u: Unpacker, b: u8, c: u8, piece: Bytes)
    ensures UnpackPayload(u, [Retyped(b, FU), c] + [Type(b) + FU_START] + piece) ==
            Outcome(u.(fuBuffer := u.fuBuffer + [b, c] + piece), true)
  {
    HeaderSplit(b);
    var payload := [Retyped(b, FU), c] + [Type(b) + FU_START] + piece;
    assert payload[0] == Retyped(b, FU) && payload[1] == c && payload[2] == Type(b) + FU_START && payload[3..] == piece;
    hide Retyped;
  }

  lemma MiddleReceived(u: Unpacker, head: Bytes, t: u8, piece: Bytes)
    requires |head| == 2 && Type(head[0]) == FU && t < 64
    ensures UnpackPayload(u, head + [t] + piece) == Outcome(u.(fuBuffer := u.fuBuffer + piece), true)
  {
    var payload := head + [t] + piece;
    assert payload[0] == head[0] && payload[2] == t && payload[3..] == piece;
    assert u.fuBuffer + [] + piece == u.fuBuffer + piece;
  }

  lemma LastReceived(u: Unpacker, head: Bytes, b: u8, piece: Bytes)
    requires |head| == 2 && Type(head[0]) == FU
    ensures UnpackPayload(u, head + [LastFuHeader(b)] + piece) ==
            Outcome(u.(fuBuffer := []).Emit(u.fuBuffer + piece), true)
  {
    var payload := head + [LastFuHeader(b)] + piece;
    assert payload[0] == head[0] && payload[2] == LastFuHeader(b) && payload[3..] == piece;
    assert u.fuBuffer + [] + piece == u.fuBuffer + piece;
  }

  lemma FragmentsUnderstood(head: Bytes, b: u8)
    requires |head| == 2 && Type(head[0]) == FU
    ensures Reassembles(UnpackPayload, head, Type(b), LastFuHeader(b))
  {
    hide UnpackPayload, LastFuHeader;
    forall u: Unpacker, piece: Bytes
      ensures UnpackPayload(u, head + [Type(b)] + piece) == Outcome(u.(fuBuffer := u.fuBuffer + piece), true)
      ensures UnpackPayload(u, head + [LastFuHeader(b)] + piece) == Outcome(u.(fuBuffer := []).Emit(u.fuBuffer + piece), true)
    {
      MiddleReceived(u, head, Type(b), piece);
      LastReceived(u, head, b, piece);
    }
  }

  /** The fragments of a unit come out as that unit, behind what was in the buffer before. */
  lemma FuReassembled(u: Unpacker, h: Header, nalu: Bytes, mtu: nat)
    requires Plain(h) && mtu > FU_OVERHEAD && !FitsOnePacket(nalu, mtu)
    ensures Delivered(u, h.timestamp, u.fuBuffer + nalu, Receive(UnpackPayload, u, Numbered(h, NaluPayloads(nalu, mtu))))
  {
    hide Fragments, Type, Retyped, LastFuHeader, Numbered, Receive, UnpackPayload, FuPayloads, Delivered, Flatten, Reassembles;
    var b, c, t, room := nalu[0], nalu[1], Type(nalu[0]), mtu - FU_OVERHEAD;
    var pieces := Fragments(nalu[2..], room);
    FragmentsWhole(nalu[2..], room);
    HeaderSplit(b);
    var head := [Retyped(b, FU), c];
    var ps := NaluPayloads(nalu, mtu);
    assert ps == FuPayloads(head, t + FU_START, t, LastFuHeader(b), pieces);
    hide NaluPayloads;
    FuPayloadsParts(head, t + FU_START, t, LastFuHeader(b), pieces);
    NaluWhole(nalu, pieces);
    Concat4(u.fuBuffer, [b, c], pieces[0], Flatten(pieces[1..]));
    ReceiveFirst(UnpackPayload, u, h, ps);
    FirstReceived(Stamped(u, h), b, c, pieces[0]);
    FragmentsUnderstood(head, b);
    var s := Stamped(u, h).(fuBuffer := u.fuBuffer + [b, c] + pieces[0]);
    TailReassembled(UnpackPayload, s, Next(h, 1), head, t, LastFuHeader(b), pieces[1..], u.fuBuffer + nalu);
    DeliveredLater(u, s, h, u.fuBuffer + nalu, Receive(UnpackPayload, s, Numbered(Next(h, 1), ps[1..])));
  }

  lemma NaluWhole(nalu: Bytes, pieces: seq<Bytes>)
    requires |nalu| >= 2 && pieces != [] && Flatten(pieces) == nalu[2..]
    ensures nalu == [nalu[0], nalu[1]] + pieces[0] + Flatten(pieces[1..])
  {
    assert nalu == [nalu[0], nalu[1]] + nalu[2..];
    Concat3([nalu[0], nalu[1]], pieces[0], Flatten(pieces[1..]));
  }

  /**
  The fragments in plain numbers: type 49 in the first of the unit's two bytes, its type with 128 in the first FU header and
  alone in the middle ones, and in the last 64 with the lower five bits of the first byte, which are not the type.
   */
  lemma FragmentBytes(nalu: Bytes, mtu: nat, i: nat)
    requires mtu > 15 && |nalu| + 12 > mtu && i < |NaluPayloads(nalu, mtu)|
    ensures var n, room, b := |NaluPayloads(nalu, mtu)|, mtu - 15, nalu[0];
            && n > 1 && CutInto(|nalu| - 2, room, n) && Stretch(|nalu| - 2, room, n, i)
            && NaluPayloads(nalu, mtu)[i]
            == Payload([b / 128 * 128 + 98 + b % 2, nalu[1],
                        if i == 0 then b / 2 % 64 + 128 else if i == n - 1 then b % 32 + 64 else b / 2 % 64]
                       + Piece(nalu[2..], room, n, i),
                       if i == n - 1 then 1 else 0)
  {
    hide Fragments, FuPayloads, CutInto, Stretch, Piece, NaluPayloads, LastFuHeader, Retyped, Type;
    var b, room := nalu[0], mtu - 15;
    PayloadsAre(nalu, mtu);
    PayloadsLaid([b / 128 * 128 + 98 + b % 2, nalu[1]], b / 2 % 64 + 128, b / 2 % 64, b % 32 + 64, nalu[2..], room, i);
  }

  lemma PayloadsAre(nalu: Bytes, mtu: nat)
    requires mtu > 15 && |nalu| + 12 > mtu
    ensures var b := nalu[0];
            NaluPayloads(nalu, mtu)
            == FuPayloads([b / 128 * 128 + 98 + b % 2, nalu[1]], b / 2 % 64 + 128, b / 2 % 64, b % 32 + 64, Fragments(nalu[2..], mtu - 15))
  {
    hide Fragments, FuPayloads;
  }

  /** Packets of type 49 are taken for fragments. */
  lemma FragmentTaken(u: Unpacker, payload: Bytes)
    requires |payload| >= 3 && payload[0] / 2 % 64 == 49
    ensures var start := if payload[2] >= 128
                         then [payload[0] / 128 * 128 + payload[2] % 64 * 2 + payload[0] % 2, payload[1]] else [];
            var buffer := u.fuBuffer + start + payload[3..];
            UnpackPayload(u, payload) ==
            Outcome(if payload[2] / 64 % 2 == 0 then u.(fuBuffer := buffer)
                    else u.(fuBuffer := [], frames := u.frames + [Frame(u.timestamp, [0, 0, 0, 1] + buffer)]), true)
  {
  }

  // ---------- Exactly which units arrive ----------

  /** A payload the unpacker takes for a single unit. */
  predicate IsSingle(payload: Bytes) {
    payload != [] && payload[0] / 2 % 64 !in {48, 49, 50}
  }

  function H265(mtu: nat): Codec
    requires mtu > FU_OVERHEAD
  {
    Codec(Packs(mtu), UnpackPayload, nalu => FitsOnePacket(nalu, mtu), IsSingle)
  }

  lemma AggregateIsShort(u: Unpacker, payload: Bytes)
    requires payload != [] && Type(payload[0]) == AP
    ensures var frames := UnpackPayload(u, payload).u.frames;
            u.frames <= frames && AllShorter(frames, |u.frames|, |payload|)
  {
    if |payload| >= 2 {
      P.StapUnitsShort(payload[2..]);
      EmitsEach(u, H264.StapUnits(payload[2..]).0, |payload|);
    }
  }

  // A unit the unpacker takes for something else never comes out whole.
  lemma MisreadIsLost(u: Unpacker, nalu: Bytes, timestamp: u32)
    requires u.fuBuffer == [] && !IsSingle(nalu)
    ensures UnpackPayload(u, nalu).u.frames != u.frames + [Frame(timestamp, START_CODE + nalu)]
  {
    if nalu != [] && Type(nalu[0]) == AP {
      AggregateIsShort(u, nalu);
    }
    var whole := Frame(timestamp, START_CODE + nalu);
    assert |whole.data| == |START_CODE| + |nalu|;
    assert (u.frames + [whole])[|u.frames|] == whole;
  }

  lemma UnpackEmits(u: Unpacker, payload: Bytes)
    ensures Emits(u.frames, UnpackPayload(u, payload).u.frames, |payload|)
  {
    if payload != [] && Type(payload[0]) == AP {
      AggregateIsShort(u, payload);
    }
  }

  lemma H265Works(mtu: nat)
    requires mtu > FU_OVERHEAD
    ensures Works(H265(mtu))
  {
    hide UnpackPayload, Receive, Numbered, Emits, Delivered;
    var c := H265(mtu);
    forall u: Unpacker, h: Header, nalu: Bytes | Plain(h) && !c.alone(nalu)
      ensures ComesWhole(c, u, h, nalu)
    {
      FuReassembled(u, h, nalu, mtu);
    }
    forall u: Unpacker, payload: Bytes
      ensures Understands(c, u, payload)
    {
      UnpackEmits(u, payload);
      if IsSingle(payload) {
        SingleEmitted(u, payload);
      } else if u.fuBuffer == [] {
        MisreadIsLost(u, payload, u.timestamp);
      }
    }
  }

  lemma SingleEmitted(u: Unpacker, payload: Bytes)
    requires IsSingle(payload)
    ensures UnpackPayload(u, payload) == Outcome(u.Emit(payload), true)
  {
  }

  /** A unit comes back as one frame, start code first, exactly when it was fragmented or its type is not 48, 49 or 50. */
  lemma NaluArrives(u: Unpacker, h: Header, nalu: Bytes, mtu: nat)
    requires Plain(h) && u.fuBuffer == [] && mtu > FU_OVERHEAD
    ensures Delivered(u, h.timestamp, nalu, Receive(UnpackPayload, u, Numbered(h, NaluPayloads(nalu, mtu))))
            <==> !FitsOnePacket(nalu, mtu) || IsSingle(nalu)
  {
    hide Receive, Numbered, Delivered, UnpackPayload, NaluPayloads, Works;
    H265Works(mtu);
    UnitArrives(H265(mtu), u, h, nalu);
  }

  /** A stream comes back as exactly its units if and only if every one of them does. */
  lemma StreamArrives(u: Unpacker, h: Header, nalus: seq<Bytes>, mtu: nat)
    requires Plain(h) && u.fuBuffer == [] && mtu > FU_OVERHEAD
    ensures Receive(UnpackPayload, u, Numbered(h, AllPayloads(Packs(mtu), nalus))).u.frames == u.frames + FramesOf(h.timestamp, nalus)
            <==> forall n | n in nalus :: !FitsOnePacket(n, mtu) || IsSingle(n)
  {
    hide Receive, Numbered, UnpackPayload, NaluPayloads, Works, AllPayloads, FramesOf;
    H265Works(mtu);
    RtpStreams.StreamArrives(H265(mtu), u, h, nalus);
  }

  /** The units of a stream come back, and the frames joined split to them again. */
  lemma StreamRoundTrip(u: Unpacker, h: Header, us: seq<Unit>, mtu: nat)
    requires Plain(h) && u.fuBuffer == [] && mtu > FU_OVERHEAD && Separable(Nalus(us))
    ensures var o := Receive(UnpackPayload, u, Numbered(h, AllPayloads(Packs(mtu), Split(Join(us)))));
            && (o.u.frames == u.frames + FramesOf(h.timestamp, Nalus(us))
                <==> forall n | n in Nalus(us) :: !FitsOnePacket(n, mtu) || IsSingle(n))
            && ((forall n | n in Nalus(us) :: !FitsOnePacket(n, mtu) || IsSingle(n)) ==> o.ok && o.u.fuBuffer == [])
            && Split(Joined(FramesOf(h.timestamp, Nalus(us)))) == Nalus(us)
  {
    hide Receive, Numbered, UnpackPayload, NaluPayloads, Works, AllPayloads, FramesOf, Separable, Split, Joined, Nalus, Join;
    H265Works(mtu);
    RtpStreams.StreamRoundTrip(H265(mtu), u, h, us);
  }
}
