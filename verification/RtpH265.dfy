/**
H.265 over RTP (protocol/rtsp/src/rtp/rtp_h265.rs): single NAL unit packets and fragmentation
units, section 4.4 of RFC 7798.  NAL units have a header of two bytes.
 */
module RtpH265 {
  import opened Bytesio
  import opened AnnexB
  import opened Rtp
  import opened RtpPacking
  import opened RtpStreams
  import H264 = RtpH264

  const AP: u8 := 48
  const FU: u8 := 49
  const PACI: u8 := 50

  // Bytes of a packet taken by the RTP header, the payload header and the FU header.
  const FU_OVERHEAD: nat := FIXED_HEADER_LEN + 3

  function Type(b: u8): u8 {
    b / 2 % 64
  }

  /** The first header byte with another type: the forbidden bit and the high layer bit stay. */
  function Retyped(b: u8, t: u8): u8
    requires t < 64
  {
    b / 128 * 128 + 2 * t + b % 2
  }

  // ---------- Packing ----------

  predicate FitsOnePacket(nalu: Bytes, mtu: nat) {
    |nalu| + FIXED_HEADER_LEN <= mtu
  }

  /** The last fragment's header is made from the low bits of the first byte, not from the type. */
  function LastFuHeader(b: u8): u8 {
    b % 32 + FU_END
  }

  function NaluPayloads(nalu: Bytes, mtu: nat): seq<Payload>
    requires mtu > FU_OVERHEAD
  {
    if FitsOnePacket(nalu, mtu) then [Payload(nalu, 1)]
    else
      var t := Type(nalu[0]);
      FuPayloads([Retyped(nalu[0], FU), nalu[1]], t + FU_START, t, LastFuHeader(nalu[0]), Fragments(nalu[2..], mtu - FU_OVERHEAD))
  }

  function Packs(mtu: nat): Bytes -> seq<Payload>
    requires mtu > FU_OVERHEAD
  {
    nalu => NaluPayloads(nalu, mtu)
  }

  /** Every packet fits the mtu, and only the last packet of each NAL unit carries the marker. */
  lemma NaluPacketsFit(h: Header, nalu: Bytes, mtu: nat)
    requires Plain(h) && mtu > FU_OVERHEAD
    ensures forall p | p in Numbered(h, NaluPayloads(nalu, mtu)) :: |Marshal(p)| <= mtu
    ensures MarkedAtEnd(NaluPayloads(nalu, mtu))
  {
    var ps := NaluPayloads(nalu, mtu);
    if !FitsOnePacket(nalu, mtu) {
      var t, room, head := Type(nalu[0]), mtu - FU_OVERHEAD, [Retyped(nalu[0], FU), nalu[1]];
      var pieces := Fragments(nalu[2..], room);
      FragmentsWhole(nalu[2..], room);
      FuMarkedAtEnd(head, t + FU_START, t, LastFuHeader(nalu[0]), pieces);
      FuFits(head, t + FU_START, t, LastFuHeader(nalu[0]), pieces, room);
    }
    assert forall p | p in ps :: |p.data| + FIXED_HEADER_LEN <= mtu;
    forall i: nat | i < |ps| ensures |Marshal(Numbered(h, ps)[i])| <= mtu {
      NumberedInOrder(h, ps, i);
      assert ps[i] in ps;
      PlainPacket(h.(seqNumber := (h.seqNumber + i) % 0x1_0000, marker := ps[i].marker), ps[i].data);
    }
  }

  /** The sequence number is incremented without wrapping; past 65535 the addition overflows. */
  predicate CanNumber(h: Header, n: nat) {
    h.seqNumber + n < 0x1_0000
  }

  class RtpH265Packer {
    var header: Header
    const mtu: nat
    // What the packet handler has been given.
    var packets: seq<Packet>

    constructor (payloadType: PayloadType, ssrc: u32, initSeq: u16, mtu: nat)
      ensures this.mtu == mtu && packets == [] && Plain(header)
      ensures header.seqNumber == initSeq && header.payloadType == payloadType && header.ssrc == ssrc
    {
      this.mtu := mtu;
      header := Header(2, 0, 0, 0, 0, payloadType, initSeq, 0, ssrc, []);
      packets := [];
    }

    method Send(payload: Bytes, marker: Bit)
      requires CanNumber(header, 1)
      modifies this
      ensures packets == old(packets) + [NewPacket(old(header).(marker := marker)).(payload := payload)]
      ensures header == Next(old(header), 1)
    {
      var packet := NewPacket(header);
      packet := packet.(payload := payload, header := header.(marker := marker));
      packets := packets + [packet];
      header := header.(seqNumber := header.seqNumber + 1);
    }

    method PackSingle(nalu: Bytes)
      requires CanNumber(header, 1)
      modifies this
      ensures packets == old(packets) + Numbered(old(header), [Payload(nalu, 1)])
      ensures header == Next(old(header), 1)
    {
      SingleNumbered(header, Payload(nalu, 1));
      Send(nalu, 1);
    }

    /** The next fragment of `left`: its payload, its marker, what it takes, the FU header after it. */
    method NextFragment(first: u8, head: Bytes, fuHeader: u8, left: Bytes)
      returns (payload: Bytes, marker: Bit, size: nat, next: u8)
      requires mtu > FU_OVERHEAD && left != []
      requires fuHeader == Type(first) || (fuHeader == Type(first) + FU_START && |left| > mtu - FU_OVERHEAD)
      ensures size == if |left| <= mtu - FU_OVERHEAD then |left| else mtu - FU_OVERHEAD
      ensures marker == if size == |left| then 1 else 0
      ensures size == |left| ==> payload == head + [LastFuHeader(first)] + left
      ensures size < |left| ==> payload == head + [fuHeader] + left[..size] && next == Type(first)
    {
      next := fuHeader;
      if |left| + FIXED_HEADER_LEN <= mtu - 3 {
        next := first % 32 + FU_END;
        size := |left|;
      } else {
        size := mtu - FIXED_HEADER_LEN - 3;
      }
      payload := head + [next] + left[..size];
      marker := if next / FU_END % 2 == 1 then 1 else 0;
      if next >= FU_START {
        next := next - FU_START;
      }
    }

    method PackFu(nalu: Bytes)
      requires mtu > FU_OVERHEAD && !FitsOnePacket(nalu, mtu) && CanNumber(header, |NaluPayloads(nalu, mtu)|)
      modifies this
      ensures packets == old(packets) + Numbered(old(header), NaluPayloads(nalu, mtu))
      ensures header == Next(old(header), |NaluPayloads(nalu, mtu)|)
    {
      var first, left := nalu[0], nalu[2..];
      var head := [Retyped(first, FU), nalu[1]];
      var fuHeader: u8 := Type(first) + FU_START;
      ghost var t, room, h, start, last := Type(first), mtu - FU_OVERHEAD, header, packets, LastFuHeader(first);
      ghost var all, done := NaluPayloads(nalu, mtu), [];
      SentNone(start, h);
      WholeStart(head, fuHeader, t, last, left, room);
      hide Numbered, Fragments, FuPayloads, NaluPayloads, Retyped, Type, Sent, Whole, LastFuHeader;
      while |left| > 0
        invariant left != [] ==> fuHeader == t || (fuHeader == t + FU_START && |left| > room)
        invariant left != [] ==> Whole(done, head, fuHeader, t, last, left, room) == all
        invariant left == [] ==> done == all
        invariant packets == Sent(start, h, done) && header == Next(h, |done|)
        decreases |left|
      {
        WholeTurn(done, head, fuHeader, t, last, left, room);
        MoreToCome(done, head, fuHeader, t, last, left, room);
        var payload, marker, size;
        payload, marker, size, fuHeader := NextFragment(first, head, fuHeader, left);
        SentSnoc(start, h, done, Payload(payload, marker));
        Send(payload, marker);
        left := left[size..];
        done := done + [Payload(payload, marker)];
      }
      SentIs(start, h, all);
    }

    method PackNalu(nalu: Bytes)
      requires mtu > FU_OVERHEAD && CanNumber(header, |NaluPayloads(nalu, mtu)|)
      modifies this
      ensures packets == old(packets) + Numbered(old(header), NaluPayloads(nalu, mtu))
      ensures header == Next(old(header), |NaluPayloads(nalu, mtu)|)
    {
      if |nalu| + FIXED_HEADER_LEN <= mtu {
        PackSingle(nalu);
      } else {
        PackFu(nalu);
      }
    }

    /** `pack`: the NAL units of an Annex B stream, one after the other. */
    method Pack(stream: Bytes, timestamp: u32)
      requires mtu > FU_OVERHEAD && CanNumber(header, |AllPayloads(Packs(mtu), Split(stream))|)
      modifies this
      ensures var payloads := AllPayloads(Packs(mtu), Split(stream));
              && packets == old(packets) + Numbered(old(header).(timestamp := timestamp), payloads)
              && header == Next(old(header).(timestamp := timestamp), |payloads|)
    {
      hide Sent, Next, NaluPayloads, StreamWhole, AllPayloads, Numbered, Split, FindStartCode, UnitEnd;
      header := header.(timestamp := timestamp);
      ghost var packs := Packs(mtu);
      ghost var h, start, all := header, packets, AllPayloads(packs, Split(stream));
      ghost var done: seq<Payload> := [];
      var nalus := stream;
      SentNone(start, h);
      StreamStart(packs, stream);
      assert CanNumber(h, |all|);
      hide CanNumber;
      while nalus != []
        invariant StreamWhole(packs, done, nalus) == all && CanNumber(h, |all|)
        invariant packets == Sent(start, h, done) && header == Next(h, |done|)
        decreases |nalus|
      {
        StreamTurn(packs, done, nalus);
        match FindStartCode(nalus)
        case Some(firstPos) =>
          var end := NextEnd(nalus, firstPos);
          var nalu := nalus[firstPos + 3..end];
          NextCanNumber(h, packs, done, packs(nalu), nalus[end..]);
          PackNalu(nalu);
          SentConcat(start, h, done, packs(nalu));
          nalus := nalus[end..];
          done := done + packs(nalu);
        case None =>
          break;
      }
      StreamTurn(packs, done, nalus);
      SentIs(start, h, all);
    }
  }

  /** The numbers left are enough for the next unit. */
  lemma NextCanNumber(h: Header, packs: Bytes -> seq<Payload>, done: seq<Payload>, ps: seq<Payload>, nalus: Bytes)
    requires CanNumber(h, |StreamWhole(packs, done + ps, nalus)|)
    ensures CanNumber(Next(h, |done|), |ps|)
  {
  }

  // While something is left there is another payload to number.
  lemma MoreToCome(done: seq<Payload>, head: Bytes, first: u8, middle: u8, last: u8, left: Bytes, room: nat)
    requires room > 0 && left != []
    ensures |Whole(done, head, first, middle, last, left, room)| > |done|
  {
  }

  // ---------- Unpacking ----------

  /** A fragment; the type in its FU header counts only in the first. */
  function FuOutcome(u: Unpacker, payload: Bytes): Outcome {
    if |payload| < 3 then Outcome(u, false)
    else
      var fuHeader := payload[2];
      var head := if fuHeader >= FU_START then [Retyped(payload[0], fuHeader % 64), payload[1]] else [];
      var buffer := u.fuBuffer + head + payload[3..];
      if fuHeader / FU_END % 2 == 1 then Outcome(u.(fuBuffer := []).Emit(buffer), true)
      else Outcome(u.(fuBuffer := buffer), true)
  }

  /** An aggregation packet has units behind two-byte sizes, as in H.264. */
  function ApOutcome(u: Unpacker, payload: Bytes): Outcome {
    if |payload| < 2 then Outcome(u, false)
    else
      var (units, ok) := H264.StapUnits(payload[2..]);
      Outcome(u.EmitAll(units), ok)
  }

  function UnpackPayload(u: Unpacker, payload: Bytes): Outcome {
    if payload == [] then Outcome(u, true)
    else if Type(payload[0]) == FU then FuOutcome(u, payload)
    else if Type(payload[0]) == AP then ApOutcome(u, payload)
    else if Type(payload[0]) == PACI then Outcome(u, true)
    else Outcome(u.Emit(payload), true)
  }

  class RtpH265UnPacker {
    var sequenceNumber: u16
    var timestamp: u32
    var fuBuffer: Bytes
    // What the frame handler has been given.
    var frames: seq<Frame>

    function Model(): Unpacker
      reads this
    {
      Unpacker(sequenceNumber, timestamp, fuBuffer, frames)
    }

    constructor ()
      ensures Model() == Unpacker(0, 0, [], [])
    {
      sequenceNumber, timestamp, fuBuffer, frames := 0, 0, [], [];
    }

    method OnFrame(nalu: Bytes)
      modifies this
      ensures Model() == old(Model()).Emit(nalu)
    {
      frames := frames + [Frame(timestamp, START_CODE + nalu)];
    }

    method Unpack(reader: BytesReader) returns (ok: bool)
      modifies this, reader
      ensures Outcome(Model(), ok) == UnpackBytes(UnpackPayload, old(Model()), old(reader.buffer))
    {
      hide Unmarshal, FuOutcome, ApOutcome;
      var r := UnmarshalPacket(reader);
      if r.Err? {
        return false;
      }
      var p := r.value;
      timestamp := p.header.timestamp;
      sequenceNumber := p.header.seqNumber;
      if p.payload == [] {
        return true;
      }
      var t := Type(p.payload[0]);
      if t == FU {
        ok := UnpackFu(p.payload);
      } else if t == AP {
        ok := UnpackAp(p.payload);
      } else if t == PACI {
        return true;
      } else {
        OnFrame(p.payload);
        return true;
      }
    }

    method UnpackFu(payload: Bytes) returns (ok: bool)
      modifies this
      ensures Outcome(Model(), ok) == FuOutcome(old(Model()), payload)
    {
      hide Retyped;
      var reader := new BytesReader(payload);
      var first := reader.ReadU8();
      if first.Err? {
        return false;
      }
      var second := reader.ReadU8();
      if second.Err? {
        return false;
      }
      var fuHeader := reader.ReadU8();
      if fuHeader.Err? {
        return false;
      }
      assert reader.buffer == payload[3..];
      ghost var head: Bytes := if fuHeader.value >= FU_START then [Retyped(payload[0], fuHeader.value % 64), payload[1]] else [];
      if fuHeader.value >= FU_START {
        fuBuffer := fuBuffer + [Retyped(first.value, fuHeader.value % 64), second.value];
      }
      assert fuBuffer == old(fuBuffer) + head;
      var rest := reader.ExtractRemainingBytes();
      fuBuffer := fuBuffer + rest;
      if fuHeader.value / FU_END % 2 == 1 {
        var nalu := fuBuffer;
        fuBuffer := [];
        OnFrame(nalu);
      }
      return true;
    }

    method UnpackAp(payload: Bytes) returns (ok: bool)
      modifies this
      ensures Outcome(Model(), ok) == ApOutcome(old(Model()), payload)
    {
      hide H264.StapUnits, FromU16Be;
      var reader := new BytesReader(payload);
      var header := reader.ReadBytes(2);
      if header.Err? {
        return false;
      }
      ghost var (units, good) := H264.StapUnits(reader.buffer);
      while reader.buffer != []
        invariant fresh(reader)
        invariant Model().EmitAll(H264.StapUnits(reader.buffer).0) == old(Model()).EmitAll(units)
        invariant H264.StapUnits(reader.buffer).1 == good
        decreases |reader.buffer|
      {
        ghost var b := reader.buffer;
        H264.StapTurn(Model(), b);
        var length := reader.ReadU16Be();
        if length.Err? {
          return false;
        }
        var n: nat := length.value;
        var nalu := reader.ReadBytes(n);
        if nalu.Err? {
          return false;
        }
        assert nalu.value == b[2..2 + n] && reader.buffer == b[2 + n..];
        OnFrame(nalu.value);
      }
      H264.StapTurn(Model(), reader.buffer);
      return true;
    }
  }
}
