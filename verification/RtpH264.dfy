/**
H.264 over RTP (protocol/rtsp/src/rtp/rtp_h264.rs): single NAL unit packets and FU-A
fragments, sections 5.6 and 5.8 of RFC 6184, and their reassembly.
 */
module RtpH264 {
  import opened Bytesio
  import opened AnnexB
  import opened Rtp
  import opened RtpPacking
  import opened RtpStreams

  const STAP_A: u8 := 24
  const STAP_B: u8 := 25
  const MTAP_16: u8 := 26
  const MTAP_24: u8 := 27
  const FU_A: u8 := 28
  const FU_B: u8 := 29

  // Bytes of a packet taken by the RTP header, the FU indicator and the FU header.
  const FU_OVERHEAD: nat := FIXED_HEADER_LEN + 2

  function Type(b: u8): u8 {
    b % 32
  }

  // The forbidden bit and nal_ref_idc.
  function Upper(b: u8): u8 {
    b / 32 * 32
  }

  // ---------- Packing ----------

  predicate FitsOnePacket(nalu: Bytes, mtu: nat) {
    |nalu| + FIXED_HEADER_LEN <= mtu
  }

  /** An mtu that leaves room for payload behind the headers of a fragment. */
  predicate Packable(nalu: Bytes, mtu: nat) {
    FitsOnePacket(nalu, mtu) || mtu > FU_OVERHEAD
  }

  function NaluPayloads(nalu: Bytes, mtu: nat): seq<Payload>
    requires Packable(nalu, mtu)
  {
    if FitsOnePacket(nalu, mtu) then [Payload(nalu, 1)]
    else
      var t := Type(nalu[0]);
      FuPayloads([Upper(nalu[0]) + FU_A], t + FU_START, t, t + FU_END, Fragments(nalu[1..], mtu - FU_OVERHEAD))
  }

  function Packs(mtu: nat): Bytes -> seq<Payload>
    requires mtu > FU_OVERHEAD
  {
    nalu => NaluPayloads(nalu, mtu)
  }

  /** Every packet fits the mtu, and only the last packet of each NAL unit carries the marker. */
  lemma NaluPacketsFit(h: Header, nalu: Bytes, mtu: nat)
    requires Plain(h) && Packable(nalu, mtu)
    ensures forall p | p in Numbered(h, NaluPayloads(nalu, mtu)) :: |Marshal(p)| <= mtu
    ensures MarkedAtEnd(NaluPayloads(nalu, mtu))
  {
    var ps := NaluPayloads(nalu, mtu);
    if !FitsOnePacket(nalu, mtu) {
      var t, room := Type(nalu[0]), mtu - FU_OVERHEAD;
      var pieces := Fragments(nalu[1..], room);
      FragmentsWhole(nalu[1..], room);
      FuMarkedAtEnd([Upper(nalu[0]) + FU_A], t + FU_START, t, t + FU_END, pieces);
      FuFits([Upper(nalu[0]) + FU_A], t + FU_START, t, t + FU_END, pieces, room);
    }
    assert forall p | p in ps :: |p.data| + FIXED_HEADER_LEN <= mtu;
    forall i: nat | i < |ps| ensures |Marshal(Numbered(h, ps)[i])| <= mtu {
      NumberedInOrder(h, ps, i);
      assert ps[i] in ps;
      PlainPacket(h.(seqNumber := (h.seqNumber + i) % 0x1_0000, marker := ps[i].marker), ps[i].data);
    }
  }

  class RtpH264Packer {
    var header: Header
    const mtu: nat
    // What the packet handler has been given.
    var packets: seq<Packet>

    constructor (payloadType: PayloadType, ssrc: u32, initSeq: u16, mtu: nat)
      ensures this.mtu == mtu && packets == [] && Plain(header)
      ensures header.seqNumber == initSeq && header.version == 2
      ensures header.payloadType == payloadType && header.ssrc == ssrc
    {
      this.mtu := mtu;
      header := Header(2, 0, 0, 0, 0, payloadType, initSeq, 0, ssrc, []);
      packets := [];
    }

    // Hands one packet to the handler and moves on to the next sequence number.
    method Send(payload: Bytes, marker: Bit)
      modifies this
      ensures packets == old(packets) + [NewPacket(old(header).(marker := marker)).(payload := payload)]
      ensures header == Next(old(header), 1)
    {
      var packet := NewPacket(header);
      packet := packet.(payload := payload, header := header.(marker := marker));
      packets := packets + [packet];
      header := header.(seqNumber := (header.seqNumber + 1) % 0x1_0000);
    }

    method PackSingle(nalu: Bytes)
      modifies this
      ensures packets == old(packets) + Numbered(old(header), [Payload(nalu, 1)])
      ensures header == Next(old(header), 1)
    {
      SingleNumbered(header, Payload(nalu, 1));
      Send(nalu, 1);
    }

    /** The next fragment of `left`: its payload, its marker, what it takes, the FU header after it. */
    method NextFragment(byte1: u8, indicator: u8, fuHeader: u8, left: Bytes)
      returns (payload: Bytes, marker: Bit, size: nat, next: u8)
      requires mtu > FU_OVERHEAD && left != []
      requires fuHeader == Type(byte1) || (fuHeader == Type(byte1) + FU_START && |left| > mtu - FU_OVERHEAD)
      ensures size == if |left| <= mtu - FU_OVERHEAD then |left| else mtu - FU_OVERHEAD
      ensures marker == if size == |left| then 1 else 0
      ensures size == |left| ==> payload == [indicator] + [Type(byte1) + FU_END] + left
      ensures size < |left| ==> payload == [indicator] + [fuHeader] + left[..size] && next == Type(byte1)
    {
      next := fuHeader;
      if |left| + FIXED_HEADER_LEN <= mtu - 2 {
        next := Type(byte1) + FU_END;
        size := |left|;
      } else {
        size := mtu - FIXED_HEADER_LEN - 2;
      }
      payload := [indicator] + [next] + left[..size];
      if next >= FU_START {
        next := next - FU_START;
      }
      marker := if next / FU_END % 2 == 1 then 1 else 0;
    }

    method PackFuA(nalu: Bytes)
      requires mtu > FU_OVERHEAD && !FitsOnePacket(nalu, mtu)
      modifies this
      ensures packets == old(packets) + Numbered(old(header), NaluPayloads(nalu, mtu))
      ensures header == Next(old(header), |NaluPayloads(nalu, mtu)|)
    {
      var byte1, left := nalu[0], nalu[1..];
      var indicator: u8 := Upper(byte1) + FU_A;
      var fuHeader: u8 := Type(byte1) + FU_START;
      ghost var t, room, h, start := Type(byte1), mtu - FU_OVERHEAD, header, packets;
      ghost var all, done := NaluPayloads(nalu, mtu), [];
      SentNone(start, h);
      WholeStart([indicator], fuHeader, t, t + FU_END, left, room);
      hide Numbered, Next, Fragments, FuPayloads, NaluPayloads, Upper, Type, Sent, Whole;
      while |left| > 0
        invariant left != [] ==> fuHeader == t || (fuHeader == t + FU_START && |left| > room)
        invariant left != [] ==> Whole(done, [indicator], fuHeader, t, t + FU_END, left, room) == all
        invariant left == [] ==> done == all
        invariant packets == Sent(start, h, done) && header == Next(h, |done|)
        decreases |left|
      {
        WholeTurn(done, [indicator], fuHeader, t, t + FU_END, left, room);
        var payload, marker, size;
        payload, marker, size, fuHeader := NextFragment(byte1, indicator, fuHeader, left);
        SentSnoc(start, h, done, Payload(payload, marker));
        Send(payload, marker);
        left := left[size..];
        done := done + [Payload(payload, marker)];
      }
      SentIs(start, h, all);
    }

    method PackNalu(nalu: Bytes)
      requires Packable(nalu, mtu)
      modifies this
      ensures packets == old(packets) + Numbered(old(header), NaluPayloads(nalu, mtu))
      ensures header == Next(old(header), |NaluPayloads(nalu, mtu)|)
    {
      if |nalu| + FIXED_HEADER_LEN <= mtu {
        PackSingle(nalu);
      } else {
        PackFuA(nalu);
      }
    }

    /** `pack`: the NAL units of an Annex B stream, one after the other. */
    method Pack(stream: Bytes, timestamp: u32)
      requires mtu > FU_OVERHEAD
      modifies this
      ensures var payloads := AllPayloads(Packs(mtu), Split(stream));
              && packets == old(packets) + Numbered(old(header).(timestamp := timestamp), payloads)
              && header == Next(old(header).(timestamp := timestamp), |payloads|)
    {
      hide Sent, Next, NaluPayloads, StreamWhole, AllPayloads, Numbered, Split, FindStartCode, UnitEnd;
      header := header.(timestamp := timestamp);
      ghost var packs := Packs(mtu);
      ghost var h, start, all := header, packets, AllPayloads(packs, Split(stream));
      ghost var done: seq<Payload> := [];
      var nalus := stream;
      SentNone(start, h);
      StreamStart(packs, stream);
      while nalus != []
        invariant StreamWhole(packs, done, nalus) == all
        invariant packets == Sent(start, h, done) && header == Next(h, |done|)
        decreases |nalus|
      {
        StreamTurn(packs, done, nalus);
        match FindStartCode(nalus)
        case Some(firstPos) =>
          var end := NextEnd(nalus, firstPos);
          var nalu := nalus[firstPos + 3..end];
          PackNalu(nalu);
          SentConcat(start, h, done, packs(nalu));
          nalus := nalus[end..];
          done := done + packs(nalu);
        case None =>
          break;
      }
      StreamTurn(packs, done, nalus);
      SentIs(start, h, all);
    }
  }

  // ---------- Unpacking ----------

  /** Two-byte sizes and units, until the payload ends or falls short. */
  function StapUnits(b: Bytes): (seq<Bytes>, bool)
    decreases |b|
  {
    if b == [] then ([], true)
    else if |b| < 2 then ([], false)
    else
      var n := FromU16Be(b[..2]);
      if |b| < 2 + n as int then ([], false)
      else
        var (units, ok) := StapUnits(b[2 + n as int..]);
        ([b[2..2 + n as int]] + units, ok)
  }

  /** The type byte is compared with its upper bits, so only a zero NRI skips the decoding order number. */
  function StapOutcome(u: Unpacker, payload: Bytes, t: u8): Outcome
    requires payload != []
  {
    var skip := if t == STAP_B then 3 else 1;
    if |payload| < skip then Outcome(u, false)
    else
      var (units, ok) := StapUnits(payload[skip..]);
      Outcome(u.EmitAll(units), ok)
  }

  /** The bytes of the timestamp offset; no other type byte selects any. */
  function OffsetWidth(t: u8): nat {
    if t == MTAP_16 then 2 else if t == MTAP_24 then 3 else 0
  }

  /** The timestamp offset, which the source asserts not to be zero. */
  function MtapOffset(b: Bytes, t: u8): nat
    requires |b| >= OffsetWidth(t)
  {
    if t == MTAP_16 then FromU16Be(b[..2]) else if t == MTAP_24 then FromU24Be(b[..3]) else 0
  }

  /** Size, DOND and timestamp offset in front of a unit, all but the first counted in the size. */
  function MtapUnit(b: Bytes, t: u8): (r: Option<(Bytes, Bytes)>)
    ensures r.Some? ==> |r.value.1| < |b|
  {
    var width := OffsetWidth(t);
    if |b| < 3 + width then None
    else
      var size: nat, tail := FromU16Be(b[..2]), b[3 + width..];
      if MtapOffset(b[3..], t) == 0 || size < width + 1 || |tail| < size - width - 1 then None
      else Some((tail[..size - width - 1], tail[size - width - 1..]))
  }

  function MtapUnits(b: Bytes, t: u8): (seq<Bytes>, bool)
    decreases |b|
  {
    if b == [] then ([], true)
    else
      match MtapUnit(b, t)
      case None => ([], false)
      case Some((unit, rest)) =>
        var (units, ok) := MtapUnits(rest, t);
        ([unit] + units, ok)
  }

  function MtapOutcome(u: Unpacker, payload: Bytes, t: u8): Outcome {
    if |payload| < 3 then Outcome(u, false)
    else
      var (units, ok) := MtapUnits(payload[3..], t);
      Outcome(u.EmitAll(units), ok)
  }

  function FuOutcome(u: Unpacker, payload: Bytes, t: u8): Outcome {
    var skip := if t == FU_B then 4 else 2;
    if |payload| < skip then Outcome(u, false)
    else
      var indicator, fuHeader := payload[0], payload[1];
      var head := if fuHeader >= FU_START then [Upper(indicator) + Type(fuHeader)] else [];
      var buffer := u.fuBuffer + head + payload[skip..];
      if fuHeader / FU_END % 2 == 1 then Outcome(u.(fuBuffer := []).Emit(buffer), true)
      else Outcome(u.(fuBuffer := buffer), true)
  }

  function UnpackPayload(u: Unpacker, payload: Bytes): Outcome {
    if payload == [] then Outcome(u, true)
    else
      var t := payload[0];
      if 1 <= Type(t) <= 23 then Outcome(u.Emit(payload), true)
      else if Type(t) == STAP_A || Type(t) == STAP_B then StapOutcome(u, payload, t)
      else if Type(t) == MTAP_16 || Type(t) == MTAP_24 then MtapOutcome(u, payload, t)
      else if Type(t) == FU_A || Type(t) == FU_B then FuOutcome(u, payload, t)
      else Outcome(u, true)
  }

  // One turn of the loop over the units of an aggregation packet.
  lemma StapTurn(u: Unpacker, b: Bytes)
    ensures var (units, ok) := StapUnits(b);
            if b == [] then ok && u.EmitAll(units) == u
            else if |b| < 2 || |b| < 2 + FromU16Be(b[..2]) as int then !ok && u.EmitAll(units) == u
            else
              var e := 2 + FromU16Be(b[..2]) as int;
              var (rest, good) := StapUnits(b[e..]);
              ok == good && u.EmitAll(units) == u.Emit(b[2..e]).EmitAll(rest)
  {
    hide FromU16Be;
    if |b| >= 2 && |b| >= 2 + FromU16Be(b[..2]) as int {
      var e := 2 + FromU16Be(b[..2]) as int;
      EmitAllFirst(u, b[2..e], StapUnits(b[e..]).0);
    }
  }

  class RtpH264UnPacker {
    var sequenceNumber: u16
    var timestamp: u32
    var fuBuffer: Bytes
    // What the frame handler has been given.
    var frames: seq<Frame>

    function Model(): Unpacker
      reads this
    {
      Unpacker(sequenceNumber, timestamp, fuBuffer, frames)
    }

    constructor ()
      ensures Model() == Unpacker(0, 0, [], [])
    {
      sequenceNumber, timestamp, fuBuffer, frames := 0, 0, [], [];
    }

    method OnFrame(nalu: Bytes)
      modifies this
      ensures Model() == old(Model()).Emit(nalu)
    {
      frames := frames + [Frame(timestamp, START_CODE + nalu)];
    }

    method Unpack(reader: BytesReader) returns (ok: bool)
      modifies this, reader
      ensures Outcome(Model(), ok) == UnpackBytes(UnpackPayload, old(Model()), old(reader.buffer))
    {
      hide Unmarshal, FuOutcome, StapOutcome, MtapOutcome;
      var r := UnmarshalPacket(reader);
      if r.Err? {
        return false;
      }
      var p := r.value;
      timestamp := p.header.timestamp;
      sequenceNumber := p.header.seqNumber;
      if p.payload == [] {
        return true;
      }
      var t := p.payload[0];
      if 1 <= Type(t) <= 23 {
        OnFrame(p.payload);
        return true;
      } else if Type(t) == STAP_A || Type(t) == STAP_B {
        ok := UnpackStap(p.payload, t);
      } else if Type(t) == MTAP_16 || Type(t) == MTAP_24 {
        ok := UnpackMtap(p.payload, t);
      } else if Type(t) == FU_A || Type(t) == FU_B {
        ok := UnpackFu(p.payload, t);
      } else {
        return true;
      }
    }

    method UnpackFu(payload: Bytes, t: u8) returns (ok: bool)
      modifies this
      ensures Outcome(Model(), ok) == FuOutcome(old(Model()), payload, t)
    {
      var reader := new BytesReader(payload);
      var indicator := reader.ReadU8();
      if indicator.Err? {
        return false;
      }
      var fuHeader := reader.ReadU8();
      if fuHeader.Err? {
        return false;
      }
      if t == FU_B {
        var don := reader.ReadU16Be();
        if don.Err? {
          return false;
        }
      }
      ghost var skip := if t == FU_B then 4 else 2;
      assert reader.buffer == payload[skip..];
      if fuHeader.value >= FU_START {
        fuBuffer := fuBuffer + [Upper(indicator.value) + Type(fuHeader.value)];
      }
      var rest := reader.ExtractRemainingBytes();
      fuBuffer := fuBuffer + rest;
      if fuHeader.value / FU_END % 2 == 1 {
        var nalu := fuBuffer;
        fuBuffer := [];
        OnFrame(nalu);
      }
      assert old(fuBuffer) + [] + payload[skip..] == old(fuBuffer) + payload[skip..];
      return true;
    }

    method UnpackStap(payload: Bytes, t: u8) returns (ok: bool)
      requires payload != []
      modifies this
      ensures Outcome(Model(), ok) == StapOutcome(old(Model()), payload, t)
    {
      hide StapUnits, FromU16Be;
      var reader := new BytesReader(payload);
      var _ := reader.ReadU8();
      if t == STAP_B {
        var don := reader.ReadU16Be();
        if don.Err? {
          return false;
        }
      }
      ghost var skip := if t == STAP_B then 3 else 1;
      assert reader.buffer == payload[skip..];
      ghost var (units, good) := StapUnits(reader.buffer);
      StapTurn(Model(), reader.buffer);
      while reader.buffer != []
        invariant fresh(reader)
        invariant Model().EmitAll(StapUnits(reader.buffer).0) == old(Model()).EmitAll(units)
        invariant StapUnits(reader.buffer).1 == good
        decreases |reader.buffer|
      {
        ghost var b := reader.buffer;
        StapTurn(Model(), b);
        var length := reader.ReadU16Be();
        if length.Err? {
          return false;
        }
        var n: nat := length.value;
        var nalu := reader.ReadBytes(n);
        if nalu.Err? {
          return false;
        }
        assert nalu.value == b[2..2 + n] && reader.buffer == b[2 + n..];
        OnFrame(nalu.value);
      }
      StapTurn(Model(), reader.buffer);
      return true;
    }

    method UnpackMtap(payload: Bytes, t: u8) returns (ok: bool)
      modifies this
      ensures Outcome(Model(), ok) == MtapOutcome(old(Model()), payload, t)
    {
      var reader := new BytesReader(payload);
      var header := reader.ReadU8();
      if header.Err? {
        return false;
      }
      var base := reader.ReadU16Be();
      if base.Err? {
        return false;
      }
      assert reader.buffer == payload[3..];
      ghost var (units, good) := MtapUnits(reader.buffer, t);
      while reader.buffer != []
        invariant fresh(reader)
        invariant Model().EmitAll(MtapUnits(reader.buffer, t).0) == old(Model()).EmitAll(units)
        invariant MtapUnits(reader.buffer, t).1 == good
        decreases |reader.buffer|
      {
        hide MtapUnit;
        var nalu := ReadMtapUnit(reader, t);
        if nalu.Err? {
          return false;
        }
        EmitAllFirst(Model(), nalu.value, MtapUnits(reader.buffer, t).0);
        OnFrame(nalu.value);
      }
      return true;
    }

    method ReadOffset(reader: BytesReader, t: u8) returns (r: Result<nat>)
      modifies reader
      ensures var b := old(reader.buffer);
              if |b| < OffsetWidth(t) then r.Err?
              else r == Ok(MtapOffset(b, t)) && reader.buffer == b[OffsetWidth(t)..]
    {
      if t == MTAP_16 {
        var x :- reader.ReadU16Be();
        return Ok(x);
      } else if t == MTAP_24 {
        var x :- reader.ReadU24Be();
        return Ok(x);
      }
      return Ok(0);
    }

    /** One aggregation unit; where the source panics this fails. */
    method ReadMtapUnit(reader: BytesReader, t: u8) returns (r: Result<Bytes>)
      modifies reader
      ensures match MtapUnit(old(reader.buffer), t)
              case Some((unit, rest)) => r == Ok(unit) && reader.buffer == rest
              case None => r.Err?
    {
      hide FromU16Be, MtapOffset, OffsetWidth;
      ghost var b := reader.buffer;
      var size :- reader.ReadU16Be();
      var dond :- reader.ReadU8();
      assert reader.buffer == b[3..];
      var offset :- ReadOffset(reader, t);
      assert b[3..][OffsetWidth(t)..] == b[3 + OffsetWidth(t)..];
      if offset == 0 || size < OffsetWidth(t) + 1 {
        return Err(Overflow);
      }
      r := reader.ReadBytes(size - OffsetWidth(t) - 1);
    }
  }
}
