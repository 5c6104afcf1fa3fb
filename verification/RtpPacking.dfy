/**
What the H.264 and H.265 packers share: NAL units too large for one packet are cut into
fragments, and packets are numbered as they go out.
 */
module RtpPacking {
  import opened Bytesio
  import opened Rtp

  const FU_START: u8 := 0x80
  const FU_END: u8 := 0x40

  /** The payload of a packet and its marker bit. */
  datatype Payload = Payload(data: Bytes, marker: Bit)

  // ---------- Fragments ----------

  function Fragments(b: Bytes, room: nat): seq<Bytes>
    requires room > 0
    decreases |b|
  {
    if b == [] then []
    else if |b| <= room then [b]
    else [b[..room]] + Fragments(b[room..], room)
  }

  lemma {:induction false} FragmentsWhole(b: Bytes, room: nat)
    requires room > 0
    ensures Flatten(Fragments(b, room)) == b
    ensures forall i | 0 <= i < |Fragments(b, room)| :: 0 < |Fragments(b, room)[i]| <= room
    ensures |b| > room ==> |Fragments(b, room)| > 1
    decreases |b|
  {
    if |b| > room {
      FragmentsWhole(b[room..], room);
    } else if b != [] {
      assert [b][1..] == [];
    }
  }

  /** Fragments behind `head` and an FU header that marks the first and the last of a unit. */
  function FuPayloads(head: Bytes, first: u8, middle: u8, last: u8, pieces: seq<Bytes>): seq<Payload>
    decreases |pieces|
  {
    if pieces == [] then []
    else if |pieces| == 1 then [Payload(head + [last] + pieces[0], 1)]
    else [Payload(head + [first] + pieces[0], 0)] + FuPayloads(head, middle, middle, last, pieces[1..])
  }

  // ---------- Numbering ----------

  function Next(h: Header, n: nat): Header {
    h.(seqNumber := (h.seqNumber + n) % 0x1_0000)
  }

  function Numbered(h: Header, ps: seq<Payload>): (packets: seq<Packet>)
    ensures |packets| == |ps|
    decreases |ps|
  {
    if ps == [] then []
    else [NewPacket(h.(marker := ps[0].marker)).(payload := ps[0].data)] + Numbered(Next(h, 1), ps[1..])
  }

  /** Consecutive sequence numbers, wrapping at 2^16; nothing else of the header varies but the marker. */
  lemma {:induction false} NumberedInOrder(h: Header, ps: seq<Payload>, i: nat)
    requires i < |ps|
    ensures Numbered(h, ps)[i] ==
            NewPacket(h.(seqNumber := (h.seqNumber + i) % 0x1_0000, marker := ps[i].marker)).(payload := ps[i].data)
    decreases |ps|
  {
    if i > 0 {
      NumberedInOrder(Next(h, 1), ps[1..], i - 1);
      WrapTwice(h.seqNumber, i);
    }
  }

  lemma WrapTwice(s: nat, i: nat)
    requires i > 0
    ensures ((s + 1) % 0x1_0000 + (i - 1)) % 0x1_0000 == (s + i) % 0x1_0000
  {
  }

  lemma {:induction false} NumberedConcat(h: Header, ps: seq<Payload>, qs: seq<Payload>)
    ensures Numbered(h, ps + qs) == Numbered(h, ps) + Numbered(Next(h, |ps|), qs)
    decreases |ps|
  {
    if ps == [] {
      assert ps + qs == qs;
    } else {
      NumberedConcat(Next(h, 1), ps[1..], qs);
      NextTwice(h, 1, |ps| - 1);
      hide Next;
      assert (ps + qs)[1..] == ps[1..] + qs;
      Concat3(Numbered(h, ps)[..1], Numbered(Next(h, 1), ps[1..]), Numbered(Next(h, |ps|), qs));
    }
  }

  lemma NextTwice(h: Header, m: nat, n: nat)
    ensures Next(Next(h, m), n) == Next(h, m + n)
  {
    assert ((h.seqNumber + m) % 0x1_0000 + n) % 0x1_0000 == (h.seqNumber + m + n) % 0x1_0000;
  }

  /** The header of a packer that uses neither contributing sources, extension nor padding. */
  predicate Plain(h: Header) {
    h.cc == 0 && h.csrcs == [] && h.extensionFlag == 0 && h.paddingFlag == 0
  }

  lemma PlainPacket(h: Header, data: Bytes)
    requires Plain(h)
    ensures var p := NewPacket(h).(payload := data);
            Consistent(p) && |Marshal(p)| == FIXED_HEADER_LEN + |data|
  {
  }

  /** Only the last payload of a unit has the marker. */
  predicate MarkedAtEnd(ps: seq<Payload>) {
    forall i | 0 <= i < |ps| :: ps[i].marker == if i == |ps| - 1 then 1 else 0
  }

  lemma {:induction false} FuMarkedAtEnd(head: Bytes, first: u8, middle: u8, last: u8, pieces: seq<Bytes>)
    ensures MarkedAtEnd(FuPayloads(head, first, middle, last, pieces))
    ensures |FuPayloads(head, first, middle, last, pieces)| == |pieces|
    decreases |pieces|
  {
    if |pieces| > 1 {
      FuMarkedAtEnd(head, middle, middle, last, pieces[1..]);
    }
  }

  lemma {:induction false} FuFits(head: Bytes, first: u8, middle: u8, last: u8, pieces: seq<Bytes>, room: nat)
    requires forall i | 0 <= i < |pieces| :: |pieces[i]| <= room
    ensures forall p | p in FuPayloads(head, first, middle, last, pieces) :: |p.data| <= |head| + 1 + room
    decreases |pieces|
  {
    if |pieces| > 1 {
      FuFits(head, middle, middle, last, pieces[1..], room);
    }
  }

  // ---------- Where each piece lies ----------

  /** Piece `i` of `n` lies within the bytes. */
  predicate Stretch(length: int, room: nat, n: nat, i: nat) {
    0 <= i * room <= length && (i < n - 1 ==> i * room <= (i + 1) * room <= length)
  }

  /** The bytes are cut into `n` pieces of which all but the last are full. */
  predicate CutInto(length: int, room: nat, n: nat) {
    (n - 1) * room < length <= n * room
  }

  lemma StretchLater(length: int, room: nat, n: nat, i: nat)
    requires i > 0 && n > 1 && Stretch(length - room, room, n - 1, i - 1)
    ensures Stretch(length, room, n, i) && i * room == room + (i - 1) * room && (i + 1) * room == room + i * room
  {
    assert i * room == room + (i - 1) * room;
    assert (i + 1) * room == room + i * room;
  }

  lemma CutLater(length: int, room: nat, n: nat)
    requires n > 1 && CutInto(length - room, room, n - 1)
    ensures CutInto(length, room, n)
  {
    assert n * room == room + (n - 1) * room && (n - 1) * room == room + (n - 2) * room;
  }

  lemma {:induction false} FragmentsCut(b: Bytes, room: nat)
    requires room > 0 && b != []
    ensures Fragments(b, room) != [] && CutInto(|b|, room, |Fragments(b, room)|)
    decreases |b|
  {
    if |b| > room {
      FragmentsCut(b[room..], room);
      CutLater(|b|, room, |Fragments(b, room)|);
    } else {
      assert 1 * room == room && 0 * room == 0;
    }
  }

  // Where piece `i` begins, and where it ends.
  function Piece(b: Bytes, room: nat, n: nat, i: nat): Bytes
    requires i < n && Stretch(|b|, room, n, i)
  {
    b[i * room..if i == n - 1 then |b| else (i + 1) * room]
  }

  lemma PieceLater(b: Bytes, room: nat, n: nat, i: nat)
    requires 0 < i < n && n > 1 && room <= |b| && Stretch(|b| - room, room, n - 1, i - 1)
    ensures Stretch(|b|, room, n, i) && Piece(b, room, n, i) == Piece(b[room..], room, n - 1, i - 1)
  {
    StretchLater(|b|, room, n, i);
    hide Stretch;
    var from, to := (i - 1) * room, if i == n - 1 then |b| - room else i * room;
    assert b[room..][from..to] == b[room + from..room + to];
  }

  lemma {:induction false} FragmentAt(b: Bytes, room: nat, i: nat)
    requires room > 0 && i < |Fragments(b, room)|
    ensures var n := |Fragments(b, room)|; Stretch(|b|, room, n, i) && Fragments(b, room)[i] == Piece(b, room, n, i)
    decreases |b|
  {
    if i == 0 {
      assert 0 * room == 0 && 1 * room == room;
    } else {
      FragmentAt(b[room..], room, i - 1);
      hide Stretch, Piece;
      PieceLater(b, room, |Fragments(b, room)|, i);
    }
  }

  lemma {:induction false} FuPayloadAt(head: Bytes, first: u8, middle: u8, last: u8, pieces: seq<Bytes>, i: nat)
    requires i < |pieces|
    ensures var n, ps := |pieces|, FuPayloads(head, first, middle, last, pieces);
            && |ps| == n
            && ps[i] == Payload(head + [if i == n - 1 then last else if i == 0 then first else middle] + pieces[i],
                                if i == n - 1 then 1 else 0)
    decreases |pieces|
  {
    if |pieces| > 1 {
      FuPayloadAt(head, middle, middle, last, pieces[1..], if i > 0 then i - 1 else 0);
    }
  }

  /** The payloads of a unit whose rest is `b`, one by one. */
  lemma PayloadsLaid(head: Bytes, first: u8, middle: u8, last: u8, b: Bytes, room: nat, i: nat)
    requires room > 0 && |b| > room && i < |FuPayloads(head, first, middle, last, Fragments(b, room))|
    ensures var ps := FuPayloads(head, first, middle, last, Fragments(b, room));
            var n := |ps|;
            && n > 1 && CutInto(|b|, room, n) && Stretch(|b|, room, n, i)
            && ps[i] == Payload(head + [if i == n - 1 then last else if i == 0 then first else middle] + Piece(b, room, n, i),
                                if i == n - 1 then 1 else 0)
  {
    FragmentsWhole(b, room);
    FuMarkedAtEnd(head, first, middle, last, Fragments(b, room));
    hide Fragments, FuPayloads, Stretch, CutInto, Piece;
    FragmentsCut(b, room);
    FragmentAt(b, room, i);
    FuPayloadAt(head, first, middle, last, Fragments(b, room), i);
  }

  // ---------- One turn of a packer's loop ----------

  /** The packets out once the payloads in `done` have gone, after `start`. */
  function Sent(start: seq<Packet>, h: Header, done: seq<Payload>): seq<Packet> {
    start + Numbered(h, done)
  }

  /** The payloads of a unit: those in `done` and those of what is left of it. */
  function Whole(done: seq<Payload>, head: Bytes, first: u8, middle: u8, last: u8, left: Bytes, room: nat): seq<Payload>
    requires room > 0
  {
    done + FuPayloads(head, first, middle, last, Fragments(left, room))
  }

  lemma SentIs(start: seq<Packet>, h: Header, done: seq<Payload>)
    ensures Sent(start, h, done) == start + Numbered(h, done)
  {
  }

  lemma SentNone(start: seq<Packet>, h: Header)
    ensures Sent(start, h, []) == start && Next(h, 0) == h
  {
  }

  lemma SentSnoc(start: seq<Packet>, h: Header, done: seq<Payload>, p: Payload)
    ensures Sent(start, h, done + [p]) ==
            Sent(start, h, done) + [NewPacket(Next(h, |done|).(marker := p.marker)).(payload := p.data)]
    ensures Next(h, |done + [p]|) == Next(Next(h, |done|), 1)
  {
    hide Numbered, Next;
    NumberedConcat(h, done, [p]);
    SingleNumbered(Next(h, |done|), p);
    NextTwice(h, |done|, 1);
    Concat3(start, Numbered(h, done), Numbered(Next(h, |done|), [p]));
  }

  lemma SentConcat(start: seq<Packet>, h: Header, done: seq<Payload>, ps: seq<Payload>)
    ensures Sent(start, h, done + ps) == Sent(start, h, done) + Numbered(Next(h, |done|), ps)
    ensures Next(h, |done + ps|) == Next(Next(h, |done|), |ps|)
  {
    hide Numbered, Next;
    NumberedConcat(h, done, ps);
    NextTwice(h, |done|, |ps|);
    Concat3(start, Numbered(h, done), Numbered(Next(h, |done|), ps));
  }

  lemma SingleNumbered(h: Header, p: Payload)
    ensures Numbered(h, [p]) == [NewPacket(h.(marker := p.marker)).(payload := p.data)]
  {
    assert [p][1..] == [];
  }

  lemma WholeTurn(done: seq<Payload>, head: Bytes, first: u8, middle: u8, last: u8, left: Bytes, room: nat)
    requires room > 0 && left != []
    ensures Whole(done, head, first, middle, last, left, room) ==
            if |left| <= room then done + [Payload(head + [last] + left, 1)]
            else Whole(done + [Payload(head + [first] + left[..room], 0)], head, middle, middle, last, left[room..], room)
  {
  }

  lemma WholeStart(head: Bytes, first: u8, middle: u8, last: u8, left: Bytes, room: nat)
    requires room > 0
    ensures Whole([], head, first, middle, last, left, room) ==
            FuPayloads(head, first, middle, last, Fragments(left, room))
  {
  }
}
