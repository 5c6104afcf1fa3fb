/**
Transport packets (library/container/mpegts/src/ts.rs:139-320, utils.rs:6-18): how a PES packet and
the PSI sections are cut into packets of 188 bytes, and a demultiplexer after section 2.4.3.3 of
ITU-T H.222.0 that takes them apart again.
 */
module TsPacket {
  import opened Bytesio
  import opened Psi
  import opened Pes

  const TS_PACKET_SIZE: nat := 188
  const SYNC_BYTE: u8 := 0x47

  // ---------- Program clock reference ----------

  /** Division and remainder of the source truncate toward zero. */
  function TruncDiv(a: int, b: int): int
    requires b > 0
  {
    if a >= 0 then a / b else -(-a / b)
  }

  function TruncRem(a: int, b: int): int
    requires b > 0
  {
    a - b * TruncDiv(a, b)
  }

  function PcrBytes(pcr: int): (b: Bytes)
    ensures |b| == 6
  {
    var base, ext := TruncDiv(pcr, 300), TruncRem(pcr, 300);
    [base / 0x200_0000 % 0x100, base / 0x2_0000 % 0x100, base / 0x200 % 0x100, base / 2 % 0x100,
     base % 2 * 0x80 + 0x7E + ext / 0x100 % 2, ext % 0x100]
  }

  /** Base and extension as a decoder reads them. */
  function ReadPcr(b: Bytes): (int, int)
    requires |b| == 6
  {
    (b[0] as int * 0x200_0000 + b[1] as int * 0x2_0000 + b[2] as int * 0x200 + b[3] as int * 2 + b[4] as int / 0x80,
     b[4] as int % 2 * 0x100 + b[5])
  }

  /** The field carries the base modulo 2^33 and the extension modulo 2^9; the latter is exact unless it is negative. */
  lemma PcrRoundTrip(pcr: int)
    ensures ReadPcr(PcrBytes(pcr)) == (TruncDiv(pcr, 300) % 0x2_0000_0000, TruncRem(pcr, 300) % 0x200)
    ensures ReadPcr(PcrBytes(pcr)).1 == TruncRem(pcr, 300) <==> pcr >= 0 || pcr % 300 == 0
  {
    var base, ext := TruncDiv(pcr, 300), TruncRem(pcr, 300);
    Truncated(pcr);
    BaseDigits(base);
    ExtensionDigits(ext);
    hide TruncDiv, TruncRem;
    PcrDigitsRead(base / 0x200_0000 % 0x100, base / 0x2_0000 % 0x100, base / 0x200 % 0x100, base / 2 % 0x100,
                  base % 2, ext / 0x100 % 2, ext % 0x100);
  }

  lemma Truncated(pcr: int)
    ensures -300 < TruncRem(pcr, 300) < 300
    ensures TruncRem(pcr, 300) >= 0 <==> pcr >= 0 || pcr % 300 == 0
  {
  }

  lemma PcrDigitsRead(a: int, b: int, c: int, d: int, e: int, f: int, g: int)
    requires 0 <= a < 0x100 && 0 <= b < 0x100 && 0 <= c < 0x100 && 0 <= d < 0x100 && 0 <= e < 2 && 0 <= f < 2 && 0 <= g < 0x100
    ensures ReadPcr([a, b, c, d, e * 0x80 + 0x7E + f, g])
         == (a * 0x200_0000 + b * 0x2_0000 + c * 0x200 + d * 2 + e, f * 0x100 + g)
  {
  }

  lemma BaseDigits(base: int)
    ensures base % 0x2_0000_0000
         == base / 0x200_0000 % 0x100 * 0x200_0000 + base / 0x2_0000 % 0x100 * 0x2_0000
            + base / 0x200 % 0x100 * 0x200 + base / 2 % 0x100 * 2 + base % 2
  {
    var d1 := base / 2;
    var d2 := d1 / 0x100;
    var d3 := d2 / 0x100;
    var d4 := d3 / 0x100;
    NestedDigits(base);
    DigitSum(base, d1, d2, d3, d4, d4 / 0x100);
  }

  lemma NestedDigits(t: int)
    ensures t / 2 / 0x100 == t / 0x200
    ensures t / 0x200 / 0x100 == t / 0x2_0000
    ensures t / 0x2_0000 / 0x100 == t / 0x200_0000
  {
  }

  lemma DigitSum(t: int, t1: int, t2: int, t3: int, t4: int, t5: int)
    requires t1 == t / 2 && t2 == t1 / 0x100 && t3 == t2 / 0x100 && t4 == t3 / 0x100 && t5 == t4 / 0x100
    ensures t % 0x2_0000_0000
         == t4 % 0x100 * 0x200_0000 + t3 % 0x100 * 0x2_0000 + t2 % 0x100 * 0x200 + t1 % 0x100 * 2 + t % 2
  {
    var r := t4 % 0x100 * 0x200_0000 + t3 % 0x100 * 0x2_0000 + t2 % 0x100 * 0x200 + t1 % 0x100 * 2 + t % 2;
    assert t == t5 * 0x2_0000_0000 + r;
  }

  lemma ExtensionDigits(ext: int)
    ensures ext % 0x200 == ext / 0x100 % 2 * 0x100 + ext % 0x100
  {
    var hi := ext / 0x100;
    assert ext == hi / 2 * 0x200 + (hi % 2 * 0x100 + ext % 0x100);
  }

  // ---------- Adaptation fields ----------

  predicate CarriesPcr(stream: Stream, pcrPid: Pid) {
    stream.pid == pcrPid
  }

  predicate RandomAccess(stream: Stream) {
    stream.aligned && stream.pts != PTS_NO_VALUE
  }

  /** The value the clock reference is taken from. */
  function Clock(stream: Stream): i64 {
    if stream.dts == PTS_NO_VALUE then stream.pts else stream.dts
  }

  /** The adaptation field of the packet that starts a unit, before stuffing: its length, flags and clock. */
  function StartField(stream: Stream, pcrPid: Pid): Bytes {
    var flags: u8 := (if CarriesPcr(stream, pcrPid) then 0x10 else 0) + (if RandomAccess(stream) then 0x40 else 0);
    if flags == 0 then []
    else if CarriesPcr(stream, pcrPid) then [7, flags] + PcrBytes(Clock(stream) * 300)
    else [1, flags]
  }

  function FieldFor(stream: Stream, pcrPid: Pid, start: bool): Bytes {
    if start then StartField(stream, pcrPid) else []
  }

  /** A field whose first byte is the number of bytes behind it, and whose flags are there unless it is that byte alone. */
  predicate WellFormed(field: Bytes) {
    field == [] || field[0] as int == |field| - 1
  }

  /** `field` made `n` bytes longer by stuffing. */
  function Stuffed(field: Bytes, n: nat): Bytes
    requires WellFormed(field) && |field| + n <= 184
  {
    if n == 0 then field
    else if field != [] then [field[0] + n] + field[1..] + Repeat(0xFF, n)
    else if n == 1 then [0]
    else [n - 1, 0x00] + Repeat(0xFF, n - 2)
  }

  lemma StuffedShape(field: Bytes, n: nat)
    requires WellFormed(field) && |field| + n <= 184
    ensures var s := Stuffed(field, n);
            |s| == |field| + n && WellFormed(s)
            && (field != [] ==> s[1..|field|] == field[1..])
            && (field == [] && n > 1 ==> s[1] == 0)
            && forall k :: |field| <= k < |s| && 2 <= k ==> s[k] == 0xFF
  {
  }

  /** How much of the data goes into a packet beside `fixed` bytes of field and PES header. */
  function Taken(fixed: nat, data: nat): (n: nat)
    requires fixed <= 184
    ensures n <= data && fixed + n <= 184
  {
    if fixed + data < 184 then data else 184 - fixed
  }

  function FourBytes(pid: Pid, start: bool, adapted: bool, counter: u8): Bytes
    requires counter < 16
  {
    [SYNC_BYTE, pid / 0x100 + (if start then 0x40 else 0), pid % 0x100, 0x10 + (if adapted then 0x20 else 0) + counter]
  }

  lemma StartFieldShape(stream: Stream, pcrPid: Pid)
    ensures WellFormed(StartField(stream, pcrPid)) && |StartField(stream, pcrPid)| in {0, 2, 8}
  {
  }

  function Counter(stream: Stream): u8 {
    stream.counter % 16
  }

  /** The header of a packet with room for `pesLength` bytes of PES header and some of the `data` bytes. */
  function TsHeader(stream: Stream, pcrPid: Pid, pesLength: nat, data: nat, start: bool): Bytes
    requires pesLength <= 25
  {
    StartFieldShape(stream, pcrPid);
    var field := FieldFor(stream, pcrPid, start);
    var fixed := |field| + pesLength;
    var stuffed := Stuffed(field, 184 - fixed - Taken(fixed, data));
    FourBytes(stream.pid, start, stuffed != [], Counter(stream)) + stuffed
  }

  function DataTaken(stream: Stream, pcrPid: Pid, pesLength: nat, data: nat, start: bool): (n: nat)
    requires pesLength <= 25
    ensures n <= data && (data > 0 ==> n > 0)
  {
    StartFieldShape(stream, pcrPid);
    Taken(|FieldFor(stream, pcrPid, start)| + pesLength, data)
  }

  function Advanced(stream: Stream): Stream {
    stream.(counter := (stream.counter + 1) % 16)
  }

  /** The packets of a PES packet: `header` goes in front of the first, if one starts here. */
  function Packets(stream: Stream, pcrPid: Pid, header: Bytes, payload: Bytes, start: bool): seq<Bytes>
    requires |header| <= 25
    decreases |payload|
  {
    if payload == [] then []
    else
      var n := DataTaken(stream, pcrPid, |header|, |payload|, start);
      [TsHeader(stream, pcrPid, |header|, |payload|, start) + header + payload[..n]]
      + Packets(Advanced(stream), pcrPid, [], payload[n..], false)
  }

  // ---------- A demultiplexer ----------

  /** A packet with payload, neither marked erroneous nor scrambled. */
  predicate IsPacket(p: Bytes) {
    |p| == 188 && p[0] == 0x47 && p[1] / 128 == 0 && p[3] / 64 == 0 && p[3] / 16 % 2 == 1 && (Adapted(p) ==> 5 + p[4] as int <= 188)
  }

  predicate Adapted(p: Bytes)
    requires |p| == 188
  {
    p[3] / 32 % 2 == 1
  }

  function PidOf(p: Bytes): Pid
    requires IsPacket(p)
  {
    p[1] as int % 0x20 * 0x100 + p[2]
  }

  predicate StartsUnit(p: Bytes)
    requires IsPacket(p)
  {
    p[1] / 0x40 % 2 == 1
  }

  function CounterOf(p: Bytes): u8
    requires IsPacket(p)
  {
    p[3] % 16
  }

  /** What is left when the adaptation field is skipped by its length byte. */
  function PayloadOf(p: Bytes): Bytes
    requires IsPacket(p)
  {
    if Adapted(p) then p[5 + p[4] as int..] else p[4..]
  }

  /** The flags of the adaptation field; none when there is no field or it is only a length. */
  function FlagsOfField(p: Bytes): u8
    requires IsPacket(p)
  {
    if Adapted(p) && p[4] > 0 then p[5] else 0
  }

  predicate HasPcr(p: Bytes)
    requires IsPacket(p)
  {
    FlagsOfField(p) / 16 % 2 == 1
  }

  predicate HasRandomAccess(p: Bytes)
    requires IsPacket(p)
  {
    FlagsOfField(p) / 64 % 2 == 1
  }

  // ---------- One packet ----------

  /** What a demultiplexer must find in a packet. */
  predicate Carries(p: Bytes, pid: Pid, start: bool, counter: u8, payload: Bytes) {
    IsPacket(p) && PidOf(p) == pid && StartsUnit(p) == start && CounterOf(p) == counter && PayloadOf(p) == payload
  }

  /** Behind its flags and its clock an adaptation field has nothing but the stuffing bytes of section 2.4.3.5. */
  predicate WellStuffed(p: Bytes)
    requires IsPacket(p)
  {
    Adapted(p) ==> forall k :: (if HasPcr(p) then 12 else 6) <= k < 5 + p[4] as int ==> p[k] == 0xFF
  }

  predicate Marked(p: Bytes, stream: Stream, pcrPid: Pid, start: bool)
    requires IsPacket(p)
  {
    && WellStuffed(p)
    && HasPcr(p) == (start && CarriesPcr(stream, pcrPid))
    && HasRandomAccess(p) == (start && RandomAccess(stream))
    && (HasPcr(p) ==> p[6..12] == PcrBytes(Clock(stream) * 300))
  }

  lemma FourBytesRead(pid: Pid, start: bool, adapted: bool, counter: u8)
    requires counter < 16
    ensures var h := FourBytes(pid, start, adapted, counter);
            h[0] == 0x47 && h[1] / 128 == 0 && h[3] / 64 == 0 && h[1] as int % 0x20 * 0x100 + h[2] == pid && (h[1] / 0x40 % 2 == 1) == start
            && h[3] % 16 == counter && h[3] / 16 % 2 == 1 && (h[3] / 32 % 2 == 1) == adapted
  {
  }

  /** A packet made of the four bytes, a well-formed field and a payload that fills it up. */
  lemma PacketRead(pid: Pid, start: bool, counter: u8, field: Bytes, payload: Bytes)
    requires counter < 16 && WellFormed(field) && |field| + |payload| == 184
    ensures var p := FourBytes(pid, start, field != [], counter) + field + payload;
            Carries(p, pid, start, counter, payload) && p[4..4 + |field|] == field
            && FlagsOfField(p) == (if |field| > 1 then field[1] else 0)
            && (Adapted(p) ==> 5 + p[4] as int == 4 + |field|)
  {
    FourBytesRead(pid, start, field != [], counter);
    var h := FourBytes(pid, start, field != [], counter);
    hide FourBytes;
    var p := h + field + payload;
    assert p[..4] == h;
    assert p[4..4 + |field|] == field;
    assert p[4 + |field|..] == payload;
    assert p[0] == h[0] && p[1] == h[1] && p[2] == h[2] && p[3] == h[3];
  }

  lemma PacketWhole(stream: Stream, pcrPid: Pid, header: Bytes, payload: Bytes, start: bool)
    requires |header| <= 25
    ensures var n := DataTaken(stream, pcrPid, |header|, |payload|, start);
            var p := TsHeader(stream, pcrPid, |header|, |payload|, start) + header + payload[..n];
            Carries(p, stream.pid, start, Counter(stream), header + payload[..n]) && Marked(p, stream, pcrPid, start)
  {
    hide StartField, Stuffed, IsPacket, PidOf, StartsUnit, CounterOf, PayloadOf, Marked, FlagsOfField;
    StartFieldShape(stream, pcrPid);
    var field := FieldFor(stream, pcrPid, start);
    var n := Taken(|field| + |header|, |payload|);
    var room := 184 - |field| - |header| - n;
    StuffedShape(field, room);
    var stuffed, content := Stuffed(field, room), header + payload[..n];
    PacketRead(stream.pid, start, Counter(stream), stuffed, content);
    Concat3(FourBytes(stream.pid, start, stuffed != [], Counter(stream)) + stuffed, header, payload[..n]);
    MarkedByField(FourBytes(stream.pid, start, stuffed != [], Counter(stream)) + stuffed + content, stream, pcrPid, start, stuffed);
  }

  lemma MarkedByField(p: Bytes, stream: Stream, pcrPid: Pid, start: bool, stuffed: Bytes)
    requires IsPacket(p) && 4 + |stuffed| <= |p| && p[4..4 + |stuffed|] == stuffed
    requires FlagsOfField(p) == (if |stuffed| > 1 then stuffed[1] else 0)
    requires var field := FieldFor(stream, pcrPid, start);
             |field| <= |stuffed| && (field != [] ==> stuffed[1..|field|] == field[1..])
             && (field == [] && |stuffed| > 1 ==> stuffed[1] == 0)
             && (forall k :: |field| <= k < |stuffed| && 2 <= k ==> stuffed[k] == 0xFF)
    requires Adapted(p) ==> 5 + p[4] as int == 4 + |stuffed|
    ensures Marked(p, stream, pcrPid, start)
  {
    hide PcrBytes, IsPacket;
    var field := FieldFor(stream, pcrPid, start);
    StuffingLies(p, stuffed, |field|);
    if field != [] {
      assert stuffed[1] == stuffed[1..|field|][0] == field[1];
      if CarriesPcr(stream, pcrPid) {
        SliceOfSlice(p, 4, 4 + |stuffed|, 2, 8);
        assert stuffed[2..8] == stuffed[1..|field|][1..] == field[1..][1..] == PcrBytes(Clock(stream) * 300);
      }
    }
  }

  lemma StuffingLies(p: Bytes, stuffed: Bytes, from: nat)
    requires 4 + |stuffed| <= |p| && p[4..4 + |stuffed|] == stuffed
    requires forall k :: from <= k < |stuffed| && 2 <= k ==> stuffed[k] == 0xFF
    ensures forall k :: 4 + from <= k < 4 + |stuffed| && 6 <= k ==> p[k] == 0xFF
  {
    forall k | 4 + from <= k < 4 + |stuffed| && 6 <= k ensures p[k] == 0xFF {
      assert stuffed[k - 4] == p[4..4 + |stuffed|][k - 4];
    }
  }

  lemma SliceOfSlice(p: Bytes, from: nat, to: nat, i: nat, j: nat)
    requires from <= to <= |p| && i <= j <= to - from
    ensures p[from..to][i..j] == p[from + i..from + j]
  {
    var a, b := p[from..to][i..j], p[from + i..from + j];
    assert |a| == |b| && forall k :: 0 <= k < |a| ==> a[k] == b[k];
  }

  // ---------- All the packets of a PES packet ----------

  predicate ArePackets(ps: seq<Bytes>) {
    forall k :: 0 <= k < |ps| ==> IsPacket(ps[k])
  }

  /** What a demultiplexer collects from packets of one PID. */
  function Content(ps: seq<Bytes>): Bytes
    requires ArePackets(ps)
  {
    if ps == [] then [] else PayloadOf(ps[0]) + Content(ps[1..])
  }

  /** Packets of one stream with consecutive counters, of which only the first starts a unit. */
  predicate InOrder(ps: seq<Bytes>, pid: Pid, counter: nat, start: bool)
    requires ArePackets(ps)
  {
    forall k :: 0 <= k < |ps| ==>
      PidOf(ps[k]) == pid && CounterOf(ps[k]) as int == (counter + k) % 16 && StartsUnit(ps[k]) == (start && k == 0)
  }

  predicate AllMarked(ps: seq<Bytes>, stream: Stream, pcrPid: Pid, start: bool)
    requires ArePackets(ps)
  {
    forall k :: 0 <= k < |ps| ==> Marked(ps[k], stream, pcrPid, start && k == 0)
  }

  /**
  A payload leaves as packets of 188 bytes from which a demultiplexer recovers exactly the PES header and the
  payload; the counters rise by one, and only the first packet starts a unit and may carry a clock reference,
  which it does exactly for the PCR PID.
   */
  lemma {:induction false} PacketsDeliver(stream: Stream, pcrPid: Pid, header: Bytes, payload: Bytes, start: bool)
    requires |header| <= 25 && (payload == [] ==> header == [])
    ensures var ps := Packets(stream, pcrPid, header, payload, start);
            ArePackets(ps) && Content(ps) == header + payload && InOrder(ps, stream.pid, stream.counter, start)
            && AllMarked(ps, stream, pcrPid, start)
    decreases |payload|
  {
    if payload != [] {
      var n := DataTaken(stream, pcrPid, |header|, |payload|, start);
      var p := TsHeader(stream, pcrPid, |header|, |payload|, start) + header + payload[..n];
      PacketWhole(stream, pcrPid, header, payload, start);
      PacketsDeliver(Advanced(stream), pcrPid, [], payload[n..], false);
      var rest := Packets(Advanced(stream), pcrPid, [], payload[n..], false);
      assert Packets(stream, pcrPid, header, payload, start) == [p] + rest;
      Rejoined(header, payload, n);
      hide Packets, TsHeader, DataTaken, IsPacket, PidOf, CounterOf, StartsUnit, PayloadOf, InOrder, AllMarked, Marked;
      OneMore(p, rest, stream, pcrPid, start);
    }
  }

  lemma Rejoined(header: Bytes, payload: Bytes, n: nat)
    requires n <= |payload|
    ensures (header + payload[..n]) + ([] + payload[n..]) == header + payload
  {
  }

  // Behind the first packet the marks do not depend on the counter.
  lemma SameMarks(p: Bytes, stream: Stream, pcrPid: Pid)
    requires IsPacket(p) && Marked(p, Advanced(stream), pcrPid, false)
    ensures Marked(p, stream, pcrPid, false)
  {
  }

  lemma CountsOn(counter: nat, k: nat)
    ensures ((counter + 1) % 16 + (k - 1)) % 16 == (counter + k) % 16
  {
  }

  lemma OneMoreOrdered(p: Bytes, rest: seq<Bytes>, pid: Pid, counter: nat, start: bool)
    requires IsPacket(p) && PidOf(p) == pid && StartsUnit(p) == start && CounterOf(p) as int == counter % 16
    requires ArePackets(rest) && InOrder(rest, pid, (counter + 1) % 16, false)
    ensures ArePackets([p] + rest) && InOrder([p] + rest, pid, counter, start)
  {
    hide IsPacket, PidOf, StartsUnit, CounterOf;
    var ps := [p] + rest;
    forall k | 0 <= k < |ps|
      ensures IsPacket(ps[k]) && PidOf(ps[k]) == pid
      ensures CounterOf(ps[k]) as int == (counter + k) % 16 && StartsUnit(ps[k]) == (start && k == 0)
    {
      if k > 0 {
        assert ps[k] == rest[k - 1];
        CountsOn(counter, k);
      }
    }
  }

  lemma OneMoreMarked(p: Bytes, rest: seq<Bytes>, stream: Stream, pcrPid: Pid, start: bool)
    requires IsPacket(p) && Marked(p, stream, pcrPid, start) && ArePackets(rest) && AllMarked(rest, Advanced(stream), pcrPid, false)
    ensures ArePackets([p] + rest) && AllMarked([p] + rest, stream, pcrPid, start)
  {
    hide IsPacket, Marked;
    var ps := [p] + rest;
    forall k | 0 <= k < |ps|
      ensures IsPacket(ps[k]) && Marked(ps[k], stream, pcrPid, start && k == 0)
    {
      if k > 0 {
        assert ps[k] == rest[k - 1];
        SameMarks(ps[k], stream, pcrPid);
      }
    }
  }

  lemma OneMore(p: Bytes, rest: seq<Bytes>, stream: Stream, pcrPid: Pid, start: bool)
    requires IsPacket(p) && PidOf(p) == stream.pid && StartsUnit(p) == start && CounterOf(p) == Counter(stream)
    requires Marked(p, stream, pcrPid, start)
    requires ArePackets(rest) && InOrder(rest, stream.pid, Advanced(stream).counter, false)
    requires AllMarked(rest, Advanced(stream), pcrPid, false)
    ensures var ps := [p] + rest;
            ArePackets(ps) && Content(ps) == PayloadOf(p) + Content(rest)
            && InOrder(ps, stream.pid, stream.counter, start) && AllMarked(ps, stream, pcrPid, start)
  {
    hide IsPacket, PidOf, StartsUnit, CounterOf, PayloadOf, Marked, InOrder, AllMarked, ArePackets;
    assert ([p] + rest)[1..] == rest;
    OneMoreOrdered(p, rest, stream.pid, stream.counter, start);
    OneMoreMarked(p, rest, stream, pcrPid, start);
  }

  // ---------- Packets of the program specific information ----------

  /** A section in a packet of its own, behind a zero pointer_field and in front of stuffing. */
  function PsiPacket(pid: Pid, section: Bytes, counter: u8): Bytes
    requires |section| <= 183 && counter < 16
  {
    FourBytes(pid, true, false, counter) + [0x00] + section + Repeat(0xFF, 183 - |section|)
  }

  /** Where a decoder finds the section: behind as many bytes as the pointer_field says. */
  function SectionOf(p: Bytes): Bytes
    requires IsPacket(p)
  {
    var payload := PayloadOf(p);
    if payload == [] || |payload| < 1 + payload[0] as int then [] else payload[1 + payload[0] as int..]
  }

  lemma PsiPacketRead(pid: Pid, section: Bytes, counter: u8)
    requires |section| <= 183 && counter < 16
    ensures var p := PsiPacket(pid, section, counter);
            IsPacket(p) && PidOf(p) == pid && CounterOf(p) == counter && StartsUnit(p) && !HasPcr(p)
            && SectionOf(p) == section + Repeat(0xFF, 183 - |section|)
  {
    var padding := Repeat(0xFF, 183 - |section|);
    var payload := [0x00] + section + padding;
    PacketRead(pid, true, counter, [], payload);
    var four := FourBytes(pid, true, false, counter);
    assert four + [] + payload == PsiPacket(pid, section, counter);
    assert payload[1..] == section + padding;
  }
}
