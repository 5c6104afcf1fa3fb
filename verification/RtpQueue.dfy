/**
The reordering queue in front of the WebRTC publisher (protocol/webrtc/src/rtp_queue.rs).  Sequence
numbers are compared modulo 2^16 as in Appendix A.1 of RFC 3550.
 */
module RtpQueue {
  import opened Bytesio

  const MIN_SEQUENTIAL: nat := 2
  const RTP_SEQ_MOD: int := 0x1_0000
  const MAX_DROPOUT: int := 3000
  const MAX_MISORDER: int := 100

  datatype Packet = Packet(seqNumber: u16, content: int)

  /** `wrapping_sub`. */
  function Minus(a: u16, b: u16): u16 {
    (a - b) % RTP_SEQ_MOD
  }

  /** `wrapping_add(1)`. */
  function Successor(a: u16): u16 {
    (a + 1) % RTP_SEQ_MOD
  }

  /** `b` comes after `a`: the difference is positive as a signed 16-bit number. */
  predicate Newer(a: u16, b: u16) {
    0 < Minus(b, a) < 0x8000
  }

  datatype Queue = Queue(badSeq: u16, probation: nat, firstOrderedSeq: u16, maxCacheSize: nat, cache: seq<Packet>, badCache: seq<Packet>)

  function NewQueue(maxCacheSize: nat): Queue {
    Queue(0, MIN_SEQUENTIAL, 0, maxCacheSize, [], [])
  }

  function FrontSeq(cache: seq<Packet>): u16 {
    if cache == [] then 0 else cache[0].seqNumber
  }

  function BackSeq(cache: seq<Packet>): u16 {
    if cache == [] then 0 else cache[|cache| - 1].seqNumber
  }

  // ---------- What the operations do ----------

  /** From the back, behind the first packet that is not newer; a packet with the same number stops the search. */
  function Inserted(cache: seq<Packet>, packet: Packet): seq<Packet> {
    if cache == [] then []
    else
      var rest, item := cache[..|cache| - 1], cache[|cache| - 1];
      if packet.seqNumber == item.seqNumber then cache
      else if Newer(item.seqNumber, packet.seqNumber) then cache + [packet]
      else Inserted(rest, packet) + [item]
  }

  /** Until three packets have come in sequence the queue starts over at every gap. */
  function OnProbation(q: Queue, packet: Packet): Queue
    requires q.probation > 0
  {
    if q.cache == [] then q.(cache := [packet])
    else if packet.seqNumber == Successor(BackSeq(q.cache)) then
      q.(probation := q.probation - 1,
         firstOrderedSeq := if q.probation == 1 then FrontSeq(q.cache) else q.firstOrderedSeq,
         cache := q.cache + [packet])
    else q.(probation := MIN_SEQUENTIAL, cache := [packet])
  }

  function WithoutBad(q: Queue): Queue {
    q.(badCache := [], badSeq := 0)
  }

  predicate IsDuplicate(q: Queue, packet: Packet) {
    packet.seqNumber == BackSeq(q.cache)
  }

  predicate IsNext(q: Queue, packet: Packet) {
    0 < Minus(packet.seqNumber, BackSeq(q.cache)) < MAX_DROPOUT
  }

  predicate IsReordered(q: Queue, packet: Packet) {
    !IsDuplicate(q, packet) && !IsNext(q, packet)
    && Minus(BackSeq(q.cache), packet.seqNumber) < Minus(BackSeq(q.cache), FrontSeq(q.cache))
  }

  predicate IsLate(q: Queue, packet: Packet) {
    !IsDuplicate(q, packet) && !IsNext(q, packet) && !IsReordered(q, packet)
    && Minus(FrontSeq(q.cache), packet.seqNumber) < MAX_MISORDER
  }

  predicate IsBad(q: Queue, packet: Packet) {
    !IsDuplicate(q, packet) && !IsNext(q, packet) && !IsReordered(q, packet) && !IsLate(q, packet)
  }

  /** A packet out of range is kept apart; two in sequence are taken for a restart and appended. */
  function OnBad(q: Queue, packet: Packet): Queue {
    if q.badCache == [] || packet.seqNumber == q.badSeq then
      var bad := q.badCache + [packet];
      if |bad| >= MIN_SEQUENTIAL then WithoutBad(q.(cache := q.cache + bad))
      else q.(badCache := bad, badSeq := Successor(packet.seqNumber))
    else WithoutBad(q)
  }

  function Written(q: Queue, packet: Packet): Queue {
    if q.probation > 0 then OnProbation(q, packet)
    else if IsDuplicate(q, packet) then q
    else if IsNext(q, packet) then WithoutBad(q.(cache := q.cache + [packet]))
    else if IsReordered(q, packet) then WithoutBad(q.(cache := Inserted(q.cache, packet)))
    else if IsLate(q, packet) then q
    else OnBad(q, packet)
  }

  /** The front, if it is the number due or the cache is full. */
  predicate CanRead(q: Queue) {
    q.cache != [] && q.probation == 0 && (q.firstOrderedSeq == FrontSeq(q.cache) || |q.cache| >= q.maxCacheSize)
  }

  function Read(q: Queue): Queue
    requires CanRead(q)
  {
    q.(firstOrderedSeq := Successor(FrontSeq(q.cache)), cache := q.cache[1..])
  }

  // ---------- The class ----------

  class RtpQueue {
    var badSeq: u16
    var probation: nat
    var firstOrderedSeq: u16
    var maxCacheSize: nat
    var cache: seq<Packet>
    var badCache: seq<Packet>

    ghost function State(): Queue
      reads this
    {
      Queue(badSeq, probation, firstOrderedSeq, maxCacheSize, cache, badCache)
    }

    constructor (maxCacheSize: nat)
      ensures State() == NewQueue(maxCacheSize)
    {
      badSeq := 0;
      probation := MIN_SEQUENTIAL;
      firstOrderedSeq := 0;
      this.maxCacheSize := maxCacheSize;
      cache := [];
      badCache := [];
    }

    method ClearCache()
      modifies this`cache, this`probation
      ensures cache == [] && probation == MIN_SEQUENTIAL
    {
      cache := [];
      probation := MIN_SEQUENTIAL;
    }

    method ClearBadCache()
      modifies this`badCache, this`badSeq
      ensures State() == WithoutBad(old(State()))
    {
      badCache := [];
      badSeq := 0;
    }

    method Insert(packet: Packet)
      modifies this`cache
      ensures cache == Inserted(old(cache), packet)
    {
      var items := cache;
      var i := |items|;
      assert items[..i] == items && items[i..] == [];
      while i > 0
        invariant 0 <= i <= |items| && cache == items == old(cache)
        invariant Inserted(items, packet) == Inserted(items[..i], packet) + items[i..]
      {
        var item := items[i - 1];
        assert items[..i][..i - 1] == items[..i - 1];
        assert [item] + items[i..] == items[i - 1..];
        if packet.seqNumber == item.seqNumber {
          break;
        } else if Newer(item.seqNumber, packet.seqNumber) {
          cache := items[..i] + [packet] + items[i..];
          return;
        }
        i := i - 1;
      }
    }

    method WriteQueue(packet: Packet)
      modifies this`badSeq, this`probation, this`firstOrderedSeq, this`cache, this`badCache
      ensures State() == Written(old(State()), packet)
    {
      var cur := packet.seqNumber;
      if probation > 0 {
        if cache == [] {
          cache := cache + [packet];
          return;
        }
        if cur == Successor(BackSeq(cache)) {
          probation := probation - 1;
          if probation == 0 {
            firstOrderedSeq := cache[0].seqNumber;
          }
        } else {
          ClearCache();
        }
        cache := cache + [packet];
      } else {
        var delta := Minus(cur, BackSeq(cache));
        if delta == 0 {
          return;
        } else if delta < MAX_DROPOUT {
          cache := cache + [packet];
        } else if Minus(BackSeq(cache), cur) < Minus(BackSeq(cache), FrontSeq(cache)) {
          Insert(packet);
        } else if Minus(FrontSeq(cache), cur) < MAX_MISORDER {
          return;
        } else {
          if badCache == [] || cur == badSeq {
            badCache := badCache + [packet];
            badSeq := Successor(cur);
          } else {
            ClearBadCache();
          }
          if |badCache| >= MIN_SEQUENTIAL {
            cache := cache + badCache;
            ClearBadCache();
          }
          return;
        }
        ClearBadCache();
      }
    }

    method ReadQueue() returns (r: Option<Packet>)
      modifies this`firstOrderedSeq, this`cache
      ensures if CanRead(old(State())) then r == Some(old(cache[0])) && State() == Read(old(State()))
              else r == None && State() == old(State())
    {
      if cache == [] || probation > 0 {
        return None;
      }
      var first := cache[0];
      if firstOrderedSeq == first.seqNumber {
        firstOrderedSeq := Successor(firstOrderedSeq);
      } else {
        if |cache| < maxCacheSize {
          return None;
        }
        firstOrderedSeq := Successor(first.seqNumber);
      }
      cache := cache[1..];
      return Some(first);
    }
  }

  // ---------- Order ----------

  /** Every packet is newer than all before it: no duplicates, and a span below 2^15 numbers. */
  predicate InOrder(cache: seq<Packet>) {
    forall i, j :: 0 <= i < j < |cache| ==> Newer(cache[i].seqNumber, cache[j].seqNumber)
  }

  /** One packet at most is kept apart, and its successor is awaited. */
  predicate BadSound(q: Queue) {
    |q.badCache| <= 1 && (q.badCache != [] ==> q.badSeq == Successor(q.badCache[0].seqNumber))
  }

  /** The write appends to the back of the cache: the packet, or after a restart also the one before it. */
  predicate Appends(q: Queue, packet: Packet) {
    IsNext(q, packet) || (IsBad(q, packet) && q.badCache != [] && packet.seqNumber == q.badSeq)
  }

  // Distances from the front turn the circular order into the order of the integers.
  function Distance(cache: seq<Packet>, a: u16): u16
    requires cache != []
  {
    Minus(a, cache[0].seqNumber)
  }

  lemma ByDistance(front: u16, a: u16, b: u16)
    requires Minus(a, front) < 0x8000 && Minus(b, front) < 0x8000
    ensures Newer(a, b) <==> Minus(a, front) < Minus(b, front)
    ensures a == b <==> Minus(a, front) == Minus(b, front)
  {
  }

  lemma BackDistance(cache: seq<Packet>)
    requires cache != [] && InOrder(cache)
    ensures Distance(cache, BackSeq(cache)) < 0x8000
  {
    if |cache| > 1 {
      assert Newer(cache[0].seqNumber, cache[|cache| - 1].seqNumber);
    }
  }

  /** A packet further from the front than the back is in order behind it exactly when it is less than 2^15 away. */
  lemma AppendedOrder(cache: seq<Packet>, packet: Packet)
    requires cache != [] && InOrder(cache) && Distance(cache, BackSeq(cache)) < Distance(cache, packet.seqNumber)
    ensures InOrder(cache + [packet]) <==> Distance(cache, packet.seqNumber) < 0x8000
  {
    var all := cache + [packet];
    if Distance(cache, packet.seqNumber) < 0x8000 {
      BackDistance(cache);
      ByDistance(cache[0].seqNumber, BackSeq(cache), packet.seqNumber);
      forall i, j | 0 <= i < j < |all| ensures Newer(all[i].seqNumber, all[j].seqNumber) {
        if j < |cache| {
          assert Newer(cache[i].seqNumber, cache[j].seqNumber);
        } else {
          InnerDistance(cache, i);
          ByDistance(cache[0].seqNumber, all[i].seqNumber, packet.seqNumber);
        }
      }
    } else {
      assert !Newer(all[0].seqNumber, all[|cache|].seqNumber);
    }
  }

  lemma InnerDistance(cache: seq<Packet>, i: nat)
    requires InOrder(cache) && i < |cache|
    ensures Distance(cache, cache[i].seqNumber) <= Distance(cache, BackSeq(cache)) < 0x8000
  {
    BackDistance(cache);
    if 0 < i {
      assert Newer(cache[0].seqNumber, cache[i].seqNumber);
    }
    if i < |cache| - 1 {
      assert Newer(cache[i].seqNumber, BackSeq(cache));
      ByDistance(cache[0].seqNumber, cache[i].seqNumber, BackSeq(cache));
    }
  }

  /** A packet newer than the front finds its place, unless its number is there already. */
  lemma {:induction false} InsertedOrder(cache: seq<Packet>, packet: Packet)
    requires cache != [] && InOrder(cache) && Newer(cache[0].seqNumber, packet.seqNumber)
    ensures var r := Inserted(cache, packet);
            r != [] && r[0] == cache[0] && InOrder(r) && multiset(r) <= multiset(cache) + multiset{packet}
    ensures Among(Inserted(cache, packet), cache, packet)
    ensures (forall k :: 0 <= k < |cache| ==> cache[k].seqNumber != packet.seqNumber) ==> packet in Inserted(cache, packet)
  {
    hide Newer, Minus, Among, Inserted;
    var rest, item := cache[..|cache| - 1], cache[|cache| - 1];
    assert cache == rest + [item];
    InsertedFrom(cache, packet);
    InsertedAmong(cache, packet);
    InsertTurn(cache, packet);
    if packet.seqNumber != item.seqNumber {
      if Newer(item.seqNumber, packet.seqNumber) {
        BehindBack(cache, packet);
      } else {
        InFrontOfBack(cache, packet);
        FrontInOrder(rest, item);
        InsertedOrder(rest, packet);
        BeforeItem(rest, item, packet);
      }
    }
  }

  /** Every packet of `r` is the new one or was there. */
  predicate Among(r: seq<Packet>, cache: seq<Packet>, packet: Packet) {
    forall k :: 0 <= k < |r| ==> r[k] == packet || r[k] in cache
  }

  lemma InsertTurn(cache: seq<Packet>, packet: Packet)
    requires cache != []
    ensures var rest, item := cache[..|cache| - 1], cache[|cache| - 1];
            Inserted(cache, packet) == if packet.seqNumber == item.seqNumber then cache
                                       else if Newer(item.seqNumber, packet.seqNumber) then cache + [packet]
                                       else Inserted(rest, packet) + [item]
  {
    hide Newer;
  }

  lemma {:induction false} InsertedAmong(cache: seq<Packet>, packet: Packet)
    ensures Among(Inserted(cache, packet), cache, packet)
    ensures cache != [] && packet.seqNumber != cache[|cache| - 1].seqNumber && Newer(cache[|cache| - 1].seqNumber, packet.seqNumber)
            ==> packet in Inserted(cache, packet)
  {
    hide Newer;
    if cache != [] {
      InsertedAmong(cache[..|cache| - 1], packet);
    }
  }

  lemma BehindBack(cache: seq<Packet>, packet: Packet)
    requires cache != [] && InOrder(cache) && Newer(cache[0].seqNumber, packet.seqNumber)
    requires Newer(BackSeq(cache), packet.seqNumber)
    ensures InOrder(cache + [packet])
  {
    InnerDistance(cache, |cache| - 1);
    ByDistance(cache[0].seqNumber, BackSeq(cache), packet.seqNumber);
    AppendedOrder(cache, packet);
  }

  /** A packet that is not behind the back is in front of it, and there is something in front of the back. */
  lemma InFrontOfBack(cache: seq<Packet>, packet: Packet)
    requires cache != [] && InOrder(cache) && Newer(cache[0].seqNumber, packet.seqNumber)
    requires packet.seqNumber != BackSeq(cache) && !Newer(BackSeq(cache), packet.seqNumber)
    ensures Newer(packet.seqNumber, BackSeq(cache)) && |cache| > 1
  {
    InnerDistance(cache, |cache| - 1);
    ByDistance(cache[0].seqNumber, BackSeq(cache), packet.seqNumber);
    ByDistance(cache[0].seqNumber, packet.seqNumber, BackSeq(cache));
  }

  lemma FrontInOrder(rest: seq<Packet>, item: Packet)
    requires InOrder(rest + [item])
    ensures InOrder(rest)
  {
    hide Newer;
    var all := rest + [item];
    forall i, j | 0 <= i < j < |rest| ensures Newer(rest[i].seqNumber, rest[j].seqNumber) {
      assert all[i] == rest[i] && all[j] == rest[j];
    }
  }

  lemma BeforeItem(rest: seq<Packet>, item: Packet, packet: Packet)
    requires InOrder(Inserted(rest, packet)) && InOrder(rest + [item]) && Newer(packet.seqNumber, item.seqNumber)
    requires Among(Inserted(rest, packet), rest, packet)
    ensures InOrder(Inserted(rest, packet) + [item])
  {
    hide Inserted, Newer;
    var r, all := Inserted(rest, packet), Inserted(rest, packet) + [item];
    forall i, j | 0 <= i < j < |all| ensures Newer(all[i].seqNumber, all[j].seqNumber) {
      if j == |r| && r[i] != packet {
        var k :| 0 <= k < |rest| && rest[k] == r[i];
        assert Newer((rest + [item])[k].seqNumber, (rest + [item])[|rest|].seqNumber);
      }
    }
  }

  // Where the number of a packet lies, by the branch it takes.

  lemma NextDistance(q: Queue, packet: Packet)
    requires q.cache != [] && InOrder(q.cache) && IsNext(q, packet)
    ensures Distance(q.cache, BackSeq(q.cache)) < Distance(q.cache, packet.seqNumber)
  {
    BackDistance(q.cache);
  }

  lemma ReorderedDistance(q: Queue, packet: Packet)
    requires q.cache != [] && InOrder(q.cache) && IsReordered(q, packet)
    ensures Newer(FrontSeq(q.cache), packet.seqNumber)
  {
    BackDistance(q.cache);
  }

  lemma BadDistance(q: Queue, packet: Packet)
    requires q.cache != [] && InOrder(q.cache) && IsBad(q, packet)
    ensures Distance(q.cache, BackSeq(q.cache)) + 1 < Distance(q.cache, packet.seqNumber)
  {
    BackDistance(q.cache);
  }

  /**
  A write to a queue that is not empty keeps the order, except when it appends a number 2^15 or more past the front:
  a stride past the window, or a restart elsewhere.
   */
  lemma WriteKeepsOrderExactly(q: Queue, packet: Packet)
    requires q.probation == 0 && q.cache != [] && InOrder(q.cache) && BadSound(q)
    ensures var r := Written(q, packet);
            r.cache != [] && r.cache[0] == q.cache[0] && r.probation == 0 && BadSound(r)
            && (InOrder(r.cache) <==> (Appends(q, packet) ==> Distance(q.cache, packet.seqNumber) < 0x8000))
  {
    if IsNext(q, packet) {
      NextDistance(q, packet);
      AppendedOrder(q.cache, packet);
    } else if IsReordered(q, packet) {
      ReorderedDistance(q, packet);
      InsertedOrder(q.cache, packet);
    } else if IsBad(q, packet) && q.badCache != [] && packet.seqNumber == q.badSeq {
      BadDistance(q, packet);
      RestartOrder(q.cache, q.badCache[0], packet);
      assert q.badCache + [packet] == [q.badCache[0], packet];
    }
  }

  /** Two numbers in sequence half the circle away are taken for a restart, and the queue is out of order. */
  lemma RestartExample()
    ensures var h := Run(History(NewQueue(100), [], []),
                         [Write(Packet(0, 0)), Write(Packet(1, 1)), Write(Packet(2, 2)), Write(Packet(40000, 3)), Write(Packet(40001, 4))]);
            h.queue.cache == [Packet(0, 0), Packet(1, 1), Packet(2, 2), Packet(40000, 3), Packet(40001, 4)] && !InOrder(h.queue.cache)
  {
    var ops := [Write(Packet(0, 0)), Write(Packet(1, 1)), Write(Packet(2, 2)), Write(Packet(40000, 3)), Write(Packet(40001, 4))];
    var h := Run(History(NewQueue(100), [], []), ops);
    assert !Newer(0, 40000);
    assert h.queue.cache == [Packet(0, 0), Packet(1, 1), Packet(2, 2), Packet(40000, 3), Packet(40001, 4)];
    assert !Newer(h.queue.cache[0].seqNumber, h.queue.cache[3].seqNumber);
  }

  lemma OneBefore(cache: seq<Packet>, a: u16, b: u16)
    requires cache != [] && b == Successor(a) && Distance(cache, b) > 0
    ensures Distance(cache, a) + 1 == Distance(cache, b)
  {
  }

  lemma RestartOrder(cache: seq<Packet>, first: Packet, second: Packet)
    requires cache != [] && InOrder(cache) && second.seqNumber == Successor(first.seqNumber)
    requires Distance(cache, BackSeq(cache)) + 1 < Distance(cache, second.seqNumber)
    ensures InOrder(cache + [first, second]) <==> Distance(cache, second.seqNumber) < 0x8000
  {
    OneBefore(cache, first.seqNumber, second.seqNumber);
    hide Newer, Minus, Successor;
    AppendedOrder(cache, first);
    var one, all := cache + [first], cache + [first, second];
    assert all == one + [second];
    if InOrder(one) {
      AppendedOrder(one, second);
    } else if InOrder(all) {
      forall i, j | 0 <= i < j < |one| ensures Newer(one[i].seqNumber, one[j].seqNumber) {
        assert Newer(all[i].seqNumber, all[j].seqNumber);
      }
    }
  }

  /** A drained queue compares with zero: it takes the numbers 1 to 2999, and a restart; anything else is lost. */
  lemma DrainedExactly(q: Queue, packet: Packet)
    requires q.probation == 0 && q.cache == [] && q.badCache == []
    ensures packet in Written(q, packet).cache <==> 1 <= packet.seqNumber < 3000
    ensures Written(q, packet).cache != [] ==> Written(q, packet).cache == [packet]
  {
  }

  /**
  Off probation a first packet is set apart exactly when its number is 3000 or more past the last in the cache and 100 or more
  short of the first, counted around the circle from the first; a number closer to either end never counts for a restart.
   */
  lemma SetApartExactly(q: Queue, packet: Packet)
    requires q.probation == 0 && q.badCache == []
    ensures var first, last := FrontSeq(q.cache) as int, BackSeq(q.cache) as int;
            var span, ahead := (last - first) % 65536, (packet.seqNumber - first) % 65536;
            Written(q, packet).badCache == (if span + 3000 <= ahead <= 65436 then [packet] else [])
  {
    BadIsApart(q, packet);
    hide Inserted, FrontSeq, BackSeq, IsBad, IsDuplicate, IsNext, IsReordered, IsLate, Minus;
  }

  /** A number far from both ends of the cache, counted around the circle from the first. */
  predicate Apart(q: Queue, n: u16) {
    var first, last := FrontSeq(q.cache) as int, BackSeq(q.cache) as int;
    (last - first) % 65536 + 3000 <= (n - first) % 65536 <= 65436
  }

  /**
  With one packet set apart, the next write restarts the queue with both exactly when it is set apart too and follows the
  first; another number apart, or one that belongs to the cache, has the first forgotten.  The number in front or at the back
  again, or one less than 100 short of the front, does not.
   */
  lemma RestartExactly(q: Queue, first: Packet, packet: Packet)
    requires q.probation == 0 && q.badCache == [first] && q.badSeq as int == (first.seqNumber + 1) % 65536
    ensures var after := Written(q, packet);
            if Apart(q, packet.seqNumber) then
              && after.badCache == []
              && after.cache == (if packet.seqNumber as int == (first.seqNumber + 1) % 65536 then q.cache + [first, packet] else q.cache)
            else
              after.badCache == (if Ignored(q, packet.seqNumber) then [first] else [])
  {
    BadIsApart(q, packet);
    assert [first] + [packet] == [first, packet];
    hide Inserted, FrontSeq, BackSeq, IsBad, IsDuplicate, IsNext, IsReordered, IsLate, Apart, Ignored, Minus;
  }

  /** Where the number lies decides the branch. */
  lemma BadIsApart(q: Queue, packet: Packet)
    ensures IsBad(q, packet) <==> Apart(q, packet.seqNumber)
    ensures IsDuplicate(q, packet) || (!IsNext(q, packet) && !IsReordered(q, packet) && IsLate(q, packet)) <==> Ignored(q, packet.seqNumber)
    ensures IsBad(q, packet) <==> !IsDuplicate(q, packet) && !IsNext(q, packet) && !IsReordered(q, packet) && !IsLate(q, packet)
  {
    Circle(FrontSeq(q.cache) as int, BackSeq(q.cache) as int, packet.seqNumber as int);
    hide FrontSeq, BackSeq;
  }

  /** The last number again; or, not up to 2999 past the last, the first again or one less than 100 short of it. */
  predicate Ignored(q: Queue, n: u16) {
    var first, last := FrontSeq(q.cache) as int, BackSeq(q.cache) as int;
    var span, ahead := (last - first) % 65536, (n - first) % 65536;
    n as int == last || (ahead == 0 && span <= 62536) || (ahead >= span + 3000 && ahead > 65436)
  }

  // Distances on the circle from one of its points.
  lemma Circle(first: int, last: int, n: int)
    requires 0 <= first < 65536 && 0 <= last < 65536 && 0 <= n < 65536
    ensures var span, ahead := (last - first) % 65536, (n - first) % 65536;
            && (n - last) % 65536 == (if ahead >= span then ahead - span else ahead - span + 65536)
            && (last - n) % 65536 == (if span >= ahead then span - ahead else span - ahead + 65536)
            && (first - n) % 65536 == (if ahead == 0 then 0 else 65536 - ahead)
  {
  }

  // ---------- Runs ----------

  datatype Op = Write(packet: Packet) | Take

  /** A queue with all that was written to it and all that was read from it. */
  datatype History = History(queue: Queue, written: seq<Packet>, read: seq<Packet>)

  function Step(h: History, op: Op): History {
    match op
    case Write(packet) => h.(queue := Written(h.queue, packet), written := h.written + [packet])
    case Take => if CanRead(h.queue) then h.(queue := Read(h.queue), read := h.read + [h.queue.cache[0]]) else h
  }

  function Run(h: History, ops: seq<Op>): History
    decreases |ops|
  {
    if ops == [] then h else Run(Step(h, ops[0]), ops[1..])
  }

  // All the packets a queue holds.
  ghost function Held(q: Queue): multiset<Packet> {
    multiset(q.cache) + multiset(q.badCache)
  }

  /** Nothing is invented or repeated. */
  ghost predicate Conserved(h: History) {
    multiset(h.read) + Held(h.queue) <= multiset(h.written)
  }

  lemma {:induction false} InsertedFrom(cache: seq<Packet>, packet: Packet)
    ensures multiset(Inserted(cache, packet)) <= multiset(cache) + multiset{packet}
  {
    if cache != [] {
      var rest, item := cache[..|cache| - 1], cache[|cache| - 1];
      assert cache == rest + [item];
      InsertedFrom(rest, packet);
    }
  }

  lemma ProbationConserves(q: Queue, packet: Packet)
    requires q.probation > 0
    ensures Held(OnProbation(q, packet)) <= Held(q) + multiset{packet}
  {
    hide Successor, BackSeq, FrontSeq;
    Gathered(q.cache, q.badCache, packet);
  }

  lemma BadConserves(q: Queue, packet: Packet)
    ensures Held(OnBad(q, packet)) <= Held(q) + multiset{packet}
  {
    hide Successor;
    Gathered(q.cache, q.badCache, packet);
    Gathered(q.badCache, [], packet);
  }

  lemma WrittenConserves(q: Queue, packet: Packet)
    ensures Held(Written(q, packet)) <= Held(q) + multiset{packet}
  {
    hide IsDuplicate, IsNext, IsReordered, IsLate, OnProbation, OnBad, Inserted;
    InsertedFrom(q.cache, packet);
    Gathered(q.cache, q.badCache, packet);
    BadConserves(q, packet);
    if q.probation > 0 {
      ProbationConserves(q, packet);
    }
  }

  lemma Gathered(cache: seq<Packet>, bad: seq<Packet>, packet: Packet)
    ensures multiset(cache + [packet]) == multiset(cache) + multiset{packet}
    ensures multiset(cache + (bad + [packet])) == multiset(cache) + multiset(bad) + multiset{packet}
  {
  }

  lemma StepConserves(h: History, op: Op)
    requires Conserved(h)
    ensures Conserved(Step(h, op))
  {
    match op
    case Write(packet) =>
      WrittenConserves(h.queue, packet);
      Gathered(h.written, [], packet);
      hide Written, Held;
    case Take =>
      if CanRead(h.queue) {
        var cache := h.queue.cache;
        assert cache == [cache[0]] + cache[1..];
        Gathered(h.read, [], cache[0]);
      }
  }

  /** Over every run the packets read, with those still held, are among the packets written, as often as written. */
  lemma {:induction false} RunConserves(h: History, ops: seq<Op>)
    requires Conserved(h)
    ensures Conserved(Run(h, ops))
    decreases |ops|
  {
    hide Conserved, Step;
    if ops != [] {
      StepConserves(h, ops[0]);
      RunConserves(Step(h, ops[0]), ops[1..]);
    }
  }

  /** On probation the cache holds at most two packets, in sequence. */
  predicate ProbationSound(q: Queue) {
    q.probation > 0 ==>
      q.probation <= 2 && |q.cache| + q.probation <= 3 && q.badCache == []
      && (|q.cache| == 2 ==> q.cache[1].seqNumber == Successor(q.cache[0].seqNumber))
  }

  predicate Increasing(read: seq<Packet>) {
    forall i :: 0 < i < |read| ==> Newer(read[i - 1].seqNumber, read[i].seqNumber)
  }

  predicate Ordered(h: History) {
    && InOrder(h.queue.cache) && BadSound(h.queue) && ProbationSound(h.queue) && Increasing(h.read)
    && (h.read != [] ==> h.queue.probation == 0)
    && (h.read != [] && h.queue.cache != [] ==> Newer(h.read[|h.read| - 1].seqNumber, h.queue.cache[0].seqNumber))
  }

  lemma ProbationOrder(q: Queue, packet: Packet)
    requires q.probation > 0 && ProbationSound(q) && InOrder(q.cache)
    ensures var r := Written(q, packet); InOrder(r.cache) && ProbationSound(r) && BadSound(r)
  {
  }

  predicate IsRestart(q: Queue, packet: Packet) {
    IsBad(q, packet) && q.badCache != [] && packet.seqNumber == q.badSeq
  }

  /** Nothing read yet, or the last number read comes before this one. */
  predicate Follows(read: seq<Packet>, seqNumber: u16) {
    read == [] || Newer(read[|read| - 1].seqNumber, seqNumber)
  }

  /**
  A write keeps the order unless it appends a number 2^15 or more past the front or, to a drained queue, one that does not
  come after the last one read.
   */
  predicate Smooth(h: History, op: Op) {
    op.Write? && h.queue.probation == 0 ==>
      if h.queue.cache != [] then Appends(h.queue, op.packet) ==> Distance(h.queue.cache, op.packet.seqNumber) < 0x8000
      else
        && (IsNext(h.queue, op.packet) ==> Follows(h.read, op.packet.seqNumber))
        && (IsRestart(h.queue, op.packet) ==> Follows(h.read, h.queue.badCache[0].seqNumber))
  }

  predicate SmoothRun(h: History, ops: seq<Op>)
    decreases |ops|
  {
    ops == [] || (Smooth(h, ops[0]) && SmoothRun(Step(h, ops[0]), ops[1..]))
  }

  /** The queue is in order at every moment of the run. */
  predicate OrderedThroughout(h: History, ops: seq<Op>)
    decreases |ops|
  {
    Ordered(h) && (ops != [] ==> OrderedThroughout(Step(h, ops[0]), ops[1..]))
  }

  lemma DrainedOrder(h: History, packet: Packet)
    requires Ordered(h) && h.queue.probation == 0 && h.queue.cache == []
    ensures Ordered(Step(h, Write(packet))) <==> Smooth(h, Write(packet))
  {
    var q := h.queue;
    if IsRestart(q, packet) {
      assert q.badCache + [packet] == [q.badCache[0], packet];
      assert Newer(q.badCache[0].seqNumber, packet.seqNumber);
    }
  }

  lemma TakeKeepsOrder(h: History)
    requires Ordered(h)
    ensures Ordered(Step(h, Take))
  {
    var cache := h.queue.cache;
    if CanRead(h.queue) && |cache| > 1 {
      assert Newer(cache[0].seqNumber, cache[1].seqNumber);
    }
    hide Newer;
  }

  lemma StepKeepsOrder(h: History, op: Op)
    requires Ordered(h)
    ensures Ordered(Step(h, op)) <==> Smooth(h, op)
  {
    match op
    case Write(packet) =>
      if h.queue.probation > 0 {
        ProbationOrder(h.queue, packet);
        hide Written, Newer;
      } else if h.queue.cache == [] {
        DrainedOrder(h, packet);
        hide Ordered, Smooth, Step;
      } else {
        WriteKeepsOrderExactly(h.queue, packet);
        hide Written, Newer;
      }
    case Take =>
      TakeKeepsOrder(h);
      hide Ordered, Step;
  }

  /** The exact condition over whole runs: the queue is in order at every moment if and only if every write is smooth. */
  lemma {:induction false} OrderedExactly(h: History, ops: seq<Op>)
    requires Ordered(h)
    ensures OrderedThroughout(h, ops) <==> SmoothRun(h, ops)
    decreases |ops|
  {
    hide Ordered, Smooth, Step;
    if ops != [] {
      StepKeepsOrder(h, ops[0]);
      if Smooth(h, ops[0]) {
        OrderedExactly(Step(h, ops[0]), ops[1..]);
      }
    }
  }

  /** Over every smooth run each packet read is newer than the one read before it. */
  lemma {:induction false} RunReadsInOrder(h: History, ops: seq<Op>)
    requires Ordered(h) && SmoothRun(h, ops)
    ensures Ordered(Run(h, ops))
    decreases |ops|
  {
    hide Ordered, Smooth, Step;
    if ops != [] {
      StepKeepsOrder(h, ops[0]);
      RunReadsInOrder(Step(h, ops[0]), ops[1..]);
    }
  }

  /** Every packet taken follows the one taken before it. */
  predicate TakesFollow(h: History, ops: seq<Op>)
    decreases |ops|
  {
    ops == []
    || ((ops[0].Take? && CanRead(h.queue) ==> Follows(h.read, FrontSeq(h.queue.cache))) && TakesFollow(Step(h, ops[0]), ops[1..]))
  }

  lemma ReadOn(h: History, op: Op)
    requires Increasing(h.read)
    ensures Increasing(Step(h, op).read) <==> (op.Take? && CanRead(h.queue) ==> Follows(h.read, FrontSeq(h.queue.cache)))
  {
    hide Newer, Written;
    if op.Take? && CanRead(h.queue) {
      var all := Step(h, op).read;
      if h.read != [] {
        assert all[|h.read| - 1] == h.read[|h.read| - 1] && all[|h.read|].seqNumber == FrontSeq(h.queue.cache);
      }
      forall i | 0 < i < |h.read| ensures Newer(all[i - 1].seqNumber, all[i].seqNumber) {
        assert Newer(h.read[i - 1].seqNumber, h.read[i].seqNumber);
      }
    }
  }

  lemma {:induction false} NeverMended(h: History, ops: seq<Op>)
    requires !Increasing(h.read)
    ensures !Increasing(Run(h, ops).read)
    decreases |ops|
  {
    hide Written, CanRead, Newer;
    if ops != [] {
      var i :| 0 < i < |h.read| && !Newer(h.read[i - 1].seqNumber, h.read[i].seqNumber);
      var all := Step(h, ops[0]).read;
      assert all[i - 1] == h.read[i - 1] && all[i] == h.read[i];
      NeverMended(Step(h, ops[0]), ops[1..]);
    }
  }

  /** A run reads out of order exactly when it takes a packet that does not follow the one it took before. */
  lemma {:induction false} ReadsExactly(h: History, ops: seq<Op>)
    requires Increasing(h.read)
    ensures Increasing(Run(h, ops).read) <==> TakesFollow(h, ops)
    decreases |ops|
  {
    hide CanRead, Newer, Written;
    if ops != [] {
      ReadOn(h, ops[0]);
      hide Increasing, Follows;
      var next := Step(h, ops[0]);
      if Increasing(next.read) {
        ReadsExactly(next, ops[1..]);
      } else {
        NeverMended(next, ops[1..]);
      }
    }
  }

  function Takes(n: nat): seq<Op> {
    if n == 0 then [] else [Take] + Takes(n - 1)
  }

  /** A queue that may hold no more than one packet gives them out one after the other. */
  lemma {:induction false} TakesRead(h: History, n: nat)
    requires h.queue.probation == 0 && h.queue.maxCacheSize <= 1 && n <= |h.queue.cache|
    ensures Run(h, Takes(n)).read == h.read + h.queue.cache[..n]
    decreases n
  {
    if n > 0 {
      var cache := h.queue.cache;
      assert Takes(n)[1..] == Takes(n - 1);
      TakesRead(Step(h, Take), n - 1);
      assert cache[..n] == [cache[0]] + cache[1..][..n - 1];
    }
  }

  /** The queue after the writes of `RestartExample`, one packet at a time. */
  function Restarted(): History {
    Run(History(NewQueue(1), [], []),
        [Write(Packet(0, 0)), Write(Packet(1, 1)), Write(Packet(2, 2)), Write(Packet(40000, 3)), Write(Packet(40001, 4))])
  }

  lemma RestartedIs()
    ensures var h := Restarted();
            h.queue.probation == 0 && h.queue.maxCacheSize == 1 && h.read == []
            && h.queue.cache == [Packet(0, 0), Packet(1, 1), Packet(2, 2), Packet(40000, 3), Packet(40001, 4)]
  {
  }

  /** A queue out of order is read out of order. */
  lemma GapExample()
    ensures Run(Restarted(), Takes(4)).read == [Packet(0, 0), Packet(1, 1), Packet(2, 2), Packet(40000, 3)]
    ensures !Increasing(Run(Restarted(), Takes(4)).read)
  {
    hide Restarted, Run, Takes;
    RestartedIs();
    TakesRead(Restarted(), 4);
    var read := [Packet(0, 0), Packet(1, 1), Packet(2, 2), Packet(40000, 3)];
    assert !Newer(read[2].seqNumber, read[3].seqNumber);
  }

  /** Unless a packet comes in time that bridges the gap. */
  lemma BridgeExample()
    ensures var h := Run(Step(Restarted(), Write(Packet(20000, 5))), Takes(5));
            h.read == [Packet(0, 0), Packet(1, 1), Packet(2, 2), Packet(20000, 5), Packet(40000, 3)] && Increasing(h.read)
  {
    hide Restarted, Run, Takes, Step;
    BridgedIs();
    TakesRead(Step(Restarted(), Write(Packet(20000, 5))), 5);
  }

  lemma BridgedIs()
    ensures var h := Step(Restarted(), Write(Packet(20000, 5)));
            h.queue.probation == 0 && h.queue.maxCacheSize == 1 && h.read == []
            && h.queue.cache == [Packet(0, 0), Packet(1, 1), Packet(2, 2), Packet(20000, 5), Packet(40000, 3), Packet(40001, 4)]
  {
    hide Restarted, Inserted;
    RestartedIs();
    BridgeInserted(Packet(0, 0), Packet(1, 1), Packet(2, 2), Packet(40000, 3), Packet(40001, 4), Packet(20000, 5));
  }

  lemma BridgeInserted(a: Packet, b: Packet, c: Packet, d: Packet, e: Packet, p: Packet)
    requires c.seqNumber == 2 && d.seqNumber == 40000 && e.seqNumber == 40001 && p.seqNumber == 20000
    ensures Inserted([a, b, c, d, e], p) == [a, b, c, p, d, e]
  {
    var none: seq<Packet> := [];
    assert [a, b, c, d, e][..4] == [a, b, c, d] && [a, b, c, d][..3] == [a, b, c];
    assert Inserted([a, b, c], p) == [a, b, c, p];
    assert Inserted([a, b, c, d], p) == [a, b, c, p] + [d];
  }

  // ---------- Waiting ----------

  /** The numbers of the last two packets written are in sequence. */
  predicate InSequence(a: Packet, b: Packet) {
    b.seqNumber == Successor(a.seqNumber)
  }

  /** The number in front when probation ended: that of the first of three packets written in sequence. */
  function Settled(written: seq<Packet>): Option<u16> {
    var n := |written|;
    if n < 3 then None
    else if Settled(written[..n - 1]).Some? then Settled(written[..n - 1])
    else if InSequence(written[n - 3], written[n - 2]) && InSequence(written[n - 2], written[n - 1]) then Some(written[n - 3].seqNumber)
    else None
  }

  /** The number that is next: the successor of the last one read, for the first read the one in front when probation ended. */
  function DueNumber(h: History): u16
    requires Settled(h.written).Some?
  {
    if h.read == [] then Settled(h.written).value else Successor(h.read[|h.read| - 1].seqNumber)
  }

  /** On probation the cache holds the last packet written, and the one before it if the two are in sequence. */
  predicate Probing(q: Queue, written: seq<Packet>) {
    var n := |written|;
    if n == 0 then q.probation == 2 && q.cache == []
    else if PairBehind(written) then q.probation == 1 && q.cache == written[n - 2..]
    else q.probation == 2 && q.cache == [written[n - 1]]
  }

  predicate Waits(h: History) {
    if Settled(h.written).None? then Probing(h.queue, h.written) && h.read == []
    else h.queue.probation == 0 && h.queue.firstOrderedSeq == DueNumber(h)
  }

  lemma SettledOn(written: seq<Packet>, packet: Packet)
    ensures var n := |written|;
            Settled(written + [packet]) ==
            if Settled(written).Some? then Settled(written)
            else if n >= 2 && InSequence(written[n - 2], written[n - 1]) && InSequence(written[n - 1], packet) then Some(written[n - 2].seqNumber)
            else None
  {
    hide InSequence;
    assert (written + [packet])[..|written|] == written;
  }

  /** The last two packets written, when both are there and in sequence. */
  predicate PairBehind(written: seq<Packet>) {
    |written| >= 2 && InSequence(written[|written| - 2], written[|written| - 1])
  }

  lemma PairAfter(written: seq<Packet>, packet: Packet)
    ensures PairBehind(written + [packet]) <==> written != [] && InSequence(written[|written| - 1], packet)
  {
    hide InSequence;
  }

  lemma ProbingWrite(q: Queue, written: seq<Packet>, packet: Packet)
    requires Probing(q, written)
    ensures var r, n := Written(q, packet), |written|;
            if PairBehind(written) && InSequence(written[n - 1], packet)
            then r.probation == 0 && r.firstOrderedSeq == written[n - 2].seqNumber
            else Probing(r, written + [packet])
  {
    hide Successor;
    PairAfter(written, packet);
    var n, more := |written|, written + [packet];
    if n > 0 {
      var last := written[n - 1];
      assert more[|more| - 2..] == [last, packet];
      if PairBehind(written) {
        assert q.cache == [written[n - 2], last];
      }
    }
  }

  lemma ProbingOn(h: History, packet: Packet)
    requires Settled(h.written).None? && Waits(h)
    ensures Waits(Step(h, Write(packet)))
  {
    SettledOn(h.written, packet);
    ProbingWrite(h.queue, h.written, packet);
    hide Settled, InSequence, Written, Probing;
  }

  lemma SettledWrite(h: History, packet: Packet)
    requires Settled(h.written).Some? && Waits(h)
    ensures Waits(Step(h, Write(packet)))
  {
    SettledOn(h.written, packet);
    hide Settled, Inserted;
  }

  lemma StepWaits(h: History, op: Op)
    requires Waits(h)
    ensures Waits(Step(h, op))
  {
    match op
    case Write(packet) =>
      hide Waits, Settled, Step;
      if Settled(h.written).None? {
        ProbingOn(h, packet);
      } else {
        SettledWrite(h, packet);
      }
    case Take =>
      hide Settled, Probing, Successor;
      TakeWaits(h);
  }

  lemma TakeWaits(h: History)
    requires Waits(h)
    ensures Waits(Step(h, Take))
  {
    hide Settled, Successor;
  }

  lemma {:induction false} RunWaits(h: History, ops: seq<Op>)
    requires Waits(h)
    ensures Waits(Run(h, ops))
    decreases |ops|
  {
    hide Waits, Step;
    if ops != [] {
      StepWaits(h, ops[0]);
      RunWaits(Step(h, ops[0]), ops[1..]);
    }
  }

  /**
  When a read gives a packet, over every run: probation is over, so that three packets in sequence have been written, the
  cache is not empty, and either the number in front is the next one due or the cache holds as many packets as it may.
  The packet given is the one in front.
   */
  lemma TakeExactly(maxCacheSize: nat, ops: seq<Op>)
    ensures var h := Run(History(NewQueue(maxCacheSize), [], []), ops);
            var r := Step(h, Take);
            (r.read == if h.queue.cache != [] && Settled(h.written).Some?
                          && (h.queue.cache[0].seqNumber == DueNumber(h) || |h.queue.cache| >= maxCacheSize)
                       then h.read + [h.queue.cache[0]] else h.read)
            && (r.read == h.read ==> r == h)
  {
    var start := History(NewQueue(maxCacheSize), [], []);
    RunWaits(start, ops);
    SizeStays(start, ops);
    hide Run, Settled, Probing;
    var h := Run(start, ops);
    if h.queue.cache != [] {
      assert |h.read + [h.queue.cache[0]]| > |h.read|;
    }
  }

  lemma {:induction false} SizeStays(h: History, ops: seq<Op>)
    ensures Run(h, ops).queue.maxCacheSize == h.queue.maxCacheSize
    decreases |ops|
  {
    hide Inserted;
    if ops != [] {
      SizeStays(Step(h, ops[0]), ops[1..]);
    }
  }

  lemma NewIsOrdered(maxCacheSize: nat)
    ensures var h := History(NewQueue(maxCacheSize), [], []); Ordered(h) && Conserved(h)
  {
  }
}
