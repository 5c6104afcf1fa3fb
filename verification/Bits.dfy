/**
Reading and writing single bits (library/bytesio/src/bits_writer.rs, bits_reader.rs).  Machine words
are their bits here, most significant first: a shift drops bits at one end and puts zeros at the other.
 */
module Bits {
  import opened Bytesio

  type BitSeq = seq<bool>

  function Pow2(n: nat): (p: nat)
    ensures p >= 1
  {
    if n == 0 then 1 else 2 * Pow2(n - 1)
  }

  /** The low `n` bits of a number, most significant first. */
  function BitsOf(x: nat, n: nat): (b: BitSeq)
    ensures |b| == n
  {
    if n == 0 then [] else BitsOf(x / 2, n - 1) + [x % 2 == 1]
  }

  function Bit(b: bool): nat {
    if b then 1 else 0
  }

  function Value(b: BitSeq): nat {
    if b == [] then 0 else 2 * Value(b[..|b| - 1]) + Bit(b[|b| - 1])
  }

  lemma {:induction false} ValueBound(b: BitSeq)
    ensures Value(b) < Pow2(|b|)
  {
    if b != [] {
      ValueBound(b[..|b| - 1]);
    }
  }

  lemma ValueSnoc(front: BitSeq, last: bool)
    ensures Value(front + [last]) == 2 * Value(front) + Bit(last)
  {
    assert (front + [last])[..|front|] == front;
  }

  lemma {:induction false} ValueOfBits(x: nat, n: nat)
    requires x < Pow2(n)
    ensures Value(BitsOf(x, n)) == x
  {
    if n > 0 {
      ValueOfBits(x / 2, n - 1);
      ValueSnoc(BitsOf(x / 2, n - 1), x % 2 == 1);
      hide Value;
    }
  }

  lemma ValueHalves(front: BitSeq, last: bool)
    ensures Value(front + [last]) / 2 == Value(front) && (Value(front + [last]) % 2 == 1 <==> last)
  {
    ValueSnoc(front, last);
    hide Value;
  }

  lemma {:induction false} BitsOfValue(b: BitSeq)
    ensures BitsOf(Value(b), |b|) == b
  {
    if b != [] {
      var front, last := b[..|b| - 1], b[|b| - 1];
      BitsOfValue(front);
      assert b == front + [last];
      ValueHalves(front, last);
      hide Value;
      assert BitsOf(Value(b), |b|) == BitsOf(Value(front), |front|) + [last];
    }
  }

  lemma {:induction false} ValueOfConcat(a: BitSeq, b: BitSeq)
    ensures Value(a + b) == Value(a) * Pow2(|b|) + Value(b)
    decreases |b|
  {
    if b == [] {
      assert a + b == a;
    } else {
      var front, last := b[..|b| - 1], b[|b| - 1];
      ValueOfConcat(a, front);
      assert (a + b)[..|a + b| - 1] == a + front;
      Distribute(Value(a), Pow2(|front|), Value(front), Bit(last));
    }
  }

  lemma Distribute(a: nat, p: nat, c: nat, d: nat)
    ensures 2 * (a * p + c) + d == a * (2 * p) + (2 * c + d)
  {
  }

  function ZeroBits(n: nat): (b: BitSeq)
    ensures |b| == n
  {
    seq(n, i => false)
  }

  function ShiftLeft(word: BitSeq, n: nat): (r: BitSeq)
    requires n <= |word|
    ensures |r| == |word|
  {
    word[n..] + ZeroBits(n)
  }

  function ShiftRight(word: BitSeq, n: nat): (r: BitSeq)
    requires n <= |word|
    ensures |r| == |word|
  {
    ZeroBits(n) + word[..|word| - n]
  }

  function OrBits(a: BitSeq, b: BitSeq): (r: BitSeq)
    requires |a| == |b|
    ensures |r| == |a|
  {
    seq(|a|, i requires 0 <= i < |a| => a[i] || b[i])
  }

  /** The bits of bytes in the order of a stream. */
  function BitsOfBytes(bytes: Bytes): (b: BitSeq)
    ensures |b| == 8 * |bytes|
  {
    if bytes == [] then [] else BitsOfBytes(bytes[..|bytes| - 1]) + BitsOf(bytes[|bytes| - 1], 8)
  }

  lemma BitsOfOneMore(bytes: Bytes, byte: u8)
    ensures BitsOfBytes(bytes + [byte]) == BitsOfBytes(bytes) + BitsOf(byte, 8)
  {
    assert (bytes + [byte])[..|bytes|] == bytes;
  }

  function Byte(b: BitSeq): u8
    requires |b| == 8
  {
    ValueBound(b);
    assert Pow2(8) == 256;
    Value(b)
  }

  // ---------- Writer ----------

  /** What is being written: whole bytes, and the byte in hand with the number of its bits that count. */
  datatype Writing = Writing(bytes: Bytes, curByte: BitSeq, curBitNum: nat) {
    /** The bits of the byte in hand that do not count yet are clear. */
    predicate Valid() {
      |curByte| == 8 && curBitNum <= 8 && curByte[curBitNum..] == ZeroBits(8 - curBitNum)
    }

    /** All the bits written. */
    function Stream(): BitSeq
      requires Valid()
    {
      BitsOfBytes(bytes) + curByte[..curBitNum]
    }
  }

  /** One bit into the byte in hand, which is handed over when that fills it. */
  function PutBit(w: Writing, b: bool): Writing
    requires w.Valid() && w.curBitNum < 8
  {
    var byte := OrBits(w.curByte, ShiftLeft(ZeroBits(7) + [b], 7 - w.curBitNum));
    if w.curBitNum + 1 == 8 then Writing(w.bytes + [Byte(byte)], ZeroBits(8), 0)
    else Writing(w.bytes, byte, w.curBitNum + 1)
  }

  lemma PutBitAppends(w: Writing, b: bool)
    requires w.Valid() && w.curBitNum < 8
    ensures var r := PutBit(w, b); r.Valid() && r.curBitNum < 8 && r.Stream() == w.Stream() + [b]
  {
    BitSet(w.curByte, w.curBitNum, b);
    var byte := OrBits(w.curByte, ShiftLeft(ZeroBits(7) + [b], 7 - w.curBitNum));
    assert byte[..w.curBitNum + 1] == w.curByte[..w.curBitNum] + [b];
    Concat3(BitsOfBytes(w.bytes), w.curByte[..w.curBitNum], [b]);
    if w.curBitNum + 1 == 8 {
      BitsOfValue(byte);
      BitsOfOneMore(w.bytes, Byte(byte));
      assert byte[..8] == byte;
    }
  }

  /** Bits written one by one. */
  function PutBits(w: Writing, bits: BitSeq): (r: Writing)
    requires w.Valid() && w.curBitNum < 8
    ensures r.Valid() && r.curBitNum < 8
    decreases |bits|
  {
    if bits == [] then w
    else
      PutBitAppends(w, bits[0]);
      PutBits(PutBit(w, bits[0]), bits[1..])
  }

  lemma {:induction false} PutBitsAppends(w: Writing, bits: BitSeq)
    requires w.Valid() && w.curBitNum < 8
    ensures PutBits(w, bits).Stream() == w.Stream() + bits
    decreases |bits|
  {
    if bits == [] {
      assert w.Stream() + [] == w.Stream();
    } else {
      PutBitAppends(w, bits[0]);
      hide PutBit, BitsOfBytes;
      PutBitsAppends(PutBit(w, bits[0]), bits[1..]);
      assert w.Stream() + [bits[0]] + bits[1..] == w.Stream() + bits;
    }
  }

  lemma {:induction false} SameBytes(a: Bytes, b: Bytes)
    requires BitsOfBytes(a) == BitsOfBytes(b)
    ensures a == b
    decreases |a|
  {
    hide BitsOf;
    assert |a| == |b|;
    if a != [] {
      var n := |a| - 1;
      var x, y := BitsOfBytes(a[..n]), BitsOfBytes(b[..n]);
      assert x == BitsOfBytes(a)[..8 * n] == y;
      assert BitsOf(a[n], 8) == BitsOfBytes(a)[8 * n..] == BitsOf(b[n], 8);
      ValueOfBits(a[n], 8);
      ValueOfBits(b[n], 8);
      assert Pow2(8) == 256;
      SameBytes(a[..n], b[..n]);
      assert a == a[..n] + [a[n]] && b == b[..n] + [b[n]];
    }
  }

  /** With less than a byte pending the stream determines the state. */
  lemma SameStreamSameState(v: Writing, w: Writing)
    requires v.Valid() && w.Valid() && v.curBitNum < 8 && w.curBitNum < 8 && v.Stream() == w.Stream()
    ensures v == w
  {
    assert |v.bytes| == |w.bytes| && v.curBitNum == w.curBitNum;
    assert BitsOfBytes(v.bytes) == v.Stream()[..8 * |v.bytes|] == BitsOfBytes(w.bytes);
    SameBytes(v.bytes, w.bytes);
    assert v.curByte[..v.curBitNum] == v.Stream()[8 * |v.bytes|..] == w.curByte[..w.curBitNum];
    assert v.curByte == v.curByte[..v.curBitNum] + v.curByte[v.curBitNum..];
    assert w.curByte == w.curByte[..w.curBitNum] + w.curByte[w.curBitNum..];
  }

  /**
  What `write_n_bits` leaves is what writing its bits one by one leaves, exactly when no full byte is left in hand.
   */
  lemma NBitsRefineBits(before: Writing, after: Writing, bits: BitSeq)
    requires before.Valid() && before.curBitNum < 8 && after.Valid() && after.Stream() == before.Stream() + bits
    ensures after == PutBits(before, bits) <==> after.curBitNum < 8
  {
    PutBitsAppends(before, bits);
    if after.curBitNum < 8 {
      SameStreamSameState(after, PutBits(before, bits));
    }
  }

  /** Writing `n` bits with `pending` in hand ends on a byte that only the loop over the rest filled. */
  predicate LeavesFullByte(pending: nat, n: nat)
    requires pending < 8
  {
    n > 8 - pending && (n - (8 - pending)) % 8 == 0
  }

  lemma {:induction false} LowBits(x: nat, m: nat, n: nat)
    requires n <= m
    ensures BitsOf(x, m)[m - n..] == BitsOf(x, n)
  {
    if n > 0 {
      LowBits(x / 2, m - 1, n - 1);
    }
  }

  /** Bits put into the clear part of a byte leave the others alone. */
  lemma Merged(byte: BitSeq, k: nat, added: BitSeq)
    requires |byte| == 8 && k <= 8 && byte[k..] == ZeroBits(8 - k) && |added| == 8 - k
    ensures OrBits(byte, ZeroBits(k) + added) == byte[..k] + added
  {
    var r := OrBits(byte, ZeroBits(k) + added);
    forall i | 0 <= i < 8 ensures r[i] == (byte[..k] + added)[i] {
      if i >= k {
        assert byte[i] == byte[k..][i - k] == false;
      }
    }
  }

  lemma BitSet(byte: BitSeq, k: nat, b: bool)
    requires |byte| == 8 && k < 8 && byte[k..] == ZeroBits(8 - k)
    ensures OrBits(byte, ShiftLeft(ZeroBits(7) + [b], 7 - k)) == byte[..k] + [b] + ZeroBits(7 - k)
  {
    Merged(byte, k, [b] + ZeroBits(7 - k));
    assert ShiftLeft(ZeroBits(7) + [b], 7 - k) == ZeroBits(k) + ([b] + ZeroBits(7 - k));
  }

  lemma FirstByte(byte: BitSeq, k: nat, word: BitSeq)
    requires |byte| == 8 && k < 8 && byte[k..] == ZeroBits(8 - k) && |word| == 64
    ensures OrBits(byte, ShiftRight(word, 56 + k)[56..]) == byte[..k] + word[..8 - k]
  {
    Merged(byte, k, word[..8 - k]);
    assert ShiftRight(word, 56 + k)[56..] == ZeroBits(k) + word[..8 - k];
  }

  lemma ClearBehind(front: BitSeq, word: BitSeq, bits: nat)
    requires |word| == 64 && |front| + bits < 8 && word[bits..] == ZeroBits(64 - bits)
    ensures (front + word[..8 - |front|])[|front| + bits..] == ZeroBits(8 - |front| - bits)
  {
    var r := (front + word[..8 - |front|])[|front| + bits..];
    forall i | 0 <= i < |r| ensures !r[i] {
      assert r[i] == word[bits + i] == word[bits..][i];
    }
  }

  lemma LastByte(low: BitSeq)
    requires |low| <= 8
    ensures var byte := (low + ZeroBits(64 - |low|))[..8];
            byte[..|low|] == low && byte[|low|..] == ZeroBits(8 - |low|)
  {
  }

  lemma WordFrom(word: BitSeq, n: nat)
    requires n <= |word| == 64
    ensures ShiftLeft(word, 64 - n) == word[64 - n..] + ZeroBits(64 - n)
  {
  }

  lemma WordShifted(low: BitSeq, k: nat)
    requires k <= |low| <= 64
    ensures (low + ZeroBits(64 - |low|))[..k] == low[..k]
    ensures ShiftLeft(low + ZeroBits(64 - |low|), k) == low[k..] + ZeroBits(64 - (|low| - k))
  {
  }

  /** What has gone of `all` bits when `left` are left is whole bytes. */
  predicate WholeBytes(all: nat, left: nat) {
    left <= all && (all - left) % 8 == 0
  }

  lemma BytesLeft(all: nat, left: nat)
    ensures left == all ==> WholeBytes(all, left)
    ensures WholeBytes(all, left) && left > 8 ==> WholeBytes(all, left - 8)
    ensures WholeBytes(all, left) && 0 < left <= 8 ==> (left == 8 <==> all % 8 == 0)
  {
  }

  class BitsWriter {
    var writer: BytesWriter
    var curByte: BitSeq
    var curBitNum: nat

    ghost function State(): Writing
      reads this, writer
    {
      Writing(writer.bytes, curByte, curBitNum)
    }

    ghost predicate Valid()
      reads this, writer
    {
      State().Valid()
    }

    constructor (writer: BytesWriter)
      ensures this.writer == writer && Valid() && State() == Writing(writer.bytes, ZeroBits(8), 0)
    {
      this.writer := writer;
      curByte := ZeroBits(8);
      curBitNum := 0;
    }

    /** A pending full byte, which only `write_n_bits` leaves behind, makes the shift overflow. */
    method WriteBit(b: bool)
      requires Valid() && curBitNum < 8
      modifies this`curByte, this`curBitNum, writer
      ensures Valid() && State() == PutBit(old(State()), b)
    {
      PutBitAppends(State(), b);
      curByte := OrBits(curByte, ShiftLeft(ZeroBits(7) + [b], 7 - curBitNum));
      curBitNum := curBitNum + 1;
      if curBitNum == 8 {
        writer.WriteU8(Byte(curByte));
        curBitNum := 0;
        curByte := ZeroBits(8);
      }
    }

    /** Hand the full byte over. */
    method FlushByte()
      requires Valid() && curBitNum == 8
      modifies this`curByte, this`curBitNum, writer
      ensures State() == Writing(old(writer.bytes) + [Byte(old(curByte))], ZeroBits(8), 0)
      ensures Valid() && State().Stream() == old(State().Stream())
    {
      BitsOfValue(curByte);
      BitsOfOneMore(writer.bytes, Byte(curByte));
      assert curByte[..8] == curByte;
      writer.WriteU8(Byte(curByte));
      curBitNum := 0;
      curByte := ZeroBits(8);
      assert curByte[..0] == [];
    }

    method Flush()
      requires Valid()
      modifies this`curByte, this`curBitNum, writer
      ensures Valid() && State().Stream() == old(State().Stream())
      ensures curBitNum == if old(curBitNum) == 8 then 0 else old(curBitNum)
    {
      if curBitNum == 8 {
        FlushByte();
      }
    }

    /**
    The low bits of a 64-bit number.  They are always appended to the stream; but when the bits left over after the
    first byte fill whole bytes, the last of those is left in hand as a full byte, with which no further bit can be
    written until `bits_aligment_8` lets it go.
     */
    method WriteNBits(data: nat, bitNum: nat) returns (ok: bool)
      requires Valid() && curBitNum < 8 && data < Pow2(64) && bitNum > 0
      modifies this`curByte, this`curBitNum, writer
      ensures Valid()
      ensures ok == (bitNum <= 64)
      ensures !ok ==> State() == old(State())
      ensures ok ==> State().Stream() == old(State().Stream()) + BitsOf(data, bitNum)
      ensures ok ==> (curBitNum == 8 <==> LeavesFullByte(old(curBitNum), bitNum))
    {
      if bitNum > 64 {
        return false;
      }
      ok := true;
      hide BitsOf, BitsOfBytes, ShiftLeft;
      LowBits(data, 64, bitNum);
      WordFrom(BitsOf(data, 64), bitNum);
      WriteWord(ShiftLeft(BitsOf(data, 64), 64 - bitNum), bitNum, BitsOf(data, bitNum));
    }

    /** The bits at the top of the word: first those that fill the byte in hand. */
    method WriteWord(word: BitSeq, bitNum: nat, ghost low: BitSeq)
      requires Valid() && curBitNum < 8 && |low| == bitNum && 0 < bitNum <= 64 && word == low + ZeroBits(64 - bitNum)
      modifies this`curByte, this`curBitNum, writer
      ensures Valid() && State().Stream() == old(State().Stream()) + low
      ensures curBitNum == 8 <==> LeavesFullByte(old(curBitNum), bitNum)
    {
      hide BitsOf, BitsOfBytes, ShiftLeft, ZeroBits;
      var left := 8 - curBitNum;
      if bitNum >= left {
        WordShifted(low, left);
        FillByte(word);
        label filled:
        WriteRest(ShiftLeft(word, left), bitNum - left, low[left..]);
        assert State().Stream() == old(State().Stream()) + low by {
          assert State().Stream() == old@filled(State().Stream()) + low[left..];
          Divided(low, 0, left);
          Concat3(old(State().Stream()), low[..left], low[left..]);
        }
      } else {
        TakeDrop(low, ZeroBits(64 - bitNum));
        AddBits(word, bitNum);
      }
    }

    /** The first bits of the word fill the byte in hand, which is handed over. */
    method FillByte(word: BitSeq)
      requires Valid() && curBitNum < 8 && |word| == 64
      modifies this`curByte, this`curBitNum, writer
      ensures Valid() && curBitNum == 0
      ensures State().Stream() == old(State().Stream()) + word[..8 - old(curBitNum)]
    {
      ghost var before := State();
      FirstByte(curByte, curBitNum, word);
      curByte := OrBits(curByte, ShiftRight(word, 56 + curBitNum)[56..]);
      curBitNum := 8;
      assert curByte[..8] == curByte;
      Concat3(BitsOfBytes(before.bytes), before.curByte[..before.curBitNum], word[..8 - before.curBitNum]);
      FlushByte();
    }

    /** Too few bits to fill the byte in hand; those of the word behind them are clear. */
    method AddBits(word: BitSeq, bits: nat)
      requires Valid() && |word| == 64 && curBitNum + bits < 8 && word[bits..] == ZeroBits(64 - bits)
      modifies this`curByte, this`curBitNum
      ensures Valid() && curBitNum == old(curBitNum) + bits
      ensures State().Stream() == old(State().Stream()) + word[..bits]
    {
      ghost var before := State();
      FirstByte(curByte, curBitNum, word);
      curByte := OrBits(curByte, ShiftRight(word, 56 + curBitNum)[56..]);
      curBitNum := curBitNum + bits;
      assert curByte[..curBitNum] == before.curByte[..before.curBitNum] + word[..bits];
      ClearBehind(before.curByte[..before.curBitNum], word, bits);
      Concat3(BitsOfBytes(before.bytes), before.curByte[..before.curBitNum], word[..bits]);
    }

    /** The bits left over after the first byte, a byte at a time. */
    method WriteRest(data: BitSeq, bitNum: nat, ghost low: BitSeq)
      requires Valid() && curBitNum == 0 && bitNum <= 64 && |low| == bitNum && data == low + ZeroBits(64 - bitNum)
      modifies this`curByte, this`curBitNum, writer
      ensures Valid() && State().Stream() == old(State().Stream()) + low
      ensures curBitNum == 8 <==> bitNum > 0 && bitNum % 8 == 0
    {
      hide BitsOf, BitsOfBytes, ShiftLeft, ZeroBits, WholeBytes;
      ghost var whole, rest := State().Stream() + low, low;
      BytesLeft(bitNum, bitNum);
      var bits, word := bitNum, data;
      while bits > 0
        invariant 0 <= bits == |rest| <= bitNum && Valid() && curBitNum == 0 && WholeBytes(bitNum, bits)
        invariant bits == 0 ==> bitNum == 0
        invariant word == rest + ZeroBits(64 - bits) && State().Stream() + rest == whole
      {
        BytesLeft(bitNum, bits);
        if bits > 8 {
          WordShifted(rest, 8);
          Divided(rest, 0, 8);
          Concat3(State().Stream(), rest[..8], rest[8..]);
          PutByte(word[..8]);
          word := ShiftLeft(word, 8);
          bits := bits - 8;
          rest := rest[8..];
        } else {
          LastByte(rest);
          KeepBits(word[..8], bits);
          return;
        }
      }
    }

    /** A whole byte in hand, handed over. */
    method PutByte(byte: BitSeq)
      requires Valid() && curBitNum == 0 && |byte| == 8
      modifies this`curByte, this`curBitNum, writer
      ensures Valid() && curBitNum == 0 && State().Stream() == old(State().Stream()) + byte
    {
      assert State().Stream() == BitsOfBytes(writer.bytes) && byte[..8] == byte;
      hide BitsOfBytes;
      curByte := byte;
      curBitNum := 8;
      FlushByte();
    }

    /** The last bits stay in hand, eight of them too. */
    method KeepBits(byte: BitSeq, bits: nat)
      requires Valid() && curBitNum == 0 && |byte| == 8 && bits <= 8 && byte[bits..] == ZeroBits(8 - bits)
      modifies this`curByte, this`curBitNum
      ensures Valid() && curBitNum == bits && State().Stream() == old(State().Stream()) + byte[..bits]
    {
      assert State().Stream() == BitsOfBytes(writer.bytes);
      hide BitsOfBytes;
      curByte := byte;
      curBitNum := bits;
    }

    /** Fill the byte up with zeros; an empty one becomes a whole byte of them. */
    method Align8()
      requires Valid()
      modifies this`curByte, this`curBitNum, writer
      ensures Valid() && curBitNum == 0
      ensures State().Stream() == old(State().Stream()) + ZeroBits(8 - old(curBitNum))
    {
      ghost var before := State();
      curBitNum := 8;
      assert curByte[..8] == before.curByte[..before.curBitNum] + ZeroBits(8 - before.curBitNum);
      Concat3(BitsOfBytes(before.bytes), before.curByte[..before.curBitNum], ZeroBits(8 - before.curBitNum));
      Flush();
    }
  }

  // ---------- Reader ----------

  lemma {:induction false} BitsOfFirst(byte: u8, rest: Bytes)
    ensures BitsOfBytes([byte] + rest) == BitsOf(byte, 8) + BitsOfBytes(rest)
    decreases |rest|
  {
    hide BitsOf;
    if rest == [] {
      assert [byte] + [] == [byte] && [byte][..0] == [];
    } else {
      var front, last := rest[..|rest| - 1], rest[|rest| - 1];
      assert ([byte] + rest)[..|rest|] == [byte] + front;
      BitsOfFirst(byte, front);
      Concat3(BitsOf(byte, 8), BitsOfBytes(front), BitsOf(last, 8));
    }
  }

  /** `result <<= 1; result |= bit` on 64 bits. */
  function ShiftIn(result: nat, bit: bool): nat {
    result * 2 % Pow2(64) + Bit(bit)
  }

  lemma ShiftedIn(bits: BitSeq, i: nat)
    requires i < |bits| && i < 64
    ensures ShiftIn(Value(bits[..i]), bits[i]) == Value(bits[..i + 1])
  {
    ValueOneMore(bits, i);
    ValueFits(bits, i + 1);
    hide Pow2, Value;
    SmallModulo(2 * Value(bits[..i]), Pow2(64));
  }

  lemma SmallModulo(x: nat, m: nat)
    requires x < m
    ensures x % m == x
  {
  }

  class BitsReader {
    var reader: BytesReader
    var curByte: u8
    var curBitLeft: nat

    ghost predicate Valid()
      reads this
    {
      curBitLeft <= 8
    }

    /** The bits not yet read. */
    ghost function Remaining(): BitSeq
      requires Valid()
      reads this, reader
    {
      BitsOf(curByte, 8)[8 - curBitLeft..] + BitsOfBytes(reader.buffer)
    }

    constructor (reader: BytesReader)
      ensures this.reader == reader && Valid() && Remaining() == BitsOfBytes(reader.buffer)
    {
      this.reader := reader;
      curByte := 0;
      curBitLeft := 0;
    }

    method ReadBit() returns (r: Result<bool>)
      requires Valid()
      modifies this`curByte, this`curBitLeft, reader
      ensures Valid()
      ensures if old(Remaining()) == [] then r == Err(NotEnoughBytes) && Remaining() == []
              else r == Ok(old(Remaining()[0])) && Remaining() == old(Remaining()[1..])
    {
      hide BitsOf;
      if curBitLeft == 0 {
        ghost var buffer := reader.buffer;
        var byte := reader.ReadU8();
        if byte.Err? {
          return Err(byte.error);
        }
        assert buffer == [byte.value] + buffer[1..];
        BitsOfFirst(byte.value, buffer[1..]);
        curByte := byte.value;
        curBitLeft := 8;
      }
      curBitLeft := curBitLeft - 1;
      r := Ok(BitsOf(curByte, 8)[7 - curBitLeft]);
    }

    /** The value of the next `n` bits; beyond 64 of them the first are shifted out. */
    method ReadNBits(n: nat) returns (r: Result<nat>)
      requires Valid()
      modifies this`curByte, this`curBitLeft, reader
      ensures Valid()
      ensures if |old(Remaining())| < n then r == Err(NotEnoughBytes) && Remaining() == []
              else r.Ok? && Remaining() == old(Remaining()[n..])
      ensures n <= |old(Remaining())| && n <= 64 ==> r == Ok(Value(old(Remaining()[..n])))
    {
      assert Value([]) == 0;
      hide BitsOf, BitsOfBytes, Pow2, ShiftIn, Value;
      ghost var bits := Remaining();
      var result: nat := 0;
      assert bits[..0] == [] && bits[0..] == bits;
      for i := 0 to n
        invariant Valid() && i <= |bits| && Remaining() == bits[i..]
        invariant i <= 64 ==> result == Value(bits[..i])
      {
        var bit := ReadBit();
        if bit.Err? {
          return Err(bit.error);
        }
        if i < 64 {
          ShiftedIn(bits, i);
        }
        result := ShiftIn(result, bit.value);
      }
      r := Ok(result);
    }

    /** Drop the bits of the byte in hand. */
    method Align8()
      requires Valid()
      modifies this`curBitLeft
      ensures Valid() && Remaining() == BitsOfBytes(reader.buffer)
    {
      curBitLeft := 0;
    }
  }

  lemma ValueOneMore(bits: BitSeq, i: nat)
    requires i < |bits|
    ensures Value(bits[..i + 1]) == 2 * Value(bits[..i]) + Bit(bits[i])
  {
    assert bits[..i + 1][..i] == bits[..i];
  }

  lemma ValueFits(bits: BitSeq, n: nat)
    requires n <= |bits| && n <= 64
    ensures Value(bits[..n]) < Pow2(64)
  {
    ValueBound(bits[..n]);
    PowGrows(n, 64);
  }

  /** The bits written are read back as the number they came from. */
  lemma BitsRoundTrip(data: nat, n: nat, rest: BitSeq)
    requires data < Pow2(n)
    ensures var bits := BitsOf(data, n) + rest;
            Value(bits[..n]) == data && bits[n..] == rest
  {
    ValueOfBits(data, n);
    TakeDrop(BitsOf(data, n), rest);
    hide BitsOf;
  }

  lemma {:induction false} PowGrows(m: nat, n: nat)
    requires m <= n
    ensures Pow2(m) <= Pow2(n)
  {
    if m < n {
      PowGrows(m, n - 1);
    }
  }
}
