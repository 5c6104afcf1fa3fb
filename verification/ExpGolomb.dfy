/**
Exp-Golomb codes (library/codec/h264/src/utils.rs:12-32), section 9.1 of ITU-T H.264.
 */
module ExpGolomb {
  import opened Bytesio
  import opened Bits

  /** The number of bits of `x`, less one: the floor of its binary logarithm. */
  function Log2(x: nat): (k: nat)
    requires x > 0
    ensures Pow2(k) <= x < Pow2(k + 1)
  {
    if x == 1 then 0 else Log2(x / 2) + 1
  }

  /** The code of `v`: as many zeros as `v + 1` has bits behind its first one, and then `v + 1`. */
  function Code(v: nat): BitSeq {
    var k := Log2(v + 1);
    ZeroBits(k) + BitsOf(v + 1, k + 1)
  }

  function LeadingZeros(bits: BitSeq): (k: nat)
    ensures k <= |bits|
  {
    if bits == [] || bits[0] then 0 else 1 + LeadingZeros(bits[1..])
  }

  /**
  The number read and what is left.  Sixty-four zeros or more overflow the shift; otherwise the number is cut down
  to its low 32 bits.
   */
  function ReadUevSpec(bits: BitSeq): Result<(nat, BitSeq)> {
    var k := LeadingZeros(bits);
    if k == |bits| then Err(NotEnoughBytes)
    else if k >= 64 then Err(Overflow)
    else if |bits| < 2 * k + 1 then Err(NotEnoughBytes)
    else Ok(((Pow2(k) - 1 + Value(bits[k + 1..2 * k + 1])) % 0x1_0000_0000, bits[2 * k + 1..]))
  }

  method ReadUev(bitReader: BitsReader) returns (r: Result<nat>)
    requires bitReader.Valid()
    modifies bitReader, bitReader.reader
    ensures bitReader.Valid() && bitReader.reader == old(bitReader.reader)
    ensures match ReadUevSpec(old(bitReader.Remaining()))
            case Ok(read) => r == Ok(read.0) && bitReader.Remaining() == read.1
            case Err(error) => r == Err(error)
  {
    hide BitsOf, BitsOfBytes, Pow2, Value, LeadingZeros;
    ghost var bits := bitReader.Remaining();
    var leadingZeroBits :- SkipZeros(bitReader);
    if leadingZeroBits >= 64 {
      return Err(Overflow);
    }
    ghost var k := leadingZeroBits;
    var suffix := bitReader.ReadNBits(leadingZeroBits);
    if suffix.Err? {
      return Err(suffix.error);
    }
    CodeSlices(bits, k);
    var codeNum := Pow2(leadingZeroBits) - 1 + suffix.value;
    r := Ok(codeNum % 0x1_0000_0000);
  }

  lemma CodeSlices(bits: BitSeq, k: nat)
    requires |bits| >= 2 * k + 1
    ensures bits[k + 1..][..k] == bits[k + 1..2 * k + 1] && bits[k + 1..][k..] == bits[2 * k + 1..]
  {
  }

  /** Count the zeros in front of the first one, and take that too. */
  method SkipZeros(bitReader: BitsReader) returns (r: Result<nat>)
    requires bitReader.Valid()
    modifies bitReader, bitReader.reader
    ensures bitReader.Valid() && bitReader.reader == old(bitReader.reader)
    ensures var bits := old(bitReader.Remaining());
            var k := LeadingZeros(bits);
            if k == |bits| then r == Err(NotEnoughBytes) else r == Ok(k) && bitReader.Remaining() == bits[k + 1..]
  {
    hide BitsOf, BitsOfBytes;
    ghost var bits := bitReader.Remaining();
    var leadingZeroBits: nat := 0;
    assert bits[0..] == bits;
    while true
      invariant bitReader.Valid() && bitReader.reader == old(bitReader.reader)
      invariant leadingZeroBits <= |bits| && bitReader.Remaining() == bits[leadingZeroBits..]
      invariant LeadingZeros(bits) == leadingZeroBits + LeadingZeros(bits[leadingZeroBits..])
      decreases |bits| - leadingZeroBits
    {
      var bit :- bitReader.ReadBit();
      assert bits[leadingZeroBits..][1..] == bits[leadingZeroBits + 1..];
      if bit {
        return Ok(leadingZeroBits);
      }
      leadingZeroBits := leadingZeroBits + 1;
    }
  }

  lemma {:induction false} ZerosLead(k: nat, rest: BitSeq)
    ensures rest != [] && rest[0] ==> LeadingZeros(ZeroBits(k) + rest) == k
  {
    if k == 0 {
      assert ZeroBits(0) + rest == rest;
    } else {
      assert (ZeroBits(k) + rest)[1..] == ZeroBits(k - 1) + rest;
      ZerosLead(k - 1, rest);
    }
  }

  lemma {:induction false} TopBit(x: nat, k: nat)
    requires Pow2(k) <= x < Pow2(k + 1)
    ensures BitsOf(x, k + 1)[0] && Value(BitsOf(x, k + 1)[1..]) == x - Pow2(k)
  {
    if k == 0 {
      assert BitsOf(x, 1) == [true];
    } else {
      TopBit(x / 2, k - 1);
      var b := BitsOf(x, k + 1);
      assert b[1..][..k - 1] == BitsOf(x / 2, k)[1..];
    }
  }

  lemma SmallLog(v: nat)
    requires v <= 0xFFFF_FFFE
    ensures Log2(v + 1) < 32
  {
    var k := Log2(v + 1);
    if k >= 32 {
      PowGrows(32, k);
      PowOf32();
    }
  }

  lemma PowOf32()
    ensures Pow2(32) == 0x1_0000_0000
  {
    assert Pow2(8) == 256;
    assert Pow2(16) == 65536;
    assert Pow2(24) == 0x100_0000;
  }

  /** The code of every number up to 2^32 - 2 is read back, whatever follows it, and no bit more is taken. */
  lemma UevRoundTrip(v: nat, rest: BitSeq)
    requires v <= 0xFFFF_FFFE
    ensures |Code(v)| == 2 * Log2(v + 1) + 1
    ensures ReadUevSpec(Code(v) + rest) == Ok((v, rest))
  {
    hide BitsOf, Log2, Pow2, Value, LeadingZeros, ReadUevSpec;
    var k := Log2(v + 1);
    var info := BitsOf(v + 1, k + 1);
    TopBit(v + 1, k);
    SmallLog(v);
    ZerosLead(k, info + rest);
    CodeParts(k, info, rest);
    assert Code(v) + rest == ZeroBits(k) + (info + rest);
    ReadParts(Code(v) + rest, k);
    SmallModulo(v, 0x1_0000_0000);
  }

  lemma ReadParts(bits: BitSeq, k: nat)
    requires LeadingZeros(bits) == k < 64 && 2 * k + 1 <= |bits|
    ensures ReadUevSpec(bits) == Ok(((Pow2(k) - 1 + Value(bits[k + 1..2 * k + 1])) % 0x1_0000_0000, bits[2 * k + 1..]))
  {
    hide LeadingZeros, Pow2, Value;
  }

  lemma CodeParts(k: nat, info: BitSeq, rest: BitSeq)
    requires |info| == k + 1
    ensures var bits := ZeroBits(k) + (info + rest);
            bits == ZeroBits(k) + info + rest && bits[k + 1..2 * k + 1] == info[1..] && bits[2 * k + 1..] == rest
  {
  }

  // ---------- Signed numbers ----------

  /** The cast to 32 bits. */
  function ToI32(x: int): int {
    (x + 0x8000_0000) % 0x1_0000_0000 - 0x8000_0000
  }

  function SignedOf(codeNum: nat): int {
    var negative := if codeNum % 2 == 0 then -1 else 1;
    ToI32((codeNum + 1) / 2 * negative)
  }

  method ReadSev(bitReader: BitsReader) returns (r: Result<int>)
    requires bitReader.Valid()
    modifies bitReader, bitReader.reader
    ensures bitReader.Valid()
    ensures match ReadUevSpec(old(bitReader.Remaining()))
            case Ok(read) => r == Ok(SignedOf(read.0)) && bitReader.Remaining() == read.1
            case Err(error) => r == Err(error)
  {
    hide ReadUevSpec;
    var codeNum :- ReadUev(bitReader);
    var negative: int := if codeNum % 2 == 0 then -1 else 1;
    var seValue := (codeNum + 1) / 2 * negative;
    r := Ok(ToI32(seValue));
  }

  /** Table 9-3 of the standard backwards: the code number of a signed value. */
  function CodeNumOf(s: int): nat {
    if s > 0 then 2 * s - 1 else -2 * s
  }

  /** Code numbers up to 2^32 - 2 and values of magnitude below 2^31 correspond one to one. */
  lemma SignedBijection(codeNum: nat, s: int)
    requires codeNum <= 0xFFFF_FFFE && -0x8000_0000 < s < 0x8000_0000
    ensures CodeNumOf(s) <= 0xFFFF_FFFE && SignedOf(CodeNumOf(s)) == s
    ensures -0x8000_0000 < SignedOf(codeNum) < 0x8000_0000 && CodeNumOf(SignedOf(codeNum)) == codeNum
  {
    var n := CodeNumOf(s);
    assert (n + 1) / 2 == if s > 0 then s else -s;
  }

  lemma SevRoundTrip(s: int, rest: BitSeq)
    requires -0x8000_0000 < s < 0x8000_0000
    ensures var read := ReadUevSpec(Code(CodeNumOf(s)) + rest);
            read.Ok? && SignedOf(read.value.0) == s && read.value.1 == rest
  {
    SignedBijection(0, s);
    UevRoundTrip(CodeNumOf(s), rest);
  }
}
