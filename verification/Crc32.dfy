/**
CRC of the program specific information (library/container/mpegts/src/crc32.rs): the table and
the loop over it, and the bit-by-bit decoder model of Annex A of ITU-T H.222.0.
 */
module Crc32 {
  import opened Bytesio

  /** Eight entries of the table. */
  function TableRow(r: bv8): (row: seq<bv32>)
    ensures |row| == 8
  {
    match r
    case 0 => [0x00000000, 0xB71DC104, 0x6E3B8209, 0xD926430D, 0xDC760413, 0x6B6BC517, 0xB24D861A, 0x0550471E]
    case 1 => [0xB8ED0826, 0x0FF0C922, 0xD6D68A2F, 0x61CB4B2B, 0x649B0C35, 0xD386CD31, 0x0AA08E3C, 0xBDBD4F38]
    case 2 => [0x70DB114C, 0xC7C6D048, 0x1EE09345, 0xA9FD5241, 0xACAD155F, 0x1BB0D45B, 0xC2969756, 0x758B5652]
    case 3 => [0xC836196A, 0x7F2BD86E, 0xA60D9B63, 0x11105A67, 0x14401D79, 0xA35DDC7D, 0x7A7B9F70, 0xCD665E74]
    case 4 => [0xE0B62398, 0x57ABE29C, 0x8E8DA191, 0x39906095, 0x3CC0278B, 0x8BDDE68F, 0x52FBA582, 0xE5E66486]
    case 5 => [0x585B2BBE, 0xEF46EABA, 0x3660A9B7, 0x817D68B3, 0x842D2FAD, 0x3330EEA9, 0xEA16ADA4, 0x5D0B6CA0]
    case 6 => [0x906D32D4, 0x2770F3D0, 0xFE56B0DD, 0x494B71D9, 0x4C1B36C7, 0xFB06F7C3, 0x2220B4CE, 0x953D75CA]
    case 7 => [0x28803AF2, 0x9F9DFBF6, 0x46BBB8FB, 0xF1A679FF, 0xF4F63EE1, 0x43EBFFE5, 0x9ACDBCE8, 0x2DD07DEC]
    case 8 => [0x77708634, 0xC06D4730, 0x194B043D, 0xAE56C539, 0xAB068227, 0x1C1B4323, 0xC53D002E, 0x7220C12A]
    case 9 => [0xCF9D8E12, 0x78804F16, 0xA1A60C1B, 0x16BBCD1F, 0x13EB8A01, 0xA4F64B05, 0x7DD00808, 0xCACDC90C]
    case 10 => [0x07AB9778, 0xB0B6567C, 0x69901571, 0xDE8DD475, 0xDBDD936B, 0x6CC0526F, 0xB5E61162, 0x02FBD066]
    case 11 => [0xBF469F5E, 0x085B5E5A, 0xD17D1D57, 0x6660DC53, 0x63309B4D, 0xD42D5A49, 0x0D0B1944, 0xBA16D840]
    case 12 => [0x97C6A5AC, 0x20DB64A8, 0xF9FD27A5, 0x4EE0E6A1, 0x4BB0A1BF, 0xFCAD60BB, 0x258B23B6, 0x9296E2B2]
    case 13 => [0x2F2BAD8A, 0x98366C8E, 0x41102F83, 0xF60DEE87, 0xF35DA999, 0x4440689D, 0x9D662B90, 0x2A7BEA94]
    case 14 => [0xE71DB4E0, 0x500075E4, 0x892636E9, 0x3E3BF7ED, 0x3B6BB0F3, 0x8C7671F7, 0x555032FA, 0xE24DF3FE]
    case 15 => [0x5FF0BCC6, 0xE8ED7DC2, 0x31CB3ECF, 0x86D6FFCB, 0x8386B8D5, 0x349B79D1, 0xEDBD3ADC, 0x5AA0FBD8]
    case 16 => [0xEEE00C69, 0x59FDCD6D, 0x80DB8E60, 0x37C64F64, 0x3296087A, 0x858BC97E, 0x5CAD8A73, 0xEBB04B77]
    case 17 => [0x560D044F, 0xE110C54B, 0x38368646, 0x8F2B4742, 0x8A7B005C, 0x3D66C158, 0xE4408255, 0x535D4351]
    case 18 => [0x9E3B1D25, 0x2926DC21, 0xF0009F2C, 0x471D5E28, 0x424D1936, 0xF550D832, 0x2C769B3F, 0x9B6B5A3B]
    case 19 => [0x26D61503, 0x91CBD407, 0x48ED970A, 0xFFF0560E, 0xFAA01110, 0x4DBDD014, 0x949B9319, 0x2386521D]
    case 20 => [0x0E562FF1, 0xB94BEEF5, 0x606DADF8, 0xD7706CFC, 0xD2202BE2, 0x653DEAE6, 0xBC1BA9EB, 0x0B0668EF]
    case 21 => [0xB6BB27D7, 0x01A6E6D3, 0xD880A5DE, 0x6F9D64DA, 0x6ACD23C4, 0xDDD0E2C0, 0x04F6A1CD, 0xB3EB60C9]
    case 22 => [0x7E8D3EBD, 0xC990FFB9, 0x10B6BCB4, 0xA7AB7DB0, 0xA2FB3AAE, 0x15E6FBAA, 0xCCC0B8A7, 0x7BDD79A3]
    case 23 => [0xC660369B, 0x717DF79F, 0xA85BB492, 0x1F467596, 0x1A163288, 0xAD0BF38C, 0x742DB081, 0xC3307185]
    case 24 => [0x99908A5D, 0x2E8D4B59, 0xF7AB0854, 0x40B6C950, 0x45E68E4E, 0xF2FB4F4A, 0x2BDD0C47, 0x9CC0CD43]
    case 25 => [0x217D827B, 0x9660437F, 0x4F460072, 0xF85BC176, 0xFD0B8668, 0x4A16476C, 0x93300461, 0x242DC565]
    case 26 => [0xE94B9B11, 0x5E565A15, 0x87701918, 0x306DD81C, 0x353D9F02, 0x82205E06, 0x5B061D0B, 0xEC1BDC0F]
    case 27 => [0x51A69337, 0xE6BB5233, 0x3F9D113E, 0x8880D03A, 0x8DD09724, 0x3ACD5620, 0xE3EB152D, 0x54F6D429]
    case 28 => [0x7926A9C5, 0xCE3B68C1, 0x171D2BCC, 0xA000EAC8, 0xA550ADD6, 0x124D6CD2, 0xCB6B2FDF, 0x7C76EEDB]
    case 29 => [0xC1CBA1E3, 0x76D660E7, 0xAFF023EA, 0x18EDE2EE, 0x1DBDA5F0, 0xAAA064F4, 0x738627F9, 0xC49BE6FD]
    case 30 => [0x09FDB889, 0xBEE0798D, 0x67C63A80, 0xD0DBFB84, 0xD58BBC9A, 0x62967D9E, 0xBBB03E93, 0x0CADFF97]
    case _ => [0xB110B0AF, 0x060D71AB, 0xDF2B32A6, 0x6836F3A2, 0x6D66B4BC, 0xDA7B75B8, 0x035D36B5, 0xB440F7B1]
  }

  function Entry(i: bv8): bv32 {
    TableRow(i >> 3)[i & 7]
  }

  // Names for the bit-vector operations, so that proofs need not look inside them.

  function Xor(x: bv32, y: bv32): bv32 {
    x ^ y
  }

  function LowOctet(x: bv32): bv8 {
    (x & 0xFF) as bv8
  }

  function DropOctet(x: bv32): bv32 {
    x >> 8
  }

  function Index(crc: bv32, b: bv8): bv8 {
    LowOctet(crc) ^ b
  }

  /** One turn of the loop of `gen_crc32`. */
  function Update(crc: bv32, b: bv8): bv32 {
    Xor(Entry(Index(crc, b)), DropOctet(crc))
  }

  function Crc(crc: bv32, data: Bytes): bv32
    decreases |data|
  {
    if data == [] then crc else Crc(Update(crc, data[0] as bv8), data[1..])
  }

  method GenCrc32(crc: bv32, buffer: Bytes) returns (result: bv32)
    ensures result == Crc(crc, buffer)
  {
    hide Update, Entry, Xor, LowOctet, DropOctet;
    result := crc;
    for i := 0 to |buffer|
      invariant Crc(result, buffer[i..]) == Crc(crc, buffer)
    {
      var byte := buffer[i] as bv8;
      assert buffer[i..][1..] == buffer[i + 1..];
      UpdateIs(result, byte);
      var a := Xor(result, byte as bv32);
      var b := Entry(LowOctet(a));
      var c := DropOctet(result);
      result := Xor(b, c);
    }
  }

  lemma UpdateIs(crc: bv32, b: bv8)
    ensures Update(crc, b) == Xor(Entry(LowOctet(Xor(crc, b as bv32))), DropOctet(crc))
  {
    LowByte(crc, b);
    hide Entry, Xor, LowOctet, DropOctet, Index;
  }

  lemma LowByte(crc: bv32, b: bv8)
    ensures LowOctet(Xor(crc, b as bv32)) == Index(crc, b)
  {
  }

  // ---------- The decoder model of the standard ----------

  function Up(y: bv32): bv32 {
    y << 1
  }

  predicate TopClear(y: bv32) {
    y & 0x8000_0000 == 0
  }

  /** One bit through the shift register, with the generator polynomial fed back. */
  function Bit(c: bv32): bv32 {
    if TopClear(c) then Up(c) else Xor(Up(c), 0x04C1_1DB7)
  }

  function EightBits(c: bv32): bv32 {
    Bit(Bit(Bit(Bit(Bit(Bit(Bit(Bit(c))))))))
  }

  function Top(b: bv8): bv32 {
    (b as bv32) << 24
  }

  /** The register after a byte: it enters at the top and is shifted out bit by bit. */
  function Absorb(c: bv32, b: bv8): bv32 {
    EightBits(Xor(c, Top(b)))
  }

  function Reference(c: bv32, data: Bytes): bv32
    decreases |data|
  {
    if data == [] then c else Reference(Absorb(c, data[0] as bv8), data[1..])
  }

  // The program keeps the register with its bytes in the opposite order.
  function Swap(x: bv32): bv32 {
    (x << 24) | ((x & 0xFF00) << 8) | ((x >> 8) & 0xFF00) | (x >> 24)
  }

  lemma XorSwapped(x: bv32, y: bv32, z: bv32)
    ensures Xor(Xor(x, y), z) == Xor(Xor(x, z), y)
  {
    XorAssociative(x, y, z);
    XorAssociative(x, z, y);
    XorCommutative(y, z);
    hide Xor;
  }

  lemma XorAssociative(x: bv32, y: bv32, z: bv32)
    ensures Xor(Xor(x, y), z) == Xor(x, Xor(y, z))
  {
  }

  lemma XorCommutative(x: bv32, y: bv32)
    ensures Xor(x, y) == Xor(y, x)
  {
  }

  /** What the bit that leaves the register feeds back. */
  function Feedback(c: bv32): bv32 {
    if TopClear(c) then 0 else 0x04C1_1DB7
  }

  lemma BitFeedsBack(c: bv32)
    ensures Bit(c) == Xor(Up(c), Feedback(c))
  {
    XorZero(Up(c));
    hide Xor, Up, TopClear;
  }

  lemma XorZero(x: bv32)
    ensures Xor(x, 0) == x && Xor(0, x) == x
    ensures Xor(x, x) == 0
  {
  }

  lemma XorUp(x: bv32, y: bv32)
    ensures Up(Xor(x, y)) == Xor(Up(x), Up(y))
  {
  }

  lemma XorTop(x: bv32, y: bv32)
    ensures TopClear(Xor(x, y)) == (TopClear(x) == TopClear(y))
  {
  }

  lemma XorFeedback(x: bv32, y: bv32)
    ensures Feedback(Xor(x, y)) == Xor(Feedback(x), Feedback(y))
  {
    hide Xor, TopClear;
    XorTop(x, y);
    XorZero(0x04C1_1DB7);
    XorZero(0);
  }

  lemma XorPairs(a: bv32, b: bv32, c: bv32, d: bv32)
    ensures Xor(Xor(a, b), Xor(c, d)) == Xor(Xor(a, c), Xor(b, d))
  {
    hide Xor;
    XorAssociative(Xor(a, b), c, d);
    XorSwapped(a, b, c);
    XorAssociative(Xor(a, c), b, d);
  }

  /** The register is linear: what two inputs leave adds up to what their sum leaves. */
  lemma BitXor(x: bv32, y: bv32)
    ensures Bit(Xor(x, y)) == Xor(Bit(x), Bit(y))
  {
    hide Xor, Up, Bit, Feedback;
    BitFeedsBack(Xor(x, y));
    BitFeedsBack(x);
    BitFeedsBack(y);
    XorUp(x, y);
    XorFeedback(x, y);
    XorPairs(Up(x), Feedback(x), Up(y), Feedback(y));
  }

  lemma EightBitsXor(x: bv32, y: bv32)
    ensures EightBits(Xor(x, y)) == Xor(EightBits(x), EightBits(y))
  {
    hide Bit, Xor;
    var x1, y1 := Bit(x), Bit(y);
    var x2, y2 := Bit(x1), Bit(y1);
    var x3, y3 := Bit(x2), Bit(y2);
    var x4, y4 := Bit(x3), Bit(y3);
    var x5, y5 := Bit(x4), Bit(y4);
    var x6, y6 := Bit(x5), Bit(y5);
    var x7, y7 := Bit(x6), Bit(y6);
    BitXor(x, y);
    BitXor(x1, y1);
    BitXor(x2, y2);
    BitXor(x3, y3);
    BitXor(x4, y4);
    BitXor(x5, y5);
    BitXor(x6, y6);
    BitXor(x7, y7);
  }

  predicate OctetClear(y: bv32) {
    y & 0xFF00_0000 == 0
  }

  function AddOctet(y: bv32): bv32 {
    y << 8
  }

  lemma ClearMovesUp(y: bv32)
    requires TopClear(y)
    ensures Bit(y) == Up(y)
  {
    hide Up, TopClear;
  }

  // The low three bytes of the register only move up; the top byte decides the feedback.
  lemma EightBitsLinear(x: bv32, y: bv32)
    requires OctetClear(y)
    ensures EightBits(Xor(x, y)) == Xor(EightBits(x), AddOctet(y))
  {
    hide Bit, Xor, Up, TopClear, AddOctet, OctetClear;
    LowMovesUp(y);
    EightBitsXor(x, y);
    var y1 := Up(y);
    var y2 := Up(y1);
    var y3 := Up(y2);
    var y4 := Up(y3);
    var y5 := Up(y4);
    var y6 := Up(y5);
    var y7 := Up(y6);
    ClearMovesUp(y);
    ClearMovesUp(y1);
    ClearMovesUp(y2);
    ClearMovesUp(y3);
    ClearMovesUp(y4);
    ClearMovesUp(y5);
    ClearMovesUp(y6);
    ClearMovesUp(y7);
  }

  lemma LowMovesUp(y: bv32)
    requires OctetClear(y)
    ensures TopClear(y) && TopClear(Up(y)) && TopClear(Up(Up(y))) && TopClear(Up(Up(Up(y))))
    ensures var z := Up(Up(Up(Up(y)))); TopClear(z) && TopClear(Up(z)) && TopClear(Up(Up(z))) && TopClear(Up(Up(Up(z))))
    ensures Up(Up(Up(Up(Up(Up(Up(Up(y)))))))) == AddOctet(y)
  {
  }

  // ---------- The table ----------

  /** The first row. */
  lemma FirstRow(k: bv8)
    requires k < 8
    ensures Swap(TableRow(0)[k]) == EightBits(Top(k))
  {
  }

  /** The first entry of a row, and that the row is the first one added to it. */
  ghost predicate RowFits(r: bv8)
    requires r < 32
  {
    Swap(TableRow(r)[0]) == EightBits(Top(r << 3)) && forall k: bv8 :: k < 8 ==> TableRow(r)[k] == Xor(TableRow(r)[0], TableRow(0)[k])
  }

  lemma Rows0(r: bv8)
    requires r < 4
    ensures RowFits(r)
  {
  }

  lemma Rows1(r: bv8)
    requires 4 <= r < 8
    ensures RowFits(r)
  {
  }

  lemma Rows2(r: bv8)
    requires 8 <= r < 12
    ensures RowFits(r)
  {
  }

  lemma Rows3(r: bv8)
    requires 12 <= r < 16
    ensures RowFits(r)
  {
  }

  lemma Rows4(r: bv8)
    requires 16 <= r < 20
    ensures RowFits(r)
  {
  }

  lemma Rows5(r: bv8)
    requires 20 <= r < 24
    ensures RowFits(r)
  {
  }

  lemma Rows6(r: bv8)
    requires 24 <= r < 28
    ensures RowFits(r)
  {
  }

  lemma Rows7(r: bv8)
    requires 28 <= r < 32
    ensures RowFits(r)
  {
  }

  lemma AllRows(r: bv8)
    requires r < 32
    ensures RowFits(r)
  {
    hide RowFits;
    if r < 16 {
      if r < 4 { Rows0(r); } else if r < 8 { Rows1(r); } else if r < 12 { Rows2(r); } else { Rows3(r); }
    } else {
      if r < 20 { Rows4(r); } else if r < 24 { Rows5(r); } else if r < 28 { Rows6(r); } else { Rows7(r); }
    }
  }

  lemma InTable(i: bv8)
    ensures i >> 3 < 32 && i & 7 < 8 && i == ((i >> 3) << 3) ^ (i & 7)
  {
  }

  /** Every entry of the table is what its byte leaves in the register of the standard. */
  lemma TableCorrect(i: bv8)
    ensures Swap(Entry(i)) == EightBits(Top(i))
  {
    hide TableRow, Swap, Xor, EightBits, Top;
    InTable(i);
    var r, k := i >> 3, i & 7;
    AllRows(r);
    FirstRow(k);
    SwapXor(TableRow(r)[0], TableRow(0)[k]);
    TopOfXor(r << 3, k);
    EightBitsXor(Top(r << 3), Top(k));
  }

  function Low(crc: bv32): bv32 {
    Swap(crc) & 0x00FF_FFFF
  }

  // Splitting the register into its top byte, with the input, and the rest.
  lemma SplitRegister(crc: bv32, b: bv8)
    ensures Xor(Swap(crc), Top(b)) == Xor(Top(Index(crc, b)), Low(crc))
  {
    TopOfXor(LowOctet(crc), b);
    SwapSplit(crc);
    XorSwapped(Top(LowOctet(crc)), Low(crc), Top(b));
    hide Xor, Top, Low, Swap, LowOctet;
  }

  lemma TopOfXor(a: bv8, b: bv8)
    ensures Top(a ^ b) == Xor(Top(a), Top(b))
  {
  }

  lemma SwapSplit(crc: bv32)
    ensures Swap(crc) == Xor(Top(LowOctet(crc)), Low(crc))
  {
  }

  lemma LowIsClear(crc: bv32)
    ensures OctetClear(Low(crc))
  {
  }

  lemma DropThenSwap(crc: bv32)
    ensures Swap(DropOctet(crc)) == AddOctet(Low(crc))
  {
    assert DropOctet(crc) == crc >> 8;
    SwapOfShifted(crc);
    ShiftedLow(crc);
    hide Swap, DropOctet, AddOctet, Low;
  }

  lemma SwapOfShifted(x: bv32)
    ensures Swap(x >> 8) == ((x & 0xFF00) << 16) | (((x >> 8) & 0xFF00) << 8) | ((x >> 24) << 8)
  {
    var d := x >> 8;
    assert (d << 24) | ((d & 0xFF00) << 8) | ((d >> 8) & 0xFF00) | (d >> 24)
        == ((x & 0xFF00) << 16) | (((x >> 8) & 0xFF00) << 8) | ((x >> 24) << 8);
  }

  lemma ShiftedLow(x: bv32)
    ensures AddOctet(Low(x)) == ((x & 0xFF00) << 16) | (((x >> 8) & 0xFF00) << 8) | ((x >> 24) << 8)
  {
  }

  lemma SwapXor(x: bv32, y: bv32)
    ensures Swap(Xor(x, y)) == Xor(Swap(x), Swap(y))
  {
  }

  lemma UpdateRefines(crc: bv32, b: bv8)
    ensures Swap(Update(crc, b)) == Absorb(Swap(crc), b)
  {
    var i := Index(crc, b);
    SplitRegister(crc, b);
    LowIsClear(crc);
    DropThenSwap(crc);
    TableCorrect(i);
    EightBitsLinear(Top(i), Low(crc));
    SwapXor(Entry(i), DropOctet(crc));
    hide EightBits, Swap, Entry, Xor, Top, Low, Index, DropOctet, AddOctet, OctetClear;
  }

  /** The table-driven loop computes the CRC of the standard, bytes of the register swapped. */
  lemma {:induction false} CrcRefines(crc: bv32, data: Bytes)
    ensures Swap(Crc(crc, data)) == Reference(Swap(crc), data)
    decreases |data|
  {
    hide Update, Absorb, Swap;
    if data != [] {
      UpdateRefines(crc, data[0] as bv8);
      CrcRefines(Update(crc, data[0] as bv8), data[1..]);
    }
  }

  // ---------- The check a decoder makes ----------

  /** `write_u32::<LittleEndian>`. */
  function LittleEndian(x: bv32): (b: Bytes)
    ensures |b| == 4
  {
    var y, z, w := DropOctet(x), DropOctet(DropOctet(x)), DropOctet(DropOctet(DropOctet(x)));
    [LowOctet(x) as u8, LowOctet(y) as u8, LowOctet(z) as u8, LowOctet(w) as u8]
  }

  lemma {:induction false} CrcConcat(crc: bv32, a: Bytes, b: Bytes)
    ensures Crc(crc, a + b) == Crc(Crc(crc, a), b)
    decreases |a|
  {
    hide Update;
    if a == [] {
      assert a + b == b;
    } else {
      assert (a + b)[1..] == a[1..] + b;
      CrcConcat(Update(crc, a[0] as bv8), a[1..], b);
    }
  }

  // A register fed its own low byte is only shifted.
  lemma FedItself(x: bv32)
    ensures Update(x, LowOctet(x)) == DropOctet(x)
  {
    assert Index(x, LowOctet(x)) == 0;
    assert Entry(0) == 0;
  }

  lemma FedOwnBytes(x: bv32)
    ensures Crc(x, LittleEndian(x)) == 0
  {
    var y, z, w := DropOctet(x), DropOctet(DropOctet(x)), DropOctet(DropOctet(DropOctet(x)));
    FedItself(x);
    FedItself(y);
    FedItself(z);
    FedItself(w);
    AllDropped(x);
    hide Update, DropOctet, LowOctet;
    FourSteps(x, LittleEndian(x), y, z, w, DropOctet(w));
  }

  lemma AllDropped(x: bv32)
    ensures DropOctet(DropOctet(DropOctet(DropOctet(x)))) == 0
  {
  }

  lemma FourSteps(x: bv32, b: Bytes, x1: bv32, x2: bv32, x3: bv32, x4: bv32)
    requires |b| == 4
    requires Update(x, b[0] as bv8) == x1 && Update(x1, b[1] as bv8) == x2
    requires Update(x2, b[2] as bv8) == x3 && Update(x3, b[3] as bv8) == x4
    ensures Crc(x, b) == x4
  {
    CrcStep(x, b);
    CrcStep(x1, b[1..]);
    CrcStep(x2, b[1..][1..]);
    CrcStep(x3, b[1..][1..][1..]);
    hide Update;
    assert b[1..][1..][1..][1..] == [];
  }

  lemma CrcStep(x: bv32, b: Bytes)
    requires b != []
    ensures Crc(x, b) == Crc(Update(x, b[0] as bv8), b[1..])
  {
    hide Update;
  }

  /** Over any data with its own CRC behind it the register ends at zero. */
  lemma ResidueIsZero(data: Bytes)
    ensures Crc(0xFFFF_FFFF, data + LittleEndian(Crc(0xFFFF_FFFF, data))) == 0
  {
    CrcConcat(0xFFFF_FFFF, data, LittleEndian(Crc(0xFFFF_FFFF, data)));
    FedOwnBytes(Crc(0xFFFF_FFFF, data));
  }}
