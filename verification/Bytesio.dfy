/**
Byte-level input and output (library/bytesio): fixed-width integers as sequences of
bytes, and the reader and writer every codec of the server is built on.
 */
module Bytesio {

  type u8 = x: int | 0 <= x < 0x100
  type u16 = x: int | 0 <= x < 0x1_0000
  type u24 = x: int | 0 <= x < 0x100_0000
  type u32 = x: int | 0 <= x < 0x1_0000_0000

  type Bytes = seq<u8>

  datatype Option<+T> = None | Some(value: T)

  datatype Error = NotEnoughBytes | IndexOutOfRange | Overflow | CannotParse | EmptyChunks

  datatype Result<+T> = Ok(value: T) | Err(error: Error) {
    predicate IsFailure() {
      Err?
    }

    function PropagateFailure<U>(): Result<U>
      requires Err?
    {
      Err(error)
    }

    function Extract(): T
      requires Ok?
    {
      value
    }
  }

  // ---------- Fixed-width integers ----------

  function U16Be(x: u16): Bytes {
    [x / 0x100, x % 0x100]
  }

  function U24Be(x: u24): Bytes {
    [x / 0x1_0000, x / 0x100 % 0x100, x % 0x100]
  }

  function U32Be(x: u32): Bytes {
    [x / 0x100_0000, x / 0x1_0000 % 0x100, x / 0x100 % 0x100, x % 0x100]
  }

  function U32Le(x: u32): Bytes {
    [x % 0x100, x / 0x100 % 0x100, x / 0x1_0000 % 0x100, x / 0x100_0000]
  }

  function FromU16Be(b: Bytes): u16
    requires |b| == 2
  {
    b[0] as int * 0x100 + b[1]
  }

  function FromU24Be(b: Bytes): u24
    requires |b| == 3
  {
    b[0] as int * 0x1_0000 + b[1] as int * 0x100 + b[2]
  }

  function FromU32Be(b: Bytes): u32
    requires |b| == 4
  {
    b[0] as int * 0x100_0000 + b[1] as int * 0x1_0000 + b[2] as int * 0x100 + b[3]
  }

  function FromU32Le(b: Bytes): u32
    requires |b| == 4
  {
    b[3] as int * 0x100_0000 + b[2] as int * 0x1_0000 + b[1] as int * 0x100 + b[0]
  }

  lemma U16RoundTrip(x: u16)
    ensures FromU16Be(U16Be(x)) == x
  {
  }

  lemma U16Whole(b: Bytes)
    requires |b| == 2
    ensures U16Be(FromU16Be(b)) == b
  {
    var hi, lo := b[0] as int, b[1] as int;
    assert (hi * 0x100 + lo) / 0x100 == hi && (hi * 0x100 + lo) % 0x100 == lo;
  }

  lemma U32Whole(b: Bytes)
    requires |b| == 4
    ensures U32Be(FromU32Be(b)) == b
  {
    var x: int := FromU32Be(b);
    assert x / 0x100_0000 == b[0] && x % 0x100 == b[3];
    assert x / 0x1_0000 == b[0] as int * 0x100 + b[1] && x / 0x100 == b[0] as int * 0x1_0000 + b[1] as int * 0x100 + b[2];
  }

  lemma U24RoundTrip(x: u24)
    ensures FromU24Be(U24Be(x)) == x
  {
  }

  lemma U32RoundTrip(x: u32)
    ensures FromU32Be(U32Be(x)) == x
    ensures FromU32Le(U32Le(x)) == x
  {
    var hi, lo := x / 0x1_0000, x % 0x1_0000;
    assert x / 0x100_0000 == hi / 0x100;
    assert x / 0x100 % 0x100 == lo / 0x100;
    assert x % 0x100 == lo % 0x100;
  }

  // A field written in front of other bytes is exactly what a read of its width returns.
  lemma TakeDrop<T>(a: seq<T>, b: seq<T>)
    ensures (a + b)[..|a|] == a
    ensures (a + b)[|a|..] == b
  {
  }

  // What a read takes of bytes in front is the same when more follow.
  lemma Slices<T>(a: seq<T>, b: seq<T>, n: nat)
    requires n <= |a|
    ensures (a + b)[..n] == a[..n]
    ensures (a + b)[n..] == a[n..] + b
  {
  }

  lemma Divided<T>(s: seq<T>, i: nat, j: nat)
    requires i <= j <= |s|
    ensures s[i..j] + s[j..] == s[i..]
  {
  }

  function Repeat<T>(x: T, n: nat): (s: seq<T>)
    ensures |s| == n
  {
    seq(n, i => x)
  }

  /** A list read so far in front of what reading the rest of it gives. */
  function Prefixed<T>(xs: seq<T>, r: Result<(seq<T>, Bytes)>): Result<(seq<T>, Bytes)> {
    match r
    case Ok((ys, rest)) => Ok((xs + ys, rest))
    case Err(e) => Err(e)
  }

  lemma Concat3<T>(a: seq<T>, b: seq<T>, c: seq<T>)
    ensures a + b + c == a + (b + c)
  {
  }

  lemma Concat4<T>(a: seq<T>, b: seq<T>, c: seq<T>, d: seq<T>)
    ensures a + b + c + d == a + (b + c + d) == a + (b + (c + d))
  {
  }

  function Flatten(pieces: seq<Bytes>): Bytes {
    if pieces == [] then [] else pieces[0] + Flatten(pieces[1..])
  }

  lemma {:induction false} FlattenConcat(p: seq<Bytes>, q: seq<Bytes>)
    ensures Flatten(p + q) == Flatten(p) + Flatten(q)
    decreases |p|
  {
    if p == [] {
      assert p + q == q;
    } else {
      assert (p + q)[1..] == p[1..] + q;
      FlattenConcat(p[1..], q);
      Concat3(p[0], Flatten(p[1..]), Flatten(q));
    }
  }

  lemma FlattenOne(piece: Bytes)
    ensures Flatten([piece]) == piece
  {
    assert Flatten([piece][1..]) == [];
  }

  lemma FlattenLast(pieces: seq<Bytes>, last: Bytes)
    ensures Flatten(pieces + [last]) == Flatten(pieces) + last
  {
    FlattenConcat(pieces, [last]);
    FlattenOne(last);
  }

  /** Bitwise or of two bytes. */
  function Or(a: u8, b: u8): u8 {
    ((a as bv8) | (b as bv8)) as u8
  }

  // ---------- Reader ----------

  /** A read either takes all the bytes it asks for or fails and takes none. */
  class BytesReader {
    var buffer: Bytes

    constructor (input: Bytes)
      ensures buffer == input
    {
      buffer := input;
    }

    method ExtendFromSlice(extend: Bytes)
      modifies this
      ensures buffer == old(buffer) + extend
    {
      buffer := buffer + extend;
    }

    method ReadBytes(n: nat) returns (r: Result<Bytes>)
      modifies this
      ensures n <= |old(buffer)| ==> r == Ok(old(buffer)[..n]) && buffer == old(buffer)[n..]
      ensures |old(buffer)| < n ==> r == Err(NotEnoughBytes) && buffer == old(buffer)
    {
      if |buffer| < n {
        return Err(NotEnoughBytes);
      }
      r := Ok(buffer[..n]);
      buffer := buffer[n..];
    }

    method ReadU8() returns (r: Result<u8>)
      modifies this
      ensures 1 <= |old(buffer)| ==> r == Ok(old(buffer)[0]) && buffer == old(buffer)[1..]
      ensures |old(buffer)| < 1 ==> r == Err(NotEnoughBytes) && buffer == old(buffer)
    {
      var b :- ReadBytes(1);
      r := Ok(b[0]);
    }

    method ReadU16Be() returns (r: Result<u16>)
      modifies this
      ensures 2 <= |old(buffer)| ==> r == Ok(FromU16Be(old(buffer)[..2])) && buffer == old(buffer)[2..]
      ensures |old(buffer)| < 2 ==> r == Err(NotEnoughBytes) && buffer == old(buffer)
    {
      var b :- ReadBytes(2);
      r := Ok(FromU16Be(b));
    }

    method ReadU24Be() returns (r: Result<u24>)
      modifies this
      ensures 3 <= |old(buffer)| ==> r == Ok(FromU24Be(old(buffer)[..3])) && buffer == old(buffer)[3..]
      ensures |old(buffer)| < 3 ==> r == Err(NotEnoughBytes) && buffer == old(buffer)
    {
      var b :- ReadBytes(3);
      r := Ok(FromU24Be(b));
    }

    method ReadU32Be() returns (r: Result<u32>)
      modifies this
      ensures 4 <= |old(buffer)| ==> r == Ok(FromU32Be(old(buffer)[..4])) && buffer == old(buffer)[4..]
      ensures |old(buffer)| < 4 ==> r == Err(NotEnoughBytes) && buffer == old(buffer)
    {
      var b :- ReadBytes(4);
      r := Ok(FromU32Be(b));
    }

    method ReadU32Le() returns (r: Result<u32>)
      modifies this
      ensures 4 <= |old(buffer)| ==> r == Ok(FromU32Le(old(buffer)[..4])) && buffer == old(buffer)[4..]
      ensures |old(buffer)| < 4 ==> r == Err(NotEnoughBytes) && buffer == old(buffer)
    {
      var b :- ReadBytes(4);
      r := Ok(FromU32Le(b));
    }

    /** Look at a byte without taking it. */
    method Get(index: nat) returns (r: Result<u8>)
      ensures r == if index < |buffer| then Ok(buffer[index]) else Err(IndexOutOfRange)
    {
      if index >= |buffer| {
        return Err(IndexOutOfRange);
      }
      r := Ok(buffer[index]);
    }

    method ExtractRemainingBytes() returns (r: Bytes)
      modifies this
      ensures r == old(buffer) && buffer == []
    {
      r := buffer;
      buffer := [];
    }
  }

  // ---------- Writer ----------

  class BytesWriter {
    var bytes: Bytes

    constructor ()
      ensures bytes == []
    {
      bytes := [];
    }

    method WriteU8(b: u8)
      modifies this
      ensures bytes == old(bytes) + [b]
    {
      bytes := bytes + [b];
    }

    method WriteU16Be(x: u16)
      modifies this
      ensures bytes == old(bytes) + U16Be(x)
    {
      bytes := bytes + U16Be(x);
    }

    method WriteU24Be(x: u24)
      modifies this
      ensures bytes == old(bytes) + U24Be(x)
    {
      bytes := bytes + U24Be(x);
    }

    method WriteU32Be(x: u32)
      modifies this
      ensures bytes == old(bytes) + U32Be(x)
    {
      bytes := bytes + U32Be(x);
    }

    method WriteU32Le(x: u32)
      modifies this
      ensures bytes == old(bytes) + U32Le(x)
    {
      bytes := bytes + U32Le(x);
    }

    method Write(buf: Bytes)
      modifies this
      ensures bytes == old(bytes) + buf
    {
      bytes := bytes + buf;
    }

    method Prepend(buf: Bytes)
      modifies this
      ensures bytes == buf + old(bytes)
    {
      var tmp := bytes;
      bytes := [];
      bytes := bytes + buf;
      bytes := bytes + tmp;
    }

    /** Patch one byte already written; the source panics past the end. */
    method WriteU8At(position: nat, b: u8)
      requires position < |bytes|
      modifies this
      ensures bytes == old(bytes)[position := b]
    {
      bytes := bytes[position := b];
    }

    /** Or into a byte already written; the source panics past the end. */
    method OrU8At(position: nat, b: u8)
      requires position < |bytes|
      modifies this
      ensures bytes == old(bytes)[position := Or(old(bytes)[position], b)]
    {
      bytes := bytes[position := Or(bytes[position], b)];
    }

    /** Add to a byte already written; the source panics past the end or past 255. */
    method AddU8At(position: nat, b: u8)
      requires position < |bytes| && bytes[position] + b < 0x100
      modifies this
      ensures bytes == old(bytes)[position := old(bytes)[position] + b]
    {
      bytes := bytes[position := bytes[position] + b];
    }

    /** Move everything out of another writer. */
    method Append(writer: BytesWriter)
      requires writer != this
      modifies this, writer
      ensures bytes == old(bytes) + old(writer.bytes) && writer.bytes == []
    {
      bytes := bytes + writer.bytes;
      writer.bytes := [];
    }

    method ExtractCurrentBytes() returns (r: Bytes)
      modifies this
      ensures r == old(bytes) && bytes == []
    {
      r := bytes;
      bytes := [];
    }
  }
}
