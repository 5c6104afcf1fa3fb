/**
The digest of the RTMP handshake (protocol/rtmp/src/handshake/digest.rs).  The keyed hash, HMAC with
SHA-256, is any function to 32 bytes.
 */
module Digest {
  import opened Bytesio

  const RTMP_HANDSHAKE_SIZE: nat := 1536
  const RTMP_DIGEST_LENGTH: nat := 32

  type Hash = b: Bytes | |b| == RTMP_DIGEST_LENGTH witness seq(32, i => 0)

  datatype SchemaVersion = Schema0 | Schema1

  datatype Parts = Parts(left: Bytes, digest: Bytes, right: Bytes)

  /** The four bytes that say where the digest is begin here, and behind them the field it is in. */
  function OffsetAt(version: SchemaVersion): nat {
    if version == Schema0 then 772 else 8
  }

  function FindDigestOffset(data: Bytes, version: SchemaVersion): Result<nat> {
    var k := OffsetAt(version);
    if |data| < k + 4 then Err(IndexOutOfRange)
    else Ok((data[k] as int + data[k + 1] as int + data[k + 2] as int + data[k + 3] as int) % 728 + k + 4)
  }

  /** The message around the digest. */
  function CookRawMessage(data: Bytes, version: SchemaVersion): Result<Parts> {
    match FindDigestOffset(data, version)
    case Err(error) => Err(error)
    case Ok(offset) =>
      if |data| < offset + RTMP_DIGEST_LENGTH then Err(NotEnoughBytes)
      else Ok(Parts(data[..offset], data[offset..offset + RTMP_DIGEST_LENGTH], data[offset + RTMP_DIGEST_LENGTH..]))
  }

  function Filled(hash: Bytes -> Hash, data: Bytes): Result<Bytes> {
    match CookRawMessage(data, Schema0)
    case Err(error) => Err(error)
    case Ok(parts) => Ok(parts.left + hash(parts.left + parts.right) + parts.right)
  }

  function Validated(hash: Bytes -> Hash, data: Bytes, version: SchemaVersion): Result<Bytes> {
    match CookRawMessage(data, version)
    case Err(error) => Err(error)
    case Ok(parts) => if parts.digest == hash(parts.left + parts.right) then Ok(parts.digest) else Err(CannotParse)
  }

  /** The first schema under which the digest is right. */
  function DigestOf(hash: Bytes -> Hash, data: Bytes): Result<(Bytes, SchemaVersion)> {
    match Validated(hash, data, Schema0)
    case Ok(digest) => Ok((digest, Schema0))
    case Err(_) =>
      match Validated(hash, data, Schema1)
      case Ok(digest) => Ok((digest, Schema1))
      case Err(error) => Err(error)
  }

  class DigestProcessor {
    var reader: BytesReader
    const hash: Bytes -> Hash

    constructor (data: Bytes, hash: Bytes -> Hash)
      ensures fresh(reader) && reader.buffer == data && this.hash == hash
    {
      reader := new BytesReader(data);
      this.hash := hash;
    }

    method LocateDigest(version: SchemaVersion) returns (r: Result<nat>)
      ensures r == FindDigestOffset(reader.buffer, version)
    {
      var k := OffsetAt(version);
      var b0 :- reader.Get(k);
      var b1 :- reader.Get(k + 1);
      var b2 :- reader.Get(k + 2);
      var b3 :- reader.Get(k + 3);
      var offset := b0 as int + b1 as int + b2 as int + b3 as int;
      r := Ok(offset % 728 + k + 4);
    }

    method Cook(version: SchemaVersion) returns (r: Result<Parts>)
      ensures r == CookRawMessage(reader.buffer, version)
    {
      var offset :- LocateDigest(version);
      var newReader := new BytesReader(reader.buffer);
      ghost var data := reader.buffer;
      var left :- newReader.ReadBytes(offset);
      var digest :- newReader.ReadBytes(RTMP_DIGEST_LENGTH);
      var right := newReader.ExtractRemainingBytes();
      assert data[offset..][..RTMP_DIGEST_LENGTH] == data[offset..offset + RTMP_DIGEST_LENGTH];
      assert data[offset..][RTMP_DIGEST_LENGTH..] == data[offset + RTMP_DIGEST_LENGTH..];
      r := Ok(Parts(left, digest, right));
    }

    method GenerateAndFillDigest() returns (r: Result<Bytes>)
      ensures r == Filled(hash, reader.buffer)
    {
      var parts :- Cook(Schema0);
      var computed := hash(parts.left + parts.right);
      r := Ok(parts.left + computed + parts.right);
    }

    method GenerateAndValidate(version: SchemaVersion) returns (r: Result<Bytes>)
      ensures r == Validated(hash, reader.buffer, version)
    {
      var parts :- Cook(version);
      if parts.digest == hash(parts.left + parts.right) {
        return Ok(parts.digest);
      }
      r := Err(CannotParse);
    }

    method ReadDigest() returns (r: Result<(Bytes, SchemaVersion)>)
      ensures r == DigestOf(hash, reader.buffer)
    {
      var first := GenerateAndValidate(Schema0);
      if first.Ok? {
        return Ok((first.value, Schema0));
      }
      var second :- GenerateAndValidate(Schema1);
      r := Ok((second, Schema1));
    }
  }

  // ---------- Placement ----------

  /** In a handshake message the digest lies behind the bytes that place it, and within the message. */
  lemma PlacementFits(data: Bytes, version: SchemaVersion)
    requires |data| == RTMP_HANDSHAKE_SIZE
    ensures var offset := FindDigestOffset(data, version);
            offset.Ok? && OffsetAt(version) + 4 <= offset.value && offset.value + RTMP_DIGEST_LENGTH <= RTMP_HANDSHAKE_SIZE
    ensures version == Schema1 ==> FindDigestOffset(data, version).value + RTMP_DIGEST_LENGTH <= OffsetAt(Schema0)
  {
  }

  function Sum(b: Bytes): nat {
    if b == [] then 0 else b[0] as int + Sum(b[1..])
  }

  /** Where another implementation looks for the digest: as far behind the four bytes at `at` as they add up to, below 728. */
  function Place(data: Bytes, at: nat): Option<nat> {
    if |data| < at + 4 then None
    else
      var k := at + 4 + Sum(data[at..at + 4]) % 728;
      if |data| < k + 32 then None else Some(k)
  }

  /** What is signed: the message without the 32 bytes of the digest. */
  function Around(data: Bytes, k: nat): Bytes
    requires k + 32 <= |data|
  {
    data[..k] + data[k + 32..]
  }

  lemma FourBytes(b: Bytes)
    requires |b| == 4
    ensures Sum(b) == b[0] as int + b[1] as int + b[2] as int + b[3] as int
  {
    assert b[1..][1..] == b[2..] && b[2..][1..] == b[3..] && b[3..][1..] == [];
    assert Sum(b[3..]) == b[3] as int;
    assert Sum(b[2..]) == b[2] as int + Sum(b[3..]);
    assert Sum(b[1..]) == b[1] as int + Sum(b[2..]);
  }

  lemma PartsThere(data: Bytes, version: SchemaVersion)
    ensures match Place(data, if version == Schema0 then 772 else 8)
            case None => CookRawMessage(data, version).Err?
            case Some(k) => CookRawMessage(data, version) == Ok(Parts(data[..k], data[k..k + 32], data[k + 32..]))
  {
    hide Sum, Place, FindDigestOffset;
    PlaceIs(data, version);
  }

  lemma PlaceIs(data: Bytes, version: SchemaVersion)
    ensures var at := if version == Schema0 then 772 else 8;
            match Place(data, at)
            case None => FindDigestOffset(data, version).Err? || FindDigestOffset(data, version).value + 32 > |data|
            case Some(k) => FindDigestOffset(data, version) == Ok(k) && k + 32 <= |data|
  {
    var at := OffsetAt(version);
    hide Sum;
    if |data| >= at + 4 {
      FourBytes(data[at..at + 4]);
    }
  }

  /** A message of any length is accepted exactly when the 32 bytes at the place are the hash of the bytes around them. */
  lemma AcceptedExactly(hash: Bytes -> Hash, data: Bytes, version: SchemaVersion)
    ensures match Place(data, if version == Schema0 then 772 else 8)
            case None => Validated(hash, data, version).Err?
            case Some(k) =>
              var digest := data[k..k + 32];
              if digest == hash(Around(data, k)) then Validated(hash, data, version) == Ok(digest)
              else Validated(hash, data, version).Err?
  {
    PartsThere(data, version);
    hide CookRawMessage, Place;
  }

  /** Filling changes the 32 bytes at the place that the four bytes at 772 name, and nothing else. */
  lemma FilledThere(hash: Bytes -> Hash, data: Bytes)
    ensures match Place(data, 772)
            case None => Filled(hash, data).Err?
            case Some(k) => Filled(hash, data) == Ok(data[..k] + hash(Around(data, k)) + data[k + 32..])
  {
    PartsThere(data, Schema0);
    hide CookRawMessage, Place;
  }

  /** Another digest in the same place leaves the place and the rest of the message as they are. */
  lemma SamePlace(data: Bytes, version: SchemaVersion, digest: Hash)
    requires CookRawMessage(data, version).Ok?
    ensures var parts := CookRawMessage(data, version).value;
            CookRawMessage(parts.left + digest + parts.right, version) == Ok(Parts(parts.left, digest, parts.right))
  {
    var parts := CookRawMessage(data, version).value;
    var k, n := OffsetAt(version), |parts.left|;
    var other := parts.left + digest + parts.right;
    assert n >= k + 4;
    assert other[k] == data[k] && other[k + 1] == data[k + 1] && other[k + 2] == data[k + 2] && other[k + 3] == data[k + 3];
    assert FindDigestOffset(other, version) == FindDigestOffset(data, version);
    hide FindDigestOffset;
    assert other[..n] == parts.left && other[n..n + RTMP_DIGEST_LENGTH] == digest && other[n + RTMP_DIGEST_LENGTH..] == parts.right;
  }

  /** A handshake message with its digest filled in is as long as before and is accepted with that digest. */
  lemma FilledIsAccepted(hash: Bytes -> Hash, data: Bytes)
    requires |data| == RTMP_HANDSHAKE_SIZE
    ensures var filled := Filled(hash, data);
            filled.Ok? && |filled.value| == RTMP_HANDSHAKE_SIZE
            && var parts := CookRawMessage(data, Schema0).value;
               DigestOf(hash, filled.value) == Ok((hash(parts.left + parts.right), Schema0))
  {
    PlacementFits(data, Schema0);
    var parts := CookRawMessage(data, Schema0).value;
    SamePlace(data, Schema0, hash(parts.left + parts.right));
    hide FindDigestOffset;
  }

  /** The filled message is the only one with the same place and the same rest that is accepted under the first schema. */
  lemma OnlyFilledIsAccepted(hash: Bytes -> Hash, data: Bytes)
    requires |data| == RTMP_HANDSHAKE_SIZE
    ensures Validated(hash, data, Schema0).Ok? <==> Filled(hash, data) == Ok(data)
  {
    PlacementFits(data, Schema0);
    var parts := CookRawMessage(data, Schema0).value;
    hide FindDigestOffset;
    assert data == parts.left + parts.digest + parts.right;
    var filled := parts.left + hash(parts.left + parts.right) + parts.right;
    if filled == data {
      assert parts.digest == data[|parts.left|..|parts.left| + RTMP_DIGEST_LENGTH];
      assert filled[|parts.left|..|parts.left| + RTMP_DIGEST_LENGTH] == hash(parts.left + parts.right);
    }
  }
}
