/** The octet encoding rules used by STREAM packets: length prefixes (section 8.6 of ITU-T X.696),
    unsigned integers of variable size, and octet strings. */
module Oer {
  import opened DataQueues
  import opened Long64
  import opened Wrappers

  /** Lengths are JavaScript numbers. */
  const MAX_LENGTH: nat := 0x1F_FFFF_FFFF_FFFF

  datatype Parsed<+T> = Parsed(value: T, rest: Bytes)

  /** Puts what was read before in front of what is read after. */
  function Prepend<T>(xs: seq<T>, r: Result<seq<T>>): Result<seq<T>> {
    match r
    case Ok(ys) => Ok(xs + ys)
    case Err(e) => Err(e)
  }

  lemma PrependTwice<T>(xs: seq<T>, ys: seq<T>, r: Result<seq<T>>)
    ensures Prepend(xs, Prepend(ys, r)) == Prepend(xs + ys, r)
  {
    if r.Ok? { assert xs + (ys + r.value) == xs + ys + r.value; }
  }

  lemma PrependNothing<T>(r: Result<seq<T>>)
    ensures Prepend([], r) == r
  {
    if r.Ok? { assert [] + r.value == r.value; }
  }

  // ----- big-endian numbers

  function ToBytes(n: nat): (b: Bytes)
    ensures b != []
  {
    if n < 256 then [n as Byte] else ToBytes(n / 256) + [(n % 256) as Byte]
  }

  function FromBytes(b: Bytes): nat {
    if b == [] then 0 else 256 * FromBytes(b[..|b| - 1]) + b[|b| - 1] as int
  }

  lemma {:induction false} BytesRoundTrip(n: nat)
    ensures FromBytes(ToBytes(n)) == n
  {
    var b := ToBytes(n);
    if n < 256 {
      assert b[..0] == [];
    } else {
      BytesRoundTrip(n / 256);
      assert b[..|b| - 1] == ToBytes(n / 256);
    }
  }

  function Pow256(k: nat): nat { if k == 0 then 1 else 256 * Pow256(k - 1) }

  /** A number takes at most k bytes exactly when it is below 256^k. */
  lemma {:induction false} BytesLength(n: nat, k: nat)
    requires k >= 1
    ensures |ToBytes(n)| <= k <==> n < Pow256(k)
  {
    assert Pow256(k) == 256 * Pow256(k - 1);
    PowGrows(0, k - 1);
    if n >= 256 {
      if k > 1 { BytesLength(n / 256, k - 1); } else { assert Pow256(0) == 1; }
    }
  }

  lemma LongTakesEightBytes(n: U64)
    ensures |ToBytes(n)| <= 8
  {
    assert Pow256(4) == 0x1_0000_0000;
    assert Pow256(8) == TWO64;
    BytesLength(n, 8);
  }

  lemma LengthTakesEightBytes(n: nat)
    requires n <= MAX_LENGTH
    ensures |ToBytes(n)| <= 8
  {
    LongTakesEightBytes(n);
  }

  // ----- length prefixes and octet strings

  function EncodeLength(n: nat): Bytes
    requires n <= MAX_LENGTH
  {
    if n < 128 then [n as Byte]
    else
      LengthTakesEightBytes(n);
      [(128 + |ToBytes(n)|) as Byte] + ToBytes(n)
  }

  function ReadUInt8(b: Bytes): Result<Parsed<nat>> {
    if b == [] then Err(Malformed) else Ok(Parsed(b[0] as nat, b[1..]))
  }

  function ReadLength(b: Bytes): Result<Parsed<nat>> {
    if b == [] then Err(Malformed)
    else if b[0] < 128 then Ok(Parsed(b[0] as nat, b[1..]))
    else
      var k := b[0] as nat - 128;
      if k == 0 || |b| < 1 + k then Err(Malformed) else Ok(Parsed(FromBytes(b[1..1 + k]), b[1 + k..]))
  }

  lemma LengthRoundTrip(n: nat, rest: Bytes)
    requires n <= MAX_LENGTH
    ensures ReadLength(EncodeLength(n) + rest) == Ok(Parsed(n, rest))
  {
    var b := EncodeLength(n) + rest;
    if n < 128 {
      assert b[1..] == rest;
    } else {
      LengthTakesEightBytes(n);
      BytesRoundTrip(n);
      assert b[1..1 + |ToBytes(n)|] == ToBytes(n) && b[1 + |ToBytes(n)|..] == rest;
    }
  }

  function EncodeOctets(data: Bytes): Bytes
    requires |data| <= MAX_LENGTH
  {
    EncodeLength(|data|) + data
  }

  function ReadOctets(b: Bytes): Result<Parsed<Bytes>> {
    match ReadLength(b)
    case Err(e) => Err(e)
    case Ok(p) => if |p.rest| < p.value then Err(Malformed) else Ok(Parsed(p.rest[..p.value], p.rest[p.value..]))
  }

  lemma OctetsRoundTrip(data: Bytes, rest: Bytes)
    requires |data| <= MAX_LENGTH
    ensures ReadOctets(EncodeOctets(data) + rest) == Ok(Parsed(data, rest))
  {
    LengthRoundTrip(|data|, data + rest);
    assert EncodeOctets(data) + rest == EncodeLength(|data|) + (data + rest);
    assert (data + rest)[..|data|] == data && (data + rest)[|data|..] == rest;
  }

  // ----- integers of variable size

  function EncodeVarUInt(n: U64): Bytes {
    LongTakesEightBytes(n);
    EncodeOctets(ToBytes(n))
  }

  function AsLong(octets: Bytes): Result<U64> {
    if octets == [] || |octets| > 8 then Err(Malformed)
    else
      FromBytesFits(octets);
      Ok(FromBytes(octets))
  }

  lemma FromBytesFits(b: Bytes)
    requires |b| <= 8
    ensures FromBytes(b) < TWO64
  {
    FromBytesBelow(b);
    assert Pow256(4) == 0x1_0000_0000;
    assert Pow256(8) == TWO64;
    PowGrows(|b|, 8);
  }

  lemma {:induction false} FromBytesBelow(b: Bytes)
    ensures FromBytes(b) < Pow256(|b|)
  {
    if b != [] { FromBytesBelow(b[..|b| - 1]); }
  }

  lemma {:induction false} PowGrows(j: nat, k: nat)
    requires j <= k
    ensures 0 < Pow256(j) <= Pow256(k)
  {
    if k > 0 {
      if j < k { PowGrows(j, k - 1); } else { PowGrows(j - 1, k - 1); }
    }
  }

  function ReadVarUInt(b: Bytes): Result<Parsed<U64>> {
    match ReadOctets(b)
    case Err(e) => Err(e)
    case Ok(p) =>
      match AsLong(p.value)
      case Err(e) => Err(e)
      case Ok(n) => Ok(Parsed(n, p.rest))
  }

  /** As a JavaScript number. */
  function ReadVarUIntNumber(b: Bytes): Result<Parsed<nat>> {
    match ReadVarUInt(b)
    case Err(e) => Err(e)
    case Ok(p) => if p.value > MAX_LENGTH then Err(Malformed) else Ok(p)
  }

  /** Like `ReadVarUInt`, but too large a number reads as the maximum. */
  function SaturatingRead(b: Bytes): Result<Parsed<U64>> {
    match ReadOctets(b)
    case Err(e) => Err(e)
    case Ok(p) => if |p.value| > 8 then Ok(Parsed(MAX, p.rest)) else ReadVarUInt(b)
  }

  lemma VarUIntRoundTrip(n: U64, rest: Bytes)
    ensures ReadVarUInt(EncodeVarUInt(n) + rest) == Ok(Parsed(n, rest))
    ensures SaturatingRead(EncodeVarUInt(n) + rest) == Ok(Parsed(n, rest))
  {
    LongTakesEightBytes(n);
    OctetsRoundTrip(ToBytes(n), rest);
    BytesRoundTrip(n);
  }

  /** The saturating reader accepts what the plain one refuses as too long. */
  lemma LongNumbersSaturate(octets: Bytes, rest: Bytes)
    requires 8 < |octets| <= MAX_LENGTH
    ensures SaturatingRead(EncodeOctets(octets) + rest) == Ok(Parsed(MAX, rest))
    ensures ReadVarUInt(EncodeOctets(octets) + rest) == Err(Malformed)
  {
    OctetsRoundTrip(octets, rest);
  }

  // ----- input that ends too early

  /** A proper prefix of two parts ends in the first one or behind it in the second. */
  lemma PrefixSplits(a: Bytes, b: Bytes, q: Bytes)
    requires q < a + b
    ensures q < a || (|a| <= |q| && q == a + q[|a|..] && q[|a|..] < b)
  {}

  lemma LengthTruncated(n: nat, q: Bytes)
    requires n <= MAX_LENGTH && q < EncodeLength(n)
    ensures ReadLength(q).Err?
  {
    if n >= 128 { LengthTakesEightBytes(n); }
  }

  lemma OctetsTruncated(data: Bytes, q: Bytes)
    requires |data| <= MAX_LENGTH && q < EncodeOctets(data)
    ensures ReadOctets(q).Err?
  {
    PrefixSplits(EncodeLength(|data|), data, q);
    if q < EncodeLength(|data|) {
      LengthTruncated(|data|, q);
    } else {
      LengthRoundTrip(|data|, q[|EncodeLength(|data|)|..]);
    }
  }

  lemma VarUIntTruncated(n: U64, q: Bytes)
    requires q < EncodeVarUInt(n)
    ensures ReadVarUInt(q).Err?
  {
    LongTakesEightBytes(n);
    OctetsTruncated(ToBytes(n), q);
  }

  /** A length of unknown form, and a number without octets, are refused. */
  lemma OddFormsAreRefused(rest: Bytes)
    ensures ReadLength([0x80] + rest) == Err(Malformed)
    ensures ReadVarUInt([0] + rest) == Err(Malformed) && SaturatingRead([0] + rest) == Err(Malformed)
  {}

  /** Numbers of frames are JavaScript numbers, all others are 64-bit. */
  lemma CountsAreSmaller(n: U64, rest: Bytes)
    ensures ReadVarUIntNumber(EncodeVarUInt(n) + rest) == if n > MAX_LENGTH then Err(Malformed) else Ok(Parsed(n, rest))
  {
    VarUIntRoundTrip(n, rest);
  }

  /** The three forms of a length prefix. */
  lemma LengthForms()
    ensures EncodeLength(0) == [0] && EncodeLength(127) == [127]
    ensures EncodeLength(128) == [0x81, 0x80] && EncodeLength(256) == [0x82, 1, 0]
    ensures EncodeVarUInt(0) == [1, 0] && EncodeVarUInt(258) == [2, 1, 2]
  {
    assert ToBytes(128) == [128] && ToBytes(0) == [0];
    assert ToBytes(256) == ToBytes(1) + [0] == [1, 0] && ToBytes(258) == ToBytes(1) + [2] == [1, 2];
  }
}
