/** The STREAM packet format: sections 5.2 and 5.3 of Interledger RFC 0029. */
module Packets {
  import opened DataQueues
  import opened Long64
  import opened Oer
  import opened Sequences
  import opened Wrappers

  const VERSION: nat := 1
  const ENCRYPTION_OVERHEAD: nat := 28

  /** Texts are the bytes of their UTF-8 encoding. */
  datatype Frame =
    | ConnectionClose(errorCode: nat, errorMessage: Bytes)
    | ConnectionNewAddress(sourceAccount: Bytes)
    | ConnectionMaxData(maxOffset: U64)
    | ConnectionDataBlocked(maxOffset: U64)
    | ConnectionMaxStreamId(maxStreamId: U64)
    | ConnectionStreamIdBlocked(maxStreamId: U64)
    | ConnectionAssetDetails(sourceAssetCode: Bytes, sourceAssetScale: nat)
    | StreamClose(streamId: U64, errorCode: nat, errorMessage: Bytes)
    | StreamMoney(streamId: U64, shares: U64)
    | StreamMaxMoney(streamId: U64, receiveMax: U64, totalReceived: U64)
    | StreamMoneyBlocked(streamId: U64, sendMax: U64, totalSent: U64)
    | StreamData(streamId: U64, offset: U64, data: Bytes)
    | StreamMaxData(streamId: U64, maxOffset: U64)
    | StreamDataBlocked(streamId: U64, maxOffset: U64)
    | StreamReceipt(streamId: U64, receipt: Bytes)

  datatype Packet = Packet(sequence: U64, ilpPacketType: nat, prepareAmount: U64, frames: seq<Frame>)

  /** A frame's own properties in the order of their assignment; the writer picks the encoding
      by the kind of the value. */
  datatype Field = UInt8(n: nat) | VarUInt(value: U64) | Octets(data: Bytes)

  datatype Kind = IsUInt8 | IsVarUInt | IsSaturating | IsOctets

  function TypeOf(f: Frame): (t: nat)
    ensures t < 256
  {
    match f
    case ConnectionClose(_, _) => 0x01
    case ConnectionNewAddress(_) => 0x02
    case ConnectionMaxData(_) => 0x03
    case ConnectionDataBlocked(_) => 0x04
    case ConnectionMaxStreamId(_) => 0x05
    case ConnectionStreamIdBlocked(_) => 0x06
    case ConnectionAssetDetails(_, _) => 0x07
    case StreamClose(_, _, _) => 0x10
    case StreamMoney(_, _) => 0x11
    case StreamMaxMoney(_, _, _) => 0x12
    case StreamMoneyBlocked(_, _, _) => 0x13
    case StreamData(_, _, _) => 0x14
    case StreamMaxData(_, _) => 0x15
    case StreamDataBlocked(_, _) => 0x16
    case StreamReceipt(_, _) => 0x17
  }

  function Fields(f: Frame): seq<Field> {
    match f
    case ConnectionClose(code, message) => [UInt8(code), Octets(message)]
    case ConnectionNewAddress(account) => [Octets(account)]
    case ConnectionMaxData(offset) => [VarUInt(offset)]
    case ConnectionDataBlocked(offset) => [VarUInt(offset)]
    case ConnectionMaxStreamId(id) => [VarUInt(id)]
    case ConnectionStreamIdBlocked(id) => [VarUInt(id)]
    case ConnectionAssetDetails(code, scale) => [Octets(code), UInt8(scale)]
    case StreamClose(id, code, message) => [VarUInt(id), UInt8(code), Octets(message)]
    case StreamMoney(id, shares) => [VarUInt(id), VarUInt(shares)]
    case StreamMaxMoney(id, max, received) => [VarUInt(id), VarUInt(max), VarUInt(received)]
    case StreamMoneyBlocked(id, max, sent) => [VarUInt(id), VarUInt(max), VarUInt(sent)]
    case StreamData(id, offset, data) => [VarUInt(id), VarUInt(offset), Octets(data)]
    case StreamMaxData(id, offset) => [VarUInt(id), VarUInt(offset)]
    case StreamDataBlocked(id, offset) => [VarUInt(id), VarUInt(offset)]
    case StreamReceipt(id, receipt) => [VarUInt(id), Octets(receipt)]
  }

  /** What the reader of each frame type expects; None for an unknown type. */
  function Schema(t: nat): Option<seq<Kind>> {
    if t == 0x01 then Some([IsUInt8, IsOctets])
    else if t == 0x02 then Some([IsOctets])
    else if 0x03 <= t <= 0x06 then Some([IsVarUInt])
    else if t == 0x07 then Some([IsOctets, IsUInt8])
    else if t == 0x10 then Some([IsVarUInt, IsUInt8, IsOctets])
    else if t == 0x11 then Some([IsVarUInt, IsVarUInt])
    else if t == 0x12 || t == 0x13 then Some([IsVarUInt, IsSaturating, IsVarUInt])
    else if t == 0x14 then Some([IsVarUInt, IsVarUInt, IsOctets])
    else if t == 0x15 || t == 0x16 then Some([IsVarUInt, IsVarUInt])
    else if t == 0x17 then Some([IsVarUInt, IsOctets])
    else None
  }

  predicate Fits(kind: Kind, f: Field) {
    match kind
    case IsUInt8 => f.UInt8?
    case IsVarUInt => f.VarUInt?
    case IsSaturating => f.VarUInt?
    case IsOctets => f.Octets?
  }

  predicate FitAll(kinds: seq<Kind>, fields: seq<Field>) {
    |kinds| == |fields| && forall i :: 0 <= i < |kinds| ==> Fits(kinds[i], fields[i])
  }

  function Build(t: nat, v: seq<Field>): Frame
    requires Schema(t).Some? && FitAll(Schema(t).value, v)
  {
    if t == 0x01 then ConnectionClose(v[0].n, v[1].data)
    else if t == 0x02 then ConnectionNewAddress(v[0].data)
    else if t == 0x03 then ConnectionMaxData(v[0].value)
    else if t == 0x04 then ConnectionDataBlocked(v[0].value)
    else if t == 0x05 then ConnectionMaxStreamId(v[0].value)
    else if t == 0x06 then ConnectionStreamIdBlocked(v[0].value)
    else if t == 0x07 then ConnectionAssetDetails(v[0].data, v[1].n)
    else if t == 0x10 then StreamClose(v[0].value, v[1].n, v[2].data)
    else if t == 0x11 then StreamMoney(v[0].value, v[1].value)
    else if t == 0x12 then StreamMaxMoney(v[0].value, v[1].value, v[2].value)
    else if t == 0x13 then StreamMoneyBlocked(v[0].value, v[1].value, v[2].value)
    else if t == 0x14 then StreamData(v[0].value, v[1].value, v[2].data)
    else if t == 0x15 then StreamMaxData(v[0].value, v[1].value)
    else if t == 0x16 then StreamDataBlocked(v[0].value, v[1].value)
    else StreamReceipt(v[0].value, v[1].data)
  }

  /** The readers ask for the fields in the order in which they were written. */
  lemma BuildInvertsFields(f: Frame)
    ensures Schema(TypeOf(f)).Some? && FitAll(Schema(TypeOf(f)).value, Fields(f))
    ensures Build(TypeOf(f), Fields(f)) == f
  {}

  // ----- fields

  predicate ValidField(f: Field) {
    match f
    case UInt8(n) => n < 256
    case VarUInt(_) => true
    case Octets(data) => |data| <= MAX_LENGTH
  }

  predicate ValidFields(fields: seq<Field>) { forall i :: 0 <= i < |fields| ==> ValidField(fields[i]) }

  function EncodeField(f: Field): Bytes
    requires ValidField(f)
  {
    match f
    case UInt8(n) => [n as Byte]
    case VarUInt(value) => EncodeVarUInt(value)
    case Octets(data) => EncodeOctets(data)
  }

  function EncodeFields(fields: seq<Field>): Bytes
    requires ValidFields(fields)
  {
    if fields == [] then [] else EncodeField(fields[0]) + EncodeFields(fields[1..])
  }

  function ReadField(kind: Kind, b: Bytes): (r: Result<Parsed<Field>>)
    ensures r.Ok? ==> Fits(kind, r.value.value)
  {
    match kind
    case IsUInt8 => (match ReadUInt8(b) case Ok(p) => Ok(Parsed(UInt8(p.value), p.rest)) case Err(e) => Err(e))
    case IsVarUInt => (match ReadVarUInt(b) case Ok(p) => Ok(Parsed(VarUInt(p.value), p.rest)) case Err(e) => Err(e))
    case IsSaturating =>
      (match SaturatingRead(b) case Ok(p) => Ok(Parsed(VarUInt(p.value), p.rest)) case Err(e) => Err(e))
    case IsOctets => (match ReadOctets(b) case Ok(p) => Ok(Parsed(Octets(p.value), p.rest)) case Err(e) => Err(e))
  }

  /** Whatever follows the last field is ignored. */
  function ReadFields(kinds: seq<Kind>, b: Bytes): (r: Result<seq<Field>>)
    ensures r.Ok? ==> FitAll(kinds, r.value)
  {
    if kinds == [] then Ok([])
    else
      match ReadField(kinds[0], b)
      case Err(e) => Err(e)
      case Ok(p) => Prepend([p.value], ReadFields(kinds[1..], p.rest))
  }

  lemma FieldRoundTrip(kind: Kind, f: Field, rest: Bytes)
    requires ValidField(f) && Fits(kind, f)
    ensures ReadField(kind, EncodeField(f) + rest) == Ok(Parsed(f, rest))
  {
    match f {
      case UInt8(n) => assert (EncodeField(f) + rest)[1..] == rest;
      case VarUInt(value) => VarUIntRoundTrip(value, rest);
      case Octets(data) => OctetsRoundTrip(data, rest);
    }
  }

  lemma {:induction false} FieldsRoundTrip(kinds: seq<Kind>, fields: seq<Field>, rest: Bytes)
    requires ValidFields(fields) && FitAll(kinds, fields)
    ensures ReadFields(kinds, EncodeFields(fields) + rest) == Ok(fields)
  {
    if kinds != [] {
      var later := EncodeFields(fields[1..]) + rest;
      FieldRoundTrip(kinds[0], fields[0], later);
      FieldsRoundTrip(kinds[1..], fields[1..], rest);
      ReadFieldsStep(kinds, EncodeField(fields[0]) + later, fields[0], later, fields[1..]);
      Associate(EncodeField(fields[0]), EncodeFields(fields[1..]), rest);
      assert [fields[0]] + fields[1..] == fields;
    } else {
      assert fields == [];
    }
  }

  lemma ReadFieldsStep(kinds: seq<Kind>, b: Bytes, f: Field, later: Bytes, fields: seq<Field>)
    requires kinds != [] && ReadField(kinds[0], b) == Ok(Parsed(f, later))
    requires ReadFields(kinds[1..], later) == Ok(fields)
    ensures ReadFields(kinds, b) == Ok([f] + fields)
  {}

  // ----- frames

  /** What a packet on the wire is made of: frames of this version of the protocol, and frames
      of types it does not know. */
  datatype Item = Known(frame: Frame) | Unknown(frameType: nat, contents: Bytes)

  predicate ValidItem(i: Item) {
    match i
    case Known(f) => ValidFields(Fields(f)) && |EncodeFields(Fields(f))| <= MAX_LENGTH
    case Unknown(t, contents) => t < 256 && Schema(t) == None && |contents| <= MAX_LENGTH
  }

  predicate ValidItems(items: seq<Item>) { forall i :: 0 <= i < |items| ==> ValidItem(items[i]) }

  function EncodeItem(i: Item): Bytes
    requires ValidItem(i)
  {
    match i
    case Known(f) => [TypeOf(f) as Byte] + EncodeOctets(EncodeFields(Fields(f)))
    case Unknown(t, contents) => [t as Byte] + EncodeOctets(contents)
  }

  function EncodeItems(items: seq<Item>): Bytes
    requires ValidItems(items)
  {
    if items == [] then [] else EncodeItem(items[0]) + EncodeItems(items[1..])
  }

  function FramesOf(items: seq<Item>): seq<Frame> {
    if items == [] then []
    else (if items[0].Known? then [items[0].frame] else []) + FramesOf(items[1..])
  }

  /** One frame; None when its type is unknown. */
  function ReadFrame(b: Bytes): Result<Parsed<Option<Frame>>> {
    match ReadUInt8(b)
    case Err(e) => Err(e)
    case Ok(t) =>
      match ReadOctets(t.rest)
      case Err(e) => Err(e)
      case Ok(contents) =>
        match Schema(t.value)
        case None => Ok(Parsed(None, contents.rest))
        case Some(kinds) =>
          match ReadFields(kinds, contents.value)
          case Err(e) => Err(e)
          case Ok(fields) => Ok(Parsed(Some(Build(t.value, fields)), contents.rest))
  }

  function ReadFrames(n: nat, b: Bytes): Result<seq<Frame>> {
    if n == 0 then Ok([])
    else
      match ReadFrame(b)
      case Err(e) => Err(e)
      case Ok(p) => Prepend(if p.value.Some? then [p.value.value] else [], ReadFrames(n - 1, p.rest))
  }

  lemma ContentsRoundTrip(f: Frame)
    requires ValidFields(Fields(f))
    ensures Schema(TypeOf(f)).Some?
    ensures ReadFields(Schema(TypeOf(f)).value, EncodeFields(Fields(f))) == Ok(Fields(f))
  {
    BuildInvertsFields(f);
    FieldsRoundTrip(Schema(TypeOf(f)).value, Fields(f), []);
    assert EncodeFields(Fields(f)) + [] == EncodeFields(Fields(f));
  }

  lemma EnvelopeRoundTrip(t: nat, contents: Bytes, rest: Bytes)
    requires t < 256 && |contents| <= MAX_LENGTH
    ensures var b := [t as Byte] + EncodeOctets(contents) + rest;
            ReadUInt8(b) == Ok(Parsed(t, b[1..])) && ReadOctets(b[1..]) == Ok(Parsed(contents, rest))
  {
    var b := [t as Byte] + EncodeOctets(contents) + rest;
    assert b[1..] == EncodeOctets(contents) + rest;
    OctetsRoundTrip(contents, rest);
  }

  lemma ItemRoundTrip(i: Item, rest: Bytes)
    requires ValidItem(i)
    ensures ReadFrame(EncodeItem(i) + rest) == Ok(Parsed(if i.Known? then Some(i.frame) else None, rest))
  {
    match i {
      case Known(f) =>
        EnvelopeRoundTrip(TypeOf(f), EncodeFields(Fields(f)), rest);
        ContentsRoundTrip(f);
        BuildInvertsFields(f);
      case Unknown(t, contents) => EnvelopeRoundTrip(t, contents, rest);
    }
  }

  lemma {:induction false} ItemsRoundTrip(items: seq<Item>, rest: Bytes)
    requires ValidItems(items)
    ensures ReadFrames(|items|, EncodeItems(items) + rest) == Ok(FramesOf(items))
  {
    if items != [] {
      var later := EncodeItems(items[1..]) + rest;
      Associate(EncodeItem(items[0]), EncodeItems(items[1..]), rest);
      ItemRoundTrip(items[0], later);
      ItemsRoundTrip(items[1..], rest);
    }
  }

  // ----- packets

  function EncodeNumbers(sequence: U64, amount: U64, count: U64): Bytes {
    EncodeVarUInt(sequence) + (EncodeVarUInt(amount) + EncodeVarUInt(count))
  }

  function Header(sequence: U64, ilpPacketType: nat, amount: U64, count: U64): Bytes
    requires ilpPacketType < 256
  {
    [VERSION as Byte, ilpPacketType as Byte] + EncodeNumbers(sequence, amount, count)
  }

  function KnownItems(frames: seq<Frame>): (items: seq<Item>)
    ensures |items| == |frames|
    ensures FramesOf(items) == frames
  {
    if frames == [] then [] else
      var items := [Known(frames[0])] + KnownItems(frames[1..]);
      assert items[1..] == KnownItems(frames[1..]);
      items
  }

  predicate ValidPacket(p: Packet) {
    p.ilpPacketType < 256 && |p.frames| <= MAX_LENGTH && ValidItems(KnownItems(p.frames))
  }

  function Serialize(p: Packet): Bytes
    requires ValidPacket(p)
  {
    Header(p.sequence, p.ilpPacketType, p.prepareAmount, |p.frames|) + EncodeItems(KnownItems(p.frames))
  }

  datatype Numbers = Numbers(sequence: U64, amount: U64, count: nat)

  function ReadNumbers(b: Bytes): Result<Parsed<Numbers>> {
    match ReadVarUInt(b)
    case Err(e) => Err(e)
    case Ok(sequence) =>
      match ReadVarUInt(sequence.rest)
      case Err(e) => Err(e)
      case Ok(amount) =>
        match ReadVarUIntNumber(amount.rest)
        case Err(e) => Err(e)
        case Ok(count) => Ok(Parsed(Numbers(sequence.value, amount.value, count.value), count.rest))
  }

  function Deserialize(b: Bytes): Result<Packet> {
    match ReadUInt8(b)
    case Err(e) => Err(e)
    case Ok(version) =>
      if version.value != VERSION then Err(UnsupportedVersion) else
      match ReadUInt8(version.rest)
      case Err(e) => Err(e)
      case Ok(kind) =>
        match ReadNumbers(kind.rest)
        case Err(e) => Err(e)
        case Ok(n) =>
          match ReadFrames(n.value.count, n.rest)
          case Err(e) => Err(e)
          case Ok(frames) => Ok(Packet(n.value.sequence, kind.value, n.value.amount, frames))
  }

  lemma NumbersRoundTrip(sequence: U64, amount: U64, count: nat, rest: Bytes)
    requires count <= MAX_LENGTH
    ensures ReadNumbers(EncodeNumbers(sequence, amount, count) + rest)
            == Ok(Parsed(Numbers(sequence, amount, count), rest))
  {
    var s, a, c := EncodeVarUInt(sequence), EncodeVarUInt(amount), EncodeVarUInt(count);
    VarUIntRoundTrip(count, rest);
    VarUIntRoundTrip(amount, c + rest);
    VarUIntRoundTrip(sequence, a + (c + rest));
    Associate(s, a + c, rest);
    Associate(a, c, rest);
  }

  lemma HeaderRoundTrip(sequence: U64, kind: nat, amount: U64, count: nat, rest: Bytes)
    requires kind < 256 && count <= MAX_LENGTH
    ensures var b := Header(sequence, kind, amount, count) + rest;
            && ReadUInt8(b) == Ok(Parsed(VERSION, b[1..])) && ReadUInt8(b[1..]) == Ok(Parsed(kind, b[1..][1..]))
            && ReadNumbers(b[1..][1..]) == Ok(Parsed(Numbers(sequence, amount, count), rest))
  {
    NumbersRoundTrip(sequence, amount, count, rest);
    var start, numbers := [VERSION as Byte, kind as Byte], EncodeNumbers(sequence, amount, count);
    Associate(start, numbers, rest);
    assert (start + (numbers + rest))[1..][1..] == numbers + rest;
  }

  /** Unknown frames, wherever they stand and however many there are, and any padding after the
      counted frames make no difference to what is read. */
  lemma UnknownFramesAreSkipped(sequence: U64, kind: nat, amount: U64, items: seq<Item>, padding: Bytes)
    requires kind < 256 && |items| <= MAX_LENGTH && ValidItems(items)
    ensures Deserialize(Header(sequence, kind, amount, |items|) + EncodeItems(items) + padding)
            == Ok(Packet(sequence, kind, amount, FramesOf(items)))
  {
    HeaderRoundTrip(sequence, kind, amount, |items|, EncodeItems(items) + padding);
    ItemsRoundTrip(items, padding);
    Associate(Header(sequence, kind, amount, |items|), EncodeItems(items), padding);
  }

  /** Every packet is read back as it was written, with or without padding. */
  lemma PacketRoundTrip(p: Packet, padding: Bytes)
    requires ValidPacket(p)
    ensures Deserialize(Serialize(p) + padding) == Ok(p)
  {
    UnknownFramesAreSkipped(p.sequence, p.ilpPacketType, p.prepareAmount, KnownItems(p.frames), padding);
  }

  /** Hence two different packets never have the same bytes. */
  lemma SerializeIsInjective(p: Packet, q: Packet)
    requires ValidPacket(p) && ValidPacket(q) && Serialize(p) == Serialize(q)
    ensures p == q
  {
    PacketRoundTrip(p, []);
    PacketRoundTrip(q, []);
    assert Serialize(p) + [] == Serialize(p) && Serialize(q) + [] == Serialize(q);
  }

  // ----- input that is not a packet

  lemma NumbersTruncated(sequence: U64, amount: U64, count: nat, q: Bytes)
    requires count <= MAX_LENGTH && q < EncodeNumbers(sequence, amount, count)
    ensures ReadNumbers(q).Err?
  {
    var s, a, c := EncodeVarUInt(sequence), EncodeVarUInt(amount), EncodeVarUInt(count);
    PrefixSplits(s, a + c, q);
    if q < s {
      VarUIntTruncated(sequence, q);
    } else {
      var q1 := q[|s|..];
      VarUIntRoundTrip(sequence, q1);
      PrefixSplits(a, c, q1);
      if q1 < a {
        VarUIntTruncated(amount, q1);
      } else {
        VarUIntRoundTrip(amount, q1[|a|..]);
        VarUIntTruncated(count, q1[|a|..]);
      }
    }
  }

  lemma ItemTruncated(i: Item, q: Bytes)
    requires ValidItem(i) && q < EncodeItem(i)
    ensures ReadFrame(q).Err?
  {
    var contents := if i.Known? then EncodeFields(Fields(i.frame)) else i.contents;
    if q != [] { OctetsTruncated(contents, q[1..]); }
  }

  lemma {:induction false} ItemsTruncated(items: seq<Item>, q: Bytes)
    requires ValidItems(items) && q < EncodeItems(items)
    ensures ReadFrames(|items|, q).Err?
  {
    var first := EncodeItem(items[0]);
    PrefixSplits(first, EncodeItems(items[1..]), q);
    if q < first {
      ItemTruncated(items[0], q);
    } else {
      ItemRoundTrip(items[0], q[|first|..]);
      ItemsTruncated(items[1..], q[|first|..]);
    }
  }

  lemma BodyTruncated(sequence: U64, amount: U64, items: seq<Item>, q: Bytes)
    requires |items| <= MAX_LENGTH && ValidItems(items)
    requires q < EncodeNumbers(sequence, amount, |items|) + EncodeItems(items)
    ensures ReadNumbers(q).Err? ||
            (ReadNumbers(q).value.value.count == |items| && ReadFrames(|items|, ReadNumbers(q).value.rest).Err?)
  {
    var numbers := EncodeNumbers(sequence, amount, |items|);
    PrefixSplits(numbers, EncodeItems(items), q);
    if q < numbers {
      NumbersTruncated(sequence, amount, |items|, q);
    } else {
      NumbersRoundTrip(sequence, amount, |items|, q[|numbers|..]);
      ItemsTruncated(items, q[|numbers|..]);
    }
  }

  /** Whatever is cut off a packet, what remains is refused: a packet without its last byte is not a packet. */
  lemma TruncatedIsRefused(p: Packet, q: Bytes)
    requires ValidPacket(p) && q < Serialize(p)
    ensures Deserialize(q).Err?
  {
    var items := KnownItems(p.frames);
    var body := EncodeNumbers(p.sequence, p.prepareAmount, |items|) + EncodeItems(items);
    var start := [VERSION as Byte, p.ilpPacketType as Byte];
    Associate(start, EncodeNumbers(p.sequence, p.prepareAmount, |items|), EncodeItems(items));
    PrefixSplits(start, body, q);
    if |q| >= 2 {
      assert q[1..][1..] == q[2..];
      BodyTruncated(p.sequence, p.prepareAmount, items, q[2..]);
    }
  }

  /** Only packets of this version are read. */
  lemma OtherVersionsAreRefused(b: Bytes)
    requires b != [] && b[0] as nat != VERSION
    ensures Deserialize(b) == Err(UnsupportedVersion)
  {}

  // ----- numbers that are too large

  lemma LargeLimitFields(id: U64, octets: Bytes, n: U64)
    requires 8 < |octets| <= MAX_LENGTH
    ensures ReadFields([IsVarUInt, IsSaturating, IsVarUInt],
                       EncodeVarUInt(id) + (EncodeOctets(octets) + EncodeVarUInt(n))) ==
            Ok([VarUInt(id), VarUInt(MAX), VarUInt(n)])
  {
    var last := EncodeVarUInt(n);
    var middle := EncodeOctets(octets) + last;
    VarUIntRoundTrip(id, middle);
    LongNumbersSaturate(octets, last);
    VarUIntRoundTrip(n, []);
    assert last + [] == last;
    ReadThree(IsVarUInt, IsSaturating, IsVarUInt, EncodeVarUInt(id) + middle, middle, last, [],
              VarUInt(id), VarUInt(MAX), VarUInt(n));
  }

  lemma ReadThree(k: Kind, l: Kind, m: Kind, b: Bytes, b1: Bytes, b2: Bytes, b3: Bytes, x: Field, y: Field, z: Field)
    requires ReadField(k, b) == Ok(Parsed(x, b1)) && ReadField(l, b1) == Ok(Parsed(y, b2))
    requires ReadField(m, b2) == Ok(Parsed(z, b3))
    ensures ReadFields([k, l, m], b) == Ok([x, y, z])
  {
    assert [k, l, m][1..] == [l, m] && [l, m][1..] == [m] && [m][1..] == [];
    ReadFieldsStep([m], b2, z, b3, []);
    assert [z] + [] == [z];
    ReadFieldsStep([l, m], b1, y, b2, [z]);
    assert [y] + [z] == [y, z];
    ReadFieldsStep([k, l, m], b, x, b1, [y, z]);
    assert [x] + [y, z] == [x, y, z];
  }

  /** The limits a peer reports may exceed 64 bits and count as 2^64 - 1 then. */
  lemma LargeLimitsSaturate(t: nat, id: U64, octets: Bytes, n: U64)
    requires 8 < |octets| <= MAX_LENGTH && (t == 0x12 || t == 0x13)
    ensures var fields := ReadFields(Schema(t).value, EncodeVarUInt(id) + (EncodeOctets(octets) + EncodeVarUInt(n)));
            && fields.Ok?
            && Build(t, fields.value) ==
               if t == 0x12 then StreamMaxMoney(id, MAX, n) else StreamMoneyBlocked(id, MAX, n)
  {
    LargeLimitFields(id, octets, n);
  }

  /** All other numbers must fit: money whose shares do not is refused. */
  lemma LargeSharesAreRefused(id: U64, octets: Bytes)
    requires 8 < |octets| <= MAX_LENGTH
    ensures ReadFields(Schema(0x11).value, EncodeVarUInt(id) + EncodeOctets(octets)) == Err(Malformed)
  {
    VarUIntRoundTrip(id, EncodeOctets(octets));
    LongNumbersSaturate(octets, []);
    assert EncodeOctets(octets) + [] == EncodeOctets(octets);
    assert [IsVarUInt, IsVarUInt][1..] == [IsVarUInt];
  }

  // ----- the bytes of frames with small numbers: section 5.3 of Interledger RFC 0029

  /** A number below 256 takes its length and one octet. */
  ghost function Small(n: Byte): Bytes { [1, n] }

  lemma SmallNumber(n: Byte)
    ensures EncodeVarUInt(n as nat) == Small(n) && EncodeOctets([n]) == Small(n)
  {
    assert ToBytes(n as nat) == [n];
  }

  ghost predicate IsWritten(f: Frame, t: nat, contents: Bytes) {
    TypeOf(f) == t && ValidFields(Fields(f)) && EncodeFields(Fields(f)) == contents
  }

  lemma {:induction false} FieldsAppend(f: Field, fields: seq<Field>)
    requires ValidField(f) && ValidFields(fields)
    ensures ValidFields([f] + fields) && EncodeFields([f] + fields) == EncodeField(f) + EncodeFields(fields)
  {
    assert ([f] + fields)[1..] == fields;
  }

  lemma OneField(f: Field)
    requires ValidField(f)
    ensures EncodeFields([f]) == EncodeField(f)
  {
    assert [f][1..] == [] && EncodeField(f) + [] == EncodeField(f);
  }

  lemma TwoFields(f: Field, g: Field)
    requires ValidField(f) && ValidField(g)
    ensures EncodeFields([f, g]) == EncodeField(f) + EncodeField(g)
  {
    OneField(g);
    FieldsAppend(f, [g]);
    assert [f] + [g] == [f, g];
  }

  lemma ThreeFields(f: Field, g: Field, h: Field)
    requires ValidField(f) && ValidField(g) && ValidField(h)
    ensures EncodeFields([f, g, h]) == EncodeField(f) + (EncodeField(g) + EncodeField(h))
  {
    TwoFields(g, h);
    FieldsAppend(f, [g, h]);
    assert [f] + [g, h] == [f, g, h];
  }

  /** Type and length come before the contents. */
  lemma EnvelopeOf(f: Frame, t: nat, contents: Bytes)
    requires IsWritten(f, t, contents) && |contents| < 128
    ensures ValidItem(Known(f)) && EncodeItem(Known(f)) == [t as Byte, |contents| as Byte] + contents
  {}

  /** Frames of a connection: the type, and the fields in order. */
  lemma ConnectionFrames(x: Byte, y: Byte)
    ensures IsWritten(ConnectionClose(x as nat, [y]), 0x01, [x] + Small(y))
    ensures IsWritten(ConnectionNewAddress([x]), 0x02, Small(x))
    ensures IsWritten(ConnectionMaxData(x as nat), 0x03, Small(x))
    ensures IsWritten(ConnectionDataBlocked(x as nat), 0x04, Small(x))
    ensures IsWritten(ConnectionMaxStreamId(x as nat), 0x05, Small(x))
    ensures IsWritten(ConnectionStreamIdBlocked(x as nat), 0x06, Small(x))
    ensures IsWritten(ConnectionAssetDetails([x], y as nat), 0x07, Small(x) + [y])
  {
    SmallNumber(x);
    SmallNumber(y);
    TwoFields(UInt8(x as nat), Octets([y]));
    TwoFields(Octets([x]), UInt8(y as nat));
    OneField(Octets([x]));
    OneField(VarUInt(x as nat));
  }

  /** Frames of a stream. */
  lemma MoneyFrames(id: Byte, x: Byte, y: Byte)
    ensures IsWritten(StreamMoney(id as nat, x as nat), 0x11, Small(id) + Small(x))
    ensures IsWritten(StreamMaxMoney(id as nat, x as nat, y as nat), 0x12, Small(id) + (Small(x) + Small(y)))
    ensures IsWritten(StreamMoneyBlocked(id as nat, x as nat, y as nat), 0x13, Small(id) + (Small(x) + Small(y)))
    ensures IsWritten(StreamReceipt(id as nat, [x]), 0x17, Small(id) + Small(x))
  {
    SmallNumber(id);
    SmallNumber(x);
    SmallNumber(y);
    TwoFields(VarUInt(id as nat), VarUInt(x as nat));
    ThreeFields(VarUInt(id as nat), VarUInt(x as nat), VarUInt(y as nat));
    TwoFields(VarUInt(id as nat), Octets([x]));
  }

  lemma DataFrames(id: Byte, x: Byte, y: Byte)
    ensures IsWritten(StreamClose(id as nat, x as nat, [y]), 0x10, Small(id) + ([x] + Small(y)))
    ensures IsWritten(StreamData(id as nat, x as nat, [y]), 0x14, Small(id) + (Small(x) + Small(y)))
    ensures IsWritten(StreamMaxData(id as nat, x as nat), 0x15, Small(id) + Small(x))
    ensures IsWritten(StreamDataBlocked(id as nat, x as nat), 0x16, Small(id) + Small(x))
  {
    SmallNumber(id);
    SmallNumber(x);
    SmallNumber(y);
    ThreeFields(VarUInt(id as nat), UInt8(x as nat), Octets([y]));
    ThreeFields(VarUInt(id as nat), VarUInt(x as nat), Octets([y]));
    TwoFields(VarUInt(id as nat), VarUInt(x as nat));
  }

  /** And of a packet: version 1, the type of the surrounding packet, its numbers, the count of its frames. */
  lemma SmallPacket(kind: Byte, sequence: Byte, amount: Byte)
    ensures Serialize(Packet(sequence as nat, kind as nat, amount as nat, [])) ==
            [1, kind] + (Small(sequence) + (Small(amount) + Small(0)))
  {
    SmallNumber(sequence);
    SmallNumber(amount);
    SmallNumber(0);
  }
}
