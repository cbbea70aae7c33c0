/** Writing a packet into a buffer, predicting its size, and reading it with a cursor. */
module PacketIO {
  import opened DataQueues
  import opened Long64
  import opened Oer
  import opened Packets
  import opened Sequences
  import opened Wrappers

  class Writer {
    var buffer: Bytes

    constructor ()
      ensures buffer == []
    {
      buffer := [];
    }

    method WriteUInt8(n: nat)
      requires n < 256
      modifies this
      ensures buffer == old(buffer) + [n as Byte]
    {
      buffer := buffer + [n as Byte];
    }

    method WriteVarOctetString(data: Bytes)
      requires |data| <= MAX_LENGTH
      modifies this
      ensures buffer == old(buffer) + EncodeOctets(data)
    {
      buffer := buffer + EncodeLength(|data|) + data;
    }

    method WriteVarUInt(n: U64)
      modifies this
      ensures buffer == old(buffer) + EncodeVarUInt(n)
    {
      LongTakesEightBytes(n);
      WriteVarOctetString(ToBytes(n));
    }

    /** The loop over a frame's properties. */
    method WriteContents(fields: seq<Field>)
      requires ValidFields(fields)
      modifies this
      ensures buffer == old(buffer) + EncodeFields(fields)
    {
      for i := 0 to |fields|
        invariant buffer + EncodeFields(fields[i..]) == old(buffer) + EncodeFields(fields)
      {
        assert fields[i..][1..] == fields[i + 1..] && fields[i..][0] == fields[i];
        Associate(buffer, EncodeField(fields[i]), EncodeFields(fields[i + 1..]));
        match fields[i] {
          case UInt8(n) => WriteUInt8(n);
          case VarUInt(value) => WriteVarUInt(value);
          case Octets(data) => WriteVarOctetString(data);
        }
      }
    }

    /** The contents follow a length prefix that was predicted before they are written. */
    method WriteFrame(f: Frame)
      requires ValidItem(Known(f))
      modifies this
      ensures buffer == old(buffer) + EncodeItem(Known(f))
    {
      var predictor := new Predictor();
      predictor.AddContents(Fields(f));
      ghost var contents := EncodeFields(Fields(f));
      Associate(buffer + [TypeOf(f) as Byte], EncodeLength(|contents|), contents);
      Associate(buffer, [TypeOf(f) as Byte], EncodeOctets(contents));
      WriteUInt8(TypeOf(f));
      buffer := buffer + EncodeLength(predictor.size);
      WriteContents(Fields(f));
    }

    method WriteHeader(p: Packet)
      requires p.ilpPacketType < 256 && |p.frames| <= MAX_LENGTH
      modifies this
      ensures buffer == old(buffer) + Header(p.sequence, p.ilpPacketType, p.prepareAmount, |p.frames|)
    {
      WriteUInt8(VERSION);
      WriteUInt8(p.ilpPacketType);
      WriteVarUInt(p.sequence);
      WriteVarUInt(p.prepareAmount);
      WriteVarUInt(|p.frames|);
      HeaderIsWritten(old(buffer), p.sequence, p.ilpPacketType, p.prepareAmount, |p.frames|);
    }

    method WriteFrames(frames: seq<Frame>)
      requires ValidItems(KnownItems(frames))
      modifies this
      ensures buffer == old(buffer) + EncodeItems(KnownItems(frames))
    {
      ghost var items := KnownItems(frames);
      ghost var end := buffer + EncodeItems(items);
      for i := 0 to |frames|
        invariant buffer + EncodeItems(items[i..]) == end
      {
        KnownItemAt(frames, i);
        assert items[i..][1..] == items[i + 1..] && items[i..][0] == items[i];
        Associate(buffer, EncodeItem(items[i]), EncodeItems(items[i + 1..]));
        WriteFrame(frames[i]);
      }
    }

    method WritePacket(p: Packet)
      requires ValidPacket(p)
      modifies this
      ensures buffer == old(buffer) + Serialize(p)
    {
      WriteHeader(p);
      WriteFrames(p.frames);
      Associate(old(buffer), Header(p.sequence, p.ilpPacketType, p.prepareAmount, |p.frames|),
                EncodeItems(KnownItems(p.frames)));
    }
  }

  lemma HeaderIsWritten(b: Bytes, sequence: U64, kind: nat, amount: U64, count: U64)
    requires kind < 256
    ensures b + [VERSION as Byte] + [kind as Byte] + EncodeVarUInt(sequence) + EncodeVarUInt(amount) +
            EncodeVarUInt(count) == b + Header(sequence, kind, amount, count)
  {
    var start := [VERSION as Byte, kind as Byte];
    var s, a, c := EncodeVarUInt(sequence), EncodeVarUInt(amount), EncodeVarUInt(count);
    assert b + [VERSION as Byte] + [kind as Byte] == b + start;
    Associate(b + start + s, a, c);
    Associate(b + start, s, a + c);
    Associate(b, start, s + (a + c));
  }

  lemma {:induction false} KnownItemAt(frames: seq<Frame>, i: nat)
    requires i < |frames|
    ensures KnownItems(frames)[i] == Known(frames[i])
  {
    if i > 0 {
      KnownItemAt(frames[1..], i - 1);
      assert KnownItems(frames)[1..] == KnownItems(frames[1..]);
    }
  }

  // ----- predicted sizes

  /** The number of bytes of a big-endian number. */
  function ByteCount(n: nat): (k: nat)
    ensures k == |ToBytes(n)|
  {
    if n < 256 then 1 else 1 + ByteCount(n / 256)
  }

  class Predictor {
    var size: nat

    constructor ()
      ensures size == 0
    {
      size := 0;
    }

    method AddOctets(length: nat)
      requires length <= MAX_LENGTH
      modifies this
      ensures forall data: Bytes :: |data| == length ==> size == old(size) + |EncodeOctets(data)|
    {
      size := size + (if length < 128 then 1 else 1 + ByteCount(length)) + length;
    }

    /** Only the lengths of the values are looked at. */
    method AddContents(fields: seq<Field>)
      requires ValidFields(fields)
      modifies this
      ensures size == old(size) + |EncodeFields(fields)|
    {
      for i := 0 to |fields|
        invariant size + |EncodeFields(fields[i..])| == old(size) + |EncodeFields(fields)|
      {
        assert fields[i..][1..] == fields[i + 1..] && fields[i..][0] == fields[i];
        match fields[i] {
          case UInt8(_) => size := size + 1;
          case VarUInt(value) =>
            LongTakesEightBytes(value);
            ghost var bytes := ToBytes(value);
            AddOctets(ByteCount(value));
            assert size == old(size) + |EncodeFields(fields)| - |EncodeFields(fields[i..])| + |EncodeOctets(bytes)|;
          case Octets(data) => AddOctets(|data|);
        }
      }
    }

    method AddFrame(f: Frame)
      requires ValidItem(Known(f))
      modifies this
      ensures size == old(size) + |EncodeItem(Known(f))|
    {
      var contents := new Predictor();
      contents.AddContents(Fields(f));
      ghost var bytes := EncodeFields(Fields(f));
      size := size + 1;
      AddOctets(contents.size);
      assert size == old(size) + 1 + |EncodeOctets(bytes)|;
    }

    method AddVarUInt(n: U64)
      modifies this
      ensures size == old(size) + |EncodeVarUInt(n)|
    {
      LongTakesEightBytes(n);
      ghost var bytes := ToBytes(n);
      AddOctets(ByteCount(n));
      assert size == old(size) + |EncodeOctets(bytes)|;
    }

    method AddHeader(p: Packet)
      requires p.ilpPacketType < 256 && |p.frames| <= MAX_LENGTH
      modifies this
      ensures size == old(size) + |Header(p.sequence, p.ilpPacketType, p.prepareAmount, |p.frames|)|
    {
      size := size + 2;
      AddVarUInt(p.sequence);
      AddVarUInt(p.prepareAmount);
      AddVarUInt(|p.frames|);
    }

    method AddPacket(p: Packet)
      requires ValidPacket(p)
      modifies this
      ensures size == old(size) + |Serialize(p)|
    {
      AddHeader(p);
      ghost var start, items := size, KnownItems(p.frames);
      for i := 0 to |p.frames|
        invariant size + |EncodeItems(items[i..])| == start + |EncodeItems(items)|
      {
        KnownItemAt(p.frames, i);
        assert items[i..][1..] == items[i + 1..] && items[i..][0] == items[i];
        AddFrame(p.frames[i]);
      }
    }
  }

  /** The predicted length of the encrypted packet is the serialized length plus the overhead. */
  method ByteLength(p: Packet) returns (length: nat)
    requires ValidPacket(p)
    ensures length == |Serialize(p)| + 28
  {
    var predictor := new Predictor();
    predictor.AddPacket(p);
    length := predictor.size + ENCRYPTION_OVERHEAD;
  }

  // ----- reading

  class Reader {
    const buffer: Bytes
    var cursor: nat

    ghost predicate Valid()
      reads this
    {
      cursor <= |buffer|
    }

    ghost function Rest(): Bytes
      requires Valid()
      reads this
    {
      buffer[cursor..]
    }

    constructor (buffer: Bytes)
      ensures Valid() && Rest() == buffer && fresh(this)
    {
      this.buffer := buffer;
      cursor := 0;
    }

    method UInt8() returns (r: Result<nat>)
      requires Valid()
      modifies this
      ensures Valid()
      ensures match ReadUInt8(old(Rest()))
              case Ok(p) => r == Ok(p.value) && Rest() == p.rest
              case Err(e) => r == Err(e)
    {
      if cursor == |buffer| {
        return Err(Malformed);
      }
      cursor := cursor + 1;
      return Ok(buffer[cursor - 1] as nat);
    }

    method LengthPrefix() returns (r: Result<nat>)
      requires Valid()
      modifies this
      ensures Valid()
      ensures match ReadLength(old(Rest()))
              case Ok(p) => r == Ok(p.value) && Rest() == p.rest
              case Err(e) => r == Err(e)
    {
      if cursor == |buffer| {
        return Err(Malformed);
      }
      var first := buffer[cursor] as nat;
      if first < 128 {
        cursor := cursor + 1;
        return Ok(first);
      }
      var k := first - 128;
      if k == 0 || |buffer| - cursor < 1 + k {
        return Err(Malformed);
      }
      var octets := buffer[cursor + 1..cursor + 1 + k];
      assert Rest()[1..1 + k] == octets && Rest()[1 + k..] == buffer[cursor + 1 + k..];
      cursor := cursor + 1 + k;
      return Ok(FromBytes(octets));
    }

    method VarOctetString() returns (r: Result<Bytes>)
      requires Valid()
      modifies this
      ensures Valid()
      ensures match ReadOctets(old(Rest()))
              case Ok(p) => r == Ok(p.value) && Rest() == p.rest
              case Err(e) => r == Err(e)
    {
      var length := LengthPrefix();
      if length.Err? {
        return Err(length.error);
      }
      if |buffer| - cursor < length.value {
        return Err(Malformed);
      }
      assert Rest()[..length.value] == buffer[cursor..cursor + length.value];
      assert Rest()[length.value..] == buffer[cursor + length.value..];
      cursor := cursor + length.value;
      return Ok(buffer[cursor - length.value..cursor]);
    }

    method VarUIntLong() returns (r: Result<U64>)
      requires Valid()
      modifies this
      ensures Valid()
      ensures match ReadVarUInt(old(Rest()))
              case Ok(p) => r == Ok(p.value) && Rest() == p.rest
              case Err(e) => r == Err(e)
    {
      var octets := VarOctetString();
      if octets.Err? {
        return Err(octets.error);
      }
      r := AsLong(octets.value);
    }

    method VarUIntNumber() returns (r: Result<nat>)
      requires Valid()
      modifies this
      ensures Valid()
      ensures match ReadVarUIntNumber(old(Rest()))
              case Ok(p) => r == Ok(p.value) && Rest() == p.rest
              case Err(e) => r == Err(e)
    {
      var n := VarUIntLong();
      if n.Ok? && n.value > MAX_LENGTH {
        return Err(Malformed);
      }
      r := n;
    }

    method SaturatingVarUInt() returns (r: Result<U64>)
      requires Valid()
      modifies this
      ensures Valid()
      ensures match SaturatingRead(old(Rest()))
              case Ok(p) => r == Ok(p.value) && Rest() == p.rest
              case Err(e) => r == Err(e)
    {
      var octets := VarOctetString();
      if octets.Err? {
        return Err(octets.error);
      }
      r := if |octets.value| > 8 then Ok(MAX) else AsLong(octets.value);
    }

    method Field(kind: Kind) returns (r: Result<Field>)
      requires Valid()
      modifies this
      ensures Valid() && (r.Ok? ==> Fits(kind, r.value))
      ensures match ReadField(kind, old(Rest()))
              case Ok(p) => r == Ok(p.value) && Rest() == p.rest
              case Err(e) => r == Err(e)
    {
      match kind {
        case IsUInt8 =>
          var n := UInt8();
          r := if n.Ok? then Ok(Packets.UInt8(n.value)) else Err(n.error);
        case IsVarUInt =>
          var n := VarUIntLong();
          r := if n.Ok? then Ok(Packets.VarUInt(n.value)) else Err(n.error);
        case IsSaturating =>
          var n := SaturatingVarUInt();
          r := if n.Ok? then Ok(Packets.VarUInt(n.value)) else Err(n.error);
        case IsOctets =>
          var data := VarOctetString();
          r := if data.Ok? then Ok(Packets.Octets(data.value)) else Err(data.error);
      }
    }
  }

  method ReadContents(contents: Bytes, kinds: seq<Kind>) returns (r: Result<seq<Field>>)
    ensures r == ReadFields(kinds, contents)
  {
    var reader := new Reader(contents);
    var fields: seq<Field> := [];
    PrependNothing(ReadFields(kinds, contents));
    for i := 0 to |kinds|
      invariant fresh(reader) && reader.Valid()
      invariant ReadFields(kinds, contents) == Prepend(fields, ReadFields(kinds[i..], reader.Rest()))
    {
      assert kinds[i..][1..] == kinds[i + 1..] && kinds[i..][0] == kinds[i];
      var f := reader.Field(kinds[i]);
      if f.Err? {
        return Err(f.error);
      }
      PrependTwice(fields, [f.value], ReadFields(kinds[i + 1..], reader.Rest()));
      fields := fields + [f.value];
    }
    assert fields + [] == fields;
    return Ok(fields);
  }

  method ParseFrame(reader: Reader) returns (r: Result<Option<Frame>>)
    requires reader.Valid()
    modifies reader
    ensures reader.Valid()
    ensures match ReadFrame(old(reader.Rest()))
            case Ok(p) => r == Ok(p.value) && reader.Rest() == p.rest
            case Err(e) => r == Err(e)
  {
    var frameType := reader.UInt8();
    if frameType.Err? {
      return Err(frameType.error);
    }
    var contents := reader.VarOctetString();
    if contents.Err? {
      return Err(contents.error);
    }
    var kinds := Schema(frameType.value);
    if kinds == None {
      return Ok(None);
    }
    var fields := ReadContents(contents.value, kinds.value);
    if fields.Err? {
      return Err(fields.error);
    }
    return Ok(Some(Build(frameType.value, fields.value)));
  }

  method DeserializeUnencrypted(buffer: Bytes) returns (r: Result<Packet>)
    ensures r == Deserialize(buffer)
  {
    var reader := new Reader(buffer);
    var version := reader.UInt8();
    if version.Err? {
      return Err(version.error);
    }
    if version.value != VERSION {
      return Err(UnsupportedVersion);
    }
    var ilpPacketType := reader.UInt8();
    if ilpPacketType.Err? {
      return Err(ilpPacketType.error);
    }
    ghost var numbers := ReadNumbers(reader.Rest());
    var sequence := reader.VarUIntLong();
    if sequence.Err? {
      return Err(sequence.error);
    }
    var packetAmount := reader.VarUIntLong();
    if packetAmount.Err? {
      return Err(packetAmount.error);
    }
    var numFrames := reader.VarUIntNumber();
    if numFrames.Err? {
      return Err(numFrames.error);
    }
    assert numbers == Ok(Parsed(Numbers(sequence.value, packetAmount.value, numFrames.value), reader.Rest()));
    var frames := ParseFrames(reader, numFrames.value);
    if frames.Err? {
      return Err(frames.error);
    }
    return Ok(Packet(sequence.value, ilpPacketType.value, packetAmount.value, frames.value));
  }

  method ParseFrames(reader: Reader, numFrames: nat) returns (r: Result<seq<Frame>>)
    requires reader.Valid()
    modifies reader
    ensures r == ReadFrames(numFrames, old(reader.Rest()))
  {
    ghost var all, left := ReadFrames(numFrames, reader.Rest()), numFrames;
    var frames: seq<Frame> := [];
    NothingRead(all, numFrames, reader.Rest());
    for i := 0 to numFrames
      invariant reader.Valid() && left == numFrames - i && ReadSoFar(all, frames, left, reader.Rest())
    {
      r := ParseNext(reader, all, left, frames);
      if r.Err? {
        return;
      }
      frames, left := r.value, left - 1;
    }
    AllRead(all, frames, reader.Rest());
    return Ok(frames);
  }

  ghost predicate ReadSoFar(all: Result<seq<Frame>>, frames: seq<Frame>, n: nat, rest: Bytes) {
    all == Prepend(frames, ReadFrames(n, rest))
  }

  lemma NothingRead(all: Result<seq<Frame>>, n: nat, rest: Bytes)
    requires all == ReadFrames(n, rest)
    ensures ReadSoFar(all, [], n, rest)
  {
    PrependNothing(all);
  }

  lemma AllRead(all: Result<seq<Frame>>, frames: seq<Frame>, rest: Bytes)
    requires ReadSoFar(all, frames, 0, rest)
    ensures all == Ok(frames)
  {
    assert frames + [] == frames;
  }

  /** Appends the next frame to the frames read so far. */
  method ParseNext(reader: Reader, ghost all: Result<seq<Frame>>, ghost n: nat, frames: seq<Frame>)
    returns (r: Result<seq<Frame>>)
    requires reader.Valid() && n > 0 && ReadSoFar(all, frames, n, reader.Rest())
    modifies reader
    ensures reader.Valid()
    ensures if r.Ok? then ReadSoFar(all, r.value, n - 1, reader.Rest()) else r == all
  {
    var frame := ParseFrame(reader);
    if frame.Err? {
      return Err(frame.error);
    }
    FrameStep(n, old(reader.Rest()), frame.value, reader.Rest(), frames);
    return Ok(frames + if frame.value.Some? then [frame.value.value] else []);
  }

  lemma FrameStep(n: nat, before: Bytes, frame: Option<Frame>, after: Bytes, frames: seq<Frame>)
    requires n > 0 && ReadFrame(before) == Ok(Parsed(frame, after))
    ensures Prepend(frames, ReadFrames(n, before)) ==
            Prepend(frames + (if frame.Some? then [frame.value] else []), ReadFrames(n - 1, after))
  {
    PrependTwice(frames, if frame.Some? then [frame.value] else [], ReadFrames(n - 1, after));
  }
}
