/** The packets the members exchange: a versioned header in serialized form, then the payload. */
module Packets {
  import opened Bits
  import opened Wrappers
  import opened WireFormat
  import opened SabSerializer
  import opened SabDeserializer

  const VERSION := 1

  const UINT8 := IntType(1, false)
  const UINT16 := IntType(2, false)
  const INT64 := IntType(8, true)

  datatype MessageType = Request | RequestNoReturn | Response | UnknownType(code: nat)
  datatype ReturnCode = NoError | NoCallbackRegistered | UnknownCode(code: nat)

  datatype CallHeader = CallHeader(requestId: int, messageType: MessageType, returnCode: ReturnCode)

  function TypeCode(t: MessageType): nat {
    match t case Request => 0 case RequestNoReturn => 1 case Response => 2 case UnknownType(n) => n
  }

  function TypeOf(n: nat): MessageType {
    if n == 0 then Request else if n == 1 then RequestNoReturn else if n == 2 then Response else UnknownType(n)
  }

  function ReturnCodeCode(c: ReturnCode): nat {
    match c case NoError => 0 case NoCallbackRegistered => 1 case UnknownCode(n) => n
  }

  function ReturnCodeOf(n: nat): ReturnCode {
    if n == 0 then NoError else if n == 1 then NoCallbackRegistered else UnknownCode(n)
  }

  /** A header a C++ program can hold: a 64-bit id and two enumerators. */
  ghost predicate ValidHeader(h: CallHeader) {
    FitsBits(h.requestId, true, 64) && !h.messageType.UnknownType? && !h.returnCode.UnknownCode?
  }

  // ----- Packets as functions -----

  function Word16(x: int): seq<Octet> { Octets(ToBits(x, 16)) }
  function Word8(x: int): seq<Octet> { Octets(ToBits(x, 8)) }
  function Word64(x: int): seq<Octet> { Octets(ToBits(x, 64)) }

  /** The header of a data member update, then the value. */
  function DataPacket(payload: seq<Octet>): (p: seq<Octet>)
    ensures |p| == |payload| + 2
  {
    Word16(VERSION) + payload
  }

  function DataPayload(packet: seq<Octet>): Option<seq<Octet>> {
    if |packet| >= 2 && FromBits(Flatten(packet[..2])) == VERSION then Some(packet[2..]) else None
  }

  /** The header of a method call, then the parameters. */
  function CallPacket(h: CallHeader, payload: seq<Octet>): (p: seq<Octet>)
    ensures |p| == |payload| + 12
  {
    Word16(VERSION) + Word64(h.requestId) + Word8(TypeCode(h.messageType)) + Word8(ReturnCodeCode(h.returnCode))
      + payload
  }

  function CallContent(packet: seq<Octet>): Option<(CallHeader, seq<Octet>)> {
    if |packet| >= 12 && FromBits(Flatten(packet[..2])) == VERSION then
      Some((CallHeader(SignedFromBits(Flatten(packet[2..10])),
                       TypeOf(FromBits(Flatten(packet[10..11]))),
                       ReturnCodeOf(FromBits(Flatten(packet[11..12])))),
            packet[12..]))
    else None
  }

  lemma {:induction false} Pow2Facts()
    ensures Pow2(8) == 256 && Pow2(16) == 65536
  {
    assert Pow2(4) == 16 by { assert Pow2(2) == 4 && Pow2(4) == 4 * Pow2(2); }
    assert Pow2(8) == 256 by { Pow2Split(4, 4); }
    Pow2Split(8, 8);
  }

  /** What was packed is unpacked: the payload, byte for byte. */
  lemma {:induction false} DataRoundTrip(payload: seq<Octet>)
    ensures DataPayload(DataPacket(payload)) == Some(payload)
  {
    Pow2Facts();
    FromToBits(VERSION, 16);
    var packet := DataPacket(payload);
    hide FromBits, ToBits, Flatten, Octets;
    assert packet[..2] == Word16(VERSION);
    assert packet[2..] == payload;
  }

  lemma CallFields(version: seq<Octet>, id: seq<Octet>, messageType: seq<Octet>, returnCode: seq<Octet>,
      payload: seq<Octet>)
    requires |version| == 2 && |id| == 8 && |messageType| == 1 && |returnCode| == 1
    ensures var packet := version + id + messageType + returnCode + payload;
      && packet[..2] == version && packet[2..10] == id && packet[10..11] == messageType
      && packet[11..12] == returnCode && packet[12..] == payload
  {
  }

  lemma {:induction false} CallRoundTrip(h: CallHeader, payload: seq<Octet>)
    requires ValidHeader(h)
    ensures CallContent(CallPacket(h, payload)) == Some((h, payload))
  {
    Pow2Facts();
    FromToBits(VERSION, 16);
    IntRoundTrip(h.requestId, true, 64);
    FromToBits(TypeCode(h.messageType), 8);
    FromToBits(ReturnCodeCode(h.returnCode), 8);
    hide FromBits, ToBits, SignedFromBits, Flatten, Octets, Pow2;
    CallFields(Word16(VERSION), Word64(h.requestId), Word8(TypeCode(h.messageType)),
      Word8(ReturnCodeCode(h.returnCode)), payload);
  }

  // ----- Packets as the members build and take them apart -----

  /** A header is written octet by octet: each of its integers fills whole octets. */
  lemma AlignedField(was: seq<bool>, ty: IntType, n: nat, x: int)
    requires |was| % 8 == 0 && n % 8 == 0
    ensures was + Enc(|was|, Int(ty, n), IntValue(x)) == was + Flatten(Octets(ToBits(x, n)))
  {
    assert Padding(|was|) == [];
    assert [] + ToBits(x, n) == ToBits(x, n);
  }

  method WriteField(ser: Serializer, x: int, ty: IntType, bitSize: nat)
    requires ser.Valid() && ser.Clean() && ser.mUnalignedBits == 0 && ty.Valid()
    requires bitSize == ty.Width() && FitsBits(x, ty.signed, ty.Width())
    modifies ser
    ensures ser.Valid() && ser.Clean() && ser.mUnalignedBits == 0
    ensures ser.mBuffer == old(ser.mBuffer) + Octets(ToBits(x, bitSize))
  {
    hide ToBits, Enc, FitsBits;
    ghost var was, before := ser.Written(), ser.mBuffer;
    AlignedField(was, ty, bitSize, x);
    var ok := ser.SerializeInt(x, ty, bitSize);
    FlattenConcat(before, Octets(ToBits(x, bitSize)));
    assert ser.mUnalignedData[..0] == [] && was == Flatten(before) && ser.Written() == Flatten(ser.mBuffer) by {
      assert Flatten(before) + [] == Flatten(before);
      assert Flatten(ser.mBuffer) + [] == Flatten(ser.mBuffer);
    }
    FlattenInjective(ser.mBuffer, before + Octets(ToBits(x, bitSize)));
  }

  method Finish(ser: Serializer, payload: seq<Octet>) returns (packet: seq<Octet>)
    requires ser.Valid() && ser.Clean() && ser.mUnalignedBits == 0
    modifies ser
    ensures packet == old(ser.mBuffer) + payload
  {
    ghost var before := ser.mBuffer;
    ser.AppendBuffer(payload);
    ghost var all := ser.Written();
    assert Padding(|all|) == [] && all + [] == all;
    packet := ser.ReleaseBuffer();
    FlattenConcat(before, payload);
    assert Flatten(before) + [] == Flatten(before);
    FlattenInjective(packet, before + payload);
  }

  lemma {:induction false} HeaderFieldsFit(h: CallHeader)
    requires ValidHeader(h)
    ensures FitsBits(VERSION, false, 16) && FitsBits(TypeCode(h.messageType), false, 8)
      && FitsBits(ReturnCodeCode(h.returnCode), false, 8)
  {
    Pow2Facts();
  }

  method PackData(payload: seq<Octet>) returns (packet: seq<Octet>)
    ensures packet == DataPacket(payload)
  {
    var ser := new Serializer();
    Pow2Facts();
    hide ToBits, Pow2;
    WriteField(ser, VERSION, UINT16, 16);
    packet := Finish(ser, payload);
  }

  method PackCall(h: CallHeader, payload: seq<Octet>) returns (packet: seq<Octet>)
    requires ValidHeader(h)
    ensures packet == CallPacket(h, payload)
  {
    hide ToBits, FitsBits, Octets;
    var ser := new Serializer();
    HeaderFieldsFit(h);
    WriteField(ser, VERSION, UINT16, 16);
    WriteField(ser, h.requestId, INT64, 64);
    WriteField(ser, TypeCode(h.messageType), UINT8, 8);
    WriteField(ser, ReturnCodeCode(h.returnCode), UINT8, 8);
    packet := Finish(ser, payload);
  }

  /** One header integer, read from whole octets. */
  method ReadField(des: Deserializer, ty: IntType, bitSize: nat) returns (r: Option<int>)
    requires des.Valid() && des.mUnalignedBits == 0 && ty.Valid() && bitSize == ty.Width()
    modifies des`mReadPos, des`mUnalignedData, des`mUnalignedBits
    ensures des.Valid()
    ensures r.Some? <==> old(des.mReadPos) + ty.bytes <= |des.mBuffer|
    ensures r.Some? ==> des.mUnalignedBits == 0 && des.mReadPos == old(des.mReadPos) + ty.bytes
    ensures r.Some? ==> r.value == ReadInt(Flatten(des.mBuffer[old(des.mReadPos)..des.mReadPos]), ty.signed)
  {
    hide ReadInt, Flatten, Holds;
    ghost var start := des.mReadPos;
    assert Padding(des.Position()) == [];
    r := des.DeserializeInt(ty, bitSize);
    if r.Some? {
      assert des.mReadPos == start + ty.bytes;
      FlattenSlice(des.mBuffer, start, des.mReadPos);
    }
  }

  /** The version check, then what is left of the buffer. */
  method UnpackData(packet: seq<Octet>) returns (r: Option<seq<Octet>>)
    ensures r == DataPayload(packet)
  {
    hide FromBits, Flatten, Holds;
    var des := new Deserializer(packet);
    var version := ReadField(des, UINT16, 16);
    assert |packet| >= 2 ==> packet[0..2] == packet[..2];
    if version.None? || version.value != VERSION {
      return None;
    }
    var rest := des.GetRemainingBuffer();
    return Some(rest);
  }

  method UnpackCall(packet: seq<Octet>) returns (r: Option<(CallHeader, seq<Octet>)>)
    ensures r == CallContent(packet)
  {
    hide FromBits, SignedFromBits, Flatten, Holds;
    var des := new Deserializer(packet);
    var version := ReadField(des, UINT16, 16);
    assert |packet| >= 2 ==> packet[0..2] == packet[..2];
    if version.None? || version.value != VERSION {
      return None;
    }
    var id := ReadField(des, INT64, 64);
    if id.None? {
      return None;
    }
    var messageType := ReadField(des, UINT8, 8);
    if messageType.None? {
      return None;
    }
    var returnCode := ReadField(des, UINT8, 8);
    if returnCode.None? {
      return None;
    }
    var rest := des.GetRemainingBuffer();
    return Some((CallHeader(id.value, TypeOf(messageType.value), ReturnCodeOf(returnCode.value)), rest));
  }
}
