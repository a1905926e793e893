/** The TypeLib wrappers: whole values of a schema pushed into the serializer and pulled out of
    the deserializer, element by element, and what a value survives on the way. */
module TypeLib {
  import opened Bits
  import opened Wrappers
  import opened WireFormat
  import opened WireRoundTrip
  import opened WireReEncoding
  import opened SabSerializer
  import opened SabDeserializer

  // ----- Writing -----

  method Write(ser: Serializer, s: Schema, v: Value)
    requires s.WellFormed() && HasShape(s, v) && ser.Valid()
    modifies ser
    ensures ser.Valid()
    ensures old(ser.Clean()) && Fits(s, v) ==>
      ser.Clean() && ser.Written() == old(ser.Written()) + Enc(|old(ser.Written())|, s, v)
    decreases s, 1
  {
    match s
    case Int(ty, bits) => var ok := ser.SerializeInt(v.x, ty, bits);
    case Bool => ser.SerializeBool(v.b);
    case Float(_) => ser.SerializeFloat(v.octets);
    case Blob => ser.SerializeBlob(v.octets);
    case Struct(_) => WriteStruct(ser, s, v);
    case List(_) => WriteArray(ser, s, v);
    case Array(_, _) => WriteArray(ser, s, v);
    case Optional(_) => WriteOptional(ser, s, v);
  }

  /** BeginStruct, the members in order, EndStruct. */
  method WriteStruct(ser: Serializer, s: Schema, v: Value)
    requires s.WellFormed() && HasShape(s, v) && ser.Valid() && s.Struct?
    modifies ser
    ensures ser.Valid()
    ensures old(ser.Clean()) && Fits(s, v) ==>
      ser.Clean() && ser.Written() == old(ser.Written()) + Enc(|old(ser.Written())|, s, v)
    decreases s, 0
  {
    hide EncFields, Padding;
    ghost var was := ser.Written();
    ser.Align();
    WriteFields(ser, s.fields, v.fields);
    ghost var rest := EncFields(AlignUp(|was|), s.fields, v.fields);
    assert was + Padding(|was|) + rest == was + (Padding(|was|) + rest);
  }

  method WriteFields(ser: Serializer, fs: seq<Schema>, vs: seq<Value>)
    requires |fs| == |vs| && ser.Valid() && forall i :: 0 <= i < |fs| ==> fs[i].WellFormed() && HasShape(fs[i], vs[i])
    modifies ser
    ensures ser.Valid()
    ensures old(ser.Clean()) && (forall i :: 0 <= i < |fs| ==> Fits(fs[i], vs[i])) ==>
      ser.Clean() && ser.Written() == old(ser.Written()) + EncFields(|old(ser.Written())|, fs, vs)
    decreases fs, 0
  {
    hide Enc, HasShape, Fits, EncFields;
    ghost var was, k := ser.Written(), |ser.Written()|;
    ghost var good := old(ser.Clean()) && forall i :: 0 <= i < |fs| ==> Fits(fs[i], vs[i]);
    EmptyFields(k, fs, vs);
    for i := 0 to |fs|
      invariant ser.Valid()
      invariant good ==> ser.Clean() && ser.Written() == was + EncFields(k, fs[..i], vs[..i])
    {
      FieldAppended(k, fs, vs, i);
      ghost var front := EncFields(k, fs[..i], vs[..i]);
      Write(ser, fs[i], vs[i]);
      assert was + front + Enc(k + |front|, fs[i], vs[i]) == was + (front + Enc(k + |front|, fs[i], vs[i]));
    }
    assert fs[..|fs|] == fs && vs[..|fs|] == vs;
  }

  /** Lists and fixed arrays: the element count, then every element. */
  method WriteArray(ser: Serializer, s: Schema, v: Value)
    requires s.WellFormed() && HasShape(s, v) && ser.Valid() && (s.List? || s.Array?)
    modifies ser
    ensures ser.Valid()
    ensures old(ser.Clean()) && Fits(s, v) ==>
      ser.Clean() && ser.Written() == old(ser.Written()) + Enc(|old(ser.Written())|, s, v)
    decreases s, 0
  {
    hide EncList, Padding, ToBits, Pow2;
    ghost var was := ser.Written();
    ser.SerializeCount(|v.elems|);
    WriteElements(ser, s.elem, v.elems);
    ghost var z, c, rest := Padding(|was|), ToBits(|v.elems|, 32), EncList(AlignUp(|was|) + 32, s.elem, v.elems);
    assert was + z + c + rest == was + (z + c + rest);
  }

  method WriteElements(ser: Serializer, e: Schema, vs: seq<Value>)
    requires e.WellFormed() && ser.Valid() && forall i :: 0 <= i < |vs| ==> HasShape(e, vs[i])
    modifies ser
    ensures ser.Valid()
    ensures old(ser.Clean()) && (forall i :: 0 <= i < |vs| ==> Fits(e, vs[i])) ==>
      ser.Clean() && ser.Written() == old(ser.Written()) + EncList(|old(ser.Written())|, e, vs)
    decreases e, 2
  {
    hide Enc, HasShape, Fits, EncList;
    ghost var was, k := ser.Written(), |ser.Written()|;
    ghost var good := old(ser.Clean()) && forall i :: 0 <= i < |vs| ==> Fits(e, vs[i]);
    EmptyList(k, e, vs);
    for i := 0 to |vs|
      invariant ser.Valid()
      invariant good ==> ser.Clean() && ser.Written() == was + EncList(k, e, vs[..i])
    {
      ElementAppended(k, e, vs, i);
      ghost var front := EncList(k, e, vs[..i]);
      Write(ser, e, vs[i]);
      assert was + front + Enc(k + |front|, e, vs[i]) == was + (front + Enc(k + |front|, e, vs[i]));
    }
    assert vs[..|vs|] == vs;
  }

  method WriteOptional(ser: Serializer, s: Schema, v: Value)
    requires s.WellFormed() && HasShape(s, v) && ser.Valid() && s.Optional?
    modifies ser
    ensures ser.Valid()
    ensures old(ser.Clean()) && Fits(s, v) ==>
      ser.Clean() && ser.Written() == old(ser.Written()) + Enc(|old(ser.Written())|, s, v)
    decreases s, 0
  {
    ghost var was := ser.Written();
    OptionalAppended(was, s, v);
    hide ToBits, Padding, Enc;
    ser.SerializeBool(v.content.Some?);
    if v.content.Some? {
      Write(ser, s.elem, v.content.value);
    }
  }

  /** The flag and then the content make the encoding of an optional value. */
  lemma OptionalAppended(was: seq<bool>, s: Schema, v: Value)
    requires s.Optional? && HasShape(s, v)
    ensures |Padding(|was|) + ToBits(if v.content.Some? then 1 else 0, 8)| == AlignUp(|was|) + 8 - |was|
    ensures var head := Padding(|was|) + ToBits(if v.content.Some? then 1 else 0, 8);
      was + Enc(|was|, s, v) == was + head
        + if v.content.Some? then Enc(AlignUp(|was|) + 8, s.elem, v.content.value) else []
  {
    hide ToBits;
    if v.content.Some? {
      var head, rest := Padding(|was|) + ToBits(1, 8), Enc(AlignUp(|was|) + 8, s.elem, v.content.value);
      assert was + head + rest == was + (head + rest);
    } else {
      var head := Padding(|was|) + ToBits(0, 8);
      assert was + head + [] == was + head;
    }
  }

  lemma {:induction false} EmptyFields(k: nat, fs: seq<Schema>, vs: seq<Value>)
    ensures EncFields(k, fs[..0], vs[..0]) == []
  {
  }

  lemma {:induction false} EmptyList(k: nat, e: Schema, vs: seq<Value>)
    ensures EncList(k, e, vs[..0]) == []
  {
  }

  lemma {:induction false} FieldAppended(k: nat, fs: seq<Schema>, vs: seq<Value>, i: nat)
    requires |fs| == |vs| && i < |fs|
    ensures var front := EncFields(k, fs[..i], vs[..i]);
      EncFields(k, fs[..i + 1], vs[..i + 1]) == front + Enc(k + |front|, fs[i], vs[i])
  {
    hide Enc;
    assert fs[..i + 1][..i] == fs[..i] && vs[..i + 1][..i] == vs[..i];
  }

  lemma {:induction false} ElementAppended(k: nat, e: Schema, vs: seq<Value>, i: nat)
    requires i < |vs|
    ensures var front := EncList(k, e, vs[..i]);
      EncList(k, e, vs[..i + 1]) == front + Enc(k + |front|, e, vs[i])
  {
    hide Enc;
    assert vs[..i + 1][..i] == vs[..i];
  }

  // ----- Reading -----

  method Read(des: Deserializer, s: Schema) returns (r: Option<Value>)
    requires s.WellFormed() && des.Valid()
    modifies des`mReadPos, des`mUnalignedData, des`mUnalignedBits
    ensures des.Valid()
    ensures match Dec(des.Bits(), old(des.Position()), s)
      case None => r.None?
      case Some((v, q)) => r == Some(v) && des.Position() == q
    decreases s, 1
  {
    hide Padding, Flatten, Holds, Take, TakeOctets;
    match s
    case Int(ty, bits) =>
      var x := des.DeserializeInt(ty, bits);
      return if x.Some? then Some(IntValue(x.value)) else None;
    case Bool =>
      var b := des.DeserializeBool();
      return if b.Some? then Some(BoolValue(b.value)) else None;
    case Float(n) =>
      var octets := des.DeserializeFloat(n);
      return if octets.Some? then Some(BlobValue(octets.value)) else None;
    case Blob =>
      var octets := des.DeserializeBlob();
      return if octets.Some? then Some(BlobValue(octets.value)) else None;
    case Struct(_) => r := ReadStruct(des, s);
    case List(_) => r := ReadArray(des, s);
    case Array(_, _) => r := ReadArray(des, s);
    case Optional(_) => r := ReadOptional(des, s);
  }

  method ReadStruct(des: Deserializer, s: Schema) returns (r: Option<Value>)
    requires s.WellFormed() && des.Valid() && s.Struct?
    modifies des`mReadPos, des`mUnalignedData, des`mUnalignedBits
    ensures des.Valid()
    ensures match Dec(des.Bits(), old(des.Position()), s)
      case None => r.None?
      case Some((v, q)) => r == Some(v) && des.Position() == q
    decreases s, 0
  {
    hide Padding, Flatten, Holds;
    des.Align();
    var fs, vs := s.fields, [];
    ghost var bits, a := des.Bits(), des.Position();
    for i := 0 to |fs|
      invariant des.Valid() && des.Bits() == bits
      invariant DecFields(bits, a, fs[..i]) == Some((vs, des.Position()))
    {
      ghost var p := des.Position();
      var v := Read(des, fs[i]);
      FieldRead(bits, a, fs, i, vs, p);
      if v.None? {
        FieldsStop(bits, a, fs, i + 1);
        return None;
      }
      vs := vs + [v.value];
    }
    assert fs[..|fs|] == fs;
    return Some(StructValue(vs));
  }

  method ReadArray(des: Deserializer, s: Schema) returns (r: Option<Value>)
    requires s.WellFormed() && des.Valid() && (s.List? || s.Array?)
    modifies des`mReadPos, des`mUnalignedData, des`mUnalignedBits
    ensures des.Valid()
    ensures match Dec(des.Bits(), old(des.Position()), s)
      case None => r.None?
      case Some((v, q)) => r == Some(v) && des.Position() == q
    decreases s, 0
  {
    hide Flatten, Holds, FromBits, Pow2, Dec;
    ghost var bits, p := des.Bits(), des.Position();
    CountedDecoded(bits, p, s);
    hide Padding, DecList, Take;
    var count := des.DeserializeCount();
    if count.None? {
      return None;
    }
    var vs := ReadElements(des, s.elem, if s.List? then count.value else s.size);
    return if vs.Some? then Some(ListValue(vs.value)) else None;
  }

  /** n elements; what was already read is dropped when one of them is cut off. */
  method ReadElements(des: Deserializer, e: Schema, n: nat) returns (r: Option<seq<Value>>)
    requires e.WellFormed() && des.Valid()
    modifies des`mReadPos, des`mUnalignedData, des`mUnalignedBits
    ensures des.Valid()
    ensures match DecList(des.Bits(), old(des.Position()), e, n)
      case None => r.None?
      case Some((vs, q)) => r == Some(vs) && des.Position() == q
    decreases e, 2
  {
    hide Flatten, Holds, Dec;
    ghost var bits, a := des.Bits(), des.Position();
    var vs := [];
    for i := 0 to n
      invariant des.Valid() && des.Bits() == bits
      invariant DecList(bits, a, e, i) == Some((vs, des.Position()))
    {
      ghost var p := des.Position();
      var v := Read(des, e);
      ElementRead(bits, a, e, i, vs, p);
      if v.None? {
        ListStops(bits, a, e, i + 1, n);
        return None;
      }
      vs := vs + [v.value];
    }
    return Some(vs);
  }

  /** A list has as many elements as it says, a fixed array as many as its type says. */
  lemma {:induction false} CountedDecoded(bits: Stream, p: nat, s: Schema)
    requires p <= |bits| && (s.List? || s.Array?)
    ensures AlignUp(p) + 32 > |bits| ==> Dec(bits, p, s).None?
    ensures AlignUp(p) + 32 <= |bits| ==>
      var a := AlignUp(p);
      var read := DecList(bits, a + 32, s.elem, if s.List? then FromBits(bits[a..a + 32]) else s.size);
      Dec(bits, p, s) == if read.None? then None else Some((ListValue(read.value.0), read.value.1))
  {
    hide Padding, FromBits, DecList;
  }

  method ReadOptional(des: Deserializer, s: Schema) returns (r: Option<Value>)
    requires s.WellFormed() && des.Valid() && s.Optional?
    modifies des`mReadPos, des`mUnalignedData, des`mUnalignedBits
    ensures des.Valid()
    ensures match Dec(des.Bits(), old(des.Position()), s)
      case None => r.None?
      case Some((v, q)) => r == Some(v) && des.Position() == q
    decreases s, 0
  {
    hide Padding, Flatten, Holds, FromBits;
    var flag := des.DeserializeBool();
    if flag.None? {
      return None;
    }
    if !flag.value {
      return Some(OptionalValue(None));
    }
    var v := Read(des, s.elem);
    return if v.Some? then Some(OptionalValue(v)) else None;
  }

  lemma {:induction false} FieldRead(bits: Stream, a: nat, fs: seq<Schema>, i: nat, vs: seq<Value>, p: nat)
    requires a <= |bits| && i < |fs| && DecFields(bits, a, fs[..i]) == Some((vs, p))
    ensures DecFields(bits, a, fs[..i + 1]) == match Dec(bits, p, fs[i])
      case None => None
      case Some((v, q)) => Some((vs + [v], q))
  {
    hide Dec;
    assert fs[..i + 1][..i] == fs[..i];
  }

  lemma {:induction false} ElementRead(bits: Stream, a: nat, e: Schema, i: nat, vs: seq<Value>, p: nat)
    requires a <= |bits| && DecList(bits, a, e, i) == Some((vs, p))
    ensures DecList(bits, a, e, i + 1) == match Dec(bits, p, e)
      case None => None
      case Some((v, q)) => Some((vs + [v], q))
  {
    hide Dec;
  }

  // ----- Whole buffers -----

  /** BeginSerialization, the value, EndSerialization. */
  method Serialize(s: Schema, v: Value) returns (buffer: seq<Octet>)
    requires s.WellFormed() && HasShape(s, v)
    ensures Fits(s, v) ==> Flatten(buffer) == Enc(0, s, v) + Padding(|Enc(0, s, v)|)
  {
    hide Enc, HasShape, Fits, Flatten, Padding;
    var ser := new Serializer();
    assert [] + Enc(0, s, v) == Enc(0, s, v);
    Write(ser, s, v);
    buffer := ser.ReleaseBuffer();
  }

  /** BeginDeserialization, the value, EndDeserialization; consumed counts the octets read. */
  method Deserialize(buffer: seq<Octet>, s: Schema) returns (r: Option<Value>, consumed: nat)
    requires s.WellFormed()
    ensures consumed <= |buffer|
    ensures match Dec(Flatten(buffer), 0, s)
      case None => r.None?
      case Some((v, q)) => r == Some(v) && 8 * consumed == AlignUp(q)
  {
    hide Flatten, Dec, Holds, Padding;
    var des := new Deserializer(buffer);
    r := Read(des, s);
    consumed := des.mReadPos;
    LastOctet(consumed, des.mUnalignedBits);
  }

  lemma LastOctet(octets: nat, pending: nat)
    requires pending < 8 && pending <= 8 * octets
    ensures AlignUp(8 * octets - pending) == 8 * octets
  {
  }

  /** A value comes back from its own serialization exactly when its integers fit their widths
      and its lengths fit 32 bits; nothing is then left unread. */
  method RoundTripped(s: Schema, v: Value) returns (r: Option<Value>, unread: nat)
    requires s.WellFormed() && HasShape(s, v)
    ensures r == Some(v) <==> Fits(s, v)
    ensures Fits(s, v) ==> unread == 0
  {
    hide Enc, HasShape, Fits, Flatten, Dec;
    var buffer := Serialize(s, v);
    var consumed: nat;
    r, consumed := Deserialize(buffer, s);
    unread := |buffer| - consumed;
    ghost var bits := Flatten(buffer);
    if Fits(s, v) {
      assert At(bits, 0, Enc(0, s, v));
      RoundTrip(bits, 0, s, v);
    } else if r.Some? {
      ReEncode(bits, 0, s);
    }
  }

  /** The bits the reader consumes, up to the end of the last octet, are what the writer would
      have produced. */
  ghost predicate CanonicalBuffer(bits: Stream, s: Schema)
    requires Dec(bits, 0, s).Some?
  {
    Canonical(bits, 0, s) && ZeroPadded(bits, Dec(bits, 0, s).value.1)
  }

  /** Reading arbitrary octets and writing the value again reproduces exactly the octets consumed
      if and only if these were canonical. */
  method ReSerialized(buffer: seq<Octet>, s: Schema) returns (again: Option<seq<Octet>>, consumed: nat)
    requires s.WellFormed()
    ensures consumed <= |buffer|
    ensures again.Some? <==> Dec(Flatten(buffer), 0, s).Some?
    ensures again.Some? ==> (again.value == buffer[..consumed] <==> CanonicalBuffer(Flatten(buffer), s))
    ensures again.Some? ==> |again.value| == consumed
  {
    hide Enc, HasShape, Fits, Flatten, Dec, Padding, Recodes, ZeroPadded, Canonical;
    var v: Option<Value>;
    v, consumed := Deserialize(buffer, s);
    if v.None? {
      return None, consumed;
    }
    ghost var bits := Flatten(buffer);
    ghost var q := Dec(bits, 0, s).value.1;
    ReEncode(bits, 0, s);
    var out := Serialize(s, v.value);
    SameOctets(buffer, consumed, q, Enc(0, s, v.value), out, Canonical(bits, 0, s));
    return Some(out), consumed;
  }

  lemma SameOctets(buffer: seq<Octet>, consumed: nat, q: nat, e: seq<bool>, out: seq<Octet>, canonical: bool)
    requires consumed <= |buffer| && 8 * consumed == AlignUp(q)
    requires Recodes(Flatten(buffer), 0, q, e, canonical)
    requires Flatten(out) == e + Padding(|e|)
    ensures |out| == consumed
    ensures out == buffer[..consumed] <==> canonical && ZeroPadded(Flatten(buffer), q)
  {
    var bits := Flatten(buffer);
    RecodesLength(bits, 0, q, e, canonical);
    RecodesPadding(bits, q);
    RecodesConcat(bits, 0, q, AlignUp(q), e, Padding(q), canonical, ZeroPadded(bits, q));
    FlattenSlice(buffer, 0, consumed);
    assert buffer[0..consumed] == buffer[..consumed];
    if Flatten(out) == Flatten(buffer[..consumed]) { FlattenInjective(out, buffer[..consumed]); }
  }

  // ----- Where reading is more liberal than writing -----

  /** A reader of a fixed array ignores the element count on the wire: 7 announced elements read
      as an empty array. That is not canonical. */
  lemma {:induction false} ForeignCount()
    ensures Dec(ToBits(7, 32), 0, Array(0, Bool)) == Some((ListValue([]), 32))
      && !Canonical(ToBits(7, 32), 0, Array(0, Bool))
  {
    var c: Stream := ToBits(7, 32);
    assert c[0] && !ToBits(0, 32)[0];
    hide ToBits, FromBits;
    CountedDecoded(c, 0, Array(0, Bool));
    assert AlignUp(0) == 0 && DecList(c, 32, Bool, 0) == Some(([], 32));
    assert c[0..32] == c;
    assert c[0..32] != ToBits(0, 32);
  }

  /** A bool octet of 2 reads as true. That is not canonical. */
  lemma {:induction false} ForeignFlag()
    ensures Dec(ToBits(2, 8), 0, Bool) == Some((BoolValue(true), 8)) && !Canonical(ToBits(2, 8), 0, Bool)
  {
    OctetTwo();
    var b := ToBits(2, 8);
    hide ToBits, FromBits, Pow2;
    assert Padding(0) == [] && b[0..8] == b;
    hide Padding;
    assert b[1..8][0] && !Zeros(7)[0];
  }

  lemma {:induction false} OctetTwo()
    ensures FromBits(ToBits(2, 8)) == 2 && ToBits(2, 8)[1]
  {
    assert 2 < Pow2(8) by { Pow2Monotone(2, 8); assert Pow2(2) == 2 * Pow2(1); }
    FromToBits(2, 8);
    assert ToBits(2, 8) == [false] + ToBits(1, 7);
  }

  /** An integer that does not fit the width it is written with: 4 in 2 bits. */
  lemma {:induction false} UnfitExample()
    ensures var s := Int(IntType(1, false), 2);
      s.WellFormed() && HasShape(s, IntValue(4)) && !Fits(s, IntValue(4))
  {
    assert Pow2(2) == 2 * Pow2(1) && Pow2(1) == 2 * Pow2(0);
    Pow2Monotone(3, 8);
    assert Pow2(3) == 2 * Pow2(2);
  }
}
