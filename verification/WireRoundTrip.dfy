/** Reading gives back what was written: wherever the encoding of a fitting value stands in a buffer. */
module WireRoundTrip {
  import opened Bits
  import opened Wrappers
  import opened WireFormat

  /** e stands in bits at position p. */
  ghost predicate At(bits: Stream, p: nat, e: seq<bool>) {
    p + |e| <= |bits| && bits[p..p + |e|] == e
  }

  lemma AtSplit(bits: Stream, p: nat, a: seq<bool>, b: seq<bool>)
    requires At(bits, p, a + b)
    ensures At(bits, p, a) && At(bits, p + |a|, b)
    ensures Take(bits, p, |a|) == Some(a) && Take(bits, p + |a|, |b|) == Some(b)
  {
    assert bits[p..p + |a + b|][..|a|] == bits[p..p + |a|];
    assert bits[p..p + |a + b|][|a|..] == bits[p + |a|..p + |a| + |b|];
    assert (a + b)[..|a|] == a && (a + b)[|a|..] == b;
  }

  lemma AtOctets(bits: Stream, p: nat, octets: seq<Octet>)
    requires At(bits, p, Flatten(octets))
    ensures TakeOctets(bits, p, |octets|) == Some(octets)
  {
    FlattenInjective(TakeOctets(bits, p, |octets|).value, octets);
  }

  /** Wherever a fitting value was written, reading yields it and stops right behind it. */
  lemma {:induction false} RoundTrip(bits: Stream, p: nat, s: Schema, v: Value)
    requires s.WellFormed() && HasShape(s, v) && Fits(s, v)
    requires p <= |bits| && At(bits, p, Enc(p, s, v))
    ensures Dec(bits, p, s) == Some((v, p + |Enc(p, s, v)|))
    decreases s, 2, 0
  {
    hide Enc, Dec, HasShape, Fits, At;
    match s
    case Int(_, _) => IntFieldRoundTrip(bits, p, s, v);
    case Bool => BoolRoundTrip(bits, p, s, v);
    case Float(_) => FloatRoundTrip(bits, p, s, v);
    case Blob => BlobRoundTrip(bits, p, s, v);
    case Struct(_) => StructRoundTrip(bits, p, s, v);
    case List(_) => CountedRoundTrip(bits, p, s, v);
    case Array(_, _) => CountedRoundTrip(bits, p, s, v);
    case Optional(_) => OptionalRoundTrip(bits, p, s, v);
  }

  lemma {:induction false} IntFieldRoundTrip(bits: Stream, p: nat, s: Schema, v: Value)
    requires s.WellFormed() && HasShape(s, v) && Fits(s, v)
    requires p <= |bits| && At(bits, p, Enc(p, s, v)) && s.Int?
    ensures Dec(bits, p, s) == Some((v, p + |Enc(p, s, v)|))
  {
    hide At, Take, Padding, ReadInt, ToBits;
    IntRoundTrip(v.x, s.ty.signed, s.bits);
    AtSplit(bits, p, if s.bits % 8 == 0 then Padding(p) else [], ToBits(v.x, s.bits));
  }

  lemma {:induction false} BoolRoundTrip(bits: Stream, p: nat, s: Schema, v: Value)
    requires s.WellFormed() && HasShape(s, v) && Fits(s, v)
    requires p <= |bits| && At(bits, p, Enc(p, s, v)) && s.Bool?
    ensures Dec(bits, p, s) == Some((v, p + |Enc(p, s, v)|))
  {
    hide At, Take, Padding, ToBits, FromBits;
    var x := if v.b then 1 else 0;
    AtSplit(bits, p, Padding(p), ToBits(x, 8));
    SmallOctet(x);
  }

  lemma {:induction false} FloatRoundTrip(bits: Stream, p: nat, s: Schema, v: Value)
    requires s.WellFormed() && HasShape(s, v) && Fits(s, v)
    requires p <= |bits| && At(bits, p, Enc(p, s, v)) && s.Float?
    ensures Dec(bits, p, s) == Some((v, p + |Enc(p, s, v)|))
  {
    hide At, Take, TakeOctets, Padding, Flatten;
    AtSplit(bits, p, Padding(p), Flatten(v.octets));
    AtOctets(bits, AlignUp(p), v.octets);
  }

  lemma {:induction false} BlobRoundTrip(bits: Stream, p: nat, s: Schema, v: Value)
    requires s.WellFormed() && HasShape(s, v) && Fits(s, v)
    requires p <= |bits| && At(bits, p, Enc(p, s, v)) && s.Blob?
    ensures Dec(bits, p, s) == Some((v, p + |Enc(p, s, v)|))
  {
    hide At, Take, TakeOctets, Padding, ToBits, FromBits, Pow2, Flatten;
    FromToBits(|v.octets|, 32);
    var z, c, b := Padding(p), ToBits(|v.octets|, 32), Flatten(v.octets);
    AtSplit(bits, p, z + c, b);
    AtSplit(bits, p, z, c);
    AtOctets(bits, AlignUp(p) + 32, v.octets);
  }

  lemma {:induction false} StructRoundTrip(bits: Stream, p: nat, s: Schema, v: Value)
    requires s.WellFormed() && HasShape(s, v) && Fits(s, v)
    requires p <= |bits| && At(bits, p, Enc(p, s, v)) && s.Struct?
    ensures Dec(bits, p, s) == Some((v, p + |Enc(p, s, v)|))
    decreases s, 1, 0
  {
    hide At, Take, Padding, EncFields, DecFields;
    AtSplit(bits, p, Padding(p), EncFields(AlignUp(p), s.fields, v.fields));
    FieldsRoundTrip(bits, AlignUp(p), s.fields, v.fields);
  }

  lemma {:induction false} CountedRoundTrip(bits: Stream, p: nat, s: Schema, v: Value)
    requires s.WellFormed() && HasShape(s, v) && Fits(s, v)
    requires p <= |bits| && At(bits, p, Enc(p, s, v)) && (s.List? || s.Array?)
    ensures Dec(bits, p, s) == Some((v, p + |Enc(p, s, v)|))
    decreases s, 1, 0
  {
    hide At, Take, Padding, EncList, DecList, ToBits, FromBits, Pow2;
    var c, b := ToBits(|v.elems|, 32), EncList(AlignUp(p) + 32, s.elem, v.elems);
    AtSplit(bits, p, Padding(p) + c, b);
    AtSplit(bits, p, Padding(p), c);
    if s.List? { FromToBits(|v.elems|, 32); }
    ListRoundTrip(bits, AlignUp(p) + 32, s.elem, v.elems);
  }

  lemma {:induction false} OptionalRoundTrip(bits: Stream, p: nat, s: Schema, v: Value)
    requires s.WellFormed() && HasShape(s, v) && Fits(s, v)
    requires p <= |bits| && At(bits, p, Enc(p, s, v)) && s.Optional?
    ensures Dec(bits, p, s) == Some((v, p + |Enc(p, s, v)|))
    decreases s, 1, 0
  {
    hide *;
    ContentShape(s, v);
    if v.content.None? {
      EmptyRoundTrip(bits, p, s, v);
    } else {
      var w := v.content.value;
      ContentAt(bits, p, s, v);
      RoundTrip(bits, AlignUp(p) + 8, s.elem, w);
      ContentDecoded(bits, p, s);
    }
  }

  lemma {:induction false} ContentShape(s: Schema, v: Value)
    requires s.Optional? && s.WellFormed() && HasShape(s, v) && Fits(s, v)
    ensures v.OptionalValue? && s.elem.WellFormed()
    ensures v.content.Some? ==> HasShape(s.elem, v.content.value) && Fits(s.elem, v.content.value)
  {
  }

  lemma {:induction false} ContentAt(bits: Stream, p: nat, s: Schema, v: Value)
    requires HasShape(s, v) && p <= |bits| && At(bits, p, Enc(p, s, v)) && s.Optional? && v.content.Some?
    ensures AlignUp(p) + 8 <= |bits| && FromBits(bits[AlignUp(p)..AlignUp(p) + 8]) == 1
    ensures At(bits, AlignUp(p) + 8, Enc(AlignUp(p) + 8, s.elem, v.content.value))
    ensures p + |Enc(p, s, v)| == AlignUp(p) + 8 + |Enc(AlignUp(p) + 8, s.elem, v.content.value)|
  {
    hide At, Take, Padding, ToBits, FromBits;
    SmallOctet(1);
    AtSplit(bits, p, Padding(p) + ToBits(1, 8), Enc(AlignUp(p) + 8, s.elem, v.content.value));
    AtSplit(bits, p, Padding(p), ToBits(1, 8));
  }

  lemma {:induction false} EmptyRoundTrip(bits: Stream, p: nat, s: Schema, v: Value)
    requires HasShape(s, v) && p <= |bits| && At(bits, p, Enc(p, s, v)) && s.Optional? && v.content.None?
    ensures Dec(bits, p, s) == Some((v, p + |Enc(p, s, v)|))
  {
    hide At, Take, Padding, ToBits, FromBits;
    SmallOctet(0);
    AtSplit(bits, p, Padding(p), ToBits(0, 8));
  }

  lemma {:induction false} ContentDecoded(bits: Stream, p: nat, s: Schema)
    requires s.Optional? && AlignUp(p) + 8 <= |bits|
    requires FromBits(bits[AlignUp(p)..AlignUp(p) + 8]) != 0 && Dec(bits, AlignUp(p) + 8, s.elem).Some?
    ensures var (w, q) := Dec(bits, AlignUp(p) + 8, s.elem).value; Dec(bits, p, s) == Some((OptionalValue(Some(w)), q))
  {
    hide FromBits, Padding;
  }

  lemma {:induction false} FieldsRoundTrip(bits: Stream, p: nat, fs: seq<Schema>, vs: seq<Value>)
    requires |fs| == |vs| && forall i :: 0 <= i < |fs| ==>
      fs[i].WellFormed() && HasShape(fs[i], vs[i]) && Fits(fs[i], vs[i])
    requires p <= |bits| && At(bits, p, EncFields(p, fs, vs))
    ensures DecFields(bits, p, fs) == Some((vs, p + |EncFields(p, fs, vs)|))
    decreases fs, 0, 0
  {
    hide Enc, Dec, HasShape, Fits, At, Take;
    if fs != [] {
      var n := |fs| - 1;
      var front := EncFields(p, fs[..n], vs[..n]);
      AtSplit(bits, p, front, Enc(p + |front|, fs[n], vs[n]));
      FieldsRoundTrip(bits, p, fs[..n], vs[..n]);
      RoundTrip(bits, p + |front|, fs[n], vs[n]);
      assert vs == vs[..n] + [vs[n]];
    }
  }

  lemma {:induction false} ListRoundTrip(bits: Stream, p: nat, e: Schema, vs: seq<Value>)
    requires e.WellFormed() && forall i :: 0 <= i < |vs| ==> HasShape(e, vs[i]) && Fits(e, vs[i])
    requires p <= |bits| && At(bits, p, EncList(p, e, vs))
    ensures DecList(bits, p, e, |vs|) == Some((vs, p + |EncList(p, e, vs)|))
    decreases e, 3, |vs|
  {
    hide Enc, Dec, HasShape, Fits, At, Take, EncList, DecList;
    if vs == [] {
      NoElements(bits, p, e);
    } else {
      var n := |vs| - 1;
      var us, v := vs[..n], vs[n];
      ListEncoded(p, e, vs);
      var front := EncList(p, e, us);
      AtSplit(bits, p, front, Enc(p + |front|, e, v));
      ListRoundTrip(bits, p, e, us);
      RoundTrip(bits, p + |front|, e, v);
      ListDecoded(bits, p, e, n + 1);
      assert vs == us + [v];
    }
  }

  lemma {:induction false} NoElements(bits: Stream, p: nat, e: Schema)
    requires p <= |bits|
    ensures EncList(p, e, []) == [] && DecList(bits, p, e, 0) == Some(([], p))
  {
  }

  lemma {:induction false} ListEncoded(p: nat, e: Schema, vs: seq<Value>)
    requires vs != []
    ensures var front := EncList(p, e, vs[..|vs| - 1]);
      EncList(p, e, vs) == front + Enc(p + |front|, e, vs[|vs| - 1])
  {
    hide Enc;
  }

  lemma {:induction false} ListDecoded(bits: Stream, p: nat, e: Schema, n: nat)
    requires 0 < n && p <= |bits| && DecList(bits, p, e, n - 1).Some?
    requires Dec(bits, DecList(bits, p, e, n - 1).value.1, e).Some?
    ensures var (us, r) := DecList(bits, p, e, n - 1).value; var (v, q) := Dec(bits, r, e).value;
      DecList(bits, p, e, n) == Some((us + [v], q))
  {
    hide Dec;
  }

  lemma {:induction false} SmallOctet(x: nat)
    requires x < 2
    ensures FromBits(ToBits(x, 8)) == x
    ensures ToBits(x, 8) == [x == 1] + Zeros(7)
  {
    assert 1 < Pow2(8) by { Pow2Monotone(1, 8); assert Pow2(1) == 2 * Pow2(0); }
    FromToBits(x, 8);
    ZeroBits(7);
  }

  lemma {:induction false} ZeroBits(n: nat)
    ensures ToBits(0, n) == Zeros(n)
  {
    if n > 0 { ZeroBits(n - 1); }
  }
}
