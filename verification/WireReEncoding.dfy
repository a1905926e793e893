/** Writing again what was read: when it reproduces the bits that were read. */
module WireReEncoding {
  import opened Bits
  import opened Wrappers
  import opened WireFormat
  import opened WireRoundTrip

  ghost predicate ZeroPadded(bits: Stream, p: nat) {
    AlignUp(p) <= |bits| && bits[p..AlignUp(p)] == Padding(p)
  }

  /** The octet at a is 0 or 1. */
  ghost predicate FlagOctet(bits: Stream, a: nat)
    requires a + 8 <= |bits|
  {
    bits[a + 1..a + 8] == Zeros(7)
  }

  /** The freedom a reader leaves, resolved as the writer does: zero padding, flag octets 0 or 1,
      and the right element count in front of a fixed array. */
  ghost predicate Canonical(bits: Stream, p: nat, s: Schema)
    requires p <= |bits| && Dec(bits, p, s).Some?
    decreases s, 0, 0
  {
    match s
    case Int(_, n) => n % 8 == 0 ==> ZeroPadded(bits, p)
    case Bool => ZeroPadded(bits, p) && FlagOctet(bits, AlignUp(p))
    case Float(_) => ZeroPadded(bits, p)
    case Blob => ZeroPadded(bits, p)
    case Struct(fs) => ZeroPadded(bits, p) && CanonicalFields(bits, AlignUp(p), fs)
    case List(e) => ZeroPadded(bits, p) && CanonicalList(bits, AlignUp(p) + 32, e,
      FromBits(bits[AlignUp(p)..AlignUp(p) + 32]))
    case Array(n, e) =>
      && ZeroPadded(bits, p)
      && bits[AlignUp(p)..AlignUp(p) + 32] == ToBits(n, 32)
      && CanonicalList(bits, AlignUp(p) + 32, e, n)
    case Optional(e) =>
      && ZeroPadded(bits, p)
      && FlagOctet(bits, AlignUp(p))
      && (FromBits(bits[AlignUp(p)..AlignUp(p) + 8]) != 0 ==> Canonical(bits, AlignUp(p) + 8, e))
  }

  ghost predicate CanonicalFields(bits: Stream, p: nat, fs: seq<Schema>)
    requires p <= |bits| && DecFields(bits, p, fs).Some?
    decreases fs, 0, 0
  {
    fs != [] ==>
      var n := |fs| - 1;
      && CanonicalFields(bits, p, fs[..n])
      && Canonical(bits, DecFields(bits, p, fs[..n]).value.1, fs[n])
  }

  ghost predicate CanonicalList(bits: Stream, p: nat, e: Schema, n: nat)
    requires p <= |bits| && DecList(bits, p, e, n).Some?
    decreases e, 1, n
  {
    n != 0 ==>
      && CanonicalList(bits, p, e, n - 1)
      && Canonical(bits, DecList(bits, p, e, n - 1).value.1, e)
  }

  /** What the re-encoding of a decoded value looks like: it has the length that was read, and it
      is what was read exactly when that was canonical. */
  ghost predicate Recodes(bits: Stream, p: nat, q: nat, e: seq<bool>, canonical: bool) {
    p <= q <= |bits| && |e| == q - p && (e == bits[p..q] <==> canonical)
  }

  lemma RecodesConcat(bits: Stream, p: nat, q: nat, r: nat, a: seq<bool>, b: seq<bool>, ca: bool, cb: bool)
    requires Recodes(bits, p, q, a, ca) && Recodes(bits, q, r, b, cb)
    ensures Recodes(bits, p, r, a + b, ca && cb)
  {
    assert bits[p..r] == bits[p..q] + bits[q..r];
    if a + b == bits[p..r] {
      assert a == (a + b)[..|a|] == bits[p..r][..|a|] == bits[p..q];
      assert b == (a + b)[|a|..] == bits[p..r][|a|..] == bits[q..r];
    }
  }

  lemma RecodesLength(bits: Stream, p: nat, q: nat, e: seq<bool>, c: bool)
    requires Recodes(bits, p, q, e, c)
    ensures p <= q && |e| == q - p
  {
  }

  lemma RecodesSlice(bits: Stream, a: nat, n: nat, c: seq<bool>)
    requires a + n <= |bits| && |c| == n
    ensures Recodes(bits, a, a + n, c, bits[a..a + n] == c)
  {
  }

  lemma RecodesPadding(bits: Stream, p: nat)
    requires AlignUp(p) <= |bits|
    ensures Recodes(bits, p, AlignUp(p), Padding(p), ZeroPadded(bits, p))
  {
  }

  lemma {:induction false} RecodesFlag(bits: Stream, a: nat, x: nat)
    requires a + 8 <= |bits| && x == if FromBits(bits[a..a + 8]) != 0 then 1 else 0
    ensures Recodes(bits, a, a + 8, ToBits(x, 8), FlagOctet(bits, a))
  {
    var b := bits[a..a + 8];
    SmallOctet(x);
    assert b == [bits[a]] + bits[a + 1..a + 8];
    if FlagOctet(bits, a) {
      FromBitsSplit([bits[a]], Zeros(7));
      FromBitsZeros(7);
      assert FromBits([bits[a]]) == if bits[a] then 1 else 0;
      assert (x == 1) == bits[a];
    } else {
      assert b[1..] == bits[a + 1..a + 8];
      assert ToBits(x, 8)[1..] == Zeros(7);
    }
  }

  lemma {:induction false} RecodesCount(bits: Stream, a: nat)
    requires a + 32 <= |bits|
    ensures FromBits(bits[a..a + 32]) < Pow2(32)
    ensures ToBits(FromBits(bits[a..a + 32]), 32) == bits[a..a + 32]
  {
    ToFromBits(bits[a..a + 32]);
  }

  /** The re-encoding of the bits read from p on, as far as the schema s goes. */
  ghost predicate ReEncodes(bits: Stream, p: nat, s: Schema)
    requires p <= |bits| && Dec(bits, p, s).Some?
  {
    var (v, q) := Dec(bits, p, s).value;
    HasShape(s, v) && Fits(s, v) && Recodes(bits, p, q, Enc(p, s, v), Canonical(bits, p, s))
  }

  /** Whatever a reader accepts is a fitting value of the schema, and writing it again reproduces
      the bits read exactly when these were canonical. */
  lemma {:induction false} ReEncode(bits: Stream, p: nat, s: Schema)
    requires s.WellFormed() && p <= |bits| && Dec(bits, p, s).Some?
    ensures ReEncodes(bits, p, s)
    decreases s, 2, 0
  {
    hide ReEncodes, Dec;
    match s
    case Int(_, _) => IntReEncode(bits, p, s);
    case Bool => BoolReEncode(bits, p, s);
    case Float(_) => FloatReEncode(bits, p, s);
    case Blob => BlobReEncode(bits, p, s);
    case Struct(_) => StructReEncode(bits, p, s);
    case List(_) => CountedReEncode(bits, p, s);
    case Array(_, _) => CountedReEncode(bits, p, s);
    case Optional(_) => OptionalReEncode(bits, p, s);
  }

  lemma {:induction false} IntReEncode(bits: Stream, p: nat, s: Schema)
    requires s.WellFormed() && p <= |bits| && Dec(bits, p, s).Some? && s.Int?
    ensures ReEncodes(bits, p, s)
  {
    hide FitsBits, ReadInt, ToBits, Recodes, Padding, ZeroPadded;
    var (v, q) := Dec(bits, p, s).value;
    var a := if s.bits % 8 == 0 then AlignUp(p) else p;
    ReadIntFits(bits[a..q], s.ty.signed);
    FitsWider(v.x, s.ty.signed, s.bits, s.ty.Width());
    RecodesSlice(bits, a, s.bits, ToBits(v.x, s.bits));
    if s.bits % 8 == 0 {
      RecodesPadding(bits, p);
      RecodesConcat(bits, p, a, q, Padding(p), ToBits(v.x, s.bits), ZeroPadded(bits, p), true);
    } else {
      assert [] + ToBits(v.x, s.bits) == ToBits(v.x, s.bits);
    }
  }

  lemma {:induction false} BoolReEncode(bits: Stream, p: nat, s: Schema)
    requires s.WellFormed() && p <= |bits| && Dec(bits, p, s).Some? && s.Bool?
    ensures ReEncodes(bits, p, s)
  {
    hide ToBits, FromBits, Recodes, FlagOctet, ZeroPadded, Padding;
    var (v, q) := Dec(bits, p, s).value;
    var x := if v.b then 1 else 0;
    RecodesPadding(bits, p);
    RecodesFlag(bits, AlignUp(p), x);
    RecodesConcat(bits, p, AlignUp(p), q, Padding(p), ToBits(x, 8), ZeroPadded(bits, p), FlagOctet(bits, AlignUp(p)));
  }

  lemma {:induction false} FloatReEncode(bits: Stream, p: nat, s: Schema)
    requires s.WellFormed() && p <= |bits| && Dec(bits, p, s).Some? && s.Float?
    ensures ReEncodes(bits, p, s)
  {
    hide Recodes, ZeroPadded, Flatten, TakeOctets, Padding;
    var (v, q) := Dec(bits, p, s).value;
    RecodesPadding(bits, p);
    RecodesSlice(bits, AlignUp(p), 8 * s.bytes, Flatten(v.octets));
    RecodesConcat(bits, p, AlignUp(p), q, Padding(p), Flatten(v.octets), ZeroPadded(bits, p), true);
  }

  lemma {:induction false} BlobReEncode(bits: Stream, p: nat, s: Schema)
    requires s.WellFormed() && p <= |bits| && Dec(bits, p, s).Some? && s.Blob?
    ensures ReEncodes(bits, p, s)
  {
    hide Recodes, ZeroPadded, Flatten, TakeOctets, FromBits, ToBits, Pow2, Padding;
    var (v, q) := Dec(bits, p, s).value;
    var z, a := Padding(p), AlignUp(p);
    var c := bits[a..a + 32];
    RecodesPadding(bits, p);
    RecodesCount(bits, a);
    RecodesSlice(bits, a, 32, c);
    RecodesSlice(bits, a + 32, q - a - 32, Flatten(v.octets));
    RecodesConcat(bits, p, a, a + 32, z, c, ZeroPadded(bits, p), true);
    RecodesConcat(bits, p, a + 32, q, z + c, Flatten(v.octets), ZeroPadded(bits, p), true);
  }

  lemma {:induction false} StructReEncode(bits: Stream, p: nat, s: Schema)
    requires s.WellFormed() && p <= |bits| && Dec(bits, p, s).Some? && s.Struct?
    ensures ReEncodes(bits, p, s)
    decreases s, 1, 0
  {
    hide Recodes, ZeroPadded, EncFields, DecFields, CanonicalFields, Padding;
    var (v, q) := Dec(bits, p, s).value;
    var a := AlignUp(p);
    RecodesPadding(bits, p);
    ReEncodeFields(bits, a, s.fields);
    RecodesConcat(bits, p, a, q, Padding(p), EncFields(a, s.fields, v.fields), ZeroPadded(bits, p),
      CanonicalFields(bits, a, s.fields));
  }

  lemma {:induction false} CountedReEncode(bits: Stream, p: nat, s: Schema)
    requires s.WellFormed() && p <= |bits| && Dec(bits, p, s).Some? && (s.List? || s.Array?)
    ensures ReEncodes(bits, p, s)
    decreases s, 1, 0
  {
    hide Recodes, ZeroPadded, EncList, DecList, CanonicalList, FromBits, ToBits, Pow2, Padding;
    var (v, q) := Dec(bits, p, s).value;
    var z, a := Padding(p), AlignUp(p);
    var n := if s.List? then FromBits(bits[a..a + 32]) else s.size;
    var c, counted := ToBits(n, 32), bits[a..a + 32] == ToBits(n, 32);
    RecodesPadding(bits, p);
    RecodesCount(bits, a);
    RecodesSlice(bits, a, 32, c);
    ReEncodeList(bits, a + 32, s.elem, n);
    RecodesConcat(bits, p, a, a + 32, z, c, ZeroPadded(bits, p), counted);
    RecodesConcat(bits, p, a + 32, q, z + c, EncList(a + 32, s.elem, v.elems),
      ZeroPadded(bits, p) && counted, CanonicalList(bits, a + 32, s.elem, n));
  }

  lemma {:induction false} OptionalReEncode(bits: Stream, p: nat, s: Schema)
    requires s.WellFormed() && p <= |bits| && Dec(bits, p, s).Some? && s.Optional?
    ensures ReEncodes(bits, p, s)
    decreases s, 1, 0
  {
    if Dec(bits, p, s).value.0.content.None? {
      EmptyReEncode(bits, p, s);
    } else {
      hide Dec, ReEncodes, FromBits, Padding;
      ContentRead(bits, p, s);
      ReEncode(bits, AlignUp(p) + 8, s.elem);
      ContentReEncode(bits, p, s);
    }
  }

  lemma {:induction false} EmptyReEncode(bits: Stream, p: nat, s: Schema)
    requires s.WellFormed() && p <= |bits| && Dec(bits, p, s).Some? && s.Optional?
      && Dec(bits, p, s).value.0.content.None?
    ensures ReEncodes(bits, p, s)
  {
    hide Recodes, ZeroPadded, FlagOctet, FromBits, ToBits, Padding;
    var a := AlignUp(p);
    RecodesPadding(bits, p);
    RecodesFlag(bits, a, 0);
    RecodesConcat(bits, p, a, a + 8, Padding(p), ToBits(0, 8), ZeroPadded(bits, p), FlagOctet(bits, a));
  }

  lemma {:induction false} ContentRead(bits: Stream, p: nat, s: Schema)
    requires p <= |bits| && Dec(bits, p, s).Some? && s.Optional? && Dec(bits, p, s).value.0.content.Some?
    ensures AlignUp(p) + 8 <= |bits| && FromBits(bits[AlignUp(p)..AlignUp(p) + 8]) != 0
    ensures Dec(bits, AlignUp(p) + 8, s.elem).Some?
    ensures var (w, q) := Dec(bits, AlignUp(p) + 8, s.elem).value; Dec(bits, p, s).value == (OptionalValue(Some(w)), q)
  {
    hide FromBits, Padding;
  }

  lemma {:induction false} ContentReEncode(bits: Stream, p: nat, s: Schema)
    requires s.WellFormed() && p <= |bits| && Dec(bits, p, s).Some? && s.Optional?
      && Dec(bits, p, s).value.0.content.Some?
    requires AlignUp(p) + 8 <= |bits| && Dec(bits, AlignUp(p) + 8, s.elem).Some?
      && ReEncodes(bits, AlignUp(p) + 8, s.elem)
    ensures ReEncodes(bits, p, s)
  {
    hide Recodes, ZeroPadded, FlagOctet, FromBits, ToBits, Padding, Dec;
    ContentRead(bits, p, s);
    var z, a := Padding(p), AlignUp(p);
    var (w, q) := Dec(bits, a + 8, s.elem).value;
    RecodesPadding(bits, p);
    RecodesFlag(bits, a, 1);
    RecodesConcat(bits, p, a, a + 8, z, ToBits(1, 8), ZeroPadded(bits, p), FlagOctet(bits, a));
    RecodesConcat(bits, p, a + 8, q, z + ToBits(1, 8), Enc(a + 8, s.elem, w),
      ZeroPadded(bits, p) && FlagOctet(bits, a), Canonical(bits, a + 8, s.elem));
  }

  lemma {:induction false} RecodesField(bits: Stream, p: nat, q: nat, r: nat, fs: seq<Schema>, us: seq<Value>,
      v: Value, cu: bool, cv: bool)
    requires |fs| == |us| + 1
    requires Recodes(bits, p, q, EncFields(p, fs[..|us|], us), cu) && Recodes(bits, q, r, Enc(q, fs[|us|], v), cv)
    ensures Recodes(bits, p, r, EncFields(p, fs, us + [v]), cu && cv)
  {
    hide Enc;
    assert (us + [v])[..|us|] == us;
    RecodesConcat(bits, p, q, r, EncFields(p, fs[..|us|], us), Enc(q, fs[|us|], v), cu, cv);
  }

  lemma {:induction false} RecodesElem(bits: Stream, p: nat, q: nat, r: nat, e: Schema, us: seq<Value>, v: Value,
      cu: bool, cv: bool)
    requires Recodes(bits, p, q, EncList(p, e, us), cu) && Recodes(bits, q, r, Enc(q, e, v), cv)
    ensures Recodes(bits, p, r, EncList(p, e, us + [v]), cu && cv)
  {
    hide Enc;
    assert (us + [v])[..|us|] == us;
    RecodesConcat(bits, p, q, r, EncList(p, e, us), Enc(q, e, v), cu, cv);
  }

  ghost predicate FieldsFit(fs: seq<Schema>, vs: seq<Value>) {
    |fs| == |vs| && forall i :: 0 <= i < |fs| ==> HasShape(fs[i], vs[i]) && Fits(fs[i], vs[i])
  }

  lemma FieldsFitSnoc(fs: seq<Schema>, us: seq<Value>, v: Value)
    requires |fs| == |us| + 1 && FieldsFit(fs[..|us|], us) && HasShape(fs[|us|], v) && Fits(fs[|us|], v)
    ensures FieldsFit(fs, us + [v])
  {
    hide HasShape, Fits;
    forall i | 0 <= i < |us| ensures HasShape(fs[i], us[i]) && Fits(fs[i], us[i]) {
      assert fs[i] == fs[..|us|][i];
    }
  }

  ghost predicate ElemsFit(e: Schema, vs: seq<Value>) {
    forall i :: 0 <= i < |vs| ==> HasShape(e, vs[i]) && Fits(e, vs[i])
  }

  lemma ElemsFitSnoc(e: Schema, us: seq<Value>, v: Value)
    requires ElemsFit(e, us) && HasShape(e, v) && Fits(e, v)
    ensures ElemsFit(e, us + [v])
  {
    hide HasShape, Fits;
  }

  ghost predicate ReEncodesFields(bits: Stream, p: nat, fs: seq<Schema>)
    requires p <= |bits| && DecFields(bits, p, fs).Some?
  {
    var (vs, q) := DecFields(bits, p, fs).value;
    FieldsFit(fs, vs) && Recodes(bits, p, q, EncFields(p, fs, vs), CanonicalFields(bits, p, fs))
  }

  lemma {:induction false} ReEncodeFields(bits: Stream, p: nat, fs: seq<Schema>)
    requires (forall i :: 0 <= i < |fs| ==> fs[i].WellFormed()) && p <= |bits| && DecFields(bits, p, fs).Some?
    ensures ReEncodesFields(bits, p, fs)
    decreases fs, 0, 0
  {
    if fs != [] {
      hide Recodes, Enc, Dec, HasShape, Fits, FieldsFit, Canonical, EncFields;
      var n := |fs| - 1;
      var (us, r) := DecFields(bits, p, fs[..n]).value;
      var (v, q) := Dec(bits, r, fs[n]).value;
      ReEncodeFields(bits, p, fs[..n]);
      ReEncode(bits, r, fs[n]);
      FieldsFitSnoc(fs, us, v);
      RecodesField(bits, p, r, q, fs, us, v, CanonicalFields(bits, p, fs[..n]), Canonical(bits, r, fs[n]));
    }
  }

  ghost predicate ReEncodesList(bits: Stream, p: nat, e: Schema, n: nat)
    requires p <= |bits| && DecList(bits, p, e, n).Some?
  {
    var (vs, q) := DecList(bits, p, e, n).value;
    ElemsFit(e, vs) && Recodes(bits, p, q, EncList(p, e, vs), CanonicalList(bits, p, e, n))
  }

  lemma {:induction false} ReEncodeList(bits: Stream, p: nat, e: Schema, n: nat)
    requires e.WellFormed() && p <= |bits| && DecList(bits, p, e, n).Some?
    ensures ReEncodesList(bits, p, e, n)
    decreases e, 3, n
  {
    hide Recodes, Enc, Dec, HasShape, Fits, Canonical, EncList, DecList, CanonicalList;
    if n == 0 {
      NoElements(bits, p, e);
      NothingCanonical(bits, p, e);
      RecodesSlice(bits, p, 0, []);
    } else {
      hide ElemsFit;
      ListUnfolded(bits, p, e, n);
      var (us, r) := DecList(bits, p, e, n - 1).value;
      var (v, q) := Dec(bits, r, e).value;
      ReEncodeList(bits, p, e, n - 1);
      ReEncode(bits, r, e);
      ElemsFitSnoc(e, us, v);
      RecodesElem(bits, p, r, q, e, us, v, CanonicalList(bits, p, e, n - 1), Canonical(bits, r, e));
    }
  }

  lemma {:induction false} NothingCanonical(bits: Stream, p: nat, e: Schema)
    requires p <= |bits| && DecList(bits, p, e, 0).Some?
    ensures CanonicalList(bits, p, e, 0)
  {
  }

  /** The last element of a list that was read. */
  lemma {:induction false} ListUnfolded(bits: Stream, p: nat, e: Schema, n: nat)
    requires 0 < n && p <= |bits| && DecList(bits, p, e, n).Some?
    ensures DecList(bits, p, e, n - 1).Some?
    ensures var (us, r) := DecList(bits, p, e, n - 1).value;
      && Dec(bits, r, e).Some?
      && DecList(bits, p, e, n) == Some((us + [Dec(bits, r, e).value.0], Dec(bits, r, e).value.1))
      && CanonicalList(bits, p, e, n) == (CanonicalList(bits, p, e, n - 1) && Canonical(bits, r, e))
  {
    hide Dec, Canonical;
  }
}
