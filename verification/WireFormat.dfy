/** The wire format as plain bit strings: what a value of a schema looks like when it is
    written at a given bit position, and what reading it back from a buffer yields.
    The accumulating serializer and deserializer are proved against these functions. */
module WireFormat {
  import opened Bits
  import opened Wrappers

  // ----- Schemas and values -----

  /** A C++ integer type: its size and signedness. */
  datatype IntType = IntType(bytes: nat, signed: bool) {
    predicate Valid() { bytes in {1, 2, 4, 8} }
    function Width(): nat { 8 * bytes }
  }

  /** Blob stands for std::string and std::vector<uint8_t>, Float for an IEEE value of that many
      octets. Int carries the width in bits that is passed next to the value. */
  datatype Schema =
    | Int(ty: IntType, bits: nat)
    | Bool
    | Float(bytes: nat)
    | Blob
    | Struct(fields: seq<Schema>)
    | List(elem: Schema)
    | Array(size: nat, elem: Schema)
    | Optional(elem: Schema)
  {
    ghost predicate WellFormed() {
      match this
      case Int(ty, bits) => ty.Valid() && 1 <= bits <= ty.Width()
      case Bool => true
      case Float(n) => n in {4, 8}
      case Blob => true
      case Struct(fs) => forall i :: 0 <= i < |fs| ==> fs[i].WellFormed()
      case List(e) => e.WellFormed()
      case Array(_, e) => e.WellFormed()
      case Optional(e) => e.WellFormed()
    }
  }

  datatype Value =
    | IntValue(x: int)
    | BoolValue(b: bool)
    | BlobValue(octets: seq<Octet>)
    | StructValue(fields: seq<Value>)
    | ListValue(elems: seq<Value>)
    | OptionalValue(content: Option<Value>)

  ghost predicate FitsBits(x: int, signed: bool, bits: nat) {
    if signed then -Pow2(bits) <= 2 * x < Pow2(bits) else 0 <= x < Pow2(bits)
  }

  /** v is a C++ value of the type s describes. */
  ghost predicate HasShape(s: Schema, v: Value)
    decreases s
  {
    match (s, v)
    case (Int(ty, _), IntValue(x)) => FitsBits(x, ty.signed, ty.Width())
    case (Bool, BoolValue(_)) => true
    case (Float(n), BlobValue(octets)) => |octets| == n
    case (Blob, BlobValue(_)) => true
    case (Struct(fs), StructValue(vs)) => |fs| == |vs| && forall i :: 0 <= i < |fs| ==> HasShape(fs[i], vs[i])
    case (List(e), ListValue(vs)) => forall i :: 0 <= i < |vs| ==> HasShape(e, vs[i])
    case (Array(n, e), ListValue(vs)) => |vs| == n && forall i :: 0 <= i < |vs| ==> HasShape(e, vs[i])
    case (Optional(e), OptionalValue(c)) => c.Some? ==> HasShape(e, c.value)
    case _ => false
  }

  /** Every integer fits the width it is written with and every length fits 32 bits. */
  ghost predicate Fits(s: Schema, v: Value)
    decreases s
  {
    match (s, v)
    case (Int(ty, bits), IntValue(x)) => FitsBits(x, ty.signed, bits)
    case (Blob, BlobValue(octets)) => |octets| < Pow2(32)
    case (Struct(fs), StructValue(vs)) => |fs| == |vs| && forall i :: 0 <= i < |fs| ==> Fits(fs[i], vs[i])
    case (List(e), ListValue(vs)) => |vs| < Pow2(32) && forall i :: 0 <= i < |vs| ==> Fits(e, vs[i])
    case (Array(_, e), ListValue(vs)) => forall i :: 0 <= i < |vs| ==> Fits(e, vs[i])
    case (Optional(e), OptionalValue(c)) => c.Some? ==> Fits(e, c.value)
    case _ => true
  }

  // ----- Writing -----

  /** The zero bits that complete the octet position k lies in. */
  function Padding(k: nat): (z: seq<bool>)
    ensures |z| < 8 && (k + |z|) % 8 == 0
  {
    Zeros((8 - k % 8) % 8)
  }

  function AlignUp(k: nat): nat { k + |Padding(k)| }

  /** The bits of v when its first bit goes to position k. */
  function Enc(k: nat, s: Schema, v: Value): seq<bool>
    decreases s, 0, 0
  {
    match (s, v)
    case (Int(_, n), IntValue(x)) => (if n % 8 == 0 then Padding(k) else []) + ToBits(x, n)
    case (Bool, BoolValue(b)) => Padding(k) + ToBits(if b then 1 else 0, 8)
    case (Float(_), BlobValue(octets)) => Padding(k) + Flatten(octets)
    case (Blob, BlobValue(octets)) => Padding(k) + ToBits(|octets|, 32) + Flatten(octets)
    case (Struct(fs), StructValue(vs)) => Padding(k) + EncFields(AlignUp(k), fs, vs)
    case (List(e), ListValue(vs)) => Padding(k) + ToBits(|vs|, 32) + EncList(AlignUp(k) + 32, e, vs)
    case (Array(n, e), ListValue(vs)) => Padding(k) + ToBits(n, 32) + EncList(AlignUp(k) + 32, e, vs)
    case (Optional(e), OptionalValue(None)) => Padding(k) + ToBits(0, 8)
    case (Optional(e), OptionalValue(Some(w))) => Padding(k) + ToBits(1, 8) + Enc(AlignUp(k) + 8, e, w)
    case _ => [] // not a value of the schema
  }

  function EncFields(k: nat, fs: seq<Schema>, vs: seq<Value>): seq<bool>
    decreases fs, 0, 0
  {
    if fs == [] || |fs| != |vs| then [] else
      var n := |fs| - 1;
      var front := EncFields(k, fs[..n], vs[..n]);
      front + Enc(k + |front|, fs[n], vs[n])
  }

  function EncList(k: nat, e: Schema, vs: seq<Value>): seq<bool>
    decreases e, 1, |vs|
  {
    if vs == [] then [] else
      var n := |vs| - 1;
      var front := EncList(k, e, vs[..n]);
      front + Enc(k + |front|, e, vs[n])
  }

  // ----- Reading -----

  /** The buffers read from are whole octets. */
  type Stream = b: seq<bool> | |b| % 8 == 0

  function Take(bits: Stream, p: nat, n: nat): (r: Option<seq<bool>>)
    ensures r.Some? <==> p + n <= |bits|
    ensures r.Some? ==> r.value == bits[p..p + n]
  {
    if p + n <= |bits| then Some(bits[p..p + n]) else None
  }

  function TakeOctets(bits: Stream, p: nat, n: nat): (r: Option<seq<Octet>>)
    ensures r.Some? <==> p + 8 * n <= |bits|
    ensures r.Some? ==> |r.value| == n && Flatten(r.value) == bits[p..p + 8 * n]
  {
    if p + 8 * n <= |bits| then Some(Octets(bits[p..p + 8 * n])) else None
  }

  function ReadInt(b: seq<bool>, signed: bool): int {
    if signed && b != [] then SignedFromBits(b) else FromBits(b)
  }

  /** Reading a value of schema s at position p: the value and the position after it. */
  function Dec(bits: Stream, p: nat, s: Schema): (r: Option<(Value, nat)>)
    requires p <= |bits|
    ensures r.Some? ==> p <= r.value.1 <= |bits|
    decreases s, 0, 0
  {
    match s
    case Int(ty, n) =>
      var a := if n % 8 == 0 then AlignUp(p) else p;
      var b :- Take(bits, a, n);
      Some((IntValue(ReadInt(b, ty.signed)), a + n))
    case Bool =>
      var b :- Take(bits, AlignUp(p), 8);
      Some((BoolValue(FromBits(b) != 0), AlignUp(p) + 8))
    case Float(n) =>
      var octets :- TakeOctets(bits, AlignUp(p), n);
      Some((BlobValue(octets), AlignUp(p) + 8 * n))
    case Blob =>
      var c :- Take(bits, AlignUp(p), 32);
      var n := FromBits(c);
      var octets :- TakeOctets(bits, AlignUp(p) + 32, n);
      Some((BlobValue(octets), AlignUp(p) + 32 + 8 * n))
    case Struct(fs) =>
      var (vs, q) :- DecFields(bits, AlignUp(p), fs);
      Some((StructValue(vs), q))
    case List(e) =>
      var c :- Take(bits, AlignUp(p), 32);
      var (vs, q) :- DecList(bits, AlignUp(p) + 32, e, FromBits(c));
      Some((ListValue(vs), q))
    case Array(n, e) => // the element count on the wire is read and ignored
      var c :- Take(bits, AlignUp(p), 32);
      var (vs, q) :- DecList(bits, AlignUp(p) + 32, e, n);
      Some((ListValue(vs), q))
    case Optional(e) =>
      var b :- Take(bits, AlignUp(p), 8);
      if FromBits(b) == 0 then Some((OptionalValue(None), AlignUp(p) + 8)) else
        var (w, q) :- Dec(bits, AlignUp(p) + 8, e);
        Some((OptionalValue(Some(w)), q))
  }

  function DecFields(bits: Stream, p: nat, fs: seq<Schema>): (r: Option<(seq<Value>, nat)>)
    requires p <= |bits|
    ensures r.Some? ==> p <= r.value.1 <= |bits| && |r.value.0| == |fs|
    decreases fs, 0, 0
  {
    if fs == [] then Some(([], p)) else
      var n := |fs| - 1;
      var (vs, q) :- DecFields(bits, p, fs[..n]);
      var (v, q') :- Dec(bits, q, fs[n]);
      Some((vs + [v], q'))
  }

  function DecList(bits: Stream, p: nat, e: Schema, n: nat): (r: Option<(seq<Value>, nat)>)
    requires p <= |bits|
    ensures r.Some? ==> p <= r.value.1 <= |bits| && |r.value.0| == n
    decreases e, 1, n
  {
    if n == 0 then Some(([], p)) else
      var (vs, q) :- DecList(bits, p, e, n - 1);
      var (v, q') :- Dec(bits, q, e);
      Some((vs + [v], q'))
  }

  // ----- Integers on the wire -----

  lemma {:induction false} IntRoundTrip(x: int, signed: bool, n: nat)
    requires 1 <= n && FitsBits(x, signed, n)
    ensures ReadInt(ToBits(x, n), signed) == x
  {
    assert Pow2(n) == 2 * Pow2(n - 1);
    if signed { SignedFromToBits(x, n); } else { FromToBits(x, n); }
  }

  lemma {:induction false} ReadIntFits(b: seq<bool>, signed: bool)
    requires b != []
    ensures FitsBits(ReadInt(b, signed), signed, |b|)
    ensures ToBits(ReadInt(b, signed), |b|) == b
  {
    assert Pow2(|b|) == 2 * Pow2(|b| - 1);
    if signed { SignedFromBitsRange(b); ToSignedFromBits(b); } else { ToFromBits(b); }
  }

  lemma {:induction false} FitsWider(x: int, signed: bool, n: nat, m: nat)
    requires n <= m && FitsBits(x, signed, n)
    ensures FitsBits(x, signed, m)
  {
    Pow2Monotone(n, m);
  }

  // ----- Facts the loops of the reader use -----

  lemma {:induction false} ListStops(bits: Stream, p: nat, e: Schema, i: nat, n: nat)
    requires p <= |bits| && i <= n
    ensures DecList(bits, p, e, i).None? ==> DecList(bits, p, e, n).None?
    decreases n
  {
    if i < n { ListStops(bits, p, e, i, n - 1); }
  }

  lemma {:induction false} FieldsStop(bits: Stream, p: nat, fs: seq<Schema>, i: nat)
    requires p <= |bits| && i <= |fs|
    ensures DecFields(bits, p, fs[..i]).None? ==> DecFields(bits, p, fs).None?
    decreases |fs|
  {
    if i < |fs| {
      var n := |fs| - 1;
      FieldsStop(bits, p, fs[..n], i);
      assert fs[..n][..i] == fs[..i];
    } else {
      assert fs[..i] == fs;
    }
  }
}
