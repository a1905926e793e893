/** The SabSerDes serializer: octets in a growing buffer, and a 64-bit accumulator for fields
    whose width is not a whole number of octets. */
module SabSerializer {
  import opened Bits
  import opened WireFormat

  /** The accumulator after a field was or-ed in at its end, before whole octets are flushed. */
  function Merged(acc: Word, pending: nat, data: seq<bool>): (r: Word)
    requires pending < 8
    ensures forall i :: 0 <= i < 64 ==> r[i] == (acc[i] || (i >= pending && i - pending < |data| && data[i - pending]))
  {
    Or(acc, Shl(Resize(data, 64), pending))
  }

  /** The data bits above the declared width that end up in the accumulator. */
  ghost predicate NoStrayBits(data: seq<bool>, bitSize: nat, pending: nat) {
    forall i :: bitSize <= i < |data| && (pending + bitSize >= 64 || pending + i < 64) ==> !data[i]
  }

  ghost predicate ZeroAbove(acc: Word, pending: nat) {
    forall i :: pending <= i < 64 ==> !acc[i]
  }

  lemma MergedFront(acc: Word, pending: nat, data: seq<bool>, bitSize: nat)
    requires pending < 8 && bitSize <= |data| <= 64 && ZeroAbove(acc, pending)
    ensures forall k :: pending <= k <= pending + bitSize && k <= 64 ==>
      Merged(acc, pending, data)[..k] == acc[..pending] + data[..k - pending]
  {
    var m := Merged(acc, pending, data);
    forall k | pending <= k <= pending + bitSize && k <= 64 ensures m[..k] == acc[..pending] + data[..k - pending] {
      assert forall i :: 0 <= i < k ==> m[i] == (acc[..pending] + data[..k - pending])[i];
    }
  }

  class Serializer {
    var mBuffer: seq<Octet>
    var mUnalignedData: Word
    var mUnalignedBits: nat

    /** Fewer than 8 bits are pending between calls. */
    ghost predicate Valid()
      reads this
    {
      mUnalignedBits < 8
    }

    /** No stray bits above the pending ones. */
    ghost predicate Clean()
      reads this
    {
      ZeroAbove(mUnalignedData, mUnalignedBits)
    }

    /** Every bit written so far. */
    ghost function Written(): (w: seq<bool>)
      requires Valid()
      reads this
      ensures |w| == 8 * |mBuffer| + mUnalignedBits
    {
      Flatten(mBuffer) + mUnalignedData[..mUnalignedBits]
    }

    constructor ()
      ensures Valid() && Clean() && Written() == []
    {
      mBuffer, mUnalignedData, mUnalignedBits := [], Zeros(64), 0;
    }

    /** Forgets everything written. */
    method Reset()
      modifies this
      ensures Valid() && Clean() && Written() == []
    {
      mBuffer, mUnalignedData, mUnalignedBits := [], Zeros(64), 0;
    }

    /** Completes the last octet with zero bits. */
    method Align()
      requires Valid()
      modifies this
      ensures Valid() && mUnalignedBits == 0
      ensures old(Clean()) ==> Clean() && Written() == old(Written()) + Padding(|old(Written())|)
    {
      ghost var was := Written();
      if mUnalignedBits != 0 {
        var last: Octet := mUnalignedData[..8];
        FlattenConcat(mBuffer, [last]);
        assert Flatten([last]) == last;
        mBuffer := mBuffer + [last];
        mUnalignedData := Zeros(64);
        mUnalignedBits := 0;
        assert old(Clean()) ==> last == old(mUnalignedData[..mUnalignedBits]) + Padding(|was|);
      }
      assert mUnalignedData[..0] == [];
    }

    /** Appends the low bitSize bits of an unsigned integer, whatever the current bit position.
        Its higher bits are not masked off: they may stay behind in the accumulator. */
    method SerializeUnaligned(data: seq<bool>, bitSize: nat) returns (ok: bool)
      requires Valid() && |data| in {8, 16, 32, 64} && bitSize % 8 != 0
      modifies this
      ensures Valid() && ok == (bitSize <= |data|)
      ensures !ok ==> unchanged(this)
      ensures ok && old(Clean()) ==> Written() == old(Written()) + data[..bitSize]
      ensures ok && old(Clean()) ==> (Clean() <==> NoStrayBits(data, bitSize, old(mUnalignedBits)))
    {
      hide Flatten, Shr, Resize, Merged, ZeroAbove, NoStrayBits;
      if bitSize > |data| {
        return false;
      }
      ghost var before, acc, pending := mBuffer, mUnalignedData, mUnalignedBits;
      mUnalignedData := Merged(mUnalignedData, mUnalignedBits, data);
      ghost var merged := mUnalignedData;
      var flushBytes := (mUnalignedBits + bitSize) / 8;
      var remainingBits := (mUnalignedBits + bitSize) % 8;
      if flushBytes != 0 {
        var flushed := Octets(mUnalignedData[..8 * flushBytes]);
        FlattenConcat(mBuffer, flushed);
        mBuffer := mBuffer + flushed;
        if flushBytes == 8 {
          assert 0 < 64 - mUnalignedBits < |data|; // the shift is defined
          mUnalignedData := Resize(Shr(data, 64 - mUnalignedBits), 64);
        } else {
          mUnalignedData := Shr(mUnalignedData, 8 * flushBytes);
        }
      }
      mUnalignedBits := remainingBits;
      ok := true;
      if ZeroAbove(acc, pending) {
        AppendedBits(before, acc, pending, data, bitSize, mBuffer, mUnalignedData);
        AppendedStray(acc, pending, data, bitSize, mUnalignedData);
      }
    }

    /** Signed integers are masked first. */
    method SerializeUnalignedSigned(data: seq<bool>, bitSize: nat) returns (ok: bool)
      requires Valid() && |data| in {8, 16, 32, 64} && bitSize % 8 != 0
      modifies this
      ensures Valid() && ok == (bitSize <= |data|)
      ensures !ok ==> unchanged(this)
      ensures ok && old(Clean()) ==> Clean() && Written() == old(Written()) + data[..bitSize]
    {
      var udata := data;
      if bitSize < |data| {
        udata := And(udata, Mask(bitSize, |udata|));
        assert udata[..bitSize] == data[..bitSize];
      }
      ok := SerializeUnaligned(udata, bitSize);
    }

    /** Aligns, then appends the low octets of an integer's representation. */
    method SerializeAligned(data: seq<bool>, numBytes: nat)
      requires Valid() && 8 * numBytes <= |data|
      modifies this
      ensures Valid() && mUnalignedBits == 0
      ensures old(Clean()) ==> Clean() && Written() == old(Written()) + Padding(|old(Written())|) + data[..8 * numBytes]
    {
      Align();
      AppendBuffer(Octets(data[..8 * numBytes]));
    }

    /** Appends octets that are already in serialized form; no caller has bits pending. */
    method AppendBuffer(buffer: seq<Octet>)
      requires Valid() && mUnalignedBits == 0
      modifies this`mBuffer
      ensures Valid() && Written() == old(Written()) + Flatten(buffer)
    {
      FlattenConcat(mBuffer, buffer);
      mBuffer := mBuffer + buffer;
    }

    /** An integer of the given type in bitSize bits. An odd width that exceeds the type is an
        error and writes nothing; a width of whole octets that exceeds it would read past the value. */
    method SerializeInt(x: int, ty: IntType, bitSize: nat) returns (ok: bool)
      requires Valid() && ty.Valid() && FitsBits(x, ty.signed, ty.Width())
      requires 1 <= bitSize && (bitSize % 8 == 0 ==> bitSize <= ty.Width())
      modifies this
      ensures Valid() && ok == (bitSize <= ty.Width())
      ensures !ok ==> unchanged(this)
      ensures ok && old(Clean()) ==> Written() == old(Written()) + Enc(|old(Written())|, Int(ty, bitSize), IntValue(x))
      ensures ok && old(Clean()) && FitsBits(x, ty.signed, bitSize) ==> Clean()
      ensures bitSize % 8 == 0 ==> mUnalignedBits == 0
    {
      hide Enc, FitsBits, ToBits, Padding, Flatten, ZeroAbove, NoStrayBits;
      var data := ToBits(x, ty.Width());
      EncInt(|Written()|, ty, bitSize, x);
      if bitSize <= ty.Width() { ToBitsPrefix(x, bitSize, ty.Width()); }
      if bitSize % 8 == 0 {
        ghost var was := Written();
        assert 8 * (bitSize / 8) == bitSize;
        SerializeAligned(data, bitSize / 8);
        assert was + Padding(|was|) + data[..bitSize] == was + (Padding(|was|) + data[..bitSize]);
        ok := true;
      } else if ty.signed {
        ok := SerializeUnalignedSigned(data, bitSize);
      } else {
        if bitSize <= ty.Width() { UnsignedStray(x, bitSize, ty.Width(), mUnalignedBits); }
        ok := SerializeUnaligned(data, bitSize);
      }
    }

    method SerializeBool(b: bool)
      requires Valid()
      modifies this
      ensures Valid()
      ensures old(Clean()) ==> Clean() && Written() == old(Written()) + Enc(|old(Written())|, Bool, BoolValue(b))
    {
      hide ToBits;
      SerializeAligned(ToBits(if b then 1 else 0, 8), 1);
    }

    /** A floating-point value, as the octets it consists of. */
    method SerializeFloat(octets: seq<Octet>)
      requires Valid()
      modifies this
      ensures Valid()
      ensures old(Clean()) ==>
        Clean() && Written() == old(Written()) + Enc(|old(Written())|, Float(|octets|), BlobValue(octets))
    {
      Align();
      AppendBuffer(octets);
    }

    /** A string or a byte vector: its size, truncated to 32 bits, and its octets. */
    method SerializeBlob(octets: seq<Octet>)
      requires Valid()
      modifies this
      ensures Valid()
      ensures old(Clean()) ==> Clean() && Written() == old(Written()) + Enc(|old(Written())|, Blob, BlobValue(octets))
    {
      hide ToBits, Enc;
      ghost var k := |Written()|;
      EncBlob(k, octets);
      SerializeCount(|octets|);
      AppendBuffer(octets);
    }

    /** BeginArray, also used for lists: the element count, truncated to 32 bits. */
    method SerializeCount(n: nat)
      requires Valid()
      modifies this
      ensures Valid() && mUnalignedBits == 0
      ensures old(Clean()) ==> Clean() && Written() == old(Written()) + Padding(|old(Written())|) + ToBits(n, 32)
    {
      hide ToBits;
      SerializeAligned(ToBits(n, 32), 4);
      assert ToBits(n, 32)[..32] == ToBits(n, 32);
    }

    /** Aligns, hands the buffer over and starts afresh. */
    method ReleaseBuffer() returns (buffer: seq<Octet>)
      requires Valid()
      modifies this
      ensures Valid() && Clean() && Written() == []
      ensures old(Clean()) ==> Flatten(buffer) == old(Written()) + Padding(|old(Written())|)
    {
      Align();
      buffer := mBuffer;
      assert mUnalignedData[..0] == [];
      Reset();
    }
  }

  // ----- Why the accumulator is right -----

  /** Flushed octets followed by the rest of the accumulator are what was pending followed by the
      field, also when the field straddles the 64 bits and its tail is fetched again. */
  lemma AppendedBits(before: seq<Octet>, acc: Word, pending: nat, data: seq<bool>, bitSize: nat, after: seq<Octet>,
      acc': Word)
    requires pending < 8 && 1 <= bitSize <= |data| <= 64 && bitSize % 8 != 0 && ZeroAbove(acc, pending)
    requires var n := (pending + bitSize) / 8; var m := Merged(acc, pending, data);
      && Flatten(after) == Flatten(before) + m[..8 * n]
      && acc' == if n == 8 then Resize(Shr(data, 64 - pending), 64) else Shr(m, 8 * n)
    ensures Flatten(after) + acc'[..(pending + bitSize) % 8] == Flatten(before) + acc[..pending] + data[..bitSize]
  {
    hide Flatten;
    var n, r := (pending + bitSize) / 8, (pending + bitSize) % 8;
    var m := Merged(acc, pending, data);
    hide Merged, ZeroAbove;
    var whole := acc[..pending] + data[..bitSize];
    if n == 8 {
      StraddledBits(acc, pending, data, bitSize, acc');
    } else {
      ContainedBits(acc, pending, data, bitSize, acc');
    }
    assert m[..8 * n] + acc'[..r] == whole;
    assert Flatten(before) + m[..8 * n] + acc'[..r] == Flatten(before) + (m[..8 * n] + acc'[..r]);
    assert Flatten(before) + acc[..pending] + data[..bitSize] == Flatten(before) + whole;
  }

  lemma StraddledBits(acc: Word, pending: nat, data: seq<bool>, bitSize: nat, acc': Word)
    requires pending < 8 && 64 <= pending + bitSize && bitSize <= |data| <= 64 && ZeroAbove(acc, pending)
    requires acc' == Resize(Shr(data, 64 - pending), 64)
    ensures Merged(acc, pending, data)[..64] + acc'[..pending + bitSize - 64] == acc[..pending] + data[..bitSize]
  {
    MergedFront(acc, pending, data, bitSize);
    hide Merged, ZeroAbove;
    assert acc'[..pending + bitSize - 64] == data[64 - pending..bitSize];
    assert data[..bitSize] == data[..64 - pending] + data[64 - pending..bitSize];
  }

  lemma ContainedBits(acc: Word, pending: nat, data: seq<bool>, bitSize: nat, acc': Word)
    requires pending < 8 && pending + bitSize < 64 && bitSize <= |data| <= 64 && ZeroAbove(acc, pending)
    requires acc' == Shr(Merged(acc, pending, data), 8 * ((pending + bitSize) / 8))
    ensures var n, r := (pending + bitSize) / 8, (pending + bitSize) % 8;
      Merged(acc, pending, data)[..8 * n] + acc'[..r] == acc[..pending] + data[..bitSize]
  {
    MergedFront(acc, pending, data, bitSize);
    var n, r, m := (pending + bitSize) / 8, (pending + bitSize) % 8, Merged(acc, pending, data);
    hide Merged, ZeroAbove;
    assert acc'[..r] == m[8 * n..pending + bitSize];
    assert m[..pending + bitSize] == m[..8 * n] + m[8 * n..pending + bitSize];
  }

  /** Exactly the unmasked bits of the field can be left above the pending ones. */
  lemma AppendedStray(acc: Word, pending: nat, data: seq<bool>, bitSize: nat, acc': Word)
    requires pending < 8 && 1 <= bitSize <= |data| <= 64 && bitSize % 8 != 0 && ZeroAbove(acc, pending)
    requires var n := (pending + bitSize) / 8;
      acc' == if n == 8 then Resize(Shr(data, 64 - pending), 64) else Shr(Merged(acc, pending, data), 8 * n)
    ensures ZeroAbove(acc', (pending + bitSize) % 8) <==> NoStrayBits(data, bitSize, pending)
  {
    var n, r := (pending + bitSize) / 8, (pending + bitSize) % 8;
    var shift := 8 * n - pending; // accumulator bit i holds data bit i + shift
    forall i | r <= i < 64 ensures acc'[i] == (i + shift < |data| && (n == 8 || i + 8 * n < 64) && data[i + shift]) {
      StrayBit(acc, pending, data, bitSize, acc', i);
    }
    hide Merged, Shr, Resize;
    if ZeroAbove(acc', r) {
      forall i | bitSize <= i < |data| && (pending + bitSize >= 64 || pending + i < 64) ensures !data[i] {
        assert !acc'[i - shift];
      }
    }
  }

  lemma StrayBit(acc: Word, pending: nat, data: seq<bool>, bitSize: nat, acc': Word, i: nat)
    requires pending < 8 && 1 <= bitSize <= |data| <= 64 && bitSize % 8 != 0 && ZeroAbove(acc, pending)
    requires var n := (pending + bitSize) / 8;
      acc' == if n == 8 then Resize(Shr(data, 64 - pending), 64) else Shr(Merged(acc, pending, data), 8 * n)
    requires (pending + bitSize) % 8 <= i < 64
    ensures var n := (pending + bitSize) / 8; var j := i + 8 * n - pending;
      acc'[i] == (j < |data| && (n == 8 || i + 8 * n < 64) && data[j])
  {
  }

  lemma {:induction false} UnsignedStray(x: int, bitSize: nat, width: nat, pending: nat)
    requires bitSize <= width && FitsBits(x, false, width)
    ensures FitsBits(x, false, bitSize) ==> NoStrayBits(ToBits(x, width), bitSize, pending)
  {
    FitsIffHighBitsZero(x, bitSize, width);
    var b := ToBits(x, width);
    assert forall i :: bitSize <= i < width ==> b[i] == b[bitSize..][i - bitSize];
  }

  lemma {:induction false} EncInt(k: nat, ty: IntType, n: nat, x: int)
    ensures Enc(k, Int(ty, n), IntValue(x)) == if n % 8 == 0 then Padding(k) + ToBits(x, n) else ToBits(x, n)
  {
    assert [] + ToBits(x, n) == ToBits(x, n);
  }

  lemma {:induction false} EncBlob(k: nat, octets: seq<Octet>)
    ensures Enc(k, Blob, BlobValue(octets)) == Padding(k) + ToBits(|octets|, 32) + Flatten(octets)
  {
    hide Padding, ToBits, Flatten;
  }
}
