/** The SabSerDes deserializer: a read position in a buffer of octets, and a 64-bit accumulator
    that holds the bits of already consumed octets no field has claimed yet. */
module SabDeserializer {
  import opened Bits
  import opened Wrappers
  import opened WireFormat

  /** The accumulator holds exactly these bits, with zeros above. */
  ghost predicate Holds(acc: Word, pending: seq<bool>) {
    |pending| <= 64 && acc[..|pending|] == pending && forall i :: |pending| <= i < 64 ==> !acc[i]
  }

  /** pending |= read << |pending|, for octets that fit the accumulator. */
  lemma HoldsMerged(acc: Word, pending: seq<bool>, read: seq<bool>, acc': Word)
    requires Holds(acc, pending) && |read| <= 64 && |pending| + |read| <= 64
    requires |pending| <= 64 && acc' == Or(acc, Shl(Resize(read, 64), |pending|))
    ensures Holds(acc', pending + read)
  {
    var all := pending + read;
    forall i | 0 <= i < 64 ensures acc'[i] == (i < |all| && all[i]) {
      assert acc[i] == (i < |pending| && pending[i]) by {
        if i < |pending| { assert acc[i] == acc[..|pending|][i]; }
      }
    }
  }

  /** pending |= read << |pending|, when the last octet sticks out: its tail comes from a shift. */
  lemma HoldsSpilled(acc: Word, pending: seq<bool>, read: seq<bool>, acc': Word, rest: Word)
    requires Holds(acc, pending) && |pending| < 8 && |read| <= 64 && 64 < |pending| + |read|
    requires acc' == Or(acc, Shl(Resize(read, 64), |pending|))
    requires rest == Shr(Resize(read, 64), 64 - |pending|)
    ensures Holds(acc', (pending + read)[..64])
    ensures Holds(rest, (pending + read)[64..])
  {
    var all := pending + read;
    forall i | 0 <= i < 64 ensures acc'[i] == all[i] {
      assert acc[i] == (i < |pending| && pending[i]) by {
        if i < |pending| { assert acc[i] == acc[..|pending|][i]; }
      }
    }
    assert acc'[..64] == all[..64];
    forall i | 0 <= i < 64 ensures rest[i] == (i + 64 < |all| && all[i + 64]) {
    }
    assert rest[..|all| - 64] == all[64..];
  }

  lemma HoldsDropped(acc: Word, pending: seq<bool>, n: nat)
    requires Holds(acc, pending) && n <= |pending|
    ensures n <= 64 && Holds(Shr(acc, n), pending[n..])
  {
    var r := Shr(acc, n);
    forall i | 0 <= i < 64 ensures r[i] == (i + n < |pending| && pending[i + n]) {
      if i + n < |pending| { assert acc[i + n] == acc[..|pending|][i + n]; }
    }
    assert r[..|pending| - n] == pending[n..];
  }

  /** The field: the accumulator truncated to the type and masked to the field's width. */
  lemma HoldsField(acc: Word, pending: seq<bool>, n: nat, width: nat)
    requires Holds(acc, pending) && n <= |pending| && n <= width
    ensures n == width ==> Resize(acc, width) == pending[..n]
    ensures And(Resize(acc, width), Mask(n, width)) == pending[..n] + Zeros(width - n)
  {
    assert forall i :: 0 <= i < n ==> acc[i] == acc[..|pending|][i];
    assert n == width ==> Resize(acc, width) == pending[..n];
    assert And(Resize(acc, width), Mask(n, width)) == pending[..n] + Zeros(width - n);
  }

  class Deserializer {
    var mBuffer: seq<Octet>
    var mReadPos: nat
    var mUnalignedData: Word
    var mUnalignedBits: nat

    ghost function Bits(): (b: Stream)
      reads this
    {
      Flatten(mBuffer)
    }

    /** The read position is in the buffer; the accumulator holds the last, fewer than 8, bits
        before it and nothing else. */
    ghost predicate Valid()
      reads this
    {
      && mReadPos <= |mBuffer|
      && mUnalignedBits < 8
      && mUnalignedBits <= 8 * mReadPos
      && Holds(mUnalignedData, Bits()[8 * mReadPos - mUnalignedBits..8 * mReadPos])
    }

    /** The position of the next unread bit. */
    ghost function Position(): (p: nat)
      requires Valid()
      reads this
      ensures p <= |Bits()|
    {
      8 * mReadPos - mUnalignedBits
    }

    constructor (buffer: seq<Octet>)
      ensures Valid() && mBuffer == buffer && Position() == 0
    {
      mBuffer, mReadPos, mUnalignedData, mUnalignedBits := buffer, 0, Zeros(64), 0;
      new;
      assert Bits()[0..0] == [];
    }

    method Align()
      requires Valid()
      modifies this`mUnalignedData, this`mUnalignedBits
      ensures Valid() && mUnalignedBits == 0 && Position() == AlignUp(old(Position())) == 8 * mReadPos
    {
      mUnalignedData, mUnalignedBits := Zeros(64), 0;
      assert Bits()[8 * mReadPos..8 * mReadPos] == [];
    }

    predicate HasCapacity(requiredSize: nat)
      requires mReadPos <= |mBuffer|
      reads this
    {
      |mBuffer| - mReadPos >= requiredSize
    }

    /** The octets the accumulator still needs for bitSize bits. */
    static function MissingBytes(pending: nat, bitSize: nat): (n: nat)
      requires pending < bitSize
      ensures pending + 8 * n - 8 < bitSize <= pending + 8 * n
    {
      var missingBits := bitSize - pending;
      missingBits / 8 + if missingBits % 8 > 0 then 1 else 0
    }

    /** Fetches the octets a field still needs. When they do not fit the accumulator, the bits that
        stick out stay behind in readData. */
    method Refill(bitSize: nat) returns (readData: Word, readBits: nat)
      requires mUnalignedBits < 8 && mUnalignedBits < bitSize < 64
      requires mReadPos <= |mBuffer| && HasCapacity(MissingBytes(mUnalignedBits, bitSize))
      modifies this`mReadPos, this`mUnalignedData, this`mUnalignedBits
      ensures mReadPos == old(mReadPos) + MissingBytes(old(mUnalignedBits), bitSize) <= |mBuffer|
      ensures var read, total := Flatten(mBuffer[old(mReadPos)..mReadPos]),
        old(mUnalignedBits) + 8 * (mReadPos - old(mReadPos));
        && Refilled(old(mUnalignedData), old(mUnalignedBits), read, mUnalignedData)
        && if total > 64
           then mUnalignedBits == 64 && readBits == total - 64
             && readData == Shr(Resize(read, 64), 64 - old(mUnalignedBits))
           else mUnalignedBits == total && readBits == 0
    {
      hide Flatten, Or, Shl, Shr, Resize, MissingBytes;
      var readBytes := MissingBytes(mUnalignedBits, bitSize);
      readBits := 8 * readBytes;
      readData := Resize(Flatten(mBuffer[mReadPos..mReadPos + readBytes]), 64);
      mReadPos := mReadPos + readBytes;
      mUnalignedData := Or(mUnalignedData, Shl(readData, mUnalignedBits));
      if mUnalignedBits + readBits > 64 {
        readData := Shr(readData, 64 - mUnalignedBits);
        readBits := mUnalignedBits + readBits - 64;
        mUnalignedBits := 64;
      } else {
        mUnalignedBits := mUnalignedBits + readBits;
        readBits := 0;
      }
    }

    /** Shifts a field out of the accumulator and the bits that had stuck out in behind it. */
    method TakeField(width: nat, bitSize: nat, readData: Word, readBits: nat) returns (result: seq<bool>)
      requires bitSize <= mUnalignedBits <= 64 && bitSize < 64 && bitSize <= width
      modifies this`mUnalignedData, this`mUnalignedBits
      ensures Masked(old(mUnalignedData), bitSize, width, result)
      ensures mUnalignedBits == old(mUnalignedBits) - bitSize + readBits
      ensures mUnalignedData == if readBits == 0 then Shr(old(mUnalignedData), bitSize)
                                else Or(Shr(old(mUnalignedData), bitSize), Shl(readData, old(mUnalignedBits) - bitSize))
    {
      hide Or, Shl, Shr, And, Mask, Resize;
      ghost var refilled, bits := mUnalignedData, mUnalignedBits;
      result := Resize(mUnalignedData, width);
      if bitSize < width {
        result := And(result, Mask(bitSize, width));
      }
      assert Masked(refilled, bitSize, width, result);
      hide Masked;
      mUnalignedData := Shr(mUnalignedData, bitSize);
      mUnalignedBits := mUnalignedBits - bitSize;
      if readBits != 0 {
        mUnalignedData := Or(mUnalignedData, Shl(readData, mUnalignedBits));
        mUnalignedBits := mUnalignedBits + readBits;
        assert mUnalignedData == Or(Shr(refilled, bitSize), Shl(readData, bits - bitSize));
      }
    }

    /** The next bitSize bits, zero-extended to the width of an unsigned type; fails, changing
        nothing, when the type is too narrow or the buffer is exhausted. */
    method DeserializeUnaligned(width: nat, bitSize: nat) returns (r: Option<seq<bool>>)
      requires Valid() && width in {8, 16, 32, 64} && bitSize % 8 != 0
      modifies this`mReadPos, this`mUnalignedData, this`mUnalignedBits
      ensures Valid()
      ensures r.Some? <==> bitSize <= width && old(Position()) + bitSize <= |Bits()|
      ensures r.Some? ==> Position() == old(Position()) + bitSize
      ensures r.Some? ==> r.value == Bits()[old(Position())..old(Position()) + bitSize] + Zeros(width - bitSize)
      ensures r.None? ==> unchanged(this)
    {
      hide Holds, Flatten, Or, Shl, Shr, And, Mask, Resize, MissingBytes, Zeros, Refilled, Masked;
      if bitSize > width {
        return None;
      }
      assert bitSize < 64;
      ghost var start, acc, pending := mReadPos, mUnalignedData, mUnalignedBits;
      ghost var p, bits := Position(), Bits();
      var readData: Word, readBits := Zeros(64), 0;
      if mUnalignedBits < bitSize {
        if !HasCapacity(MissingBytes(mUnalignedBits, bitSize)) {
          assert p + bitSize > |bits|;
          return None;
        }
        readData, readBits := Refill(bitSize);
      } else {
        assert Refilled(acc, pending, Flatten(mBuffer[start..start]),
          mUnalignedData) by { NothingRead(mBuffer, start, acc, pending); }
      }
      ghost var refilled, q := mUnalignedData, mReadPos;
      var result := TakeField(width, bitSize, readData, readBits);
      assert Drained(pending, Flatten(mBuffer[start..q]), bitSize, refilled, mUnalignedData);
      hide Drained;
      FieldTaken(mBuffer, start, q, acc, pending, bitSize, width, refilled, mUnalignedData, result);
      assert Bits() == bits && 8 * mReadPos - mUnalignedBits == p + bitSize;
      return Some(result);
    }

    /** The same for signed types: shifted up, cast, and shifted down arithmetically. */
    method DeserializeUnalignedSigned(width: nat, bitSize: nat) returns (r: Option<seq<bool>>)
      requires Valid() && width in {8, 16, 32, 64} && bitSize % 8 != 0
      modifies this`mReadPos, this`mUnalignedData, this`mUnalignedBits
      ensures Valid()
      ensures r.Some? <==> bitSize <= width && old(Position()) + bitSize <= |Bits()|
      ensures r.Some? ==> Position() == old(Position()) + bitSize
      ensures r.Some? ==> r.value == SignExtended(Bits()[old(Position())..old(Position()) + bitSize], width)
      ensures r.None? ==> unchanged(this)
    {
      hide Holds, Flatten, Zeros, Sar, Shl;
      var udata := DeserializeUnaligned(width, bitSize);
      if udata.None? {
        return None;
      }
      ShiftedUpAndDown(Bits()[old(Position())..old(Position()) + bitSize], width);
      return Some(Sar(Shl(udata.value, width - bitSize), width - bitSize));
    }

    /** The next numBytes octets, copied to the top of an uninitialised variable and shifted down,
        arithmetically for signed types. */
    method DeserializeAligned(width: nat, signed: bool, numBytes: nat) returns (r: Option<seq<bool>>)
      requires Valid() && 1 <= numBytes && 8 * numBytes <= width
      modifies this`mReadPos, this`mUnalignedData, this`mUnalignedBits
      ensures Valid()
      ensures var a := AlignUp(old(Position()));
        && (r.Some? <==> a + 8 * numBytes <= |Bits()|)
        && Position() == a + (if r.Some? then 8 * numBytes else 0)
        && (r.Some? ==> mUnalignedBits == 0 && r.value == Extended(Bits()[a..a + 8 * numBytes], signed, width))
    {
      hide Flatten, Sar, Shr, Extended, Padding, Resize, Holds;
      Align();
      assert Bits()[8 * mReadPos..8 * mReadPos] == [];
      if !HasCapacity(numBytes) {
        return None;
      }
      var result := CopyAligned(Flatten(mBuffer[mReadPos..mReadPos + numBytes]), signed, width);
      FlattenSlice(mBuffer, mReadPos, mReadPos + numBytes);
      mReadPos := mReadPos + numBytes;
      assert Bits()[8 * mReadPos..8 * mReadPos] == [];
      return Some(result);
    }

    /** The octets go to the top of a variable that was never initialised, which is then shifted. */
    static method CopyAligned(copied: seq<bool>, signed: bool, width: nat) returns (result: seq<bool>)
      requires 0 < |copied| <= width
      ensures result == Extended(copied, signed, width)
    {
      hide Sar, Shr, Extended, Resize;
      var uninitialised: seq<bool> := *;
      result := Resize(uninitialised, width);
      result := result[..width - |copied|] + copied;
      result := if signed then Sar(result, width - |copied|) else Shr(result, width - |copied|);
      ShiftedDown(uninitialised, copied, signed, width);
    }

    method DeserializeInt(ty: IntType, bitSize: nat) returns (r: Option<int>)
      requires Valid() && ty.Valid() && 1 <= bitSize && (bitSize % 8 == 0 ==> bitSize <= ty.Width())
      modifies this`mReadPos, this`mUnalignedData, this`mUnalignedBits
      ensures Valid()
      ensures bitSize > ty.Width() ==> r.None?
      ensures bitSize <= ty.Width() ==> match Dec(Bits(), old(Position()), Int(ty, bitSize))
        case None => r.None?
        case Some((v, q)) => r.Some? && v == IntValue(r.value) && Position() == q
    {
      hide Pow2, FromBits, SignedFromBits, Padding, Flatten, Holds, Dec, ReadInt, SignExtended;
      ghost var p := Position();
      DecInt(Bits(), p, ty, bitSize);
      var data: Option<seq<bool>>;
      if bitSize % 8 == 0 {
        assert 8 * (bitSize / 8) == bitSize;
        data := DeserializeAligned(ty.Width(), ty.signed, bitSize / 8);
      } else if ty.signed {
        data := DeserializeUnalignedSigned(ty.Width(), bitSize);
      } else {
        data := DeserializeUnaligned(ty.Width(), bitSize);
      }
      if data.None? {
        return None;
      }
      ghost var a := if bitSize % 8 == 0 then AlignUp(p) else p;
      ExtensionKeepsValue(Bits()[a..a + bitSize], ty.signed, ty.Width());
      return Some(if ty.signed then SignedFromBits(data.value) else FromBits(data.value));
    }

    /** An octet read as a bool: any non-zero value is true. */
    method DeserializeBool() returns (r: Option<bool>)
      requires Valid()
      modifies this`mReadPos, this`mUnalignedData, this`mUnalignedBits
      ensures Valid()
      ensures match Dec(Bits(), old(Position()), Bool)
        case None => r.None?
        case Some((v, q)) => r.Some? && v == BoolValue(r.value) && Position() == q
      ensures r.Some? ==> mUnalignedBits == 0
    {
      hide FromBits, Padding, Flatten, Holds;
      var data := DeserializeAligned(8, false, 1);
      if data.None? {
        return None;
      }
      ghost var a := AlignUp(old(Position()));
      assert Extended(Bits()[a..a + 8], false, 8) == Bits()[a..a + 8];
      return Some(FromBits(data.value) != 0);
    }

    /** The next n octets as they are. */
    method DeserializeOctets(n: nat) returns (r: Option<seq<Octet>>)
      requires Valid() && mUnalignedBits == 0
      modifies this`mReadPos
      ensures Valid() && r == TakeOctets(Bits(), old(Position()), n)
      ensures r.Some? ==> Position() == old(Position()) + 8 * n
      ensures r.None? ==> unchanged(this)
    {
      if !HasCapacity(n) {
        return None;
      }
      r := Some(mBuffer[mReadPos..mReadPos + n]);
      FlattenSlice(mBuffer, mReadPos, mReadPos + n);
      FlattenInjective(r.value, TakeOctets(Bits(), Position(), n).value);
      mReadPos := mReadPos + n;
      assert Bits()[8 * mReadPos..8 * mReadPos] == [];
    }

    method DeserializeFloat(bytes: nat) returns (r: Option<seq<Octet>>)
      requires Valid()
      modifies this`mReadPos, this`mUnalignedData, this`mUnalignedBits
      ensures Valid()
      ensures match Dec(Bits(), old(Position()), Float(bytes))
        case None => r.None?
        case Some((v, q)) => r.Some? && v == BlobValue(r.value) && Position() == q
    {
      hide TakeOctets, Padding, Flatten, Holds;
      Align();
      r := DeserializeOctets(bytes);
    }

    /** BeginArray, and the size in front of strings and byte vectors. */
    method DeserializeCount() returns (r: Option<nat>)
      requires Valid()
      modifies this`mReadPos, this`mUnalignedData, this`mUnalignedBits
      ensures Valid()
      ensures match Take(Bits(), AlignUp(old(Position())), 32)
        case None => r.None?
        case Some(c) => r == Some(FromBits(c)) && Position() == AlignUp(old(Position())) + 32 && mUnalignedBits == 0
    {
      hide FromBits, Padding, Flatten, Holds;
      var data := DeserializeAligned(32, false, 4);
      if data.None? {
        return None;
      }
      ghost var a := AlignUp(old(Position()));
      assert Extended(Bits()[a..a + 32], false, 32) == Bits()[a..a + 32];
      return Some(FromBits(data.value));
    }

    /** A string or a byte vector. */
    method DeserializeBlob() returns (r: Option<seq<Octet>>)
      requires Valid()
      modifies this`mReadPos, this`mUnalignedData, this`mUnalignedBits
      ensures Valid()
      ensures match Dec(Bits(), old(Position()), Blob)
        case None => r.None?
        case Some((v, q)) => r.Some? && v == BlobValue(r.value) && Position() == q
    {
      hide TakeOctets, FromBits, Padding, Flatten, Holds;
      var size := DeserializeCount();
      if size.None? {
        return None;
      }
      r := DeserializeOctets(size.value);
    }

    /** The octets behind the read position. */
    method GetRemainingBuffer() returns (rest: seq<Octet>)
      requires Valid()
      ensures Flatten(rest) == Bits()[8 * mReadPos..] && rest == mBuffer[mReadPos..]
    {
      rest := mBuffer[mReadPos..];
      FlattenSlice(mBuffer, mReadPos, |mBuffer|);
      assert mBuffer[mReadPos..|mBuffer|] == mBuffer[mReadPos..];
    }
  }

  lemma DecInt(bits: Stream, p: nat, ty: IntType, n: nat)
    requires p <= |bits|
    ensures var a := if n % 8 == 0 then AlignUp(p) else p;
      Dec(bits, p, Int(ty, n)) == if a + n <= |bits| then Some((IntValue(ReadInt(bits[a..a + n], ty.signed)), a + n))
        else None
  {
    hide ReadInt, Padding;
  }

  // ----- Extension to the width of a type -----

  function SignExtended(b: seq<bool>, width: nat): (r: seq<bool>)
    requires 0 < |b| <= width
    ensures |r| == width
  {
    b + seq(width - |b|, _ => b[|b| - 1])
  }

  function Extended(b: seq<bool>, signed: bool, width: nat): (r: seq<bool>)
    requires 0 < |b| <= width
    ensures |r| == width
  {
    if signed then SignExtended(b, width) else b + Zeros(width - |b|)
  }

  /** The unaligned route. */
  lemma ShiftedUpAndDown(field: seq<bool>, width: nat)
    requires 0 < |field| <= width
    ensures var up := width - |field|;
      Sar(Shl(field + Zeros(up), up), up) == SignExtended(field, width)
  {
  }

  /** The aligned route, whatever the variable held before. */
  lemma ShiftedDown(uninitialised: seq<bool>, copied: seq<bool>, signed: bool, width: nat)
    requires 0 < |copied| <= width
    ensures var down := width - |copied|; var top := Resize(uninitialised, width)[..down] + copied;
      (if signed then Sar(top, down) else Shr(top, down)) == Extended(copied, signed, width)
  {
    var down := width - |copied|;
    var top := Resize(uninitialised, width)[..down] + copied;
    assert top[down..] == copied;
  }

  /** Both routes of reading an integer yield the value its bits have at their own width: the
      two's-complement value for signed types, the binary value for unsigned ones. */
  lemma {:induction false} ExtensionKeepsValue(b: seq<bool>, signed: bool, width: nat)
    requires 0 < |b| <= width
    ensures (if signed then SignedFromBits(Extended(b, signed, width))
      else FromBits(Extended(b, signed, width))) == ReadInt(b, signed)
  {
    if signed {
      SignExtension(b, width - |b|);
    } else {
      FromBitsSplit(b, Zeros(width - |b|));
      FromBitsZeros(width - |b|);
    }
  }

  /** The spilled tail joins the bits left after the field was taken. */
  lemma HoldsTail(acc: Word, pending: seq<bool>, readData: Word, tail: seq<bool>, acc': Word)
    requires Holds(acc, pending) && Holds(readData, tail) && |pending| + |tail| <= 64
    requires acc' == Or(acc, Shl(readData, |pending|))
    ensures Holds(acc', pending + tail)
  {
    var all := pending + tail;
    forall i | 0 <= i < 64 ensures acc'[i] == (i < |all| && all[i]) {
      assert acc[i] == (i < |pending| && pending[i]) by {
        if i < |pending| { assert acc[i] == acc[..|pending|][i]; }
      }
      if 0 <= i - |pending| < |tail| { assert readData[i - |pending|] == readData[..|tail|][i - |pending|]; }
    }
    assert acc'[..|all|] == all;
  }

  /** The accumulator after octets were or-ed in behind the pending bits. */
  ghost predicate Refilled(acc: Word, pending: nat, read: seq<bool>, refilled: Word)
    requires pending <= 64
  {
    refilled == if read == [] then acc else Or(acc, Shl(Resize(read, 64), pending))
  }

  lemma NothingRead(buffer: seq<Octet>, start: nat, acc: Word, pending: nat)
    requires start <= |buffer| && pending <= 64
    ensures Refilled(acc, pending, Flatten(buffer[start..start]), acc)
  {
  }

  /** The accumulator after a field was shifted out and what had spilled was or-ed in. */
  ghost predicate Drained(pending: nat, read: seq<bool>, bitSize: nat, refilled: Word, acc': Word)
    requires pending < 8 && bitSize < 64
  {
    acc' == if pending + |read| > 64
            then Or(Shr(refilled, bitSize), Shl(Shr(Resize(read, 64), 64 - pending), 64 - bitSize))
            else Shr(refilled, bitSize)
  }

  ghost predicate Masked(refilled: Word, bitSize: nat, width: nat, result: seq<bool>)
    requires bitSize <= width
  {
    result == if bitSize < width then And(Resize(refilled, width), Mask(bitSize, width)) else Resize(refilled, width)
  }

  lemma FieldSpilled(acc: Word, pending: seq<bool>, read: seq<bool>, bitSize: nat, refilled: Word, acc': Word)
    requires Holds(acc, pending) && |pending| < 8 && |read| <= 64 && bitSize < 64 < |pending| + |read| < bitSize + 8
    requires Refilled(acc, |pending|, read, refilled) && Drained(|pending|, read, bitSize, refilled, acc')
    ensures Holds(refilled, (pending + read)[..64]) && Holds(acc', (pending + read)[bitSize..])
  {
    hide Holds, Or, Shl, Shr, Resize;
    var all := pending + read;
    var rest := Shr(Resize(read, 64), 64 - |pending|);
    HoldsSpilled(acc, pending, read, refilled, rest);
    HoldsDropped(refilled, all[..64], bitSize);
    HoldsTail(Shr(refilled, bitSize), all[..64][bitSize..], rest, all[64..], acc');
    assert all[..64][bitSize..] + all[64..] == all[bitSize..];
  }

  lemma FieldRefilled(acc: Word, pending: seq<bool>, read: seq<bool>, bitSize: nat, refilled: Word, acc': Word)
    requires Holds(acc, pending) && |pending| < 8 && bitSize < 64 && bitSize <= |pending| + |read| <= 64
    requires Refilled(acc, |pending|, read, refilled) && Drained(|pending|, read, bitSize, refilled, acc')
    ensures Holds(refilled, pending + read) && Holds(acc', (pending + read)[bitSize..])
  {
    hide Holds, Or, Shl, Shr, Resize;
    if read == [] { assert pending + read == pending; } else { HoldsMerged(acc, pending, read, refilled); }
    HoldsDropped(refilled, pending + read, bitSize);
  }

  lemma FieldMasked(refilled: Word, held: seq<bool>, bitSize: nat, width: nat, result: seq<bool>)
    requires Holds(refilled, held) && bitSize <= |held| && bitSize <= width && Masked(refilled, bitSize, width, result)
    ensures result == held[..bitSize] + Zeros(width - bitSize)
  {
    HoldsField(refilled, held, bitSize, width);
    assert held[..bitSize] + Zeros(0) == held[..bitSize];
  }

  /** One unaligned read, from the octets at start to the read position q: the field returned and
      the accumulator left behind are the right slices of the buffer. */
  lemma FieldTaken(buffer: seq<Octet>, start: nat, q: nat, acc: Word, pending: nat, bitSize: nat, width: nat,
      refilled: Word, acc': Word, result: seq<bool>)
    requires start <= q <= |buffer| && q - start <= 8 && pending < 8 && pending <= 8 * start && bitSize < 64
      && bitSize <= width
    requires bitSize <= pending + 8 * (q - start) < bitSize + 8
    requires Holds(acc, Flatten(buffer)[8 * start - pending..8 * start])
    requires var read := Flatten(buffer[start..q]);
      && Refilled(acc, pending, read, refilled)
      && Drained(pending, read, bitSize, refilled, acc')
      && Masked(refilled, bitSize, width, result)
    ensures var p, bits := 8 * start - pending, Flatten(buffer);
      && Holds(acc', bits[p + bitSize..8 * q])
      && result == bits[p..p + bitSize] + Zeros(width - bitSize)
  {
    hide Holds, Refilled, Drained, Masked, Flatten;
    var p, bits := 8 * start - pending, Flatten(buffer);
    var front, read := bits[p..8 * start], Flatten(buffer[start..q]);
    FlattenSlice(buffer, start, q);
    var all := bits[p..8 * q];
    assert front + read == all && all[bitSize..] == bits[p + bitSize..8 * q] && all[..bitSize] == bits[p..p + bitSize];
    if pending + |read| > 64 {
      FieldSpilled(acc, front, read, bitSize, refilled, acc');
      FieldMasked(refilled, all[..64], bitSize, width, result);
      assert all[..64][..bitSize] == all[..bitSize];
    } else {
      FieldRefilled(acc, front, read, bitSize, refilled, acc');
      FieldMasked(refilled, all, bitSize, width, result);
    }
  }
}
