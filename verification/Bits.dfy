/** Bit strings, least significant bit first: the machine words and octets the
    serializer and the deserializer compute with, and the integers they stand for. */
module Bits {

  /** A uint8_t. */
  type Octet = b: seq<bool> | |b| == 8 witness [false, false, false, false, false, false, false, false]

  /** A uint64_t. */
  type Word = w: seq<bool> | |w| == 64 witness seq(64, _ => false)

  function Zeros(n: nat): (z: seq<bool>)
    ensures |z| == n && forall i :: 0 <= i < n ==> !z[i]
  {
    seq(n, _ => false)
  }

  // ----- Machine operations on words of any width -----

  /** Shift towards the most significant bit, dropping what leaves the word. */
  function Shl(w: seq<bool>, n: nat): (r: seq<bool>)
    requires n <= |w|
    ensures |r| == |w|
    ensures forall i :: 0 <= i < |w| ==> r[i] == (i >= n && w[i - n])
  {
    Zeros(n) + w[..|w| - n]
  }

  /** Logical shift towards the least significant bit. */
  function Shr(w: seq<bool>, n: nat): (r: seq<bool>)
    requires n <= |w|
    ensures |r| == |w|
    ensures forall i :: 0 <= i < |w| ==> r[i] == (i + n < |w| && w[i + n])
  {
    w[n..] + Zeros(n)
  }

  /** Arithmetic shift towards the least significant bit: the sign bit is replicated. */
  function Sar(w: seq<bool>, n: nat): (r: seq<bool>)
    requires n <= |w| && 0 < |w|
    ensures |r| == |w|
    ensures forall i :: 0 <= i < |w| ==> r[i] == if i + n < |w| then w[i + n] else w[|w| - 1]
  {
    w[n..] + seq(n, _ => w[|w| - 1])
  }

  function Or(a: seq<bool>, b: seq<bool>): (r: seq<bool>)
    requires |a| == |b|
    ensures |r| == |a|
    ensures forall i :: 0 <= i < |a| ==> r[i] == (a[i] || b[i])
  {
    seq(|a|, i requires 0 <= i < |a| => a[i] || b[i])
  }

  function And(a: seq<bool>, b: seq<bool>): (r: seq<bool>)
    requires |a| == |b|
    ensures |r| == |a|
    ensures forall i :: 0 <= i < |a| ==> r[i] == (a[i] && b[i])
  {
    seq(|a|, i requires 0 <= i < |a| => a[i] && b[i])
  }

  /** (1 << n) - 1 in a word of the given width. */
  function Mask(n: nat, width: nat): (r: seq<bool>)
    requires n <= width
    ensures |r| == width
    ensures forall i :: 0 <= i < width ==> r[i] == (i < n)
  {
    seq(width, i requires 0 <= i < width => i < n)
  }

  /** Conversion between unsigned types: zero-extends or truncates. */
  function Resize(w: seq<bool>, width: nat): (r: seq<bool>)
    ensures |r| == width
    ensures forall i :: 0 <= i < width ==> r[i] == (i < |w| && w[i])
  {
    if |w| <= width then w + Zeros(width - |w|) else w[..width]
  }

  // ----- Octets in memory order (little-endian host) -----

  /** The bits of a run of octets. */
  function Flatten(bs: seq<Octet>): (r: seq<bool>)
    ensures |r| == 8 * |bs|
    ensures forall i :: 0 <= i < |r| ==> r[i] == bs[i / 8][i % 8]
  {
    seq(8 * |bs|, i requires 0 <= i < 8 * |bs| => bs[i / 8][i % 8])
  }

  /** The octets that hold a bit string of whole octets. */
  function Octets(b: seq<bool>): (r: seq<Octet>)
    requires |b| % 8 == 0
    ensures |r| == |b| / 8
    ensures Flatten(r) == b
  {
    var r: seq<Octet> := seq(|b| / 8, i requires 0 <= i < |b| / 8 => b[8 * i..8 * i + 8]);
    assert Flatten(r) == b;
    r
  }

  lemma FlattenConcat(a: seq<Octet>, b: seq<Octet>)
    ensures Flatten(a + b) == Flatten(a) + Flatten(b)
  {
    assert forall i :: 8 * |a| <= i < 8 * |a| + 8 * |b| ==>
      i / 8 - |a| == (i - 8 * |a|) / 8 && i % 8 == (i - 8 * |a|) % 8;
  }

  lemma FlattenSlice(bs: seq<Octet>, lo: nat, hi: nat)
    requires lo <= hi <= |bs|
    ensures Flatten(bs[lo..hi]) == Flatten(bs)[8 * lo..8 * hi]
  {
    assert bs == bs[..lo] + bs[lo..hi] + bs[hi..];
    FlattenConcat(bs[..lo], bs[lo..hi]);
    FlattenConcat(bs[..lo] + bs[lo..hi], bs[hi..]);
  }

  lemma FlattenInjective(a: seq<Octet>, b: seq<Octet>)
    requires Flatten(a) == Flatten(b)
    ensures a == b
  {
    assert |a| == |b|;
    forall i | 0 <= i < |a| ensures a[i] == b[i] {
      assert Flatten([a[i]]) == Flatten([b[i]]) by {
        FlattenSlice(a, i, i + 1);
        FlattenSlice(b, i, i + 1);
        assert a[i..i + 1] == [a[i]] && b[i..i + 1] == [b[i]];
      }
      assert forall j :: 0 <= j < 8 ==> Flatten([a[i]])[j] == a[i][j] && Flatten([b[i]])[j] == b[i][j];
    }
  }

  // ----- Integers -----

  function Pow2(n: nat): (p: int)
    ensures p >= 1
  {
    if n == 0 then 1 else 2 * Pow2(n - 1)
  }

  lemma {:induction false} Pow2Monotone(m: nat, n: nat)
    requires m <= n
    ensures Pow2(m) <= Pow2(n)
    decreases n
  {
    if m < n { Pow2Monotone(m, n - 1); }
  }

  lemma {:induction false} Pow2Split(m: nat, n: nat)
    ensures Pow2(m + n) == Pow2(m) * Pow2(n)
  {
    if m > 0 {
      Pow2Split(m - 1, n);
      assert Pow2(m + n) == 2 * Pow2(m - 1 + n);
    }
  }

  /** The width low bits of the integer's two's-complement representation. */
  function ToBits(x: int, width: nat): (b: seq<bool>)
    ensures |b| == width
    decreases width
  {
    if width == 0 then [] else [x % 2 == 1] + ToBits(x / 2, width - 1)
  }

  function FromBits(b: seq<bool>): (n: nat)
    ensures n < Pow2(|b|)
  {
    if b == [] then 0 else (if b[0] then 1 else 0) + 2 * FromBits(b[1..])
  }

  /** Two's-complement reading: the last bit is the sign. */
  function SignedFromBits(b: seq<bool>): (x: int)
    requires b != []
  {
    if b[|b| - 1] then FromBits(b) - Pow2(|b|) else FromBits(b)
  }

  lemma {:induction false} SignedFromBitsRange(b: seq<bool>)
    requires b != []
    ensures -Pow2(|b| - 1) <= SignedFromBits(b) < Pow2(|b| - 1)
    ensures b[|b| - 1] <==> SignedFromBits(b) < 0
  {
    var init, last := b[..|b| - 1], b[|b| - 1..];
    assert b == init + last;
    FromBitsSplit(init, last);
    assert FromBits(last) == if b[|b| - 1] then 1 else 0;
    assert Pow2(|b|) == 2 * Pow2(|b| - 1);
  }

  lemma Doubled(x: int, y: int)
    ensures (2 * x) * y == 2 * (x * y)
  {
  }

  lemma {:induction false} FromBitsSplit(a: seq<bool>, b: seq<bool>)
    ensures FromBits(a + b) == FromBits(a) + Pow2(|a|) * FromBits(b)
  {
    if a == [] {
      assert a + b == b;
    } else {
      FromBitsSplit(a[1..], b);
      assert (a + b)[1..] == a[1..] + b;
      Doubled(Pow2(|a| - 1), FromBits(b));
    }
  }

  lemma {:induction false} FromBitsZeros(n: nat)
    ensures FromBits(Zeros(n)) == 0
  {
    if n > 0 {
      assert Zeros(n)[1..] == Zeros(n - 1);
      FromBitsZeros(n - 1);
    }
  }

  /** ToBits and FromBits are inverse on integers that fit the width... */
  lemma {:induction false} FromToBits(x: nat, width: nat)
    requires x < Pow2(width)
    ensures FromBits(ToBits(x, width)) == x
  {
    if width > 0 {
      FromToBits(x / 2, width - 1);
      assert ToBits(x, width)[1..] == ToBits(x / 2, width - 1);
    }
  }

  /** ...and on all bit strings. */
  lemma {:induction false} ToFromBits(b: seq<bool>)
    ensures ToBits(FromBits(b), |b|) == b
  {
    if b != [] {
      ToFromBits(b[1..]);
      assert FromBits(b) / 2 == FromBits(b[1..]);
    }
  }

  lemma {:induction false} ToBitsShift(x: int, k: int, width: nat)
    ensures ToBits(x + k * Pow2(width), width) == ToBits(x, width)
    decreases width
  {
    if width > 0 {
      var y := x + k * Pow2(width);
      assert k * Pow2(width) == 2 * (k * Pow2(width - 1));
      assert y / 2 == x / 2 + k * Pow2(width - 1) && y % 2 == x % 2;
      ToBitsShift(x / 2, k, width - 1);
    }
  }

  /** Signed integers in range survive the two's-complement representation. */
  lemma {:induction false} SignedFromToBits(x: int, width: nat)
    requires 0 < width && -Pow2(width - 1) <= x < Pow2(width - 1)
    ensures SignedFromBits(ToBits(x, width)) == x
  {
    var b := ToBits(x, width);
    var k := if x < 0 then 1 else 0;
    ToBitsShift(x, k, width);
    assert Pow2(width) == 2 * Pow2(width - 1);
    FromToBits(x + k * Pow2(width), width);
    assert FromBits(b) == x + k * Pow2(width);
    SignedFromBitsRange(b);
  }

  lemma {:induction false} ToSignedFromBits(b: seq<bool>)
    requires b != []
    ensures ToBits(SignedFromBits(b), |b|) == b
  {
    ToFromBits(b);
    var x := SignedFromBits(b);
    if b[|b| - 1] {
      ToBitsShift(x, 1, |b|);
      assert x + 1 * Pow2(|b|) == FromBits(b);
    }
  }

  /** The low k bits of a representation are the k-bit representation. */
  lemma {:induction false} ToBitsPrefix(x: int, k: nat, width: nat)
    requires k <= width
    ensures ToBits(x, width)[..k] == ToBits(x, k)
    decreases width
  {
    if k > 0 {
      ToBitsPrefix(x / 2, k - 1, width - 1);
      assert ToBits(x, width)[..k] == [x % 2 == 1] + ToBits(x / 2, width - 1)[..k - 1];
    }
  }

  lemma AtLeastFactor(x: int, y: int)
    requires 0 <= x && 0 < y
    ensures x <= x * y
  {
  }

  /** An unsigned value fits k bits exactly when its representation is zero above them. */
  lemma {:induction false} FitsIffHighBitsZero(x: nat, k: nat, width: nat)
    requires k <= width && x < Pow2(width)
    ensures x < Pow2(k) <==> ToBits(x, width)[k..] == Zeros(width - k)
  {
    var b := ToBits(x, width);
    assert b == b[..k] + b[k..];
    FromToBits(x, width);
    FromBitsSplit(b[..k], b[k..]);
    if b[k..] == Zeros(width - k) {
      FromBitsZeros(width - k);
    } else {
      ToFromBits(b[k..]);
      FromBitsZeros(width - k);
      ToFromBits(Zeros(width - k));
      AtLeastFactor(Pow2(k), FromBits(b[k..]));
    }
  }

  /** Replicating the sign bit does not change the two's-complement value. */
  lemma {:induction false} SignExtension(b: seq<bool>, k: nat)
    requires b != []
    ensures SignedFromBits(b + seq(k, _ => b[|b| - 1])) == SignedFromBits(b)
  {
    var s := b[|b| - 1];
    if k == 0 {
      assert b + seq(k, _ => s) == b;
    } else {
      var c := b + seq(k - 1, _ => s);
      SignExtension(b, k - 1);
      assert b + seq(k, _ => s) == c + [s];
      FromBitsSplit(c, [s]);
      assert FromBits([s]) == if s then 1 else 0;
      assert c[|c| - 1] == s;
      assert Pow2(|c| + 1) == 2 * Pow2(|c|);
      assert |c + [s]| == |c| + 1;
    }
  }
}
