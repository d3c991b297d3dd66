/**
 * Bit strings, most significant bit first, and their relation to unsigned integers and bytes.
 * The shift and mask operators of the source are functions on natural numbers: nothing wraps
 * around here, a fixed width is applied where the source has one by keeping the low bits.
 */
module Bits {
  import opened Common

  type bit = b: int | 0 <= b < 2

  /** v << n, without a width. */
  function Shl(v: nat, n: nat): (r: nat)
    ensures v >= 1 ==> r >= 1
  {
    if n == 0 then v else 2 * Shl(v, n - 1)
  }

  /** v >> n. */
  function Shr(v: nat, n: nat): nat {
    if n == 0 then v else Shr(v / 2, n - 1)
  }

  /** v & ((1 << n) - 1). */
  function Low(v: nat, n: nat): nat {
    if n == 0 then 0 else 2 * Low(v / 2, n - 1) + v % 2
  }

  /** The number a bit string stands for. */
  function Value(w: seq<bit>): nat {
    if w == [] then 0 else 2 * Value(w[..|w| - 1]) + w[|w| - 1]
  }

  /** The low n bits of v. */
  function BitsOf(v: nat, n: nat): (w: seq<bit>)
    ensures |w| == n
  {
    if n == 0 then [] else BitsOf(v / 2, n - 1) + [v % 2]
  }

  /** The bit string of a byte string, eight bits a byte. */
  function Unpack(d: seq<byte>): (w: seq<bit>)
    ensures |w| == 8 * |d|
  {
    if d == [] then [] else BitsOf(d[0], 8) + Unpack(d[1..])
  }

  /** The byte string of a bit string made of whole bytes. */
  function Pack(w: seq<bit>): (d: seq<byte>)
    requires |w| % 8 == 0
    ensures |d| == |w| / 8
  {
    if w == [] then [] else
    ValueBound(w[..8]);
    assert Shl(1, 8) == 256;
    [Value(w[..8])] + Pack(w[8..])
  }

  function Ones(n: nat): (w: seq<bit>)
    ensures |w| == n
  {
    seq(n, _ => 1)
  }

  /** Shr and Low are quotient and remainder: they split a number at bit n, and only one way. */
  lemma {:induction false} ShiftSplit(v: nat, n: nat)
    ensures v == Shl(Shr(v, n), n) + Low(v, n)
    ensures Low(v, n) < Shl(1, n)
  {
    if n > 0 {
      ShiftSplit(v / 2, n - 1);
    }
  }

  lemma {:induction false} ShiftJoin(a: nat, x: nat, n: nat)
    requires x < Shl(1, n)
    ensures Shr(Shl(a, n) + x, n) == a && Low(Shl(a, n) + x, n) == x
  {
    if n > 0 {
      ShiftJoin(a, x / 2, n - 1);
      assert (Shl(a, n) + x) / 2 == Shl(a, n - 1) + x / 2;
    }
  }

  lemma {:induction false} ValueBound(w: seq<bit>)
    ensures Value(w) < Shl(1, |w|)
  {
    if w != [] { ValueBound(w[..|w| - 1]); }
  }

  lemma {:induction false} BitsOfValue(w: seq<bit>)
    ensures BitsOf(Value(w), |w|) == w
  {
    if w != [] {
      BitsOfValue(w[..|w| - 1]);
      assert w == w[..|w| - 1] + [w[|w| - 1]];
    }
  }

  lemma {:induction false} ValueOfBits(v: nat, n: nat)
    ensures Value(BitsOf(v, n)) == Low(v, n)
  {
    if n > 0 {
      ValueOfBits(v / 2, n - 1);
      assert BitsOf(v, n)[..n - 1] == BitsOf(v / 2, n - 1);
    }
  }

  lemma {:induction false} LowSmall(v: nat, n: nat)
    requires v < Shl(1, n)
    ensures Low(v, n) == v && Shr(v, n) == 0
  {
    if n > 0 { LowSmall(v / 2, n - 1); }
  }

  /** A bit string of a number splits where one likes. */
  lemma {:induction false} BitsSplit(v: nat, m: nat, n: nat)
    ensures BitsOf(v, m + n) == BitsOf(Shr(v, n), m) + BitsOf(v, n)
  {
    if n == 0 {
    } else {
      BitsSplit(v / 2, m, n - 1);
      assert m + n - 1 == m + (n - 1);
      var high := BitsOf(Shr(v, n), m);
      assert BitsOf(v, m + n) == high + BitsOf(v / 2, n - 1) + [v % 2];
    }
  }

  lemma OneBit(v: nat)
    ensures BitsOf(v, 1) == [v % 2] && Shr(v, 1) == v / 2
  {
  }

  /** The first of k bits, and what shifting it into an accumulator leaves. */
  lemma HeadBit(v: nat, k: nat)
    requires k > 0
    ensures BitsOf(v, k)[0] == Shr(v, k - 1) % 2 && BitsOf(v, k)[1..] == BitsOf(v, k - 1)
    ensures 2 * Shr(v, k) + BitsOf(v, k)[0] == Shr(v, k - 1)
  {
    BitsSplit(v, 1, k - 1);
    OneBit(Shr(v, k - 1));
    ShrStep(v, k - 1);
  }

  lemma {:induction false} ShrStep(v: nat, n: nat)
    ensures Shr(v, n + 1) == Shr(v, n) / 2
  {
    if n > 0 { ShrStep(v / 2, n - 1); }
  }

  /** Only the low bits matter to a bit string. */
  lemma {:induction false} BitsOfLow(v: nat, n: nat, m: nat)
    requires n <= m
    ensures BitsOf(Low(v, m), n) == BitsOf(v, n)
  {
    if n > 0 {
      BitsOfLow(v / 2, n - 1, m - 1);
      assert Low(v, m) / 2 == Low(v / 2, m - 1);
    }
  }

  lemma {:induction false} ShrShr(v: nat, m: nat, n: nat)
    ensures Shr(Shr(v, m), n) == Shr(v, m + n)
  {
    if m > 0 {
      ShrShr(v / 2, m - 1, n);
      assert m + n - 1 == (m - 1) + n;
    }
  }

  /** Dropping the bits above a width after a shift is dropping them before. */
  lemma {:induction false} LowShl(v: nat, n: nat, width: nat)
    requires n <= width
    ensures Low(Shl(v, n), width) == Shl(Low(v, width - n), n)
  {
    if n > 0 {
      LowShl(v, n - 1, width - 1);
      assert Shl(v, n) / 2 == Shl(v, n - 1);
    }
  }

  /** Shifting left and filling the freed bits appends the fill. */
  lemma {:induction false} BitsOfPush(a: nat, x: nat, m: nat, n: nat)
    requires x < Shl(1, n)
    ensures BitsOf(Shl(a, n) + x, m + n) == BitsOf(a, m) + BitsOf(x, n)
  {
    if n == 0 {
    } else {
      BitsOfPush(a, x / 2, m, n - 1);
      assert (Shl(a, n) + x) / 2 == Shl(a, n - 1) + x / 2;
      assert m + n - 1 == m + (n - 1);
      assert BitsOf(Shl(a, n) + x, m + n) == BitsOf(a, m) + BitsOf(x / 2, n - 1) + [x % 2];
    }
  }

  lemma {:induction false} UnpackConcat(a: seq<byte>, b: seq<byte>)
    ensures Unpack(a + b) == Unpack(a) + Unpack(b)
  {
    if a == [] {
      assert a + b == b;
    } else {
      UnpackConcat(a[1..], b);
      assert (a + b)[1..] == a[1..] + b;
    }
  }

  lemma {:induction false} UnpackPack(w: seq<bit>)
    requires |w| % 8 == 0
    ensures Unpack(Pack(w)) == w
  {
    if w != [] {
      UnpackPack(w[8..]);
      BitsOfValue(w[..8]);
      assert Pack(w)[1..] == Pack(w[8..]);
      assert w == w[..8] + w[8..];
    }
  }

  lemma {:induction false} PackUnpack(d: seq<byte>)
    ensures Pack(Unpack(d)) == d
  {
    if d != [] {
      PackUnpack(d[1..]);
      assert Shl(1, 8) == 256;
      ValueOfBits(d[0], 8);
      LowSmall(d[0], 8);
      assert Unpack(d)[..8] == BitsOf(d[0], 8) && Unpack(d)[8..] == Unpack(d[1..]);
    }
  }

  lemma {:induction false} OnesBits(n: nat)
    ensures BitsOf(Shl(1, n) - 1, n) == Ones(n)
  {
    if n > 0 {
      OnesBits(n - 1);
      assert (Shl(1, n) - 1) / 2 == Shl(1, n - 1) - 1;
      assert Ones(n) == Ones(n - 1) + [1];
    }
  }
}
