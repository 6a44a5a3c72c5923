/** Symmetric 4-bit blocks: 32 weights as codes in [-8, 7] times one scale. */
module Q4 {
  import opened Rounding
  import opened Sums

  const HALF: nat := 16

  // ----- the block

  /** Byte i holds value i in its low nibble and value i + 16 in its high one, both raised by 8. */
  datatype Q4Block = Q4Block(d: real, qs: seq<bv8>) {
    ghost predicate Valid() {
      |qs| == HALF
    }

    function LowCode(i: nat): int
      requires Valid() && i < HALF
    {
      (qs[i] & 0x0F) as int - 8
    }

    function HighCode(i: nat): int
      requires Valid() && i < HALF
    {
      (qs[i] >> 4) as int - 8
    }

    ghost function Codes(): (codes: seq<int>)
      requires Valid()
      ensures |codes| == BLOCK
    {
      seq(BLOCK, i requires 0 <= i < BLOCK => if i < HALF then LowCode(i) else HighCode(i - HALF))
    }
  }

  /** Two codes in one byte. */
  method PackPair(lo: int, hi: int) returns (b: bv8)
    requires -8 <= lo <= 7 && -8 <= hi <= 7
    ensures (b & 0x0F) as int - 8 == lo && (b >> 4) as int - 8 == hi
  {
    var (x, y) := (Nibble(lo + 8), Nibble(hi + 8));
    Pairs(x, y);
    b := x | (y << 4);
  }

  function Nibble(n: nat): (b: bv8)
    requires n < 16
    ensures b as int == n && b <= 15
  {
    if n == 0 then 0 else var p := Nibble(n - 1); NextNibble(p); p + 1
  }

  lemma NextNibble(b: bv8)
    requires b as int < 15 && b <= 15
    ensures (b + 1) as int == b as int + 1 && b + 1 <= 15
  {
  }

  lemma Pairs(x: bv8, y: bv8)
    requires x <= 15 && y <= 15
    ensures (x | (y << 4)) & 0x0F == x && (x | (y << 4)) >> 4 == y
  {
  }

  lemma CodesOfByte(b: Q4Block, i: nat)
    requires b.Valid() && i < HALF
    ensures b.Codes()[i] == b.LowCode(i) && b.Codes()[i + HALF] == b.HighCode(i)
  {
  }

  /** A block is its scale and its codes. */
  lemma CodesDetermine(b: Q4Block, b': Q4Block)
    requires b.Valid() && b'.Valid() && b.d == b'.d && b.Codes() == b'.Codes()
    ensures b == b'
  {
    forall i | 0 <= i < HALF ensures b.qs[i] == b'.qs[i] {
      CodesOfByte(b, i);
      CodesOfByte(b', i);
      SameNibbles(b.qs[i], b'.qs[i]);
    }
  }

  lemma SameNibbles(x: bv8, y: bv8)
    requires (x & 0x0F) as int == (y & 0x0F) as int && (x >> 4) as int == (y >> 4) as int
    ensures x == y
  {
    SameByte(x & 0x0F, y & 0x0F);
    SameByte(x >> 4, y >> 4);
  }

  lemma SameByte(x: bv8, y: bv8)
    requires x as int == y as int
    ensures x == y
  {
  }

  /** A byte is the code of value i and sixteen times the code of value i + 16, both raised by 8. */
  lemma ByteIsTwoCodes(b: Q4Block, i: nat)
    requires b.Valid() && i < 16
    ensures b.qs[i] as int == (b.Codes()[i] + 8) + 16 * (b.Codes()[i + 16] + 8)
    ensures -8 <= b.Codes()[i] <= 7 && -8 <= b.Codes()[i + 16] <= 7
  {
    CodesOfByte(b, i);
    NibblesOf(b.qs[i]);
  }

  lemma NibblesOf(b: bv8)
    ensures b as int == (b & 0x0F) as int + 16 * (b >> 4) as int
    ensures 0 <= (b & 0x0F) as int <= 15 && 0 <= (b >> 4) as int <= 15
  {
  }

  // ----- what quantizing means

  function MaxAbs(s: seq<real>, n: nat): real
    requires n <= |s|
  {
    if n == 0 then 0.0 else var m := MaxAbs(s, n - 1); if Abs(s[n - 1]) > m then Abs(s[n - 1]) else m
  }

  lemma {:induction false} MaxAbsIsMax(s: seq<real>, n: nat)
    requires n <= |s|
    ensures MaxAbs(s, n) >= 0.0 && forall i | 0 <= i < n :: Abs(s[i]) <= MaxAbs(s, n)
    ensures MaxAbs(s, n) > 0.0 ==> exists i :: 0 <= i < n && Abs(s[i]) == MaxAbs(s, n)
  {
    if n > 0 {
      MaxAbsIsMax(s, n - 1);
      if MaxAbs(s, n) > 0.0 {
        if Abs(s[n - 1]) > MaxAbs(s, n - 1) {
          assert Abs(s[n - 1]) == MaxAbs(s, n);
        } else {
          var i :| 0 <= i < n - 1 && Abs(s[i]) == MaxAbs(s, n - 1);
          assert Abs(s[i]) == MaxAbs(s, n);
        }
      }
    }
  }

  /** The code of x at scale d, before it is clamped. */
  function Code(x: real, d: real): int {
    Round(x * Inverse(d))
  }

  function ScaleOf(src: seq<real>): real {
    MaxAbs(src, |src|) / 7.0
  }

  /** b is src quantized, its scale stored through rnd. */
  ghost predicate IsQuantized(b: Q4Block, src: seq<real>, rnd: real -> real) {
    && |src| == BLOCK && b.Valid() && b.d == rnd(ScaleOf(src))
    && forall i | 0 <= i < BLOCK :: b.Codes()[i] == Code(src[i], ScaleOf(src))
  }

  lemma QuantizedUnique(b: Q4Block, b': Q4Block, src: seq<real>, rnd: real -> real)
    requires IsQuantized(b, src, rnd) && IsQuantized(b', src, rnd)
    ensures b == b'
  {
    assert b.Codes() == b'.Codes();
    CodesDetermine(b, b');
  }

  /** Codes lie in [-7, 7]: the clamp to [-8, 7] never bites. */
  lemma CodeInRange(src: seq<real>, i: nat)
    requires i < |src|
    ensures -7 <= Code(src[i], ScaleOf(src)) <= 7
  {
    MaxAbsIsMax(src, |src|);
    RangeAtScale(src[i], MaxAbs(src, |src|), ScaleOf(src));
  }

  lemma RangeAtScale(x: real, top: real, d: real)
    requires -top <= x <= top && d == top / 7.0
    ensures -7 <= Code(x, d) <= 7
  {
    if d != 0.0 {
      var y := x * (1.0 / d);
      assert d > 0.0 && top == 7.0 * d;
      Divide(x, d, y);
      RoundBetween(y, -7, 7);
    } else {
      RoundOfInt(0);
    }
  }

  lemma Divide(x: real, d: real, y: real)
    requires d > 0.0 && y == x * (1.0 / d) && -(7.0 * d) <= x <= 7.0 * d
    ensures y * d == x && -7.0 <= y <= 7.0
  {
    assert y == x / d;
    assert (7.0 - y) * d >= 0.0 && (y + 7.0) * d >= 0.0;
  }

  /** A code names the level nearest to its value: none of the 15 is more than half a step away. */
  lemma CodeIsNear(src: seq<real>, i: nat)
    requires i < |src|
    ensures Abs(src[i] - Value(Code(src[i], ScaleOf(src)), ScaleOf(src))) <= ScaleOf(src) / 2.0
  {
    MaxAbsIsMax(src, |src|);
    NearestStep(src[i], MaxAbs(src, |src|), ScaleOf(src));
  }

  lemma NearestStep(x: real, top: real, d: real)
    requires -top <= x <= top && d == top / 7.0
    ensures Abs(x - Value(Code(x, d), d)) <= d / 2.0
  {
    if d != 0.0 {
      var y := x * (1.0 / d);
      assert Code(x, d) == Round(y);
      RoundNear(y);
      StepsBetween(x, d, y, Round(y) as real);
    } else {
      RoundOfInt(0);
    }
  }

  lemma StepsBetween(x: real, d: real, y: real, q: real)
    requires d > 0.0 && y == x * (1.0 / d) && y - 0.5 <= q <= y + 0.5
    ensures -(d / 2.0) <= x - q * d <= d / 2.0
  {
    assert y * d == x;
    ProductNonNeg(q - (y - 0.5), d, (q - (y - 0.5)) * d);
    ProductNonNeg(y + 0.5 - q, d, (y + 0.5 - q) * d);
    assert (q - (y - 0.5)) * d == q * d - y * d + 0.5 * d && (y + 0.5 - q) * d == y * d + 0.5 * d - q * d;
  }

  // ----- the loops

  method Quantize(src: seq<real>, rnd: real -> real) returns (b: Q4Block)
    requires |src| == BLOCK
    ensures IsQuantized(b, src, rnd)
  {
    var top := 0.0;
    for i := 0 to |src|
      invariant top == MaxAbs(src, i)
    {
      if Abs(src[i]) > top { top := Abs(src[i]); }
    }
    var d := top / 7.0;
    var qs: seq<bv8> := [];
    for i := 0 to HALF
      invariant |qs| == i
      invariant forall i' | 0 <= i' < i :: (qs[i'] & 0x0F) as int - 8 == Code(src[i'], d)
      invariant forall i' | 0 <= i' < i :: (qs[i'] >> 4) as int - 8 == Code(src[i' + HALF], d)
    {
      CodeInRange(src, i);
      CodeInRange(src, i + HALF);
      var byte := PackPair(Clamp(Code(src[i], d), -8, 7), Clamp(Code(src[i + HALF], d), -8, 7));
      qs := qs + [byte];
    }
    b := Q4Block(rnd(d), qs);
    forall i | 0 <= i < BLOCK ensures b.Codes()[i] == Code(src[i], d) {
      if i >= HALF { assert (qs[i - HALF] >> 4) as int - 8 == Code(src[(i - HALF) + HALF], d); }
    }
  }

  method Dequantize(b: Q4Block, out: array<real>)
    requires b.Valid() && out.Length == BLOCK
    modifies out
    ensures forall i | 0 <= i < BLOCK :: out[i] == Value(b.Codes()[i], b.d)
  {
    for i := 0 to HALF
      invariant forall x | 0 <= x < i :: out[x] == Value(b.Codes()[x], b.d)
      invariant forall x | HALF <= x < HALF + i :: out[x] == Value(b.Codes()[x], b.d)
    {
      var v0, v1 := CodePair(b, i);
      out[i] := Value(v0, b.d);
      out[i + HALF] := Value(v1, b.d);
    }
  }

  method CodePair(b: Q4Block, i: nat) returns (v0: int, v1: int)
    requires b.Valid() && i < HALF
    ensures v0 == b.Codes()[i] && v1 == b.Codes()[HALF + i]
  {
    v0, v1 := b.LowCode(i), b.HighCode(i);
    CodesOfByte(b, i);
  }

  /** What a code stands for at scale d. */
  function Value(q: int, d: real): real {
    q as real * d
  }

  // ----- requantizing

  /** The largest value has code 7 or -7. */
  lemma ExtremeCode(src: seq<real>, i: nat)
    requires i < |src| && MaxAbs(src, |src|) > 0.0 && Abs(src[i]) == MaxAbs(src, |src|)
    ensures Code(src[i], ScaleOf(src)) == 7 || Code(src[i], ScaleOf(src)) == -7
  {
    var (top, d) := (MaxAbs(src, |src|), ScaleOf(src));
    assert d > 0.0 && top == 7.0 * d;
    ExactCode(src[i], if src[i] < 0.0 then -7 else 7, d);
  }

  /** A whole number of steps is its own code. */
  lemma ExactCode(x: real, n: int, d: real)
    requires d != 0.0 && x == Value(n, d)
    ensures Code(x, d) == n
  {
    assert x * (1.0 / d) == n as real;
    RoundOfInt(n);
  }

  /** Dequantized codes of which one is 7 or -7 have exactly their own scale. */
  lemma ScaleRecovered(codes: seq<int>, out: seq<real>, d: real, k: nat)
    requires d >= 0.0 && |codes| == |out| && k < |codes| && (codes[k] == 7 || codes[k] == -7)
    requires forall i | 0 <= i < |codes| :: -7 <= codes[i] <= 7 && out[i] == Value(codes[i], d)
    ensures ScaleOf(out) == d
  {
    MaxAbsIsMax(out, |out|);
    forall i | 0 <= i < |out| ensures Abs(out[i]) <= 7.0 * d {
      CodeTimes(codes[i], d);
      assert out[i] == Value(codes[i], d);
    }
    assert Abs(out[k]) == 7.0 * d;
    assert Abs(out[k]) <= MaxAbs(out, |out|);
  }

  lemma CodeTimes(q: int, d: real)
    requires -7 <= q <= 7 && d >= 0.0
    ensures -(7.0 * d) <= Value(q, d) <= 7.0 * d
  {
    var r := q as real;
    ProductNonNeg(7.0 - r, d, (7.0 - r) * d);
    ProductNonNeg(r + 7.0, d, (r + 7.0) * d);
    assert (7.0 - r) * d == 7.0 * d - r * d && (r + 7.0) * d == r * d + 7.0 * d;
  }

  lemma {:induction false} AllZero(s: seq<real>, n: nat)
    requires n <= |s| && forall i | 0 <= i < n :: s[i] == 0.0
    ensures MaxAbs(s, n) == 0.0
  {
    if n > 0 { AllZero(s, n - 1); }
  }

  /**
   * A quantized block survives dequantizing and requantizing exactly when its values were all zero
   * or its scale was not rounded to zero: the largest value has code 7 or -7, so a scale that
   * survives is recovered exactly, and one that does not leaves only zeros behind.
   */
  lemma RequantizeIsFixedPoint(b: Q4Block, src: seq<real>, out: seq<real>, b': Q4Block, rnd: real -> real)
    requires IsQuantized(b, src, rnd) && IsQuantized(b', out, rnd)
    requires forall i | 0 <= i < BLOCK :: out[i] == Value(b.Codes()[i], b.d)
    requires rnd(rnd(ScaleOf(src))) == rnd(ScaleOf(src)) && rnd(ScaleOf(src)) >= 0.0
    ensures b' == b <==> MaxAbs(src, |src|) == 0.0 || rnd(ScaleOf(src)) != 0.0
  {
    MaxAbsIsMax(src, |src|);
    if MaxAbs(src, |src|) == 0.0 {
      ZeroBlock(b, src, out, b', rnd);
    } else if rnd(ScaleOf(src)) == 0.0 {
      FlushedScaleBreaks(b, src, out, b', rnd);
    } else {
      var k :| 0 <= k < |src| && Abs(src[k]) == MaxAbs(src, |src|);
      ExtremeCode(src, k);
      assert b.Codes()[k] == Code(src[k], ScaleOf(src));
      SurvivingBlock(b, src, out, b', rnd, k);
    }
  }

  lemma ZeroBlock(b: Q4Block, src: seq<real>, out: seq<real>, b': Q4Block, rnd: real -> real)
    requires IsQuantized(b, src, rnd) && IsQuantized(b', out, rnd) && MaxAbs(src, |src|) == 0.0
    requires forall i | 0 <= i < BLOCK :: out[i] == Value(b.Codes()[i], b.d)
    ensures b' == b
  {
    AllCodesZero(b.Codes(), src, ScaleOf(src));
    forall i | 0 <= i < BLOCK ensures out[i] == 0.0 { assert out[i] == Value(b.Codes()[i], b.d); }
    AllZero(out, |out|);
    AllCodesZero(b'.Codes(), out, ScaleOf(out));
    assert b.Codes() == b'.Codes();
    CodesDetermine(b, b');
  }

  /** At scale zero every code is zero. */
  lemma AllCodesZero(codes: seq<int>, src: seq<real>, d: real)
    requires |codes| == |src| && d == 0.0 && forall i | 0 <= i < |src| :: codes[i] == Code(src[i], d)
    ensures forall i | 0 <= i < |src| :: codes[i] == 0
  {
    forall i | 0 <= i < |src| ensures codes[i] == 0 {
      assert Code(src[i], d) == Round(0.0);
      RoundOfInt(0);
    }
  }

  lemma SurvivingBlock(b: Q4Block, src: seq<real>, out: seq<real>, b': Q4Block, rnd: real -> real, k: nat)
    requires IsQuantized(b, src, rnd) && IsQuantized(b', out, rnd)
    requires forall i | 0 <= i < BLOCK :: out[i] == Value(b.Codes()[i], b.d)
    requires b.d > 0.0 && rnd(b.d) == b.d && k < BLOCK && (b.Codes()[k] == 7 || b.Codes()[k] == -7)
    ensures b' == b
  {
    forall i | 0 <= i < BLOCK ensures -7 <= b.Codes()[i] <= 7 {
      CodeInRange(src, i);
      assert b.Codes()[i] == Code(src[i], ScaleOf(src));
    }
    CodesRecovered(b.Codes(), out, b.d, k);
    assert b.Codes() == b'.Codes();
    CodesDetermine(b, b');
  }

  /** Codes of which one is 7 or -7 are recovered, scale and all. */
  lemma CodesRecovered(codes: seq<int>, out: seq<real>, d: real, k: nat)
    requires d > 0.0 && |codes| == |out| && k < |codes| && (codes[k] == 7 || codes[k] == -7)
    requires forall i | 0 <= i < |codes| :: -7 <= codes[i] <= 7 && out[i] == Value(codes[i], d)
    ensures ScaleOf(out) == d && forall i | 0 <= i < |out| :: Code(out[i], ScaleOf(out)) == codes[i]
  {
    ScaleRecovered(codes, out, d, k);
    forall i | 0 <= i < |out| ensures Code(out[i], d) == codes[i] { ExactCode(out[i], codes[i], d); }
  }

  /** Wherever the scale of a block with a non-zero value rounds to zero, nothing but zeros comes back. */
  lemma FlushedScaleBreaks(b: Q4Block, src: seq<real>, out: seq<real>, b': Q4Block, rnd: real -> real)
    requires IsQuantized(b, src, rnd) && IsQuantized(b', out, rnd)
    requires forall i | 0 <= i < BLOCK :: out[i] == Value(b.Codes()[i], b.d)
    requires MaxAbs(src, |src|) > 0.0 && rnd(ScaleOf(src)) == 0.0
    ensures b' != b && forall i | 0 <= i < BLOCK :: out[i] == 0.0 && b'.Codes()[i] == 0
  {
    MaxAbsIsMax(src, |src|);
    var k :| 0 <= k < |src| && Abs(src[k]) == MaxAbs(src, |src|);
    ExtremeCode(src, k);
    assert b.Codes()[k] == Code(src[k], ScaleOf(src));
    forall i | 0 <= i < BLOCK ensures out[i] == 0.0 { assert out[i] == Value(b.Codes()[i], 0.0); }
    AllZero(out, |out|);
    RoundOfInt(0);
    forall i | 0 <= i < BLOCK ensures b'.Codes()[i] == 0 { assert b'.Codes()[i] == Code(out[i], 0.0); }
  }

  /** Half of 2^-24, the smallest positive half-precision number: what does not exceed it rounds to zero. */
  const FLUSH: real := 1.0 / 33554432.0

  /** What half precision does to a scale: idempotent, never negative, zero exactly up to the threshold. */
  ghost predicate RoundsLikeHalf(rnd: real -> real) {
    forall x | x >= 0.0 :: rnd(x) >= 0.0 && rnd(rnd(x)) == rnd(x) && (rnd(x) == 0.0 <==> x <= FLUSH)
  }

  /** In half precision a block survives exactly when it was all zero or its largest magnitude exceeds 7 * 2^-25. */
  lemma SurvivesHalfPrecision(b: Q4Block, src: seq<real>, out: seq<real>, b': Q4Block, rnd: real -> real)
    requires IsQuantized(b, src, rnd) && IsQuantized(b', out, rnd) && RoundsLikeHalf(rnd)
    requires forall i | 0 <= i < BLOCK :: out[i] == Value(b.Codes()[i], b.d)
    ensures b' == b <==> MaxAbs(src, |src|) == 0.0 || MaxAbs(src, |src|) > 7.0 * FLUSH
  {
    MaxAbsIsMax(src, |src|);
    assert ScaleOf(src) >= 0.0;
    RequantizeIsFixedPoint(b, src, out, b', rnd);
  }
}
