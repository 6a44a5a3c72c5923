/** The identity of a weight table: FNV-1a, a word at a time, over each layer's bit patterns. */
module Digest {

  const WORD: nat := 0x1_0000_0000_0000_0000
  const OFFSET: nat := 0xcbf2_9ce4_8422_2325
  const PRIME: nat := 0x0000_0100_0000_01b3

  /** The inverse of PRIME modulo WORD. */
  const INVERSE: nat := 0xce96_5057_aff6_957b

  type Word = x: int | 0 <= x < 0x1_0000_0000_0000_0000
  type Bits = x: int | 0 <= x < 0x1_0000_0000

  // ----- exclusive or

  function Xor(a: nat, b: nat): nat
    decreases a + b
  {
    if a == 0 && b == 0 then 0 else 2 * Xor(a / 2, b / 2) + (a + b) % 2
  }

  function Pow2(n: nat): nat {
    if n == 0 then 1 else 2 * Pow2(n - 1)
  }

  lemma {:induction false} XorBounded(a: nat, b: nat, n: nat)
    requires a < Pow2(n) && b < Pow2(n)
    ensures Xor(a, b) < Pow2(n)
  {
    if n > 0 && (a != 0 || b != 0) { XorBounded(a / 2, b / 2, n - 1); }
  }

  lemma XorHalves(a: nat, b: nat)
    ensures Xor(a, b) / 2 == Xor(a / 2, b / 2) && Xor(a, b) % 2 == (a + b) % 2
  {
  }

  lemma SameHalves(a: nat, b: nat, x: nat, y: nat)
    requires x % 2 == (a + b) % 2 && y % 2 == (a + x) % 2 && y / 2 == b / 2
    ensures y == b
  {
  }

  lemma {:induction false} XorCancels(a: nat, b: nat)
    ensures Xor(a, Xor(a, b)) == b
    decreases a + b
  {
    if a != 0 || b != 0 {
      XorCancels(a / 2, b / 2);
      XorHalves(a, b);
      XorHalves(a, Xor(a, b));
      SameHalves(a, b, Xor(a, b), Xor(a, Xor(a, b)));
    }
  }

  lemma {:induction false} XorSymmetric(a: nat, b: nat)
    ensures Xor(a, b) == Xor(b, a)
    decreases a + b
  {
    if a != 0 || b != 0 { XorSymmetric(a / 2, b / 2); }
  }

  // ----- one mixing step

  /** h ^= x, then h *= PRIME modulo 2^64. */
  function Mix(h: Word, x: Word): Word {
    (Xor(h, x) * PRIME) % WORD
  }

  lemma WordIsPow2()
    ensures Pow2(64) == WORD
  {
    assert Pow2(8) == 0x100;
    assert Pow2(16) == 0x1_0000;
    assert Pow2(24) == 0x100_0000;
    assert Pow2(32) == 0x1_0000_0000;
    assert Pow2(40) == 0x100_0000_0000;
    assert Pow2(48) == 0x1_0000_0000_0000;
    assert Pow2(56) == 0x100_0000_0000_0000;
  }

  /** Multiplication by the odd prime is injective modulo 2^64. */
  lemma MultiplyInjective(x: nat, y: nat)
    requires x < WORD && y < WORD && (x * PRIME) % WORD == (y * PRIME) % WORD
    ensures x == y
  {
    var k := (x * PRIME) / WORD - (y * PRIME) / WORD;
    assert x * PRIME == y * PRIME + k * WORD;
    var m := PRIME * INVERSE / WORD;
    assert PRIME * INVERSE == 1 + m * WORD;
    assert x - y == WORD * (y * m - x * m + k * INVERSE);
  }

  lemma XorOfWords(h: Word, x: Word)
    ensures Xor(h, x) < WORD
  {
    WordIsPow2();
    XorBounded(h, x, 64);
  }

  lemma MixInjectiveInWord(h: Word, x: Word, y: Word)
    requires Mix(h, x) == Mix(h, y)
    ensures x == y
  {
    XorOfWords(h, x);
    XorOfWords(h, y);
    MultiplyInjective(Xor(h, x), Xor(h, y));
    XorCancels(h, x);
    XorCancels(h, y);
  }

  lemma MixInjectiveInState(h: Word, k: Word, x: Word)
    requires Mix(h, x) == Mix(k, x)
    ensures h == k
  {
    XorSymmetric(h, x);
    XorSymmetric(k, x);
    MixInjectiveInWord(x, h, k);
  }

  // ----- words, layers, tables

  function Fold(h: Word, words: seq<Word>): Word {
    if |words| == 0 then h else Mix(Fold(h, words[..|words| - 1]), words[|words| - 1])
  }

  lemma FoldStep(h: Word, words: seq<Word>, k: nat)
    requires k < |words|
    ensures words[..0] == [] && Fold(h, words[..k + 1]) == Mix(Fold(h, words[..k]), words[k])
  {
    assert words[..k + 1][..k] == words[..k];
  }

  function Widen(w: seq<Bits>): seq<Word> {
    seq(|w|, i requires 0 <= i < |w| => w[i])
  }

  /** What a layer feeds: its index, its length and its bit patterns. */
  function LayerWords(l: Word, w: seq<Bits>): seq<Word>
    requires |w| < WORD
  {
    [l, |w|] + Widen(w)
  }

  /** A table `usize` can index. */
  ghost predicate Addressable(wo: seq<seq<Bits>>) {
    |wo| < WORD && forall l | 0 <= l < |wo| :: |wo[l]| < WORD
  }

  /** The digest of the first n layers of a table of `total`. */
  function Partial(wo: seq<seq<Bits>>, total: Word, n: nat): Word
    requires Addressable(wo) && n <= |wo|
  {
    if n == 0 then Mix(OFFSET, total) else Fold(Partial(wo, total, n - 1), LayerWords(n - 1, wo[n - 1]))
  }

  function DigestOf(wo: seq<seq<Bits>>): Word
    requires Addressable(wo)
  {
    Partial(wo, |wo|, |wo|)
  }

  /** The running digest, fed a layer at a time. */
  class Digester {
    var h: Word
    var next: nat

    constructor (nLayers: Word)
      ensures h == Mix(OFFSET, nLayers) && next == 0
    {
      h, next := OFFSET, 0;
      new;
      Eat(nLayers);
    }

    method Eat(x: Word)
      modifies this
      ensures h == Mix(old(h), x) && next == old(next)
    {
      h := Xor(h, x) * PRIME % WORD;
    }

    method Layer(w: seq<Bits>)
      requires next < WORD && |w| < WORD
      modifies this
      ensures next == old(next) + 1
      ensures h == Fold(old(h), LayerWords(old(next), w))
    {
      var l := next;
      next := next + 1;
      ghost var words := LayerWords(l, w);
      FoldStep(h, words, 0);
      Eat(l);
      FoldStep(old(h), words, 1);
      Eat(|w|);
      for k := 0 to |w|
        invariant next == old(next) + 1
        invariant h == Fold(old(h), words[..k + 2])
      {
        FoldStep(old(h), words, k + 2);
        Eat(w[k]);
      }
      assert words[..|w| + 2] == words;
    }
  }

  /** The digest of a table in hand is what feeding its layers one at a time gives. */
  method DigestTable(wo: seq<seq<Bits>>) returns (r: Word)
    requires Addressable(wo)
    ensures r == DigestOf(wo)
  {
    var d := new Digester(|wo|);
    for l := 0 to |wo|
      invariant d.next == l && d.h == Partial(wo, |wo|, l)
    {
      d.Layer(wo[l]);
    }
    r := d.h;
  }

  // ----- a single changed word always shows

  lemma {:induction false} FoldInjectiveInState(h: Word, k: Word, words: seq<Word>)
    requires Fold(h, words) == Fold(k, words)
    ensures h == k
  {
    if |words| > 0 {
      var init := words[..|words| - 1];
      MixInjectiveInState(Fold(h, init), Fold(k, init), words[|words| - 1]);
      FoldInjectiveInState(h, k, init);
    }
  }

  /** a and b agree except at position p. */
  ghost predicate DifferOnlyAt<T>(a: seq<T>, b: seq<T>, p: nat) {
    p < |a| == |b| && a[p] != b[p] && forall q | 0 <= q < |a| && q != p :: a[q] == b[q]
  }

  lemma {:induction false} OneWordShows(h: Word, a: seq<Word>, b: seq<Word>, p: nat)
    requires DifferOnlyAt(a, b, p)
    ensures Fold(h, a) != Fold(h, b)
  {
    var n := |a| - 1;
    if p == n {
      assert a[..n] == b[..n];
      if Fold(h, a) == Fold(h, b) { MixInjectiveInWord(Fold(h, a[..n]), a[n], b[n]); }
    } else {
      OneWordShows(h, a[..n], b[..n], p);
      if Fold(h, a) == Fold(h, b) { MixInjectiveInState(Fold(h, a[..n]), Fold(h, b[..n]), a[n]); }
    }
  }

  /** Tables that agree in every layer but m, and there differ in one bit pattern only. */
  ghost predicate DifferInOneWeight(wo: seq<seq<Bits>>, wo': seq<seq<Bits>>, m: nat, p: nat) {
    DifferOnlyAt(wo, wo', m) && DifferOnlyAt(wo[m], wo'[m], p)
  }

  lemma {:induction false} PartialDiffers(wo: seq<seq<Bits>>, wo': seq<seq<Bits>>, m: nat, p: nat, n: nat)
    requires Addressable(wo) && Addressable(wo') && DifferInOneWeight(wo, wo', m, p) && n <= |wo|
    ensures n <= m ==> Partial(wo, |wo|, n) == Partial(wo', |wo|, n)
    ensures n > m ==> Partial(wo, |wo|, n) != Partial(wo', |wo|, n)
  {
    if n > 0 {
      PartialDiffers(wo, wo', m, p, n - 1);
      var (h, k) := (Partial(wo, |wo|, n - 1), Partial(wo', |wo|, n - 1));
      var (a, b) := (LayerWords(n - 1, wo[n - 1]), LayerWords(n - 1, wo'[n - 1]));
      if n - 1 == m {
        assert DifferOnlyAt(a, b, p + 2);
        OneWordShows(h, a, b, p + 2);
      } else if n - 1 > m && Fold(h, a) == Fold(k, a) {
        FoldInjectiveInState(h, k, a);
      }
    }
  }

  /** Two tables of the same shapes that differ in exactly one bit pattern have different digests. */
  lemma OneWeightShows(wo: seq<seq<Bits>>, wo': seq<seq<Bits>>, m: nat, p: nat)
    requires Addressable(wo) && Addressable(wo') && DifferInOneWeight(wo, wo', m, p)
    ensures DigestOf(wo) != DigestOf(wo')
  {
    PartialDiffers(wo, wo', m, p, |wo|);
  }

  // ----- two digests written out

  lemma {:induction false} XorZero(h: nat)
    ensures Xor(h, 0) == h
  {
    if h > 0 { XorZero(h / 2); }
  }

  lemma XorOne(h: nat)
    ensures Xor(h, 1) == if h % 2 == 0 then h + 1 else h - 1
  {
    XorZero(h / 2);
    XorHalves(h, 1);
  }

  lemma EatZero(h: Word, r: Word)
    requires (h * 0x0000_0100_0000_01b3) % WORD == r
    ensures Mix(h, 0) == r
  {
    XorZero(h);
  }

  lemma EatOne(h: Word, y: Word, r: Word)
    requires y == (if h % 2 == 0 then h + 1 else h - 1) && (y * 0x0000_0100_0000_01b3) % WORD == r
    ensures Mix(h, 1) == r
  {
    XorOne(h);
  }

  /** The digest of no layers, bit for bit. */
  lemma DigestOfNothing(wo: seq<seq<Bits>>, h: Word)
    requires wo == [] && h == 0xcbf2_9ce4_8422_2325
    ensures DigestOf(wo) == 0xaf63_bd4c_8601_b7df
  {
    EatZero(h, 0xaf63_bd4c_8601_b7df);
  }

  /** One layer of one weight: layer count, index, length and bit pattern are eaten, in this order. */
  lemma DigestOfSingle(wo: seq<seq<Bits>>, one: Word, zero: Word)
    requires |wo| == 1 && |wo[0]| == 1 && one == 1 && zero == 0
    ensures DigestOf(wo) == Mix(Mix(Mix(Mix(OFFSET, one), zero), one), wo[0][0])
  {
    var words := LayerWords(0, wo[0]);
    assert Partial(wo, 1, 0) == Mix(OFFSET, one);
    FoldOfThree(Mix(OFFSET, one), words);
  }

  /** The four words of that layer, one by one. */
  lemma FirstWord(h: Word, one: Word)
    requires h == 0xcbf2_9ce4_8422_2325 && one == 1
    ensures Mix(h, one) == 0xaf63_bc4c_8601_b62c
  {
    EatOne(h, 0xcbf2_9ce4_8422_2325 - 1, 0xaf63_bc4c_8601_b62c);
  }

  lemma SecondWord(h: Word, zero: Word)
    requires h == 0xaf63_bc4c_8601_b62c && zero == 0
    ensures Mix(h, zero) == 0x082f_2207_b4e8_8cc4
  {
    EatZero(h, 0x082f_2207_b4e8_8cc4);
  }

  lemma ThirdWord(h: Word, one: Word)
    requires h == 0x082f_2207_b4e8_8cc4 && one == 1
    ensures Mix(h, one) == 0xd0a3_9818_6727_32bf
  {
    EatOne(h, 0x082f_2207_b4e8_8cc4 + 1, 0xd0a3_9818_6727_32bf);
  }

  lemma FourthWord(h: Word, one: Word)
    requires h == 0xd0a3_9818_6727_32bf && one == 1
    ensures Mix(h, one) == 0xad2e_2f77_479b_38da
  {
    EatOne(h, 0xd0a3_9818_6727_32bf - 1, 0xad2e_2f77_479b_38da);
  }

  /** The digest of one layer that holds the one bit pattern 1, bit for bit. */
  lemma DigestOfOne(wo: seq<seq<Bits>>, one: Word, zero: Word)
    requires |wo| == 1 && |wo[0]| == 1 && wo[0][0] == one == 1 && zero == 0
    ensures DigestOf(wo) == 0xad2e_2f77_479b_38da
  {
    DigestOfSingle(wo, one, zero);
    var h0: Word := OFFSET;
    var h1 := Mix(h0, one);
    var h2 := Mix(h1, zero);
    var h3 := Mix(h2, one);
    FirstWord(h0, one);
    SecondWord(h1, zero);
    ThirdWord(h2, one);
    FourthWord(h3, one);
  }

  lemma FoldOfThree(h: Word, words: seq<Word>)
    requires |words| == 3
    ensures Fold(h, words) == Mix(Mix(Mix(h, words[0]), words[1]), words[2])
  {
    FoldStep(h, words, 0);
    FoldStep(h, words, 1);
    FoldStep(h, words, 2);
    assert words[..3] == words;
  }
}
