/** Asymmetric block codecs of the KV cache: 32 values in 2-, 4- or 8-bit codes, a scale and a minimum. */
module KvCodec {
  import opened Rounding
  import opened Layout
  import opened Sums

  datatype Width = Two | Four | Eight {
    /** The largest code. */
    function Top(): nat {
      match this case Two => 3 case Four => 15 case Eight => 255
    }

    /** Codes per byte. */
    function Lanes(): nat {
      match this case Two => 4 case Four => 2 case Eight => 1
    }
  }

  // ----- packing

  /** Code j of a byte. */
  function Lane(w: Width, b: bv8, j: nat): bv8
    requires j < w.Lanes()
  {
    match w
    case Two => if j == 0 then b & 0x03 else if j == 1 then (b >> 2) & 0x03 else if j == 2 then (b >> 4) & 0x03
      else (b >> 6) & 0x03
    case Four => if j == 0 then b & 0x0F else b >> 4
    case Eight => b
  }

  /** Or code q into place j. */
  function Put(w: Width, b: bv8, q: bv8, j: nat): bv8
    requires j < w.Lanes()
  {
    match w
    case Two => if j == 0 then b | q else if j == 1 then b | (q << 2) else if j == 2 then b | (q << 4) else b | (q << 6)
    case Four => if j == 0 then b | q else b | (q << 4)
    case Eight => b | q
  }

  /** Packing into an empty place stores the code and disturbs no other. */
  lemma PutThenLane(w: Width, b: bv8, q: bv8, j: nat)
    requires j < w.Lanes() && q <= w.Top() as bv8 && Lane(w, b, j) == 0
    ensures Lane(w, Put(w, b, q, j), j) == q
    ensures forall j': nat | j' < w.Lanes() && j' != j :: Lane(w, Put(w, b, q, j), j') == Lane(w, b, j')
  {
    match w
    case Two => TwoBits(b, q);
    case Four => FourBits(b, q);
    case Eight =>
  }

  /** The first n codes of a byte, packed again. */
  function Repacked(w: Width, b: bv8, n: nat): bv8
    requires n <= w.Lanes()
  {
    if n == 0 then 0 else Put(w, Repacked(w, b, n - 1), Lane(w, b, n - 1), n - 1)
  }

  /** Unpacking and packing again gives the byte back. */
  lemma PackOfUnpack(w: Width, b: bv8)
    ensures Repacked(w, b, w.Lanes()) == b
  {
    match w
    case Two =>
      assert Repacked(w, b, 1) == 0 | (b & 0x03);
      assert Repacked(w, b, 2) == Repacked(w, b, 1) | (((b >> 2) & 0x03) << 2);
      assert Repacked(w, b, 3) == Repacked(w, b, 2) | (((b >> 4) & 0x03) << 4);
      assert Repacked(w, b, 4) == Repacked(w, b, 3) | (((b >> 6) & 0x03) << 6);
      PlacesMakeByte(b);
    case Four =>
      assert Repacked(w, b, 1) == 0 | (b & 0x0F);
      NibblesMakeByte(b);
    case Eight =>
      ZeroMakesByte(b);
  }

  lemma PlacesMakeByte(b: bv8)
    ensures 0 | (b & 0x03) | (((b >> 2) & 0x03) << 2) | (((b >> 4) & 0x03) << 4) | (((b >> 6) & 0x03) << 6) == b
  {
  }

  lemma NibblesMakeByte(b: bv8)
    ensures 0 | (b & 0x0F) | ((b >> 4) << 4) == b
  {
  }

  lemma ZeroMakesByte(b: bv8)
    ensures 0 | b == b
  {
  }

  /** The four two-bit places of b. */
  function Places(b: bv8): (bv8, bv8, bv8, bv8) {
    (b & 0x03, (b >> 2) & 0x03, (b >> 4) & 0x03, (b >> 6) & 0x03)
  }

  lemma TwoBits(b: bv8, q: bv8)
    requires q <= 3
    ensures Places(b).0 == 0 ==> Places(b | q) == (q, Places(b).1, Places(b).2, Places(b).3)
    ensures Places(b).1 == 0 ==> Places(b | (q << 2)) == (Places(b).0, q, Places(b).2, Places(b).3)
    ensures Places(b).2 == 0 ==> Places(b | (q << 4)) == (Places(b).0, Places(b).1, q, Places(b).3)
    ensures Places(b).3 == 0 ==> Places(b | (q << 6)) == (Places(b).0, Places(b).1, Places(b).2, q)
  {
  }

  lemma FourBits(b: bv8, q: bv8)
    requires q <= 15
    ensures b & 0x0F == 0 ==> (b | q) & 0x0F == q
    ensures (b | q) >> 4 == b >> 4
    ensures b >> 4 == 0 ==> (b | (q << 4)) >> 4 == q
    ensures (b | (q << 4)) & 0x0F == b & 0x0F
  {
  }

  // ----- one value

  /** The scale of a block whose values span [lo, hi]. */
  function Scale(w: Width, lo: real, hi: real): real {
    (hi - lo) / w.Top() as real
  }

  /** The code of x before it is clamped. */
  function RawCode(w: Width, x: real, lo: real, hi: real): int {
    StepCode(x - lo, Scale(w, lo, hi))
  }

  /** A distance in whole steps of d. */
  function StepCode(x: real, d: real): int {
    Round(x * Inverse(d))
  }

  /** The clamp never bites, and the code names a level within half a step of the value. */
  lemma CodeIsNear(w: Width, x: real, lo: real, hi: real)
    requires lo <= x <= hi
    ensures 0 <= RawCode(w, x, lo, hi) <= w.Top()
    ensures Abs(x - Level(RawCode(w, x, lo, hi), Scale(w, lo, hi), lo)) <= Scale(w, lo, hi) / 2.0
  {
    ScaleSpans(w, lo, hi);
    NearestLevel(x, lo, hi, Scale(w, lo, hi), w.Top());
  }

  lemma NearestLevel(x: real, lo: real, hi: real, d: real, top: nat)
    requires lo <= x <= hi && d >= 0.0 && d * top as real == hi - lo
    ensures 0 <= StepCode(x - lo, d) <= top && Abs(x - Level(StepCode(x - lo, d), d, lo)) <= d / 2.0
  {
    NearestStep(x - lo, d, top);
  }

  lemma ScaleSpans(w: Width, lo: real, hi: real)
    requires lo <= hi
    ensures Scale(w, lo, hi) >= 0.0 && Scale(w, lo, hi) * w.Top() as real == hi - lo
  {
  }

  /** Rounding a distance to whole steps of d, when it is at most `top` steps. */
  lemma NearestStep(x: real, d: real, top: nat)
    requires d >= 0.0 && 0.0 <= x <= d * top as real
    ensures 0 <= StepCode(x, d) <= top && Abs(x - StepCode(x, d) as real * d) <= d / 2.0
  {
    if d == 0.0 {
      RoundOfInt(0);
    } else {
      var y := x * (1.0 / d);
      Steps(x, d, top as real, y);
      RoundBetween(y, 0, top);
      RoundNear(y);
      HalfStep(x, y, Round(y) as real, d);
    }
  }

  lemma Steps(x: real, d: real, top: real, y: real)
    requires d > 0.0 && 0.0 <= x <= d * top && y == x * (1.0 / d)
    ensures y * d == x && 0.0 <= y <= top
  {
    assert y == x / d;
    assert (top - y) * d >= 0.0;
  }

  lemma HalfStep(x: real, y: real, r: real, d: real)
    requires d > 0.0 && y * d == x && y - 0.5 <= r <= y + 0.5
    ensures Abs(x - r * d) <= d / 2.0
  {
    var t := y - r;
    ProductNonNeg(0.5 - t, d, (0.5 - t) * d);
    ProductNonNeg(t + 0.5, d, (t + 0.5) * d);
    assert x - r * d == t * d && (0.5 - t) * d == 0.5 * d - t * d && (t + 0.5) * d == t * d + 0.5 * d;
  }

  /** What storing the scale and the minimum in a narrower format adds. */
  lemma StoredError(x: real, q: real, top: real, d: real, m: real, d': real, m': real)
    requires 0.0 <= q <= top && Abs(x - (q * d + m)) <= d / 2.0
    ensures Abs(x - (q * d' + m')) <= d / 2.0 + top * Abs(d' - d) + Abs(m' - m)
  {
    assert x - (q * d' + m') == (x - (q * d + m)) - q * (d' - d) - (m' - m);
    ScaledAbs(q, top, d' - d);
  }

  lemma ScaledAbs(q: real, top: real, e: real)
    requires 0.0 <= q <= top
    ensures -(top * Abs(e)) <= q * e <= top * Abs(e)
  {
    assert q * Abs(e) <= top * Abs(e);
  }

  // ----- blocks

  datatype KvBlock = KvBlock(width: Width, d: real, m: real, qs: seq<bv8>) {
    ghost predicate Valid() {
      |qs| * width.Lanes() == BLOCK
    }

    /** Code i of the block: place i % Lanes of byte i / Lanes. */
    function CodeAt(i: nat): bv8
      requires Valid() && i < BLOCK
    {
      PlaceOf(i);
      Lane(width, qs[i / width.Lanes()], i % width.Lanes())
    }

    lemma PlaceOf(i: nat)
      requires Valid() && i < BLOCK
      ensures i / width.Lanes() < |qs|
    {
    }

    /** The codes as numbers. */
    ghost function Codes(): (codes: seq<int>)
      requires Valid()
      ensures |codes| == BLOCK
    {
      seq(BLOCK, i requires 0 <= i < BLOCK => CodeAt(i) as int)
    }
  }

  /** What code q stands for. */
  function Level(q: int, d: real, m: real): real {
    q as real * d + m
  }

  function Lowest(s: seq<real>, n: nat): real
    requires 0 < n <= |s|
  {
    if n == 1 then s[0] else var r := Lowest(s, n - 1); if s[n - 1] < r then s[n - 1] else r
  }

  function Highest(s: seq<real>, n: nat): real
    requires 0 < n <= |s|
  {
    if n == 1 then s[0] else var r := Highest(s, n - 1); if s[n - 1] > r then s[n - 1] else r
  }

  lemma {:induction false} Spans(s: seq<real>, n: nat)
    requires 0 < n <= |s|
    ensures forall i | 0 <= i < n :: Lowest(s, n) <= s[i] <= Highest(s, n)
  {
    if n > 1 { Spans(s, n - 1); }
  }

  /** The codes are the rounded positions of the values between the extremes. */
  ghost predicate Encodes(w: Width, codes: seq<int>, src: seq<real>)
    requires |src| > 0
  {
    && |codes| == |src|
    && forall i | 0 <= i < |src| :: codes[i] == RawCode(w, src[i], Lowest(src, |src|), Highest(src, |src|))
  }

  /** The codes of a byte are its digits, the first the lowest: base 4, base 16 or the byte itself. */
  lemma LanesAreDigits(w: Width, b: bv8)
    ensures w == Two ==>
      b == Lane(w, b, 0) + 4 * Lane(w, b, 1) + 16 * Lane(w, b, 2) + 64 * Lane(w, b, 3)
    ensures w == Four ==> b == Lane(w, b, 0) + 16 * Lane(w, b, 1)
    ensures w == Eight ==> b == Lane(w, b, 0)
    ensures forall j: nat | j < w.Lanes() :: Lane(w, b, j) <= w.Top() as bv8
  {
    DigitsOf(b);
  }

  lemma DigitsOf(b: bv8)
    ensures b == (b & 0x03) + 4 * ((b >> 2) & 0x03) + 16 * ((b >> 4) & 0x03) + 64 * ((b >> 6) & 0x03)
    ensures b & 0x03 <= 3 && (b >> 2) & 0x03 <= 3 && (b >> 4) & 0x03 <= 3 && (b >> 6) & 0x03 <= 3
    ensures b == (b & 0x0F) + 16 * (b >> 4) && b & 0x0F <= 15 && b >> 4 <= 15
  {
  }

  /** Byte y holds the codes of consecutive values: code j of the byte is code y * Lanes + j of the block. */
  lemma CodesAreConsecutive(b: KvBlock, y: nat, j: nat)
    requires b.Valid() && y < |b.qs| && j < b.width.Lanes()
    ensures 0 <= y * b.width.Lanes() + j < BLOCK && b.CodeAt(y * b.width.Lanes() + j) == Lane(b.width, b.qs[y], j)
  {
    var lanes := b.width.Lanes();
    IxBound(y, j, |b.qs|, lanes);
    IxDecode(y, j, lanes);
  }

  lemma {:induction false} ExtremesAttained(s: seq<real>, n: nat)
    requires 0 < n <= |s|
    ensures exists i | 0 <= i < n :: s[i] == Lowest(s, n)
    ensures exists i | 0 <= i < n :: s[i] == Highest(s, n)
  {
    if n == 1 {
      assert s[0] == Lowest(s, 1) && s[0] == Highest(s, 1);
    } else {
      ExtremesAttained(s, n - 1);
      var i :| 0 <= i < n - 1 && s[i] == Lowest(s, n - 1);
      var j :| 0 <= j < n - 1 && s[j] == Highest(s, n - 1);
      assert s[i] == Lowest(s, n) || s[n - 1] == Lowest(s, n);
      assert s[j] == Highest(s, n) || s[n - 1] == Highest(s, n);
    }
  }

  /** The least value has code 0, the greatest the top code, and the scale spreads the levels between them evenly. */
  lemma ExtremesHaveExtremeCodes(w: Width, src: seq<real>, codes: seq<int>, i: nat)
    requires |src| > 0 && Encodes(w, codes, src) && i < |src| && Lowest(src, |src|) < Highest(src, |src|)
    ensures src[i] == Lowest(src, |src|) ==> codes[i] == 0
    ensures src[i] == Highest(src, |src|) ==> codes[i] == w.Top()
  {
    var (lo, hi) := (Lowest(src, |src|), Highest(src, |src|));
    ScaleSpans(w, lo, hi);
    assert codes[i] == RawCode(w, src[i], lo, hi);
    if src[i] == lo { WholeSteps(src[i] - lo, 0, Scale(w, lo, hi)); }
    if src[i] == hi { WholeSteps(src[i] - lo, w.Top(), Scale(w, lo, hi)); }
  }

  lemma WholeSteps(x: real, n: int, d: real)
    requires d > 0.0 && x == n as real * d
    ensures StepCode(x, d) == n
  {
    assert x * (1.0 / d) == n as real;
    RoundOfInt(n);
  }

  /** d / 2 + top |d' - d| + |m' - m| */
  function ErrorBound(top: nat, d: real, d': real, m: real, m': real): real {
    d / 2.0 + top as real * Abs(d' - d) + Abs(m' - m)
  }

  /** Every code fits its width, and every value comes back within the bound. */
  lemma BlockError(w: Width, codes: seq<int>, src: seq<real>, rnd: real -> real, i: nat)
    requires |src| > 0 && Encodes(w, codes, src) && i < |src|
    ensures 0 <= codes[i] <= w.Top()
    ensures var (lo, d) := (Lowest(src, |src|), Scale(w, Lowest(src, |src|), Highest(src, |src|)));
      Abs(src[i] - Level(codes[i], rnd(d), rnd(lo))) <= ErrorBound(w.Top(), d, rnd(d), lo, rnd(lo))
  {
    var (lo, hi) := (Lowest(src, |src|), Highest(src, |src|));
    var d := Scale(w, lo, hi);
    CodesAreNear(w, codes, src, i);
    LevelError(src[i], codes[i], w.Top(), d, lo, rnd(d), rnd(lo));
  }

  lemma CodesAreNear(w: Width, codes: seq<int>, src: seq<real>, i: nat)
    requires |src| > 0 && Encodes(w, codes, src) && i < |src|
    ensures 0 <= codes[i] <= w.Top()
    ensures var (lo, d) := (Lowest(src, |src|), Scale(w, Lowest(src, |src|), Highest(src, |src|)));
      Abs(src[i] - Level(codes[i], d, lo)) <= d / 2.0
  {
    Spans(src, |src|);
    var (lo, hi) := (Lowest(src, |src|), Highest(src, |src|));
    CodeIsNear(w, src[i], lo, hi);
    assert codes[i] == RawCode(w, src[i], lo, hi);
  }

  lemma LevelError(x: real, q: int, top: nat, d: real, m: real, d': real, m': real)
    requires 0 <= q <= top && Abs(x - Level(q, d, m)) <= d / 2.0
    ensures Abs(x - Level(q, d', m')) <= ErrorBound(top, d, d', m, m')
  {
    StoredError(x, q as real, top as real, d, m, d', m');
  }

  // ----- the loops

  /** The extremes, folded over the block. */
  method Extremes(src: seq<real>) returns (lo: real, hi: real)
    requires |src| == BLOCK
    ensures lo == Lowest(src, |src|) && hi == Highest(src, |src|)
  {
    lo, hi := src[0], src[0];
    for i := 1 to |src|
      invariant lo == Lowest(src, i) && hi == Highest(src, i)
    {
      if src[i] < lo { lo := src[i]; }
      if src[i] > hi { hi := src[i]; }
    }
  }

  /** The codes of `Lanes` consecutive values in one byte. */
  method PackByte(w: Width, src: seq<real>, at: nat, lo: real, hi: real) returns (b: bv8)
    requires at + w.Lanes() <= |src| && forall i | at <= i < at + w.Lanes() :: lo <= src[i] <= hi
    ensures forall j: nat | j < w.Lanes() :: Lane(w, b, j) as int == RawCode(w, src[at + j], lo, hi)
  {
    b := 0;
    ghost var codes: seq<bv8> := [];
    EmptyByte(w);
    for j := 0 to w.Lanes()
      invariant |codes| == j && forall j': nat | j' < j :: codes[j'] as int == RawCode(w, src[at + j'], lo, hi)
      invariant forall j': nat | j' < w.Lanes() :: Lane(w, b, j') == if j' < j then codes[j'] else 0
    {
      var q := CodeFor(w, src[at + j], lo, hi);
      PutThenLane(w, b, q, j);
      b := Put(w, b, q, j);
      codes := codes + [q];
    }
  }

  lemma EmptyByte(w: Width)
    ensures forall j: nat | j < w.Lanes() :: Lane(w, 0, j) == 0
  {
  }

  /** One clamped code. */
  method CodeFor(w: Width, x: real, lo: real, hi: real) returns (q: bv8)
    requires lo <= x <= hi
    ensures q as int == RawCode(w, x, lo, hi) && q <= w.Top() as bv8
  {
    CodeIsNear(w, x, lo, hi);
    var code := Clamp(StepCode(x - lo, Scale(w, lo, hi)), 0, w.Top());
    q := ToByte(code);
    match w
    case Two => SmallByte(q);
    case Four => NibbleByte(q);
    case Eight =>
  }

  /** The byte that reads as n. */
  function ToByte(n: nat): (b: bv8)
    requires n < 256
    ensures b as int == n
  {
    if n == 0 then 0 else var p := ToByte(n - 1); NextByte(p); p + 1
  }

  lemma NextByte(b: bv8)
    requires b as int < 255
    ensures (b + 1) as int == b as int + 1
  {
  }

  lemma SmallByte(b: bv8)
    requires b as int <= 3
    ensures b <= 3
  {
  }

  lemma NibbleByte(b: bv8)
    requires b as int <= 15
    ensures b <= 15
  {
  }

  method Quantize(w: Width, src: seq<real>, rnd: real -> real) returns (b: KvBlock)
    requires |src| == BLOCK
    ensures b.width == w && b.Valid() && Encodes(w, b.Codes(), src)
    ensures b.d == rnd(Scale(w, Lowest(src, |src|), Highest(src, |src|))) && b.m == rnd(Lowest(src, |src|))
  {
    var lo, hi := Extremes(src);
    Spans(src, |src|);
    var n := BLOCK / w.Lanes();
    var qs: seq<bv8> := [];
    for i := 0 to n
      invariant |qs| == i
      invariant forall i': nat, j: nat | i' < i && j < w.Lanes() ::
        0 <= Ix(i', j, w.Lanes()) < BLOCK && Lane(w, qs[i'], j) as int == RawCode(w, src[Ix(i', j, w.Lanes())], lo, hi)
    {
      var byte := PackByte(w, src, i * w.Lanes(), lo, hi);
      qs := qs + [byte];
    }
    b := KvBlock(w, rnd(Scale(w, lo, hi)), rnd(lo), qs);
    forall i: nat | i < BLOCK ensures b.CodeAt(i) as int == RawCode(w, src[i], lo, hi) {
      assert i == Ix(i / w.Lanes(), i % w.Lanes(), w.Lanes());
    }
  }

  method Dequantize(b: KvBlock, out: array<real>)
    requires b.Valid() && out.Length == BLOCK
    modifies out
    ensures forall x | 0 <= x < BLOCK :: out[x] == Level(b.Codes()[x], b.d, b.m)
  {
    var lanes := b.width.Lanes();
    var at := 0;
    for i := 0 to |b.qs|
      invariant at == i * lanes <= BLOCK
      invariant forall x | 0 <= x < at :: out[x] == Level(b.Codes()[x], b.d, b.m)
    {
      IxBound(i, lanes - 1, |b.qs|, lanes);
      DequantizeByte(b, i, out, at);
      at := at + lanes;
    }
  }

  /** The codes of one byte. */
  method DequantizeByte(b: KvBlock, i: nat, out: array<real>, at: nat)
    requires b.Valid() && out.Length == BLOCK && i < |b.qs| && at == i * b.width.Lanes()
      && at + b.width.Lanes() <= BLOCK
    modifies out
    ensures forall x | at <= x < at + b.width.Lanes() :: out[x] == Level(b.Codes()[x], b.d, b.m)
    ensures forall x | 0 <= x < at :: out[x] == old(out[x])
  {
    for j := 0 to b.width.Lanes()
      invariant forall x | at <= x < at + j :: out[x] == Level(b.Codes()[x], b.d, b.m)
      invariant forall x | 0 <= x < at :: out[x] == old(out[x])
    {
      var q := Lane(b.width, b.qs[i], j) as int;
      CodePlace(b, i, j, at + j, q);
      out[at + j] := Level(q, b.d, b.m);
    }
  }

  lemma CodePlace(b: KvBlock, i: nat, j: nat, x: nat, q: int)
    requires b.Valid() && i < |b.qs| && j < b.width.Lanes() && x == i * b.width.Lanes() + j
      && Lane(b.width, b.qs[i], j) as int == q
    ensures x < BLOCK && b.Codes()[x] == q
  {
    IxBound(i, j, |b.qs|, b.width.Lanes());
    IxDecode(i, j, b.width.Lanes());
  }

  // ----- slices of 2-bit blocks

  /** Block i of a slice, its extremes and its scale. */
  function Chunk(src: seq<real>, i: nat): seq<real> {
    Block(src, i, BLOCK)
  }

  ghost predicate BlockOf(b: KvBlock, src: seq<real>, rnd: real -> real) {
    && |src| == BLOCK && b.width == Two && b.Valid() && Encodes(Two, b.Codes(), src)
    && b.d == rnd(Scale(Two, Lowest(src, |src|), Highest(src, |src|))) && b.m == rnd(Lowest(src, |src|))
  }

  method QuantizeSliceQ2(src: seq<real>, rnd: real -> real) returns (blocks: seq<KvBlock>)
    requires |src| % BLOCK == 0
    ensures |blocks| * BLOCK == |src|
    ensures forall i | 0 <= i < |blocks| :: BlockOf(blocks[i], Chunk(src, i), rnd)
  {
    var n := |src| / BLOCK;
    blocks := [];
    for i := 0 to n
      invariant |blocks| == i && forall i' | 0 <= i' < i :: BlockOf(blocks[i'], Chunk(src, i'), rnd)
    {
      BlockFits(src, i, n, BLOCK);
      var b := Quantize(Two, Chunk(src, i), rnd);
      blocks := blocks + [b];
    }
  }

  ghost predicate ChunkDecodes(b: KvBlock, out: seq<real>, i: int)
    requires b.Valid()
  {
    0 <= i * BLOCK && i * BLOCK + BLOCK <= |out| && forall j | 0 <= j < BLOCK ::
      out[Ix(i, j, BLOCK)] == Level(b.Codes()[j], b.d, b.m)
  }

  method DequantizeSliceQ2(blocks: seq<KvBlock>, out: array<real>)
    requires |blocks| * BLOCK == out.Length && forall i | 0 <= i < |blocks| :: blocks[i].Valid()
    modifies out
    ensures forall i | 0 <= i < |blocks| :: ChunkDecodes(blocks[i], out[..], i)
  {
    var buf := new real[BLOCK](_ => 0.0);
    for i := 0 to |blocks|
      invariant forall i' | 0 <= i' < i :: ChunkDecodes(blocks[i'], out[..], i')
    {
      Dequantize(blocks[i], buf);
      ghost var before := out[..];
      CopyChunk(out, i * BLOCK, buf);
      forall i' | 0 <= i' < i ensures ChunkDecodes(blocks[i'], out[..], i') {
        ChunkKept(blocks[i'], before, out[..], i', i);
      }
      forall j | 0 <= j < BLOCK
        ensures out[..][Ix(i, j, BLOCK)] == Level(blocks[i].Codes()[j], blocks[i].d, blocks[i].m)
      {
        assert out[i * BLOCK + j] == buf[j];
      }
    }
  }

  lemma ChunkKept(b: KvBlock, before: seq<real>, out: seq<real>, i': nat, i: nat)
    requires b.Valid() && ChunkDecodes(b, before, i') && i' < i && |out| == |before|
    requires forall x | 0 <= x < |out| && x < i * BLOCK :: out[x] == before[x]
    ensures ChunkDecodes(b, out, i')
  {
    forall j | 0 <= j < BLOCK ensures out[Ix(i', j, BLOCK)] == Level(b.Codes()[j], b.d, b.m) {
      assert before[Ix(i', j, BLOCK)] == Level(b.Codes()[j], b.d, b.m);
    }
  }

  method CopyChunk(out: array<real>, at: nat, buf: array<real>)
    requires buf.Length == BLOCK && at + BLOCK <= out.Length && out != buf
    modifies out
    ensures forall j | 0 <= j < BLOCK :: out[at + j] == buf[j]
    ensures forall x | 0 <= x < out.Length && !(at <= x < at + BLOCK) :: out[x] == old(out[x])
  {
    for j := 0 to BLOCK
      invariant forall x | 0 <= x < out.Length :: out[x] == if at <= x < at + j then buf[x - at] else old(out[x])
    {
      out[at + j] := buf[j];
    }
  }

  /** Every value of a slice of any number of blocks comes back within its own block's bound. */
  lemma SliceError(src: seq<real>, rnd: real -> real, blocks: seq<KvBlock>, out: seq<real>, i: nat, j: nat)
    requires |blocks| * BLOCK == |src| == |out| && i < |blocks| && j < BLOCK
    requires BlockOf(blocks[i], Chunk(src, i), rnd) && ChunkDecodes(blocks[i], out, i)
    ensures Ix(i, j, BLOCK) < |src|
    ensures var c := Chunk(src, i);
      var (lo, d) := (Lowest(c, |c|), Scale(Two, Lowest(c, |c|), Highest(c, |c|)));
      Abs(src[Ix(i, j, BLOCK)] - out[Ix(i, j, BLOCK)]) <= ErrorBound(3, d, rnd(d), lo, rnd(lo))
  {
    BlockFits(src, i, |blocks|, BLOCK);
    BlockError(Two, blocks[i].Codes(), Chunk(src, i), rnd, j);
    assert out[Ix(i, j, BLOCK)] == Level(blocks[i].Codes()[j], blocks[i].d, blocks[i].m);
  }
}
