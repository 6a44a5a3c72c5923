/** The on-disk form of a basis, as functions to and from a byte sequence. */
module BasisFile {
  import opened Layout
  import opened Keep
  import opened Digest

  type Byte = x: int | 0 <= x < 256

  const MAGIC: seq<Byte> := [65, 82, 71, 85, 83, 87, 79, 66]
  const VERSION: nat := 1
  const HEADER: nat := 48
  const U32: nat := 0x1_0000_0000

  /** A basis as the file stores it: f32 and f64 values are their bit patterns. */
  datatype BitBasis = BitBasis(layers: seq<seq<Bits>>, d: nat, rank: nat, frac: Option<Word>) {
    ghost predicate WellFormed() {
      forall l | 0 <= l < |layers| :: |layers[l]| == d * rank
    }

    predicate Fits() {
      |layers| < U32 && d < U32 && rank < U32
    }
  }

  datatype Expect = Expect(nLayers: nat, d: nat, rank: nat, frac: Word, woDigest: Word)

  datatype FileError =
    | Magic
    | Version(got: nat)
    | Mismatch(field: string, got: nat, want: nat)
    | Payload(gotFloats: nat, wantFloats: nat)
    | Untruncated

  // ----- little-endian numbers

  function Pow256(n: nat): nat {
    if n == 0 then 1 else 256 * Pow256(n - 1)
  }

  function ToLE(x: nat, n: nat): (b: seq<Byte>)
    ensures |b| == n
  {
    if n == 0 then [] else [x % 256] + ToLE(x / 256, n - 1)
  }

  function FromLE(b: seq<Byte>): nat {
    if |b| == 0 then 0 else b[0] + 256 * FromLE(b[1..])
  }

  lemma {:induction false} FromToLE(x: nat, n: nat)
    requires x < Pow256(n)
    ensures FromLE(ToLE(x, n)) == x
  {
    if n > 0 {
      FromToLE(x / 256, n - 1);
      assert ToLE(x, n)[1..] == ToLE(x / 256, n - 1);
    }
  }

  lemma ByteSplit(low: Byte, rest: nat)
    ensures (low + 256 * rest) % 256 == low && (low + 256 * rest) / 256 == rest
  {
  }

  lemma {:induction false} ToFromLE(b: seq<Byte>)
    ensures ToLE(FromLE(b), |b|) == b && FromLE(b) < Pow256(|b|)
  {
    if |b| > 0 {
      ToFromLE(b[1..]);
      ByteSplit(b[0], FromLE(b[1..]));
      assert b == [b[0]] + b[1..];
    }
  }

  lemma Powers()
    ensures Pow256(4) == U32 && Pow256(8) == WORD
  {
    assert Pow256(2) == 0x1_0000 && Pow256(3) == 0x100_0000;
    assert Pow256(4) == U32;
    assert Pow256(6) == 0x1_0000_0000_0000;
  }

  // ----- the layout of a file

  function WordsLE(w: seq<Bits>): (b: seq<Byte>)
    ensures |b| == 4 * |w|
  {
    if |w| == 0 then [] else WordsLE(w[..|w| - 1]) + ToLE(w[|w| - 1], 4)
  }

  function LayersLE(layers: seq<seq<Bits>>): seq<Byte> {
    if |layers| == 0 then [] else LayersLE(layers[..|layers| - 1]) + WordsLE(layers[|layers| - 1])
  }

  /** The 48 bytes before the first float. */
  function HeaderLE(n: nat, d: nat, rank: nat, frac: nat, residual: nat, digest: nat): (b: seq<Byte>)
    ensures |b| == HEADER
  {
    MAGIC + ToLE(VERSION, 4) + ToLE(n, 4) + ToLE(d, 4) + ToLE(rank, 4)
    + ToLE(frac, 8) + ToLE(residual, 8) + ToLE(digest, 8)
  }

  /** The whole file; a dimension is cut to its low 32 bits. */
  function Encode(b: BitBasis, residual: Word, digest: Word): seq<Byte>
    requires b.frac.Some?
  {
    HeaderLE(|b.layers| % U32, b.d % U32, b.rank % U32, b.frac.value, residual, digest) + LayersLE(b.layers)
  }

  /** The bytes appended in order, or the error of a basis without a fraction. */
  method Write(b: BitBasis, residual: Word, digest: Word) returns (r: Result<seq<Byte>, FileError>)
    ensures r == if b.frac.Some? then Ok(Encode(b, residual, digest)) else Err(Untruncated)
  {
    if b.frac.None? {
      return Err(Untruncated);
    }
    var header := WriteHeader(|b.layers| % U32, b.d % U32, b.rank % U32, b.frac.value, residual, digest);
    var out := WriteLayers(header, b.layers);
    return Ok(out);
  }

  method WriteHeader(n: nat, d: nat, rank: nat, frac: nat, residual: nat, digest: nat) returns (out: seq<Byte>)
    ensures out == HeaderLE(n, d, rank, frac, residual, digest)
  {
    out := MAGIC;
    out := out + ToLE(VERSION, 4);
    out := out + ToLE(n, 4);
    out := out + ToLE(d, 4);
    out := out + ToLE(rank, 4);
    out := out + ToLE(frac, 8);
    out := out + ToLE(residual, 8);
    out := out + ToLE(digest, 8);
  }

  method WriteLayers(header: seq<Byte>, layers: seq<seq<Bits>>) returns (out: seq<Byte>)
    ensures out == header + LayersLE(layers)
  {
    out := header;
    for l := 0 to |layers|
      invariant out == header + LayersLE(layers[..l])
    {
      out := WriteLayer(out, layers[l]);
      assert layers[..l + 1] == layers[..l] + [layers[l]];
      OneMoreLayer(layers[..l], layers[l]);
    }
    assert layers[..|layers|] == layers;
  }

  method WriteLayer(before: seq<Byte>, w: seq<Bits>) returns (out: seq<Byte>)
    ensures out == before + WordsLE(w)
  {
    out := before;
    for k := 0 to |w|
      invariant out == before + WordsLE(w[..k])
    {
      out := out + ToLE(w[k], 4);
      assert w[..k + 1][..k] == w[..k];
    }
    assert w[..|w|] == w;
  }

  // ----- reading

  function U32At(bytes: seq<Byte>, o: nat): nat
    requires o + 4 <= |bytes|
  {
    FromLE(bytes[o..o + 4])
  }

  function U64At(bytes: seq<Byte>, o: nat): (x: Word)
    requires o + 8 <= |bytes|
  {
    ToFromLE(bytes[o..o + 8]);
    Powers();
    FromLE(bytes[o..o + 8])
  }

  function WordsFrom(bytes: seq<Byte>, n: nat): (w: seq<Bits>)
    requires |bytes| == 4 * n
    ensures |w| == n
  {
    if n == 0 then []
    else
      ToFromLE(bytes[4 * (n - 1)..]);
      Powers();
      WordsFrom(bytes[..4 * (n - 1)], n - 1) + [FromLE(bytes[4 * (n - 1)..])]
  }

  /** The bytes of n layers of `per` floats. */
  function Span(n: nat, per: nat): nat {
    if n == 0 then 0 else Span(n - 1, per) + 4 * per
  }

  lemma {:induction false} SpanIsProduct(n: nat, per: nat)
    ensures Span(n, per) == n * per * 4
  {
    if n > 0 {
      SpanIsProduct(n - 1, per);
      assert n * per == (n - 1) * per + per;
    }
  }

  /** The payload cut into layers, each into floats. */
  function LayersFrom(bytes: seq<Byte>, n: nat, per: nat): (layers: seq<seq<Bits>>)
    requires |bytes| == Span(n, per)
    ensures |layers| == n && forall l | 0 <= l < n :: |layers[l]| == per
    decreases n
  {
    if n == 0 then []
    else
      var cut := Span(n - 1, per);
      LayersFrom(bytes[..cut], n - 1, per) + [WordsFrom(bytes[cut..], per)]
  }

  /** What the header must say before the payload is looked at, in the order it is checked. */
  function HeaderFault(bytes: seq<Byte>, e: Expect): Option<FileError> {
    if |bytes| < HEADER || bytes[..8] != MAGIC then Some(Magic)
    else if U32At(bytes, 8) != VERSION then Some(Version(U32At(bytes, 8)))
    else if U32At(bytes, 12) != e.nLayers then Some(Mismatch("layer count", U32At(bytes, 12), e.nLayers))
    else if U32At(bytes, 16) != e.d then Some(Mismatch("projection width", U32At(bytes, 16), e.d))
    else if U32At(bytes, 20) != e.rank then Some(Mismatch("rank", U32At(bytes, 20), e.rank))
    else if U64At(bytes, 24) != e.frac then Some(Mismatch("rank fraction", U64At(bytes, 24), e.frac))
    else if U64At(bytes, 40) != e.woDigest then Some(Mismatch("output-projection digest", U64At(bytes, 40), e.woDigest))
    else None
  }

  /** The layers, once the header has passed. */
  function ReadPayload(payload: seq<Byte>, e: Expect): (r: Result<BitBasis, FileError>)
    ensures r.Ok? ==> r.value.WellFormed()
  {
    var want := e.nLayers * (e.d * e.rank);
    if |payload| != want * 4 then Err(Payload(|payload| / 4, want))
    else
      SpanIsProduct(e.nLayers, e.d * e.rank);
      Ok(BitBasis(LayersFrom(payload, e.nLayers, e.d * e.rank), e.d, e.rank, Some(e.frac)))
  }

  /** Header checks, then the payload; the residual comes along unchecked. */
  function Read(bytes: seq<Byte>, e: Expect): (r: Result<(BitBasis, Word), FileError>)
    ensures r.Ok? ==> r.value.0.WellFormed()
  {
    if HeaderFault(bytes, e).Some? then Err(HeaderFault(bytes, e).value)
    else
      match ReadPayload(bytes[HEADER..], e)
      case Err(fault) => Err(fault)
      case Ok(b) => Ok((b, U64At(bytes, 32)))
  }

  // ----- payload round trips

  lemma {:induction false} WordsFromLE(w: seq<Bits>)
    ensures WordsFrom(WordsLE(w), |w|) == w
  {
    if |w| > 0 {
      var n := |w| - 1;
      WordsFromLE(w[..n]);
      Powers();
      FromToLE(w[n], 4);
      WordsFromJoined(WordsLE(w[..n]), ToLE(w[n], 4), n);
      assert w == w[..n] + [w[n]];
    }
  }

  lemma WordsFromJoined(front: seq<Byte>, back: seq<Byte>, n: nat)
    requires |front| == 4 * n && |back| == 4
    ensures FromLE(back) < U32 && WordsFrom(front + back, n + 1) == WordsFrom(front, n) + [FromLE(back)]
  {
    CutJoined(front, back);
    ToFromLE(back);
    Powers();
  }

  lemma {:induction false} WordsLEFrom(bytes: seq<Byte>, n: nat)
    requires |bytes| == 4 * n
    ensures WordsLE(WordsFrom(bytes, n)) == bytes
  {
    if n > 0 {
      var front, back := CutAt(bytes, 4 * (n - 1));
      WordsLEFrom(front, n - 1);
      ToFromLE(back);
      WordsFromJoined(front, back, n - 1);
      OneMoreWord(WordsFrom(front, n - 1), FromLE(back));
    }
  }

  lemma OneMoreWord(w: seq<Bits>, last: Bits)
    ensures WordsLE(w + [last]) == WordsLE(w) + ToLE(last, 4)
  {
    assert (w + [last])[..|w|] == w;
  }

  lemma {:induction false} LayersFromLE(layers: seq<seq<Bits>>, per: nat)
    requires forall l | 0 <= l < |layers| :: |layers[l]| == per
    ensures |LayersLE(layers)| == Span(|layers|, per)
    ensures LayersFrom(LayersLE(layers), |layers|, per) == layers
  {
    if |layers| > 0 {
      var n := |layers| - 1;
      var (head, last) := (layers[..n], layers[n]);
      LayersFromLE(head, per);
      WordsFromLE(last);
      assert layers == head + [last];
      OneMoreLayer(head, last);
      LayersFromJoined(LayersLE(head), WordsLE(last), n, per);
    }
  }

  lemma LayersFromJoined(front: seq<Byte>, back: seq<Byte>, n: nat, per: nat)
    requires |front| == Span(n, per) && |back| == 4 * per
    ensures LayersFrom(front + back, n + 1, per) == LayersFrom(front, n, per) + [WordsFrom(back, per)]
  {
    CutJoined(front, back);
  }

  lemma CutJoined(front: seq<Byte>, back: seq<Byte>)
    ensures (front + back)[..|front|] == front && (front + back)[|front|..] == back
  {
  }

  lemma {:induction false} LayersLEFrom(bytes: seq<Byte>, n: nat, per: nat)
    requires |bytes| == Span(n, per)
    ensures LayersLE(LayersFrom(bytes, n, per)) == bytes
    decreases n
  {
    if n > 0 {
      var cut := Span(n - 1, per);
      var front, back := CutAt(bytes, cut);
      LayersLEFrom(front, n - 1, per);
      WordsLEFrom(back, per);
      Joined(bytes, front, back, LayersFrom(front, n - 1, per), WordsFrom(back, per));
    }
  }

  lemma CutAt(bytes: seq<Byte>, cut: nat) returns (front: seq<Byte>, back: seq<Byte>)
    requires cut <= |bytes|
    ensures front == bytes[..cut] && back == bytes[cut..] && bytes == front + back
  {
    front, back := bytes[..cut], bytes[cut..];
  }

  lemma Joined(bytes: seq<Byte>, front: seq<Byte>, back: seq<Byte>, layers: seq<seq<Bits>>, last: seq<Bits>)
    requires bytes == front + back && LayersLE(layers) == front && WordsLE(last) == back
    ensures LayersLE(layers + [last]) == bytes
  {
    OneMoreLayer(layers, last);
  }

  lemma OneMoreLayer(layers: seq<seq<Bits>>, last: seq<Bits>)
    ensures LayersLE(layers + [last]) == LayersLE(layers) + WordsLE(last)
  {
    assert (layers + [last])[..|layers|] == layers;
  }

  // ----- header round trips

  /** Where four-byte fields lie behind an eight-byte one. */
  lemma ShortFields(m: seq<Byte>, v: seq<Byte>, n: seq<Byte>, d: seq<Byte>, r: seq<Byte>, tail: seq<Byte>)
    requires |m| == 8 && |v| == |n| == |d| == |r| == 4
    ensures var b := m + v + n + d + r + tail;
      b[..8] == m && b[8..12] == v && b[12..16] == n && b[16..20] == d && b[20..24] == r && b[24..] == tail
  {
  }

  lemma LongFields(front: seq<Byte>, f: seq<Byte>, s: seq<Byte>, g: seq<Byte>, tail: seq<Byte>)
    requires |front| == 24 && |f| == |s| == |g| == 8
    ensures var b := front + f + s + g + tail;
      b[24..32] == f && b[32..40] == s && b[40..48] == g && b[48..] == tail
  {
  }

  lemma HeaderFields(n: nat, d: nat, rank: nat, frac: nat, residual: nat, digest: nat, tail: seq<Byte>)
    ensures var b := HeaderLE(n, d, rank, frac, residual, digest) + tail;
      && b[..8] == MAGIC && b[8..12] == ToLE(VERSION, 4) && b[12..16] == ToLE(n, 4) && b[16..20] == ToLE(d, 4)
        && b[20..24] == ToLE(rank, 4)
      && b[24..32] == ToLE(frac, 8) && b[32..40] == ToLE(residual, 8) && b[40..48] == ToLE(digest, 8)
        && b[HEADER..] == tail
  {
    FieldsOf(MAGIC, ToLE(VERSION, 4), ToLE(n, 4), ToLE(d, 4), ToLE(rank, 4), ToLE(frac, 8), ToLE(residual, 8),
             ToLE(digest, 8), tail);
  }

  lemma FieldsOf(m: seq<Byte>, v: seq<Byte>, n: seq<Byte>, d: seq<Byte>, r: seq<Byte>, f: seq<Byte>, s: seq<Byte>,
                 g: seq<Byte>, tail: seq<Byte>)
    requires |m| == 8 && |v| == |n| == |d| == |r| == 4 && |f| == |s| == |g| == 8
    ensures var b := m + v + n + d + r + f + s + g + tail;
      && b[..8] == m && b[8..12] == v && b[12..16] == n && b[16..20] == d && b[20..24] == r
      && b[24..32] == f && b[32..40] == s && b[40..48] == g && b[48..] == tail
  {
    ShortFields(m, v, n, d, r, f + s + g + tail);
    LongFields(m + v + n + d + r, f, s, g, tail);
    assert m + v + n + d + r + f + s + g + tail == m + v + n + d + r + (f + s + g + tail);
  }

  lemma HeaderReads(n: nat, d: nat, rank: nat, frac: Word, residual: Word, digest: Word, tail: seq<Byte>)
    requires n < U32 && d < U32 && rank < U32
    ensures var b := HeaderLE(n, d, rank, frac, residual, digest) + tail;
      && U32At(b, 8) == VERSION && U32At(b, 12) == n && U32At(b, 16) == d && U32At(b, 20) == rank
      && U64At(b, 24) == frac && U64At(b, 32) == residual && U64At(b, 40) == digest
  {
    HeaderFields(n, d, rank, frac, residual, digest, tail);
    Powers();
    FromToLE(VERSION, 4);
    FromToLE(n, 4);
    FromToLE(d, 4);
    FromToLE(rank, 4);
    FromToLE(frac, 8);
    FromToLE(residual, 8);
    FromToLE(digest, 8);
  }

  /** A header is determined by the numbers it reads as. */
  lemma HeaderDetermined(b: seq<Byte>)
    requires |b| >= HEADER && b[..8] == MAGIC && U32At(b, 8) == VERSION
    ensures b[..HEADER] == HeaderLE(U32At(b, 12), U32At(b, 16), U32At(b, 20), U64At(b, 24), U64At(b, 32), U64At(b, 40))
    ensures U32At(b, 12) < U32 && U32At(b, 16) < U32 && U32At(b, 20) < U32
  {
    Powers();
    ToFromLE(b[8..12]);
    ToFromLE(b[12..16]);
    ToFromLE(b[16..20]);
    ToFromLE(b[20..24]);
    ToFromLE(b[24..32]);
    ToFromLE(b[32..40]);
    ToFromLE(b[40..48]);
    assert b[..48] == b[..8] + b[8..12] + b[12..16] + b[16..20] + b[20..24] + b[24..32] + b[32..40] + b[40..48];
  }

  // ----- the two directions

  function ExpectOf(b: BitBasis, digest: Word): Expect
    requires b.frac.Some?
  {
    Expect(|b.layers|, b.d, b.rank, b.frac.value, digest)
  }

  /** A written basis reads back bit for bit, exactly when its dimensions fit 32 bits. */
  lemma ReadOfWrite(b: BitBasis, residual: Word, digest: Word)
    requires b.WellFormed() && b.frac.Some?
    ensures Read(Encode(b, residual, digest), ExpectOf(b, digest)) == Ok((b, residual)) <==> b.Fits()
  {
    var (n, d, rank) := (|b.layers| % U32, b.d % U32, b.rank % U32);
    var bytes := Encode(b, residual, digest);
    HeaderReads(n, d, rank, b.frac.value, residual, digest, LayersLE(b.layers));
    HeaderFields(n, d, rank, b.frac.value, residual, digest, LayersLE(b.layers));
    FitsIsHeaderMatch(b, bytes, digest);
    PayloadReads(b, digest);
    assert bytes[HEADER..] == LayersLE(b.layers);
  }

  lemma PayloadReads(b: BitBasis, digest: Word)
    requires b.WellFormed() && b.frac.Some?
    ensures ReadPayload(LayersLE(b.layers), ExpectOf(b, digest)) == Ok(b)
  {
    LayersFromLE(b.layers, b.d * b.rank);
    SpanIsProduct(|b.layers|, b.d * b.rank);
  }

  lemma PayloadWrites(payload: seq<Byte>, e: Expect)
    requires ReadPayload(payload, e).Ok?
    ensures LayersLE(ReadPayload(payload, e).value.layers) == payload
      && |ReadPayload(payload, e).value.layers| == e.nLayers
  {
    SpanIsProduct(e.nLayers, e.d * e.rank);
    LayersLEFrom(payload, e.nLayers, e.d * e.rank);
  }

  lemma FitsIsHeaderMatch(b: BitBasis, bytes: seq<Byte>, digest: Word)
    requires b.frac.Some? && |bytes| >= HEADER && bytes[..8] == MAGIC
    requires U32At(bytes, 8) == VERSION && U32At(bytes, 12) == |b.layers| % U32 && U32At(bytes, 16) == b.d % U32
    requires U32At(bytes, 20) == b.rank % U32 && U64At(bytes, 24) == b.frac.value && U64At(bytes, 40) == digest
    ensures HeaderFault(bytes, ExpectOf(b, digest)) == None <==> b.Fits()
  {
  }

  lemma AcceptedHeader(bytes: seq<Byte>, e: Expect)
    requires HeaderFault(bytes, e) == None
    ensures e.nLayers < U32 && e.d < U32 && e.rank < U32
    ensures bytes[..HEADER] == HeaderLE(e.nLayers, e.d, e.rank, e.frac, U64At(bytes, 32), e.woDigest)
  {
    HeaderMatches(bytes, e);
    HeaderDetermined(bytes);
  }

  lemma HeaderMatches(bytes: seq<Byte>, e: Expect)
    requires HeaderFault(bytes, e) == None
    ensures |bytes| >= HEADER && bytes[..8] == MAGIC && U32At(bytes, 8) == VERSION && U32At(bytes, 12) == e.nLayers
    ensures U32At(bytes, 16) == e.d && U32At(bytes, 20) == e.rank && U64At(bytes, 24) == e.frac
      && U64At(bytes, 40) == e.woDigest
  {
  }

  lemma EncodeFitting(b: BitBasis, residual: Word, digest: Word)
    requires b.frac.Some? && b.Fits()
    ensures Encode(b, residual, digest)
      == HeaderLE(|b.layers|, b.d, b.rank, b.frac.value, residual, digest) + LayersLE(b.layers)
  {
    assert |b.layers| % U32 == |b.layers| && b.d % U32 == b.d && b.rank % U32 == b.rank;
  }

  lemma Emitted(bytes: seq<Byte>, e: Expect, b: BitBasis, residual: Word)
    requires HeaderFault(bytes, e) == None && ReadPayload(bytes[HEADER..], e) == Ok(b)
    requires bytes[..HEADER] == HeaderLE(e.nLayers, e.d, e.rank, e.frac, residual, e.woDigest)
    requires e.nLayers < U32 && e.d < U32 && e.rank < U32
    ensures b.Fits() && b.frac.Some? && Encode(b, residual, e.woDigest) == bytes
  {
    PayloadWrites(bytes[HEADER..], e);
    EncodeFitting(b, residual, e.woDigest);
    assert bytes == bytes[..HEADER] + bytes[HEADER..];
  }

  /** Any bytes the reader accepts are what the writer would emit for the value it returns. */
  lemma WriteOfRead(bytes: seq<Byte>, e: Expect)
    requires Read(bytes, e).Ok?
    ensures var (b, residual) := Read(bytes, e).value;
      b.Fits() && b.frac.Some? && Encode(b, residual, e.woDigest) == bytes
  {
    AcceptedHeader(bytes, e);
    Emitted(bytes, e, Read(bytes, e).value.0, Read(bytes, e).value.1);
  }

  /** b is a basis of the expected model. */
  ghost predicate Belongs(b: BitBasis, e: Expect) {
    b.WellFormed() && |b.layers| == e.nLayers && b.d == e.d && b.rank == e.rank && b.frac == Some(e.frac)
  }

  /** The reader accepts exactly the writer's bytes for a basis of the expected model, and returns that basis. */
  lemma ReadExactly(bytes: seq<Byte>, e: Expect, b: BitBasis, residual: Word)
    ensures Read(bytes, e) == Ok((b, residual)) <==>
      Belongs(b, e) && b.Fits() && bytes == Encode(b, residual, e.woDigest)
  {
    if Read(bytes, e) == Ok((b, residual)) {
      WriteOfRead(bytes, e);
    }
    if Belongs(b, e) && b.Fits() && bytes == Encode(b, residual, e.woDigest) {
      ReadOfWrite(b, residual, e.woDigest);
      assert ExpectOf(b, e.woDigest) == e;
    }
  }

  // ----- the file byte by byte

  /** Byte i of a little-endian number is its i-th digit to the base 256. */
  lemma {:induction false} ByteOfNumber(x: nat, n: nat, i: nat)
    requires i < n
    ensures Pow256(i) > 0 && ToLE(x, n)[i] == (x / Pow256(i)) % 256
  {
    if i > 0 {
      ByteOfNumber(x / 256, n - 1, i - 1);
      DivideTwice(x, Pow256(i - 1));
    }
  }

  lemma DivideTwice(x: nat, p: nat)
    requires p > 0
    ensures (x / 256) / p == x / (256 * p)
  {
    var (q, r) := (x / 256, x % 256);
    var (a, b) := (q / p, q % p);
    var (c, d) := (x / (256 * p), x % (256 * p));
    Regrouped(a, b, r, p);
    assert Ix(a, 256 * b + r, 256 * p) == x == Ix(c, d, 256 * p);
    IxInjective(a, 256 * b + r, c, d, 256 * p);
  }

  lemma Regrouped(a: int, b: int, r: int, p: int)
    ensures 256 * (a * p + b) + r == a * (256 * p) + (256 * b + r)
  {
  }

  /** Where everything of a file stands: the name, version 1, the dimensions, the numbers, then the floats. */
  lemma FileLayout(b: BitBasis, residual: Word, digest: Word)
    requires b.frac.Some?
    ensures var f := Encode(b, residual, digest);
      && |f| >= 48 && f[..8] == [65, 82, 71, 85, 83, 87, 79, 66] && f[8..12] == [1, 0, 0, 0]
      && f[12..16] == ToLE(|b.layers| % 0x1_0000_0000, 4) && f[16..20] == ToLE(b.d % 0x1_0000_0000, 4)
      && f[20..24] == ToLE(b.rank % 0x1_0000_0000, 4) && f[24..32] == ToLE(b.frac.value, 8)
      && f[32..40] == ToLE(residual, 8) && f[40..48] == ToLE(digest, 8) && f[48..] == LayersLE(b.layers)
  {
    HeaderFields(|b.layers| % U32, b.d % U32, b.rank % U32, b.frac.value, residual, digest, LayersLE(b.layers));
    VersionBytes();
  }

  lemma VersionBytes()
    ensures ToLE(VERSION, 4) == [1, 0, 0, 0]
  {
    assert ToLE(0, 1) == [0] && ToLE(0, 2) == [0, 0] && ToLE(0, 3) == [0, 0, 0];
  }

  lemma {:induction false} WordAt(w: seq<Bits>, k: nat)
    requires k < |w|
    ensures WordsLE(w)[4 * k..4 * k + 4] == ToLE(w[k], 4)
  {
    var n := |w| - 1;
    if k < n {
      WordAt(w[..n], k);
      assert WordsLE(w)[..4 * n] == WordsLE(w[..n]);
      assert WordsLE(w)[4 * k..4 * k + 4] == WordsLE(w[..n])[4 * k..4 * k + 4];
    }
  }

  /** Layer l begins behind the l layers before it, and its floats follow one another. */
  lemma {:induction false} LayerAt(layers: seq<seq<Bits>>, per: nat, l: nat)
    requires l < |layers| && forall i | 0 <= i < |layers| :: |layers[i]| == per
    ensures |LayersLE(layers)| == Span(|layers|, per) && Span(l, per) + 4 * per <= |LayersLE(layers)|
    ensures LayersLE(layers)[Span(l, per)..Span(l, per) + 4 * per] == WordsLE(layers[l])
  {
    var n := |layers| - 1;
    var (front, back) := (layers[..n], layers[n]);
    LayersLength(front, per);
    OneMoreLayer(front, back);
    assert layers == front + [back];
    if l < n {
      LayerAt(front, per, l);
      PrefixSlice(LayersLE(layers), LayersLE(front), WordsLE(back), Span(l, per), 4 * per);
    } else {
      BackSlice(LayersLE(layers), LayersLE(front), WordsLE(back), Span(l, per), 4 * per);
    }
  }

  lemma {:induction false} LayersLength(layers: seq<seq<Bits>>, per: nat)
    requires forall i | 0 <= i < |layers| :: |layers[i]| == per
    ensures |LayersLE(layers)| == Span(|layers|, per)
  {
    if |layers| > 0 { LayersLength(layers[..|layers| - 1], per); }
  }

  lemma BackSlice(all: seq<Byte>, a: seq<Byte>, b: seq<Byte>, x: nat, n: nat)
    requires all == a + b && x == |a| && n == |b|
    ensures all[x..x + n] == b
  {
  }

  lemma PrefixSlice(all: seq<Byte>, a: seq<Byte>, b: seq<Byte>, x: nat, n: nat)
    requires all == a + b && x + n <= |a|
    ensures all[x..x + n] == a[x..x + n]
  {
  }
}
