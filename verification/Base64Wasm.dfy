/** The WebAssembly SIMD128 Base64 blocks: byte swizzles, shifts of 16- and 32-bit lanes, table lookup. */
module Base64Wasm {
  import opened Machine
  import opened Bits
  import opened Base64
  import opened Base64Scalar
  import opened Base64Decode
  import opened Base64Neon

  /** A 128-bit vector as sixteen bytes. */
  type V128 = s: seq<u8> | |s| == 16 witness [0, 0, 0, 0, 0, 0, 0, 0, 0, 0, 0, 0, 0, 0, 0, 0]

  /** One of its 32-bit lanes, byte by byte. No shift used here crosses a 32-bit lane. */
  datatype Quad = Quad(b0: u8, b1: u8, b2: u8, b3: u8)

  // ---------------------------------------------------------------------------
  // The instructions
  // ---------------------------------------------------------------------------

  function Load(src: seq<u8>, at: nat): V128
    requires at + 16 <= |src|
  {
    src[at..at + 16]
  }

  /** `u8x16_swizzle`: an index out of range gives zero. */
  function Swizzle(v: V128, idx: V128): V128 {
    seq(16, i requires 0 <= i < 16 => if idx[i] < 16 then v[idx[i]] else 0)
  }

  function QuadAt(v: V128, k: nat): Quad
    requires k < 4
  {
    Quad(v[4 * k], v[4 * k + 1], v[4 * k + 2], v[4 * k + 3])
  }

  function FromQuads(q0: Quad, q1: Quad, q2: Quad, q3: Quad): V128 {
    [q0.b0, q0.b1, q0.b2, q0.b3, q1.b0, q1.b1, q1.b2, q1.b3, q2.b0, q2.b1, q2.b2, q2.b3, q3.b0, q3.b1, q3.b2, q3.b3]
  }

  function QAnd(x: Quad, y: Quad): Quad { Quad(And(x.b0, y.b0), And(x.b1, y.b1), And(x.b2, y.b2), And(x.b3, y.b3)) }

  function QOr(x: Quad, y: Quad): Quad { Quad(Or8(x.b0, y.b0), Or8(x.b1, y.b1), Or8(x.b2, y.b2), Or8(x.b3, y.b3)) }

  function Wide16(lo: nat, hi: nat): nat { lo + 256 * hi }

  function Wide32(q: Quad): nat { Wide16(q.b0, q.b1) + 0x1_0000 * Wide16(q.b2, q.b3) }

  /** The low two bytes of a number. */
  function Byte0(x: nat): u8 { x % 256 }

  function Byte1(x: nat): u8 { x / 256 % 256 }

  function FromWide32(x: nat): Quad { Quad(Byte0(x), Byte1(x), Byte0(x / 0x1_0000), Byte1(x / 0x1_0000)) }

  function Quotient(x: nat, n: nat): nat
    requires n > 0
  {
    x / n
  }

  /** `u16x8_shr` and `u16x8_shl`, by as many bits as `n` has zeros: each 16-bit lane on its own. */
  function U16Shr(q: Quad, n: nat): Quad
    requires n > 0
  {
    var lo, hi := Quotient(Wide16(q.b0, q.b1), n), Quotient(Wide16(q.b2, q.b3), n);
    Quad(Byte0(lo), Byte1(lo), Byte0(hi), Byte1(hi))
  }

  function U16Shl(q: Quad, n: nat): Quad {
    var lo, hi := Wide16(q.b0, q.b1) * n % 0x1_0000, Wide16(q.b2, q.b3) * n % 0x1_0000;
    Quad(Byte0(lo), Byte1(lo), Byte0(hi), Byte1(hi))
  }

  function U32Shr(q: Quad, n: nat): Quad
    requires n > 0
  {
    FromWide32(Quotient(Wide32(q), n))
  }

  function U32Shl(q: Quad, n: nat): Quad { FromWide32(Wide32(q) * n % 0x1_0000_0000) }

  // ---------------------------------------------------------------------------
  // Splitting
  // ---------------------------------------------------------------------------

  const SPLIT_SHUFFLE: V128 := [1, 0, 2, 1, 4, 3, 5, 4, 7, 6, 8, 7, 10, 9, 11, 10]

  /** One lane of `split_bits`, after the swizzle. */
  function SplitQuad(q: Quad): Quad {
    var a := U16Shr(QAnd(q, Quad(0, 0xFC, 0, 0)), 1024);
    var b := U16Shl(QAnd(q, Quad(0xF0, 3, 0, 0)), 16);
    var c := U16Shr(QAnd(q, Quad(0, 0, 0xC0, 0x0F)), 64);
    var d := U16Shl(QAnd(q, Quad(0, 0, 0x3F, 0)), 256);
    QOr(QOr(a, b), QOr(c, d))
  }

  /** The masks of the high bits. */
  lemma HighMask2(b: u8)
    ensures And(b, 0xFC) == 4 * (b / 4)
  {
    hide And, Shl;
    Powers();
    ShlIs(b / 4);
    ShlIs(63);
    AndAbove(b / 4, b % 4, 63, 2);
    Masks(b / 4);
  }

  lemma HighMask4(b: u8)
    ensures And(b, 0xF0) == 16 * (b / 16)
  {
    hide And, Shl;
    Powers();
    ShlIs(b / 16);
    ShlIs(15);
    AndAbove(b / 16, b % 16, 15, 4);
    Masks(b / 16);
  }

  lemma HighMask6(b: u8)
    ensures And(b, 0xC0) == 64 * (b / 64)
  {
    hide And, Shl;
    Powers();
    ShlIs(b / 64);
    ShlIs(3);
    AndAbove(b / 64, b % 64, 3, 6);
    Masks(b / 64);
  }

  lemma ZeroMask(b: u8)
    ensures And(b, 0) == 0
  {
  }

  lemma Or8WithZero(a: u8)
    ensures Or8(0, a) == a && Or8(a, 0) == a
  {
    hide Or;
    OrWithZero(a);
  }

  /** The four masked and shifted copies. */
  lemma CopyA(b0: u8, b1: u8, b2: u8)
    ensures U16Shr(QAnd(Quad(b1, b0, b2, b1), Quad(0, 0xFC, 0, 0)), 1024) == Quad(b0 / 4, 0, 0, 0)
  {
    hide And;
    HighMask2(b0);
    ZeroMask(b1);
    ZeroMask(b2);
  }

  lemma BytesOf(x: u8)
    ensures Byte0(x) == x && Byte1(x) == 0
    ensures Byte0(256 * x) == 0 && Byte1(256 * x) == x && 256 * x % 0x1_0000 == 256 * x
    ensures Byte0(0) == 0 && Byte1(0) == 0
  {
  }

  lemma CopyB(b0: u8, b1: u8, b2: u8)
    ensures U16Shl(QAnd(Quad(b1, b0, b2, b1), Quad(0xF0, 3, 0, 0)), 16) == Quad(0, b0 % 4 * 16 + b1 / 16, 0, 0)
  {
    hide And, Byte0, Byte1;
    HighMask4(b1);
    Masks(b0);
    ZeroMask(b1);
    ZeroMask(b2);
    var x := b0 % 4 * 16 + b1 / 16;
    assert Wide16(16 * (b1 / 16), b0 % 4) * 16 == 256 * x;
    BytesOf(x);
  }

  lemma CopyC(b0: u8, b1: u8, b2: u8)
    ensures U16Shr(QAnd(Quad(b1, b0, b2, b1), Quad(0, 0, 0xC0, 0x0F)), 64) == Quad(0, 0, b1 % 16 * 4 + b2 / 64, 0)
  {
    hide And, Byte0, Byte1;
    HighMask6(b2);
    Masks(b1);
    ZeroMask(b1);
    ZeroMask(b0);
    var x := b1 % 16 * 4 + b2 / 64;
    assert Wide16(64 * (b2 / 64), b1 % 16) == 64 * x;
    BytesOf(x);
  }

  lemma CopyD(b0: u8, b1: u8, b2: u8)
    ensures U16Shl(QAnd(Quad(b1, b0, b2, b1), Quad(0, 0, 0x3F, 0)), 256) == Quad(0, 0, 0, b2 % 64)
  {
    hide And, Byte0, Byte1;
    Masks(b2);
    ZeroMask(b1);
    ZeroMask(b0);
    BytesOf(b2 % 64);
  }

  /** One triple, swizzled, splits into its four sextets. */
  lemma SplitQuadIs(b0: u8, b1: u8, b2: u8)
    ensures SplitQuad(Quad(b1, b0, b2, b1))
         == Quad(SextetOf(b0, b1, b2, 0), SextetOf(b0, b1, b2, 1), SextetOf(b0, b1, b2, 2), SextetOf(b0, b1, b2, 3))
  {
    hide U16Shr, U16Shl, QAnd, Or8;
    CopyA(b0, b1, b2);
    CopyB(b0, b1, b2);
    CopyC(b0, b1, b2);
    CopyD(b0, b1, b2);
    Or8WithZero(0);
    Or8WithZero(SextetOf(b0, b1, b2, 0));
    Or8WithZero(SextetOf(b0, b1, b2, 1));
    Or8WithZero(SextetOf(b0, b1, b2, 2));
    Or8WithZero(SextetOf(b0, b1, b2, 3));
  }

  /** `split_bits`. */
  function SplitBits(input: V128): V128 {
    var v := Swizzle(input, SPLIT_SHUFFLE);
    FromQuads(SplitQuad(QuadAt(v, 0)), SplitQuad(QuadAt(v, 1)), SplitQuad(QuadAt(v, 2)), SplitQuad(QuadAt(v, 3)))
  }

  lemma SplitBitsIs(input: V128, k: nat, r: nat)
    requires k < 4 && r < 4
    ensures SplitBits(input)[4 * k + r] == SextetOf(input[3 * k], input[3 * k + 1], input[3 * k + 2], r)
  {
    hide SplitQuad, SextetOf, Swizzle, QuadAt;
    SplitQuadIs(input[3 * k], input[3 * k + 1], input[3 * k + 2]);
    SplitShuffleIs(input, k);
  }

  lemma SplitShuffleIs(input: V128, k: nat)
    requires k < 4
    ensures QuadAt(Swizzle(input, SPLIT_SHUFFLE), k)
         == Quad(input[3 * k + 1], input[3 * k], input[3 * k + 2], input[3 * k + 1])
  {
  }

  // ---------------------------------------------------------------------------
  // Table lookup
  // ---------------------------------------------------------------------------

  const ENCODE_SHIFT: V128 := [71, 252, 252, 252, 252, 252, 252, 252, 252, 252, 252, 237, 240, 65, 0x80, 0x80]

  function SubSat(x: u8, y: u8): u8 { if x < y then 0 else x - y }

  /** The signed value of a byte lane. */
  function Signed(x: u8): int { if x < 128 then x else x - 256 }

  /** One lane of `encode_values`: the range picks the distance to the alphabet. */
  function LookupChar(x: u8): u8 {
    var ranges := SubSat(x, 51);
    var upper := And(Mask(Signed(x) < 26), 13);
    var index := Or8(ranges, upper);
    VAdd(x, if index < 16 then ENCODE_SHIFT[index] else 0)
  }

  lemma LookupCharIs(x: u8)
    requires x < 64
    ensures LookupChar(x) == Alphabet(x)
  {
    hide And, Or8;
    MaskKeeps(Signed(x) < 26, 13);
    Or8WithZero(SubSat(x, 51));
    Or8WithZero(13);
  }

  /** One 12-byte block as 16 characters. */
  function EncodeVector(input: V128): V128 {
    seq(16, i requires 0 <= i < 16 => LookupChar(SplitBits(input)[i]))
  }

  /** A byte of the vector is a character of the encoding. */
  lemma VectorIsCharacters(src: seq<u8>, consumed: nat, k: nat, r: nat)
    requires consumed + 16 <= |src| && consumed % 3 == 0 && k < 4 && r < 4
    ensures EncodeVector(Load(src, consumed))[4 * k + r] == Alphabet(SextetAt(src, consumed / 3 * 4 + 4 * k + r))
  {
    hide SplitBits, SextetAt, SextetOf, LookupChar, Alphabet;
    var g := consumed / 3 + k;
    SplitBitsIs(Load(src, consumed), k, r);
    SextetsHold(src, g, r);
    LookupCharIs(SextetAt(src, 4 * g + r));
  }

  // ---------------------------------------------------------------------------
  // Encoding
  // ---------------------------------------------------------------------------

  /** `v128_store`. */
  method Store(dst: array<u8>, at: nat, v: seq<u8>)
    requires at + |v| <= dst.Length
    modifies dst
    ensures forall i :: 0 <= i < |v| ==> dst[at + i] == v[i]
    ensures forall j :: 0 <= j < at || at + |v| <= j < dst.Length ==> dst[j] == old(dst[j])
  {
    for i := 0 to |v|
      invariant forall m :: 0 <= m < i ==> dst[at + m] == v[m]
      invariant forall j :: 0 <= j < at || at + |v| <= j < dst.Length ==> dst[j] == old(dst[j])
    {
      dst[at + i] := v[i];
    }
  }

  /** One block: sixteen bytes are loaded, twelve of them encoded. */
  method EncodeBlock(dst: array<u8>, at: nat, src: seq<u8>, consumed: nat)
    requires consumed + 16 <= |src| && consumed % 3 == 0 && consumed / 3 * 4 + 16 <= B64Len(|src|)
    requires at + B64Len(|src|) < dst.Length && Encoded(dst, at, src, consumed / 3 * 4)
    modifies dst
    ensures Encoded(dst, at, src, consumed / 3 * 4 + 16)
    ensures dst[..at] == old(dst[..at]) && dst[at + B64Len(|src|)..] == old(dst[at + B64Len(|src|)..])
  {
    hide SextetAt, Alphabet, EncodeVector, Load, B64Len;
    var written := consumed / 3 * 4;
    Store(dst, at + written, EncodeVector(Load(src, consumed)));
    forall j | 0 <= j < written + 16
      ensures dst[at + j] == Alphabet(SextetAt(src, j))
    {
      if j >= written {
        var k, r := (j - written) / 4, (j - written) % 4;
        VectorIsCharacters(src, consumed, k, r);
        assert j == written + 4 * k + r;
        assert dst[at + written + (j - written)] == EncodeVector(Load(src, consumed))[j - written];
      }
    }
  }

  /** `encode`: blocks of 12 bytes, as long as a whole vector can be loaded. */
  method EncodePrefix(dst: array<u8>, at: nat, src: seq<u8>) returns (consumed: nat, written: nat)
    requires at + B64Len(|src|) < dst.Length
    modifies dst
    ensures consumed <= |src| && consumed % 3 == 0 && written == consumed / 3 * 4 <= B64Len(|src|)
    ensures Encoded(dst, at, src, written)
    ensures dst[..at] == old(dst[..at]) && dst[at + B64Len(|src|)..] == old(dst[at + B64Len(|src|)..])
    ensures |src| - consumed < 16
  {
    hide Encoded, B64Len;
    consumed, written := 0, 0;
    NothingEncoded(dst, at, src);
    while |src| - consumed >= 16
      invariant consumed <= |src| && consumed % 3 == 0 && written == consumed / 3 * 4 <= B64Len(|src|)
      invariant Encoded(dst, at, src, written)
      invariant dst[..at] == old(dst[..at]) && dst[at + B64Len(|src|)..] == old(dst[at + B64Len(|src|)..])
    {
      BlockFits(|src|, consumed, 4);
      EncodeBlock(dst, at, src, consumed);
      consumed := consumed + 12;
      written := written + 16;
    }
  }

  // ---------------------------------------------------------------------------
  // Merging
  // ---------------------------------------------------------------------------

  const MERGE_SHUFFLE: V128 := [2, 1, 0, 6, 5, 4, 10, 9, 8, 14, 13, 12, 0x80, 0x80, 0x80, 0x80]

  /** One lane of `merge_bits`, before the swizzle. */
  function MergeQuad(q: Quad): Quad {
    var odd := QAnd(q, Quad(0x3F, 0, 0x3F, 0));
    var even := QAnd(q, Quad(0, 0x3F, 0, 0x3F));
    var o := QOr(U32Shl(odd, 0x4_0000), U32Shr(odd, 0x400));
    var e := QOr(U32Shl(even, 0x10), U32Shr(even, 0x100_0000));
    QAnd(QOr(o, e), Quad(0xFF, 0xFF, 0xFF, 0))
  }

  lemma Divide(x: nat, n: nat, q: nat, r: nat)
    requires (n == 0x100 || n == 0x400 || n == 0x1_0000 || n == 0x100_0000 || n == 0x1_0000_0000)
    requires x == n * q + r && r < n
    ensures x / n == q && x % n == r
  {
  }

  /** A number is read back from its four bytes. */
  lemma FromWide32Is(b0: u8, b1: u8, b2: u8, b3: u8)
    ensures FromWide32(b0 + 0x100 * b1 + 0x1_0000 * b2 + 0x100_0000 * b3) == Quad(b0, b1, b2, b3)
  {
    var x := b0 + 0x100 * b1 + 0x1_0000 * b2 + 0x100_0000 * b3;
    Divide(x, 0x1_0000, b2 + 0x100 * b3, b0 + 0x100 * b1);
    Divide(x, 0x100, b1 + 0x100 * (b2 + 0x100 * b3), b0);
    Divide(b1 + 0x100 * (b2 + 0x100 * b3), 0x100, b2 + 0x100 * b3, b1);
    Divide(b2 + 0x100 * b3, 0x100, b3, b2);
  }

  lemma OddShifts(s0: nat, s2: nat)
    requires s0 < 64 && s2 < 64
    ensures U32Shl(Quad(s0, 0, s2, 0), 0x4_0000) == Quad(0, 0, s0 * 4, 0)
    ensures U32Shr(Quad(s0, 0, s2, 0), 0x400) == Quad(s2 % 4 * 64, s2 / 4, 0, 0)
  {
    hide FromWide32;
    var x := Wide32(Quad(s0, 0, s2, 0));
    assert x == s0 + 0x1_0000 * s2;
    Divide(x * 0x4_0000, 0x1_0000_0000, 4 * s2, 0x1_0000 * (s0 * 4));
    FromWide32Is(0, 0, s0 * 4, 0);
    Divide(x, 0x400, 64 * s2, s0);
    FromWide32Is(s2 % 4 * 64, s2 / 4, 0, 0);
  }

  lemma EvenShifts(s1: nat, s3: nat)
    requires s1 < 64 && s3 < 64
    ensures U32Shl(Quad(0, s1, 0, s3), 0x10) == Quad(0, s1 % 16 * 16, s1 / 16, s3 % 16 * 16)
    ensures U32Shr(Quad(0, s1, 0, s3), 0x100_0000) == Quad(s3, 0, 0, 0)
  {
    hide FromWide32;
    var x := Wide32(Quad(0, s1, 0, s3));
    assert x == 0x100 * s1 + 0x100_0000 * s3;
    Divide(x * 0x10, 0x1_0000_0000, s3 / 16, 0x100 * (s1 % 16 * 16) + 0x1_0000 * (s1 / 16)
      + 0x100_0000 * (s3 % 16 * 16));
    FromWide32Is(0, s1 % 16 * 16, s1 / 16, s3 % 16 * 16);
    Divide(x, 0x100_0000, s3, 0x100 * s1);
    FromWide32Is(s3, 0, 0, 0);
  }

  lemma SextetMask(s: nat)
    requires s < 64
    ensures And(s, 0x3F) == s && And(s, 0) == 0
  {
    hide And;
    Masks(s);
  }

  lemma ByteMask(b: u8)
    ensures And(b, 0xFF) == b
  {
    hide And;
    Masks(b);
  }

  /** Four sextets merge into three bytes, last byte first. */
  lemma MergeQuadIs(s0: nat, s1: nat, s2: nat, s3: nat)
    requires s0 < 64 && s1 < 64 && s2 < 64 && s3 < 64
    ensures MergeQuad(Quad(s0, s1, s2, s3))
         == Quad(OctetOf(s0, s1, s2, s3, 2), OctetOf(s0, s1, s2, s3, 1), OctetOf(s0, s1, s2, s3, 0), 0)
  {
    hide And, Or, Or8, U32Shl, U32Shr, OctetOf;
    SextetMask(s0);
    SextetMask(s1);
    SextetMask(s2);
    SextetMask(s3);
    OddShifts(s0, s2);
    EvenShifts(s1, s3);
    MergedBytes(s0, s1, s2, s3);
    ByteMask(OctetOf(s0, s1, s2, s3, 0));
    ByteMask(OctetOf(s0, s1, s2, s3, 1));
    ByteMask(OctetOf(s0, s1, s2, s3, 2));
    ZeroMask(Or8(Or8(0, 0), Or8(s3 % 16 * 16, 0)));
  }

  lemma MergedBytes(s0: nat, s1: nat, s2: nat, s3: nat)
    requires s0 < 64 && s1 < 64 && s2 < 64 && s3 < 64
    ensures Or8(Or8(0, s2 % 4 * 64), Or8(0, s3)) == OctetOf(s0, s1, s2, s3, 2)
    ensures Or8(Or8(0, s2 / 4), Or8(s1 % 16 * 16, 0)) == OctetOf(s0, s1, s2, s3, 1)
    ensures Or8(Or8(s0 * 4, 0), Or8(s1 / 16, 0)) == OctetOf(s0, s1, s2, s3, 0)
  {
    hide Or;
    OrWithZero(s2 % 4 * 64);
    OrWithZero(s3);
    OrWithZero(s2 / 4);
    OrWithZero(s1 % 16 * 16);
    OrWithZero(s0 * 4);
    OrWithZero(s1 / 16);
    OrIs(s2 % 4, s3);
    OrIs(s1 % 16, s2 / 4);
    OrIs(s0, s1 / 16);
  }

  /** `merge_bits`. */
  function MergeBits(v: V128): V128 {
    Swizzle(FromQuads(MergeQuad(QuadAt(v, 0)), MergeQuad(QuadAt(v, 1)), MergeQuad(QuadAt(v, 2)),
      MergeQuad(QuadAt(v, 3))), MERGE_SHUFFLE)
  }

  lemma MergeBitsIs(v: V128, k: nat, r: nat)
    requires k < 4 && r < 3
    requires v[4 * k] < 64 && v[4 * k + 1] < 64 && v[4 * k + 2] < 64 && v[4 * k + 3] < 64
    ensures MergeBits(v)[3 * k + r] == OctetOf(v[4 * k], v[4 * k + 1], v[4 * k + 2], v[4 * k + 3], r)
  {
    hide MergeQuad, OctetOf;
    MergeQuadIs(v[4 * k], v[4 * k + 1], v[4 * k + 2], v[4 * k + 3]);
  }

  // ---------------------------------------------------------------------------
  // Decoding
  // ---------------------------------------------------------------------------

  /** `decode_values`: nothing if the bitmask of the validity lanes is not full. */
  function DecodeValues(input: V128): (r: Option<V128>)
    ensures r.Some? <==> forall i :: 0 <= i < 16 ==> LaneValid(input[i]) >= 0x80
  {
    if forall i :: 0 <= i < 16 ==> LaneValid(input[i]) >= 0x80 then
      Some(seq(16, i requires 0 <= i < 16 => LaneValue(input[i])))
    else None
  }

  lemma DecodeValuesIs(input: V128)
    ensures DecodeValues(input).Some? <==> forall i :: 0 <= i < 16 ==> IsAlphabet(input[i])
    ensures DecodeValues(input).Some? ==> forall i :: 0 <= i < 16 ==> DecodeValues(input).value[i] == Sextet(input[i])
  {
    hide LaneValid, LaneValue, IsAlphabet, Sextet;
    forall i | 0 <= i < 16
      ensures LaneValid(input[i]) >= 0x80 <==> IsAlphabet(input[i])
      ensures IsAlphabet(input[i]) ==> LaneValue(input[i]) == Sextet(input[i])
    {
      LaneValidIs(input[i]);
      ValidLane(input[i]);
    }
  }

  lemma VectorIsBytes(src: seq<u8>, consumed: nat, k: nat, r: nat)
    requires consumed + 16 <= |src| && consumed % 4 == 0 && k < 4 && r < 3
    requires DecodeValues(Load(src, consumed)).Some?
    ensures MergeBits(DecodeValues(Load(src, consumed)).value)[3 * k + r] == OctetAt(src, consumed / 4 * 3 + 3 * k + r)
  {
    hide MergeBits, OctetAt, OctetOf, Sextet, IsAlphabet, DecodeValues;
    DecodeValuesIs(Load(src, consumed));
    var g := consumed / 4 + k;
    assert forall i :: 0 <= i < 16 ==> Load(src, consumed)[i] == src[consumed + i];
    MergeBitsIs(DecodeValues(Load(src, consumed)).value, k, r);
    OctetsHold(src, g, r);
  }

  /** One block of 16 characters: the last four bytes of the merged vector are not stored. */
  method DecodeBlock(dst: array<u8>, src: seq<u8>, consumed: nat) returns (ok: bool)
    requires consumed + 16 <= |src| && consumed % 4 == 0 && consumed / 4 * 3 + 12 <= dst.Length
    requires consumed <= Run(src) && Holds(dst, src, consumed / 4 * 3)
    modifies dst
    ensures ok ==> consumed + 16 <= Run(src) && Holds(dst, src, consumed / 4 * 3 + 12)
    ensures !ok ==> Holds(dst, src, consumed / 4 * 3) && forall j :: 0 <= j < dst.Length ==> dst[j] == old(dst[j])
    ensures forall j :: consumed / 4 * 3 + 12 <= j < dst.Length ==> dst[j] == old(dst[j])
  {
    hide OctetAt, MergeBits, DecodeValues, Run, IsAlphabet;
    var values := DecodeValues(Load(src, consumed));
    if values.None? {
      return false;
    }
    DecodeValuesIs(Load(src, consumed));
    assert forall i :: 0 <= i < 16 ==> IsAlphabet(Load(src, consumed)[i]);
    forall i | 0 <= i < consumed + 16
      ensures IsAlphabet(src[i])
    {
      if i >= consumed {
        assert src[i] == Load(src, consumed)[i - consumed];
      }
    }
    RunReaches(src, consumed + 16);
    hide Load;
    var written := consumed / 4 * 3;
    var output := MergeBits(values.value);
    Store(dst, written, output[..12]);
    forall j | 0 <= j < written + 12
      ensures dst[j] == OctetAt(src, j)
    {
      if j >= written {
        var k, r := (j - written) / 3, (j - written) % 3;
        VectorIsBytes(src, consumed, k, r);
        assert j == written + 3 * k + r;
        assert dst[written + (j - written)] == output[..12][j - written];
      }
    }
    ok := true;
  }

  /** `decode`: complete valid blocks of 16 characters that fit. */
  method DecodePrefix(dst: array<u8>, src: seq<u8>) returns (consumed: nat, written: nat)
    modifies dst
    ensures consumed % 4 == 0 && consumed <= Run(src) && written == consumed / 4 * 3 <= dst.Length
    ensures Holds(dst, src, written) && forall j :: written <= j < dst.Length ==> dst[j] == old(dst[j])
  {
    hide Holds, Run;
    consumed, written := 0, 0;
    assert Holds(dst, src, 0) by { NothingDecoded(dst, src); }
    while |src| - consumed >= 16 && dst.Length - written >= 12
      invariant consumed % 4 == 0 && consumed <= Run(src) && written == consumed / 4 * 3 <= dst.Length
      invariant Holds(dst, src, written) && forall j :: written <= j < dst.Length ==> dst[j] == old(dst[j])
    {
      var ok := DecodeBlock(dst, src, consumed);
      if !ok {
        break;
      }
      consumed := consumed + 16;
      written := written + 12;
    }
  }
}
