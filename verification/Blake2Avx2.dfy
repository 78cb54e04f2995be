/** The AVX2 compression: rows as four-lane vectors, rotations as byte shuffles, diagonals as lane moves. */
module Blake2Avx2 {
  import opened Machine
  import opened Blake2

  /** A 256-bit vector of four 64-bit lanes. */
  datatype Row = Row(w0: Word, w1: Word, w2: Word, w3: Word)
  {
    function At(j: nat): Word
      requires j < 4
    {
      if j == 0 then w0 else if j == 1 then w1 else if j == 2 then w2 else w3
    }
  }

  // ---------------------------------------------------------------------------
  // The instructions
  // ---------------------------------------------------------------------------

  function AddEpi64(x: Row, y: Row): Row {
    Row(Add(x.w0, y.w0), Add(x.w1, y.w1), Add(x.w2, y.w2), Add(x.w3, y.w3))
  }

  function XorSi256(x: Row, y: Row): Row {
    Row(Xor(x.w0, y.w0), Xor(x.w1, y.w1), Xor(x.w2, y.w2), Xor(x.w3, y.w3))
  }

  /** Byte `k` of a word, least significant first. */
  function ByteOf(w: Word, k: nat): bv64
    requires k < 8
  {
    if k == 0 then w.bits & 0xFF
    else if k == 1 then (w.bits >> 8) & 0xFF
    else if k == 2 then (w.bits >> 16) & 0xFF
    else if k == 3 then (w.bits >> 24) & 0xFF
    else if k == 4 then (w.bits >> 32) & 0xFF
    else if k == 5 then (w.bits >> 40) & 0xFF
    else if k == 6 then (w.bits >> 48) & 0xFF
    else (w.bits >> 56) & 0xFF
  }

  function FromBytes(b0: bv64, b1: bv64, b2: bv64, b3: bv64, b4: bv64, b5: bv64, b6: bv64, b7: bv64): Word {
    W(b0 | (b1 << 8) | (b2 << 16) | (b3 << 24) | (b4 << 32) | (b5 << 40) | (b6 << 48) | (b7 << 56))
  }

  /** Byte `k` of a 128-bit half made of two words. */
  function HalfByte(lo: Word, hi: Word, k: nat): bv64
    requires k < 16
  {
    if k < 8 then ByteOf(lo, k) else ByteOf(hi, k - 8)
  }

  /** The 16 byte indices that both halves of a shuffle use. */
  type Table = s: seq<nat> | |s| == 16 && forall k :: 0 <= k < 16 ==> s[k] < 16 witness seq(16, i => 0)

  const R24: Table := [3, 4, 5, 6, 7, 0, 1, 2, 11, 12, 13, 14, 15, 8, 9, 10]

  const R16: Table := [2, 3, 4, 5, 6, 7, 0, 1, 10, 11, 12, 13, 14, 15, 8, 9]

  /** `_mm256_shuffle_epi8`: each 128-bit half picks among its own sixteen bytes. */
  function ShuffleLow(lo: Word, hi: Word, t: Table): Word {
    FromBytes(HalfByte(lo, hi, t[0]), HalfByte(lo, hi, t[1]), HalfByte(lo, hi, t[2]), HalfByte(lo, hi, t[3]),
              HalfByte(lo, hi, t[4]), HalfByte(lo, hi, t[5]), HalfByte(lo, hi, t[6]), HalfByte(lo, hi, t[7]))
  }

  function ShuffleHigh(lo: Word, hi: Word, t: Table): Word {
    FromBytes(HalfByte(lo, hi, t[8]), HalfByte(lo, hi, t[9]), HalfByte(lo, hi, t[10]), HalfByte(lo, hi, t[11]),
              HalfByte(lo, hi, t[12]), HalfByte(lo, hi, t[13]), HalfByte(lo, hi, t[14]), HalfByte(lo, hi, t[15]))
  }

  function ShuffleEpi8(x: Row, t: Table): Row {
    Row(ShuffleLow(x.w0, x.w1, t), ShuffleHigh(x.w0, x.w1, t), ShuffleLow(x.w2, x.w3, t), ShuffleHigh(x.w2, x.w3, t))
  }

  function LowDword(w: Word): bv64 { w.bits & 0xFFFF_FFFF }

  function HighDword(w: Word): bv64 { w.bits >> 32 }

  /** 32-bit element `k` of a 128-bit half. */
  function Dword(lo: Word, hi: Word, k: nat): bv64
    requires k < 4
  {
    if k == 0 then LowDword(lo) else if k == 1 then HighDword(lo) else if k == 2 then LowDword(hi) else HighDword(hi)
  }

  function FromDwords(lo: bv64, hi: bv64): Word { W(lo | (hi << 32)) }

  /** Field `j` of a shuffle's immediate operand. */
  function Field(imm: nat, j: nat): (k: nat)
    ensures k < 4
  {
    if j == 0 then imm % 4 else if j == 1 then imm / 4 % 4 else if j == 2 then imm / 16 % 4 else imm / 64 % 4
  }

  /** `_mm256_shuffle_epi32`. */
  function ShuffleEpi32(x: Row, imm: nat): Row {
    Row(FromDwords(Dword(x.w0, x.w1, Field(imm, 0)), Dword(x.w0, x.w1, Field(imm, 1))),
        FromDwords(Dword(x.w0, x.w1, Field(imm, 2)), Dword(x.w0, x.w1, Field(imm, 3))),
        FromDwords(Dword(x.w2, x.w3, Field(imm, 0)), Dword(x.w2, x.w3, Field(imm, 1))),
        FromDwords(Dword(x.w2, x.w3, Field(imm, 2)), Dword(x.w2, x.w3, Field(imm, 3))))
  }

  /** `_mm256_permute4x64_epi64`. */
  function Permute4x64(x: Row, imm: nat): Row {
    Row(x.At(Field(imm, 0)), x.At(Field(imm, 1)), x.At(Field(imm, 2)), x.At(Field(imm, 3)))
  }

  function Shr63(w: Word): Word { W(w.bits >> 63) }

  /** `_mm256_srli_epi64::<63>`. */
  function Srli63(x: Row): Row { Row(Shr63(x.w0), Shr63(x.w1), Shr63(x.w2), Shr63(x.w3)) }

  // ---------------------------------------------------------------------------
  // Rotations
  // ---------------------------------------------------------------------------

  function VRotr32(x: Row): Row { ShuffleEpi32(x, 0xB1) }

  function VRotr24(x: Row): Row { ShuffleEpi8(x, R24) }

  function VRotr16(x: Row): Row { ShuffleEpi8(x, R16) }

  function VRotr63(x: Row): Row { XorSi256(Srli63(x), AddEpi64(x, x)) }

  lemma BytesRotate24(w: bv64)
    ensures var x := W(w);
            FromBytes(ByteOf(x, 3), ByteOf(x, 4), ByteOf(x, 5), ByteOf(x, 6), ByteOf(x, 7), ByteOf(x, 0), ByteOf(x, 1),
              ByteOf(x, 2))
            == Rotr24(x)
  {
  }

  lemma BytesRotate16(w: bv64)
    ensures var x := W(w);
            FromBytes(ByteOf(x, 2), ByteOf(x, 3), ByteOf(x, 4), ByteOf(x, 5), ByteOf(x, 6), ByteOf(x, 7), ByteOf(x, 0),
              ByteOf(x, 1))
            == Rotr16(x)
  {
  }

  lemma HalvesRotate32(w: bv64)
    ensures FromDwords(HighDword(W(w)), LowDword(W(w))) == Rotr32(W(w))
  {
  }

  /** Doubling shifts left by one, and its low bit is clear. */
  lemma DoubleRotates63(w: bv64)
    ensures Xor(Shr63(W(w)), Add(W(w), W(w))) == Rotr63(W(w))
  {
  }

  /** The byte shuffles and the doubling rotate each lane. */
  lemma RotationsRotate(x: Row)
    ensures VRotr24(x) == Row(Rotr24(x.w0), Rotr24(x.w1), Rotr24(x.w2), Rotr24(x.w3))
    ensures VRotr16(x) == Row(Rotr16(x.w0), Rotr16(x.w1), Rotr16(x.w2), Rotr16(x.w3))
  {
    hide FromBytes, ByteOf, Rotr24, Rotr16;
    BytesRotate24(x.w0.bits);
    BytesRotate24(x.w1.bits);
    BytesRotate24(x.w2.bits);
    BytesRotate24(x.w3.bits);
    BytesRotate16(x.w0.bits);
    BytesRotate16(x.w1.bits);
    BytesRotate16(x.w2.bits);
    BytesRotate16(x.w3.bits);
  }

  lemma SwapFields()
    ensures Field(0xB1, 0) == 1 && Field(0xB1, 1) == 0 && Field(0xB1, 2) == 3 && Field(0xB1, 3) == 2
  {
  }

  lemma HalvesRotate(x: Row)
    ensures VRotr32(x) == Row(Rotr32(x.w0), Rotr32(x.w1), Rotr32(x.w2), Rotr32(x.w3))
  {
    hide LowDword, HighDword, FromDwords, Rotr32, Field;
    SwapFields();
    HalvesRotate32(x.w0.bits);
    HalvesRotate32(x.w1.bits);
    HalvesRotate32(x.w2.bits);
    HalvesRotate32(x.w3.bits);
  }

  /** Adding a lane to itself and one bit of it rotates it by 63. */
  lemma DoublesRotate(x: Row)
    ensures VRotr63(x) == Row(Rotr63(x.w0), Rotr63(x.w1), Rotr63(x.w2), Rotr63(x.w3))
  {
    hide Shr63, Xor, Add, Rotr63;
    DoubleRotates63(x.w0.bits);
    DoubleRotates63(x.w1.bits);
    DoubleRotates63(x.w2.bits);
    DoubleRotates63(x.w3.bits);
  }

  // ---------------------------------------------------------------------------
  // Four mixing functions at once
  // ---------------------------------------------------------------------------

  datatype Rows = Rows(a: Row, b: Row, c: Row, d: Row)

  function Lane(r: Rows, j: nat): Quad
    requires j < 4
  {
    Quad(r.a.At(j), r.b.At(j), r.c.At(j), r.d.At(j))
  }

  /** Every lane of `r'` is the scalar mixing function of the same lane of `r`. */
  predicate MixedBy(r: Rows, x: Row, y: Row, r': Rows) {
    && Lane(r', 0) == G(Lane(r, 0), x.w0, y.w0)
    && Lane(r', 1) == G(Lane(r, 1), x.w1, y.w1)
    && Lane(r', 2) == G(Lane(r, 2), x.w2, y.w2)
    && Lane(r', 3) == G(Lane(r, 3), x.w3, y.w3)
  }

  /** `g`, on whole rows. */
  method MixRows(a0: Row, b0: Row, c0: Row, d0: Row, x: Row, y: Row) returns (a: Row, b: Row, c: Row, d: Row)
    ensures MixedBy(Rows(a0, b0, c0, d0), x, y, Rows(a, b, c, d))
  {
    hide VRotr32, VRotr24, VRotr16, VRotr63, Rotr32, Rotr24, Rotr16, Rotr63, Add, Xor;
    a, b, c, d := a0, b0, c0, d0;
    a := AddEpi64(AddEpi64(a, b), x);
    HalvesRotate(XorSi256(d, a));
    d := VRotr32(XorSi256(d, a));
    c := AddEpi64(c, d);
    RotationsRotate(XorSi256(b, c));
    b := VRotr24(XorSi256(b, c));
    a := AddEpi64(AddEpi64(a, b), y);
    RotationsRotate(XorSi256(d, a));
    d := VRotr16(XorSi256(d, a));
    c := AddEpi64(c, d);
    DoublesRotate(XorSi256(b, c));
    b := VRotr63(XorSi256(b, c));
  }

  /** `diagonalize`: left rotations by one, two and three lanes. */
  method Diagonalize(b0: Row, c0: Row, d0: Row) returns (b: Row, c: Row, d: Row)
    ensures b == Row(b0.w1, b0.w2, b0.w3, b0.w0)
    ensures c == Row(c0.w2, c0.w3, c0.w0, c0.w1)
    ensures d == Row(d0.w3, d0.w0, d0.w1, d0.w2)
  {
    b := Permute4x64(b0, 0x39);
    c := Permute4x64(c0, 0x4E);
    d := Permute4x64(d0, 0x93);
  }

  method Undiagonalize(b0: Row, c0: Row, d0: Row) returns (b: Row, c: Row, d: Row)
    ensures b0 == Row(b.w1, b.w2, b.w3, b.w0)
    ensures c0 == Row(c.w2, c.w3, c.w0, c.w1)
    ensures d0 == Row(d.w3, d.w0, d.w1, d.w2)
  {
    b := Permute4x64(b0, 0x93);
    c := Permute4x64(c0, 0x4E);
    d := Permute4x64(d0, 0x39);
  }

  // ---------------------------------------------------------------------------
  // Rows and the work vector
  // ---------------------------------------------------------------------------

  /** The rows hold the work vector. */
  predicate Holds(r: Rows, v: seq<Word>)
    requires |v| == 16
  {
    && r.a == Row(v[0], v[1], v[2], v[3])
    && r.b == Row(v[4], v[5], v[6], v[7])
    && r.c == Row(v[8], v[9], v[10], v[11])
    && r.d == Row(v[12], v[13], v[14], v[15])
  }

  function ColumnX(m: seq<Word>, s: Schedule): Row
    requires |m| == 16
  {
    Row(m[s[0]], m[s[2]], m[s[4]], m[s[6]])
  }

  function ColumnY(m: seq<Word>, s: Schedule): Row
    requires |m| == 16
  {
    Row(m[s[1]], m[s[3]], m[s[5]], m[s[7]])
  }

  function DiagonalX(m: seq<Word>, s: Schedule): Row
    requires |m| == 16
  {
    Row(m[s[8]], m[s[10]], m[s[12]], m[s[14]])
  }

  function DiagonalY(m: seq<Word>, s: Schedule): Row
    requires |m| == 16
  {
    Row(m[s[9]], m[s[11]], m[s[13]], m[s[15]])
  }

  /** Mixing the rows once mixes the four columns. */
  lemma ColumnsAreRows(r: Rows, v: seq<Word>, m: seq<Word>, s: Schedule, r': Rows)
    requires |v| == 16 && |m| == 16 && Holds(r, v)
    requires MixedBy(r, ColumnX(m, s), ColumnY(m, s), r')
    ensures Holds(r', Columns(v, m, s))
  {
    hide G;
  }

  /** The rows hold the work vector with its diagonals as columns. */
  predicate HoldsDiagonally(r: Rows, v: seq<Word>)
    requires |v| == 16
  {
    && r.a == Row(v[0], v[1], v[2], v[3])
    && r.b == Row(v[5], v[6], v[7], v[4])
    && r.c == Row(v[10], v[11], v[8], v[9])
    && r.d == Row(v[15], v[12], v[13], v[14])
  }

  lemma DiagonalsAreRows(r: Rows, v: seq<Word>, m: seq<Word>, s: Schedule, r': Rows)
    requires |v| == 16 && |m| == 16 && HoldsDiagonally(r, v)
    requires MixedBy(r, DiagonalX(m, s), DiagonalY(m, s), r')
    ensures HoldsDiagonally(r', Diagonals(v, m, s))
  {
    hide G;
  }

  /** `round`. */
  method RoundRows(a0: Row, b0: Row, c0: Row, d0: Row, m: seq<Word>, r: nat, ghost v: seq<Word>)
    returns (a: Row, b: Row, c: Row, d: Row)
    requires |m| == 16 && r < 12 && |v| == 16 && Holds(Rows(a0, b0, c0, d0), v)
    ensures Holds(Rows(a, b, c, d), Diagonals(Columns(v, m, Sigma(r)), m, Sigma(r)))
  {
    hide MixedBy, Columns, Diagonals, Sigma;
    var s := Sigma(r);
    a, b, c, d := MixRows(a0, b0, c0, d0, ColumnX(m, s), ColumnY(m, s));
    ColumnsAreRows(Rows(a0, b0, c0, d0), v, m, s, Rows(a, b, c, d));
    b, c, d := Diagonalize(b, c, d);
    ghost var before := Rows(a, b, c, d);
    a, b, c, d := MixRows(a, b, c, d, DiagonalX(m, s), DiagonalY(m, s));
    DiagonalsAreRows(before, Columns(v, m, s), m, s, Rows(a, b, c, d));
    b, c, d := Undiagonalize(b, c, d);
  }

  /** `load4` from an array of words. */
  method Load4(h: array<Word>, i: nat) returns (r: Row)
    requires i + 4 <= h.Length
    ensures r == Row(h[i], h[i + 1], h[i + 2], h[i + 3])
  {
    r := Row(h[i], h[i + 1], h[i + 2], h[i + 3]);
  }

  lemma FinalXor(h: seq<Word>, v: seq<Word>, a: Row, b: Row, c: Row, d: Row)
    requires |h| == 8 && |v| == 16 && Holds(Rows(a, b, c, d), v)
    ensures XorSi256(Row(h[0], h[1], h[2], h[3]), XorSi256(a, c))
         == Row(Xor(h[0], Xor(v[0], v[8])), Xor(h[1], Xor(v[1], v[9])), Xor(h[2], Xor(v[2], v[10])),
           Xor(h[3], Xor(v[3], v[11])))
    ensures XorSi256(Row(h[4], h[5], h[6], h[7]), XorSi256(b, d))
         == Row(Xor(h[4], Xor(v[4], v[12])), Xor(h[5], Xor(v[5], v[13])), Xor(h[6], Xor(v[6], v[14])),
           Xor(h[7], Xor(v[7], v[15])))
  {
  }

  /**
   `compress` with AVX2. It has the contract of `CompressScalar`: for every chaining value, counter,
   flag and message the two leave the same words.
   */
  method CompressAvx2(h: array<Word>, k: Tweak, m: seq<Word>)
    requires h.Length == 8 && |m| == 16
    modifies h
    ensures h[..] == Compress(old(h[..]), k, m)
  {
    hide Columns, Diagonals, Xor, ToWord, Sigma, MixedBy;
    var a := Load4(h, 0);
    var b := Load4(h, 4);
    var c := Row(IV[0], IV[1], IV[2], IV[3]);
    var flags := Row(ToWord(k.t0), ToWord(k.t1), k.f0, k.f1);
    var d := XorSi256(Row(IV[4], IV[5], IV[6], IV[7]), flags);
    var initialA, initialB := a, b;
    ghost var v0 := WorkVector(h[..], k);
    assert Holds(Rows(a, b, c, d), v0);
    hide WorkVector, Holds;
    for r := 0 to 12
      invariant Holds(Rows(a, b, c, d), Rounds(v0, m, r))
    {
      a, b, c, d := RoundRows(a, b, c, d, m, r, Rounds(v0, m, r));
    }
    FinalXor(h[..], Rounds(v0, m, 12), a, b, c, d);
    var outA := XorSi256(initialA, XorSi256(a, c));
    var outB := XorSi256(initialB, XorSi256(b, d));
    hide Rounds, XorSi256;
    h[0], h[1], h[2], h[3] := outA.w0, outA.w1, outA.w2, outA.w3;
    h[4], h[5], h[6], h[7] := outB.w0, outB.w1, outB.w2, outB.w3;
  }
}
