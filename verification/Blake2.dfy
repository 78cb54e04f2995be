/** BLAKE2b's compression function, as section 3.2 of RFC 7693 defines it, and the portable code for it. */
module Blake2 {
  import opened Machine

  /** A 64-bit word; the proofs look at its bits only where the bits matter. */
  datatype Word = W(bits: bv64)

  const IV: seq<Word> := [
    W(0x6a09e667f3bcc908), W(0xbb67ae8584caa73b), W(0x3c6ef372fe94f82b), W(0xa54ff53a5f1d36f1),
    W(0x510e527fade682d1), W(0x9b05688c2b3e6c1f), W(0x1f83d9abfb41bd6b), W(0x5be0cd19137e2179)]

  /** One row of the message schedule. */
  type Schedule = s: seq<nat> | |s| == 16 && forall k :: 0 <= k < 16 ==> s[k] < 16 witness seq(16, i => 0)

  const SIGMA_0: Schedule := [0, 1, 2, 3, 4, 5, 6, 7, 8, 9, 10, 11, 12, 13, 14, 15]
  const SIGMA_1: Schedule := [14, 10, 4, 8, 9, 15, 13, 6, 1, 12, 0, 2, 11, 7, 5, 3]
  const SIGMA_2: Schedule := [11, 8, 12, 0, 5, 2, 15, 13, 10, 14, 3, 6, 7, 1, 9, 4]
  const SIGMA_3: Schedule := [7, 9, 3, 1, 13, 12, 11, 14, 2, 6, 5, 10, 4, 0, 15, 8]
  const SIGMA_4: Schedule := [9, 0, 5, 7, 2, 4, 10, 15, 14, 1, 11, 12, 6, 8, 3, 13]
  const SIGMA_5: Schedule := [2, 12, 6, 10, 0, 11, 8, 3, 4, 13, 7, 5, 15, 14, 1, 9]
  const SIGMA_6: Schedule := [12, 5, 1, 15, 14, 13, 4, 10, 0, 7, 6, 3, 9, 2, 8, 11]
  const SIGMA_7: Schedule := [13, 11, 7, 14, 12, 1, 3, 9, 5, 0, 15, 4, 8, 6, 2, 10]
  const SIGMA_8: Schedule := [6, 15, 14, 9, 11, 3, 0, 8, 12, 2, 13, 7, 1, 4, 10, 5]
  const SIGMA_9: Schedule := [10, 2, 8, 4, 7, 6, 1, 5, 15, 11, 9, 14, 3, 12, 13, 0]

  /** The schedule of each of the twelve rounds; the last two repeat the first two. */
  function Sigma(r: nat): (s: Schedule)
    requires r < 12
  {
    if r == 0 || r == 10 then SIGMA_0
    else if r == 1 || r == 11 then SIGMA_1
    else if r == 2 then SIGMA_2
    else if r == 3 then SIGMA_3
    else if r == 4 then SIGMA_4
    else if r == 5 then SIGMA_5
    else if r == 6 then SIGMA_6
    else if r == 7 then SIGMA_7
    else if r == 8 then SIGMA_8
    else SIGMA_9
  }

  // ---------------------------------------------------------------------------
  // The mixing function
  // ---------------------------------------------------------------------------

  /** `wrapping_add` and `^` on words. */
  function Add(x: Word, y: Word): Word { W(x.bits + y.bits) }

  function Xor(x: Word, y: Word): Word { W(x.bits ^ y.bits) }

  function Rotr32(w: Word): Word { W((w.bits >> 32) | (w.bits << 32)) }

  function Rotr24(w: Word): Word { W((w.bits >> 24) | (w.bits << 40)) }

  function Rotr16(w: Word): Word { W((w.bits >> 16) | (w.bits << 48)) }

  function Rotr63(w: Word): Word { W((w.bits >> 63) | (w.bits << 1)) }

  datatype Quad = Quad(a: Word, b: Word, c: Word, d: Word)

  /** `G` of section 3.1 on the four words it mixes. */
  function G(q: Quad, x: Word, y: Word): Quad {
    var a1 := Add(Add(q.a, q.b), x);
    var d1 := Rotr32(Xor(q.d, a1));
    var c1 := Add(q.c, d1);
    var b1 := Rotr24(Xor(q.b, c1));
    var a2 := Add(Add(a1, b1), y);
    var d2 := Rotr16(Xor(d1, a2));
    var c2 := Add(c1, d2);
    Quad(a2, Rotr63(Xor(b1, c2)), c2, d2)
  }

  /** `G` on four places of the work vector. */
  function MixAt(v: seq<Word>, a: nat, b: nat, c: nat, d: nat, x: Word, y: Word): (v': seq<Word>)
    requires |v| == 16 && a < 16 && b < 16 && c < 16 && d < 16
    ensures |v'| == 16
  {
    var q := G(Quad(v[a], v[b], v[c], v[d]), x, y);
    v[a := q.a][b := q.b][c := q.c][d := q.d]
  }

  function Columns(v: seq<Word>, m: seq<Word>, s: Schedule): (v': seq<Word>)
    requires |v| == 16 && |m| == 16
    ensures |v'| == 16
  {
    var v1 := MixAt(v, 0, 4, 8, 12, m[s[0]], m[s[1]]);
    var v2 := MixAt(v1, 1, 5, 9, 13, m[s[2]], m[s[3]]);
    var v3 := MixAt(v2, 2, 6, 10, 14, m[s[4]], m[s[5]]);
    MixAt(v3, 3, 7, 11, 15, m[s[6]], m[s[7]])
  }

  function Diagonals(v: seq<Word>, m: seq<Word>, s: Schedule): (v': seq<Word>)
    requires |v| == 16 && |m| == 16
    ensures |v'| == 16
  {
    var v1 := MixAt(v, 0, 5, 10, 15, m[s[8]], m[s[9]]);
    var v2 := MixAt(v1, 1, 6, 11, 12, m[s[10]], m[s[11]]);
    var v3 := MixAt(v2, 2, 7, 8, 13, m[s[12]], m[s[13]]);
    MixAt(v3, 3, 4, 9, 14, m[s[14]], m[s[15]])
  }

  function Rounds(v: seq<Word>, m: seq<Word>, r: nat): (v': seq<Word>)
    requires |v| == 16 && |m| == 16 && r <= 12
    ensures |v'| == 16
  {
    if r == 0 then v else Diagonals(Columns(Rounds(v, m, r - 1), m, Sigma(r - 1)), m, Sigma(r - 1))
  }

  // ---------------------------------------------------------------------------
  // The compression function
  // ---------------------------------------------------------------------------

  /** The offset counter as two words, and the two finalization flags. */
  datatype Tweak = Tweak(t0: u64, t1: u64, f0: Word, f1: Word)

  function ToWord(x: u64): Word { W(x as bv64) }

  function WorkVector(h: seq<Word>, k: Tweak): (v: seq<Word>)
    requires |h| == 8
    ensures |v| == 16
  {
    h + IV[..4] + [Xor(IV[4], ToWord(k.t0)), Xor(IV[5], ToWord(k.t1)), Xor(IV[6], k.f0), Xor(IV[7], k.f1)]
  }

  /** `F` of section 3.2. */
  function Compress(h: seq<Word>, k: Tweak, m: seq<Word>): (h': seq<Word>)
    requires |h| == 8 && |m| == 16
    ensures |h'| == 8
  {
    var v := Rounds(WorkVector(h, k), m, 12);
    seq(8, i requires 0 <= i < 8 => Xor(h[i], Xor(v[i], v[i + 8])))
  }

  // ---------------------------------------------------------------------------
  // The portable code
  // ---------------------------------------------------------------------------

  /** `g`: in place, with the words chosen by the schedule. */
  method MixInPlace(v: array<Word>, m: seq<Word>, s: Schedule, i: nat, a: nat, b: nat, c: nat, d: nat)
    requires v.Length == 16 && |m| == 16 && i < 8
    requires a < 4 <= b < 8 <= c < 12 <= d < 16
    modifies v
    ensures v[..] == MixAt(old(v[..]), a, b, c, d, m[s[2 * i]], m[s[2 * i + 1]])
  {
    hide Add, Xor, Rotr32, Rotr24, Rotr16, Rotr63;
    ghost var q := G(Quad(v[a], v[b], v[c], v[d]), m[s[2 * i]], m[s[2 * i + 1]]);
    v[a] := Add(Add(v[a], v[b]), m[s[2 * i]]);
    v[d] := Rotr32(Xor(v[d], v[a]));
    v[c] := Add(v[c], v[d]);
    v[b] := Rotr24(Xor(v[b], v[c]));
    v[a] := Add(Add(v[a], v[b]), m[s[2 * i + 1]]);
    v[d] := Rotr16(Xor(v[d], v[a]));
    v[c] := Add(v[c], v[d]);
    v[b] := Rotr63(Xor(v[b], v[c]));
    assert v[a] == q.a && v[b] == q.b && v[c] == q.c && v[d] == q.d;
    hide G;
    assert forall j :: 0 <= j < 16 && j != a && j != b && j != c && j != d ==> v[j] == old(v[j]);
  }

  method RoundInPlace(v: array<Word>, m: seq<Word>, s: Schedule)
    requires v.Length == 16 && |m| == 16
    modifies v
    ensures v[..] == Diagonals(Columns(old(v[..]), m, s), m, s)
  {
    hide MixAt;
    MixInPlace(v, m, s, 0, 0, 4, 8, 12);
    MixInPlace(v, m, s, 1, 1, 5, 9, 13);
    MixInPlace(v, m, s, 2, 2, 6, 10, 14);
    MixInPlace(v, m, s, 3, 3, 7, 11, 15);
    MixInPlace(v, m, s, 4, 0, 5, 10, 15);
    MixInPlace(v, m, s, 5, 1, 6, 11, 12);
    MixInPlace(v, m, s, 6, 2, 7, 8, 13);
    MixInPlace(v, m, s, 7, 3, 4, 9, 14);
  }

  /** The lower half of the work vector: the chaining value, word by word. */
  method LoadChaining(h: array<Word>, v: array<Word>)
    requires h.Length == 8 && v.Length == 16 && h != v
    modifies v
    ensures v[..8] == h[..]
  {
    for i := 0 to 8
      invariant v[..i] == h[..i]
    {
      v[i] := h[i];
    }
  }

  /** The work vector, filled word by word. */
  method LoadWorkVector(h: array<Word>, k: Tweak) returns (v: array<Word>)
    requires h.Length == 8
    ensures fresh(v) && v.Length == 16 && v[..] == WorkVector(h[..], k)
  {
    hide Xor, ToWord;
    v := new Word[16](_ => W(0));
    LoadChaining(h, v);
    v[8], v[9], v[10], v[11] := IV[0], IV[1], IV[2], IV[3];
    v[12], v[13] := Xor(IV[4], ToWord(k.t0)), Xor(IV[5], ToWord(k.t1));
    v[14], v[15] := Xor(IV[6], k.f0), Xor(IV[7], k.f1);
    assert v[8..12] == IV[..4];
    assert v[12..] == [v[12], v[13], v[14], v[15]];
    assert v[..] == v[..8] + v[8..12] + v[12..];
  }

  /** `compress_scalar`. */
  method CompressScalar(h: array<Word>, k: Tweak, m: seq<Word>)
    requires h.Length == 8 && |m| == 16
    modifies h
    ensures h[..] == Compress(old(h[..]), k, m)
  {
    hide WorkVector, Columns, Diagonals, Xor;
    var v := LoadWorkVector(h, k);
    ghost var v0 := v[..];
    for r := 0 to 12
      invariant v[..] == Rounds(v0, m, r)
      invariant h[..] == old(h[..])
    {
      RoundInPlace(v, m, Sigma(r));
    }
    for i := 0 to 8
      invariant forall j :: 0 <= j < i ==> h[j] == Xor(old(h[j]), Xor(v[j], v[j + 8]))
      invariant forall j :: i <= j < 8 ==> h[j] == old(h[j])
      invariant v[..] == Rounds(v0, m, 12)
    {
      h[i] := Xor(h[i], Xor(v[i], v[i + 8]));
    }
  }
}
