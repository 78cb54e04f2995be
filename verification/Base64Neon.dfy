/** The NEON Base64 blocks: eight lanes, with three-way and four-way interleaved loads and stores. */
module Base64Neon {
  import opened Machine
  import opened Bits
  import opened Base64
  import opened Base64Scalar
  import opened Base64Decode

  /** A register of eight byte lanes. */
  type Lanes = s: seq<u8> | |s| == 8 witness [0, 0, 0, 0, 0, 0, 0, 0]

  // ---------------------------------------------------------------------------
  // One lane
  // ---------------------------------------------------------------------------

  function VAdd(x: u8, y: u8): u8 { (x + y) % 256 }

  function VSub(x: u8, y: u8): u8 { (x - y) % 256 }

  /** `vbsl`: bits of `a` where the mask is set, of `b` where it is not. */
  function Select(mask: u8, a: u8, b: u8): nat { Or(And(mask, a), And(0xFF - mask, b)) }

  lemma SelectIs(m: bool, a: u8, b: u8)
    ensures Select(Mask(m), a, b) == if m then a else b
  {
    hide And, Or;
    Masks(a);
    Masks(b);
    OrWithZero(a);
    OrWithZero(b);
  }

  /** A select whose mask and choices are bytes gives a byte. */
  function Choose(m: bool, a: u8, b: u8): (r: u8)
    ensures r == if m then a else b
  {
    SelectIs(m, a, b);
    Select(Mask(m), a, b)
  }

  /** One lane of `encode_values`. */
  function EncodeValue(x: u8): u8 {
    var a := VAdd(x, 65);
    var b := Choose(x >= 26, VAdd(x, 71), a);
    var c := Choose(x >= 52, VSub(x, 4), b);
    var d := Choose(x == 62, 43, c);
    Choose(x == 63, 47, d)
  }

  lemma EncodeValueIs(x: u8)
    requires x < 64
    ensures EncodeValue(x) == Alphabet(x)
  {
    hide Choose, Or, And;
  }

  /** One lane of the four sextets of a triple. */
  function Split(a: u8, b: u8, c: u8, r: nat): u8 {
    if r == 0 then a / 4
    else if r == 1 then And(Or8(a * 16 % 256, b / 16), 0x3F)
    else if r == 2 then And(Or8(b * 4 % 256, c / 64), 0x3F)
    else And(c, 0x3F)
  }

  lemma LowNibble(a: u8)
    ensures a * 16 % 256 == 16 * (a % 16) && a % 16 % 4 == a % 4
  {
    Divides(a * 16, 256, a / 16, 16 * (a % 16));
  }

  lemma LowSextet(b: u8)
    ensures b * 4 % 256 == 4 * (b % 64) && b % 64 % 16 == b % 16
  {
    Divides(b * 4, 256, b / 64, 4 * (b % 64));
  }

  lemma SecondSextet(a: u8, b: u8)
    ensures And(Or8(a * 16 % 256, b / 16), 0x3F) == a % 4 * 16 + b / 16
  {
    hide And, Or, Or8;
    LowNibble(a);
    var q := a % 16;
    OrIs(q, b / 16);
    Masks(16 * q + b / 16);
    Divides(16 * q + b / 16, 64, q / 4, q % 4 * 16 + b / 16);
  }

  lemma ThirdSextet(b: u8, c: u8)
    ensures And(Or8(b * 4 % 256, c / 64), 0x3F) == b % 16 * 4 + c / 64
  {
    hide And, Or, Or8;
    LowSextet(b);
    var q := b % 64;
    OrIs(q, c / 64);
    Masks(4 * q + c / 64);
    Divides(4 * q + c / 64, 64, q / 16, q % 16 * 4 + c / 64);
  }

  lemma SplitIs(a: u8, b: u8, c: u8, r: nat)
    ensures Split(a, b, c, r) == SextetOf(a, b, c, r)
  {
    hide And, Or8;
    SecondSextet(a, b);
    ThirdSextet(b, c);
    Masks(c);
  }

  // ---------------------------------------------------------------------------
  // Encoding
  // ---------------------------------------------------------------------------

  /** `vld3_u8`: every third byte to one register. */
  function Load3(src: seq<u8>, at: nat, k: nat): Lanes
    requires at + 24 <= |src| && k < 3
  {
    seq(8, l requires 0 <= l < 8 => src[at + 3 * l + k])
  }

  function SplitLanes(a: Lanes, b: Lanes, c: Lanes, r: nat): Lanes {
    seq(8, l requires 0 <= l < 8 => EncodeValue(Split(a[l], b[l], c[l], r)))
  }

  /** `vst4_u8`: the four registers, lane by lane. */
  method Store4(dst: array<u8>, at: nat, x0: Lanes, x1: Lanes, x2: Lanes, x3: Lanes)
    requires at + 32 <= dst.Length
    modifies dst
    ensures forall l :: 0 <= l < 8 ==>
      dst[at + 4 * l] == x0[l] && dst[at + 4 * l + 1] == x1[l] && dst[at + 4 * l + 2] == x2[l]
        && dst[at + 4 * l + 3] == x3[l]
    ensures forall j :: 0 <= j < at || at + 32 <= j < dst.Length ==> dst[j] == old(dst[j])
  {
    for l := 0 to 8
      invariant forall m :: 0 <= m < l ==>
        dst[at + 4 * m] == x0[m] && dst[at + 4 * m + 1] == x1[m] && dst[at + 4 * m + 2] == x2[m]
          && dst[at + 4 * m + 3] == x3[m]
      invariant forall j :: 0 <= j < at || at + 32 <= j < dst.Length ==> dst[j] == old(dst[j])
    {
      dst[at + 4 * l], dst[at + 4 * l + 1], dst[at + 4 * l + 2], dst[at + 4 * l + 3] := x0[l], x1[l], x2[l], x3[l];
    }
  }

  /** A lane of a split register is a character of the encoding. */
  lemma LaneIsCharacter(src: seq<u8>, consumed: nat, l: nat, r: nat)
    requires consumed + 24 <= |src| && consumed % 3 == 0 && l < 8 && r < 4
    ensures SplitLanes(Load3(src, consumed, 0), Load3(src, consumed, 1), Load3(src, consumed, 2), r)[l]
         == Alphabet(SextetAt(src, consumed / 3 * 4 + 4 * l + r))
  {
    hide Split, SextetAt, SextetOf, EncodeValue, Alphabet;
    var g := consumed / 3 + l;
    SplitIs(src[3 * g], src[3 * g + 1], src[3 * g + 2], r);
    SextetsHold(src, g, r);
    EncodeValueIs(SextetAt(src, 4 * g + r));
  }

  /** One block of 24 bytes. */
  method EncodeBlock(dst: array<u8>, at: nat, src: seq<u8>, consumed: nat)
    requires consumed + 24 <= |src| && consumed % 3 == 0 && consumed / 3 * 4 + 32 <= B64Len(|src|)
    requires at + B64Len(|src|) < dst.Length && Encoded(dst, at, src, consumed / 3 * 4)
    modifies dst
    ensures Encoded(dst, at, src, consumed / 3 * 4 + 32)
    ensures dst[..at] == old(dst[..at]) && dst[at + B64Len(|src|)..] == old(dst[at + B64Len(|src|)..])
  {
    hide SextetAt, Alphabet, SplitLanes, Load3, B64Len;
    var written := consumed / 3 * 4;
    var a, b, c := Load3(src, consumed, 0), Load3(src, consumed, 1), Load3(src, consumed, 2);
    Store4(dst, at + written, SplitLanes(a, b, c, 0), SplitLanes(a, b, c, 1), SplitLanes(a, b, c, 2),
      SplitLanes(a, b, c, 3));
    forall j | 0 <= j < written + 32
      ensures dst[at + j] == Alphabet(SextetAt(src, j))
    {
      if j >= written {
        var l, r := (j - written) / 4, (j - written) % 4;
        LaneIsCharacter(src, consumed, l, r);
        assert j == written + 4 * l + r;
      }
    }
  }

  lemma BlockFits(n: nat, consumed: nat, block: nat)
    requires consumed + 3 * block <= n && consumed % 3 == 0
    ensures consumed / 3 * 4 + 4 * block <= B64Len(n)
    ensures (consumed + 3 * block) / 3 * 4 == consumed / 3 * 4 + 4 * block
  {
  }

  /** `encode`: complete blocks of 24 bytes. */
  method EncodePrefix(dst: array<u8>, at: nat, src: seq<u8>) returns (consumed: nat, written: nat)
    requires at + B64Len(|src|) < dst.Length
    modifies dst
    ensures consumed <= |src| && consumed % 3 == 0 && written == consumed / 3 * 4 <= B64Len(|src|)
    ensures Encoded(dst, at, src, written)
    ensures dst[..at] == old(dst[..at]) && dst[at + B64Len(|src|)..] == old(dst[at + B64Len(|src|)..])
    ensures |src| - consumed < 24
  {
    hide Encoded, B64Len;
    consumed, written := 0, 0;
    NothingEncoded(dst, at, src);
    while |src| - consumed >= 24
      invariant consumed <= |src| && consumed % 3 == 0 && written == consumed / 3 * 4 <= B64Len(|src|)
      invariant Encoded(dst, at, src, written)
      invariant dst[..at] == old(dst[..at]) && dst[at + B64Len(|src|)..] == old(dst[at + B64Len(|src|)..])
    {
      BlockFits(|src|, consumed, 8);
      EncodeBlock(dst, at, src, consumed);
      consumed := consumed + 24;
      written := written + 32;
    }
  }

  // ---------------------------------------------------------------------------
  // Decoding
  // ---------------------------------------------------------------------------

  /** One lane of `decode_values`: whether the byte is in the alphabet. */
  function LaneValid(x: u8): nat {
    Or(Or(And(Mask(x >= 65), Mask(x <= 90)), And(Mask(x >= 97), Mask(x <= 122))),
       Or(Or(And(Mask(x >= 48), Mask(x <= 57)), Mask(x == 43)), Mask(x == 47)))
  }

  /** And its value. */
  function LaneValue(x: u8): u8 {
    var upper, lower, digit := x >= 65 && x <= 90, x >= 97 && x <= 122, x >= 48 && x <= 57;
    var v0 := Choose(upper, VSub(x, 65), 0);
    var v1 := Choose(lower, VAdd(VSub(x, 97), 26), v0);
    var v2 := Choose(digit, VAdd(VSub(x, 48), 52), v1);
    var v3 := Choose(x == 43, 62, v2);
    Choose(x == 47, 63, v3)
  }

  lemma OrOfMasks(a: bool, b: bool)
    ensures Or(Mask(a), Mask(b)) == Mask(a || b)
  {
    hide Or;
    OrWithZero(Mask(a));
    OrWithZero(Mask(b));
    OrWithItself(0xFF);
  }

  lemma {:induction false} OrWithItself(a: nat)
    ensures Or(a, a) == a
  {
    if a > 0 {
      OrWithItself(a / 2);
    }
  }

  lemma LaneValidIs(x: u8)
    ensures LaneValid(x) == Mask(IsAlphabet(x))
  {
    hide And, Or, Mask;
    MaskAnd(x >= 65, x <= 90);
    MaskAnd(x >= 97, x <= 122);
    MaskAnd(x >= 48, x <= 57);
    OrOfMasks(x >= 65 && x <= 90, x >= 97 && x <= 122);
    OrOfMasks(x >= 48 && x <= 57, x == 43);
    OrOfMasks((x >= 48 && x <= 57) || x == 43, x == 47);
    OrOfMasks((x >= 65 && x <= 90) || (x >= 97 && x <= 122), (x >= 48 && x <= 57) || x == 43 || x == 47);
  }

  lemma LaneValueIs(x: u8)
    requires IsAlphabet(x)
    ensures LaneValue(x) == Sextet(x)
  {
    hide Choose, Or, And;
  }

  /** One lane of the three bytes of a quad. */
  function Merge(a: u8, b: u8, c: u8, d: u8, r: nat): u8 {
    if r == 0 then Or8(a * 4 % 256, b / 16) else if r == 1 then Or8(b * 16 % 256, c / 4) else Or8(c * 64 % 256, d)
  }

  lemma MergeIs(a: u8, b: u8, c: u8, d: u8, r: nat)
    requires a < 64 && b < 64 && c < 64 && d < 64
    ensures Merge(a, b, c, d, r) == OctetOf(a, b, c, d, r)
  {
    hide Or, Or8;
    if r == 0 {
      OrIs(a, b / 16);
    } else if r == 1 {
      assert b * 16 % 256 == 16 * (b % 16);
      OrIs(b % 16, c / 4);
    } else {
      assert c * 64 % 256 == 64 * (c % 4);
      OrIs(c % 4, d);
    }
  }

  /** `vld4_u8`. */
  function Load4(src: seq<u8>, at: nat, k: nat): Lanes
    requires at + 32 <= |src| && k < 4
  {
    seq(8, l requires 0 <= l < 8 => src[at + 4 * l + k])
  }

  /** `vminv_u8` of the validity lanes is 0xFF: every lane is valid. */
  predicate AllValid(x: Lanes) { forall l :: 0 <= l < 8 ==> LaneValid(x[l]) == 0xFF }

  function MergeLanes(a: Lanes, b: Lanes, c: Lanes, d: Lanes, r: nat): Lanes {
    seq(8, l requires 0 <= l < 8 => Merge(LaneValue(a[l]), LaneValue(b[l]), LaneValue(c[l]), LaneValue(d[l]), r))
  }

  lemma ValidLane(x: u8)
    ensures LaneValid(x) == 0xFF <==> IsAlphabet(x)
    ensures LaneValid(x) == 0xFF ==> LaneValue(x) == Sextet(x) < 64
  {
    hide LaneValid, LaneValue;
    LaneValidIs(x);
    if IsAlphabet(x) {
      LaneValueIs(x);
    }
  }

  /** `vst3_u8`. */
  method Store3(dst: array<u8>, at: nat, x0: Lanes, x1: Lanes, x2: Lanes)
    requires at + 24 <= dst.Length
    modifies dst
    ensures forall l :: 0 <= l < 8 ==>
      dst[at + 3 * l] == x0[l] && dst[at + 3 * l + 1] == x1[l] && dst[at + 3 * l + 2] == x2[l]
    ensures forall j :: 0 <= j < at || at + 24 <= j < dst.Length ==> dst[j] == old(dst[j])
  {
    for l := 0 to 8
      invariant forall m :: 0 <= m < l ==>
        dst[at + 3 * m] == x0[m] && dst[at + 3 * m + 1] == x1[m] && dst[at + 3 * m + 2] == x2[m]
      invariant forall j :: 0 <= j < at || at + 24 <= j < dst.Length ==> dst[j] == old(dst[j])
    {
      dst[at + 3 * l], dst[at + 3 * l + 1], dst[at + 3 * l + 2] := x0[l], x1[l], x2[l];
    }
  }

  /** A block in which every lane is valid is all alphabet. */
  lemma BlockIsAlphabet(src: seq<u8>, at: nat)
    requires at + 32 <= |src|
    requires AllValid(Load4(src, at, 0)) && AllValid(Load4(src, at, 1)) && AllValid(Load4(src, at, 2))
    requires AllValid(Load4(src, at, 3))
    ensures forall i :: at <= i < at + 32 ==> IsAlphabet(src[i])
  {
    hide LaneValid, IsAlphabet;
    forall i | at <= i < at + 32
      ensures IsAlphabet(src[i])
    {
      var l, k := (i - at) / 4, (i - at) % 4;
      assert Load4(src, at, k)[l] == src[i];
      ValidLane(src[i]);
    }
  }

  /** A run is at least as long as what is known to be alphabet. */
  lemma RunReaches(src: seq<u8>, n: nat)
    requires n <= |src| && forall i :: 0 <= i < n ==> IsAlphabet(src[i])
    ensures n <= Run(src)
  {
  }

  lemma LaneIsByte(src: seq<u8>, consumed: nat, l: nat, r: nat)
    requires consumed + 32 <= |src| && consumed % 4 == 0 && l < 8 && r < 3
    requires AllValid(Load4(src, consumed, 0)) && AllValid(Load4(src, consumed, 1))
    requires AllValid(Load4(src, consumed, 2)) && AllValid(Load4(src, consumed, 3))
    ensures MergeLanes(Load4(src, consumed, 0), Load4(src, consumed, 1), Load4(src, consumed, 2),
      Load4(src, consumed, 3), r)[l]
         == OctetAt(src, consumed / 4 * 3 + 3 * l + r)
  {
    hide Merge, OctetAt, OctetOf, LaneValid, LaneValue, Sextet, IsAlphabet;
    var g := consumed / 4 + l;
    ValidLane(Load4(src, consumed, 0)[l]);
    ValidLane(Load4(src, consumed, 1)[l]);
    ValidLane(Load4(src, consumed, 2)[l]);
    ValidLane(Load4(src, consumed, 3)[l]);
    MergeIs(Sextet(src[4 * g]), Sextet(src[4 * g + 1]), Sextet(src[4 * g + 2]), Sextet(src[4 * g + 3]), r);
    OctetsHold(src, g, r);
  }

  method DecodeBlock(dst: array<u8>, src: seq<u8>, consumed: nat) returns (ok: bool)
    requires consumed + 32 <= |src| && consumed % 4 == 0 && consumed / 4 * 3 + 24 <= dst.Length
    requires consumed <= Run(src) && Holds(dst, src, consumed / 4 * 3)
    modifies dst
    ensures ok ==> consumed + 32 <= Run(src) && Holds(dst, src, consumed / 4 * 3 + 24)
    ensures !ok ==> Holds(dst, src, consumed / 4 * 3) && forall j :: 0 <= j < dst.Length ==> dst[j] == old(dst[j])
    ensures forall j :: consumed / 4 * 3 + 24 <= j < dst.Length ==> dst[j] == old(dst[j])
  {
    hide OctetAt, MergeLanes, Load4, Run;
    var a, b, c, d := Load4(src, consumed, 0), Load4(src, consumed, 1), Load4(src, consumed, 2),
      Load4(src, consumed, 3);
    if !(AllValid(a) && AllValid(b) && AllValid(c) && AllValid(d)) {
      return false;
    }
    BlockIsAlphabet(src, consumed);
    RunReaches(src, consumed + 32);
    hide AllValid;
    var written := consumed / 4 * 3;
    Store3(dst, written, MergeLanes(a, b, c, d, 0), MergeLanes(a, b, c, d, 1), MergeLanes(a, b, c, d, 2));
    forall j | 0 <= j < written + 24
      ensures dst[j] == OctetAt(src, j)
    {
      if j >= written {
        var l, r := (j - written) / 3, (j - written) % 3;
        LaneIsByte(src, consumed, l, r);
        assert j == written + 3 * l + r;
      }
    }
    ok := true;
  }

  /** `decode`: complete valid blocks of 32 characters that fit; it stops before any other. */
  method DecodePrefix(dst: array<u8>, src: seq<u8>) returns (consumed: nat, written: nat)
    modifies dst
    ensures consumed % 4 == 0 && consumed <= Run(src) && written == consumed / 4 * 3 <= dst.Length
    ensures Holds(dst, src, written) && forall j :: written <= j < dst.Length ==> dst[j] == old(dst[j])
  {
    hide Holds, Run;
    consumed, written := 0, 0;
    assert Holds(dst, src, 0) by { NothingDecoded(dst, src); }
    while |src| - consumed >= 32 && dst.Length - written >= 24
      invariant consumed % 4 == 0 && consumed <= Run(src) && written == consumed / 4 * 3 <= dst.Length
      invariant Holds(dst, src, written) && forall j :: written <= j < dst.Length ==> dst[j] == old(dst[j])
    {
      var ok := DecodeBlock(dst, src, consumed);
      if !ok {
        break;
      }
      consumed := consumed + 32;
      written := written + 24;
    }
  }

  lemma NothingDecoded(dst: array<u8>, src: seq<u8>)
    ensures Holds(dst, src, 0)
  {
  }
}
