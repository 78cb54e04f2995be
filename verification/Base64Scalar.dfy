/** The scalar Base64 loops: branch-free classification and 32-bit accumulators that lose their high bits. */
module Base64Scalar {
  import opened Machine
  import opened Bits
  import opened Base64

  // ---------------------------------------------------------------------------
  // Branch-free classification
  // ---------------------------------------------------------------------------

  /** `eq`, `gt`, `ge`, `lt`, `le`: 0xFF for true and 0 for false, over bytes. */
  function Eq(x: u32, y: u32): nat { Xor(And((0 - Xor(x, y)) % 0x1_0000_0000 / 256, 0xFF), 0xFF) }

  function Gt(x: u32, y: u32): nat { And((y - x) % 0x1_0000_0000 / 256, 0xFF) }

  function Ge(x: u32, y: u32): nat { Xor(Gt(y, x), 0xFF) }

  function Lt(x: u32, y: u32): nat { Gt(y, x) }

  function Le(x: u32, y: u32): nat { Ge(y, x) }

  function Mask(b: bool): nat { if b then 0xFF else 0 }

  lemma XorOfMask(m: nat)
    requires m == 0 || m == 0xFF
    ensures Xor(m, 0xFF) == 0xFF - m
  {
    Powers();
    XorFacts(m, 0xFF, 8);
  }

  lemma BorrowIs(x: u32, y: u32)
    requires x < 256 && y < 256
    ensures (y - x) % 0x1_0000_0000 / 256 % 256 == Mask(x > y)
  {
  }

  lemma GtIs(x: u32, y: u32)
    requires x < 256 && y < 256
    ensures Gt(x, y) == Mask(x > y)
  {
    hide And, Mask;
    Masks((y - x) % 0x1_0000_0000 / 256);
    BorrowIs(x, y);
  }

  lemma NegationIs(d: nat)
    requires d < 256
    ensures (0 - d) % 0x1_0000_0000 / 256 % 256 == Mask(d != 0)
  {
  }

  lemma EqIs(x: u32, y: u32)
    requires x < 256 && y < 256
    ensures Eq(x, y) == Mask(x == y)
  {
    hide And, Xor;
    Powers();
    XorFacts(x, y, 8);
    NegationIs(Xor(x, y));
    Masks((0 - Xor(x, y)) % 0x1_0000_0000 / 256);
    XorOfMask(Mask(x != y));
  }

  lemma ComparesAre(x: u32, y: u32)
    requires x < 256 && y < 256
    ensures Gt(x, y) == Lt(y, x) == Mask(x > y)
    ensures Ge(x, y) == Le(y, x) == Mask(x >= y)
  {
    hide Gt, Xor;
    GtIs(x, y);
    GtIs(y, x);
    XorOfMask(Gt(y, x));
  }

  /** What a mask does to a value: all of its low byte, or nothing. */
  lemma MaskKeeps(b: bool, v: nat)
    ensures And(Mask(b), v) == if b then v % 256 else 0
  {
    hide And;
    Masks(v);
  }

  lemma MaskAnd(a: bool, b: bool)
    ensures And(Mask(a), Mask(b)) == Mask(a && b)
  {
    hide And;
    Masks(Mask(b));
  }

  lemma OrWithZero(a: nat)
    ensures Or(0, a) == Or(a, 0) == a
  {
  }

  /** `b64_byte_to_char`. */
  function ByteToChar(x: u32): u8 {
    Or(Or(Or(Or(And(Lt(x, 26), (x + 65) % 0x1_0000_0000),
                And(And(Ge(x, 26), Lt(x, 52)), (x + 71) % 0x1_0000_0000)),
             And(And(Ge(x, 52), Lt(x, 62)), (x + 0xFFFF_FFFC) % 0x1_0000_0000)),
          And(Eq(x, 62), 43)),
       And(Eq(x, 63), 47)) % 256
  }

  lemma Unsigned(x: int, off: int)
    requires 0 <= x + off < 256
    ensures (x + off) % 0x1_0000_0000 % 256 == x + off
  {
  }

  lemma UpperTerm(x: u32)
    requires x < 64
    ensures And(Lt(x, 26), (x + 65) % 0x1_0000_0000) == if x < 26 then x + 65 else 0
  {
    hide And, Lt;
    ComparesAre(26, x);
    MaskKeeps(x < 26, (x + 65) % 0x1_0000_0000);
    Unsigned(x, 65);
  }

  lemma LowerTerm(x: u32)
    requires x < 64
    ensures And(And(Ge(x, 26), Lt(x, 52)), (x + 71) % 0x1_0000_0000) == if 26 <= x < 52 then x + 71 else 0
  {
    hide And, Lt, Ge;
    ComparesAre(x, 26);
    ComparesAre(52, x);
    MaskAnd(x >= 26, x < 52);
    MaskKeeps(x >= 26 && x < 52, (x + 71) % 0x1_0000_0000);
    Unsigned(x, 71);
  }

  lemma DigitTerm(x: u32)
    requires x < 64
    ensures And(And(Ge(x, 52), Lt(x, 62)), (x + 0xFFFF_FFFC) % 0x1_0000_0000) == if 52 <= x < 62 then x - 4 else 0
  {
    hide And, Lt, Ge;
    ComparesAre(x, 52);
    ComparesAre(62, x);
    MaskAnd(x >= 52, x < 62);
    MaskKeeps(x >= 52 && x < 62, (x + 0xFFFF_FFFC) % 0x1_0000_0000);
    if x >= 4 {
      Unsigned(x, -4);
      assert (x + 0xFFFF_FFFC) % 0x1_0000_0000 == x - 4;
    }
  }

  lemma SymbolTerm(x: u32, v: nat, c: nat)
    requires x < 256 && v < 256 && c < 256
    ensures And(Eq(x, v), c) == if x == v then c else 0
  {
    hide And, Eq;
    EqIs(x, v);
    MaskKeeps(x == v, c);
  }

  lemma ByteToCharIsAlphabet(x: u32)
    requires x < 64
    ensures ByteToChar(x) == Alphabet(x)
  {
    hide And, Or, Lt, Ge, Eq;
    UpperTerm(x);
    LowerTerm(x);
    DigitTerm(x);
    SymbolTerm(x, 62, 43);
    SymbolTerm(x, 63, 47);
    OrWithZero(0);
    OrWithZero(Alphabet(x));
  }

  /** `b64_char_to_byte`, before the last line: a zero is right only for `A`. */
  function CharValue(c: u8): nat {
    Or(Or(Or(Or(And(And(Ge(c, 65), Le(c, 90)), (c - 65) % 0x1_0000_0000),
                And(And(Ge(c, 97), Le(c, 122)), (c - 71) % 0x1_0000_0000)),
             And(And(Ge(c, 48), Le(c, 57)), (c - 0xFFFF_FFFC) % 0x1_0000_0000)),
          And(Eq(c, 43), 62)),
       And(Eq(c, 47), 63))
  }

  function CharToByte(c: u8): nat {
    var x := CharValue(c);
    if x < 0x1_0000_0000 then Or(x, And(Eq(x, 0), Xor(Eq(c, 65), 0xFF))) else x
  }

  lemma RangeTerm(c: u8, lo: u8, hi: u8, v: nat)
    ensures And(And(Ge(c, lo), Le(c, hi)), v) == if lo <= c <= hi then v % 256 else 0
  {
    hide And, Le, Ge;
    ComparesAre(c, lo);
    ComparesAre(hi, c);
    MaskAnd(c >= lo, c <= hi);
    MaskKeeps(c >= lo && c <= hi, v);
  }

  lemma CharValueIs(c: u8)
    ensures CharValue(c) == if IsAlphabet(c) then Sextet(c) else 0
  {
    hide And, Or, Le, Ge, Eq;
    RangeTerm(c, 65, 90, (c - 65) % 0x1_0000_0000);
    RangeTerm(c, 97, 122, (c - 71) % 0x1_0000_0000);
    RangeTerm(c, 48, 57, (c - 0xFFFF_FFFC) % 0x1_0000_0000);
    if 65 <= c <= 90 {
      Unsigned(c, -65);
    } else if 97 <= c <= 122 {
      Unsigned(c, -71);
    } else if 48 <= c <= 57 {
      Unsigned(c, 4);
      assert (c - 0xFFFF_FFFC) % 0x1_0000_0000 == c + 4;
    }
    SymbolTerm(c, 43, 62);
    SymbolTerm(c, 47, 63);
    OrWithZero(0);
    if IsAlphabet(c) {
      OrWithZero(Sextet(c));
    }
  }

  /** The classification returns the value of a character of the alphabet, and 0xFF for every other byte. */
  lemma CharToByteIsSextet(c: u8)
    ensures CharToByte(c) == if IsAlphabet(c) then Sextet(c) else 0xFF
  {
    hide CharValue, And, Or, Xor, Eq;
    CharValueIs(c);
    var x := CharValue(c);
    EqIs(x, 0);
    EqIs(c, 65);
    XorOfMask(Mask(c == 65));
    MaskAnd(x == 0, c != 65);
    OrWithZero(x);
    OrWithZero(0xFF);
  }

  // ---------------------------------------------------------------------------
  // Encoding
  // ---------------------------------------------------------------------------

  /** `(acc << 8) | byte`: what is above 32 bits is lost. */
  function Shift8(acc: u32, byte: u8): u32 { acc * 256 % 0x1_0000_0000 + byte }

  /** The bits still to be written survive the shift. */
  lemma Shift8Keeps(acc: u32, byte: u8)
    ensures Shift8(acc, byte) / 4 % 64 == byte / 4 && Shift8(acc, byte) % 4 == byte % 4
    ensures Shift8(acc, byte) / 16 % 64 == acc % 4 * 16 + byte / 16 && Shift8(acc, byte) % 16 == byte % 16
    ensures Shift8(acc, byte) / 64 % 64 == acc % 16 * 4 + byte / 64 && Shift8(acc, byte) % 64 == byte % 64
  {
    var r := acc % 0x100_0000;
    HighBitsLost(acc);
    ShiftParts(r, byte);
    LowBitsKept(acc);
    hide Shift8;
  }

  lemma HighBitsLost(acc: u32)
    ensures acc * 256 % 0x1_0000_0000 == acc % 0x100_0000 * 256
  {
    var q, r := acc / 0x100_0000, acc % 0x100_0000;
    assert acc * 256 == q * 0x1_0000_0000 + r * 256;
  }

  lemma LowBitsKept(acc: u32)
    ensures acc % 0x100_0000 % 4 == acc % 4 && acc % 0x100_0000 % 16 == acc % 16
  {
    assert acc == acc / 0x100_0000 * 0x100_0000 + acc % 0x100_0000;
  }

  lemma ShiftParts(r: nat, byte: u8)
    ensures (r * 256 + byte) / 4 % 64 == byte / 4 && (r * 256 + byte) % 4 == byte % 4
    ensures (r * 256 + byte) / 16 % 64 == r % 4 * 16 + byte / 16 && (r * 256 + byte) % 16 == byte % 16
    ensures (r * 256 + byte) / 64 % 64 == r % 16 * 4 + byte / 64 && (r * 256 + byte) % 64 == byte % 64
  {
    ShiftPart4(r, byte);
    ShiftPart16(r, byte);
    ShiftPart64(r, byte);
  }

  lemma ShiftPart4(r: nat, byte: u8)
    ensures (r * 256 + byte) / 4 % 64 == byte / 4 && (r * 256 + byte) % 4 == byte % 4
  {
    assert (r * 256 + byte) / 4 == r * 64 + byte / 4;
  }

  lemma Divides16(a: nat, q: nat, r: nat)
    requires a == 16 * q + r && r < 16
    ensures a / 16 == q && a % 16 == r
  {
  }

  lemma Divides64(a: nat, q: nat, r: nat)
    requires a == 64 * q + r && r < 64
    ensures a / 64 == q && a % 64 == r
  {
  }

  lemma ShiftPart16(r: nat, byte: u8)
    ensures (r * 256 + byte) / 16 % 64 == r % 4 * 16 + byte / 16 && (r * 256 + byte) % 16 == byte % 16
  {
    Divides16(r * 256 + byte, r * 16 + byte / 16, byte % 16);
    Divides64(r * 16 + byte / 16, r / 4, r % 4 * 16 + byte / 16);
  }

  lemma ShiftPart64(r: nat, byte: u8)
    ensures (r * 256 + byte) / 64 % 64 == r % 16 * 4 + byte / 64 && (r * 256 + byte) % 64 == byte % 64
  {
    Divides64(r * 256 + byte, r * 4 + byte / 64, byte % 64);
    Divides64(r * 4 + byte / 64, r / 16, r % 16 * 4 + byte / 64);
  }

  /** The loop state between two bytes of the input. */
  predicate EncodeState(src: seq<u8>, i: nat, acc: u32, accLen: nat, written: nat) {
    && i <= |src|
    && accLen == 2 * (i % 3)
    && written == i / 3 * 4 + i % 3
    && (i % 3 == 1 ==> acc % 4 == src[i - 1] % 4)
    && (i % 3 == 2 ==> acc % 16 == src[i - 1] % 16)
  }

  /** The sextets one more byte completes. */
  lemma EncodeStep(src: seq<u8>, i: nat, acc: u32)
    requires i < |src| && EncodeState(src, i, acc, 2 * (i % 3), i / 3 * 4 + i % 3)
    ensures var a := Shift8(acc, src[i]);
            && (i % 3 == 0 ==> a / 4 % 64 == SextetAt(src, i / 3 * 4))
            && (i % 3 == 1 ==> a / 16 % 64 == SextetAt(src, i / 3 * 4 + 1))
            && (i % 3 == 2 ==> a / 64 % 64 == SextetAt(src, i / 3 * 4 + 2) && a % 64 == SextetAt(src, i / 3 * 4 + 3))
            && EncodeState(src, i + 1, a, 2 * ((i + 1) % 3), (i + 1) / 3 * 4 + (i + 1) % 3)
  {
    hide Shift8, SextetAt;
    Shift8Keeps(acc, src[i]);
    var g := i / 3;
    SextetsHold(src, g, 0);
    SextetsHold(src, g, 1);
    SextetsHold(src, g, 2);
    SextetsHold(src, g, 3);
  }

  /** The sextet left over at the end. */
  lemma EncodeLeft(src: seq<u8>, acc: u32)
    requires EncodeState(src, |src|, acc, 2 * (|src| % 3), |src| / 3 * 4 + |src| % 3)
    ensures |src| % 3 == 1 ==> acc * 16 % 0x1_0000_0000 % 64 == SextetAt(src, |src| / 3 * 4 + 1)
    ensures |src| % 3 == 2 ==> acc * 4 % 0x1_0000_0000 % 64 == SextetAt(src, |src| / 3 * 4 + 2)
  {
    hide SextetAt;
    var g := |src| / 3;
    SextetsHold(src, g, 1);
    SextetsHold(src, g, 2);
    LeftShift(acc);
  }

  lemma LeftShift(acc: u32)
    ensures acc * 16 % 0x1_0000_0000 % 64 == acc % 4 * 16
    ensures acc * 4 % 0x1_0000_0000 % 64 == acc % 16 * 4
  {
    LeftShift16(acc);
    LeftShift4(acc);
  }

  lemma Truncated(a: nat)
    ensures a % 0x1_0000_0000 % 64 == a % 64
  {
    var q, r := a / 0x1_0000_0000, a % 0x1_0000_0000;
    assert a == 0x1_0000_0000 * q + r;
    Divides64(a, 0x400_0000 * q + r / 64, r % 64);
  }

  lemma LeftShift16(acc: u32)
    ensures acc * 16 % 0x1_0000_0000 % 64 == acc % 4 * 16
  {
    Truncated(acc * 16);
    Divides64(acc * 16, acc / 4, acc % 4 * 16);
  }

  lemma LeftShift4(acc: u32)
    ensures acc * 4 % 0x1_0000_0000 % 64 == acc % 16 * 4
  {
    Truncated(acc * 4);
    Divides64(acc * 4, acc / 16, acc % 16 * 4);
  }

  /** The part of the destination that holds the first `n` characters. */
  ghost predicate Encoded(dst: array<u8>, at: nat, src: seq<u8>, n: nat)
    requires at + n <= dst.Length && n <= B64Len(|src|)
    reads dst
  {
    forall j :: 0 <= j < n ==> dst[at + j] == Alphabet(SextetAt(src, j))
  }

  /** `b64_byte_to_char` of six bits of the accumulator, into the destination. */
  method PutSextet(dst: array<u8>, at: nat, src: seq<u8>, written: nat, v: u32)
    requires at + written < dst.Length && written < B64Len(|src|)
    requires Encoded(dst, at, src, written) && v == SextetAt(src, written)
    modifies dst
    ensures Encoded(dst, at, src, written + 1)
    ensures dst[..at] == old(dst[..at]) && dst[at + written + 1..] == old(dst[at + written + 1..])
  {
    hide SextetAt, Alphabet, ByteToChar;
    ByteToCharIsAlphabet(v);
    dst[at + written] := ByteToChar(v);
  }

  /** The last characters, after the input is used up. */
  method PutLeft(dst: array<u8>, at: nat, src: seq<u8>, acc: u32, accLen: nat, written: nat)
    requires at + B64Len(|src|) < dst.Length && written <= B64Len(|src|)
    requires EncodeState(src, |src|, acc, accLen, written) && Encoded(dst, at, src, written)
    modifies dst
    ensures Encoded(dst, at, src, B64Len(|src|))
    ensures dst[..at] == old(dst[..at]) && dst[at + B64Len(|src|)..] == old(dst[at + B64Len(|src|)..])
  {
    hide SextetAt, Encoded;
    EncodeLeft(src, acc);
    if accLen > 0 {
      var v := if accLen == 2 then acc * 16 % 0x1_0000_0000 % 64 else acc * 4 % 0x1_0000_0000 % 64;
      PutSextet(dst, at, src, written, v);
    }
  }

  lemma CharactersFit(n: nat, i: nat)
    requires i < n
    ensures i / 3 * 4 + i % 3 + (if i % 3 == 2 then 2 else 1) <= B64Len(n)
    ensures (i + 1) / 3 * 4 + (i + 1) % 3 == i / 3 * 4 + i % 3 + (if i % 3 == 2 then 2 else 1)
  {
  }

  /** One byte into the accumulator, and one or two characters out. */
  method PutByte(dst: array<u8>, at: nat, src: seq<u8>, i: nat, acc0: u32, accLen0: nat, written0: nat)
    returns (acc: u32, accLen: nat, written: nat)
    requires i < |src| && EncodeState(src, i, acc0, accLen0, written0)
    requires at + B64Len(|src|) < dst.Length && written0 <= B64Len(|src|) && Encoded(dst, at, src, written0)
    modifies dst
    ensures EncodeState(src, i + 1, acc, accLen, written) && written <= B64Len(|src|) && Encoded(dst, at, src, written)
    ensures dst[..at] == old(dst[..at]) && dst[at + B64Len(|src|)..] == old(dst[at + B64Len(|src|)..])
  {
    hide SextetAt, Encoded, Shift8, B64Len;
    EncodeStep(src, i, acc0);
    CharactersFit(|src|, i);
    acc, accLen, written := Shift8(acc0, src[i]), accLen0 + 8, written0;
    accLen := accLen - 6;
    var v := if accLen == 2 then acc / 4 % 64 else if accLen == 4 then acc / 16 % 64 else acc / 64 % 64;
    PutSextet(dst, at, src, written, v);
    written := written + 1;
    if accLen >= 6 {
      accLen := accLen - 6;
      PutSextet(dst, at, src, written, acc % 64);
      written := written + 1;
    }
  }

  /**
   The encoder's loop from any multiple of three bytes: the whole of `to_base64_scalar`, and what
   follows a vector prefix, with an accumulator that starts at zero.
   */
  method EncodeFrom(dst: array<u8>, at: nat, src: seq<u8>, consumed: nat)
    requires consumed <= |src| && consumed % 3 == 0 && consumed / 3 * 4 <= B64Len(|src|)
    requires at + B64Len(|src|) < dst.Length && Encoded(dst, at, src, consumed / 3 * 4)
    modifies dst
    ensures Encoded(dst, at, src, B64Len(|src|))
    ensures dst[..at] == old(dst[..at]) && dst[at + B64Len(|src|)..] == old(dst[at + B64Len(|src|)..])
  {
    hide Encoded;
    var acc: u32 := 0;
    var accLen: nat := 0;
    var written: nat := consumed / 3 * 4;
    for i := consumed to |src|
      invariant EncodeState(src, i, acc, accLen, written) && written <= B64Len(|src|) && Encoded(dst, at, src, written)
      invariant dst[..at] == old(dst[..at]) && dst[at + B64Len(|src|)..] == old(dst[at + B64Len(|src|)..])
    {
      acc, accLen, written := PutByte(dst, at, src, i, acc, accLen, written);
    }
    PutLeft(dst, at, src, acc, accLen, written);
  }

  lemma EncodedIs(dst: array<u8>, at: nat, src: seq<u8>)
    requires at + B64Len(|src|) <= dst.Length && Encoded(dst, at, src, B64Len(|src|))
    ensures dst[at..at + B64Len(|src|)] == Encode(src)
  {
    hide SextetAt, Alphabet;
  }

  /** What encoding into a buffer gives: the encoding if it fits with a byte to spare, or nothing. */
  function EncodeResult(src: seq<u8>, room: nat): Result<nat> {
    if room <= B64Len(|src|) then Err(EncodingFail) else Ok(B64Len(|src|))
  }

  /** `to_base64_scalar`. */
  method ToBase64Scalar(dst: array<u8>, at: nat, src: seq<u8>) returns (r: Result<nat>)
    requires at <= dst.Length
    modifies dst
    ensures r == EncodeResult(src, dst.Length - at)
    ensures dst[..] == if r.Ok? then old(dst[..at]) + Encode(src) + old(dst[at + B64Len(|src|)..]) else old(dst[..])
  {
    hide Encode, B64Len;
    if dst.Length - at <= B64Len(|src|) {
      return Err(EncodingFail);
    }
    NothingEncoded(dst, at, src);
    EncodeFrom(dst, at, src, 0);
    EncodedIs(dst, at, src);
    assert dst[..] == dst[..at] + dst[at..at + B64Len(|src|)] + dst[at + B64Len(|src|)..];
    r := Ok(B64Len(|src|));
  }

  lemma NothingEncoded(dst: array<u8>, at: nat, src: seq<u8>)
    requires at <= dst.Length
    ensures Encoded(dst, at, src, 0)
  {
  }
}
