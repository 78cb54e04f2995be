/** The scalar Base64 decoder, from the start or after a vector prefix. */
module Base64Decode {
  import opened Machine
  import opened Bits
  import opened Base64
  import opened Base64Scalar

  /** `(acc << 6) | d`: what is above 32 bits is lost. */
  function Shift6(acc: u32, d: nat): (a: u32)
    requires d < 64
  {
    acc * 64 % 0x1_0000_0000 + d
  }

  lemma HighBitsLost6(acc: u32)
    ensures acc * 64 % 0x1_0000_0000 == acc % 0x400_0000 * 64
  {
    var q, r := acc / 0x400_0000, acc % 0x400_0000;
    assert acc * 64 == q * 0x1_0000_0000 + r * 64;
  }

  lemma Divides(a: nat, n: nat, q: nat, r: nat)
    requires (n == 4 || n == 16 || n == 64 || n == 256) && a == n * q + r && r < n
    ensures a / n == q && a % n == r
  {
  }

  lemma LowBitsKept6(acc: u32)
    ensures acc % 0x400_0000 % 4 == acc % 4 && acc % 0x400_0000 % 16 == acc % 16 && acc % 0x400_0000 % 64 == acc % 64
  {
    assert acc == acc / 0x400_0000 * 0x400_0000 + acc % 0x400_0000;
  }

  lemma Shift6Part16(r: nat, d: nat)
    requires d < 64
    ensures (r * 64 + d) / 16 % 256 == r % 64 * 4 + d / 16 && (r * 64 + d) % 16 == d % 16
  {
    Divides(r * 64 + d, 16, r * 4 + d / 16, d % 16);
    Divides(r * 4 + d / 16, 256, r / 64, r % 64 * 4 + d / 16);
  }

  lemma Shift6Part4(r: nat, d: nat)
    requires d < 64
    ensures (r * 64 + d) / 4 % 256 == r % 16 * 16 + d / 4 && (r * 64 + d) % 4 == d % 4
  {
    Divides(r * 64 + d, 4, r * 16 + d / 4, d % 4);
    Divides(r * 16 + d / 4, 256, r / 16, r % 16 * 16 + d / 4);
  }

  lemma Shift6Part1(r: nat, d: nat)
    requires d < 64
    ensures (r * 64 + d) % 256 == r % 4 * 64 + d && (r * 64 + d) % 64 == d
  {
    Divides(r * 64 + d, 256, r / 4, r % 4 * 64 + d);
    Divides(r * 64 + d, 64, r, d);
  }

  /** The bits still to be written survive the shift. */
  lemma Shift6Keeps(acc: u32, d: nat)
    requires d < 64
    ensures Shift6(acc, d) / 16 % 256 == acc % 64 * 4 + d / 16 && Shift6(acc, d) % 16 == d % 16
    ensures Shift6(acc, d) / 4 % 256 == acc % 16 * 16 + d / 4 && Shift6(acc, d) % 4 == d % 4
    ensures Shift6(acc, d) % 256 == acc % 4 * 64 + d && Shift6(acc, d) % 64 == d
  {
    var r := acc % 0x400_0000;
    HighBitsLost6(acc);
    LowBitsKept6(acc);
    assert Shift6(acc, d) == r * 64 + d;
    hide Shift6;
    Shift6Part16(r, d);
    Shift6Part4(r, d);
    Shift6Part1(r, d);
  }

  /** Bits buffered after `i` characters. */
  function Buffered(i: nat): nat { if i % 4 == 0 then 0 else 8 - 2 * (i % 4) }

  function BytesAfter(i: nat): nat { i / 4 * 3 + if i % 4 == 0 then 0 else i % 4 - 1 }

  /** The loop state between two characters of the input. */
  predicate DecodeState(src: seq<u8>, i: nat, acc: u32, accLen: nat, len: nat) {
    && i <= Run(src)
    && accLen == Buffered(i)
    && len == BytesAfter(i)
    && (i % 4 == 1 ==> acc % 64 == ValueOr0(src, i - 1))
    && (i % 4 == 2 ==> acc % 16 == ValueOr0(src, i - 1) % 16)
    && (i % 4 == 3 ==> acc % 4 == ValueOr0(src, i - 1) % 4)
  }

  /** The byte one more character completes. */
  lemma DecodeStep(src: seq<u8>, i: nat, acc: u32)
    requires i < Run(src) && DecodeState(src, i, acc, Buffered(i), BytesAfter(i))
    ensures IsAlphabet(src[i]) && ValueOr0(src, i) == Sextet(src[i])
    ensures var a := Shift6(acc, Sextet(src[i]));
            && (i % 4 == 1 ==> a / 16 % 256 == OctetAt(src, BytesAfter(i)))
            && (i % 4 == 2 ==> a / 4 % 256 == OctetAt(src, BytesAfter(i)))
            && (i % 4 == 3 ==> a % 256 == OctetAt(src, BytesAfter(i)))
            && DecodeState(src, i + 1, a, Buffered(i + 1), BytesAfter(i + 1))
  {
    hide Shift6, OctetAt, Run, Sextet;
    Shift6Keeps(acc, Sextet(src[i]));
    var g := i / 4;
    OctetsHold(src, g, 0);
    OctetsHold(src, g, 1);
    OctetsHold(src, g, 2);
  }

  lemma BytesAfterIs(i: nat)
    ensures BytesAfter(i) == i * 3 / 4
    ensures BytesAfter(i + 1) == BytesAfter(i) + if i % 4 == 0 then 0 else 1
    ensures Buffered(i + 1) == if i % 4 == 0 then Buffered(i) + 6 else Buffered(i) - 2
  {
  }

  lemma {:induction false} BytesAfterGrows(i: nat, j: nat)
    requires i <= j
    ensures BytesAfter(i) <= BytesAfter(j)
  {
    hide BytesAfter;
    if i < j {
      BytesAfterGrows(i, j - 1);
      BytesAfterIs(j - 1);
    }
  }

  /** The first `n` bytes of the destination. */
  ghost predicate Holds(dst: array<u8>, src: seq<u8>, n: nat)
    requires n <= dst.Length
    reads dst
  {
    forall j :: 0 <= j < n ==> dst[j] == OctetAt(src, j)
  }

  /** `acc_len > 4 || acc & ((1 << acc_len) - 1) != 0`. */
  predicate Leftover(acc: u32, accLen: nat) {
    accLen > 4 || (if accLen == 0 then And(acc, 0) else if accLen == 2 then And(acc, 3) else And(acc, 15)) != 0
  }

  lemma LeftoverIs(src: seq<u8>, acc: u32)
    requires DecodeState(src, Run(src), acc, Buffered(Run(src)), BytesAfter(Run(src)))
    ensures Leftover(acc, Buffered(Run(src))) == !Canonical(src, Run(src))
  {
    hide And, Run;
    Masks(acc);
  }

  /** One character into the accumulator, and at most one byte out; it fails when there is no room. */
  method TakeCharacter(dst: array<u8>, src: seq<u8>, i: nat, acc0: u32, accLen0: nat, len0: nat)
    returns (ok: bool, acc: u32, accLen: nat, len: nat)
    requires i < Run(src) && DecodeState(src, i, acc0, accLen0, len0)
    requires len0 <= dst.Length && Holds(dst, src, len0)
    modifies dst
    ensures ok <==> BytesAfter(i + 1) <= dst.Length
    ensures !ok ==> len0 == dst.Length && Holds(dst, src, len0)
    ensures ok ==> DecodeState(src, i + 1, acc, accLen, len) && len0 <= len <= dst.Length && Holds(dst, src, len)
    ensures ok ==> forall j :: len <= j < dst.Length ==> dst[j] == old(dst[j])
  {
    hide OctetAt, Run, Shift6, Sextet, DecodeState, CharToByte;
    assert accLen0 == Buffered(i) && len0 == BytesAfter(i) by { PlaceOf(src, i, acc0, accLen0, len0); }
    DecodeStep(src, i, acc0);
    BytesAfterIs(i);
    CharToByteIsSextet(src[i]);
    acc, accLen, len := Shift6(acc0, CharToByte(src[i])), accLen0 + 6, len0;
    if accLen >= 8 {
      accLen := accLen - 8;
      if len >= dst.Length {
        return false, acc, accLen, len;
      }
      dst[len] := if accLen == 4 then acc / 16 % 256 else if accLen == 2 then acc / 4 % 256 else acc % 256;
      len := len + 1;
    }
    ok := true;
  }

  lemma PlaceOf(src: seq<u8>, i: nat, acc: u32, accLen: nat, len: nat)
    requires DecodeState(src, i, acc, accLen, len)
    ensures i <= Run(src) && accLen == Buffered(i) && len == BytesAfter(i)
  {
  }

  lemma StateAtStart(src: seq<u8>, i: nat)
    requires i <= Run(src) && i % 4 == 0
    ensures DecodeState(src, i, 0, 0, BytesAfter(i)) && BytesAfter(i) == i / 4 * 3
  {
  }

  /** The character at the cursor, or the terminator the source reads past the end. */
  lemma EndOfRun(src: seq<u8>, i: nat)
    requires i <= Run(src)
    ensures i < Run(src) <==> CharToByte(if i < |src| then src[i] else 0) != 0xFF
  {
    hide CharToByte;
    CharToByteIsSextet(if i < |src| then src[i] else 0);
  }

  /**
   The decoder's loop from any multiple of four characters: the whole of `from_base64_scalar`, and
   what follows a vector prefix, with an accumulator that starts at zero.
   */
  method DecodeFrom(dst: array<u8>, src: seq<u8>, start: nat) returns (r: Result<(nat, nat)>)
    requires start % 4 == 0 && start <= Run(src) && start / 4 * 3 <= dst.Length && Holds(dst, src, start / 4 * 3)
    modifies dst
    ensures r == DecodeResult(src, dst.Length)
    ensures Holds(dst, src, BytesWritten(src, dst.Length))
    ensures dst[BytesWritten(src, dst.Length)..] == old(dst[BytesWritten(src, dst.Length)..])
  {
    hide OctetAt, Run, DecodeState, CharToByte, Canonical, Leftover, Buffered, BytesAfter, Holds;
    var consumed: nat, len: nat := start, start / 4 * 3;
    var acc: u32, accLen: nat := 0, 0;
    StateAtStart(src, start);
    while true
      invariant consumed <= Run(src) && DecodeState(src, consumed, acc, accLen, len)
      invariant len <= dst.Length && Holds(dst, src, len)
      invariant forall j :: len <= j < dst.Length ==> dst[j] == old(dst[j])
      decreases Run(src) - consumed
    {
      PlaceOf(src, consumed, acc, accLen, len);
      EndOfRun(src, consumed);
      if CharToByte(if consumed < |src| then src[consumed] else 0) == 0xFF {
        break;
      }
      var ok: bool;
      ok, acc, accLen, len := TakeCharacter(dst, src, consumed, acc, accLen, len);
      consumed := consumed + 1;
      if !ok {
        BytesAfterGrows(consumed, Run(src));
        BytesAfterIs(Run(src));
        return Err(DecodingFail);
      }
    }
    PlaceOf(src, consumed, acc, accLen, len);
    EndOfRun(src, consumed);
    BytesAfterIs(consumed);
    LeftoverIs(src, acc);
    if Leftover(acc, accLen) {
      return Err(DecodingFail);
    }
    r := Ok((len, consumed));
  }

  /** `from_base64_scalar`. */
  method FromBase64Scalar(dst: array<u8>, src: seq<u8>) returns (r: Result<(nat, nat)>)
    modifies dst
    ensures r == DecodeResult(src, dst.Length)
    ensures dst[..] == Octets(src, BytesWritten(src, dst.Length)) + old(dst[BytesWritten(src, dst.Length)..])
  {
    hide OctetAt, Run;
    r := DecodeFrom(dst, src, 0);
    WholeDestination(dst[..], src, BytesWritten(src, dst.Length));
  }

  lemma WholeDestination(d: seq<u8>, src: seq<u8>, n: nat)
    requires n <= |d| && forall j :: 0 <= j < n ==> d[j] == OctetAt(src, j)
    ensures d == Octets(src, n) + d[n..]
  {
    hide OctetAt;
  }
}
