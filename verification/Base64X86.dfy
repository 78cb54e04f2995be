/**
 The SSSE3 and AVX2 prefixes. Their loops are the source's; what one block's vector instructions
 store is taken from the contract of the prefixes, 12 or 24 bytes as characters, 16 or 32 characters as bytes.
 */
module Base64X86 {
  import opened Machine
  import opened Base64
  import opened Base64Scalar
  import opened Base64Decode
  import opened Base64Neon

  /** `encode_block_12` and `encode_block_24`: `groups` times three bytes as characters. */
  method EncodeGroups(dst: array<u8>, at: nat, src: seq<u8>, consumed: nat, groups: nat)
    requires consumed % 3 == 0 && consumed / 3 * 4 + 4 * groups <= B64Len(|src|)
    requires at + B64Len(|src|) < dst.Length && Encoded(dst, at, src, consumed / 3 * 4)
    modifies dst
    ensures Encoded(dst, at, src, consumed / 3 * 4 + 4 * groups)
    ensures dst[..at] == old(dst[..at]) && dst[at + B64Len(|src|)..] == old(dst[at + B64Len(|src|)..])
  {
    hide SextetAt, Encoded, B64Len;
    var written := consumed / 3 * 4;
    for i := 0 to 4 * groups
      invariant Encoded(dst, at, src, written + i)
      invariant dst[..at] == old(dst[..at]) && dst[at + B64Len(|src|)..] == old(dst[at + B64Len(|src|)..])
    {
      PutSextet(dst, at, src, written + i, SextetAt(src, written + i));
    }
  }

  /** The state of an encoding prefix. */
  ghost predicate Encoding(dst: array<u8>, at: nat, src: seq<u8>, consumed: nat, written: nat)
    reads dst
  {
    && at + B64Len(|src|) < dst.Length
    && consumed <= |src| && consumed % 3 == 0 && written == consumed / 3 * 4 <= B64Len(|src|)
    && Encoded(dst, at, src, written)
  }

  /** The loop over blocks of `3 * groups` bytes, each loaded with `4 * groups` bytes in sight. */
  method EncodeBlocks(dst: array<u8>, at: nat, src: seq<u8>, groups: nat, consumed0: nat, written0: nat)
    returns (consumed: nat, written: nat)
    requires groups == 4 || groups == 8
    requires Encoding(dst, at, src, consumed0, written0)
    modifies dst
    ensures Encoding(dst, at, src, consumed, written)
    ensures dst[..at] == old(dst[..at]) && dst[at + B64Len(|src|)..] == old(dst[at + B64Len(|src|)..])
  {
    hide Encoded, B64Len;
    consumed, written := consumed0, written0;
    while |src| - consumed >= 4 * groups
      invariant Encoding(dst, at, src, consumed, written)
      invariant dst[..at] == old(dst[..at]) && dst[at + B64Len(|src|)..] == old(dst[at + B64Len(|src|)..])
      decreases |src| - consumed
    {
      BlockFits(|src|, consumed, groups);
      EncodeGroups(dst, at, src, consumed, groups);
      consumed := consumed + 3 * groups;
      written := written + 4 * groups;
    }
  }

  /** `encode_ssse3` and `encode_avx2`: the wide blocks first, then the narrow ones. */
  method EncodePrefix(dst: array<u8>, at: nat, src: seq<u8>, wide: bool) returns (consumed: nat, written: nat)
    requires at + B64Len(|src|) < dst.Length
    modifies dst
    ensures consumed <= |src| && consumed % 3 == 0 && written == consumed / 3 * 4 <= B64Len(|src|)
    ensures Encoded(dst, at, src, written)
    ensures dst[..at] == old(dst[..at]) && dst[at + B64Len(|src|)..] == old(dst[at + B64Len(|src|)..])
  {
    consumed, written := 0, 0;
    if wide {
      consumed, written := EncodeBlocks(dst, at, src, 8, consumed, written);
    }
    consumed, written := EncodeBlocks(dst, at, src, 4, consumed, written);
  }

  /** The state of a decoding prefix. */
  ghost predicate Decoding(dst: array<u8>, src: seq<u8>, consumed: nat, written: nat)
    reads dst
  {
    && consumed % 4 == 0 && consumed <= Run(src) && written == consumed / 4 * 3 <= dst.Length
    && Holds(dst, src, written)
  }

  /** `decode_block_16` and `decode_block_32`: characters all of the alphabet as bytes, or nothing. */
  method DecodeGroups(dst: array<u8>, src: seq<u8>, consumed: nat, groups: nat) returns (ok: bool)
    requires consumed + 4 * groups <= |src| && consumed % 4 == 0 && consumed / 4 * 3 + 3 * groups <= dst.Length
    requires consumed <= Run(src) && Holds(dst, src, consumed / 4 * 3)
    modifies dst
    ensures ok <==> forall i :: consumed <= i < consumed + 4 * groups ==> IsAlphabet(src[i])
    ensures ok ==> consumed + 4 * groups <= Run(src) && Holds(dst, src, consumed / 4 * 3 + 3 * groups)
    ensures !ok ==> Holds(dst, src, consumed / 4 * 3) && forall j :: 0 <= j < dst.Length ==> dst[j] == old(dst[j])
    ensures forall j :: consumed / 4 * 3 + 3 * groups <= j < dst.Length ==> dst[j] == old(dst[j])
  {
    hide OctetAt, Run, IsAlphabet;
    ok := forall i :: consumed <= i < consumed + 4 * groups ==> IsAlphabet(src[i]);
    if ok {
      RunReaches(src, consumed + 4 * groups);
      var written := consumed / 4 * 3;
      for i := 0 to 3 * groups
        invariant Holds(dst, src, written + i)
        invariant forall j :: written + 3 * groups <= j < dst.Length ==> dst[j] == old(dst[j])
      {
        dst[written + i] := OctetAt(src, written + i);
      }
    }
  }

  /** The loop over blocks of `4 * groups` characters that fit; `rejected` says one was left unconsumed. */
  method DecodeBlocks(dst: array<u8>, src: seq<u8>, groups: nat, consumed0: nat, written0: nat)
    returns (consumed: nat, written: nat, rejected: bool)
    requires groups == 4 || groups == 8
    requires Decoding(dst, src, consumed0, written0)
    modifies dst
    ensures Decoding(dst, src, consumed, written) && written0 <= written
    ensures forall j :: written <= j < dst.Length ==> dst[j] == old(dst[j])
  {
    hide Holds, Run, IsAlphabet;
    consumed, written, rejected := consumed0, written0, false;
    while |src| - consumed >= 4 * groups && dst.Length - written >= 3 * groups
      invariant Decoding(dst, src, consumed, written) && written0 <= written
      invariant forall j :: written <= j < dst.Length ==> dst[j] == old(dst[j])
      decreases |src| - consumed
    {
      var ok := DecodeGroups(dst, src, consumed, groups);
      if !ok {
        rejected := true;
        break;
      }
      consumed := consumed + 4 * groups;
      written := written + 3 * groups;
    }
  }

  /** `decode_ssse3` and `decode_avx2`: a rejected wide block ends the prefix. */
  method DecodePrefix(dst: array<u8>, src: seq<u8>, wide: bool) returns (consumed: nat, written: nat)
    modifies dst
    ensures consumed % 4 == 0 && consumed <= Run(src) && written == consumed / 4 * 3 <= dst.Length
    ensures Holds(dst, src, written) && forall j :: written <= j < dst.Length ==> dst[j] == old(dst[j])
  {
    var rejected := false;
    consumed, written := 0, 0;
    if wide {
      consumed, written, rejected := DecodeBlocks(dst, src, 8, consumed, written);
    }
    if !rejected {
      consumed, written, rejected := DecodeBlocks(dst, src, 4, consumed, written);
    }
  }
}
