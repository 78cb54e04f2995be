/** Base64 with a chosen backend, and the two whole-string entry points. */
module Base64Codec {
  import opened Machine
  import opened Base64
  import opened Base64Scalar
  import opened Base64Decode
  import Base64Neon
  import Base64Wasm
  import Base64X86

  datatype Backend = Scalar | Neon | Wasm128 | Ssse3 | Avx2

  /** `MIN_ENCODE_LEN` and `MIN_DECODE_LEN`: below one vector the scalar loop runs whole. */
  function MinEncodeLen(b: Backend): nat { if b.Scalar? then 0 else if b.Neon? then 24 else 16 }

  function MinDecodeLen(b: Backend): nat { if b.Scalar? then 0 else if b.Neon? then 32 else 16 }

  /**
   `to_base64_raw`: whatever the backend, the result and every byte of the destination are those of
   the scalar loop.
   */
  method ToBase64(dst: array<u8>, at: nat, src: seq<u8>, backend: Backend) returns (r: Result<nat>)
    requires at <= dst.Length
    modifies dst
    ensures r == EncodeResult(src, dst.Length - at)
    ensures dst[..] == if r.Ok? then old(dst[..at]) + Encode(src) + old(dst[at + B64Len(|src|)..]) else old(dst[..])
  {
    hide Encode, B64Len, Encoded;
    if backend.Scalar? || |src| < MinEncodeLen(backend) {
      r := ToBase64Scalar(dst, at, src);
      return;
    }
    if dst.Length - at <= B64Len(|src|) {
      return Err(EncodingFail);
    }
    var consumed: nat, written: nat;
    if backend.Neon? {
      consumed, written := Base64Neon.EncodePrefix(dst, at, src);
    } else if backend.Wasm128? {
      consumed, written := Base64Wasm.EncodePrefix(dst, at, src);
    } else {
      consumed, written := Base64X86.EncodePrefix(dst, at, src, backend.Avx2?);
    }
    EncodeFrom(dst, at, src, consumed);
    EncodedIs(dst, at, src);
    assert dst[..] == dst[..at] + dst[at..at + B64Len(|src|)] + dst[at + B64Len(|src|)..];
    r := Ok(B64Len(|src|));
  }

  /**
   `from_base64_raw`: whatever the backend, the result, the stopping position, the error and every
   byte of the destination are those of the scalar loop.
   */
  method FromBase64(dst: array<u8>, src: seq<u8>, backend: Backend) returns (r: Result<(nat, nat)>)
    modifies dst
    ensures r == DecodeResult(src, dst.Length)
    ensures dst[..] == Octets(src, BytesWritten(src, dst.Length)) + old(dst[BytesWritten(src, dst.Length)..])
  {
    hide OctetAt, Run, DecodeResult, BytesWritten;
    if backend.Scalar? || |src| < MinDecodeLen(backend) {
      r := FromBase64Scalar(dst, src);
      return;
    }
    ghost var before := dst[..];
    var consumed: nat, written: nat;
    if backend.Neon? {
      consumed, written := Base64Neon.DecodePrefix(dst, src);
    } else if backend.Wasm128? {
      consumed, written := Base64Wasm.DecodePrefix(dst, src);
    } else {
      consumed, written := Base64X86.DecodePrefix(dst, src, backend.Avx2?);
    }
    PrefixIsShort(src, consumed, written, dst.Length);
    ghost var tail := BytesWritten(src, dst.Length);
    assert dst[tail..] == before[tail..];
    r := DecodeFrom(dst, src, consumed);
    WholeDestination(dst[..], src, tail);
  }

  lemma PrefixIsShort(src: seq<u8>, consumed: nat, written: nat, capacity: nat)
    requires consumed <= Run(src) && consumed % 4 == 0 && written == consumed / 4 * 3 <= capacity
    ensures written <= BytesWritten(src, capacity)
  {
  }

  /** `encode_base64`: a buffer with the byte to spare, and all of it but that byte. */
  method EncodeBase64(src: seq<u8>, backend: Backend) returns (text: seq<u8>)
    ensures text == Encode(src)
  {
    hide Encode, B64Len;
    var buf := new u8[B64Len(|src|) + 1](_ => 0);
    var r := ToBase64(buf, 0, src, backend);
    text := buf[..r.value];
  }

  /** What decoding a whole field gives. */
  function DecodeAll(src: seq<u8>): Result<seq<u8>> {
    if Run(src) == |src| && Canonical(src, |src|) then Ok(Octets(src, |src| * 3 / 4)) else Err(DecodingFail)
  }

  /** `decode_base64`: the bound on the output is never what makes it fail. */
  method DecodeBase64(src: seq<u8>, backend: Backend) returns (r: Result<seq<u8>>)
    ensures r == DecodeAll(src)
  {
    hide Octets, Run, Canonical;
    var buf := new u8[|src| * 3 / 4](_ => 0);
    var decoded := FromBase64(buf, src, backend);
    if decoded.Err? {
      return Err(decoded.error);
    }
    if decoded.value.1 != |src| {
      return Err(DecodingFail);
    }
    r := Ok(buf[..decoded.value.0]);
  }

  /** Decoding a whole field is the exact inverse of encoding. */
  lemma DecodeAllInverts(src: seq<u8>, b: seq<u8>)
    ensures DecodeAll(src) == Ok(b) <==> src == Encode(b)
  {
    hide Octets, Encode, Canonical, Run;
    if src == Encode(b) {
      assert Encode(b) + [] == Encode(b);
      DecodeOfEncode(b, [], |b|);
    }
    if DecodeAll(src) == Ok(b) {
      EncodeOfDecode(src, |src|);
      assert src[..|src|] == src;
    }
  }
}
