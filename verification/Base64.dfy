/** Unpadded Base64: section 4 of RFC 4648, and the branch-free scalar loops that implement it. */
module Base64 {
  import opened Machine
  import opened Bits

  // ---------------------------------------------------------------------------
  // The specification
  // ---------------------------------------------------------------------------

  /** Table 1 of RFC 4648. */
  function Alphabet(v: nat): u8
    requires v < 64
  {
    if v < 26 then 65 + v else if v < 52 then 71 + v else if v < 62 then v - 4 else if v == 62 then 43 else 47
  }

  predicate IsAlphabet(c: u8) { 65 <= c <= 90 || 97 <= c <= 122 || 48 <= c <= 57 || c == 43 || c == 47 }

  function Sextet(c: u8): (v: nat)
    requires IsAlphabet(c)
    ensures v < 64 && Alphabet(v) == c
  {
    if 65 <= c <= 90 then c - 65
    else if 97 <= c <= 122 then c - 71
    else if 48 <= c <= 57 then c + 4
    else if c == 43 then 62
    else 63
  }

  lemma AlphabetFacts(v: nat)
    requires v < 64
    ensures IsAlphabet(Alphabet(v)) && Sextet(Alphabet(v)) == v
  {
  }

  /** `b64_len_usize`: the shift and the two-step remainder. */
  function B64Len(n: nat): nat { n / 3 * 4 + if n % 3 == 2 then 3 else if n % 3 == 1 then 2 else 0 }

  /** A byte of the input, or zero bits past its end. */
  function ByteOr0(src: seq<u8>, i: nat): u8 { if i < |src| then src[i] else 0 }

  /** Six bits of three bytes. */
  function SextetOf(a: u8, b: u8, c: u8, r: nat): (v: nat)
    ensures v < 64
  {
    if r == 0 then a / 4 else if r == 1 then a % 4 * 16 + b / 16 else if r == 2 then b % 16 * 4 + c / 64 else c % 64
  }

  /** The `j`-th group of six bits. */
  function SextetAt(src: seq<u8>, j: nat): (v: nat)
    ensures v < 64
  {
    var g := j / 4;
    SextetOf(ByteOr0(src, 3 * g), ByteOr0(src, 3 * g + 1), ByteOr0(src, 3 * g + 2), j % 4)
  }

  function Encode(src: seq<u8>): (e: seq<u8>)
    ensures |e| == B64Len(|src|)
  {
    seq(B64Len(|src|), j requires 0 <= j => Alphabet(SextetAt(src, j)))
  }

  /** How many alphabet characters the input starts with. */
  function Run(src: seq<u8>): (n: nat)
    ensures n <= |src|
    ensures forall i :: 0 <= i < n ==> IsAlphabet(src[i])
    ensures n < |src| ==> !IsAlphabet(src[n])
  {
    if |src| == 0 || !IsAlphabet(src[0]) then 0 else 1 + Run(src[1..])
  }

  /** The value of a character, zero for one outside the run. */
  function ValueOr0(src: seq<u8>, i: nat): (v: nat)
    ensures v < 64
  {
    if i < |src| && IsAlphabet(src[i]) then Sextet(src[i]) else 0
  }

  /** Eight bits of four sextets. */
  function OctetOf(w: nat, x: nat, y: nat, z: nat, r: nat): u8
    requires w < 64 && x < 64 && y < 64 && z < 64
  {
    if r == 0 then w * 4 + x / 16 else if r == 1 then x % 16 * 16 + y / 4 else y % 4 * 64 + z
  }

  /** The `j`-th group of eight bits. */
  function OctetAt(src: seq<u8>, j: nat): u8 {
    var g := j / 3;
    OctetOf(ValueOr0(src, 4 * g), ValueOr0(src, 4 * g + 1), ValueOr0(src, 4 * g + 2), ValueOr0(src, 4 * g + 3), j % 3)
  }

  function Octets(src: seq<u8>, n: nat): (d: seq<u8>)
    ensures |d| == n
  {
    seq(n, j requires 0 <= j => OctetAt(src, j))
  }

  /** Whether a run of `n` characters is a whole number of bytes with zero bits left over. */
  predicate Canonical(src: seq<u8>, n: nat) {
    && n % 4 != 1
    && (n % 4 == 2 ==> ValueOr0(src, n - 1) % 16 == 0)
    && (n % 4 == 3 ==> ValueOr0(src, n - 1) % 4 == 0)
  }

  /** What the decoder returns: bytes written and characters consumed. */
  function DecodeResult(src: seq<u8>, capacity: nat): Result<(nat, nat)> {
    var n := Run(src);
    if n * 3 / 4 <= capacity && Canonical(src, n) then Ok((n * 3 / 4, n)) else Err(DecodingFail)
  }

  /** How many bytes it writes, on failure too. */
  function BytesWritten(src: seq<u8>, capacity: nat): (n: nat)
    ensures n <= capacity
  {
    if Run(src) * 3 / 4 <= capacity then Run(src) * 3 / 4 else capacity
  }

  // ---------------------------------------------------------------------------
  // Decoding undoes encoding, and encoding decoding
  // ---------------------------------------------------------------------------

  lemma {:induction false} RunIs(src: seq<u8>, n: nat)
    requires n <= |src| && (forall i :: 0 <= i < n ==> IsAlphabet(src[i])) && (n < |src| ==> !IsAlphabet(src[n]))
    ensures Run(src) == n
  {
    if |src| > 0 && n > 0 {
      RunIs(src[1..], n - 1);
    }
  }

  /** The characters of an encoding, read back as sextets. */
  lemma EncodedValue(src: seq<u8>, tail: seq<u8>, j: nat)
    requires j < B64Len(|src|)
    ensures ValueOr0(Encode(src) + tail, j) == SextetAt(src, j)
  {
    AlphabetFacts(SextetAt(src, j));
  }

  lemma EncodedLength(n: nat)
    ensures B64Len(n) * 3 / 4 == n && B64Len(n) % 4 != 1
    ensures B64Len(n) == 4 * (n / 3) + if n % 3 == 0 then 0 else n % 3 + 1
  {
  }

  lemma OctetsOfSextets(a: u8, b: u8, c: u8)
    ensures OctetOf(SextetOf(a, b, c, 0), SextetOf(a, b, c, 1), SextetOf(a, b, c, 2), SextetOf(a, b, c, 3), 0) == a
    ensures OctetOf(SextetOf(a, b, c, 0), SextetOf(a, b, c, 1), SextetOf(a, b, c, 2), SextetOf(a, b, c, 3), 1) == b
    ensures OctetOf(SextetOf(a, b, c, 0), SextetOf(a, b, c, 1), SextetOf(a, b, c, 2), SextetOf(a, b, c, 3), 2) == c
  {
  }

  lemma SextetsOfOctets(w: nat, x: nat, y: nat, z: nat)
    requires w < 64 && x < 64 && y < 64 && z < 64
    ensures SextetOf(OctetOf(w, x, y, z, 0), OctetOf(w, x, y, z, 1), OctetOf(w, x, y, z, 2), 0) == w
    ensures SextetOf(OctetOf(w, x, y, z, 0), OctetOf(w, x, y, z, 1), OctetOf(w, x, y, z, 2), 1) == x
    ensures SextetOf(OctetOf(w, x, y, z, 0), OctetOf(w, x, y, z, 1), OctetOf(w, x, y, z, 2), 2) == y
    ensures SextetOf(OctetOf(w, x, y, z, 0), OctetOf(w, x, y, z, 1), OctetOf(w, x, y, z, 2), 3) == z
  {
  }

  lemma SextetsHold(src: seq<u8>, g: nat, r: nat)
    requires r < 4
    ensures SextetAt(src, 4 * g + r)
      == SextetOf(ByteOr0(src, 3 * g), ByteOr0(src, 3 * g + 1), ByteOr0(src, 3 * g + 2), r)
  {
    hide SextetOf;
  }

  lemma OctetsHold(src: seq<u8>, g: nat, r: nat)
    requires r < 3
    ensures OctetAt(src, 3 * g + r)
         == OctetOf(ValueOr0(src, 4 * g), ValueOr0(src, 4 * g + 1), ValueOr0(src, 4 * g + 2), ValueOr0(src, 4 * g + 3),
           r)
  {
    hide OctetOf, ValueOr0;
  }

  /** Past the end of an encoding only zero bits are lost. */
  lemma EncodedOrNothing(src: seq<u8>, tail: seq<u8>, g: nat, r: nat)
    requires r < 4 && (|tail| > 0 ==> !IsAlphabet(tail[0]))
    requires 3 * g + (if r == 0 then 0 else r - 1) < |src|
    ensures ValueOr0(Encode(src) + tail, 4 * g + r) == SextetAt(src, 4 * g + r)
  {
    hide SextetAt, Alphabet;
    EncodedLength(|src|);
    EncodedValue(src, tail, 4 * g + r);
  }

  /** One byte depends on the two sextets that hold it. */
  lemma OctetOfTwo(w: nat, x: nat, y: nat, z: nat, w': nat, x': nat, y': nat, z': nat, r: nat)
    requires w < 64 && x < 64 && y < 64 && z < 64 && w' < 64 && x' < 64 && y' < 64 && z' < 64 && r < 3
    requires if r == 0 then w == w' && x == x' else if r == 1 then x == x' && y == y' else y == y' && z == z'
    ensures OctetOf(w, x, y, z, r) == OctetOf(w', x', y', z', r)
  {
  }

  /** One byte, from the sextets that hold it. */
  lemma DecodedByte(src: seq<u8>, tail: seq<u8>, g: nat, r: nat)
    requires r < 3 && 3 * g + r < |src| && (|tail| > 0 ==> !IsAlphabet(tail[0]))
    ensures OctetAt(Encode(src) + tail, 3 * g + r) == src[3 * g + r]
  {
    hide SextetAt, SextetOf, OctetAt, OctetOf, Alphabet, B64Len, ValueOr0, Encode;
    var e := Encode(src) + tail;
    EncodedOrNothing(src, tail, g, r);
    EncodedOrNothing(src, tail, g, r + 1);
    OctetsHold(e, g, r);
    OctetsOfSextets(ByteOr0(src, 3 * g), ByteOr0(src, 3 * g + 1), ByteOr0(src, 3 * g + 2));
    SextetsHold(src, g, 0);
    SextetsHold(src, g, 1);
    SextetsHold(src, g, 2);
    SextetsHold(src, g, 3);
    OctetOfTwo(ValueOr0(e, 4 * g), ValueOr0(e, 4 * g + 1), ValueOr0(e, 4 * g + 2), ValueOr0(e, 4 * g + 3),
               SextetAt(src, 4 * g), SextetAt(src, 4 * g + 1), SextetAt(src, 4 * g + 2), SextetAt(src, 4 * g + 3), r);
  }

  lemma EncodedRun(src: seq<u8>, tail: seq<u8>)
    requires |tail| > 0 ==> !IsAlphabet(tail[0])
    ensures Run(Encode(src) + tail) == B64Len(|src|)
  {
    hide SextetAt, Alphabet, B64Len;
    var e, n := Encode(src) + tail, B64Len(|src|);
    forall i | 0 <= i < n
      ensures IsAlphabet(e[i])
    {
      AlphabetFacts(SextetAt(src, i));
    }
    RunIs(e, n);
  }

  /** The last sextet of an encoding has zero bits where no byte is. */
  lemma EncodedIsCanonical(src: seq<u8>, tail: seq<u8>)
    ensures Canonical(Encode(src) + tail, B64Len(|src|))
  {
    hide SextetAt, Alphabet, ValueOr0;
    EncodedLength(|src|);
    if |src| % 3 != 0 {
      var g, r := |src| / 3, |src| % 3;
      EncodedValue(src, tail, 4 * g + r);
      SextetsHold(src, g, r);
    }
  }

  /** Encoding then decoding is the identity, whatever non-alphabet text follows. */
  lemma DecodeOfEncode(src: seq<u8>, tail: seq<u8>, capacity: nat)
    requires |tail| > 0 ==> !IsAlphabet(tail[0])
    requires |src| <= capacity
    ensures DecodeResult(Encode(src) + tail, capacity) == Ok((|src|, B64Len(|src|)))
    ensures Octets(Encode(src) + tail, |src|) == src
  {
    hide OctetAt, Encode, B64Len, Canonical;
    EncodedRun(src, tail);
    EncodedIsCanonical(src, tail);
    EncodedLength(|src|);
    forall j | 0 <= j < |src|
      ensures OctetAt(Encode(src) + tail, j) == src[j]
    {
      DecodedByte(src, tail, j / 3, j % 3);
    }
  }

  lemma DecodedLength(n: nat)
    requires n % 4 != 1
    ensures B64Len(n * 3 / 4) == n
    ensures n * 3 / 4 == 3 * (n / 4) + if n % 4 == 0 then 0 else n % 4 - 1
  {
  }

  /** A byte of the decoding, or zero bits: past the end a canonical run has none left. */
  lemma OctetOrNothing(src: seq<u8>, n: nat, g: nat, r: nat)
    requires n <= |src| && Canonical(src, n) && n == Run(src) && 4 * g < n && r < 3
    ensures ByteOr0(Octets(src, n * 3 / 4), 3 * g + r)
         == OctetOf(ValueIn(src, n, 4 * g), ValueIn(src, n, 4 * g + 1), ValueIn(src, n, 4 * g + 2),
           ValueIn(src, n, 4 * g + 3), r)
  {
    hide OctetAt, Run;
    DecodedLength(n);
    if 3 * g + r < n * 3 / 4 {
      OctetsHold(src, g, r);
    }
  }

  /** The value of a character of the run, zero beyond it. */
  function ValueIn(src: seq<u8>, n: nat, i: nat): (v: nat)
    ensures v < 64
  {
    if i < n then ValueOr0(src, i) else 0
  }

  /** One character, from the bytes that hold it. */
  lemma EncodedSextet(src: seq<u8>, n: nat, g: nat, r: nat)
    requires n <= |src| && Canonical(src, n) && n == Run(src) && r < 4 && 4 * g + r < n
    ensures SextetAt(Octets(src, n * 3 / 4), 4 * g + r) == ValueOr0(src, 4 * g + r)
  {
    hide OctetAt, OctetOf, SextetAt, SextetOf, Run, ValueOr0, Canonical;
    var b := Octets(src, n * 3 / 4);
    OctetOrNothing(src, n, g, 0);
    OctetOrNothing(src, n, g, 1);
    OctetOrNothing(src, n, g, 2);
    SextetsHold(b, g, r);
    SextetsOfOctets(ValueIn(src, n, 4 * g), ValueIn(src, n, 4 * g + 1), ValueIn(src, n, 4 * g + 2),
      ValueIn(src, n, 4 * g + 3));
  }

  /** Decoding then encoding is the identity on a canonical run. */
  lemma EncodeOfDecode(src: seq<u8>, capacity: nat)
    requires DecodeResult(src, capacity).Ok?
    ensures Encode(Octets(src, DecodeResult(src, capacity).value.0)) == src[..DecodeResult(src, capacity).value.1]
  {
    hide OctetAt, SextetAt, B64Len;
    var n := Run(src);
    DecodedLength(n);
    var b := Octets(src, n * 3 / 4);
    forall j | 0 <= j < n
      ensures Encode(b)[j] == src[j]
    {
      EncodedSextet(src, n, j / 4, j % 4);
    }
  }

  /** `b` is what the first characters, as many as are in the alphabet, encode; and there is room. */
  predicate Decodes(src: seq<u8>, capacity: nat, b: seq<u8>) { |b| <= capacity && Encode(b) == src[..Run(src)] }

  /**
   The decoder succeeds exactly when the maximal run is the encoding of some bytes that fit; those
   bytes are unique and are the ones it writes.
   */
  lemma DecoderIsExact(src: seq<u8>, capacity: nat)
    ensures DecodeResult(src, capacity).Ok? <==> exists b :: Decodes(src, capacity, b)
    ensures forall b :: Decodes(src, capacity, b) ==>
              && DecodeResult(src, capacity) == Ok((|b|, Run(src)))
              && Octets(src, |b|) == b
  {
    hide Octets, Encode, Canonical, Run;
    if DecodeResult(src, capacity).Ok? {
      EncodeOfDecode(src, capacity);
      assert Decodes(src, capacity, Octets(src, DecodeResult(src, capacity).value.0));
    }
    forall b | Decodes(src, capacity, b)
      ensures DecodeResult(src, capacity) == Ok((|b|, Run(src))) && Octets(src, |b|) == b
    {
      assert src == Encode(b) + src[Run(src)..];
      DecodeOfEncode(b, src[Run(src)..], capacity);
    }
  }
}
