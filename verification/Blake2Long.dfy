/** Argon2's variable-length hash and pre-hash, against sections 3.2 and 3.3 of RFC 9106. */
module Blake2Long {
  import opened Machine
  import opened Params
  import opened LittleEndian
  import opened Blake2Stream

  // ---------------------------------------------------------------------------
  // The specification
  // ---------------------------------------------------------------------------

  /** `V_i` of section 3.3: 64-byte digests, each of the one before. */
  function Chain(seed: seq<u8>, i: nat): (v: seq<u8>)
    requires i >= 1
    ensures |v| == 64
  {
    if i == 1 then Digest(64, [], seed) else Digest(64, [], Chain(seed, i - 1))
  }

  /** The first halves of `V_1` to `V_n`. */
  function Halves(seed: seq<u8>, n: nat): (w: seq<u8>)
    ensures |w| == 32 * n
  {
    if n == 0 then [] else Halves(seed, n - 1) + Chain(seed, n)[..32]
  }

  /** How many halves an output takes before its last piece: `ceil(T/32) - 2`. */
  function HalfCount(t: nat): nat
    requires t > 64
  {
    (t + 31) / 32 - 2
  }

  /** The last piece is longer than a half and no longer than a digest. */
  lemma LastPiece(t: nat)
    requires t > 64
    ensures HalfCount(t) >= 1
    ensures 33 <= t - 32 * HalfCount(t) <= 64
  {
  }

  /** `H'` of section 3.3. */
  function HPrime(t: nat, a: seq<u8>): (h: seq<u8>)
    requires 1 <= t <= 0xFFFF_FFFF
    ensures |h| == t
  {
    if t <= 64 then Digest(t, [], Le32(t) + a)
    else
      LastPiece(t);
      var r := HalfCount(t);
      Halves(Le32(t) + a, r) + Digest(t - 32 * r, [], Chain(Le32(t) + a, r))
  }

  /** Any number of updates: what is absorbed is the concatenation, however it was split. */
  function Concat(pieces: seq<seq<u8>>): seq<u8> {
    if |pieces| == 0 then [] else Concat(pieces[..|pieces| - 1]) + pieces[|pieces| - 1]
  }

  method UpdateAll(state: Blake2b, pieces: seq<seq<u8>>)
    requires state.Valid() && state.f0 == ZERO
    modifies state`t0, state`t1, state`buflen, state`absorbed, state.h, state.buf
    ensures state.Valid() && state.absorbed == old(state.absorbed) + Concat(pieces)
  {
    hide Digest, Absorb, InitialWords, Counting, BlocksBefore, Concat, Blake2b.Shape, Blake2b.Counted;
    ghost var before := state.absorbed;
    NoPieces(before);
    for i := 0 to |pieces|
      invariant state.Valid() && state.absorbed == before + Concat(pieces[..i])
    {
      state.Update(pieces[i]);
      OneMorePiece(before, pieces, i);
    }
    assert pieces[..|pieces|] == pieces;
  }

  lemma NoPieces(before: seq<u8>)
    ensures forall pieces: seq<seq<u8>> :: before + Concat(pieces[..0]) == before
  {
  }

  lemma OneMorePiece(before: seq<u8>, pieces: seq<seq<u8>>, i: nat)
    requires i < |pieces|
    ensures before + Concat(pieces[..i + 1]) == before + Concat(pieces[..i]) + pieces[i]
  {
    assert pieces[..i + 1][..i] == pieces[..i];
  }

  method DigestPieces(out: array<u8>, pieces: seq<seq<u8>>, vector: bool) returns (r: Result<()>)
    modifies out
    ensures r == if 1 <= out.Length <= 64 then Ok(()) else Err(IncorrectParameter)
    ensures r.Err? ==> out[..] == old(out[..])
    ensures r.Ok? ==> out[..] == Digest(out.Length, [], Concat(pieces))
  {
    hide DigestOf, Concat;
    var made := New(out.Length, vector);
    if made.Err? {
      return Err(made.error);
    }
    var state := made.value;
    UpdateAll(state, pieces);
    assert state.absorbed == Concat(pieces) by { NothingFirst(Concat(pieces)); }
    r := state.Finalize(out);
    EmptyKey(Concat(pieces));
  }

  lemma EmptyKey(data: seq<u8>)
    ensures KeyBlock([]) + data == data
  {
    assert [] + data == data;
  }

  lemma TwoPieces(a: seq<u8>, b: seq<u8>)
    ensures Concat([a, b]) == a + b
  {
    assert [a, b][..1] == [a];
    assert [a][..0] == [];
    assert Concat([a]) == [] + a == a;
  }

  // ---------------------------------------------------------------------------
  // The code
  // ---------------------------------------------------------------------------

  /** `blake2b_long_with_backend`. The tail still to be written is `out[pos..]`. */
  method BlakeLong(out: array<u8>, input: seq<u8>, vector: bool) returns (r: Result<()>)
    modifies out
    ensures r == if 1 <= out.Length <= 0xFFFF_FFFF then Ok(()) else Err(IncorrectParameter)
    ensures r.Err? ==> out[..] == old(out[..])
    ensures r.Ok? ==> out[..] == HPrime(out.Length, input)
  {
    if out.Length > 0xFFFF_FFFF {
      return Err(IncorrectParameter);
    }
    var bytes := Le32(out.Length);
    TwoPieces(bytes, input);
    if out.Length <= 64 {
      r := DigestPieces(out, [bytes, input], vector);
      return;
    }
    r := LongTail(out, bytes + input, bytes, input, vector);
  }

  /** The arm for outputs longer than a digest. */
  method LongTail(out: array<u8>, ghost seed: seq<u8>, bytes: seq<u8>, input: seq<u8>, vector: bool)
      returns (r: Result<()>)
    requires 64 < out.Length <= 0xFFFF_FFFF && seed == bytes + input && bytes == Le32(out.Length)
    modifies out
    ensures r == Ok(()) && out[..] == HPrime(out.Length, input)
  {
    hide Digest, Le32, Chain, Halves;
    LastPiece(out.Length);
    TwoPieces(bytes, input);
    var outBuffer := new u8[64](_ => 0);
    r := DigestPieces(outBuffer, [bytes, input], vector);
    CopyInto(out, 0, outBuffer[..32]);
    FirstHalf(seed);
    var pos := 32;
    ghost var i := 1;
    while out.Length - pos > 64
      invariant 1 <= i <= HalfCount(out.Length) && pos == 32 * i
      invariant outBuffer[..] == Chain(seed, i) && out[..pos] == Halves(seed, i)
    {
      r := NextHalf(out, pos, outBuffer, vector);
      AnotherHalf(seed, i);
      pos := pos + 32;
      i := i + 1;
    }
    r := LastHash(out, pos, outBuffer, vector);
    WholeTail(out.Length, input);
  }

  /** One turn of the loop: hash the buffer in place, emit half of it. */
  method NextHalf(out: array<u8>, pos: nat, outBuffer: array<u8>, vector: bool) returns (r: Result<()>)
    requires pos + 32 <= out.Length && outBuffer.Length == 64 && outBuffer != out
    modifies out, outBuffer
    ensures r == Ok(()) && outBuffer[..] == Digest(64, [], old(outBuffer[..]))
    ensures out[..pos + 32] == old(out[..pos]) + outBuffer[..32]
  {
    hide Digest;
    var inBuffer := outBuffer[..];
    r := OneShot(outBuffer, inBuffer, vector);
    CopyInto(out, pos, outBuffer[..32]);
  }

  /** The last digest is as long as what is left. */
  method LastHash(out: array<u8>, pos: nat, outBuffer: array<u8>, vector: bool) returns (r: Result<()>)
    requires 1 <= out.Length - pos <= 64 && outBuffer.Length == 64 && outBuffer != out
    modifies out
    ensures r == Ok(()) && out[..] == old(out[..pos]) + Digest(out.Length - pos, [], old(outBuffer[..]))
  {
    hide Digest;
    var last := new u8[out.Length - pos](_ => 0);
    r := OneShot(last, outBuffer[..], vector);
    CopyInto(out, pos, last[..]);
  }

  lemma FirstHalf(seed: seq<u8>)
    ensures Chain(seed, 1) == Digest(64, [], seed)
    ensures Halves(seed, 1) == Chain(seed, 1)[..32]
  {
    hide Digest;
    assert Halves(seed, 0) == [];
  }

  lemma AnotherHalf(seed: seq<u8>, i: nat)
    requires i >= 1
    ensures Chain(seed, i + 1) == Digest(64, [], Chain(seed, i))
    ensures Halves(seed, i + 1) == Halves(seed, i) + Chain(seed, i + 1)[..32]
  {
    hide Digest;
  }

  lemma WholeTail(t: nat, a: seq<u8>)
    requires 64 < t <= 0xFFFF_FFFF
    ensures 1 <= HalfCount(t) && 1 <= t - 32 * HalfCount(t) <= 64
    ensures HPrime(t, a) == Halves(Le32(t) + a, HalfCount(t))
      + Digest(t - 32 * HalfCount(t), [], Chain(Le32(t) + a, HalfCount(t)))
  {
    hide Digest, Chain, Halves, Le32;
    LastPiece(t);
  }

  // ---------------------------------------------------------------------------
  // The pre-hash
  // ---------------------------------------------------------------------------

  function CostBytes(algorithm: Algorithm, version: Version, p: Costs): seq<u8> {
    Le32(p.lanes) + Le32(p.tagLen) + Le32(p.memory) + Le32(p.passes)
    + Le32(VersionCode(version)) + Le32(AlgorithmCode(algorithm))
  }

  /** A length as four bytes: the cast drops what does not fit. */
  function LengthBytes(n: nat): (b: seq<u8>)
    ensures |b| == 4
  {
    Le32(n % 0x1_0000_0000)
  }

  /** An input with its length before it. */
  function Prefixed(b: seq<u8>): seq<u8> { LengthBytes(|b|) + b }

  /** The input of `H_0`, section 3.2: parameters, then each input with its length before it. */
  function PreHashInput(algorithm: Algorithm, version: Version, p: Costs,
                        pwd: seq<u8>, salt: seq<u8>, secret: seq<u8>, ad: seq<u8>): seq<u8>
  {
    CostBytes(algorithm, version, p) + Prefixed(pwd) + Prefixed(salt) + Prefixed(secret) + Prefixed(ad)
  }

  /** For inputs the checks let through the length before each is its length. */
  lemma LengthsAreKept(b: seq<u8>)
    requires |b| < 0x1_0000_0000
    ensures LeValue(LengthBytes(|b|)) == |b|
  {
    hide LeBytes, LeValue;
    WordBound();
    ValueOfBytes(|b|, 4);
  }

  method UpdateCosts(state: Blake2b, algorithm: Algorithm, version: Version, p: Costs)
    requires state.Valid() && state.f0 == ZERO && state.absorbed == []
    modifies state`t0, state`t1, state`buflen, state`absorbed, state.h, state.buf
    ensures state.Valid() && state.absorbed == CostBytes(algorithm, version, p)
  {
    hide Le32, Absorb, InitialWords, Counting, BlocksBefore;
    NothingFirst(Le32(p.lanes));
    state.Update(Le32(p.lanes));
    state.Update(Le32(p.tagLen));
    state.Update(Le32(p.memory));
    state.Update(Le32(p.passes));
    state.Update(Le32(VersionCode(version)));
    state.Update(Le32(AlgorithmCode(algorithm)));
  }

  method UpdatePrefixed(state: Blake2b, b: seq<u8>)
    requires state.Valid() && state.f0 == ZERO
    modifies state`t0, state`t1, state`buflen, state`absorbed, state.h, state.buf
    ensures state.Valid() && state.absorbed == old(state.absorbed) + Prefixed(b)
  {
    hide LengthBytes, Absorb, InitialWords, Counting, BlocksBefore;
    state.Update(LengthBytes(|b|));
    state.Update(b);
  }

  method UpdateInputs(state: Blake2b, pwd: seq<u8>, salt: seq<u8>, secret: seq<u8>, ad: seq<u8>)
    requires state.Valid() && state.f0 == ZERO
    modifies state`t0, state`t1, state`buflen, state`absorbed, state.h, state.buf
    ensures state.Valid()
    ensures state.absorbed == old(state.absorbed) + Prefixed(pwd) + Prefixed(salt) + Prefixed(secret) + Prefixed(ad)
  {
    hide Prefixed, Absorb, InitialWords, Counting, BlocksBefore;
    UpdatePrefixed(state, pwd);
    UpdatePrefixed(state, salt);
    UpdatePrefixed(state, secret);
    UpdatePrefixed(state, ad);
  }

  /** The fourteen updates of `initial_hash_into`, on one state. */
  method PreHash(algorithm: Algorithm, version: Version, p: Costs,
                 pwd: seq<u8>, salt: seq<u8>, secret: seq<u8>, ad: seq<u8>, vector: bool)
    returns (digest: array<u8>)
    ensures fresh(digest) && digest.Length == 64
    ensures digest[..] == Digest(64, [], PreHashInput(algorithm, version, p, pwd, salt, secret, ad))
  {
    hide Digest, DigestOf, Prefixed, CostBytes, Blake2b.Valid, Blake2b.Shape;
    digest := new u8[64](_ => 0);
    var made := New(64, vector);
    var state := made.value;
    UpdateCosts(state, algorithm, version, p);
    UpdateInputs(state, pwd, salt, secret, ad);
    ghost var input := state.absorbed;
    var r := state.Finalize(digest);
    DigestIs(64, input);
  }

  /** `initial_hash_into`: the digest, and eight zero bytes after it. */
  method InitialHash(algorithm: Algorithm, version: Version, p: Costs,
                     pwd: seq<u8>, salt: seq<u8>, secret: seq<u8>, ad: seq<u8>, vector: bool)
    returns (blockhash: array<u8>)
    ensures fresh(blockhash) && blockhash.Length == 72
    ensures blockhash[..64] == Digest(64, [], PreHashInput(algorithm, version, p, pwd, salt, secret, ad))
    ensures blockhash[64..] == Zeros(8)
  {
    hide Digest, PreHashInput;
    blockhash := new u8[72](_ => 0);
    var digest := PreHash(algorithm, version, p, pwd, salt, secret, ad, vector);
    CopyInto(blockhash, 0, digest[..]);
  }

  lemma NothingFirst(a: seq<u8>)
    ensures [] + a == a
  {
  }

  lemma DigestIs(n: nat, data: seq<u8>)
    requires 1 <= n <= 64
    ensures Digest(n, [], data) == DigestOf(n, 0, data)
  {
    EmptyKey(data);
  }
}
