/** The streaming BLAKE2b state, against section 3.3 of RFC 7693 on the whole message. */
module Blake2Stream {
  import opened Machine
  import opened LittleEndian
  import opened Blake2
  import opened Blake2Avx2

  // ---------------------------------------------------------------------------
  // The specification
  // ---------------------------------------------------------------------------

  const ZERO: Word := W(0)
  const ONES: Word := W(0xFFFF_FFFF_FFFF_FFFF)

  function Zeros(n: nat): (s: seq<u8>)
    ensures |s| == n
  {
    seq(n, i => 0)
  }

  /** A block's sixteen little-endian words. */
  function MessageWords(block: seq<u8>): (m: seq<Word>)
    requires |block| == 128
    ensures |m| == 16
  {
    seq(16, i requires 0 <= i < 16 => ToWord(LeWord(block[8 * i..8 * i + 8])))
  }

  /** The initialization vector with the four bytes of parameters in its first word. */
  function InitialWords(outLen: nat, keyLen: nat): (h: seq<Word>)
    requires outLen <= 64 && keyLen <= 64
    ensures |h| == 8
  {
    IV[0 := Xor(IV[0], ToWord(0x0101_0000 + 0x100 * keyLen + outLen))]
  }

  /** The counter after `n` bytes, modulo 2^128, and the flags. */
  function Counting(n: nat, last: bool): Tweak {
    Tweak(n % 0x1_0000_0000_0000_0000, n / 0x1_0000_0000_0000_0000 % 0x1_0000_0000_0000_0000,
          if last then ONES else ZERO, ZERO)
  }

  /** The chaining value after the first `k` blocks, none of them the last. */
  function Absorb(h: seq<Word>, data: seq<u8>, k: nat): (h': seq<Word>)
    requires |h| == 8 && 128 * k <= |data|
    ensures |h'| == 8
  {
    if k == 0 then h
    else Compress(Absorb(h, data, k - 1), Counting(128 * k, false), MessageWords(data[128 * (k - 1)..128 * k]))
  }

  /** Blocks before the last: a full last block is held back. */
  function BlocksBefore(n: nat): (k: nat)
    ensures 128 * k <= n <= 128 * k + 128
  {
    if n == 0 then 0 else (n - 1) / 128
  }

  function Pad(b: seq<u8>): (p: seq<u8>)
    requires |b| <= 128
    ensures |p| == 128
  {
    b + Zeros(128 - |b|)
  }

  function FinalWords(h: seq<Word>, data: seq<u8>): (h': seq<Word>)
    requires |h| == 8
    ensures |h'| == 8
  {
    var k := BlocksBefore(|data|);
    Compress(Absorb(h, data, k), Counting(|data|, true), MessageWords(Pad(data[128 * k..])))
  }

  function ToNumber(w: Word): u64 { w.bits as u64 }

  function Numbers(h: seq<Word>): (s: seq<u64>)
    ensures |s| == |h|
  {
    seq(|h|, i requires 0 <= i < |h| => ToNumber(h[i]))
  }

  /** A key counts as one block of message, padded with zeros. */
  function KeyBlock(key: seq<u8>): (b: seq<u8>)
    requires |key| <= 64
    ensures |b| == if |key| == 0 then 0 else 128
  {
    if |key| == 0 then [] else Pad(key)
  }

  /** The digest of section 3.3. */
  function Digest(outLen: nat, key: seq<u8>, data: seq<u8>): (d: seq<u8>)
    requires 1 <= outLen <= 64 && |key| <= 64
    ensures |d| == outLen
  {
    DigestOf(outLen, |key|, KeyBlock(key) + data)
  }

  /** The digest of what a state with these parameters has absorbed, the key block included. */
  function DigestOf(outLen: nat, keyLen: nat, absorbed: seq<u8>): (d: seq<u8>)
    requires 1 <= outLen <= 64 && keyLen <= 64
    ensures |d| == outLen
  {
    WordsToBytes(Numbers(FinalWords(InitialWords(outLen, keyLen), absorbed)))[..outLen]
  }

  lemma OnesAreNotZero()
    ensures ONES != ZERO
  {
  }

  /** Blocks already compressed do not depend on what follows. */
  lemma {:induction false} AbsorbExtends(h: seq<Word>, data: seq<u8>, more: seq<u8>, k: nat)
    requires |h| == 8 && 128 * k <= |data|
    ensures Absorb(h, data + more, k) == Absorb(h, data, k)
  {
    hide Compress, Counting, MessageWords;
    if k > 0 {
      AbsorbExtends(h, data, more, k - 1);
      SliceOfPrefix(data, more, 128 * (k - 1), 128 * k);
    }
  }

  lemma SliceOfPrefix(data: seq<u8>, more: seq<u8>, i: nat, j: nat)
    requires i <= j <= |data|
    ensures (data + more)[i..j] == data[i..j]
  {
  }

  /** The carry: adding to the low word and comparing adds to the counter. */
  lemma CountingAdds(n: nat, inc: u64, t0: u64, t1: u64)
    requires inc <= 128
    requires t0 == (Counting(n, false).t0 + inc) % 0x1_0000_0000_0000_0000
    requires t1 == (Counting(n, false).t1 + if t0 < inc then 1 else 0) % 0x1_0000_0000_0000_0000
    ensures t0 == Counting(n + inc, false).t0 && t1 == Counting(n + inc, false).t1
  {
    var q, r := n / 0x1_0000_0000_0000_0000, n % 0x1_0000_0000_0000_0000;
    assert n == q * 0x1_0000_0000_0000_0000 + r;
    if r + inc < 0x1_0000_0000_0000_0000 {
      Quotient(n + inc, q, r + inc);
    } else {
      Quotient(n + inc, q + 1, r + inc - 0x1_0000_0000_0000_0000);
      ModAdds(q);
    }
  }

  lemma Quotient(n: nat, q: nat, r: nat)
    requires n == q * 0x1_0000_0000_0000_0000 + r && r < 0x1_0000_0000_0000_0000
    ensures n / 0x1_0000_0000_0000_0000 == q && n % 0x1_0000_0000_0000_0000 == r
  {
  }

  lemma ModAdds(q: nat)
    ensures (q % 0x1_0000_0000_0000_0000 + 1) % 0x1_0000_0000_0000_0000 == (q + 1) % 0x1_0000_0000_0000_0000
  {
  }

  // ---------------------------------------------------------------------------
  // The code
  // ---------------------------------------------------------------------------

  /** The eight little-endian words of a parameter block or the sixteen of a message block. */
  method ParseWords(block: seq<u8>) returns (m: seq<Word>)
    requires |block| % 8 == 0
    ensures |m| == |block| / 8
    ensures forall i :: 0 <= i < |m| ==> m[i] == ToWord(LeWord(block[8 * i..8 * i + 8]))
  {
    hide ToWord, LeWord;
    m := [];
    while 8 * |m| < |block|
      invariant 8 * |m| <= |block|
      invariant forall i :: 0 <= i < |m| ==> m[i] == ToWord(LeWord(block[8 * i..8 * i + 8]))
    {
      m := m + [ToWord(LeWord(block[8 * |m|..8 * |m| + 8]))];
    }
  }

  /** `copy_from_slice` into part of a buffer. */
  method CopyInto(dst: array<u8>, at: nat, src: seq<u8>)
    requires at + |src| <= dst.Length
    modifies dst
    ensures dst[..] == old(dst[..at]) + src + old(dst[at + |src|..])
  {
    for i := 0 to |src|
      invariant dst[..at] == old(dst[..at]) && dst[at + |src|..] == old(dst[at + |src|..])
      invariant dst[at..at + i] == src[..i]
    {
      dst[at + i] := src[i];
      assert dst[at..at + i + 1] == dst[at..at + i] + [src[i]];
    }
    assert dst[..] == dst[..at] + dst[at..at + |src|] + dst[at + |src|..];
  }

  /** The words' little-endian bytes. */
  method StoreWords(h: seq<Word>) returns (b: seq<u8>)
    ensures b == WordsToBytes(Numbers(h))
  {
    hide ToNumber, LeBytes;
    b := [];
    for i := 0 to |h|
      invariant b == WordsToBytes(Numbers(h[..i]))
    {
      assert Numbers(h[..i + 1])[..i] == Numbers(h[..i]);
      b := b + LeBytes(ToNumber(h[i]), 8);
    }
    assert h[..|h|] == h;
  }

  /** The backend picks a compression; both have one contract. */
  method CompressWith(vector: bool, h: array<Word>, k: Tweak, block: seq<u8>)
    requires h.Length == 8 && |block| == 128
    modifies h
    ensures h[..] == Compress(old(h[..]), k, MessageWords(block))
  {
    hide Compress, ToWord, LeWord;
    var m := ParseWords(block);
    assert m == MessageWords(block);
    if vector {
      CompressAvx2(h, k, m);
    } else {
      CompressScalar(h, k, m);
    }
  }

  lemma XorZero(w: bv64)
    ensures Xor(W(w), W(0)) == W(w)
  {
  }

  lemma ZeroWord()
    ensures ToWord(0) == W(0)
  {
  }

  lemma LeCons(x: u8, b: seq<u8>)
    ensures LeValue([x] + b) == x + 256 * LeValue(b)
  {
    assert ([x] + b)[1..] == b;
  }

  lemma ParameterWord(outLen: nat, keyLen: nat)
    requires outLen <= 64 && keyLen <= 64
    ensures LeWord([outLen, keyLen, 1, 1, 0, 0, 0, 0]) == 0x0101_0000 + 0x100 * keyLen + outLen
  {
    ZerosAreZero(4);
    LeCons(1, Zeros(4));
    LeCons(1, [1] + Zeros(4));
    LeCons(keyLen, [1] + ([1] + Zeros(4)));
    LeCons(outLen, [keyLen] + ([1] + ([1] + Zeros(4))));
    assert [outLen, keyLen, 1, 1, 0, 0, 0, 0] == [outLen] + ([keyLen] + ([1] + ([1] + Zeros(4))));
  }

  lemma {:induction false} ZerosAreZero(n: nat)
    ensures LeValue(Zeros(n)) == 0
  {
    if n > 0 {
      ZerosAreZero(n - 1);
      assert Zeros(n)[1..] == Zeros(n - 1);
    }
  }

  /** `blake2b_state`. The ghost fields say what it stands for: the parameters, and the bytes so far. */
  class Blake2b {
    const h: array<Word>
    const buf: array<u8>
    var t0: u64
    var t1: u64
    var f0: Word
    var buflen: nat
    const outLen: nat
    const vector: bool
    ghost const keyLen: nat
    ghost var absorbed: seq<u8>

    ghost predicate Shape()
      reads this
    {
      h.Length == 8 && buf.Length == 128 && 1 <= outLen <= 64 && keyLen <= 64
    }

    /** The state is a function of the bytes absorbed; once finalized it takes no more. */
    ghost predicate Valid()
      reads this, h, buf
    {
      && Shape()
      && buflen <= 128
      && (f0 == ZERO ==>
            var k := BlocksBefore(|absorbed|);
            && buflen == |absorbed| - 128 * k
            && buf[..buflen] == absorbed[128 * k..]
            && h[..] == Absorb(InitialWords(outLen, keyLen), absorbed, k)
            && Counted(128 * k))
    }

    ghost predicate Counted(n: nat)
      reads this
    {
      t0 == Counting(n, false).t0 && t1 == Counting(n, false).t1
    }

    /** `init_param`, for lengths that `New` has checked. */
    constructor Init(outLen: nat, keyLen: nat, vector: bool)
      requires 1 <= outLen <= 64 && keyLen <= 64
      ensures Valid() && f0 == ZERO && absorbed == [] && fresh(h) && fresh(buf)
      ensures this.outLen == outLen && this.keyLen == keyLen
    {
      hide ToWord, LeWord, Xor;
      var param := [outLen, keyLen, 1, 1] + Zeros(60);
      var words := ParseWords(param);
      var state := new Word[8](i requires 0 <= i < 8 => Xor(IV[i], words[i]));
      h := state;
      buf := new u8[128](_ => 0);
      t0, t1, f0, buflen := 0, 0, ZERO, 0;
      this.outLen, this.keyLen, this.vector := outLen, keyLen, vector;
      absorbed := [];
      new;
      InitialIsXor(outLen, keyLen, words);
      assert h[..] == InitialWords(outLen, keyLen);
    }

    /** `increment_counter`. */
    method IncrementCounter(inc: u64, ghost n: nat)
      requires inc <= 128 && Counted(n)
      modifies this`t0, this`t1
      ensures Counted(n + inc)
    {
      t0 := (t0 + inc) % 0x1_0000_0000_0000_0000;
      t1 := (t1 + if t0 < inc then 1 else 0) % 0x1_0000_0000_0000_0000;
      CountingAdds(n, inc, t0, t1);
    }

    /** The state after `k` blocks of the whole message, with the rest still to come. */
    ghost predicate Along(total: seq<u8>, k: nat)
      reads this, h
    {
      && Shape()
      && 128 * k <= |total|
      && h[..] == Absorb(InitialWords(outLen, keyLen), total, k)
      && Counted(128 * k)
      && f0 == ZERO
    }

    /** One more block that is not the last. */
    method AbsorbBlock(block: seq<u8>, ghost total: seq<u8>, ghost k: nat)
      requires Along(total, k) && 128 * k + 128 <= |total| && block == total[128 * k..128 * k + 128]
      modifies this`t0, this`t1, h
      ensures Along(total, k + 1)
    {
      hide Compress, Counting, MessageWords, InitialWords;
      IncrementCounter(128, 128 * k);
      CompressWith(vector, h, Tweak(t0, t1, f0, ZERO), block);
      CountingFields(128 * k + 128, t0, t1);
    }

    /** The second half of `update`: what is left goes into the buffer. */
    method Hold(pin: seq<u8>, ghost total: seq<u8>, ghost k: nat)
      requires Along(total, k) && buf.Length == 128 && buflen + |pin| <= 128
      requires k == BlocksBefore(|total|) && buf[..buflen] + pin == total[128 * k..]
      modifies this`buflen, this`absorbed, buf
      ensures Valid() && absorbed == total
    {
      hide Absorb, Counting, InitialWords, BlocksBefore;
      CopyInto(buf, buflen, pin);
      assert buf[..buflen + |pin|] == old(buf[..buflen]) + pin;
      buflen := buflen + |pin|;
      absorbed := total;
    }

    /** Whole blocks straight from the input, as long as more follows. */
    method AbsorbBlocks(input: seq<u8>, ghost total: seq<u8>, ghost k0: nat) returns (pin: seq<u8>, ghost k: nat)
      requires Along(total, k0) && |input| > 0 && 128 * k0 + |input| == |total| && input == total[128 * k0..]
      modifies this`t0, this`t1, h
      ensures Along(total, k) && 0 < |pin| <= 128 && 128 * k + |pin| == |total| && pin == total[128 * k..]
    {
      hide Absorb, Counting, InitialWords;
      pin, k := input, k0;
      while |pin| > 128
        invariant Along(total, k) && |pin| > 0 && 128 * k + |pin| == |total| && pin == total[128 * k..]
        decreases |pin|
      {
        var block, rest := pin[..128], pin[128..];
        AbsorbBlock(block, total, k);
        k := k + 1;
        pin := rest;
      }
    }

    /** Complete the block in the buffer. */
    method CompleteBlock(input: seq<u8>, ghost total: seq<u8>, ghost k: nat) returns (rest: seq<u8>)
      requires Along(total, k) && buf.Length == 128 && buflen <= 128 && buflen + |input| > 128
      requires buf[..buflen] + input == total[128 * k..]
      modifies this`t0, this`t1, this`buflen, h, buf
      ensures Along(total, k + 1) && buflen == 0
      ensures rest == input[128 - old(buflen)..] == total[128 * k + 128..]
    {
      hide Absorb, Counting, InitialWords;
      var left := buflen;
      var fill := 128 - left;
      JoinBlock(buf[..buflen], input, total, k);
      CopyInto(buf, left, input[..fill]);
      assert buf[..] == total[128 * k..128 * k + 128];
      AbsorbBlock(buf[..], total, k);
      buflen := 0;
      rest := input[fill..];
    }

    /** `update`. */
    method Update(input: seq<u8>)
      requires Valid()
      modifies this`t0, this`t1, this`buflen, this`absorbed, h, buf
      ensures Valid()
      ensures absorbed == if old(f0) == ZERO then old(absorbed) + input else old(absorbed)
    {
      hide Absorb, Counting, InitialWords, BlocksBefore;
      if |input| == 0 {
        assert absorbed + input == absorbed;
        return;
      }
      if f0 != ZERO {
        return;
      }
      ghost var total := absorbed + input;
      ghost var k := BlocksBefore(|absorbed|);
      AbsorbExtends(InitialWords(outLen, keyLen), absorbed, input, k);
      TailExtends(absorbed, input, 128 * k);
      assert Along(total, k);
      var pin := input;
      if buflen + |pin| > 128 {
        pin := CompleteBlock(pin, total, k);
        pin, k := AbsorbBlocks(pin, total, k + 1);
      }
      BlocksAre(|total|, k);
      Hold(pin, total, k);
    }

    /** The last block, zero-padded and flagged. */
    method CompressLast()
      requires Valid() && f0 == ZERO
      modifies this`t0, this`t1, this`f0, h, buf
      ensures Valid() && f0 == ONES
      ensures h[..] == FinalWords(InitialWords(outLen, keyLen), old(absorbed))
    {
      hide Absorb, InitialWords, BlocksBefore, Counting, Compress, MessageWords, Zeros;
      ghost var k := BlocksBefore(|absorbed|);
      IncrementCounter(buflen, 128 * k);
      f0 := ONES;
      CopyInto(buf, buflen, Zeros(128 - buflen));
      assert buf[..] == Pad(absorbed[128 * k..]);
      OnesAreNotZero();
      LastFields(|absorbed|, t0, t1);
      CompressWith(vector, h, Tweak(t0, t1, f0, ZERO), buf[..]);
    }

    /** `finalize`. A state used before, or a buffer too short, is refused and nothing is written. */
    method Finalize(out: array<u8>) returns (r: Result<()>)
      requires Valid() && out != buf
      modifies this`t0, this`t1, this`f0, h, buf, out
      ensures Valid()
      ensures r == if out.Length < outLen || old(f0) != ZERO then Err(IncorrectParameter) else Ok(())
      ensures r.Err? ==> out[..] == old(out[..]) && f0 == old(f0)
      ensures r.Ok? ==> f0 == ONES && out[..] == DigestOf(outLen, keyLen, old(absorbed)) + old(out[outLen..])
    {
      hide FinalWords, InitialWords, Valid;
      assert Shape() by { ShapeOf(); }
      if out.Length < outLen {
        return Err(IncorrectParameter);
      }
      if f0 != ZERO {
        return Err(IncorrectParameter);
      }
      CompressLast();
      var buffer := StoreWords(h[..]);
      CopyInto(out, 0, buffer[..outLen]);
      r := Ok(());
    }

    lemma ShapeOf()
      requires Valid()
      ensures Shape()
    {
    }
  }

  lemma TailExtends(before: seq<u8>, input: seq<u8>, n: nat)
    requires n <= |before|
    ensures (before + input)[n..] == before[n..] + input
  {
  }

  /** Up to a block left over, and at least one byte. */
  lemma BlocksAre(n: nat, k: nat)
    requires 128 * k < n <= 128 * k + 128
    ensures BlocksBefore(n) == k
  {
  }

  lemma CountingFields(n: nat, t0: u64, t1: u64)
    requires t0 == Counting(n, false).t0 && t1 == Counting(n, false).t1
    ensures Counting(n, false) == Tweak(t0, t1, ZERO, ZERO)
  {
  }

  lemma LastFields(n: nat, t0: u64, t1: u64)
    requires t0 == Counting(n, false).t0 && t1 == Counting(n, false).t1
    ensures Counting(n, true) == Tweak(t0, t1, ONES, ZERO)
  {
  }

  /** The held-back bytes and the first of the new ones make the next block. */
  lemma JoinBlock(held: seq<u8>, input: seq<u8>, total: seq<u8>, k: nat)
    requires |held| <= 128 <= |held| + |input| && 128 * k <= |total| && held + input == total[128 * k..]
    ensures 128 * k + 128 <= |total|
    ensures total[128 * k..128 * k + 128] == held + input[..128 - |held|]
    ensures input[128 - |held|..] == total[128 * k + 128..]
  {
    assert |held + input| == |total| - 128 * k;
    var tail := total[128 * k..];
    assert tail[..128] == total[128 * k..128 * k + 128];
    assert tail[128..] == total[128 * k + 128..];
  }

  lemma InitialIsXor(outLen: nat, keyLen: nat, words: seq<Word>)
    requires outLen <= 64 && keyLen <= 64 && |words| == 8
    requires var param := [outLen, keyLen, 1, 1] + Zeros(60);
             forall i :: 0 <= i < 8 ==> words[i] == ToWord(LeWord(param[8 * i..8 * i + 8]))
    ensures InitialWords(outLen, keyLen) == seq(8, i requires 0 <= i < 8 => Xor(IV[i], words[i]))
  {
    hide ToWord, LeWord, Xor;
    var param := [outLen, keyLen, 1, 1] + Zeros(60);
    assert param[0..8] == [outLen, keyLen, 1, 1, 0, 0, 0, 0];
    ParameterWord(outLen, keyLen);
    forall i | 1 <= i < 8
      ensures Xor(IV[i], words[i]) == IV[i]
    {
      assert param[8 * i..8 * i + 8] == Zeros(8);
      ZeroLeWord();
      ZeroWord();
      XorZero(IV[i].bits);
    }
  }

  lemma ZeroLeWord()
    ensures LeWord(Zeros(8)) == 0
  {
    ZerosAreZero(8);
  }

  /** `new`, and the checks of `init_param`. */
  method New(outLen: nat, vector: bool) returns (r: Result<Blake2b>)
    ensures r == Err(IncorrectParameter) || r.Ok?
    ensures r.Ok? <==> 1 <= outLen <= 64
    ensures r.Ok? ==> fresh(r.value) && fresh(r.value.h) && fresh(r.value.buf)
    ensures r.Ok? ==> r.value.Valid() && r.value.f0 == ZERO && r.value.absorbed == []
    ensures r.Ok? ==> r.value.outLen == outLen && r.value.keyLen == 0
  {
    if outLen == 0 || outLen > 64 {
      return Err(IncorrectParameter);
    }
    var state := new Blake2b.Init(outLen, 0, vector);
    return Ok(state);
  }

  /** `with_key`: the padded key is the first block of the message. */
  method WithKey(outLen: nat, key: seq<u8>, vector: bool) returns (r: Result<Blake2b>)
    ensures r == Err(IncorrectParameter) || r.Ok?
    ensures r.Ok? <==> 1 <= outLen <= 64 && 1 <= |key| <= 64
    ensures r.Ok? ==> fresh(r.value) && fresh(r.value.h) && fresh(r.value.buf)
    ensures r.Ok? ==> r.value.Valid() && r.value.f0 == ZERO && r.value.absorbed == KeyBlock(key)
    ensures r.Ok? ==> r.value.outLen == outLen && r.value.keyLen == |key|
  {
    if outLen == 0 || outLen > 64 {
      return Err(IncorrectParameter);
    }
    if |key| == 0 || |key| > 64 {
      return Err(IncorrectParameter);
    }
    var state := new Blake2b.Init(outLen, |key|, vector);
    state.Update(key + Zeros(128 - |key|));
    return Ok(state);
  }

  /** `blake2b_with_backend`: the one-shot unkeyed digest, as long as the output. */
  method OneShot(out: array<u8>, input: seq<u8>, vector: bool) returns (r: Result<()>)
    modifies out
    ensures r == if 1 <= out.Length <= 64 then Ok(()) else Err(IncorrectParameter)
    ensures r.Err? ==> out[..] == old(out[..])
    ensures r.Ok? ==> out[..] == Digest(out.Length, [], input)
  {
    hide DigestOf;
    var state := New(out.Length, vector);
    if state.Err? {
      return Err(state.error);
    }
    state.value.Update(input);
    r := state.value.Finalize(out);
    assert KeyBlock([]) + input == [] + input;
  }
}
