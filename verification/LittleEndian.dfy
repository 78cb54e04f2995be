/** Little-endian bytes: a number and its digits in base 256. */
module LittleEndian {
  import opened Machine

  function Pow256(n: nat): nat { if n == 0 then 1 else 256 * Pow256(n - 1) }

  /** The number a byte string spells. */
  function LeValue(b: seq<u8>): nat { if |b| == 0 then 0 else b[0] + 256 * LeValue(b[1..]) }

  /** The low `n` bytes of a number. */
  function LeBytes(x: nat, n: nat): (b: seq<u8>)
    ensures |b| == n
  {
    if n == 0 then [] else [x % 256] + LeBytes(x / 256, n - 1)
  }

  lemma {:induction false} LeBound(b: seq<u8>)
    ensures LeValue(b) < Pow256(|b|)
  {
    if |b| > 0 {
      LeBound(b[1..]);
    }
  }

  lemma WordBound()
    ensures Pow256(4) == 0x1_0000_0000 && Pow256(8) == 0x1_0000_0000_0000_0000
  {
    assert Pow256(2) == 0x1_0000;
    assert Pow256(4) == 0x1_0000_0000;
    assert Pow256(6) == 0x1_0000_0000_0000;
  }

  lemma ByteAndRest(byte: u8, v: nat)
    ensures (byte + 256 * v) % 256 == byte && (byte + 256 * v) / 256 == v
  {
  }

  /** Writing and reading back. */
  lemma {:induction false} ValueOfBytes(x: nat, n: nat)
    requires x < Pow256(n)
    ensures LeValue(LeBytes(x, n)) == x
  {
    if n > 0 {
      ValueOfBytes(x / 256, n - 1);
      assert LeBytes(x, n)[1..] == LeBytes(x / 256, n - 1);
    }
  }

  /** Reading and writing back. */
  lemma {:induction false} BytesOfValue(b: seq<u8>)
    ensures LeBytes(LeValue(b), |b|) == b
  {
    if |b| > 0 {
      BytesOfValue(b[1..]);
      var v := LeValue(b[1..]);
      ByteAndRest(b[0], v);
      assert LeValue(b) == b[0] + 256 * v;
      FirstByte(b[0], v, |b|);
      assert b == [b[0]] + b[1..];
    }
  }

  lemma FirstByte(byte: u8, v: nat, n: nat)
    requires n > 0
    ensures LeBytes(byte + 256 * v, n) == [byte] + LeBytes(v, n - 1)
  {
    ByteAndRest(byte, v);
  }

  function Le32(x: u32): (b: seq<u8>)
    ensures |b| == 4
  {
    LeBytes(x, 4)
  }

  /** The 64-bit number of eight bytes. */
  function LeWord(b: seq<u8>): (x: u64)
    requires |b| == 8
  {
    LeBound(b);
    WordBound();
    LeValue(b)
  }

  /** Words as bytes, eight to a word. */
  function WordsToBytes(w: seq<u64>): (b: seq<u8>)
    ensures |b| == 8 * |w|
  {
    if |w| == 0 then [] else WordsToBytes(w[..|w| - 1]) + LeBytes(w[|w| - 1], 8)
  }

  function BytesToWords(b: seq<u8>): (w: seq<u64>)
    requires |b| % 8 == 0
    ensures |w| == |b| / 8
  {
    seq(|b| / 8, i requires 0 <= i < |b| / 8 => LeWord(b[8 * i..8 * i + 8]))
  }

  lemma {:induction false} WordsToBytesAt(w: seq<u64>, i: nat)
    requires i < |w|
    ensures WordsToBytes(w)[8 * i..8 * i + 8] == LeBytes(w[i], 8)
  {
    var n := |w| - 1;
    if i < n {
      WordsToBytesAt(w[..n], i);
      assert WordsToBytes(w)[8 * i..8 * i + 8] == WordsToBytes(w[..n])[8 * i..8 * i + 8];
    }
  }

  /** Storing words and loading them again. */
  lemma LoadStore(w: seq<u64>)
    ensures BytesToWords(WordsToBytes(w)) == w
  {
    hide WordsToBytes, LeValue, LeBytes;
    forall i | 0 <= i < |w|
      ensures BytesToWords(WordsToBytes(w))[i] == w[i]
    {
      WordsToBytesAt(w, i);
      WordBack(w[i]);
    }
  }

  lemma WordBack(x: u64)
    ensures LeWord(LeBytes(x, 8)) == x
  {
    hide LeValue, LeBytes;
    WordBound();
    ValueOfBytes(x, 8);
  }

  /** The words of all but the last eight bytes. */
  lemma WordsOfPrefix(b: seq<u8>, k: nat)
    requires |b| == 8 * k + 8
    ensures BytesToWords(b) == BytesToWords(b[..8 * k]) + [LeWord(b[8 * k..])]
  {
    hide LeWord;
    var w, p := BytesToWords(b), BytesToWords(b[..8 * k]);
    assert |w| == k + 1 && |p| == k;
    forall i | 0 <= i < k
      ensures w[i] == p[i]
    {
      assert b[8 * i..8 * i + 8] == b[..8 * k][8 * i..8 * i + 8];
    }
    assert b[8 * k..8 * k + 8] == b[8 * k..];
  }

  /** The last word put after the others. */
  lemma LastWord(b: seq<u8>, k: nat)
    requires |b| == 8 * k + 8
    ensures WordsToBytes(BytesToWords(b)) == WordsToBytes(BytesToWords(b[..8 * k])) + LeBytes(LeWord(b[8 * k..]), 8)
  {
    hide BytesToWords, LeWord, LeBytes;
    WordsOfPrefix(b, k);
    var w := BytesToWords(b);
    assert w[..|w| - 1] == BytesToWords(b[..8 * k]);
  }

  lemma LastBytes(b: seq<u8>)
    requires |b| == 8
    ensures LeBytes(LeWord(b), 8) == b
  {
    hide LeValue, LeBytes;
    BytesOfValue(b);
  }

  /** Loading bytes and storing them again. */
  lemma {:induction false} StoreLoad(b: seq<u8>, k: nat)
    requires |b| == 8 * k
    ensures WordsToBytes(BytesToWords(b)) == b
  {
    hide BytesToWords, LeWord, LeBytes;
    if k > 0 {
      var n := k - 1;
      LastWord(b, n);
      StoreLoad(b[..8 * n], n);
      LastBytes(b[8 * n..]);
      assert b == b[..8 * n] + b[8 * n..];
    } else {
      assert BytesToWords(b) == [];
    }
  }
}
