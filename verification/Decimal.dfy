/** Minimal decimals: printing a number and reading it back. */
module Decimal {
  import opened Machine

  predicate IsDigit(c: u8) { 48 <= c <= 57 }

  function Digit(c: u8): nat
    requires IsDigit(c)
  {
    c - 48
  }

  /** The digits of a number, without leading zeros. */
  function Dec(n: nat): (d: seq<u8>)
    ensures |d| >= 1 && forall i :: 0 <= i < |d| ==> IsDigit(d[i])
  {
    if n < 10 then [48 + n] else Dec(n / 10) + [48 + n % 10]
  }

  /** `num_len`. */
  method NumLen(num: u32) returns (len: nat)
    ensures len == |Dec(num)|
  {
    len := 1;
    var n: nat := num;
    while n >= 10
      invariant len + |Dec(n)| == 1 + |Dec(num)|
    {
      len := len + 1;
      n := n / 10;
    }
  }

  function Pow10(k: nat): nat { if k == 0 then 1 else 10 * Pow10(k - 1) }

  lemma {:induction false} DecFits(n: nat, k: nat)
    requires k >= 1 && n < Pow10(k)
    ensures |Dec(n)| <= k
  {
    if n >= 10 {
      DecFits(n / 10, k - 1);
    }
  }

  /** A `u32` has at most ten digits. */
  lemma TenDigits(n: u32)
    ensures |Dec(n)| <= 10
  {
    assert Pow10(3) == 1000;
    assert Pow10(6) == 1_000_000;
    assert Pow10(9) == 1_000_000_000;
    DecFits(n, 10);
  }

  /** `num_len` is monotone. */
  lemma {:induction false} DecGrows(a: nat, b: nat)
    requires a <= b
    ensures |Dec(a)| <= |Dec(b)|
  {
    if a >= 10 {
      DecGrows(a / 10, b / 10);
    }
  }

  /** How many digits the input starts with. */
  function Digits(src: seq<u8>): (n: nat)
    ensures n <= |src|
    ensures forall i :: 0 <= i < n ==> IsDigit(src[i])
    ensures n < |src| ==> !IsDigit(src[n])
  {
    if |src| == 0 || !IsDigit(src[0]) then 0 else 1 + Digits(src[1..])
  }

  /** The number that `n` digits spell. */
  function ValueOf(src: seq<u8>, n: nat): nat
    requires n <= |src| && forall i :: 0 <= i < n ==> IsDigit(src[i])
  {
    if n == 0 then 0 else ValueOf(src, n - 1) * 10 + Digit(src[n - 1])
  }

  /** What the decoder returns: the value and how many digits it took. */
  function DecimalOf(src: seq<u8>): Option<(nat, nat)> {
    var n := Digits(src);
    if n == 0 || (src[0] == 48 && n != 1) || ValueOf(src, n) > 0xFFFF_FFFF_FFFF_FFFF then None
    else Some((ValueOf(src, n), n))
  }

  lemma {:induction false} ValueGrows(src: seq<u8>, k: nat, n: nat)
    requires k <= n <= |src| && forall i :: 0 <= i < n ==> IsDigit(src[i])
    ensures ValueOf(src, k) <= ValueOf(src, n)
  {
    if k < n {
      ValueGrows(src, k, n - 1);
    }
  }

  /** `decode_decimal`, whose two overflow checks keep the `u64` from wrapping. */
  method DecodeDecimal(src: seq<u8>) returns (r: Option<(nat, nat)>)
    ensures r == DecimalOf(src)
  {
    var acc: u64 := 0;
    var i := 0;
    while i < |src| && IsDigit(src[i])
      invariant i <= Digits(src)
      invariant acc == ValueOf(src, i)
    {
      var digit := src[i] - 48;
      ValueGrows(src, i + 1, Digits(src));
      if acc > 0x1999_9999_9999_9999 {
        return None;
      }
      var shifted := acc * 10;
      if digit > 0xFFFF_FFFF_FFFF_FFFF - shifted {
        return None;
      }
      acc := shifted + digit;
      i := i + 1;
    }
    if i == 0 {
      return None;
    }
    if src[0] == 48 && i != 1 {
      return None;
    }
    r := Some((acc, i));
  }

  lemma {:induction false} DigitsIs(src: seq<u8>, n: nat)
    requires n <= |src| && (forall i :: 0 <= i < n ==> IsDigit(src[i])) && (n < |src| ==> !IsDigit(src[n]))
    ensures Digits(src) == n
  {
    if |src| > 0 && n > 0 {
      DigitsIs(src[1..], n - 1);
    }
  }

  lemma {:induction false} ValueOfPrefix(a: seq<u8>, b: seq<u8>, n: nat)
    requires n <= |a| && forall i :: 0 <= i < n ==> IsDigit(a[i])
    ensures ValueOf(a + b, n) == ValueOf(a, n)
  {
    if n > 0 {
      ValueOfPrefix(a, b, n - 1);
    }
  }

  lemma {:induction false} ValueOfDec(n: nat)
    ensures ValueOf(Dec(n), |Dec(n)|) == n
  {
    if n >= 10 {
      ValueOfDec(n / 10);
      ValueOfPrefix(Dec(n / 10), [48 + n % 10], |Dec(n / 10)|);
    }
  }

  lemma {:induction false} DecIsMinimal(n: nat)
    ensures Dec(n)[0] == 48 <==> n == 0
  {
    if n >= 10 {
      DecIsMinimal(n / 10);
    }
  }

  /** Reading what was printed, whatever follows that is not a digit. */
  lemma DecimalOfDec(n: nat, tail: seq<u8>)
    requires n <= 0xFFFF_FFFF_FFFF_FFFF && (|tail| > 0 ==> !IsDigit(tail[0]))
    ensures DecimalOf(Dec(n) + tail) == Some((n, |Dec(n)|))
  {
    var d := Dec(n);
    DigitsIs(d + tail, |d|);
    ValueOfPrefix(d, tail, |d|);
    ValueOfDec(n);
    DecIsMinimal(n);
  }

  /** Printing what was read. */
  lemma {:induction false} DecOfValue(src: seq<u8>, n: nat)
    requires 1 <= n <= |src| && (forall i :: 0 <= i < n ==> IsDigit(src[i])) && (src[0] == 48 ==> n == 1)
    ensures Dec(ValueOf(src, n)) == src[..n]
    ensures src[0] != 48 ==> ValueOf(src, n) >= 1
  {
    if n == 1 {
      assert ValueOf(src, 0) == 0;
      assert ValueOf(src, 1) == src[0] - 48;
    } else {
      DecOfValue(src, n - 1);
      assert src[..n] == src[..n - 1] + [src[n - 1]];
    }
  }

  /** The decoder accepts exactly the minimal decimals of 64-bit numbers, up to a non-digit. */
  lemma DecimalIsExact(src: seq<u8>, n: nat, k: nat)
    ensures DecimalOf(src) == Some((n, k)) <==>
      n <= 0xFFFF_FFFF_FFFF_FFFF && k == |Dec(n)| && Dec(n) <= src && Digits(src) == k
  {
    hide Dec;
    if DecimalOf(src) == Some((n, k)) {
      DecOfValue(src, k);
    }
    if n <= 0xFFFF_FFFF_FFFF_FFFF && k == |Dec(n)| && Dec(n) <= src && Digits(src) == k {
      assert src == Dec(n) + src[k..];
      DecimalOfDec(n, src[k..]);
    }
  }
}
