/** Machine integers, and the error and result types every component shares. */
module Machine {

  /** Rust's `u8`, `u32` and `u64`, as ranges of the mathematical integers. */
  type u8 = x: int | 0 <= x < 0x100
  type u32 = x: int | 0 <= x < 0x1_0000_0000
  type u64 = x: int | 0 <= x < 0x1_0000_0000_0000_0000

  /** `wrapping_add`, `wrapping_sub` and `wrapping_mul` on `u32`. */
  function WrapAdd(a: u32, b: u32): u32 { (a + b) % 0x1_0000_0000 }

  function WrapSub(a: u32, b: u32): u32 { (a - b) % 0x1_0000_0000 }

  function WrapMul(a: u32, b: u32): u32 { (a * b) % 0x1_0000_0000 }

  /** A product as repeated addition: proofs about offsets stay in linear arithmetic. */
  function Times(a: nat, b: nat): nat { if a == 0 then 0 else Times(a - 1, b) + b }

  lemma {:induction false} TimesIsProduct(a: nat, b: nat)
    ensures Times(a, b) == a * b
  {
    if a != 0 {
      TimesIsProduct(a - 1, b);
      assert a * b == (a - 1) * b + b;
    }
  }

  lemma MulMono(a: int, b: int, k: nat)
    requires a <= b
    ensures k * a <= k * b
  {
  }

  lemma {:induction false} TimesMono(a: nat, b: nat, n: nat)
    requires a < b
    ensures Times(a, n) + n <= Times(b, n)
  {
    if a + 1 < b {
      TimesMono(a, b - 1, n);
    }
  }

  lemma TimesMonoWeak(a: nat, b: nat, n: nat)
    requires a <= b
    ensures Times(a, n) <= Times(b, n)
  {
    if a < b {
      TimesMono(a, b, n);
    }
  }

  lemma QuotientUnique(a: nat, n: nat, q: nat, r: nat)
    requires r < n && a == q * n + r
    ensures a / n == q && a % n == r
  {
    var e := a / n;
    assert a == e * n + a % n;
    if q < e {
      MulMono(q + 1, e, n);
    } else if e < q {
      MulMono(e + 1, q, n);
    }
  }

  datatype Option<+T> = None | Some(value: T)

  datatype Result<+T> = Ok(value: T) | Err(error: Error)
  {
    predicate IsFailure() { Err? }

    function PropagateFailure<U>(): Result<U>
      requires Err?
    {
      Err(error)
    }

    function Extract(): T
      requires Ok?
    {
      value
    }
  }

  /** The error codes of the modelled code paths. */
  datatype Error =
    | OutputTooShort
    | OutputTooLong
    | PwdTooLong
    | SaltTooShort
    | SaltTooLong
    | SecretTooLong
    | AdTooLong
    | MemoryTooLittle
    | MemoryTooMuch
    | TimeTooSmall
    | TimeTooLarge
    | LanesTooFew
    | LanesTooMany
    | ThreadsTooFew
    | ThreadsTooMany
    | IncorrectParameter
    | MemoryAllocationError
    | EncodingFail
    | DecodingFail
    | DecodingLengthFail
    | OutPtrMismatch
    | VerifyMismatch
}
