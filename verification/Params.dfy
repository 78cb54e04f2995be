/** Cost parameters, their validation, and the block layout derived from them. */
module Params {
  import opened Machine

  const SYNC_POINTS: u32 := 4
  const MIN_OUTLEN: u32 := 4
  const MAX_OUTLEN: u32 := 0xFFFF_FFFF
  const MAX_PWD_LENGTH: u32 := 0xFFFF_FFFF
  const MIN_SALT_LENGTH: u32 := 8
  const MAX_SALT_LENGTH: u32 := 0xFFFF_FFFF
  const MAX_SECRET: u32 := 0xFFFF_FFFF
  const MAX_AD_LENGTH: u32 := 0xFFFF_FFFF
  const MIN_MEMORY: u32 := 8
  /** The value on a target with 64-bit pointers. */
  const MAX_MEMORY: u32 := 0xFFFF_FFFF
  const MIN_TIME: u32 := 1
  const MAX_TIME: u32 := 0xFFFF_FFFF
  const MIN_LANES: u32 := 1
  const MAX_LANES: u32 := 0x00FF_FFFF
  const MIN_THREADS: u32 := 1
  const MAX_THREADS: u32 := 0x00FF_FFFF

  datatype Algorithm = Argon2d | Argon2i | Argon2id

  function AlgorithmCode(a: Algorithm): u32 {
    match a
    case Argon2d => 0
    case Argon2i => 1
    case Argon2id => 2
  }

  datatype Version = V0x10 | V0x13

  function VersionCode(v: Version): u32 { if v.V0x10? then 0x10 else 0x13 }

  datatype Costs = Costs(memory: u32, passes: u32, lanes: u32, threads: u32, tagLen: u32)

  /**
   The checks in the order that decides which error surfaces first. The product of 8 and the lanes may
   wrap, but then the lanes are out of range: what passes is exactly what is in bounds.
   */
  function ValidateInputs(outLen: nat, pwdLen: nat, saltLen: nat, secretLen: nat, adLen: nat,
                          memory: u32, passes: u32, lanes: u32, threads: u32): (r: Result<()>)
    ensures r.Ok? <==>
      && MIN_OUTLEN <= outLen <= MAX_OUTLEN
      && pwdLen <= MAX_PWD_LENGTH
      && MIN_SALT_LENGTH <= saltLen <= MAX_SALT_LENGTH
      && secretLen <= MAX_SECRET
      && adLen <= MAX_AD_LENGTH
      && MIN_LANES <= lanes <= MAX_LANES
      && MIN_THREADS <= threads <= MAX_THREADS
      && 8 * lanes <= memory
      && 1 <= passes
  {
    if outLen < MIN_OUTLEN then Err(OutputTooShort)
    else if outLen > MAX_OUTLEN then Err(OutputTooLong)
    else if pwdLen > MAX_PWD_LENGTH then Err(PwdTooLong)
    else if saltLen < MIN_SALT_LENGTH then Err(SaltTooShort)
    else if saltLen > MAX_SALT_LENGTH then Err(SaltTooLong)
    else if secretLen > MAX_SECRET then Err(SecretTooLong)
    else if adLen > MAX_AD_LENGTH then Err(AdTooLong)
    else if memory < MIN_MEMORY then Err(MemoryTooLittle)
    else if memory > MAX_MEMORY then Err(MemoryTooMuch)
    else if memory < WrapMul(8, lanes) then Err(MemoryTooLittle)
    else if passes < MIN_TIME then Err(TimeTooSmall)
    else if passes > MAX_TIME then Err(TimeTooLarge)
    else if lanes < MIN_LANES then Err(LanesTooFew)
    else if lanes > MAX_LANES then Err(LanesTooMany)
    else if threads < MIN_THREADS then Err(ThreadsTooFew)
    else if threads > MAX_THREADS then Err(ThreadsTooMany)
    else Ok(())
  }

  /** Each error, exactly when it is the first thing wrong, with the bounds as numbers. */
  lemma InputErrors(outLen: nat, pwdLen: nat, saltLen: nat, secretLen: nat, adLen: nat,
                    memory: u32, passes: u32, lanes: u32, threads: u32)
    ensures var r := ValidateInputs(outLen, pwdLen, saltLen, secretLen, adLen, memory, passes, lanes, threads);
            var lengths := 4 <= outLen <= 0xFFFF_FFFF && pwdLen <= 0xFFFF_FFFF && 8 <= saltLen <= 0xFFFF_FFFF
                           && secretLen <= 0xFFFF_FFFF && adLen <= 0xFFFF_FFFF;
            var enough := memory >= 8 && memory >= 8 * lanes % 0x1_0000_0000;
            && (r == Err(OutputTooShort) <==> outLen < 4)
            && (r == Err(OutputTooLong) <==> outLen > 0xFFFF_FFFF)
            && (r == Err(PwdTooLong) <==> 4 <= outLen <= 0xFFFF_FFFF && pwdLen > 0xFFFF_FFFF)
            && (r == Err(SaltTooShort) <==> 4 <= outLen <= 0xFFFF_FFFF && pwdLen <= 0xFFFF_FFFF && saltLen < 8)
            && (r == Err(SaltTooLong) <==> 4 <= outLen <= 0xFFFF_FFFF && pwdLen <= 0xFFFF_FFFF && saltLen > 0xFFFF_FFFF)
            && (r == Err(SecretTooLong) <==>
                  4 <= outLen <= 0xFFFF_FFFF && pwdLen <= 0xFFFF_FFFF && 8 <= saltLen <= 0xFFFF_FFFF
                  && secretLen > 0xFFFF_FFFF)
            && (r == Err(AdTooLong) <==>
                  4 <= outLen <= 0xFFFF_FFFF && pwdLen <= 0xFFFF_FFFF && 8 <= saltLen <= 0xFFFF_FFFF
                  && secretLen <= 0xFFFF_FFFF && adLen > 0xFFFF_FFFF)
            && (r == Err(MemoryTooLittle) <==> lengths && !enough)
            && (r == Err(TimeTooSmall) <==> lengths && enough && passes == 0)
            && (r == Err(LanesTooFew) <==> lengths && enough && passes > 0 && lanes == 0)
            && (r == Err(LanesTooMany) <==> lengths && enough && passes > 0 && lanes > 0xFF_FFFF)
            && (r == Err(ThreadsTooFew) <==> lengths && enough && passes > 0 && 1 <= lanes <= 0xFF_FFFF && threads == 0)
            && (r == Err(ThreadsTooMany) <==>
                  lengths && enough && passes > 0 && 1 <= lanes <= 0xFF_FFFF && threads > 0xFF_FFFF)
  {
  }

  /** What the builder produces: the costs that pass the checks with placeholder lengths. */
  predicate Valid(p: Costs) {
    ValidateInputs(p.tagLen, 0, MIN_SALT_LENGTH, 0, 0, p.memory, p.passes, p.lanes, p.threads).Ok?
  }

  /** `ParamsBuilder::build`: range checks before narrowing, then the full validation. */
  function Build(memory: u64, passes: u32, lanes: u32, threads: Option<u32>, tagLen: u64): (r: Result<Costs>)
    ensures r.Ok? ==> Valid(r.value)
    ensures r.Ok? <==>
      && MIN_OUTLEN <= tagLen <= MAX_OUTLEN
      && MIN_MEMORY <= memory <= MAX_MEMORY
      && 8 * lanes <= memory
      && MIN_TIME <= passes
      && MIN_LANES <= lanes <= MAX_LANES
      && (threads.Some? ==> MIN_THREADS <= threads.value <= MAX_THREADS)
  {
    if tagLen > MAX_OUTLEN then Err(OutputTooLong)
    else if tagLen < MIN_OUTLEN then Err(OutputTooShort)
    else if memory > MAX_MEMORY then Err(MemoryTooMuch)
    else
      var t := if threads.Some? then threads.value else lanes;
      var _ :- ValidateInputs(tagLen, 0, MIN_SALT_LENGTH, 0, 0, memory, passes, lanes, t);
      Ok(Costs(memory, passes, lanes, t, tagLen))
  }

  /** The builder looks at the tag length first, then the memory, before anything is narrowed. */
  lemma BuildErrors(memory: u64, passes: u32, lanes: u32, threads: Option<u32>, tagLen: u64)
    ensures var r := Build(memory, passes, lanes, threads, tagLen);
            && (r == Err(OutputTooLong) <==> tagLen > 0xFFFF_FFFF)
            && (r == Err(OutputTooShort) <==> tagLen < 4)
            && (r == Err(MemoryTooMuch) <==> 4 <= tagLen <= 0xFFFF_FFFF && memory > 0xFFFF_FFFF)
            && (r.Ok? ==> r.value == Costs(memory, passes, lanes, if threads.Some? then threads.value else lanes,
              tagLen))
  {
  }

  /** `effective_threads`. */
  function EffectiveThreads(p: Costs): (r: u32)
    ensures r <= p.lanes && r <= p.threads && (r == p.lanes || r == p.threads)
  {
    if p.threads > p.lanes then p.lanes else p.threads
  }

  datatype Layout = Layout(blocks: u32, segmentLength: u32, laneLength: u32)

  /** `memory_layout`, in wrapping arithmetic. */
  function MemoryLayout(p: Costs): Layout
    requires Valid(p)
  {
    var lanesXSync := WrapMul(p.lanes, SYNC_POINTS);
    var minBlocks := WrapMul(2 * SYNC_POINTS, p.lanes);
    var raised: u32 := if p.memory < minBlocks then minBlocks else p.memory;
    var segment: u32 := raised / lanesXSync;
    Layout(WrapMul(segment, lanesXSync), segment, WrapMul(segment, SYNC_POINTS))
  }

  /**
   For validated costs no product wraps, the raise to the minimum never fires, the arena holds
   exactly `lanes` lanes of four segments of at least two blocks, and it is the largest such arena
   within the requested memory.
   */
  lemma LayoutFacts(p: Costs)
    requires Valid(p)
    ensures var y := MemoryLayout(p);
            && y.segmentLength >= 2
            && y.laneLength == 4 * y.segmentLength
            && y.blocks == Times(p.lanes, y.laneLength)
            && y.blocks <= p.memory < y.blocks + 4 * p.lanes
  {
    var n := p.lanes * 4;
    assert WrapMul(p.lanes, SYNC_POINTS) == n && WrapMul(8, p.lanes) == 2 * n;
    var s := p.memory / n;
    DivBounds(p.memory, n);
    assert s * n <= p.memory < s * n + n;
    assert s >= 2;
    assert s * 4 <= s * n by { MulMono(4, n, s); }
    assert p.lanes * (4 * s) == s * n by { MulSwap(p.lanes, 4, s); }
    TimesIsProduct(p.lanes, 4 * s);
  }

  /** The layout as quotients and products. */
  lemma LayoutIs(p: Costs)
    requires Valid(p)
    ensures var y := MemoryLayout(p);
            && y.segmentLength == p.memory / (4 * p.lanes)
            && y.laneLength == 4 * y.segmentLength && y.blocks == p.lanes * y.laneLength
  {
    LayoutFacts(p);
    var n := p.lanes * 4;
    assert WrapMul(p.lanes, SYNC_POINTS) == n && WrapMul(8, p.lanes) == 2 * n;
    assert MemoryLayout(p).segmentLength == p.memory / n;
    hide MemoryLayout, Valid, WrapMul;
    TimesIsProduct(p.lanes, MemoryLayout(p).laneLength);
  }

  lemma DivBounds(a: nat, n: nat)
    requires n > 0
    ensures (a / n) * n <= a < (a / n) * n + n
  {
  }

  lemma MulSwap(a: int, b: int, c: int)
    ensures a * (b * c) == c * (a * b)
  {
  }
}
