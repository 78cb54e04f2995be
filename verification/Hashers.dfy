/** The hasher: an owner's configuration over a pooled workspace, and untrusted strings to verify. */
module Hashers {
  import opened Machine
  import opened Params
  import opened Bits
  import opened PhcText
  import opened PhcParser
  import opened PhcRoundTrip
  import Base64Codec
  import opened Fill
  import opened Tag
  import opened Standards
  import opened Hashing
  import opened Memory
  import opened Workspaces
  import opened Windows

  // ---------------------------------------------------------------------------
  // Comparing tags
  // ---------------------------------------------------------------------------

  lemma OrIsZero(a: nat, b: nat)
    ensures Or(a, b) == 0 <==> a == 0 && b == 0
  {
  }

  lemma XorByte(a: u8, b: u8)
    ensures Xor(a, b) < 256
    ensures Xor(a, b) == 0 <==> a == b
  {
    Powers();
    XorFacts(a, b, 8);
  }

  /** `constant_time_eq`: one accumulator, no early exit, and a verdict without a branch. */
  method ConstantTimeEq(a: seq<u8>, b: seq<u8>) returns (equal: bool)
    ensures equal <==> a == b
  {
    if |a| != |b| {
      return false;
    }
    var d: u8 := 0;
    for i := 0 to |a|
      invariant d == 0 <==> a[..i] == b[..i]
    {
      XorByte(a[i], b[i]);
      OrIsZero(d, Xor(a[i], b[i]));
      assert a[..i + 1] == a[..i] + [a[i]] && b[..i + 1] == b[..i] + [b[i]];
      d := Or8(d, Xor(a[i], b[i]));
    }
    assert a[..|a|] == a && b[..|b|] == b;
    var verdict := Verdict(d);
    equal := verdict == 0;
  }

  /** The verdict without a branch: the sign of `d - 1`, shifted down arithmetically; its low bit, less one. */
  function Verdict(d: u8): (v: int)
    ensures v == if d == 0 then 0 else -1
  {
    (d - 1) / 256 % 2 - 1
  }

  // ---------------------------------------------------------------------------
  // One-shot results
  // ---------------------------------------------------------------------------

  /** A configuration. */
  datatype Argon2 = Argon2(algorithm: Algorithm, version: Version, params: Costs)

  /** What is fixed when the library is built and started: the fill kernel, the hash backend, the scheduler. */
  datatype Platform = Platform(compress: (Block, Block) -> Block, vector: bool, schedule: Schedule)

  function Blocks(p: Costs): nat
    requires Valid(p)
  {
    MemoryLayout(p).blocks
  }

  /** Every validated cost has an arena that could be allocated. */
  lemma BlocksFit(p: Costs)
    requires Valid(p)
    ensures Memory.LayoutOk(Blocks(p))
  {
    LayoutFacts(p);
    assert p.lanes >= 1 && p.memory >= 8 * p.lanes;
  }

  /** `validate_and_size`, for an output as long as the tag or not. */
  function Checks(a: Argon2, pwd: seq<u8>, salt: seq<u8>, outLen: nat): Result<()> {
    var p := a.params;
    var _ :- ValidateInputs(p.tagLen, |pwd|, |salt|, 0, 0, p.memory, p.passes, p.lanes, p.threads);
    if outLen != p.tagLen then Err(OutPtrMismatch) else Ok(())
  }

  /** The verdict on a tag: that of section 3.2 of RFC 9106, with memory to be had. */
  function VerifyResult(f: Platform, a: Argon2, pwd: seq<u8>, salt: seq<u8>, expected: seq<u8>): Result<()>
    requires Valid(a.params)
  {
    var _ :- Checks(a, pwd, salt, a.params.tagLen);
    if JobTag(Job(a.algorithm, a.version, a.params, pwd, salt, [], [], f.compress)) == expected then Ok(())
    else Err(VerifyMismatch)
  }

  /**
   A tag of the configuration, made with this kernel, whose pre-hash input holds the password, the salt,
   and nothing for the secret and the associated data, each after its length.
   */
  ghost predicate IsTagFor(f: Platform, a: Argon2, pwd: seq<u8>, salt: seq<u8>, tag: seq<u8>) {
    exists j: Job :: IsJobFor(j, f, a, pwd, salt) && Valid(j.costs) && tag == JobTag(j)
  }

  ghost predicate IsJobFor(j: Job, f: Platform, a: Argon2, pwd: seq<u8>, salt: seq<u8>) {
    var input := PreHashOf(j);
    && j.algorithm == a.algorithm && j.version == a.version && j.costs == a.params && j.compress == f.compress
    && |input| == 40 + |pwd| + |salt|
    && Has(input, 24, pwd) && Has(input, 28 + |pwd|, salt)
    && Has(input, 32 + |pwd| + |salt|, []) && Has(input, 36 + |pwd| + |salt|, [])
  }

  lemma TagIsForInputs(f: Platform, a: Argon2, pwd: seq<u8>, salt: seq<u8>)
    requires Valid(a.params)
    ensures var j := Job(a.algorithm, a.version, a.params, pwd, salt, [], [], f.compress);
            IsTagFor(f, a, pwd, salt, JobTag(j))
  {
    hide JobTag, Has, Valid;
    PreHashIsLaidOut(a.algorithm, a.version, a.params, pwd, salt, [], []);
    assert IsJobFor(Job(a.algorithm, a.version, a.params, pwd, salt, [], [], f.compress), f, a, pwd, salt);
  }

  /** Each verdict, exactly when it is given. */
  lemma VerdictIs(f: Platform, a: Argon2, pwd: seq<u8>, salt: seq<u8>, expected: seq<u8>)
    requires Valid(a.params)
    ensures var checks := Checks(a, pwd, salt, a.params.tagLen);
            var tag := JobTag(Job(a.algorithm, a.version, a.params, pwd, salt, [], [], f.compress));
            var r := VerifyResult(f, a, pwd, salt, expected);
            && (checks.Err? ==> r == Err(checks.error))
            && (checks.Ok? && tag == expected ==> r == Ok(()) && IsTagFor(f, a, pwd, salt, expected))
            && (checks.Ok? && tag != expected ==> r == Err(VerifyMismatch))
  {
    hide JobTag, Checks;
    TagIsForInputs(f, a, pwd, salt);
  }

  /** What is checked before anything is allocated: the inputs, and then the length of the output. */
  lemma ChecksAre(a: Argon2, pwd: seq<u8>, salt: seq<u8>, outLen: nat)
    ensures var p := a.params;
            var inputs := ValidateInputs(p.tagLen, |pwd|, |salt|, 0, 0, p.memory, p.passes, p.lanes, p.threads);
            Checks(a, pwd, salt, outLen) ==
              if inputs.Err? then inputs else if outLen != p.tagLen then Err(OutPtrMismatch) else Ok(())
  {
  }

  /**
   From hashing to verifying: the tag of a password, printed with its configuration and salt, verifies
   exactly the passwords that have that tag.
   */
  lemma HashedVerifies(f: Platform, a: Argon2, pwd: seq<u8>, salt: seq<u8>, other: seq<u8>)
    requires Valid(a.params) && |other| <= 0xFFFF_FFFF && 8 <= |salt| <= 0xFFFF_FFFF
    ensures var tag := JobTag(Job(a.algorithm, a.version, a.params, pwd, salt, [], [], f.compress));
            var p := a.params;
            var text := Written(a.algorithm, true,
                                Fields(VersionCode(a.version), p.memory, p.passes, p.lanes, salt, tag), []);
            |text| <= 0xFFFF_FFFF ==>
              VerifyEncodedResult(f, text, other, a.algorithm) ==
                if JobTag(Job(a.algorithm, a.version, a.params, other, salt, [], [], f.compress)) == tag then Ok(())
                else Err(VerifyMismatch)
  {
    hide JobTag, Written, DecodeString;
    var tag := JobTag(Job(a.algorithm, a.version, a.params, pwd, salt, [], [], f.compress));
    var p := a.params.(threads := a.params.lanes);
    var d := Decoded(a.algorithm, a.version, p, salt, tag, []);
    DecodeOfPrinted(d);
    JobIgnoresThreads(Job(a.algorithm, a.version, a.params, other, salt, [], [], f.compress), p.threads);
  }

  /** One-shot verification of a record, with memory to be had. */
  function VerifyEncodedResult(f: Platform, encoded: Text, pwd: seq<u8>, algorithm: Algorithm): Result<()> {
    if |pwd| > MAX_PWD_LENGTH then Err(PwdTooLong)
    else
      var d :- DecodeString(encoded, algorithm);
      DecodedIsValid(encoded, algorithm);
      VerifyResult(f, Argon2(d.algorithm, d.version, d.params), pwd, d.salt, d.hash)
  }

  /** One-shot verification of a record under a ceiling, with memory to be had. */
  function VerifyBoundedResult(f: Platform, encoded: Text, pwd: seq<u8>, algorithm: Algorithm,
      ceiling: Costs): Result<()>
    requires Valid(ceiling)
  {
    if |pwd| > MAX_PWD_LENGTH then Err(PwdTooLong)
    else
      var d :- DecodeBounded(encoded, algorithm, ceiling);
      BoundedIsValid(encoded, algorithm, ceiling);
      VerifyResult(f, Argon2(d.algorithm, d.version, d.params), pwd, d.salt, d.hash)
  }

  lemma DecodedIsValid(encoded: Text, algorithm: Algorithm)
    requires DecodeString(encoded, algorithm).Ok?
    ensures Valid(DecodeString(encoded, algorithm).value.params)
  {
    hide DecodeString, HasVersion, Written;
    DecodeIsExact(encoded, algorithm, DecodeString(encoded, algorithm).value);
  }

  lemma BoundedIsValid(encoded: Text, algorithm: Algorithm, ceiling: Costs)
    requires Valid(ceiling) && DecodeBounded(encoded, algorithm, ceiling).Ok?
    ensures Valid(DecodeBounded(encoded, algorithm, ceiling).value.params)
  {
    hide DecodeBounded, DecodeString;
    BoundedIsSound(encoded, algorithm, ceiling);
    DecodedIsValid(encoded, algorithm);
  }

  /** A ceiling that lets a record through does not change the verdict on it, whatever threads it allows. */
  lemma CeilingKeepsVerdict(f: Platform, encoded: Text, pwd: seq<u8>, algorithm: Algorithm, ceiling: Costs)
    requires Valid(ceiling) && DecodeBounded(encoded, algorithm, ceiling).Ok?
    ensures VerifyBoundedResult(f, encoded, pwd, algorithm, ceiling) == VerifyEncodedResult(f, encoded, pwd, algorithm)
  {
    hide DecodeBounded, DecodeString, JobTag, ValidateInputs;
    BoundedIsSound(encoded, algorithm, ceiling);
    BoundedIsValid(encoded, algorithm, ceiling);
    DecodedIsValid(encoded, algorithm);
    var d, b := DecodeString(encoded, algorithm).value, DecodeBounded(encoded, algorithm, ceiling).value;
    var a, a' := Argon2(d.algorithm, d.version, d.params), Argon2(b.algorithm, b.version, b.params);
    JobIgnoresThreads(Job(a.algorithm, a.version, a.params, pwd, d.salt, [], [], f.compress), b.params.threads);
    ChecksIgnoreThreads(a, a', pwd, d.salt);
  }

  lemma ChecksIgnoreThreads(a: Argon2, a': Argon2, pwd: seq<u8>, salt: seq<u8>)
    requires Valid(a.params) && Valid(a'.params) && a'.params == a.params.(threads := a'.params.threads)
    ensures Checks(a, pwd, salt, a.params.tagLen) == Checks(a', pwd, salt, a'.params.tagLen)
  {
  }

  /** A record that needs no more blocks than there are. */
  predicate FitsIn(decoded: Result<Decoded>, blocks: nat) {
    decoded.Ok? && Valid(decoded.value.params) && Blocks(decoded.value.params) <= blocks
  }

  /** What a computation gives when an allocation may be refused. */
  function IfMemory<T>(available: bool, checks: Result<()>, r: Result<T>): Result<T> {
    if checks.Ok? && !available then Err(MemoryAllocationError) else r
  }

  // ---------------------------------------------------------------------------
  // Hashing in an arena that was lent
  // ---------------------------------------------------------------------------

  /** `hash_in_arena` over the window of an arena, whatever the window held. */
  method HashInWindow(lent: Arena, j: Job, out: array<u8>, f: Platform) returns (r: Result<()>)
    requires lent.Valid() && Valid(j.costs) && AlwaysReturns(f.schedule)
    requires out.Length == j.costs.tagLen && out != lent.mem
    modifies lent`zeroed, lent`workers, lent.mem, out
    ensures lent.Valid() && Borrowed(old(lent.State()), lent.State())
    ensures r == if lent.blocks == Blocks(j.costs) then Ok(()) else Err(MemoryAllocationError)
    ensures out[..] == if r.Ok? then JobTag(j) else old(out[..])
    ensures r.Ok? ==> Bytes(lent.blocks) <= lent.mem.Length && Window(lent) == JobArena(j)
  {
    hide Sound, MemoryLayout, JobTag, JobArena, JobTraces, Valid, AlwaysReturns, Bytes, BlocksOf;
    var blocks := LoadWindow(lent);
    lent.SetWorkers(j.costs.threads);
    var traces;
    r, traces := HashInArena(blocks, j, out, f.vector, false, f.schedule);
    StoreWindow(lent, blocks[..]);
  }

  /** `Argon2::verify`: a private arena, wiped and freed on the way out. */
  method VerifyOneShot(f: Platform, a: Argon2, pwd: seq<u8>, salt: seq<u8>, expected: seq<u8>,
                       wipe: bool, obliges: bool)
    returns (r: Result<()>)
    requires Valid(a.params) && AlwaysReturns(f.schedule)
    ensures r == IfMemory(obliges, Checks(a, pwd, salt, a.params.tagLen), VerifyResult(f, a, pwd, salt, expected))
  {
    hide ValidateInputs, MemoryLayout, JobTag, JobArena, Sound, AlwaysReturns;
    var computed := new u8[a.params.tagLen](_ => 0);
    var _ :- Checks(a, pwd, salt, computed.Length);
    BlocksFit(a.params);
    if !obliges {
      return Err(MemoryAllocationError);
    }
    hide Blocks;
    var arena := new Arena(Blocks(a.params), wipe);
    r := HashInWindow(arena, Job(a.algorithm, a.version, a.params, pwd, salt, [], [], f.compress), computed, f);
    arena.Drop(false);
    var matched := ConstantTimeEq(computed[..], expected);
    r := if matched then Ok(()) else Err(VerifyMismatch);
  }

  // ---------------------------------------------------------------------------
  // The hasher
  // ---------------------------------------------------------------------------

  function MaxOf(a: nat, b: nat): (m: nat)
    ensures m >= a && m >= b && (m == a || m == b)
  {
    if a < b then b else a
  }

  /** `Hasher`. `asked` is the largest size its owner has configured so far. */
  class Hasher {
    var argon2: Argon2
    const workspace: Workspace
    const f: Platform
    ghost var asked: nat

    ghost predicate Valid()
      reads this, workspace, workspace.Repr()
    {
      && workspace.Valid()
      && AlwaysReturns(f.schedule)
      && Params.Valid(argon2.params)
      && Blocks(argon2.params) <= asked
      && workspace.Capacity() <= asked
    }

    constructor (argon2: Argon2, f: Platform, wipe: bool)
      requires Params.Valid(argon2.params) && AlwaysReturns(f.schedule)
      ensures Valid() && asked == Blocks(argon2.params) && workspace.Capacity() == 0 && this.f == f
      ensures fresh(workspace) && fresh(workspace.Repr())
    {
      hide AlwaysReturns;
      this.argon2, this.f := argon2, f;
      workspace := new Workspace(wipe);
      asked := Blocks(argon2.params);
    }

    /** `set_argon2`: the owner asks for another size, and nothing is allocated. */
    method SetArgon2(a: Argon2)
      requires Valid() && Params.Valid(a.params)
      modifies this`argon2, this`asked
      ensures Valid() && argon2 == a && asked == MaxOf(old(asked), Blocks(a.params))
    {
      hide AlwaysReturns;
      argon2 := a;
      asked := MaxOf(asked, Blocks(a.params));
    }

    /** `reserve`. */
    method Reserve(obliges: bool) returns (r: Result<()>)
      requires Valid()
      modifies workspace.Repr()
      ensures Valid() && fresh(workspace.Repr() - old(workspace.Repr()))
      ensures r.Ok? ==> workspace.Capacity() >= Blocks(argon2.params)
      ensures r == if obliges || old(workspace.Capacity()) >= Blocks(argon2.params) then Ok(())
                   else Err(MemoryAllocationError)
    {
      hide MemoryLayout, AlwaysReturns;
      BlocksFit(argon2.params);
      Memory.ReserveKeeps(workspace.wipe, workspace.Parked(), Blocks(argon2.params), obliges);
      r := workspace.ReserveBlocks(Blocks(argon2.params), obliges);
      CapacityIs(workspace);
    }

    /** `clear`. */
    method Clear()
      requires Valid()
      modifies workspace.Repr()
      ensures Valid() && workspace.Capacity() == 0
    {
      hide AlwaysReturns;
      workspace.Clear();
    }

    /** `pooled_ceiling`. */
    function PooledCeiling(): nat
      reads this, workspace, if workspace.arena == null then {} else {workspace.arena}
      requires Params.Valid(argon2.params)
    {
      MaxOf(workspace.Capacity(), Blocks(argon2.params))
    }

    /** Acquire, hash, release: `hash_in_workspace` after its checks. */
    method HashInWorkspace(j: Job, out: array<u8>, obliges: bool) returns (r: Result<()>)
      requires workspace.Valid() && Params.Valid(j.costs) && AlwaysReturns(f.schedule)
      requires out.Length == j.costs.tagLen && out !in workspace.Repr()
      modifies workspace.Repr(), out
      ensures workspace.Valid() && fresh(workspace.Repr() - old(workspace.Repr()))
      ensures workspace.Capacity() <= MaxOf(old(workspace.Capacity()), Blocks(j.costs))
      ensures r == if obliges || old(workspace.Capacity()) >= Blocks(j.costs) then Ok(())
                   else Err(MemoryAllocationError)
      ensures out[..] == if r.Ok? then JobTag(j) else old(out[..])
    {
      hide Memory.Sound, Memory.WipeVisible, JobTag, JobArena, AlwaysReturns, Window, Params.Valid;
      var n := Blocks(j.costs);
      BlocksFit(j.costs);
      hide Blocks;
      CapacityIs(workspace);
      var arena :- workspace.AcquireOwned(n, obliges);
      r := HashInWindow(arena, j, out, f);
      Memory.ReleaseKeeps(workspace.wipe, workspace.Parked(), arena.State());
      workspace.ReleaseArena(arena);
      CapacityIs(workspace);
    }

    /** `hash_into_using`: any configuration, over this hasher's memory. */
    method HashIntoUsing(a: Argon2, pwd: seq<u8>, salt: seq<u8>, out: array<u8>, obliges: bool) returns (r: Result<()>)
      requires workspace.Valid() && Params.Valid(a.params) && AlwaysReturns(f.schedule) && out !in workspace.Repr()
      modifies workspace.Repr(), out
      ensures workspace.Valid() && fresh(workspace.Repr() - old(workspace.Repr()))
      ensures workspace.Capacity() <= MaxOf(old(workspace.Capacity()), Blocks(a.params))
      ensures r == IfMemory(obliges || old(workspace.Capacity()) >= Blocks(a.params),
                            Checks(a, pwd, salt, out.Length), Checks(a, pwd, salt, out.Length))
      ensures r.Err? ==> out[..] == old(out[..])
      ensures r.Ok? ==> out[..] == JobTag(Job(a.algorithm, a.version, a.params, pwd, salt, [], [], f.compress))
      ensures r.Ok? ==> IsTagFor(f, a, pwd, salt, out[..])
    {
      hide ValidateInputs, Blocks, JobTag, AlwaysReturns, Workspace.Valid;
      var checked := Checks(a, pwd, salt, out.Length);
      if checked.Err? {
        return checked;
      }
      r := HashInWorkspace(Job(a.algorithm, a.version, a.params, pwd, salt, [], [], f.compress), out, obliges);
      TagIsForInputs(f, a, pwd, salt);
    }

    /** `verify_using`. */
    method VerifyUsing(a: Argon2, pwd: seq<u8>, salt: seq<u8>, expected: seq<u8>, obliges: bool) returns (r: Result<()>)
      requires workspace.Valid() && Params.Valid(a.params) && AlwaysReturns(f.schedule)
      modifies workspace.Repr()
      ensures workspace.Valid() && fresh(workspace.Repr() - old(workspace.Repr()))
      ensures workspace.Capacity() <= MaxOf(old(workspace.Capacity()), Blocks(a.params))
      ensures r == IfMemory(obliges || old(workspace.Capacity()) >= Blocks(a.params),
                            Checks(a, pwd, salt, a.params.tagLen), VerifyResult(f, a, pwd, salt, expected))
    {
      hide ValidateInputs, Blocks, JobTag, AlwaysReturns;
      var computed := new u8[a.params.tagLen](_ => 0);
      var _ :- HashIntoUsing(a, pwd, salt, computed, obliges);
      var matched := ConstantTimeEq(computed[..], expected);
      r := if matched then Ok(()) else Err(VerifyMismatch);
    }

    /** `hash_into` with the owner's configuration. */
    method HashInto(pwd: seq<u8>, salt: seq<u8>, out: array<u8>, obliges: bool) returns (r: Result<()>)
      requires Valid() && out !in workspace.Repr()
      modifies workspace.Repr(), out
      ensures Valid() && fresh(workspace.Repr() - old(workspace.Repr()))
      ensures r == IfMemory(obliges || old(workspace.Capacity()) >= Blocks(argon2.params),
                            Checks(argon2, pwd, salt, out.Length), Checks(argon2, pwd, salt, out.Length))
      ensures r.Err? ==> out[..] == old(out[..])
      ensures r.Ok? ==> IsTagFor(f, argon2, pwd, salt, out[..])
    {
      hide ValidateInputs, Blocks, JobTag, AlwaysReturns;
      r := HashIntoUsing(argon2, pwd, salt, out, obliges);
    }

    /** Pooled or private, by the size the record asks for. */
    method VerifyDecoded(d: Decoded, pwd: seq<u8>, obliges: bool) returns (r: Result<()>)
      requires Valid() && Params.Valid(d.params)
      modifies workspace.Repr()
      ensures Valid() && fresh(workspace.Repr() - old(workspace.Repr()))
      ensures var verdict := VerifyResult(f, Argon2(d.algorithm, d.version, d.params), pwd, d.salt, d.hash);
              && (obliges || Blocks(d.params) <= old(workspace.Capacity()) ==> r == verdict)
              && (r == verdict || r == Err(MemoryAllocationError))
    {
      hide ValidateInputs, Blocks, JobTag, AlwaysReturns;
      var a := Argon2(d.algorithm, d.version, d.params);
      if Blocks(d.params) > PooledCeiling() {
        r := VerifyOneShot(f, a, pwd, d.salt, d.hash, workspace.wipe, obliges);
        return;
      }
      r := VerifyUsing(a, pwd, d.salt, d.hash, obliges);
    }

    /**
     `verify_encoded`: the verdict is the one-shot verdict whenever memory is to be had, and whatever the
     string asks for, what the workspace keeps stays within what the owner asked for.
     */
    method VerifyEncoded(encoded: Text, pwd: seq<u8>, algorithm: Algorithm, backend: Base64Codec.Backend, obliges: bool)
      returns (r: Result<()>)
      requires Valid()
      modifies workspace.Repr()
      ensures Valid() && fresh(workspace.Repr() - old(workspace.Repr()))
      ensures obliges || FitsIn(DecodeString(encoded, algorithm), old(workspace.Capacity())) ==>
                r == VerifyEncodedResult(f, encoded, pwd, algorithm)
      ensures r == VerifyEncodedResult(f, encoded, pwd, algorithm) || r == Err(MemoryAllocationError)
    {
      hide ValidateInputs, Blocks, DecodeString, JobTag, AlwaysReturns, VerifyResult;
      if |pwd| > MAX_PWD_LENGTH {
        return Err(PwdTooLong);
      }
      var decoded :- DecodeStringRaw(encoded, algorithm, backend);
      DecodedIsValid(encoded, algorithm);
      r := VerifyDecoded(decoded, pwd, obliges);
    }

    /** `verify_encoded_bounded`: a record beyond the ceiling is refused before anything is allocated. */
    method VerifyEncodedBounded(encoded: Text, pwd: seq<u8>, algorithm: Algorithm, ceiling: Costs, obliges: bool)
      returns (r: Result<()>)
      requires Valid() && Params.Valid(ceiling)
      modifies workspace.Repr()
      ensures Valid() && fresh(workspace.Repr() - old(workspace.Repr()))
      ensures |pwd| > MAX_PWD_LENGTH || DecodeBounded(encoded, algorithm, ceiling).Err? ==>
                && r == VerifyBoundedResult(f, encoded, pwd, algorithm, ceiling)
                && workspace.Parked() == old(workspace.Parked())
      ensures obliges || FitsIn(DecodeBounded(encoded, algorithm, ceiling), old(workspace.Capacity())) ==>
                r == VerifyBoundedResult(f, encoded, pwd, algorithm, ceiling)
      ensures r == VerifyBoundedResult(f, encoded, pwd, algorithm, ceiling) || r == Err(MemoryAllocationError)
    {
      hide ValidateInputs, Blocks, DecodeBounded, JobTag, AlwaysReturns, VerifyResult;
      if |pwd| > MAX_PWD_LENGTH {
        return Err(PwdTooLong);
      }
      var decoded :- DecodeBounded(encoded, algorithm, ceiling);
      BoundedIsValid(encoded, algorithm, ceiling);
      r := VerifyDecoded(decoded, pwd, obliges);
    }
  }

  lemma CapacityIs(w: Workspace)
    requires w.Valid()
    ensures w.Capacity() == Memory.ParkedCapacity(w.Parked())
  {
  }
}
