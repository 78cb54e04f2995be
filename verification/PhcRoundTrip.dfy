/** Printing and strict parsing undo each other; and holding a record to a ceiling. */
module PhcRoundTrip {
  import opened Machine
  import opened Params
  import opened Base64
  import opened Base64Codec
  import opened Decimal
  import opened PhcText
  import opened PhcWriter
  import opened PhcParser

  /** The fields of a decoded record. */
  function FieldsOf(d: Decoded): Fields {
    Fields(VersionCode(d.version), d.params.memory, d.params.passes, d.params.lanes, d.salt, d.hash)
  }

  /** A record the strict decoder can yield: threads are lanes, and the tag length is the tag's. */
  predicate IsRecord(d: Decoded) {
    && d.params.threads == d.params.lanes
    && d.params.tagLen == |d.hash|
    && d.ad == []
    && Validated(FieldsOf(d)).Ok?
  }

  lemma VersionRoundTrip(v: Version)
    ensures VersionFrom(VersionCode(v)) == Some(v)
  {
  }

  lemma VersionWas(n: nat)
    ensures VersionFrom(n).Some? ==> VersionCode(VersionFrom(n).value) == n
  {
  }

  /** Costs that pass the string's checks pass the builder's. */
  lemma BuildOfValidated(f: Fields)
    requires Validated(f).Ok?
    ensures |f.hash| <= 0xFFFF_FFFF
    ensures Build(f.memory, f.passes, f.lanes, Some(f.lanes), |f.hash|)
      == Ok(Costs(f.memory, f.passes, f.lanes, f.lanes, |f.hash|))
  {
  }

  lemma FinishIs(a: Algorithm, d: Decoded)
    requires IsRecord(d) && d.algorithm == a
    ensures Finish(a, FieldsOf(d), []) == Ok(d)
  {
    hide Build, ValidateInputs;
    VersionRoundTrip(d.version);
    BuildOfValidated(FieldsOf(d));
  }

  lemma FinishWas(a: Algorithm, f: Fields, rest: Text)
    ensures Finish(a, f, rest).Ok? ==>
      var d := Finish(a, f, rest).value; rest == [] && IsRecord(d) && d.algorithm == a && FieldsOf(d) == f
  {
    hide Build, ValidateInputs;
    if Finish(a, f, rest).Ok? {
      VersionWas(f.version);
      BuildOfValidated(f);
    }
  }

  lemma SizesOf(d: Decoded)
    requires IsRecord(d)
    ensures |d.salt| <= 0xFFFF_FFFF && |d.hash| <= 0xFFFF_FFFF
  {
  }

  /** A version field holds the version; without one the version is 16. */
  predicate Versioned(d: Decoded, versioned: bool) { versioned || d.version == V0x10 }

  /**
   The strict decoder yields a record exactly for its text, with the version field or, for version
   16, without it; as long as the text is shorter than 2^32 bytes.
   */
  lemma DecodeIsExact(src: Text, a: Algorithm, d: Decoded)
    ensures DecodeString(src, a) == Ok(d) <==>
      && |src| <= 0xFFFF_FFFF
      && d.algorithm == a && IsRecord(d)
      && Versioned(d, HasVersion(src, a))
      && src == Written(a, HasVersion(src, a), FieldsOf(d), [])
  {
    hide AllFields, Finish, Written, HasVersion, IsRecord;
    if DecodeString(src, a) == Ok(d) {
      AllFieldsWas(src, a);
      FinishWas(a, AllFields(src, a).value.0, AllFields(src, a).value.1);
    }
    if |src| <= 0xFFFF_FFFF && d.algorithm == a && IsRecord(d) && Versioned(d, HasVersion(src, a))
       && src == Written(a, HasVersion(src, a), FieldsOf(d), []) {
      SizesOf(d);
      AllFieldsIs(a, HasVersion(src, a), FieldsOf(d), []);
      FinishIs(a, d);
    }
  }

  lemma PrintedHasVersion(a: Algorithm, f: Fields)
    ensures HasVersion(Written(a, true, f, []), a)
  {
    hide Dec, HasVersion, WrittenCosts;
    var rest := V_FIELD + (Dec(f.version) + WrittenCosts(f, []));
    HasVersionIs(a, rest);
  }

  /**
   Decoding what was printed gives the record back, with threads equal to lanes, exactly when the
   text is shorter than 2^32 bytes: the encoder has no such limit, the decoder does.
   */
  lemma DecodeOfPrinted(d: Decoded)
    requires IsRecord(d)
    ensures var text := Written(d.algorithm, true, FieldsOf(d), []);
            DecodeString(text, d.algorithm) == if |text| <= 0xFFFF_FFFF then Ok(d) else Err(DecodingFail)
  {
    hide AllFields, Finish, Written, IsRecord, HasVersion;
    PrintedHasVersion(d.algorithm, FieldsOf(d));
    DecodeIsExact(Written(d.algorithm, true, FieldsOf(d), []), d.algorithm, d);
  }

  /** A record that is printed and not read back: its salt has 2^32 - 1 bytes, which the checks allow. */
  lemma LongSaltIsLost() returns (d: Decoded)
    ensures IsRecord(d) && |d.salt| == 0xFFFF_FFFF
    ensures |Written(d.algorithm, true, FieldsOf(d), [])| > 0xFFFF_FFFF
    ensures DecodeString(Written(d.algorithm, true, FieldsOf(d), []), d.algorithm) == Err(DecodingFail)
  {
    hide Written, DecodeString, Dec;
    var salt: seq<u8>, hash: seq<u8> := seq(0xFFFF_FFFF, i => 0), seq(32, i => 0);
    d := Decoded(Argon2id, V0x13, Costs(65536, 2, 1, 1, 32), salt, hash, []);
    assert B64Len(|salt|) == 5726623060;
    WrittenLength(d.algorithm, d.version, FieldsOf(d));
    DecodeOfPrinted(d);
  }

  /** Printing what was decoded from a text with a version field gives the text back, byte for byte. */
  lemma PrintOfDecoded(src: Text, a: Algorithm)
    requires DecodeString(src, a).Ok? && HasVersion(src, a)
    ensures Written(a, true, FieldsOf(DecodeString(src, a).value), []) == src
  {
    hide DecodeString, Written, HasVersion, IsRecord;
    DecodeIsExact(src, a, DecodeString(src, a).value);
  }

  /** Two records with one text are one record. */
  lemma TextDetermines(d1: Decoded, d2: Decoded)
    requires IsRecord(d1) && IsRecord(d2) && d1.algorithm == d2.algorithm
    requires Written(d1.algorithm, true, FieldsOf(d1), []) == Written(d2.algorithm, true, FieldsOf(d2), [])
    ensures d1 == d2
  {
    hide AllFields, Written;
    SizesOf(d1);
    SizesOf(d2);
    AllFieldsIs(d1.algorithm, true, FieldsOf(d1), []);
    AllFieldsIs(d2.algorithm, true, FieldsOf(d2), []);
    hide Validated;
    VersionRoundTrip(d1.version);
    VersionRoundTrip(d2.version);
  }

  /** A decodable text names one algorithm: `argon2i` does not accept an `argon2id` record. */
  lemma OneAlgorithm(src: Text, a: Algorithm, b: Algorithm)
    requires DecodeString(src, a).Ok? && DecodeString(src, b).Ok?
    ensures a == b
  {
    hide DecodeString, IsRecord, HasVersion, Dec, WrittenBinary;
    DecodeIsExact(src, a, DecodeString(src, a).value);
    DecodeIsExact(src, b, DecodeString(src, b).value);
    NameThenDollar(a, HasVersion(src, a), FieldsOf(DecodeString(src, a).value));
    NameThenDollar(b, HasVersion(src, b), FieldsOf(DecodeString(src, b).value));
  }

  lemma NameThenDollar(a: Algorithm, versioned: bool, f: Fields)
    ensures var src := Written(a, versioned, f, []);
            && |src| > 9 && src[7] == Name(a)[6]
            && src[8] == if a.Argon2id? then 100 else 36
  {
    hide Dec, WrittenBinary;
    var rest := WrittenVersion(versioned, f, []);
    assert |rest| >= 2 && rest[0] == 36;
  }

  // ---------------------------------------------------------------------------
  // decode_bounded
  // ---------------------------------------------------------------------------

  const BOUNDED_MAX_SALT_LEN: u32 := 1024

  /** `encoded_len` of the ceiling with the longest salt allowed. */
  function MaxEncoded(a: Algorithm, ceiling: Costs): nat {
    15 + |Name(a)| + |Dec(ceiling.passes)| + |Dec(ceiling.memory)| + |Dec(ceiling.lanes)|
    + B64Len(BOUNDED_MAX_SALT_LEN) + B64Len(ceiling.tagLen) + 3
  }

  function MinOf(a: u32, b: u32): (m: u32)
    ensures m <= a && m <= b && (m == a || m == b)
  {
    if a < b then a else b
  }

  /** `decode_bounded`. */
  function DecodeBounded(src: Text, a: Algorithm, ceiling: Costs): Result<Decoded> {
    if |src| > MaxEncoded(a, ceiling) then Err(DecodingLengthFail)
    else
      var d :- DecodeString(src, a);
      if d.params.tagLen > ceiling.tagLen then Err(OutputTooLong)
      else if d.params.memory > ceiling.memory then Err(MemoryTooMuch)
      else if d.params.passes > ceiling.passes then Err(TimeTooLarge)
      else if d.params.lanes > ceiling.lanes then Err(LanesTooMany)
      else
        var threads := MinOf(ceiling.threads, d.params.lanes);
        if threads == d.params.threads then Ok(d)
        else
          var costs :- Build(d.params.memory, d.params.passes, d.params.lanes, Some(threads), d.params.tagLen);
          Ok(d.(params := costs))
  }

  /** The record with no more threads than the ceiling's, and no more than its lanes. */
  function Clamped(d: Decoded, ceiling: Costs): Decoded {
    d.(params := d.params.(threads := MinOf(ceiling.threads, d.params.lanes)))
  }

  predicate Within(p: Costs, ceiling: Costs) {
    p.tagLen <= ceiling.tagLen && p.memory <= ceiling.memory && p.passes <= ceiling.passes && p.lanes <= ceiling.lanes
  }

  lemma StrictIsRecord(src: Text, a: Algorithm)
    requires DecodeString(src, a).Ok?
    ensures IsRecord(DecodeString(src, a).value)
  {
    hide DecodeString, Written, HasVersion, IsRecord;
    DecodeIsExact(src, a, DecodeString(src, a).value);
  }

  lemma BuildWithThreads(d: Decoded, threads: u32)
    requires IsRecord(d) && 1 <= threads <= d.params.lanes
    ensures Build(d.params.memory, d.params.passes, d.params.lanes, Some(threads), d.params.tagLen)
      == Ok(d.params.(threads := threads))
  {
  }

  /** Acceptance under a ceiling: the strict record, every cost within, threads clamped, all else unchanged. */
  lemma BoundedIsSound(src: Text, a: Algorithm, ceiling: Costs)
    requires Valid(ceiling) && DecodeBounded(src, a, ceiling).Ok?
    ensures DecodeString(src, a).Ok?
    ensures var d, b := DecodeString(src, a).value, DecodeBounded(src, a, ceiling).value;
            && Within(d.params, ceiling)
            && b == Clamped(d, ceiling)
            && |src| <= MaxEncoded(a, ceiling)
  {
    hide DecodeString, IsRecord, MaxEncoded, Build;
    StrictIsRecord(src, a);
    var d := DecodeString(src, a).value;
    assert 1 <= ceiling.threads && 1 <= d.params.lanes by { LanesOf(d); }
    BuildWithThreads(d, MinOf(ceiling.threads, d.params.lanes));
  }

  /** A readable record of allowed length is refused exactly when a cost exceeds, and the error names one that does. */
  lemma BoundedRefuses(src: Text, a: Algorithm, ceiling: Costs)
    requires Valid(ceiling) && DecodeString(src, a).Ok? && |src| <= MaxEncoded(a, ceiling)
    ensures var p, r := DecodeString(src, a).value.params, DecodeBounded(src, a, ceiling);
            && (r.Err? <==> !Within(p, ceiling))
            && (r.Err? ==> match r.error
                           case OutputTooLong => p.tagLen > ceiling.tagLen
                           case MemoryTooMuch => p.memory > ceiling.memory
                           case TimeTooLarge => p.passes > ceiling.passes
                           case LanesTooMany => p.lanes > ceiling.lanes
                           case _ => false)
  {
    hide DecodeString, IsRecord, MaxEncoded, Build;
    StrictIsRecord(src, a);
    var d := DecodeString(src, a).value;
    LanesOf(d);
    BuildWithThreads(d, MinOf(ceiling.threads, d.params.lanes));
  }

  lemma LanesOf(d: Decoded)
    requires IsRecord(d)
    ensures 1 <= d.params.lanes
  {
  }

  lemma B64LenGrows(a: nat, b: nat)
    requires a <= b
    ensures B64Len(a) <= B64Len(b)
  {
  }

  /** The length gate never turns away a record that fits the ceiling, with its version field or without. */
  lemma GateLetsThrough(a: Algorithm, versioned: bool, v: Version, f: Fields, ceiling: Costs)
    requires f.version == VersionCode(v) && |f.salt| <= BOUNDED_MAX_SALT_LEN && |f.hash| <= ceiling.tagLen
    requires f.memory <= ceiling.memory && f.passes <= ceiling.passes && f.lanes <= ceiling.lanes
    ensures |Written(a, versioned, f, [])| < MaxEncoded(a, ceiling)
  {
    hide Written, Dec, B64Len;
    WrittenLength(a, v, f);
    VersionIsOptional(a, versioned, f);
    DecGrows(f.passes, ceiling.passes);
    DecGrows(f.memory, ceiling.memory);
    DecGrows(f.lanes, ceiling.lanes);
    B64LenGrows(|f.salt|, BOUNDED_MAX_SALT_LEN);
    B64LenGrows(|f.hash|, ceiling.tagLen);
  }

  lemma VersionIsOptional(a: Algorithm, versioned: bool, f: Fields)
    ensures |Written(a, versioned, f, [])| <= |Written(a, true, f, [])|
  {
    hide WrittenCosts, Dec;
  }

  /** Every text the strict decoder reads, within the ceiling and with a salt of at most 1024 bytes, is accepted. */
  lemma BoundedIsComplete(src: Text, a: Algorithm, ceiling: Costs)
    requires Valid(ceiling) && DecodeString(src, a).Ok?
    requires var d := DecodeString(src, a).value; Within(d.params, ceiling) && |d.salt| <= 1024
    ensures var d := DecodeString(src, a).value;
            DecodeBounded(src, a, ceiling) == Ok(Clamped(d, ceiling))
  {
    hide DecodeString, Written, MaxEncoded, Build, HasVersion;
    var d := DecodeString(src, a).value;
    DecodeIsExact(src, a, d);
    GateLetsThrough(a, HasVersion(src, a), d.version, FieldsOf(d), ceiling);
    LanesOf(d);
    BuildWithThreads(d, MinOf(ceiling.threads, d.params.lanes));
  }

  /** Every such record, printed, is accepted, exactly when its text is shorter than 2^32 bytes. */
  lemma PrintedIsAccepted(d: Decoded, ceiling: Costs)
    requires Valid(ceiling) && IsRecord(d) && Within(d.params, ceiling) && |d.salt| <= BOUNDED_MAX_SALT_LEN
    ensures var text := Written(d.algorithm, true, FieldsOf(d), []);
            DecodeBounded(text, d.algorithm, ceiling)
            == if |text| <= 0xFFFF_FFFF then Ok(Clamped(d, ceiling)) else Err(DecodingFail)
  {
    hide DecodeString, Written, MaxEncoded, Build;
    GateLetsThrough(d.algorithm, true, d.version, FieldsOf(d), ceiling);
    DecodeOfPrinted(d);
    BuildWithThreads(d, MinOf(ceiling.threads, d.params.lanes));
  }
}
