/** Whole records: what the lenient decoder accepts, and what changes nothing. */
module PhcRecords {
  import opened Machine
  import opened Params
  import opened Base64
  import opened Base64Codec
  import opened Decimal
  import opened PhcText
  import opened PhcParser
  import opened PhcRoundTrip
  import opened PhcLenient
  import opened PhcFields

  // ---------------------------------------------------------------------------
  // The lenient decoder on written text
  // ---------------------------------------------------------------------------

  predicate NoDollar(text: Text) { forall i :: 0 <= i < |text| ==> text[i] != 36 }

  /** All of a record but its parameters; the version field may be left out. */
  datatype Frame = Frame(algorithm: Algorithm, version: Option<u32>, salt: seq<u8>, hash: seq<u8>)

  function VersionOf(r: Frame): u32 { if r.version.Some? then r.version.value else 16 }

  /** A record with its parameters as any text. */
  function RecordText(r: Frame, params: Text): Text {
    DOLLAR + (Name(r.algorithm) + FromVersion(r, params))
  }

  function FromVersion(r: Frame, params: Text): Text {
    if r.version.Some? then V_FIELD + (Dec(r.version.value) + FromParams(r, params)) else FromParams(r, params)
  }

  function FromParams(r: Frame, params: Text): Text { DOLLAR + (params + (DOLLAR + FromSalt(r))) }

  function FromSalt(r: Frame): Text { Encode(r.salt) + (DOLLAR + Encode(r.hash)) }

  const V_KEY: Text := [118]
  const V_PREFIX: Text := [118, 61]

  /** Without a version field, parameters that begin with `v=` are taken for one. */
  predicate Shadowed(r: Frame, params: Text) { r.version.None? && V_PREFIX <= params }

  lemma UpToDollarIs(text: Text, rest: Text)
    requires NoDollar(text)
    ensures UpToDollar(text + (DOLLAR + rest)) == Ok((text, DOLLAR + rest))
  {
    var src := text + (DOLLAR + rest);
    assert src[|text|] == 36;
    IndexIs(src, 36, |text|);
  }

  lemma EncodingHasNoDollar(b: seq<u8>)
    ensures NoDollar(Encode(b))
  {
    hide SextetAt;
  }

  lemma AfterVersionIs(a: Algorithm, version: u32, r: Frame, params: Text)
    requires NoDollar(params)
    ensures AfterVersion(a, version, FromParams(r, params)) == Read(a, version, r, params)
  {
    hide Expected, UpToDollar, ParamsOf, DecodeAll, FinishPhc, Encode, NoDollar;
    ParamsErrors(params);
    ExpectedIs(DOLLAR, params + (DOLLAR + FromSalt(r)));
    UpToDollarIs(params, FromSalt(r));
    ExpectedIs(DOLLAR, FromSalt(r));
    EncodingHasNoDollar(r.salt);
    UpToDollarIs(Encode(r.salt), Encode(r.hash));
    DecodeAllInverts(Encode(r.salt), r.salt);
    ExpectedIs(DOLLAR, Encode(r.hash));
    DecodeAllInverts(Encode(r.hash), r.hash);
  }

  lemma Differs(prefix: Text, src: Text, i: nat)
    requires i < |prefix| && i < |src| && prefix[i] != src[i]
    ensures !(prefix <= src)
  {
  }

  lemma NamedIs(a: Algorithm, rest: Text)
    requires |rest| > 0 && rest[0] == 36
    ensures NamedAlgorithm(Name(a) + rest) == Ok((a, rest))
  {
    var src := Name(a) + rest;
    match a
    case Argon2id =>
      assert src[8..] == rest;
    case Argon2i =>
      assert src[7..] == rest;
      Differs(Name(Argon2id), src, 7);
    case Argon2d =>
      assert src[7..] == rest;
      Differs(Name(Argon2id), src, 6);
      Differs(Name(Argon2i), src, 6);
  }

  /** The text of a version field is told from the parameters by its first three bytes. */
  lemma VersionFieldOrParams(r: Frame, params: Text)
    ensures var t := FromParams(r, params); |t| > 1 && t[0] == 36 && (V_FIELD <= t <==> V_PREFIX <= params)
  {
    hide FromSalt;
    var t := FromParams(r, params);
    if |params| == 0 {
      assert t[1] == 36;
    } else {
      assert t[1] == params[0];
      assert |params| > 1 ==> t[2] == params[1];
      assert |params| == 1 ==> t[2] == 36;
    }
  }

  /** What parameters without `$` lead to, once the version has been read. */
  function Read(a: Algorithm, version: u32, r: Frame, params: Text): Result<Decoded> {
    if ParamsOf(params).Ok? then FinishPhc(a, version, ParamsOf(params).value, r.salt, r.hash) else Err(DecodingFail)
  }

  lemma {:induction false} TakeAllErrors(rest: Text, s: Found)
    ensures TakeAll(rest, s).Err? ==> TakeAll(rest, s) == Err(DecodingFail)
    decreases |rest|
  {
    hide ParamU32, DecodeAll;
    var i := IndexOf(rest, COMMA);
    var field := rest[..i];
    var e := IndexOf(field, EQUALS);
    if e < |field| {
      ErrorsAreAlike(field[e + 1..]);
      var taken := Take(s, field[..e], field[e + 1..]);
      if taken.Ok? && i < |rest| - 1 {
        TakeAllErrors(rest[i + 1..], taken.value);
      }
    }
  }

  lemma ParamsErrors(params: Text)
    ensures ParamsOf(params).Err? ==> ParamsOf(params) == Err(DecodingFail)
  {
    hide TakeAll;
    TakeAllErrors(params, NOTHING);
  }

  // ---------------------------------------------------------------------------
  // A parameter taken for the version
  // ---------------------------------------------------------------------------

  lemma NoEqualsNoParams(text: Text)
    requires forall i :: 0 <= i < |text| ==> text[i] != EQUALS
    ensures ParamsOf(text) == Err(DecodingFail)
  {
    if |text| > 0 {
      var field := text[..IndexOf(text, COMMA)];
      IndexIs(field, EQUALS, |field|);
    }
  }

  lemma EncodingHasNoEquals(b: seq<u8>)
    ensures forall i :: 0 <= i < |Encode(b)| ==> Encode(b)[i] != EQUALS
  {
    hide SextetAt;
  }

  /** What follows a number up to a `$` starts with the `$` only if the number is all there is before it. */
  lemma NumberThenDollar(n: u32, rest: Text, text: Text, more: Text)
    requires NoDollar(text) && Dec(n) + rest == text + (DOLLAR + more) && DOLLAR <= rest
    ensures rest == DOLLAR + more
  {
    hide Dec;
    var src, src' := Dec(n) + rest, text + (DOLLAR + more);
    assert src[|Dec(n)|] == rest[0] == 36;
    assert src'[|text|] == 36;
    IndexIs(src, 36, |Dec(n)|);
    IndexIs(src', 36, |text|);
    assert src[|Dec(n)|..] == rest && src'[|text|..] == DOLLAR + more;
  }

  /** The salt is not a list of parameters. */
  lemma SaltIsNoParams(a: Algorithm, version: u32, r: Frame)
    ensures AfterVersion(a, version, DOLLAR + FromSalt(r)) == Err(DecodingFail)
  {
    hide Expected, UpToDollar, ParamsOf, DecodeAll, FinishPhc, Encode, NoDollar;
    ExpectedIs(DOLLAR, FromSalt(r));
    EncodingHasNoDollar(r.salt);
    UpToDollarIs(Encode(r.salt), Encode(r.hash));
    EncodingHasNoEquals(r.salt);
    NoEqualsNoParams(Encode(r.salt));
  }

  /** A record whose parameters are taken for a version is refused, whatever they are. */
  lemma ShadowedFails(a: Algorithm, r: Frame, params: Text)
    requires NoDollar(params) && V_PREFIX <= params
    ensures var version := VersionField(FromParams(r, params));
            version == Err(DecodingFail)
            || (version.Ok? && AfterVersion(a, version.value.0, version.value.1) == Err(DecodingFail))
  {
    hide Number, UpToDollar, ParamsOf, DecodeAll, FinishPhc, Dec, FromSalt;
    var text, more := params[2..], FromSalt(r);
    var src := text + (DOLLAR + more);
    assert params == V_PREFIX + text;
    assert FromParams(r, params) == V_FIELD + src;
    assert (V_FIELD + src)[|V_FIELD|..] == src;
    NumberErrors(src);
    if Number(src).Ok? {
      var n, rest := Number(src).value.0, Number(src).value.1;
      NumberWas(src);
      if DOLLAR <= rest {
        NumberThenDollar(n, rest, text, more);
        SaltIsNoParams(a, n, r);
      }
    }
  }

  lemma NumberErrors(src: Text)
    ensures Number(src).Err? ==> Number(src) == Err(DecodingFail)
  {
    hide DecimalOf;
  }

  /** The lenient decoder on any record whose parameters hold no `$`. */
  lemma DecodePhcIs(r: Frame, params: Text)
    requires NoDollar(params)
    ensures DecodePhc(RecordText(r, params)) ==
      if |RecordText(r, params)| > 0xFFFF_FFFF || Shadowed(r, params) then Err(DecodingFail)
      else Read(r.algorithm, VersionOf(r), r, params)
  {
    hide Expected, NamedAlgorithm, Number, AfterVersion, Read, Dec, NoDollar, Name, FromParams;
    VersionFieldOrParams(r, params);
    var rest := FromVersion(r, params);
    assert rest[0] == 36;
    ExpectedIs(DOLLAR, Name(r.algorithm) + rest);
    NamedIs(r.algorithm, rest);
    AfterVersionIs(r.algorithm, VersionOf(r), r, params);
    if r.version.Some? {
      NumberIs(r.version.value, FromParams(r, params));
      assert rest[|V_FIELD|..] == Dec(r.version.value) + FromParams(r, params);
    } else if V_PREFIX <= params {
      ShadowedFails(r.algorithm, r, params);
    }
  }

  /** Parameters that read the same, neither taken for a version, decode the same. */
  lemma SameParamsSameRecord(r: Frame, params1: Text, params2: Text)
    requires NoDollar(params1) && NoDollar(params2) && ParamsOf(params1) == ParamsOf(params2)
    requires Shadowed(r, params1) == Shadowed(r, params2)
    requires |RecordText(r, params1)| <= 0xFFFF_FFFF && |RecordText(r, params2)| <= 0xFFFF_FFFF
    ensures DecodePhc(RecordText(r, params1)) == DecodePhc(RecordText(r, params2))
  {
    hide DecodePhc, RecordText, ParamsOf, FinishPhc;
    DecodePhcIs(r, params1);
    DecodePhcIs(r, params2);
  }

  // ---------------------------------------------------------------------------
  // What is accepted
  // ---------------------------------------------------------------------------

  /** A record with parameters that read, and what it decodes to. */
  ghost predicate Reads(src: Text, r: Frame, params: Text, d: Decoded) {
    && src == RecordText(r, params) && NoDollar(params) && !Shadowed(r, params)
    && Read(r.algorithm, VersionOf(r), r, params) == Ok(d)
  }

  lemma UpToDollarWas(rest: Text)
    requires UpToDollar(rest).Ok?
    ensures NoDollar(UpToDollar(rest).value.0) && rest == UpToDollar(rest).value.0 + UpToDollar(rest).value.1
  {
  }

  lemma NamedWas(rest: Text)
    requires NamedAlgorithm(rest).Ok?
    ensures rest == Name(NamedAlgorithm(rest).value.0) + NamedAlgorithm(rest).value.1
  {
  }

  lemma AfterVersionWas(a: Algorithm, version: u32, rest: Text) returns (params: Text, salt: seq<u8>, hash: seq<u8>)
    requires AfterVersion(a, version, rest).Ok?
    ensures forall v :: var r := Frame(a, v, salt, hash);
              && rest == FromParams(r, params) && NoDollar(params)
              && Read(a, version, r, params) == AfterVersion(a, version, rest)
  {
    hide Expected, UpToDollar, ParamsOf, DecodeAll, FinishPhc, Encode, NoDollar;
    var r1 := Expected(rest, DOLLAR).value;
    var p := UpToDollar(r1).value;
    var r2 := Expected(p.1, DOLLAR).value;
    var s := UpToDollar(r2).value;
    var r3 := Expected(s.1, DOLLAR).value;
    ExpectedWas(rest, DOLLAR);
    UpToDollarWas(r1);
    ExpectedWas(p.1, DOLLAR);
    UpToDollarWas(r2);
    ExpectedWas(s.1, DOLLAR);
    params, salt, hash := p.0, DecodeAll(s.0).value, DecodeAll(r3).value;
    DecodeAllInverts(s.0, salt);
    DecodeAllInverts(r3, hash);
  }

  lemma AcceptedIsRecord(src: Text, d: Decoded) returns (r: Frame, params: Text)
    requires DecodePhc(src) == Ok(d)
    ensures Reads(src, r, params, d)
  {
    hide Expected, NamedAlgorithm, VersionField, AfterVersion, FromParams, Read, NoDollar, Name, Dec;
    var r1 := Expected(src, DOLLAR).value;
    var named := NamedAlgorithm(r1).value;
    var version := VersionField(named.1).value;
    ExpectedWas(src, DOLLAR);
    NamedWas(r1);
    VersionFieldWas(named.1);
    var salt, hash;
    params, salt, hash := AfterVersionWas(named.0, version.0, version.1);
    r := Frame(named.0, if V_FIELD <= named.1 then Some(version.0) else None, salt, hash);
    VersionFieldOrParams(r, params);
  }

  /** The lenient decoder accepts exactly the records whose parameters read and are not taken for a version. */
  lemma DecodePhcIsExact(src: Text, d: Decoded)
    ensures DecodePhc(src) == Ok(d) <==> |src| <= 0xFFFF_FFFF && exists r, params :: Reads(src, r, params, d)
  {
    hide RecordText, Shadowed, Read, NoDollar;
    if DecodePhc(src) == Ok(d) {
      var r, params := AcceptedIsRecord(src, d);
    }
    hide DecodePhc;
    if |src| <= 0xFFFF_FFFF && exists r, params :: Reads(src, r, params, d) {
      var r, params :| Reads(src, r, params, d);
      DecodePhcIs(r, params);
    }
  }

  // ---------------------------------------------------------------------------
  // Records with a list of fields
  // ---------------------------------------------------------------------------

  /** A field that can stand in a record. */
  predicate Writable(f: Field) { Separable(f) && NoDollar(f.key) && NoDollar(f.value) }

  function Framed(r: Frame, fs: seq<Field>): Text
    requires |fs| >= 1
  {
    RecordText(r, Joined(fs))
  }

  lemma {:induction false} JoinedHasNoDollar(fs: seq<Field>)
    requires |fs| >= 1 && forall i :: 0 <= i < |fs| ==> Writable(fs[i])
    ensures NoDollar(Joined(fs))
  {
    if |fs| > 1 {
      JoinedHasNoDollar(fs[1..]);
    }
  }

  /** Only a first field with the key `v` is taken for the version, not one whose key merely begins so. */
  lemma JoinedStarts(fs: seq<Field>)
    requires |fs| >= 1 && Separable(fs[0])
    ensures V_PREFIX <= Joined(fs) <==> fs[0].key == V_KEY
  {
    var text, key := Joined(fs), fs[0].key;
    assert FieldText(fs[0]) <= text;
    assert text[|key|] == EQUALS && forall i :: 0 <= i < |key| ==> text[i] == key[i];
    if V_PREFIX <= text {
      assert text[0] == 118 && text[1] == EQUALS;
      assert |key| == 1 && key[0] == 118;
    }
  }

  lemma AcceptedIsReadable(fs: seq<Field>)
    requires |fs| >= 1 && (forall i :: 0 <= i < |fs| ==> Separable(fs[i])) && ParamsOf(Joined(fs)).Ok?
    ensures forall i :: 0 <= i < |fs| ==> Readable(fs[i])
  {
    hide TakeAll, TakeFields, Separable, Readable, Joined, Summary;
    JoinedIsTaken(fs, NOTHING);
    FieldsAreSummed(fs);
  }

  lemma FramedIs(r: Frame, fs: seq<Field>)
    requires |fs| >= 1 && forall i :: 0 <= i < |fs| ==> Writable(fs[i])
    ensures DecodePhc(Framed(r, fs)) ==
      if |Framed(r, fs)| > 0xFFFF_FFFF || (r.version.None? && fs[0].key == V_KEY) then Err(DecodingFail)
      else Read(r.algorithm, VersionOf(r), r, Joined(fs))
  {
    hide DecodePhc, RecordText, Read, Joined;
    assert Separable(fs[0]);
    hide Separable;
    JoinedHasNoDollar(fs);
    JoinedStarts(fs);
    DecodePhcIs(r, Joined(fs));
  }

  /**
   An unknown key with any value, put anywhere into a record that decodes, keeps the record if and only
   if the text stays below 2^32 bytes and the key is not `v` at the front of a record without a version.
   */
  lemma UnknownFieldKeepsRecord(r: Frame, fs: seq<Field>, f: Field, gs: seq<Field>)
    requires |fs + gs| >= 1 && forall i :: 0 <= i < |fs + gs| ==> Writable((fs + gs)[i])
    requires !Known(f.key) && Writable(f) && DecodePhc(Framed(r, fs + gs)).Ok?
    ensures |fs + [f] + gs| >= 1
    ensures DecodePhc(Framed(r, fs + [f] + gs)) ==
      if |Framed(r, fs + [f] + gs)| > 0xFFFF_FFFF || (r.version.None? && |fs| == 0 && f.key == V_KEY)
      then Err(DecodingFail)
      else DecodePhc(Framed(r, fs + gs))
  {
    hide DecodePhc, Framed, Joined, ParamsOf, FinishPhc, Known, Readable, Separable, NoDollar;
    var more := fs + [f] + gs;
    forall i | 0 <= i < |more|
      ensures Writable(more[i])
    {
      assert i < |fs| ==> more[i] == (fs + gs)[i];
      assert i > |fs| ==> more[i] == (fs + gs)[i - 1];
    }
    FramedIs(r, fs + gs);
    FramedIs(r, more);
    assert |fs| > 0 ==> more[0] == (fs + gs)[0];
    AcceptedIsReadable(fs + gs);
    UnknownKeysAreIgnored(fs, f, gs);
  }

  /** Any order of the same fields keeps the record if and only if it does not begin with `v` where no version does. */
  lemma PermutedFieldsKeepRecord(r: Frame, fs: seq<Field>, gs: seq<Field>)
    requires |fs| >= 1 && multiset(fs) == multiset(gs) && Distinct(fs)
    requires (forall i :: 0 <= i < |fs| ==> Writable(fs[i])) && DecodePhc(Framed(r, fs)).Ok?
    ensures |gs| >= 1
    ensures DecodePhc(Framed(r, gs)) ==
      if r.version.None? && gs[0].key == V_KEY then Err(DecodingFail) else DecodePhc(Framed(r, fs))
  {
    hide DecodePhc, Joined, ParamsOf, FinishPhc, Readable, Separable, NoDollar, Distinct;
    assert |multiset(fs)| == |multiset(gs)|;
    forall i | 0 <= i < |gs|
      ensures Writable(gs[i])
    {
      assert gs[i] in multiset(gs);
      assert gs[i] in fs;
    }
    FramedIs(r, fs);
    FramedIs(r, gs);
    JoinedLength(r, fs, gs);
    AcceptedIsReadable(fs);
    PermutationsAgree(fs, gs);
  }

  function TotalLength(fs: seq<Field>): nat {
    if |fs| == 0 then 0 else |FieldText(fs[0])| + TotalLength(fs[1..])
  }

  lemma {:induction false} TotalAppends(fs: seq<Field>, gs: seq<Field>)
    ensures TotalLength(fs + gs) == TotalLength(fs) + TotalLength(gs)
  {
    hide FieldText;
    if |fs| == 0 {
      assert fs + gs == gs;
    } else {
      assert (fs + gs)[1..] == fs[1..] + gs;
      TotalAppends(fs[1..], gs);
    }
  }

  lemma WithoutOne(fs: seq<Field>, before: seq<Field>, x: Field, after: seq<Field>)
    requires |fs| > 0 && fs[0] == x && multiset(fs) == multiset(before + ([x] + after))
    ensures multiset(fs[1..]) == multiset(before + after)
  {
    assert fs == [x] + fs[1..];
    assert multiset(fs) == multiset{x} + multiset(fs[1..]);
    assert multiset(before + ([x] + after)) == multiset(before) + (multiset{x} + multiset(after));
    assert multiset(before + after) == multiset(before) + multiset(after);
    assert multiset{x} + multiset(fs[1..]) == multiset{x} + multiset(before + after);
    forall f: Field
      ensures multiset(fs[1..])[f] == multiset(before + after)[f]
    {
      assert (multiset{x} + multiset(fs[1..]))[f] == multiset{x}[f] + multiset(fs[1..])[f];
      assert (multiset{x} + multiset(before + after))[f] == multiset{x}[f] + multiset(before + after)[f];
    }
  }

  lemma {:induction false} TotalPermuted(fs: seq<Field>, gs: seq<Field>)
    requires multiset(fs) == multiset(gs)
    ensures TotalLength(fs) == TotalLength(gs)
  {
    hide FieldText;
    if |fs| == 0 {
      assert |multiset(gs)| == 0;
    } else {
      assert fs[0] in multiset(gs);
      var i :| 0 <= i < |gs| && gs[i] == fs[0];
      var before, after := gs[..i], gs[i + 1..];
      assert gs == before + ([gs[i]] + after);
      WithoutOne(fs, before, gs[i], after);
      TotalPermuted(fs[1..], before + after);
      TotalAppends(before, after);
      TotalAppends(before, [gs[i]] + after);
      assert ([gs[i]] + after)[1..] == after;
    }
  }

  lemma {:induction false} JoinedTotal(fs: seq<Field>)
    requires |fs| >= 1
    ensures |Joined(fs)| == TotalLength(fs) + |fs| - 1
  {
    hide FieldText;
    if |fs| > 1 {
      JoinedTotal(fs[1..]);
    } else {
      assert TotalLength(fs[1..]) == 0;
    }
  }

  lemma JoinedLength(r: Frame, fs: seq<Field>, gs: seq<Field>)
    requires |fs| >= 1 && |gs| == |fs| && multiset(fs) == multiset(gs)
    ensures |Framed(r, gs)| == |Framed(r, fs)|
  {
    hide Joined, Encode, Dec, Name;
    TotalPermuted(fs, gs);
    JoinedTotal(fs);
    JoinedTotal(gs);
  }

  // ---------------------------------------------------------------------------
  // Where an unknown key is not ignored
  // ---------------------------------------------------------------------------

  /** Version 16, left out; 65536 KiB, two passes, one lane. */
  const LEGACY: Frame := Frame(Argon2i, None, seq(8, i => 1), seq(32, i => 2))
  const LEGACY_FIELDS: Fields := Fields(16, 65536, 2, 1, seq(8, i => 1), seq(32, i => 2))

  /** A record that decodes, and does not with `v=1,` before its parameters. */
  lemma VersionKeyIsNotIgnored()
    ensures DecodePhc(Framed(LEGACY, StrictFields(LEGACY_FIELDS))).Ok?
    ensures DecodePhc(Framed(LEGACY, [Field(V_KEY, [49])] + StrictFields(LEGACY_FIELDS))) == Err(DecodingFail)
  {
    hide DecodePhc, Joined, ParamsOf, Separable, Readable, NoDollar, Known, StrictFields;
    var fs, f := StrictFields(LEGACY_FIELDS), Field(V_KEY, [49]);
    LegacyDecodes();
    StrictWritable(LEGACY_FIELDS);
    VersionIsUnknown();
    assert [] + fs == fs && [] + [f] + fs == [f] + fs;
    UnknownFieldKeepsRecord(LEGACY, [], f, fs);
  }

  lemma VersionIsUnknown()
    ensures !Known(V_KEY) && Writable(Field(V_KEY, [49]))
  {
    assert V_KEY[0] == 118 && M_KEY[0] == 109 && T_KEY[0] == 116 && P_KEY[0] == 112 && |DATA_KEY| == 4;
  }

  lemma LegacyDecodes()
    ensures |StrictFields(LEGACY_FIELDS)| >= 1
    ensures DecodePhc(Framed(LEGACY, StrictFields(LEGACY_FIELDS))).Ok?
  {
    hide DecodePhc, Framed, Joined, ParamsOf, NoDollar;
    var fs := StrictFields(LEGACY_FIELDS);
    StrictWritable(LEGACY_FIELDS);
    FramedIs(LEGACY, fs);
    StrictParamsRead(LEGACY_FIELDS);
    StrictJoined(LEGACY_FIELDS);
    LegacyIsShort();
    assert FinishPhc(Argon2i, 16, (65536, 2, 1, []), LEGACY.salt, LEGACY.hash).Ok?;
  }

  lemma LegacyIsShort()
    ensures |Framed(LEGACY, StrictFields(LEGACY_FIELDS))| <= 0xFFFF_FFFF
  {
    hide Dec, Encode;
    StrictJoined(LEGACY_FIELDS);
    TenDigits(65536);
    TenDigits(2);
    TenDigits(1);
  }

  // ---------------------------------------------------------------------------
  // It extends the strict decoder
  // ---------------------------------------------------------------------------

  /** The parameters the strict decoder reads. */
  function StrictFields(f: Fields): (fs: seq<Field>)
    ensures |fs| == 3 && fs[0].key == M_KEY
  {
    [Field(M_KEY, Dec(f.memory)), Field(T_KEY, Dec(f.passes)), Field(P_KEY, Dec(f.lanes))]
  }

  function StrictParams(f: Fields): Text {
    M_KEY + [EQUALS] + Dec(f.memory) + [COMMA]
    + (T_KEY + [EQUALS] + Dec(f.passes) + [COMMA] + (P_KEY + [EQUALS] + Dec(f.lanes)))
  }

  lemma StrictJoined(f: Fields)
    ensures Joined(StrictFields(f)) == StrictParams(f)
  {
    hide Dec;
    var fs := StrictFields(f);
    assert fs[1..] == [fs[1], fs[2]];
    assert fs[1..][1..] == [fs[2]];
    assert Joined(fs[1..][1..]) == FieldText(fs[2]);
    assert Joined(fs[1..]) == FieldText(fs[1]) + [COMMA] + FieldText(fs[2]);
  }

  lemma DecimalField(key: Text, n: u32)
    requires key == M_KEY || key == T_KEY || key == P_KEY
    ensures Writable(Field(key, Dec(n))) && Readable(Field(key, Dec(n))) && ParamU32(Dec(n)) == Ok(n)
  {
    hide DecimalOf;
    assert Dec(n) + [] == Dec(n);
    DecimalOfDec(n, []);
  }

  lemma StrictWritable(f: Fields)
    ensures forall i :: 0 <= i < |StrictFields(f)| ==> Writable(StrictFields(f)[i]) && Readable(StrictFields(f)[i])
  {
    hide Dec, Writable, Readable;
    DecimalField(M_KEY, f.memory);
    DecimalField(T_KEY, f.passes);
    DecimalField(P_KEY, f.lanes);
  }

  lemma StrictParamsRead(f: Fields)
    ensures ParamsOf(Joined(StrictFields(f))) == Ok((f.memory, f.passes, f.lanes, []))
  {
    hide StrictFields, ParamsOf, Joined, Separable, Readable, NoDollar, Last, Summary;
    var fs := StrictFields(f);
    StrictWritable(f);
    OrderDoesNotMatter(fs, fs);
    StrictSummary(f);
  }

  lemma KeysDiffer()
    ensures M_KEY != T_KEY && M_KEY != P_KEY && T_KEY != P_KEY
    ensures M_KEY != DATA_KEY && T_KEY != DATA_KEY && P_KEY != DATA_KEY
  {
    assert M_KEY[0] != T_KEY[0] && M_KEY[0] != P_KEY[0] && T_KEY[0] != P_KEY[0];
    assert |DATA_KEY| == 4;
  }

  /** The last value of each key of three fields with keys of their own. */
  lemma LastOfThree(a: Field, b: Field, c: Field, key: Text)
    requires a.key != b.key && a.key != c.key && b.key != c.key
    ensures Last([a, b, c], key) ==
      if key == a.key then Some(a.value) else if key == b.key then Some(b.value)
      else if key == c.key then Some(c.value) else None
  {
    assert [a, b, c][..2] == [a, b];
    assert [a, b][..1] == [a];
    assert [a][..0] == [];
    assert Last([a], key) == if key == a.key then Some(a.value) else None;
    assert Last([a, b], key) == if key == b.key then Some(b.value) else Last([a], key);
  }

  lemma StrictSummary(f: Fields)
    ensures Summary(StrictFields(f)) == Found(Some(f.memory), Some(f.passes), Some(f.lanes), [])
  {
    hide Dec, ParamU32, DecodeAll, Last, Writable, Readable;
    DecimalField(M_KEY, f.memory);
    DecimalField(T_KEY, f.passes);
    DecimalField(P_KEY, f.lanes);
    KeysDiffer();
    var fs := StrictFields(f);
    LastOfThree(fs[0], fs[1], fs[2], M_KEY);
    LastOfThree(fs[0], fs[1], fs[2], T_KEY);
    LastOfThree(fs[0], fs[1], fs[2], P_KEY);
    LastOfThree(fs[0], fs[1], fs[2], DATA_KEY);
  }

  /** The frame of a strict record. */
  function StrictFrame(a: Algorithm, versioned: bool, f: Fields): Frame {
    Frame(a, if versioned then Some(f.version) else None, f.salt, f.hash)
  }

  lemma WrittenIsFramed(a: Algorithm, versioned: bool, f: Fields)
    ensures Written(a, versioned, f, []) == Framed(StrictFrame(a, versioned, f), StrictFields(f))
  {
    hide Dec, Encode, WrittenCosts, FromParams, Joined, StrictFields;
    StrictJoined(f);
    CostsAreParams(StrictFrame(a, versioned, f), f);
  }

  lemma CostsAreParams(r: Frame, f: Fields)
    requires r.salt == f.salt && r.hash == f.hash
    ensures WrittenCosts(f, []) == FromParams(r, StrictParams(f))
  {
    hide Dec, Encode;
    var b := WrittenBinary(f, []);
    assert Encode(f.hash) + [] == Encode(f.hash);
    assert b == DOLLAR + FromSalt(r);
    hide WrittenBinary, FromSalt;
    assert M_FIELD == DOLLAR + (M_KEY + [EQUALS]);
    assert T_FIELD == [COMMA] + (T_KEY + [EQUALS]) && P_FIELD == [COMMA] + (P_KEY + [EQUALS]);
    var m, t, p := Dec(f.memory), Dec(f.passes), Dec(f.lanes);
    var last := P_KEY + [EQUALS] + p;
    var middle := T_KEY + [EQUALS] + t + [COMMA] + last;
    assert P_FIELD + (p + b) == [COMMA] + (last + b);
    assert T_FIELD + (t + ([COMMA] + (last + b))) == [COMMA] + (middle + b);
    assert M_FIELD + (m + ([COMMA] + (middle + b))) == DOLLAR + (M_KEY + [EQUALS] + m + [COMMA] + middle + b);
    assert StrictParams(f) == M_KEY + [EQUALS] + m + [COMMA] + middle;
  }

  lemma FinishPhcIs(d: Decoded)
    requires IsRecord(d)
    ensures FinishPhc(d.algorithm, VersionCode(d.version), (d.params.memory, d.params.passes, d.params.lanes, []),
                      d.salt, d.hash) == Ok(d)
  {
    hide Build, ValidateInputs;
    VersionRoundTrip(d.version);
    BuildOfValidated(FieldsOf(d));
  }

  /** Whatever the strict decoder accepts the lenient one accepts, with the same record. */
  lemma LenientExtendsStrict(src: Text, a: Algorithm)
    requires DecodeString(src, a).Ok?
    ensures DecodePhc(src) == DecodeString(src, a)
  {
    hide DecodeString, DecodePhc, Written, Framed, IsRecord, HasVersion, NoDollar, FinishPhc, ParamsOf, Separable,
         Readable, Joined, StrictFields;
    var d := DecodeString(src, a).value;
    DecodeIsExact(src, a, d);
    var f := FieldsOf(d);
    WrittenIsFramed(a, HasVersion(src, a), f);
    StrictParamsRead(f);
    StrictWritable(f);
    MemoryIsNotVersion();
    FramedIs(StrictFrame(a, HasVersion(src, a), f), StrictFields(f));
    FinishPhcIs(d);
  }

  lemma MemoryIsNotVersion()
    ensures M_KEY != V_KEY
  {
    assert M_KEY[0] != V_KEY[0];
  }
}
