/** PHC strings, Base64 and decimals, character by character, against strings written out. */
module Spelling {
  import opened Machine
  import opened Params
  import opened Base64
  import opened Base64Codec
  import opened Decimal
  import opened PhcText
  import opened PhcWriter
  import opened PhcParser
  import opened PhcRoundTrip
  import opened PhcLenient
  import opened PhcFields
  import opened PhcRecords

  /** Bytes that are the characters of a string. */
  predicate Spells(b: Text, s: string) { |b| == |s| && forall i :: 0 <= i < |b| ==> b[i] == s[i] as int }

  predicate Begins(b: Text, s: string) { |s| <= |b| && forall i :: 0 <= i < |s| ==> b[i] == s[i] as int }

  lemma SpellsJoin(b: Text, s: string, c: Text, t: string)
    requires Spells(b, s) && Spells(c, t)
    ensures Spells(b + c, s + t)
  {
  }

  lemma BeginsWith(b: Text, s: string, rest: Text)
    requires Spells(b, s)
    ensures Begins(b + rest, s)
  {
  }

  // ---------------------------------------------------------------------------
  // Digits and characters
  // ---------------------------------------------------------------------------

  /** Decimal, most significant digit first. */
  lemma DigitsAre(n: nat)
    ensures n < 10 ==> Spells(Dec(n), ["0123456789"[n]])
    ensures n >= 10 ==> Dec(n) == Dec(n / 10) + Dec(n % 10)
  {
  }

  /** Table 1 of RFC 4648. */
  lemma AlphabetIs(v: nat)
    requires v < 64
    ensures v < 26 ==> Alphabet(v) == 'A' as int + v
    ensures 26 <= v < 52 ==> Alphabet(v) == 'a' as int + (v - 26)
    ensures 52 <= v < 62 ==> Alphabet(v) == '0' as int + (v - 52)
    ensures v == 62 ==> Alphabet(v) == '+' as int
    ensures v == 63 ==> Alphabet(v) == '/' as int
  {
  }

  lemma EncodesTo(src: seq<u8>, s: string)
    requires |s| == B64Len(|src|)
    requires forall j :: 0 <= j < |s| ==> s[j] as int == Alphabet(SextetAt(src, j))
    ensures Spells(Encode(src), s)
  {
    hide SextetAt, Alphabet;
  }

  lemma OneLetter()
    ensures Spells(Encode([0x66]), "Zg")
  {
    EncodesTo([0x66], "Zg");
  }

  lemma TwoLetters()
    ensures Spells(Encode([0x66, 0x6F]), "Zm8")
  {
    EncodesTo([0x66, 0x6F], "Zm8");
  }

  lemma SixLetters()
    ensures Spells(Encode([0x66, 0x6F, 0x6F, 0x62, 0x61, 0x72]), "Zm9vYmFy")
  {
    EncodesTo([0x66, 0x6F, 0x6F, 0x62, 0x61, 0x72], "Zm9vYmFy");
  }

  /** Of the test vectors of section 10 of RFC 4648: "f", "fo" and "foobar". */
  lemma Foobar()
    ensures Spells(Encode([0x66]), "Zg")
    ensures Spells(Encode([0x66, 0x6F]), "Zm8")
    ensures Spells(Encode([0x66, 0x6F, 0x6F, 0x62, 0x61, 0x72]), "Zm9vYmFy")
  {
    hide Encode, Spells;
    OneLetter();
    TwoLetters();
    SixLetters();
  }

  /** The one error of each half of the codec. */
  lemma ErrorsAre(src: seq<u8>, room: nat)
    ensures DecodeResult(src, room).Err? ==> DecodeResult(src, room) == Err(DecodingFail)
    ensures DecodeAll(src).Err? ==> DecodeAll(src) == Err(DecodingFail)
    ensures PrintResult(src, room) == if |src| < room then Ok(|src|) else Err(EncodingFail)
  {
    hide Run, Canonical;
  }

  // ---------------------------------------------------------------------------
  // What is printed
  // ---------------------------------------------------------------------------

  function AlgorithmString(a: Algorithm): string {
    match a
    case Argon2d => "$argon2d"
    case Argon2i => "$argon2i"
    case Argon2id => "$argon2id"
  }

  function VersionString(v: Version): string {
    match v
    case V0x10 => "$v=16"
    case V0x13 => "$v=19"
  }

  lemma StringsAre()
    ensures AlgorithmString(Argon2d) == "$argon2d" && AlgorithmString(Argon2i) == "$argon2i"
    ensures AlgorithmString(Argon2id) == "$argon2id" && VersionString(V0x10) == "$v=16"
    ensures VersionString(V0x13) == "$v=19"
  {
  }

  lemma NameIs(a: Algorithm)
    ensures Spells(DOLLAR + Name(a), AlgorithmString(a))
  {
  }

  lemma VersionIs(v: Version)
    ensures Spells(V_FIELD + Dec(VersionCode(v)), VersionString(v))
  {
    DigitsAre(VersionCode(v));
    DigitsAre(1);
    DigitsAre(if v.V0x10? then 6 else 9);
    hide Dec;
  }

  lemma FieldsAre()
    ensures Spells(M_FIELD, "$m=") && Spells(T_FIELD, ",t=") && Spells(P_FIELD, ",p=") && Spells(DOLLAR, "$")
  {
  }

  /** What the encoder writes. */
  lemma PrintedIs(a: Algorithm, v: Version, f: Fields) returns (front: Text, t: Text, p: Text, dollar: Text)
    requires f.version == VersionCode(v)
    ensures Written(a, true, f, [])
         == front + Dec(f.memory) + t + Dec(f.passes) + p + Dec(f.lanes) + dollar + Encode(f.salt) + dollar
           + Encode(f.hash)
    ensures Spells(front, AlgorithmString(a) + VersionString(v) + "$m=")
    ensures Spells(t, ",t=") && Spells(p, ",p=") && Spells(dollar, "$")
  {
    hide Dec, Encode, Spells, Name, Written, VersionCode;
    HeadAndBinary(a, f);
    NameIs(a);
    VersionIs(v);
    FieldsAre();
    SpellsJoin(DOLLAR + Name(a), AlgorithmString(a), V_FIELD + Dec(f.version), VersionString(v));
    SpellsJoin(DOLLAR + Name(a) + (V_FIELD + Dec(f.version)), AlgorithmString(a) + VersionString(v), M_FIELD, "$m=");
    front := DOLLAR + Name(a) + (V_FIELD + Dec(f.version)) + M_FIELD;
    t, p, dollar := T_FIELD, P_FIELD, DOLLAR;
    assert front == VersionText(a, f) + M_FIELD;
  }

  /** A strict record is those characters, with its own numbers and bytes in their places. */
  lemma DecodedIs(src: Text, a: Algorithm) returns (front: Text, t: Text, p: Text, dollar: Text)
    requires DecodeString(src, a).Ok? && HasVersion(src, a)
    ensures var d := DecodeString(src, a).value;
            && d.algorithm == a
            && src == front + Dec(d.params.memory) + t + Dec(d.params.passes) + p + Dec(d.params.lanes)
                      + dollar + Encode(d.salt) + dollar + Encode(d.hash)
            && Spells(front, AlgorithmString(a) + VersionString(d.version) + "$m=")
            && Spells(t, ",t=") && Spells(p, ",p=") && Spells(dollar, "$")
  {
    hide DecodeString, Dec, Encode, Spells, Written, IsRecord, HasVersion;
    var d := DecodeString(src, a).value;
    DecodeIsExact(src, a, d);
    front, t, p, dollar := PrintedIs(a, d.version, FieldsOf(d));
  }

  // ---------------------------------------------------------------------------
  // What is read
  // ---------------------------------------------------------------------------

  /** What the lenient decoder accepts begins with its algorithm, and with its version if there is one. */
  lemma AcceptedBegins(src: Text, d: Decoded)
    requires DecodePhc(src) == Ok(d)
    ensures Begins(src, AlgorithmString(d.algorithm) + "$")
    ensures Begins(src, AlgorithmString(d.algorithm) + (VersionString(d.version) + "$"))
            || (d.version == V0x10 && !Begins(src, AlgorithmString(d.algorithm) + "$v="))
  {
    hide DecodePhc, Begins, Read, RecordText, AlgorithmString, VersionString, FromParams, NoDollar;
    var r, params := AcceptedIsRecord(src, d);
    RecordIsDecoded(r, params, d);
    VersionFieldOrParams(r, params);
    FirstByte(FromParams(r, params));
    if r.version.Some? {
      VersionedBegins(r, params, d, FromParams(r, params)[1..]);
      StartsWithDollar(d.version);
      ShorterBegins(src, AlgorithmString(d.algorithm), VersionString(d.version) + "$");
    } else {
      PlainBegins(r, params, FromParams(r, params)[1..]);
    }
  }

  lemma StartsWithDollar(v: Version)
    ensures |VersionString(v) + "$"| > 0 && (VersionString(v) + "$")[0] == '$'
  {
  }

  lemma PlainBegins(r: Frame, params: Text, after: Text)
    requires r.version.None? && FromParams(r, params) == DOLLAR + after && !(V_FIELD <= FromParams(r, params))
    ensures Begins(RecordText(r, params), AlgorithmString(r.algorithm) + "$")
    ensures !Begins(RecordText(r, params), AlgorithmString(r.algorithm) + "$v=")
  {
    hide Name, FromParams, Spells, Begins, AlgorithmString;
    var front, s := DOLLAR + Name(r.algorithm), AlgorithmString(r.algorithm);
    NameIs(r.algorithm);
    FieldsAre();
    SpellsJoin(front, s, DOLLAR, "$");
    Assoc(DOLLAR, Name(r.algorithm), DOLLAR + after);
    Assoc(front, DOLLAR, after);
    BeginsWith(front + DOLLAR, s + "$", after);
    VersionBegins(front, s, DOLLAR + after);
  }

  lemma FirstByte(rest: Text)
    requires |rest| > 1 && rest[0] == 36
    ensures rest == DOLLAR + rest[1..]
  {
  }

  lemma RecordIsDecoded(r: Frame, params: Text, d: Decoded)
    requires Read(r.algorithm, VersionOf(r), r, params) == Ok(d)
    ensures d.algorithm == r.algorithm && VersionCode(d.version) == VersionOf(r)
  {
    hide ParamsOf, ValidateInputs, Build;
    VersionWas(VersionOf(r));
  }

  lemma VersionedText(n: Text, v: Text, after: Text)
    ensures DOLLAR + (n + (V_FIELD + (v + (DOLLAR + after)))) == ((DOLLAR + n) + (V_FIELD + v) + DOLLAR) + after
  {
    Assoc(V_FIELD, v, DOLLAR + after);
    Assoc(DOLLAR, n, (V_FIELD + v) + (DOLLAR + after));
    Assoc(DOLLAR + n, V_FIELD + v, DOLLAR + after);
    Assoc((DOLLAR + n) + (V_FIELD + v), DOLLAR, after);
  }

  lemma VersionedBegins(r: Frame, params: Text, d: Decoded, after: Text)
    requires r.version == Some(VersionCode(d.version)) && FromParams(r, params) == DOLLAR + after
    requires r.algorithm == d.algorithm
    ensures Begins(RecordText(r, params), AlgorithmString(d.algorithm) + (VersionString(d.version) + "$"))
  {
    hide Name, Dec, FromParams, Spells, Begins, AlgorithmString, VersionString, VersionCode;
    var n, w := Name(r.algorithm), Dec(VersionCode(d.version));
    var s, v := AlgorithmString(d.algorithm), VersionString(d.version);
    NameIs(r.algorithm);
    VersionIs(d.version);
    FieldsAre();
    SpellsJoin(DOLLAR + n, s, V_FIELD + w, v);
    SpellsJoin((DOLLAR + n) + (V_FIELD + w), s + v, DOLLAR, "$");
    VersionedText(n, w, after);
    BeginsWith((DOLLAR + n) + (V_FIELD + w) + DOLLAR, (s + v) + "$", after);
    assert (s + v) + "$" == s + (v + "$");
  }

  lemma ShorterBegins(b: Text, s: string, t: string)
    requires Begins(b, s + t) && |t| > 0 && t[0] == '$'
    ensures Begins(b, s + "$")
  {
    assert forall i :: 0 <= i < |s| ==> (s + t)[i] == s[i];
    assert (s + t)[|s|] == '$';
  }

  lemma VersionBegins(front: Text, s: string, rest: Text)
    requires Spells(front, s)
    ensures Begins(front + rest, s + "$v=") ==> V_FIELD <= rest
  {
    var src := front + rest;
    if Begins(src, s + "$v=") {
      assert forall j :: 0 <= j < 3 ==> src[|front| + j] == rest[j] && (s + "$v=")[|s| + j] == "$v="[j];
      assert rest[..3] == V_FIELD;
    }
  }

  lemma NameBytes(b: Text, a: Algorithm)
    requires Begins(b, AlgorithmString(a) + "$")
    ensures |b| > 8
    ensures b[7] == (if a == Argon2d then 'd' else 'i') as int
    ensures b[8] == (if a == Argon2id then 'd' else '$') as int
  {
    var s := AlgorithmString(a) + "$";
    assert b[7] == s[7] as int && b[8] == s[8] as int;
  }

  /** So the beginning tells the algorithm: no accepted string begins like another's. */
  lemma BeginningTells(src: Text, d: Decoded, a: Algorithm)
    requires DecodePhc(src) == Ok(d) && Begins(src, AlgorithmString(a) + "$")
    ensures d.algorithm == a
  {
    hide DecodePhc, Begins;
    AcceptedBegins(src, d);
    NameBytes(src, a);
    NameBytes(src, d.algorithm);
  }

  // ---------------------------------------------------------------------------
  // Lenient parameters
  // ---------------------------------------------------------------------------

  lemma KeysAre()
    ensures Spells(M_KEY, "m") && Spells(T_KEY, "t") && Spells(P_KEY, "p") && Spells(DATA_KEY, "data")
    ensures Spells([COMMA], ",") && Spells([EQUALS], "=")
  {
  }

  lemma SpelledOnce(b: Text, c: Text, s: string)
    requires Spells(b, s) && Spells(c, s)
    ensures b == c
  {
  }

  /** The values of `m`, `t`, `p` and `data`, wherever they stand and whatever stands between them. */
  lemma ParametersAre(fs: seq<Field>, m: u32, t: u32, p: u32, data: seq<u8>, km: Text, kt: Text, kp: Text, kd: Text)
    requires |fs| >= 1 && forall i :: 0 <= i < |fs| ==> Separable(fs[i]) && Readable(fs[i])
    requires Spells(km, "m") && Spells(kt, "t") && Spells(kp, "p") && Spells(kd, "data")
    requires Last(fs, km) == Some(Dec(m)) && Last(fs, kt) == Some(Dec(t)) && Last(fs, kp) == Some(Dec(p))
    requires Last(fs, kd) == if |data| == 0 then None else Some(Encode(data))
    ensures ParamsOf(Joined(fs)) == Ok((m, t, p, data))
  {
    hide Dec, Encode, ParamU32, DecodeAll, Last, Joined, ParamsOf, Separable, Readable, Spells;
    KeysAre();
    SpelledOnce(km, M_KEY, "m");
    SpelledOnce(kt, T_KEY, "t");
    SpelledOnce(kp, P_KEY, "p");
    SpelledOnce(kd, DATA_KEY, "data");
    OrderDoesNotMatter(fs, fs);
    NumberReads(m);
    NumberReads(t);
    NumberReads(p);
    DecodeAllInverts(Encode(data), data);
  }

  lemma NumberReads(n: u32)
    ensures ParamU32(Dec(n)) == Ok(n)
  {
    hide Dec, DecimalOf;
    assert Dec(n) + [] == Dec(n);
    DecimalOfDec(n, []);
  }

  /** The record they make, with associated data if there is any. */
  lemma LenientRecordIs(r: Frame, v: Version, fs: seq<Field>, m: u32, t: u32, p: u32, data: seq<u8>)
    requires |fs| >= 1 && (forall i :: 0 <= i < |fs| ==> Writable(fs[i])) && ParamsOf(Joined(fs)) == Ok((m, t, p, data))
    requires VersionOf(r) == VersionCode(v) && (r.version.None? ==> fs[0].key != V_KEY)
    requires |Framed(r, fs)| <= 0xFFFF_FFFF
    requires ValidateInputs(|r.hash|, 0, |r.salt|, 0, |data|, m, t, p, p).Ok?
    ensures DecodePhc(Framed(r, fs)) == Ok(Decoded(r.algorithm, v, Costs(m, t, p, p, |r.hash|), r.salt, r.hash, data))
  {
    hide DecodePhc, Framed, Joined, ParamsOf, Writable;
    FramedIs(r, fs);
    VersionRoundTrip(v);
  }

  // ---------------------------------------------------------------------------
  // Errors
  // ---------------------------------------------------------------------------

  /** Text after a record: what is wrong with the numbers comes first, and only then the text. */
  lemma TrailingText(a: Algorithm, versioned: bool, f: Fields, rest: Text)
    requires Ends(rest) && |rest| > 0 && |f.salt| <= 0xFFFF_FFFF && |f.hash| <= 0xFFFF_FFFF
    requires !versioned ==> f.version == 16
    requires |Written(a, versioned, f, rest)| <= 0xFFFF_FFFF
    ensures var checks := ValidateInputs(|f.hash|, 0, |f.salt|, 0, 0, f.memory, f.passes, f.lanes, f.lanes);
            DecodeString(Written(a, versioned, f, rest), a)
            == if checks.Err? then Err(checks.error) else Err(DecodingFail)
  {
    hide AllFields, Written, ValidateInputs;
    AllFieldsIs(a, versioned, f, rest);
  }

  /** A version that is neither 16 nor 19: again after the numbers. */
  lemma UnknownVersion(a: Algorithm, f: Fields)
    requires f.version != 16 && f.version != 19 && |f.salt| <= 0xFFFF_FFFF && |f.hash| <= 0xFFFF_FFFF
    requires |Written(a, true, f, [])| <= 0xFFFF_FFFF
    ensures var checks := ValidateInputs(|f.hash|, 0, |f.salt|, 0, 0, f.memory, f.passes, f.lanes, f.lanes);
            DecodeString(Written(a, true, f, []), a) == if checks.Err? then Err(checks.error) else Err(DecodingFail)
  {
    hide AllFields, Written, ValidateInputs;
    AllFieldsIs(a, true, f, []);
  }

  /** The length gate: one byte longer than the longest record the ceiling allows, and no more. */
  lemma GateIsTight(src: Text, a: Algorithm, v: Version, ceiling: Costs, longest: Fields)
    requires longest.version == VersionCode(v) && longest.memory == ceiling.memory && longest.passes == ceiling.passes
    requires longest.lanes == ceiling.lanes && |longest.salt| == 1024 && |longest.hash| == ceiling.tagLen
    ensures |src| > |Written(a, true, longest, [])| + 1 ==> DecodeBounded(src, a, ceiling) == Err(DecodingLengthFail)
    ensures |src| <= |Written(a, true, longest, [])| + 1 && DecodeString(src, a).Err? ==>
              DecodeBounded(src, a, ceiling) == DecodeString(src, a)
  {
    hide Written, Dec, B64Len, DecodeString, Build;
    WrittenLength(a, v, longest);
  }
}
