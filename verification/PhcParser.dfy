/** The strict decoder: a cursor over the input, and the text it accepts. */
module PhcParser {
  import opened Machine
  import opened Params
  import opened Base64
  import opened Base64Decode
  import opened Base64Codec
  import opened Decimal
  import opened PhcText

  // ---------------------------------------------------------------------------
  // Parsing, as a function of what is left of the input
  // ---------------------------------------------------------------------------

  function Expected(rest: Text, prefix: Text): Result<Text> {
    if prefix <= rest then Ok(rest[|prefix|..]) else Err(DecodingFail)
  }

  function Number(rest: Text): Result<(u32, Text)> {
    match DecimalOf(rest)
    case None => Err(DecodingFail)
    case Some(pair) =>
      if pair.0 > 0xFFFF_FFFF || pair.1 > |rest| then Err(DecodingFail) else Ok((pair.0, rest[pair.1..]))
  }

  /** `decode_bin`: the bound on the output is `n / 4 * 3 + 3`. */
  function Binary(rest: Text): Result<(seq<u8>, Text)> {
    match DecodeResult(rest, |rest| / 4 * 3 + 3)
    case Err(e) => Err(e)
    case Ok(pair) =>
      if pair.0 > 0xFFFF_FFFF || pair.1 > |rest| then Err(DecodingFail)
      else Ok((Octets(rest, pair.0), rest[pair.1..]))
  }

  function VersionField(rest: Text): Result<(u32, Text)> {
    if V_FIELD <= rest then Number(rest[|V_FIELD|..]) else Ok((16, rest))
  }

  function CostFields(rest: Text): Result<((u32, u32, u32), Text)> {
    var r1 :- Expected(rest, M_FIELD);
    var m :- Number(r1);
    var r2 :- Expected(m.1, T_FIELD);
    var t :- Number(r2);
    var r3 :- Expected(t.1, P_FIELD);
    var p :- Number(r3);
    Ok(((m.0, t.0, p.0), p.1))
  }

  function BinaryFields(rest: Text): Result<((seq<u8>, seq<u8>), Text)> {
    var r1 :- Expected(rest, DOLLAR);
    var salt :- Binary(r1);
    var r2 :- Expected(salt.1, DOLLAR);
    var hash :- Binary(r2);
    Ok(((salt.0, hash.0), hash.1))
  }

  /** All the fields, and what is left after them. */
  function AllFields(src: Text, a: Algorithm): Result<(Fields, Text)> {
    var r1 :- Expected(src, DOLLAR);
    var r2 :- Expected(r1, Name(a));
    var v :- VersionField(r2);
    var costs :- CostFields(v.1);
    var binary :- BinaryFields(costs.1);
    Ok((Fields(v.0, costs.0.0, costs.0.1, costs.0.2, binary.0.0, binary.0.1), binary.1))
  }

  /** The checks, in the order that decides which error surfaces: inputs, trailing text, version. */
  function Finish(a: Algorithm, f: Fields, rest: Text): Result<Decoded> {
    var _ :- Validated(f);
    if rest != [] then Err(DecodingFail)
    else
      match VersionFrom(f.version)
      case None => Err(DecodingFail)
      case Some(v) =>
        var costs :- Build(f.memory, f.passes, f.lanes, Some(f.lanes), |f.hash|);
        Ok(Decoded(a, v, costs, f.salt, f.hash, []))
  }

  /** `decode_string`. */
  function DecodeString(src: Text, a: Algorithm): Result<Decoded> {
    if |src| > 0xFFFF_FFFF then Err(DecodingFail)
    else
      var parsed :- AllFields(src, a);
      Finish(a, parsed.0, parsed.1)
  }

  // ---------------------------------------------------------------------------
  // The same, with a cursor
  // ---------------------------------------------------------------------------

  /** A position in the input. */
  class Cursor {
    const src: Text
    var pos: nat

    ghost predicate Valid()
      reads this
    {
      pos <= |src|
    }

    function Rest(): Text
      reads this
      requires Valid()
    {
      src[pos..]
    }

    constructor (src: Text)
      ensures Valid() && this.src == src && pos == 0 && Rest() == src
    {
      this.src, pos := src, 0;
    }

    /** `expect`. */
    method Expect(prefix: Text) returns (r: Result<()>)
      requires Valid()
      modifies this`pos
      ensures Valid()
      ensures Expected(old(Rest()), prefix) == if r.Ok? then Ok(Rest()) else Err(r.error)
    {
      if prefix <= src[pos..] {
        pos := pos + |prefix|;
        r := Ok(());
      } else {
        r := Err(DecodingFail);
      }
    }

    /** `expect_opt`. */
    method ExpectOpt(prefix: Text) returns (found: bool)
      requires Valid()
      modifies this`pos
      ensures Valid() && found == (prefix <= old(Rest()))
      ensures Rest() == if found then old(Rest())[|prefix|..] else old(Rest())
    {
      found := prefix <= src[pos..];
      if found {
        pos := pos + |prefix|;
      }
    }

    /** `decimal_u32`. */
    method DecimalU32() returns (r: Result<u32>)
      requires Valid()
      modifies this`pos
      ensures Valid()
      ensures Number(old(Rest())) == if r.Ok? then Ok((r.value, Rest())) else Err(r.error)
    {
      var decoded := DecodeDecimal(src[pos..]);
      if decoded.None? {
        return Err(DecodingFail);
      }
      if decoded.value.0 > 0xFFFF_FFFF {
        return Err(DecodingFail);
      }
      pos := pos + decoded.value.1;
      r := Ok(decoded.value.0);
    }

    /** `decode_bin`. */
    method DecodeBin(backend: Backend) returns (r: Result<seq<u8>>)
      requires Valid()
      modifies this`pos
      ensures Valid()
      ensures Binary(old(Rest())) == if r.Ok? then Ok((r.value, Rest())) else Err(r.error)
    {
      hide Octets, Run, Canonical;
      var tail := src[pos..];
      var buf := new u8[|tail| / 4 * 3 + 3](_ => 0);
      var decoded := FromBase64(buf, tail, backend);
      if decoded.Err? {
        return Err(decoded.error);
      }
      if decoded.value.0 > 0xFFFF_FFFF {
        return Err(DecodingFail);
      }
      pos := pos + decoded.value.1;
      r := Ok(buf[..decoded.value.0]);
    }

    /** The costs, in their fixed order. */
    method DecodeCosts() returns (r: Result<(u32, u32, u32)>)
      requires Valid()
      modifies this`pos
      ensures Valid()
      ensures CostFields(old(Rest())) == if r.Ok? then Ok((r.value, Rest())) else Err(r.error)
    {
      hide Expected, Number;
      var _ :- Expect(M_FIELD);
      var m :- DecimalU32();
      var _ :- Expect(T_FIELD);
      var t :- DecimalU32();
      var _ :- Expect(P_FIELD);
      var p :- DecimalU32();
      r := Ok((m, t, p));
    }

    method DecodeBinaries(backend: Backend) returns (r: Result<(seq<u8>, seq<u8>)>)
      requires Valid()
      modifies this`pos
      ensures Valid()
      ensures BinaryFields(old(Rest())) == if r.Ok? then Ok((r.value, Rest())) else Err(r.error)
    {
      hide Expected, Binary;
      var _ :- Expect(DOLLAR);
      var salt :- DecodeBin(backend);
      var _ :- Expect(DOLLAR);
      var hash :- DecodeBin(backend);
      r := Ok((salt, hash));
    }

    /** `$v=` and its number, or version 16. */
    method DecodeVersion() returns (r: Result<u32>)
      requires Valid()
      modifies this`pos
      ensures Valid()
      ensures VersionField(old(Rest())) == if r.Ok? then Ok((r.value, Rest())) else Err(r.error)
    {
      hide Number;
      var version: u32 := 16;
      var found := ExpectOpt(V_FIELD);
      if found {
        version :- DecimalU32();
      }
      r := Ok(version);
    }
  }

  /** `decode_string`, as the source runs it. */
  method DecodeStringRaw(src: Text, a: Algorithm, backend: Backend) returns (r: Result<Decoded>)
    ensures r == DecodeString(src, a)
  {
    hide Expected, VersionField, CostFields, BinaryFields, Build, ValidateInputs;
    if |src| > 0xFFFF_FFFF {
      return Err(DecodingFail);
    }
    var c := new Cursor(src);
    var _ :- c.Expect(DOLLAR);
    var _ :- c.Expect(Name(a));
    var version :- c.DecodeVersion();
    var costs :- c.DecodeCosts();
    var binary :- c.DecodeBinaries(backend);
    var f := Fields(version, costs.0, costs.1, costs.2, binary.0, binary.1);
    var _ :- Validated(f);
    if c.pos != |src| {
      return Err(DecodingFail);
    }
    var v := VersionFrom(version);
    if v.None? {
      return Err(DecodingFail);
    }
    match Build(costs.0, costs.1, costs.2, Some(costs.2), |binary.1|)
    case Err(e) => r := Err(e);
    case Ok(p) => r := Ok(Decoded(a, v.value, p, binary.0, binary.1, []));
  }

  // ---------------------------------------------------------------------------
  // What each parser accepts
  // ---------------------------------------------------------------------------

  lemma ExpectedIs(prefix: Text, rest: Text)
    ensures Expected(prefix + rest, prefix) == Ok(rest)
  {
  }

  lemma ExpectedWas(src: Text, prefix: Text)
    ensures Expected(src, prefix).Ok? ==> src == prefix + Expected(src, prefix).value
  {
  }

  lemma NumberIs(n: u32, rest: Text)
    requires |rest| > 0 ==> !IsDigit(rest[0])
    ensures Number(Dec(n) + rest) == Ok((n, rest))
  {
    hide Dec, DecimalOf;
    DecimalOfDec(n, rest);
  }

  lemma NumberWas(src: Text)
    ensures Number(src).Ok? ==>
      var n, rest := Number(src).value.0, Number(src).value.1;
      src == Dec(n) + rest && (|rest| > 0 ==> !IsDigit(rest[0]))
  {
    hide Dec;
    if Number(src).Ok? {
      var n, k := DecimalOf(src).value.0, DecimalOf(src).value.1;
      DecimalIsExact(src, n, k);
      assert src == Dec(n) + src[k..];
    }
  }

  /** The bound of `decode_bin` is never what makes it fail. */
  lemma BoundIsEnough(rest: Text)
    ensures Run(rest) * 3 / 4 <= |rest| / 4 * 3 + 3
  {
  }

  lemma BinaryIs(b: seq<u8>, rest: Text)
    requires (|rest| > 0 ==> !IsAlphabet(rest[0])) && |b| <= 0xFFFF_FFFF
    ensures Binary(Encode(b) + rest) == Ok((b, rest))
  {
    hide Encode, Octets, Run, B64Len, DecodeResult;
    var src := Encode(b) + rest;
    EncodedLength(|b|);
    EncodedRun(b, rest);
    BoundIsEnough(src);
    DecodeOfEncode(b, rest, |src| / 4 * 3 + 3);
  }

  lemma BinaryWas(src: Text)
    ensures Binary(src).Ok? ==>
      var b, rest := Binary(src).value.0, Binary(src).value.1;
      src == Encode(b) + rest && (|rest| > 0 ==> !IsAlphabet(rest[0])) && |b| <= 0xFFFF_FFFF
  {
    hide Encode, Octets, Canonical;
    if Binary(src).Ok? {
      EncodeOfDecode(src, |src| / 4 * 3 + 3);
    }
  }

  // ---------------------------------------------------------------------------
  // The text a record is written as is the text that is parsed
  // ---------------------------------------------------------------------------

  predicate Ends(rest: Text) { |rest| > 0 ==> !IsAlphabet(rest[0]) }

  lemma BinaryFieldsIs(f: Fields, rest: Text)
    requires Ends(rest) && |f.salt| <= 0xFFFF_FFFF && |f.hash| <= 0xFFFF_FFFF
    ensures BinaryFields(WrittenBinary(f, rest)) == Ok(((f.salt, f.hash), rest))
  {
    hide Expected, Binary, Encode;
    var r3 := Encode(f.hash) + rest;
    var r2 := DOLLAR + r3;
    var r1 := Encode(f.salt) + r2;
    ExpectedIs(DOLLAR, r1);
    BinaryIs(f.salt, r2);
    ExpectedIs(DOLLAR, r3);
    BinaryIs(f.hash, rest);
  }

  lemma CostFieldsIs(f: Fields, rest: Text)
    ensures CostFields(WrittenCosts(f, rest)) == Ok(((f.memory, f.passes, f.lanes), WrittenBinary(f, rest)))
  {
    hide Expected, Number, Dec, Encode;
    var r6 := WrittenBinary(f, rest);
    assert r6[0] == 36;
    hide WrittenBinary;
    var r5 := Dec(f.lanes) + r6;
    var r4 := P_FIELD + r5;
    var r3 := Dec(f.passes) + r4;
    var r2 := T_FIELD + r3;
    var r1 := Dec(f.memory) + r2;
    ExpectedIs(M_FIELD, r1);
    NumberIs(f.memory, r2);
    ExpectedIs(T_FIELD, r3);
    NumberIs(f.passes, r4);
    ExpectedIs(P_FIELD, r5);
    NumberIs(f.lanes, r6);
  }

  lemma VersionFieldIs(versioned: bool, f: Fields, rest: Text)
    requires !versioned ==> f.version == 16
    ensures VersionField(WrittenVersion(versioned, f, rest)) == Ok((f.version, WrittenCosts(f, rest)))
  {
    hide Number, Dec;
    var r1 := WrittenCosts(f, rest);
    assert r1[0] == 36 && r1[1] == 109;
    hide WrittenCosts;
    if versioned {
      NumberIs(f.version, r1);
      assert (V_FIELD + (Dec(f.version) + r1))[|V_FIELD|..] == Dec(f.version) + r1;
    }
  }

  /** Whatever is written, with or without its version, is parsed back. */
  lemma AllFieldsIs(a: Algorithm, versioned: bool, f: Fields, rest: Text)
    requires Ends(rest) && |f.salt| <= 0xFFFF_FFFF && |f.hash| <= 0xFFFF_FFFF
    requires !versioned ==> f.version == 16
    ensures AllFields(Written(a, versioned, f, rest), a) == Ok((f, rest))
  {
    hide Expected, VersionField, CostFields, BinaryFields, WrittenVersion;
    ExpectedIs(DOLLAR, Name(a) + WrittenVersion(versioned, f, rest));
    ExpectedIs(Name(a), WrittenVersion(versioned, f, rest));
    VersionFieldIs(versioned, f, rest);
    CostFieldsIs(f, rest);
    BinaryFieldsIs(f, rest);
  }

  lemma BinaryFieldsWas(src: Text)
    ensures BinaryFields(src).Ok? ==>
      var salt, hash, rest := BinaryFields(src).value.0.0, BinaryFields(src).value.0.1, BinaryFields(src).value.1;
      && src == WrittenBinary(Fields(0, 0, 0, 0, salt, hash), rest)
      && Ends(rest) && |salt| <= 0xFFFF_FFFF && |hash| <= 0xFFFF_FFFF
  {
    hide Expected, Binary, Encode;
    if BinaryFields(src).Ok? {
      var r1 := Expected(src, DOLLAR).value;
      var salt := Binary(r1).value;
      var r2 := Expected(salt.1, DOLLAR).value;
      ExpectedWas(src, DOLLAR);
      BinaryWas(r1);
      ExpectedWas(salt.1, DOLLAR);
      BinaryWas(r2);
    }
  }

  lemma CostFieldsWas(src: Text)
    ensures CostFields(src).Ok? ==>
      var m, t, p := CostFields(src).value.0.0, CostFields(src).value.0.1, CostFields(src).value.0.2;
      src == M_FIELD + (Dec(m) + (T_FIELD + (Dec(t) + (P_FIELD + (Dec(p) + CostFields(src).value.1)))))
  {
    hide Expected, Number, Dec;
    if CostFields(src).Ok? {
      var r1 := Expected(src, M_FIELD).value;
      var m := Number(r1).value;
      var r2 := Expected(m.1, T_FIELD).value;
      var t := Number(r2).value;
      var r3 := Expected(t.1, P_FIELD).value;
      ExpectedWas(src, M_FIELD);
      NumberWas(r1);
      ExpectedWas(m.1, T_FIELD);
      NumberWas(r2);
      ExpectedWas(t.1, P_FIELD);
      NumberWas(r3);
    }
  }

  lemma VersionFieldWas(src: Text)
    ensures VersionField(src).Ok? ==>
      var v, rest := VersionField(src).value.0, VersionField(src).value.1;
      src == if V_FIELD <= src then V_FIELD + (Dec(v) + rest) else rest
    ensures VersionField(src).Ok? && !(V_FIELD <= src) ==> VersionField(src).value.0 == 16
  {
    hide Number, Dec;
    if VersionField(src).Ok? && V_FIELD <= src {
      NumberWas(src[|V_FIELD|..]);
      assert src == V_FIELD + src[|V_FIELD|..];
    }
  }

  /** Whether an input has a version field. */
  predicate HasVersion(src: Text, a: Algorithm) { DOLLAR + Name(a) + V_FIELD <= src }

  lemma HasVersionIs(a: Algorithm, rest: Text)
    ensures HasVersion(DOLLAR + (Name(a) + rest), a) <==> V_FIELD <= rest
  {
    var src := DOLLAR + (Name(a) + rest);
    var n := |DOLLAR| + |Name(a)|;
    assert src[n..] == rest;
    assert src[..n] == DOLLAR + Name(a);
    if V_FIELD <= rest {
      assert src[..n + |V_FIELD|] == DOLLAR + Name(a) + V_FIELD;
    }
    if HasVersion(src, a) {
      assert src[n..n + |V_FIELD|] == V_FIELD;
      assert rest[..|V_FIELD|] == src[n..n + |V_FIELD|];
    }
  }

  /** Whatever is parsed was written, with its version field or without. */
  lemma AllFieldsWas(src: Text, a: Algorithm)
    ensures AllFields(src, a).Ok? ==>
      var f, rest := AllFields(src, a).value.0, AllFields(src, a).value.1;
      && src == Written(a, HasVersion(src, a), f, rest)
      && Ends(rest) && |f.salt| <= 0xFFFF_FFFF && |f.hash| <= 0xFFFF_FFFF
      && (!HasVersion(src, a) ==> f.version == 16)
  {
    hide Expected, VersionField, CostFields, BinaryFields, Dec, Encode, HasVersion, Name;
    if AllFields(src, a).Ok? {
      var r1 := Expected(src, DOLLAR).value;
      var r2 := Expected(r1, Name(a)).value;
      var v := VersionField(r2).value;
      var costs := CostFields(v.1).value;
      ExpectedWas(src, DOLLAR);
      ExpectedWas(r1, Name(a));
      HasVersionIs(a, r2);
      VersionFieldWas(r2);
      CostFieldsWas(v.1);
      BinaryFieldsWas(costs.1);
    }
  }
}
