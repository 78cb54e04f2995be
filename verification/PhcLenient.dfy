/** The lenient decoder: costs in any order, unknown keys, associated data. */
module PhcLenient {
  import opened Machine
  import opened Params
  import opened Base64
  import opened Base64Codec
  import opened Decimal
  import opened PhcText
  import opened PhcParser
  import opened PhcRoundTrip

  const M_KEY: Text := [109]
  const T_KEY: Text := [116]
  const P_KEY: Text := [112]
  const DATA_KEY: Text := [100, 97, 116, 97]
  const COMMA: u8 := 44
  const EQUALS: u8 := 61

  /** `find_byte`: the first index of a byte, or the end. */
  function IndexOf(src: Text, c: u8): (i: nat)
    ensures i <= |src| && (i < |src| ==> src[i] == c) && forall j :: 0 <= j < i ==> src[j] != c
  {
    if |src| == 0 || src[0] == c then 0 else 1 + IndexOf(src[1..], c)
  }

  // ---------------------------------------------------------------------------
  // Parameters
  // ---------------------------------------------------------------------------

  /** What has been read so far. */
  datatype Found = Found(memory: Option<u32>, passes: Option<u32>, lanes: Option<u32>, ad: seq<u8>)

  const NOTHING: Found := Found(None, None, None, [])

  /** `parse_param_u32`. */
  function ParamU32(src: Text): Result<u32> {
    match DecimalOf(src)
    case None => Err(DecodingFail)
    case Some(pair) => if pair.1 != |src| || pair.0 > 0xFFFF_FFFF then Err(DecodingFail) else Ok(pair.0)
  }

  /** One `key=value`. */
  function Take(s: Found, key: Text, value: Text): Result<Found> {
    if key == M_KEY then var n :- ParamU32(value); Ok(s.(memory := Some(n)))
    else if key == T_KEY then var n :- ParamU32(value); Ok(s.(passes := Some(n)))
    else if key == P_KEY then var n :- ParamU32(value); Ok(s.(lanes := Some(n)))
    else if key == DATA_KEY then var b :- DecodeAll(value); Ok(s.(ad := b))
    else Ok(s)
  }

  /** The fields of what is left, one after the other. */
  function TakeAll(rest: Text, s: Found): Result<Found>
    decreases |rest|
  {
    var i := IndexOf(rest, COMMA);
    var field := rest[..i];
    var e := IndexOf(field, EQUALS);
    if e == |field| then Err(DecodingFail)
    else
      var s' :- Take(s, field[..e], field[e + 1..]);
      if i >= |rest| - 1 then Ok(s') else TakeAll(rest[i + 1..], s')
  }

  function Complete(s: Found): Result<(u32, u32, u32, seq<u8>)> {
    if s.memory.Some? && s.passes.Some? && s.lanes.Some? then Ok((s.memory.value, s.passes.value, s.lanes.value, s.ad))
    else Err(DecodingFail)
  }

  /** `parse_phc_params`. */
  function ParamsOf(src: Text): Result<(u32, u32, u32, seq<u8>)> {
    if src == [] then Err(DecodingFail) else var s :- TakeAll(src, NOTHING); Complete(s)
  }

  method ParseParamU32(src: Text) returns (r: Result<u32>)
    ensures r == ParamU32(src)
  {
    var decoded := DecodeDecimal(src);
    if decoded.None? {
      return Err(DecodingFail);
    }
    if decoded.value.1 != |src| || decoded.value.0 > 0xFFFF_FFFF {
      return Err(DecodingFail);
    }
    r := Ok(decoded.value.0);
  }

  method TakeField(s: Found, key: Text, value: Text, backend: Backend) returns (r: Result<Found>)
    ensures r == Take(s, key, value)
  {
    hide ParamU32, DecodeAll;
    if key == M_KEY {
      var n :- ParseParamU32(value);
      r := Ok(s.(memory := Some(n)));
    } else if key == T_KEY {
      var n :- ParseParamU32(value);
      r := Ok(s.(passes := Some(n)));
    } else if key == P_KEY {
      var n :- ParseParamU32(value);
      r := Ok(s.(lanes := Some(n)));
    } else if key == DATA_KEY {
      var b :- DecodeBase64(value, backend);
      r := Ok(s.(ad := b));
    } else {
      r := Ok(s);
    }
  }

  method ParsePhcParams(src: Text, backend: Backend) returns (r: Result<(u32, u32, u32, seq<u8>)>)
    ensures r == ParamsOf(src)
  {
    hide Take;
    if |src| == 0 {
      return Err(DecodingFail);
    }
    var s, rest := NOTHING, src;
    while true
      invariant TakeAll(src, NOTHING) == TakeAll(rest, s)
      decreases |rest|
    {
      var i := IndexOf(rest, COMMA);
      var field, next := rest[..i], if i < |rest| then rest[i + 1..] else [];
      var e := IndexOf(field, EQUALS);
      if e == |field| {
        return Err(DecodingFail);
      }
      s :- TakeField(s, field[..e], field[e + 1..], backend);
      if |next| == 0 {
        break;
      }
      rest := next;
    }
    r := Complete(s);
  }

  // ---------------------------------------------------------------------------
  // The decoder
  // ---------------------------------------------------------------------------

  /** The algorithm named, longest name first, and the rest. */
  function NamedAlgorithm(rest: Text): Result<(Algorithm, Text)> {
    if Name(Argon2id) <= rest then Ok((Argon2id, rest[8..]))
    else if Name(Argon2i) <= rest then Ok((Argon2i, rest[7..]))
    else if Name(Argon2d) <= rest then Ok((Argon2d, rest[7..]))
    else Err(DecodingFail)
  }

  /** Text up to the next `$`, which must be there, and the rest from it on. */
  function UpToDollar(rest: Text): Result<(Text, Text)> {
    var i := IndexOf(rest, 36);
    if i == |rest| then Err(DecodingFail) else Ok((rest[..i], rest[i..]))
  }

  /** The checks, with the associated data among them. */
  function FinishPhc(a: Algorithm, version: u32, costs: (u32, u32, u32, seq<u8>), salt: seq<u8>,
      hash: seq<u8>): Result<Decoded> {
    var _ :- ValidateInputs(|hash|, 0, |salt|, 0, |costs.3|, costs.0, costs.1, costs.2, costs.2);
    match VersionFrom(version)
    case None => Err(DecodingFail)
    case Some(v) =>
      var p :- Build(costs.0, costs.1, costs.2, Some(costs.2), |hash|);
      Ok(Decoded(a, v, p, salt, hash, costs.3))
  }

  /** From the parameters on. */
  function AfterVersion(a: Algorithm, version: u32, rest: Text): Result<Decoded> {
    var r1 :- Expected(rest, DOLLAR);
    var params :- UpToDollar(r1);
    var costs :- ParamsOf(params.0);
    var r2 :- Expected(params.1, DOLLAR);
    var saltText :- UpToDollar(r2);
    var salt :- DecodeAll(saltText.0);
    var r3 :- Expected(saltText.1, DOLLAR);
    var hash :- DecodeAll(r3);
    FinishPhc(a, version, costs, salt, hash)
  }

  /** `decode_phc`. */
  function DecodePhc(src: Text): Result<Decoded> {
    if |src| > 0xFFFF_FFFF then Err(DecodingFail)
    else
      var r1 :- Expected(src, DOLLAR);
      var named :- NamedAlgorithm(r1);
      var version :- VersionField(named.1);
      AfterVersion(named.0, version.0, version.1)
  }

  /** The text up to the next `$`, with the cursor moved to it. */
  method TakeUpToDollar(c: Cursor) returns (r: Result<Text>)
    requires c.Valid()
    modifies c`pos
    ensures c.Valid()
    ensures UpToDollar(old(c.Rest())) == if r.Ok? then Ok((r.value, c.Rest())) else Err(r.error)
  {
    var rest := c.src[c.pos..];
    var end := IndexOf(rest, 36);
    if end == |rest| {
      return Err(DecodingFail);
    }
    c.pos := c.pos + end;
    r := Ok(rest[..end]);
  }

  method AfterVersionRaw(c: Cursor, a: Algorithm, version: u32, backend: Backend) returns (r: Result<Decoded>)
    requires c.Valid()
    modifies c`pos
    ensures r == AfterVersion(a, version, old(c.Rest()))
  {
    hide ParamsOf, DecodeAll, UpToDollar, Expected, FinishPhc;
    var _ :- c.Expect(DOLLAR);
    var paramText :- TakeUpToDollar(c);
    var costs :- ParsePhcParams(paramText, backend);
    var _ :- c.Expect(DOLLAR);
    var saltText :- TakeUpToDollar(c);
    var salt :- DecodeBase64(saltText, backend);
    var _ :- c.Expect(DOLLAR);
    var hash :- DecodeBase64(c.src[c.pos..], backend);
    r := FinishPhc(a, version, costs, salt, hash);
  }

  /** The algorithm, from the longest name to the shortest. */
  method TakeAlgorithm(c: Cursor) returns (r: Result<Algorithm>)
    requires c.Valid()
    modifies c`pos
    ensures c.Valid()
    ensures NamedAlgorithm(old(c.Rest())) == if r.Ok? then Ok((r.value, c.Rest())) else Err(r.error)
  {
    hide Name;
    assert |Name(Argon2id)| == 8 && |Name(Argon2i)| == 7 && |Name(Argon2d)| == 7 by { NameLengths(); }
    var found := c.ExpectOpt(Name(Argon2id));
    if found {
      return Ok(Argon2id);
    }
    found := c.ExpectOpt(Name(Argon2i));
    if found {
      return Ok(Argon2i);
    }
    found := c.ExpectOpt(Name(Argon2d));
    r := if found then Ok(Argon2d) else Err(DecodingFail);
  }

  /** `decode_phc`, as the source runs it. */
  method DecodePhcRaw(src: Text, backend: Backend) returns (r: Result<Decoded>)
    ensures r == DecodePhc(src)
  {
    hide VersionField, AfterVersion, NamedAlgorithm, Expected;
    if |src| > 0xFFFF_FFFF {
      return Err(DecodingFail);
    }
    var c := new Cursor(src);
    var _ :- c.Expect(DOLLAR);
    var a :- TakeAlgorithm(c);
    var version :- c.DecodeVersion();
    r := AfterVersionRaw(c, a, version, backend);
  }

  lemma NameLengths()
    ensures |Name(Argon2id)| == 8 && |Name(Argon2i)| == 7 && |Name(Argon2d)| == 7
  {
  }
}
