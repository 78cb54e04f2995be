/** Writing a PHC string into a buffer that must keep one byte spare. */
module PhcWriter {
  import opened Machine
  import opened Params
  import opened Base64
  import opened Base64Scalar
  import opened Base64Codec
  import opened Decimal
  import opened PhcText

  /** The digits of a number, least significant first, into the end of a ten-byte buffer. */
  method DigitsOf(value: u32) returns (digits: Text)
    ensures digits == Dec(value)
  {
    var buf := new u8[10](_ => 0);
    var i := 10;
    var n: nat := value;
    TenDigits(value);
    assert Dec(n) + buf[10..] == Dec(value);
    while true
      invariant 0 < i <= 10 && Dec(n) + buf[i..] == Dec(value)
      invariant |Dec(n)| <= i
      decreases n, i
    {
      i := i - 1;
      buf[i] := 48 + n % 10;
      assert buf[i..] == [48 + n % 10] + buf[i + 1..];
      if n < 10 {
        break;
      }
      assert Dec(n) + buf[i + 1..] == Dec(n / 10) + buf[i..];
      n := n / 10;
    }
    digits := buf[i..];
  }

  /** `Writer`: a cursor in a destination. */
  class Writer {
    const dst: array<u8>
    var pos: nat

    ghost predicate Valid()
      reads this
    {
      pos <= dst.Length
    }

    ghost function Done(): Text
      reads this, dst
      requires Valid()
    {
      dst[..pos]
    }

    constructor (dst: array<u8>)
      ensures Valid() && this.dst == dst && pos == 0
    {
      this.dst, pos := dst, 0;
    }

    /** `put`: strictly more room than bytes, or nothing is written. */
    method Put(bytes: Text) returns (r: Result<()>)
      requires Valid()
      modifies this`pos, dst
      ensures Valid()
      ensures r == if |bytes| < dst.Length - old(pos) then Ok(()) else Err(EncodingFail)
      ensures Done() == if r.Ok? then old(Done()) + bytes else old(Done())
    {
      var remaining := dst.Length - pos;
      if |bytes| >= remaining {
        return Err(EncodingFail);
      }
      for i := 0 to |bytes|
        invariant pos == old(pos) && dst[..pos + i] == old(dst[..pos]) + bytes[..i]
      {
        dst[pos + i] := bytes[i];
        assert dst[..pos + i + 1] == dst[..pos + i] + [bytes[i]];
      }
      pos := pos + |bytes|;
      r := Ok(());
    }

    /** `put_u32`. */
    method PutU32(value: u32) returns (r: Result<()>)
      requires Valid()
      modifies this`pos, dst
      ensures Valid()
      ensures r == if |Dec(value)| < dst.Length - old(pos) then Ok(()) else Err(EncodingFail)
      ensures Done() == if r.Ok? then old(Done()) + Dec(value) else old(Done())
    {
      hide Dec;
      var digits := DigitsOf(value);
      r := Put(digits);
    }

    /** `put_base64`. */
    method PutBase64(src: seq<u8>, backend: Backend) returns (r: Result<()>)
      requires Valid()
      modifies this`pos, dst
      ensures Valid()
      ensures r == if |Encode(src)| < dst.Length - old(pos) then Ok(()) else Err(EncodingFail)
      ensures Done() == if r.Ok? then old(Done()) + Encode(src) else old(Done())
    {
      hide Encode, B64Len;
      var written := ToBase64(dst, pos, src, backend);
      if written.Err? {
        return Err(written.error);
      }
      pos := pos + written.value;
      r := Ok(());
    }
  }

  /** What printing into a buffer of this size gives. */
  function PrintResult(text: Text, room: nat): Result<nat> { if |text| < room then Ok(|text|) else Err(EncodingFail) }

  /** Up to the version. */
  function VersionText(a: Algorithm, f: Fields): Text { DOLLAR + Name(a) + V_FIELD + Dec(f.version) }

  /** The algorithm, the version and the costs. */
  function HeadText(a: Algorithm, f: Fields): Text {
    VersionText(a, f) + M_FIELD + Dec(f.memory) + T_FIELD + Dec(f.passes) + P_FIELD + Dec(f.lanes)
  }

  method PutVersion(w: Writer, a: Algorithm, f: Fields) returns (r: Result<()>)
    requires w.Valid() && w.pos == 0
    modifies w`pos, w.dst
    ensures w.Valid()
    ensures r == if |VersionText(a, f)| < w.dst.Length then Ok(()) else Err(EncodingFail)
    ensures r.Ok? ==> w.Done() == VersionText(a, f)
  {
    hide Dec;
    var _ :- w.Put(DOLLAR);
    assert w.Done() == DOLLAR;
    var _ :- w.Put(Name(a));
    var _ :- w.Put(V_FIELD);
    r := w.PutU32(f.version);
  }

  method PutHead(w: Writer, a: Algorithm, f: Fields) returns (r: Result<()>)
    requires w.Valid() && w.pos == 0
    modifies w`pos, w.dst
    ensures w.Valid()
    ensures r == if |HeadText(a, f)| < w.dst.Length then Ok(()) else Err(EncodingFail)
    ensures r.Ok? ==> w.Done() == HeadText(a, f)
  {
    hide Dec, VersionText;
    var _ :- PutVersion(w, a, f);
    var _ :- w.Put(M_FIELD);
    var _ :- w.PutU32(f.memory);
    var _ :- w.Put(T_FIELD);
    var _ :- w.PutU32(f.passes);
    var _ :- w.Put(P_FIELD);
    r := w.PutU32(f.lanes);
  }

  lemma Assoc(x: Text, y: Text, z: Text)
    ensures (x + y) + z == x + (y + z)
  {
  }

  lemma HeadAndRest(a: Algorithm, f: Fields, rest: Text)
    ensures HeadText(a, f) + rest
         == VersionText(a, f)
            + (M_FIELD + (Dec(f.memory) + (T_FIELD + (Dec(f.passes) + (P_FIELD + (Dec(f.lanes) + rest))))))
  {
    hide Dec, VersionText;
    var h1 := VersionText(a, f) + M_FIELD;
    var h2 := h1 + Dec(f.memory);
    var h3 := h2 + T_FIELD;
    var h4 := h3 + Dec(f.passes);
    var h5 := h4 + P_FIELD;
    var r5 := Dec(f.lanes) + rest;
    var r4 := P_FIELD + r5;
    var r3 := Dec(f.passes) + r4;
    var r2 := T_FIELD + r3;
    var r1 := Dec(f.memory) + r2;
    Assoc(h5, Dec(f.lanes), rest);
    Assoc(h4, P_FIELD, r5);
    Assoc(h3, Dec(f.passes), r4);
    Assoc(h2, T_FIELD, r3);
    Assoc(h1, Dec(f.memory), r2);
    Assoc(VersionText(a, f), M_FIELD, r1);
  }

  lemma VersionAndRest(a: Algorithm, f: Fields, rest: Text)
    ensures VersionText(a, f) + rest == DOLLAR + (Name(a) + (V_FIELD + (Dec(f.version) + rest)))
  {
    hide Dec;
    Assoc(DOLLAR + Name(a) + V_FIELD, Dec(f.version), rest);
    Assoc(DOLLAR + Name(a), V_FIELD, Dec(f.version) + rest);
    Assoc(DOLLAR, Name(a), V_FIELD + (Dec(f.version) + rest));
  }

  lemma HeadAndBinary(a: Algorithm, f: Fields)
    ensures Written(a, true, f, []) == HeadText(a, f) + DOLLAR + Encode(f.salt) + DOLLAR + Encode(f.hash)
  {
    hide Dec, Encode, HeadText, VersionText;
    var h := HeadText(a, f);
    assert Encode(f.hash) + [] == Encode(f.hash);
    Assoc(h + DOLLAR + Encode(f.salt), DOLLAR, Encode(f.hash));
    Assoc(h + DOLLAR, Encode(f.salt), DOLLAR + Encode(f.hash));
    Assoc(h, DOLLAR, Encode(f.salt) + (DOLLAR + Encode(f.hash)));
    HeadAndRest(a, f, WrittenBinary(f, []));
    VersionAndRest(a, f, WrittenCosts(f, []));
  }

  /**
   `encode_string_raw`: it succeeds exactly when the checks pass and the buffer holds the text with a
   byte to spare, and then the text is what it wrote.
   */
  method EncodeString(dst: array<u8>, a: Algorithm, version: Version, p: Costs, salt: seq<u8>, hash: seq<u8>,
      backend: Backend)
    returns (r: Result<nat>)
    modifies dst
    ensures var checks := ValidateInputs(|hash|, 0, |salt|, 0, 0, p.memory, p.passes, p.lanes, p.threads);
            var text := Written(a, true, Fields(VersionCode(version), p.memory, p.passes, p.lanes, salt, hash), []);
            && (checks.Err? ==> r == Err(checks.error) && dst[..] == old(dst[..]))
            && (checks.Ok? ==> r == PrintResult(text, dst.Length))
            && (r.Ok? ==> dst[..r.value] == text)
  {
    hide Encode, Written, HeadText, ValidateInputs;
    var f := Fields(VersionCode(version), p.memory, p.passes, p.lanes, salt, hash);
    HeadAndBinary(a, f);
    var _ :- ValidateInputs(|hash|, 0, |salt|, 0, 0, p.memory, p.passes, p.lanes, p.threads);
    var w := new Writer(dst);
    var _ :- PutHead(w, a, f);
    var _ :- w.Put(DOLLAR);
    var _ :- w.PutBase64(salt, backend);
    var _ :- w.Put(DOLLAR);
    var _ :- w.PutBase64(hash, backend);
    r := Ok(w.pos);
  }

  /** A buffer of exactly `encoded_len` bytes succeeds, one byte less does not, and one byte less is written. */
  lemma EncodedLenIsExact(a: Algorithm, v: Version, f: Fields, room: nat)
    requires f.version == VersionCode(v)
    ensures var n := 15 + |Name(a)| + |Dec(f.passes)| + |Dec(f.memory)| + |Dec(f.lanes)|
                     + B64Len(|f.salt|) + B64Len(|f.hash|) + 3;
            && (PrintResult(Written(a, true, f, []), room).Ok? <==> room >= n)
            && (room >= n ==> PrintResult(Written(a, true, f, []), room) == Ok(n - 1))
  {
    hide Written, Dec, B64Len;
    WrittenLength(a, v, f);
  }
}
