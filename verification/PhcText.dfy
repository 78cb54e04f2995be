/** PHC strings: what is printed, as bytes. */
module PhcText {
  import opened Machine
  import opened Params
  import opened Base64
  import opened Decimal

  type Text = seq<u8>

  /** `$`, `$v=`, `$m=`, `,t=` and `,p=`. */
  const DOLLAR: Text := [36]
  const V_FIELD: Text := [36, 118, 61]
  const M_FIELD: Text := [36, 109, 61]
  const T_FIELD: Text := [44, 116, 61]
  const P_FIELD: Text := [44, 112, 61]

  /** `argon2d`, `argon2i` and `argon2id`. */
  function Name(a: Algorithm): Text {
    match a
    case Argon2d => [97, 114, 103, 111, 110, 50, 100]
    case Argon2i => [97, 114, 103, 111, 110, 50, 105]
    case Argon2id => [97, 114, 103, 111, 110, 50, 105, 100]
  }

  function VersionFrom(n: nat): Option<Version> {
    if n == 16 then Some(V0x10) else if n == 19 then Some(V0x13) else None
  }

  /** The numbers and byte strings of a record. */
  datatype Fields = Fields(version: u32, memory: u32, passes: u32, lanes: u32, salt: seq<u8>, hash: seq<u8>)

  /** From the salt on. */
  function WrittenBinary(f: Fields, tail: Text): Text { DOLLAR + (Encode(f.salt) + (DOLLAR + (Encode(f.hash) + tail))) }

  /** From the costs on. */
  function WrittenCosts(f: Fields, tail: Text): Text {
    M_FIELD + (Dec(f.memory) + (T_FIELD + (Dec(f.passes) + (P_FIELD + (Dec(f.lanes) + WrittenBinary(f, tail))))))
  }

  /** The version field may be left out. */
  function WrittenVersion(versioned: bool, f: Fields, tail: Text): Text {
    if versioned then V_FIELD + (Dec(f.version) + WrittenCosts(f, tail)) else WrittenCosts(f, tail)
  }

  /** A record as text, with something after it. */
  function Written(a: Algorithm, versioned: bool, f: Fields, tail: Text): Text {
    DOLLAR + (Name(a) + WrittenVersion(versioned, f, tail))
  }

  /** `encoded_len`: the terminator counts. */
  method EncodedLen(a: Algorithm, passes: u32, memory: u32, lanes: u32, saltLen: u32, hashLen: u32) returns (n: nat)
    ensures n == 15 + |Name(a)| + |Dec(passes)| + |Dec(memory)| + |Dec(lanes)| + B64Len(saltLen) + B64Len(hashLen) + 3
    ensures forall v, salt, hash :: |salt| == saltLen && |hash| == hashLen ==>
              n == |Written(a, true, Fields(VersionCode(v), memory, passes, lanes, salt, hash), [])| + 1
  {
    forall v, salt: seq<u8>, hash: seq<u8> | |salt| == saltLen && |hash| == hashLen
      ensures |Written(a, true, Fields(VersionCode(v), memory, passes, lanes, salt, hash), [])|
           == 15 + |Name(a)| + |Dec(passes)| + |Dec(memory)| + |Dec(lanes)| + B64Len(saltLen) + B64Len(hashLen) + 2
    {
      WrittenLength(a, v, Fields(VersionCode(v), memory, passes, lanes, salt, hash));
    }
    hide Written;
    var t := NumLen(passes);
    var m := NumLen(memory);
    var p := NumLen(lanes);
    var v := NumLen(19);
    assert |Dec(19)| == 2;
    n := 15 + |Name(a)| + t + m + p + B64Len(saltLen) + B64Len(hashLen) + v + 1;
  }

  lemma VersionDigits(v: Version)
    ensures |Dec(VersionCode(v))| == 2
  {
  }

  /** The length of a record with its version, to the byte. */
  lemma WrittenLength(a: Algorithm, v: Version, f: Fields)
    requires f.version == VersionCode(v)
    ensures |Written(a, true, f, [])|
         == 15 + |Name(a)| + |Dec(f.passes)| + |Dec(f.memory)| + |Dec(f.lanes)|
            + B64Len(|f.salt|) + B64Len(|f.hash|) + 2
  {
    hide Dec, Encode, B64Len;
    VersionDigits(v);
  }

  /** What the checks say of a record. */
  function Validated(f: Fields): Result<()> {
    ValidateInputs(|f.hash|, 0, |f.salt|, 0, 0, f.memory, f.passes, f.lanes, f.lanes)
  }

  /** The fields a PHC string yields. */
  datatype Decoded = Decoded(
    algorithm: Algorithm,
    version: Version,
    params: Costs,
    salt: seq<u8>,
    hash: seq<u8>,
    ad: seq<u8>)
}
