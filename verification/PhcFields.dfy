/** Parameters as a list of fields, and what a list of fields reads as. */
module PhcFields {
  import opened Machine
  import opened Base64
  import opened Base64Codec
  import opened Decimal
  import opened PhcText
  import opened PhcLenient

  datatype Field = Field(key: Text, value: Text)

  /** A field that can be written between commas. */
  predicate Separable(f: Field) {
    && (forall i :: 0 <= i < |f.key| ==> f.key[i] != COMMA && f.key[i] != EQUALS)
    && (forall i :: 0 <= i < |f.value| ==> f.value[i] != COMMA)
  }

  function FieldText(f: Field): Text { f.key + [EQUALS] + f.value }

  function Joined(fs: seq<Field>): Text
    requires |fs| >= 1
  {
    if |fs| == 1 then FieldText(fs[0]) else FieldText(fs[0]) + [COMMA] + Joined(fs[1..])
  }

  /** The fields of a list, one after the other. */
  function TakeFields(fs: seq<Field>, s: Found): Result<Found> {
    if |fs| == 0 then Ok(s)
    else
      var s' :- Take(s, fs[0].key, fs[0].value);
      TakeFields(fs[1..], s')
  }

  lemma {:induction false} IndexIs(src: Text, c: u8, i: nat)
    requires i <= |src| && (i < |src| ==> src[i] == c) && forall j :: 0 <= j < i ==> src[j] != c
    ensures IndexOf(src, c) == i
  {
    if |src| > 0 && i > 0 {
      IndexIs(src[1..], c, i - 1);
    }
  }

  lemma FieldParts(f: Field)
    requires Separable(f)
    ensures IndexOf(FieldText(f), EQUALS) == |f.key| < |FieldText(f)|
    ensures FieldText(f)[..|f.key|] == f.key && FieldText(f)[|f.key| + 1..] == f.value
    ensures IndexOf(FieldText(f), COMMA) == |FieldText(f)|
  {
    IndexIs(FieldText(f), EQUALS, |f.key|);
    IndexIs(FieldText(f), COMMA, |FieldText(f)|);
  }

  lemma {:induction false} JoinedIsTaken(fs: seq<Field>, s: Found)
    requires |fs| >= 1 && forall i :: 0 <= i < |fs| ==> Separable(fs[i])
    ensures |Joined(fs)| >= 1 && TakeAll(Joined(fs), s) == TakeFields(fs, s)
  {
    hide Take, Separable;
    var f, text := fs[0], FieldText(fs[0]);
    FieldParts(f);
    if |fs| == 1 {
      assert text[..|text|] == text;
      assert forall s' :: TakeFields(fs[1..], s') == Ok(s');
    } else {
      var rest := Joined(fs[1..]);
      IndexIs(text + [COMMA] + rest, COMMA, |text|);
      assert (text + [COMMA] + rest)[..|text|] == text;
      assert (text + [COMMA] + rest)[|text| + 1..] == rest;
      var taken := Take(s, f.key, f.value);
      JoinedIsTaken(fs[1..], if taken.Ok? then taken.value else s);
    }
  }

  predicate Known(key: Text) { key == M_KEY || key == T_KEY || key == P_KEY || key == DATA_KEY }

  /** The value of the last field with a key. */
  function Last(fs: seq<Field>, key: Text): Option<Text> {
    if |fs| == 0 then None else if fs[|fs| - 1].key == key then Some(fs[|fs| - 1].value) else Last(fs[..|fs| - 1], key)
  }

  /** Whether a field can be taken at all. */
  predicate Readable(f: Field) {
    && (f.key == M_KEY || f.key == T_KEY || f.key == P_KEY ==> ParamU32(f.value).Ok?)
    && (f.key == DATA_KEY ==> DecodeAll(f.value).Ok?)
  }

  function NumberOf(value: Option<Text>): Option<u32> {
    if value.Some? && ParamU32(value.value).Ok? then Some(ParamU32(value.value).value) else None
  }

  function BytesOf(value: Option<Text>): seq<u8> {
    if value.Some? && DecodeAll(value.value).Ok? then DecodeAll(value.value).value else []
  }

  /** What a list of fields comes to. */
  function Summary(fs: seq<Field>): Found {
    Found(NumberOf(Last(fs, M_KEY)), NumberOf(Last(fs, T_KEY)), NumberOf(Last(fs, P_KEY)), BytesOf(Last(fs, DATA_KEY)))
  }

  lemma {:induction false} TakeFieldsLast(fs: seq<Field>, f: Field, s: Found)
    ensures TakeFields(fs + [f], s) ==
      if TakeFields(fs, s).Ok? then Take(TakeFields(fs, s).value, f.key, f.value) else TakeFields(fs, s)
  {
    hide Take;
    if |fs| == 0 {
      assert fs + [f] == [f];
      assert forall s' :: TakeFields([f][1..], s') == Ok(s');
    } else {
      assert (fs + [f])[1..] == fs[1..] + [f];
      var taken := Take(s, fs[0].key, fs[0].value);
      TakeFieldsLast(fs[1..], f, if taken.Ok? then taken.value else s);
    }
  }

  lemma TakeIsSummary(fs: seq<Field>, f: Field)
    ensures Take(Summary(fs), f.key, f.value) == if Readable(f) then Ok(Summary(fs + [f])) else Err(DecodingFail)
  {
    hide ParamU32, DecodeAll;
    assert (fs + [f])[..|fs|] == fs;
    ErrorsAreAlike(f.value);
  }

  lemma ErrorsAreAlike(value: Text)
    ensures ParamU32(value).Err? ==> ParamU32(value) == Err(DecodingFail)
    ensures DecodeAll(value).Err? ==> DecodeAll(value) == Err(DecodingFail)
  {
    hide Run, Canonical;
  }

  /** A list of fields comes to the last value of each known key, if all of them can be read. */
  lemma {:induction false} FieldsAreSummed(fs: seq<Field>)
    ensures TakeFields(fs, NOTHING)
         == if forall i :: 0 <= i < |fs| ==> Readable(fs[i]) then Ok(Summary(fs)) else Err(DecodingFail)
  {
    hide Take, Readable, NumberOf, BytesOf;
    if |fs| == 0 {
      assert NumberOf(None) == None && BytesOf(None) == [] by { NothingFound(); }
    } else {
      var n := |fs| - 1;
      FieldsAreSummed(fs[..n]);
      assert fs == fs[..n] + [fs[n]];
      TakeFieldsLast(fs[..n], fs[n], NOTHING);
      TakeIsSummary(fs[..n], fs[n]);
    }
  }

  lemma NothingFound()
    ensures NumberOf(None) == None && BytesOf(None) == []
  {
  }

  /**
   The parameters depend on the known fields only, and on their order only where a key is repeated:
   two lists with the same last values, all readable, read the same.
   */
  lemma OrderDoesNotMatter(fs: seq<Field>, gs: seq<Field>)
    requires |fs| >= 1 && |gs| >= 1
    requires forall i :: 0 <= i < |fs| ==> Separable(fs[i]) && Readable(fs[i])
    requires forall i :: 0 <= i < |gs| ==> Separable(gs[i]) && Readable(gs[i])
    requires forall key :: Known(key) ==> Last(fs, key) == Last(gs, key)
    ensures ParamsOf(Joined(fs)) == ParamsOf(Joined(gs)) == Complete(Summary(fs))
  {
    hide Take, TakeAll, TakeFields, Separable, Readable, Last, Joined, NumberOf, BytesOf;
    JoinedIsTaken(fs, NOTHING);
    JoinedIsTaken(gs, NOTHING);
    FieldsAreSummed(fs);
    FieldsAreSummed(gs);
    assert Known(M_KEY) && Known(T_KEY) && Known(P_KEY) && Known(DATA_KEY);
  }

  /** Where keys are not repeated the last value of a key is its only one. */
  predicate Distinct(fs: seq<Field>) { forall i, j :: 0 <= i < j < |fs| ==> fs[i].key != fs[j].key }

  lemma {:induction false} LastIs(fs: seq<Field>, f: Field)
    requires Distinct(fs) && f in fs
    ensures Last(fs, f.key) == Some(f.value)
  {
    var n := |fs| - 1;
    if fs[n] != f {
      assert f in fs[..n];
      LastIs(fs[..n], f);
    }
  }

  lemma {:induction false} LastIsThere(fs: seq<Field>, key: Text)
    ensures Last(fs, key).Some? ==> Field(key, Last(fs, key).value) in fs
  {
    if |fs| > 0 {
      LastIsThere(fs[..|fs| - 1], key);
    }
  }

  lemma {:induction false} NoneTwice(fs: seq<Field>, f: Field)
    requires Distinct(fs)
    ensures multiset(fs)[f] <= 1
  {
    if |fs| > 0 {
      var n := |fs| - 1;
      NoneTwice(fs[..n], f);
      assert fs == fs[..n] + [fs[n]];
      assert fs[n] == f ==> f !in fs[..n];
    }
  }

  lemma SomeTwice(fs: seq<Field>, i: nat, j: nat)
    requires i < j < |fs| && fs[i] == fs[j]
    ensures multiset(fs)[fs[i]] >= 2
  {
    assert fs == fs[..j] + fs[j..];
    assert fs[i] in fs[..j] && fs[j] in fs[j..] by {
      assert fs[..j][i] == fs[i] && fs[j..][0] == fs[j];
    }
  }

  lemma PermutedIsDistinct(fs: seq<Field>, gs: seq<Field>)
    requires multiset(fs) == multiset(gs) && Distinct(fs)
    ensures Distinct(gs)
  {
    forall i, j | 0 <= i < j < |gs|
      ensures gs[i].key != gs[j].key
    {
      assert gs[i] in multiset(fs) && gs[j] in multiset(fs);
      if gs[i] == gs[j] {
        SomeTwice(gs, i, j);
        NoneTwice(fs, gs[i]);
      }
    }
  }

  /** Any order of the same fields, their keys distinct, reads the same. */
  lemma PermutationsAgree(fs: seq<Field>, gs: seq<Field>)
    requires |fs| >= 1 && multiset(fs) == multiset(gs) && Distinct(fs)
    requires forall i :: 0 <= i < |fs| ==> Separable(fs[i]) && Readable(fs[i])
    ensures |gs| >= 1 && ParamsOf(Joined(fs)) == ParamsOf(Joined(gs))
  {
    hide Separable, Readable, Last, Joined, ParamsOf, Distinct;
    PermutedIsDistinct(fs, gs);
    assert |multiset(fs)| == |multiset(gs)|;
    forall f: Field
      ensures f in fs <==> f in gs
    {
      assert f in multiset(fs) <==> f in multiset(gs);
    }
    forall i | 0 <= i < |gs|
      ensures Separable(gs[i]) && Readable(gs[i])
    {
      assert gs[i] in fs;
    }
    forall key | Known(key)
      ensures Last(fs, key) == Last(gs, key)
    {
      LastIsThere(fs, key);
      LastIsThere(gs, key);
      if Last(fs, key).Some? {
        LastIs(gs, Field(key, Last(fs, key).value));
      } else if Last(gs, key).Some? {
        LastIs(fs, Field(key, Last(gs, key).value));
      }
    }
    OrderDoesNotMatter(fs, gs);
  }

  lemma {:induction false} LastSkips(fs: seq<Field>, f: Field, gs: seq<Field>, key: Text)
    requires f.key != key
    ensures Last(fs + [f] + gs, key) == Last(fs + gs, key)
  {
    if |gs| == 0 {
      assert fs + [f] + gs == fs + [f] && fs + gs == fs;
      assert (fs + [f])[..|fs|] == fs;
    } else {
      var n := |gs| - 1;
      LastSkips(fs, f, gs[..n], key);
      assert (fs + [f] + gs)[..|fs| + 1 + n] == fs + [f] + gs[..n];
      assert (fs + gs)[..|fs| + n] == fs + gs[..n];
    }
  }

  /** An unknown key, anywhere, with any value, changes nothing. */
  lemma UnknownKeysAreIgnored(fs: seq<Field>, f: Field, gs: seq<Field>)
    requires !Known(f.key) && Separable(f) && |fs + gs| >= 1
    requires forall i :: 0 <= i < |fs + gs| ==> Separable((fs + gs)[i]) && Readable((fs + gs)[i])
    ensures |fs + [f] + gs| >= 1 && ParamsOf(Joined(fs + [f] + gs)) == ParamsOf(Joined(fs + gs))
  {
    hide Separable, Last, Joined, ParamsOf;
    var more := fs + [f] + gs;
    forall i | 0 <= i < |more|
      ensures Separable(more[i]) && Readable(more[i])
    {
      if i < |fs| {
        assert more[i] == (fs + gs)[i];
      } else if i > |fs| {
        assert more[i] == (fs + gs)[i - 1];
      }
    }
    hide Readable;
    forall key | Known(key)
      ensures Last(more, key) == Last(fs + gs, key)
    {
      LastSkips(fs, f, gs, key);
    }
    OrderDoesNotMatter(more, fs + gs);
  }

  // ---------------------------------------------------------------------------
  // Any text that reads
  // ---------------------------------------------------------------------------

  /** The field a text without a comma is, if it has an `=`. */
  lemma FieldWas(field: Text) returns (f: Field)
    requires IndexOf(field, EQUALS) < |field| && forall i :: 0 <= i < |field| ==> field[i] != COMMA
    ensures field == FieldText(f) && Separable(f)
    ensures f == Field(field[..IndexOf(field, EQUALS)], field[IndexOf(field, EQUALS) + 1..])
  {
    var e := IndexOf(field, EQUALS);
    f := Field(field[..e], field[e + 1..]);
  }

  lemma JoinedOneMore(f: Field, more: seq<Field>, field: Text, rest: Text, i: nat)
    requires i < |rest| - 1 && rest[i] == COMMA && field == rest[..i] == FieldText(f) && |more| >= 1
    requires rest[i + 1..] == Joined(more) || rest[i + 1..] == Joined(more) + [COMMA]
    ensures rest == Joined([f] + more) || rest == Joined([f] + more) + [COMMA]
  {
    hide FieldText, Joined;
    var before, after := field + [COMMA], rest[i + 1..];
    assert rest == before + after;
    JoinedCons(f, more);
    if after == Joined(more) + [COMMA] {
      assert before + (Joined(more) + [COMMA]) == (before + Joined(more)) + [COMMA];
    }
  }

  lemma JoinedCons(f: Field, more: seq<Field>)
    requires |more| >= 1
    ensures Joined([f] + more) == FieldText(f) + [COMMA] + Joined(more)
  {
    hide FieldText;
    assert ([f] + more)[1..] == more;
  }

  lemma {:induction false} TextIsFields(rest: Text, s: Found) returns (fs: seq<Field>)
    requires TakeAll(rest, s).Ok?
    ensures |fs| >= 1 && forall i :: 0 <= i < |fs| ==> Separable(fs[i])
    ensures rest == Joined(fs) || rest == Joined(fs) + [COMMA]
    decreases |rest|
  {
    hide Take, Separable, FieldText;
    var i := IndexOf(rest, COMMA);
    var field := rest[..i];
    var f := FieldWas(field);
    if i >= |rest| - 1 {
      fs := [f];
      assert rest == field || rest == field + [COMMA];
    } else {
      var more := TextIsFields(rest[i + 1..], Take(s, f.key, f.value).value);
      fs := [f] + more;
      hide TakeAll;
      assert fs[1..] == more;
      JoinedOneMore(f, more, field, rest, i);
    }
  }

  /** Parameters that read are a list of fields between commas, with at most one comma after the last. */
  lemma ParamsAreFields(params: Text) returns (fs: seq<Field>)
    requires ParamsOf(params).Ok?
    ensures |fs| >= 1 && forall i :: 0 <= i < |fs| ==> Separable(fs[i]) && Readable(fs[i])
    ensures params == Joined(fs) || params == Joined(fs) + [COMMA]
    ensures ParamsOf(params) == Complete(Summary(fs))
  {
    hide TakeAll, TakeFields, Separable, Readable, Summary, Joined;
    fs := TextIsFields(params, NOTHING);
    JoinedIsTaken(fs, NOTHING);
    FieldsAreSummed(fs);
    if params == Joined(fs) + [COMMA] {
      LastCommaIsDropped(fs, NOTHING);
    }
  }

  /** Taking one field's text. */
  function TakeText(text: Text, s: Found): Result<Found> {
    var e := IndexOf(text, EQUALS);
    if e == |text| then Err(DecodingFail) else Take(s, text[..e], text[e + 1..])
  }

  lemma TakeAllStep(text: Text, rest: Text, s: Found)
    requires forall i :: 0 <= i < |text| ==> text[i] != COMMA
    requires |rest| > 0
    ensures TakeAll(text + [COMMA] + rest, s)
         == if TakeText(text, s).Ok? then TakeAll(rest, TakeText(text, s).value) else TakeText(text, s)
  {
    hide Take;
    var src := text + [COMMA] + rest;
    IndexIs(src, COMMA, |text|);
    assert src[..|text|] == text && src[|text| + 1..] == rest;
  }

  lemma TakeAllEnd(text: Text, s: Found)
    requires forall i :: 0 <= i < |text| ==> text[i] != COMMA
    ensures TakeAll(text, s) == TakeAll(text + [COMMA], s) == TakeText(text, s)
  {
    hide Take;
    IndexIs(text, COMMA, |text|);
    IndexIs(text + [COMMA], COMMA, |text|);
    assert text[..|text|] == text && (text + [COMMA])[..|text|] == text;
  }

  lemma {:induction false} LastCommaIsDropped(fs: seq<Field>, s: Found)
    requires |fs| >= 1 && forall i :: 0 <= i < |fs| ==> Separable(fs[i])
    ensures TakeAll(Joined(fs) + [COMMA], s) == TakeAll(Joined(fs), s)
  {
    var text := FieldText(fs[0]);
    assert forall i :: 0 <= i < |text| ==> text[i] != COMMA;
    hide TakeAll, TakeText, FieldText, Separable;
    if |fs| == 1 {
      TakeAllEnd(text, s);
    } else {
      var rest := Joined(fs[1..]);
      JoinedIsTaken(fs[1..], s);
      TakeAllStep(text, rest, s);
      TakeAllStep(text, rest + [COMMA], s);
      assert text + [COMMA] + rest + [COMMA] == text + [COMMA] + (rest + [COMMA]);
      var taken := TakeText(text, s);
      LastCommaIsDropped(fs[1..], if taken.Ok? then taken.value else s);
    }
  }
}
