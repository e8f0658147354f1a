/** What the command mapper reads of a declared struct, field by field, on either native transport. */
module PayloadFields {
  import opened GoValues
  import opened RespCodec
  import opened GoTypes
  import opened Float64
  import opened PayloadEncode
  import opened PayloadRoundTrip
  import opened JsonTrip
  import opened CommandMap

  lemma StructHasType(fs: seq<Field>, layout: seq<Layout>, vs: seq<GoVal>)
    requires DeclaredAs(fs, layout) && |vs| == |layout|
    requires forall i | 0 <= i < |vs| :: HasType(vs[i], layout[i].ty)
    ensures HasType(VStruct(vs), TStruct(fs))
  {
  }

  function GoStrings(ss: seq<string>): seq<GoVal> {
    seq(|ss|, i requires 0 <= i < |ss| => VStr(ss[i]))
  }

  function SentTexts(resp3: bool, ss: seq<string>): seq<Value> {
    seq(|ss|, i requires 0 <= i < |ss| => SentText(resp3, ss[i]))
  }

  lemma StringsHaveType(ss: seq<string>)
    ensures HasType(VSeq(GoStrings(ss)), TSlice(TString))
  {
  }

  lemma StringsArrive(lib: GoLib, resp3: bool, ss: seq<string>)
    requires HasType(VSeq(GoStrings(ss)), TSlice(TString))
    ensures Arrives(lib, resp3, VSeq(GoStrings(ss)), TSlice(TString)) == Arr(SentTexts(resp3, ss))
  {
    var v := VSeq(GoStrings(ss));
    assert (if resp3 then JsonSeq(lib, v, TString) else EncodeSeq(v, TString)).items == SentTexts(resp3, ss);
  }

  /** A struct of this layout, with these values. */
  predicate Holding(fs: seq<Field>, layout: seq<Layout>, vs: seq<GoVal>) {
    DeclaredAs(fs, layout) && GoodNames(layout) && HasType(VStruct(vs), TStruct(fs))
  }

  /** The payload map of such a struct. */
  function MapOfStruct(lib: GoLib, resp3: bool, fs: seq<Field>, vs: seq<GoVal>): Payload
    requires HasType(VStruct(vs), TStruct(fs))
  {
    Reaches(lib, resp3, VStruct(vs), TStruct(fs))
  }

  lemma TextReaches(lib: GoLib, resp3: bool, fs: seq<Field>, layout: seq<Layout>, vs: seq<GoVal>, i: nat, name: string)
    requires Holding(fs, layout, vs) && i < |layout| && layout[i] == Layout(name, TString, false)
    ensures vs[i].VStr? && FieldText(lib, MapOfStruct(lib, resp3, fs, vs), name) == SentText(resp3, vs[i].s)
  {
    DeclaredReaches(lib, resp3, VStruct(vs), fs, layout, i);
  }

  lemma IntegerReaches(lib: GoLib, resp3: bool, fs: seq<Field>, layout: seq<Layout>, vs: seq<GoVal>, i: nat,
      name: string)
    requires Holding(fs, layout, vs) && i < |layout| && layout[i].name == name && !layout[i].optional
    requires layout[i].ty == TInt(W64) || layout[i].ty == TUint(W64)
    ensures vs[i].VInt? && FieldInt(lib, MapOfStruct(lib, resp3, fs, vs), name) == GoInt(IntBack(lib, vs[i].n))
  {
    DeclaredReaches(lib, resp3, VStruct(vs), fs, layout, i);
  }

  lemma ListReaches(lib: GoLib, resp3: bool, fs: seq<Field>, layout: seq<Layout>, vs: seq<GoVal>, i: nat, name: string,
      ss: seq<string>)
    requires Holding(fs, layout, vs) && i < |layout| && layout[i] == Layout(name, TSlice(TString), false)
    requires i < |vs| && vs[i] == VSeq(GoStrings(ss))
    ensures Each(lib, MapOfStruct(lib, resp3, fs, vs), name) == SentTexts(resp3, ss)
  {
    DeclaredReaches(lib, resp3, VStruct(vs), fs, layout, i);
    StringsArrive(lib, resp3, ss);
    assert Rendered(lib, SentTexts(resp3, ss)) == SentTexts(resp3, ss);
  }

  lemma AnyReaches(lib: GoLib, resp3: bool, fs: seq<Field>, layout: seq<Layout>, vs: seq<GoVal>, i: nat, name: string)
    requires Holding(fs, layout, vs) && i < |layout| && layout[i] == Layout(name, TAny, false)
    ensures HasType(vs[i], TAny)
    ensures FieldText(lib, MapOfStruct(lib, resp3, fs, vs), name) == Str(Render(lib, Arrives(lib, resp3, vs[i], TAny)))
  {
    DeclaredReaches(lib, resp3, VStruct(vs), fs, layout, i);
  }

  function OptionalInt(n: Option<int>): GoVal {
    if n.Some? then VRef(VInt(n.value)) else VNil
  }

  /** An optional integer behind a pointer: nil does not travel and reads as 0, anything else does. */
  lemma OptionalReaches(lib: GoLib, resp3: bool, fs: seq<Field>, layout: seq<Layout>, vs: seq<GoVal>, i: nat,
      name: string)
    requires Holding(fs, layout, vs) && i < |layout| && layout[i] == Layout(name, TPtr(TInt(W64)), true)
    ensures vs[i].VNil? || (vs[i].VRef? && vs[i].to.VInt?)
    ensures var m := MapOfStruct(lib, resp3, fs, vs);
      if vs[i].VNil? then name !in m && FieldInt(lib, m, name) == GoInt(0)
      else FieldInt(lib, m, name) == GoInt(IntBack(lib, vs[i].to.n))
  {
    OptionalPointerReaches(lib, resp3, VStruct(vs), fs, layout, i);
    PointerArrives(lib, resp3, vs[i]);
    TruncOfInt(0);
  }

  lemma PointerArrives(lib: GoLib, resp3: bool, v: GoVal)
    requires HasType(v, TPtr(TInt(W64)))
    ensures v.VNil? || (v.VRef? && HasType(v.to, TInt(W64)) && v.to.VInt?)
    ensures v.VRef? ==> Arrives(lib, resp3, v, TPtr(TInt(W64))) == Float(RoundInt(v.to.n) as real)
  {
    if v.VRef? {
      assert Arrives(lib, resp3, v, TPtr(TInt(W64))) == Arrives(lib, resp3, v.to, TInt(W64));
    }
  }

  lemma NameAbsent(lib: GoLib, resp3: bool, fs: seq<Field>, layout: seq<Layout>, vs: seq<GoVal>, name: string)
    requires Holding(fs, layout, vs) && forall i | 0 <= i < |layout| :: layout[i].name != name
    ensures name !in MapOfStruct(lib, resp3, fs, vs)
  {
    NothingElseReaches(lib, resp3, VStruct(vs), fs, layout, name);
  }
}
