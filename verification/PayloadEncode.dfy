/** `payloadToMap` and `payloadValue`: a typed payload becomes the tree the command mapper reads. */
module PayloadEncode {
  import opened GoValues
  import opened GoTypes
  import opened Float64

  /** Every integer becomes a float; pointers and interfaces are looked through; a byte slice is a
      string; struct fields go by their wire names. */
  function Encode(v: GoVal, ty: GoType): Value
    requires HasType(v, ty)
    decreases v
  {
    match ty
    case TBool => Bool(v.b)
    case TInt(_) => Float(RoundInt(v.n) as real)
    case TUint(_) => Float(RoundInt(v.n) as real)
    case TFloat => Float(v.r)
    case TString => Str(v.s)
    case TSlice(e) => if IsByte(e) then Str(v.s) else EncodeSeq(v, e)
    case TArray(_, e) => EncodeSeq(v, e)
    case TMap(e) => EncodeMap(v, e)
    case TPtr(e) => if v.VNil? then Nil else Encode(v.to, e)
    case TStruct(fs) => Map(EncodeFields(fs, v.fields))
    case TAny => if v.VNil? then Nil else Encode(v.of, v.dyn)
  }

  function EncodeSeq(v: GoVal, e: GoType): Value
    requires v.VSeq? && forall i | 0 <= i < |v.items| :: HasType(v.items[i], e)
    decreases v, 0
  {
    Arr(seq(|v.items|, i requires 0 <= i < |v.items| => Encode(v.items[i], e)))
  }

  function EncodeMap(v: GoVal, e: GoType): Value
    requires MapOf(v, e)
    decreases v, 0
  {
    Map(map k | k in v.entries :: Encode(v.entries[k], e))
  }

  predicate MapOf(v: GoVal, e: GoType) {
    v.VMap? && forall k | k in v.entries :: HasType(v.entries[k], e)
  }

  predicate FieldTypes(fs: seq<Field>, vs: seq<GoVal>) {
    |vs| == |fs| && forall i | 0 <= i < |fs| :: HasType(vs[i], fs[i].ty)
  }

  /** The entries of a struct, first field first, so that a later field of the same name wins. */
  function EncodeFields(fs: seq<Field>, vs: seq<GoVal>): map<string, Value>
    requires FieldTypes(fs, vs)
    decreases vs
  {
    if vs == [] then map[]
    else
      var n := |vs| - 1;
      var earlier := EncodeFields(fs[..n], vs[..n]);
      if Included(fs[n], vs[n]) then earlier[WireName(fs[n]) := Encode(vs[n], fs[n].ty)] else earlier
  }

  /** `payloadValue`. The loop over a map takes its keys in any order. */
  method PayloadValue(v: GoVal, ty: GoType) returns (t: Value)
    requires HasType(v, ty)
    ensures t == Encode(v, ty)
    decreases v
  {
    match ty {
      case TBool => return Bool(v.b);
      case TInt(_) => return Float(RoundInt(v.n) as real);
      case TUint(_) => return Float(RoundInt(v.n) as real);
      case TFloat => return Float(v.r);
      case TString => return Str(v.s);
      case TSlice(e) =>
        if IsByte(e) {
          return Str(v.s);
        }
        t := PayloadSeq(v, e);
      case TArray(_, e) => t := PayloadSeq(v, e);
      case TMap(e) => t := PayloadMap(v, e);
      case TPtr(e) =>
        if v.VNil? {
          return Nil;
        }
        t := PayloadValue(v.to, e);
      case TStruct(fs) =>
        var out := PayloadStruct(v, fs);
        t := Map(out);
      case TAny =>
        if v.VNil? {
          return Nil;
        }
        t := PayloadValue(v.of, v.dyn);
    }
  }

  method PayloadSeq(v: GoVal, e: GoType) returns (t: Value)
    requires v.VSeq? && forall i | 0 <= i < |v.items| :: HasType(v.items[i], e)
    ensures t == EncodeSeq(v, e)
    decreases v, 0
  {
    var out: seq<Value> := [];
    for i := 0 to |v.items|
      invariant |out| == i && forall j | 0 <= j < i :: out[j] == Encode(v.items[j], e)
    {
      var item := PayloadValue(v.items[i], e);
      out := out + [item];
    }
    t := Arr(out);
  }

  method PayloadMap(v: GoVal, e: GoType) returns (t: Value)
    requires MapOf(v, e)
    ensures t == EncodeMap(v, e)
    decreases v, 0
  {
    var out: map<string, Value> := map[];
    var keys := v.entries.Keys;
    while keys != {}
      invariant keys <= v.entries.Keys && out.Keys == v.entries.Keys - keys
      invariant EntriesEncoded(v, e, out)
      decreases |keys|
    {
      var k :| k in keys;
      var val := PayloadValue(v.entries[k], e);
      EntryEncoded(v, e, out, k);
      out := out[k := val];
      keys := keys - {k};
    }
    AllEncoded(v, e, out);
    t := Map(out);
  }

  ghost predicate EntriesEncoded(v: GoVal, e: GoType, out: map<string, Value>)
    requires MapOf(v, e)
  {
    forall k | k in out :: k in v.entries && out[k] == Encode(v.entries[k], e)
  }

  lemma EntryEncoded(v: GoVal, e: GoType, out: map<string, Value>, k: string)
    requires MapOf(v, e) && EntriesEncoded(v, e, out) && k in v.entries
    ensures EntriesEncoded(v, e, out[k := Encode(v.entries[k], e)])
  {
  }

  lemma AllEncoded(v: GoVal, e: GoType, out: map<string, Value>)
    requires MapOf(v, e) && EntriesEncoded(v, e, out) && out.Keys == v.entries.Keys
    ensures Map(out) == EncodeMap(v, e)
  {
    var want := EncodedEntries(v, e);
    SameMap(out, want);
  }

  lemma SameMap(a: map<string, Value>, b: map<string, Value>)
    requires a.Keys == b.Keys && forall k | k in a :: a[k] == b[k]
    ensures a == b
  {
  }

  lemma EncodedEntries(v: GoVal, e: GoType) returns (want: map<string, Value>)
    requires MapOf(v, e)
    ensures Map(want) == EncodeMap(v, e) && want.Keys == v.entries.Keys
    ensures forall k | k in want :: want[k] == Encode(v.entries[k], e)
  {
    want := EncodeMap(v, e).entries;
  }

  /** `payloadToMap`: what is behind the pointers of the payload, as entries; anything that is neither
      a struct nor a map has none. */
  method PayloadToMap(payload: GoVal, ty: GoType) returns (out: map<string, Value>)
    requires HasType(payload, ty)
    ensures out == if Encode(payload, ty).Map? then Encode(payload, ty).entries else map[]
  {
    var v, t := payload, ty;
    while t.TPtr? || t.TAny?
      invariant HasType(v, t) && Encode(v, t) == Encode(payload, ty)
      decreases v
    {
      if v.VNil? {
        return map[];
      }
      v, t := if t.TPtr? then v.to else v.of, if t.TPtr? then t.elem else v.dyn;
    }
    if t.TMap? {
      var m := PayloadMap(v, t.elem);
      return m.entries;
    }
    if !t.TStruct? {
      return map[];
    }
    out := PayloadStruct(v, t.fields);
  }

  /** `payloadToMap` on a struct. */
  method PayloadStruct(v: GoVal, fs: seq<Field>) returns (out: map<string, Value>)
    requires v.VStruct? && FieldTypes(fs, v.fields)
    ensures out == EncodeFields(fs, v.fields)
    decreases v, 0
  {
    out := map[];
    for i := 0 to |fs|
      invariant out == EncodeFields(fs[..i], v.fields[..i])
    {
      assert fs[..i + 1][..i] == fs[..i] && v.fields[..i + 1][..i] == v.fields[..i];
      var field, fv := fs[i], v.fields[i];
      if !field.exported {
        continue;
      }
      var name, omitEmpty, skip := JsonFieldName(field);
      if skip {
        continue;
      }
      if omitEmpty && Empty(fv) {
        continue;
      }
      if field.ty.TPtr? && fv.VNil? {
        continue;
      }
      var val := PayloadValue(fv, field.ty);
      out := out[name := val];
    }
    assert fs[..|fs|] == fs && v.fields[..|fs|] == v.fields;
  }

  /** With distinct wire names the entries of a struct are exactly its included fields. */
  lemma {:induction false} EncodedFields(fs: seq<Field>, vs: seq<GoVal>, i: nat)
    requires FieldTypes(fs, vs) && DistinctNames(fs) && i < |fs| && !Skipped(fs[i])
    ensures var m := EncodeFields(fs, vs); var name := WireName(fs[i]);
      if Included(fs[i], vs[i]) then name in m && m[name] == Encode(vs[i], fs[i].ty) else name !in m
  {
    var n := |vs| - 1;
    if i < n {
      EncodedFields(fs[..n], vs[..n], i);
      LaterFieldKeepsEntry(fs, vs, WireName(fs[i]));
    } else {
      NamesOfEarlier(fs[..n], vs[..n], WireName(fs[n]));
    }
  }

  /** Which fields travel, by their types: an exported field that is not tagged away is absent exactly when it
      is a nil pointer, or optional and false, zero, empty or nil. A pointer that leads anywhere travels. */
  lemma FieldTravelsIff(fs: seq<Field>, vs: seq<GoVal>, i: nat)
    requires FieldTypes(fs, vs) && DistinctNames(fs) && i < |fs| && fs[i].exported && fs[i].tag != "-"
    ensures WireName(fs[i]) !in EncodeFields(fs, vs)
       <==> (fs[i].ty.TPtr? && vs[i] == VNil) || ("omitempty" in Options(fs[i]) && Vacant(vs[i], fs[i].ty))
    ensures vs[i].VRef? ==>
      WireName(fs[i]) in EncodeFields(fs, vs) && EncodeFields(fs, vs)[WireName(fs[i])] == Encode(vs[i], fs[i].ty)
  {
    EncodedFields(fs, vs, i);
    EmptyIff(vs[i], fs[i].ty);
  }

  /** A name that only unexported fields have, or fields tagged away, does not occur. */
  lemma HiddenDoNotTravel(fs: seq<Field>, vs: seq<GoVal>, name: string)
    requires FieldTypes(fs, vs)
    requires forall i | 0 <= i < |fs| && WireName(fs[i]) == name :: !fs[i].exported || fs[i].tag == "-"
    ensures name !in EncodeFields(fs, vs)
  {
    NamesOfEarlier(fs, vs, name);
  }

  lemma LaterFieldKeepsEntry(fs: seq<Field>, vs: seq<GoVal>, name: string)
    requires FieldTypes(fs, vs) && fs != []
    requires var n := |fs| - 1; Skipped(fs[n]) || WireName(fs[n]) != name
    ensures var m, earlier := EncodeFields(fs, vs), EncodeFields(fs[..|fs| - 1], vs[..|fs| - 1]);
      (name in m <==> name in earlier) && (name in m ==> m[name] == earlier[name])
  {
  }

  lemma {:induction false} NamesOfEarlier(fs: seq<Field>, vs: seq<GoVal>, name: string)
    requires FieldTypes(fs, vs) && forall i | 0 <= i < |fs| && !Skipped(fs[i]) :: WireName(fs[i]) != name
    ensures name !in EncodeFields(fs, vs)
  {
    if vs != [] {
      NamesOfEarlier(fs[..|fs| - 1], vs[..|fs| - 1], name);
    }
  }

  /** A pointer or interface chain that ends in nil. Only such values are encoded as nil. */
  predicate NilInside(v: GoVal) {
    match v
    case VNil => true
    case VRef(x) => NilInside(x)
    case VIface(_, x) => NilInside(x)
    case _ => false
  }

  lemma {:induction false} EncodesNil(v: GoVal, ty: GoType)
    requires HasType(v, ty)
    ensures Encode(v, ty) == Nil <==> NilInside(v)
    decreases v
  {
    match v
    case VRef(x) => EncodesNil(x, ty.elem);
    case VIface(d, x) => EncodesNil(x, d);
    case _ =>
  }
}
