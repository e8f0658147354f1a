/** What a payload has become after `json.Marshal` and `json.Unmarshal` into a map, which is how it reaches
    the command mapper on RESP3; and when that is what reflection gives on the binary transport. */
module JsonTrip {
  import opened GoValues
  import opened Decimal
  import opened GoTypes
  import opened Float64
  import opened PayloadEncode
  import opened Utf8

  // ---------------------------------------------------------------- the order of keys

  /** Byte-wise order of strings. */
  predicate Leq(a: string, b: string) {
    a == "" || (b != "" && (a[0] < b[0] || (a[0] == b[0] && Leq(a[1..], b[1..]))))
  }

  lemma {:induction false} LeqTotal(a: string, b: string)
    ensures Leq(a, b) || Leq(b, a)
    ensures Leq(a, b) && Leq(b, a) ==> a == b
  {
    if a != "" && b != "" && a[0] == b[0] {
      LeqTotal(a[1..], b[1..]);
      assert a == [a[0]] + a[1..] && b == [b[0]] + b[1..];
    }
  }

  lemma {:induction false} LeqTransitive(a: string, b: string, c: string)
    requires Leq(a, b) && Leq(b, c)
    ensures Leq(a, c)
  {
    if a != "" && a[0] == b[0] == c[0] {
      LeqTransitive(a[1..], b[1..], c[1..]);
    }
  }

  predicate IsGreatest(keys: set<string>, k: string) {
    k in keys && forall j | j in keys :: Leq(j, k)
  }

  lemma {:induction false} GreatestExists(keys: set<string>) returns (k: string)
    requires keys != {}
    ensures IsGreatest(keys, k)
    decreases |keys|
  {
    k :| k in keys;
    var others := keys - {k};
    LeqTotal(k, k);
    if others != {} {
      var g := GreatestExists(others);
      LeqTotal(k, g);
      if Leq(k, g) {
        k := g;
      } else {
        forall j | j in keys ensures Leq(j, k) {
          if j != k {
            LeqTransitive(j, g, k);
          }
        }
      }
    }
  }

  function Greatest(keys: set<string>): (k: string)
    requires keys != {}
    ensures IsGreatest(keys, k)
  {
    GreatestUnique(keys);
    var k :| k in keys && IsGreatest(keys, k);
    k
  }

  lemma GreatestUnique(keys: set<string>)
    requires keys != {}
    ensures exists k :: k in keys && IsGreatest(keys, k)
    ensures forall k, g | IsGreatest(keys, k) && IsGreatest(keys, g) :: k == g
  {
    var k := GreatestExists(keys);
    forall k, g | IsGreatest(keys, k) && IsGreatest(keys, g) ensures k == g {
      LeqTotal(k, g);
    }
  }

  // ---------------------------------------------------------------- the trip

  /** The keys that become k. They are written in order, and the last one read replaces the others. */
  function Sources(m: map<string, GoVal>, k: string): set<string> {
    set j | j in m && Sanitize(j) == k
  }

  function JsonKeys(m: map<string, GoVal>): set<string> {
    set j | j in m :: Sanitize(j)
  }

  function SourceOf(m: map<string, GoVal>, k: string): (j: string)
    requires k in JsonKeys(m)
    ensures j in m && Sanitize(j) == k
  {
    assert forall i | i in m && Sanitize(i) == k :: i in Sources(m, k);
    Greatest(Sources(m, k))
  }

  // What JSON reads in a field's tag and the SDK does not.

  /** The punctuation a name may have is all but quotes, backslash and comma. */
  predicate NameChar(c: char) {
    'a' <= c <= 'z' || 'A' <= c <= 'Z' || '0' <= c <= '9' || c in "!#$%&()*+-./:;<=>?@[]^_{|}~ "
  }

  predicate ValidName(lib: GoLib, s: string) {
    s != "" && if Ascii(s) then forall i | 0 <= i < |s| :: NameChar(s[i]) else lib.letters(s)
  }

  predicate Tagged(lib: GoLib, f: Field) {
    ValidName(lib, Split(f.tag)[0])
  }

  function JsonName(lib: GoLib, f: Field): string {
    if Tagged(lib, f) then Split(f.tag)[0] else f.name
  }

  /** The option `string` puts a scalar, or what a pointer to one leads to, between quotes. */
  predicate Quoted(f: Field) {
    "string" in Options(f) && IsScalar(if f.ty.TPtr? then f.ty.elem else f.ty)
  }

  predicate IsScalar(ty: GoType) {
    ty.TBool? || ty.TInt? || ty.TUint? || ty.TFloat? || ty.TString?
  }

  /** A value is zero; slices and maps, never being nil here, are not. */
  predicate IsZero(v: GoVal, ty: GoType)
    requires HasType(v, ty)
    decreases v
  {
    match ty
    case TString => v.s == ""
    case TSlice(_) => false
    case TArray(_, e) => forall i | 0 <= i < |v.items| :: IsZero(v.items[i], e)
    case TMap(_) => false
    case TStruct(fs) => forall i | 0 <= i < |fs| :: IsZero(v.fields[i], fs[i].ty)
    case _ => Empty(v)
  }

  /** Field f is dropped by `omitempty` or `omitzero`. */
  predicate Omitted(f: Field, v: GoVal)
    requires HasType(v, f.ty)
  {
    (OmitEmpty(f) && Empty(v)) || ("omitzero" in Options(f) && IsZero(v, f.ty))
  }

  /** Of fields with one name JSON keeps the tagged one, or none. */
  predicate Dominant(lib: GoLib, fs: seq<Field>, i: nat)
    requires i < |fs|
  {
    !Skipped(fs[i])
    && forall j | 0 <= j < |fs| && j != i && !Skipped(fs[j]) && JsonName(lib, fs[j]) == JsonName(lib, fs[i]) ::
         Tagged(lib, fs[i]) && !Tagged(lib, fs[j])
  }

  /** Whether JSON writes field i. A nil pointer without `omitempty` is written, as null. */
  predicate Written(lib: GoLib, fs: seq<Field>, vs: seq<GoVal>, i: nat)
    requires FieldTypes(fs, vs) && i < |fs|
  {
    Dominant(lib, fs, i) && !Omitted(fs[i], vs[i])
  }

  /** Integers become floats, strings valid UTF-8, byte slices base64. */
  function JsonTree(lib: GoLib, v: GoVal, ty: GoType): Value
    requires HasType(v, ty)
    decreases v, 1
  {
    match ty
    case TBool => Bool(v.b)
    case TInt(_) => Float(RoundInt(v.n) as real)
    case TUint(_) => Float(RoundInt(v.n) as real)
    case TFloat => Float(v.r)
    case TString => Str(Sanitize(v.s))
    case TSlice(e) => if IsByte(e) then Str(lib.base64(v.s)) else JsonSeq(lib, v, e)
    case TArray(_, e) => JsonSeq(lib, v, e)
    case TMap(e) => Map(JsonEntries(lib, v, e))
    case TPtr(e) => if v.VNil? then Nil else JsonTree(lib, v.to, e)
    case TStruct(fs) => Map(JsonFields(lib, v, fs))
    case TAny => if v.VNil? then Nil else JsonTree(lib, v.of, v.dyn)
  }

  /** What `string` makes of a scalar: the text of its JSON. */
  function ScalarText(lib: GoLib, v: GoVal, ty: GoType): string
    requires HasType(v, ty) && IsScalar(ty)
  {
    match ty
    case TBool => if v.b then "true" else "false"
    case TFloat => lib.jsonNumber(v.r)
    case TString => lib.jsonQuote(v.s)
    case _ => Text(v.n)
  }

  /** What a field becomes. */
  function JsonField(lib: GoLib, v: GoVal, f: Field): Value
    requires HasType(v, f.ty)
    decreases v, 2
  {
    if !Quoted(f) then JsonTree(lib, v, f.ty)
    else if !f.ty.TPtr? then Str(ScalarText(lib, v, f.ty))
    else if v.VNil? then Nil
    else Str(ScalarText(lib, v.to, f.ty.elem))
  }

  function JsonSeq(lib: GoLib, v: GoVal, e: GoType): Value
    requires v.VSeq? && forall i | 0 <= i < |v.items| :: HasType(v.items[i], e)
    decreases v, 0
  {
    Arr(seq(|v.items|, i requires 0 <= i < |v.items| => JsonTree(lib, v.items[i], e)))
  }

  function JsonEntries(lib: GoLib, v: GoVal, e: GoType): map<string, Value>
    requires MapOf(v, e)
    decreases v, 0
  {
    map k | k in JsonKeys(v.entries) :: JsonTree(lib, v.entries[SourceOf(v.entries, k)], e)
  }

  function JsonFields(lib: GoLib, v: GoVal, fs: seq<Field>): map<string, Value>
    requires v.VStruct? && FieldTypes(fs, v.fields)
    decreases v, 0
  {
    map i | 0 <= i < |fs| && Written(lib, fs, v.fields, i) :: JsonName(lib, fs[i]) := JsonField(lib, v.fields[i], fs[i])
  }

  /** The payload map `sendRPC` and `sendRESP3` hand to the command mapper, before they add the client id.
      A payload that is no object has no entries. */
  function Reaches(lib: GoLib, resp3: bool, v: GoVal, ty: GoType): map<string, Value>
    requires HasType(v, ty)
  {
    var t := if resp3 then JsonTree(lib, v, ty) else Encode(v, ty);
    if t.Map? then t.entries else map[]
  }

  /** What becomes of one value on its way to the mapper. */
  function Arrives(lib: GoLib, resp3: bool, v: GoVal, ty: GoType): Value
    requires HasType(v, ty)
  {
    if resp3 then JsonTree(lib, v, ty) else Encode(v, ty)
  }

  /** The wire names are distinct, and JSON takes them too. */
  predicate WellNamed(lib: GoLib, fs: seq<Field>) {
    DistinctNames(fs) && forall i | 0 <= i < |fs| && !Skipped(fs[i]) :: JsonName(lib, fs[i]) == WireName(fs[i])
  }

  /** Which fields of a struct reach the mapper, and as what: by reflection those not empty-and-optional and
      not nil pointers, through JSON those it does not omit. */
  lemma FieldReaches(lib: GoLib, resp3: bool, v: GoVal, fs: seq<Field>, i: nat)
    requires HasType(v, TStruct(fs)) && WellNamed(lib, fs) && i < |fs| && !Skipped(fs[i])
    ensures var m := Reaches(lib, resp3, v, TStruct(fs)); var name := WireName(fs[i]);
      if !resp3 then
        if Included(fs[i], v.fields[i]) then Holds(m, name, Encode(v.fields[i], fs[i].ty)) else name !in m
      else
        if Omitted(fs[i], v.fields[i]) then name !in m else Holds(m, name, JsonField(lib, v.fields[i], fs[i]))
  {
    WrittenField(lib, v, fs, i);
    EncodedFields(fs, v.fields, i);
  }

  lemma OtherNamesDoNotReach(lib: GoLib, resp3: bool, v: GoVal, fs: seq<Field>, name: string)
    requires HasType(v, TStruct(fs)) && WellNamed(lib, fs)
    requires forall i | 0 <= i < |fs| && !Skipped(fs[i]) :: WireName(fs[i]) != name
    ensures name !in Reaches(lib, resp3, v, TStruct(fs))
  {
    if resp3 {
      assert forall i | 0 <= i < |fs| && Written(lib, fs, v.fields, i) ::
        !Skipped(fs[i]) && JsonName(lib, fs[i]) != name;
      assert name !in JsonFields(lib, v, fs);
    } else {
      NamesOfEarlier(fs, v.fields, name);
    }
  }

  predicate Holds(m: map<string, Value>, name: string, x: Value) {
    name in m && m[name] == x
  }

  lemma DeclaredIsWellNamed(lib: GoLib, fs: seq<Field>, layout: seq<Layout>)
    requires DeclaredAs(fs, layout) && GoodNames(layout)
    ensures WellNamed(lib, fs)
  {
    TagsSay(fs, layout);
    forall i | 0 <= i < |fs| ensures JsonName(lib, fs[i]) == WireName(fs[i]) {
      TagSays(fs[i], layout[i]);
      assert Ascii(layout[i].name);
    }
  }

  /** A field declared without `omitempty` reaches the mapper under its declared name, unless it is a nil
      pointer, which only JSON sends. */
  lemma DeclaredReaches(lib: GoLib, resp3: bool, v: GoVal, fs: seq<Field>, layout: seq<Layout>, i: nat)
    requires HasType(v, TStruct(fs)) && DeclaredAs(fs, layout) && GoodNames(layout)
    requires i < |layout| && !layout[i].optional
    ensures HasType(v.fields[i], layout[i].ty)
    ensures var m := Reaches(lib, resp3, v, TStruct(fs));
      if !resp3 && layout[i].ty.TPtr? && v.fields[i].VNil? then layout[i].name !in m
      else Holds(m, layout[i].name, Arrives(lib, resp3, v.fields[i], layout[i].ty))
  {
    TagsSay(fs, layout);
    DeclaredIsWellNamed(lib, fs, layout);
    FieldReaches(lib, resp3, v, fs, i);
  }

  /** A pointer declared with `omitempty` travels exactly when it is not nil, whatever it leads to. */
  lemma OptionalPointerReaches(lib: GoLib, resp3: bool, v: GoVal, fs: seq<Field>, layout: seq<Layout>, i: nat)
    requires HasType(v, TStruct(fs)) && DeclaredAs(fs, layout) && GoodNames(layout)
    requires i < |layout| && layout[i].optional && layout[i].ty.TPtr?
    ensures HasType(v.fields[i], layout[i].ty)
    ensures var m := Reaches(lib, resp3, v, TStruct(fs));
      if v.fields[i].VNil? then layout[i].name !in m
      else Holds(m, layout[i].name, Arrives(lib, resp3, v.fields[i], layout[i].ty))
  {
    TagsSay(fs, layout);
    DeclaredIsWellNamed(lib, fs, layout);
    FieldReaches(lib, resp3, v, fs, i);
    assert Options(fs[i])[0] == "omitempty";
  }

  function SentText(resp3: bool, s: string): Value {
    Str(if resp3 then Sanitize(s) else s)
  }

  lemma NothingElseReaches(lib: GoLib, resp3: bool, v: GoVal, fs: seq<Field>, layout: seq<Layout>, name: string)
    requires HasType(v, TStruct(fs)) && DeclaredAs(fs, layout) && GoodNames(layout)
    requires forall i | 0 <= i < |layout| :: layout[i].name != name
    ensures name !in Reaches(lib, resp3, v, TStruct(fs))
  {
    TagsSay(fs, layout);
    DeclaredIsWellNamed(lib, fs, layout);
    OtherNamesDoNotReach(lib, resp3, v, fs, name);
  }

  // ---------------------------------------------------------------- where the transports agree

  /** The structs inside are well named; all that the modules declare are. */
  predicate AllWellNamed(lib: GoLib, v: GoVal, ty: GoType)
    requires HasType(v, ty)
    decreases v
  {
    match ty
    case TSlice(e) => IsByte(e) || forall i | 0 <= i < |v.items| :: AllWellNamed(lib, v.items[i], e)
    case TArray(_, e) => forall i | 0 <= i < |v.items| :: AllWellNamed(lib, v.items[i], e)
    case TMap(e) => forall k | k in v.entries :: AllWellNamed(lib, v.entries[k], e)
    case TPtr(e) => v.VNil? || AllWellNamed(lib, v.to, e)
    case TStruct(fs) => WellNamed(lib, fs) && forall i | 0 <= i < |fs| :: AllWellNamed(lib, v.fields[i], fs[i].ty)
    case TAny => v.VNil? || AllWellNamed(lib, v.of, v.dyn)
    case _ => true
  }

  /** What a caller can check: strings and keys are UTF-8, there are no byte slices that base64 changes, no
      field is put between quotes, and each is dropped by both transports or by neither. */
  predicate JsonSafe(lib: GoLib, v: GoVal, ty: GoType)
    requires HasType(v, ty)
    decreases v, 0
  {
    match ty
    case TString => ValidUtf8(v.s)
    case TSlice(e) =>
      if IsByte(e) then lib.base64(v.s) == v.s else forall i | 0 <= i < |v.items| :: JsonSafe(lib, v.items[i], e)
    case TArray(_, e) => forall i | 0 <= i < |v.items| :: JsonSafe(lib, v.items[i], e)
    case TMap(e) => forall k | k in v.entries :: ValidUtf8(k) && JsonSafe(lib, v.entries[k], e)
    case TPtr(e) => v.VNil? || JsonSafe(lib, v.to, e)
    case TStruct(fs) =>
      forall i | 0 <= i < |fs| && !Skipped(fs[i]) ::
        && (Included(fs[i], v.fields[i]) <==> !Omitted(fs[i], v.fields[i]))
        && (Included(fs[i], v.fields[i]) ==> FieldSafe(lib, v.fields[i], fs[i]))
    case TAny => v.VNil? || JsonSafe(lib, v.of, v.dyn)
    case _ => true
  }

  /** A string between quotes could only be safe if quoting did not change it. */
  predicate FieldSafe(lib: GoLib, v: GoVal, f: Field)
    requires HasType(v, f.ty)
    decreases v, 1
  {
    if !Quoted(f) then JsonSafe(lib, v, f.ty)
    else if f.ty.TPtr? then v.VNil? || (f.ty.elem.TString? && HasType(v.to, TString) && lib.jsonQuote(v.to.s) == v.to.s)
    else f.ty.TString? && lib.jsonQuote(v.s) == v.s
  }

  ghost predicate Agrees(lib: GoLib, v: GoVal, ty: GoType)
    requires HasType(v, ty)
  {
    JsonTree(lib, v, ty) == Encode(v, ty)
  }

  ghost predicate FieldAgrees(lib: GoLib, v: GoVal, f: Field)
    requires HasType(v, f.ty)
  {
    JsonField(lib, v, f) == Encode(v, f.ty)
  }

  lemma FieldAgreesIff(lib: GoLib, v: GoVal, f: Field)
    requires HasType(v, f.ty) && (Agrees(lib, v, f.ty) <==> JsonSafe(lib, v, f.ty))
    ensures FieldAgrees(lib, v, f) <==> FieldSafe(lib, v, f)
  {
    if Quoted(f) && f.ty.TPtr? && !v.VNil? {
      assert Encode(v, f.ty) == Encode(v.to, f.ty.elem);
    }
  }

  /** The two native transports hand the command mapper the same payload exactly when it is safe. */
  lemma {:induction false} TripIsIdentityIff(lib: GoLib, v: GoVal, ty: GoType)
    requires HasType(v, ty) && AllWellNamed(lib, v, ty)
    ensures Agrees(lib, v, ty) <==> JsonSafe(lib, v, ty)
    decreases v
  {
    match ty
    case TString => SanitizeIsIdentityIff(v.s);
    case TSlice(e) =>
      if !IsByte(e) {
        forall i | 0 <= i < |v.items| ensures Agrees(lib, v.items[i], e) <==> JsonSafe(lib, v.items[i], e) {
          TripIsIdentityIff(lib, v.items[i], e);
        }
        SeqAgrees(lib, v, e);
      }
    case TArray(_, e) =>
      forall i | 0 <= i < |v.items| ensures Agrees(lib, v.items[i], e) <==> JsonSafe(lib, v.items[i], e) {
        TripIsIdentityIff(lib, v.items[i], e);
      }
      SeqAgrees(lib, v, e);
    case TMap(e) =>
      forall k | k in v.entries ensures Agrees(lib, v.entries[k], e) <==> JsonSafe(lib, v.entries[k], e) {
        TripIsIdentityIff(lib, v.entries[k], e);
      }
      MapAgrees(lib, v, e);
    case TPtr(e) => if !v.VNil? { TripIsIdentityIff(lib, v.to, e); }
    case TStruct(fs) =>
      forall i | 0 <= i < |fs| ensures FieldAgrees(lib, v.fields[i], fs[i]) <==> FieldSafe(lib, v.fields[i], fs[i]) {
        TripIsIdentityIff(lib, v.fields[i], fs[i].ty);
        FieldAgreesIff(lib, v.fields[i], fs[i]);
      }
      StructAgrees(lib, v, fs);
    case TAny => if !v.VNil? { TripIsIdentityIff(lib, v.of, v.dyn); }
    case _ =>
  }

  lemma SeqAgrees(lib: GoLib, v: GoVal, e: GoType)
    requires v.VSeq? && forall i | 0 <= i < |v.items| :: HasType(v.items[i], e)
    ensures JsonSeq(lib, v, e) == EncodeSeq(v, e) <==> forall i | 0 <= i < |v.items| :: Agrees(lib, v.items[i], e)
  {
    var a, b := JsonSeq(lib, v, e).items, EncodeSeq(v, e).items;
    assert forall i | 0 <= i < |v.items| :: a[i] == b[i] <==> Agrees(lib, v.items[i], e);
    assert a == b <==> forall i | 0 <= i < |v.items| :: a[i] == b[i];
  }

  predicate KeysValid(m: map<string, GoVal>) {
    forall k | k in m :: ValidUtf8(k)
  }

  lemma KeysKeptIff(m: map<string, GoVal>)
    ensures JsonKeys(m) == m.Keys <==> KeysValid(m)
    ensures KeysValid(m) ==> forall k | k in m :: SourceOf(m, k) == k
  {
    forall k ensures Sanitize(k) == k <==> ValidUtf8(k) {
      SanitizeIsIdentityIff(k);
    }
    if JsonKeys(m) == m.Keys {
      forall k | k in m ensures ValidUtf8(k) {
        var j :| j in m && Sanitize(j) == k;
        SanitizeIsIdentityIff(j);
      }
    }
    if KeysValid(m) {
      assert forall k | k in m :: Sanitize(k) == k;
    }
  }

  lemma JsonEntriesOf(lib: GoLib, v: GoVal, e: GoType) returns (m: map<string, Value>)
    requires MapOf(v, e)
    ensures m == JsonEntries(lib, v, e) && m.Keys == JsonKeys(v.entries)
    ensures KeysValid(v.entries) ==> forall k | k in v.entries :: k in m && m[k] == JsonTree(lib, v.entries[k], e)
  {
    m := JsonEntries(lib, v, e);
    KeysKeptIff(v.entries);
  }

  lemma JsonEntry(lib: GoLib, v: GoVal, e: GoType, k: string)
    requires MapOf(v, e) && KeysValid(v.entries) && k in v.entries
    ensures Holds(JsonEntries(lib, v, e), k, JsonTree(lib, v.entries[k], e))
  {
    SanitizeIsIdentityIff(k);
    assert k in JsonKeys(v.entries);
    SanitizeIsIdentityIff(SourceOf(v.entries, k));
  }

  lemma EncodedEntry(v: GoVal, e: GoType, k: string)
    requires MapOf(v, e) && k in v.entries
    ensures EncodeMap(v, e).Map? && Holds(EncodeMap(v, e).entries, k, Encode(v.entries[k], e))
  {
  }

  /** An entry of a payload that is itself a map. */
  lemma EntryReaches(lib: GoLib, resp3: bool, v: GoVal, e: GoType, k: string)
    requires HasType(v, TMap(e)) && KeysValid(v.entries) && k in v.entries
    ensures Holds(Reaches(lib, resp3, v, TMap(e)), k, Arrives(lib, resp3, v.entries[k], e))
  {
    MapReaches(lib, resp3, v, e);
    if resp3 {
      JsonEntry(lib, v, e, k);
    } else {
      EncodedEntry(v, e, k);
    }
  }

  lemma MapReaches(lib: GoLib, resp3: bool, v: GoVal, e: GoType)
    requires HasType(v, TMap(e))
    ensures EncodeMap(v, e).Map?
    ensures Reaches(lib, resp3, v, TMap(e)) == if resp3 then JsonEntries(lib, v, e) else EncodeMap(v, e).entries
  {
  }

  lemma MapAgrees(lib: GoLib, v: GoVal, e: GoType)
    requires MapOf(v, e)
    ensures Map(JsonEntries(lib, v, e)) == EncodeMap(v, e)
       <==> forall k | k in v.entries :: ValidUtf8(k) && Agrees(lib, v.entries[k], e)
  {
    var a := JsonEntriesOf(lib, v, e);
    var b := EncodedEntries(v, e);
    KeysKeptIff(v.entries);
    if KeysValid(v.entries) {
      if forall k | k in v.entries :: Agrees(lib, v.entries[k], e) {
        SameMap(a, b);
      }
    } else {
      assert a.Keys != b.Keys;
    }
  }

  lemma WrittenIff(lib: GoLib, fs: seq<Field>, vs: seq<GoVal>, i: nat)
    requires FieldTypes(fs, vs) && WellNamed(lib, fs) && i < |fs|
    ensures Written(lib, fs, vs, i) <==> !Skipped(fs[i]) && !Omitted(fs[i], vs[i])
  {
    if !Skipped(fs[i]) {
      forall j | 0 <= j < |fs| && j != i && !Skipped(fs[j]) ensures JsonName(lib, fs[j]) != JsonName(lib, fs[i]) {
        assert j < i ==> WireName(fs[j]) != WireName(fs[i]);
      }
    }
  }

  /** With good names the written fields are the entries. */
  lemma WrittenField(lib: GoLib, v: GoVal, fs: seq<Field>, i: nat)
    requires v.VStruct? && FieldTypes(fs, v.fields) && WellNamed(lib, fs) && i < |fs| && !Skipped(fs[i])
    ensures var m := JsonFields(lib, v, fs); var name := WireName(fs[i]);
      if Omitted(fs[i], v.fields[i]) then name !in m else Holds(m, name, JsonField(lib, v.fields[i], fs[i]))
  {
    WrittenIff(lib, fs, v.fields, i);
    forall j | 0 <= j < |fs| && j != i && Written(lib, fs, v.fields, j)
      ensures JsonName(lib, fs[j]) != WireName(fs[i])
    {
      assert j < i ==> WireName(fs[j]) != WireName(fs[i]);
    }
  }

  lemma {:induction false} NameOfEntry(fs: seq<Field>, vs: seq<GoVal>, name: string) returns (i: nat)
    requires FieldTypes(fs, vs) && name in EncodeFields(fs, vs)
    ensures i < |fs| && Included(fs[i], vs[i]) && WireName(fs[i]) == name
    decreases vs
  {
    var n := |vs| - 1;
    if Included(fs[n], vs[n]) && WireName(fs[n]) == name {
      i := n;
    } else {
      i := NameOfEntry(fs[..n], vs[..n], name);
    }
  }

  /** Field i is dropped by both transports or by neither, and then agrees. */
  ghost predicate SameField(lib: GoLib, v: GoVal, f: Field)
    requires HasType(v, f.ty)
  {
    (Included(f, v) <==> !Omitted(f, v)) && (Included(f, v) ==> FieldAgrees(lib, v, f))
  }

  lemma StructAgrees(lib: GoLib, v: GoVal, fs: seq<Field>)
    requires v.VStruct? && FieldTypes(fs, v.fields) && WellNamed(lib, fs)
    ensures JsonFields(lib, v, fs) == EncodeFields(fs, v.fields)
       <==> forall i | 0 <= i < |fs| && !Skipped(fs[i]) :: SameField(lib, v.fields[i], fs[i])
  {
    var a, b := JsonFields(lib, v, fs), EncodeFields(fs, v.fields);
    if a == b {
      forall i | 0 <= i < |fs| && !Skipped(fs[i]) ensures SameField(lib, v.fields[i], fs[i]) {
        WrittenField(lib, v, fs, i);
        EncodedFields(fs, v.fields, i);
      }
    } else if forall i | 0 <= i < |fs| && !Skipped(fs[i]) :: SameField(lib, v.fields[i], fs[i]) {
      forall k | k in a ensures k in b && b[k] == a[k] {
        var i: nat :| i < |fs| && Written(lib, fs, v.fields, i) && JsonName(lib, fs[i]) == k;
        WrittenField(lib, v, fs, i);
        EncodedFields(fs, v.fields, i);
      }
      forall k | k in b ensures k in a {
        var i := NameOfEntry(fs, v.fields, k);
        WrittenField(lib, v, fs, i);
      }
      SameMap(a, b);
    }
  }
}
