/** The Go types a payload or a decode target is built from, and their values. */
module GoTypes {
  import opened GoValues

  datatype Width = W8 | W16 | W32 | W64

  /** `TArray` is a fixed-size array. `TInt(W64)` stands for both `int` and `int64`. A byte slice is
      `TSlice(TUint(W8))`; the SDK singles it out by its element, and so do the matches here. */
  datatype GoType =
    | TBool
    | TInt(width: Width)
    | TUint(width: Width)
    | TFloat
    | TString
    | TSlice(elem: GoType)
    | TArray(len: nat, elem: GoType)
    | TMap(elem: GoType)
    | TPtr(elem: GoType)
    | TStruct(fields: seq<Field>)
    | TAny

  datatype Field = Field(name: string, tag: string, exported: bool, ty: GoType)

  /** `VStr` is a string or a byte slice, `VNil` a nil pointer or nil interface, and `VIface` an
      interface holding a value of dynamic type `dyn`. Nil and empty slices or maps are not told
      apart. */
  datatype GoVal =
    | VBool(b: bool)
    | VInt(n: int)
    | VFloat(r: real)
    | VStr(s: string)
    | VSeq(items: seq<GoVal>)
    | VMap(entries: map<string, GoVal>)
    | VNil
    | VRef(to: GoVal)
    | VStruct(fields: seq<GoVal>)
    | VIface(dyn: GoType, of: GoVal)

  /** Half the number of values an integer of this width has. */
  function Half(w: Width): int {
    match w
    case W8 => 0x80
    case W16 => 0x8000
    case W32 => 0x8000_0000
    case W64 => TWO_63
  }

  predicate IsByte(ty: GoType) {
    ty == TUint(W8)
  }

  predicate HasType(v: GoVal, ty: GoType)
    decreases v
  {
    match ty
    case TBool => v.VBool?
    case TInt(w) => v.VInt? && -Half(w) <= v.n < Half(w)
    case TUint(w) => v.VInt? && 0 <= v.n < 2 * Half(w)
    case TFloat => v.VFloat?
    case TString => v.VStr?
    case TSlice(e) => if IsByte(e) then v.VStr? else v.VSeq? && forall i | 0 <= i < |v.items| :: HasType(v.items[i], e)
    case TArray(len, e) => v.VSeq? && |v.items| == len && forall i | 0 <= i < |v.items| :: HasType(v.items[i], e)
    case TMap(e) => v.VMap? && forall k | k in v.entries :: HasType(v.entries[k], e)
    case TPtr(e) => v.VNil? || (v.VRef? && HasType(v.to, e))
    case TStruct(fs) => v.VStruct? && |v.fields| == |fs| && forall i | 0 <= i < |fs| :: HasType(v.fields[i], fs[i].ty)
    case TAny => v.VNil? || (v.VIface? && HasType(v.of, v.dyn))
  }

  /** `reflect.Zero`. */
  function Zero(ty: GoType): (v: GoVal)
    ensures HasType(v, ty)
    decreases ty
  {
    match ty
    case TBool => VBool(false)
    case TInt(_) => VInt(0)
    case TUint(_) => VInt(0)
    case TFloat => VFloat(0.0)
    case TString => VStr("")
    case TSlice(e) => if IsByte(e) then VStr("") else VSeq([])
    case TArray(len, e) => VSeq(seq(len, i => Zero(e)))
    case TMap(_) => VMap(map[])
    case TStruct(fs) => VStruct(seq(|fs|, i requires 0 <= i < |fs| => Zero(fs[i].ty)))
    case _ => VNil
  }

  // ---------------------------------------------------------------- field tags

  /** `strings.Split(s, ",")`. */
  function Split(s: string): (parts: seq<string>)
    ensures |parts| > 0
  {
    if s == "" then [""]
    else
      var later := Split(s[1..]);
      if s[0] == ',' then [""] + later else [[s[0]] + later[0]] + later[1..]
  }

  predicate Skipped(f: Field) {
    !f.exported || f.tag == "-"
  }

  function WireName(f: Field): string {
    if Split(f.tag)[0] != "" then Split(f.tag)[0] else f.name
  }

  function Options(f: Field): seq<string> {
    Split(f.tag)[1..]
  }

  predicate OmitEmpty(f: Field) {
    "omitempty" in Options(f)
  }

  lemma {:induction false} SplitPlain(s: string)
    requires ',' !in s
    ensures Split(s) == [s]
  {
    if s != "" {
      SplitPlain(s[1..]);
      assert s == [s[0]] + s[1..];
    }
  }

  lemma {:induction false} SplitAtComma(a: string, b: string)
    requires ',' !in a
    ensures Split(a + "," + b) == [a] + Split(b)
  {
    var s := a + "," + b;
    if a == "" {
      assert s[1..] == b;
    } else {
      assert s[1..] == a[1..] + "," + b;
      SplitAtComma(a[1..], b);
      assert a == [a[0]] + a[1..];
      assert ([a[1..]] + Split(b))[1..] == Split(b);
    }
  }

  /** A field as the modules declare it: exported, tagged with its name, optional ones with `omitempty`. */
  datatype Layout = Layout(name: string, ty: GoType, optional: bool)

  predicate Declared(f: Field, l: Layout) {
    f.exported && f.ty == l.ty && f.tag == if l.optional then l.name + "," + "omitempty" else l.name
  }

  predicate DeclaredAs(fs: seq<Field>, layout: seq<Layout>) {
    |fs| == |layout| && forall i | 0 <= i < |fs| :: Declared(fs[i], layout[i])
  }

  /** Lower-case letters and underscores. */
  predicate IsName(name: string) {
    name != "" && forall i | 0 <= i < |name| :: 'a' <= name[i] <= 'z' || name[i] == '_'
  }

  predicate GoodNames(layout: seq<Layout>) {
    && (forall i | 0 <= i < |layout| :: IsName(layout[i].name))
    && forall i, j | 0 <= i < j < |layout| :: layout[i].name != layout[j].name
  }

  lemma TagSays(f: Field, l: Layout)
    requires Declared(f, l) && IsName(l.name)
    ensures Named(f, l.name, l.ty) && Split(f.tag)[0] == l.name
    ensures Options(f) == if l.optional then ["omitempty"] else []
  {
    if l.optional {
      SplitAtComma(l.name, "omitempty");
      SplitPlain("omitempty");
      assert |f.tag| > 1;
    } else {
      assert f.tag[0] != '-';
      SplitPlain(f.tag);
    }
  }

  lemma TagsSay(fs: seq<Field>, layout: seq<Layout>)
    requires DeclaredAs(fs, layout) && GoodNames(layout)
    ensures DistinctNames(fs)
    ensures forall i | 0 <= i < |fs| ::
      Named(fs[i], layout[i].name, layout[i].ty) && Options(fs[i]) == if layout[i].optional then ["omitempty"] else []
  {
    forall i | 0 <= i < |fs|
      ensures Named(fs[i], layout[i].name, layout[i].ty)
      ensures Options(fs[i]) == if layout[i].optional then ["omitempty"] else []
    {
      TagSays(fs[i], layout[i]);
    }
  }

  /** `jsonFieldName`. */
  method JsonFieldName(f: Field) returns (name: string, omitEmpty: bool, skip: bool)
    ensures skip == (f.tag == "-")
    ensures !skip ==> name == WireName(f) && omitEmpty == OmitEmpty(f)
  {
    if f.tag == "-" {
      return "", false, true;
    }
    name, omitEmpty := f.name, false;
    var parts := Split(f.tag);
    if parts[0] != "" {
      name := parts[0];
    }
    var opts := parts[1..];
    for i := 0 to |opts|
      invariant omitEmpty == ("omitempty" in opts[..i])
    {
      if opts[i] == "omitempty" {
        omitEmpty := true;
      }
    }
    assert opts[..|opts|] == opts;
    return name, omitEmpty, false;
  }

  /** `isEmptyValue`: what `omitempty` drops. */
  predicate Empty(v: GoVal) {
    match v
    case VBool(b) => !b
    case VInt(n) => n == 0
    case VFloat(r) => r == 0.0
    case VStr(s) => s == ""
    case VSeq(xs) => xs == []
    case VMap(m) => m == map[]
    case VNil => true
    case _ => false
  }

  /** By type: false, zero, the empty string, nil, or without elements. A struct never is, nor is a pointer that
      leads anywhere. */
  predicate Vacant(v: GoVal, ty: GoType)
    requires HasType(v, ty)
  {
    match ty
    case TBool => v == VBool(false)
    case TInt(_) => v == VInt(0)
    case TUint(_) => v == VInt(0)
    case TFloat => v == VFloat(0.0)
    case TString => v == VStr("")
    case TSlice(e) => v == (if e == TUint(W8) then VStr("") else VSeq([]))
    case TArray(len, _) => len == 0
    case TMap(_) => v == VMap(map[])
    case TPtr(_) => v == VNil
    case TStruct(_) => false
    case TAny => v == VNil
  }

  lemma EmptyIff(v: GoVal, ty: GoType)
    requires HasType(v, ty)
    ensures Empty(v) <==> Vacant(v, ty)
  {
  }

  /** What a tag says when it gives no name, or only an option; then, when it gives a dash. */
  lemma TagForms(f: Field)
    ensures f.tag == "" ==> WireName(f) == f.name && Options(f) == []
    ensures f.tag == "" + "," + "omitempty" ==> WireName(f) == f.name && Options(f) == ["omitempty"]
  {
    SplitAtComma("", "omitempty");
    SplitPlain("omitempty");
  }

  lemma DashTags(f: Field)
    ensures f.tag == "-" + "," + "" ==> WireName(f) == "-" && Options(f) == [""] && (Skipped(f) <==> !f.exported)
    ensures f.tag == "-" ==> Skipped(f)
  {
    SplitAtComma("-", "");
    assert |"-" + "," + ""| == 2;
  }

  /** Whether a struct field becomes an entry of the payload map. */
  predicate Included(f: Field, v: GoVal) {
    !Skipped(f) && !(OmitEmpty(f) && Empty(v)) && !(f.ty.TPtr? && v.VNil?)
  }

  /** An exported field of this wire name and type. */
  predicate Named(f: Field, name: string, ty: GoType) {
    !Skipped(f) && WireName(f) == name && f.ty == ty
  }

  /** No two fields share a wire name. */
  predicate DistinctNames(fs: seq<Field>) {
    forall i, j | 0 <= i < j < |fs| && !Skipped(fs[i]) && !Skipped(fs[j]) :: WireName(fs[i]) != WireName(fs[j])
  }
}
