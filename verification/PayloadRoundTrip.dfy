/** Encoding a typed value and decoding it into a zero target of the same type: when that succeeds, what
    comes back, and exactly when it is the value itself. */
module PayloadRoundTrip {
  import opened GoValues
  import opened GoTypes
  import opened Float64
  import opened PayloadEncode
  import opened PayloadDecode

  /** Types that decode: no fixed-size arrays, and no struct with two fields of one wire name. */
  predicate Decodable(ty: GoType) {
    match ty
    case TArray(_, _) => false
    case TSlice(e) => Decodable(e)
    case TMap(e) => Decodable(e)
    case TPtr(e) => Decodable(e)
    case TStruct(fs) => DistinctNames(fs) && forall i | 0 <= i < |fs| && !Skipped(fs[i]) :: Decodable(fs[i].ty)
    case _ => true
  }

  /** What an integer becomes on its way through float64 and back to int64. */
  function IntBack(lib: GoLib, n: int): int {
    FloatToInt64(lib, RoundInt(n) as real)
  }

  /** Up to 512 below 2^63 that is the rounded integer; above, Go leaves the conversion to the
      implementation. */
  lemma IntBackRounds(lib: GoLib, n: int)
    requires -TWO_63 <= n < TWO_64
    ensures n < TWO_63 - 512 ==> IntBack(lib, n) == RoundInt(n)
    ensures -(TWO_53 as int) <= n <= TWO_53 ==> IntBack(lib, n) == n
  {
    FitsInt64Iff(n);
    TruncOfInt(RoundInt(n));
    ExactIff(n);
  }

  /** Whether the value decodes at all: an unsigned integer is refused when it comes back negative. */
  predicate Received(lib: GoLib, v: GoVal, ty: GoType)
    requires HasType(v, ty)
    decreases v
  {
    match ty
    case TUint(_) => IntBack(lib, v.n) >= 0
    case TSlice(e) => IsByte(e) || forall i | 0 <= i < |v.items| :: Received(lib, v.items[i], e)
    case TMap(e) => forall k | k in v.entries :: Received(lib, v.entries[k], e)
    case TPtr(e) => v.VNil? || Received(lib, v.to, e)
    case TStruct(fs) =>
      forall i | 0 <= i < |fs| && Included(fs[i], v.fields[i]) :: Received(lib, v.fields[i], fs[i].ty)
    case _ => true
  }

  /** What a value becomes: integers go through float64, pointers that lead to nil are nil, an interface
      holds a tree, and a field that does not travel is zero. */
  function Canon(lib: GoLib, v: GoVal, ty: GoType): GoVal
    requires HasType(v, ty)
    decreases v
  {
    match ty
    case TInt(_) => VInt(IntBack(lib, v.n))
    case TUint(_) => VInt(IntBack(lib, v.n))
    case TSlice(e) =>
      if IsByte(e) then v
      else VSeq(seq(|v.items|, i requires 0 <= i < |v.items| => Canon(lib, v.items[i], e)))
    case TMap(e) => VMap(map k | k in v.entries :: Canon(lib, v.entries[k], e))
    case TPtr(e) => if NilInside(v) then VNil else VRef(Canon(lib, v.to, e))
    case TStruct(fs) =>
      VStruct(seq(|fs|, i requires 0 <= i < |fs| =>
        if Included(fs[i], v.fields[i]) then Canon(lib, v.fields[i], fs[i].ty) else Zero(fs[i].ty)))
    case TAny => Lift(Encode(v, ty))
    case _ => v
  }

  /** The value decodes exactly when it is received, and then as its canonical form. */
  ghost predicate ComesBack(lib: GoLib, v: GoVal, ty: GoType)
    requires HasType(v, ty)
  {
    var r := Assign(lib, Encode(v, ty), ty, Zero(ty));
    (r.Done? <==> Received(lib, v, ty)) && (r.Done? ==> r.now == Canon(lib, v, ty))
  }

  lemma SignedComesBack(lib: GoLib, v: GoVal, w: Width)
    requires HasType(v, TInt(w))
    ensures ComesBack(lib, v, TInt(w))
  {
    IntBackRounds(lib, v.n);
    assert AsInt(lib, Encode(v, TInt(w))) == Some(IntBack(lib, v.n));
  }

  lemma UnsignedComesBack(lib: GoLib, v: GoVal, w: Width)
    requires HasType(v, TUint(w))
    ensures ComesBack(lib, v, TUint(w))
  {
    IntBackRounds(lib, v.n);
    assert AsInt(lib, Encode(v, TUint(w))) == Some(IntBack(lib, v.n));
  }

  lemma {:induction false} ValueComesBack(lib: GoLib, v: GoVal, ty: GoType)
    requires HasType(v, ty) && Decodable(ty)
    ensures ComesBack(lib, v, ty)
    decreases v
  {
    match ty
    case TInt(w) => SignedComesBack(lib, v, w);
    case TUint(w) => UnsignedComesBack(lib, v, w);
    case TSlice(e) =>
      if !IsByte(e) {
        forall i | 0 <= i < |v.items| ensures ComesBack(lib, v.items[i], e) {
          ValueComesBack(lib, v.items[i], e);
        }
        SliceComesBack(lib, v, e);
      }
    case TMap(e) =>
      forall k | k in v.entries ensures ComesBack(lib, v.entries[k], e) {
        ValueComesBack(lib, v.entries[k], e);
      }
      MapComesBack(lib, v, e);
    case TPtr(e) =>
      EncodesNil(v, ty);
      if !v.VNil? {
        ValueComesBack(lib, v.to, e);
      }
    case TStruct(fs) =>
      forall i | 0 <= i < |fs| && !Skipped(fs[i]) ensures ComesBack(lib, v.fields[i], fs[i].ty) {
        ValueComesBack(lib, v.fields[i], fs[i].ty);
      }
      StructComesBack(lib, v, fs);
    case _ =>
  }

  /** What is known of one element. */
  lemma ElementDone(lib: GoLib, v: GoVal, e: GoType)
    requires HasType(v, e) && ComesBack(lib, v, e) && Received(lib, v, e)
    ensures Assign(lib, Encode(v, e), e, Zero(e)) == Done(Canon(lib, v, e))
  {
  }

  lemma ElementFails(lib: GoLib, v: GoVal, e: GoType)
    requires HasType(v, e) && ComesBack(lib, v, e) && !Received(lib, v, e)
    ensures Assign(lib, Encode(v, e), e, Zero(e)).Failed?
  {
  }

  lemma SliceComesBack(lib: GoLib, v: GoVal, e: GoType)
    requires HasType(v, TSlice(e)) && !IsByte(e)
    requires forall i | 0 <= i < |v.items| :: ComesBack(lib, v.items[i], e)
    ensures ComesBack(lib, v, TSlice(e))
  {
    var items, zero := EncodeSeq(v, e).items, Zero(TSlice(e));
    assert Assign(lib, Encode(v, TSlice(e)), TSlice(e), zero) == AssignSlice(lib, items, e, zero);
    if i :| 0 <= i < |items| && !Received(lib, v.items[i], e) {
      ElementFails(lib, v.items[i], e);
      assert items[i] == Encode(v.items[i], e);
    } else {
      var out := Canon(lib, v, TSlice(e)).items;
      forall i | 0 <= i < |items| ensures Assign(lib, items[i], e, Zero(e)) == Done(out[i]) {
        ElementDone(lib, v.items[i], e);
      }
      SliceFilled(lib, items, e, zero, out);
    }
  }

  lemma MapComesBack(lib: GoLib, v: GoVal, e: GoType)
    requires HasType(v, TMap(e)) && forall k | k in v.entries :: ComesBack(lib, v.entries[k], e)
    ensures ComesBack(lib, v, TMap(e))
  {
    var m := EncodedEntries(v, e);
    var zero := Zero(TMap(e));
    assert Assign(lib, Encode(v, TMap(e)), TMap(e), zero) == AssignMap(lib, m, e, zero);
    if k :| k in v.entries && !Received(lib, v.entries[k], e) {
      ElementFails(lib, v.entries[k], e);
      assert m[k] == Encode(v.entries[k], e);
    } else {
      MapDecodes(lib, v, e, m);
    }
  }

  lemma MapDecodes(lib: GoLib, v: GoVal, e: GoType, m: map<string, Value>)
    requires HasType(v, TMap(e)) && m.Keys == v.entries.Keys
    requires forall k | k in m :: m[k] == Encode(v.entries[k], e)
    requires forall k | k in m :: ComesBack(lib, v.entries[k], e) && Received(lib, v.entries[k], e)
    ensures AssignMap(lib, m, e, Zero(TMap(e))) == Done(Canon(lib, v, TMap(e)))
  {
    var out := CanonEntries(lib, v, e);
    forall k | k in out ensures Assign(lib, m[k], e, Zero(e)) == Done(out[k]) {
      ElementDone(lib, v.entries[k], e);
    }
    MapFilled(lib, m, e, Zero(TMap(e)), out);
  }

  lemma CanonEntries(lib: GoLib, v: GoVal, e: GoType) returns (out: map<string, GoVal>)
    requires HasType(v, TMap(e))
    ensures Canon(lib, v, TMap(e)) == VMap(out) && out.Keys == v.entries.Keys
    ensures forall k | k in out :: out[k] == Canon(lib, v.entries[k], e)
  {
    out := Canon(lib, v, TMap(e)).entries;
  }

  /** A field on its own: an included one comes back, any other stays zero. */
  lemma FieldComesBack(lib: GoLib, v: GoVal, fs: seq<Field>, i: nat)
    requires HasType(v, TStruct(fs)) && DistinctNames(fs) && i < |fs|
    requires !Skipped(fs[i]) ==> ComesBack(lib, v.fields[i], fs[i].ty)
    ensures var alone := FieldAlone(lib, EncodeFields(fs, v.fields), fs[i], Zero(fs[i].ty));
      && (alone.Done? <==> (Included(fs[i], v.fields[i]) ==> Received(lib, v.fields[i], fs[i].ty)))
      && (alone.Done? ==>
            alone.now == (if Included(fs[i], v.fields[i]) then Canon(lib, v.fields[i], fs[i].ty) else Zero(fs[i].ty)))
  {
    if !Skipped(fs[i]) {
      EncodedFields(fs, v.fields, i);
    }
  }

  lemma StructComesBack(lib: GoLib, v: GoVal, fs: seq<Field>)
    requires HasType(v, TStruct(fs)) && DistinctNames(fs)
    requires forall i | 0 <= i < |fs| && !Skipped(fs[i]) :: ComesBack(lib, v.fields[i], fs[i].ty)
    ensures ComesBack(lib, v, TStruct(fs))
  {
    var m, zero := EncodeFields(fs, v.fields), Zero(TStruct(fs)).fields;
    forall i | 0 <= i < |fs|
      ensures FieldAlone(lib, m, fs[i], zero[i]).Done?
         <==> (Included(fs[i], v.fields[i]) ==> Received(lib, v.fields[i], fs[i].ty))
    {
      FieldComesBack(lib, v, fs, i);
    }
    StructDoneIff(lib, m, fs, zero);
    var r := AssignFields(lib, m, fs, zero);
    assert r.Done? <==> Received(lib, v, TStruct(fs));
    if r.Done? {
      var want := Canon(lib, v, TStruct(fs)).fields;
      forall i | 0 <= i < |fs| ensures r.now[i] == want[i] {
        FieldComesBack(lib, v, fs, i);
        StructFieldwise(lib, m, fs, zero, i);
      }
      assert r.now == want;
    }
  }

  /** The typed round trip: every value of every decodable type decodes again exactly when it is
      received, and comes back in its canonical form. */
  lemma DecodeInvertsEncode(lib: GoLib, v: GoVal, ty: GoType)
    requires HasType(v, ty) && Decodable(ty)
    ensures Assign(lib, Encode(v, ty), ty, Zero(ty)).Done? <==> Received(lib, v, ty)
    ensures Received(lib, v, ty) ==> Assign(lib, Encode(v, ty), ty, Zero(ty)) == Done(Canon(lib, v, ty))
  {
    ValueComesBack(lib, v, ty);
  }

  // ---------------------------------------------------------------- when the value itself comes back

  /** A value an `interface{}` can hold after decoding: nil, a boolean, float, string, slice or map of
      such. */
  predicate TreeForm(v: GoVal) {
    match v
    case VNil => true
    case VIface(TBool, x) => x.VBool?
    case VIface(TFloat, x) => x.VFloat?
    case VIface(TString, x) => x.VStr?
    case VIface(TSlice(TAny), VSeq(xs)) => forall i | 0 <= i < |xs| :: TreeForm(xs[i])
    case VIface(TMap(TAny), VMap(m)) => forall k | k in m :: TreeForm(m[k])
    case _ => false
  }

  /** What a caller can check of a value before sending it. For integers that is having a 53-bit
      significand, by `Float64.ExactIff` and `IntBackRounds`, up to 512 below 2^63. */
  predicate Faithful(lib: GoLib, v: GoVal, ty: GoType)
    requires HasType(v, ty)
    decreases v
  {
    match ty
    case TInt(_) => IntBack(lib, v.n) == v.n
    case TUint(_) => IntBack(lib, v.n) == v.n
    case TSlice(e) => IsByte(e) || forall i | 0 <= i < |v.items| :: Faithful(lib, v.items[i], e)
    case TMap(e) => forall k | k in v.entries :: Faithful(lib, v.entries[k], e)
    case TPtr(e) => v.VNil? || (!NilInside(v) && Faithful(lib, v.to, e))
    case TStruct(fs) =>
      forall i | 0 <= i < |fs| ::
        if Included(fs[i], v.fields[i]) then Faithful(lib, v.fields[i], fs[i].ty) else v.fields[i] == Zero(fs[i].ty)
    case TAny => TreeForm(v)
    case _ => true
  }

  lemma {:induction false} FaithfulIsReceived(lib: GoLib, v: GoVal, ty: GoType)
    requires HasType(v, ty) && Faithful(lib, v, ty)
    ensures Received(lib, v, ty)
    decreases v
  {
    match ty
    case TSlice(e) =>
      if !IsByte(e) {
        forall i | 0 <= i < |v.items| { FaithfulIsReceived(lib, v.items[i], e); }
      }
    case TMap(e) => forall k | k in v.entries { FaithfulIsReceived(lib, v.entries[k], e); }
    case TPtr(e) => if v.VRef? { FaithfulIsReceived(lib, v.to, e); }
    case TStruct(fs) =>
      forall i | 0 <= i < |fs| && Included(fs[i], v.fields[i]) { FaithfulIsReceived(lib, v.fields[i], fs[i].ty); }
    case _ =>
  }

  lemma {:induction false} TreeFormIff(v: GoVal)
    requires HasType(v, TAny)
    ensures Lift(Encode(v, TAny)) == v <==> TreeForm(v)
    decreases v
  {
    if v.VIface? {
      EncodesNil(v.of, v.dyn);
      if v.dyn == TSlice(TAny) {
        var xs, ys := v.of.items, EncodeSeq(v.of, TAny).items;
        forall i | 0 <= i < |xs| ensures Lift(ys[i]) == xs[i] <==> TreeForm(xs[i]) {
          TreeFormIff(xs[i]);
        }
        LiftedSlice(v, ys);
      } else if v.dyn == TMap(TAny) {
        var xs := v.of.entries;
        var ys := EncodedEntries(v.of, TAny);
        forall k | k in xs ensures Lift(ys[k]) == xs[k] <==> TreeForm(xs[k]) {
          TreeFormIff(xs[k]);
        }
        LiftedMap(v, ys);
      } else {
        OtherDynamic(v);
      }
    }
  }

  lemma LiftedSlice(v: GoVal, ys: seq<Value>)
    requires v.VIface? && v.dyn == TSlice(TAny) && v.of.VSeq? && |ys| == |v.of.items|
    ensures Lift(Arr(ys)) == v <==> forall i | 0 <= i < |ys| :: Lift(ys[i]) == v.of.items[i]
  {
    var back := Lift(Arr(ys)).of.items;
    assert forall i | 0 <= i < |ys| :: back[i] == Lift(ys[i]);
    assert back == v.of.items <==> forall i | 0 <= i < |ys| :: back[i] == v.of.items[i];
  }

  lemma LiftedMap(v: GoVal, ys: map<string, Value>)
    requires v.VIface? && v.dyn == TMap(TAny) && v.of.VMap? && ys.Keys == v.of.entries.Keys
    ensures Lift(Map(ys)) == v <==> forall k | k in ys :: Lift(ys[k]) == v.of.entries[k]
  {
    var back := Lift(Map(ys)).of.entries;
    assert back.Keys == ys.Keys && forall k | k in ys :: back[k] == Lift(ys[k]);
    assert back == v.of.entries <==> forall k | k in ys :: back[k] == v.of.entries[k];
  }

  lemma OtherDynamic(v: GoVal)
    requires HasType(v, TAny) && v.VIface? && v.dyn != TSlice(TAny) && v.dyn != TMap(TAny)
    ensures Lift(Encode(v, TAny)) == v <==> TreeForm(v)
  {
    var t := Encode(v.of, v.dyn);
    assert Encode(v, TAny) == t;
    match v.dyn
    case TBool => assert t == Bool(v.of.b);
    case TFloat => assert t == Float(v.of.r);
    case TString => assert t == Str(v.of.s);
    case TMap(e) => assert t == EncodeMap(v.of, e);
    case TStruct(_) => assert t.Map?;
    case _ =>
  }

  lemma {:induction false} CanonIsIdentityIff(lib: GoLib, v: GoVal, ty: GoType)
    requires HasType(v, ty) && Decodable(ty)
    ensures Canon(lib, v, ty) == v <==> Faithful(lib, v, ty)
    decreases v
  {
    match ty
    case TSlice(e) =>
      if !IsByte(e) {
        forall i | 0 <= i < |v.items| { CanonIsIdentityIff(lib, v.items[i], e); }
        var c := Canon(lib, v, ty).items;
        assert c == v.items <==> forall i | 0 <= i < |c| :: c[i] == v.items[i];
      }
    case TMap(e) =>
      forall k | k in v.entries { CanonIsIdentityIff(lib, v.entries[k], e); }
      var c := Canon(lib, v, ty).entries;
      assert c == v.entries <==> forall k | k in c :: c[k] == v.entries[k];
    case TPtr(e) =>
      if v.VRef? { CanonIsIdentityIff(lib, v.to, e); }
    case TStruct(fs) =>
      forall i | 0 <= i < |fs| && Included(fs[i], v.fields[i]) { CanonIsIdentityIff(lib, v.fields[i], fs[i].ty); }
      var c := Canon(lib, v, ty).fields;
      assert c == v.fields <==> forall i | 0 <= i < |c| :: c[i] == v.fields[i];
    case TAny => TreeFormIff(v);
    case _ =>
  }

  /** The value itself comes back exactly when it is faithful. */
  lemma RoundTripIff(lib: GoLib, v: GoVal, ty: GoType)
    requires HasType(v, ty) && Decodable(ty)
    ensures Assign(lib, Encode(v, ty), ty, Zero(ty)) == Done(v) <==> Faithful(lib, v, ty)
  {
    DecodeInvertsEncode(lib, v, ty);
    CanonIsIdentityIff(lib, v, ty);
    if Faithful(lib, v, ty) {
      FaithfulIsReceived(lib, v, ty);
    }
  }

  /** All integers up to 2^53 are faithful. */
  lemma SmallIntegersAreFaithful(lib: GoLib, n: int, w: Width)
    requires -(TWO_53 as int) <= n <= TWO_53 && -Half(w) <= n < Half(w)
    ensures Faithful(lib, VInt(n), TInt(w)) && (n >= 0 ==> Faithful(lib, VInt(n), TUint(w)))
  {
    IntBackRounds(lib, n);
  }

  /** A fixed-size array encodes, but never decodes. */
  lemma ArraysDoNotDecode(lib: GoLib, v: GoVal, len: nat, e: GoType)
    requires HasType(v, TArray(len, e))
    ensures Assign(lib, Encode(v, TArray(len, e)), TArray(len, e), Zero(TArray(len, e))).Failed?
  {
  }
}
