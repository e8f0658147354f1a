/** `assign`: a tree of decoded values becomes a typed value again. */
module PayloadDecode {
  import opened GoValues
  import opened Decimal
  import opened GoTypes
  import opened Float64

  /** `asStringValue`. `None` is an error, here and below. */
  function AsString(lib: GoLib, src: Value): Option<string> {
    match src
    case Str(s) => Some(s)
    case Bytes(s) => Some(s)
    case Int64(n) => Some(Text(n))
    case Float(r) => Some(lib.formatFloat(r))
    case Bool(b) => Some(if b then "true" else "false")
    case _ => None
  }

  /** `asInt`. */
  function AsInt(lib: GoLib, src: Value): Option<int> {
    match src
    case Int64(n) => Some(n)
    case Float(r) => Some(FloatToInt64(lib, r))
    case Str(s) => ParseInt(s)
    case Bool(b) => Some(if b then 1 else 0)
    case _ => None
  }

  /** `asFloat`. */
  function AsFloat(lib: GoLib, src: Value): Option<real> {
    match src
    case Float(r) => Some(r)
    case Int64(n) => Some(RoundInt(n) as real)
    case Str(s) => lib.parseFloat(s)
    case _ => None
  }

  function AsBool(src: Value): Option<bool> {
    match src
    case Bool(b) => Some(b)
    case Int64(n) => Some(n != 0)
    case Float(r) => Some(r != 0.0)
    case _ => None
  }

  /** `SetInt` on a target of this width keeps the low bits. */
  function WrapInt(n: int, w: Width): (m: int)
    ensures -Half(w) <= m < Half(w) && (m - n) % (2 * Half(w)) == 0
    ensures -Half(w) <= n < Half(w) ==> m == n
  {
    (n + Half(w)) % (2 * Half(w)) - Half(w)
  }

  /** `SetUint`, likewise. */
  function WrapUint(n: int, w: Width): (m: int)
    ensures 0 <= m < 2 * Half(w) && (m - n) % (2 * Half(w)) == 0
    ensures 0 <= n < 2 * Half(w) ==> m == n
  {
    n % (2 * Half(w))
  }

  /** What an `interface{}` target holds: the source as it is. */
  function Lift(src: Value): GoVal {
    match src
    case Nil => VNil
    case Bool(b) => VIface(TBool, VBool(b))
    case Int64(n) => VIface(TInt(W64), VInt(n))
    case GoInt(n) => VIface(TInt(W64), VInt(n))
    case Uint64(n) => VIface(TUint(W64), VInt(n))
    case Float(r) => VIface(TFloat, VFloat(r))
    case Str(s) => VIface(TString, VStr(s))
    case Bytes(s) => VIface(TSlice(TUint(W8)), VStr(s))
    case Arr(items) => VIface(TSlice(TAny), VSeq(seq(|items|, i requires 0 <= i < |items| => Lift(items[i]))))
    case Map(m) => VIface(TMap(TAny), VMap(map k | k in m :: Lift(m[k])))
  }

  /** How an assignment ends, and what its target holds then. */
  datatype Stored<+T> = Done(now: T) | Failed(now: T)

  /** `assign(src, dst)` on a target of this type that holds `prior`. */
  function Assign(lib: GoLib, src: Value, ty: GoType, prior: GoVal): Stored<GoVal>
    requires HasType(prior, ty)
    decreases ty, 0
  {
    if src.Nil? then Done(Zero(ty))
    else
      match ty
      case TAny => Done(Lift(src))
      case TPtr(e) =>
        var r := Assign(lib, src, e, if prior.VNil? then Zero(e) else prior.to);
        if r.Done? then Done(VRef(r.now)) else Failed(VRef(r.now))
      case TSlice(e) =>
        if IsByte(e) then AssignScalar(lib, src, ty, prior)
        else if src.Arr? then AssignSlice(lib, src.items, e, prior) else Failed(prior)
      case TMap(e) => if src.Map? then AssignMap(lib, src.entries, e, prior) else Failed(prior)
      case TStruct(fs) =>
        if !src.Map? then Failed(prior)
        else
          var r := AssignFields(lib, src.entries, fs, prior.fields);
          if r.Done? then Done(VStruct(r.now)) else Failed(VStruct(r.now))
      case _ => AssignScalar(lib, src, ty, prior)
  }

  function AssignScalar(lib: GoLib, src: Value, ty: GoType, prior: GoVal): Stored<GoVal> {
    match Scalar(lib, src, ty)
    case Some(v) => Done(v)
    case None => Failed(prior)
  }

  /** The value a scalar target takes, if the source converts to one. */
  function Scalar(lib: GoLib, src: Value, ty: GoType): Option<GoVal> {
    match ty
    case TString => if AsString(lib, src).Some? then Some(VStr(AsString(lib, src).value)) else None
    case TSlice(e) => if IsByte(e) && AsString(lib, src).Some? then Some(VStr(AsString(lib, src).value)) else None
    case TBool => if AsBool(src).Some? then Some(VBool(AsBool(src).value)) else None
    case TFloat => if AsFloat(lib, src).Some? then Some(VFloat(AsFloat(lib, src).value)) else None
    case TInt(w) => if AsInt(lib, src).Some? then Some(VInt(WrapInt(AsInt(lib, src).value, w))) else None
    case TUint(w) => (
      match AsInt(lib, src)
      case Some(n) => if n < 0 then None else Some(VInt(WrapUint(n, w)))
      case None => None)
    case _ => None
  }

  /** A slice or map is stored when every element decoded; until then the target is untouched. */
  function AssignSlice(lib: GoLib, items: seq<Value>, e: GoType, prior: GoVal): Stored<GoVal>
    decreases e, 1
  {
    if forall i | 0 <= i < |items| :: Assign(lib, items[i], e, Zero(e)).Done?
    then Done(VSeq(seq(|items|, i requires 0 <= i < |items| => Assign(lib, items[i], e, Zero(e)).now)))
    else Failed(prior)
  }

  function AssignMap(lib: GoLib, m: map<string, Value>, e: GoType, prior: GoVal): Stored<GoVal>
    decreases e, 1
  {
    if forall k | k in m :: Assign(lib, m[k], e, Zero(e)).Done?
    then Done(VMap(map k | k in m :: Assign(lib, m[k], e, Zero(e)).now))
    else Failed(prior)
  }

  predicate PriorFields(fs: seq<Field>, priors: seq<GoVal>) {
    |priors| == |fs| && forall i | 0 <= i < |fs| :: HasType(priors[i], fs[i].ty)
  }

  /** Fields the source names are assigned in turn, up to the first that fails; the others keep what
      they hold. */
  function AssignFields(lib: GoLib, m: map<string, Value>, fs: seq<Field>, priors: seq<GoVal>): (r: Stored<seq<GoVal>>)
    requires PriorFields(fs, priors)
    ensures |r.now| == |fs|
    decreases fs
  {
    if fs == [] then Done([])
    else
      var n := |fs| - 1;
      var earlier := AssignFields(lib, m, fs[..n], priors[..n]);
      if earlier.Failed? then Failed(earlier.now + [priors[n]])
      else if Skipped(fs[n]) || WireName(fs[n]) !in m then Done(earlier.now + [priors[n]])
      else
        var r := Assign(lib, m[WireName(fs[n])], fs[n].ty, priors[n]);
        if r.Done? then Done(earlier.now + [r.now]) else Failed(earlier.now + [r.now])
  }

  // ---------------------------------------------------------------- the implementation

  /** `assign`, returning what the target holds afterwards. Slices, maps and structs are filled in
      loops; a map's entries come in any order. */
  method AssignInto(lib: GoLib, src: Value, ty: GoType, prior: GoVal) returns (r: Stored<GoVal>)
    requires HasType(prior, ty)
    ensures r == Assign(lib, src, ty, prior)
    decreases ty, 0
  {
    if src.Nil? {
      return Done(Zero(ty));
    }
    match ty {
      case TAny => return Done(Lift(src));
      case TPtr(e) =>
        var v := AssignInto(lib, src, e, if prior.VNil? then Zero(e) else prior.to);
        return if v.Done? then Done(VRef(v.now)) else Failed(VRef(v.now));
      case TSlice(e) =>
        if IsByte(e) {
          return AssignScalar(lib, src, ty, prior);
        }
        if !src.Arr? {
          return Failed(prior);
        }
        r := FillSlice(lib, src.items, e, prior);
      case TMap(e) =>
        if !src.Map? {
          return Failed(prior);
        }
        r := FillMap(lib, src.entries, e, prior);
      case TStruct(fs) =>
        if !src.Map? {
          return Failed(prior);
        }
        var vs := FillStruct(lib, src.entries, fs, prior.fields);
        return if vs.Done? then Done(VStruct(vs.now)) else Failed(VStruct(vs.now));
      case _ => return AssignScalar(lib, src, ty, prior);
    }
  }

  method FillSlice(lib: GoLib, items: seq<Value>, e: GoType, prior: GoVal) returns (r: Stored<GoVal>)
    ensures r == AssignSlice(lib, items, e, prior)
    decreases e, 1
  {
    var out: seq<GoVal> := [];
    for i := 0 to |items|
      invariant |out| == i
      invariant forall j | 0 <= j < i :: Assign(lib, items[j], e, Zero(e)) == Done(out[j])
    {
      var v := AssignInto(lib, items[i], e, Zero(e));
      if v.Failed? {
        return Failed(prior);
      }
      out := out + [v.now];
    }
    SliceFilled(lib, items, e, prior, out);
    return Done(VSeq(out));
  }

  lemma SliceFilled(lib: GoLib, items: seq<Value>, e: GoType, prior: GoVal, out: seq<GoVal>)
    requires |out| == |items| && forall i | 0 <= i < |items| :: Assign(lib, items[i], e, Zero(e)) == Done(out[i])
    ensures AssignSlice(lib, items, e, prior) == Done(VSeq(out))
  {
    var want := AssignSlice(lib, items, e, prior);
    assert want.Done? && want.now.items == out;
  }

  method FillMap(lib: GoLib, m: map<string, Value>, e: GoType, prior: GoVal) returns (r: Stored<GoVal>)
    ensures r == AssignMap(lib, m, e, prior)
    decreases e, 1
  {
    var out: map<string, GoVal> := map[];
    var keys := m.Keys;
    while keys != {}
      invariant keys <= m.Keys && out.Keys == m.Keys - keys
      invariant EntriesDecoded(lib, m, e, out)
      decreases |keys|
    {
      var k :| k in keys;
      var v := AssignInto(lib, m[k], e, Zero(e));
      if v.Failed? {
        EntryFails(lib, m, e, prior, k);
        return Failed(prior);
      }
      EntryDecoded(lib, m, e, out, k, v.now);
      out := out[k := v.now];
      keys := keys - {k};
    }
    MapFilled(lib, m, e, prior, out);
    return Done(VMap(out));
  }

  ghost predicate EntriesDecoded(lib: GoLib, m: map<string, Value>, e: GoType, out: map<string, GoVal>) {
    forall k | k in out :: k in m && Assign(lib, m[k], e, Zero(e)) == Done(out[k])
  }

  lemma EntryFails(lib: GoLib, m: map<string, Value>, e: GoType, prior: GoVal, k: string)
    requires k in m && Assign(lib, m[k], e, Zero(e)).Failed?
    ensures AssignMap(lib, m, e, prior) == Failed(prior)
  {
  }

  lemma EntryDecoded(lib: GoLib, m: map<string, Value>, e: GoType, out: map<string, GoVal>, k: string, v: GoVal)
    requires EntriesDecoded(lib, m, e, out) && k in m && Assign(lib, m[k], e, Zero(e)) == Done(v)
    ensures EntriesDecoded(lib, m, e, out[k := v])
  {
  }

  lemma MapFilled(lib: GoLib, m: map<string, Value>, e: GoType, prior: GoVal, out: map<string, GoVal>)
    requires out.Keys == m.Keys && EntriesDecoded(lib, m, e, out)
    ensures AssignMap(lib, m, e, prior) == Done(VMap(out))
  {
    var want := AssignMap(lib, m, e, prior);
    assert want.Done? && want.now.entries == out;
  }

  method FillStruct(lib: GoLib, m: map<string, Value>, fs: seq<Field>, priors: seq<GoVal>)
    returns (r: Stored<seq<GoVal>>)
    requires PriorFields(fs, priors)
    ensures r == AssignFields(lib, m, fs, priors)
    decreases fs
  {
    var done: seq<GoVal> := [];
    for i := 0 to |fs|
      invariant AssignFields(lib, m, fs[..i], priors[..i]) == Done(done)
    {
      assert fs[..i + 1][..i] == fs[..i] && priors[..i + 1][..i] == priors[..i];
      if !fs[i].exported {
        done := done + [priors[i]];
        continue;
      }
      var name, _, skip := JsonFieldName(fs[i]);
      if skip || name !in m {
        done := done + [priors[i]];
        continue;
      }
      var v := AssignInto(lib, m[name], fs[i].ty, priors[i]);
      done := done + [v.now];
      if v.Failed? {
        FieldFails(lib, m, fs, priors, i);
        return Failed(done + priors[i + 1..]);
      }
    }
    assert fs[..|fs|] == fs && priors[..|fs|] == priors;
    return Done(done);
  }

  lemma {:induction false} FieldFails(lib: GoLib, m: map<string, Value>, fs: seq<Field>, priors: seq<GoVal>, i: nat)
    requires PriorFields(fs, priors) && i < |fs| && AssignFields(lib, m, fs[..i + 1], priors[..i + 1]).Failed?
    ensures AssignFields(lib, m, fs, priors)
         == Failed(AssignFields(lib, m, fs[..i + 1], priors[..i + 1]).now + priors[i + 1..])
  {
    var n := |fs| - 1;
    if i < n {
      assert fs[..n][..i + 1] == fs[..i + 1] && priors[..n][..i + 1] == priors[..i + 1];
      FieldFails(lib, m, fs[..n], priors[..n], i);
      assert priors[..n][i + 1..] + [priors[n]] == priors[i + 1..];
      var some := AssignFields(lib, m, fs[..i + 1], priors[..i + 1]).now;
      assert some + priors[..n][i + 1..] + [priors[n]] == some + (priors[..n][i + 1..] + [priors[n]]);
    } else {
      assert fs[..i + 1] == fs && priors[..i + 1] == priors;
      var some := AssignFields(lib, m, fs, priors).now;
      assert some + priors[i + 1..] == some;
    }
  }

  // ---------------------------------------------------------------- soundness and frame

  /** The integers of a source are machine integers. */
  predicate Sized(src: Value) {
    match src
    case Int64(n) => InInt64(n)
    case GoInt(n) => InInt64(n)
    case Uint64(n) => 0 <= n < TWO_64
    case Arr(items) => forall i | 0 <= i < |items| :: Sized(items[i])
    case Map(m) => forall k | k in m :: Sized(m[k])
    case _ => true
  }

  lemma {:induction false} LiftHasType(src: Value)
    requires Sized(src)
    ensures HasType(Lift(src), TAny)
  {
    match src
    case Arr(items) =>
      forall i | 0 <= i < |items| ensures HasType(Lift(items[i]), TAny) { LiftHasType(items[i]); }
    case Map(m) =>
      forall k | k in m ensures HasType(Lift(m[k]), TAny) { LiftHasType(m[k]); }
    case _ =>
  }

  /** Whatever the source, and whether the decode succeeds or not, the target holds a value of its
      type. */
  lemma {:induction false} AssignHasType(lib: GoLib, src: Value, ty: GoType, prior: GoVal)
    requires HasType(prior, ty) && Sized(src)
    ensures HasType(Assign(lib, src, ty, prior).now, ty)
    decreases ty, 0
  {
    if !src.Nil? {
      match ty
      case TAny => LiftHasType(src);
      case TPtr(e) => AssignHasType(lib, src, e, if prior.VNil? then Zero(e) else prior.to);
      case TSlice(e) =>
        if !IsByte(e) && src.Arr? {
          forall i | 0 <= i < |src.items| { AssignHasType(lib, src.items[i], e, Zero(e)); }
        }
      case TMap(e) =>
        if src.Map? {
          forall k | k in src.entries { AssignHasType(lib, src.entries[k], e, Zero(e)); }
        }
      case TStruct(fs) =>
        if src.Map? {
          FieldsHaveType(lib, src.entries, fs, prior.fields);
        }
      case _ =>
    }
  }

  lemma {:induction false} FieldsHaveType(lib: GoLib, m: map<string, Value>, fs: seq<Field>, priors: seq<GoVal>)
    requires PriorFields(fs, priors) && forall k | k in m :: Sized(m[k])
    ensures PriorFields(fs, AssignFields(lib, m, fs, priors).now)
    decreases fs
  {
    if fs != [] {
      var n := |fs| - 1;
      FieldsHaveType(lib, m, fs[..n], priors[..n]);
      if WireName(fs[n]) in m {
        AssignHasType(lib, m[WireName(fs[n])], fs[n].ty, priors[n]);
      }
    }
  }

  /** Decoding field i on its own. A field the source does not name keeps its value. */
  function FieldAlone(lib: GoLib, m: map<string, Value>, f: Field, prior: GoVal): Stored<GoVal>
    requires HasType(prior, f.ty)
  {
    if Skipped(f) || WireName(f) !in m then Done(prior) else Assign(lib, m[WireName(f)], f.ty, prior)
  }

  /** The first n fields all decode. */
  predicate FirstDone(lib: GoLib, m: map<string, Value>, fs: seq<Field>, priors: seq<GoVal>, n: nat)
    requires PriorFields(fs, priors) && n <= |fs|
  {
    forall j | 0 <= j < n :: FieldAlone(lib, m, fs[j], priors[j]).Done?
  }

  lemma FirstDoneStep(lib: GoLib, m: map<string, Value>, fs: seq<Field>, priors: seq<GoVal>, n: nat)
    requires PriorFields(fs, priors) && n < |fs|
    ensures FirstDone(lib, m, fs, priors, n + 1)
       <==> FirstDone(lib, m, fs, priors, n) && FieldAlone(lib, m, fs[n], priors[n]).Done?
  {
  }

  lemma FirstDonePrefix(lib: GoLib, m: map<string, Value>, fs: seq<Field>, priors: seq<GoVal>, k: nat, n: nat)
    requires PriorFields(fs, priors) && n <= k <= |fs|
    ensures FirstDone(lib, m, fs[..k], priors[..k], n) == FirstDone(lib, m, fs, priors, n)
  {
    assert forall j | 0 <= j < n :: fs[..k][j] == fs[j] && priors[..k][j] == priors[j];
  }

  lemma AssignFieldsStep(lib: GoLib, m: map<string, Value>, fs: seq<Field>, priors: seq<GoVal>)
    requires PriorFields(fs, priors) && fs != []
    ensures var n := |fs| - 1;
      var earlier, alone := AssignFields(lib, m, fs[..n], priors[..n]), FieldAlone(lib, m, fs[n], priors[n]);
      AssignFields(lib, m, fs, priors)
        == if earlier.Failed? then Failed(earlier.now + [priors[n]])
           else if alone.Done? then Done(earlier.now + [alone.now])
           else Failed(earlier.now + [alone.now])
  {
  }

  lemma {:induction false} StructDoneIff(lib: GoLib, m: map<string, Value>, fs: seq<Field>, priors: seq<GoVal>)
    requires PriorFields(fs, priors)
    ensures AssignFields(lib, m, fs, priors).Done? <==> FirstDone(lib, m, fs, priors, |fs|)
  {
    if fs != [] {
      var n := |fs| - 1;
      StructDoneIff(lib, m, fs[..n], priors[..n]);
      FirstDonePrefix(lib, m, fs, priors, n, n);
      FirstDoneStep(lib, m, fs, priors, n);
      AssignFieldsStep(lib, m, fs, priors);
    }
  }

  /** A struct target, field by field: the decode succeeds exactly when every field decodes on its own.
      Up to and including the first that does not, each holds what its own decode leaves; later ones
      keep their value. */
  lemma {:induction false} StructFieldwise(lib: GoLib, m: map<string, Value>, fs: seq<Field>, priors: seq<GoVal>,
      i: nat)
    requires PriorFields(fs, priors) && i < |fs|
    ensures AssignFields(lib, m, fs, priors).Done? <==> FirstDone(lib, m, fs, priors, |fs|)
    ensures AssignFields(lib, m, fs, priors).now[i]
         == if FirstDone(lib, m, fs, priors, i) then FieldAlone(lib, m, fs[i], priors[i]).now else priors[i]
  {
    StructDoneIff(lib, m, fs, priors);
    var n := |fs| - 1;
    FirstDonePrefix(lib, m, fs, priors, n, i);
    if i < n {
      StructFieldwise(lib, m, fs[..n], priors[..n], i);
      EarlierFieldStands(lib, m, fs, priors, i);
      assert fs[..n][i] == fs[i] && priors[..n][i] == priors[i];
    } else {
      StructDoneIff(lib, m, fs[..n], priors[..n]);
      AssignFieldsStep(lib, m, fs, priors);
    }
  }

  lemma EarlierFieldStands(lib: GoLib, m: map<string, Value>, fs: seq<Field>, priors: seq<GoVal>, i: nat)
    requires PriorFields(fs, priors) && i < |fs| - 1
    ensures AssignFields(lib, m, fs, priors).now[i] == AssignFields(lib, m, fs[..|fs| - 1], priors[..|fs| - 1]).now[i]
  {
    AssignFieldsStep(lib, m, fs, priors);
  }

  lemma SignedTarget(lib: GoLib, src: Value, w: Width, prior: GoVal)
    requires AsInt(lib, src).Some? && HasType(prior, TInt(w))
    ensures Assign(lib, src, TInt(w), prior) == Done(VInt(WrapInt(AsInt(lib, src).value, w)))
  {
  }

  lemma UnsignedTarget(lib: GoLib, src: Value, w: Width, prior: GoVal)
    requires AsInt(lib, src).Some? && HasType(prior, TUint(w))
    ensures var n := AsInt(lib, src).value;
      Assign(lib, src, TUint(w), prior) == if n < 0 then Failed(prior) else Done(VInt(WrapUint(n, w)))
  {
  }

  /** m is n modulo the width. */
  predicate Narrows(m: int, n: int, w: Width) {
    (m - n) % (2 * Half(w)) == 0
  }

  /** An integer target, from any scalar that stands for an integer n: it holds n modulo its width, and
      n itself exactly when n fits; an unsigned target refuses exactly the negative ones. A float stands
      for its integral part when that fits int64. */
  lemma NarrowTarget(lib: GoLib, src: Value, w: Width, prior: GoVal)
    requires AsInt(lib, src).Some? && HasType(prior, TInt(w)) && HasType(prior, TUint(w))
    ensures var n, r := AsInt(lib, src).value, Assign(lib, src, TInt(w), prior);
      r.Done? && r.now.VInt? && Narrows(r.now.n, n, w) && (r.now.n == n <==> -Half(w) <= n < Half(w))
    ensures var n, r := AsInt(lib, src).value, Assign(lib, src, TUint(w), prior);
      if n < 0 then r == Failed(prior)
      else r.Done? && r.now.VInt? && Narrows(r.now.n, n, w) && (r.now.n == n <==> n < 2 * Half(w))
    ensures src.Float? && InInt64(Trunc(src.r)) ==> AsInt(lib, src).value == Trunc(src.r)
  {
    SignedTarget(lib, src, w, prior);
    UnsignedTarget(lib, src, w, prior);
  }

  /** The widths, by what becomes of integers that do not fit. */
  lemma WidthsWrap(lib: GoLib)
    ensures Assign(lib, Int64(200), TInt(W8), VInt(0)) == Done(VInt(-56))
    ensures Assign(lib, Int64(300), TUint(W8), VInt(0)) == Done(VInt(44))
    ensures Assign(lib, Int64(40000), TInt(W16), VInt(0)) == Done(VInt(-25536))
    ensures Assign(lib, Int64(70000), TUint(W16), VInt(0)) == Done(VInt(4464))
    ensures Assign(lib, Int64(3000000000), TInt(W32), VInt(0)) == Done(VInt(-1294967296))
    ensures Assign(lib, Int64(5000000000), TUint(W32), VInt(0)) == Done(VInt(705032704))
    ensures Assign(lib, Int64(0x7FFF_FFFF_FFFF_FFFF), TInt(W64), VInt(0)) == Done(VInt(0x7FFF_FFFF_FFFF_FFFF))
  {
  }

  // ---------------------------------------------------------------- every scalar source, target by target

  /** An integer reply n, as counters and offsets arrive: an integer target holds n itself if n fits, and an
      unsigned one refuses a negative n. */
  lemma IntegerDecodes(lib: GoLib, n: int, w: Width, i: GoVal, u: GoVal)
    requires InInt64(n) && HasType(i, TInt(w)) && HasType(u, TUint(w))
    ensures -Half(w) <= n < Half(w) ==> Assign(lib, Int64(n), TInt(w), i) == Done(VInt(n))
    ensures 0 <= n < 2 * Half(w) ==> Assign(lib, Int64(n), TUint(w), u) == Done(VInt(n))
    ensures n < 0 ==> Assign(lib, Int64(n), TUint(w), u) == Failed(u)
  {
    SignedTarget(lib, Int64(n), w, i);
    UnsignedTarget(lib, Int64(n), w, u);
  }

  /** A float target holds the nearest float, a boolean one whether n is not zero, and a text or byte target the
      decimal text, which reads back as n. */
  lemma IntegerConverts(lib: GoLib, n: int, f: GoVal, b: GoVal, s: GoVal)
    requires InInt64(n) && f.VFloat? && b.VBool? && s.VStr?
    ensures Assign(lib, Int64(n), TFloat, f) == Done(VFloat(RoundInt(n) as real))
    ensures Assign(lib, Int64(n), TBool, b) == Done(VBool(n != 0))
    ensures var r := Assign(lib, Int64(n), TString, s); r.Done? && r.now.VStr? && ParseInt(r.now.s) == Some(n)
    ensures Assign(lib, Int64(n), TSlice(TUint(W8)), s) == Assign(lib, Int64(n), TString, s)
  {
    ParseText(n);
  }

  /** A float reply: itself, its integral part n where that fits, whether it is not zero, and as text how
      `strconv` formats it. */
  lemma FloatDecodes(lib: GoLib, r: real, n: int, w: Width, i: GoVal, f: GoVal, b: GoVal, s: GoVal)
    requires HasType(i, TInt(w)) && f.VFloat? && b.VBool? && s.VStr?
    requires if r >= 0.0 then n as real <= r < n as real + 1.0 else n as real - 1.0 < r <= n as real
    ensures Assign(lib, Float(r), TFloat, f) == Done(VFloat(r))
    ensures -Half(w) <= n < Half(w) ==> Assign(lib, Float(r), TInt(w), i) == Done(VInt(n))
    ensures Assign(lib, Float(r), TBool, b) == Done(VBool(r != 0.0))
    ensures Assign(lib, Float(r), TString, s) == Done(VStr(lib.formatFloat(r)))
    ensures Assign(lib, Float(r), TSlice(TUint(W8)), s) == Done(VStr(lib.formatFloat(r)))
  {
    assert Trunc(r) == n;
  }

  /** A text or binary reply: byte for byte into text and byte targets; only text is also parsed as a number,
      and neither is a boolean. */
  lemma TextDecodes(lib: GoLib, t: string, w: Width, i: GoVal, f: GoVal, b: GoVal, s: GoVal)
    requires HasType(i, TInt(w)) && f.VFloat? && b.VBool? && s.VStr?
    ensures forall src | src == Str(t) || src == Bytes(t) ::
      && Assign(lib, src, TString, s) == Done(VStr(t))
      && Assign(lib, src, TSlice(TUint(W8)), s) == Done(VStr(t))
      && Assign(lib, src, TBool, b) == Failed(b)
    ensures Assign(lib, Bytes(t), TInt(w), i) == Failed(i) && Assign(lib, Bytes(t), TFloat, f) == Failed(f)
    ensures match ParseInt(t)
      case Some(n) => -Half(w) <= n < Half(w) ==> Assign(lib, Str(t), TInt(w), i) == Done(VInt(n))
      case None => Assign(lib, Str(t), TInt(w), i) == Failed(i)
    ensures match lib.parseFloat(t)
      case Some(r) => Assign(lib, Str(t), TFloat, f) == Done(VFloat(r))
      case None => Assign(lib, Str(t), TFloat, f) == Failed(f)
  {
  }

  /** A boolean reply: itself, 1 or 0, and the words; it is no float. */
  lemma BoolDecodes(lib: GoLib, x: bool, w: Width, i: GoVal, f: GoVal, b: GoVal, s: GoVal)
    requires HasType(i, TInt(w)) && f.VFloat? && b.VBool? && s.VStr?
    ensures Assign(lib, Bool(x), TBool, b) == Done(VBool(x))
    ensures Assign(lib, Bool(x), TInt(w), i) == Done(VInt(if x then 1 else 0))
    ensures Assign(lib, Bool(x), TString, s) == Done(VStr(if x then "true" else "false"))
    ensures Assign(lib, Bool(x), TFloat, f) == Failed(f)
  {
  }

  /** Lists and maps are no scalars, and scalars neither lists, maps nor structs. */
  lemma ShapesDoNotMix(lib: GoLib, src: Value, ty: GoType, prior: GoVal)
    requires HasType(prior, ty) && !src.Nil?
    requires if src.Arr? || src.Map? then ty in {TBool, TFloat, TString, TSlice(TUint(W8))} || ty.TInt? || ty.TUint?
             else (ty.TSlice? && !IsByte(ty.elem)) || ty.TMap? || ty.TStruct?
    ensures Assign(lib, src, ty, prior) == Failed(prior)
  {
  }

  /** Nil clears any target. */
  lemma NilClears(lib: GoLib, ty: GoType, prior: GoVal)
    requires HasType(prior, ty)
    ensures var r := Assign(lib, Nil, ty, prior);
      && r.Done?
      && (match ty
          case TBool => r.now == VBool(false)
          case TInt(_) => r.now == VInt(0)
          case TUint(_) => r.now == VInt(0)
          case TFloat => r.now == VFloat(0.0)
          case TString => r.now == VStr("")
          case TSlice(e) => r.now == (if e == TUint(W8) then VStr("") else VSeq([]))
          case TMap(_) => r.now == VMap(map[])
          case TPtr(_) => r.now == VNil
          case TAny => r.now == VNil
          case _ => HasType(r.now, ty))
  {
  }

  /** A list decodes exactly when each element does on its own, in place and in order; if one does not, the
      target keeps what it held. */
  lemma ElementsDecode(lib: GoLib, items: seq<Value>, e: GoType, s: GoVal)
    requires HasType(s, TSlice(e)) && !IsByte(e)
    ensures var r := Assign(lib, Arr(items), TSlice(e), s);
      if forall i | 0 <= i < |items| :: Assign(lib, items[i], e, Zero(e)).Done? then
        r.Done? && r.now.VSeq? && |r.now.items| == |items|
        && forall i | 0 <= i < |items| :: Done(r.now.items[i]) == Assign(lib, items[i], e, Zero(e))
      else r == Failed(s)
  {
  }

  /** A map likewise, entry by entry. */
  lemma EntriesDecode(lib: GoLib, m: map<string, Value>, e: GoType, t: GoVal)
    requires HasType(t, TMap(e))
    ensures var r := Assign(lib, Map(m), TMap(e), t);
      if forall k | k in m :: Assign(lib, m[k], e, Zero(e)).Done? then
        r.Done? && r.now.VMap? && r.now.entries.Keys == m.Keys
        && forall k | k in m :: Done(r.now.entries[k]) == Assign(lib, m[k], e, Zero(e))
      else r == Failed(t)
  {
  }

  lemma AnyLifts(lib: GoLib, src: Value, prior: GoVal)
    requires HasType(prior, TAny)
    ensures Assign(lib, src, TAny, prior) == Done(Lift(src))
  {
  }

  /** An untyped target holds a scalar reply at its own dynamic type. */
  lemma AnyHolds(lib: GoLib, n: int, b: bool, x: real, s: string, prior: GoVal)
    requires HasType(prior, TAny)
    ensures Assign(lib, Nil, TAny, prior) == Done(VNil)
    ensures Assign(lib, Bool(b), TAny, prior) == Done(VIface(TBool, VBool(b)))
    ensures Assign(lib, Int64(n), TAny, prior) == Done(VIface(TInt(W64), VInt(n)))
    ensures Assign(lib, Float(x), TAny, prior) == Done(VIface(TFloat, VFloat(x)))
    ensures Assign(lib, Str(s), TAny, prior) == Done(VIface(TString, VStr(s)))
  {
  }

  /** And a list or map as one of what its elements are held as. */
  lemma AnyHoldsElements(lib: GoLib, items: seq<Value>, m: map<string, Value>, prior: GoVal)
    requires HasType(prior, TAny)
    ensures exists vs: seq<GoVal> ::
      && Assign(lib, Arr(items), TAny, prior) == Done(VIface(TSlice(TAny), VSeq(vs))) && |vs| == |items|
      && forall i | 0 <= i < |items| :: Assign(lib, items[i], TAny, VNil) == Done(vs[i])
    ensures exists vs: map<string, GoVal> ::
      && Assign(lib, Map(m), TAny, prior) == Done(VIface(TMap(TAny), VMap(vs))) && vs.Keys == m.Keys
      && forall k | k in m :: Assign(lib, m[k], TAny, VNil) == Done(vs[k])
  {
    forall i | 0 <= i < |items| ensures Assign(lib, items[i], TAny, VNil) == Done(Lift(items[i])) {
      AnyLifts(lib, items[i], VNil);
    }
    forall k | k in m ensures Assign(lib, m[k], TAny, VNil) == Done(Lift(m[k])) {
      AnyLifts(lib, m[k], VNil);
    }
    assert Assign(lib, Arr(items), TAny, prior) == Done(VIface(TSlice(TAny), VSeq(Lift(Arr(items)).of.items)));
    assert Assign(lib, Map(m), TAny, prior) == Done(VIface(TMap(TAny), VMap(Lift(Map(m)).of.entries)));
  }
}
