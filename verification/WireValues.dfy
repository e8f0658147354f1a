/** Values on the binary transport: `toWire` and `fromWire`, and the map replies of both transports. */
module WireValues {
  import opened GoValues
  import opened RespCodec
  import opened Utf8

  datatype Wire =
    | WNull
    | WBool(b: bool)
    | WInt(n: int)
    | WFloat(r: real)
    | WStr(s: string)
    | WBytes(s: string)
    | WArray(items: seq<Wire>)
    | WMap(pairs: seq<Pair>)

  datatype Pair = Pair(key: Wire, val: Wire)

  /** w is what `toWire` may send for v: a map's entries come in some order, each key once. */
  ghost predicate Carries(w: Wire, v: Value)
    decreases v
  {
    match v
    case Nil => w == WNull
    case Bool(b) => w == WBool(b)
    case Int64(n) => w == WInt(n)
    case GoInt(n) => w == WInt(n)
    case Uint64(n) => w == WInt(Wrap64(n))
    case Float(r) => w == WFloat(r)
    case Str(s) => w == if ValidUtf8(s) then WStr(s) else WBytes(s)
    case Bytes(s) => w == WBytes(s)
    case Arr(items) => w.WArray? && |w.items| == |items| && forall i | 0 <= i < |items| :: Carries(w.items[i], items[i])
    case Map(m) => w.WMap? && exists keys: seq<string> :: InOrder(w.pairs, v, keys)
  }

  /** The pairs are the entries of the map v, in the order of `keys`. */
  ghost predicate InOrder(pairs: seq<Pair>, v: Value, keys: seq<string>)
    requires v.Map?
    decreases v, 0
  {
    && Lists(keys, v.entries.Keys) && |pairs| == |keys|
    && forall i | 0 <= i < |keys| :: pairs[i].key == WStr(keys[i]) && Carries(pairs[i].val, v.entries[keys[i]])
  }

  /** Every element of the set, once. */
  ghost predicate Lists(keys: seq<string>, s: set<string>) {
    (forall i | 0 <= i < |keys| :: keys[i] in s)
    && (forall k | k in s :: k in keys)
    && forall i, j | 0 <= i < j < |keys| :: keys[i] != keys[j]
  }

  function FromWire(lib: GoLib, w: Wire): Value
    decreases w
  {
    match w
    case WNull => Nil
    case WBool(b) => Bool(b)
    case WInt(n) => Int64(n)
    case WFloat(r) => Float(r)
    case WStr(s) => Str(s)
    case WBytes(s) => Str(s)
    case WArray(items) => Arr(seq(|items|, i requires 0 <= i < |items| => FromWire(lib, items[i])))
    case WMap(pairs) => Map(FromPairs(lib, pairs))
  }

  /** Later entries replace earlier ones of the same printed key. */
  function FromPairs(lib: GoLib, pairs: seq<Pair>): map<string, Value>
    decreases pairs
  {
    if pairs == [] then map[]
    else
      var (k, v) := FromPair(lib, pairs[|pairs| - 1]);
      FromPairs(lib, pairs[..|pairs| - 1])[k := v]
  }

  function FromPair(lib: GoLib, p: Pair): (string, Value)
    decreases p
  {
    (Render(lib, FromWire(lib, p.key)), FromWire(lib, p.val))
  }

  /** The form a value has after one trip: integers are `int64`, byte slices are strings. */
  function Norm(v: Value): Value {
    match v
    case GoInt(n) => Int64(n)
    case Uint64(n) => Int64(Wrap64(n))
    case Bytes(s) => Str(s)
    case Arr(items) => Arr(seq(|items|, i requires 0 <= i < |items| => Norm(items[i])))
    case Map(m) => Map(map k | k in m :: Norm(m[k]))
    case _ => v
  }

  // ---------------------------------------------------------------- the loops

  method ToWire(v: Value) returns (w: Wire)
    ensures Carries(w, v)
    decreases v
  {
    match v {
      case Nil => return WNull;
      case Bool(b) => return WBool(b);
      case Int64(n) => return WInt(n);
      case GoInt(n) => return WInt(n);
      case Uint64(n) => return WInt(Wrap64(n));
      case Float(r) => return WFloat(r);
      case Str(s) => return if !ValidUtf8(s) then WBytes(s) else WStr(s);
      case Bytes(s) => return WBytes(s);
      case Arr(values) =>
        var items: seq<Wire> := [];
        for i := 0 to |values|
          invariant |items| == i && forall j | 0 <= j < i :: Carries(items[j], values[j])
        {
          var item := ToWire(values[i]);
          items := items + [item];
        }
        return WArray(items);
      case Map(m) =>
        var pairs: seq<Pair> := [];
        var left := m.Keys;
        ghost var keys: seq<string> := [];
        while left != {}
          invariant left <= m.Keys && Lists(keys, m.Keys - left) && |pairs| == |keys|
          invariant forall i | 0 <= i < |keys| :: pairs[i].key == WStr(keys[i]) && Carries(pairs[i].val, m[keys[i]])
          decreases |left|
        {
          var k :| k in left;
          var val := ToWire(m[k]);
          pairs := pairs + [Pair(WStr(k), val)];
          keys := keys + [k];
          left := left - {k};
        }
        assert m.Keys - left == m.Keys;
        assert InOrder(pairs, v, keys);
        return WMap(pairs);
    }
  }

  method FromWireValue(lib: GoLib, w: Wire) returns (v: Value)
    ensures v == FromWire(lib, w)
    decreases w
  {
    match w {
      case WNull => return Nil;
      case WBool(b) => return Bool(b);
      case WInt(n) => return Int64(n);
      case WFloat(r) => return Float(r);
      case WStr(s) => return Str(s);
      case WBytes(s) => return Str(s);
      case WArray(items) =>
        var out: seq<Value> := [];
        for i := 0 to |items|
          invariant |out| == i && forall j | 0 <= j < i :: out[j] == FromWire(lib, items[j])
        {
          var item := FromWireValue(lib, items[i]);
          out := out + [item];
        }
        return Arr(out);
      case WMap(pairs) =>
        var out: map<string, Value> := map[];
        for i := 0 to |pairs|
          invariant out == FromPairs(lib, pairs[..i])
        {
          assert pairs[..i + 1][..i] == pairs[..i];
          assert pairs[i].key < pairs[i] && pairs[i].val < pairs[i];
          var key := FromWireValue(lib, pairs[i].key);
          var val := FromWireValue(lib, pairs[i].val);
          out := out[Render(lib, key) := val];
        }
        assert pairs[..|pairs|] == pairs;
        return Map(out);
    }
  }

  // ---------------------------------------------------------------- the round trip

  /** Whichever order the entries took and whichever branch a string took, the value arrives in its
      normal form, every string byte for byte. */
  lemma {:induction false} FromWireInvertsToWire(lib: GoLib, w: Wire, v: Value)
    requires Carries(w, v)
    ensures FromWire(lib, w) == Norm(v)
    decreases v
  {
    match v
    case Arr(items) =>
      forall i | 0 <= i < |items| ensures FromWire(lib, w.items[i]) == Norm(items[i]) {
        FromWireInvertsToWire(lib, w.items[i], items[i]);
      }
    case Map(m) =>
      var keys: seq<string> :| InOrder(w.pairs, v, keys);
      EntriesArrive(lib, w.pairs, v, keys);
    case _ =>
  }

  lemma NormEntries(v: Value)
    requires v.Map?
    ensures Norm(v).Map? && Norm(v).entries.Keys == v.entries.Keys
    ensures forall k | k in v.entries :: Norm(v).entries[k] == Norm(v.entries[k])
  {
  }

  lemma {:induction false} EntriesArrive(lib: GoLib, pairs: seq<Pair>, v: Value, keys: seq<string>)
    requires v.Map? && InOrder(pairs, v, keys)
    ensures FromPairs(lib, pairs) == Norm(v).entries
    decreases v, 0
  {
    NormEntries(v);
    var n := Norm(v).entries;
    forall i | 0 <= i < |keys| ensures FromPair(lib, pairs[i]) == (keys[i], n[keys[i]]) {
      FromWireInvertsToWire(lib, pairs[i].val, v.entries[keys[i]]);
    }
    PairsMakeMap(lib, pairs, keys, n);
  }

  lemma PairsMakeMap(lib: GoLib, pairs: seq<Pair>, keys: seq<string>, m: map<string, Value>)
    requires Lists(keys, m.Keys) && |pairs| == |keys|
    requires forall i | 0 <= i < |keys| :: FromPair(lib, pairs[i]) == (keys[i], m[keys[i]])
    ensures FromPairs(lib, pairs) == m
  {
    PairsOf(lib, pairs, keys, m);
    assert FromPairs(lib, pairs).Keys == m.Keys;
  }

  lemma {:induction false} PairsOf(lib: GoLib, pairs: seq<Pair>, keys: seq<string>, m: map<string, Value>)
    requires |pairs| == |keys| && forall i, j | 0 <= i < j < |keys| :: keys[i] != keys[j]
    requires forall i | 0 <= i < |keys| :: keys[i] in m && FromPair(lib, pairs[i]) == (keys[i], m[keys[i]])
    ensures var r := FromPairs(lib, pairs);
      (forall k :: k in r <==> k in keys) && forall k | k in r :: k in m && r[k] == m[k]
  {
    if pairs != [] {
      var n := |pairs| - 1;
      PairsOf(lib, pairs[..n], keys[..n], m);
      var r := FromPairs(lib, pairs[..n]);
      assert FromPairs(lib, pairs) == r[keys[n] := m[keys[n]]];
      assert forall k :: k in keys <==> k in keys[..n] || k == keys[n];
    }
  }

  lemma {:induction false} NormIsIdempotent(v: Value)
    ensures Norm(Norm(v)) == Norm(v)
  {
    match v
    case Arr(items) =>
      forall i | 0 <= i < |items| ensures Norm(Norm(items[i])) == Norm(items[i]) { NormIsIdempotent(items[i]); }
    case Map(m) =>
      forall k | k in m ensures Norm(Norm(m[k])) == Norm(m[k]) { NormIsIdempotent(m[k]); }
    case _ =>
  }

  ghost predicate IsNormal(v: Value) {
    Norm(v) == v
  }

  ghost predicate NormalMap(m: map<string, Value>) {
    forall k | k in m :: IsNormal(m[k])
  }

  lemma NormalUpdate(m: map<string, Value>, k: string, v: Value)
    requires NormalMap(m) && IsNormal(v)
    ensures NormalMap(m[k := v])
  {
    var n := m[k := v];
    forall j | j in n ensures IsNormal(n[j]) {
      if j != k {
        assert n[j] == m[j];
      }
    }
  }

  lemma MapOfNormals(m: map<string, Value>)
    requires NormalMap(m)
    ensures IsNormal(Map(m))
  {
    NormEntries(Map(m));
    SameEntries(Norm(Map(m)).entries, m);
  }

  lemma SameEntries(a: map<string, Value>, b: map<string, Value>)
    requires a.Keys == b.Keys && forall k | k in b :: a[k] == b[k]
    ensures a == b
  {
  }

  lemma ArrayOfNormals(items: seq<Value>)
    requires forall i | 0 <= i < |items| :: IsNormal(items[i])
    ensures IsNormal(Arr(items))
  {
    assert Norm(Arr(items)).items == items;
  }

  /** Whatever arrives is already in normal form. */
  lemma {:induction false} ReceivedIsNormal(lib: GoLib, w: Wire)
    ensures IsNormal(FromWire(lib, w))
    decreases w
  {
    match w
    case WArray(items) =>
      forall i | 0 <= i < |items| ensures IsNormal(FromWire(lib, items[i])) {
        ReceivedIsNormal(lib, items[i]);
      }
      ArrayOfNormals(FromWire(lib, w).items);
    case WMap(pairs) =>
      ReceivedPairs(lib, pairs);
      MapOfNormals(FromPairs(lib, pairs));
    case _ =>
  }

  lemma {:induction false} ReceivedPairs(lib: GoLib, pairs: seq<Pair>)
    ensures NormalMap(FromPairs(lib, pairs))
    decreases pairs
  {
    if pairs != [] {
      var n := |pairs| - 1;
      ReceivedPairs(lib, pairs[..n]);
      assert pairs[n].val < pairs[n];
      ReceivedIsNormal(lib, pairs[n].val);
      var (k, v) := FromPair(lib, pairs[n]);
      NormalUpdate(FromPairs(lib, pairs[..n]), k, v);
    }
  }

  /** Sending back what was received changes nothing. */
  lemma ResendIsIdentity(lib: GoLib, received: Wire, w: Wire)
    requires Carries(w, FromWire(lib, received))
    ensures FromWire(lib, w) == FromWire(lib, received)
  {
    FromWireInvertsToWire(lib, w, FromWire(lib, received));
    ReceivedIsNormal(lib, received);
  }

  // ---------------------------------------------------------------- what is on the wire

  /** Every text value, other than a map's keys, is UTF-8. */
  predicate TextIsUtf8(w: Wire) {
    match w
    case WStr(s) => ValidUtf8(s)
    case WArray(items) => forall i | 0 <= i < |items| :: TextIsUtf8(items[i])
    case WMap(pairs) => forall i | 0 <= i < |pairs| :: pairs[i].key.WStr? && TextIsUtf8(pairs[i].val)
    case _ => true
  }

  /** The server never has to decode text that is not UTF-8: such strings travel as binary, at any depth. */
  lemma {:induction false} OnlyUtf8TravelsAsText(w: Wire, v: Value)
    requires Carries(w, v)
    ensures TextIsUtf8(w)
    ensures v.Str? ==> if ValidUtf8(v.s) then w == WStr(v.s) else w == WBytes(v.s)
    decreases v
  {
    match v
    case Arr(items) =>
      forall i | 0 <= i < |items| { OnlyUtf8TravelsAsText(w.items[i], items[i]); }
    case Map(m) =>
      var keys: seq<string> :| InOrder(w.pairs, v, keys);
      forall i | 0 <= i < |keys| { OnlyUtf8TravelsAsText(w.pairs[i].val, m[keys[i]]); }
    case _ =>
  }

  /** The other scalars, on the wire and after the trip: integers as int64, an unsigned one modulo 2^64. */
  lemma ScalarsTravel(w: Wire, n: int, u: nat, b: bool, r: real, s: string)
    requires InInt64(n) && u < 0x1_0000_0000_0000_0000
    ensures Carries(w, Nil) <==> w == WNull
    ensures Carries(w, Bool(b)) <==> w == WBool(b)
    ensures Carries(w, Int64(n)) <==> w == WInt(n)
    ensures Carries(w, GoInt(n)) <==> w == WInt(n)
    ensures Carries(w, Uint64(u)) <==> w == WInt(if u < 0x8000_0000_0000_0000 then u else u - 0x1_0000_0000_0000_0000)
    ensures Carries(w, Float(r)) <==> w == WFloat(r)
    ensures Carries(w, Bytes(s)) <==> w == WBytes(s)
  {
  }

  lemma ScalarsComeBack(lib: GoLib, n: int, b: bool, r: real, s: string)
    ensures FromWire(lib, WInt(n)) == Int64(n) && FromWire(lib, WBool(b)) == Bool(b)
    ensures FromWire(lib, WFloat(r)) == Float(r) && FromWire(lib, WNull) == Nil
    ensures FromWire(lib, WStr(s)) == FromWire(lib, WBytes(s)) == Str(s)
  {
  }

  // ---------------------------------------------------------------- flat and map replies

  /** The entries of a map, key and value alternating. */
  function Flat(lib: GoLib, pairs: seq<Pair>): (flat: seq<Value>)
    ensures |flat| == 2 * |pairs|
  {
    if pairs == [] then []
    else
      var p := pairs[|pairs| - 1];
      Flat(lib, pairs[..|pairs| - 1]) + [FromWire(lib, p.key), FromWire(lib, p.val)]
  }

  lemma LastPair(lib: GoLib, pairs: seq<Pair>, front: seq<Pair>, k: Value, v: Value)
    requires pairs != [] && front == pairs[..|pairs| - 1]
    requires k == FromWire(lib, pairs[|pairs| - 1].key) && v == FromWire(lib, pairs[|pairs| - 1].val)
    ensures FromPairs(lib, pairs) == FromPairs(lib, front)[Render(lib, k) := v]
    ensures Flat(lib, pairs) == Flat(lib, front) + [k, v]
  {
  }

  /** A hash arrives as the same fields whether the server sent a flat array or a map, duplicate keys
      included; with the reader's own `Entries`, this covers all three reply shapes. */
  lemma {:induction false} FlatAndMapRepliesAgree(lib: GoLib, pairs: seq<Pair>)
    ensures FromPairs(lib, pairs) == Entries(lib, Flat(lib, pairs))
  {
    if pairs != [] {
      var n := |pairs| - 1;
      var front := pairs[..n];
      FlatAndMapRepliesAgree(lib, front);
      var k, v := FromWire(lib, pairs[n].key), FromWire(lib, pairs[n].val);
      LastPair(lib, pairs, front, k, v);
      EntriesStep(lib, Flat(lib, front), k, v);
    }
  }
}
