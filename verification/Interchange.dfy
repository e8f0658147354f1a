/** When the two native transports send the same request for the same call: their payload maps may differ in
    entries that are nil on one and absent on the other, and whether that shows depends on the arguments. */
module Interchange {
  import opened GoValues
  import opened RespCodec
  import opened GoTypes
  import opened Float64
  import opened PayloadEncode
  import opened Utf8
  import opened JsonTrip
  import opened CommandMap
  import opened PayloadRoundTrip
  import opened PayloadFields
  import opened Transactions

  // ---------------------------------------------------------------- nil and absent entries

  /** Key k is in one of the maps only. */
  predicate OneSided(p: Payload, q: Payload, k: string) {
    (k in p) != (k in q)
  }

  /** The maps agree, but for entries that are nil in one and absent from the other. */
  predicate NilApart(p: Payload, q: Payload) {
    (forall k | k in p :: if k in q then p[k] == q[k] else p[k] == Nil) && forall k | k in q && k !in p :: q[k] == Nil
  }

  /** The keys where an argument tells nil from absence: nil prints as text, nothing does not. */
  function NilRead(lib: GoLib, payload: Payload, arg: Arg): set<string> {
    match arg
    case Text(key) => {key}
    case HashFields => if Each(lib, payload, "fields") == [] then {"field"} else {}
    case Message => {"payload"}
    case Pattern => {"prefix"}
    case _ => {}
  }

  /** Neither map has one of these keys alone. */
  predicate Alike(p: Payload, q: Payload, keys: set<string>) {
    forall k | k in keys :: !OneSided(p, q, k)
  }

  lemma TextAgreesIff(lib: GoLib, p: Payload, q: Payload, key: string)
    requires NilApart(p, q)
    ensures GetStr(lib, p, key) == GetStr(lib, q, key) <==> !OneSided(p, q, key)
  {
  }

  lemma ArgAgreesIff(lib: GoLib, p: Payload, q: Payload, arg: Arg)
    requires NilApart(p, q)
    ensures ArgOf(lib, p, arg) == ArgOf(lib, q, arg) <==> Alike(p, q, NilRead(lib, p, arg))
  {
    match arg
    case Text(key) => TextAgreesIff(lib, p, q, key);
    case HashFields => TextAgreesIff(lib, p, q, "field");
    case Pattern => TextAgreesIff(lib, p, q, "prefix");
      PatternInjective(GetStr(lib, p, "prefix"), GetStr(lib, q, "prefix"));
    case Message => MessageAgreesIff(lib, p, q);
    case _ =>
  }

  lemma PatternInjective(a: string, b: string)
    ensures a + "*" == b + "*" <==> a == b
  {
    assert (a + "*")[..|a|] == a && (b + "*")[..|b|] == b;
    if a + "*" == b + "*" {
      assert |a| == |b|;
    }
  }

  lemma MessageAgreesIff(lib: GoLib, p: Payload, q: Payload)
    requires NilApart(p, q)
    ensures MessageArg(lib, p) == MessageArg(lib, q) <==> !OneSided(p, q, "payload")
    ensures "payload" in q && "payload" !in p ==> |MessageArg(lib, p)| < |MessageArg(lib, q)|
  {
  }

  /** Only a message argument can be there for one map and not for the other. */
  lemma ArgLength(lib: GoLib, p: Payload, q: Payload, arg: Arg)
    requires NilApart(p, q) && ("payload" in p ==> "payload" in q)
    ensures |ArgOf(lib, p, arg)| <= |ArgOf(lib, q, arg)|
  {
    if arg.Message? {
      MessageAgreesIff(lib, p, q);
    } else {
      SameLength(lib, p, q, arg);
    }
  }

  lemma SameLength(lib: GoLib, p: Payload, q: Payload, arg: Arg)
    requires NilApart(p, q) && !arg.Message?
    ensures |ArgOf(lib, p, arg)| == |ArgOf(lib, q, arg)|
  {
  }

  lemma {:induction false} ArgsLength(lib: GoLib, p: Payload, q: Payload, args: seq<Arg>)
    requires NilApart(p, q) && ("payload" in p ==> "payload" in q)
    ensures |ArgsOf(lib, p, args)| <= |ArgsOf(lib, q, args)|
  {
    if args != [] {
      ArgLength(lib, p, q, args[0]);
      ArgsLength(lib, p, q, args[1..]);
    }
  }

  predicate ArgsAlike(lib: GoLib, p: Payload, q: Payload, args: seq<Arg>) {
    forall i | 0 <= i < |args| :: ArgOf(lib, p, args[i]) == ArgOf(lib, q, args[i])
  }

  lemma {:induction false} ArgsAgreeOneWay(lib: GoLib, p: Payload, q: Payload, args: seq<Arg>)
    requires NilApart(p, q) && ("payload" in p ==> "payload" in q)
    ensures ArgsOf(lib, p, args) == ArgsOf(lib, q, args) <==> ArgsAlike(lib, p, q, args)
  {
    if args != [] {
      var x, y := ArgOf(lib, p, args[0]), ArgOf(lib, q, args[0]);
      var later, later' := ArgsOf(lib, p, args[1..]), ArgsOf(lib, q, args[1..]);
      ArgsAgreeOneWay(lib, p, q, args[1..]);
      ArgLength(lib, p, q, args[0]);
      ArgsLength(lib, p, q, args[1..]);
      Halves(x, later, y, later');
      assert forall i | 1 <= i < |args| :: args[i] == args[1..][i - 1];
    }
  }

  lemma Halves<T>(x: seq<T>, xs: seq<T>, y: seq<T>, ys: seq<T>)
    requires |x| <= |y| && |xs| <= |ys|
    ensures x + xs == y + ys <==> x == y && xs == ys
  {
    if x + xs == y + ys {
      assert |x + xs| == |y + ys|;
      assert x == (x + xs)[..|x|] && y == (y + ys)[..|y|] && xs == (x + xs)[|x|..] && ys == (y + ys)[|y|..];
    }
  }

  lemma ArgsAgreeIff(lib: GoLib, p: Payload, q: Payload, args: seq<Arg>)
    requires NilApart(p, q)
    ensures ArgsOf(lib, p, args) == ArgsOf(lib, q, args)
       <==> forall i | 0 <= i < |args| :: Alike(p, q, NilRead(lib, p, args[i]))
  {
    if "payload" in p ==> "payload" in q {
      ArgsAgreeOneWay(lib, p, q, args);
    } else {
      ArgsAgreeOneWay(lib, q, p, args);
    }
    forall i | 0 <= i < |args|
      ensures ArgOf(lib, p, args[i]) == ArgOf(lib, q, args[i]) <==> Alike(p, q, NilRead(lib, p, args[i]))
    {
      ArgAgreesIff(lib, p, q, args[i]);
    }
  }

  // ---------------------------------------------------------------- requests

  lemma RowsAgree(command: string, payload: Payload)
    requires command != "pubsub.topics"
    ensures DataRow(command, payload, true) == DataRow(command, payload, false)
  {
    assert ControlRow(command, true) == ControlRow(command, false);
    assert MessagingRow(command, true) == MessagingRow(command, false);
    assert CollectionRow(command, true) == CollectionRow(command, false);
  }

  lemma SameRow(command: string, p: Payload, q: Payload)
    requires NilApart(p, q)
    ensures DataRow(command, p, true) == DataRow(command, q, true)
  {
    assert HasAmount(p) == HasAmount(q);
  }

  /** No argument of the command reads a key that is nil on one side and absent on the other. */
  predicate NilsUnread(lib: GoLib, command: string, p: Payload, q: Payload) {
    var row := DataRow(command, p, true);
    row.Some? ==> forall i | 0 <= i < |row.value.args| :: Alike(p, q, NilRead(lib, p, row.value.args[i]))
  }

  lemma UnscopedAgreeIff(lib: GoLib, command: string, p: Payload, q: Payload)
    requires NilApart(p, q) && command != "pubsub.topics"
    ensures Unscoped(lib, command, p, true) == Unscoped(lib, command, q, false) <==> NilsUnread(lib, command, p, q)
  {
    RowsAgree(command, q);
    SameRow(command, p, q);
    var row := DataRow(command, p, true);
    if row.Some? {
      ArgsAgreeIff(lib, p, q, row.value.args);
    }
  }

  lemma Wrapped(id: string, q: Request, r: Request)
    ensures Request("TXQUEUE", [Str(id), Str(q.cmd)] + q.args) == Request("TXQUEUE", [Str(id), Str(r.cmd)] + r.args)
       <==> q == r
  {
    var a, b := [Str(id), Str(q.cmd)] + q.args, [Str(id), Str(r.cmd)] + r.args;
    assert a[2..] == q.args && b[2..] == r.args && a[1] == Str(q.cmd) && b[1] == Str(r.cmd);
  }

  /** A module's call sends the same request on both transports exactly when it is refused on both, or no
      argument reads a key whose nil reached only one of the mappers. */
  lemma RequestsAgreeIff(lib: GoLib, id: string, command: string, p: Payload, q: Payload)
    requires NilApart(p, q) && command != "pubsub.topics" && !IsControl(command)
    requires CLIENT_ID !in p && CLIENT_ID !in q
    ensures Sent(lib, true, id, command, p) == Sent(lib, false, id, command, q)
       <==> (id != "" && command !in ACCEPTED) || NilsUnread(lib, command, p, q)
  {
    UnscopedAgreeIff(lib, command, p, q);
    if id != "" {
      ScopedIsWrapped(lib, command, p, id, true);
      ScopedIsWrapped(lib, command, q, id, false);
      if command in ACCEPTED {
        Wrapped(id, Unscoped(lib, command, p, true).value, Unscoped(lib, command, q, false).value);
      }
    }
  }

  // ---------------------------------------------------------------- payloads

  /** A field that travels both ways is safe, and one that only reflection sends is nil. One that only JSON
      sends is a nil pointer anyway. */
  predicate SafeButNil(lib: GoLib, v: GoVal, f: Field)
    requires HasType(v, f.ty)
  {
    Included(f, v) ==> if Omitted(f, v) then NilInside(v) else FieldSafe(lib, v, f)
  }

  predicate SafeButNils(lib: GoLib, v: GoVal, fs: seq<Field>)
    requires HasType(v, TStruct(fs))
  {
    forall i | 0 <= i < |fs| && !Skipped(fs[i]) :: SafeButNil(lib, v.fields[i], fs[i])
  }

  /** The entry of this name is the same in both maps, or nil in the one that has it. */
  ghost predicate FieldApart(p: Payload, q: Payload, name: string) {
    if name in p && name in q then p[name] == q[name]
    else (name in p ==> p[name] == Nil) && (name in q ==> q[name] == Nil)
  }

  lemma FieldApartIff(lib: GoLib, v: GoVal, fs: seq<Field>, i: nat)
    requires HasType(v, TStruct(fs)) && AllWellNamed(lib, v, TStruct(fs)) && i < |fs| && !Skipped(fs[i])
    ensures var p, q := Reaches(lib, true, v, TStruct(fs)), Reaches(lib, false, v, TStruct(fs));
      FieldApart(p, q, WireName(fs[i])) <==> SafeButNil(lib, v.fields[i], fs[i])
  {
    var x, f := v.fields[i], fs[i];
    FieldReaches(lib, true, v, fs, i);
    FieldReaches(lib, false, v, fs, i);
    EncodesNil(x, f.ty);
    TripIsIdentityIff(lib, x, f.ty);
    FieldAgreesIff(lib, x, f);
  }

  /** A struct's payload maps differ in nil entries only exactly when its fields are safe but for those. */
  lemma NilApartIff(lib: GoLib, v: GoVal, fs: seq<Field>)
    requires HasType(v, TStruct(fs)) && AllWellNamed(lib, v, TStruct(fs))
    ensures var p, q := Reaches(lib, true, v, TStruct(fs)), Reaches(lib, false, v, TStruct(fs));
      NilApart(p, q) <==> SafeButNils(lib, v, fs)
  {
    var p, q := Reaches(lib, true, v, TStruct(fs)), Reaches(lib, false, v, TStruct(fs));
    forall i | 0 <= i < |fs| && !Skipped(fs[i])
      ensures FieldApart(p, q, WireName(fs[i])) <==> SafeButNil(lib, v.fields[i], fs[i])
    {
      FieldApartIff(lib, v, fs, i);
    }
    forall k | k in p || k in q ensures exists i: nat :: i < |fs| && !Skipped(fs[i]) && WireName(fs[i]) == k {
      if forall i | 0 <= i < |fs| && !Skipped(fs[i]) :: WireName(fs[i]) != k {
        OtherNamesDoNotReach(lib, true, v, fs, k);
        OtherNamesDoNotReach(lib, false, v, fs, k);
      }
    }
  }

  /** The native transports are interchangeable, call by call: a module's payload whose fields are safe but for
      nils sends the same request on both exactly when it is refused on both or no argument prints one of
      those nils. Listing topics is the one command whose wire form they spell differently. */
  lemma TransportsSendTheSame(lib: GoLib, id: string, command: string, v: GoVal, fs: seq<Field>)
    requires HasType(v, TStruct(fs)) && AllWellNamed(lib, v, TStruct(fs)) && SafeButNils(lib, v, fs)
    requires command != "pubsub.topics" && !IsControl(command)
    requires forall i | 0 <= i < |fs| && !Skipped(fs[i]) :: WireName(fs[i]) != CLIENT_ID
    ensures var p, q := Reaches(lib, true, v, TStruct(fs)), Reaches(lib, false, v, TStruct(fs));
      Sent(lib, true, id, command, p) == Sent(lib, false, id, command, q)
      <==> (id != "" && command !in ACCEPTED) || NilsUnread(lib, command, p, q)
  {
    NilApartIff(lib, v, fs);
    OtherNamesDoNotReach(lib, true, v, fs, CLIENT_ID);
    OtherNamesDoNotReach(lib, false, v, fs, CLIENT_ID);
    RequestsAgreeIff(lib, id, command, Reaches(lib, true, v, TStruct(fs)), Reaches(lib, false, v, TStruct(fs)));
  }

  // ---------------------------------------------------------------- SET

  /** The struct `KVStore.Set` declares. Its optional TTL has no `omitempty`, so a nil one travels as null on
      RESP3 only. */
  const SET_FIELDS: seq<Layout> :=
    [Layout("key", TString, false), Layout("value", TString, false), Layout("ttl", TPtr(TUint(W64)), false)]

  lemma SetNames()
    ensures GoodNames(SET_FIELDS)
  {
    assert IsName("key") && IsName("value") && IsName("ttl");
    assert SET_FIELDS[0].name[0] == 'k' && SET_FIELDS[1].name[0] == 'v' && SET_FIELDS[2].name[0] == 't';
  }

  function Setting(key: string, value: string, ttl: Option<nat>): GoVal {
    VStruct([VStr(key), VStr(value), if ttl.Some? then VRef(VInt(ttl.value)) else VNil])
  }

  /** The seconds the mapper sees: none for a nil TTL, whether null or absent. */
  function Seconds(ttl: Option<nat>): real {
    if ttl.Some? then RoundInt(ttl.value) as real else 0.0
  }

  lemma SetTextsReach(lib: GoLib, resp3: bool, fs: seq<Field>, vs: seq<GoVal>)
    requires DeclaredAs(fs, SET_FIELDS) && HasType(VStruct(vs), TStruct(fs))
    ensures vs[0].VStr? && vs[1].VStr?
    ensures var m := MapOfStruct(lib, resp3, fs, vs);
      && CLIENT_ID !in m
      && FieldText(lib, m, "key") == SentText(resp3, vs[0].s)
      && FieldText(lib, m, "value") == SentText(resp3, vs[1].s)
  {
    SetNames();
    NameAbsent(lib, resp3, fs, SET_FIELDS, vs, CLIENT_ID);
    TextReaches(lib, resp3, fs, SET_FIELDS, vs, 0, "key");
    TextReaches(lib, resp3, fs, SET_FIELDS, vs, 1, "value");
  }

  lemma TtlReaches(lib: GoLib, resp3: bool, fs: seq<Field>, v: GoVal, ttl: Option<nat>)
    requires DeclaredAs(fs, SET_FIELDS) && HasType(v, TStruct(fs))
    requires v.fields[2] == if ttl.Some? then VRef(VInt(ttl.value)) else VNil
    ensures GetFloat(Reaches(lib, resp3, v, TStruct(fs)), "ttl") == Seconds(ttl)
  {
    SetNames();
    DeclaredReaches(lib, resp3, v, fs, SET_FIELDS, 2);
    assert SET_FIELDS[2] == Layout("ttl", TPtr(TUint(W64)), false);
    if ttl.Some? {
      assert Arrives(lib, resp3, v.fields[2], TPtr(TUint(W64))) == Arrives(lib, resp3, VInt(ttl.value), TUint(W64));
    }
  }

  /** The TTL arguments: seconds, unless none are left. */
  function TtlArgs(lib: GoLib, ttl: Option<nat>): seq<Value> {
    if Seconds(ttl) > 0.0 then [Str("EX"), GoInt(FloatToInt64(lib, Seconds(ttl)))] else []
  }

  lemma SetRow(lib: GoLib, m: Payload, resp3: bool, ttl: Option<nat>)
    requires CLIENT_ID !in m && GetFloat(m, "ttl") == Seconds(ttl)
    ensures MapCommand(lib, "kv.set", m, resp3)
         == Some(Request("SET", [FieldText(lib, m, "key"), FieldText(lib, m, "value")] + TtlArgs(lib, ttl)))
  {
    SetArgs(lib, m);
  }

  /** The request `Set` sends on either transport, with or without a TTL. */
  lemma SetRequest(lib: GoLib, resp3: bool, fs: seq<Field>, key: string, value: string, ttl: Option<nat>)
    requires DeclaredAs(fs, SET_FIELDS) && (ttl.Some? ==> ttl.value < TWO_64)
    ensures HasType(Setting(key, value, ttl), TStruct(fs))
    ensures MapCommand(lib, "kv.set", Reaches(lib, resp3, Setting(key, value, ttl), TStruct(fs)), resp3)
         == Some(Request("SET", [SentText(resp3, key), SentText(resp3, value)]
              + if ttl.Some? && ttl.value > 0 then [Str("EX"), GoInt(IntBack(lib, ttl.value))] else []))
  {
    var v := Setting(key, value, ttl);
    StructHasType(fs, SET_FIELDS, v.fields);
    SetTextsReach(lib, resp3, fs, v.fields);
    TtlReaches(lib, resp3, fs, v, ttl);
    SetRow(lib, Reaches(lib, resp3, v, TStruct(fs)), resp3, ttl);
    TtlSeconds(lib, ttl);
  }

  lemma TtlSeconds(lib: GoLib, ttl: Option<nat>)
    ensures TtlArgs(lib, ttl)
         == if ttl.Some? && ttl.value > 0 then [Str("EX"), GoInt(IntBack(lib, ttl.value))] else []
  {
    if ttl.Some? {
      ExactIff(1);
      ExactIff(0);
      RoundIsMonotone(if ttl.value > 0 then 1 else 0, ttl.value);
    }
  }

  /** It is the same on both exactly when key and value are UTF-8. */
  lemma SetSendsTheSameIff(lib: GoLib, fs: seq<Field>, key: string, value: string, ttl: Option<nat>)
    requires DeclaredAs(fs, SET_FIELDS) && (ttl.Some? ==> ttl.value < TWO_64)
    ensures HasType(Setting(key, value, ttl), TStruct(fs))
    ensures var v := Setting(key, value, ttl);
      MapCommand(lib, "kv.set", Reaches(lib, true, v, TStruct(fs)), true)
        == MapCommand(lib, "kv.set", Reaches(lib, false, v, TStruct(fs)), false)
      <==> ValidUtf8(key) && ValidUtf8(value)
  {
    SetRequest(lib, true, fs, key, value, ttl);
    SetRequest(lib, false, fs, key, value, ttl);
    TtlSeconds(lib, ttl);
    SanitizeIsIdentityIff(key);
    SanitizeIsIdentityIff(value);
    var a, b := [SentText(true, key), SentText(true, value)], [SentText(false, key), SentText(false, value)];
    Halves(a, TtlArgs(lib, ttl), b, TtlArgs(lib, ttl));
    assert a == b <==> a[0] == b[0] && a[1] == b[1];
  }
}
