/** `mapResponseFromWire`, and what the typed modules decode from the shapes it produces. */
module Replies {
  import opened GoValues
  import opened RespCodec
  import opened GoTypes
  import opened PayloadDecode

  /** A boolean, or a positive count. */
  function Flag(result: Value): Value {
    match result
    case Bool(b) => Bool(b)
    case Int64(n) => Bool(n > 0)
    case _ => Bool(false)
  }

  function One(key: string, v: Value): Value {
    Map(map[key := v])
  }

  /** An array under its key, or an empty one. */
  function List(key: string, result: Value): Value {
    One(key, if result.Arr? then result else Arr([]))
  }

  function MapResponse(lib: GoLib, command: string, result: Value): Value {
    match command
    case "kv.set" => One("success", Bool(true))
    case "kv.get" => result
    case "kv.del" => One("deleted", if result.Uint64? then Bool(result.n > 0) else Flag(result))
    case "kv.exists" => One("exists", Flag(result))
    case "kv.incr" => One("value", result)
    case "kv.decr" => One("value", result)
    case "hash.set" => One("created", Flag(result))
    case "hash.get" =>
      if result.Nil? then One("found", Bool(false)) else Map(map["found" := Bool(true), "value" := result])
    case "hash.exists" => One("exists", Flag(result))
    case "hash.del" => One("removed", result)
    case "hash.getall" => One("fields", FieldsOf(lib, result))
    case "list.lpush" => One("length", result)
    case "list.rpush" => One("length", result)
    case "list.lpop" => Popped(result)
    case "list.rpop" => Popped(result)
    case "list.range" => List("values", result)
    case "list.len" => One("length", result)
    case "set.add" => One("added", result)
    case "set.members" => List("members", result)
    case "set.ismember" => One("is_member", Flag(result))
    case "set.rem" => One("removed", result)
    case "set.card" => One("size", result)
    case "transaction.exec" =>
      if result.Arr? then Map(map["success" := Bool(true), "results" := result])
      else Map(map["success" := Bool(false), "aborted" := Bool(true)])
    case _ => OtherResponse(command, result)
  }

  /** A flat list of fields and values becomes a map; a map or nil passes through. */
  function FieldsOf(lib: GoLib, result: Value): Value {
    if result.Arr? then Map(Entries(lib, result.items)) else result
  }

  function Popped(result: Value): Value {
    One("values", if result.Arr? then result else if result.Nil? then Arr([]) else Arr([result]))
  }

  function OtherResponse(command: string, result: Value): Value {
    match command
    case "queue.create" => Map(map[])
    case "queue.delete" => Map(map[])
    case "queue.ack" => Map(map[])
    case "queue.nack" => Map(map[])
    case "queue.publish" => One("message_id", result)
    case "queue.consume" => One("message", result)
    case "queue.list" => List("queues", result)
    case "stream.create" => Map(map[])
    case "stream.delete" => Map(map[])
    case "stream.get_or_create" => One("created", Bool(result == Str("CREATED")))
    case "stream.publish" => One("offset", result)
    case "stream.consume" => List("events", result)
    case "stream.list" => List("rooms", result)
    case "pubsub.publish" => if result.Map? then result else One("subscribers_matched", result)
    case "pubsub.unsubscribe" => Map(map[])
    case "pubsub.topics" => List("topics", result)
    case "transaction.multi" => Acknowledged(result)
    case "transaction.discard" => Acknowledged(result)
    case "transaction.watch" => Acknowledged(result)
    case "transaction.unwatch" => Acknowledged(result)
    case _ => result
  }

  function Acknowledged(result: Value): Value {
    One("success", Bool(result == Str("OK") || result == Bool(true)))
  }

  /** The case `hash.getall`: a flat array becomes a map in a loop, anything else passes through. */
  method HashFields(lib: GoLib, result: Value) returns (fields: Value)
    ensures fields == FieldsOf(lib, result)
  {
    if !result.Arr? {
      return result;
    }
    var arr := result.items;
    var out: map<string, Value> := map[];
    var i := 0;
    while i + 1 < |arr|
      invariant 0 <= i <= |arr| && i % 2 == 0
      invariant out == Entries(lib, arr[..i])
      decreases |arr| - i
    {
      NextPair(lib, arr, i);
      out := out[Render(lib, arr[i]) := arr[i + 1]];
      i := i + 2;
    }
    EntriesOfEvenPart(lib, arr, i);
    return Map(out);
  }

  lemma NextPair(lib: GoLib, arr: seq<Value>, i: nat)
    requires i % 2 == 0 && i + 1 < |arr|
    ensures Entries(lib, arr[..i + 2]) == Entries(lib, arr[..i])[Render(lib, arr[i]) := arr[i + 1]]
  {
    assert arr[..i + 2] == arr[..i] + [arr[i], arr[i + 1]];
    EntriesStep(lib, arr[..i], arr[i], arr[i + 1]);
  }

  lemma EntriesOfEvenPart(lib: GoLib, arr: seq<Value>, i: nat)
    requires i % 2 == 0 && |arr| - 1 <= i <= |arr|
    ensures Entries(lib, arr[..i]) == Entries(lib, arr)
  {
    assert i == |arr| ==> arr[..i] == arr;
  }

  // ---------------------------------------------------------------- decoding into the modules' structs

  /** `Decode` into a fresh struct on the binary transport. */
  function Decoded(lib: GoLib, src: Value, fs: seq<Field>): Stored<GoVal> {
    Assign(lib, src, TStruct(fs), Zero(TStruct(fs)))
  }

  /** A struct of one field, as it stands after that field was decoded. */
  function InStruct(r: Stored<GoVal>): Stored<GoVal> {
    if r.Done? then Done(VStruct([r.now])) else Failed(VStruct([r.now]))
  }

  /** A value decoded on its own into a fresh target. */
  function Fresh(lib: GoLib, src: Value, ty: GoType): Stored<GoVal> {
    Assign(lib, src, ty, Zero(ty))
  }

  lemma OneField(lib: GoLib, m: map<string, Value>, f: Field)
    requires !Skipped(f)
    ensures Decoded(lib, Map(m), [f])
         == if WireName(f) in m then InStruct(Fresh(lib, m[WireName(f)], f.ty)) else Done(VStruct([Zero(f.ty)]))
  {
    var fs, zero := [f], Zero(TStruct([f])).fields;
    StructFieldwise(lib, m, fs, zero, 0);
    assert FirstDone(lib, m, fs, zero, 1) == FieldAlone(lib, m, f, Zero(f.ty)).Done?;
    assert AssignFields(lib, m, fs, zero).now == [FieldAlone(lib, m, f, Zero(f.ty)).now];
  }

  /** The field in which the module of a command looks for its result. */
  function ModuleField(command: string): string {
    match command
    case "kv.del" => "deleted"
    case "kv.exists" => "exists"
    case "kv.incr" => "value"
    case "kv.decr" => "value"
    case "hash.set" => "success"
    case "hash.get" => "value"
    case "hash.getall" => "fields"
    case "hash.exists" => "exists"
    case "hash.del" => "deleted"
    case "list.lpush" => "length"
    case "list.rpush" => "length"
    case "list.len" => "length"
    case "list.lpop" => "values"
    case "list.rpop" => "values"
    case "list.range" => "values"
    case "set.add" => "added"
    case "set.members" => "members"
    case "set.ismember" => "is_member"
    case "set.rem" => "removed"
    case "set.card" => "size"
    case _ => MessagingField(command)
  }

  function MessagingField(command: string): string {
    match command
    case "queue.publish" => "message_id"
    case "queue.consume" => "message"
    case "queue.list" => "queues"
    case "stream.get_or_create" => "created"
    case "stream.publish" => "offset"
    case "stream.consume" => "events"
    case "stream.list" => "rooms"
    case "pubsub.publish" => "subscribers_matched"
    case "pubsub.topics" => "topics"
    case _ => ""
  }

  /** Commands whose module hands its caller the reply itself, the elements of the reply, or a yes or no. */
  const PASSED: set<string> := {
    "kv.incr", "kv.decr", "hash.get", "list.lpush", "list.rpush", "list.len", "set.add", "set.rem", "set.card",
    "queue.publish", "queue.consume", "stream.publish"
  }
  const LISTED: set<string> := {
    "list.range", "set.members", "queue.list", "stream.consume", "stream.list", "pubsub.topics"
  }
  const ANSWERED: set<string> := {"kv.del", "kv.exists", "hash.exists", "set.ismember"}

  /** The entry a module finds in the mapped reply. */
  ghost predicate Finds(lib: GoLib, command: string, result: Value, x: Value) {
    var r := MapResponse(lib, command, result);
    r.Map? && ModuleField(command) in r.entries && r.entries[ModuleField(command)] == x
  }

  lemma PassedIsFound(lib: GoLib, command: string, result: Value)
    requires command in PASSED && (command == "hash.get" ==> !result.Nil?)
    ensures Finds(lib, command, result, result)
  {
  }

  lemma ListedIsFound(lib: GoLib, command: string, result: Value)
    requires command in LISTED
    ensures Finds(lib, command, result, if result.Arr? then result else Arr([]))
  {
  }

  /** True, or a positive count; only `kv.del` knows unsigned ones. */
  predicate Affirms(command: string, result: Value) {
    result == Bool(true) || (result.Int64? && result.n > 0) || (command == "kv.del" && result.Uint64? && result.n > 0)
  }

  lemma AnswerIsFound(lib: GoLib, command: string, result: Value)
    requires command in ANSWERED
    ensures Finds(lib, command, result, Bool(Affirms(command, result)))
  {
  }

  lemma FoundIsDecoded(lib: GoLib, command: string, result: Value, x: Value, f: Field)
    requires Finds(lib, command, result, x) && Named(f, ModuleField(command), f.ty)
    ensures Decoded(lib, MapResponse(lib, command, result), [f]) == InStruct(Fresh(lib, x, f.ty))
  {
    OneField(lib, MapResponse(lib, command, result).entries, f);
  }

  /** The reply of such a command reaches the caller unchanged but for the decoding at the type the module
      declares, whatever that is. */
  lemma ReplyReachesCaller(lib: GoLib, command: string, result: Value, f: Field)
    requires command in PASSED && Named(f, ModuleField(command), f.ty)
    ensures Decoded(lib, MapResponse(lib, command, result), [f]) == InStruct(Fresh(lib, result, f.ty))
  {
    if command == "hash.get" && result.Nil? {
      OneField(lib, map["found" := Bool(false)], f);
    } else {
      PassedIsFound(lib, command, result);
      FoundIsDecoded(lib, command, result, result, f);
    }
  }

  /** The commands whose reply is a count, and the field in which the module looks for it. */
  predicate Counts(command: string, field: string) {
    || (command in {"kv.incr", "kv.decr"} && field == "value")
    || (command in {"list.lpush", "list.rpush", "list.len"} && field == "length")
    || (command == "set.add" && field == "added")
    || (command == "set.rem" && field == "removed")
    || (command == "set.card" && field == "size")
    || (command == "pubsub.publish" && field == "subscribers_matched")
  }

  lemma CountIsFound(lib: GoLib, command: string, n: int, field: string)
    requires Counts(command, field)
    ensures Finds(lib, command, Int64(n), Int64(n)) && ModuleField(command) == field
  {
  }

  /** A counter is the very number the server sent. */
  lemma CountReachesCaller(lib: GoLib, command: string, n: int, f: Field)
    requires Counts(command, WireName(f)) && Named(f, WireName(f), TInt(W64)) && InInt64(n)
    ensures Decoded(lib, MapResponse(lib, command, Int64(n)), [f]) == Done(VStruct([VInt(n)]))
  {
    CountIsFound(lib, command, n, WireName(f));
    FoundIsDecoded(lib, command, Int64(n), Int64(n), f);
    IntegerDecodes(lib, n, W64, VInt(0), VInt(0));
  }

  /** So is the offset of a published event, which is never negative. */
  lemma OffsetReachesCaller(lib: GoLib, n: nat, f: Field)
    requires Named(f, "offset", TUint(W64)) && InInt64(n)
    ensures Decoded(lib, MapResponse(lib, "stream.publish", Int64(n)), [f]) == Done(VStruct([VInt(n)]))
  {
    ReplyReachesCaller(lib, "stream.publish", Int64(n), f);
    IntegerDecodes(lib, n, W64, VInt(0), VInt(0));
  }

  /** The id of a published message is the text the server sent. */
  lemma MessageIdReachesCaller(lib: GoLib, id: string, f: Field)
    requires Named(f, "message_id", TString)
    ensures Decoded(lib, MapResponse(lib, "queue.publish", Str(id)), [f]) == Done(VStruct([VStr(id)]))
  {
    ReplyReachesCaller(lib, "queue.publish", Str(id), f);
    TextDecodes(lib, id, W64, VInt(0), VFloat(0.0), VBool(false), VStr(""));
  }

  /** A value read is the bytes the server sent, and nothing when it sent nil: `Get` decodes the reply itself. */
  lemma ValueReachesCaller(lib: GoLib, s: string)
    ensures Fresh(lib, MapResponse(lib, "kv.get", Str(s)), TString) == Done(VStr(s))
    ensures MapResponse(lib, "kv.get", Nil) == Nil
  {
    TextDecodes(lib, s, W64, VInt(0), VFloat(0.0), VBool(false), VStr(""));
  }

  /** `Hash().Get` decodes a field of it. */
  lemma FieldReachesCaller(lib: GoLib, s: string, f: Field)
    requires Named(f, "value", TPtr(TString))
    ensures Decoded(lib, MapResponse(lib, "hash.get", Str(s)), [f]) == Done(VStruct([VRef(VStr(s))]))
    ensures Decoded(lib, MapResponse(lib, "hash.get", Nil), [f]) == Done(VStruct([VNil]))
  {
    ReplyReachesCaller(lib, "hash.get", Str(s), f);
    ReplyReachesCaller(lib, "hash.get", Nil, f);
    PointerToText(lib, s);
  }

  lemma PointerToText(lib: GoLib, s: string)
    ensures Fresh(lib, Str(s), TPtr(TString)) == Done(VRef(VStr(s))) && Fresh(lib, Nil, TPtr(TString)) == Done(VNil)
  {
    TextDecodes(lib, s, W64, VInt(0), VFloat(0.0), VBool(false), VStr(""));
  }

  /** The replies modules do not look into: statistics and acknowledged subscriptions pass through. */
  lemma RawReplies(lib: GoLib, command: string, result: Value)
    requires command in {"queue.stats", "stream.stats", "pubsub.subscribe", "kv.stats", "kv.scan"}
    ensures MapResponse(lib, command, result) == result
  {
  }

  /** What only succeeds is empty. */
  lemma EmptyReplies(lib: GoLib, command: string, result: Value)
    requires command in {"queue.create", "queue.delete", "queue.ack", "queue.nack", "stream.create", "stream.delete",
                         "pubsub.unsubscribe"}
    ensures MapResponse(lib, command, result) == Map(map[])
  {
  }

  /** A control says whether the server acknowledged it. */
  lemma ControlReplies(lib: GoLib, command: string, result: Value)
    requires command in {"transaction.multi", "transaction.discard", "transaction.watch", "transaction.unwatch"}
    ensures MapResponse(lib, command, result)
         == Map(map["success" := Bool(result == Str("OK") || result == Bool(true))])
  {
  }

  /** The fields as the modules declare them. */
  lemma KeyFields()
    ensures ModuleField("kv.del") == ModuleField("hash.del") == "deleted"
    ensures ModuleField("kv.exists") == ModuleField("hash.exists") == "exists"
    ensures ModuleField("kv.incr") == ModuleField("kv.decr") == ModuleField("hash.get") == "value"
    ensures ModuleField("hash.set") == "success" && ModuleField("hash.getall") == "fields"
  {
  }

  lemma CollectionFields()
    ensures ModuleField("list.lpush") == ModuleField("list.rpush") == ModuleField("list.len") == "length"
    ensures ModuleField("list.lpop") == ModuleField("list.rpop") == ModuleField("list.range") == "values"
    ensures ModuleField("set.add") == "added" && ModuleField("set.rem") == "removed"
    ensures ModuleField("set.card") == "size"
    ensures ModuleField("set.members") == "members" && ModuleField("set.ismember") == "is_member"
  {
  }

  lemma QueueFields()
    ensures ModuleField("queue.publish") == "message_id" && ModuleField("queue.consume") == "message"
    ensures ModuleField("queue.list") == "queues"
  {
  }

  lemma StreamFields()
    ensures ModuleField("stream.get_or_create") == "created" && ModuleField("stream.publish") == "offset"
    ensures ModuleField("stream.list") == "rooms" && ModuleField("stream.consume") == "events"
    ensures ModuleField("pubsub.topics") == "topics" && ModuleField("pubsub.publish") == "subscribers_matched"
  {
  }

  /** Here it is the elements of the reply, and none if it is no list. */
  lemma ListReachesCaller(lib: GoLib, command: string, result: Value, f: Field)
    requires command in LISTED && Named(f, ModuleField(command), f.ty)
    ensures Decoded(lib, MapResponse(lib, command, result), [f])
         == InStruct(Fresh(lib, if result.Arr? then result else Arr([]), f.ty))
  {
    ListedIsFound(lib, command, result);
    FoundIsDecoded(lib, command, result, if result.Arr? then result else Arr([]), f);
  }

  /** Here it is whether the reply was true or a positive count. */
  lemma AnswerReachesCaller(lib: GoLib, command: string, result: Value, f: Field)
    requires command in ANSWERED && Named(f, ModuleField(command), TBool)
    ensures Decoded(lib, MapResponse(lib, command, result), [f]) == Done(VStruct([VBool(Affirms(command, result))]))
  {
    AnswerIsFound(lib, command, result);
    FoundIsDecoded(lib, command, result, Bool(Affirms(command, result)), f);
  }

  /** A pop without a count answers with one element or nil: the caller gets a list either way. */
  lemma PopReachesCaller(lib: GoLib, command: string, result: Value, f: Field)
    requires command in {"list.lpop", "list.rpop"} && Named(f, "values", TSlice(TString))
    ensures Decoded(lib, MapResponse(lib, command, result), [f])
         == InStruct(Fresh(lib, if result.Arr? then result else if result.Nil? then Arr([]) else Arr([result]), f.ty))
  {
    assert MapResponse(lib, command, result) == Popped(result);
    OneField(lib, Popped(result).entries, f);
  }

  /** A room was created exactly when the server says so in this word. */
  lemma CreatedReachesCaller(lib: GoLib, result: Value, f: Field)
    requires Named(f, ModuleField("stream.get_or_create"), TBool)
    ensures Decoded(lib, MapResponse(lib, "stream.get_or_create", result), [f])
         == Done(VStruct([VBool(result == Str("CREATED"))]))
  {
    FoundIsDecoded(lib, "stream.get_or_create", result, Bool(result == Str("CREATED")), f);
  }

  /** The number of subscribers, alone or in a map of its own; a map without it counts none. */
  lemma SubscribersReachCaller(lib: GoLib, result: Value, f: Field)
    requires Named(f, ModuleField("pubsub.publish"), f.ty)
    ensures Decoded(lib, MapResponse(lib, "pubsub.publish", result), [f])
         == if !result.Map? then InStruct(Fresh(lib, result, f.ty))
            else if WireName(f) in result.entries then InStruct(Fresh(lib, result.entries[WireName(f)], f.ty))
            else Done(VStruct([Zero(f.ty)]))
  {
    if result.Map? {
      OneField(lib, result.entries, f);
    } else {
      FoundIsDecoded(lib, "pubsub.publish", result, result, f);
    }
  }

  // ---------------------------------------------------------------- EXEC

  lemma DecodedFieldwise(lib: GoLib, m: map<string, Value>, fs: seq<Field>, want: seq<GoVal>)
    requires |want| == |fs| && forall i | 0 <= i < |fs| :: !Skipped(fs[i])
    requires forall i | 0 <= i < |fs| ::
      if WireName(fs[i]) in m then Fresh(lib, m[WireName(fs[i])], fs[i].ty) == Done(want[i])
      else want[i] == Zero(fs[i].ty)
    ensures Decoded(lib, Map(m), fs) == Done(VStruct(want))
  {
    var zero := Zero(TStruct(fs)).fields;
    StructDoneIff(lib, m, fs, zero);
    assert FirstDone(lib, m, fs, zero, |fs|);
    var r := AssignFields(lib, m, fs, zero);
    forall i | 0 <= i < |fs| ensures r.now[i] == want[i] {
      StructFieldwise(lib, m, fs, zero, i);
    }
    assert r.now == want;
  }

  /** EXEC: the caller sees success exactly when the server sent a list of results, and then those
      results in order; every other reply is an abort. */
  lemma ExecOutcome(lib: GoLib, result: Value, fs: seq<Field>)
    requires |fs| == 3 && Named(fs[0], "success", TBool) && Named(fs[1], "aborted", TBool)
      && Named(fs[2], "results", TSlice(TAny))
    ensures Decoded(lib, MapResponse(lib, "transaction.exec", result), fs)
         == Done(VStruct([VBool(result.Arr?), VBool(!result.Arr?),
                          VSeq(if result.Arr? then Lifted(result.items) else [])]))
  {
    ExecRow(lib, result);
    if result.Arr? {
      LiftedSlice(lib, result.items);
      Committed(lib, map["success" := Bool(true), "results" := result], Lifted(result.items), fs);
    } else {
      Aborted(lib, map["success" := Bool(false), "aborted" := Bool(true)], fs);
    }
  }

  lemma ExecRow(lib: GoLib, result: Value)
    ensures MapResponse(lib, "transaction.exec", result)
         == if result.Arr? then Map(map["success" := Bool(true), "results" := result])
            else Map(map["success" := Bool(false), "aborted" := Bool(true)])
  {
  }

  /** The results themselves, at their own types. */
  lemma ResultsArrive(lib: GoLib, items: seq<Value>, i: nat)
    requires i < |items|
    ensures var r := Lifted(items)[i];
      match items[i]
      case Nil => r == VNil
      case Bool(b) => r == VIface(TBool, VBool(b))
      case Int64(n) => r == VIface(TInt(W64), VInt(n))
      case Float(x) => r == VIface(TFloat, VFloat(x))
      case Str(s) => r == VIface(TString, VStr(s))
      case _ => true
  {
  }

  lemma Committed(lib: GoLib, m: map<string, Value>, results: seq<GoVal>, fs: seq<Field>)
    requires |fs| == 3 && Named(fs[0], "success", TBool) && Named(fs[1], "aborted", TBool)
      && Named(fs[2], "results", TSlice(TAny))
    requires m.Keys == {"success", "results"} && m["success"] == Bool(true)
    requires Fresh(lib, m["results"], TSlice(TAny)) == Done(VSeq(results))
    ensures Decoded(lib, Map(m), fs) == Done(VStruct([VBool(true), VBool(false), VSeq(results)]))
  {
    DecodedFieldwise(lib, m, fs, [VBool(true), VBool(false), VSeq(results)]);
  }

  lemma Aborted(lib: GoLib, m: map<string, Value>, fs: seq<Field>)
    requires |fs| == 3 && Named(fs[0], "success", TBool) && Named(fs[1], "aborted", TBool)
      && Named(fs[2], "results", TSlice(TAny))
    requires m.Keys == {"success", "aborted"} && m["success"] == Bool(false) && m["aborted"] == Bool(true)
    ensures Decoded(lib, Map(m), fs) == Done(VStruct([VBool(false), VBool(true), VSeq([])]))
  {
    DecodedFieldwise(lib, m, fs, [VBool(false), VBool(true), VSeq([])]);
  }

  function Lifted(items: seq<Value>): seq<GoVal> {
    seq(|items|, i requires 0 <= i < |items| => Lift(items[i]))
  }

  lemma LiftedSlice(lib: GoLib, items: seq<Value>)
    ensures Fresh(lib, Arr(items), TSlice(TAny)) == Done(VSeq(Lifted(items)))
  {
    forall i | 0 <= i < |items| ensures Assign(lib, items[i], TAny, Zero(TAny)) == Done(Lifted(items)[i]) {
    }
    SliceFilled(lib, items, TAny, Zero(TSlice(TAny)), Lifted(items));
  }

  // ---------------------------------------------------------------- hashes

  /** `Hash().Set` looks for `success` and the mapping says `created`: on the binary transport it
      reports false whatever the server answered, which is right exactly when the answer was no. */
  lemma HashSetAlwaysReportsFalse(lib: GoLib, result: Value, f: Field)
    requires Named(f, ModuleField("hash.set"), TBool)
    ensures var r := Decoded(lib, MapResponse(lib, "hash.set", result), [f]);
      && r == Done(VStruct([VBool(false)]))
      && (r == InStruct(Fresh(lib, Flag(result), TBool)) <==> !Affirms("hash.set", result))
  {
    OneField(lib, One("created", Flag(result)).entries, f);
  }

  /** `Hash().Del` looks for `deleted` and the mapping says `removed`: it always reports zero, which is the
      server's count exactly when the reply decodes to 0. */
  lemma HashDelAlwaysReportsZero(lib: GoLib, result: Value, f: Field)
    requires Named(f, ModuleField("hash.del"), TInt(W64))
    ensures var r := Decoded(lib, MapResponse(lib, "hash.del", result), [f]);
      && r == Done(VStruct([VInt(0)]))
      && (r == InStruct(Fresh(lib, result, TInt(W64))) <==> result.Nil? || CountsNone(lib, result))
  {
    OneField(lib, One("removed", result).entries, f);
  }

  /** The reply stands for an integer that a 64-bit target holds as zero. */
  predicate CountsNone(lib: GoLib, result: Value) {
    AsInt(lib, result).Some? && WrapInt(AsInt(lib, result).value, W64) == 0
  }

  /** The fields a reply to HGETALL lists, in either of its shapes. */
  function HashOf(lib: GoLib, result: Value): map<string, Value>
    requires result.Arr? || result.Map?
  {
    if result.Arr? then Entries(lib, result.items) else result.entries
  }

  /** m decodes to its fields, each printed, exactly when every value is a scalar or nil. */
  ghost predicate DecodesPrinted(lib: GoLib, m: map<string, Value>, r: Stored<GoVal>) {
    && (r.Done? <==> forall k | k in m :: m[k].Nil? || AsString(lib, m[k]).Some?)
    && (r.Done? ==> r.now == VMap(map k | k in m :: VStr(if m[k].Nil? then "" else AsString(lib, m[k]).value)))
  }

  /** `Hash().GetAll`: a flat and a map reply decode alike; nil is an empty hash, and any other reply an
      error. By `RespCodec.LastPairWins` the last of duplicate keys counts. */
  lemma HashGetAll(lib: GoLib, result: Value, f: Field)
    requires Named(f, ModuleField("hash.getall"), TMap(TString))
    ensures var r := Decoded(lib, MapResponse(lib, "hash.getall", result), [f]);
      if result.Nil? then r == Done(VStruct([VMap(map[])]))
      else if result.Arr? || result.Map? then
        exists inner :: r == InStruct(inner) && DecodesPrinted(lib, HashOf(lib, result), inner)
      else r.Failed?
  {
    OneField(lib, One("fields", FieldsOf(lib, result)).entries, f);
    if result.Arr? || result.Map? {
      TextMapDecodes(lib, HashOf(lib, result));
      assert FieldsOf(lib, result) == Map(HashOf(lib, result));
    }
  }

  lemma TextMapDecodes(lib: GoLib, m: map<string, Value>)
    ensures DecodesPrinted(lib, m, Fresh(lib, Map(m), TMap(TString)))
  {
    forall k | k in m ensures PrintsInto(lib, m[k]) {
    }
    if forall k | k in m :: m[k].Nil? || AsString(lib, m[k]).Some? {
      var out := map k | k in m :: VStr(if m[k].Nil? then "" else AsString(lib, m[k]).value);
      forall k | k in out ensures k in m && Assign(lib, m[k], TString, Zero(TString)) == Done(out[k]) {
        assert PrintsInto(lib, m[k]);
      }
      MapFilled(lib, m, TString, Zero(TMap(TString)), out);
    } else {
      var k :| k in m && !m[k].Nil? && AsString(lib, m[k]).None?;
      assert PrintsInto(lib, m[k]);
    }
  }

  ghost predicate PrintsInto(lib: GoLib, v: Value) {
    Assign(lib, v, TString, Zero(TString))
      == if v.Nil? then Done(VStr(""))
         else if AsString(lib, v).Some? then Done(VStr(AsString(lib, v).value))
         else Failed(VStr(""))
  }
}
