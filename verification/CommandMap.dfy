/** `mapCommandToWire`: an SDK command and its payload become a wire command and its arguments.

    `MapCommand` specifies it by a table that says, for each command, the wire command and where each
    argument comes from; the method `MapCommandToWire` is the switch, with its loops. */
module CommandMap {
  import opened GoValues
  import opened RespCodec
  import opened Float64

  type Payload = map<string, Value>

  datatype Request = Request(cmd: string, args: seq<Value>)

  const CLIENT_ID := "client_id"

  /** `txQueueable`: the wire commands a server can queue. */
  const QUEUEABLE: set<string> := {
    "SET", "DEL", "INCR", "DECR", "INCRBY", "DECRBY", "HSET", "HDEL", "HINCRBY",
    "LPUSH", "RPUSH", "LPOP", "RPOP", "SADD", "SREM"
  }

  // ---------------------------------------------------------------- payload fields

  function GetStr(lib: GoLib, payload: Payload, key: string): string {
    if key in payload then Render(lib, payload[key]) else ""
  }

  function FieldText(lib: GoLib, payload: Payload, key: string): Value {
    Str(GetStr(lib, payload, key))
  }

  function GetFloat(payload: Payload, key: string): real {
    if key !in payload then 0.0
    else
      match payload[key]
      case Float(r) => r
      case GoInt(n) => RoundInt(n) as real
      case _ => 0.0
  }

  /** `int(getFloat(key))`. */
  function FieldInt(lib: GoLib, payload: Payload, key: string): Value {
    GoInt(FloatToInt64(lib, GetFloat(payload, key)))
  }

  function Rendered(lib: GoLib, items: seq<Value>): seq<Value> {
    seq(|items|, i requires 0 <= i < |items| => Str(Render(lib, items[i])))
  }

  /** `getStrSlice`, as arguments. */
  function Each(lib: GoLib, payload: Payload, key: string): seq<Value> {
    if key in payload && payload[key].Arr? then Rendered(lib, payload[key].items) else []
  }

  predicate HasAmount(payload: Payload) {
    "amount" in payload && payload["amount"] != Nil
  }

  /** `counterAmount` of an amount that is there: an integer as it is, anything else as its JSON text. */
  function CounterAmount(lib: GoLib, v: Value): Value {
    match v
    case GoInt(n) => Int64(n)
    case Int64(n) => Int64(n)
    case _ =>
      match lib.marshal(v)
      case Some(text) => Str(text)
      case None => Str(Render(lib, v))
  }

  /** `byte(f)` for a float element, zero for anything else. */
  function ByteOf(lib: GoLib, v: Value): char {
    if !v.Float? then 0 as char
    else if 0 <= Trunc(v.r) < 256 then Trunc(v.r) as char
    else (lib.wildInt(v.r) % 256) as char
  }

  function BytesOf(lib: GoLib, items: seq<Value>): string {
    seq(|items|, i requires 0 <= i < |items| => ByteOf(lib, items[i]))
  }

  /** The message argument of `queue.publish`. */
  function MessageArg(lib: GoLib, payload: Payload): seq<Value> {
    if "payload" !in payload then []
    else
      match payload["payload"]
      case Arr(items) => [Str(BytesOf(lib, items))]
      case p => [Str(Render(lib, p))]
  }

  function Entry(m: Payload, key: string): Value {
    if key in m then m[key] else Nil
  }

  /** The arguments of `kv.mset`: elements that are not maps are passed over. */
  function PairArgs(lib: GoLib, items: seq<Value>): seq<Value> {
    if items == [] then []
    else
      var earlier := PairArgs(lib, items[..|items| - 1]);
      match items[|items| - 1]
      case Map(m) => earlier + [Str(Render(lib, Entry(m, "key"))), Str(Render(lib, Entry(m, "value")))]
      case _ => earlier
  }

  // ---------------------------------------------------------------- the mapping as a table

  /** Where a wire argument comes from: a field as text or as an integer, every element of a list
      field, a constant, or one of the arguments with rules of their own. */
  datatype Arg = Text(key: string) | Number(key: string) | All(key: string) | Literal(text: string)
    | Ttl | Amount | HashFields | Message | Pairs | Pattern

  datatype Row = Row(cmd: string, args: seq<Arg>)

  function ArgOf(lib: GoLib, payload: Payload, arg: Arg): seq<Value> {
    match arg
    case Text(key) => [FieldText(lib, payload, key)]
    case Number(key) => [FieldInt(lib, payload, key)]
    case All(key) => Each(lib, payload, key)
    case Literal(text) => [Str(text)]
    case Ttl => if GetFloat(payload, "ttl") > 0.0 then [Str("EX"), FieldInt(lib, payload, "ttl")] else []
    case Amount => if HasAmount(payload) then [CounterAmount(lib, payload["amount"])] else []
    case HashFields =>
      if Each(lib, payload, "fields") == [] then [FieldText(lib, payload, "field")] else Each(lib, payload, "fields")
    case Message => MessageArg(lib, payload)
    case Pairs => if "pairs" in payload && payload["pairs"].Arr? then PairArgs(lib, payload["pairs"].items) else []
    case Pattern => [Str(GetStr(lib, payload, "prefix") + "*")]
  }

  function ArgsOf(lib: GoLib, payload: Payload, args: seq<Arg>): seq<Value>
    decreases args
  {
    if args == [] then [] else ArgOf(lib, payload, args[0]) + ArgsOf(lib, payload, args[1..])
  }

  function DataRow(command: string, payload: Payload, resp3: bool): Option<Row> {
    match command
    case "kv.set" => Some(Row("SET", [Text("key"), Text("value"), Ttl]))
    case "kv.get" => Some(Row("GET", [Text("key")]))
    case "kv.del" => Some(Row("DEL", [Text("key")]))
    case "kv.exists" => Some(Row("EXISTS", [Text("key")]))
    case "kv.incr" => Some(Row(if HasAmount(payload) then "INCRBY" else "INCR", [Text("key"), Amount]))
    case "kv.decr" => Some(Row(if HasAmount(payload) then "DECRBY" else "DECR", [Text("key"), Amount]))
    case "hash.set" => Some(Row("HSET", [Text("key"), Text("field"), Text("value")]))
    case "hash.get" => Some(Row("HGET", [Text("key"), Text("field")]))
    case "hash.getall" => Some(Row("HGETALL", [Text("key")]))
    case "hash.del" => Some(Row("HDEL", [Text("key"), HashFields]))
    case "hash.exists" => Some(Row("HEXISTS", [Text("key"), Text("field")]))
    case _ => CollectionRow(command, resp3)
  }

  function CollectionRow(command: string, resp3: bool): Option<Row> {
    match command
    case "list.lpush" => Some(Row("LPUSH", [Text("key"), All("values")]))
    case "list.rpush" => Some(Row("RPUSH", [Text("key"), All("values")]))
    case "list.lpop" => Some(Row("LPOP", [Text("key"), Number("count")]))
    case "list.rpop" => Some(Row("RPOP", [Text("key"), Number("count")]))
    case "list.range" => Some(Row("LRANGE", [Text("key"), Number("start"), Number("stop")]))
    case "list.len" => Some(Row("LLEN", [Text("key")]))
    case "set.add" => Some(Row("SADD", [Text("key"), All("members")]))
    case "set.members" => Some(Row("SMEMBERS", [Text("key")]))
    case "set.ismember" => Some(Row("SISMEMBER", [Text("key"), Text("member")]))
    case "set.rem" => Some(Row("SREM", [Text("key"), All("members")]))
    case "set.card" => Some(Row("SCARD", [Text("key")]))
    case _ => MessagingRow(command, resp3)
  }

  function MessagingRow(command: string, resp3: bool): Option<Row> {
    match command
    case "queue.create" => Some(Row("QCREATE", [Text("name")]))
    case "queue.delete" => Some(Row("QDELETE", [Text("queue")]))
    case "queue.publish" => Some(Row("QPUBLISH", [Text("queue"), Message]))
    case "queue.consume" => Some(Row("QCONSUME", [Text("queue"), Text("consumer_id")]))
    case "queue.ack" => Some(Row("QACK", [Text("queue"), Text("message_id")]))
    case "queue.nack" => Some(Row("QNACK", [Text("queue"), Text("message_id")]))
    case "queue.list" => Some(Row("QLIST", []))
    case "queue.stats" => Some(Row("QSTATS", [Text("queue")]))
    case "stream.create" => Some(Row("SCREATE", [Text("room")]))
    case "stream.get_or_create" => Some(Row("SGETORCREATE", [Text("room")]))
    case "stream.publish" => Some(Row("SPUBLISH", [Text("room"), Text("event"), Text("data")]))
    case "stream.consume" =>
      Some(Row("SREAD", [Text("room"), Text("subscriber_id"), Number("from_offset"), Number("limit")]))
    case "stream.list" => Some(Row("SLIST", []))
    case "stream.stats" => Some(Row("SSTATS", [Text("room")]))
    case "stream.delete" => Some(Row("SDELETE", [Text("room")]))
    case _ => ControlRow(command, resp3)
  }

  function ControlRow(command: string, resp3: bool): Option<Row> {
    match command
    case "transaction.multi" => Some(Row("MULTI", [Text(CLIENT_ID)]))
    case "transaction.exec" => Some(Row("EXEC", [Text(CLIENT_ID)]))
    case "transaction.discard" => Some(Row("DISCARD", [Text(CLIENT_ID)]))
    case "transaction.watch" => Some(Row("WATCH", [Text(CLIENT_ID), All("keys")]))
    case "transaction.unwatch" => Some(Row("UNWATCH", [Text(CLIENT_ID)]))
    case "pubsub.publish" => Some(Row("PUBLISH", [Text("topic"), Text("payload")]))
    case "pubsub.subscribe" => Some(Row("SUBSCRIBE", [All("topics")]))
    case "pubsub.unsubscribe" => Some(Row("UNSUBSCRIBE", [Text("subscriber_id"), All("topics")]))
    case "pubsub.topics" => Some(if resp3 then Row("PUBSUB", [Literal("CHANNELS")]) else Row("TOPICS", []))
    case "kv.dbsize" => Some(Row("DBSIZE", []))
    case "kv.flushdb" => Some(Row("FLUSHDB", []))
    case "kv.flushall" => Some(Row("FLUSHALL", []))
    case "kv.persist" => Some(Row("PERSIST", [Text("key")]))
    case "kv.scan" => Some(Row("KEYS", [Pattern]))
    case "kv.mdel" => Some(Row("DEL", [All("keys")]))
    case "kv.mset" => Some(Row("MSET", [Pairs]))
    case "kv.mget" => Some(Row("MGET", [All("keys")]))
    case _ => None
  }

  /** The mapping of a command outside any transaction; `None` is the UnsupportedCommand error. */
  function Unscoped(lib: GoLib, command: string, payload: Payload, resp3: bool): Option<Request> {
    FromRow(lib, payload, DataRow(command, payload, resp3))
  }

  function FromRow(lib: GoLib, payload: Payload, row: Option<Row>): Option<Request> {
    if row.Some? then Some(Request(row.value.cmd, ArgsOf(lib, payload, row.value.args))) else None
  }

  predicate IsControl(command: string) {
    "transaction." <= command
  }

  /** The payload carries the id of an open transaction and the command is not a control. */
  predicate Scoped(command: string, payload: Payload) {
    CLIENT_ID in payload && payload[CLIENT_ID] != Nil && payload[CLIENT_ID] != Str("") && !IsControl(command)
  }

  /** `mapCommandToWire`. */
  function MapCommand(lib: GoLib, command: string, payload: Payload, resp3: bool): Option<Request>
    decreases |payload|
  {
    if Scoped(command, payload) then
      WithoutIdIsSmaller(payload);
      match MapCommand(lib, command, payload - {CLIENT_ID}, resp3)
      case None => None
      case Some(inner) =>
        if inner.cmd in QUEUEABLE
        then Some(Request("TXQUEUE", [Str(Render(lib, payload[CLIENT_ID])), Str(inner.cmd)] + inner.args))
        else None
    else Unscoped(lib, command, payload, resp3)
  }

  lemma WithoutIdIsSmaller(payload: Payload)
    requires CLIENT_ID in payload
    ensures |payload - {CLIENT_ID}| < |payload|
  {
    assert (payload - {CLIENT_ID}).Keys == payload.Keys - {CLIENT_ID};
    assert |payload.Keys - {CLIENT_ID}| < |payload.Keys|;
  }

  // ---------------------------------------------------------------- the implementation

  method AppendEach(lib: GoLib, args: seq<Value>, payload: Payload, key: string) returns (r: seq<Value>)
    ensures r == args + Each(lib, payload, key)
  {
    r := args;
    if key in payload && payload[key].Arr? {
      var items := payload[key].items;
      for i := 0 to |items|
        invariant r == args + Rendered(lib, items[..i])
      {
        assert Rendered(lib, items[..i + 1]) == Rendered(lib, items[..i]) + [Str(Render(lib, items[i]))];
        r := r + [Str(Render(lib, items[i]))];
      }
      assert items[..|items|] == items;
    }
  }

  method AppendMessage(lib: GoLib, args: seq<Value>, payload: Payload) returns (r: seq<Value>)
    ensures r == args + MessageArg(lib, payload)
  {
    if "payload" !in payload {
      return args;
    }
    var p := payload["payload"];
    if !p.Arr? {
      return args + [Str(Render(lib, p))];
    }
    var b := new char[|p.items|](_ => 0 as char);
    for i := 0 to |p.items|
      invariant forall j | 0 <= j < i :: b[j] == ByteOf(lib, p.items[j])
      invariant forall j | i <= j < b.Length :: b[j] == 0 as char
    {
      if p.items[i].Float? {
        b[i] := ByteOf(lib, p.items[i]);
      }
    }
    assert b[..] == BytesOf(lib, p.items);
    return args + [Str(b[..])];
  }

  method AppendPairs(lib: GoLib, payload: Payload) returns (r: seq<Value>)
    ensures r == if "pairs" in payload && payload["pairs"].Arr? then PairArgs(lib, payload["pairs"].items) else []
  {
    r := [];
    if "pairs" in payload && payload["pairs"].Arr? {
      var items := payload["pairs"].items;
      for i := 0 to |items|
        invariant r == PairArgs(lib, items[..i])
      {
        assert items[..i + 1][..i] == items[..i];
        if items[i].Map? {
          var m := items[i].entries;
          r := r + [Str(Render(lib, Entry(m, "key"))), Str(Render(lib, Entry(m, "value")))];
        }
      }
      assert items[..|items|] == items;
    }
  }

  method CopyWithoutId(payload: Payload) returns (rest: Payload)
    ensures rest == payload - {CLIENT_ID}
  {
    rest := map[];
    var keys := payload.Keys;
    while keys != {}
      invariant keys <= payload.Keys && rest.Keys == payload.Keys - keys - {CLIENT_ID}
      invariant forall k | k in rest :: rest[k] == payload[k]
      decreases |keys|
    {
      var k :| k in keys;
      if k != CLIENT_ID {
        rest := rest[k := payload[k]];
      }
      keys := keys - {k};
    }
  }

  method MapCommandToWire(lib: GoLib, command: string, payload: Payload, resp3: bool) returns (r: Option<Request>)
    ensures r == MapCommand(lib, command, payload, resp3)
    decreases |payload|
  {
    if Scoped(command, payload) {
      var rest := CopyWithoutId(payload);
      WithoutIdIsSmaller(payload);
      var inner := MapCommandToWire(lib, command, rest, resp3);
      if inner.None? || inner.value.cmd !in QUEUEABLE {
        return None;
      }
      return Some(Request("TXQUEUE", [Str(Render(lib, payload[CLIENT_ID])), Str(inner.value.cmd)] + inner.value.args));
    }
    r := MapUnscoped(lib, command, payload, resp3);
  }

  /** The switch, family by family. */
  method MapUnscoped(lib: GoLib, command: string, payload: Payload, resp3: bool) returns (r: Option<Request>)
    ensures r == Unscoped(lib, command, payload, resp3)
  {
    var key := FieldText(lib, payload, "key");
    match command {
      case "kv.set" =>
        var args := [key, FieldText(lib, payload, "value")];
        if GetFloat(payload, "ttl") > 0.0 {
          args := args + [Str("EX"), FieldInt(lib, payload, "ttl")];
        }
        SetArgs(lib, payload);
        assert args == ArgsOf(lib, payload, [Text("key"), Text("value"), Ttl]);
        return Some(Request("SET", args));
      case "kv.get" => Args1(lib, payload, Text("key")); return Some(Request("GET", [key]));
      case "kv.del" => Args1(lib, payload, Text("key")); return Some(Request("DEL", [key]));
      case "kv.exists" => Args1(lib, payload, Text("key")); return Some(Request("EXISTS", [key]));
      case "kv.incr" =>
        Args2(lib, payload, Text("key"), Amount);
        if HasAmount(payload) {
          return Some(Request("INCRBY", [key, CounterAmount(lib, payload["amount"])]));
        }
        return Some(Request("INCR", [key]));
      case "kv.decr" =>
        Args2(lib, payload, Text("key"), Amount);
        if HasAmount(payload) {
          return Some(Request("DECRBY", [key, CounterAmount(lib, payload["amount"])]));
        }
        return Some(Request("DECR", [key]));
      case "hash.set" =>
        var args := [key, FieldText(lib, payload, "field"), FieldText(lib, payload, "value")];
        Singles(lib, payload, [Text("key"), Text("field"), Text("value")], args);
        return Some(Request("HSET", args));
      case "hash.get" =>
        Args2(lib, payload, Text("key"), Text("field"));
        return Some(Request("HGET", [key, FieldText(lib, payload, "field")]));
      case "hash.getall" => Args1(lib, payload, Text("key")); return Some(Request("HGETALL", [key]));
      case "hash.del" =>
        var args := AppendEach(lib, [key], payload, "fields");
        assert |args| == 1 ==> args == [key];
        if |args| == 1 {
          args := args + [FieldText(lib, payload, "field")];
        }
        Args2(lib, payload, Text("key"), HashFields);
        return Some(Request("HDEL", args));
      case "hash.exists" =>
        Args2(lib, payload, Text("key"), Text("field"));
        return Some(Request("HEXISTS", [key, FieldText(lib, payload, "field")]));
      case _ => r := MapCollection(lib, command, payload, resp3);
    }
  }

  method MapCollection(lib: GoLib, command: string, payload: Payload, resp3: bool) returns (r: Option<Request>)
    ensures r == FromRow(lib, payload, CollectionRow(command, resp3))
  {
    var key := FieldText(lib, payload, "key");
    match command {
      case "list.lpush" =>
        var args := AppendEach(lib, [key], payload, "values");
        Args2(lib, payload, Text("key"), All("values"));
        return Some(Request("LPUSH", args));
      case "list.rpush" =>
        var args := AppendEach(lib, [key], payload, "values");
        Args2(lib, payload, Text("key"), All("values"));
        return Some(Request("RPUSH", args));
      case "list.lpop" =>
        Args2(lib, payload, Text("key"), Number("count"));
        return Some(Request("LPOP", [key, FieldInt(lib, payload, "count")]));
      case "list.rpop" =>
        Args2(lib, payload, Text("key"), Number("count"));
        return Some(Request("RPOP", [key, FieldInt(lib, payload, "count")]));
      case "list.range" =>
        var args := [key, FieldInt(lib, payload, "start"), FieldInt(lib, payload, "stop")];
        Singles(lib, payload, [Text("key"), Number("start"), Number("stop")], args);
        return Some(Request("LRANGE", args));
      case "list.len" => Args1(lib, payload, Text("key")); return Some(Request("LLEN", [key]));
      case "set.add" =>
        var args := AppendEach(lib, [key], payload, "members");
        Args2(lib, payload, Text("key"), All("members"));
        return Some(Request("SADD", args));
      case "set.members" => Args1(lib, payload, Text("key")); return Some(Request("SMEMBERS", [key]));
      case "set.ismember" =>
        Args2(lib, payload, Text("key"), Text("member"));
        return Some(Request("SISMEMBER", [key, FieldText(lib, payload, "member")]));
      case "set.rem" =>
        var args := AppendEach(lib, [key], payload, "members");
        Args2(lib, payload, Text("key"), All("members"));
        return Some(Request("SREM", args));
      case "set.card" => Args1(lib, payload, Text("key")); return Some(Request("SCARD", [key]));
      case _ => r := MapMessaging(lib, command, payload, resp3);
    }
  }

  method MapMessaging(lib: GoLib, command: string, payload: Payload, resp3: bool) returns (r: Option<Request>)
    ensures r == FromRow(lib, payload, MessagingRow(command, resp3))
  {
    var queue, room := FieldText(lib, payload, "queue"), FieldText(lib, payload, "room");
    match command {
      case "queue.create" =>
        Args1(lib, payload, Text("name"));
        return Some(Request("QCREATE", [FieldText(lib, payload, "name")]));
      case "queue.delete" => Args1(lib, payload, Text("queue")); return Some(Request("QDELETE", [queue]));
      case "queue.publish" =>
        var args := AppendMessage(lib, [queue], payload);
        Args2(lib, payload, Text("queue"), Message);
        return Some(Request("QPUBLISH", args));
      case "queue.consume" =>
        Args2(lib, payload, Text("queue"), Text("consumer_id"));
        return Some(Request("QCONSUME", [queue, FieldText(lib, payload, "consumer_id")]));
      case "queue.ack" =>
        Args2(lib, payload, Text("queue"), Text("message_id"));
        return Some(Request("QACK", [queue, FieldText(lib, payload, "message_id")]));
      case "queue.nack" =>
        Args2(lib, payload, Text("queue"), Text("message_id"));
        return Some(Request("QNACK", [queue, FieldText(lib, payload, "message_id")]));
      case "queue.list" => return Some(Request("QLIST", []));
      case "queue.stats" => Args1(lib, payload, Text("queue")); return Some(Request("QSTATS", [queue]));
      case "stream.create" => Args1(lib, payload, Text("room")); return Some(Request("SCREATE", [room]));
      case "stream.get_or_create" => Args1(lib, payload, Text("room")); return Some(Request("SGETORCREATE", [room]));
      case "stream.publish" =>
        var args := [room, FieldText(lib, payload, "event"), FieldText(lib, payload, "data")];
        Singles(lib, payload, [Text("room"), Text("event"), Text("data")], args);
        return Some(Request("SPUBLISH", args));
      case "stream.consume" =>
        var args := [room, FieldText(lib, payload, "subscriber_id"), FieldInt(lib, payload, "from_offset"),
                     FieldInt(lib, payload, "limit")];
        Singles(lib, payload, [Text("room"), Text("subscriber_id"), Number("from_offset"), Number("limit")], args);
        return Some(Request("SREAD", args));
      case "stream.list" => return Some(Request("SLIST", []));
      case "stream.stats" => Args1(lib, payload, Text("room")); return Some(Request("SSTATS", [room]));
      case "stream.delete" => Args1(lib, payload, Text("room")); return Some(Request("SDELETE", [room]));
      case _ => r := MapControl(lib, command, payload, resp3);
    }
  }

  method MapControl(lib: GoLib, command: string, payload: Payload, resp3: bool) returns (r: Option<Request>)
    ensures r == FromRow(lib, payload, ControlRow(command, resp3))
  {
    var id := FieldText(lib, payload, CLIENT_ID);
    match command {
      case "transaction.multi" => Args1(lib, payload, Text(CLIENT_ID)); return Some(Request("MULTI", [id]));
      case "transaction.exec" => Args1(lib, payload, Text(CLIENT_ID)); return Some(Request("EXEC", [id]));
      case "transaction.discard" => Args1(lib, payload, Text(CLIENT_ID)); return Some(Request("DISCARD", [id]));
      case "transaction.watch" =>
        var args := AppendEach(lib, [id], payload, "keys");
        Args2(lib, payload, Text(CLIENT_ID), All("keys"));
        return Some(Request("WATCH", args));
      case "transaction.unwatch" => Args1(lib, payload, Text(CLIENT_ID)); return Some(Request("UNWATCH", [id]));
      case "pubsub.publish" =>
        Args2(lib, payload, Text("topic"), Text("payload"));
        return Some(Request("PUBLISH", [FieldText(lib, payload, "topic"), FieldText(lib, payload, "payload")]));
      case "pubsub.subscribe" =>
        var args := AppendEach(lib, [], payload, "topics");
        Args1(lib, payload, All("topics"));
        return Some(Request("SUBSCRIBE", args));
      case "pubsub.unsubscribe" =>
        var args := AppendEach(lib, [FieldText(lib, payload, "subscriber_id")], payload, "topics");
        Args2(lib, payload, Text("subscriber_id"), All("topics"));
        return Some(Request("UNSUBSCRIBE", args));
      case "pubsub.topics" =>
        if resp3 {
          Args1(lib, payload, Literal("CHANNELS"));
          return Some(Request("PUBSUB", [Str("CHANNELS")]));
        }
        return Some(Request("TOPICS", []));
      case "kv.dbsize" => return Some(Request("DBSIZE", []));
      case "kv.flushdb" => return Some(Request("FLUSHDB", []));
      case "kv.flushall" => return Some(Request("FLUSHALL", []));
      case "kv.persist" =>
        Args1(lib, payload, Text("key"));
        return Some(Request("PERSIST", [FieldText(lib, payload, "key")]));
      case "kv.scan" =>
        Args1(lib, payload, Pattern);
        var prefix := GetStr(lib, payload, "prefix");
        if prefix == "" {
          assert prefix + "*" == "*";
          return Some(Request("KEYS", [Str("*")]));
        }
        return Some(Request("KEYS", [Str(prefix + "*")]));
      case "kv.mdel" =>
        var args := AppendEach(lib, [], payload, "keys");
        Args1(lib, payload, All("keys"));
        return Some(Request("DEL", args));
      case "kv.mset" =>
        var args := AppendPairs(lib, payload);
        Args1(lib, payload, Pairs);
        return Some(Request("MSET", args));
      case "kv.mget" =>
        var args := AppendEach(lib, [], payload, "keys");
        Args1(lib, payload, All("keys"));
        return Some(Request("MGET", args));
      case _ => return None;
    }
  }

  lemma Args1(lib: GoLib, payload: Payload, a: Arg)
    ensures ArgsOf(lib, payload, [a]) == ArgOf(lib, payload, a) == [] + ArgOf(lib, payload, a)
  {
    assert [a][1..] == [];
  }

  lemma Args2(lib: GoLib, payload: Payload, a: Arg, b: Arg)
    ensures ArgsOf(lib, payload, [a, b]) == ArgOf(lib, payload, a) + ArgOf(lib, payload, b)
    ensures var x, y := ArgOf(lib, payload, a), ArgOf(lib, payload, b);
      (|x| == |y| == 1 ==> x + y == [x[0], y[0]]) && (y == [] ==> x + y == x)
  {
    assert [a, b][1..] == [b];
    Args1(lib, payload, b);
  }

  /** Arguments that stand for one value each. */
  lemma {:induction false} Singles(lib: GoLib, payload: Payload, args: seq<Arg>, values: seq<Value>)
    requires |values| == |args| && forall i | 0 <= i < |args| :: ArgOf(lib, payload, args[i]) == [values[i]]
    ensures ArgsOf(lib, payload, args) == values
  {
    if args != [] {
      Singles(lib, payload, args[1..], values[1..]);
      assert values == [values[0]] + values[1..];
    }
  }

  lemma SetArgs(lib: GoLib, payload: Payload)
    ensures ArgsOf(lib, payload, [Text("key"), Text("value"), Ttl])
         == [FieldText(lib, payload, "key"), FieldText(lib, payload, "value")] + ArgOf(lib, payload, Ttl)
  {
    var args := [Text("key"), Text("value"), Ttl];
    assert args[1..] == [Text("value"), Ttl];
    Args2(lib, payload, Text("value"), Ttl);
    var k, v, t := [FieldText(lib, payload, "key")], [FieldText(lib, payload, "value")], ArgOf(lib, payload, Ttl);
    assert k + (v + t) == [FieldText(lib, payload, "key"), FieldText(lib, payload, "value")] + t;
  }

  // ---------------------------------------------------------------- properties

  /** The SDK commands a transaction accepts. */
  const ACCEPTED: set<string> := {
    "kv.set", "kv.del", "kv.incr", "kv.decr", "kv.mdel", "hash.set", "hash.del",
    "list.lpush", "list.rpush", "list.lpop", "list.rpop", "set.add", "set.rem"
  }

  /** Never TXQUEUE, and a transaction verb only for a control command. */
  predicate Ordinary(command: string, cmd: string) {
    cmd != "TXQUEUE" && (cmd == "MULTI" || cmd == "EXEC" || cmd == "DISCARD" ==> IsControl(command))
  }

  /** Exactly these commands map to something the server can queue, whatever their payload; and no
      command maps to TXQUEUE by itself, nor to a transaction verb unless it is a control. */
  lemma AcceptedIff(lib: GoLib, command: string, payload: Payload, resp3: bool)
    ensures var r := Unscoped(lib, command, payload, resp3);
      && (r.Some? && r.value.cmd in QUEUEABLE <==> command in ACCEPTED)
      && (r.Some? ==> Ordinary(command, r.value.cmd))
  {
    if command in ACCEPTED {
      AcceptedRows(command, payload, resp3);
    } else {
      RefusedRows(command, payload, resp3);
    }
  }

  lemma AcceptedRows(command: string, payload: Payload, resp3: bool)
    requires command in ACCEPTED
    ensures var row := DataRow(command, payload, resp3);
      row.Some? && row.value.cmd in QUEUEABLE && Ordinary(command, row.value.cmd)
  {
  }

  lemma RefusedControlRows(command: string, resp3: bool)
    requires command !in ACCEPTED
    ensures var row := ControlRow(command, resp3);
      row.Some? ==> row.value.cmd !in QUEUEABLE && Ordinary(command, row.value.cmd)
  {
  }

  lemma RefusedMessagingRows(command: string, resp3: bool)
    requires command !in ACCEPTED
    ensures var row := MessagingRow(command, resp3);
      row.Some? ==> row.value.cmd !in QUEUEABLE && Ordinary(command, row.value.cmd)
  {
    RefusedControlRows(command, resp3);
  }

  lemma RefusedCollectionRows(command: string, resp3: bool)
    requires command !in ACCEPTED
    ensures var row := CollectionRow(command, resp3);
      row.Some? ==> row.value.cmd !in QUEUEABLE && Ordinary(command, row.value.cmd)
  {
    RefusedMessagingRows(command, resp3);
  }

  lemma RefusedRows(command: string, payload: Payload, resp3: bool)
    requires command !in ACCEPTED
    ensures var row := DataRow(command, payload, resp3);
      row.Some? ==> row.value.cmd !in QUEUEABLE && Ordinary(command, row.value.cmd)
  {
    RefusedCollectionRows(command, resp3);
  }

  /** Wrapping is conservative. With a transaction's id in the payload, an accepted command becomes
      TXQUEUE carrying the id, the command it maps to without the id, and that command's arguments
      unchanged; every other command is refused. */
  lemma ScopedIsWrapped(lib: GoLib, command: string, payload: Payload, id: string, resp3: bool)
    requires id != "" && CLIENT_ID !in payload && !IsControl(command)
    ensures var r := MapCommand(lib, command, payload[CLIENT_ID := Str(id)], resp3);
      var q := Unscoped(lib, command, payload, resp3);
      if command in ACCEPTED
      then q.Some? && r == Some(Request("TXQUEUE", [Str(id), Str(q.value.cmd)] + q.value.args))
      else r.None?
  {
    var scoped := payload[CLIENT_ID := Str(id)];
    assert scoped - {CLIENT_ID} == payload;
    AcceptedIff(lib, command, payload, resp3);
  }

  const CONTROLS: set<string> := {
    "transaction.multi", "transaction.exec", "transaction.discard", "transaction.watch", "transaction.unwatch"
  }

  /** A control command is never wrapped: it carries the id as its own first argument. */
  lemma ControlCarriesId(lib: GoLib, command: string, payload: Payload, id: string, resp3: bool)
    requires IsControl(command)
    ensures var r := MapCommand(lib, command, payload[CLIENT_ID := Str(id)], resp3);
      r.Some? ==> r.value.cmd in {"MULTI", "EXEC", "DISCARD", "WATCH", "UNWATCH"}
                  && |r.value.args| > 0 && r.value.args[0] == Str(id)
  {
    var p := payload[CLIENT_ID := Str(id)];
    assert StartsTr(command);
    if command in CONTROLS {
      FiveControls(lib, command, p, resp3);
    } else {
      OnlyFiveControls(command, p, resp3);
    }
  }

  lemma ControlRowStarts(command: string, payload: Payload, resp3: bool)
    requires command in CONTROLS
    ensures var row := DataRow(command, payload, resp3);
      row.Some? && row.value.cmd in {"MULTI", "EXEC", "DISCARD", "WATCH", "UNWATCH"}
      && row.value.args != [] && row.value.args[0] == Text(CLIENT_ID)
  {
  }

  lemma FiveControls(lib: GoLib, command: string, payload: Payload, resp3: bool)
    requires CLIENT_ID in payload && payload[CLIENT_ID].Str? && command in CONTROLS
    ensures var r := Unscoped(lib, command, payload, resp3);
      r.Some? && r.value.cmd in {"MULTI", "EXEC", "DISCARD", "WATCH", "UNWATCH"}
      && |r.value.args| > 0 && r.value.args[0] == payload[CLIENT_ID]
  {
    ControlRowStarts(command, payload, resp3);
    var args := DataRow(command, payload, resp3).value.args;
    assert ArgsOf(lib, payload, args) == [payload[CLIENT_ID]] + ArgsOf(lib, payload, args[1..]);
  }

  predicate StartsTr(command: string) {
    |command| > 1 && command[0] == 't' && command[1] == 'r'
  }

  lemma OnlyFiveControlRows(command: string, resp3: bool)
    requires StartsTr(command) && command !in CONTROLS
    ensures ControlRow(command, resp3).None?
  {
  }

  lemma NoMessagingRow(command: string, resp3: bool)
    requires StartsTr(command)
    ensures MessagingRow(command, resp3) == ControlRow(command, resp3)
  {
  }

  lemma NoCollectionRow(command: string, resp3: bool)
    requires StartsTr(command)
    ensures CollectionRow(command, resp3) == MessagingRow(command, resp3)
  {
  }

  lemma NoDataRow(command: string, payload: Payload, resp3: bool)
    requires StartsTr(command)
    ensures DataRow(command, payload, resp3) == CollectionRow(command, resp3)
  {
  }

  lemma OnlyFiveControls(command: string, payload: Payload, resp3: bool)
    requires StartsTr(command) && command !in CONTROLS
    ensures DataRow(command, payload, resp3).None?
  {
    NoDataRow(command, payload, resp3);
    NoCollectionRow(command, resp3);
    NoMessagingRow(command, resp3);
    OnlyFiveControlRows(command, resp3);
  }

  // ---------------------------------------------------------------- what fields say

  /** A field as text: a string as it is, one that is not there empty. As an integer: a float's integral part
      where it fits int64, an int rounded as a float, and 0 for anything else. As a list: each element. */
  lemma FieldSays(lib: GoLib, m: Payload, key: string, n: int, x: real)
    requires InInt64(n) && if x >= 0.0 then n as real <= x < n as real + 1.0 else n as real - 1.0 < x <= n as real
    ensures key !in m ==> FieldText(lib, m, key) == Str("") && FieldInt(lib, m, key) == GoInt(0)
    ensures key !in m || !m[key].Arr? ==> Each(lib, m, key) == []
    ensures key in m && m[key].Str? ==> FieldText(lib, m, key) == m[key] && FieldInt(lib, m, key) == GoInt(0)
    ensures key in m && m[key] == Float(x) ==> FieldInt(lib, m, key) == GoInt(n)
    ensures key in m && m[key] == GoInt(n) ==>
      FieldInt(lib, m, key) == GoInt(FloatToInt64(lib, RoundInt(n) as real))
    ensures key in m && m[key].Arr? ==>
      |Each(lib, m, key)| == |m[key].items|
      && forall i | 0 <= i < |m[key].items| :: Each(lib, m, key)[i] == Str(Render(lib, m[key].items[i]))
  {
    TruncOfInt(0);
  }

  /** An element of a message as a byte: a float's integral part below 256, and 0 for what is no float. */
  lemma ByteSays(lib: GoLib, v: Value, n: nat)
    requires n < 256
    ensures v.Float? && n as real <= v.r < n as real + 1.0 ==> ByteOf(lib, v) == n as char
    ensures !v.Float? ==> ByteOf(lib, v) == 0 as char
  {
  }

  // ---------------------------------------------------------------- what arguments are

  /** The dynamic types `toWire` is handed: text and two kinds of integer. */
  predicate Plain(v: Value) {
    v.Str? || v.GoInt? || v.Int64?
  }

  predicate AllPlain(vs: seq<Value>) {
    forall i | 0 <= i < |vs| :: Plain(vs[i])
  }

  lemma {:induction false} PairArgsArePlain(lib: GoLib, items: seq<Value>)
    ensures AllPlain(PairArgs(lib, items))
  {
    if items != [] {
      PairArgsArePlain(lib, items[..|items| - 1]);
    }
  }

  lemma ArgIsPlain(lib: GoLib, payload: Payload, arg: Arg)
    ensures AllPlain(ArgOf(lib, payload, arg))
  {
    if arg.Pairs? && "pairs" in payload && payload["pairs"].Arr? {
      PairArgsArePlain(lib, payload["pairs"].items);
    }
  }

  lemma {:induction false} ArgsArePlain(lib: GoLib, payload: Payload, args: seq<Arg>)
    ensures AllPlain(ArgsOf(lib, payload, args))
    decreases args
  {
    if args != [] {
      ArgIsPlain(lib, payload, args[0]);
      ArgsArePlain(lib, payload, args[1..]);
    }
  }

  /** Whatever a payload holds, every argument of a request is text or an integer: `toWire` never prints a
      value it does not know. */
  lemma {:induction false} ArgumentsArePlain(lib: GoLib, command: string, payload: Payload, resp3: bool)
    ensures var r := MapCommand(lib, command, payload, resp3); r.Some? ==> AllPlain(r.value.args)
    decreases |payload|
  {
    if Scoped(command, payload) {
      WithoutIdIsSmaller(payload);
      ArgumentsArePlain(lib, command, payload - {CLIENT_ID}, resp3);
    } else {
      var row := DataRow(command, payload, resp3);
      if row.Some? {
        ArgsArePlain(lib, payload, row.value.args);
      }
    }
  }
}
