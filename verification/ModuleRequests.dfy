/** The request each call of a module sends, from the struct its method declares, on either native transport.
    `SentText` is the caller's string, after JSON on RESP3; `IntBack` the caller's integer, after float64. `SET`,
    `SREAD` and `QPUBLISH` are in `Interchange`, `StreamOffset` and `QueuePayload`. */
module ModuleRequests {
  import opened GoValues
  import opened RespCodec
  import opened GoTypes
  import opened Float64
  import opened PayloadRoundTrip
  import opened JsonTrip
  import opened PayloadFields
  import opened CommandMap

  /** What a call of this command with this struct sends outside a transaction. */
  function Calls(lib: GoLib, resp3: bool, fs: seq<Field>, vs: seq<GoVal>, command: string): Option<Request>
    requires HasType(VStruct(vs), TStruct(fs))
  {
    MapCommand(lib, command, MapOfStruct(lib, resp3, fs, vs), resp3)
  }

  // ---------------------------------------------------------------- rows

  lemma NoArgs(lib: GoLib, command: string, m: Payload, resp3: bool, cmd: string)
    requires CLIENT_ID !in m && DataRow(command, m, resp3) == Some(Row(cmd, []))
    ensures MapCommand(lib, command, m, resp3) == Some(Request(cmd, []))
  {
  }

  lemma OneArg(lib: GoLib, command: string, m: Payload, resp3: bool, cmd: string, a: Arg)
    requires CLIENT_ID !in m && DataRow(command, m, resp3) == Some(Row(cmd, [a]))
    ensures MapCommand(lib, command, m, resp3) == Some(Request(cmd, ArgOf(lib, m, a)))
  {
    Args1(lib, m, a);
  }

  lemma TwoArgs(lib: GoLib, command: string, m: Payload, resp3: bool, cmd: string, a: Arg, b: Arg)
    requires CLIENT_ID !in m && DataRow(command, m, resp3) == Some(Row(cmd, [a, b]))
    ensures MapCommand(lib, command, m, resp3) == Some(Request(cmd, ArgOf(lib, m, a) + ArgOf(lib, m, b)))
    ensures var x, y := ArgOf(lib, m, a), ArgOf(lib, m, b); |x| == |y| == 1 ==> x + y == [x[0], y[0]]
  {
    Args2(lib, m, a, b);
  }

  lemma ThreeArgs(lib: GoLib, command: string, m: Payload, resp3: bool, cmd: string, args: seq<Arg>, values: seq<Value>)
    requires CLIENT_ID !in m && DataRow(command, m, resp3) == Some(Row(cmd, args))
    requires |values| == |args| && forall i | 0 <= i < |args| :: ArgOf(lib, m, args[i]) == [values[i]]
    ensures MapCommand(lib, command, m, resp3) == Some(Request(cmd, values))
  {
    Singles(lib, m, args, values);
  }

  // ---------------------------------------------------------------- keys

  /** One key. */
  const KEY: seq<Layout> := [Layout("key", TString, false)]

  lemma KeyNames()
    ensures GoodNames(KEY)
  {
    assert IsName("key");
  }

  /** Calls with a key alone. */
  lemma KeyRequests(lib: GoLib, resp3: bool, fs: seq<Field>, key: string)
    requires DeclaredAs(fs, KEY)
    ensures HasType(VStruct([VStr(key)]), TStruct(fs))
    ensures Calls(lib, resp3, fs, [VStr(key)], "kv.get")
         == Some(Request("GET", [SentText(resp3, key)]))
    ensures Calls(lib, resp3, fs, [VStr(key)], "kv.del")
         == Some(Request("DEL", [SentText(resp3, key)]))
    ensures Calls(lib, resp3, fs, [VStr(key)], "kv.exists")
         == Some(Request("EXISTS", [SentText(resp3, key)]))
    ensures Calls(lib, resp3, fs, [VStr(key)], "kv.incr")
         == Some(Request("INCR", [SentText(resp3, key)]))
    ensures Calls(lib, resp3, fs, [VStr(key)], "kv.decr")
         == Some(Request("DECR", [SentText(resp3, key)]))
  {
    var vs: seq<GoVal> := [VStr(key)];
    KeyNames();
    StructHasType(fs, KEY, vs);
    NameAbsent(lib, resp3, fs, KEY, vs, CLIENT_ID);
    NameAbsent(lib, resp3, fs, KEY, vs, "amount");
    TextReaches(lib, resp3, fs, KEY, vs, 0, "key");
    var m := MapOfStruct(lib, resp3, fs, vs);
    OneArg(lib, "kv.get", m, resp3, "GET", Text("key"));
    OneArg(lib, "kv.del", m, resp3, "DEL", Text("key"));
    OneArg(lib, "kv.exists", m, resp3, "EXISTS", Text("key"));
    TwoArgs(lib, "kv.incr", m, resp3, "INCR", Text("key"), Amount);
    assert ArgOf(lib, m, Text("key")) + [] == [FieldText(lib, m, "key")];
    TwoArgs(lib, "kv.decr", m, resp3, "DECR", Text("key"), Amount);
  }

  /** Calls on a whole collection. */
  lemma CollectionKeyRequests(lib: GoLib, resp3: bool, fs: seq<Field>, key: string)
    requires DeclaredAs(fs, KEY)
    ensures HasType(VStruct([VStr(key)]), TStruct(fs))
    ensures Calls(lib, resp3, fs, [VStr(key)], "hash.getall")
         == Some(Request("HGETALL", [SentText(resp3, key)]))
    ensures Calls(lib, resp3, fs, [VStr(key)], "list.len")
         == Some(Request("LLEN", [SentText(resp3, key)]))
    ensures Calls(lib, resp3, fs, [VStr(key)], "set.members")
         == Some(Request("SMEMBERS", [SentText(resp3, key)]))
    ensures Calls(lib, resp3, fs, [VStr(key)], "set.card")
         == Some(Request("SCARD", [SentText(resp3, key)]))
  {
    var vs: seq<GoVal> := [VStr(key)];
    KeyNames();
    StructHasType(fs, KEY, vs);
    NameAbsent(lib, resp3, fs, KEY, vs, CLIENT_ID);
    TextReaches(lib, resp3, fs, KEY, vs, 0, "key");
    CollectionKeyRows(lib, MapOfStruct(lib, resp3, fs, vs), resp3);
  }

  lemma CollectionKeyRows(lib: GoLib, m: Payload, resp3: bool)
    requires CLIENT_ID !in m
    ensures MapCommand(lib, "hash.getall", m, resp3)
         == Some(Request("HGETALL", [FieldText(lib, m, "key")]))
    ensures MapCommand(lib, "list.len", m, resp3)
         == Some(Request("LLEN", [FieldText(lib, m, "key")]))
    ensures MapCommand(lib, "set.members", m, resp3)
         == Some(Request("SMEMBERS", [FieldText(lib, m, "key")]))
    ensures MapCommand(lib, "set.card", m, resp3)
         == Some(Request("SCARD", [FieldText(lib, m, "key")]))
  {
    OneArg(lib, "hash.getall", m, resp3, "HGETALL", Text("key"));
    OneArg(lib, "list.len", m, resp3, "LLEN", Text("key"));
    OneArg(lib, "set.members", m, resp3, "SMEMBERS", Text("key"));
    OneArg(lib, "set.card", m, resp3, "SCARD", Text("key"));
  }

  // ---------------------------------------------------------------- hashes

  /** A key and a field. */
  const KEY_FIELD: seq<Layout> := [Layout("key", TString, false), Layout("field", TString, false)]

  lemma KeyFieldNames()
    ensures GoodNames(KEY_FIELD)
  {
    assert IsName("key") && IsName("field");
    assert forall i | 0 <= i < 2 :: |KEY_FIELD[i].name| == [3, 5][i];
  }

  /** Calls on one field of a hash. */
  lemma FieldRequests(lib: GoLib, resp3: bool, fs: seq<Field>, key: string, field: string)
    requires DeclaredAs(fs, KEY_FIELD)
    ensures HasType(VStruct([VStr(key), VStr(field)]), TStruct(fs))
    ensures Calls(lib, resp3, fs, [VStr(key), VStr(field)], "hash.get")
         == Some(Request("HGET", [SentText(resp3, key), SentText(resp3, field)]))
    ensures Calls(lib, resp3, fs, [VStr(key), VStr(field)], "hash.exists")
         == Some(Request("HEXISTS", [SentText(resp3, key), SentText(resp3, field)]))
  {
    var vs: seq<GoVal> := [VStr(key), VStr(field)];
    KeyFieldNames();
    StructHasType(fs, KEY_FIELD, vs);
    NameAbsent(lib, resp3, fs, KEY_FIELD, vs, CLIENT_ID);
    TextReaches(lib, resp3, fs, KEY_FIELD, vs, 0, "key");
    TextReaches(lib, resp3, fs, KEY_FIELD, vs, 1, "field");
    FieldRows(lib, MapOfStruct(lib, resp3, fs, vs), resp3);
  }

  lemma FieldRows(lib: GoLib, m: Payload, resp3: bool)
    requires CLIENT_ID !in m
    ensures MapCommand(lib, "hash.get", m, resp3)
         == Some(Request("HGET", [FieldText(lib, m, "key"), FieldText(lib, m, "field")]))
    ensures MapCommand(lib, "hash.exists", m, resp3)
         == Some(Request("HEXISTS", [FieldText(lib, m, "key"), FieldText(lib, m, "field")]))
  {
    TwoArgs(lib, "hash.get", m, resp3, "HGET", Text("key"), Text("field"));
    TwoArgs(lib, "hash.exists", m, resp3, "HEXISTS", Text("key"), Text("field"));
  }

  /** A key, a field and its value. */
  const KEY_FIELD_VALUE: seq<Layout> :=
    [Layout("key", TString, false), Layout("field", TString, false), Layout("value", TString, false)]

  lemma KeyFieldValueNames()
    ensures GoodNames(KEY_FIELD_VALUE)
  {
    assert IsName("key") && IsName("field") && IsName("value");
    assert KEY_FIELD_VALUE[0].name[0] == 'k' && KEY_FIELD_VALUE[1].name[0] == 'f' && KEY_FIELD_VALUE[2].name[0] == 'v';
  }

  /** Setting a field: the field before the value. */
  lemma HashSetRequest(lib: GoLib, resp3: bool, fs: seq<Field>, key: string, field: string, value: string)
    requires DeclaredAs(fs, KEY_FIELD_VALUE)
    ensures HasType(VStruct([VStr(key), VStr(field), VStr(value)]), TStruct(fs))
    ensures Calls(lib, resp3, fs, [VStr(key), VStr(field), VStr(value)], "hash.set")
         == Some(Request("HSET", [SentText(resp3, key), SentText(resp3, field), SentText(resp3, value)]))
  {
    var vs: seq<GoVal> := [VStr(key), VStr(field), VStr(value)];
    KeyFieldValueNames();
    StructHasType(fs, KEY_FIELD_VALUE, vs);
    NameAbsent(lib, resp3, fs, KEY_FIELD_VALUE, vs, CLIENT_ID);
    TextReaches(lib, resp3, fs, KEY_FIELD_VALUE, vs, 0, "key");
    TextReaches(lib, resp3, fs, KEY_FIELD_VALUE, vs, 1, "field");
    TextReaches(lib, resp3, fs, KEY_FIELD_VALUE, vs, 2, "value");
    HashSetRows(lib, MapOfStruct(lib, resp3, fs, vs), resp3);
  }

  lemma HashSetRows(lib: GoLib, m: Payload, resp3: bool)
    requires CLIENT_ID !in m
    ensures MapCommand(lib, "hash.set", m, resp3)
         == Some(Request("HSET", [FieldText(lib, m, "key"), FieldText(lib, m, "field"), FieldText(lib, m, "value")]))
  {
    ThreeArgs(lib, "hash.set", m, resp3, "HSET", [Text("key"), Text("field"), Text("value")],
              [FieldText(lib, m, "key"), FieldText(lib, m, "field"), FieldText(lib, m, "value")]);
  }

  // ---------------------------------------------------------------- lists and sets

  /** A key and values to push. */
  const KEY_VALUES: seq<Layout> := [Layout("key", TString, false), Layout("values", TSlice(TString), false)]

  lemma KeyValuesNames()
    ensures GoodNames(KEY_VALUES)
  {
    assert IsName("key") && IsName("values");
    assert forall i | 0 <= i < 2 :: |KEY_VALUES[i].name| == [3, 6][i];
  }

  /** Pushing onto a list: the values in the order given. */
  lemma PushRequests(lib: GoLib, resp3: bool, fs: seq<Field>, key: string, values: seq<string>)
    requires DeclaredAs(fs, KEY_VALUES)
    ensures HasType(VStruct([VStr(key), VSeq(GoStrings(values))]), TStruct(fs))
    ensures Calls(lib, resp3, fs, [VStr(key), VSeq(GoStrings(values))], "list.lpush")
         == Some(Request("LPUSH", [SentText(resp3, key)] + SentTexts(resp3, values)))
    ensures Calls(lib, resp3, fs, [VStr(key), VSeq(GoStrings(values))], "list.rpush")
         == Some(Request("RPUSH", [SentText(resp3, key)] + SentTexts(resp3, values)))
  {
    var vs: seq<GoVal> := [VStr(key), VSeq(GoStrings(values))];
    KeyValuesNames();
    StringsHaveType(values);
    StructHasType(fs, KEY_VALUES, vs);
    NameAbsent(lib, resp3, fs, KEY_VALUES, vs, CLIENT_ID);
    TextReaches(lib, resp3, fs, KEY_VALUES, vs, 0, "key");
    ListReaches(lib, resp3, fs, KEY_VALUES, vs, 1, "values", values);
    PushRows(lib, MapOfStruct(lib, resp3, fs, vs), resp3);
  }

  lemma PushRows(lib: GoLib, m: Payload, resp3: bool)
    requires CLIENT_ID !in m
    ensures MapCommand(lib, "list.lpush", m, resp3)
         == Some(Request("LPUSH", [FieldText(lib, m, "key")] + Each(lib, m, "values")))
    ensures MapCommand(lib, "list.rpush", m, resp3)
         == Some(Request("RPUSH", [FieldText(lib, m, "key")] + Each(lib, m, "values")))
  {
    TwoArgs(lib, "list.lpush", m, resp3, "LPUSH", Text("key"), All("values"));
    TwoArgs(lib, "list.rpush", m, resp3, "RPUSH", Text("key"), All("values"));
  }

  /** A key and an optional count. */
  const KEY_COUNT: seq<Layout> := [Layout("key", TString, false), Layout("count", TPtr(TInt(W64)), true)]

  lemma KeyCountNames()
    ensures GoodNames(KEY_COUNT)
  {
    assert IsName("key") && IsName("count");
    assert forall i | 0 <= i < 2 :: |KEY_COUNT[i].name| == [3, 5][i];
  }

  /** Popping, with or without a count; without one it is 0. */
  lemma PopRequests(lib: GoLib, resp3: bool, fs: seq<Field>, key: string, count: Option<int>)
    requires DeclaredAs(fs, KEY_COUNT) && (count.Some? ==> InInt64(count.value))
    ensures HasType(VStruct([VStr(key), OptionalInt(count)]), TStruct(fs))
    ensures Calls(lib, resp3, fs, [VStr(key), OptionalInt(count)], "list.lpop")
         == Some(Request("LPOP", [SentText(resp3, key), GoInt(if count.Some? then IntBack(lib, count.value) else 0)]))
    ensures Calls(lib, resp3, fs, [VStr(key), OptionalInt(count)], "list.rpop")
         == Some(Request("RPOP", [SentText(resp3, key), GoInt(if count.Some? then IntBack(lib, count.value) else 0)]))
  {
    var vs: seq<GoVal> := [VStr(key), OptionalInt(count)];
    KeyCountNames();
    StructHasType(fs, KEY_COUNT, vs);
    NameAbsent(lib, resp3, fs, KEY_COUNT, vs, CLIENT_ID);
    TextReaches(lib, resp3, fs, KEY_COUNT, vs, 0, "key");
    OptionalReaches(lib, resp3, fs, KEY_COUNT, vs, 1, "count");
    PopRows(lib, MapOfStruct(lib, resp3, fs, vs), resp3);
  }

  lemma PopRows(lib: GoLib, m: Payload, resp3: bool)
    requires CLIENT_ID !in m
    ensures MapCommand(lib, "list.lpop", m, resp3)
         == Some(Request("LPOP", [FieldText(lib, m, "key"), FieldInt(lib, m, "count")]))
    ensures MapCommand(lib, "list.rpop", m, resp3)
         == Some(Request("RPOP", [FieldText(lib, m, "key"), FieldInt(lib, m, "count")]))
  {
    TwoArgs(lib, "list.lpop", m, resp3, "LPOP", Text("key"), Number("count"));
    TwoArgs(lib, "list.rpop", m, resp3, "RPOP", Text("key"), Number("count"));
  }

  /** A key and a range. */
  const KEY_RANGE: seq<Layout> :=
    [Layout("key", TString, false), Layout("start", TInt(W64), false), Layout("stop", TInt(W64), false)]

  lemma KeyRangeNames()
    ensures GoodNames(KEY_RANGE)
  {
    assert IsName("key") && IsName("start") && IsName("stop");
    assert forall i | 0 <= i < 3 :: |KEY_RANGE[i].name| == [3, 5, 4][i];
  }

  /** A range of a list: start before stop. */
  lemma RangeRequest(lib: GoLib, resp3: bool, fs: seq<Field>, key: string, start: int, stop: int)
    requires DeclaredAs(fs, KEY_RANGE) && InInt64(start) && InInt64(stop)
    ensures HasType(VStruct([VStr(key), VInt(start), VInt(stop)]), TStruct(fs))
    ensures Calls(lib, resp3, fs, [VStr(key), VInt(start), VInt(stop)], "list.range")
         == Some(Request("LRANGE", [SentText(resp3, key), GoInt(IntBack(lib, start)), GoInt(IntBack(lib, stop))]))
  {
    var vs: seq<GoVal> := [VStr(key), VInt(start), VInt(stop)];
    KeyRangeNames();
    StructHasType(fs, KEY_RANGE, vs);
    NameAbsent(lib, resp3, fs, KEY_RANGE, vs, CLIENT_ID);
    TextReaches(lib, resp3, fs, KEY_RANGE, vs, 0, "key");
    IntegerReaches(lib, resp3, fs, KEY_RANGE, vs, 1, "start");
    IntegerReaches(lib, resp3, fs, KEY_RANGE, vs, 2, "stop");
    RangeRows(lib, MapOfStruct(lib, resp3, fs, vs), resp3);
  }

  lemma RangeRows(lib: GoLib, m: Payload, resp3: bool)
    requires CLIENT_ID !in m
    ensures MapCommand(lib, "list.range", m, resp3)
         == Some(Request("LRANGE", [FieldText(lib, m, "key"), FieldInt(lib, m, "start"), FieldInt(lib, m, "stop")]))
  {
    ThreeArgs(lib, "list.range", m, resp3, "LRANGE", [Text("key"), Number("start"), Number("stop")],
              [FieldText(lib, m, "key"), FieldInt(lib, m, "start"), FieldInt(lib, m, "stop")]);
  }

  /** A key and members. */
  const KEY_MEMBERS: seq<Layout> := [Layout("key", TString, false), Layout("members", TSlice(TString), false)]

  lemma KeyMembersNames()
    ensures GoodNames(KEY_MEMBERS)
  {
    assert IsName("key") && IsName("members");
    assert forall i | 0 <= i < 2 :: |KEY_MEMBERS[i].name| == [3, 7][i];
  }

  /** Adding to and removing from a set. */
  lemma MembersRequests(lib: GoLib, resp3: bool, fs: seq<Field>, key: string, members: seq<string>)
    requires DeclaredAs(fs, KEY_MEMBERS)
    ensures HasType(VStruct([VStr(key), VSeq(GoStrings(members))]), TStruct(fs))
    ensures Calls(lib, resp3, fs, [VStr(key), VSeq(GoStrings(members))], "set.add")
         == Some(Request("SADD", [SentText(resp3, key)] + SentTexts(resp3, members)))
    ensures Calls(lib, resp3, fs, [VStr(key), VSeq(GoStrings(members))], "set.rem")
         == Some(Request("SREM", [SentText(resp3, key)] + SentTexts(resp3, members)))
  {
    var vs: seq<GoVal> := [VStr(key), VSeq(GoStrings(members))];
    KeyMembersNames();
    StringsHaveType(members);
    StructHasType(fs, KEY_MEMBERS, vs);
    NameAbsent(lib, resp3, fs, KEY_MEMBERS, vs, CLIENT_ID);
    TextReaches(lib, resp3, fs, KEY_MEMBERS, vs, 0, "key");
    ListReaches(lib, resp3, fs, KEY_MEMBERS, vs, 1, "members", members);
    AddRow(lib, MapOfStruct(lib, resp3, fs, vs), resp3);
    RemoveRow(lib, MapOfStruct(lib, resp3, fs, vs), resp3);
  }

  lemma AddRow(lib: GoLib, m: Payload, resp3: bool)
    requires CLIENT_ID !in m
    ensures MapCommand(lib, "set.add", m, resp3)
         == Some(Request("SADD", [FieldText(lib, m, "key")] + Each(lib, m, "members")))
  {
    TwoArgs(lib, "set.add", m, resp3, "SADD", Text("key"), All("members"));
  }

  lemma RemoveRow(lib: GoLib, m: Payload, resp3: bool)
    requires CLIENT_ID !in m
    ensures MapCommand(lib, "set.rem", m, resp3)
         == Some(Request("SREM", [FieldText(lib, m, "key")] + Each(lib, m, "members")))
  {
    TwoArgs(lib, "set.rem", m, resp3, "SREM", Text("key"), All("members"));
  }

  /** A key and a member. */
  const KEY_MEMBER: seq<Layout> := [Layout("key", TString, false), Layout("member", TString, false)]

  lemma KeyMemberNames()
    ensures GoodNames(KEY_MEMBER)
  {
    assert IsName("key") && IsName("member");
    assert forall i | 0 <= i < 2 :: |KEY_MEMBER[i].name| == [3, 6][i];
  }

  /** Asking for one member. */
  lemma MemberRequest(lib: GoLib, resp3: bool, fs: seq<Field>, key: string, member: string)
    requires DeclaredAs(fs, KEY_MEMBER)
    ensures HasType(VStruct([VStr(key), VStr(member)]), TStruct(fs))
    ensures Calls(lib, resp3, fs, [VStr(key), VStr(member)], "set.ismember")
         == Some(Request("SISMEMBER", [SentText(resp3, key), SentText(resp3, member)]))
  {
    var vs: seq<GoVal> := [VStr(key), VStr(member)];
    KeyMemberNames();
    StructHasType(fs, KEY_MEMBER, vs);
    NameAbsent(lib, resp3, fs, KEY_MEMBER, vs, CLIENT_ID);
    TextReaches(lib, resp3, fs, KEY_MEMBER, vs, 0, "key");
    TextReaches(lib, resp3, fs, KEY_MEMBER, vs, 1, "member");
    MemberRows(lib, MapOfStruct(lib, resp3, fs, vs), resp3);
  }

  lemma MemberRows(lib: GoLib, m: Payload, resp3: bool)
    requires CLIENT_ID !in m
    ensures MapCommand(lib, "set.ismember", m, resp3)
         == Some(Request("SISMEMBER", [FieldText(lib, m, "key"), FieldText(lib, m, "member")]))
  {
    TwoArgs(lib, "set.ismember", m, resp3, "SISMEMBER", Text("key"), Text("member"));
  }

  // ---------------------------------------------------------------- queues

  /** A queue. */
  const QUEUE: seq<Layout> := [Layout("queue", TString, false)]

  lemma QueueNames()
    ensures GoodNames(QUEUE)
  {
    assert IsName("queue");
  }

  /** Calls on a whole queue. */
  lemma QueueRequests(lib: GoLib, resp3: bool, fs: seq<Field>, queue: string)
    requires DeclaredAs(fs, QUEUE)
    ensures HasType(VStruct([VStr(queue)]), TStruct(fs))
    ensures Calls(lib, resp3, fs, [VStr(queue)], "queue.delete")
         == Some(Request("QDELETE", [SentText(resp3, queue)]))
    ensures Calls(lib, resp3, fs, [VStr(queue)], "queue.stats")
         == Some(Request("QSTATS", [SentText(resp3, queue)]))
  {
    var vs: seq<GoVal> := [VStr(queue)];
    QueueNames();
    StructHasType(fs, QUEUE, vs);
    NameAbsent(lib, resp3, fs, QUEUE, vs, CLIENT_ID);
    TextReaches(lib, resp3, fs, QUEUE, vs, 0, "queue");
    QueueRows(lib, MapOfStruct(lib, resp3, fs, vs), resp3);
  }

  lemma QueueRows(lib: GoLib, m: Payload, resp3: bool)
    requires CLIENT_ID !in m
    ensures MapCommand(lib, "queue.delete", m, resp3)
         == Some(Request("QDELETE", [FieldText(lib, m, "queue")]))
    ensures MapCommand(lib, "queue.stats", m, resp3)
         == Some(Request("QSTATS", [FieldText(lib, m, "queue")]))
  {
    OneArg(lib, "queue.delete", m, resp3, "QDELETE", Text("queue"));
    OneArg(lib, "queue.stats", m, resp3, "QSTATS", Text("queue"));
  }

  /** A queue and a consumer. */
  const QUEUE_CONSUMER: seq<Layout> := [Layout("queue", TString, false), Layout("consumer_id", TString, false)]

  lemma QueueConsumerNames()
    ensures GoodNames(QUEUE_CONSUMER)
  {
    assert IsName("queue") && IsName("consumer_id");
    assert forall i | 0 <= i < 2 :: |QUEUE_CONSUMER[i].name| == [5, 11][i];
  }

  /** Consuming: the queue before the consumer. */
  lemma QueueConsumeRequest(lib: GoLib, resp3: bool, fs: seq<Field>, queue: string, consumerId: string)
    requires DeclaredAs(fs, QUEUE_CONSUMER)
    ensures HasType(VStruct([VStr(queue), VStr(consumerId)]), TStruct(fs))
    ensures Calls(lib, resp3, fs, [VStr(queue), VStr(consumerId)], "queue.consume")
         == Some(Request("QCONSUME", [SentText(resp3, queue), SentText(resp3, consumerId)]))
  {
    var vs: seq<GoVal> := [VStr(queue), VStr(consumerId)];
    QueueConsumerNames();
    StructHasType(fs, QUEUE_CONSUMER, vs);
    NameAbsent(lib, resp3, fs, QUEUE_CONSUMER, vs, CLIENT_ID);
    TextReaches(lib, resp3, fs, QUEUE_CONSUMER, vs, 0, "queue");
    TextReaches(lib, resp3, fs, QUEUE_CONSUMER, vs, 1, "consumer_id");
    QueueConsumeRows(lib, MapOfStruct(lib, resp3, fs, vs), resp3);
  }

  lemma QueueConsumeRows(lib: GoLib, m: Payload, resp3: bool)
    requires CLIENT_ID !in m
    ensures MapCommand(lib, "queue.consume", m, resp3)
         == Some(Request("QCONSUME", [FieldText(lib, m, "queue"), FieldText(lib, m, "consumer_id")]))
  {
    TwoArgs(lib, "queue.consume", m, resp3, "QCONSUME", Text("queue"), Text("consumer_id"));
  }

  /** A queue and a message. */
  const QUEUE_MESSAGE: seq<Layout> := [Layout("queue", TString, false), Layout("message_id", TString, false)]

  lemma QueueMessageNames()
    ensures GoodNames(QUEUE_MESSAGE)
  {
    assert IsName("queue") && IsName("message_id");
    assert forall i | 0 <= i < 2 :: |QUEUE_MESSAGE[i].name| == [5, 10][i];
  }

  /** Settling a message: the queue before the message. */
  lemma QueueMessageRequests(lib: GoLib, resp3: bool, fs: seq<Field>, queue: string, messageId: string)
    requires DeclaredAs(fs, QUEUE_MESSAGE)
    ensures HasType(VStruct([VStr(queue), VStr(messageId)]), TStruct(fs))
    ensures Calls(lib, resp3, fs, [VStr(queue), VStr(messageId)], "queue.ack")
         == Some(Request("QACK", [SentText(resp3, queue), SentText(resp3, messageId)]))
    ensures Calls(lib, resp3, fs, [VStr(queue), VStr(messageId)], "queue.nack")
         == Some(Request("QNACK", [SentText(resp3, queue), SentText(resp3, messageId)]))
  {
    var vs: seq<GoVal> := [VStr(queue), VStr(messageId)];
    QueueMessageNames();
    StructHasType(fs, QUEUE_MESSAGE, vs);
    NameAbsent(lib, resp3, fs, QUEUE_MESSAGE, vs, CLIENT_ID);
    TextReaches(lib, resp3, fs, QUEUE_MESSAGE, vs, 0, "queue");
    TextReaches(lib, resp3, fs, QUEUE_MESSAGE, vs, 1, "message_id");
    QueueMessageRows(lib, MapOfStruct(lib, resp3, fs, vs), resp3);
  }

  lemma QueueMessageRows(lib: GoLib, m: Payload, resp3: bool)
    requires CLIENT_ID !in m
    ensures MapCommand(lib, "queue.ack", m, resp3)
         == Some(Request("QACK", [FieldText(lib, m, "queue"), FieldText(lib, m, "message_id")]))
    ensures MapCommand(lib, "queue.nack", m, resp3)
         == Some(Request("QNACK", [FieldText(lib, m, "queue"), FieldText(lib, m, "message_id")]))
  {
    TwoArgs(lib, "queue.ack", m, resp3, "QACK", Text("queue"), Text("message_id"));
    TwoArgs(lib, "queue.nack", m, resp3, "QNACK", Text("queue"), Text("message_id"));
  }

  /** A queue to create, with a configuration of some type, which the native transports do not send. */
  function NameConfig(config: GoType): seq<Layout> {
    [Layout("name", TString, false), Layout("config", TPtr(config), true)]
  }

  lemma NameConfigNames(ty: GoType)
    ensures GoodNames(NameConfig(ty))
  {
    assert IsName("name") && IsName("config");
    assert forall i | 0 <= i < 2 :: |NameConfig(ty)[i].name| == [4, 6][i];
  }

  /** Creating a queue: its name, whatever the configuration. */
  lemma QueueCreateRequest(lib: GoLib, resp3: bool, fs: seq<Field>, ty: GoType, name: string,
      config: GoVal)
    requires DeclaredAs(fs, NameConfig(ty)) && HasType(config, TPtr(ty))
    ensures HasType(VStruct([VStr(name), config]), TStruct(fs))
    ensures Calls(lib, resp3, fs, [VStr(name), config], "queue.create")
         == Some(Request("QCREATE", [SentText(resp3, name)]))
  {
    var vs: seq<GoVal> := [VStr(name), config];
    NameConfigNames(ty);
    StructHasType(fs, NameConfig(ty), vs);
    NameAbsent(lib, resp3, fs, NameConfig(ty), vs, CLIENT_ID);
    TextReaches(lib, resp3, fs, NameConfig(ty), vs, 0, "name");
    QueueCreateRows(lib, MapOfStruct(lib, resp3, fs, vs), resp3);
  }

  lemma QueueCreateRows(lib: GoLib, m: Payload, resp3: bool)
    requires CLIENT_ID !in m
    ensures MapCommand(lib, "queue.create", m, resp3)
         == Some(Request("QCREATE", [FieldText(lib, m, "name")]))
  {
    OneArg(lib, "queue.create", m, resp3, "QCREATE", Text("name"));
  }

  // ---------------------------------------------------------------- streams

  /** A room. */
  const ROOM: seq<Layout> := [Layout("room", TString, false)]

  lemma RoomNames()
    ensures GoodNames(ROOM)
  {
    assert IsName("room");
  }

  /** Calls on a whole room. */
  lemma RoomRequests(lib: GoLib, resp3: bool, fs: seq<Field>, room: string)
    requires DeclaredAs(fs, ROOM)
    ensures HasType(VStruct([VStr(room)]), TStruct(fs))
    ensures Calls(lib, resp3, fs, [VStr(room)], "stream.stats")
         == Some(Request("SSTATS", [SentText(resp3, room)]))
    ensures Calls(lib, resp3, fs, [VStr(room)], "stream.delete")
         == Some(Request("SDELETE", [SentText(resp3, room)]))
  {
    var vs: seq<GoVal> := [VStr(room)];
    RoomNames();
    StructHasType(fs, ROOM, vs);
    NameAbsent(lib, resp3, fs, ROOM, vs, CLIENT_ID);
    TextReaches(lib, resp3, fs, ROOM, vs, 0, "room");
    RoomRows(lib, MapOfStruct(lib, resp3, fs, vs), resp3);
  }

  lemma RoomRows(lib: GoLib, m: Payload, resp3: bool)
    requires CLIENT_ID !in m
    ensures MapCommand(lib, "stream.stats", m, resp3)
         == Some(Request("SSTATS", [FieldText(lib, m, "room")]))
    ensures MapCommand(lib, "stream.delete", m, resp3)
         == Some(Request("SDELETE", [FieldText(lib, m, "room")]))
  {
    OneArg(lib, "stream.stats", m, resp3, "SSTATS", Text("room"));
    OneArg(lib, "stream.delete", m, resp3, "SDELETE", Text("room"));
  }

  /** A room to create. */
  const ROOM_MAX: seq<Layout> := [Layout("room", TString, false), Layout("max_events", TPtr(TInt(W64)), true)]

  lemma RoomMaxNames()
    ensures GoodNames(ROOM_MAX)
  {
    assert IsName("room") && IsName("max_events");
    assert forall i | 0 <= i < 2 :: |ROOM_MAX[i].name| == [4, 10][i];
  }

  /** Creating a room: its name, whatever the limit. */
  lemma RoomCreateRequests(lib: GoLib, resp3: bool, fs: seq<Field>, room: string, maxEvents: Option<int>)
    requires DeclaredAs(fs, ROOM_MAX) && (maxEvents.Some? ==> InInt64(maxEvents.value))
    ensures HasType(VStruct([VStr(room), OptionalInt(maxEvents)]), TStruct(fs))
    ensures Calls(lib, resp3, fs, [VStr(room), OptionalInt(maxEvents)], "stream.create")
         == Some(Request("SCREATE", [SentText(resp3, room)]))
    ensures Calls(lib, resp3, fs, [VStr(room), OptionalInt(maxEvents)], "stream.get_or_create")
         == Some(Request("SGETORCREATE", [SentText(resp3, room)]))
  {
    var vs: seq<GoVal> := [VStr(room), OptionalInt(maxEvents)];
    RoomMaxNames();
    StructHasType(fs, ROOM_MAX, vs);
    NameAbsent(lib, resp3, fs, ROOM_MAX, vs, CLIENT_ID);
    TextReaches(lib, resp3, fs, ROOM_MAX, vs, 0, "room");
    RoomCreateRows(lib, MapOfStruct(lib, resp3, fs, vs), resp3);
  }

  lemma RoomCreateRows(lib: GoLib, m: Payload, resp3: bool)
    requires CLIENT_ID !in m
    ensures MapCommand(lib, "stream.create", m, resp3)
         == Some(Request("SCREATE", [FieldText(lib, m, "room")]))
    ensures MapCommand(lib, "stream.get_or_create", m, resp3)
         == Some(Request("SGETORCREATE", [FieldText(lib, m, "room")]))
  {
    OneArg(lib, "stream.create", m, resp3, "SCREATE", Text("room"));
    OneArg(lib, "stream.get_or_create", m, resp3, "SGETORCREATE", Text("room"));
  }

  /** An event. */
  const ROOM_EVENT: seq<Layout> :=
    [Layout("room", TString, false), Layout("event", TString, false), Layout("data", TAny, false)]

  lemma RoomEventNames()
    ensures GoodNames(ROOM_EVENT)
  {
    assert IsName("room") && IsName("event") && IsName("data");
    assert ROOM_EVENT[0].name[0] == 'r' && ROOM_EVENT[1].name[0] == 'e' && ROOM_EVENT[2].name[0] == 'd';
  }

  /** Publishing an event: room, type, and the data as printed. */
  lemma StreamPublishRequest(lib: GoLib, resp3: bool, fs: seq<Field>, room: string, event: string, data: GoVal)
    requires DeclaredAs(fs, ROOM_EVENT) && HasType(data, TAny)
    ensures HasType(VStruct([VStr(room), VStr(event), data]), TStruct(fs))
    ensures Calls(lib, resp3, fs, [VStr(room), VStr(event), data], "stream.publish")
         == Some(Request("SPUBLISH", [SentText(resp3, room), SentText(resp3, event),
                                     Str(Render(lib, Arrives(lib, resp3, data, TAny)))]))
  {
    var vs: seq<GoVal> := [VStr(room), VStr(event), data];
    RoomEventNames();
    StructHasType(fs, ROOM_EVENT, vs);
    NameAbsent(lib, resp3, fs, ROOM_EVENT, vs, CLIENT_ID);
    TextReaches(lib, resp3, fs, ROOM_EVENT, vs, 0, "room");
    TextReaches(lib, resp3, fs, ROOM_EVENT, vs, 1, "event");
    AnyReaches(lib, resp3, fs, ROOM_EVENT, vs, 2, "data");
    StreamPublishRows(lib, MapOfStruct(lib, resp3, fs, vs), resp3);
  }

  lemma StreamPublishRows(lib: GoLib, m: Payload, resp3: bool)
    requires CLIENT_ID !in m
    ensures MapCommand(lib, "stream.publish", m, resp3)
         == Some(Request("SPUBLISH", [FieldText(lib, m, "room"), FieldText(lib, m, "event"),
                                     FieldText(lib, m, "data")]))
  {
    ThreeArgs(lib, "stream.publish", m, resp3, "SPUBLISH", [Text("room"), Text("event"), Text("data")],
              [FieldText(lib, m, "room"), FieldText(lib, m, "event"), FieldText(lib, m, "data")]);
  }

  // ---------------------------------------------------------------- topics

  /** A message for a topic. */
  const TOPIC_PAYLOAD: seq<Layout> :=
    [Layout("topic", TString, false), Layout("payload", TAny, false), Layout("priority", TUint(W8), false)]

  lemma TopicPayloadNames()
    ensures GoodNames(TOPIC_PAYLOAD)
  {
    assert IsName("topic") && IsName("payload") && IsName("priority");
    assert forall i | 0 <= i < 3 :: |TOPIC_PAYLOAD[i].name| == [5, 7, 8][i];
  }

  /** Publishing on a topic: the topic, then the data as printed. */
  lemma TopicPublishRequest(lib: GoLib, resp3: bool, fs: seq<Field>, topic: string, payload: GoVal, priority: nat)
    requires DeclaredAs(fs, TOPIC_PAYLOAD) && HasType(payload, TAny) && priority < 0x100
    ensures HasType(VStruct([VStr(topic), payload, VInt(priority)]), TStruct(fs))
    ensures Calls(lib, resp3, fs, [VStr(topic), payload, VInt(priority)], "pubsub.publish")
         == Some(Request("PUBLISH", [SentText(resp3, topic), Str(Render(lib, Arrives(lib, resp3, payload, TAny)))]))
  {
    var vs: seq<GoVal> := [VStr(topic), payload, VInt(priority)];
    TopicPayloadNames();
    StructHasType(fs, TOPIC_PAYLOAD, vs);
    NameAbsent(lib, resp3, fs, TOPIC_PAYLOAD, vs, CLIENT_ID);
    TextReaches(lib, resp3, fs, TOPIC_PAYLOAD, vs, 0, "topic");
    AnyReaches(lib, resp3, fs, TOPIC_PAYLOAD, vs, 1, "payload");
    TopicPublishRows(lib, MapOfStruct(lib, resp3, fs, vs), resp3);
  }

  lemma TopicPublishRows(lib: GoLib, m: Payload, resp3: bool)
    requires CLIENT_ID !in m
    ensures MapCommand(lib, "pubsub.publish", m, resp3)
         == Some(Request("PUBLISH", [FieldText(lib, m, "topic"), FieldText(lib, m, "payload")]))
  {
    TwoArgs(lib, "pubsub.publish", m, resp3, "PUBLISH", Text("topic"), Text("payload"));
  }

  /** A subscriber and topics. */
  const SUBSCRIBER_TOPICS: seq<Layout> :=
    [Layout("subscriber_id", TString, false), Layout("topics", TSlice(TString), false)]

  lemma SubscriberTopicsNames()
    ensures GoodNames(SUBSCRIBER_TOPICS)
  {
    assert IsName("subscriber_id") && IsName("topics");
    assert forall i | 0 <= i < 2 :: |SUBSCRIBER_TOPICS[i].name| == [13, 6][i];
  }

  /** Subscribing sends the topics alone, unsubscribing the subscriber first. */
  lemma SubscribeRequests(lib: GoLib, resp3: bool, fs: seq<Field>, subscriberId: string, topics: seq<string>)
    requires DeclaredAs(fs, SUBSCRIBER_TOPICS)
    ensures HasType(VStruct([VStr(subscriberId), VSeq(GoStrings(topics))]), TStruct(fs))
    ensures Calls(lib, resp3, fs, [VStr(subscriberId), VSeq(GoStrings(topics))], "pubsub.subscribe")
         == Some(Request("SUBSCRIBE", SentTexts(resp3, topics)))
    ensures Calls(lib, resp3, fs, [VStr(subscriberId), VSeq(GoStrings(topics))], "pubsub.unsubscribe")
         == Some(Request("UNSUBSCRIBE", [SentText(resp3, subscriberId)] + SentTexts(resp3, topics)))
  {
    var vs: seq<GoVal> := [VStr(subscriberId), VSeq(GoStrings(topics))];
    SubscriberTopicsNames();
    StringsHaveType(topics);
    StructHasType(fs, SUBSCRIBER_TOPICS, vs);
    NameAbsent(lib, resp3, fs, SUBSCRIBER_TOPICS, vs, CLIENT_ID);
    TextReaches(lib, resp3, fs, SUBSCRIBER_TOPICS, vs, 0, "subscriber_id");
    ListReaches(lib, resp3, fs, SUBSCRIBER_TOPICS, vs, 1, "topics", topics);
    SubscribeRows(lib, MapOfStruct(lib, resp3, fs, vs), resp3);
  }

  lemma SubscribeRows(lib: GoLib, m: Payload, resp3: bool)
    requires CLIENT_ID !in m
    ensures MapCommand(lib, "pubsub.subscribe", m, resp3)
         == Some(Request("SUBSCRIBE", Each(lib, m, "topics")))
    ensures MapCommand(lib, "pubsub.unsubscribe", m, resp3)
         == Some(Request("UNSUBSCRIBE", [FieldText(lib, m, "subscriber_id")] + Each(lib, m, "topics")))
  {
    OneArg(lib, "pubsub.subscribe", m, resp3, "SUBSCRIBE", All("topics"));
    TwoArgs(lib, "pubsub.unsubscribe", m, resp3, "UNSUBSCRIBE", Text("subscriber_id"), All("topics"));
  }

  // ---------------------------------------------------------------- the others

  /** A key, a field, and the fields to delete. */
  const KEY_FIELDS: seq<Layout> :=
    [Layout("key", TString, false), Layout("field", TString, false), Layout("fields", TSlice(TString), false)]

  lemma KeyFieldsNames()
    ensures GoodNames(KEY_FIELDS)
  {
    assert IsName("key") && IsName("field") && IsName("fields");
    assert forall i | 0 <= i < 3 :: |KEY_FIELDS[i].name| == [3, 5, 6][i];
  }

  /** Deleting from a hash: the listed fields, or the single one when none are listed. */
  lemma HashDelRequest(lib: GoLib, resp3: bool, fs: seq<Field>, key: string, field: string, fields: seq<string>)
    requires DeclaredAs(fs, KEY_FIELDS)
    ensures HasType(VStruct([VStr(key), VStr(field), VSeq(GoStrings(fields))]), TStruct(fs))
    ensures Calls(lib, resp3, fs, [VStr(key), VStr(field), VSeq(GoStrings(fields))], "hash.del")
         == Some(Request("HDEL", [SentText(resp3, key)]
              + if fields == [] then [SentText(resp3, field)] else SentTexts(resp3, fields)))
  {
    var vs: seq<GoVal> := [VStr(key), VStr(field), VSeq(GoStrings(fields))];
    KeyFieldsNames();
    StringsHaveType(fields);
    StructHasType(fs, KEY_FIELDS, vs);
    NameAbsent(lib, resp3, fs, KEY_FIELDS, vs, CLIENT_ID);
    TextReaches(lib, resp3, fs, KEY_FIELDS, vs, 0, "key");
    TextReaches(lib, resp3, fs, KEY_FIELDS, vs, 1, "field");
    ListReaches(lib, resp3, fs, KEY_FIELDS, vs, 2, "fields", fields);
    HashDelRow(lib, MapOfStruct(lib, resp3, fs, vs), resp3);
    assert |SentTexts(resp3, fields)| == |fields|;
  }

  lemma HashDelRow(lib: GoLib, m: Payload, resp3: bool)
    requires CLIENT_ID !in m
    ensures MapCommand(lib, "hash.del", m, resp3)
         == Some(Request("HDEL", [FieldText(lib, m, "key")]
              + if Each(lib, m, "fields") == [] then [FieldText(lib, m, "field")] else Each(lib, m, "fields")))
  {
    TwoArgs(lib, "hash.del", m, resp3, "HDEL", Text("key"), HashFields);
  }

  /** Calls without a payload. The topics are asked for in each transport's own words, and the statistics of
      the key-value store are not to be had on either. */
  lemma BareRequests(lib: GoLib, resp3: bool)
    ensures HasType(VStruct([]), TStruct([]))
    ensures Calls(lib, resp3, [], [], "queue.list") == Some(Request("QLIST", []))
    ensures Calls(lib, resp3, [], [], "stream.list") == Some(Request("SLIST", []))
    ensures Calls(lib, resp3, [], [], "pubsub.topics")
         == Some(if resp3 then Request("PUBSUB", [Str("CHANNELS")]) else Request("TOPICS", []))
    ensures Calls(lib, resp3, [], [], "kv.stats") == None
  {
    assert MapOfStruct(lib, resp3, [], []) == map[];
    BareRows(lib, resp3, map[]);
  }

  lemma BareRows(lib: GoLib, resp3: bool, m: Payload)
    requires CLIENT_ID !in m
    ensures MapCommand(lib, "queue.list", m, resp3) == Some(Request("QLIST", []))
    ensures MapCommand(lib, "stream.list", m, resp3) == Some(Request("SLIST", []))
    ensures MapCommand(lib, "pubsub.topics", m, resp3)
         == Some(if resp3 then Request("PUBSUB", [Str("CHANNELS")]) else Request("TOPICS", []))
    ensures MapCommand(lib, "kv.stats", m, resp3) == None
  {
    NoArgs(lib, "queue.list", m, resp3, "QLIST");
    NoArgs(lib, "stream.list", m, resp3, "SLIST");
    if resp3 {
      OneArg(lib, "pubsub.topics", m, resp3, "PUBSUB", Literal("CHANNELS"));
    } else {
      NoArgs(lib, "pubsub.topics", m, resp3, "TOPICS");
    }
  }

  /** Commands of the mapping that no module issues, by the payload map they are given. */
  lemma UtilityRequests(lib: GoLib, resp3: bool, m: Payload)
    requires CLIENT_ID !in m
    ensures MapCommand(lib, "kv.persist", m, resp3) == Some(Request("PERSIST", [FieldText(lib, m, "key")]))
    ensures MapCommand(lib, "kv.scan", m, resp3) == Some(Request("KEYS", [Str(GetStr(lib, m, "prefix") + "*")]))
    ensures MapCommand(lib, "kv.mdel", m, resp3) == Some(Request("DEL", Each(lib, m, "keys")))
    ensures MapCommand(lib, "kv.mget", m, resp3) == Some(Request("MGET", Each(lib, m, "keys")))
  {
    OneArg(lib, "kv.persist", m, resp3, "PERSIST", Text("key"));
    OneArg(lib, "kv.scan", m, resp3, "KEYS", Pattern);
    OneArg(lib, "kv.mdel", m, resp3, "DEL", All("keys"));
    OneArg(lib, "kv.mget", m, resp3, "MGET", All("keys"));
  }

  lemma DatabaseRequests(lib: GoLib, resp3: bool, m: Payload)
    requires CLIENT_ID !in m
    ensures MapCommand(lib, "kv.dbsize", m, resp3) == Some(Request("DBSIZE", []))
    ensures MapCommand(lib, "kv.flushdb", m, resp3) == Some(Request("FLUSHDB", []))
    ensures MapCommand(lib, "kv.flushall", m, resp3) == Some(Request("FLUSHALL", []))
  {
    NoArgs(lib, "kv.dbsize", m, resp3, "DBSIZE");
    NoArgs(lib, "kv.flushdb", m, resp3, "FLUSHDB");
    NoArgs(lib, "kv.flushall", m, resp3, "FLUSHALL");
  }

  /** Counting by an amount: integers go as they are, anything else as its JSON or, failing that, printed. */
  lemma AmountRequests(lib: GoLib, resp3: bool, m: Payload)
    requires CLIENT_ID !in m && "amount" in m && m["amount"] != Nil
    ensures var v := m["amount"];
      var amount := if v.GoInt? || v.Int64? then Int64(v.n)
                    else if lib.marshal(v).Some? then Str(lib.marshal(v).value)
                    else Str(Render(lib, v));
      && MapCommand(lib, "kv.incr", m, resp3) == Some(Request("INCRBY", [FieldText(lib, m, "key"), amount]))
      && MapCommand(lib, "kv.decr", m, resp3) == Some(Request("DECRBY", [FieldText(lib, m, "key"), amount]))
  {
    TwoArgs(lib, "kv.incr", m, resp3, "INCRBY", Text("key"), Amount);
    TwoArgs(lib, "kv.decr", m, resp3, "DECRBY", Text("key"), Amount);
  }

  /** Setting many keys: each pair's key before its value, in order. */
  lemma ManyRequest(lib: GoLib, resp3: bool, m: Payload, keys: seq<Value>, values: seq<Value>)
    requires CLIENT_ID !in m && |values| == |keys|
    requires "pairs" in m && m["pairs"] == Arr(PairMaps(keys, values))
    ensures var r := MapCommand(lib, "kv.mset", m, resp3);
      && r.Some? && r.value.cmd == "MSET" && |r.value.args| == 2 * |keys|
      && forall i | 0 <= i < |keys| ::
           r.value.args[2 * i] == Str(Render(lib, keys[i])) && r.value.args[2 * i + 1] == Str(Render(lib, values[i]))
  {
    PairsRow(lib, resp3, m);
    PairsCount(lib, keys, values);
    var args := PairArgs(lib, PairMaps(keys, values));
    forall i | 0 <= i < |keys|
      ensures args[2 * i] == Str(Render(lib, keys[i])) && args[2 * i + 1] == Str(Render(lib, values[i]))
    {
      PairInOrder(lib, keys, values, i);
    }
  }

  lemma PairsRow(lib: GoLib, resp3: bool, m: Payload)
    requires CLIENT_ID !in m && "pairs" in m && m["pairs"].Arr?
    ensures MapCommand(lib, "kv.mset", m, resp3) == Some(Request("MSET", PairArgs(lib, m["pairs"].items)))
  {
    OneArg(lib, "kv.mset", m, resp3, "MSET", Pairs);
  }

  function PairMaps(keys: seq<Value>, values: seq<Value>): seq<Value>
    requires |values| == |keys|
  {
    seq(|keys|, i requires 0 <= i < |keys| => Map(map["key" := keys[i], "value" := values[i]]))
  }

  lemma {:induction false} PairsCount(lib: GoLib, keys: seq<Value>, values: seq<Value>)
    requires |values| == |keys|
    ensures |PairArgs(lib, PairMaps(keys, values))| == 2 * |keys|
  {
    if keys != [] {
      PairsCount(lib, keys[..|keys| - 1], values[..|keys| - 1]);
      PairStep(lib, keys, values);
    }
  }

  lemma {:induction false} PairInOrder(lib: GoLib, keys: seq<Value>, values: seq<Value>, i: nat)
    requires |values| == |keys| && i < |keys|
    ensures var args := PairArgs(lib, PairMaps(keys, values));
      && |args| == 2 * |keys|
      && args[2 * i] == Str(Render(lib, keys[i])) && args[2 * i + 1] == Str(Render(lib, values[i]))
  {
    var n := |keys| - 1;
    PairStep(lib, keys, values);
    PairsCount(lib, keys[..n], values[..n]);
    if i < n {
      PairInOrder(lib, keys[..n], values[..n], i);
    }
  }

  lemma PairStep(lib: GoLib, keys: seq<Value>, values: seq<Value>)
    requires |values| == |keys| > 0
    ensures var n := |keys| - 1;
      PairArgs(lib, PairMaps(keys, values))
        == PairArgs(lib, PairMaps(keys[..n], values[..n])) + [Str(Render(lib, keys[n])), Str(Render(lib, values[n]))]
  {
    var n := |keys| - 1;
    assert PairMaps(keys, values)[..n] == PairMaps(keys[..n], values[..n]);
    assert "key" != "value";
  }

  // ---------------------------------------------------------------- no other command

  const DATA: set<string> := {
    "kv.set", "kv.get", "kv.del", "kv.exists", "kv.incr", "kv.decr", "hash.set", "hash.get", "hash.getall", "hash.del",
    "hash.exists"
  }
  const COLLECTIONS: set<string> := {
    "list.lpush", "list.rpush", "list.lpop", "list.rpop", "list.range", "list.len", "set.add", "set.members",
    "set.ismember", "set.rem", "set.card"
  }
  const MESSAGING: set<string> := {
    "queue.create", "queue.delete", "queue.publish", "queue.consume", "queue.ack", "queue.nack", "queue.list",
    "queue.stats", "stream.create", "stream.get_or_create", "stream.publish", "stream.consume", "stream.list",
    "stream.stats", "stream.delete"
  }
  const OTHERS: set<string> := {
    "transaction.multi", "transaction.exec", "transaction.discard", "transaction.watch", "transaction.unwatch",
    "pubsub.publish", "pubsub.subscribe", "pubsub.unsubscribe", "pubsub.topics", "kv.dbsize", "kv.flushdb",
    "kv.flushall", "kv.persist", "kv.scan", "kv.mdel", "kv.mset", "kv.mget"
  }

  lemma ControlRowsIff(command: string, resp3: bool)
    ensures ControlRow(command, resp3).Some? <==> command in OTHERS
  {
  }

  lemma MessagingRowsIff(command: string, resp3: bool)
    ensures MessagingRow(command, resp3).Some? <==> command in MESSAGING || ControlRow(command, resp3).Some?
  {
  }

  lemma CollectionRowsIff(command: string, resp3: bool)
    ensures CollectionRow(command, resp3).Some? <==> command in COLLECTIONS || MessagingRow(command, resp3).Some?
  {
  }

  lemma DataRowsIff(command: string, m: Payload, resp3: bool)
    ensures DataRow(command, m, resp3).Some? <==> command in DATA || CollectionRow(command, resp3).Some?
  {
  }

  /** Outside a transaction exactly these commands are supported, on both native transports alike. */
  lemma SupportedIff(lib: GoLib, command: string, m: Payload, resp3: bool)
    requires CLIENT_ID !in m
    ensures MapCommand(lib, command, m, resp3).Some?
       <==> command in DATA || command in COLLECTIONS || command in MESSAGING || command in OTHERS
  {
    DataRowsIff(command, m, resp3);
    CollectionRowsIff(command, resp3);
    MessagingRowsIff(command, resp3);
    ControlRowsIff(command, resp3);
  }
}
