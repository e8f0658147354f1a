/** Transaction scopes over the native transports: scoped copies of a client, the frames they emit,
    and what a server that queues per transaction id makes of any interleaving of them. */
module Transactions {
  import opened GoValues
  import opened RespCodec
  import opened RespFrames
  import opened GoTypes
  import opened PayloadEncode
  import opened Utf8
  import opened JsonTrip
  import opened CommandMap
  import opened PayloadFields

  datatype Verb = Multi | Exec | Discard | Unwatch | Watch(keys: seq<string>)

  function CommandOf(v: Verb): string {
    match v
    case Multi => "transaction.multi"
    case Exec => "transaction.exec"
    case Discard => "transaction.discard"
    case Unwatch => "transaction.unwatch"
    case Watch(_) => "transaction.watch"
  }

  const KEYS := "keys"

  function ExtraOf(v: Verb): map<string, GoVal> {
    if v.Watch? then map[KEYS := KeysOf(v.keys)] else map[]
  }

  function IdOf(id: string): (entry: GoVal)
    ensures HasType(entry, TAny)
  {
    VIface(TString, VStr(id))
  }

  function KeysOf(keys: seq<string>): (entry: GoVal)
    ensures HasType(entry, TAny)
  {
    StringsHaveType(keys);
    VIface(TSlice(TString), VSeq(GoStrings(keys)))
  }

  /** The payload of `control`, a `map[string]interface{}`. */
  function ControlPayload(id: string, v: Verb): (p: GoVal)
    ensures HasType(p, TMap(TAny))
  {
    VMap(map[CLIENT_ID := IdOf(id)] + ExtraOf(v))
  }

  /** What `sendRPC` and `sendRESP3` put on the wire for a client whose `txClientID` is id, once the payload
      map has been made. */
  function Sent(lib: GoLib, resp3: bool, id: string, command: string, payload: Payload): Option<Request> {
    MapCommand(lib, command, if id != "" then payload[CLIENT_ID := Str(id)] else payload, resp3)
  }

  /** What `control` puts on the wire; a watch without keys is refused. */
  function Controlled(lib: GoLib, resp3: bool, id: string, v: Verb): Option<Request> {
    if v == Watch([]) then None
    else Sent(lib, resp3, id, CommandOf(v), Reaches(lib, resp3, ControlPayload(id, v), TMap(TAny)))
  }

  function Listed(r: Option<Request>): seq<Request> {
    if r.Some? then [r.value] else []
  }

  // ---------------------------------------------------------------- the clients

  /** The connection a client and all its scopes share. */
  class Channel {
    var sent: seq<Request>
  }

  class SynapClient {
    const channel: Channel
    const resp3: bool
    var txClientID: string

    constructor (channel: Channel, resp3: bool)
      ensures this.channel == channel && this.resp3 == resp3 && txClientID == ""
    {
      this.channel, this.resp3, txClientID := channel, resp3, "";
    }

    /** `sendCommand` on a native transport, up to the frame: the payload map is made by reflection or by
        JSON, and the id goes in afterwards. */
    method SendCommand(lib: GoLib, command: string, payload: GoVal, ty: GoType) returns (r: Option<Request>)
      requires HasType(payload, ty)
      modifies channel
      ensures r == Sent(lib, resp3, txClientID, command, Reaches(lib, resp3, payload, ty))
      ensures channel.sent == old(channel.sent) + Listed(r)
    {
      var payloadMap: Payload := map[];
      if resp3 {
        var t := JsonTree(lib, payload, ty);
        if t.Map? {
          payloadMap := t.entries;
        }
      } else {
        payloadMap := PayloadToMap(payload, ty);
      }
      if txClientID != "" {
        payloadMap := payloadMap[CLIENT_ID := Str(txClientID)];
      }
      r := MapCommandToWire(lib, command, payloadMap, resp3);
      if r.Some? {
        channel.sent := channel.sent + [r.value];
      } else {
        assert channel.sent + [] == channel.sent;
      }
    }

    /** `scope`: the new client shares the connection and nothing else; this one is untouched. */
    method Scope(clientID: string) returns (tx: Tx)
      ensures fresh(tx) && fresh(tx.client)
      ensures tx.clientID == clientID && tx.client.txClientID == clientID
      ensures tx.client.channel == channel && tx.client.resp3 == resp3
    {
      var scoped := new SynapClient(channel, resp3);
      scoped.txClientID := clientID;
      tx := new Tx(scoped, clientID);
    }
  }

  class Tx {
    const client: SynapClient
    const clientID: string

    constructor (client: SynapClient, clientID: string)
      ensures this.client == client && this.clientID == clientID
    {
      this.client, this.clientID := client, clientID;
    }

    /** `control`, and `Watch`'s check that there is something to watch. */
    method Control(lib: GoLib, v: Verb) returns (r: Option<Request>)
      requires client.txClientID == clientID
      modifies client.channel
      ensures r == Controlled(lib, client.resp3, clientID, v)
      ensures client.channel.sent == old(client.channel.sent) + Listed(r)
    {
      if v == Watch([]) {
        assert client.channel.sent + [] == client.channel.sent;
        return None;
      }
      var payload := WithExtra(map[CLIENT_ID := IdOf(clientID)], ExtraOf(v));
      assert VMap(payload) == ControlPayload(clientID, v);
      r := client.SendCommand(lib, CommandOf(v), VMap(payload), TMap(TAny));
    }
  }

  /** The loop of `control` that adds the extra fields. */
  method WithExtra(base: map<string, GoVal>, extra: map<string, GoVal>) returns (payload: map<string, GoVal>)
    ensures payload == base + extra
  {
    payload := base;
    var keys := extra.Keys;
    while keys != {}
      invariant keys <= extra.Keys && payload.Keys == base.Keys + (extra.Keys - keys)
      invariant forall k | k in payload ::
        payload[k] == if k in extra && k !in keys then extra[k] else if k in base then base[k] else VNil
      decreases |keys|
    {
      var k :| k in keys;
      payload := payload[k := extra[k]];
      keys := keys - {k};
    }
  }

  // ---------------------------------------------------------------- frames

  /** A call through the client whose id this is, "" being the plain client. `payload` is the map made of
      the call's payload, as `Reaches` has it. */
  datatype Op = Issue(id: string, command: string, payload: Payload) | Control(id: string, verb: Verb)

  /** The SDK's own calls: no module payload has a client_id field, and only `control` issues control
      commands. */
  predicate FromModules(op: Op) {
    op.Issue? ==> CLIENT_ID !in op.payload && !IsControl(op.command)
  }

  function Emit(lib: GoLib, resp3: bool, op: Op): Option<Request> {
    match op
    case Issue(id, command, payload) => Sent(lib, resp3, id, command, payload)
    case Control(id, v) => Controlled(lib, resp3, id, v)
  }

  function ControlName(v: Verb): string {
    match v
    case Multi => "MULTI"
    case Exec => "EXEC"
    case Discard => "DISCARD"
    case Unwatch => "UNWATCH"
    case Watch(_) => "WATCH"
  }

  /** Watched keys as they reach the mapper. */
  function SentKeys(resp3: bool, v: Verb): seq<Value> {
    if v.Watch? then SentTexts(resp3, v.keys) else []
  }

  lemma KeysArrive(lib: GoLib, resp3: bool, v: Verb)
    requires v.Watch?
    ensures Arrives(lib, resp3, KeysOf(v.keys), TAny) == Arr(SentKeys(resp3, v))
  {
    StringsArrive(lib, resp3, v.keys);
    assert Arrives(lib, resp3, KeysOf(v.keys), TAny) == Arrives(lib, resp3, VSeq(GoStrings(v.keys)), TSlice(TString));
  }

  lemma IdArrives(lib: GoLib, resp3: bool, id: string)
    ensures Arrives(lib, resp3, IdOf(id), TAny) == SentText(resp3, id)
  {
    assert Arrives(lib, resp3, IdOf(id), TAny) == Arrives(lib, resp3, VStr(id), TString);
  }

  lemma ControlKeysValid(id: string, v: Verb)
    ensures KeysValid(ControlPayload(id, v).entries)
  {
    assert Ascii(CLIENT_ID) && Ascii(KEYS);
    forall k | k in ControlPayload(id, v).entries ensures ValidUtf8(k) {
      AsciiIsValid(k);
    }
  }

  lemma ControlEntries(id: string, v: Verb)
    ensures var m := ControlPayload(id, v).entries;
      && CLIENT_ID in m && m[CLIENT_ID] == IdOf(id)
      && (v.Watch? ==> KEYS in m && m[KEYS] == KeysOf(v.keys))
  {
    assert CLIENT_ID != KEYS;
  }

  /** What is in the payload map of a control. */
  lemma ControlReaches(lib: GoLib, resp3: bool, id: string, v: Verb)
    ensures var m := Reaches(lib, resp3, ControlPayload(id, v), TMap(TAny));
      && Holds(m, CLIENT_ID, SentText(resp3, id))
      && (v.Watch? ==> Holds(m, KEYS, Arr(SentKeys(resp3, v))))
  {
    ControlKeysValid(id, v);
    ControlEntries(id, v);
    EntryReaches(lib, resp3, ControlPayload(id, v), TAny, CLIENT_ID);
    IdArrives(lib, resp3, id);
    if v.Watch? {
      EntryReaches(lib, resp3, ControlPayload(id, v), TAny, KEYS);
      KeysArrive(lib, resp3, v);
    }
  }

  /** A control's frame: its verb and the id, byte for byte on either transport, and the watched keys, which
      on RESP3 have been through JSON. */
  lemma ControlFrame(lib: GoLib, resp3: bool, id: string, v: Verb)
    requires v != Watch([])
    ensures Controlled(lib, resp3, id, v) == Some(Request(ControlName(v), [Str(id)] + SentKeys(resp3, v)))
  {
    ControlReaches(lib, resp3, id, v);
    var m := Reaches(lib, resp3, ControlPayload(id, v), TMap(TAny));
    var p := if id != "" then m[CLIENT_ID := Str(id)] else m;
    assert id == "" ==> Sanitize(id) == id;
    assert Holds(p, CLIENT_ID, Str(id)) && IsControl(CommandOf(v));
    assert CLIENT_ID != KEYS;
    ControlMapping(lib, resp3, id, v, p);
  }

  /** The same, verb by verb. */
  lemma ControlVerbs(lib: GoLib, resp3: bool, id: string)
    ensures Controlled(lib, resp3, id, Multi) == Some(Request("MULTI", [Str(id)]))
    ensures Controlled(lib, resp3, id, Exec) == Some(Request("EXEC", [Str(id)]))
    ensures Controlled(lib, resp3, id, Discard) == Some(Request("DISCARD", [Str(id)]))
    ensures Controlled(lib, resp3, id, Unwatch) == Some(Request("UNWATCH", [Str(id)]))
  {
    ControlFrame(lib, resp3, id, Multi);
    ControlFrame(lib, resp3, id, Exec);
    ControlFrame(lib, resp3, id, Discard);
    ControlFrame(lib, resp3, id, Unwatch);
    assert [Str(id)] + [] == [Str(id)];
  }

  lemma WatchVerb(lib: GoLib, resp3: bool, id: string, keys: seq<string>)
    ensures Controlled(lib, resp3, id, Watch(keys))
         == if keys == [] then None else Some(Request("WATCH", [Str(id)] + SentTexts(resp3, keys)))
  {
    if keys != [] {
      ControlFrame(lib, resp3, id, Watch(keys));
    }
  }

  /** Watched keys arrive byte for byte on the binary transport, and on RESP3 exactly when they are UTF-8. */
  lemma WatchedKeysArriveIff(resp3: bool, keys: seq<string>)
    ensures SentKeys(resp3, Watch(keys)) == Strings(keys)
       <==> !resp3 || forall i | 0 <= i < |keys| :: ValidUtf8(keys[i])
  {
    var sent := SentKeys(resp3, Watch(keys));
    forall i | 0 <= i < |keys| ensures sent[i] == Strings(keys)[i] <==> !resp3 || ValidUtf8(keys[i]) {
      SanitizeIsIdentityIff(keys[i]);
    }
    assert sent == Strings(keys) <==> forall i | 0 <= i < |keys| :: sent[i] == Strings(keys)[i];
  }

  lemma ControlMapping(lib: GoLib, resp3: bool, id: string, v: Verb, p: Payload)
    requires CLIENT_ID in p && p[CLIENT_ID] == Str(id)
    requires v.Watch? ==> Holds(p, KEYS, Arr(SentKeys(resp3, v)))
    ensures Unscoped(lib, CommandOf(v), p, resp3)
         == Some(Request(ControlName(v), [Str(id)] + SentKeys(resp3, v)))
  {
    assert DataRow(CommandOf(v), p, resp3)
        == Some(Row(ControlName(v), if v.Watch? then [Text(CLIENT_ID), All("keys")] else [Text(CLIENT_ID)]));
    if v.Watch? {
      assert Rendered(lib, SentKeys(resp3, v)) == SentKeys(resp3, v);
      Args2(lib, p, Text(CLIENT_ID), All("keys"));
    } else {
      Args1(lib, p, Text(CLIENT_ID));
      assert [Str(id)] + [] == [Str(id)];
    }
  }

  /** Every frame a scope emits is one of its own controls, or TXQUEUE with its id and an accepted
      write; a refused command emits nothing; the plain client never emits TXQUEUE. */
  lemma EmittedFrames(lib: GoLib, resp3: bool, op: Op)
    requires FromModules(op)
    ensures op.Issue? && op.id == "" ==>
      var r := Emit(lib, resp3, op);
      r == Unscoped(lib, op.command, op.payload, resp3) && (r.Some? ==> r.value.cmd != "TXQUEUE")
    ensures op.Issue? && op.id != "" ==>
      var q := Unscoped(lib, op.command, op.payload, resp3);
      if op.command in ACCEPTED
      then q.Some? && q.value.cmd in QUEUEABLE
           && Emit(lib, resp3, op) == Some(Request("TXQUEUE", [Str(op.id), Str(q.value.cmd)] + q.value.args))
      else Emit(lib, resp3, op).None?
    ensures op.Control? && op.verb != Watch([]) ==>
      var r := Emit(lib, resp3, op);
      r.Some? && r.value.cmd == ControlName(op.verb) && |r.value.args| > 0 && r.value.args[0] == Str(op.id)
  {
    match op
    case Issue(id, command, payload) =>
      AcceptedIff(lib, command, payload, resp3);
      if id != "" {
        ScopedIsWrapped(lib, command, payload, id, resp3);
      }
    case Control(id, v) =>
      if v != Watch([]) {
        ControlFrame(lib, resp3, id, v);
      }
  }

  /** An accepted write is queued exactly when the scope's id is not empty: a scope resumed with an
      empty id writes straight through. */
  lemma QueuedIffIdNonEmpty(lib: GoLib, resp3: bool, op: Op)
    requires FromModules(op) && op.Issue? && op.command in ACCEPTED
    ensures Emit(lib, resp3, op).Some?
    ensures Emit(lib, resp3, op).value.cmd == "TXQUEUE" <==> op.id != ""
  {
    EmittedFrames(lib, resp3, op);
    AcceptedIff(lib, op.command, op.payload, resp3);
  }

  /** On RESP3 the server reads back from a queued write's frame the id, the inner command and every
      argument as printed, and nothing of what follows. */
  lemma QueuedFrameReads(lib: GoLib, op: Op, rest: string)
    requires FromModules(op) && op.Issue? && op.id != "" && op.command in ACCEPTED
    requires var r := Emit(lib, true, op); r.Some? && Fits(lib, Parts(lib, r.value.cmd, r.value.args))
    ensures var r := Emit(lib, true, op).value;
      var q := Unscoped(lib, op.command, op.payload, true);
      q.Some? && Parse(lib, Frame(Parts(lib, r.cmd, r.args)) + rest)
              == Got(Arr([Str("TXQUEUE"), Str(op.id), Str(q.value.cmd)] + Rendered(lib, q.value.args)), rest)
  {
    EmittedFrames(lib, true, op);
    var r := Emit(lib, true, op).value;
    var q := Unscoped(lib, op.command, op.payload, true).value;
    FrameReads(lib, Parts(lib, r.cmd, r.args), rest);
    QueuedParts(lib, op.id, q);
  }

  lemma QueuedParts(lib: GoLib, id: string, q: Request)
    ensures Strings(Parts(lib, "TXQUEUE", [Str(id), Str(q.cmd)] + q.args))
         == [Str("TXQUEUE"), Str(id), Str(q.cmd)] + Rendered(lib, q.args)
  {
    var args := [Str(id), Str(q.cmd)] + q.args;
    assert forall i | 2 <= i < |args| :: args[i] == q.args[i - 2];
    assert Parts(lib, "TXQUEUE", args)[1..] == seq(|args|, i requires 0 <= i < |args| => Render(lib, args[i]));
  }

  // ---------------------------------------------------------------- the server, per id

  /** Queued writes of the open transactions, and the batches applied, oldest first. */
  datatype Server = Server(open: map<string, seq<Request>>, applied: seq<Batch>)

  datatype Batch = Batch(id: string, writes: seq<Request>)

  /** Queue per id, apply at EXEC. Frames outside a transaction leave the queues alone. */
  function Serve(s: Server, r: Request): Server {
    if r.args == [] || !r.args[0].Str? then s
    else
      var id := r.args[0].s;
      if r.cmd == "MULTI" then
        if id in s.open then s else s.(open := s.open[id := []])
      else if id !in s.open then s
      else if r.cmd == "EXEC" then Server(s.open - {id}, s.applied + [Batch(id, s.open[id])])
      else if r.cmd == "DISCARD" then s.(open := s.open - {id})
      else if r.cmd == "TXQUEUE" && |r.args| >= 2 && r.args[1].Str? then
        s.(open := s.open[id := s.open[id] + [Request(r.args[1].s, r.args[2..])]])
      else s
  }

  function Run(lib: GoLib, resp3: bool, ops: seq<Op>): Server {
    if ops == [] then Server(map[], [])
    else
      var s := Run(lib, resp3, ops[..|ops| - 1]);
      match Emit(lib, resp3, ops[|ops| - 1])
      case Some(r) => Serve(s, r)
      case None => s
  }

  /** One transaction id as the caller sees it: the writes accepted since MULTI, and the batches that
      EXEC must have applied. */
  datatype View = View(queue: Option<seq<Request>>, batches: seq<seq<Request>>)

  function Observe(v: View, lib: GoLib, resp3: bool, op: Op): View {
    match op
    case Control(_, Multi) => if v.queue.None? then v.(queue := Some([])) else v
    case Control(_, Exec) => if v.queue.Some? then View(None, v.batches + [v.queue.value]) else v
    case Control(_, Discard) => v.(queue := None)
    case Control(_, _) => v
    case Issue(_, command, payload) =>
      if v.queue.Some? && command in ACCEPTED && Unscoped(lib, command, payload, resp3).Some?
      then v.(queue := Some(v.queue.value + [Unscoped(lib, command, payload, resp3).value]))
      else v
  }

  /** What the calls made through this id alone amount to; all other calls are skipped. */
  function Expected(lib: GoLib, resp3: bool, ops: seq<Op>, id: string): View {
    if ops == [] then View(None, [])
    else
      var v := Expected(lib, resp3, ops[..|ops| - 1], id);
      var op := ops[|ops| - 1];
      if op.id == id then Observe(v, lib, resp3, op) else v
  }

  function BatchesOf(applied: seq<Batch>, id: string): seq<seq<Request>> {
    if applied == [] then []
    else
      var b := applied[|applied| - 1];
      BatchesOf(applied[..|applied| - 1], id) + if b.id == id then [b.writes] else []
  }

  function ViewOf(s: Server, id: string): View {
    View(if id in s.open then Some(s.open[id]) else None, BatchesOf(s.applied, id))
  }

  lemma AppliedStep(applied: seq<Batch>, b: Batch, id: string)
    ensures BatchesOf(applied + [b], id) == BatchesOf(applied, id) + if b.id == id then [b.writes] else []
  {
    assert (applied + [b])[..|applied|] == applied;
  }

  /** A frame moves only the view of the id in its first argument. */
  lemma ServeTouchesOneId(s: Server, r: Request, id: string)
    requires r.args == [] || r.args[0] != Str(id)
    ensures ViewOf(Serve(s, r), id) == ViewOf(s, id)
  {
    if r.args != [] && r.args[0].Str? && r.args[0].s in s.open && r.cmd == "EXEC" {
      AppliedStep(s.applied, Batch(r.args[0].s, s.open[r.args[0].s]), id);
    }
  }

  /** Nothing in a queued write tells a repeat from a second write: a frame the transport delivers
      twice is queued twice. */
  lemma RepeatedFrameQueuesTwice(lib: GoLib, resp3: bool, s: Server, op: Op)
    requires FromModules(op) && op.Issue? && op.id != "" && op.command in ACCEPTED && op.id in s.open
    ensures var r, q := Emit(lib, resp3, op), Unscoped(lib, op.command, op.payload, resp3);
      && r.Some? && q.Some?
      && ViewOf(Serve(Serve(s, r.value), r.value), op.id).queue == Some(s.open[op.id] + [q.value, q.value])
  {
    EmittedFrames(lib, resp3, op);
    OwnFrame(lib, resp3, s, op);
    var r, q := Emit(lib, resp3, op).value, Unscoped(lib, op.command, op.payload, resp3).value;
    OwnFrame(lib, resp3, Serve(s, r), op);
    assert s.open[op.id] + [q] + [q] == s.open[op.id] + [q, q];
  }

  /** A frame the plain client can emit is none of those the queues react to. */
  lemma PlainFrameIsInert(lib: GoLib, s: Server, op: Op, resp3: bool)
    requires FromModules(op) && op.Issue? && op.id == ""
    ensures var r := Emit(lib, resp3, op); r.Some? ==> Serve(s, r.value) == s
  {
    EmittedFrames(lib, resp3, op);
    AcceptedIff(lib, op.command, op.payload, resp3);
  }

  /** A frame of the scope itself does to its view what the call means. */
  lemma OwnFrame(lib: GoLib, resp3: bool, s: Server, op: Op)
    requires FromModules(op) && op.id != ""
    ensures var r := Emit(lib, resp3, op);
      ViewOf(if r.Some? then Serve(s, r.value) else s, op.id) == Observe(ViewOf(s, op.id), lib, resp3, op)
  {
    EmittedFrames(lib, resp3, op);
    match op
    case Issue(id, command, payload) =>
      if command in ACCEPTED {
        QueueingFrame(s, id, Unscoped(lib, command, payload, resp3).value);
      }
    case Control(id, v) =>
      if v != Watch([]) {
        ControlFrame(lib, resp3, id, v);
        VerbFrame(lib, resp3, s, id, v, Emit(lib, resp3, op).value);
      }
  }

  lemma QueueingFrame(s: Server, id: string, q: Request)
    ensures var t := Serve(s, Request("TXQUEUE", [Str(id), Str(q.cmd)] + q.args));
      ViewOf(t, id) == if id in s.open then ViewOf(s, id).(queue := Some(s.open[id] + [q])) else ViewOf(s, id)
  {
    assert ([Str(id), Str(q.cmd)] + q.args)[2..] == q.args;
  }

  lemma VerbFrame(lib: GoLib, resp3: bool, s: Server, id: string, v: Verb, r: Request)
    requires r.cmd == ControlName(v) && r.args != [] && r.args[0] == Str(id)
    ensures ViewOf(Serve(s, r), id) == Observe(ViewOf(s, id), lib, resp3, Control(id, v))
  {
    if v == Exec && id in s.open {
      AppliedStep(s.applied, Batch(id, s.open[id]), id);
    }
  }

  /** Transaction isolation. Interleave calls through the plain client and any number of scopes in any
      way: for each transaction id, the server's queue holds exactly the writes accepted through that
      id since its MULTI, in the order issued, and each EXEC has applied exactly those. */
  lemma {:induction false} ScopesAreIsolated(lib: GoLib, resp3: bool, ops: seq<Op>, id: string)
    requires id != "" && forall i | 0 <= i < |ops| :: FromModules(ops[i])
    ensures ViewOf(Run(lib, resp3, ops), id) == Expected(lib, resp3, ops, id)
  {
    if ops != [] {
      var n := |ops| - 1;
      ScopesAreIsolated(lib, resp3, ops[..n], id);
      var s, op := Run(lib, resp3, ops[..n]), ops[n];
      if op.id == id {
        OwnFrame(lib, resp3, s, op);
      } else if Emit(lib, resp3, op).Some? {
        OtherFrame(lib, resp3, s, op, id);
      }
    }
  }

  lemma OtherFrame(lib: GoLib, resp3: bool, s: Server, op: Op, id: string)
    requires FromModules(op) && op.id != id && Emit(lib, resp3, op).Some?
    ensures ViewOf(Serve(s, Emit(lib, resp3, op).value), id) == ViewOf(s, id)
  {
    var r := Emit(lib, resp3, op).value;
    if op.Issue? && op.id == "" {
      PlainFrameIsInert(lib, s, op, resp3);
    } else {
      EmittedFrames(lib, resp3, op);
      ServeTouchesOneId(s, r, id);
    }
  }

  /** The calls made through one id. */
  function Through(ops: seq<Op>, id: string): seq<Op> {
    if ops == [] then []
    else Through(ops[..|ops| - 1], id) + if ops[|ops| - 1].id == id then [ops[|ops| - 1]] else []
  }

  lemma {:induction false} ExpectedOfOwnCalls(lib: GoLib, resp3: bool, ops: seq<Op>, id: string)
    ensures Expected(lib, resp3, ops, id) == Expected(lib, resp3, Through(ops, id), id)
    ensures forall i | 0 <= i < |Through(ops, id)| :: Through(ops, id)[i] in ops
  {
    if ops != [] {
      var n := |ops| - 1;
      ExpectedOfOwnCalls(lib, resp3, ops[..n], id);
      var own, earlier := Through(ops, id), Through(ops[..n], id);
      if ops[n].id == id {
        assert own == earlier + [ops[n]] && own[..|own| - 1] == earlier;
      } else {
        assert own == earlier;
      }
    }
  }

  /** Non-interference: the transaction's outcome is what it would be had nobody else called. */
  lemma OthersDoNotInterfere(lib: GoLib, resp3: bool, ops: seq<Op>, id: string)
    requires id != "" && forall i | 0 <= i < |ops| :: FromModules(ops[i])
    ensures ViewOf(Run(lib, resp3, ops), id) == ViewOf(Run(lib, resp3, Through(ops, id)), id)
  {
    ExpectedOfOwnCalls(lib, resp3, ops, id);
    ScopesAreIsolated(lib, resp3, ops, id);
    ScopesAreIsolated(lib, resp3, Through(ops, id), id);
  }

  // ---------------------------------------------------------------- small runs

  lemma ExpectedStep(lib: GoLib, resp3: bool, ops: seq<Op>, op: Op)
    ensures Expected(lib, resp3, ops + [op], op.id) == Observe(Expected(lib, resp3, ops, op.id), lib, resp3, op)
  {
    assert (ops + [op])[..|ops|] == ops;
  }

  predicate Accepted(lib: GoLib, resp3: bool, op: Op, id: string, q: Request) {
    && FromModules(op) && op.Issue? && op.id == id && op.command in ACCEPTED
    && Unscoped(lib, op.command, op.payload, resp3) == Some(q)
  }

  /** What a transaction is: EXEC applies the writes issued since MULTI as one batch, in order. */
  lemma CommittedRun(lib: GoLib, resp3: bool, id: string, x: Op, y: Op, p: Request, q: Request)
    requires id != "" && Accepted(lib, resp3, x, id, p) && Accepted(lib, resp3, y, id, q)
    ensures ViewOf(Run(lib, resp3, [Control(id, Multi)] + [x] + [y] + [Control(id, Exec)]), id) == View(None, [[p, q]])
  {
    ScopesAreIsolated(lib, resp3, [Control(id, Multi)] + [x] + [y] + [Control(id, Exec)], id);
    CommittedView(lib, resp3, id, x, y, p, q);
  }

  lemma CommittedView(lib: GoLib, resp3: bool, id: string, x: Op, y: Op, p: Request, q: Request)
    requires Accepted(lib, resp3, x, id, p) && Accepted(lib, resp3, y, id, q)
    ensures Expected(lib, resp3, [Control(id, Multi)] + [x] + [y] + [Control(id, Exec)], id) == View(None, [[p, q]])
  {
    ExpectedStep(lib, resp3, [], Control(id, Multi));
    assert [] + [Control(id, Multi)] == [Control(id, Multi)];
    ExpectedStep(lib, resp3, [Control(id, Multi)], x);
    ExpectedStep(lib, resp3, [Control(id, Multi)] + [x], y);
    ExpectedStep(lib, resp3, [Control(id, Multi)] + [x] + [y], Control(id, Exec));
    assert [] + [p] + [q] == [p, q] && [] + [[p, q]] == [[p, q]];
  }

  /** After DISCARD nothing of it is left, and an EXEC without a MULTI applies nothing. */
  lemma DiscardedRun(lib: GoLib, resp3: bool, id: string, x: Op, p: Request)
    requires id != "" && Accepted(lib, resp3, x, id, p)
    ensures ViewOf(Run(lib, resp3, [Control(id, Multi)] + [x] + [Control(id, Discard)] + [Control(id, Exec)]), id)
         == View(None, [])
  {
    ScopesAreIsolated(lib, resp3, [Control(id, Multi)] + [x] + [Control(id, Discard)] + [Control(id, Exec)], id);
    DiscardedView(lib, resp3, id, x, p);
  }

  lemma DiscardedView(lib: GoLib, resp3: bool, id: string, x: Op, p: Request)
    requires Accepted(lib, resp3, x, id, p)
    ensures Expected(lib, resp3, [Control(id, Multi)] + [x] + [Control(id, Discard)] + [Control(id, Exec)], id)
         == View(None, [])
  {
    ExpectedStep(lib, resp3, [], Control(id, Multi));
    assert [] + [Control(id, Multi)] == [Control(id, Multi)];
    ExpectedStep(lib, resp3, [Control(id, Multi)], x);
    ExpectedStep(lib, resp3, [Control(id, Multi)] + [x], Control(id, Discard));
    ExpectedStep(lib, resp3, [Control(id, Multi)] + [x] + [Control(id, Discard)], Control(id, Exec));
  }
}
