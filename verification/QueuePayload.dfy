/** The way of a queue message from `Publish` to the server: byte by byte into integers, through the
    payload encoder and the command mapper, and over either native wire. */
module QueuePayload {
  import opened GoValues
  import opened RespCodec
  import opened RespFrames
  import opened GoTypes
  import opened Float64
  import opened PayloadEncode
  import opened Utf8
  import opened JsonTrip
  import opened WireValues
  import opened CommandMap

  /** The struct `Publish` declares for its body. */
  const QUEUE_FIELDS: seq<Layout> :=
    [Layout("queue", TString, false), Layout("payload", TSlice(TInt(W64)), false), Layout("priority", TUint(W8), false),
     Layout("max_retries", TPtr(TUint(W32)), true)]

  lemma QueueNamesArePlain()
    ensures forall i | 0 <= i < |QUEUE_FIELDS| :: IsName(QUEUE_FIELDS[i].name)
  {
    assert IsName("queue") && IsName("payload") && IsName("priority") && IsName("max_retries");
  }

  lemma QueueNames()
    ensures GoodNames(QUEUE_FIELDS)
  {
    QueueNamesArePlain();
    assert forall i | 0 <= i < 4 :: |QUEUE_FIELDS[i].name| == [5, 7, 8, 11][i];
  }

  predicate IsBytes(s: string) {
    forall i | 0 <= i < |s| :: s[i] as int < 256
  }

  function Ints(payload: string): seq<GoVal> {
    seq(|payload|, i requires 0 <= i < |payload| => VInt(payload[i] as int))
  }

  function Body(queue: string, payload: string, priority: nat, maxRetries: nat): GoVal {
    VStruct([VStr(queue), VSeq(Ints(payload)), VInt(priority), if maxRetries > 0 then VRef(VInt(maxRetries)) else VNil])
  }

  /** The part of `Publish` that builds the command's payload. */
  method PublishBody(queue: string, payload: string, priority: nat, maxRetries: nat) returns (body: GoVal)
    requires IsBytes(payload) && priority < 0x100 && maxRetries < 0x1_0000_0000
    ensures body == Body(queue, payload, priority, maxRetries)
  {
    var intPayload: seq<GoVal> := [];
    for i := 0 to |payload|
      invariant intPayload == Ints(payload[..i])
    {
      intPayload := intPayload + [VInt(payload[i] as int)];
    }
    assert payload[..|payload|] == payload;
    var retries := VNil;
    if maxRetries > 0 {
      retries := VRef(VInt(maxRetries));
    }
    body := VStruct([VStr(queue), VSeq(intPayload), VInt(priority), retries]);
  }

  lemma BodyHasType(fs: seq<Field>, queue: string, payload: string, priority: nat, maxRetries: nat)
    requires DeclaredAs(fs, QUEUE_FIELDS) && IsBytes(payload) && priority < 0x100 && maxRetries < 0x1_0000_0000
    ensures HasType(Body(queue, payload, priority, maxRetries), TStruct(fs))
  {
    var v := Body(queue, payload, priority, maxRetries);
    assert forall i | 0 <= i < 4 :: HasType(v.fields[i], QUEUE_FIELDS[i].ty);
  }

  /** The request `Publish` sends. */
  function Published(lib: GoLib, fs: seq<Field>, queue: string, payload: string, priority: nat, maxRetries: nat,
      resp3: bool): Option<Request>
    requires HasType(Body(queue, payload, priority, maxRetries), TStruct(fs))
  {
    var m := Reaches(lib, resp3, Body(queue, payload, priority, maxRetries), TStruct(fs));
    MapCommand(lib, "queue.publish", m, resp3)
  }

  /** What of the body the mapper looks up. */
  lemma BodyReaches(lib: GoLib, fs: seq<Field>, v: GoVal, resp3: bool)
    requires DeclaredAs(fs, QUEUE_FIELDS) && HasType(v, TStruct(fs))
    ensures v.fields[0].VStr? && HasType(v.fields[1], TSlice(TInt(W64)))
    ensures var m := Reaches(lib, resp3, v, TStruct(fs));
      && CLIENT_ID !in m && Holds(m, "queue", SentText(resp3, v.fields[0].s))
      && Holds(m, "payload", Arrives(lib, resp3, v.fields[1], TSlice(TInt(W64))))
  {
    QueueNames();
    DeclaredReaches(lib, resp3, v, fs, QUEUE_FIELDS, 0);
    DeclaredReaches(lib, resp3, v, fs, QUEUE_FIELDS, 1);
    NothingElseReaches(lib, resp3, v, fs, QUEUE_FIELDS, CLIENT_ID);
  }

  lemma ByteSurvives(lib: GoLib, c: char)
    requires c as int < 256
    ensures ByteOf(lib, Float(RoundInt(c as int) as real)) == c
  {
    ExactIff(c as int);
    TruncOfInt(c as int);
  }

  lemma BytesComeBack(lib: GoLib, payload: string)
    requires IsBytes(payload)
    ensures BytesOf(lib, Floats(payload)) == payload
  {
    forall i | 0 <= i < |payload| ensures ByteOf(lib, Float(RoundInt(payload[i] as int) as real)) == payload[i] {
      ByteSurvives(lib, payload[i]);
    }
  }

  lemma PublishMapping(lib: GoLib, m: Payload, queue: string, items: seq<Value>, resp3: bool)
    requires CLIENT_ID !in m && "queue" in m && m["queue"] == Str(queue) && "payload" in m && m["payload"] == Arr(items)
    ensures MapCommand(lib, "queue.publish", m, resp3)
         == Some(Request("QPUBLISH", [Str(queue), Str(BytesOf(lib, items))]))
  {
    assert MessageArg(lib, m) == [Str(BytesOf(lib, items))];
    Args2(lib, m, Text("queue"), Message);
  }

  /** The floats a message's bytes have become when they reach the mapper, on either transport. */
  function Floats(payload: string): seq<Value> {
    seq(|payload|, i requires 0 <= i < |payload| => Float(RoundInt(payload[i] as int) as real))
  }

  lemma IntsArrive(lib: GoLib, payload: string, resp3: bool)
    requires IsBytes(payload)
    ensures HasType(VSeq(Ints(payload)), TSlice(TInt(W64)))
    ensures Arrives(lib, resp3, VSeq(Ints(payload)), TSlice(TInt(W64))) == Arr(Floats(payload))
  {
    var v := VSeq(Ints(payload));
    assert (if resp3 then JsonSeq(lib, v, TInt(W64)) else EncodeSeq(v, TInt(W64))).items == Floats(payload);
  }

  /** The request a message becomes carries exactly its bytes, empty and binary messages included. Its queue
      name is the caller's on the binary transport and, on RESP3, what JSON leaves of it. */
  lemma MessageMapsToItsBytes(lib: GoLib, fs: seq<Field>, queue: string, payload: string, priority: nat,
      maxRetries: nat, resp3: bool)
    requires DeclaredAs(fs, QUEUE_FIELDS) && IsBytes(payload) && priority < 0x100 && maxRetries < 0x1_0000_0000
    ensures HasType(Body(queue, payload, priority, maxRetries), TStruct(fs))
    ensures Published(lib, fs, queue, payload, priority, maxRetries, resp3)
         == Some(Request("QPUBLISH", [SentText(resp3, queue), Str(payload)]))
  {
    BodyHasType(fs, queue, payload, priority, maxRetries);
    var v := Body(queue, payload, priority, maxRetries);
    BodyReaches(lib, fs, v, resp3);
    IntsArrive(lib, payload, resp3);
    BytesComeBack(lib, payload);
    var name := SentText(resp3, queue).s;
    PublishMapping(lib, Reaches(lib, resp3, v, TStruct(fs)), name, Floats(payload), resp3);
  }

  /** End to end on the binary transport: the server receives queue name and message byte for byte. */
  lemma MessageArrives(lib: GoLib, fs: seq<Field>, queue: string, payload: string, priority: nat, maxRetries: nat,
      w: Wire)
    requires DeclaredAs(fs, QUEUE_FIELDS) && IsBytes(payload) && priority < 0x100 && maxRetries < 0x1_0000_0000
    requires Carries(w, Arr([Str(queue), Str(payload)]))
    ensures HasType(Body(queue, payload, priority, maxRetries), TStruct(fs))
    ensures var r := Published(lib, fs, queue, payload, priority, maxRetries, false);
      && r == Some(Request("QPUBLISH", [Str(queue), Str(payload)])) && FromWire(lib, w) == Arr(r.value.args)
  {
    MessageMapsToItsBytes(lib, fs, queue, payload, priority, maxRetries, false);
    TextsArrive(lib, w, [Str(queue), Str(payload)]);
  }

  lemma TextsArrive(lib: GoLib, w: Wire, args: seq<Value>)
    requires Carries(w, Arr(args)) && forall i | 0 <= i < |args| :: args[i].Str?
    ensures FromWire(lib, w) == Arr(args)
  {
    FromWireInvertsToWire(lib, w, Arr(args));
    assert Norm(Arr(args)).items == args;
  }

  /** End to end on RESP3: the server reads the message byte for byte, and the queue name byte for byte
      exactly when it is UTF-8. */
  lemma MessageArrivesOverResp3(lib: GoLib, fs: seq<Field>, queue: string, payload: string, priority: nat,
      maxRetries: nat, rest: string)
    requires DeclaredAs(fs, QUEUE_FIELDS) && IsBytes(payload) && priority < 0x100 && maxRetries < 0x1_0000_0000
    requires Fits(lib, ["QPUBLISH", Sanitize(queue), payload])
    ensures HasType(Body(queue, payload, priority, maxRetries), TStruct(fs))
    ensures var r := Published(lib, fs, queue, payload, priority, maxRetries, true);
      r.Some? && Parse(lib, Frame(Parts(lib, r.value.cmd, r.value.args)) + rest)
              == Got(Arr([Str("QPUBLISH"), Str(Sanitize(queue)), Str(payload)]), rest)
    ensures Sanitize(queue) == queue <==> ValidUtf8(queue)
  {
    MessageMapsToItsBytes(lib, fs, queue, payload, priority, maxRetries, true);
    SanitizeIsIdentityIff(queue);
    PublishFrameReads(lib, "QPUBLISH", Sanitize(queue), payload, rest);
  }

  lemma PublishFrameReads(lib: GoLib, cmd: string, name: string, payload: string, rest: string)
    requires Fits(lib, [cmd, name, payload])
    ensures Parse(lib, Frame(Parts(lib, cmd, [Str(name), Str(payload)])) + rest)
         == Got(Arr([Str(cmd), Str(name), Str(payload)]), rest)
  {
    var parts := [cmd, name, payload];
    assert Parts(lib, cmd, [Str(name), Str(payload)]) == parts;
    FrameReads(lib, parts, rest);
    assert Strings(parts) == [Str(cmd), Str(name), Str(payload)];
  }
}
