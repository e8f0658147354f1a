/** What the server of `Transactions` holds when it is given not the requests but what travels: the byte stream
    of their frames on RESP3, or their wire values on the binary transport. */
module ServedBytes {
  import opened GoValues
  import opened RespCodec
  import opened RespRoundTrip
  import opened RespFrames
  import opened WireValues
  import opened CommandMap
  import opened Transactions

  // ---------------------------------------------------------------- requests in order

  /** The requests these calls send, in order. */
  function Requests(lib: GoLib, resp3: bool, ops: seq<Op>): seq<Request> {
    if ops == [] then []
    else Requests(lib, resp3, ops[..|ops| - 1]) + Listed(Emit(lib, resp3, ops[|ops| - 1]))
  }

  /** The server after serving these. */
  function Served(rs: seq<Request>): Server {
    if rs == [] then Server(map[], []) else Serve(Served(rs[..|rs| - 1]), rs[|rs| - 1])
  }

  lemma {:induction false} RunServes(lib: GoLib, resp3: bool, ops: seq<Op>)
    ensures Run(lib, resp3, ops) == Served(Requests(lib, resp3, ops))
  {
    if ops != [] {
      var earlier := Requests(lib, resp3, ops[..|ops| - 1]);
      var r := Emit(lib, resp3, ops[|ops| - 1]);
      RunServes(lib, resp3, ops[..|ops| - 1]);
      if r.Some? {
        assert (earlier + [r.value])[..|earlier|] == earlier;
      } else {
        assert earlier + [] == earlier;
      }
    }
  }

  // ---------------------------------------------------------------- arguments that changed on the way

  function Each(f: Value -> Value, vs: seq<Value>): seq<Value> {
    seq(|vs|, i requires 0 <= i < |vs| => f(vs[i]))
  }

  /** A request whose arguments have become f of what they were. */
  function Arrived(f: Value -> Value, r: Request): Request {
    Request(r.cmd, Each(f, r.args))
  }

  function AllArrived(f: Value -> Value, rs: seq<Request>): seq<Request> {
    seq(|rs|, i requires 0 <= i < |rs| => Arrived(f, rs[i]))
  }

  function ViewArrived(f: Value -> Value, v: View): View {
    View(if v.queue.Some? then Some(AllArrived(f, v.queue.value)) else None,
         seq(|v.batches|, i requires 0 <= i < |v.batches| => AllArrived(f, v.batches[i])))
  }

  /** Strings arrive as they are. */
  ghost predicate KeepsText(f: Value -> Value) {
    forall s :: f(Str(s)) == Str(s)
  }

  /** A request the server reacts to names its transaction as text, and a queued one its command. */
  predicate Regular(r: Request) {
    && (r.cmd in {"MULTI", "EXEC", "DISCARD", "TXQUEUE"} ==> r.args != [] && r.args[0].Str?)
    && (r.cmd == "TXQUEUE" ==> |r.args| >= 2 && r.args[1].Str?)
  }

  lemma EmittedIsRegular(lib: GoLib, resp3: bool, op: Op)
    requires FromModules(op) && Emit(lib, resp3, op).Some?
    ensures Regular(Emit(lib, resp3, op).value)
  {
    EmittedFrames(lib, resp3, op);
    if op.Issue? {
      AcceptedIff(lib, op.command, op.payload, resp3);
    }
  }

  lemma {:induction false} RequestsAreRegular(lib: GoLib, resp3: bool, ops: seq<Op>)
    requires forall i | 0 <= i < |ops| :: FromModules(ops[i])
    ensures forall i | 0 <= i < |Requests(lib, resp3, ops)| :: Regular(Requests(lib, resp3, ops)[i])
  {
    if ops != [] {
      RequestsAreRegular(lib, resp3, ops[..|ops| - 1]);
      if Emit(lib, resp3, ops[|ops| - 1]).Some? {
        EmittedIsRegular(lib, resp3, ops[|ops| - 1]);
      }
    }
  }

  /** The server holds for every id what the other holds, arguments having become f of what they were. */
  ghost predicate Mirrors(f: Value -> Value, t: Server, s: Server) {
    && t.open.Keys == s.open.Keys
    && (forall id | id in s.open :: t.open[id] == AllArrived(f, s.open[id]))
    && |t.applied| == |s.applied|
    && forall i | 0 <= i < |s.applied| ::
         t.applied[i] == Batch(s.applied[i].id, AllArrived(f, s.applied[i].writes))
  }

  lemma QueuedArrives(f: Value -> Value, rs: seq<Request>, r: Request)
    ensures AllArrived(f, rs + [r]) == AllArrived(f, rs) + [Arrived(f, r)]
  {
  }

  lemma InnerArrives(f: Value -> Value, r: Request)
    requires KeepsText(f) && |r.args| >= 2 && r.args[1].Str?
    ensures Arrived(f, r).args[1] == r.args[1] && Each(f, r.args)[2..] == Each(f, r.args[2..])
  {
    assert f(Str(r.args[1].s)) == Str(r.args[1].s);
  }

  lemma ServeMirrors(f: Value -> Value, t: Server, s: Server, r: Request)
    requires KeepsText(f) && Mirrors(f, t, s) && Regular(r)
    ensures Mirrors(f, Serve(t, Arrived(f, r)), Serve(s, r))
  {
    if r.cmd in {"MULTI", "EXEC", "DISCARD", "TXQUEUE"} {
      var id := r.args[0].s;
      assert Arrived(f, r).args[0] == f(Str(id)) == Str(id);
      if r.cmd == "MULTI" {
        assert AllArrived(f, []) == [];
      } else if r.cmd == "TXQUEUE" && id in s.open {
        InnerArrives(f, r);
        QueuedArrives(f, s.open[id], Request(r.args[1].s, r.args[2..]));
      }
    }
  }

  lemma {:induction false} ServedMirrors(f: Value -> Value, rs: seq<Request>)
    requires KeepsText(f) && forall i | 0 <= i < |rs| :: Regular(rs[i])
    ensures Mirrors(f, Served(AllArrived(f, rs)), Served(rs))
  {
    if rs != [] {
      var n := |rs| - 1;
      ServedMirrors(f, rs[..n]);
      assert AllArrived(f, rs)[..n] == AllArrived(f, rs[..n]);
      ServeMirrors(f, Served(AllArrived(f, rs[..n])), Served(rs[..n]), rs[n]);
    }
  }

  lemma {:induction false} BatchesMirror(f: Value -> Value, xs: seq<Batch>, bs: seq<Batch>, id: string)
    requires |xs| == |bs| && forall i | 0 <= i < |bs| :: xs[i] == Batch(bs[i].id, AllArrived(f, bs[i].writes))
    ensures |BatchesOf(xs, id)| == |BatchesOf(bs, id)|
    ensures forall i | 0 <= i < |BatchesOf(bs, id)| :: BatchesOf(xs, id)[i] == AllArrived(f, BatchesOf(bs, id)[i])
  {
    if bs != [] {
      BatchesMirror(f, xs[..|xs| - 1], bs[..|bs| - 1], id);
    }
  }

  lemma MirroredView(f: Value -> Value, t: Server, s: Server, id: string)
    requires Mirrors(f, t, s)
    ensures ViewOf(t, id) == ViewArrived(f, ViewOf(s, id))
  {
    BatchesMirror(f, t.applied, s.applied, id);
    assert ViewOf(t, id).batches == ViewArrived(f, ViewOf(s, id)).batches;
  }

  /** Isolation, whatever happens to arguments that are not text: the server holds for every transaction what
      its caller issued, as it arrived. */
  lemma ArrivedScopesAreIsolated(lib: GoLib, resp3: bool, ops: seq<Op>, id: string, f: Value -> Value)
    requires id != "" && KeepsText(f) && forall i | 0 <= i < |ops| :: FromModules(ops[i])
    ensures ViewOf(Served(AllArrived(f, Requests(lib, resp3, ops))), id)
         == ViewArrived(f, Expected(lib, resp3, ops, id))
  {
    RequestsAreRegular(lib, resp3, ops);
    ServedMirrors(f, Requests(lib, resp3, ops));
    MirroredView(f, Served(AllArrived(f, Requests(lib, resp3, ops))), Served(Requests(lib, resp3, ops)), id);
    RunServes(lib, resp3, ops);
    ScopesAreIsolated(lib, resp3, ops, id);
  }

  // ---------------------------------------------------------------- RESP3: one stream of bytes

  /** An argument as a frame carries it. */
  function AsPrinted(lib: GoLib): Value -> Value {
    v => Str(Render(lib, v))
  }

  /** The bytes of the requests' frames, one after the other. */
  function Stream(lib: GoLib, rs: seq<Request>): string {
    if rs == [] then "" else Frame(Parts(lib, rs[0].cmd, rs[0].args)) + Stream(lib, rs[1..])
  }

  /** The request an array of strings stands for, if it is one. */
  function Asked(v: Value): Option<Request> {
    if v.Arr? && v.items != [] && v.items[0].Str? then Some(Request(v.items[0].s, v.items[1..])) else None
  }

  /** A server that reads values off a stream and serves those that are requests. */
  function ServedValues(vs: seq<Value>): Server {
    if vs == [] then Server(map[], [])
    else
      var s := ServedValues(vs[..|vs| - 1]);
      match Asked(vs[|vs| - 1])
      case Some(r) => Serve(s, r)
      case None => s
  }

  predicate AllFit(lib: GoLib, rs: seq<Request>) {
    forall i | 0 <= i < |rs| :: Fits(lib, Parts(lib, rs[i].cmd, rs[i].args))
  }

  function FrameValue(lib: GoLib, r: Request): Value {
    Arr(Strings(Parts(lib, r.cmd, r.args)))
  }

  function FrameValues(lib: GoLib, rs: seq<Request>): seq<Value> {
    seq(|rs|, i requires 0 <= i < |rs| => FrameValue(lib, rs[i]))
  }

  /** Reading off the stream as many values as there are requests gives the requests back, and leaves what
      follows. */
  lemma {:induction false} StreamReads(lib: GoLib, rs: seq<Request>, rest: string)
    requires AllFit(lib, rs)
    ensures ParseMany(lib, Stream(lib, rs) + rest, |rs|) == Got(FrameValues(lib, rs), rest)
  {
    if rs == [] {
      assert "" + rest == rest;
    } else {
      var parts, later := Parts(lib, rs[0].cmd, rs[0].args), Stream(lib, rs[1..]) + rest;
      assert Stream(lib, rs) + rest == Frame(parts) + later;
      FrameReads(lib, parts, later);
      StreamReads(lib, rs[1..], rest);
      assert FrameValues(lib, rs) == [FrameValue(lib, rs[0])] + FrameValues(lib, rs[1..]);
    }
  }

  lemma AskedBack(lib: GoLib, r: Request)
    ensures Asked(FrameValue(lib, r)) == Some(Arrived(AsPrinted(lib), r))
  {
    var parts := Parts(lib, r.cmd, r.args);
    assert Strings(parts)[0] == Str(r.cmd);
    assert Strings(parts)[1..] == Each(AsPrinted(lib), r.args);
  }

  lemma {:induction false} ValuesServe(lib: GoLib, rs: seq<Request>)
    ensures ServedValues(FrameValues(lib, rs)) == Served(AllArrived(AsPrinted(lib), rs))
  {
    if rs != [] {
      var n := |rs| - 1;
      ValuesServe(lib, rs[..n]);
      assert FrameValues(lib, rs)[..n] == FrameValues(lib, rs[..n]);
      assert AllArrived(AsPrinted(lib), rs)[..n] == AllArrived(AsPrinted(lib), rs[..n]);
      AskedBack(lib, rs[n]);
    }
  }

  /** Isolation down to the bytes. Interleave calls through the plain client and any number of scopes in any
      way, put their frames on one connection, and let the server parse that stream: it reads them all, leaves
      what follows, and holds for every transaction exactly what its caller issued, arguments as printed. */
  lemma StreamKeepsScopesIsolated(lib: GoLib, ops: seq<Op>, rest: string, id: string)
    requires id != "" && forall i | 0 <= i < |ops| :: FromModules(ops[i])
    requires AllFit(lib, Requests(lib, true, ops))
    ensures var rs := Requests(lib, true, ops);
      var p := ParseMany(lib, Stream(lib, rs) + rest, |rs|);
      && p.Got? && p.rest == rest
      && ViewOf(ServedValues(p.value), id) == ViewArrived(AsPrinted(lib), Expected(lib, true, ops, id))
  {
    var rs := Requests(lib, true, ops);
    StreamReads(lib, rs, rest);
    FramesView(lib, rs, id);
    PrintedKeepsText(lib);
    ArrivedScopesAreIsolated(lib, true, ops, id, AsPrinted(lib));
  }

  lemma PrintedKeepsText(lib: GoLib)
    ensures KeepsText(AsPrinted(lib))
  {
  }

  lemma FramesView(lib: GoLib, rs: seq<Request>, id: string)
    ensures ViewOf(ServedValues(FrameValues(lib, rs)), id) == ViewOf(Served(AllArrived(AsPrinted(lib), rs)), id)
  {
    ValuesServe(lib, rs);
  }

  // ---------------------------------------------------------------- the binary transport: wire values

  /** A call as it travels: the command, and a wire value for each argument. */
  datatype WireCall = WireCall(cmd: string, args: seq<Wire>)

  /** `Execute`'s loop over the arguments, as far as it can be told from outside. */
  ghost predicate CarriesRequest(w: WireCall, r: Request) {
    w.cmd == r.cmd && |w.args| == |r.args| && forall i | 0 <= i < |r.args| :: Carries(w.args[i], r.args[i])
  }

  function Decoded(lib: GoLib, w: WireCall): Request {
    Request(w.cmd, seq(|w.args|, i requires 0 <= i < |w.args| => FromWire(lib, w.args[i])))
  }

  function AllDecoded(lib: GoLib, ws: seq<WireCall>): seq<Request> {
    seq(|ws|, i requires 0 <= i < |ws| => Decoded(lib, ws[i]))
  }

  lemma CallArrives(lib: GoLib, w: WireCall, r: Request)
    requires CarriesRequest(w, r)
    ensures Decoded(lib, w) == Arrived(Norm, r)
  {
    forall i | 0 <= i < |r.args| ensures FromWire(lib, w.args[i]) == Norm(r.args[i]) {
      FromWireInvertsToWire(lib, w.args[i], r.args[i]);
    }
    assert Decoded(lib, w).args == Arrived(Norm, r).args;
  }

  /** The same over wire values: decoding what was sent, the server holds for every transaction exactly what its
      caller issued, strings byte for byte and integers as int64. */
  lemma WiresKeepScopesIsolated(lib: GoLib, ops: seq<Op>, ws: seq<WireCall>, id: string)
    requires id != "" && forall i | 0 <= i < |ops| :: FromModules(ops[i])
    requires var rs := Requests(lib, false, ops);
      |ws| == |rs| && forall i | 0 <= i < |rs| :: CarriesRequest(ws[i], rs[i])
    ensures ViewOf(Served(AllDecoded(lib, ws)), id) == ViewArrived(Norm, Expected(lib, false, ops, id))
  {
    var rs := Requests(lib, false, ops);
    forall i | 0 <= i < |rs| ensures Decoded(lib, ws[i]) == Arrived(Norm, rs[i]) {
      CallArrives(lib, ws[i], rs[i]);
    }
    assert AllDecoded(lib, ws) == AllArrived(Norm, rs);
    ArrivedScopesAreIsolated(lib, false, ops, id, Norm);
  }
}
