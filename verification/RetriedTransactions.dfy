/** Transactions over the retrying RESP3 connection: what a server that queues per id holds when frames can
    be lost or served twice, and when that is what the caller issued. */
module RetriedTransactions {
  import opened GoValues
  import opened RespCodec
  import opened RespRoundTrip
  import opened RespFrames
  import opened CommandMap
  import opened Transactions
  import opened Resp3Transport
  import opened Resp3Runs

  /** One SDK call: what the network does in its two attempts, and how often the server served its frame
      before the next call. */
  datatype Deed = Deed(op: Op, first: Attempt, second: Attempt, served: nat)

  function FrameOf(lib: GoLib, op: Op): Option<string> {
    match Emit(lib, true, op)
    case Some(r) => Some(Frame(Parts(lib, r.cmd, r.args)))
    case None => None
  }

  /** The connection after these calls; a refused call does not touch it. */
  function LinkAfter(lib: GoLib, deeds: seq<Deed>): State {
    if deeds == [] then State(Down, 0, [])
    else Connect(lib, LinkAfter(lib, deeds[..|deeds| - 1]), deeds[|deeds| - 1])
  }

  function Connect(lib: GoLib, st: State, d: Deed): State {
    match FrameOf(lib, d.op)
    case Some(frame) => Execution(lib, st, frame, d.first, d.second).0
    case None => st
  }

  /** A server serves no frame it was not sent completely, and the frame it answered it has served. */
  predicate Possible(lib: GoLib, st: State, d: Deed) {
    match FrameOf(lib, d.op)
    case None => d.served == 0
    case Some(frame) =>
      var (s, o) := Execution(lib, st, frame, d.first, d.second);
      d.served <= |Writes(s.log)| - |Writes(st.log)| && (o.Answer? || o.Refusal? ==> d.served >= 1)
  }

  predicate PossibleRun(lib: GoLib, deeds: seq<Deed>) {
    forall i | 0 <= i < |deeds| :: Possible(lib, LinkAfter(lib, deeds[..i]), deeds[i])
  }

  function ServeTimes(s: Server, r: Request, n: nat): Server {
    if n == 0 then s else Serve(ServeTimes(s, r, n - 1), r)
  }

  /** The server after these calls. */
  function Played(lib: GoLib, deeds: seq<Deed>): Server {
    if deeds == [] then Server(map[], [])
    else
      var s, d := Played(lib, deeds[..|deeds| - 1]), deeds[|deeds| - 1];
      match Emit(lib, true, d.op)
      case Some(r) => ServeTimes(s, r, d.served)
      case None => s
  }

  /** What serving a call's frame once means for its transaction. */
  function Meaning(lib: GoLib, op: Op): View -> View {
    v => Observe(v, lib, true, op)
  }

  function Repeat(f: View -> View, v: View, n: nat): View {
    if n == 0 then v else f(Repeat(f, v, n - 1))
  }

  function ObserveTimes(v: View, lib: GoLib, op: Op, n: nat): View {
    Repeat(Meaning(lib, op), v, n)
  }

  /** What the calls through this id amount to, each as often as it was served. */
  function Counted(lib: GoLib, deeds: seq<Deed>, id: string): View {
    if deeds == [] then View(None, [])
    else
      var v, d := Counted(lib, deeds[..|deeds| - 1], id), deeds[|deeds| - 1];
      if d.op.id == id then ObserveTimes(v, lib, d.op, d.served) else v
  }

  function Ops(deeds: seq<Deed>): seq<Op> {
    seq(|deeds|, i requires 0 <= i < |deeds| => deeds[i].op)
  }

  predicate AllFromModules(deeds: seq<Deed>) {
    forall i | 0 <= i < |deeds| :: FromModules(deeds[i].op)
  }

  // ---------------------------------------------------------------- what the server holds

  /** Serving this frame does f to the view of this id. */
  ghost predicate Does(r: Request, id: string, f: View -> View) {
    forall s :: ViewOf(Serve(s, r), id) == f(ViewOf(s, id))
  }

  lemma OwnFrameDoes(lib: GoLib, op: Op, r: Request)
    requires FromModules(op) && op.id != "" && Emit(lib, true, op) == Some(r)
    ensures Does(r, op.id, Meaning(lib, op))
  {
    forall s ensures ViewOf(Serve(s, r), op.id) == Meaning(lib, op)(ViewOf(s, op.id)) {
      OwnFrame(lib, true, s, op);
    }
  }

  lemma OtherFrameDoesNothing(lib: GoLib, op: Op, r: Request, id: string)
    requires FromModules(op) && op.id != id && Emit(lib, true, op) == Some(r)
    ensures Does(r, id, v => v)
  {
    forall s ensures ViewOf(Serve(s, r), id) == ViewOf(s, id) {
      OtherFrame(lib, true, s, op, id);
    }
  }

  lemma {:induction false} DoesTimes(s: Server, r: Request, id: string, f: View -> View, n: nat)
    requires Does(r, id, f)
    ensures ViewOf(ServeTimes(s, r, n), id) == Repeat(f, ViewOf(s, id), n)
  {
    if n > 0 {
      DoesTimes(s, r, id, f, n - 1);
    }
  }

  lemma {:induction false} NothingTimes(v: View, n: nat)
    ensures Repeat(v => v, v, n) == v
  {
    if n > 0 {
      NothingTimes(v, n - 1);
    }
  }

  /** Isolation without the assumption that every frame is served once: a transaction's queue and batches
      are its own calls, each counted as often as it was served. */
  lemma {:induction false} RetriedScopesAreIsolated(lib: GoLib, deeds: seq<Deed>, id: string)
    requires id != "" && AllFromModules(deeds) && PossibleRun(lib, deeds)
    ensures ViewOf(Played(lib, deeds), id) == Counted(lib, deeds, id)
  {
    if deeds != [] {
      var n := |deeds| - 1;
      PrefixPossible(lib, deeds, n);
      RetriedScopesAreIsolated(lib, deeds[..n], id);
      var s, d := Played(lib, deeds[..n]), deeds[n];
      if Emit(lib, true, d.op).None? {
        assert Possible(lib, LinkAfter(lib, deeds[..n]), d);
      } else if d.op.id == id {
        OwnFrameDoes(lib, d.op, Emit(lib, true, d.op).value);
        DoesTimes(s, Emit(lib, true, d.op).value, id, Meaning(lib, d.op), d.served);
      } else {
        OtherFrameDoesNothing(lib, d.op, Emit(lib, true, d.op).value, id);
        DoesTimes(s, Emit(lib, true, d.op).value, id, v => v, d.served);
        NothingTimes(ViewOf(s, id), d.served);
      }
    }
  }

  lemma PrefixPossible(lib: GoLib, deeds: seq<Deed>, n: nat)
    requires PossibleRun(lib, deeds) && n <= |deeds|
    ensures PossibleRun(lib, deeds[..n])
  {
    forall i | 0 <= i < n ensures Possible(lib, LinkAfter(lib, deeds[..n][..i]), deeds[..n][i]) {
      assert deeds[..n][..i] == deeds[..i];
    }
  }

  // ---------------------------------------------------------------- when that is what was issued

  /** Serving the call n times does what serving it once should: a write into an open transaction must be
      served exactly once, a control that has an effect at least once, and anything else is free. */
  predicate Harmless(lib: GoLib, v: View, op: Op, n: nat) {
    if Observe(v, lib, true, op) == v then true
    else if op.Issue? then n == 1
    else n >= 1
  }

  lemma ObserveStep(lib: GoLib, v: View, op: Op, n: nat)
    ensures ObserveTimes(v, lib, op, 0) == v
    ensures ObserveTimes(v, lib, op, n + 1) == Observe(ObserveTimes(v, lib, op, n), lib, true, op)
  {
  }

  lemma {:induction false} ControlTimes(lib: GoLib, v: View, op: Op, n: nat)
    requires op.Control? && n >= 1
    ensures ObserveTimes(v, lib, op, n) == Observe(v, lib, true, op)
  {
    ObserveStep(lib, v, op, n - 1);
    if n > 1 {
      ControlTimes(lib, v, op, n - 1);
    }
  }

  lemma {:induction false} IdleTimes(lib: GoLib, v: View, op: Op, n: nat)
    requires Observe(v, lib, true, op) == v
    ensures ObserveTimes(v, lib, op, n) == v
  {
    if n > 0 {
      IdleTimes(lib, v, op, n - 1);
    }
  }

  lemma {:induction false} WriteTimes(lib: GoLib, v: View, op: Op, n: nat)
    requires op.Issue? && Observe(v, lib, true, op) != v
    ensures ObserveTimes(v, lib, op, n).queue.Some? && v.queue.Some?
    ensures |ObserveTimes(v, lib, op, n).queue.value| == |v.queue.value| + n
  {
    if n > 0 {
      WriteTimes(lib, v, op, n - 1);
    }
  }

  lemma HarmlessIff(lib: GoLib, v: View, op: Op, n: nat)
    ensures ObserveTimes(v, lib, op, n) == Observe(v, lib, true, op) <==> Harmless(lib, v, op, n)
  {
    if Observe(v, lib, true, op) == v {
      IdleTimes(lib, v, op, n);
    } else if op.Issue? {
      WriteTimes(lib, v, op, n);
      ObserveStep(lib, v, op, 0);
    } else if n >= 1 {
      ControlTimes(lib, v, op, n);
    }
  }

  /** Own call i is served as often as its effect allows. */
  predicate HarmlessAt(lib: GoLib, deeds: seq<Deed>, id: string, i: nat)
    requires i < |deeds|
  {
    deeds[i].op.id == id ==> Harmless(lib, Expected(lib, true, Ops(deeds[..i]), id), deeds[i].op, deeds[i].served)
  }

  /** The first n calls leave the transaction as its caller expects. */
  predicate ExactAt(lib: GoLib, deeds: seq<Deed>, id: string, n: nat)
    requires n <= |deeds|
  {
    Counted(lib, deeds[..n], id) == Expected(lib, true, Ops(deeds[..n]), id)
  }

  lemma ExactStep(lib: GoLib, deeds: seq<Deed>, id: string, i: nat)
    requires i < |deeds| && ExactAt(lib, deeds, id, i)
    ensures ExactAt(lib, deeds, id, i + 1) <==> HarmlessAt(lib, deeds, id, i)
  {
    var longer := deeds[..i + 1];
    assert longer[..i] == deeds[..i] && longer[i] == deeds[i];
    assert Ops(longer)[..i] == Ops(deeds[..i]);
    HarmlessIff(lib, Counted(lib, deeds[..i], id), deeds[i].op, deeds[i].served);
  }

  lemma {:induction false} ExactUpTo(lib: GoLib, deeds: seq<Deed>, id: string, n: nat)
    requires n <= |deeds| && forall i | 0 <= i < n :: HarmlessAt(lib, deeds, id, i)
    ensures ExactAt(lib, deeds, id, n)
  {
    if n > 0 {
      ExactUpTo(lib, deeds, id, n - 1);
      ExactStep(lib, deeds, id, n - 1);
    }
  }

  lemma ExactIffHarmless(lib: GoLib, deeds: seq<Deed>, id: string)
    ensures (forall n | 0 <= n <= |deeds| :: ExactAt(lib, deeds, id, n))
       <==> (forall i | 0 <= i < |deeds| :: HarmlessAt(lib, deeds, id, i))
  {
    if forall i | 0 <= i < |deeds| :: HarmlessAt(lib, deeds, id, i) {
      forall n | 0 <= n <= |deeds| ensures ExactAt(lib, deeds, id, n) {
        ExactUpTo(lib, deeds, id, n);
      }
    }
    if forall n | 0 <= n <= |deeds| :: ExactAt(lib, deeds, id, n) {
      forall i | 0 <= i < |deeds| ensures HarmlessAt(lib, deeds, id, i) {
        assert ExactAt(lib, deeds, id, i) && ExactAt(lib, deeds, id, i + 1);
        ExactStep(lib, deeds, id, i);
      }
    }
  }

  /** After the first n calls the server holds for this id what its caller expects. */
  predicate AsExpected(lib: GoLib, deeds: seq<Deed>, id: string, n: nat)
    requires n <= |deeds|
  {
    ViewOf(Played(lib, deeds[..n]), id) == Expected(lib, true, Ops(deeds[..n]), id)
  }

  /** In every possible run the server stays what the caller of a transaction expects, call after call,
      exactly when every write into it was served once and every control that has an effect at least once. */
  lemma AsExpectedIff(lib: GoLib, deeds: seq<Deed>, id: string)
    requires id != "" && AllFromModules(deeds) && PossibleRun(lib, deeds)
    ensures (forall n | 0 <= n <= |deeds| :: AsExpected(lib, deeds, id, n))
       <==> (forall i | 0 <= i < |deeds| :: HarmlessAt(lib, deeds, id, i))
  {
    forall n | 0 <= n <= |deeds| ensures AsExpected(lib, deeds, id, n) <==> ExactAt(lib, deeds, id, n) {
      PrefixPossible(lib, deeds, n);
      RetriedScopesAreIsolated(lib, deeds[..n], id);
    }
    ExactIffHarmless(lib, deeds, id);
  }

  // ---------------------------------------------------------------- what the retry loop guarantees

  lemma {:induction false} LinkAccounted(lib: GoLib, deeds: seq<Deed>)
    ensures Accounted(LinkAfter(lib, deeds))
  {
    if deeds != [] {
      var st, d := LinkAfter(lib, deeds[..|deeds| - 1]), deeds[|deeds| - 1];
      LinkAccounted(lib, deeds[..|deeds| - 1]);
      match FrameOf(lib, d.op)
      case Some(frame) =>
        TryAccounts(lib, st, frame, d.first, false);
        TryAccounts(lib, Try(lib, st, frame, d.first, false).0, frame, d.second, true);
      case None =>
    }
  }

  /** How the first attempt of a call ends. */
  function FirstOutcome(lib: GoLib, st: State, frame: string, d: Deed): Outcome {
    Try(lib, st, frame, d.first, false).1
  }

  /** A frame is served twice at most, and only when the reply to the first could not be read and a second
      connection took it; answered at the first attempt, it is served exactly once. */
  lemma ServedAtMostTwice(lib: GoLib, st: State, d: Deed, frame: string)
    requires Accounted(st) && FrameOf(lib, d.op) == Some(frame) && Possible(lib, st, d)
    ensures var first := FirstOutcome(lib, st, frame, d);
      && d.served <= 2
      && (d.served == 2 ==> first == ReadError && d.second.dialed && d.second.written)
      && (first.Answer? || first.Refusal? ==> d.served == 1)
  {
    var w := RetryDiscipline(lib, st, frame, d.first, d.second);
  }

  /** Every call through this id that sends a frame was answered at its first attempt. */
  predicate AnsweredAtOnce(lib: GoLib, deeds: seq<Deed>, id: string) {
    forall i | 0 <= i < |deeds| && deeds[i].op.id == id && FrameOf(lib, deeds[i].op).Some? ::
      var o := FirstOutcome(lib, LinkAfter(lib, deeds[..i]), FrameOf(lib, deeds[i].op).value, deeds[i]);
      o.Answer? || o.Refusal?
  }

  /** Whatever happens to everyone else's calls: a transaction whose own calls were all answered at the first
      attempt holds exactly the writes its caller issued, and each EXEC applied exactly those. */
  lemma AnsweredAtOnceIsExact(lib: GoLib, deeds: seq<Deed>, id: string)
    requires id != "" && AllFromModules(deeds) && PossibleRun(lib, deeds) && AnsweredAtOnce(lib, deeds, id)
    ensures ViewOf(Played(lib, deeds), id) == Expected(lib, true, Ops(deeds), id)
  {
    forall i | 0 <= i < |deeds| ensures HarmlessAt(lib, deeds, id, i) {
      AnsweredCallIsHarmless(lib, deeds, id, i);
    }
    ExactUpTo(lib, deeds, id, |deeds|);
    assert deeds[..|deeds|] == deeds;
    RetriedScopesAreIsolated(lib, deeds, id);
  }

  lemma AnsweredCallIsHarmless(lib: GoLib, deeds: seq<Deed>, id: string, i: nat)
    requires id != "" && AllFromModules(deeds) && PossibleRun(lib, deeds) && AnsweredAtOnce(lib, deeds, id)
    requires i < |deeds|
    ensures HarmlessAt(lib, deeds, id, i)
  {
    var d, st := deeds[i], LinkAfter(lib, deeds[..i]);
    if d.op.id == id {
      match FrameOf(lib, d.op)
      case Some(frame) =>
        LinkAccounted(lib, deeds[..i]);
        ServedAtMostTwice(lib, st, d, frame);
      case None =>
        SilentCallIsIdle(lib, Expected(lib, true, Ops(deeds[..i]), id), d.op);
    }
  }

  lemma SilentCallIsIdle(lib: GoLib, v: View, op: Op)
    requires FromModules(op) && op.id != "" && FrameOf(lib, op).None?
    ensures Observe(v, lib, true, op) == v
  {
    EmittedFrames(lib, true, op);
  }

  // ---------------------------------------------------------------- a write applied twice

  /** Everything works, and the server's one reply, a value, arrives whole. */
  predicate Prompt(lib: GoLib, a: Attempt) {
    a.dialed && a.written && a.arrives >= |a.answer| && Parse(lib, a.answer).Got? && Parse(lib, a.answer).rest == ""
  }

  lemma OkIsPrompt(lib: GoLib)
    ensures Prompt(lib, Attempt(true, true, Encode(Simple("OK")), |Encode(Simple("OK"))|))
  {
    EncodedReplyReads(lib, Simple("OK"));
  }

  /** Nothing of the reply arrives in time. */
  const LOST := Attempt(true, true, "", 0)

  lemma PromptTry(lib: GoLib, st: State, frame: string, a: Attempt, redial: bool)
    requires Clean(st) && Prompt(lib, a)
    ensures var (s, o) := Try(lib, st, frame, a, redial); o.Answer? && s.link.Up? && Clean(s)
  {
    var c := Connected(st, a, redial);
    assert c.link.Up? && c.link.unread + a.answer == a.answer;
    CutAnswer(lib, c.Note(Wrote(c.link.id, frame, a.answer)), a.answer, a.arrives);
    assert "" + "" == "";
  }

  lemma LostTry(lib: GoLib, st: State, frame: string)
    requires Clean(st)
    ensures var (s, o) := Try(lib, st, frame, LOST, false); o == ReadError && s.link.Down?
  {
    assert Connected(st, LOST, false).link.unread + "" == "";
  }

  lemma PromptCall(lib: GoLib, st: State, d: Deed)
    requires Accounted(st) && Clean(st) && FrameOf(lib, d.op).Some? && Prompt(lib, d.first) && d.served == 1
    ensures Possible(lib, st, d) && Clean(Connect(lib, st, d))
  {
    var frame := FrameOf(lib, d.op).value;
    PromptTry(lib, st, frame, d.first, false);
    var w := RetryDiscipline(lib, st, frame, d.first, d.second);
  }

  /** From any clean state: a call whose first reply is lost and whose second arrives can be served twice. */
  lemma RetriedCall(lib: GoLib, st: State, d: Deed)
    requires Accounted(st) && Clean(st) && FrameOf(lib, d.op).Some?
    requires d.first == LOST && Prompt(lib, d.second) && d.served == 2
    ensures Possible(lib, st, d) && Clean(Connect(lib, st, d))
  {
    var frame := FrameOf(lib, d.op).value;
    LostTry(lib, st, frame);
    PromptTry(lib, Try(lib, st, frame, LOST, false).0, frame, d.second, true);
    var w := RetryDiscipline(lib, st, frame, d.first, d.second);
  }

  /** MULTI, a write, EXEC, with the reply to the write lost once. */
  function LossyRun(op: Op, a: Attempt): seq<Deed> {
    [Deed(Control(op.id, Verb.Multi), a, a, 1), Deed(op, LOST, a, 2), Deed(Control(op.id, Verb.Exec), a, a, 1)]
  }

  lemma SendsFrame(lib: GoLib, op: Op)
    requires FromModules(op)
    requires if op.Issue? then op.id != "" && op.command in ACCEPTED else op.verb != Watch([])
    ensures FrameOf(lib, op).Some?
  {
    EmittedFrames(lib, true, op);
  }

  /** A call answered at once, or at its second attempt. */
  predicate Smooth(lib: GoLib, d: Deed) {
    FrameOf(lib, d.op).Some? &&
    ((Prompt(lib, d.first) && d.served == 1) || (d.first == LOST && Prompt(lib, d.second) && d.served == 2))
  }

  lemma SmoothCall(lib: GoLib, st: State, d: Deed)
    requires Accounted(st) && Clean(st) && Smooth(lib, d)
    ensures Possible(lib, st, d) && Clean(Connect(lib, st, d))
  {
    if d.served == 1 {
      PromptCall(lib, st, d);
    } else {
      RetriedCall(lib, st, d);
    }
  }

  /** These calls are possible and leave a clean connection. */
  ghost predicate Ready(lib: GoLib, deeds: seq<Deed>) {
    PossibleRun(lib, deeds) && Clean(LinkAfter(lib, deeds))
  }

  lemma SmoothStep(lib: GoLib, deeds: seq<Deed>, d: Deed)
    requires Ready(lib, deeds) && Smooth(lib, d)
    ensures Ready(lib, deeds + [d])
  {
    var more := deeds + [d];
    assert more[..|deeds|] == deeds;
    LinkAccounted(lib, deeds);
    SmoothCall(lib, LinkAfter(lib, deeds), d);
    forall i | 0 <= i < |more| ensures Possible(lib, LinkAfter(lib, more[..i]), more[i]) {
      if i < |deeds| {
        assert more[..i] == deeds[..i];
      }
    }
  }

  lemma LossyRunIsPossible(lib: GoLib, op: Op, a: Attempt)
    requires FromModules(op) && op.Issue? && op.id != "" && op.command in ACCEPTED && Prompt(lib, a)
    ensures PossibleRun(lib, LossyRun(op, a))
  {
    var multi, write := Deed(Control(op.id, Verb.Multi), a, a, 1), Deed(op, LOST, a, 2);
    var exec := Deed(Control(op.id, Verb.Exec), a, a, 1);
    SendsFrame(lib, multi.op);
    SendsFrame(lib, op);
    SendsFrame(lib, exec.op);
    SmoothRun(lib, multi, write, exec);
    assert LossyRun(op, a) == [] + [multi] + [write] + [exec];
  }

  lemma SmoothRun(lib: GoLib, x: Deed, y: Deed, z: Deed)
    requires Smooth(lib, x) && Smooth(lib, y) && Smooth(lib, z)
    ensures Ready(lib, [] + [x] + [y] + [z])
  {
    SmoothStep(lib, [], x);
    SmoothStep(lib, [] + [x], y);
    SmoothStep(lib, [] + [x] + [y], z);
  }

  lemma CountedStep(lib: GoLib, deeds: seq<Deed>, d: Deed, id: string)
    requires d.op.id == id
    ensures Counted(lib, deeds + [d], id) == ObserveTimes(Counted(lib, deeds, id), lib, d.op, d.served)
    ensures Expected(lib, true, Ops(deeds + [d]), id) == Observe(Expected(lib, true, Ops(deeds), id), lib, true, d.op)
  {
    assert (deeds + [d])[..|deeds|] == deeds;
    assert Ops(deeds + [d])[..|deeds|] == Ops(deeds);
  }

  /** A lost reply makes EXEC apply a write twice that was issued once: for every accepted write there is a
      possible run of three calls whose one batch holds it twice. */
  lemma RetryAppliesTwice(lib: GoLib, op: Op, a: Attempt)
    requires FromModules(op) && op.Issue? && op.id != "" && op.command in ACCEPTED && Prompt(lib, a)
    ensures PossibleRun(lib, LossyRun(op, a))
    ensures var q := Unscoped(lib, op.command, op.payload, true);
      && q.Some?
      && ViewOf(Played(lib, LossyRun(op, a)), op.id) == View(None, [[q.value, q.value]])
      && Expected(lib, true, Ops(LossyRun(op, a)), op.id) == View(None, [[q.value]])
  {
    LossyRunIsPossible(lib, op, a);
    AcceptedIff(lib, op.command, op.payload, true);
    RetriedScopesAreIsolated(lib, LossyRun(op, a), op.id);
    CountedTwice(lib, op, LossyRun(op, a), Unscoped(lib, op.command, op.payload, true).value);
  }

  lemma CountedTwice(lib: GoLib, op: Op, ds: seq<Deed>, q: Request)
    requires op.Issue? && op.command in ACCEPTED && Unscoped(lib, op.command, op.payload, true) == Some(q)
    requires |ds| == 3 && ds[1].op == op
    requires ds[0].op == Control(op.id, Verb.Multi) && ds[2].op == Control(op.id, Verb.Exec)
    requires ds[0].served == 1 && ds[1].served == 2 && ds[2].served == 1
    ensures Counted(lib, ds, op.id) == View(None, [[q, q]])
    ensures Expected(lib, true, Ops(ds), op.id) == View(None, [[q]])
  {
    CountedStep(lib, [], ds[0], op.id);
    CountedStep(lib, [ds[0]], ds[1], op.id);
    CountedStep(lib, [ds[0], ds[1]], ds[2], op.id);
    assert [] + [ds[0]] == [ds[0]] && [ds[0]] + [ds[1]] == [ds[0], ds[1]] && [ds[0], ds[1]] + [ds[2]] == ds;
    assert Ops([]) == [];
    ControlTimes(lib, View(None, []), ds[0].op, 1);
    WriteTwice(lib, View(Some([]), []), op, q);
    ControlTimes(lib, View(Some([q, q]), []), ds[2].op, 1);
  }

  lemma WriteTwice(lib: GoLib, v: View, op: Op, q: Request)
    requires op.Issue? && op.command in ACCEPTED && Unscoped(lib, op.command, op.payload, true) == Some(q)
    requires v.queue == Some([])
    ensures ObserveTimes(v, lib, op, 2) == v.(queue := Some([q, q]))
    ensures Observe(v, lib, true, op) == v.(queue := Some([q]))
  {
    ObserveStep(lib, v, op, 0);
    ObserveStep(lib, v, op, 1);
    assert [] + [q] == [q] && [q] + [q] == [q, q];
  }
}
