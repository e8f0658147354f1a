/** Whole runs of `Resp3Transport`: each reply answers the frame just written, a frame is written at
    most twice, and no connection is lost track of. */
module Resp3Runs {
  import opened GoValues
  import opened RespCodec
  import opened RespLocality
  import opened RespRoundTrip
  import opened Resp3Transport

  /** No bytes of an earlier reply are waiting. */
  predicate Clean(st: State) {
    st.link.Up? ==> st.link.unread == ""
  }

  /** What the server sends for one frame holds at most one reply: if it reads as anything at all, it
      is used up. Garbage the reader rejects and replies cut short satisfy it too. */
  predicate AtMostOneReply(lib: GoLib, answer: string) {
    Parse(lib, answer).HasRest() ==> Parse(lib, answer).rest == ""
  }

  /** The last thing on the record is this frame, written on the connection still held, and the
      outcome is what the server's answer to it reads as. */
  predicate AnswersLast(lib: GoLib, st: State, frame: string, outcome: Outcome) {
    && st.link.Up? && st.log != []
    && var e := st.log[|st.log| - 1];
    && e.Wrote? && e.frame == frame && e.id == st.link.id
    && match outcome
       case Answer(v) => Parse(lib, e.answer) == Got(v, "")
       case Refusal(m) => Parse(lib, e.answer) == ServerError(m, "")
       case Crash => Parse(lib, e.answer) == Panicked("")
       case _ => false
  }

  predicate Settled(lib: GoLib, st: State, frame: string, outcome: Outcome) {
    Clean(st) && if outcome.Retried() then st.link.Down? else AnswersLast(lib, st, frame, outcome)
  }

  /** When bytes arrive makes no difference, unless they arrive too late to be read at all. */
  lemma ArrivalIrrelevant(lib: GoLib, sent: State, stream: string, n: nat)
    requires sent.link.Up?
    ensures var cut := Parse(lib, Take(stream, n));
      cut.Short? || Verdict(sent, cut, Skip(stream, n)) == Verdict(sent, Parse(lib, stream), "")
  {
    var cut, late := Take(stream, n), Skip(stream, n);
    assert cut + late == stream;
    var p := Parse(lib, cut);
    if !p.Short? {
      ParseStays(lib, cut, late);
      VerdictPlus(sent, p, late);
    }
  }

  lemma VerdictPlus(sent: State, p: Read<Value>, late: string)
    requires sent.link.Up? && !p.Short?
    ensures Verdict(sent, p, late) == Verdict(sent, p.Plus(late), "")
  {
    if p.HasRest() {
      assert p.rest + late + "" == p.rest + late;
    }
  }

  lemma VerdictSettles(lib: GoLib, st: State, frame: string, answer: string)
    requires st.link.Up? && AtMostOneReply(lib, answer)
    ensures var (s, o) := Verdict(st.Note(Wrote(st.link.id, frame, answer)), Parse(lib, answer), "");
      Settled(lib, s, frame, o)
  {
    assert "" + "" == "";
  }

  lemma ExchangeSettles(lib: GoLib, st: State, frame: string, a: Attempt)
    requires st.link.Up? && Clean(st) && AtMostOneReply(lib, a.answer)
    ensures var (s, o) := Exchange(lib, st, frame, a); Settled(lib, s, frame, o)
  {
    if a.written {
      assert st.link.unread + a.answer == a.answer;
      ArrivalIrrelevant(lib, st.Note(Wrote(st.link.id, frame, a.answer)), a.answer, a.arrives);
      VerdictSettles(lib, st, frame, a.answer);
    }
  }

  lemma TrySettles(lib: GoLib, st: State, frame: string, a: Attempt, redial: bool)
    requires Clean(st) && AtMostOneReply(lib, a.answer)
    ensures var (s, o) := Try(lib, st, frame, a, redial); Settled(lib, s, frame, o)
  {
    var c := Connected(st, a, redial);
    if c.link.Up? {
      ExchangeSettles(lib, c, frame, a);
    }
  }

  /** One call, whatever the network does: a value or server error is the reply to the frame this call
      last wrote, read to its end; on any other error the connection is gone. */
  lemma ReplyAnswersFrame(lib: GoLib, st: State, frame: string, a0: Attempt, a1: Attempt)
    requires Clean(st) && AtMostOneReply(lib, a0.answer) && AtMostOneReply(lib, a1.answer)
    ensures var (s, o) := Execution(lib, st, frame, a0, a1); Settled(lib, s, frame, o)
  {
    TrySettles(lib, st, frame, a0, false);
    var (s, o) := Try(lib, st, frame, a0, false);
    if o.Retried() {
      TrySettles(lib, s, frame, a1, true);
    }
  }

  /** In either attempt, on a kept connection or a new one: a reply some of whose bytes are missing when
      the deadline passes is never taken for a value or a server error, and the connection is dropped;
      a reply all of whose bytes arrived is. */
  lemma TruncatedReplyDropsConnection(lib: GoLib, st: State, frame: string, a: Attempt, redial: bool)
    requires Clean(st) && Connected(st, a, redial).link.Up? && a.written
    requires Parse(lib, a.answer).HasRest() && AtMostOneReply(lib, a.answer)
    ensures var (s, o) := Try(lib, st, frame, a, redial);
      && (o == ReadError <==> a.arrives < |a.answer|)
      && (o == ReadError <==> s.link.Down?)
  {
    var c := Connected(st, a, redial);
    CutAnswer(lib, c.Note(Wrote(c.link.id, frame, a.answer)), a.answer, a.arrives);
    assert c.link.unread + a.answer == a.answer;
  }

  /** What becomes of a call whose answer is readable, by how much of the answer arrives: too little and
      the connection is dropped, otherwise the outcome is that of the whole answer. */
  lemma CutAnswer(lib: GoLib, sent: State, answer: string, n: nat)
    requires sent.link.Up? && Parse(lib, answer).HasRest()
    ensures Verdict(sent, Parse(lib, Take(answer, n)), Skip(answer, n))
         == if n < |answer| - |Parse(lib, answer).rest| then (sent.Drop(), ReadError)
            else Verdict(sent, Parse(lib, answer), "")
  {
    ArrivalIrrelevant(lib, sent, answer, n);
    var k := if n < |answer| then n else |answer|;
    TruncationIsShort(lib, answer, k);
    assert answer[..|answer|] == answer && Take(answer, n) == answer[..k];
  }

  // ---------------------------------------------------------------- what a call comes to

  /** The outcome that a readable reply stands for. */
  predicate Means(o: Outcome, p: Read<Value>) {
    match p
    case Got(v, _) => o == Answer(v)
    case ServerError(msg, _) => o == Refusal(msg)
    case Panicked(_) => o == Crash
    case _ => false
  }

  /** What reading comes to when this much of the stream arrives in time. */
  function ReadInTime(lib: GoLib, stream: string, arrives: nat): Read<Value> {
    Parse(lib, if arrives < |stream| then stream[..arrives] else stream)
  }

  /** The first attempt gets an answer: it has a connection or dials one, writes, and can read a reply. */
  predicate FirstAnswered(lib: GoLib, st: State, a: Attempt) {
    && (st.link.Up? || a.dialed) && a.written
    && ReadInTime(lib, (if st.link.Up? then st.link.unread else "") + a.answer, a.arrives).HasRest()
  }

  /** The outcome of every call, from any state and against any network. The first attempt decides if it is
      answered. Whatever else it fails of, a dial, a write or a read, the call is tried once more on a new
      connection, and that attempt decides. */
  lemma CallOutcome(lib: GoLib, st: State, frame: string, a0: Attempt, a1: Attempt)
    ensures var o := Execution(lib, st, frame, a0, a1).1;
      if FirstAnswered(lib, st, a0) then
        Means(o, ReadInTime(lib, (if st.link.Up? then st.link.unread else "") + a0.answer, a0.arrives))
      else if !a1.dialed then o == ConnectError
      else if !a1.written then o == WriteError
      else if ReadInTime(lib, a1.answer, a1.arrives).HasRest() then Means(o, ReadInTime(lib, a1.answer, a1.arrives))
      else o == ReadError
  {
    FirstTry(lib, st, frame, a0);
    SecondTry(lib, Try(lib, st, frame, a0, false).0, frame, a1);
  }

  lemma FirstTry(lib: GoLib, st: State, frame: string, a: Attempt)
    ensures var o := Try(lib, st, frame, a, false).1;
      if FirstAnswered(lib, st, a) then
        Means(o, ReadInTime(lib, (if st.link.Up? then st.link.unread else "") + a.answer, a.arrives))
      else o == ConnectError || o == WriteError || o == ReadError
  {
  }

  lemma SecondTry(lib: GoLib, st: State, frame: string, a: Attempt)
    ensures var o := Try(lib, st, frame, a, true).1;
      if !a.dialed then o == ConnectError
      else if !a.written then o == WriteError
      else if ReadInTime(lib, a.answer, a.arrives).HasRest() then Means(o, ReadInTime(lib, a.answer, a.arrives))
      else o == ReadError
  {
    assert "" + a.answer == a.answer;
  }

  /** A connection the server has dropped is no error to the caller: whether the first attempt cannot dial,
      cannot write or reads no reply, a second that dials, writes and gets its whole answer gives that answer. */
  lemma RetryRecovers(lib: GoLib, st: State, frame: string, a0: Attempt, a1: Attempt)
    requires Clean(st)
    requires (st.link.Down? && !a0.dialed) || !a0.written || !ReadInTime(lib, a0.answer, a0.arrives).HasRest()
    requires a1.dialed && a1.written && a1.arrives >= |a1.answer|
    ensures var o := Execution(lib, st, frame, a0, a1).1;
      match Parse(lib, a1.answer)
      case Got(v, _) => o == Answer(v)
      case ServerError(msg, _) => o == Refusal(msg)
      case Panicked(_) => o == Crash
      case _ => o == ReadError
  {
    CallOutcome(lib, st, frame, a0, a1);
    assert "" + a0.answer == a0.answer;
  }

  /** A call ends in an error of the transport only if its second attempt failed, and with that error. */
  lemma ErrorsAreTheSecondAttempts(lib: GoLib, st: State, frame: string, a0: Attempt, a1: Attempt)
    ensures var o := Execution(lib, st, frame, a0, a1).1;
      && (o == ConnectError ==> !a1.dialed)
      && (o == WriteError ==> a1.dialed && !a1.written)
      && (o == ReadError ==> a1.dialed && a1.written && !ReadInTime(lib, a1.answer, a1.arrives).HasRest())
  {
    CallOutcome(lib, st, frame, a0, a1);
  }

  // ---------------------------------------------------------------- runs

  datatype Call = Exec(frame: string, first: Attempt, second: Attempt) | Close

  function Step(lib: GoLib, st: State, c: Call): (State, Outcome) {
    match c
    case Exec(f, a0, a1) => Execution(lib, st, f, a0, a1)
    case Close => (st.Drop(), ConnectError)
  }

  /** The state a sequence of calls leads to. */
  function After(lib: GoLib, st: State, calls: seq<Call>): State {
    if calls == [] then st else Step(lib, After(lib, st, calls[..|calls| - 1]), calls[|calls| - 1]).0
  }

  predicate HonestServer(lib: GoLib, calls: seq<Call>) {
    forall i | 0 <= i < |calls| && calls[i].Exec? ::
      AtMostOneReply(lib, calls[i].first.answer) && AtMostOneReply(lib, calls[i].second.answer)
  }

  /** One step of a run: it starts clean, and a call's outcome is the reply to its own frame. */
  predicate StepAligned(lib: GoLib, st: State, c: Call, st': State) {
    var (s, o) := Step(lib, st, c);
    Clean(st) && st' == s && (c.Exec? ==> Settled(lib, st', c.frame, o))
  }

  lemma StepIsAligned(lib: GoLib, st: State, c: Call)
    requires Clean(st)
    requires c.Exec? ==> AtMostOneReply(lib, c.first.answer) && AtMostOneReply(lib, c.second.answer)
    ensures StepAligned(lib, st, c, Step(lib, st, c).0) && Clean(Step(lib, st, c).0)
  {
    if c.Exec? {
      ReplyAnswersFrame(lib, st, c.frame, c.first, c.second);
    }
  }

  lemma {:induction false} StaysClean(lib: GoLib, st: State, calls: seq<Call>)
    requires Clean(st) && HonestServer(lib, calls)
    ensures Clean(After(lib, st, calls))
  {
    if calls != [] {
      var n := |calls| - 1;
      StaysClean(lib, st, calls[..n]);
      StepIsAligned(lib, After(lib, st, calls[..n]), calls[n]);
    }
  }

  /** Reply alignment over every run of calls and closes, against every network: each call settles,
      and between calls a kept connection has no unread bytes. */
  lemma RunStaysAligned(lib: GoLib, st: State, calls: seq<Call>, i: nat)
    requires Clean(st) && HonestServer(lib, calls) && i < |calls|
    ensures StepAligned(lib, After(lib, st, calls[..i]), calls[i], After(lib, st, calls[..i + 1]))
  {
    StaysClean(lib, st, calls[..i]);
    StepIsAligned(lib, After(lib, st, calls[..i]), calls[i]);
    assert calls[..i + 1][..i] == calls[..i];
  }

  // ---------------------------------------------------------------- retry discipline

  /** Connections dialed and not closed. */
  function OpenIn(log: seq<Event>): set<nat> {
    if log == [] then {}
    else
      var open := OpenIn(log[..|log| - 1]);
      match log[|log| - 1]
      case Dialed(id) => open + {id}
      case Closed(id) => open - {id}
      case _ => open
  }

  /** The connection held is the one open connection, and its number has been used up. */
  predicate Accounted(st: State) {
    && OpenIn(st.log) == (if st.link.Up? then {st.link.id} else {})
    && (st.link.Up? ==> st.link.id < st.next)
  }

  lemma NoteOpen(st: State, e: Event)
    ensures OpenIn(st.Note(e).log) == match e
      case Dialed(id) => OpenIn(st.log) + {id}
      case Closed(id) => OpenIn(st.log) - {id}
      case _ => OpenIn(st.log)
  {
    assert st.Note(e).log[..|st.log|] == st.log;
  }

  lemma TryAccounts(lib: GoLib, st: State, frame: string, a: Attempt, redial: bool)
    requires Accounted(st)
    ensures Accounted(Try(lib, st, frame, a, redial).0)
  {
    ConnectedAccounts(st, a, redial);
    var c := Connected(st, a, redial);
    if c.link.Up? {
      ExchangeAccounts(lib, c, frame, a);
    }
  }

  lemma DropAccounts(st: State)
    requires Accounted(st)
    ensures Accounted(st.Drop())
  {
    if st.link.Up? {
      NoteOpen(st, Closed(st.link.id));
    }
  }

  lemma ConnectedAccounts(st: State, a: Attempt, redial: bool)
    requires Accounted(st)
    ensures Accounted(Connected(st, a, redial))
  {
    DropAccounts(st);
    NoteOpen(st.Drop(), Dialed(st.next));
    NoteOpen(st.Drop(), DialFailed);
  }

  lemma ExchangeAccounts(lib: GoLib, st: State, frame: string, a: Attempt)
    requires Accounted(st) && st.link.Up?
    ensures Accounted(Exchange(lib, st, frame, a).0)
  {
    var failed, sent := st.Note(WriteFailed(st.link.id)), st.Note(Wrote(st.link.id, frame, a.answer));
    NoteOpen(st, WriteFailed(st.link.id));
    NoteOpen(st, Wrote(st.link.id, frame, a.answer));
    DropAccounts(failed);
    DropAccounts(sent);
  }

  /** No run, against any network and any server, honest or not, leaks a connection or holds two. */
  lemma {:induction false} RunAccountsForConnections(lib: GoLib, calls: seq<Call>)
    ensures Accounted(After(lib, State(Down, 0, []), calls))
  {
    if calls != [] {
      var st := After(lib, State(Down, 0, []), calls[..|calls| - 1]);
      RunAccountsForConnections(lib, calls[..|calls| - 1]);
      match calls[|calls| - 1]
      case Close => DropAccounts(st);
      case Exec(f, a0, a1) =>
        TryAccounts(lib, st, f, a0, false);
        TryAccounts(lib, Try(lib, st, f, a0, false).0, f, a1, true);
    }
  }

  /** The frame's complete writes, by connection. */
  function Writes(log: seq<Event>): seq<nat> {
    if log == [] then []
    else
      var e := log[|log| - 1];
      Writes(log[..|log| - 1]) + if e.Wrote? then [e.id] else []
  }

  lemma NoteWrites(st: State, e: Event)
    ensures Writes(st.Note(e).log) == Writes(st.log) + if e.Wrote? then [e.id] else []
  {
    assert st.Note(e).log[..|st.log|] == st.log;
  }

  lemma DropWrites(st: State)
    ensures Writes(st.Drop().log) == Writes(st.log)
  {
    if st.link.Up? {
      NoteWrites(st, Closed(st.link.id));
    }
  }

  lemma ConnectedWrites(st: State, a: Attempt, redial: bool)
    ensures Writes(Connected(st, a, redial).log) == Writes(st.log)
  {
    DropWrites(st);
    NoteWrites(st.Drop(), Dialed(st.next));
    NoteWrites(st.Drop(), DialFailed);
  }

  lemma ExchangeWrites(lib: GoLib, st: State, frame: string, a: Attempt)
    requires st.link.Up?
    ensures Writes(Exchange(lib, st, frame, a).0.log) == Writes(st.log) + if a.written then [st.link.id] else []
  {
    var failed, sent := st.Note(WriteFailed(st.link.id)), st.Note(Wrote(st.link.id, frame, a.answer));
    NoteWrites(st, WriteFailed(st.link.id));
    NoteWrites(st, Wrote(st.link.id, frame, a.answer));
    DropWrites(failed);
    DropWrites(sent);
  }

  /** How one attempt from st, ending in s with outcome o, writes: w is its complete write, if any. */
  ghost predicate OneTry(st: State, s: State, o: Outcome, a: Attempt, redial: bool, w: seq<nat>) {
    && Writes(s.log) == Writes(st.log) + w && |w| <= 1
    && (w == [] <==> o == ConnectError || o == WriteError)
    && (w != [] ==> w[0] < s.next && (redial ==> w[0] == st.next && a.dialed && a.written))
    && (redial && a.dialed && a.written ==> w != [])
    && (o.Retried() ==> s.link.Down?)
    && (o == ReadError ==> s.log != [] && s.log[|s.log| - 1] == Closed(w[0]))
  }

  lemma TryWrites(lib: GoLib, st: State, frame: string, a: Attempt, redial: bool) returns (w: seq<nat>)
    requires Accounted(st)
    ensures OneTry(st, Try(lib, st, frame, a, redial).0, Try(lib, st, frame, a, redial).1, a, redial, w)
  {
    ConnectedWrites(st, a, redial);
    var c := Connected(st, a, redial);
    w := [];
    if c.link.Up? {
      ExchangeWrites(lib, c, frame, a);
      ExchangeEnds(lib, c, frame, a);
      w := if a.written then [c.link.id] else [];
    }
  }

  lemma ExchangeEnds(lib: GoLib, st: State, frame: string, a: Attempt)
    requires st.link.Up?
    ensures var (s, o) := Exchange(lib, st, frame, a);
      && o != ConnectError && (o == WriteError <==> !a.written) && s.next == st.next
      && (o.Retried() ==> s.link.Down?)
      && (o == ReadError ==> s.log != [] && s.log[|s.log| - 1] == Closed(st.link.id))
  {
  }

  /** A call that wrote w, whose first attempt led to `mid`. A second write needs a first whose reply
      could not be read, its connection closed, and a new connection that took the whole frame. */
  ghost predicate Disciplined(st: State, mid: State, first: Outcome, s: State, o: Outcome, a1: Attempt, w: seq<nat>) {
    && Writes(s.log) == Writes(st.log) + w && |w| <= 2
    && (|w| == 2 <==> first == ReadError && a1.dialed && a1.written)
    && (|w| == 2 ==> w[0] < w[1] && mid.link.Down? && mid.log != [] && mid.log[|mid.log| - 1] == Closed(w[0]))
    && (!first.Retried() ==> |w| == 1 && (s, o) == (mid, first))
  }

  lemma TwoTries(st: State, mid: State, first: Outcome, s: State, o: Outcome, a0: Attempt, a1: Attempt,
      w0: seq<nat>, w1: seq<nat>)
    requires OneTry(st, mid, first, a0, false, w0)
    requires if first.Retried() then OneTry(mid, s, o, a1, true, w1) else (s, o) == (mid, first) && w1 == []
    ensures Disciplined(st, mid, first, s, o, a1, w0 + w1)
  {
    assert Writes(st.log) + w0 + w1 == Writes(st.log) + (w0 + w1);
    assert w0 + [] == w0;
  }

  /** One call writes its frame on at most two connections, and after a value or a server error
      nothing is sent again. */
  lemma RetryDiscipline(lib: GoLib, st: State, frame: string, a0: Attempt, a1: Attempt) returns (w: seq<nat>)
    requires Accounted(st)
    ensures var (mid, first) := Try(lib, st, frame, a0, false);
      var (s, o) := Execution(lib, st, frame, a0, a1);
      Disciplined(st, mid, first, s, o, a1, w)
  {
    var w0 := TryWrites(lib, st, frame, a0, false);
    var w1 := [];
    var (mid, first) := Try(lib, st, frame, a0, false);
    var (s, o) := Execution(lib, st, frame, a0, a1);
    if first.Retried() {
      TryAccounts(lib, st, frame, a0, false);
      w1 := TryWrites(lib, mid, frame, a1, true);
    }
    TwoTries(st, mid, first, s, o, a0, a1, w0, w1);
    w := w0 + w1;
  }

  /** An answer that reads as d, however much of it arrives and in whichever attempt. */
  lemma KeptConnection(lib: GoLib, st: State, frame: string, a: Attempt, redial: bool, d: Read<Value>)
    requires Clean(st) && Connected(st, a, redial).link.Up? && a.written
    requires d.HasRest() && Parse(lib, a.answer) == d
    ensures var (s, o) := Try(lib, st, frame, a, redial);
      if a.arrives < |a.answer| - |d.rest| then o == ReadError && s.link.Down?
      else s.link.Up? && s.link.unread == d.rest
  {
    var c := Connected(st, a, redial);
    CutAnswer(lib, c.Note(Wrote(c.link.id, frame, a.answer)), a.answer, a.arrives);
    assert c.link.unread + a.answer == a.answer;
    assert d.rest + "" == d.rest;
  }

  /** A well-formed reply: the connection is dropped exactly when the reply is cut before its end or the end
      of its first error; otherwise it is kept, and it is clean exactly when no error in the reply is
      followed by anything. */
  lemma KeptConnectionIff(lib: GoLib, st: State, frame: string, t: Reply, a: Attempt, redial: bool)
    requires WellFormed(lib, t) && Clean(st) && Connected(st, a, redial).link.Up?
    requires a.written && a.answer == Encode(t)
    ensures Denote(lib, t).HasRest()
    ensures var (s, o) := Try(lib, st, frame, a, redial);
      if a.arrives < |Encode(t)| - |Denote(lib, t).rest| then o == ReadError && s.link.Down?
      else s.link.Up? && s.link.unread == Denote(lib, t).rest && (Clean(s) <==> ErrorsLast(t))
  {
    EncodedReplyReads(lib, t);
    KeptConnection(lib, st, frame, a, redial, Denote(lib, t));
  }

  /** The assumption on the server, for a server that answers with one well-formed reply. */
  lemma OneReplyIff(lib: GoLib, t: Reply)
    requires WellFormed(lib, t)
    ensures AtMostOneReply(lib, Encode(t)) <==> ErrorsLast(t)
  {
    EncodedReplyReads(lib, t);
  }

  lemma EncodedReplyReads(lib: GoLib, t: Reply)
    requires WellFormed(lib, t)
    ensures Denote(lib, t).HasRest() && Parse(lib, Encode(t)) == Denote(lib, t)
    ensures Denote(lib, t).rest == "" <==> ErrorsLast(t)
  {
    assert Encode(t) + "" == Encode(t);
    ReadInvertsEncode(lib, t, "");
    DenoteLeaves(lib, t);
    var left := Denote(lib, t).rest;
    assert left + "" == left;
  }

  /** The failure, concretely: an array whose first element is an error makes the next call return
      the array's second element instead of its own reply. */
  lemma NestedErrorMisalignsNextCall(lib: GoLib, st: State, f: string, g: string, bad: Attempt, good: Attempt)
    requires st.link.Up? && st.link.unread == "" && lib.maxAlloc >= 2 * INTERFACE_SIZE
    requires bad.written && bad.answer == Encode(Array([Error("ERR"), Integer(1)])) && bad.arrives >= |bad.answer|
    requires good.written && good.answer == Encode(Simple("OK"))
      && good.arrives >= |Encode(Integer(1)) + good.answer|
    ensures var (s, o) := Execution(lib, st, f, bad, bad);
      o == Refusal("ERR") && Execution(lib, s, g, good, good).1 == Answer(Int64(1))
  {
    NestedErrorLeavesElements(lib);
    ErrorLeaves(lib, st, f, bad, "ERR", Encode(Integer(1)));
    LeftoverAnswers(lib, Execution(lib, st, f, bad, bad).0, g, good, Integer(1));
  }

  /** A call whose answer is a server error followed by more keeps the connection with what follows unread. */
  lemma ErrorLeaves(lib: GoLib, st: State, frame: string, a: Attempt, msg: string, left: string)
    requires st.link.Up? && st.link.unread == "" && a.written && a.arrives >= |a.answer|
    requires Parse(lib, a.answer) == ServerError(msg, left)
    ensures var (s, o) := Execution(lib, st, frame, a, a);
      o == Refusal(msg) && s.link.Up? && s.link.unread == left
  {
    assert st.link.unread + a.answer == a.answer;
    WholeAnswer(lib, st, frame, a);
    assert left + "" == left;
  }

  /** A call on a connection with a reply left over from before returns that reply. */
  lemma LeftoverAnswers(lib: GoLib, st: State, frame: string, a: Attempt, t: Reply)
    requires st.link.Up? && WellFormed(lib, t) && st.link.unread == Encode(t) && Denote(lib, t).Got?
    requires a.written && a.arrives >= |Encode(t) + a.answer|
    ensures Execution(lib, st, frame, a, a).1 == Answer(Denote(lib, t).value)
  {
    ReadInvertsEncode(lib, t, a.answer);
    WholeAnswer(lib, st, frame, a);
  }

  /** A call on a held connection whose answer arrives whole. */
  lemma WholeAnswer(lib: GoLib, st: State, frame: string, a: Attempt)
    requires st.link.Up? && a.written && a.arrives >= |st.link.unread + a.answer|
    requires Parse(lib, st.link.unread + a.answer).HasRest()
    ensures Execution(lib, st, frame, a, a)
         == Verdict(st.Note(Wrote(st.link.id, frame, a.answer)), Parse(lib, st.link.unread + a.answer), "")
  {
    var stream := st.link.unread + a.answer;
    assert Take(stream, a.arrives) == stream && Skip(stream, a.arrives) == "";
  }
}
