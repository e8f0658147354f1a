/** `Resp3Transport`: one connection, one command at a time, at most one retry.

    The network is the environment: what it does in each attempt is an input, so every theorem is
    about every behaviour of the network and of the server behind it. */
module Resp3Transport {
  import opened GoValues
  import opened RespCodec
  import opened RespReader
  import opened RespFrames

  /** What the network does in one attempt: whether a dial succeeds, whether the write completes, what
      the server sends on that connection because of the frame, and how many of the bytes it has sent
      arrive before the deadline. */
  datatype Attempt = Attempt(dialed: bool, written: bool, answer: string, arrives: nat)

  datatype Event =
    | Dialed(id: nat)
    | DialFailed
    | Wrote(id: nat, frame: string, answer: string)
    | WriteFailed(id: nat)
    | Closed(id: nat)

  /** `unread` is everything the server has sent that no reply has consumed. */
  datatype Link = Down | Up(id: nat, unread: string)

  datatype State = State(link: Link, next: nat, log: seq<Event>) {
    function Note(e: Event): State {
      this.(log := log + [e])
    }

    function Drop(): State {
      if link.Up? then State(Down, next, log + [Closed(link.id)]) else this
    }
  }

  datatype Outcome = Answer(v: Value) | Refusal(msg: string) | ConnectError | WriteError | ReadError | Crash {
    /** The loop tries again only after these. */
    predicate Retried() {
      ConnectError? || WriteError? || ReadError?
    }
  }

  function Take(s: string, n: nat): string {
    if n < |s| then s[..n] else s
  }

  function Skip(s: string, n: nat): string {
    if n < |s| then s[n..] else ""
  }

  // ---------------------------------------------------------------- the specification

  /** A usable connection, dialing when there is none or when `redial` asks for a new one. */
  function Connected(st: State, a: Attempt, redial: bool): State {
    if st.link.Up? && !redial then st
    else if a.dialed then State(Up(st.next, ""), st.next + 1, st.Drop().log + [Dialed(st.next)])
    else st.Drop().Note(DialFailed)
  }

  /** What reading p makes of a call whose frame has been written; `late` arrives afterwards. */
  function Verdict(sent: State, p: Read<Value>, late: string): (State, Outcome)
    requires sent.link.Up?
  {
    match p
    case Got(v, r) => (sent.(link := Up(sent.link.id, r + late)), Answer(v))
    case ServerError(m, r) => (sent.(link := Up(sent.link.id, r + late)), Refusal(m))
    case Panicked(r) => (sent.(link := Up(sent.link.id, r + late)), Crash)
    case _ => (sent.Drop(), ReadError)
  }

  /** Write the frame, then read one reply from what arrives in time. */
  function Exchange(lib: GoLib, st: State, frame: string, a: Attempt): (State, Outcome)
    requires st.link.Up?
  {
    if !a.written then (st.Note(WriteFailed(st.link.id)).Drop(), WriteError)
    else
      var stream := st.link.unread + a.answer;
      Verdict(st.Note(Wrote(st.link.id, frame, a.answer)),
              Parse(lib, Take(stream, a.arrives)), Skip(stream, a.arrives))
  }

  function Try(lib: GoLib, st: State, frame: string, a: Attempt, redial: bool): (State, Outcome) {
    var c := Connected(st, a, redial);
    if c.link.Down? then (c, ConnectError) else Exchange(lib, c, frame, a)
  }

  function Execution(lib: GoLib, st: State, frame: string, a0: Attempt, a1: Attempt): (State, Outcome) {
    var (s, o) := Try(lib, st, frame, a0, false);
    if o.Retried() then Try(lib, s, frame, a1, true) else (s, o)
  }

  // ---------------------------------------------------------------- the implementation

  class Conn {
    ghost const id: nat
    var open: bool
    /** Sent by the server, not yet arrived. */
    var inflight: string

    constructor (ghost id: nat)
      ensures this.id == id && open && inflight == ""
    {
      this.id, open, inflight := id, true, "";
    }
  }

  class Transport {
    var conn: Conn?
    var reader: Reader?
    ghost var next: nat
    ghost var log: seq<Event>

    /** `conn` and `reader` are set and cleared together, and the connection held is open. */
    ghost predicate Valid()
      reads this, conn
    {
      && (conn == null <==> reader == null)
      && (conn != null ==> conn.open && conn.id < next)
    }

    ghost function Now(): State
      requires Valid()
      reads this, conn, reader
    {
      State(if conn == null then Down else Up(conn.id, reader.data + conn.inflight), next, log)
    }

    constructor ()
      ensures Valid() && Now() == State(Down, 0, [])
    {
      conn, reader, next, log := null, null, 0, [];
    }

    method Release()
      requires Valid()
      modifies this, conn
      ensures Valid() && Now() == old(Now()).Drop() && conn == null
      ensures old(conn) != null ==> !old(conn).open
    {
      if conn != null {
        log := log + [Closed(conn.id)];
        conn.open := false;
        conn := null;
        reader := null;
      }
    }

    /** `doConnect`. */
    method Connect(a: Attempt) returns (ok: bool)
      requires Valid() && conn == null
      modifies this
      ensures Valid() && ok == a.dialed
      ensures Now() == Connected(old(Now()), a, true)
      ensures conn != null ==> fresh(conn) && fresh(reader)
    {
      if !a.dialed {
        log := log + [DialFailed];
        return false;
      }
      conn := new Conn(next);
      reader := new Reader();
      log := log + [Dialed(next)];
      next := next + 1;
      assert reader.data + conn.inflight == "";
      return true;
    }

    /** One turn of the retry loop. */
    method TryOnce(lib: GoLib, frame: string, a: Attempt, attempt: nat) returns (outcome: Outcome)
      requires Valid()
      modifies this, conn, reader
      ensures Valid() && (Now(), outcome) == Try(lib, old(Now()), frame, a, attempt == 1)
      ensures conn != old(conn) && conn != null ==> fresh(conn)
      ensures reader != old(reader) && reader != null ==> fresh(reader)
      ensures outcome.Retried() ==> conn == null
    {
      if conn == null || attempt == 1 {
        if conn != null {
          Release();
        }
        var ok := Connect(a);
        if !ok {
          return ConnectError;
        }
      }
      assert Now() == Connected(old(Now()), a, attempt == 1);
      outcome := Talk(lib, frame, a);
    }

    /** The part of the loop body that has a connection. */
    method Talk(lib: GoLib, frame: string, a: Attempt) returns (outcome: Outcome)
      requires Valid() && conn != null
      modifies this, conn, reader
      ensures Valid() && (Now(), outcome) == Exchange(lib, old(Now()), frame, a)
      ensures conn == old(conn) || conn == null
      ensures reader == old(reader) || reader == null
      ensures outcome.Retried() ==> conn == null
    {
      if !a.written {
        log := log + [WriteFailed(conn.id)];
        Release();
        return WriteError;
      }
      log := log + [Wrote(conn.id, frame, a.answer)];
      var stream := reader.data + conn.inflight + a.answer;
      assert stream == old(Now()).link.unread + a.answer;
      reader.data, conn.inflight := Take(stream, a.arrives), Skip(stream, a.arrives);

      var result := reader.ReadResponse(lib);
      match result {
        case Ok(v) => return Answer(v);
        case Refused(m) => return Refusal(m);
        case Panic => return Crash;
        case Failed =>
          Release();
          return ReadError;
      }
    }

    /** `Execute`. Falling out of the loop is impossible. */
    method Execute(lib: GoLib, cmd: string, args: seq<Value>, a0: Attempt, a1: Attempt) returns (outcome: Outcome)
      requires Valid()
      modifies this, conn, reader
      ensures Valid()
      ensures (Now(), outcome) == Execution(lib, old(Now()), Frame(Parts(lib, cmd, args)), a0, a1)
    {
      var attempt := 0;
      while attempt < 2
        invariant 0 <= attempt <= 1 && Valid()
        invariant attempt == 0 ==> conn == old(conn) && reader == old(reader) && Now() == old(Now())
        invariant attempt == 1 ==> conn == null
        invariant attempt == 1 ==> Try(lib, old(Now()), Frame(Parts(lib, cmd, args)), a0, false).0 == Now()
        invariant attempt == 1 ==> Try(lib, old(Now()), Frame(Parts(lib, cmd, args)), a0, false).1.Retried()
      {
        var frame := BuildMultibulk(lib, cmd, args);
        outcome := TryOnce(lib, frame, if attempt == 0 then a0 else a1, attempt);
        if !outcome.Retried() || attempt == 1 {
          return;
        }
        attempt := attempt + 1;
      }
      assert false;
    }

    method Close()
      requires Valid()
      modifies this, conn
      ensures Valid() && Now() == old(Now()).Drop()
    {
      if conn != null {
        Release();
      }
    }
  }
}
