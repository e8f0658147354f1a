/** Reply trees, their standard encoding and their meaning; reading inverts encoding.

    Errors below the top level are included: they end the read early and leave the rest of the
    reply unread, and the theorem says exactly how much. */
module RespRoundTrip {
  import opened GoValues
  import opened Decimal
  import opened RespCodec
  import opened RespLocality

  /** A map's entries are listed as on the wire: key, value, key, value. */
  datatype Reply =
    | Simple(text: string)
    | Error(text: string)
    | Integer(n: int)
    | Bulk(text: string)
    | Array(items: seq<Reply>)
    | Members(items: seq<Reply>)
    | Dict(items: seq<Reply>)
    | Boolean(b: bool)
    | Double(text: string)
    | BigNumber(text: string)
    | BlobError(text: string)
    | Verbatim(format: string, text: string)
    | Null
    | NullBulk
    | NullArray
    | NullMembers
    | NullDict

  /** A reply of the standard that this machine can hold. */
  predicate WellFormed(lib: GoLib, t: Reply) {
    match t
    case Simple(s) => NoBreak(s)
    case Error(s) => NoBreak(s)
    case BigNumber(s) => NoBreak(s)
    case Double(s) => NoBreak(s) && lib.parseFloat(s).Some?
    case Integer(n) => InInt64(n)
    case Bulk(s) => Makes(lib, |s| + 2, 1)
    case BlobError(s) => Makes(lib, |s| + 2, 1)
    case Verbatim(f, s) => |f| == 3 && Makes(lib, |s| + 6, 1)
    case Array(ts) => Makes(lib, |ts|, INTERFACE_SIZE) && forall i | 0 <= i < |ts| :: WellFormed(lib, ts[i])
    case Members(ts) => Makes(lib, |ts|, INTERFACE_SIZE) && forall i | 0 <= i < |ts| :: WellFormed(lib, ts[i])
    case Dict(ts) => |ts| % 2 == 0 && |ts| / 2 < TWO_63 && forall i | 0 <= i < |ts| :: WellFormed(lib, ts[i])
    case _ => true
  }

  function Line(kind: char, body: string): string {
    [kind] + body + CRLF
  }

  function Counted(kind: char, body: string): string {
    Line(kind, Text(|body|)) + (body + CRLF)
  }

  function Encode(t: Reply): (e: string)
    ensures |e| > 0
    decreases t
  {
    match t
    case Simple(s) => Line('+', s)
    case Error(s) => Line('-', s)
    case Integer(n) => Line(':', Text(n))
    case Bulk(s) => Counted('$', s)
    case Array(ts) => Line('*', Text(|ts|)) + EncodeAll(ts)
    case Members(ts) => Line('~', Text(|ts|)) + EncodeAll(ts)
    case Dict(ts) => Line('%', Text(|ts| / 2)) + EncodeAll(ts)
    case Boolean(b) => Line('#', if b then "t" else "f")
    case Double(s) => Line(',', s)
    case BigNumber(s) => Line('(', s)
    case BlobError(s) => Counted('!', s)
    case Verbatim(f, s) => Counted('=', f + ":" + s)
    case Null => Line('_', "")
    case NullBulk => Line('$', Text(-1))
    case NullArray => Line('*', Text(-1))
    case NullMembers => Line('~', Text(-1))
    case NullDict => Line('%', Text(-1))
  }

  /** The bytes, kind by kind: lines, counted blocks, and aggregates. */
  lemma LinesSay(s: string, n: int)
    ensures Encode(Simple(s)) == "+" + s + "\r\n" && Encode(Error(s)) == "-" + s + "\r\n"
    ensures Encode(Integer(n)) == ":" + Text(n) + "\r\n" && Encode(Double(s)) == "," + s + "\r\n"
    ensures Encode(BigNumber(s)) == "(" + s + "\r\n"
  {
  }

  lemma WordsSay()
    ensures Encode(Boolean(true)) == "#t\r\n" && Encode(Boolean(false)) == "#f\r\n" && Encode(Null) == "_\r\n"
  {
  }

  lemma BlocksSay(s: string)
    ensures Encode(Bulk(s)) == "$" + Text(|s|) + "\r\n" + s + "\r\n"
    ensures Encode(BlobError(s)) == "!" + Text(|s|) + "\r\n" + s + "\r\n"
  {
  }

  lemma AggregatesSay(ts: seq<Reply>)
    ensures Encode(Array(ts)) == "*" + Text(|ts|) + "\r\n" + EncodeAll(ts)
    ensures Encode(Members(ts)) == "~" + Text(|ts|) + "\r\n" + EncodeAll(ts)
    ensures Encode(Dict(ts)) == "%" + Text(|ts| / 2) + "\r\n" + EncodeAll(ts)
  {
  }

  function EncodeAll(ts: seq<Reply>): string
    decreases ts
  {
    if ts == [] then "" else Encode(ts[0]) + EncodeAll(ts[1..])
  }

  /** What the SDK makes of a reply. For an error, `rest` is the part of the reply after it. */
  function Denote(lib: GoLib, t: Reply): Read<Value>
    decreases t
  {
    match t
    case Simple(s) => Got(Str(s), "")
    case Error(s) => ServerError(s, "")
    case Integer(n) => Got(Int64(n), "")
    case Bulk(s) => Got(Str(s), "")
    case Array(ts) => AsArray(DenoteAll(lib, ts))
    case Members(ts) => AsArray(DenoteAll(lib, ts))
    case Dict(ts) => AsMap(lib, DenoteAll(lib, ts))
    case Boolean(b) => Got(Bool(b), "")
    case Double(s) => if lib.parseFloat(s).Some? then Got(Float(lib.parseFloat(s).value), "") else Malformed
    case BigNumber(s) => Got(Str(s), "")
    case BlobError(s) => ServerError(s, "")
    case Verbatim(f, s) => Got(Str(if s == "" then f + ":" else s), "")
    case _ => Got(Nil, "")
  }

  function DenoteAll(lib: GoLib, ts: seq<Reply>): Read<seq<Value>>
    decreases ts
  {
    if ts == [] then Got([], "")
    else
      match Denote(lib, ts[0])
      case Got(v, _) => Prepend(v, DenoteAll(lib, ts[1..]))
      case ServerError(m, left) => ServerError(m, left + EncodeAll(ts[1..]))
      case _ => Malformed
  }

  // ---------------------------------------------------------------- reading inverts encoding

  lemma {:induction false} NewlineAfter(body: string, rest: string)
    requires '\n' !in body
    ensures NewlineAt(body + "\n" + rest) == Some(|body|)
  {
    if body != "" {
      assert (body + "\n" + rest)[1..] == body[1..] + "\n" + rest;
      NewlineAfter(body[1..], rest);
    }
  }

  lemma LineReads(kind: char, body: string, rest: string)
    requires NoBreak([kind]) && NoBreak(body)
    ensures SplitLine(Line(kind, body) + rest) == Some(([kind] + body, rest))
  {
    var text := [kind] + body;
    var s := Line(kind, body) + rest;
    assert s == (text + "\r") + "\n" + rest;
    NewlineAfter(text + "\r", rest);
    assert s[..|text| + 2] == text + CRLF;
    assert s[|text| + 2..] == rest;
    assert (text + CRLF)[..|text| + 1] == text + "\r";
    assert (text + "\r")[..|text|] == text;
    assert text[|text| - 1] == (if body == "" then kind else body[|body| - 1]);
    assert TrimBreaks(text) == text;
    assert TrimBreaks(text + "\r") == text;
  }

  lemma HeadReads(lib: GoLib, kind: char, body: string, rest: string)
    requires NoBreak([kind]) && NoBreak(body)
    ensures Parse(lib, Line(kind, body) + rest) == ParseTyped(lib, kind, body, rest)
  {
    LineReads(kind, body, rest);
    assert ([kind] + body)[1..] == body;
  }

  lemma NumberReads(lib: GoLib, kind: char, n: int, rest: string)
    requires kind in ":$!=*~%" && InInt64(n)
    ensures Parse(lib, Line(kind, Text(n)) + rest) == ParseCounted(lib, kind, n, rest)
  {
    TextHasNoBreak(n);
    HeadReads(lib, kind, Text(n), rest);
    ParseText(n);
    NumberTyped(lib, kind, Text(n), n, rest);
  }

  lemma NumberTyped(lib: GoLib, kind: char, text: string, n: int, rest: string)
    requires kind in ":$!=*~%" && ParseInt(text) == Some(n)
    ensures ParseTyped(lib, kind, text, rest) == ParseCounted(lib, kind, n, rest)
  {
  }

  lemma CountedReads(lib: GoLib, kind: char, body: string, rest: string)
    requires kind in "$!=" && Makes(lib, |body| + 2, 1)
    ensures Parse(lib, Counted(kind, body) + rest) == ParseCounted(lib, kind, |body|, body + CRLF + rest)
    ensures Block(lib, body + CRLF + rest, |body|) == Got(body, rest)
  {
    var tail := body + CRLF + rest;
    assert Counted(kind, body) + rest == Line(kind, Text(|body|)) + tail;
    NumberReads(lib, kind, |body|, tail);
    assert tail[..|body|] == body;
    assert tail[|body| + 2..] == rest;
  }

  lemma ItemsRead(lib: GoLib, kind: char, n: int, body: string, rest: string)
    requires kind in "*~%" && 0 <= n < TWO_63
    ensures Parse(lib, Line(kind, Text(n)) + body + rest) == ParseCounted(lib, kind, n, body + rest)
  {
    assert Line(kind, Text(n)) + body + rest == Line(kind, Text(n)) + (body + rest);
    NumberReads(lib, kind, n, body + rest);
  }

  /** Arrays and sets, given that their elements read as `ds`. */
  lemma ArrayReads(lib: GoLib, kind: char, n: nat, body: string, ds: Read<seq<Value>>, rest: string)
    requires (kind == '*' || kind == '~') && Makes(lib, n, INTERFACE_SIZE)
    requires ParseMany(lib, body + rest, n) == ds.Plus(rest)
    ensures Parse(lib, Line(kind, Text(n)) + body + rest) == AsArray(ds).Plus(rest)
  {
    ItemsRead(lib, kind, n, body, rest);
    ItemsAsArray(lib, n, body + rest, ds, rest);
    assert ParseCounted(lib, kind, n, body + rest) == ParseItems(lib, n, body + rest);
  }

  lemma ItemsAsArray(lib: GoLib, n: nat, s: string, ds: Read<seq<Value>>, rest: string)
    requires Makes(lib, n, INTERFACE_SIZE) && ParseMany(lib, s, n) == ds.Plus(rest)
    ensures ParseItems(lib, n, s) == AsArray(ds).Plus(rest)
  {
  }

  lemma PairsRead(lib: GoLib, n: nat, body: string, ds: Read<seq<Value>>, rest: string)
    requires n < TWO_63 && ParseMany(lib, body + rest, 2 * n) == ds.Plus(rest)
    ensures Parse(lib, Line('%', Text(n)) + body + rest) == AsMap(lib, ds).Plus(rest)
  {
    ItemsRead(lib, '%', n, body, rest);
    assert ParsePairs(lib, n, body + rest) == AsMap(lib, ds.Plus(rest));
  }

  /** One more element in front: d is what it reads as, ds what the following ones read as. */
  lemma ManyReads(lib: GoLib, e: string, d: Read<Value>, body: string, n: nat, ds: Read<seq<Value>>, rest: string)
    requires d.Got? || d.ServerError?
    requires d.Got? ==> d.rest == ""
    requires Parse(lib, e + (body + rest)) == d.Plus(body + rest)
    requires ParseMany(lib, body + rest, n) == ds.Plus(rest)
    ensures ParseMany(lib, e + body + rest, n + 1)
         == (if d.Got? then Prepend(d.value, ds) else ServerError(d.msg, d.rest + body)).Plus(rest)
  {
    assert e + body + rest == e + (body + rest);
    if d.Got? {
      assert "" + (body + rest) == body + rest;
    } else {
      assert d.rest + (body + rest) == d.rest + body + rest;
    }
  }

  /** Reading one encoded reply followed by anything gives its meaning and leaves what follows. */
  ghost predicate Inverts(lib: GoLib, t: Reply, rest: string) {
    Parse(lib, Encode(t) + rest) == Denote(lib, t).Plus(rest)
  }

  ghost predicate InvertsAll(lib: GoLib, ts: seq<Reply>, rest: string) {
    ParseMany(lib, EncodeAll(ts) + rest, |ts|) == DenoteAll(lib, ts).Plus(rest)
  }

  lemma LineReply(lib: GoLib, t: Reply, kind: char, body: string, rest: string)
    requires NoBreak([kind]) && NoBreak(body) && Encode(t) == Line(kind, body)
    requires ParseTyped(lib, kind, body, rest) == Denote(lib, t).Plus(rest)
    ensures Inverts(lib, t, rest)
  {
    HeadReads(lib, kind, body, rest);
  }

  lemma NumberReply(lib: GoLib, t: Reply, kind: char, n: int, rest: string)
    requires kind in ":$!=*~%" && InInt64(n) && Encode(t) == Line(kind, Text(n))
    requires ParseCounted(lib, kind, n, rest) == Denote(lib, t).Plus(rest)
    ensures Inverts(lib, t, rest)
  {
    NumberReads(lib, kind, n, rest);
  }

  /** What a counted block that reads as `body` means. */
  lemma CountedMeans(lib: GoLib, kind: char, body: string, s: string, rest: string)
    requires kind in "$!=" && Block(lib, s, |body|) == Got(body, rest)
    ensures ParseCounted(lib, kind, |body|, s)
         == if kind == '!' then ServerError(body, rest)
            else Got(Str(if kind == '=' then StripFormat(body) else body), rest)
  {
  }

  lemma CountedReply(lib: GoLib, t: Reply, kind: char, body: string, rest: string)
    requires kind in "$!=" && Makes(lib, |body| + 2, 1) && Encode(t) == Counted(kind, body)
    requires kind == '$' ==> Denote(lib, t) == Got(Str(body), "")
    requires kind == '!' ==> Denote(lib, t) == ServerError(body, "")
    requires kind == '=' ==> Denote(lib, t) == Got(Str(StripFormat(body)), "")
    ensures Inverts(lib, t, rest)
  {
    assert "" + rest == rest;
    CountedReads(lib, kind, body, rest);
    CountedMeans(lib, kind, body, body + CRLF + rest, rest);
  }

  lemma VerbatimBody(format: string, text: string)
    requires |format| == 3
    ensures StripFormat(format + ":" + text) == if text == "" then format + ":" else text
  {
    var body := format + ":" + text;
    assert body[3] == ':' && body[4..] == text;
    assert text == "" ==> body == format + ":";
  }

  lemma ScalarReply(lib: GoLib, t: Reply, rest: string)
    requires WellFormed(lib, t) && !t.Array? && !t.Members? && !t.Dict?
    ensures Inverts(lib, t, rest)
  {
    assert "" + rest == rest;
    match t
    case Simple(s) => LineReply(lib, t, '+', s, rest);
    case Error(s) => LineReply(lib, t, '-', s, rest);
    case BigNumber(s) => LineReply(lib, t, '(', s, rest);
    case Double(s) => LineReply(lib, t, ',', s, rest);
    case Boolean(b) => LineReply(lib, t, '#', if b then "t" else "f", rest);
    case Null => LineReply(lib, t, '_', "", rest);
    case Integer(n) => NumberReply(lib, t, ':', n, rest);
    case NullBulk => NumberReply(lib, t, '$', -1, rest);
    case NullArray => NumberReply(lib, t, '*', -1, rest);
    case NullMembers => NumberReply(lib, t, '~', -1, rest);
    case NullDict => NumberReply(lib, t, '%', -1, rest);
    case Bulk(s) => CountedReply(lib, t, '$', s, rest);
    case BlobError(s) => CountedReply(lib, t, '!', s, rest);
    case Verbatim(f, s) =>
      VerbatimBody(f, s);
      CountedReply(lib, t, '=', f + ":" + s, rest);
  }

  lemma {:induction false} EveryReplyInverts(lib: GoLib, t: Reply, rest: string)
    requires WellFormed(lib, t)
    ensures Inverts(lib, t, rest)
    decreases t
  {
    match t
    case Array(ts) =>
      EveryReplyInvertsAll(lib, ts, rest);
      ArrayReads(lib, '*', |ts|, EncodeAll(ts), DenoteAll(lib, ts), rest);
    case Members(ts) =>
      EveryReplyInvertsAll(lib, ts, rest);
      ArrayReads(lib, '~', |ts|, EncodeAll(ts), DenoteAll(lib, ts), rest);
    case Dict(ts) =>
      EveryReplyInvertsAll(lib, ts, rest);
      PairsRead(lib, |ts| / 2, EncodeAll(ts), DenoteAll(lib, ts), rest);
    case _ => ScalarReply(lib, t, rest);
  }

  lemma {:induction false} EveryReplyInvertsAll(lib: GoLib, ts: seq<Reply>, rest: string)
    requires forall i | 0 <= i < |ts| :: WellFormed(lib, ts[i])
    ensures InvertsAll(lib, ts, rest)
    decreases ts
  {
    if ts == [] {
      assert "" + rest == rest;
    } else {
      var body := EncodeAll(ts[1..]);
      EveryReplyInverts(lib, ts[0], body + rest);
      EveryReplyInvertsAll(lib, ts[1..], rest);
      FirstThenOthers(lib, ts, body, rest);
    }
  }

  lemma FirstThenOthers(lib: GoLib, ts: seq<Reply>, body: string, rest: string)
    requires ts != [] && WellFormed(lib, ts[0]) && body == EncodeAll(ts[1..])
    requires Inverts(lib, ts[0], body + rest) && InvertsAll(lib, ts[1..], rest)
    ensures InvertsAll(lib, ts, rest)
  {
    DenoteLeaves(lib, ts[0]);
    ManyReads(lib, Encode(ts[0]), Denote(lib, ts[0]), body, |ts| - 1, DenoteAll(lib, ts[1..]), rest);
  }

  /** `readResponse` on an encoded reply followed by anything yields the reply's meaning and leaves
      exactly what follows, after whatever a nested error left behind. */
  lemma ReadInvertsEncode(lib: GoLib, t: Reply, rest: string)
    requires WellFormed(lib, t)
    ensures Parse(lib, Encode(t) + rest) == Denote(lib, t).Plus(rest)
  {
    EveryReplyInverts(lib, t, rest);
  }

  /** Replies sent back to back are read in order. */
  lemma ReadInvertsEncodeAll(lib: GoLib, ts: seq<Reply>, rest: string)
    requires forall i | 0 <= i < |ts| :: WellFormed(lib, ts[i])
    ensures ParseMany(lib, EncodeAll(ts) + rest, |ts|) == DenoteAll(lib, ts).Plus(rest)
  {
    EveryReplyInvertsAll(lib, ts, rest);
  }

  // ---------------------------------------------------------------- what a nested error leaves

  predicate HasError(t: Reply)
    decreases t
  {
    match t
    case Error(_) => true
    case BlobError(_) => true
    case Array(ts) => exists i | 0 <= i < |ts| :: HasError(ts[i])
    case Members(ts) => exists i | 0 <= i < |ts| :: HasError(ts[i])
    case Dict(ts) => exists i | 0 <= i < |ts| :: HasError(ts[i])
    case _ => false
  }

  /** No error is followed by anything: it is the reply itself, or the last thing in it. */
  predicate ErrorsLast(t: Reply)
    decreases t
  {
    match t
    case Array(ts) => AllErrorsLast(ts)
    case Members(ts) => AllErrorsLast(ts)
    case Dict(ts) => AllErrorsLast(ts)
    case _ => true
  }

  predicate AllErrorsLast(ts: seq<Reply>)
    decreases ts
  {
    ts == [] || if |ts| == 1 then ErrorsLast(ts[0]) else !HasError(ts[0]) && AllErrorsLast(ts[1..])
  }

  /** A reply without errors is read to the end; one with errors yields its first, and is read to
      the end exactly when that error is the last thing in it. */
  lemma {:induction false} DenoteLeaves(lib: GoLib, t: Reply)
    requires WellFormed(lib, t)
    ensures if HasError(t) then Denote(lib, t).ServerError? else Denote(lib, t).Got?
    ensures Denote(lib, t).Leaves("") <==> ErrorsLast(t)
    ensures Denote(lib, t).Got? ==> Denote(lib, t).rest == ""
    decreases t
  {
    match t
    case Array(ts) => DenoteAllLeaves(lib, ts);
    case Members(ts) => DenoteAllLeaves(lib, ts);
    case Dict(ts) => DenoteAllLeaves(lib, ts);
    case _ =>
  }

  lemma {:induction false} DenoteAllLeaves(lib: GoLib, ts: seq<Reply>)
    requires forall i | 0 <= i < |ts| :: WellFormed(lib, ts[i])
    ensures if exists i | 0 <= i < |ts| :: HasError(ts[i])
            then DenoteAll(lib, ts).ServerError? else DenoteAll(lib, ts).Got?
    ensures DenoteAll(lib, ts).Leaves("") <==> AllErrorsLast(ts)
    ensures DenoteAll(lib, ts).Got? ==> DenoteAll(lib, ts).rest == ""
    decreases ts
  {
    if ts != [] {
      DenoteLeaves(lib, ts[0]);
      DenoteAllLeaves(lib, ts[1..]);
      if HasError(ts[0]) {
        var d := Denote(lib, ts[0]);
        assert |ts| > 1 ==> |EncodeAll(ts[1..])| > 0;
        assert |ts| == 1 ==> EncodeAll(ts[1..]) == "";
        assert d.rest + EncodeAll(ts[1..]) == "" <==> d.rest == "" && |ts| == 1;
      } else {
        var tail := ts[1..];
        assert (exists i | 0 <= i < |ts| :: HasError(ts[i])) <==> exists i | 0 <= i < |tail| :: HasError(tail[i]) by {
          assert forall i | 0 < i < |ts| :: ts[i] == tail[i - 1];
        }
      }
    }
  }

  // ---------------------------------------------------------------- consequences

  /** One read of a well-formed reply leaves nothing of it behind exactly when no error in it is
      followed by anything. The standard allows errors only as whole replies; those always pass. */
  lemma ReplyConsumedIff(lib: GoLib, t: Reply, rest: string)
    requires WellFormed(lib, t)
    ensures Parse(lib, Encode(t) + rest).Leaves(rest) <==> ErrorsLast(t)
  {
    ReadInvertsEncode(lib, t, rest);
    DenoteLeaves(lib, t);
    var left := Denote(lib, t).rest;
    assert |left + rest| == |left| + |rest|;
    assert left == "" ==> left + rest == rest;
  }

  /** An array of two whose first element is an error: the second stays unread. */
  lemma NestedErrorLeavesElements(lib: GoLib)
    requires lib.maxAlloc >= 2 * INTERFACE_SIZE
    ensures WellFormed(lib, Array([Error("ERR"), Integer(1)]))
    ensures Parse(lib, Encode(Array([Error("ERR"), Integer(1)]))) == ServerError("ERR", Encode(Integer(1)))
  {
    var t := Array([Error("ERR"), Integer(1)]);
    assert Encode(t) + "" == Encode(t);
    ReadInvertsEncode(lib, t, "");
    var tail := t.items[1..];
    assert tail == [Integer(1)] && EncodeAll(tail) == Encode(Integer(1)) + EncodeAll([]);
    assert EncodeAll(tail) == Encode(Integer(1));
    assert DenoteAll(lib, t.items) == ServerError("ERR", "" + EncodeAll(tail));
    assert "" + EncodeAll(tail) + "" == EncodeAll(tail);
  }

  /** The text of a verbatim string comes back exactly when it is not empty. */
  lemma VerbatimTextIff(lib: GoLib, format: string, text: string, rest: string)
    requires |format| == 3 && Makes(lib, |text| + 6, 1)
    ensures Parse(lib, Encode(Verbatim(format, text)) + rest) == Got(Str(text), rest) <==> text != ""
  {
    ReadInvertsEncode(lib, Verbatim(format, text), rest);
    assert "" + rest == rest;
  }

  /** A cut of an encoded reply reads as `Short` exactly when it falls before the reply's end or, if
      the reply has errors, before the end of its first one. */
  lemma CutReplyIsShort(lib: GoLib, t: Reply, k: nat)
    requires WellFormed(lib, t) && k <= |Encode(t)|
    ensures Denote(lib, t).HasRest()
    ensures Parse(lib, Encode(t)[..k]).Short? <==> k < |Encode(t)| - |Denote(lib, t).rest|
  {
    ReadInvertsEncode(lib, t, "");
    assert Encode(t) + "" == Encode(t);
    DenoteLeaves(lib, t);
    var d := Denote(lib, t);
    assert d.rest + "" == d.rest;
    TruncationIsShort(lib, Encode(t), k);
  }
}
