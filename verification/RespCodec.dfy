/** The RESP wire format as the SDK reads and writes it: `buildMultibulk` and `readResponse`.

    `Parse` says what `readResponse` makes of the bytes still to come; `Encode` is the standard
    encoding of a reply ("Redis serialization protocol specification", sections "Simple strings" to
    "Sets"). The theorems connect the two. */
module RespCodec {
  import opened GoValues
  import opened Decimal

  /** What reading from a byte string comes to. `rest` is what stays unread.
      - `ServerError`: the error is a `*SynapError`
      - `Malformed`: any other error raised on bytes that did arrive
      - `Short`: the bytes ran out
      - `Panicked`: `make` or a slice expression was given a size it does not take */
  datatype Read<+T> =
    | Got(value: T, rest: string)
    | ServerError(msg: string, rest: string)
    | Malformed
    | Short
    | Panicked(rest: string)
  {
    /** The same outcome when more bytes follow. */
    function Plus(more: string): Read<T> {
      match this
      case Got(v, r) => Got(v, r + more)
      case ServerError(m, r) => ServerError(m, r + more)
      case Panicked(r) => Panicked(r + more)
      case _ => this
    }

    /** This failure, as the outcome of a larger read. */
    function As<U>(): Read<U>
      requires !Got?
    {
      match this
      case ServerError(m, r) => ServerError(m, r)
      case Malformed => Malformed
      case Short => Short
      case Panicked(r) => Panicked(r)
    }

    predicate HasRest() {
      Got? || ServerError? || Panicked?
    }

    predicate Leaves(r: string) {
      HasRest() && rest == r
    }
  }

  // ---------------------------------------------------------------- lines and counted blocks

  const CRLF := "\r\n"

  predicate NoBreak(s: string) {
    '\r' !in s && '\n' !in s
  }

  function NewlineAt(s: string): (i: Option<nat>)
    ensures i.Some? ==> i.value < |s| && s[i.value] == '\n' && '\n' !in s[..i.value]
    ensures i.None? ==> '\n' !in s
  {
    if s == "" then None
    else if s[0] == '\n' then Some(0)
    else
      match NewlineAt(s[1..])
      case Some(j) => Some(j + 1)
      case None => None
  }

  /** `strings.TrimRight(line, "\r\n")`. */
  function TrimBreaks(s: string): (r: string)
    ensures r <= s
    ensures r != "" ==> r[|r| - 1] !in CRLF
    ensures forall i | |r| <= i < |s| :: s[i] in "\r\n"
  {
    if s != "" && s[|s| - 1] in CRLF then TrimBreaks(s[..|s| - 1]) else s
  }

  /** `readLine`: the line without its break, and what follows it. */
  function SplitLine(s: string): (r: Option<(string, string)>)
    ensures r.Some? ==> |r.value.1| < |s|
  {
    match NewlineAt(s)
    case None => None
    case Some(i) => Some((TrimBreaks(s[..i + 1]), s[i + 1..]))
  }

  /** `make([]T, n)` for elements of this many bytes. A length that overflowed is negative. */
  predicate Makes(lib: GoLib, n: int, size: nat) {
    0 <= n < TWO_63 && n * size <= lib.maxAlloc
  }

  /** `data := make([]byte, n+2)`, `readFull(r, data)`, `data[:n]`. */
  function Block(lib: GoLib, s: string, n: int): (b: Read<string>)
    ensures b.HasRest() ==> |b.rest| <= |s|
  {
    if !Makes(lib, n + 2, 1) then Panicked(s)
    else if |s| < n + 2 then Short
    else if n < 0 then Panicked(s[n + 2..])
    else Got(s[..n], s[n + 2..])
  }

  /** Bytes an `interface{}` takes. */
  const INTERFACE_SIZE: nat := 16

  /** The text of a verbatim string: the format hint goes, unless nothing follows it. */
  function StripFormat(body: string): string {
    if |body| > 4 && body[3] == ':' then body[4..] else body
  }

  // ---------------------------------------------------------------- %v, and maps built from pairs

  /** `fmt.Sprintf("%v", v)`. */
  function Render(lib: GoLib, v: Value): string {
    match v
    case Nil => "<nil>"
    case Bool(b) => if b then "true" else "false"
    case Int64(n) => Text(n)
    case GoInt(n) => Text(n)
    case Uint64(n) => Text(n)
    case Float(r) => lib.sprintFloat(r)
    case Str(s) => s
    case _ => lib.sprintOther(v)
  }

  /** The map filled from k0, v0, k1, v1, ...: a later key replaces an earlier one, and an odd last
      element is dropped. */
  function Entries(lib: GoLib, flat: seq<Value>): map<string, Value> {
    if |flat| < 2 then map[]
    else if |flat| % 2 == 1 then Entries(lib, flat[..|flat| - 1])
    else Entries(lib, flat[..|flat| - 2])[Render(lib, flat[|flat| - 2]) := flat[|flat| - 1]]
  }

  lemma EntriesStep(lib: GoLib, flat: seq<Value>, k: Value, v: Value)
    requires |flat| % 2 == 0
    ensures Entries(lib, flat + [k, v]) == Entries(lib, flat)[Render(lib, k) := v]
  {
    var longer := flat + [k, v];
    var n := |flat|;
    assert |longer| == n + 2 && (n + 2) % 2 == 0;
    assert longer[..n] == flat && longer[n] == k && longer[n + 1] == v;
  }

  /** How the key of pair i prints. */
  function KeyAt(lib: GoLib, flat: seq<Value>, i: nat): string
    requires i < |flat| / 2
  {
    Render(lib, flat[2 * i])
  }

  /** Pair i is the last one whose key prints as k. */
  predicate LastOf(lib: GoLib, flat: seq<Value>, k: string, i: nat) {
    i < |flat| / 2 && KeyAt(lib, flat, i) == k && forall j | i < j < |flat| / 2 :: KeyAt(lib, flat, j) != k
  }

  /** What `Entries` says without recursion: a key is there exactly when some pair prints it, and the last
      such pair gives its value. */
  lemma {:induction false} LastPairWins(lib: GoLib, flat: seq<Value>, k: string)
    ensures k in Entries(lib, flat) <==> exists i: nat :: i < |flat| / 2 && KeyAt(lib, flat, i) == k
    ensures forall i: nat | LastOf(lib, flat, k, i) ::
      k in Entries(lib, flat) && Entries(lib, flat)[k] == flat[2 * i + 1]
  {
    if |flat| >= 2 {
      var n := if |flat| % 2 == 1 then |flat| - 1 else |flat| - 2;
      var front := flat[..n];
      LastPairWins(lib, front, k);
      assert forall i: nat | i < |front| / 2 :: KeyAt(lib, front, i) == KeyAt(lib, flat, i);
      if |flat| % 2 == 1 {
        assert forall i: nat | LastOf(lib, flat, k, i) ::
          LastOf(lib, front, k, i) && front[2 * i + 1] == flat[2 * i + 1];
      } else {
        var last := |flat| / 2 - 1;
        assert KeyAt(lib, flat, last) == Render(lib, flat[n]);
        if KeyAt(lib, flat, last) != k {
          assert forall i: nat | LastOf(lib, flat, k, i) ::
            LastOf(lib, front, k, i) && front[2 * i + 1] == flat[2 * i + 1];
        }
      }
    }
  }

  // ---------------------------------------------------------------- readResponse

  function AsText(p: Read<string>): Read<Value> {
    if p.Got? then Got(Str(p.value), p.rest) else p.As()
  }

  function AsArray(p: Read<seq<Value>>): Read<Value> {
    if p.Got? then Got(Arr(p.value), p.rest) else p.As()
  }

  function AsMap(lib: GoLib, p: Read<seq<Value>>): Read<Value> {
    if p.Got? then Got(Map(Entries(lib, p.value)), p.rest) else p.As()
  }

  function Prepend(v: Value, p: Read<seq<Value>>): Read<seq<Value>> {
    if p.Got? then Got([v] + p.value, p.rest) else p
  }

  function Parse(lib: GoLib, s: string): (p: Read<Value>)
    ensures p.HasRest() ==> |p.rest| < |s|
    decreases |s|, 0
  {
    match SplitLine(s)
    case None => Short
    case Some((line, rest)) =>
      if line == "" then Malformed else ParseTyped(lib, line[0], line[1..], rest)
  }

  /** One value whose first line is `kind` followed by `payload`. */
  function ParseTyped(lib: GoLib, kind: char, payload: string, rest: string): (p: Read<Value>)
    ensures p.HasRest() ==> |p.rest| <= |rest|
    decreases |rest|, 4
  {
    match kind
    case '+' => Got(Str(payload), rest)
    case '-' => ServerError(payload, rest)
    case '(' => Got(Str(payload), rest)
    case '_' => Got(Nil, rest)
    case '#' =>
      if payload == "t" then Got(Bool(true), rest)
      else if payload == "f" then Got(Bool(false), rest)
      else Malformed
    case ',' => (
      match lib.parseFloat(payload)
      case Some(f) => Got(Float(f), rest)
      case None => Malformed)
    case _ =>
      match ParseInt(payload)
      case None => Malformed
      case Some(n) => ParseCounted(lib, kind, n, rest)
  }

  /** The types whose first line holds a number. */
  function ParseCounted(lib: GoLib, kind: char, n: int, rest: string): (p: Read<Value>)
    ensures p.HasRest() ==> |p.rest| <= |rest|
    decreases |rest|, 3
  {
    match kind
    case ':' => Got(Int64(n), rest)
    case '$' =>
      if n == -1 then Got(Nil, rest) else AsText(Block(lib, rest, n))
    case '!' =>
      var b := Block(lib, rest, n);
      if b.Got? then ServerError(b.value, b.rest) else b.As()
    case '=' =>
      var b := Block(lib, rest, n);
      if b.Got? then Got(Str(StripFormat(b.value)), b.rest) else b.As()
    case '*' => ParseItems(lib, n, rest)
    case '~' => ParseItems(lib, n, rest)
    case '%' => ParsePairs(lib, n, rest)
    case _ => Malformed
  }

  function ParseItems(lib: GoLib, n: int, rest: string): (p: Read<Value>)
    ensures p.HasRest() ==> |p.rest| <= |rest|
    decreases |rest|, 2
  {
    if n == -1 then Got(Nil, rest)
    else if !Makes(lib, n, INTERFACE_SIZE) then Panicked(rest)
    else AsArray(ParseMany(lib, rest, n))
  }

  /** A negative size hint is no error for a map: it comes out empty. */
  function ParsePairs(lib: GoLib, n: int, rest: string): (p: Read<Value>)
    ensures p.HasRest() ==> |p.rest| <= |rest|
    decreases |rest|, 2
  {
    if n == -1 then Got(Nil, rest)
    else if n < 0 then Got(Map(map[]), rest)
    else AsMap(lib, ParseMany(lib, rest, 2 * n))
  }

  /** n values one after the other; the first failure ends it. */
  function ParseMany(lib: GoLib, s: string, n: nat): (p: Read<seq<Value>>)
    ensures p.HasRest() ==> |p.rest| <= |s|
    ensures p.Got? ==> |p.value| == n
    decreases |s|, 1, n
  {
    if n == 0 then Got([], s)
    else
      match Parse(lib, s)
      case Got(v, r) => Prepend(v, ParseMany(lib, r, n - 1))
      case failed => failed.As()
  }

  // ---------------------------------------------------------------- replies out of the ordinary

  /** A line ends at the first newline, and carriage returns and newlines at its end are not part of it. */
  lemma LineOf(text: string, breaks: string, rest: string)
    requires '\n' !in text && (text != "" ==> text[|text| - 1] != '\r')
    requires forall i | 0 <= i < |breaks| :: breaks[i] == '\r'
    ensures SplitLine(text + breaks + "\n" + rest) == Some((text, rest))
  {
    var s, n := text + breaks + "\n" + rest, |text| + |breaks|;
    FirstNewline(s, n);
    assert s[n + 1..] == rest;
    TrimmedTo(s[..n + 1], |text|);
    assert s[..n + 1][..|text|] == text;
  }

  lemma FirstNewline(s: string, n: nat)
    requires n < |s| && s[n] == '\n' && forall i | 0 <= i < n :: s[i] != '\n'
    ensures NewlineAt(s) == Some(n)
  {
  }

  lemma {:induction false} TrimmedTo(s: string, n: nat)
    requires n <= |s| && (n > 0 ==> s[n - 1] !in CRLF) && forall i | n <= i < |s| :: s[i] in CRLF
    ensures TrimBreaks(s) == s[..n]
  {
    if n < |s| {
      TrimmedTo(s[..|s| - 1], n);
      assert s[..|s| - 1][..n] == s[..n];
    }
  }

  /** What is refused without a panic: an empty line, a type no reply has, a boolean other than t and f, a float
      that does not parse, and a size or integer that is not a decimal int64. */
  lemma RefusedLines(lib: GoLib, s: string, line: string, rest: string)
    requires SplitLine(s) == Some((line, rest))
    ensures line == "" ==> Parse(lib, s) == Malformed
    ensures line != "" && line[0] !in {'+', '-', '(', '_', '#', ',', ':', '$', '!', '=', '*', '~', '%'} ==>
      Parse(lib, s) == Malformed
    ensures line != "" && line[0] == '#' && line[1..] != "t" && line[1..] != "f" ==> Parse(lib, s) == Malformed
    ensures line != "" && line[0] == ',' && lib.parseFloat(line[1..]) == None ==> Parse(lib, s) == Malformed
    ensures line != "" && line[0] in {':', '$', '!', '=', '*', '~', '%'} && ParseInt(line[1..]) == None ==>
      Parse(lib, s) == Malformed
  {
    if line != "" && ParseInt(line[1..]).Some? {
      var counted := ParseCounted(lib, line[0], ParseInt(line[1..]).value, rest);
      assert line[0] !in {':', '$', '!', '=', '*', '~', '%'} ==> counted == Malformed;
    }
  }

  /** Sizes below zero: -1 is nil where RESP has a nil, and for a block with a hint or an error it panics as
      any other, except that a negative map is empty. */
  lemma NegativeSizes(lib: GoLib, n: int, rest: string)
    requires InInt64(n) && n < 0
    ensures ParseCounted(lib, '$', n, rest) == if n == -1 then Got(Nil, rest) else Block(lib, rest, n).As()
    ensures ParseCounted(lib, '*', n, rest) == ParseCounted(lib, '~', n, rest)
         == if n == -1 then Got(Nil, rest) else Panicked(rest)
    ensures ParseCounted(lib, '%', n, rest) == if n == -1 then Got(Nil, rest) else Got(Map(map[]), rest)
    ensures !Block(lib, rest, n).Got?
    ensures n < -2 ==> Block(lib, rest, n) == Panicked(rest)
    ensures -2 <= n && lib.maxAlloc >= 1 && |rest| >= n + 2 ==> Block(lib, rest, n) == Panicked(rest[n + 2..])
  {
  }

  // ---------------------------------------------------------------- printing

  /** How scalars print: integers of each kind in decimal, which reads back, strings as they are. */
  lemma RenderSays(lib: GoLib, n: int, b: bool, s: string, r: real)
    requires InInt64(n)
    ensures ParseInt(Render(lib, Int64(n))) == ParseInt(Render(lib, GoInt(n))) == Some(n)
    ensures n >= 0 ==> ParseInt(Render(lib, Uint64(n))) == Some(n)
    ensures Render(lib, Bool(true)) == "true" && Render(lib, Bool(false)) == "false"
    ensures Render(lib, Nil) == "<nil>" && Render(lib, Str(s)) == s && Render(lib, Float(r)) == lib.sprintFloat(r)
  {
    ParseText(n);
  }
}
