/** The stateful reader behind `readResponse`. The connection hands bytes over in chunks of any size;
    the outcome depends on the bytes alone. */
module RespReader {
  import opened GoValues
  import opened Decimal
  import opened RespCodec

  /** How a read ends for the caller: `Failed` stands for every error that is not a `*SynapError`. */
  datatype Result =
    | Ok(value: Value)
    | Refused(msg: string)
    | Failed
    | Panic

  function ResultOf(p: Read<Value>): Result {
    match p
    case Got(v, _) => Ok(v)
    case ServerError(m, _) => Refused(m)
    case Panicked(_) => Panic
    case _ => Failed
  }

  /** A `bufio.Reader`: the bytes that will still arrive on the connection before it ends or its
      deadline passes. */
  class Reader {
    var data: string

    constructor ()
      ensures data == ""
    {
      data := "";
    }

    /** `Read`: between one byte and n, as the network pleases; an error only when none are left. */
    method Read(n: nat) returns (chunk: string, ok: bool)
      requires n > 0
      modifies this
      ensures ok == (old(data) != "")
      ensures ok ==> 0 < |chunk| <= n
      ensures old(data) == chunk + data
    {
      if data == "" {
        chunk, ok := "", false;
      } else {
        var k: nat :| 1 <= k <= n && k <= |data|;
        chunk, ok := data[..k], true;
        data := data[k..];
      }
    }

    /** `readLine`, over `ReadString('\n')`. */
    method ReadLine() returns (line: Option<string>)
      modifies this
      ensures line.Some? == SplitLine(old(data)).Some?
      ensures line.Some? ==> (line.value, data) == SplitLine(old(data)).value
    {
      var i := NewlineAt(data);
      if i.None? {
        data := "";
        return None;
      }
      line := Some(TrimBreaks(data[..i.value + 1]));
      data := data[i.value + 1..];
    }

    /** `readFull`: fills the buffer with exactly the next bytes and takes no more, or fails exactly
        when there are not enough. */
    method ReadFull(buf: array<char>) returns (ok: bool)
      modifies this, buf
      ensures ok == (buf.Length <= |old(data)|)
      ensures ok ==> old(data) == buf[..] + data
    {
      var total := 0;
      while total < buf.Length
        invariant total <= buf.Length
        invariant old(data) == buf[..total] + data
        decreases buf.Length - total
      {
        var chunk, more := Read(buf.Length - total);
        if !more {
          return false;
        }
        label filled:
        forall i | 0 <= i < |chunk| {
          buf[total + i] := chunk[i];
        }
        assert buf[..total] == old@filled(buf[..total]);
        assert buf[..total + |chunk|] == buf[..total] + chunk;
        total := total + |chunk|;
      }
      assert buf[..total] == buf[..];
      return true;
    }

    /** `make([]byte, n+2)`, `readFull`, `data[:n]`. */
    method ReadBlock(lib: GoLib, n: int) returns (body: Read<string>)
      modifies this
      ensures var b := Block(lib, old(data), n);
        && (b.Got? <==> body.Got?) && (b.Short? <==> body.Short?) && (b.Panicked? <==> body.Panicked?)
        && (b.Got? ==> body.value == b.value) && (b.HasRest() ==> data == b.rest)
    {
      if !Makes(lib, n + 2, 1) {
        return Panicked(data);
      }
      var buf := new char[n + 2];
      var was := data;
      var ok := ReadFull(buf);
      if !ok {
        return Short;
      }
      assert was[n + 2..] == data;
      if n < 0 {
        return Panicked(data);
      }
      assert was[..n] == buf[..n];
      return Got(buf[..n], data);
    }

    /** `readResponse`: the result, and where the reader stands after it, are those of `Parse`,
        however the bytes were split into chunks. */
    method ReadResponse(lib: GoLib) returns (result: Result)
      modifies this
      ensures result == ResultOf(Parse(lib, old(data)))
      ensures Parse(lib, old(data)).HasRest() ==> data == Parse(lib, old(data)).rest
      decreases |data|, 0
    {
      var line := ReadLine();
      if line.None? || line.value == "" {
        return Failed;
      }
      var kind, payload := line.value[0], line.value[1..];
      match kind {
        case '+' => return Ok(Str(payload));
        case '-' => return Refused(payload);
        case '(' => return Ok(Str(payload));
        case '_' => return Ok(Nil);
        case '#' =>
          if payload == "t" {
            return Ok(Bool(true));
          }
          if payload == "f" {
            return Ok(Bool(false));
          }
          return Failed;
        case ',' =>
          var f := lib.parseFloat(payload);
          if f.None? {
            return Failed;
          }
          return Ok(Float(f.value));
        case _ =>
          var n := ParseInt(payload);
          if n.None? {
            return Failed;
          }
          result := ReadCounted(lib, kind, n.value);
      }
    }

    /** The cases of `readResponse` whose first line holds a number. */
    method ReadCounted(lib: GoLib, kind: char, n: int) returns (result: Result)
      modifies this
      ensures result == ResultOf(ParseCounted(lib, kind, n, old(data)))
      ensures ParseCounted(lib, kind, n, old(data)).HasRest() ==> data == ParseCounted(lib, kind, n, old(data)).rest
      decreases |data|, 4
    {
      match kind {
        case ':' => return Ok(Int64(n));
        case '$' =>
          if n == -1 {
            return Ok(Nil);
          }
          var body := ReadBlock(lib, n);
          return if body.Got? then Ok(Str(body.value)) else if body.Panicked? then Panic else Failed;
        case '!' =>
          var body := ReadBlock(lib, n);
          return if body.Got? then Refused(body.value) else if body.Panicked? then Panic else Failed;
        case '=' =>
          var body := ReadBlock(lib, n);
          return if body.Got? then Ok(Str(StripFormat(body.value))) else if body.Panicked? then Panic else Failed;
        case '*' => result := ReadItems(lib, n);
        case '~' => result := ReadItems(lib, n);
        case '%' => result := ReadPairs(lib, n);
        case _ => return Failed;
      }
    }

    /** The loop that fills a slice, for arrays and sets. */
    method ReadItems(lib: GoLib, n: int) returns (result: Result)
      modifies this
      ensures result == ResultOf(ParseItems(lib, n, old(data)))
      ensures ParseItems(lib, n, old(data)).HasRest() ==> data == ParseItems(lib, n, old(data)).rest
      decreases |data|, 3
    {
      if n == -1 {
        return Ok(Nil);
      }
      if !Makes(lib, n, INTERFACE_SIZE) {
        return Panic;
      }
      result := FillSlice(lib, n);
    }

    method FillSlice(lib: GoLib, n: nat) returns (result: Result)
      modifies this
      ensures result == ResultOf(AsArray(ParseMany(lib, old(data), n)))
      ensures var p := ParseMany(lib, old(data), n); p.HasRest() ==> data == p.rest
      decreases |data|, 2
    {
      var items: seq<Value> := [];
      ghost var all := ParseMany(lib, data, n);
      PrependNothing(all);
      for i := 0 to n
        invariant |items| == i && |data| <= |old(data)|
        invariant Pending(lib, all, items, data, n - i)
      {
        var elem := ReadElement(lib, all, items, n - i - 1);
        if !elem.Ok? {
          return elem;
        }
        items := items + [elem.value];
      }
      PendingDone(lib, all, items, data);
      result := Ok(Arr(items));
    }

    /** One element in the midst of filling a slice; `later` elements come after it. */
    method ReadElement(lib: GoLib, ghost all: Read<seq<Value>>, ghost items: seq<Value>, ghost later: nat)
      returns (elem: Result)
      requires Pending(lib, all, items, data, later + 1)
      modifies this
      ensures if elem.Ok? then |data| < |old(data)| && Pending(lib, all, items + [elem.value], data, later)
              else Fails(all, elem, data)
      decreases |data|, 1
    {
      ElementRead(lib, all, items, data, later);
      elem := ReadResponse(lib);
    }

    /** A key, and its value unless the key failed, in the midst of filling a map; `later` elements come
        after them. */
    method ReadPair(lib: GoLib, ghost all: Read<seq<Value>>, ghost flat: seq<Value>, ghost later: nat,
        ghost out: map<string, Value>) returns (key: Result, val: Result)
      requires Filling(lib, all, flat, data, later + 2, out)
      modifies this
      ensures if key.Ok? && val.Ok? then
          |data| < |old(data)|
          && Filling(lib, all, flat + [key.value, val.value], data, later, out[Render(lib, key.value) := val.value])
        else
          Fails(all, if key.Ok? then val else key, data)
      decreases |data|, 1
    {
      ghost var was := data;
      key := ReadResponse(lib);
      ManyUnfolds(lib, was, later + 1);
      if !key.Ok? {
        FillingFails(lib, all, flat, was, later + 2, out);
        return key, Failed;
      }
      ghost var mid := data;
      val := ReadResponse(lib);
      ManyUnfolds(lib, mid, later);
      if val.Ok? {
        PrependAllTwice([], key.value, val.value, ParseMany(lib, data, later));
        FillingStep(lib, all, flat, was, later, out, key.value, val.value, data);
      } else {
        FillingFails(lib, all, flat, was, later + 2, out);
      }
    }

    /** The loop that fills a map: a key, then its value; a later duplicate key wins. */
    method ReadPairs(lib: GoLib, n: int) returns (result: Result)
      modifies this
      ensures result == ResultOf(ParsePairs(lib, n, old(data)))
      ensures ParsePairs(lib, n, old(data)).HasRest() ==> data == ParsePairs(lib, n, old(data)).rest
      decreases |data|, 3
    {
      if n == -1 {
        return Ok(Nil);
      }
      assert ParsePairs(lib, n, data) == AsMap(lib, ParseMany(lib, data, 2 * if n < 0 then 0 else n));
      result := FillMap(lib, if n < 0 then 0 else n);
    }

    method FillMap(lib: GoLib, n: nat) returns (result: Result)
      modifies this
      ensures result == ResultOf(AsMap(lib, ParseMany(lib, old(data), 2 * n)))
      ensures var p := ParseMany(lib, old(data), 2 * n); p.HasRest() ==> data == p.rest
      decreases |data|, 2
    {
      var out: map<string, Value> := map[];
      ghost var all, flat := ParseMany(lib, data, 2 * n), [];
      FillingStarts(lib, data, 2 * n);
      for i := 0 to n
        invariant |data| <= |old(data)|
        invariant Filling(lib, all, flat, data, 2 * (n - i), out)
      {
        ghost var later := 2 * (n - i) - 2;
        var key, val := ReadPair(lib, all, flat, later, out);
        if !key.Ok? || !val.Ok? {
          return if key.Ok? then val else key;
        }
        flat := flat + [key.value, val.value];
        out := out[Render(lib, key.value) := val.value];
      }
      FillingEnds(lib, all, flat, data, out);
      result := Ok(Map(out));
    }
  }

  /** `out` is the map of what has been read so far. */
  ghost predicate Filling(lib: GoLib, all: Read<seq<Value>>, flat: seq<Value>, s: string, n: nat, out: map<string,
      Value>) {
    Pending(lib, all, flat, s, n) && |flat| % 2 == 0 && out == Entries(lib, flat)
  }

  /** Reading fails as a whole with this result, at this position. */
  ghost predicate Fails(all: Read<seq<Value>>, result: Result, data: string) {
    !all.Got? && result == ResultOf(all.As()) && !result.Ok? && (all.HasRest() ==> data == all.rest)
  }

  lemma FillingStarts(lib: GoLib, s: string, n: nat)
    ensures Filling(lib, ParseMany(lib, s, n), [], s, n, map[])
  {
    PrependNothing(ParseMany(lib, s, n));
  }

  lemma FillingFails(lib: GoLib, all: Read<seq<Value>>, flat: seq<Value>, s: string, n: nat, out: map<string, Value>)
    requires Filling(lib, all, flat, s, n, out) && !ParseMany(lib, s, n).Got?
    ensures all == ParseMany(lib, s, n)
  {
    PendingFails(lib, all, flat, s, n);
  }

  lemma FillingEnds(lib: GoLib, all: Read<seq<Value>>, flat: seq<Value>, s: string, out: map<string, Value>)
    requires Filling(lib, all, flat, s, 0, out)
    ensures all.Got? && all.rest == s && AsMap(lib, all) == Got(Map(out), s)
  {
    PendingDone(lib, all, flat, s);
  }

  lemma FillingStep(lib: GoLib, all: Read<seq<Value>>, flat: seq<Value>, s: string, n: nat, out: map<string, Value>,
                    k: Value, v: Value, s': string)
    requires Filling(lib, all, flat, s, n + 2, out)
    requires ParseMany(lib, s, n + 2) == PrependAll([k, v], ParseMany(lib, s', n))
    ensures Filling(lib, all, flat + [k, v], s', n, out[Render(lib, k) := v])
  {
    PendingStep(lib, all, flat, s, n, k, v, s');
    EntriesStep(lib, flat, k, v);
  }

  /** `flat` has been read and n more values are due from `s`. */
  ghost predicate Pending(lib: GoLib, all: Read<seq<Value>>, flat: seq<Value>, s: string, n: nat) {
    all == PrependAll(flat, ParseMany(lib, s, n))
  }

  lemma PendingFails(lib: GoLib, all: Read<seq<Value>>, flat: seq<Value>, s: string, n: nat)
    requires Pending(lib, all, flat, s, n) && !ParseMany(lib, s, n).Got?
    ensures all == ParseMany(lib, s, n)
  {
  }

  lemma ElementFails(lib: GoLib, all: Read<seq<Value>>, flat: seq<Value>, s: string, n: nat)
    requires Pending(lib, all, flat, s, n + 1) && !Parse(lib, s).Got?
    ensures all == Parse(lib, s).As() && ResultOf(all.As()) == ResultOf(Parse(lib, s))
  {
    assert ParseMany(lib, s, n + 1) == Parse(lib, s).As();
  }

  lemma ElementRead(lib: GoLib, all: Read<seq<Value>>, flat: seq<Value>, s: string, n: nat)
    requires Pending(lib, all, flat, s, n + 1)
    ensures var p := Parse(lib, s);
      if p.Got? then Pending(lib, all, flat + [p.value], p.rest, n)
      else all == p.As() && ResultOf(all.As()) == ResultOf(p)
  {
    if Parse(lib, s).Got? {
      PendingOne(lib, all, flat, s, n, Parse(lib, s).value, Parse(lib, s).rest);
    } else {
      ElementFails(lib, all, flat, s, n);
    }
  }

  lemma PendingDone(lib: GoLib, all: Read<seq<Value>>, flat: seq<Value>, s: string)
    requires Pending(lib, all, flat, s, 0)
    ensures all == Got(flat, s)
  {
    assert flat + [] == flat;
  }

  lemma PendingOne(lib: GoLib, all: Read<seq<Value>>, flat: seq<Value>, s: string, n: nat, v: Value, s': string)
    requires Pending(lib, all, flat, s, n + 1) && Parse(lib, s) == Got(v, s')
    ensures Pending(lib, all, flat + [v], s', n)
  {
    PrependAllStep(flat, v, ParseMany(lib, s', n));
  }

  lemma PendingStep(lib: GoLib, all: Read<seq<Value>>, flat: seq<Value>, s: string, n: nat, k: Value, v: Value,
      s': string)
    requires Pending(lib, all, flat, s, n + 2)
    requires ParseMany(lib, s, n + 2) == PrependAll([k, v], ParseMany(lib, s', n))
    ensures Pending(lib, all, flat + [k, v], s', n)
  {
    PrependAllTwice(flat, k, v, ParseMany(lib, s', n));
  }

  lemma ManyUnfolds(lib: GoLib, s: string, n: nat)
    ensures var p := Parse(lib, s);
      ParseMany(lib, s, n + 1) == if p.Got? then Prepend(p.value, ParseMany(lib, p.rest, n)) else p.As()
  {
  }

  lemma PrependNothing(p: Read<seq<Value>>)
    ensures PrependAll([], p) == p
  {
    if p.Got? {
      assert [] + p.value == p.value;
    }
  }

  /** Results read so far put in front of what the remaining bytes give. */
  ghost function PrependAll(vs: seq<Value>, p: Read<seq<Value>>): Read<seq<Value>> {
    if p.Got? then Got(vs + p.value, p.rest) else p
  }

  lemma PrependAllStep(vs: seq<Value>, v: Value, p: Read<seq<Value>>)
    ensures PrependAll(vs, Prepend(v, p)) == PrependAll(vs + [v], p)
  {
    if p.Got? {
      assert vs + ([v] + p.value) == vs + [v] + p.value;
    }
  }

  lemma PrependAllTwice(vs: seq<Value>, k: Value, v: Value, p: Read<seq<Value>>)
    ensures PrependAll(vs, PrependAll([k, v], p)) == PrependAll(vs + [k, v], p)
    ensures PrependAll([k, v], p) == Prepend(k, Prepend(v, p))
  {
    if p.Got? {
      assert vs + ([k, v] + p.value) == vs + [k, v] + p.value;
      assert [k] + ([v] + p.value) == [k, v] + p.value;
    }
  }
}
