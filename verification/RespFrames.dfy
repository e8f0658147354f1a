/** Request frames: `buildMultibulk`, what the reader recovers from them, and why two frames can
    never be confused. */
module RespFrames {
  import opened GoValues
  import opened Decimal
  import opened RespCodec
  import opened RespRoundTrip

  function Bulks(parts: seq<string>): seq<Reply> {
    seq(|parts|, i requires 0 <= i < |parts| => Bulk(parts[i]))
  }

  function Strings(parts: seq<string>): seq<Value> {
    seq(|parts|, i requires 0 <= i < |parts| => Str(parts[i]))
  }

  /** The command followed by each argument as `%v` prints it. */
  function Parts(lib: GoLib, cmd: string, args: seq<Value>): seq<string> {
    [cmd] + seq(|args|, i requires 0 <= i < |args| => Render(lib, args[i]))
  }

  /** The standard encoding of an array of bulk strings. */
  function Frame(parts: seq<string>): string {
    Encode(Array(Bulks(parts)))
  }

  /** A frame whose parts a reader can allocate. */
  predicate Fits(lib: GoLib, parts: seq<string>) {
    Makes(lib, |parts|, INTERFACE_SIZE) && forall i | 0 <= i < |parts| :: Makes(lib, |parts[i]| + 2, 1)
  }

  lemma {:induction false} EncodeAllAppend(ts: seq<Reply>, t: Reply)
    ensures EncodeAll(ts + [t]) == EncodeAll(ts) + Encode(t)
  {
    if ts == [] {
      assert [t][1..] == [] && EncodeAll([t]) == Encode(t) + EncodeAll([]);
      assert ts + [t] == [t];
    } else {
      assert (ts + [t])[1..] == ts[1..] + [t];
      EncodeAllAppend(ts[1..], t);
    }
  }

  /** A frame of which i parts have been written. */
  ghost function Partial(parts: seq<string>, i: nat): string
    requires i <= |parts|
  {
    Line('*', Text(|parts|)) + EncodeAll(Bulks(parts[..i]))
  }

  lemma PartialEnds(parts: seq<string>)
    ensures Partial(parts, 0) == "*" + Text(|parts|) + "\r\n"
    ensures Partial(parts, |parts|) == Frame(parts)
  {
    assert parts[..|parts|] == parts;
    assert Bulks(parts[..0]) == [];
    assert Line('*', Text(|parts|)) + "" == Line('*', Text(|parts|));
  }

  lemma PartialStep(parts: seq<string>, i: nat)
    requires i < |parts|
    ensures Partial(parts, i + 1) == Partial(parts, i) + ("$" + Text(|parts[i]|) + "\r\n" + parts[i] + "\r\n")
  {
    var t := Bulk(parts[i]);
    assert Bulks(parts[..i + 1]) == Bulks(parts[..i]) + [t];
    EncodeAllAppend(Bulks(parts[..i]), t);
    assert Encode(t) == "$" + Text(|parts[i]|) + "\r\n" + parts[i] + "\r\n";
  }

  lemma PartsStep(lib: GoLib, cmd: string, args: seq<Value>, i: nat)
    requires i < |args|
    ensures Parts(lib, cmd, args[..i + 1]) == Parts(lib, cmd, args[..i]) + [Render(lib, args[i])]
  {
    assert args[..i + 1][..i] == args[..i];
  }

  /** `buildMultibulk`: the parts are rendered, then framed one by one, in two loops. The bytes are
      the standard encoding of the array of parts. */
  method BuildMultibulk(lib: GoLib, cmd: string, args: seq<Value>) returns (frame: string)
    ensures frame == Frame(Parts(lib, cmd, args))
  {
    var parts := [cmd];
    for i := 0 to |args|
      invariant parts == Parts(lib, cmd, args[..i])
    {
      PartsStep(lib, cmd, args, i);
      parts := parts + [Render(lib, args[i])];
    }
    assert args[..|args|] == args;

    frame := "*" + Text(|parts|) + "\r\n";
    PartialEnds(parts);
    for i := 0 to |parts|
      invariant frame == Partial(parts, i)
    {
      PartialStep(parts, i);
      var p := parts[i];
      frame := frame + ("$" + Text(|p|) + "\r\n" + p + "\r\n");
    }
  }

  lemma {:induction false} DenoteBulks(lib: GoLib, parts: seq<string>)
    ensures DenoteAll(lib, Bulks(parts)) == Got(Strings(parts), "")
  {
    if parts == [] {
    } else {
      DenoteBulks(lib, parts[1..]);
      assert Bulks(parts)[1..] == Bulks(parts[1..]);
      assert Strings(parts) == [Str(parts[0])] + Strings(parts[1..]);
    }
  }

  /** Whatever the parts contain, the reader gives them back and stops where the frame ends. */
  lemma FrameReads(lib: GoLib, parts: seq<string>, rest: string)
    requires Fits(lib, parts)
    ensures Parse(lib, Frame(parts) + rest) == Got(Arr(Strings(parts)), rest)
  {
    ReadInvertsEncode(lib, Array(Bulks(parts)), rest);
    DenoteBulks(lib, parts);
    assert "" + rest == rest;
  }

  lemma StringsInjective(p: seq<string>, q: seq<string>)
    requires Strings(p) == Strings(q)
    ensures p == q
  {
    forall i | 0 <= i < |p| ensures i < |q| && p[i] == q[i] {
      assert Strings(p)[i] == Str(p[i]) && Strings(q)[i] == Str(q[i]);
    }
    assert |Strings(p)| == |p| && |Strings(q)| == |q|;
  }

  /** Frames are uniquely decodable: a byte stream starts with at most one frame, and its parts are
      determined. No argument can be crafted to look like the end of its frame. */
  lemma FramesAreUnambiguous(lib: GoLib, p: seq<string>, x: string, q: seq<string>, y: string)
    requires Fits(lib, p) && Fits(lib, q)
    requires Frame(p) + x == Frame(q) + y
    ensures p == q && x == y
  {
    FrameReads(lib, p, x);
    FrameReads(lib, q, y);
    StringsInjective(p, q);
  }
}
