/** The reader's verdict on bytes that have arrived does not change when more arrive; hence a reply
    cut short anywhere is always noticed. Both hold for every byte string, well formed or not. */
module RespLocality {
  import opened GoValues
  import opened Decimal
  import opened RespCodec

  lemma {:induction false} NewlineStays(s: string, more: string)
    requires NewlineAt(s).Some?
    ensures NewlineAt(s + more) == NewlineAt(s)
  {
    assert (s + more)[0] == s[0];
    if s[0] != '\n' {
      assert (s + more)[1..] == s[1..] + more;
      NewlineStays(s[1..], more);
    }
  }

  lemma LineStays(s: string, more: string)
    requires SplitLine(s).Some?
    ensures SplitLine(s + more) == Some((SplitLine(s).value.0, SplitLine(s).value.1 + more))
  {
    NewlineStays(s, more);
    var i := NewlineAt(s).value;
    assert (s + more)[..i + 1] == s[..i + 1];
    assert (s + more)[i + 1..] == s[i + 1..] + more;
  }

  lemma BlockStays(lib: GoLib, s: string, n: int, more: string)
    requires !Block(lib, s, n).Short?
    ensures Block(lib, s + more, n) == Block(lib, s, n).Plus(more)
  {
    if Makes(lib, n + 2, 1) {
      assert (s + more)[n + 2..] == s[n + 2..] + more;
      if 0 <= n {
        assert (s + more)[..n] == s[..n];
      }
    }
  }

  /** Locality: once `readResponse` has enough bytes, what follows them only stays unread. */
  lemma {:induction false} ParseStays(lib: GoLib, s: string, more: string)
    requires !Parse(lib, s).Short?
    ensures Parse(lib, s + more) == Parse(lib, s).Plus(more)
    decreases |s|, 0
  {
    LineStays(s, more);
    var (line, rest) := SplitLine(s).value;
    if line != "" {
      ParseTypedStays(lib, line[0], line[1..], rest, more);
    }
  }

  lemma {:induction false} ParseTypedStays(lib: GoLib, kind: char, payload: string, rest: string, more: string)
    requires !ParseTyped(lib, kind, payload, rest).Short?
    ensures ParseTyped(lib, kind, payload, rest + more) == ParseTyped(lib, kind, payload, rest).Plus(more)
    decreases |rest|, 4
  {
    if kind !in "+-(_#," && ParseInt(payload).Some? {
      ParseCountedStays(lib, kind, ParseInt(payload).value, rest, more);
    }
  }

  lemma {:induction false} ParseCountedStays(lib: GoLib, kind: char, n: int, rest: string, more: string)
    requires !ParseCounted(lib, kind, n, rest).Short?
    ensures ParseCounted(lib, kind, n, rest + more) == ParseCounted(lib, kind, n, rest).Plus(more)
    decreases |rest|, 3
  {
    match kind
    case '$' => if n != -1 { BlockStays(lib, rest, n, more); }
    case '!' => BlockStays(lib, rest, n, more);
    case '=' => BlockStays(lib, rest, n, more);
    case '*' => ParseItemsStays(lib, n, rest, more);
    case '~' => ParseItemsStays(lib, n, rest, more);
    case '%' => ParsePairsStays(lib, n, rest, more);
    case _ =>
  }

  lemma {:induction false} ParseItemsStays(lib: GoLib, n: int, rest: string, more: string)
    requires !ParseItems(lib, n, rest).Short?
    ensures ParseItems(lib, n, rest + more) == ParseItems(lib, n, rest).Plus(more)
    decreases |rest|, 2
  {
    if Makes(lib, n, INTERFACE_SIZE) {
      ParseManyStays(lib, rest, n, more);
    }
  }

  lemma {:induction false} ParsePairsStays(lib: GoLib, n: int, rest: string, more: string)
    requires !ParsePairs(lib, n, rest).Short?
    ensures ParsePairs(lib, n, rest + more) == ParsePairs(lib, n, rest).Plus(more)
    decreases |rest|, 2
  {
    if n >= 0 {
      ParseManyStays(lib, rest, 2 * n, more);
    }
  }

  lemma {:induction false} ParseManyStays(lib: GoLib, s: string, n: nat, more: string)
    requires !ParseMany(lib, s, n).Short?
    ensures ParseMany(lib, s + more, n) == ParseMany(lib, s, n).Plus(more)
    decreases |s|, 1, n
  {
    if n > 0 {
      ParseStays(lib, s, more);
      if Parse(lib, s).Got? {
        ParseManyStays(lib, Parse(lib, s).rest, n - 1, more);
      }
    }
  }

  // ---------------------------------------------------------------- how many bytes are enough

  /** There is a verdict, and it did not need the last bytes. */
  predicate Enough<T>(p: Read<T>, more: string) {
    p.HasRest() && |more| <= |p.rest|
  }

  lemma LineEnough(cut: string, more: string)
    requires SplitLine(cut + more).Some? && |more| <= |SplitLine(cut + more).value.1|
    ensures SplitLine(cut).Some?
  {
    var i := NewlineAt(cut + more).value;
    assert i < |cut| && cut[i] == '\n';
  }

  lemma BlockEnough(lib: GoLib, cut: string, n: int, more: string)
    requires Block(lib, cut + more, n).HasRest() && |more| <= |Block(lib, cut + more, n).rest|
    ensures !Block(lib, cut, n).Short?
  {
  }

  /** The bytes a verdict used are enough for it: leaving out any of those it did not use still gives a
      verdict. */
  lemma {:induction false} ParseEnough(lib: GoLib, cut: string, more: string)
    requires Enough(Parse(lib, cut + more), more)
    ensures !Parse(lib, cut).Short?
    decreases |cut|, 0
  {
    LineEnough(cut, more);
    LineStays(cut, more);
    var (line, rest) := SplitLine(cut).value;
    if line != "" {
      TypedEnough(lib, line[0], line[1..], rest, more);
    }
  }

  lemma {:induction false} TypedEnough(lib: GoLib, kind: char, payload: string, cut: string, more: string)
    requires Enough(ParseTyped(lib, kind, payload, cut + more), more)
    ensures !ParseTyped(lib, kind, payload, cut).Short?
    decreases |cut|, 4
  {
    if kind !in "+-(_#," && ParseInt(payload).Some? {
      CountedEnough(lib, kind, ParseInt(payload).value, cut, more);
    }
  }

  lemma {:induction false} CountedEnough(lib: GoLib, kind: char, n: int, cut: string, more: string)
    requires Enough(ParseCounted(lib, kind, n, cut + more), more)
    ensures !ParseCounted(lib, kind, n, cut).Short?
    decreases |cut|, 3
  {
    match kind
    case '$' => if n != -1 { BlockEnough(lib, cut, n, more); }
    case '!' => BlockEnough(lib, cut, n, more);
    case '=' => BlockEnough(lib, cut, n, more);
    case '*' => ItemsEnough(lib, n, cut, more);
    case '~' => ItemsEnough(lib, n, cut, more);
    case '%' => PairsEnough(lib, n, cut, more);
    case _ =>
  }

  lemma {:induction false} ItemsEnough(lib: GoLib, n: int, cut: string, more: string)
    requires Enough(ParseItems(lib, n, cut + more), more)
    ensures !ParseItems(lib, n, cut).Short?
    decreases |cut|, 2
  {
    if Makes(lib, n, INTERFACE_SIZE) {
      ManyEnough(lib, cut, n, more);
    }
  }

  lemma {:induction false} PairsEnough(lib: GoLib, n: int, cut: string, more: string)
    requires Enough(ParsePairs(lib, n, cut + more), more)
    ensures !ParsePairs(lib, n, cut).Short?
    decreases |cut|, 2
  {
    if n >= 0 {
      ManyEnough(lib, cut, 2 * n, more);
    }
  }

  lemma ManyStep(lib: GoLib, s: string, n: nat)
    requires n > 0
    ensures var p := Parse(lib, s);
      ParseMany(lib, s, n) == if p.Got? then Prepend(p.value, ParseMany(lib, p.rest, n - 1)) else p.As()
  {
  }

  lemma ManyIsShort(lib: GoLib, s: string, n: nat, p: Read<Value>)
    requires n > 0 && p == Parse(lib, s)
    ensures ParseMany(lib, s, n).Short? <==> if p.Got? then ParseMany(lib, p.rest, n - 1).Short? else p.Short?
  {
    ManyStep(lib, s, n);
  }

  lemma FirstEnough(lib: GoLib, s: string, n: nat, more: string)
    requires n > 0 && Enough(ParseMany(lib, s, n), more)
    ensures Enough(Parse(lib, s), more)
    ensures Parse(lib, s).Got? ==> Enough(ParseMany(lib, Parse(lib, s).rest, n - 1), more)
  {
    ManyStep(lib, s, n);
  }

  /** What the step knows of the remaining values, once the first has been read from `cut`. */
  lemma OthersEnough(lib: GoLib, cut: string, n: nat, more: string, first: Read<Value>)
    requires n > 0 && Parse(lib, cut) == first && first.Got?
    requires Enough(ParseMany(lib, cut + more, n), more)
    ensures |first.rest| < |cut| && Enough(ParseMany(lib, first.rest + more, n - 1), more)
  {
    FirstEnough(lib, cut + more, n, more);
    ParseStays(lib, cut, more);
  }

  lemma {:induction false} ManyEnough(lib: GoLib, cut: string, n: nat, more: string)
    requires Enough(ParseMany(lib, cut + more, n), more)
    ensures !ParseMany(lib, cut, n).Short?
    decreases |cut|, 1, n, 1
  {
    if n > 0 {
      FirstOfMany(lib, cut, n, more);
      OthersOfMany(lib, cut, n, more, Parse(lib, cut));
    }
  }

  lemma {:induction false} FirstOfMany(lib: GoLib, cut: string, n: nat, more: string)
    requires n > 0 && Enough(ParseMany(lib, cut + more, n), more)
    ensures !Parse(lib, cut).Short?
    decreases |cut|, 1, n, 0
  {
    FirstEnough(lib, cut + more, n, more);
    ParseEnough(lib, cut, more);
  }

  lemma {:induction false} OthersOfMany(lib: GoLib, cut: string, n: nat, more: string, first: Read<Value>)
    requires n > 0 && Enough(ParseMany(lib, cut + more, n), more)
    requires first == Parse(lib, cut) && !first.Short?
    ensures !ParseMany(lib, cut, n).Short?
    decreases |cut|, 1, n, 0
  {
    ManyIsShort(lib, cut, n, first);
    if first.Got? {
      OthersEnough(lib, cut, n, more, first);
      ManyEnough(lib, first.rest, n - 1, more);
    }
  }

  lemma TooShortIff(lib: GoLib, cut: string, more: string)
    requires Parse(lib, cut + more).HasRest()
    ensures Parse(lib, cut).Short? <==> |more| > |Parse(lib, cut + more).rest|
    ensures !Parse(lib, cut).Short? ==> Parse(lib, cut).Plus(more) == Parse(lib, cut + more)
  {
    if !Parse(lib, cut).Short? {
      ParseStays(lib, cut, more);
    } else if |more| <= |Parse(lib, cut + more).rest| {
      ParseEnough(lib, cut, more);
    }
  }

  /** Truncation is detected exactly: of the bytes a value or server error was read from, a prefix
      reads as `Short` if and only if it leaves one of them out; any longer prefix gives the same
      verdict. */
  lemma TruncationIsShort(lib: GoLib, s: string, k: nat)
    requires Parse(lib, s).HasRest() && k <= |s|
    ensures Parse(lib, s[..k]).Short? <==> k < |s| - |Parse(lib, s).rest|
    ensures !Parse(lib, s[..k]).Short? ==> Parse(lib, s[..k]).Plus(s[k..]) == Parse(lib, s)
  {
    assert s[..k] + s[k..] == s;
    TooShortIff(lib, s[..k], s[k..]);
  }
}
