/** Watch events: what `watchEventFromEnvelope` makes of a JSON envelope, and which gaps its versions show. */
module WatchEvents {
  import opened GoValues
  import opened Float64

  datatype WatchEvent = WatchEvent(key: string, event: string, version: nat, value: string, truncated: bool)

  /** `asString`. */
  function TextAt(envelope: map<string, Value>, k: string): string {
    if k in envelope && envelope[k].Str? then envelope[k].s else ""
  }

  function VersionAt(lib: GoLib, envelope: map<string, Value>): nat {
    if "version" in envelope && envelope["version"].Float? then FloatToUint64(lib, envelope["version"].r) else 0
  }

  /** `watchEventFromEnvelope`: fields that are missing or of another type stay zero. */
  method WatchEventFromEnvelope(lib: GoLib, envelope: map<string, Value>) returns (e: WatchEvent)
    ensures e.key == if "key" in envelope && envelope["key"].Str? then envelope["key"].s else ""
    ensures e.event == if "event" in envelope && envelope["event"].Str? then envelope["event"].s else ""
    ensures e.value == if "value" in envelope && envelope["value"].Str? then envelope["value"].s else ""
    ensures e.version == VersionAt(lib, envelope)
    ensures e.truncated <==> "truncated" in envelope && envelope["truncated"] == Bool(true)
  {
    e := WatchEvent(TextAt(envelope, "key"), TextAt(envelope, "event"), 0, TextAt(envelope, "value"), false);
    if "version" in envelope && envelope["version"].Float? {
      e := e.(version := FloatToUint64(lib, envelope["version"].r));
    }
    if "truncated" in envelope && envelope["truncated"].Bool? {
      e := e.(truncated := envelope["truncated"].b);
    }
  }

  /** A version that is a float is its integral part, any other is missing. */
  lemma VersionSays(lib: GoLib, envelope: map<string, Value>, n: nat)
    ensures "version" !in envelope || !envelope["version"].Float? ==> VersionAt(lib, envelope) == 0
    ensures "version" in envelope && envelope["version"].Float? && n < TWO_64 ==>
      (n as real <= envelope["version"].r < n as real + 1.0 ==> VersionAt(lib, envelope) == n)
  {
  }

  /** The version a watcher sees when the server's is n: JSON numbers are read as floats. */
  function Seen(lib: GoLib, n: nat): nat {
    VersionAt(lib, map["version" := Float(RoundInt(n) as real)])
  }

  lemma SeenIsRounded(lib: GoLib, n: nat)
    requires n < TWO_64
    ensures Seen(lib, n) == if n < TWO_64 - 1024 then RoundInt(n) else lib.wildInt(TWO_64 as real) % TWO_64
  {
    FitsUint64Iff(n);
    TruncOfInt(RoundInt(n));
    RoundIsMonotone(0, n);
    ExactIff(0);
  }

  /** The version is the server's exactly when 53 bits of significand hold it or, within 1024 of 2^64, by the
      implementation's choice. */
  lemma VersionIsExactIff(lib: GoLib, n: nat)
    requires n < TWO_64
    ensures Seen(lib, n) == n
       <==> if n < TWO_64 - 1024 then Representable(n) else lib.wildInt(TWO_64 as real) % TWO_64 == n
    ensures n <= TWO_53 ==> Seen(lib, n) == n
  {
    SeenIsRounded(lib, n);
    ExactIff(n);
  }

  /** What a version n is seen as, up to 2^53 and above. */
  predicate SeenAs(n: nat, x: nat) {
    && (n <= TWO_53 ==> x == n)
    && (n == TWO_53 + 1 ==> x == TWO_53)
    && (n > TWO_53 + 1 ==> x >= TWO_53 + 2 && x % 2 == 0)
  }

  lemma RoundedIsSeenAs(n: nat)
    ensures RoundInt(n) >= 0 && SeenAs(n, RoundInt(n))
  {
    ExactIff(n);
    if n > TWO_53 + 1 {
      assert Ulp(TWO_53 + 2) == 2 * Ulp(TWO_53 / 2 + 1) == 2;
      assert RoundInt(TWO_53 + 2) == TWO_53 + 2;
      RoundIsMonotone(TWO_53 + 2, n);
      LargeFloatsAreEven(n);
    }
  }

  lemma SuccessorsIff(a: nat, b: nat, x: nat, y: nat)
    requires a < b && SeenAs(a, x) && SeenAs(b, y)
    ensures y == x + 1 <==> (b == a + 1 && b <= TWO_53) || (a == TWO_53 - 1 && b == TWO_53 + 1)
  {
  }

  /** Gap detection. Of two versions a watcher sees one after the other, the second looks like the successor of
      the first exactly when it is and is at most 2^53; and in one other case, where the missing version is
      2^53 itself. From 2^53 on, no version seems to follow another. */
  lemma SeemsConsecutiveIff(lib: GoLib, a: nat, b: nat)
    requires a < b < TWO_64 - 1024
    ensures Seen(lib, b) == Seen(lib, a) + 1
       <==> (b == a + 1 && b <= TWO_53) || (a == TWO_53 - 1 && b == TWO_53 + 1)
  {
    SeenIsRounded(lib, a);
    SeenIsRounded(lib, b);
    RoundedIsSeenAs(a);
    RoundedIsSeenAs(b);
    SuccessorsIff(a, b, Seen(lib, a), Seen(lib, b));
  }
}
