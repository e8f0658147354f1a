/** The offset of a stream read, from `Consume` to the wire: declared as uint64, carried as a float, sent as
    an int64. */
module StreamOffset {
  import opened GoValues
  import opened GoTypes
  import opened Float64
  import opened PayloadEncode
  import opened PayloadRoundTrip
  import opened Utf8
  import opened JsonTrip
  import opened CommandMap
  import opened PayloadFields

  /** The struct `Consume` declares for its payload. */
  const READ_FIELDS: seq<Layout> :=
    [Layout("room", TString, false), Layout("subscriber_id", TString, false), Layout("from_offset", TUint(W64), false),
     Layout("limit", TInt(W64), false)]

  lemma ReadNamesArePlain()
    ensures forall i | 0 <= i < |READ_FIELDS| :: IsName(READ_FIELDS[i].name)
  {
    assert IsName("room") && IsName("subscriber_id") && IsName("from_offset") && IsName("limit");
  }

  lemma ReadNames()
    ensures GoodNames(READ_FIELDS)
  {
    ReadNamesArePlain();
    assert forall i | 0 <= i < 4 :: |READ_FIELDS[i].name| == [4, 13, 11, 5][i];
  }

  function Read(room: string, subscriber: string, offset: nat, limit: int): GoVal {
    VStruct([VStr(room), VStr(subscriber), VInt(offset), VInt(limit)])
  }

  const READ: seq<Arg> := [Text("room"), Text("subscriber_id"), Number("from_offset"), Number("limit")]

  /** The offset on the wire. */
  function WireOffset(lib: GoLib, n: nat): int {
    IntBack(lib, n)
  }

  lemma ReadReaches(lib: GoLib, fs: seq<Field>, vs: seq<GoVal>, resp3: bool)
    requires DeclaredAs(fs, READ_FIELDS) && HasType(VStruct(vs), TStruct(fs))
    ensures vs[0].VStr? && vs[1].VStr? && vs[2].VInt? && vs[3].VInt?
    ensures var m := MapOfStruct(lib, resp3, fs, vs);
      && CLIENT_ID !in m
      && FieldText(lib, m, "room") == SentText(resp3, vs[0].s)
      && FieldText(lib, m, "subscriber_id") == SentText(resp3, vs[1].s)
      && FieldInt(lib, m, "from_offset") == GoInt(IntBack(lib, vs[2].n))
      && FieldInt(lib, m, "limit") == GoInt(IntBack(lib, vs[3].n))
  {
    ReadNames();
    NameAbsent(lib, resp3, fs, READ_FIELDS, vs, CLIENT_ID);
    TextReaches(lib, resp3, fs, READ_FIELDS, vs, 0, "room");
    TextReaches(lib, resp3, fs, READ_FIELDS, vs, 1, "subscriber_id");
    IntegerReaches(lib, resp3, fs, READ_FIELDS, vs, 2, "from_offset");
    IntegerReaches(lib, resp3, fs, READ_FIELDS, vs, 3, "limit");
  }

  /** What `Consume` sends, on either native transport. */
  lemma ConsumeRequest(lib: GoLib, fs: seq<Field>, room: string, subscriber: string, offset: nat, limit: int,
      resp3: bool)
    requires DeclaredAs(fs, READ_FIELDS) && offset < TWO_64 && InInt64(limit)
    ensures HasType(Read(room, subscriber, offset, limit), TStruct(fs))
    ensures var m := Reaches(lib, resp3, Read(room, subscriber, offset, limit), TStruct(fs));
      MapCommand(lib, "stream.consume", m, resp3)
         == Some(Request("SREAD", [SentText(resp3, room), SentText(resp3, subscriber), GoInt(WireOffset(lib, offset)),
                                   GoInt(IntBack(lib, limit))]))
  {
    var vs := Read(room, subscriber, offset, limit).fields;
    StructHasType(fs, READ_FIELDS, vs);
    ReadReaches(lib, fs, vs, resp3);
    ReadRow(lib, MapOfStruct(lib, resp3, fs, vs), resp3);
  }

  lemma ReadRow(lib: GoLib, m: Payload, resp3: bool)
    requires CLIENT_ID !in m
    ensures MapCommand(lib, "stream.consume", m, resp3)
         == Some(Request("SREAD", [FieldText(lib, m, "room"), FieldText(lib, m, "subscriber_id"),
                                   FieldInt(lib, m, "from_offset"), FieldInt(lib, m, "limit")]))
  {
    assert DataRow("stream.consume", m, resp3) == Some(Row("SREAD", READ));
    Singles(lib, m, READ,
            [FieldText(lib, m, "room"), FieldText(lib, m, "subscriber_id"), FieldInt(lib, m, "from_offset"),
             FieldInt(lib, m, "limit")]);
  }

  /** The fidelity of an offset. More than 512 below 2^63 it is the rounded offset, off by at most half the
      local spacing; nearer, the conversion is the implementation's choice. It is the offset itself exactly
      when 53 bits of significand hold it, or by that choice. */
  lemma OffsetOnWire(lib: GoLib, n: nat)
    requires n < TWO_64
    ensures n < TWO_63 - 512 ==> WireOffset(lib, n) == RoundInt(n) && 2 * Abs(WireOffset(lib, n) - n) <= Ulp(n)
    ensures WireOffset(lib, n) == n
       <==> if n < TWO_63 - 512 then Representable(n) else n < TWO_63 && Wrap64(lib.wildInt(TWO_63 as real)) == n
    ensures n <= TWO_53 ==> WireOffset(lib, n) == n
    ensures WireOffset(lib, TWO_53 + 1) == TWO_53
  {
    IntBackRounds(lib, n);
    IntBackRounds(lib, TWO_53 + 1);
    RoundError(n);
    ExactIff(n);
    NearTheTop(lib, n);
  }

  lemma NearTheTop(lib: GoLib, n: nat)
    requires n < TWO_64
    ensures TWO_63 - 512 <= n < TWO_63 ==> WireOffset(lib, n) == Wrap64(lib.wildInt(TWO_63 as real))
    ensures n >= TWO_63 ==> WireOffset(lib, n) != n
  {
    if TWO_63 - 512 <= n < TWO_63 {
      FitsInt64Iff(n);
      TruncOfInt(RoundInt(n));
      RoundIsMonotone(n, TWO_63);
      assert Ulp(TWO_63) == 2048 && RoundMag(TWO_63) == TWO_63;
      assert RoundInt(n) == TWO_63;
    }
  }

  /** A later offset is never sent as an earlier one. */
  lemma OffsetIsMonotone(lib: GoLib, a: nat, b: nat)
    requires a <= b < TWO_63 - 512
    ensures WireOffset(lib, a) <= WireOffset(lib, b)
  {
    IntBackRounds(lib, a);
    IntBackRounds(lib, b);
    RoundIsMonotone(a, b);
  }
}
