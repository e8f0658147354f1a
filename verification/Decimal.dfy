/** Decimal text: what `%d`, `strconv.Itoa` and `strconv.FormatInt` print, and what
    `strconv.ParseInt(s, 10, 64)` and `strconv.Atoi` accept. */
module Decimal {
  import opened GoValues

  function DigitChar(d: int): (c: char)
    requires 0 <= d < 10
    ensures '0' <= c <= '9' && DigitOf(c) == d
  {
    (d + 48) as char
  }

  function DigitOf(c: char): int {
    c as int - 48
  }

  predicate IsDigit(c: char) {
    '0' <= c <= '9'
  }

  function Dec(n: nat): (s: string)
    ensures |s| > 0 && forall i | 0 <= i < |s| :: IsDigit(s[i])
  {
    if n < 10 then [DigitChar(n)] else Dec(n / 10) + [DigitChar(n % 10)]
  }

  function Text(n: int): string {
    if n < 0 then "-" + Dec(-n) else Dec(n)
  }

  /** The value of a run of digits, or nothing when some character is not a digit. */
  function Digits(s: string): Option<nat> {
    if s == "" then Some(0)
    else
      var c := s[|s| - 1];
      match Digits(s[..|s| - 1])
      case Some(n) => if IsDigit(c) then Some(n * 10 + DigitOf(c)) else None
      case None => None
  }

  /** An optional sign, then at least one digit, the value within int64. */
  function ParseInt(s: string): (r: Option<int>)
    ensures r.Some? ==> InInt64(r.value)
  {
    var signed := s != "" && (s[0] == '-' || s[0] == '+');
    var body := if signed then s[1..] else s;
    if body == "" then None
    else
      match Digits(body)
      case None => None
      case Some(n) =>
        var v := if signed && s[0] == '-' then 0 - n else n as int;
        if InInt64(v) then Some(v) else None
  }

  lemma {:induction false} DigitsOfDec(n: nat)
    ensures Digits(Dec(n)) == Some(n)
  {
    if n < 10 {
      assert Dec(n)[..0] == "";
    } else {
      var s := Dec(n);
      assert s[..|s| - 1] == Dec(n / 10);
      DigitsOfDec(n / 10);
    }
  }

  /** Printing and parsing are inverse on every int64. */
  lemma ParseText(n: int)
    requires InInt64(n)
    ensures ParseInt(Text(n)) == Some(n)
  {
    var m := if n < 0 then -n else n;
    DigitsOfDec(m);
    if n < 0 {
      assert Text(n)[1..] == Dec(m);
    } else {
      assert IsDigit(Dec(n)[0]);
    }
  }

  lemma TextHasNoBreak(n: int)
    ensures '\r' !in Text(n) && '\n' !in Text(n)
  {
  }

  predicate AllDigits(s: string) {
    forall i | 0 <= i < |s| :: '0' <= s[i] <= '9'
  }

  /** The value of a run of digits: one more digit counts ten times what stood before, plus itself. */
  function ValueOf(s: string): nat
    requires AllDigits(s)
  {
    if s == "" then 0 else 10 * ValueOf(s[..|s| - 1]) + (s[|s| - 1] as int - '0' as int)
  }

  lemma {:induction false} DigitsIff(s: string)
    ensures Digits(s) == if AllDigits(s) then Some(ValueOf(s)) else None
  {
    if s != "" {
      DigitsIff(s[..|s| - 1]);
      assert AllDigits(s) <==> AllDigits(s[..|s| - 1]) && '0' <= s[|s| - 1] <= '9';
    }
  }

  /** What `ParseInt` accepts: an optional sign and at least one digit, if the value is an int64. */
  lemma ParseIntIff(s: string)
    ensures var signed := s != "" && (s[0] == '-' || s[0] == '+');
      var body := if signed then s[1..] else s;
      if body == "" || !AllDigits(body) then ParseInt(s) == None
      else
        var n: int := if s[0] == '-' then -(ValueOf(body) as int) else ValueOf(body);
        ParseInt(s) == if -0x8000_0000_0000_0000 <= n < 0x8000_0000_0000_0000 then Some(n) else None
  {
    DigitsIff(if s != "" && (s[0] == '-' || s[0] == '+') then s[1..] else s);
  }
}
