/** `float64(n)` for an integer n: rounding to nearest, ties to even, of the binary64 format
    (section 4.3.1 of IEEE 754-2019). Every integer field of a payload goes through it. */
module Float64 {
  import opened GoValues

  const TWO_53: nat := 0x20_0000_0000_0000

  function Abs(n: int): nat {
    if n < 0 then -n else n
  }

  function Pow2(k: nat): (p: nat)
    ensures p >= 1
  {
    if k == 0 then 1 else 2 * Pow2(k - 1)
  }

  /** Distance between neighbouring floats at magnitude m. */
  function Ulp(m: nat): (u: nat)
    ensures u >= 1
    ensures m >= TWO_53 ==> u % 2 == 0
  {
    if m < TWO_53 then 1 else 2 * Ulp(m / 2)
  }

  function RoundMag(m: nat): nat {
    var u := Ulp(m);
    var q, r := m / u, m % u;
    if 2 * r < u || (2 * r == u && q % 2 == 0) then m - r else m - r + u
  }

  function RoundInt(n: int): int {
    if n < 0 then 0 - RoundMag(-n) else RoundMag(n)
  }

  ghost predicate Scaled(m: nat, c: nat, k: nat) {
    m == c * Pow2(k)
  }

  /** An integer is a float when 53 bits of significand are enough to write it. */
  ghost predicate Representable(n: int) {
    exists c: nat, k: nat :: c < TWO_53 && Scaled(Abs(n), c, k)
  }

  lemma {:induction false} UlpScale(m: nat)
    requires m >= TWO_53
    ensures TWO_53 / 2 * Ulp(m) <= m < TWO_53 * Ulp(m)
  {
    if m / 2 >= TWO_53 {
      UlpScale(m / 2);
    }
  }

  lemma {:induction false} UlpIsPow2(m: nat) returns (k: nat)
    ensures Ulp(m) == Pow2(k)
  {
    if m < TWO_53 {
      k := 0;
    } else {
      var j := UlpIsPow2(m / 2);
      k := j + 1;
    }
  }

  lemma {:induction false} Pow2Split(a: nat, b: nat)
    ensures Pow2(a + b) == Pow2(a) * Pow2(b)
  {
    if b > 0 {
      Pow2Split(a, b - 1);
      Assoc(2, Pow2(a), Pow2(b - 1));
    }
  }

  lemma Assoc(a: int, b: int, c: int)
    ensures a * b * c == a * (b * c) == b * (a * c)
  {
  }

  lemma Product(a: nat, b: nat, c: nat)
    requires b <= a
    ensures b * c <= a * c
  {
  }

  /** m lies between the grid points q*u and q*u + u, and rounding picks one of the two. */
  lemma RoundCases(m: nat) returns (u: nat, q: nat, r: nat)
    ensures u == Ulp(m) && r < u && m == q * u + r
    ensures RoundMag(m) == if 2 * r < u || (2 * r == u && q % 2 == 0) then q * u else q * u + u
  {
    u := Ulp(m);
    q, r := m / u, m % u;
    Division(m, u);
  }

  lemma Division(m: nat, u: nat)
    requires u >= 1
    ensures m == m / u * u + m % u && m % u < u
  {
  }

  lemma Distribute(q: int, u: int)
    ensures (q + 1) * u == q * u + u
  {
  }

  /** The error is at most half the local spacing, and a tie keeps an even significand. */
  lemma RoundError(m: nat)
    ensures 2 * Abs(RoundMag(m) - m) <= Ulp(m)
    ensures 2 * Abs(RoundMag(m) - m) == Ulp(m) ==> exists s: nat :: s % 2 == 0 && RoundMag(m) == s * Ulp(m)
  {
    var u, q, r := RoundCases(m);
    if 2 * r == u {
      var s := if q % 2 == 0 then q else q + 1;
      Distribute(q, u);
      assert s % 2 == 0 && RoundMag(m) == s * u;
    }
  }

  lemma SignificandFits(m: nat, u: nat, q: nat, r: nat)
    requires r < u && m == q * u + r && TWO_53 / 2 * u <= m < TWO_53 * u
    ensures TWO_53 / 2 <= q < TWO_53
  {
    if q >= TWO_53 {
      Product(q, TWO_53, u);
    }
    if q < TWO_53 / 2 {
      Product(TWO_53 / 2, q + 1, u);
      Distribute(q, u);
    }
  }

  lemma RoundMagIsRepresentable(m: nat) returns (c: nat, k: nat)
    ensures c < TWO_53 && Scaled(RoundMag(m), c, k)
  {
    var u, q, r := RoundCases(m);
    k := UlpIsPow2(m);
    if m < TWO_53 {
      c, k := m, 0;
      assert m == q * u + r && u == 1;
    } else {
      UlpScale(m);
      SignificandFits(m, u, q, r);
      Distribute(q, u);
      c := if RoundMag(m) == q * u then q else q + 1;
      if c == TWO_53 {
        Assoc(2, TWO_53 / 2, Pow2(k));
        c, k := TWO_53 / 2, k + 1;
      }
    }
  }

  lemma RoundIsRepresentable(n: int)
    ensures Representable(RoundInt(n))
  {
    var c, k := RoundMagIsRepresentable(Abs(n));
    assert Abs(RoundInt(n)) == RoundMag(Abs(n));
    assert Scaled(Abs(RoundInt(n)), c, k);
  }

  /** A float at or above the local spacing is a grid point. */
  lemma OnGrid(c: nat, j: nat, k: nat, q: nat) returns (i: nat)
    requires k <= j
    ensures c * Pow2(j) == i * Pow2(k)
    ensures i * Pow2(k) <= q * Pow2(k) || i * Pow2(k) >= q * Pow2(k) + Pow2(k)
  {
    i := c * Pow2(j - k);
    Pow2Split(j - k, k);
    Assoc(c, Pow2(j - k), Pow2(k));
    Distribute(q, Pow2(k));
    if i <= q {
      Product(q, i, Pow2(k));
    } else {
      Product(i, q + 1, Pow2(k));
    }
  }

  /** A float finer than the local spacing lies below the grid. */
  lemma BelowGrid(c: nat, j: nat, k: nat, q: nat)
    requires j < k && c < TWO_53 && TWO_53 / 2 <= q
    ensures c * Pow2(j) <= q * Pow2(k)
  {
    var d := k - 1 - j;
    Pow2Split(d, j);
    Product(Pow2(d), 1, Pow2(j));
    Chain(c, Pow2(j), Pow2(k - 1), q);
  }

  lemma Chain(c: nat, a: nat, b: nat, q: nat)
    requires a <= b && c <= TWO_53 && TWO_53 / 2 <= q
    ensures c * a <= q * (2 * b)
  {
    Product(TWO_53, c, a);
    Product(q, TWO_53 / 2, 2 * b);
  }

  lemma NearestMag(m: nat, x: nat, c: nat, j: nat)
    requires c < TWO_53 && Scaled(x, c, j)
    ensures Abs(RoundMag(m) - m) <= Abs(x - m)
  {
    var u, q, r := RoundCases(m);
    if m < TWO_53 {
      assert u == 1;
    } else {
      var k := UlpIsPow2(m);
      UlpScale(m);
      SignificandFits(m, u, q, r);
      if k <= j {
        var i := OnGrid(c, j, k, q);
      } else {
        BelowGrid(c, j, k, q);
      }
    }
  }

  lemma NearestInteger(n: int, x: int)
    requires Representable(x)
    ensures Abs(RoundInt(n) - n) <= Abs(x - n)
  {
    var c: nat, j: nat :| c < TWO_53 && Scaled(Abs(x), c, j);
    NearestMag(Abs(n), Abs(x), c, j);
  }

  /** Exactly the integers with a 53-bit significand survive; all up to 2^53 do, and 2^53 + 1 is
      the first that does not. */
  lemma ExactIff(n: int)
    ensures RoundInt(n) == n <==> Representable(n)
    ensures Abs(n) <= TWO_53 ==> RoundInt(n) == n
    ensures RoundInt(TWO_53 + 1) == TWO_53
  {
    if Representable(n) {
      NearestInteger(n, n);
    }
    RoundIsRepresentable(n);
    assert Ulp(TWO_53) == 2 * Ulp(TWO_53 / 2);
    assert Ulp(TWO_53 + 1) == 2 * Ulp(TWO_53 / 2);
  }

  function AbsReal(r: real): real {
    if r < 0.0 then -r else r
  }

  /** A significand of 53 bits times or divided by a power of two. Float64 also bounds the exponent;
      that only leaves fewer candidates. */
  ghost predicate IsFloat(x: real) {
    exists c: int, k: nat :: Abs(c) < TWO_53 && (ScaledUp(x, c, k) || ScaledDown(x, c, k))
  }

  ghost predicate ScaledUp(x: real, c: int, k: nat) {
    x == (c * Pow2(k)) as real
  }

  ghost predicate ScaledDown(x: real, c: int, k: nat) {
    x * Pow2(k) as real == c as real
  }

  /** Dividing a significand only makes it smaller. */
  lemma FineFloatIsSmall(x: real, c: int, k: nat)
    requires Abs(c) < TWO_53 && ScaledDown(x, c, k)
    ensures AbsReal(x) <= TWO_53 as real
  {
    var p := Pow2(k) as real;
    assert p >= 1.0;
    if x > TWO_53 as real {
      assert x * p >= x * 1.0;
    }
  }

  lemma NearestCoarse(n: int, x: real, c: int, k: nat)
    requires Abs(c) < TWO_53 && ScaledUp(x, c, k)
    ensures AbsReal((RoundInt(n) - n) as real) <= AbsReal(x - n as real)
  {
    var i := c * Pow2(k);
    assert Abs(i) == Abs(c) * Pow2(k);
    assert Scaled(Abs(i), Abs(c), k);
    NearestInteger(n, i);
  }

  /** No float whatever is closer to n than the one chosen. */
  lemma RoundIsNearest(n: int, x: real)
    requires IsFloat(x)
    ensures AbsReal((RoundInt(n) - n) as real) <= AbsReal(x - n as real)
  {
    ExactIff(n);
    var c: int, k: nat :| Abs(c) < TWO_53 && (ScaledUp(x, c, k) || ScaledDown(x, c, k));
    if ScaledUp(x, c, k) {
      NearestCoarse(n, x, c, k);
    } else {
      FineFloatIsSmall(x, c, k);
      var edge: int := if n < 0 then -(TWO_53 as int) else TWO_53;
      ExactIff(edge);
      NearestInteger(n, edge);
    }
  }

  /** Order is kept, however coarse the spacing gets. */
  lemma RoundIsMonotone(a: int, b: int)
    requires a <= b
    ensures RoundInt(a) <= RoundInt(b)
  {
    RoundIsRepresentable(a);
    RoundIsRepresentable(b);
    NearestInteger(a, RoundInt(b));
    NearestInteger(b, RoundInt(a));
  }

  lemma EvenMultiple(q: nat, u: nat)
    requires u % 2 == 0
    ensures q * u % 2 == 0
  {
    var h := u / 2;
    assert u == 2 * h;
    Assoc(2, q, h);
    assert q * u == 2 * (q * h);
  }

  /** From 2^53 on there are no odd floats. */
  lemma LargeFloatsAreEven(m: nat)
    requires m >= TWO_53
    ensures RoundMag(m) % 2 == 0
  {
    var u, q, r := RoundCases(m);
    EvenMultiple(q, u);
    EvenEitherWay(q * u, u, RoundMag(m));
  }

  lemma EvenEitherWay(p: nat, u: nat, x: nat)
    requires p % 2 == 0 && u % 2 == 0 && (x == p || x == p + u)
    ensures x % 2 == 0
  {
  }

  /** Which unsigned 64-bit integers still fit uint64 after rounding. */
  lemma FitsUint64Iff(n: nat)
    requires n < TWO_64
    ensures RoundInt(n) < TWO_64 <==> n < TWO_64 - 1024
    ensures n >= TWO_64 - 1024 ==> RoundInt(n) == TWO_64
  {
    assert Ulp(0xFFFF_FFFF_FFFF_FC00) == 2048;
    assert RoundMag(0xFFFF_FFFF_FFFF_FC00) == TWO_64;
    assert Ulp(0xFFFF_FFFF_FFFF_FBFF) == 2048;
    assert RoundMag(0xFFFF_FFFF_FFFF_FBFF) == TWO_64 - 2048;
    assert Ulp(TWO_64) == 4096 && RoundMag(TWO_64) == TWO_64;
    if n < TWO_64 - 1024 {
      RoundIsMonotone(n, TWO_64 - 1025);
    } else {
      RoundIsMonotone(TWO_64 - 1024, n);
      RoundIsMonotone(n, TWO_64);
    }
  }

  /** Which 64-bit integers, signed or unsigned, still fit int64 after rounding: all but those within
      512 of 2^63 or above it. */
  lemma FitsInt64Iff(n: int)
    requires -TWO_63 <= n < TWO_64
    ensures InInt64(RoundInt(n)) <==> n < TWO_63 - 512
  {
    assert Ulp(0x7FFF_FFFF_FFFF_FE00) == 1024;
    assert RoundMag(0x7FFF_FFFF_FFFF_FE00) == TWO_63;
    assert Ulp(0x7FFF_FFFF_FFFF_FDFF) == 1024;
    assert RoundMag(0x7FFF_FFFF_FFFF_FDFF) == TWO_63 - 1024;
    assert Ulp(TWO_63) == 2048 && RoundMag(TWO_63) == TWO_63;
    RoundIsMonotone(-TWO_63, n);
    if n < TWO_63 - 512 {
      RoundIsMonotone(n, TWO_63 - 513);
    } else {
      RoundIsMonotone(TWO_63 - 512, n);
    }
  }
}
