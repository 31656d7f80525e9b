/**
  What a printed duration reads back as: the rounding of the parser's binary64
  arithmetic, decided for every 64-bit count of nanoseconds.
  */
module DurationTrip {
  import opened Base
  import opened Binary64
  import opened Duration
  import opened Powers

  const HALF: nat := 0x10_0000_0000_0000

  // ------------------------------------------------------------ the condition

  /** How often `n` is doubled until it is 2^52 units. */
  function Shift(n: nat, unit: nat): nat
    requires 0 < n
    decreases HALF * unit - n
  {
    if HALF * unit <= n then 0 else 1 + Shift(2 * n, unit)
  }

  /** `n` in units of its last place after division by `unit`. */
  function Scaled(n: nat, unit: nat): nat
    requires 0 < n
  {
    n * Power2(Shift(n, unit))
  }

  /** The remainders that a unit of `bits` bits loses: those that round down by more
      than a quarter of 2^bits, in the part of the binade the unit leaves finer. */
  predicate Dips(n: nat, unit: nat, bits: nat)
    requires 0 < unit && 2 <= bits
  {
    && 0 < n
    && Scaled(n, unit) < Power2(52 + bits)
    && Power2(bits - 2) < Scaled(n, unit) % unit
    && 2 * (Scaled(n, unit) % unit) < unit
  }

  lemma {:induction false} ShiftIs(n: nat, unit: nat)
    requires 0 < n < 2 * HALF * unit
    ensures HALF * unit <= Scaled(n, unit) < 2 * HALF * unit
    decreases HALF * unit - n
  {
    if HALF * unit <= n {
      assert Power2(0) == 1;
    } else {
      ShiftIs(2 * n, unit);
      var k := Shift(2 * n, unit);
      assert Power2(k + 1) == 2 * Power2(k);
      assert 2 * n * Power2(k) == n * Power2(k + 1);
    }
  }

  // ------------------------------------------------------------ one unit's share

  lemma Division(n: nat, unit: nat)
    requires 0 < unit
    ensures n == n / unit * unit + n % unit && (n / unit + 1) * unit == n / unit * unit + unit
  {
  }

  /** The nearest integer to a quotient. */
  lemma NearestQuotient(n: nat, unit: nat)
    requires 0 < unit && 2 * (n % unit) != unit
    ensures Nearest(Div(n as real, unit as real)) == if 2 * (n % unit) < unit then n / unit else n / unit + 1
  {
    hide Div, Nearest;
    Division(n, unit);
    var m := if 2 * (n % unit) < unit then n / unit else n / unit + 1;
    QuotientApart(n, unit, m);
    SmallQuotient(n - m * unit, unit);
    NearestIs(Div(n as real, unit as real), m);
  }

  lemma QuotientApart(n: int, unit: nat, m: int)
    requires 0 < unit
    ensures Div(n as real, unit as real) == m as real + Div((n - m * unit) as real, unit as real)
  {
    var x, y := n as real / unit as real, (n - m * unit) as real / unit as real;
    assert x * unit as real == n as real && y * unit as real == (n - m * unit) as real;
    assert (m * unit) as real == m as real * unit as real;
    assert (m as real + y) * unit as real == n as real;
    Divides(x, m as real + y, unit as real);
  }

  lemma SmallQuotient(d: int, unit: nat)
    requires 0 < unit
    ensures 2 * d < unit && 0 < 2 * d + unit ==> -0.5 < Div(d as real, unit as real) < 0.5
    ensures 2 * d <= unit && 0 <= 2 * d + unit ==> -0.5 <= Div(d as real, unit as real) <= 0.5
  {
    hide Div;
    HalfQuotient(d as real, unit as real);
  }

  lemma HalfQuotient(y: real, u: real)
    requires 0.0 < u
    ensures 2.0 * y < u <==> Div(y, u) < 0.5
    ensures -u < 2.0 * y <==> -0.5 < Div(y, u)
    ensures 2.0 * y <= u <==> Div(y, u) <= 0.5
    ensures -u <= 2.0 * y <==> -0.5 <= Div(y, u)
  {
    Compared(y, 0.5 * u, u);
    Compared(-0.5 * u, y, u);
    Compared(0.5 * u, y, u);
    Compared(y, -0.5 * u, u);
    assert 0.5 * u / u == 0.5;
    assert -0.5 * u / u == -0.5;
  }

  lemma Compared(x: real, y: real, u: real)
    requires 0.0 < u
    ensures x < y <==> x / u < y / u
  {
    var p, q := x / u, y / u;
    assert p * u == x && q * u == y;
    if p < q { assert p * u < q * u; } else { assert q * u <= p * u; }
  }

  /** What the product of the rounded quotient misses, in units of the last place. */
  function Miss(scaled: nat, unit: nat): int
    requires 0 < unit
  {
    var a := scaled % unit;
    if 2 * a < unit then -a else unit - a
  }

  lemma MissIs(scaled: nat, unit: nat)
    requires 0 < unit && 2 * (scaled % unit) != unit
    ensures Nearest(Div(scaled as real, unit as real)) * unit == scaled + Miss(scaled, unit)
    ensures 0 < 2 * Miss(scaled, unit) + unit && 2 * Miss(scaled, unit) < unit
  {
    NearestQuotient(scaled, unit);
    Division(scaled, unit);
    hide Nearest, Div;
  }

  /** The quotient, rounded. */
  lemma QuotientRounds(n: nat, unit: nat, k: nat)
    requires 0 < unit && k <= DEEPEST && HALF * unit <= n * Power2(k) < 2 * HALF * unit
    ensures 0.0 <= Div(n as real, unit as real)
    ensures Round(Div(n as real, unit as real)) ==
      Div(Nearest(Div((n * Power2(k)) as real, unit as real)) as real, Two(k))
  {
    hide Nearest, Round, DEEPEST;
    var scaled := n * Power2(k);
    var a := Div(scaled as real, unit as real);
    Between(scaled, unit);
    Exchange(n, unit, k);
    hide Div, Mul, Two, Power2;
    DivOne(a);
    MulOne(Nearest(a) as real);
    RoundScaled(a, 0, k);
  }

  lemma Between(scaled: nat, unit: nat)
    requires 0 < unit && HALF * unit <= scaled < 2 * HALF * unit
    ensures HALF as real <= Div(scaled as real, unit as real) < EXACT as real
  {
    var u := unit as real;
    assert (HALF * unit) as real == HALF as real * u && (2 * HALF * unit) as real == EXACT as real * u;
    Compared(scaled as real, HALF as real * u, u);
    Compared(scaled as real, EXACT as real * u, u);
    TimesOver(HALF as real, u);
    TimesOver(EXACT as real, u);
  }

  lemma Exchange(n: nat, unit: nat, k: nat)
    requires 0 < unit
    ensures Div(Div((n * Power2(k)) as real, unit as real), Two(k)) == Div(n as real, unit as real)
  {
    hide Power2;
    Power2Positive(k);
    var p, u := Power2(k) as real, unit as real;
    assert (n * Power2(k)) as real == n as real * p;
    var x := n as real / u;
    assert x * u == n as real;
    assert x * p * u == n as real * p;
    assert (n as real * p) / u == x * p by { Divides(n as real * p / u, x * p, u); }
    assert x * p / p == x;
  }

  /** `t`, the z-th multiple of p, is the one `a` rounds to. */
  predicate Snaps(a: nat, t: nat, z: nat, p: nat) {
    var d: int := a - t;
    && t == z * p
    && ((2 * d < p && 0 < 2 * d + p) || (z % 2 == 0 && 2 * d <= p && 0 <= 2 * d + p))
  }

  lemma NearestOf(a: nat, t: nat, z: nat, p: nat)
    requires 0 < p && Snaps(a, t, z, p)
    ensures Nearest(Div(a as real, p as real)) == z
  {
    hide Nearest, Div;
    QuotientApart(a, p, z);
    SmallQuotient(a - t, p);
    NearestIs(Div(a as real, p as real), z);
  }

  /** Rounding a / 2^k to a multiple of the binade's step. */
  lemma RoundTo(a: nat, t: nat, z: nat, f: nat, k: nat)
    requires k <= DEEPEST && EXACT * Power2(f) <= 2 * a && a < EXACT * Power2(f)
    requires Snaps(a, t, z, Power2(f))
    ensures 0.0 <= Div(a as real, Two(k))
    ensures Round(Div(a as real, Two(k))) == Div(t as real, Two(k))
  {
    assert t == z * Power2(f);
    hide Nearest, Round, DEEPEST, Div, Mul, Power2, Snaps;
    Power2Positive(f);
    NearestOf(a, t, z, Power2(f));
    InReals(a, f);
    RoundScaled(a as real, f, k);
    var n := WholeProduct(z, f);
  }

  lemma InReals(a: nat, f: nat)
    requires EXACT * Power2(f) <= 2 * a && a < EXACT * Power2(f)
    ensures EXACT as real * Two(f) <= 2.0 * a as real && a as real < EXACT as real * Two(f)
    ensures Two(f) == Power2(f) as real
  {
    hide Power2;
    assert (EXACT * Power2(f)) as real == EXACT as real * Power2(f) as real;
  }

  /** The place a unit's share ends up at, in units of 1 / 2^k. */
  function Slip(scaled: nat, unit: nat, bits: nat): int
    requires 0 < unit && 2 <= bits
  {
    var d := Miss(scaled, unit);
    if Power2(52 + bits) <= scaled then 0
    else if d + Power2(bits - 2) < 0 then 0 - Power2(bits - 1)
    else if Power2(bits - 2) < d then Power2(bits - 1)
    else 0
  }

  /** The step below and above the product's size. */
  lemma Steps(bits: nat)
    requires 2 <= bits
    ensures Power2(bits) == 2 * Power2(bits - 1) == 4 * Power2(bits - 2) && 0 < Power2(bits - 2)
    ensures Power2(52 + bits) == HALF * Power2(bits) == EXACT * Power2(bits - 1)
  {
    Power2Values();
    Power2Add(52, bits);
    Power2Positive(bits - 2);
  }

  /** Multiplying back and rounding again. */
  lemma ProductSnaps(scaled: nat, z: nat, unit: nat, bits: nat, k: nat)
    requires k <= DEEPEST && 2 <= bits && Power2(bits - 1) < unit < Power2(bits)
    requires HALF * unit <= scaled < 2 * HALF * unit && scaled == z * Power2(bits)
    requires 2 * (scaled % unit) != unit
    requires scaled == Power2(52 + bits) ==> 0 <= Miss(scaled, unit) + Power2(bits - 2)
    requires HALF * unit <= scaled + Miss(scaled, unit) <= 2 * HALF * unit
    ensures 0.0 <= Div((scaled + Miss(scaled, unit)) as real, Two(k))
    ensures Round(Div((scaled + Miss(scaled, unit)) as real, Two(k))) ==
      Div((scaled + Slip(scaled, unit, bits)) as real, Two(k))
  {
    MissIs(scaled, unit);
    Steps(bits);
    hide Power2, Round, Div, Miss, DEEPEST, Nearest;
    var d, p := Miss(scaled, unit), Power2(bits);
    Multiples(z, HALF, p, d);
    if scaled + d < HALF * p {
      SnapsFiner(scaled, z, d, bits, k);
    } else {
      RoundTo(scaled + d, scaled, z, bits, k);
    }
  }

  /** Below the power of two the step is half of 2^bits. */
  lemma SnapsFiner(y: nat, z: nat, d: int, bits: nat, k: nat)
    requires k <= DEEPEST && 2 <= bits && y == z * Power2(bits)
    requires 2 * d < Power2(bits) && 0 < 2 * d + Power2(bits)
    requires 0 < z && HALF * Power2(bits - 1) <= y + d < HALF * Power2(bits)
    ensures 0.0 <= Div((y + d) as real, Two(k))
    ensures Round(Div((y + d) as real, Two(k))) ==
      Div((y + (if d + Power2(bits - 2) < 0 then 0 - Power2(bits - 1)
                else if Power2(bits - 2) < d then Power2(bits - 1)
                else 0)) as real, Two(k))
  {
    Steps(bits);
    hide Power2, Round, Div, DEEPEST, Snaps, Two;
    var half := Power2(bits - 1);
    Finer(y, z, d, half, Power2(bits - 2));
    if d + Power2(bits - 2) < 0 {
      RoundTo(y + d, y - half, 2 * z - 1, bits - 1, k);
    } else if Power2(bits - 2) < d {
      RoundTo(y + d, y + half, 2 * z + 1, bits - 1, k);
    } else {
      RoundTo(y + d, y, 2 * z, bits - 1, k);
    }
  }

  /** Multiples of p are not passed by less than half of p. */
  lemma Multiples(z: nat, h: nat, p: nat, d: int)
    requires 0 < p && 2 * d < p && 0 < 2 * d + p
    ensures z * p + d < h * p ==> z * p <= h * p
    ensures h * p <= z * p + d ==> h * p <= z * p
  {
    if h < z { assert (h + 1) * p <= z * p; }
    if z < h { assert (z + 1) * p <= h * p; }
  }

  lemma Finer(y: nat, z: nat, d: int, half: nat, quarter: nat)
    requires half == 2 * quarter && 0 < quarter && 0 < z && y == z * (2 * half)
    requires d < half && 0 < d + half
    ensures half <= y && 0 <= y + d
    ensures d + quarter < 0 ==> Snaps(y + d, y - half, 2 * z - 1, half)
    ensures quarter < d ==> Snaps(y + d, y + half, 2 * z + 1, half)
    ensures 0 <= d + quarter && d <= quarter ==> Snaps(y + d, y, 2 * z, half)
  {
    assert (2 * z - 1) * half == y - half && 2 * z * half == y && (2 * z + 1) * half == y + half;
    assert half <= y by { ProductGrows(1, z, half, 2 * half); }
  }

  // -------------------------------------------------------- milliseconds, seconds

  /** The two units printed with a fraction, and their sizes in bits. */
  predicate Fractional(unit: nat, bits: nat) {
    (unit == 1_000_000 && bits == 20) || (unit == 1_000_000_000 && bits == 30)
  }

  lemma UnitSizes(unit: nat, bits: nat)
    requires Fractional(unit, bits)
    ensures Power2(bits - 1) < unit < Power2(bits)
  {
    Power2Values();
    Steps(bits);
  }

  lemma ProductGrows(a: nat, b: nat, c: nat, d: nat)
    requires a <= b && c <= d
    ensures a * c <= b * d
  {
    assert a * c <= b * c <= b * d;
  }

  /** How far the remainders of interest are scaled. */
  lemma ShiftRange(n: nat, unit: nat, bits: nat)
    requires Fractional(unit, bits) && 0 < n < 60_000_000_000
    ensures HALF * unit <= Scaled(n, unit) < 2 * HALF * unit
    ensures 15 + bits < Shift(n, unit) < 53 + bits
    ensures unit == 1_000_000_000 ==> 46 < Shift(n, unit)
  {
    ShiftIs(n, unit);
    Power2Values();
    UnitSizes(unit, bits);
    Steps(bits);
    Power2Add(16, 20);
    Power2Add(36, 15 + bits);
    Power2Add(53, bits);
    Power2Add(46, 6);
    assert Power2(6) == 64;
    hide Power2, Shift;
    var k := Shift(n, unit);
    if k <= 46 && unit == 1_000_000_000 {
      Power2Grows(k, 46);
      ProductGrows(n, 60_000_000_000, Power2(k), Power2(46));
    }
    if k <= 15 + bits {
      Power2Grows(k, 15 + bits);
      ProductGrows(n, Power2(36), Power2(k), Power2(15 + bits));
      LargerPower(bits);
    }
    if 53 + bits <= k {
      Power2Grows(53 + bits, k);
      ProductGrows(1, n, Power2(53 + bits), Power2(k));
    }
  }

  lemma LargerPower(bits: nat)
    requires 2 <= bits
    ensures Power2(51 + bits) == HALF * Power2(bits - 1)
  {
    Power2Values();
    Power2Add(52, bits - 1);
  }

  /** A multiple of 512 never falls half way between two units. */
  lemma NoTie(w: nat, unit: nat, bits: nat)
    requires Fractional(unit, bits)
    ensures 2 * (512 * w % unit) != unit
  {
    var q, a := 512 * w / unit, 512 * w % unit;
    if unit == 1_000_000 {
      assert 512 * w == 1_000_000 * q + a;
    } else {
      assert 512 * w == 1_000_000_000 * q + a;
    }
  }

  lemma MultipleOf(n: nat, k: nat, j: nat) returns (z: nat)
    requires j <= k
    ensures n * Power2(k) == z * Power2(j)
  {
    Power2Add(k - j, j);
    hide Power2;
    z := n * Power2(k - j);
    assert n * (Power2(k - j) * Power2(j)) == z * Power2(j);
  }

  /** Where the next power of two itself falls. */
  lemma AtThePower(unit: nat, bits: nat)
    requires Fractional(unit, bits)
    ensures 0 <= Miss(Power2(52 + bits), unit) + Power2(bits - 2)
  {
    Power2Values();
    Power2Add(64, 8);
    Power2Add(64, 18);
    Power2Add(16, 2);
    Power2Add(20, 8);
    assert Power2(18) == 0x4_0000 && Power2(28) == 0x1000_0000;
    hide Power2;
    if bits == 20 {
      assert Power2(72) % unit == 213_696;
    } else {
      assert Power2(82) % unit == 698_824_704;
    }
  }

  lemma WholeUnits(scaled: nat, unit: nat)
    requires 0 < unit && HALF * unit <= scaled < 2 * HALF * unit && 2 * (scaled % unit) != unit
    ensures HALF * unit <= scaled + Miss(scaled, unit) <= 2 * HALF * unit
  {
    var q := scaled / unit;
    Division(scaled, unit);
    QuotientRange(q, HALF, 2 * HALF, unit, scaled);
  }

  lemma QuotientRange(q: nat, low: nat, high: nat, unit: nat, scaled: nat)
    requires low * unit <= scaled < high * unit && q * unit <= scaled < (q + 1) * unit
    ensures low * unit <= q * unit && (q + 1) * unit <= high * unit
  {
    if q < low { ProductGrows(q + 1, low, unit, unit); } else { ProductGrows(low, q, unit, unit); }
    if high <= q { ProductGrows(high, q, unit, unit); } else { ProductGrows(q + 1, high, unit, unit); }
  }

  /** The share of a unit: the remainder itself, or one place beside it. */
  lemma ShareIs(n: nat, unit: nat, bits: nat)
    requires Fractional(unit, bits) && 0 < n < 60_000_000_000
    ensures Share(Double, n, unit) ==
      Div((Scaled(n, unit) + Slip(Scaled(n, unit), unit, bits)) as real, Two(Shift(n, unit)))
  {
    hide Shift, Power2, Slip, Miss, Div, Round, Mul, Two;
    ShiftRange(n, unit, bits);
    UnitSizes(unit, bits);
    var k, scaled := Shift(n, unit), Scaled(n, unit);
    var z := MultipleOf(n, k, bits);
    var w := MultipleOf(n, k, 9);
    assert Power2(9) == 512 by { NinthPower(); }
    NoTie(w, unit, bits);
    AtThePower(unit, bits);
    WholeUnits(scaled, unit);
    MissIs(scaled, unit);
    QuotientRounds(n, unit, k);
    ProductSnaps(scaled, z, unit, bits, k);
    TimesUnit(Nearest(Div(scaled as real, unit as real)), unit, k);
  }

  lemma NinthPower()
    ensures Power2(9) == 512
  {
    Power2Values();
  }

  lemma TimesUnit(m: int, unit: nat, k: nat)
    ensures Mul(Div(m as real, Two(k)), unit as real) == Div((m * unit) as real, Two(k))
  {
    var p := Two(k);
    hide Two;
    var x := m as real / p;
    assert x * p == m as real;
    assert (m * unit) as real == m as real * unit as real;
    assert x * unit as real * p == m as real * unit as real;
    Divides(x * unit as real, m as real * unit as real / p, p);
  }

  /** How far the share lies from its remainder. */
  function Off(n: nat, unit: nat, bits: nat): real
    requires 0 < unit && 2 <= bits
  {
    if n == 0 then 0.0 else Div(Slip(Scaled(n, unit), unit, bits) as real, Two(Shift(n, unit)))
  }

  lemma SumOver(a: real, b: real, p: real)
    requires 0.0 < p
    ensures Div(a * p + b, p) == a + Div(b, p)
  {
    var y := b / p;
    assert y * p == b;
    assert (a + y) * p / p == a + y;
  }

  lemma SplitShare(n: nat, s: int, k: nat)
    ensures Div((n * Power2(k) + s) as real, Two(k)) == n as real + Div(s as real, Two(k))
  {
    SumOver(n as real, s as real, Two(k));
    hide Power2, Div;
    var whole := n * Power2(k);
    assert whole as real == n as real * Power2(k) as real;
    assert (whole + s) as real == whole as real + s as real;
  }

  lemma DipsSlip(n: nat, unit: nat, bits: nat)
    requires Fractional(unit, bits) && 0 < n
    ensures Dips(n, unit, bits) <==> Slip(Scaled(n, unit), unit, bits) < 0
    ensures var s := Slip(Scaled(n, unit), unit, bits);
      s == 0 || s == Power2(bits - 1) || s == 0 - Power2(bits - 1)
  {
    Power2Positive(bits - 1);
    hide Power2, Shift, Scaled;
  }

  /** A slip of one step is small against 2^k when 2^k is much more than the step. */
  lemma SmallSlip(s: int, p: nat, k: nat, j: nat)
    requires (s == 0 || s == p || s == 0 - p) && 0 < p && p * Power2(j) <= Power2(k)
    ensures -1.0 <= Mul(Div(s as real, Two(k)), Two(j)) <= 1.0
    ensures s < 0 <==> Div(s as real, Two(k)) < 0.0
  {
    hide Power2;
    assert (p * Power2(j)) as real == p as real * Two(j) && Two(k) == Power2(k) as real;
    hide Two, Div, Mul;
    SlipRange(s as real, p as real, Two(j), Two(k));
  }

  lemma SlipRange(s: real, p: real, q: real, r: real)
    requires 0.0 < p && 0.0 < q && 0.0 < r && p * q <= r && (s == 0.0 || s == p || s == -p)
    ensures -1.0 <= Mul(Div(s, r), q) <= 1.0 && (s < 0.0 <==> Div(s, r) < 0.0)
  {
    var y := p / r;
    assert y * r == p;
    AtMostOne(y, q, r, p);
    assert -p / r == -y by { Divides(-p / r, -y, r); }
    assert 0.0 / r == 0.0;
  }

  lemma AtMostOne(y: real, q: real, r: real, p: real)
    requires 0.0 < p && 0.0 < q && 0.0 < r && y * r == p && p * q <= r
    ensures 0.0 < y && Mul(y, q) <= 1.0
  {
    Swap(y, q, r, p);
    AtMost(Mul(y, q), r);
  }

  lemma Swap(y: real, q: real, r: real, p: real)
    requires y * r == p
    ensures Mul(Mul(y, q), r) == p * q
  {
    assert y * q * r == y * r * q;
  }

  lemma AtMost(x: real, r: real)
    requires 0.0 < r && Mul(x, r) <= r
    ensures x <= 1.0
  {
    if 1.0 < x { Ordered(1.0, x, r); }
  }

  const TINY: real := 0.000_003_814_697_265_625

  /** A share is its remainder, off by less than one nanosecond, and below it exactly
      when it dips; a share of seconds is off by at most 2^-18 nanoseconds. */
  lemma ShareNear(n: nat, unit: nat, bits: nat)
    requires Fractional(unit, bits) && n < 60_000_000_000
    ensures Share(Double, n, unit) == n as real + Off(n, unit, bits)
    ensures -1.0 < Off(n, unit, bits) < 1.0 && (Off(n, unit, bits) < 0.0 <==> Dips(n, unit, bits))
    ensures unit == 1_000_000_000 ==> -TINY <= Off(n, unit, bits) <= TINY
  {
    if n == 0 {
      NothingShared(unit);
    } else {
      ShareIs(n, unit, bits);
      DipsSlip(n, unit, bits);
      ShiftRange(n, unit, bits);
      hide Shift, Slip, Share, Dips, Power2;
      var k, s := Shift(n, unit), Slip(Scaled(n, unit), unit, bits);
      SplitShare(n, s, k);
      StepRoom(bits, k, if unit == 1_000_000 then 1 else 18);
      SmallSlip(s, Power2(bits - 1), k, if unit == 1_000_000 then 1 else 18);
      TwoSmall();
      hide Div, Two, Mul;
      Shrink(Div(s as real, Two(k)), Two(if unit == 1_000_000 then 1 else 18));
    }
  }

  lemma NothingShared(unit: nat)
    requires 0 < unit
    ensures Share(Double, 0, unit) == 0.0
  {
    RoundInteger(0, 0);
    hide Round;
    assert 0.0 / unit as real == 0.0;
  }

  lemma StepRoom(bits: nat, k: nat, j: nat)
    requires 2 <= bits && bits - 1 + j <= k
    ensures Power2(bits - 1) * Power2(j) <= Power2(k) && 0 < Power2(bits - 1)
  {
    Power2Add(bits - 1, j);
    Power2Grows(bits - 1 + j, k);
    Power2Positive(bits - 1);
  }

  lemma TwoSmall()
    ensures Two(1) == 2.0 && Two(18) == 262_144.0 && 1.0 == 262_144.0 * TINY
  {
    Power2Add(16, 2);
    Power2Values();
  }

  lemma Shrink(x: real, q: real)
    requires q == 2.0 || q == 262_144.0
    requires -1.0 <= Mul(x, q) <= 1.0
    ensures -1.0 < x < 1.0 && (q == 262_144.0 ==> -TINY <= x <= TINY)
  {
  }

  // --------------------------------------------------------------- under a minute

  lemma PlusNothing(x: real)
    requires 0.0 <= x
    ensures Plus(Double, 0.0, Round(x)) == Round(x)
  {
    RoundAgain(x);
    hide Round;
  }

  /** Below one minute the only rounding that shows is that of the last unit. */
  lemma ShortSum(ns: nat, unit: nat, bits: nat)
    requires Fractional(unit, bits)
    requires ns < 60_000_000_000 && (unit == 1_000_000 <==> 0 < ns < 1_000_000_000)
    ensures HumanSum(Double, ns) == ns as real + Off(ns, unit, bits)
    ensures -1.0 < Off(ns, unit, bits) < 1.0 && (Off(ns, unit, bits) < 0.0 <==> Dips(ns, unit, bits))
  {
    ShareNear(ns, unit, bits);
    hide Off, Dips, Round, Div, Mul;
    Signs(ns as real, unit as real);
    assert 0.0 <= Mul(Round(Div(ns as real, unit as real)), unit as real) by {
      Signs(Round(Div(ns as real, unit as real)), unit as real);
    }
    PlusNothing(Mul(Round(Div(ns as real, unit as real)), unit as real));
  }

  // ------------------------------------------------------------ minutes and hours

  /** Whole hours and minutes are summed without rounding. */
  lemma WholeSum(hours: nat, minutes: nat)
    requires hours <= 2_562_047 && minutes < 60
    ensures MinuteSum(Double, hours, minutes) == (hours * 3_600_000_000_000 + minutes * 60_000_000_000) as real
  {
    hide Round, Power2, Mul;
    SmallPowers();
    RoundInteger(hours, 0);
    RoundInteger(hours * 439_453_125, 13);
    RoundInteger(minutes, 0);
    RoundInteger(minutes * 60_000_000_000, 0);
    RoundInteger(hours * 1_757_812_500 + minutes * 29_296_875, 11);
    MulWhole(hours, 3_600_000_000_000);
    MulWhole(minutes, 60_000_000_000);
  }

  lemma SmallPowers()
    ensures Power2(0) == 1 && Power2(11) == 2048 && Power2(13) == 8192
  {
    Power2Values();
  }

  lemma MulWhole(m: nat, ns: nat)
    ensures Mul(m as real, ns as real) == (m * ns) as real
  {
  }

  /** The binades above 2^53 that `ns` lies in: its binary64 neighbours are the
      multiples of that power of two. */
  function Coarse(ns: nat): nat {
    if ns < EXACT then 0 else 1 + Coarse(ns / 2)
  }

  lemma {:induction false} CoarseIs(ns: nat)
    ensures ns < EXACT * Power2(Coarse(ns))
    ensures EXACT <= ns ==> EXACT * Power2(Coarse(ns)) <= 2 * ns && 0 < Coarse(ns)
  {
    if ns < EXACT {
      assert Power2(0) == 1;
    } else {
      CoarseIs(ns / 2);
      var f := Coarse(ns / 2);
      assert Power2(f + 1) == 2 * Power2(f);
      if ns / 2 < EXACT { assert Power2(0) == 1; }
    }
  }

  lemma WithinHalf(z: int, x: real, p: real)
    requires 0.0 < p && -0.5 <= z as real - Div(x, p) <= 0.5
    ensures -p <= 2.0 * (Mul(z as real, p) - x) <= p
  {
    var y := x / p;
    assert y * p == x;
    var e := z as real - y;
    assert e * p == z as real * p - x;
    assert -0.5 * p <= e * p <= 0.5 * p by {
      Ordered(-0.5, e, p);
      Ordered(e, 0.5, p);
    }
  }

  /** A sum next to an integer rounds to a neighbour of that integer. */
  lemma RoundNear(n: nat, off: real, f: nat) returns (r: int, z: int)
    requires -TINY <= off <= TINY && 0.0 <= n as real + off
    requires (EXACT * Power2(f)) as real <= 2.0 * (n as real + off)
    requires n as real + off < (EXACT * Power2(f)) as real
    ensures Round(n as real + off) == r as real && r == z * Power2(f)
    ensures 2 * (r - n) <= Power2(f) && 2 * (n - r) <= Power2(f)
  {
    var x := n as real + off;
    hide Round, DEEPEST, Nearest, Power2;
    InRealsToo(f);
    z := Nearest(Div(x, Two(f)));
    NearestClose(Div(x, Two(f)));
    WithinHalf(z, x, Two(f));
    RoundScaled(x, f, 0);
    r := z * Power2(f);
    assert Mul(z as real, Two(f)) == r as real by { WholeMultiple(z, f); }
    hide Two, Div, Mul;
    DivOne(x);
    DivOne(r as real);
    WholeDistance(r, n, off, Power2(f));
  }

  lemma InRealsToo(f: nat)
    ensures (EXACT * Power2(f)) as real == EXACT as real * Two(f) && Two(f) == Power2(f) as real
  {
    hide Power2;
    assert (EXACT * Power2(f)) as real == EXACT as real * Power2(f) as real;
  }

  lemma WholeMultiple(z: int, f: nat)
    ensures Mul(z as real, Two(f)) == (z * Power2(f)) as real
  {
    hide Power2;
    assert (z * Power2(f)) as real == z as real * Power2(f) as real;
  }

  lemma WholeDistance(r: int, n: nat, off: real, p: nat)
    requires -TINY <= off <= TINY
    requires -(p as real) <= 2.0 * (r as real - (n as real + off)) <= p as real
    ensures 2 * (r - n) <= p && 2 * (n - r) <= p
  {
    assert (2 * (r - n)) as real == 2.0 * (r as real - n as real);
    assert (2 * (r - n)) as real < p as real + 1.0;
    assert (2 * (n - r)) as real < p as real + 1.0;
  }

  lemma Spread(n: nat, off: real, k: nat)
    ensures Mul(n as real + off, Two(k)) == (n * Power2(k)) as real + Mul(off, Two(k))
    ensures Div(Mul(n as real + off, Two(k)), Two(k)) == n as real + off
    ensures Div((n * Power2(k)) as real, Two(k)) == n as real
  {
    hide Power2;
    TwoIs(k);
    assert (n * Power2(k)) as real == n as real * Two(k);
    hide Two;
    assert (n as real + off) * Two(k) == n as real * Two(k) + off * Two(k);
    TimesOver(n as real, Two(k));
    OverAgain(n as real + off, k);
  }

  lemma OverAgain(x: real, k: nat)
    ensures Div(Mul(x, Two(k)), Two(k)) == x
  {
    var p := Two(k);
    hide Two;
    OverTimes(x, p);
  }

  lemma OverTimes(x: real, p: real)
    requires 0.0 < p
    ensures Div(Mul(x, p), p) == x
  {
    TimesOver(x, p);
  }

  lemma TimesOver(x: real, p: real)
    requires 0.0 < p
    ensures x * p / p == x
  {
  }

  /** Half a place beside an even integer, or less beside any. */
  lemma FineAt(n: nat, off: real, k: nat)
    requires k <= DEEPEST && 0.0 <= n as real + off
    requires HALF as real <= (n * Power2(k)) as real + Mul(off, Two(k)) < EXACT as real
    requires -0.5 <= Mul(off, Two(k)) <= 0.5
    requires n * Power2(k) % 2 == 0 || -0.5 < Mul(off, Two(k)) < 0.5
    ensures Round(n as real + off) == n as real
  {
    hide Round, DEEPEST, Nearest, Power2;
    var whole := n * Power2(k);
    Spread(n, off, k);
    hide Two, Mul, Div;
    var a := Mul(n as real + off, Two(k));
    DivOne(a);
    NearestIs(a, whole);
    MulOne(whole as real);
    RoundScaled(a, 0, k);
  }

  lemma OffScaled(off: real, k: nat)
    requires -TINY <= off <= TINY && k <= 17
    ensures -0.5 <= Mul(off, Two(k)) <= 0.5
    ensures k == 0 ==> -0.5 < Mul(off, Two(k)) < 0.5
    ensures off < 0.0 <==> Mul(off, Two(k)) < 0.0
  {
    SeventeenBits(k);
    MulOne(off);
    hide Two, Power2;
    OffTimes(off, Two(k));
  }

  lemma SeventeenBits(k: nat)
    requires k <= 17
    ensures Two(k) <= 131_072.0
  {
    Power2Grows(k, 17);
    Power2Add(16, 1);
    Power2Values();
    assert Power2(1) == 2;
    hide Power2;
    TwoIs(k);
  }

  lemma TwoIs(k: nat)
    ensures Two(k) == Power2(k) as real
  {
  }

  lemma OffTimes(off: real, p: real)
    requires -TINY <= off <= TINY && 0.0 < p <= 131_072.0
    ensures -0.5 <= Mul(off, p) <= 0.5 && (off < 0.0 <==> Mul(off, p) < 0.0)
  {
    Ordered(off, TINY, p);
    Ordered(-TINY, off, p);
    if 0.0 <= off { Ordered(0.0, off, p); } else { Ordered(off, 0.0, p); }
    assert TINY * p <= 0.5;
  }

  /** From one minute to 2^53 nanoseconds the total rounds back to the duration. */
  lemma NearFine(n: nat, off: real)
    requires 60_000_000_000 <= n < EXACT && -TINY <= off <= TINY
    ensures Round(n as real + off) == n as real
  {
    hide Round;
    ShiftIs(n, 1);
    FineShift(n);
    var k := Shift(n, 1);
    hide Shift, Power2, Two, Mul;
    OffScaled(off, k);
    if HALF as real <= (n * Power2(k)) as real + Mul(off, Two(k)) {
      EvenPlaces(n, k);
      FineAt(n, off, k);
    } else {
      assert n * Power2(k) == HALF;
      NotThePower(n, k);
      PlacesDouble(n, k);
      OffScaled(off, k + 1);
      FineAt(n, off, k + 1);
    }
  }

  lemma FineShift(n: nat)
    requires 60_000_000_000 <= n && n * Power2(Shift(n, 1)) < EXACT
    ensures Shift(n, 1) <= 17
  {
    Power2Values();
    Power2Add(16, 2);
    hide Shift, Power2;
    var k := Shift(n, 1);
    if 18 <= k {
      Power2Grows(18, k);
      ProductGrows(60_000_000_000, n, Power2(18), Power2(k));
    }
  }

  lemma EvenPlaces(n: nat, k: nat)
    ensures 0 < k ==> n * Power2(k) % 2 == 0
  {
    if 0 < k {
      assert n * Power2(k) == 2 * (n * Power2(k - 1));
    }
  }

  lemma NotThePower(n: nat, k: nat)
    requires 60_000_000_000 <= n && k <= 17 && n * Power2(k) == HALF
    ensures k < 17
  {
    Power2Values();
    Power2Add(16, 1);
    assert Power2(1) == 2;
  }

  lemma PlacesDouble(n: nat, k: nat)
    ensures n * Power2(k + 1) == 2 * (n * Power2(k)) && n * Power2(k + 1) % 2 == 0
  {
  }

  // ------------------------------------------------------------------ the result

  lemma LongParts(ns: nat)
    requires 60_000_000_000 <= ns < 0x8000_0000_0000_0000
    ensures Hours(ns) <= 2_562_047 && Minutes(ns) < 60 && Rest(ns) < 60_000_000_000
    ensures Hours(ns) * 3_600_000_000_000 + Minutes(ns) * 60_000_000_000 + Rest(ns) == ns
  {
  }

  /** From one minute on, what is read is the rounded sum of the duration and the
      slip of its seconds. */
  lemma LongSum(ns: nat)
    requires 60_000_000_000 <= ns < 0x8000_0000_0000_0000
    ensures 0.0 <= ns as real + Off(Rest(ns), 1_000_000_000, 30)
    ensures HumanSum(Double, ns) == Round(ns as real + Off(Rest(ns), 1_000_000_000, 30))
    ensures -TINY <= Off(Rest(ns), 1_000_000_000, 30) <= TINY
  {
    LongParts(ns);
    hide Off, Round, Share, MinuteSum, Hours, Minutes, Rest;
    WholeSum(Hours(ns), Minutes(ns));
    ShareNear(Rest(ns), 1_000_000_000, 30);
  }

  /** Two multiples of p at most half of p apart are one. */
  lemma MultipleClose(r: int, z: int, n: nat, p: nat)
    requires r == z * p && 2 * (r - n) <= p && 2 * (n - r) <= p && 0 < p
    ensures r == n <==> n % p == 0
  {
    QuotientIs(z * p, p, z, 0);
    if n % p == 0 {
      var w := n / p;
      assert n == w * p;
      assert (z - w) * p == r - n;
      MultipleOrZero(z - w, p);
    }
  }

  /** The duration read back from one minute on: a binary64 neighbour at most half
      a step away, and the duration itself exactly when it is such a number. */
  lemma LongResult(ns: nat) returns (r: int)
    requires 60_000_000_000 <= ns < 0x8000_0000_0000_0000
    ensures HumanSum(Double, ns) == r as real
    ensures var p := Power2(Coarse(ns));
      0 < p && r % p == 0 && 2 * (r - ns) <= p && 2 * (ns - r) <= p && (r == ns <==> ns % p == 0)
  {
    LongSum(ns);
    CoarseIs(ns);
    var off, f := Off(Rest(ns), 1_000_000_000, 30), Coarse(ns);
    Power2Positive(f);
    if ns < EXACT {
      assert Power2(0) == 1;
      hide Off, Round, Rest, HumanSum;
      NearFine(ns, off);
      r := ns;
    } else {
      hide Off, Round, Rest, HumanSum, Power2, Coarse;
      r := CoarseResult(ns, off, f);
    }
  }

  lemma CoarseResult(ns: nat, off: real, f: nat) returns (r: int)
    requires 0 < f && EXACT <= ns && 0 < Power2(f) && -TINY <= off <= TINY
    requires EXACT * Power2(f) <= 2 * ns && ns < EXACT * Power2(f)
    ensures 0.0 <= ns as real + off && Round(ns as real + off) == r as real
    ensures var p := Power2(f);
      r % p == 0 && 2 * (r - ns) <= p && 2 * (ns - r) <= p && (r == ns <==> ns % p == 0)
  {
    hide Round, Power2;
    if EXACT * Power2(f) < 2 * ns || 0.0 <= off {
      var z;
      r, z := RoundNear(ns, off, f);
      MultipleClose(r, z, ns, Power2(f));
      QuotientIs(z * Power2(f), Power2(f), z, 0);
    } else {
      r := AtBinade(ns, off, f);
    }
  }

  /** Just below a power of two the step is half as large. */
  lemma AtBinade(ns: nat, off: real, f: nat) returns (r: int)
    requires 0 < f && EXACT * Power2(f) == 2 * ns && -TINY <= off < 0.0 && EXACT <= ns
    ensures 0.0 <= ns as real + off && Round(ns as real + off) == r as real && r == ns
    ensures ns % Power2(f) == 0
  {
    var p := Power2(f - 1);
    assert Power2(f) == 2 * p;
    Power2Positive(f - 1);
    hide Round, Power2;
    assert ns == EXACT * p == HALF * (2 * p);
    QuotientIs(HALF * (2 * p), 2 * p, HALF, 0);
    QuotientIs(EXACT * p, p, EXACT, 0);
    var z;
    r, z := RoundNear(ns, off, f - 1);
    MultipleClose(r, z, ns, p);
  }

  /** The largest total accepted, and the longest duration that rounds down to it. */
  const MOST: nat := 9_200_000_000_000_000_000
  const LONGEST: nat := MOST + 512

  lemma MostIsLimit()
    ensures LIMIT == MOST as real
  {
  }

  lemma {:induction false} CoarseRange(ns: nat)
    ensures ns < 0x4000_0000_0000_0000 ==> Coarse(ns) <= 9
    ensures 0x4000_0000_0000_0000 <= ns < 0x8000_0000_0000_0000 ==> Coarse(ns) == 10
  {
    CoarseIs(ns);
    Power2Values();
    var f := Coarse(ns);
    assert Power2(9) == 512 && Power2(10) == 1024;
    hide Power2, Coarse;
    if 10 <= f { Power2Grows(10, f); }
    if f <= 9 { Power2Grows(f, 9); }
    if 11 <= f {
      Power2Grows(11, f);
      assert Power2(11) == 2048 by { SmallPowers(); }
    }
  }

  lemma LongestRounds()
    ensures Round(LONGEST as real) == MOST as real
  {
    Power2Values();
    hide Round, Power2, DEEPEST;
    RoundTo(LONGEST, MOST, MOST / 1024, 10, 0);
    hide Two, LONGEST, MOST;
    DivOne(LONGEST as real);
    DivOne(MOST as real);
  }

  lemma LongestRest()
    ensures Rest(LONGEST) == 20_000_000_512
  {
  }

  /** Half way past the limit the seconds are exact, and the tie goes to the limit. */
  lemma AtLongest()
    ensures HumanSum(Double, LONGEST) == MOST as real
  {
    LongestRest();
    NoSlip();
    assert 60_000_000_000 <= LONGEST < 0x8000_0000_0000_0000;
    LongestRounds();
    hide Off, Round, HumanSum, Rest, LONGEST, MOST;
    LongSum(LONGEST);
  }

  lemma NoSlip()
    ensures Off(20_000_000_512, 1_000_000_000, 30) == 0.0
  {
    var n, unit := 20_000_000_512, 1_000_000_000;
    ShiftRange(n, unit, 30);
    Power2Values();
    Power2Add(30, 17);
    Power2Add(16, 1);
    Power2Add(47, 1);
    Power2Add(30, 4);
    Power2Add(34, 48);
    assert Power2(1) == 2 && Power2(4) == 16;
    hide Power2, Shift, Miss;
    var k := Shift(n, unit);
    assert k != 47;
    Power2Grows(48, k);
    ProductGrows(Power2(34), n, Power2(48), Power2(k));
    assert Slip(Scaled(n, unit), unit, 30) == 0;
    hide Slip, Scaled;
    NoOff(Two(k));
  }

  lemma NoOff(p: real)
    requires 0.0 < p
    ensures Div(0.0, p) == 0.0
  {
  }

  /** Which totals stay within the limit. */
  lemma LimitIs(ns: nat, r: int)
    requires 60_000_000_000 <= ns < 0x8000_0000_0000_0000 && HumanSum(Double, ns) == r as real
    requires var p := Power2(Coarse(ns)); 2 * (r - ns) <= p && 2 * (ns - r) <= p
    requires Coarse(ns) == 10 ==> r % 1024 == 0
    ensures r <= MOST <==> ns <= LONGEST
  {
    CoarseRange(ns);
    Power2Values();
    hide HumanSum, Coarse, Power2;
    if ns == LONGEST {
      AtLongest();
    } else if ns < 0x4000_0000_0000_0000 {
      Power2Grows(Coarse(ns), 10);
    }
  }

  /** The durations that are read back as they were printed: below a minute those
      whose last unit does not dip, from there on the binary64 numbers. */
  predicate Survives(ns: nat) {
    if ns < 1_000_000_000 then !Dips(ns, 1_000_000, 20)
    else if ns < 60_000_000_000 then !Dips(ns, 1_000_000_000, 30)
    else
      Power2Positive(Coarse(ns));
      ns % Power2(Coarse(ns)) == 0
  }

  lemma FloorNear(n: nat, off: real)
    requires -1.0 < off < 1.0
    ensures (n as real + off).Floor == if off < 0.0 then n - 1 else n
  {
  }

  /** The unit a duration below a minute ends in, and its size. */
  function LastUnit(ns: nat): (nat, nat) {
    if 0 < ns < 1_000_000_000 then (1_000_000, 20) else (1_000_000_000, 30)
  }

  lemma SurvivesShort(ns: nat)
    requires ns < 60_000_000_000
    ensures Survives(ns) <==> !Dips(ns, LastUnit(ns).0, LastUnit(ns).1)
  {
    hide Shift, Power2, Coarse, Scaled;
  }

  lemma ShortParses(ns: nat)
    requires ns < 60_000_000_000
    ensures Parse(Human(ns)) == Some(if Survives(ns) then ns as int else ns - 1)
  {
    hide Terms, Human, HumanSum, Dips, Off, Survives;
    var (unit, bits) := LastUnit(ns);
    TermsOfHuman(Double, ns);
    SurvivesShort(ns);
    ShortSum(ns, unit, bits);
    FloorNear(ns, Off(ns, unit, bits));
    MostIsLimit();
  }

  lemma LongParses(ns: nat)
    requires 60_000_000_000 <= ns < 0x8000_0000_0000_0000
    ensures Parse(Human(ns)) == None <==> LONGEST < ns
    ensures ns <= LONGEST ==> (Parse(Human(ns)) == Some(ns as int) <==> Survives(ns))
    ensures ns <= LONGEST ==>
      2 * (Parse(Human(ns)).value - ns) <= Power2(Coarse(ns)) && 2 * (ns - Parse(Human(ns)).value) <= Power2(Coarse(ns))
  {
    TermsOfHuman(Double, ns);
    var r := LongResult(ns);
    CoarseRange(ns);
    Power2Values();
    hide Terms, Human, HumanSum, Power2, Coarse;
    LimitIs(ns, r);
    MostIsLimit();
    assert (r as real).Floor == r;
  }

  /** What reading a printed duration back gives, for every signed 64-bit count of
      nanoseconds: the duration itself exactly when it survives, otherwise one
      nanosecond less below a minute and a binary64 neighbour above; refused only
      when more than 512 nanoseconds past the limit. */
  lemma HumanParses(ns: nat)
    requires ns < 0x8000_0000_0000_0000
    ensures Parse(Human(ns)) == None <==> LONGEST < ns
    ensures ns <= LONGEST ==>
      var r := Parse(Human(ns)).value;
      && (r == ns <==> Survives(ns))
      && (ns < 60_000_000_000 ==> ns - 1 <= r <= ns)
      && (60_000_000_000 <= ns ==> 2 * (r - ns) <= Power2(Coarse(ns)) && 2 * (ns - r) <= Power2(Coarse(ns)))
  {
    hide Parse, Human, Survives, Power2, Coarse;
    if ns < 60_000_000_000 {
      ShortParses(ns);
    } else {
      LongParses(ns);
    }
  }

  /** Up to 2^53 nanoseconds at most one nanosecond is lost, and none from one minute
      on. */
  lemma UpTo53Bits(ns: nat)
    requires ns <= EXACT
    ensures Parse(Human(ns)).Some? && ns - 1 <= Parse(Human(ns)).value <= ns
    ensures 60_000_000_000 <= ns ==> Parse(Human(ns)) == Some(ns as int)
  {
    Power2Values();
    assert Coarse(EXACT) == 1 && Power2(1) == 2 && Power2(0) == 1;
    HumanParses(ns);
    hide Parse, Human, Power2, Dips;
  }

  lemma WholeSurvives(s: nat, k: nat)
    ensures s * 1_000_000_000 * Power2(k) % 1_000_000_000 == 0
  {
    hide Power2;
    QuotientIs(s * Power2(k) * 1_000_000_000, 1_000_000_000, s * Power2(k), 0);
    assert s * 1_000_000_000 * Power2(k) == s * Power2(k) * 1_000_000_000;
  }

  lemma Divided(w: nat, f: nat)
    requires f <= 9
    ensures 0 < Power2(f) && w * 512 % Power2(f) == 0
  {
    Power2Positive(f);
    Power2Add(f, 9 - f);
    NinthPower();
    hide Power2;
    QuotientIs(w * Power2(9 - f) * Power2(f), Power2(f), w * Power2(9 - f), 0);
    assert w * (Power2(f) * Power2(9 - f)) == w * Power2(9 - f) * Power2(f);
  }

  lemma WholeShort(s: nat)
    requires s < 60
    ensures Survives(s * 1_000_000_000)
  {
    var ns := s * 1_000_000_000;
    SurvivesShort(ns);
    if 0 < ns { WholeSurvives(s, Shift(ns, 1_000_000_000)); }
    hide Shift, Power2, Survives;
  }

  lemma WholeLong(s: nat)
    requires 60 <= s && s * 1_000_000_000 < 0x4000_0000_0000_0000
    ensures Survives(s * 1_000_000_000)
  {
    hide Dips, Coarse, Power2;
    CoarseRange(s * 1_000_000_000);
    Divided(s * 1_953_125, Coarse(s * 1_000_000_000));
  }

  lemma WholeLongest(s: nat)
    requires 0x4000_0000_0000_0000 <= s * 1_000_000_000 <= LONGEST
    ensures Survives(s * 1_000_000_000) <==> s % 2 == 0
  {
    CoarseRange(s * 1_000_000_000);
    Power2Values();
    hide Dips, Coarse, Power2;
    QuotientIs(s * 1_000_000_000, 1024, s * 976_562 + s / 2, s % 2 * 512);
  }

  /** Whole seconds are read back exactly up to 2^62 nanoseconds, and beyond that
      exactly when their number is even. */
  lemma WholeSeconds(s: nat)
    requires s * 1_000_000_000 <= LONGEST
    ensures Parse(Human(s * 1_000_000_000)) == Some(s * 1_000_000_000) <==>
      s * 1_000_000_000 < 0x4000_0000_0000_0000 || s % 2 == 0
  {
    hide Parse, Human, Survives;
    HumanParses(s * 1_000_000_000);
    if s < 60 {
      WholeShort(s);
    } else if s * 1_000_000_000 < 0x4000_0000_0000_0000 {
      WholeLong(s);
    } else {
      WholeLongest(s);
    }
  }

  // ------------------------------------------------------------ durations that dip

  lemma {:induction false} ShiftUnique(n: nat, unit: nat, k: nat)
    requires 0 < n && HALF * unit <= n * Power2(k) < 2 * HALF * unit
    ensures Shift(n, unit) == k
    decreases k
  {
    if k == 0 {
      assert Power2(0) == 1;
    } else {
      Power2Positive(k - 1);
      assert n * Power2(k) == 2 * n * Power2(k - 1);
      hide Power2;
      assert n <= n * Power2(k - 1);
      ShiftUnique(2 * n, unit, k - 1);
    }
  }

  lemma FirstDips()
    ensures !Survives(1_001_000_000)
  {
    Power2Values();
    Power2Add(52, 30);
    Power2Add(16, 12);
    assert Power2(28) == 0x1000_0000 by { Power2Add(20, 8); }
    ShiftUnique(1_001_000_000, 1_000_000_000, 52);
    hide Power2, Shift, Coarse;
  }

  lemma SecondDips()
    ensures !Survives(249)
  {
    Power2Values();
    Power2Add(52, 20);
    assert Power2(18) == 0x4_0000 by { Power2Add(16, 2); }
    ShiftUnique(249, 1_000_000, 64);
    hide Power2, Shift, Coarse;
  }

  /** Short and ordinary durations that lose a nanosecond: 1.001s and 0.000249ms. */
  lemma Examples()
    ensures Parse(Human(1_001_000_000)) == Some(1_000_999_999)
    ensures Parse(Human(249)) == Some(248)
  {
    FirstDips();
    SecondDips();
    hide Survives, Parse, Human;
    ShortParses(1_001_000_000);
    ShortParses(249);
  }

  lemma NearLimit(ns: nat, r: int)
    requires MOST <= ns <= LONGEST && 2 * (ns - r) <= 1024 && r % 1024 == 0 && r <= MOST
    ensures r == MOST
  {
  }

  /** What is accepted beyond the limit is read as the limit. */
  lemma PastTheLimit(ns: nat)
    requires MOST <= ns <= LONGEST
    ensures Parse(Human(ns)) == Some(MOST as int)
  {
    hide Terms, Human, HumanSum, Coarse;
    TermsOfHuman(Double, ns);
    var r := LongResult(ns);
    CoarseRange(ns);
    Power2Values();
    hide Power2;
    LimitIs(ns, r);
    NearLimit(ns, r);
    MostIsLimit();
    hide MOST, LONGEST, LIMIT;
    assert (r as real).Floor == r;
  }
}
