/**
  Rounding of a non-negative real to the nearest IEEE 754 binary64 number, ties
  to even.  The range is not bounded above: no number that large is told apart
  from infinity by what uses this.
  */
module Binary64 {
  import opened Powers

  /** Two to the 53rd: every integer up to it is a binary64 number. */
  const EXACT: nat := 0x20_0000_0000_0000

  function Nearest(x: real): int {
    var n := x.Floor;
    var d := x - n as real;
    if d < 0.5 || (d == 0.5 && n % 2 == 0) then n else n + 1
  }

  // Products and quotients under names of their own, so that a proof can treat
  // them as opaque and rest on the laws below.

  function Mul(x: real, y: real): real { x * y }

  function Div(x: real, y: real): real
    requires 0.0 < y
  {
    x / y
  }

  function Two(k: nat): (r: real)
    ensures 0.0 < r
  {
    Power2Positive(k);
    Power2(k) as real
  }

  /** Rounding on a grid that counts the least positive number as one: integers
      below 2^53 are on it, above it gets twice as coarse with every binade. */
  function OnGrid(y: real): (r: real)
    requires 0.0 <= y
    ensures 0.0 <= r
    decreases y.Floor
  {
    if y < EXACT as real then Nearest(y) as real else 2.0 * OnGrid(y / 2.0)
  }

  /** The least positive number is 2^-1074. */
  const DEEPEST: nat := 1074

  function Round(x: real): (r: real)
    requires 0.0 <= x
    ensures 0.0 <= r
  {
    hide Two, DEEPEST;
    Signs(x, Two(DEEPEST));
    var r := OnGrid(Mul(x, Two(DEEPEST)));
    Signs(r, Two(DEEPEST));
    Div(r, Two(DEEPEST))
  }

  // --------------------------------------------------------------------- laws

  lemma Signs(x: real, p: real)
    requires 0.0 <= x && 0.0 < p
    ensures 0.0 <= Mul(x, p) && 0.0 <= Div(x, p)
  {
  }

  lemma Associates(n: real, g: real, q: real)
    ensures Mul(n, Mul(g, q)) == Mul(Mul(n, g), q)
  {
  }

  lemma PositiveProduct(p: real, q: real)
    requires 0.0 < p && 0.0 < q
    ensures 0.0 < Mul(p, q)
  {
  }

  lemma QuotientTimes(a: real, p: real, q: real)
    requires 0.0 < p
    ensures Mul(Div(a, p), Mul(p, q)) == Mul(a, q)
  {
    assert a / p * p == a;
    assert a / p * (p * q) == a / p * p * q;
  }

  lemma Cancel(a: real, p: real, q: real)
    requires 0.0 < p && 0.0 < q
    ensures 0.0 < Mul(p, q) && Div(Mul(a, q), Mul(p, q)) == Div(a, p)
  {
    PositiveProduct(p, q);
    var x := a / p;
    assert x * (p * q) == a * q by { QuotientTimes(a, p, q); }
    assert x * (p * q) / (p * q) == x;
  }

  lemma Ordered(a: real, b: real, q: real)
    requires 0.0 < q && a <= b
    ensures Mul(a, q) <= Mul(b, q) && (a < b ==> Mul(a, q) < Mul(b, q))
  {
  }

  lemma TwoAdd(j: nat, k: nat)
    ensures Two(j + k) == Mul(Two(j), Two(k))
  {
    Power2Add(j, k);
    hide Power2;
    assert (Power2(j) * Power2(k)) as real == Power2(j) as real * Power2(k) as real;
  }

  // ------------------------------------------------------------------ nearest

  /** What is closer than a half, or half away from an even number, is nearest. */
  lemma NearestIs(x: real, n: int)
    requires -0.5 < x - n as real < 0.5 || (n % 2 == 0 && -0.5 <= x - n as real <= 0.5)
    ensures Nearest(x) == n
  {
    assert x.Floor == n || x.Floor == n - 1;
  }

  lemma NearestClose(x: real)
    ensures -0.5 <= Nearest(x) as real - x <= 0.5
  {
  }

  // ------------------------------------------------------------------ binades

  lemma Halved(y: real, p: real)
    requires 0.0 < p
    ensures Div(y / 2.0, p) == Div(y, 2.0 * p)
  {
    assert y / 2.0 / p * (2.0 * p) == y;
  }

  lemma TwoNext(e: nat)
    requires 0 < e
    ensures Two(e) == 2.0 * Two(e - 1)
  {
  }

  /** In its binade the grid is the multiples of one power of two. */
  lemma {:induction false} InBinade(y: real, e: nat)
    requires 0.0 <= y < EXACT as real * Two(e)
    requires e == 0 || EXACT as real * Two(e) <= 2.0 * y
    ensures OnGrid(y) == Mul(Nearest(Div(y, Two(e))) as real, Two(e))
  {
    hide Nearest, Div, Two, Mul;
    if e == 0 {
      DivOne(y);
      MulOne(Nearest(y) as real);
    } else {
      TwoNext(e);
      Halved(y, Two(e - 1));
      TwoAtLeastOne(e - 1);
      InBinade(y / 2.0, e - 1);
      MulHalved(Nearest(Div(y, Two(e))) as real, Two(e - 1));
    }
  }

  lemma TwoAtLeastOne(k: nat)
    ensures 1.0 <= Two(k)
  {
  }

  /** Rounding a / 2^k when a lies in the binade where the numbers are the
      multiples of 2^f. */
  lemma RoundScaled(a: real, f: nat, k: nat)
    requires k <= DEEPEST && 0.0 <= a
    requires EXACT as real * Two(f) <= 2.0 * a && a < EXACT as real * Two(f)
    ensures 0.0 <= Div(a, Two(k))
    ensures Round(Div(a, Two(k))) == Div(Mul(Nearest(Div(a, Two(f))) as real, Two(f)), Two(k))
  {
    hide Two, Mul, Div, Nearest, OnGrid, DEEPEST;
    var up := DEEPEST - k;
    var p, q, g := Two(k), Two(up), Two(f);
    TwoAdd(k, up);
    TwoAdd(f, up);
    Signs(a, p);
    Signs(a, q);
    QuotientTimes(a, p, q);
    BinadeScaled(a, g, q);
    InBinade(Mul(a, q), f + up);
    Cancel(a, g, q);
    var n := Nearest(Div(a, g)) as real;
    Associates(n, g, q);
    Cancel(Mul(n, g), p, q);
  }

  lemma BinadeScaled(a: real, g: real, q: real)
    requires 0.0 < q && EXACT as real * g <= 2.0 * a && a < EXACT as real * g
    ensures EXACT as real * Mul(g, q) <= 2.0 * Mul(a, q) && Mul(a, q) < EXACT as real * Mul(g, q)
  {
    Ordered(EXACT as real * g, 2.0 * a, q);
    Ordered(a, EXACT as real * g, q);
  }

  // ----------------------------------------------------------------- exactness

  lemma MulHalved(m: real, p: real)
    ensures Mul(m, 2.0 * p) / 2.0 == Mul(m, p)
  {
  }

  lemma {:induction false} ExactOnGrid(m: nat, e: nat)
    requires m <= EXACT
    ensures 0.0 <= Mul(m as real, Two(e))
    ensures OnGrid(Mul(m as real, Two(e))) == Mul(m as real, Two(e))
  {
    hide Mul, Nearest;
    Signs(m as real, Two(e));
    if e == 0 {
      assert Mul(m as real, Two(0)) == m as real by { MulOne(m as real); }
      NearestIs(m as real, m);
      if m == EXACT { NearestIs(m as real / 2.0, EXACT / 2); }
    } else {
      var n := WholeProduct(m, e);
      NearestIs(Mul(m as real, Two(e)), n);
      TwoNext(e);
      MulHalved(m as real, Two(e - 1));
      ExactOnGrid(m, e - 1);
    }
  }

  lemma MulOne(x: real)
    ensures Two(0) == 1.0 && Mul(x, Two(0)) == x
  {
  }

  lemma WholeProduct(m: nat, e: nat) returns (n: nat)
    ensures Mul(m as real, Two(e)) == n as real && n == m * Power2(e)
  {
    hide Power2;
    n := m * Power2(e);
    assert (m * Power2(e)) as real == m as real * Power2(e) as real;
  }

  /** The multiples of 2^f / 2^k with a significand of at most 53 bits round to
      themselves. */
  lemma RoundExact(m: nat, f: nat, k: nat)
    requires m <= EXACT && k <= DEEPEST
    ensures 0.0 <= Div(Mul(m as real, Two(f)), Two(k))
    ensures Round(Div(Mul(m as real, Two(f)), Two(k))) == Div(Mul(m as real, Two(f)), Two(k))
  {
    hide Two, Mul, Div, OnGrid, DEEPEST;
    var up := DEEPEST - k;
    var a := Mul(m as real, Two(f));
    TwoAdd(k, up);
    TwoAdd(f, up);
    Signs(m as real, Two(f));
    Signs(a, Two(k));
    QuotientTimes(a, Two(k), Two(up));
    Associates(m as real, Two(f), Two(up));
    ExactOnGrid(m, f + up);
    Cancel(a, Two(k), Two(up));
  }

  /** Integers of at most 53 significant bits are binary64 numbers. */
  lemma RoundInteger(m: nat, f: nat)
    requires m <= EXACT
    ensures Round((m * Power2(f)) as real) == (m * Power2(f)) as real
  {
    hide Power2, Round, DEEPEST, Mul, Two;
    RoundExact(m, f, 0);
    var n := WholeProduct(m, f);
    DivOne(n as real);
  }

  lemma DivOne(x: real)
    ensures Two(0) == 1.0 && Div(x, Two(0)) == x
  {
    assert Two(0) == 1.0;
  }

  // ------------------------------------------------------------------ meaning

  /** The numbers of the grid: integers of at most 53 significant bits. */
  predicate GridNumber(z: real)
    decreases z.Floor
  {
    0.0 <= z && if z <= EXACT as real then z == z.Floor as real else GridNumber(z / 2.0)
  }

  ghost predicate Number(x: real) {
    GridNumber(Mul(x, Two(DEEPEST)))
  }

  lemma {:induction false} GridWhole(z: real)
    requires GridNumber(z)
    ensures z == z.Floor as real
    decreases z.Floor
  {
    if z <= EXACT as real {
    } else {
      GridWhole(z / 2.0);
      assert z == (2 * (z / 2.0).Floor) as real;
    }
  }

  lemma DoubledNumber(r: real)
    requires GridNumber(r)
    ensures GridNumber(2.0 * r)
  {
    if 2.0 * r <= EXACT as real {
      GridWhole(r);
      assert 2.0 * r == (2 * r.Floor) as real;
    } else {
      assert 2.0 * r / 2.0 == r;
    }
  }

  lemma {:induction false} OnGridNumber(y: real)
    requires 0.0 <= y
    ensures GridNumber(OnGrid(y))
    decreases y.Floor
  {
    if y < EXACT as real {
      WholeNearest(y);
      hide Nearest;
    } else {
      hide Nearest, GridNumber;
      OnGridNumber(y / 2.0);
      DoubledNumber(OnGrid(y / 2.0));
    }
  }

  lemma WholeNearest(y: real)
    requires 0.0 <= y < EXACT as real
    ensures 0 <= Nearest(y) <= EXACT && (Nearest(y) as real).Floor == Nearest(y)
  {
  }

  function Away(x: real, y: real): real { if x <= y then y - x else x - y }

  lemma WholeClosest(y: real, n: int)
    ensures Away(Nearest(y) as real, y) <= Away(n as real, y)
  {
    NearestSides(y);
    hide Nearest;
    if n <= y.Floor {
      assert n as real <= y.Floor as real;
    } else {
      assert y.Floor as real + 1.0 <= n as real;
    }
  }

  lemma NearestSides(y: real)
    ensures var d := y - y.Floor as real;
      0.0 <= d < 1.0 && ((Nearest(y) == y.Floor && d <= 0.5) || (Nearest(y) == y.Floor + 1 && 0.5 <= d))
  {
  }

  /** The number itself, or the least one of the coarser part when it is below. */
  lemma CoarsePart(z: real) returns (w: real)
    requires GridNumber(z)
    ensures GridNumber(w / 2.0) && w == if z < EXACT as real then EXACT as real else z
  {
    w := if z < EXACT as real then EXACT as real else z;
    if w == EXACT as real {
      assert EXACT as real / 2.0 == (EXACT / 2) as real;
    }
  }

  lemma {:induction false} GridNearest(y: real, z: real)
    requires 0.0 <= y && GridNumber(z)
    ensures Away(OnGrid(y), y) <= Away(z, y)
    decreases y.Floor
  {
    hide Nearest, GridNumber;
    if y < EXACT as real {
      GridWhole(z);
      WholeClosest(y, z.Floor);
    } else {
      var w := CoarsePart(z);
      GridNearest(y / 2.0, w / 2.0);
    }
  }

  /** Rounding gives a binary64 number, and none is closer. */
  lemma RoundNearest(x: real, z: real)
    requires 0.0 <= x && Number(z)
    ensures Number(Round(x)) && Away(Round(x), x) <= Away(z, x)
  {
    hide OnGrid, GridNumber, Two, DEEPEST;
    var t := Two(DEEPEST);
    var y := Mul(x, t);
    Signs(x, t);
    OnGridNumber(y);
    GridNearest(y, Mul(z, t));
    var r := Round(x);
    assert Mul(r, t) == OnGrid(y);
    AwayScaled(r, x, t);
    AwayScaled(z, x, t);
    if Away(z, x) < Away(r, x) {
      Ordered(Away(z, x), Away(r, x), t);
    }
  }

  lemma AwayScaled(x: real, y: real, t: real)
    requires 0.0 < t
    ensures Away(Mul(x, t), Mul(y, t)) == Mul(Away(x, y), t)
  {
    if x <= y { Ordered(x, y, t); } else { Ordered(y, x, t); }
  }

  lemma ZeroNumber()
    ensures Number(0.0)
  {
    assert Mul(0.0, Two(DEEPEST)) == 0.0 by { hide Two; }
  }

  /** What is rounded already stays. */
  lemma RoundAgain(x: real)
    requires 0.0 <= x
    ensures Round(Round(x)) == Round(x)
  {
    hide Round, Number;
    ZeroNumber();
    RoundNearest(x, 0.0);
    RoundNearest(Round(x), Round(x));
  }
}
