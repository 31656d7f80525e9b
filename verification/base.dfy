/** Shared vocabulary: bytes, options, sums over the workers, and exact division. */
module Base {

  type Byte = b: int | 0 <= b < 256

  datatype Option<+T> = None | Some(value: T)

  /** The sum of `f` over a sequence. */
  ghost function Sum<T>(xs: seq<T>, f: T -> int): int
  {
    if xs == [] then 0 else f(xs[0]) + Sum(xs[1..], f)
  }

  lemma {:induction false} SumUpdate<T>(xs: seq<T>, i: nat, x: T, f: T -> int)
    requires i < |xs|
    ensures Sum(xs[i := x], f) == Sum(xs, f) - f(xs[i]) + f(x)
  {
    if i == 0 {
      assert xs[i := x][1..] == xs[1..];
    } else {
      assert xs[i := x][1..] == xs[1..][i - 1 := x];
      SumUpdate(xs[1..], i - 1, x, f);
    }
  }

  /** A sum of bounded terms stays within the bounds times the length, and
      reaches an end of that range only when every term does. */
  lemma {:induction false} SumBounds<T>(xs: seq<T>, f: T -> int, lo: int, hi: int)
    requires forall x :: x in xs ==> lo <= f(x) <= hi
    ensures lo * |xs| <= Sum(xs, f) <= hi * |xs|
    ensures Sum(xs, f) == hi * |xs| ==> forall x :: x in xs ==> f(x) == hi
    ensures Sum(xs, f) == lo * |xs| ==> forall x :: x in xs ==> f(x) == lo
  {
    if xs == [] {
    } else {
      SumBounds(xs[1..], f, lo, hi);
      assert lo * |xs| == lo + lo * |xs[1..]|;
      assert hi * |xs| == hi + hi * |xs[1..]|;
      assert forall x :: x in xs ==> x == xs[0] || x in xs[1..];
    }
  }

  lemma {:induction false} SumMonotone<T>(xs: seq<T>, f: T -> int, g: T -> int)
    requires forall x :: x in xs ==> f(x) <= g(x)
    ensures Sum(xs, f) <= Sum(xs, g)
  {
    if xs == [] {
    } else {
      SumMonotone(xs[1..], f, g);
    }
  }

  lemma {:induction false} SumAppend<T>(xs: seq<T>, x: T, f: T -> int)
    ensures Sum(xs + [x], f) == Sum(xs, f) + f(x)
  {
    if xs == [] {
      assert xs + [x] == [x];
    } else {
      assert (xs + [x])[1..] == xs[1..] + [x];
      SumAppend(xs[1..], x, f);
    }
  }

  lemma QuotientIs(n: int, d: int, q: int, r: int)
    requires 0 <= r < d && n == q * d + r
    ensures n / d == q
  {
    assert (n / d - q) * d == r - n % d;
    MultipleOrZero(n / d - q, d);
  }

  lemma MultipleOrZero(k: int, d: int)
    requires 0 < d
    ensures k == 0 || d <= k * d || k * d <= -d
  {
    if 1 <= k {
      assert 0 <= (k - 1) * d;
    } else if k <= -1 {
      assert 0 <= (-k - 1) * d;
    }
  }
}
