/**
 Exact decimal arithmetic shared by the sizing, risk and price modules.

 A decimal number is a `real`; the power-of-ten grids that `Decimal.quantize` rounds to are
 the multiples of `Pow10(k)`. Digit limits of a decimal context play no part here.
 */
module Decimals {

  datatype Option<+T> = None | Some(value: T)

  function Abs(x: real): (r: real)
    ensures r >= 0.0 && (r == x || r == -x)
  {
    if x < 0.0 then -x else x
  }

  function Max(x: real, y: real): (r: real)
    ensures x <= r && y <= r && (r == x || r == y)
  {
    if x < y then y else x
  }

  function Min(x: real, y: real): (r: real)
    ensures r <= x && r <= y && (r == x || r == y)
  {
    if x < y then x else y
  }

  /** Ten to the power `e`, for any integer exponent. */
  function Pow10(e: int): (p: real)
    ensures p > 0.0
    decreases if e < 0 then -e else e
  {
    if e == 0 then 1.0
    else if e > 0 then 10.0 * Pow10(e - 1)
    else Pow10(e + 1) / 10.0
  }

  function Pow10Int(n: nat): (p: int)
    ensures p >= 1
  {
    if n == 0 then 1 else 10 * Pow10Int(n - 1)
  }

  lemma Pow10Step(e: int)
    ensures Pow10(e + 1) == 10.0 * Pow10(e)
  {
  }

  lemma {:induction false} Pow10IsInt(n: nat)
    ensures Pow10(n) == Pow10Int(n) as real
  {
    if n == 0 {
    } else {
      Pow10IsInt(n - 1);
    }
  }

  lemma {:induction false} Pow10Reciprocal(n: nat)
    ensures Pow10(0 - n) * Pow10Int(n) as real == 1.0
  {
    if n == 0 {
    } else {
      Pow10Reciprocal(n - 1);
      TenfoldCancels(Pow10(1 - n), Pow10Int(n - 1) as real);
    }
  }

  lemma TenfoldCancels(x: real, y: real)
    ensures (x / 10.0) * (10.0 * y) == x * y
  {
  }

  lemma MulCancel(a: real, b: real, q: real)
    requires q > 0.0
    ensures a * q <= b * q <==> a <= b
    ensures a * q < b * q <==> a < b
  {
    if a < b { MulStrict(a, b, q); }
    if b < a { MulStrict(b, a, q); }
  }

  lemma MulStrict(a: real, b: real, q: real)
    requires q > 0.0 && a < b
    ensures a * q < b * q
  {
    assert (b - a) * q > 0.0;
  }

  // ----- rounding to a grid -----

  /** `n` quanta of size `q`, by repeated addition. */
  function Grid(n: int, q: real): real
    decreases if n < 0 then -n else n
  {
    if n == 0 then 0.0
    else if n > 0 then Grid(n - 1, q) + q
    else Grid(n + 1, q) - q
  }

  lemma {:induction false} GridProduct(n: int, q: real)
    ensures Grid(n, q) == n as real * q
    decreases if n < 0 then -n else n
  {
    if n == 0 {
    } else if n > 0 {
      GridProduct(n - 1, q);
      assert (n - 1) as real * q == n as real * q - q;
    } else {
      GridProduct(n + 1, q);
      assert (n + 1) as real * q == n as real * q + q;
    }
  }

  ghost predicate OnGrid(x: real, q: real) {
    exists n: int :: x == Grid(n, q)
  }

  /** `n` quanta of size `q`, priced, are `n` priced quanta. */
  lemma {:induction false} GridTimes(n: int, q: real, price: real, w: real)
    requires w == q * price
    ensures Grid(n, w) == Grid(n, q) * price
    decreases if n < 0 then -n else n
  {
    if n > 0 {
      GridTimes(n - 1, q, price, w);
      Distributes(Grid(n - 1, q), q, price);
    } else if n < 0 {
      GridTimes(n + 1, q, price, w);
      Distributes(Grid(n, q), q, price);
    } else {
      assert Grid(0, w) == Grid(0, q) == 0.0;
    }
  }

  lemma GridZero(q: real)
    ensures Grid(0, q) == 0.0
  {
  }

  lemma Distributes(a: real, b: real, c: real)
    ensures (a + b) * c == a * c + b * c
  {
  }

  lemma Pow10Int4()
    ensures Pow10Int(4) == 10000 && Pow10Int(5) == 100000
  {
  }

  lemma GridStep(n: int, q: real)
    ensures Grid(n + 1, q) == Grid(n, q) + q
  {
  }

  lemma Bracket(x: real, y: real, n: real, q: real)
    requires q > 0.0 && y * q == x && n <= y < n + 1.0
    ensures n * q <= x < n * q + q
  {
    var d := y - n;
    assert d * q == x - n * q;
    assert 0.0 <= d * q;
    MulStrict(d, 1.0, q);
  }

  lemma QuotientShift(x: real, q: real)
    requires q > 0.0
    ensures (x - q) / q == x / q - 1.0
  {
    var y, z := x / q, (x - q) / q;
    assert y * q == x && z * q == x - q;
    assert (y - 1.0) * q == y * q - q;
    MulCancel(z, y - 1.0, q);
    MulCancel(y - 1.0, z, q);
  }

  /** The number of whole quanta in `x`: the floor of `x / q`, counted off one quantum at a time. */
  function FloorUnits(x: real, q: real): (n: int)
    requires q > 0.0
    ensures Grid(n, q) <= x < Grid(n + 1, q)
    decreases x < 0.0, if x < 0.0 then (-x / q).Floor else (x / q).Floor
  {
    if x < 0.0 then
      QuotientShift(-x, q);
      FloorUnits(x + q, q) - 1
    else if x < q then 0
    else
      QuotientShift(x, q);
      FloorUnits(x - q, q) + 1
  }

  /** Truncation is the whole part of the quotient, as `GridProduct` says that a grid point is a product. */
  lemma FloorIsQuotient(x: real, q: real)
    requires q > 0.0
    ensures FloorUnits(x, q) == (x / q).Floor
  {
    var n := (x / q).Floor;
    Bracket(x, x / q, n as real, q);
    GridProduct(n, q);
    GridStep(n, q);
    FloorUnique(x, q, n);
  }

  /** `Decimal.quantize` with ROUND_HALF_UP on a non-negative number, in whole quanta. */
  function HalfUpUnits(x: real, q: real): (n: int)
    requires q > 0.0
    ensures Grid(n, q) - q / 2.0 <= x < Grid(n, q) + q / 2.0
  {
    FloorUnits(x + q / 2.0, q)
  }

  function HalfUp(x: real, q: real): (r: real)
    requires q > 0.0
    ensures r - q / 2.0 <= x < r + q / 2.0
  {
    Grid(HalfUpUnits(x, q), q)
  }

  lemma {:induction false} GridLess(m: int, n: int, q: real)
    requires q > 0.0 && m < n
    ensures Grid(m, q) + q <= Grid(n, q)
    decreases n - m
  {
    GridStep(n - 1, q);
    if m == n - 1 {
    } else {
      GridLess(m, n - 1, q);
    }
  }

  lemma GridOrder(m: int, n: int, q: real)
    requires q > 0.0
    ensures Grid(m, q) <= Grid(n, q) <==> m <= n
    ensures Grid(m, q) < Grid(n, q) <==> m < n
  {
    if m < n { GridLess(m, n, q); }
    if n < m { GridLess(n, m, q); }
  }

  lemma FloorUnique(x: real, q: real, n: int)
    requires q > 0.0 && Grid(n, q) <= x < Grid(n + 1, q)
    ensures FloorUnits(x, q) == n
  {
    var m := FloorUnits(x, q);
    GridOrder(m, n + 1, q);
    GridOrder(n, m + 1, q);
  }

  lemma FloorMonotone(x: real, y: real, q: real)
    requires q > 0.0 && x <= y
    ensures FloorUnits(x, q) <= FloorUnits(y, q)
  {
    GridOrder(FloorUnits(x, q), FloorUnits(y, q) + 1, q);
  }

  lemma HalfUpMonotone(x: real, y: real, q: real)
    requires q > 0.0 && x <= y
    ensures HalfUp(x, q) <= HalfUp(y, q)
  {
    FloorMonotone(x + q / 2.0, y + q / 2.0, q);
    GridOrder(HalfUpUnits(x, q), HalfUpUnits(y, q), q);
  }

  lemma HalfUpFixed(n: int, q: real)
    requires q > 0.0
    ensures HalfUp(Grid(n, q), q) == Grid(n, q)
  {
    FloorUnique(Grid(n, q) + q / 2.0, q, n);
  }

  /** Half-up rounding never crosses a point of its own grid. */
  lemma HalfUpFence(x: real, d: real, q: real)
    requires q > 0.0 && OnGrid(d, q)
    ensures x <= d ==> HalfUp(x, q) <= d
    ensures d <= x ==> d <= HalfUp(x, q)
  {
    var n :| d == Grid(n, q);
    HalfUpFixed(n, q);
    if x <= d { HalfUpMonotone(x, d, q); }
    if d <= x { HalfUpMonotone(d, x, q); }
  }

  /** Half-up rounding picks a nearest point of its grid. */
  lemma HalfUpNearest(x: real, v: real, q: real)
    requires q > 0.0 && OnGrid(v, q)
    ensures Abs(x - HalfUp(x, q)) <= Abs(x - v)
  {
    var n := HalfUpUnits(x, q);
    var m :| v == Grid(m, q);
    if m < n {
      GridOrder(m, n - 1, q);
      assert Grid(n - 1, q) == Grid(n, q) - q;
    } else if m > n {
      GridOrder(n + 1, m, q);
      assert Grid(n + 1, q) == Grid(n, q) + q;
    }
  }

  /** A grid of `k`-fold quanta is part of the grid of single quanta. */
  lemma {:induction false} GridScale(n: int, k: int, q: real)
    ensures Grid(n, Grid(k, q)) == Grid(n * k, q)
  {
    GridProduct(n * k, q);
    GridProduct(k, q);
    GridProduct(n, Grid(k, q));
    ProductAssociates(n, k, q);
  }

  lemma ProductAssociates(n: int, k: int, q: real)
    ensures n as real * (k as real * q) == (n * k) as real * q
  {
    assert (n * k) as real == n as real * k as real;
  }

  /** A coarser power of ten is a whole number of finer ones. */
  lemma {:induction false} Pow10Ratio(fine: int, coarse: int)
    requires fine <= coarse
    ensures Pow10(coarse) == Grid(Pow10Int(coarse - fine), Pow10(fine))
    decreases coarse - fine
  {
    if fine == coarse {
    } else {
      var k := Pow10Int(coarse - 1 - fine);
      Pow10Ratio(fine, coarse - 1);
      Pow10Step(coarse - 1);
      GridProduct(10, Grid(k, Pow10(fine)));
      GridScale(10, k, Pow10(fine));
    }
  }

  lemma Pow10Monotone(a: int, b: int)
    requires a < b
    ensures 10.0 * Pow10(a) <= Pow10(b)
  {
    Pow10Ratio(a + 1, b);
    Pow10Step(a);
    GridOrder(1, Pow10Int(b - a - 1), Pow10(a + 1));
  }

  /** A point of a coarse power-of-ten grid lies on every finer one. */
  lemma GridRefine(x: real, fine: int, coarse: int)
    requires fine <= coarse && OnGrid(x, Pow10(coarse))
    ensures OnGrid(x, Pow10(fine))
  {
    var n :| x == Grid(n, Pow10(coarse));
    Pow10Ratio(fine, coarse);
    GridScale(n, Pow10Int(coarse - fine), Pow10(fine));
  }

  lemma PowerOnGrid(fine: int, e: int)
    requires fine <= e
    ensures OnGrid(Pow10(e), Pow10(fine))
  {
    assert Pow10(e) == Grid(1, Pow10(e));
    GridRefine(Pow10(e), fine, e);
  }
}
