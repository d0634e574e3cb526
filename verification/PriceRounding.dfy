/**
 Exchange price rounding (`engine/sizing.py: round_price`) and the IOC limit price built on it
 (`adapters/hyperliquid.py: place_ioc`).

 A perpetual price may carry at most five significant figures and at most `6 - szDecimals`
 decimal places; whole-number prices are exempt from the significant-figure limit.
 */
module PriceRounding {
  import opened Decimals

  const MAX_PRICE_SIG_FIGS := 5
  const PERP_MAX_PRICE_DECIMALS := 6

  datatype PriceResult = Price(value: real) | SourceNotPositive | RoundsToZero

  // ----- the code -----

  /** `Decimal.adjusted()`: the exponent of the leading digit. */
  function Adjusted(price: real): (e: int)
    requires price > 0.0
    ensures Pow10(e) <= price < Pow10(e + 1)
    decreases price < 1.0, if price < 1.0 then (1.0 / price).Floor else price.Floor
  {
    if price >= 10.0 then
      var e := Adjusted(price / 10.0);
      Pow10Step(e); Pow10Step(e + 1);
      e + 1
    else if price < 1.0 then
      assert 1.0 / price > 1.0;
      assert 1.0 / (price * 10.0) == 1.0 / price / 10.0;
      var e := Adjusted(price * 10.0);
      Pow10Step(e - 1); Pow10Step(e);
      e - 1
    else
      Pow10Step(0);
      0
  }

  function MaxPlaces(szDecimals: int): (p: int)
    ensures p >= 0
  {
    if PERP_MAX_PRICE_DECIMALS - szDecimals > 0 then PERP_MAX_PRICE_DECIMALS - szDecimals else 0
  }

  function PlaceQuantum(szDecimals: int): (q: real)
    ensures q > 0.0
  {
    Pow10(-MaxPlaces(szDecimals))
  }

  function SigQuantum(price: real): (q: real)
    requires price > 0.0
    ensures q > 0.0
  {
    Pow10(Adjusted(price) - (MAX_PRICE_SIG_FIGS - 1))
  }

  /** First rounding stage: five significant figures. */
  function SigRounded(price: real): real
    requires price > 0.0
  {
    HalfUp(price, SigQuantum(price))
  }

  /** Both rounding stages: five significant figures, then the allowed decimal places. */
  function SigCandidate(price: real, szDecimals: int): real
    requires price > 0.0
  {
    HalfUp(SigRounded(price), PlaceQuantum(szDecimals))
  }

  function RoundPrice(price: real, szDecimals: int): PriceResult {
    if price <= 0.0 then SourceNotPositive
    else
      var sig := SigCandidate(price, szDecimals);
      var integer := HalfUp(price, 1.0);
      var rounded := if integer > 0.0 && Abs(price - integer) < Abs(price - sig) then integer else sig;
      if rounded <= 0.0 then RoundsToZero else Price(rounded)
  }

  /** The mark moved against the trader by the slippage allowance. */
  function AggressivePrice(mark: real, slippageBps: int, isBuy: bool): (px: real)
    ensures mark > 0.0 && slippageBps >= 0 ==> if isBuy then mark <= px else px <= mark
  {
    var slip := slippageBps as real / 10000.0;
    SlippageBrackets(mark, slip);
    mark * (if isBuy then 1.0 + slip else 1.0 - slip)
  }

  /** The allowance is in hundredths of a percent of the mark, added for a buy and taken off for a sell. */
  lemma SlippageIs(mark: real, slippageBps: int)
    ensures (AggressivePrice(mark, slippageBps, true) - mark) * 10000.0 == mark * slippageBps as real
    ensures (mark - AggressivePrice(mark, slippageBps, false)) * 10000.0 == mark * slippageBps as real
  {
    var slip := slippageBps as real / 10000.0;
    SlippageAlgebra(mark, slip, slippageBps as real);
  }

  lemma SlippageAlgebra(mark: real, slip: real, bps: real)
    requires slip == bps / 10000.0
    ensures (mark * (1.0 + slip) - mark) * 10000.0 == mark * bps
    ensures (mark - mark * (1.0 - slip)) * 10000.0 == mark * bps
  {
    assert slip * 10000.0 == bps;
    assert mark * (1.0 + slip) - mark == mark * slip;
    assert mark - mark * (1.0 - slip) == mark * slip;
    assert mark * slip * 10000.0 == mark * (slip * 10000.0);
  }

  /** The limit price of an immediate-or-cancel order. */
  function IocLimit(mark: real, slippageBps: int, isBuy: bool, szDecimals: int): PriceResult {
    RoundPrice(AggressivePrice(mark, slippageBps, isBuy), szDecimals)
  }

  lemma SlippageBrackets(mark: real, slip: real)
    ensures mark > 0.0 && slip >= 0.0 ==> mark * (1.0 - slip) <= mark <= mark * (1.0 + slip)
  {
    if mark > 0.0 && slip >= 0.0 { assert mark * slip >= 0.0; }
  }

  // ----- what the exchange accepts -----

  ghost predicate FiveFigures(v: real) {
    exists m: int, j: int :: 0 < m < 100000 && v == Grid(m, Pow10(j))
  }

  ghost predicate ValidPrice(v: real, szDecimals: int) {
    && v > 0.0
    && OnGrid(v, PlaceQuantum(szDecimals))
    && (OnGrid(v, 1.0) || FiveFigures(v))
  }

  ghost predicate NearestValid(price: real, r: real, szDecimals: int) {
    && ValidPrice(r, szDecimals)
    && forall v: real :: ValidPrice(v, szDecimals) ==> Abs(price - r) <= Abs(price - v)
  }

  /** The significant-figure step is at least as coarse as the decimal-place step. */
  predicate SigStepCoarser(price: real, szDecimals: int)
    requires price > 0.0
  {
    Adjusted(price) - (MAX_PRICE_SIG_FIGS - 1) >= -MaxPlaces(szDecimals)
  }

  /** The number of place quanta at or below the result of the first rounding stage. */
  function PlacesBelow(price: real, szDecimals: int): int
    requires price > 0.0
  {
    FloorUnits(SigRounded(price), PlaceQuantum(szDecimals))
  }

  /**
   The inputs on which rounding twice goes wrong: the first stage lifts the price onto the exact
   midpoint between two place multiples, the lower one being positive and not a whole number.
   */
  predicate DoubleRoundedUp(price: real, szDecimals: int)
    requires price > 0.0
  {
    var q, k := PlaceQuantum(szDecimals), PlacesBelow(price, szDecimals);
    && !SigStepCoarser(price, szDecimals)
    && price < SigRounded(price)
    && SigRounded(price) == Grid(k, q) + q / 2.0
    && k >= 1
    && HalfUp(Grid(k, q), 1.0) != Grid(k, q)
  }

  // ----- the first stage stays inside its decade -----

  lemma SigInDecade(price: real)
    requires price > 0.0
    ensures Pow10(Adjusted(price)) <= SigRounded(price) <= Pow10(Adjusted(price) + 1)
  {
    var e := Adjusted(price);
    PowerOnGrid(e - 4, e);
    PowerOnGrid(e - 4, e + 1);
    HalfUpFence(price, Pow10(e), SigQuantum(price));
    HalfUpFence(price, Pow10(e + 1), SigQuantum(price));
  }

  lemma SigFiveFigures(price: real)
    requires price > 0.0
    ensures FiveFigures(SigRounded(price))
  {
    var e := Adjusted(price);
    SigInDecade(price);
    UpToDecade(HalfUpUnits(price, SigQuantum(price)), e - 4);
  }

  /** A positive number of quanta up to the next decade has at most five figures. */
  lemma UpToDecade(n: int, j: int)
    requires 0.0 < Grid(n, Pow10(j)) <= Pow10(j + 5)
    ensures FiveFigures(Grid(n, Pow10(j)))
  {
    hide Grid, Pow10, Pow10Int;
    var q, k := Pow10(j), Pow10Int(5);
    Pow10Ratio(j, j + 5);
    Pow10Int4();
    GridZero(q);
    GridOrder(n, k, q);
    GridOrder(0, n, q);
    if n == k {
      GridZero(Pow10(j + 5));
      GridStep(0, Pow10(j + 5));
      assert Grid(n, q) == Grid(1, Pow10(j + 5));
    }
  }

  lemma IntegerGrid()
    ensures Pow10(0) == 1.0
  {
  }

  lemma IntegerOnPlaceGrid(v: real, szDecimals: int)
    requires OnGrid(v, 1.0)
    ensures OnGrid(v, PlaceQuantum(szDecimals))
  {
    IntegerGrid();
    GridRefine(v, -MaxPlaces(szDecimals), 0);
  }

  lemma HalfUpOnGrid(x: real, q: real)
    requires q > 0.0
    ensures OnGrid(HalfUp(x, q), q)
  {
    assert HalfUp(x, q) == Grid(HalfUpUnits(x, q), q);
  }

  lemma HalfUpKeeps(x: real, q: real)
    requires q > 0.0 && OnGrid(x, q)
    ensures HalfUp(x, q) == x
  {
    var n :| x == Grid(n, q);
    HalfUpFixed(n, q);
  }

  // ----- coarse significant-figure step -----

  lemma CoarseSig(price: real, szDecimals: int)
    requires price > 0.0 && SigStepCoarser(price, szDecimals)
    ensures SigCandidate(price, szDecimals) == SigRounded(price)
    ensures OnGrid(SigRounded(price), PlaceQuantum(szDecimals))
  {
    HalfUpOnGrid(price, SigQuantum(price));
    GridRefine(SigRounded(price), -MaxPlaces(szDecimals), Adjusted(price) - 4);
    HalfUpKeeps(SigRounded(price), PlaceQuantum(szDecimals));
  }

  /** Below one hundred thousand, with a coarse step, the result is the five-figure rounding. */
  lemma CoarseSmall(price: real, szDecimals: int)
    requires price > 0.0 && SigStepCoarser(price, szDecimals) && Adjusted(price) <= 4
    ensures RoundPrice(price, szDecimals) == Price(SigRounded(price))
    ensures forall v :: OnGrid(v, 1.0) ==> OnGrid(v, SigQuantum(price))
  {
    var e := Adjusted(price);
    CoarseSig(price, szDecimals);
    SigInDecade(price);
    forall v | OnGrid(v, 1.0)
      ensures OnGrid(v, SigQuantum(price))
    {
      IntegerGrid();
      GridRefine(v, e - 4, 0);
    }
    HalfUpOnGrid(price, 1.0);
    HalfUpNearest(price, HalfUp(price, 1.0), SigQuantum(price));
  }

  lemma LargeAtLeast(price: real)
    requires price > 0.0 && Adjusted(price) >= 5
    ensures price >= 10.0
  {
    IntegerGrid();
    Pow10Monotone(0, Adjusted(price));
  }

  /** From one hundred thousand on, the result is a nearest whole number. */
  lemma CoarseLarge(price: real, szDecimals: int)
    requires price > 0.0 && Adjusted(price) >= 5
    ensures SigStepCoarser(price, szDecimals)
    ensures RoundPrice(price, szDecimals).Price?
    ensures OnGrid(RoundPrice(price, szDecimals).value, 1.0)
    ensures forall v :: OnGrid(v, 1.0) ==> Abs(price - RoundPrice(price, szDecimals).value) <= Abs(price - v)
  {
    var e := Adjusted(price);
    CoarseSig(price, szDecimals);
    SigInDecade(price);
    LargeAtLeast(price);
    IntegerGrid();
    HalfUpOnGrid(price, SigQuantum(price));
    GridRefine(SigRounded(price), 0, e - 4);
    HalfUpOnGrid(price, 1.0);
    forall v | OnGrid(v, 1.0)
      ensures Abs(price - HalfUp(price, 1.0)) <= Abs(price - v)
    {
      HalfUpNearest(price, v, 1.0);
    }
  }

  /** A price of at most five figures in or above the decade of `price` is on its coarse grid. */
  lemma FiguresOnSigGrid(price: real, v: real)
    requires price > 0.0 && FiveFigures(v) && v >= Pow10(Adjusted(price))
    ensures OnGrid(v, SigQuantum(price))
  {
    var e := Adjusted(price);
    var m: int, j: int :| 0 < m < 100000 && v == Grid(m, Pow10(j));
    if j < e - 4 {
      Pow10Ratio(j, j + 5);
      Pow10Int4();
      GridOrder(m, Pow10Int(5), Pow10(j));
      if j + 5 < e { Pow10Monotone(j + 5, e); }
      assert false;
    }
    assert OnGrid(v, Pow10(j));
    GridRefine(v, e - 4, j);
  }

  lemma CoarseNearest(price: real, szDecimals: int, v: real)
    requires price > 0.0 && SigStepCoarser(price, szDecimals) && ValidPrice(v, szDecimals)
    ensures RoundPrice(price, szDecimals).Price?
    ensures Abs(price - RoundPrice(price, szDecimals).value) <= Abs(price - v)
  {
    var e := Adjusted(price);
    var q := SigQuantum(price);
    if e <= 4 { CoarseSmall(price, szDecimals); } else { CoarseLarge(price, szDecimals); }
    var w := if v < Pow10(e) then Pow10(e) else v;
    assert Abs(price - w) <= Abs(price - v);
    if v < Pow10(e) {
      PowerOnGrid(e - 4, e);
    } else if FiveFigures(v) {
      FiguresOnSigGrid(price, v);
    }
    if e <= 4 {
      HalfUpNearest(price, w, q);
    } else if OnGrid(w, q) {
      IntegerGrid();
      GridRefine(w, 0, e - 4);
    }
  }

  // ----- fine significant-figure step: two genuine roundings -----

  /** Midpoints between place multiples lie on the finer five-figure grid. */
  lemma MidpointOnSigGrid(price: real, szDecimals: int, n: int)
    requires price > 0.0 && !SigStepCoarser(price, szDecimals)
    ensures OnGrid(Grid(n, PlaceQuantum(szDecimals)) - PlaceQuantum(szDecimals) / 2.0, SigQuantum(price))
  {
    var P := MaxPlaces(szDecimals);
    var q := PlaceQuantum(szDecimals);
    var f := Pow10(-P - 1);
    Pow10Step(-P - 1);
    var x := Grid(n, q) - q / 2.0;
    GridProduct(10, f);
    GridScale(n, 10, f);
    GridStep(10 * n - 1, f); GridStep(10 * n - 2, f); GridStep(10 * n - 3, f);
    GridStep(10 * n - 4, f); GridStep(10 * n - 5, f);
    assert x == Grid(10 * n - 5, f);
    GridRefine(x, Adjusted(price) - 4, -P - 1);
  }

  /**
   In the fine region the candidate lands within half a place quantum above the price, unless the
   first stage lifted the price onto the midpoint below the candidate.
   */
  lemma FineCandidate(price: real, szDecimals: int)
    requires price > 0.0 && !SigStepCoarser(price, szDecimals)
    ensures var q := PlaceQuantum(szDecimals);
            var sig := SigCandidate(price, szDecimals);
            && price < sig + q / 2.0
            && (price < sig - q / 2.0 ==> SigRounded(price) == sig - q / 2.0 && sig - q < price)
  {
    var q := PlaceQuantum(szDecimals);
    var s1 := SigRounded(price);
    var n := HalfUpUnits(s1, q);
    MidpointOnSigGrid(price, szDecimals, n);
    MidpointOnSigGrid(price, szDecimals, n + 1);
    assert Grid(n + 1, q) == Grid(n, q) + q;
    HalfUpFence(price, Grid(n, q) - q / 2.0, SigQuantum(price));
    HalfUpFence(price, Grid(n + 1, q) - q / 2.0, SigQuantum(price));
    Pow10Monotone(Adjusted(price) - 4, -MaxPlaces(szDecimals));
  }

  /** The midpoint case of the fine region, named by the place multiple below the midpoint. */
  predicate LiftedToMidpoint(price: real, szDecimals: int)
    requires price > 0.0
  {
    var q := PlaceQuantum(szDecimals);
    && price < SigRounded(price)
    && SigRounded(price) == Grid(PlacesBelow(price, szDecimals), q) + q / 2.0
  }

  lemma LiftedCandidate(price: real, szDecimals: int)
    requires price > 0.0 && !SigStepCoarser(price, szDecimals)
    ensures var q := PlaceQuantum(szDecimals);
            var sig := SigCandidate(price, szDecimals);
            && (LiftedToMidpoint(price, szDecimals) <==> price < sig - q / 2.0)
            && (LiftedToMidpoint(price, szDecimals) ==> sig == Grid(PlacesBelow(price, szDecimals) + 1, q))
  {
    var q := PlaceQuantum(szDecimals);
    var s1 := SigRounded(price);
    var sig := SigCandidate(price, szDecimals);
    var k := PlacesBelow(price, szDecimals);
    FineCandidate(price, szDecimals);
    assert Grid(k + 1, q) == Grid(k, q) + q;
    if LiftedToMidpoint(price, szDecimals) {
      FloorUnique(s1 + q / 2.0, q, k + 1);
      assert Grid(k + 2, q) == Grid(k, q) + q + q;
    }
    if price < sig - q / 2.0 {
      var n := HalfUpUnits(s1, q);
      assert Grid(n - 1, q) == Grid(n, q) - q;
      FloorUnique(s1, q, n - 1);
    }
  }

  lemma FineUnlifted(price: real, szDecimals: int)
    requires price > 0.0 && !SigStepCoarser(price, szDecimals) && !LiftedToMidpoint(price, szDecimals)
    ensures var sig := SigCandidate(price, szDecimals);
            && RoundPrice(price, szDecimals) == (if sig <= 0.0 then RoundsToZero else Price(sig))
            && sig == HalfUp(price, PlaceQuantum(szDecimals))
  {
    var q := PlaceQuantum(szDecimals);
    LiftedCandidate(price, szDecimals);
    FineCandidate(price, szDecimals);
    var n := HalfUpUnits(SigRounded(price), q);
    assert Grid(n + 1, q) == Grid(n, q) + q;
    FloorUnique(price + q / 2.0, q, n);
    HalfUpOnGrid(price, 1.0);
    IntegerOnPlaceGrid(HalfUp(price, 1.0), szDecimals);
    HalfUpNearest(price, HalfUp(price, 1.0), q);
  }

  /** What a lifted price rounds to: the place multiple below if whole and positive, else above. */
  lemma FineLifted(price: real, szDecimals: int)
    requires price > 0.0 && !SigStepCoarser(price, szDecimals) && LiftedToMidpoint(price, szDecimals)
    ensures var q, k := PlaceQuantum(szDecimals), PlacesBelow(price, szDecimals);
            && k >= 0
            && Grid(k, q) < price < Grid(k, q) + q / 2.0
            && RoundPrice(price, szDecimals) ==
               Price(if k >= 1 && HalfUp(Grid(k, q), 1.0) == Grid(k, q) then Grid(k, q) else Grid(k + 1, q))
  {
    var q, k := PlaceQuantum(szDecimals), PlacesBelow(price, szDecimals);
    var low := Grid(k, q);
    FineCandidate(price, szDecimals);
    LiftedCandidate(price, szDecimals);
    assert Grid(k + 1, q) == low + q;
    SigInDecade(price);
    GridOrder(0, k + 1, q);
    assert Grid(0, q) == 0.0;
    var integer := HalfUp(price, 1.0);
    HalfUpOnGrid(price, 1.0);
    IntegerOnPlaceGrid(integer, szDecimals);
    if k >= 1 && HalfUp(low, 1.0) == low {
      HalfUpOnGrid(low, 1.0);
      HalfUpNearest(price, low, 1.0);
      HalfUpFence(price, low, 1.0);
      GridOrder(0, k, q);
      CloserThanAbove(price, k, q, integer);
    } else if integer > 0.0 && Abs(price - integer) < Abs(price - Grid(k + 1, q)) {
      CloserThanAbove(price, k, q, integer);
      HalfUpKeeps(integer, 1.0);
      GridOrder(0, k, q);
      assert false;
    }
    GridOrder(0, k + 1, q);
  }

  /** Only the grid point below can be strictly closer than the one above. */
  lemma CloserThanAbove(x: real, k: int, q: real, v: real)
    requires q > 0.0 && OnGrid(v, q)
    requires Grid(k, q) < x < Grid(k, q) + q / 2.0
    requires Abs(x - v) < Abs(x - Grid(k + 1, q))
    ensures v == Grid(k, q)
  {
    var m :| v == Grid(m, q);
    assert Grid(k + 1, q) == Grid(k, q) + q && Grid(k - 1, q) == Grid(k, q) - q;
    if m < k {
      GridOrder(m, k - 1, q);
    } else if m > k {
      GridOrder(k + 1, m, q);
    }
  }

  /** In the fine region the candidate is at most ten thousand place quanta. */
  lemma FineCandidateBound(price: real, szDecimals: int)
    requires price > 0.0 && !SigStepCoarser(price, szDecimals)
    ensures SigCandidate(price, szDecimals) <= Pow10(4 - MaxPlaces(szDecimals))
  {
    var P, e := MaxPlaces(szDecimals), Adjusted(price);
    SigInDecade(price);
    if e + 1 < 4 - P { Pow10Monotone(e + 1, 4 - P); }
    PowerOnGrid(-P, 4 - P);
    HalfUpFence(SigRounded(price), Pow10(4 - P), PlaceQuantum(szDecimals));
  }

  lemma FineFiveFigures(price: real, szDecimals: int, n: int)
    requires price > 0.0 && !SigStepCoarser(price, szDecimals)
    requires n >= 1 && Grid(n, PlaceQuantum(szDecimals)) <= SigCandidate(price, szDecimals)
    ensures ValidPrice(Grid(n, PlaceQuantum(szDecimals)), szDecimals)
  {
    FineCandidateBound(price, szDecimals);
    PlaceMultipleValid(szDecimals, n);
  }

  lemma PlaceMultipleValid(szDecimals: int, n: int)
    requires n >= 1 && Grid(n, PlaceQuantum(szDecimals)) <= Pow10(4 - MaxPlaces(szDecimals))
    ensures ValidPrice(Grid(n, PlaceQuantum(szDecimals)), szDecimals)
  {
    hide Grid, Pow10, Pow10Int;
    var j, q := -MaxPlaces(szDecimals), PlaceQuantum(szDecimals);
    Pow10Monotone(j + 4, j + 5);
    GridZero(q);
    GridOrder(0, n, q);
    UpToDecade(n, j);
  }

  // ----- results -----

  /** The decimal-place quantum is one unit in the last of the `6 - szDecimals` allowed places, or one whole unit. */
  lemma PlaceQuantumIs(szDecimals: int)
    ensures szDecimals <= 6 ==> PlaceQuantum(szDecimals) * Pow10Int(6 - szDecimals) as real == 1.0
    ensures szDecimals >= 6 ==> PlaceQuantum(szDecimals) == 1.0
  {
    if szDecimals <= 6 { Pow10Reciprocal(6 - szDecimals); }
  }

  /** The two ways a price is refused: it was not positive, or it rounds to nothing. */
  lemma Refusals(price: real, szDecimals: int)
    ensures RoundPrice(price, szDecimals) == SourceNotPositive <==> price <= 0.0
    ensures RoundPrice(price, szDecimals) == RoundsToZero <==>
            price > 0.0 && SigRounded(price) < PlaceQuantum(szDecimals) / 2.0
  {
    if price > 0.0 { ReturnsIff(price, szDecimals); }
  }

  /** When the code returns a price at all. */
  lemma ReturnsIff(price: real, szDecimals: int)
    requires price > 0.0
    ensures RoundPrice(price, szDecimals).Price? <==> SigRounded(price) >= PlaceQuantum(szDecimals) / 2.0
  {
    var q, e := PlaceQuantum(szDecimals), Adjusted(price);
    var s1 := SigRounded(price);
    var n := HalfUpUnits(s1, q);
    GridOrder(0, n, q);
    GridOrder(1, n, q);
    assert Grid(0, q) == 0.0 && Grid(1, q) == q;
    SigInDecade(price);
    var integer := HalfUp(price, 1.0);
    if integer > 0.0 {
      GridOrder(1, HalfUpUnits(price, 1.0), 1.0);
      assert price >= 0.5;
      IntegerGrid();
      if MaxPlaces(szDecimals) > 0 { Pow10Monotone(-MaxPlaces(szDecimals), 0); }
      if e >= 0 {
        if e > 0 { Pow10Monotone(0, e); }
      } else {
        Pow10Step(-1);
        assert 0.5 == Grid(5, Pow10(-1));
        GridRefine(0.5, e - 4, -1);
        HalfUpFence(price, 0.5, SigQuantum(price));
      }
    }
  }

  /** Every returned price is acceptable to the exchange. */
  lemma ResultValid(price: real, szDecimals: int)
    requires RoundPrice(price, szDecimals).Price?
    ensures ValidPrice(RoundPrice(price, szDecimals).value, szDecimals)
  {
    var q := PlaceQuantum(szDecimals);
    if SigStepCoarser(price, szDecimals) {
      if Adjusted(price) <= 4 {
        CoarseSmall(price, szDecimals);
        CoarseSig(price, szDecimals);
        SigFiveFigures(price);
      } else {
        CoarseLarge(price, szDecimals);
        IntegerOnPlaceGrid(RoundPrice(price, szDecimals).value, szDecimals);
      }
    } else if LiftedToMidpoint(price, szDecimals) {
      var k := PlacesBelow(price, szDecimals);
      FineLifted(price, szDecimals);
      LiftedCandidate(price, szDecimals);
      GridOrder(k, k + 1, q);
      if k >= 1 { FineFiveFigures(price, szDecimals, k); }
      FineFiveFigures(price, szDecimals, k + 1);
    } else {
      FineUnlifted(price, szDecimals);
      var n := HalfUpUnits(SigRounded(price), q);
      GridOrder(n, 0, q);
      assert Grid(0, q) == 0.0;
      FineFiveFigures(price, szDecimals, n);
    }
  }

  /** The documented "nearest valid price" holds on exactly the inputs that are not double-rounded. */
  lemma NearestIff(price: real, szDecimals: int)
    requires RoundPrice(price, szDecimals).Price?
    ensures NearestValid(price, RoundPrice(price, szDecimals).value, szDecimals)
            <==> !DoubleRoundedUp(price, szDecimals)
  {
    var r := RoundPrice(price, szDecimals).value;
    var q, k := PlaceQuantum(szDecimals), PlacesBelow(price, szDecimals);
    ResultValid(price, szDecimals);
    if DoubleRoundedUp(price, szDecimals) {
      FineLifted(price, szDecimals);
      LiftedCandidate(price, szDecimals);
      assert Grid(k + 1, q) == Grid(k, q) + q;
      FineFiveFigures(price, szDecimals, k);
      assert Abs(price - Grid(k, q)) < Abs(price - r);
    } else {
      forall v | ValidPrice(v, szDecimals)
        ensures Abs(price - r) <= Abs(price - v)
      {
        NearestUnlessDouble(price, szDecimals, v);
      }
    }
  }

  lemma NearestUnlessDouble(price: real, szDecimals: int, v: real)
    requires RoundPrice(price, szDecimals).Price? && !DoubleRoundedUp(price, szDecimals)
    requires ValidPrice(v, szDecimals)
    ensures Abs(price - RoundPrice(price, szDecimals).value) <= Abs(price - v)
  {
    var q, k := PlaceQuantum(szDecimals), PlacesBelow(price, szDecimals);
    if SigStepCoarser(price, szDecimals) {
      CoarseNearest(price, szDecimals, v);
    } else if LiftedToMidpoint(price, szDecimals) {
      FineLifted(price, szDecimals);
      var m :| v == Grid(m, q);
      assert Grid(k + 1, q) == Grid(k, q) + q;
      GridOrder(0, m, q);
      assert Grid(0, q) == 0.0;
      if m > k { GridOrder(k + 1, m, q); } else if m < k { GridOrder(m, k, q); }
    } else {
      FineUnlifted(price, szDecimals);
      HalfUpNearest(price, v, q);
    }
  }

  /** Rounding once suffices: with a coarse significant-figure step the result is always nearest. */
  lemma NearestWhenCoarse(price: real, szDecimals: int)
    requires price > 0.0 && SigStepCoarser(price, szDecimals)
    ensures RoundPrice(price, szDecimals).Price?
    ensures NearestValid(price, RoundPrice(price, szDecimals).value, szDecimals)
  {
    if Adjusted(price) <= 4 { CoarseSmall(price, szDecimals); } else { CoarseLarge(price, szDecimals); }
    NearestIff(price, szDecimals);
  }

  /** The two rounding stages together err by at most half of each quantum. */
  lemma ErrorBound(price: real, szDecimals: int)
    requires RoundPrice(price, szDecimals).Price?
    ensures Abs(price - RoundPrice(price, szDecimals).value)
            <= (SigQuantum(price) + PlaceQuantum(szDecimals)) / 2.0
  {
    assert Abs(price - SigRounded(price)) <= SigQuantum(price) / 2.0;
    assert Abs(SigRounded(price) - SigCandidate(price, szDecimals)) <= PlaceQuantum(szDecimals) / 2.0;
  }

  /** The prices that rounding leaves alone are exactly the valid ones; hence rounding is idempotent. */
  lemma FixedIffValid(v: real, szDecimals: int)
    ensures RoundPrice(v, szDecimals) == Price(v) <==> ValidPrice(v, szDecimals)
  {
    var q := PlaceQuantum(szDecimals);
    if RoundPrice(v, szDecimals) == Price(v) {
      ResultValid(v, szDecimals);
    }
    if ValidPrice(v, szDecimals) {
      var m :| v == Grid(m, q);
      GridOrder(0, m, q);
      assert Grid(0, q) == 0.0;
      GridOrder(1, m, q);
      assert Grid(1, q) == q;
      if SigStepCoarser(v, szDecimals) {
        CoarseNearest(v, szDecimals, v);
      } else {
        GridRefine(v, Adjusted(v) - 4, -MaxPlaces(szDecimals));
        HalfUpKeeps(v, SigQuantum(v));
        ReturnsIff(v, szDecimals);
        NearestUnlessDouble(v, szDecimals, v);
      }
    }
  }

  lemma Idempotent(price: real, szDecimals: int)
    requires RoundPrice(price, szDecimals).Price?
    ensures RoundPrice(RoundPrice(price, szDecimals).value, szDecimals) == RoundPrice(price, szDecimals)
  {
    ResultValid(price, szDecimals);
    FixedIffValid(RoundPrice(price, szDecimals).value, szDecimals);
  }

  // ----- order preservation -----

  lemma IntegerFence(price: real, j: int)
    requires HalfUp(price, 1.0) > 0.0
    ensures price < Pow10(j) ==> HalfUp(price, 1.0) <= Pow10(j)
    ensures Pow10(j) <= price ==> Pow10(j) <= HalfUp(price, 1.0)
  {
    var n := HalfUpUnits(price, 1.0);
    GridOrder(1, n, 1.0);
    GridProduct(n, 1.0);
    IntegerGrid();
    if j >= 0 {
      PowerOnGrid(0, j);
      HalfUpFence(price, Pow10(j), 1.0);
    } else {
      Pow10Monotone(j, 0);
    }
  }

  /** A power of ten that the place grid contains is never crossed. */
  lemma DecadeFence(price: real, szDecimals: int, j: int)
    requires RoundPrice(price, szDecimals).Price? && j >= -MaxPlaces(szDecimals)
    ensures price < Pow10(j) ==> RoundPrice(price, szDecimals).value <= Pow10(j)
    ensures Pow10(j) <= price ==> Pow10(j) <= RoundPrice(price, szDecimals).value
  {
    var e, q, d := Adjusted(price), PlaceQuantum(szDecimals), Pow10(j);
    SigInDecade(price);
    PowerOnGrid(-MaxPlaces(szDecimals), j);
    HalfUpFence(SigRounded(price), d, q);
    if price < d {
      if e >= j { if e > j { Pow10Monotone(j, e); } assert false; }
      if e + 1 < j { Pow10Monotone(e + 1, j); }
    } else {
      if e < j { if e + 1 < j { Pow10Monotone(e + 1, j); } assert false; }
      if j < e { Pow10Monotone(j, e); }
    }
    if HalfUp(price, 1.0) > 0.0 { IntegerFence(price, j); }
  }

  /** Choosing nearest points of one fixed grid preserves order, however ties are broken. */
  lemma NearestChoiceMonotone(x: real, y: real, rx: real, ry: real)
    requires x < y && Abs(x - rx) <= Abs(x - ry) && Abs(y - ry) <= Abs(y - rx)
    ensures rx <= ry
  {
  }

  lemma MonotoneCoarse(x: real, y: real, szDecimals: int)
    requires 0.0 < x < y && Adjusted(x) == Adjusted(y) && SigStepCoarser(x, szDecimals)
    requires RoundPrice(x, szDecimals).Price? && RoundPrice(y, szDecimals).Price?
    ensures RoundPrice(x, szDecimals).value <= RoundPrice(y, szDecimals).value
  {
    if Adjusted(x) <= 4 {
      CoarseSmall(x, szDecimals);
      CoarseSmall(y, szDecimals);
      HalfUpMonotone(x, y, SigQuantum(x));
    } else {
      CoarseLarge(x, szDecimals);
      CoarseLarge(y, szDecimals);
      NearestChoiceMonotone(x, y, RoundPrice(x, szDecimals).value, RoundPrice(y, szDecimals).value);
    }
  }

  lemma CandidateMonotone(x: real, y: real, szDecimals: int)
    requires 0.0 < x < y && Adjusted(x) == Adjusted(y)
    ensures SigRounded(x) <= SigRounded(y)
    ensures SigCandidate(x, szDecimals) <= SigCandidate(y, szDecimals)
  {
    HalfUpMonotone(x, y, SigQuantum(x));
    HalfUpMonotone(SigRounded(x), SigRounded(y), PlaceQuantum(szDecimals));
  }

  /** A first-stage value below a midpoint rounds to the multiple under it or lower. */
  lemma BelowMidpoint(s: real, k: int, q: real)
    requires q > 0.0 && s < Grid(k, q) + q / 2.0
    ensures HalfUp(s, q) <= Grid(k, q)
  {
    var n := HalfUpUnits(s, q);
    GridStep(k, q);
    GridOrder(n, k + 1, q);
    GridOrder(n, k, q);
  }

  lemma MonotoneFine(x: real, y: real, szDecimals: int)
    requires 0.0 < x < y && Adjusted(x) == Adjusted(y) && !SigStepCoarser(x, szDecimals)
    requires RoundPrice(x, szDecimals).Price? && RoundPrice(y, szDecimals).Price?
    ensures RoundPrice(x, szDecimals).value <= RoundPrice(y, szDecimals).value
  {
    CandidateMonotone(x, y, szDecimals);
    FineAtMostCandidate(x, szDecimals);
    FineAtMostCandidate(y, szDecimals);
    if RoundPrice(y, szDecimals).value != SigCandidate(y, szDecimals) {
      if SigRounded(x) < SigRounded(y) {
        BelowMidpoint(SigRounded(x), PlacesBelow(y, szDecimals), PlaceQuantum(szDecimals));
      } else {
        FineLifted(y, szDecimals);
        FineLifted(x, szDecimals);
      }
    }
  }

  lemma MonotoneInDecade(x: real, y: real, szDecimals: int)
    requires 0.0 < x < y && Adjusted(x) == Adjusted(y)
    requires RoundPrice(x, szDecimals).Price? && RoundPrice(y, szDecimals).Price?
    ensures RoundPrice(x, szDecimals).value <= RoundPrice(y, szDecimals).value
  {
    if SigStepCoarser(x, szDecimals) { MonotoneCoarse(x, y, szDecimals); } else { MonotoneFine(x, y, szDecimals); }
  }

  /** In the fine region the result is the candidate, or (a lifted price) the multiple below it. */
  lemma FineAtMostCandidate(price: real, szDecimals: int)
    requires RoundPrice(price, szDecimals).Price? && !SigStepCoarser(price, szDecimals)
    ensures RoundPrice(price, szDecimals).value <= SigCandidate(price, szDecimals)
    ensures RoundPrice(price, szDecimals).value != SigCandidate(price, szDecimals)
            ==> LiftedToMidpoint(price, szDecimals)
                && RoundPrice(price, szDecimals).value == Grid(PlacesBelow(price, szDecimals), PlaceQuantum(szDecimals))
  {
    var q, k := PlaceQuantum(szDecimals), PlacesBelow(price, szDecimals);
    if LiftedToMidpoint(price, szDecimals) {
      FineLifted(price, szDecimals);
      LiftedCandidate(price, szDecimals);
      GridOrder(k, k + 1, q);
    } else {
      FineUnlifted(price, szDecimals);
    }
  }

  lemma AdjustedMonotone(x: real, y: real)
    requires 0.0 < x <= y
    ensures Adjusted(x) <= Adjusted(y)
  {
    var ex, ey := Adjusted(x), Adjusted(y);
    if ex > ey && ey + 1 < ex { Pow10Monotone(ey + 1, ex); }
  }

  lemma MonotoneAcrossDecades(x: real, y: real, szDecimals: int)
    requires 0.0 < x < y && Adjusted(x) < Adjusted(y)
    requires RoundPrice(x, szDecimals).Price? && RoundPrice(y, szDecimals).Price?
    ensures RoundPrice(x, szDecimals).value <= RoundPrice(y, szDecimals).value
  {
    var j := Adjusted(x) + 1;
    if j < Adjusted(y) { Pow10Monotone(j, Adjusted(y)); }
    PlaceGridReachesDecade(x, szDecimals);
    DecadeFence(x, szDecimals, j);
    DecadeFence(y, szDecimals, j);
  }

  /** A price more than a decade below the place quantum is rejected, never rounded. */
  lemma PlaceGridReachesDecade(x: real, szDecimals: int)
    requires RoundPrice(x, szDecimals).Price?
    ensures Adjusted(x) + 1 >= -MaxPlaces(szDecimals)
  {
    SigInDecade(x);
    ReturnsIff(x, szDecimals);
    if Adjusted(x) + 1 < -MaxPlaces(szDecimals) {
      Pow10Monotone(Adjusted(x) + 1, -MaxPlaces(szDecimals));
    }
  }

  /** Rounding preserves the order of prices, across decades and both rounding stages. */
  lemma Monotone(x: real, y: real, szDecimals: int)
    requires x <= y
    requires RoundPrice(x, szDecimals).Price? && RoundPrice(y, szDecimals).Price?
    ensures RoundPrice(x, szDecimals).value <= RoundPrice(y, szDecimals).value
  {
    if x < y {
      AdjustedMonotone(x, y);
      if Adjusted(x) == Adjusted(y) {
        MonotoneInDecade(x, y, szDecimals);
      } else {
        MonotoneAcrossDecades(x, y, szDecimals);
      }
    }
  }

  /** A larger price is never rejected when a smaller one is accepted. */
  lemma ReturnsMonotone(x: real, y: real, szDecimals: int)
    requires x <= y && RoundPrice(x, szDecimals).Price?
    ensures RoundPrice(y, szDecimals).Price?
  {
    var q, P := PlaceQuantum(szDecimals), MaxPlaces(szDecimals);
    var ex, ey := Adjusted(x), Adjusted(y);
    ReturnsIff(x, szDecimals);
    ReturnsIff(y, szDecimals);
    SigInDecade(x);
    SigInDecade(y);
    if ex == ey {
      HalfUpMonotone(x, y, SigQuantum(x));
    } else if ex > ey {
      if ey + 1 < ex { Pow10Monotone(ey + 1, ex); }
    } else if ex + 1 < ey {
      Pow10Monotone(ex + 1, ey);
    }
  }

  /** With non-negative slippage a buy limit is never below the rounded mark, a sell limit never above. */
  lemma IocLimitSide(mark: real, slippageBps: int, szDecimals: int)
    requires slippageBps >= 0 && RoundPrice(mark, szDecimals).Price?
    ensures IocLimit(mark, slippageBps, true, szDecimals).Price?
    ensures RoundPrice(mark, szDecimals).value <= IocLimit(mark, slippageBps, true, szDecimals).value
    ensures IocLimit(mark, slippageBps, false, szDecimals).Price?
            ==> IocLimit(mark, slippageBps, false, szDecimals).value <= RoundPrice(mark, szDecimals).value
  {
    NotBelow(mark, AggressivePrice(mark, slippageBps, true), szDecimals);
    if IocLimit(mark, slippageBps, false, szDecimals).Price? {
      Monotone(AggressivePrice(mark, slippageBps, false), mark, szDecimals);
    }
  }

  lemma NotBelow(x: real, y: real, szDecimals: int)
    requires x <= y && RoundPrice(x, szDecimals).Price?
    ensures RoundPrice(y, szDecimals).Price?
    ensures RoundPrice(x, szDecimals).value <= RoundPrice(y, szDecimals).value
  {
    ReturnsMonotone(x, y, szDecimals);
    Monotone(x, y, szDecimals);
  }

  /** The documented "nearest" is not what double rounding computes: 0.000004499999 becomes 0.000005. */
  lemma DoubleRoundingExample()
    ensures RoundPrice(0.000004499999, 0) == Price(0.000005)
    ensures !NearestValid(0.000004499999, 0.000005, 0)
  {
    var x := 0.000004499999;
    DecadeExample(x);
    var s1 := SigRounded(x);
    GridProduct(45000, Pow10(-10));
    GridStep(45000, Pow10(-10));
    FloorUnique(x + Pow10(-10) / 2.0, Pow10(-10), 45000);
    assert s1 == 0.0000045;
    FloorUnique(s1, Pow10(-6), 4);
    assert PlacesBelow(x, 0) == 4;
    FloorUnique(Grid(4, Pow10(-6)) + 0.5, 1.0, 0);
    assert DoubleRoundedUp(x, 0);
    FineLifted(x, 0);
    NearestIff(x, 0);
  }

  lemma DecadeExample(x: real)
    requires x == 0.000004499999
    ensures Adjusted(x) == -6
    ensures Pow10(-6) == 0.000001 && Pow10(-10) == 0.0000000001
  {
    Pow10Step(-1); Pow10Step(-2); Pow10Step(-3); Pow10Step(-4); Pow10Step(-5);
    Pow10Step(-6); Pow10Step(-7); Pow10Step(-8); Pow10Step(-9); Pow10Step(-10);
    var e := Adjusted(x);
    if e < -6 { if e + 1 < -6 { Pow10Monotone(e + 1, -6); } assert false; }
    if e > -6 { if e > -5 { Pow10Monotone(-5, e); } assert false; }
  }
}
