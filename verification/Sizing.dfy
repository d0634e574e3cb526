/**
 Position targeting (`engine/sizing.py`): where the follower should be, minus where they are,
 as one or two executable legs; and the drift classifier of `engine/reconcile.py`.
 */
module Sizing {
  import opened Decimals

  datatype OrderIntent = Open | Reduce | Close | Reverse | NoOrder

  datatype SkipReason = AlreadyOnTarget | DeltaRoundsToZero | UnderMinimumNotional

  /** A quantized order size: `places` is the precision its decimal exponent carries. */
  datatype LotSize = LotSize(lots: int, places: int) {
    function Value(): real {
      Grid(lots, Lot(places))
    }

    /** Size times price, as lots times the worth of one lot; see `WorthIsSizeTimesPrice`. */
    function Worth(price: real): real {
      Grid(lots, LotWorth(places, price))
    }
  }

  datatype AssetSpec = AssetSpec(szDecimals: int, minNotional: real)

  datatype MasterExposure = MasterExposure(asset: string, positionSize: real, markPrice: real, eligibleEquity: real) {
    function Notional(): real {
      Abs(positionSize) * markPrice
    }

    function ExposureRatio(): real {
      if eligibleEquity <= 0.0 then 0.0
      else (if positionSize >= 0.0 then 1.0 else -1.0) * Notional() / eligibleEquity
    }
  }

  datatype FollowerState = FollowerState(accountValue: real, marginUsedUnmanaged: real, currentSize: real, multiplier: real) {
    function EligibleEquity(): real {
      Max(accountValue - marginUsedUnmanaged, 0.0)
    }
  }

  datatype SizingResult = SizingResult(
    asset: string,
    intent: OrderIntent,
    targetSize: real,
    currentSize: real,
    delta: real,
    orderSize: LotSize,
    isBuy: bool,
    reduceOnly: bool,
    notional: real,
    reason: Option<SkipReason>,
    secondary: Option<SizingResult>)
  {
    predicate Actionable() {
      orderSize.lots > 0 && intent != NoOrder
    }

    /** The position reached from `position` when `amount` of this leg fills. */
    function After(position: real, amount: real): real {
      if isBuy then position + amount else position - amount
    }
  }

  /** What a follower is steered to: the target and the market constraints it must respect. */
  datatype Goal = Goal(asset: string, target: real, price: real, szDecimals: int, floor: real) {
    function LotUnit(): (q: real)
      ensures q > 0.0
    {
      Lot(szDecimals)
    }
  }

  /** The smallest tradable size at a given precision. */
  function Lot(places: int): (q: real)
    ensures q > 0.0
  {
    Pow10(-places)
  }

  /** The worth of one lot. */
  function LotWorth(places: int, price: real): real {
    Lot(places) * price
  }

  lemma WorthIsSizeTimesPrice(s: LotSize, price: real)
    ensures s.Worth(price) == s.Value() * price
  {
    GridTimes(s.lots, Lot(s.places), price, LotWorth(s.places, price));
  }

  // ----- the code -----

  /** Truncation toward zero to a whole number of lots; the bounds determine the result. */
  function RoundSize(size: real, szDecimals: int): (r: LotSize)
    ensures r.places == szDecimals && r.lots >= 0
    ensures r.Value() <= Abs(size) < r.Value() + Lot(szDecimals)
    ensures Abs(size) < Lot(szDecimals) <==> r.lots == 0
  {
    var q := Lot(szDecimals);
    var n := FloorUnits(Abs(size), q);
    GridOrder(0, n + 1, q);
    GridOrder(1, n, q);
    GridOrder(n + 1, 1, q);
    GridStep(n, q);
    LotSize(n, szDecimals)
  }

  function ComputeTarget(master: MasterExposure, follower: FollowerState, followerMark: real): real {
    if master.markPrice <= 0.0 || followerMark <= 0.0 || follower.EligibleEquity() <= 0.0 then 0.0
    else master.ExposureRatio() * follower.EligibleEquity() * follower.multiplier / followerMark
  }

  function Classify(target: real, current: real): OrderIntent {
    if target == current then NoOrder
    else if current == 0.0 then Open
    else if target == 0.0 then Close
    else if (target > 0.0) != (current > 0.0) then Reverse
    else if Abs(target) > Abs(current) then Open else Reduce
  }

  /** The goal that master and follower state determine. */
  function GoalFor(master: MasterExposure, follower: FollowerState, spec: AssetSpec,
                   minNotional: real, followerMark: Option<real>): Goal
  {
    var price := if followerMark.Some? then followerMark.value else master.markPrice;
    Goal(master.asset, ComputeTarget(master, follower, price), price, spec.szDecimals, Max(minNotional, spec.minNotional))
  }

  /** `plan`: the goal, minus the current position, as executable legs. */
  function Plan(goal: Goal, current: real): SizingResult {
    var delta := goal.target - current;
    var intent := Classify(goal.target, current);
    if intent == NoOrder then
      SizingResult(goal.asset, NoOrder, goal.target, current, 0.0, LotSize(0, 0), false, false, 0.0, Some(AlreadyOnTarget), None)
    else if intent == Reverse then
      PlanReversal(goal, current)
    else
      var reduceOnly := intent == Reduce || intent == Close;
      var rounded := RoundSize(delta, goal.szDecimals);
      var orderSize :=
        if reduceOnly && rounded.Value() > Abs(current) then RoundSize(Abs(current), goal.szDecimals) else rounded;
      var notional := orderSize.Worth(goal.price);
      if orderSize.lots <= 0 then
        SizingResult(goal.asset, NoOrder, goal.target, current, delta, LotSize(0, 0), delta > 0.0, reduceOnly, 0.0,
                     Some(DeltaRoundsToZero), None)
      else if notional < goal.floor then
        SizingResult(goal.asset, NoOrder, goal.target, current, delta, LotSize(0, 0), delta > 0.0, reduceOnly, notional,
                     Some(UnderMinimumNotional), None)
      else
        SizingResult(goal.asset, intent, goal.target, current, delta, orderSize, delta > 0.0, reduceOnly, notional, None, None)
  }

  /** A sign change as close-then-open. */
  function PlanReversal(goal: Goal, current: real): SizingResult {
    var closeSize := RoundSize(Abs(current), goal.szDecimals);
    var openSize := RoundSize(Abs(goal.target), goal.szDecimals);
    var secondary :=
      if openSize.lots > 0 && openSize.Worth(goal.price) >= goal.floor then
        Some(SizingResult(goal.asset, Open, goal.target, 0.0, goal.target, openSize, goal.target > 0.0, false,
                          openSize.Worth(goal.price), None, None))
      else None;
    SizingResult(goal.asset, Reverse, goal.target, current, goal.target - current, closeSize, current < 0.0, true,
                 closeSize.Worth(goal.price), None, secondary)
  }

  // ----- what a plan means -----

  /** `x` lies on the segment from `a` to `b`. */
  predicate Between(a: real, x: real, b: real) {
    a <= x <= b || b <= x <= a
  }

  /**
   The target gives the follower, per unit of eligible equity and times the multiplier, the signed notional that
   the master holds per unit of its own; without prices or equity on either side it is flat. The goal carries the
   follower's mark, falling back to the master's, and the larger of the two minimums.
   */
  lemma TargetReproducesRatio(master: MasterExposure, follower: FollowerState, spec: AssetSpec,
                              minNotional: real, followerMark: Option<real>)
    ensures var goal := GoalFor(master, follower, spec, minNotional, followerMark);
            var equity := follower.accountValue - follower.marginUsedUnmanaged;
            && (if master.markPrice > 0.0 && goal.price > 0.0 && master.eligibleEquity > 0.0 && equity > 0.0 then
                  goal.target * goal.price * master.eligibleEquity
                  == master.positionSize * master.markPrice * equity * follower.multiplier
                else goal.target == 0.0)
            && goal.asset == master.asset && goal.szDecimals == spec.szDecimals
            && (followerMark.Some? ==> goal.price == followerMark.value)
            && (followerMark.None? ==> goal.price == master.markPrice)
            && goal.floor >= minNotional && goal.floor >= spec.minNotional
            && (goal.floor == minNotional || goal.floor == spec.minNotional)
  {
    var goal := GoalFor(master, follower, spec, minNotional, followerMark);
    var equity := follower.accountValue - follower.marginUsedUnmanaged;
    if master.markPrice > 0.0 && goal.price > 0.0 && equity > 0.0 {
      var ratio := master.ExposureRatio();
      if master.eligibleEquity > 0.0 {
        RatioTimesEquity(master);
        TargetAlgebra(ratio, master.eligibleEquity, equity, follower.multiplier, goal.price,
                      master.positionSize * master.markPrice);
      } else {
        assert ratio * equity * follower.multiplier == 0.0;
      }
    }
  }

  lemma RatioTimesEquity(master: MasterExposure)
    requires master.eligibleEquity > 0.0
    ensures master.ExposureRatio() * master.eligibleEquity == master.positionSize * master.markPrice
  {
    var x := (if master.positionSize >= 0.0 then 1.0 else -1.0) * master.Notional();
    QuotientTimes(x, master.eligibleEquity);
    assert x == master.positionSize * master.markPrice;
  }

  lemma TargetAlgebra(ratio: real, masterEquity: real, equity: real, multiplier: real, mark: real, notional: real)
    requires masterEquity > 0.0 && mark > 0.0 && ratio * masterEquity == notional
    ensures ratio * equity * multiplier / mark * mark * masterEquity == notional * equity * multiplier
  {
    QuotientTimes(ratio * equity * multiplier, mark);
    ProductSwap(ratio * equity, multiplier, masterEquity);
    ProductSwap(ratio, equity, masterEquity);
  }

  lemma QuotientTimes(x: real, d: real)
    requires d > 0.0
    ensures x / d * d == x
  {
  }

  lemma ProductSwap(a: real, b: real, c: real)
    ensures a * b * c == a * c * b
  {
  }

  lemma LotsPositive(s: LotSize)
    ensures s.lots > 0 <==> s.Value() > 0.0
    ensures s.lots > 0 ==> s.Value() >= Lot(s.places)
  {
    GridOrder(0, s.lots, Lot(s.places));
    GridOrder(1, s.lots, Lot(s.places));
  }

  /**
   The geometry of every plan: each leg points at the target, a reduce-only leg cannot pass zero,
   and the legs together cannot pass the target.
   */
  lemma PlanGeometry(goal: Goal, current: real)
    ensures var p := Plan(goal, current);
            && p.orderSize.lots >= 0
            && (p.secondary.Some? ==> p.intent == Reverse && !p.secondary.value.reduceOnly
                                      && p.secondary.value.intent == Open && p.secondary.value.secondary.None?
                                      && p.secondary.value.orderSize.places == goal.szDecimals)
            && (p.Actionable() ==>
                && p.orderSize.places == goal.szDecimals
                && (p.isBuy <==> goal.target > current)
                && p.orderSize.Value() <= Abs(goal.target - current)
                && (p.intent == Reverse ==> p.reduceOnly)
                && (p.reduceOnly ==> p.orderSize.Value() <= Abs(current) && (p.isBuy <==> current < 0.0))
                && (p.secondary.Some? ==>
                    && p.secondary.value.orderSize.lots > 0
                    && p.secondary.value.isBuy == p.isBuy
                    && p.orderSize.Value() + p.secondary.value.orderSize.Value() <= Abs(goal.target - current)))
  {
  }

  /** A plan is reduce-only exactly when its target is not beyond the current position, seen from zero. */
  predicate Shrinks(target: real, current: real) {
    target != current && ((current > 0.0 && target < current) || (current < 0.0 && target > current))
  }

  /** What a plan records besides its legs, and why it is idle when it is. */
  lemma PlanRecords(goal: Goal, current: real)
    ensures var p := Plan(goal, current);
            && p.asset == goal.asset && p.targetSize == goal.target && p.currentSize == current
            && p.delta == goal.target - current
            && (p.reduceOnly <==> Shrinks(goal.target, current))
            && (p.intent == Reverse <==> goal.target * current < 0.0)
            && (p.reason == Some(AlreadyOnTarget) <==> goal.target == current)
            && (p.reason == Some(DeltaRoundsToZero) ==> Abs(goal.target - current) < goal.LotUnit())
            && (p.reason == Some(UnderMinimumNotional) ==> p.notional < goal.floor)
            && (p.Actionable() ==> p.reason.None? && p.notional == p.orderSize.Worth(goal.price))
            && (p.secondary.Some? ==>
                p.secondary.value == SizingResult(goal.asset, Open, goal.target, 0.0, goal.target, p.secondary.value.orderSize,
                                                  goal.target > 0.0, false, p.secondary.value.orderSize.Worth(goal.price), None, None))
  {
    SignOfProduct(goal.target, current);
  }

  lemma SignOfProduct(x: real, y: real)
    ensures x * y < 0.0 <==> (x > 0.0 && y < 0.0) || (x < 0.0 && y > 0.0)
  {
    if x > 0.0 && y > 0.0 { assert x * y > 0.0; }
    if x < 0.0 && y < 0.0 { assert x * y > 0.0; }
    if x > 0.0 && y < 0.0 { assert x * (-y) > 0.0; }
    if x < 0.0 && y > 0.0 { assert (-x) * y > 0.0; }
  }

  /** A lot is one unit in the last decimal place. */
  lemma LotIsDecimal(places: int)
    ensures places >= 0 ==> Lot(places) * Pow10Int(places) as real == 1.0
    ensures places < 0 ==> Lot(places) == Pow10Int(-places) as real
  {
    if places >= 0 { Pow10Reciprocal(places); } else { Pow10IsInt(-places); }
  }

  /**
   Exactly when a plan sends something: the distance to target holds a lot and the truncated order is
   worth the minimum; for a reversal, the position to flatten holds a lot, whatever it is worth.
   */
  lemma PlanActsIff(goal: Goal, current: real)
    ensures Classify(goal.target, current) != Reverse ==>
              (Plan(goal, current).Actionable() <==>
               && Abs(goal.target - current) >= goal.LotUnit()
               && RoundSize(goal.target - current, goal.szDecimals).Worth(goal.price) >= goal.floor)
    ensures Classify(goal.target, current) == Reverse ==>
              && (Plan(goal, current).Actionable() <==> Abs(current) >= goal.LotUnit())
              && (Plan(goal, current).secondary.Some? <==>
                  && Abs(goal.target) >= goal.LotUnit()
                  && RoundSize(goal.target, goal.szDecimals).Worth(goal.price) >= goal.floor)
  {
    if Classify(goal.target, current) == Reverse {
      assert Abs(Abs(goal.target)) == Abs(goal.target);
    } else {
      assert Classify(goal.target, current) == Reduce || Classify(goal.target, current) == Close
             ==> RoundSize(goal.target - current, goal.szDecimals).Value() <= Abs(current);
    }
  }

  // ----- idempotence of targeting -----

  /** The position after every leg of the plan fills completely. */
  function FullyFilled(goal: Goal, current: real): real {
    var p := Plan(goal, current);
    if !p.Actionable() then current
    else
      var first := p.After(current, p.orderSize.Value());
      if p.secondary.Some? then p.secondary.value.After(first, p.secondary.value.orderSize.Value()) else first
  }

  /** The part of a size that truncation to whole lots drops. */
  function Dust(size: real, szDecimals: int): (d: real)
    ensures 0.0 <= d < Lot(szDecimals)
  {
    Abs(size) - RoundSize(size, szDecimals).Value()
  }

  /** The inputs on which filling a whole plan still leaves work: a reversal whose two dropped parts make up a lot. */
  predicate DustReopens(goal: Goal, current: real) {
    && Plan(goal, current).Actionable() && Plan(goal, current).secondary.Some?
    && Dust(current, goal.szDecimals) + Dust(goal.target, goal.szDecimals) >= goal.LotUnit()
    && goal.LotUnit() * goal.price >= goal.floor
  }

  lemma RoundsToOneLot(size: real, szDecimals: int)
    requires Lot(szDecimals) <= Abs(size) < Lot(szDecimals) + Lot(szDecimals)
    ensures RoundSize(size, szDecimals) == LotSize(1, szDecimals)
    ensures RoundSize(size, szDecimals).Value() == Lot(szDecimals)
  {
    var q := Lot(szDecimals);
    GridStep(0, q);
    GridStep(1, q);
    FloorUnique(Abs(size), q, 1);
  }

  /** Replanning from less than one lot off target, on the target's side or flat, does nothing. */
  lemma WithinALotIsQuiet(goal: Goal, x: real)
    requires Abs(goal.target - x) < goal.LotUnit()
    requires Classify(goal.target, x) != Reverse
    ensures !Plan(goal, x).Actionable()
  {
  }

  /** Where a completely filled plan ends: within a lot of the target, except for a reversal. */
  lemma FilledOneSided(goal: Goal, current: real)
    requires Plan(goal, current).Actionable() && Classify(goal.target, current) != Reverse
    ensures Abs(goal.target - FullyFilled(goal, current)) < goal.LotUnit()
    ensures Classify(goal.target, FullyFilled(goal, current)) != Reverse
  {
    LotsPositive(Plan(goal, current).orderSize);
  }

  /** A reversal with both legs ends on the target's side, short of it by the two dropped parts. */
  lemma FilledReversal(goal: Goal, current: real)
    requires Classify(goal.target, current) == Reverse
    requires Plan(goal, current).Actionable() && Plan(goal, current).secondary.Some?
    ensures var x, d := FullyFilled(goal, current), goal.szDecimals;
            && Abs(goal.target - x) == Dust(current, d) + Dust(goal.target, d)
            && Classify(goal.target, x) == (if x == goal.target then NoOrder else Open)
  {
    LotsPositive(Plan(goal, current).secondary.value.orderSize);
  }

  /** A reversal whose second leg is too small ends on the dropped part of the closed position. */
  lemma FilledCloseOnly(goal: Goal, current: real)
    requires Classify(goal.target, current) == Reverse
    requires Plan(goal, current).Actionable() && Plan(goal, current).secondary.None?
    ensures Abs(FullyFilled(goal, current)) == Dust(current, goal.szDecimals)
    ensures !Plan(goal, FullyFilled(goal, current)).Actionable()
  {
  }

  lemma OneLotShort(goal: Goal, x: real)
    requires Classify(goal.target, x) == Open
    requires goal.LotUnit() <= Abs(goal.target - x) < goal.LotUnit() + goal.LotUnit()
    ensures Plan(goal, x).Actionable() <==> goal.LotUnit() * goal.price >= goal.floor
  {
    RoundsToOneLot(goal.target - x, goal.szDecimals);
  }

  lemma FixpointOneSided(goal: Goal, current: real)
    requires Plan(goal, current).Actionable() && Classify(goal.target, current) != Reverse
    ensures !Plan(goal, FullyFilled(goal, current)).Actionable()
  {
    FilledOneSided(goal, current);
    WithinALotIsQuiet(goal, FullyFilled(goal, current));
  }

  lemma FixpointReversal(goal: Goal, current: real)
    requires Classify(goal.target, current) == Reverse
    requires Plan(goal, current).Actionable() && Plan(goal, current).secondary.Some?
    ensures var d := goal.szDecimals;
            Plan(goal, FullyFilled(goal, current)).Actionable() <==>
            Dust(current, d) + Dust(goal.target, d) >= goal.LotUnit() && goal.LotUnit() * goal.price >= goal.floor
  {
    var x := FullyFilled(goal, current);
    FilledReversal(goal, current);
    if Abs(goal.target - x) < goal.LotUnit() { WithinALotIsQuiet(goal, x); } else { OneLotShort(goal, x); }
  }

  lemma FixpointIdle(goal: Goal, current: real)
    requires !Plan(goal, current).Actionable()
    ensures !Plan(goal, FullyFilled(goal, current)).Actionable()
  {
  }

  lemma SecondaryNeedsReversal(goal: Goal, current: real)
    ensures Plan(goal, current).secondary.Some? ==> Classify(goal.target, current) == Reverse
  {
  }

  lemma DustMeans(goal: Goal, current: real)
    ensures DustReopens(goal, current) <==>
            && Plan(goal, current).Actionable() && Plan(goal, current).secondary.Some?
            && Dust(current, goal.szDecimals) + Dust(goal.target, goal.szDecimals) >= goal.LotUnit()
            && goal.LotUnit() * goal.price >= goal.floor
  {
    hide Plan, Dust, Lot;
  }

  /** Replanning after a complete fill is not actionable, except for exactly the dust of a reversal. */
  lemma FullFillFixpoint(goal: Goal, current: real)
    ensures Plan(goal, FullyFilled(goal, current)).Actionable() <==> DustReopens(goal, current)
  {
    hide *;
    DustMeans(goal, current);
    SecondaryNeedsReversal(goal, current);
    if !Plan(goal, current).Actionable() {
      FixpointIdle(goal, current);
    } else if Classify(goal.target, current) != Reverse {
      FixpointOneSided(goal, current);
    } else if Plan(goal, current).secondary.None? {
      FilledCloseOnly(goal, current);
    } else {
      FixpointReversal(goal, current);
    }
  }

  /** A whole number of lots. */
  ghost predicate LotAligned(size: real, szDecimals: int) {
    OnGrid(Abs(size), Lot(szDecimals))
  }

  lemma AlignedHasNoDust(size: real, szDecimals: int)
    ensures LotAligned(size, szDecimals) <==> Dust(size, szDecimals) == 0.0
  {
    var q := Lot(szDecimals);
    if LotAligned(size, szDecimals) {
      var n :| Abs(size) == Grid(n, q);
      GridStep(n, q);
      FloorUnique(Abs(size), q, n);
    }
  }

  /** From a lot-aligned position, one complete fill is a fixpoint of targeting: the second pass sends nothing. */
  lemma AlignedFullFillIsFixpoint(goal: Goal, current: real)
    requires LotAligned(current, goal.szDecimals)
    ensures !Plan(goal, FullyFilled(goal, current)).Actionable()
  {
    AlignedHasNoDust(current, goal.szDecimals);
    FullFillFixpoint(goal, current);
  }

  /** A misaligned position can need a second pass: 1.5 lots reversed to -3.7 lots leaves 1.2 lots to do. */
  lemma MisalignedReversalReopens()
    ensures var goal := Goal("BTC", -3.7, 100.0, 0, 10.0);
            Plan(goal, 1.5).Actionable() && Plan(goal, FullyFilled(goal, 1.5)).Actionable()
  {
    var goal := Goal("BTC", -3.7, 100.0, 0, 10.0);
    assert goal.LotUnit() == 1.0;
    RoundsToOneLot(1.5, 0);
    assert Grid(3, 1.0) == 3.0 && Grid(4, 1.0) == 4.0;
    FloorUnique(3.7, 1.0, 3);
    assert DustReopens(goal, 1.5);
    FullFillFixpoint(goal, 1.5);
  }

  // ----- reconciliation -----

  datatype Discrepancy = Aligned | OverExposure | UnderExposure | OrphanPosition | SignFlip

  datatype ReconcileDecision = ReconcileDecision(kind: Discrepancy, driftPct: real, needsJob: bool)

  function Reconcile(actual: real, target: real, tolerancePct: real): ReconcileDecision {
    if actual == target then ReconcileDecision(Aligned, 0.0, false)
    else if target == 0.0 then ReconcileDecision(OrphanPosition, 100.0, actual != 0.0)
    else if actual != 0.0 && (actual > 0.0) != (target > 0.0) then ReconcileDecision(SignFlip, 100.0, true)
    else
      var drift := Abs(actual - target) / Max(Abs(target), 0.00000001) * 100.0;
      if drift <= tolerancePct then ReconcileDecision(Aligned, drift, false)
      else if Abs(actual) > Abs(target) then ReconcileDecision(OverExposure, drift, true)
      else ReconcileDecision(UnderExposure, drift, true)
  }

  /** Reconciliation and planning read a position the same way, up to the drift tolerance. */
  lemma ReconcileAgreesWithClassify(actual: real, target: real, tolerancePct: real)
    requires tolerancePct >= 0.0
    ensures var kind, intent := Reconcile(actual, target, tolerancePct).kind, Classify(target, actual);
            && (kind == SignFlip <==> intent == Reverse)
            && (kind == OrphanPosition <==> intent == Close)
            && (kind == OverExposure ==> intent == Reduce)
            && (kind == UnderExposure ==> intent == Open)
            && (Reconcile(actual, target, tolerancePct).needsJob <==> kind != Aligned)
            && (intent == Open || intent == Reduce ==>
                (kind == Aligned <==> Abs(actual - target) * 100.0 <= tolerancePct * Max(Abs(target), 0.00000001)))
            && (intent == NoOrder ==> kind == Aligned)
            && (intent == Open || intent == Reduce ==>
                Reconcile(actual, target, tolerancePct).driftPct * Max(Abs(target), 0.00000001) == Abs(actual - target) * 100.0)
            && (intent == Reverse || intent == Close ==> Reconcile(actual, target, tolerancePct).driftPct == 100.0)
  {
    DriftScale(Abs(actual - target), Max(Abs(target), 0.00000001), tolerancePct);
  }

  lemma DriftScale(d: real, base: real, tolerancePct: real)
    requires base > 0.0
    ensures d / base * 100.0 <= tolerancePct <==> d * 100.0 <= tolerancePct * base
  {
    var y := d / base;
    assert y * base == d;
    assert y * 100.0 * base == d * 100.0;
    MulCancel(y * 100.0, tolerancePct, base);
  }

  /**
   From an aligned position, a complete fill ends within a lot of the target and on its side; or flat, if it
   was a reversal whose opening leg is too small to send.
   */
  lemma FilledNearTarget(goal: Goal, current: real)
    requires Plan(goal, current).Actionable()
    requires LotAligned(current, goal.szDecimals)
    ensures var x := FullyFilled(goal, current);
            if Classify(goal.target, current) == Reverse && Plan(goal, current).secondary.None? then x == 0.0
            else Abs(goal.target - x) < goal.LotUnit() && Classify(goal.target, x) != Reverse && (goal.target == 0.0 ==> x == 0.0)
  {
    AlignedHasNoDust(current, goal.szDecimals);
    if Classify(goal.target, current) == Reverse && Plan(goal, current).secondary.None? {
      FilledCloseOnly(goal, current);
    } else if Classify(goal.target, current) == Reverse {
      FilledReversal(goal, current);
    } else {
      FilledOneSided(goal, current);
    }
    if goal.target == 0.0 { FilledFlat(goal, current); }
  }

  lemma FilledFlat(goal: Goal, current: real)
    requires goal.target == 0.0 && Plan(goal, current).Actionable() && Dust(current, goal.szDecimals) == 0.0
    ensures FullyFilled(goal, current) == 0.0
  {
  }

  /**
   Within a lot of the target and on its side, reconciliation stays quiet as soon as one lot is within
   the tolerance; with `FilledNearTarget` it never fights the planner's truncation.
   */
  lemma QuietNearTarget(x: real, target: real, q: real, tolerancePct: real)
    requires tolerancePct >= 0.0 && Abs(target - x) < q && Classify(target, x) != Reverse
    requires target == 0.0 ==> x == 0.0
    requires target == 0.0 || q * 100.0 <= tolerancePct * Abs(target)
    ensures !Reconcile(x, target, tolerancePct).needsJob
  {
    if target != 0.0 {
      DriftScale(Abs(x - target), Max(Abs(target), 0.00000001), tolerancePct);
      ToleranceCovers(q, tolerancePct, Abs(target), Max(Abs(target), 0.00000001));
    }
  }

  lemma ToleranceCovers(q: real, tolerancePct: real, a: real, b: real)
    requires tolerancePct >= 0.0 && a <= b && q * 100.0 <= tolerancePct * a
    ensures q * 100.0 <= tolerancePct * b
  {
    assert tolerancePct * (b - a) >= 0.0;
  }
}
