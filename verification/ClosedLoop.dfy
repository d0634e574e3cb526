/**
 The closed loop of planning, risk evaluation and execution: plan, evaluate, fill any part of what
 was approved, replan. The exchange may fill any fraction of every approved leg, a reversal's
 second leg included, and the risk context may be anything at every tick.
 */
module ClosedLoop {
  import opened Decimals
  import opened Sizing
  import opened Risk

  datatype Tick = Tick(ctx: RiskContext, firstFill: real, secondFill: real)

  function Decide(goal: Goal, current: real, ctx: RiskContext): RiskDecision {
    Evaluate(Plan(goal, current), ctx)
  }

  /** Fills are any part of the approved legs, and nothing else. */
  predicate LegalTick(goal: Goal, current: real, t: Tick) {
    var d := Decide(goal, current, t.ctx);
    && 0.0 <= t.firstFill <= (if d.Approved() then d.plan.orderSize.Value() else 0.0)
    && 0.0 <= t.secondFill <=
       (if d.Approved() && d.plan.secondary.Some? then d.plan.secondary.value.orderSize.Value() else 0.0)
  }

  function AfterTick(goal: Goal, current: real, t: Tick): real {
    var d := Decide(goal, current, t.ctx);
    var first := d.plan.After(current, t.firstFill);
    if d.plan.secondary.Some? then d.plan.secondary.value.After(first, t.secondFill) else first
  }

  predicate LegalRun(goal: Goal, current: real, ticks: seq<Tick>)
    decreases |ticks|
  {
    ticks == [] || (LegalTick(goal, current, ticks[0]) && LegalRun(goal, AfterTick(goal, current, ticks[0]), ticks[1..]))
  }

  function AfterRun(goal: Goal, current: real, ticks: seq<Tick>): real
    decreases |ticks|
  {
    if ticks == [] then current else AfterRun(goal, AfterTick(goal, current, ticks[0]), ticks[1..])
  }

  /** The ticks that filled at least one lot. */
  function Fills(goal: Goal, ticks: seq<Tick>): nat {
    if ticks == [] then 0
    else (if ticks[0].firstFill + ticks[0].secondFill >= goal.LotUnit() then 1 else 0) + Fills(goal, ticks[1..])
  }

  function Distance(goal: Goal, x: real): real {
    Abs(goal.target - x)
  }

  /** What approval leaves of a plan's two legs. */
  lemma ApprovedLegs(goal: Goal, current: real, ctx: RiskContext)
    requires Decide(goal, current, ctx).Approved()
    ensures var p, r := Plan(goal, current), Decide(goal, current, ctx).plan;
            && p.Actionable() && r.isBuy == p.isBuy && r.reduceOnly == p.reduceOnly && r.intent == p.intent
            && 0.0 < r.orderSize.Value() <= p.orderSize.Value()
            && (r.secondary.Some? ==>
                && p.intent == Reverse && p.secondary.Some? && r.orderSize == p.orderSize
                && r.secondary.value.isBuy == p.secondary.value.isBuy && r.secondary.value.orderSize.lots > 0
                && 0.0 < r.secondary.value.orderSize.Value() <= p.secondary.value.orderSize.Value())
  {
    var p, r := Plan(goal, current), Decide(goal, current, ctx).plan;
    ApprovalShrinks(p, ctx);
    LotsPositive(r.orderSize);
    PlanGeometry(goal, current);
    if r.secondary.Some? {
      ApprovedSecondLeg(p, ctx);
      ApprovalShrinks(p.secondary.value, ctx.AfterClose());
      LotsPositive(r.secondary.value.orderSize);
    }
  }

  /** One tick moves toward the target by exactly what it fills, and never past it. */
  lemma TickMovesTowardTarget(goal: Goal, current: real, t: Tick)
    requires LegalTick(goal, current, t)
    ensures var x := AfterTick(goal, current, t);
            && Between(current, x, goal.target)
            && Distance(goal, x) == Distance(goal, current) - t.firstFill - t.secondFill
  {
    var d := Decide(goal, current, t.ctx);
    PlanGeometry(goal, current);
    if d.Approved() {
      ApprovedLegs(goal, current, t.ctx);
    } else {
      assert t.firstFill == t.secondFill == 0.0;
    }
  }

  /**
   Under any run of partial fills and risk contexts the position never overshoots the target, and the
   distance shrinks by at least a lot for every tick that fills one.
   */
  lemma {:induction false} NeverOvershoots(goal: Goal, current: real, ticks: seq<Tick>)
    requires LegalRun(goal, current, ticks)
    ensures var x := AfterRun(goal, current, ticks);
            && Between(current, x, goal.target)
            && Distance(goal, x) + Grid(Fills(goal, ticks), goal.LotUnit()) <= Distance(goal, current)
    decreases |ticks|
  {
    hide LegalTick, AfterTick, Decide;
    if ticks == [] {
    } else {
      TickMovesTowardTarget(goal, current, ticks[0]);
      NeverOvershoots(goal, AfterTick(goal, current, ticks[0]), ticks[1..]);
      GridStep(Fills(goal, ticks[1..]), goal.LotUnit());
    }
  }

  /** The number of ticks that fill a lot is at most the whole lots of the initial distance. */
  lemma FillsBounded(goal: Goal, current: real, ticks: seq<Tick>)
    requires LegalRun(goal, current, ticks)
    ensures Fills(goal, ticks) <= FloorUnits(Distance(goal, current), goal.LotUnit())
  {
    NeverOvershoots(goal, current, ticks);
    GridOrder(Fills(goal, ticks), FloorUnits(Distance(goal, current), goal.LotUnit()) + 1, goal.LotUnit());
  }

  /** Under a halt, one tick can only shrink the position toward zero. */
  lemma HaltedTickShrinks(goal: Goal, current: real, t: Tick)
    requires LegalTick(goal, current, t) && UnderHalt(t.ctx)
    ensures Between(0.0, AfterTick(goal, current, t), current)
  {
    var p, d := Plan(goal, current), Decide(goal, current, t.ctx);
    PlanGeometry(goal, current);
    if d.Approved() {
      HaltApprovesOnlyReductions(p, t.ctx);
      ApprovedLegs(goal, current, t.ctx);
      ReducingIsReduceOnly(goal, current);
    } else {
      assert t.firstFill == t.secondFill == 0.0;
    }
  }

  lemma ReducingIsReduceOnly(goal: Goal, current: real)
    ensures Reducing(Plan(goal, current)) <==> Plan(goal, current).reduceOnly
  {
  }

  /** While a halt is in force no sequence of fills can enlarge or flip the position. */
  lemma {:induction false} HaltedRunShrinks(goal: Goal, current: real, ticks: seq<Tick>)
    requires LegalRun(goal, current, ticks)
    requires forall i :: 0 <= i < |ticks| ==> UnderHalt(ticks[i].ctx)
    ensures Between(0.0, AfterRun(goal, current, ticks), current)
    decreases |ticks|
  {
    hide LegalTick, AfterTick, Decide;
    if ticks == [] {
    } else {
      HaltedTickShrinks(goal, current, ticks[0]);
      HaltedRunShrinks(goal, AfterTick(goal, current, ticks[0]), ticks[1..]);
    }
  }

  // ----- the risk envelope -----

  /** The book a second leg is judged on is the follower's book with this asset flat, under the same limits. */
  lemma AfterCloseIsFlatBook(goal: Goal, current: real, ctx: RiskContext)
    requires ConsistentBook(goal, current, ctx) && current != 0.0
    ensures var c := ctx.AfterClose();
            && ConsistentBook(goal, 0.0, c)
            && c == ctx.(currentTotalExposure := TotalExposure(goal, ctx, 0.0), currentAssetExposure := 0.0,
                         openPositions := ctx.openPositions - 1, isNewMarket := true, currentLeverage := c.currentLeverage)
            && (if ctx.accountEquity > 0.0 then c.currentLeverage * ctx.accountEquity == TotalExposure(goal, ctx, 0.0)
                else c.currentLeverage == 999.0)
  {
  }

  /** The risk context describes the book the plan was made for. */
  predicate ConsistentBook(goal: Goal, current: real, ctx: RiskContext) {
    && goal.price > 0.0
    && ctx.currentAssetExposure == Abs(current) * goal.price
    && ctx.currentAssetExposure <= ctx.currentTotalExposure
    && (ctx.isNewMarket <==> current == 0.0)
    && (current != 0.0 ==> ctx.openPositions >= 1)
  }

  function AssetExposure(goal: Goal, x: real): real {
    Abs(x) * goal.price
  }

  function TotalExposure(goal: Goal, ctx: RiskContext, x: real): real {
    ctx.currentTotalExposure - ctx.currentAssetExposure + AssetExposure(goal, x)
  }

  function OpenPositions(current: real, ctx: RiskContext, x: real): int {
    if current == 0.0 && x != 0.0 then ctx.openPositions + 1
    else if current != 0.0 && x == 0.0 then ctx.openPositions - 1
    else ctx.openPositions
  }

  /** Everything the decision approves fills completely. */
  function Executed(goal: Goal, current: real, ctx: RiskContext): real {
    var d := Decide(goal, current, ctx);
    if !d.Approved() then current
    else
      var first := d.plan.After(current, d.plan.orderSize.Value());
      if d.plan.secondary.Some? then d.plan.secondary.value.After(first, d.plan.secondary.value.orderSize.Value())
      else first
  }

  /** The approved leg that increases exposure, if any. */
  function OpeningLeg(d: RiskDecision): Option<SizingResult> {
    if !d.Approved() then None
    else if d.plan.intent == Reverse then d.plan.secondary
    else if Reducing(d.plan) then None
    else Some(d.plan)
  }

  predicate WithinLimits(goal: Goal, current: real, ctx: RiskContext, x: real, leg: SizingResult) {
    && leg.notional <= ctx.maxNotionalPerTrade
    && leg.notional <= Max(ctx.freeMargin, 0.0) * Max(ctx.maxLeverage, 1.0)
    && TotalExposure(goal, ctx, x) <= ctx.maxTotalExposure
    && TotalExposure(goal, ctx, x) <= ctx.maxLeverage * Max(ctx.accountEquity, 0.0)
    && AssetExposure(goal, x) <= ctx.maxAssetExposure
    && OpenPositions(current, ctx, x) <= ctx.maxPositions
  }

  /** An approved opening leg keeps its price per unit and fits every cap of its context. */
  lemma OpeningLegFits(p: SizingResult, ctx: RiskContext, price: real)
    requires p.Actionable() && !Reducing(p) && p.intent != Reverse && Evaluate(p, ctx).Approved()
    requires price > 0.0 && p.notional == p.orderSize.Worth(price)
    ensures var r := Evaluate(p, ctx).plan;
            && r.orderSize.lots > 0 && r.notional == r.orderSize.Worth(price)
            && ctx.FitsEveryCap(r.notional)
            && (p.orderSize.places >= 0 ==> r.orderSize.places == p.orderSize.places)
  {
    if Evaluate(p, ctx).action == Trim {
      TrimIsLargestFit(p, ctx, 0);
      TrimKeepsPrice(p, price, Evaluate(p, ctx).plan.orderSize);
    } else {
      WorthPositive(p.orderSize, price);
      AllowedIffFits(ctx, p.notional);
    }
  }

  lemma WorthPositive(s: LotSize, price: real)
    requires s.lots > 0 && price > 0.0
    ensures s.Worth(price) > 0.0
  {
    LotsPositive(s);
    WorthIsSizeTimesPrice(s, price);
    PositiveProduct(s.Value(), price);
  }

  lemma TrimKeepsPrice(p: SizingResult, price: real, t: LotSize)
    requires p.Actionable() && p.notional == p.orderSize.Worth(price) && t.places == TrimPlaces(p.orderSize)
    ensures TrimWorth(p, t.lots) == t.Worth(price)
  {
    LotsPositive(p.orderSize);
    WorthIsSizeTimesPrice(p.orderSize, price);
    WorthIsSizeTimesPrice(t, price);
    QuotientOfProduct(p.orderSize.Value(), price);
  }

  lemma QuotientOfProduct(x: real, y: real)
    requires x > 0.0
    ensures x * y / x == y
  {
  }

  lemma PlanPriced(goal: Goal, current: real)
    ensures var p := Plan(goal, current);
            && (p.Actionable() ==> p.notional == p.orderSize.Worth(goal.price))
            && (p.secondary.Some? ==> p.secondary.value.notional == p.secondary.value.orderSize.Worth(goal.price))
  {
  }

  lemma MayOpenPositions(p: SizingResult, ctx: RiskContext)
    requires p.Actionable() && !Reducing(p) && p.intent != Reverse && Evaluate(p, ctx).Approved()
    ensures ctx.openPositions <= ctx.maxPositions
    ensures ctx.isNewMarket ==> ctx.openPositions < ctx.maxPositions
  {
  }

  /** Growing a position by an order grows its exposure by the order's notional. */
  lemma ExposureGrows(goal: Goal, current: real, x: real, s: LotSize)
    requires Abs(x) == Abs(current) + s.Value()
    ensures AssetExposure(goal, x) == AssetExposure(goal, current) + s.Worth(goal.price)
  {
    WorthIsSizeTimesPrice(s, goal.price);
  }

  lemma ExposureBounded(goal: Goal, x: real, s: LotSize)
    requires goal.price > 0.0 && Abs(x) <= s.Value()
    ensures AssetExposure(goal, x) <= s.Worth(goal.price)
  {
    WorthIsSizeTimesPrice(s, goal.price);
    MulCancel(Abs(x), s.Value(), goal.price);
  }

  /** Where an approved opening leg leads. */
  lemma OpeningLands(goal: Goal, current: real, ctx: RiskContext)
    requires OpeningLeg(Decide(goal, current, ctx)).Some? && Plan(goal, current).intent != Reverse
    ensures var p, r := Plan(goal, current), OpeningLeg(Decide(goal, current, ctx)).value;
            && p.Actionable() && !Reducing(p) && Evaluate(p, ctx).Approved() && Evaluate(p, ctx).plan == r
            && r.orderSize.Value() > 0.0
            && Abs(Executed(goal, current, ctx)) == Abs(current) + r.orderSize.Value()
  {
    ApprovedLegs(goal, current, ctx);
    OpeningSide(goal, current);
  }

  lemma EnvelopeOpen(goal: Goal, current: real, ctx: RiskContext)
    requires ConsistentBook(goal, current, ctx)
    requires OpeningLeg(Decide(goal, current, ctx)).Some? && Plan(goal, current).intent != Reverse
    ensures WithinLimits(goal, current, ctx, Executed(goal, current, ctx), OpeningLeg(Decide(goal, current, ctx)).value)
  {
    var p, r := Plan(goal, current), OpeningLeg(Decide(goal, current, ctx)).value;
    var x := Executed(goal, current, ctx);
    OpeningLands(goal, current, ctx);
    PlanPriced(goal, current);
    OpeningLegFits(p, ctx, goal.price);
    MayOpenPositions(p, ctx);
    ExposureGrows(goal, current, x, r.orderSize);
    OpenWithinLimits(goal, current, ctx, x, r);
  }

  lemma OpenWithinLimits(goal: Goal, current: real, ctx: RiskContext, x: real, leg: SizingResult)
    requires ConsistentBook(goal, current, ctx) && ctx.FitsEveryCap(leg.notional)
    requires AssetExposure(goal, x) == AssetExposure(goal, current) + leg.notional
    requires ctx.openPositions <= ctx.maxPositions && (ctx.isNewMarket ==> ctx.openPositions < ctx.maxPositions)
    ensures WithinLimits(goal, current, ctx, x, leg)
  {
  }

  /** An opening plan points away from zero. */
  lemma OpeningSide(goal: Goal, current: real)
    requires Plan(goal, current).Actionable() && !Reducing(Plan(goal, current)) && Plan(goal, current).intent != Reverse
    ensures current > 0.0 ==> Plan(goal, current).isBuy
    ensures current < 0.0 ==> !Plan(goal, current).isBuy
  {
  }

  lemma EnvelopeReversal(goal: Goal, current: real, ctx: RiskContext)
    requires ConsistentBook(goal, current, ctx) && goal.szDecimals >= 0
    requires OpeningLeg(Decide(goal, current, ctx)).Some? && Plan(goal, current).intent == Reverse
    ensures WithinLimits(goal, current, ctx, Executed(goal, current, ctx), OpeningLeg(Decide(goal, current, ctx)).value)
  {
    var p, r := Plan(goal, current), OpeningLeg(Decide(goal, current, ctx)).value;
    var x := Executed(goal, current, ctx);
    SecondLegApproved(goal, current, ctx);
    PlanPriced(goal, current);
    OpeningLegFits(p.secondary.value, ctx.AfterClose(), goal.price);
    MayOpenPositions(p.secondary.value, ctx.AfterClose());
    LotsPositive(r.orderSize);
    ReversalLands(goal, current, ctx);
    ExposureBounded(goal, x, r.orderSize);
    ReversalWithinLimits(goal, current, ctx, x, r);
  }

  lemma SecondLegApproved(goal: Goal, current: real, ctx: RiskContext)
    requires OpeningLeg(Decide(goal, current, ctx)).Some? && Plan(goal, current).intent == Reverse
    ensures var p, r := Plan(goal, current), OpeningLeg(Decide(goal, current, ctx)).value;
            && Decide(goal, current, ctx).Approved() && Decide(goal, current, ctx).plan.secondary == Some(r)
            && p.secondary.Some?
            && p.secondary.value.Actionable() && !Reducing(p.secondary.value) && p.secondary.value.intent == Open
            && p.secondary.value.orderSize.places == goal.szDecimals
            && Evaluate(p.secondary.value, ctx.AfterClose()).Approved()
            && Evaluate(p.secondary.value, ctx.AfterClose()).plan == r
  {
    PlanGeometry(goal, current);
    ApprovedLegs(goal, current, ctx);
    ApprovedSecondLeg(Plan(goal, current), ctx);
  }

  lemma ReversalWithinLimits(goal: Goal, current: real, ctx: RiskContext, x: real, leg: SizingResult)
    requires ConsistentBook(goal, current, ctx) && ctx.AfterClose().FitsEveryCap(leg.notional)
    requires AssetExposure(goal, x) <= leg.notional && x != 0.0 && current != 0.0
    requires ctx.AfterClose().openPositions < ctx.maxPositions
    ensures WithinLimits(goal, current, ctx, x, leg)
  {
    assert ctx.AfterClose().MarginSupported() == ctx.MarginSupported();
    assert ctx.AfterClose().LeverageCeiling() == ctx.LeverageCeiling();
  }

  /** A reversed position is open on the other side and no larger than its second leg. */
  lemma ReversalLands(goal: Goal, current: real, ctx: RiskContext)
    requires goal.szDecimals >= 0 && Plan(goal, current).intent == Reverse
    requires Decide(goal, current, ctx).Approved() && Decide(goal, current, ctx).plan.secondary.Some?
    requires Decide(goal, current, ctx).plan.secondary.value.orderSize.Value() >= goal.LotUnit()
    ensures 0.0 < Abs(Executed(goal, current, ctx)) <= Decide(goal, current, ctx).plan.secondary.value.orderSize.Value()
    ensures current != 0.0
  {
    PlanGeometry(goal, current);
    ApprovedLegs(goal, current, ctx);
  }

  /**
   Fully executing what was approved leaves the book within every limit whenever some leg increases
   exposure; a reversal's second leg is covered through the post-close book it was judged on.
   */
  lemma RiskEnvelope(goal: Goal, current: real, ctx: RiskContext)
    requires ConsistentBook(goal, current, ctx) && OpeningLeg(Decide(goal, current, ctx)).Some?
    requires Plan(goal, current).intent == Reverse ==> goal.szDecimals >= 0
    ensures WithinLimits(goal, current, ctx, Executed(goal, current, ctx), OpeningLeg(Decide(goal, current, ctx)).value)
  {
    if Plan(goal, current).intent == Reverse {
      EnvelopeReversal(goal, current, ctx);
    } else {
      EnvelopeOpen(goal, current, ctx);
    }
  }
}
