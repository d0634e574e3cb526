/**
 The runtime risk engine (`engine/risk.py`): every plan is allowed, trimmed to the tightest cap,
 denied or skipped, and a reversal's opening leg is judged again on the book after the close.
 */
module Risk {
  import opened Decimals
  import opened Sizing

  datatype RiskAction = Allow | Trim | Deny | Skip

  datatype Block =
    | EmergencyStop | GlobalPause | UserPaused | Suspended | NotEntitled
    | CloseOnly | AssetNotPermitted | DrawdownHalt | DailyLossHalt | NearLiquidation

  datatype RiskContext = RiskContext(
    userActive: bool,
    entitlementActive: bool,
    credentialActive: bool,
    userPaused: bool,
    globalPause: bool,
    emergencyStop: bool,
    closeOnly: bool,
    assetAllowed: bool,
    drawdownHalt: bool,
    dailyLossHalt: bool,
    nearLiquidation: bool,
    dataStale: bool,
    currentTotalExposure: real,
    currentAssetExposure: real,
    freeMargin: real,
    accountEquity: real,
    currentLeverage: real,
    openPositions: int,
    isNewMarket: bool,
    maxNotionalPerTrade: real,
    maxTotalExposure: real,
    maxAssetExposure: real,
    maxLeverage: real,
    maxPositions: int,
    minimumExecutableNotional: real)
  {
    /** The first of the conditions that block exposure from growing, in the order of the table. */
    function FirstBlock(): Option<Block> {
      if emergencyStop then Some(EmergencyStop)
      else if globalPause then Some(GlobalPause)
      else if userPaused then Some(UserPaused)
      else if !userActive then Some(Suspended)
      else if !entitlementActive then Some(NotEntitled)
      else if closeOnly then Some(CloseOnly)
      else if !assetAllowed then Some(AssetNotPermitted)
      else if drawdownHalt then Some(DrawdownHalt)
      else if dailyLossHalt then Some(DailyLossHalt)
      else if nearLiquidation then Some(NearLiquidation)
      else None
    }

    function MarginSupported(): real {
      Max(freeMargin, 0.0) * Max(maxLeverage, 1.0)
    }

    function LeverageCeiling(): real {
      maxLeverage * Max(accountEquity, 0.0)
    }

    /** The tightest of the five notional caps. */
    function AllowedNotional(): real {
      Min(maxNotionalPerTrade,
          Min(Max(maxTotalExposure - currentTotalExposure, 0.0),
              Min(Max(maxAssetExposure - currentAssetExposure, 0.0),
                  Min(MarginSupported(),
                      Max(LeverageCeiling() - currentTotalExposure, 0.0)))))
    }

    /** A notional that keeps the trade, the book, the asset, the margin and the leverage within limits. */
    predicate FitsEveryCap(notional: real) {
      && notional <= maxNotionalPerTrade
      && currentTotalExposure + notional <= maxTotalExposure
      && currentAssetExposure + notional <= maxAssetExposure
      && notional <= Max(freeMargin, 0.0) * Max(maxLeverage, 1.0)
      && currentTotalExposure + notional <= maxLeverage * Max(accountEquity, 0.0)
    }

    /** The book a reversal's opening leg is judged on. */
    function AfterClose(): RiskContext {
      var total := Max(currentTotalExposure - currentAssetExposure, 0.0);
      this.(currentTotalExposure := total,
            currentAssetExposure := 0.0,
            currentLeverage := if accountEquity > 0.0 then total / accountEquity else 999.0,
            openPositions := if openPositions - 1 > 0 then openPositions - 1 else 0,
            isNewMarket := true)
    }
  }

  datatype RiskDecision = RiskDecision(action: RiskAction, plan: SizingResult) {
    predicate Approved() {
      action == Allow || action == Trim
    }
  }

  // ----- the code -----

  predicate Reducing(p: SizingResult) {
    p.intent == Reduce || p.intent == Close || p.reduceOnly
  }

  function Evaluate(p: SizingResult, ctx: RiskContext): RiskDecision
    decreases p
  {
    if !p.Actionable() then RiskDecision(Skip, p)
    else if !Reducing(p) && ctx.FirstBlock().Some? then RiskDecision(Deny, p)
    else if !ctx.credentialActive then RiskDecision(Deny, p)
    else if ctx.dataStale then RiskDecision(Deny, p)
    else if p.intent == Reverse && p.secondary.Some? then
      var second := Evaluate(p.secondary.value, ctx.AfterClose());
      RiskDecision(Allow, p.(secondary := if second.Approved() then Some(second.plan) else None))
    else if Reducing(p) then RiskDecision(Allow, p)
    else EvaluateOpening(p, ctx)
  }

  /** Position count, then the notional caps, for a leg that increases exposure. */
  function EvaluateOpening(p: SizingResult, ctx: RiskContext): RiskDecision
    requires p.Actionable()
  {
    if ctx.openPositions > ctx.maxPositions then RiskDecision(Deny, p)
    else if ctx.isNewMarket && ctx.openPositions >= ctx.maxPositions then RiskDecision(Deny, p)
    else FitTo(p, ctx.AllowedNotional(), ctx.minimumExecutableNotional)
  }

  /** Allow, trim or deny an opening leg against the tightest cap. */
  function FitTo(p: SizingResult, allowed: real, minimum: real): RiskDecision
    requires p.Actionable()
  {
    if allowed <= 0.0 then RiskDecision(Deny, p)
    else if allowed < minimum then RiskDecision(Deny, p)
    else if p.notional <= allowed then RiskDecision(Allow, p)
    else if p.notional <= 0.0 then RiskDecision(Skip, p)
    else
      var trimmed := TrimmedSize(p, allowed);
      var trimmedNotional := TrimWorth(p, trimmed.lots);
      if trimmed.lots <= 0 then RiskDecision(Deny, p)
      else if trimmedNotional < minimum then RiskDecision(Deny, p)
      else RiskDecision(Trim, p.(orderSize := trimmed, notional := trimmedNotional))
  }

  /** Lot precision as recovered from the decimal exponent of the order size. */
  function TrimPlaces(s: LotSize): int {
    if s.places > 0 then s.places else 0
  }

  function UnitPrice(p: SizingResult): real
    requires p.Actionable()
  {
    LotsPositive(p.orderSize);
    p.notional / p.orderSize.Value()
  }

  function TrimmedSize(p: SizingResult, allowed: real): LotSize
    requires p.notional != 0.0
  {
    RoundSize(ScaledOrder(p, allowed), TrimPlaces(p.orderSize))
  }

  /** The order size scaled down to the allowed notional, before truncation. */
  function ScaledOrder(p: SizingResult, allowed: real): real
    requires p.notional != 0.0
  {
    p.orderSize.Value() * (allowed / p.notional)
  }

  /** What `lots` lots are worth at the unit price of the plan being trimmed. */
  function TrimWorth(p: SizingResult, lots: int): real
    requires p.Actionable()
  {
    Grid(lots, Lot(TrimPlaces(p.orderSize))) * UnitPrice(p)
  }

  // ----- trimming is optimal -----

  /** A size is worth at most `allowed` exactly when it is within the scaled size. */
  lemma ScaledSize(order: real, allowed: real, notional: real, s: real)
    requires order > 0.0 && notional > 0.0
    ensures s * (notional / order) <= allowed <==> s <= order * (allowed / notional)
  {
    var unit, ratio := notional / order, allowed / notional;
    assert unit * order == notional;
    assert ratio * notional == allowed;
    assert order * ratio * unit == ratio * (unit * order);
    MulCancel(s, order * ratio, unit);
  }

  /** A positive notional is within the tightest cap exactly when it fits every cap. */
  lemma AllowedIffFits(ctx: RiskContext, notional: real)
    requires notional > 0.0
    ensures notional <= ctx.AllowedNotional() <==> ctx.FitsEveryCap(notional)
  {
  }

  /** A trim is a positive whole number of lots within the cap, and one lot more is over it. */
  lemma TrimFits(p: SizingResult, allowed: real, minimum: real)
    requires p.Actionable() && FitTo(p, allowed, minimum).action == Trim
    ensures var t := FitTo(p, allowed, minimum).plan;
            && t == p.(orderSize := TrimmedSize(p, allowed), notional := TrimWorth(p, TrimmedSize(p, allowed).lots))
            && t.orderSize.lots > 0 && t.orderSize.Value() < p.orderSize.Value()
            && 0.0 < t.notional <= allowed && minimum <= t.notional
  {
    var t := FitTo(p, allowed, minimum).plan;
    LotsPositive(p.orderSize);
    LotsPositive(t.orderSize);
    TrimArithmetic(p.orderSize.Value(), allowed, p.notional, t.orderSize.Value(), Lot(TrimPlaces(p.orderSize)));
  }

  lemma MoreLotsExceed(p: SizingResult, allowed: real, m: int)
    requires p.Actionable() && 0.0 < allowed < p.notional
    requires m > TrimmedSize(p, allowed).lots
    ensures TrimWorth(p, m) > allowed
  {
    var q, t := Lot(TrimPlaces(p.orderSize)), TrimmedSize(p, allowed);
    TrimmedBelow(p, allowed);
    GridOrder(t.lots + 1, m, q);
    GridStep(t.lots, q);
    LotsWithin(p, allowed, m);
  }

  /** Lots are worth at most `allowed` exactly when they are within the scaled order. */
  lemma LotsWithin(p: SizingResult, allowed: real, m: int)
    requires p.Actionable() && p.notional > 0.0
    ensures TrimWorth(p, m) <= allowed <==> Grid(m, Lot(TrimPlaces(p.orderSize))) <= ScaledOrder(p, allowed)
  {
    LotsPositive(p.orderSize);
    ScaledSize(p.orderSize.Value(), allowed, p.notional, Grid(m, Lot(TrimPlaces(p.orderSize))));
  }

  lemma TrimmedBelow(p: SizingResult, allowed: real)
    requires p.Actionable() && p.notional > 0.0 && allowed > 0.0
    ensures var t := TrimmedSize(p, allowed);
            && t.places == TrimPlaces(p.orderSize) && t.lots >= 0
            && t.Value() <= ScaledOrder(p, allowed) < t.Value() + Lot(t.places)
  {
    LotsPositive(p.orderSize);
    PositiveQuotient(allowed, p.notional);
    PositiveProduct(p.orderSize.Value(), allowed / p.notional);
  }

  /** What a trim returns: the largest whole number of lots whose notional fits every cap. */
  lemma TrimIsLargestFit(p: SizingResult, ctx: RiskContext, m: int)
    requires p.Actionable() && EvaluateOpening(p, ctx).action == Trim
    ensures var t := EvaluateOpening(p, ctx).plan;
            && t == p.(orderSize := t.orderSize, notional := TrimWorth(p, t.orderSize.lots))
            && t.orderSize.lots > 0 && t.orderSize.places == (if p.orderSize.places > 0 then p.orderSize.places else 0)
            && ctx.FitsEveryCap(TrimWorth(p, t.orderSize.lots))
            && (m > t.orderSize.lots ==> !ctx.FitsEveryCap(TrimWorth(p, m)))
  {
    var allowed := ctx.AllowedNotional();
    OpeningTrim(p, ctx);
    TrimFits(p, allowed, ctx.minimumExecutableNotional);
    TrimmedBelow(p, allowed);
    var t := TrimmedSize(p, allowed);
    AllowedIffFits(ctx, TrimWorth(p, t.lots));
    if m > t.lots {
      MoreLotsExceed(p, allowed, m);
      AllowedIffFits(ctx, TrimWorth(p, m));
    }
  }

  lemma OpeningTrim(p: SizingResult, ctx: RiskContext)
    requires p.Actionable() && EvaluateOpening(p, ctx).action == Trim
    ensures EvaluateOpening(p, ctx) == FitTo(p, ctx.AllowedNotional(), ctx.minimumExecutableNotional)
    ensures 0.0 < ctx.AllowedNotional() < p.notional
  {
  }

  lemma PositiveProduct(x: real, y: real)
    requires x > 0.0 && y > 0.0
    ensures x * y > 0.0
  {
  }

  lemma PositiveQuotient(x: real, y: real)
    requires x > 0.0 && y > 0.0
    ensures x / y > 0.0
  {
  }

  lemma TrimArithmetic(order: real, allowed: real, notional: real, t: real, q: real)
    requires order > 0.0 && 0.0 < allowed < notional
    requires 0.0 < t <= Abs(order * (allowed / notional)) < t + q
    ensures notional / order > 0.0
    ensures t <= order * (allowed / notional) < t + q
    ensures 0.0 < t * (notional / order) <= allowed
    ensures t < order
  {
    PositiveQuotient(notional, order);
    PositiveQuotient(allowed, notional);
    PositiveProduct(order, allowed / notional);
    ScaledSize(order, allowed, notional, t);
    PositiveProduct(t, notional / order);
    ScaledSize(order, allowed, notional, order);
    assert order * (notional / order) == notional;
  }

  /** An opening leg may be considered at all: nothing is raised against it, and there is room. */
  predicate MayOpen(ctx: RiskContext) {
    && ctx.credentialActive && !ctx.dataStale
    && !ctx.emergencyStop && !ctx.globalPause && !ctx.userPaused && ctx.userActive && ctx.entitlementActive
    && !ctx.closeOnly && ctx.assetAllowed && !ctx.drawdownHalt && !ctx.dailyLossHalt && !ctx.nearLiquidation
    && ctx.openPositions <= ctx.maxPositions
    && (ctx.isNewMarket ==> ctx.openPositions < ctx.maxPositions)
    && ctx.AllowedNotional() > 0.0 && ctx.AllowedNotional() >= ctx.minimumExecutableNotional
  }

  /**
   The decision on an opening leg: in full when its notional is within the caps, trimmed when some
   whole number of lots is both within the caps and executable, refused otherwise.
   */
  lemma OpeningDecision(p: SizingResult, ctx: RiskContext)
    requires p.Actionable() && !Reducing(p) && p.intent != Reverse
    ensures Evaluate(p, ctx).action == Allow <==> MayOpen(ctx) && p.notional <= ctx.AllowedNotional()
    ensures Evaluate(p, ctx).action == Trim <==>
            && MayOpen(ctx) && p.notional > ctx.AllowedNotional()
            && exists m: int :: m > 0 && ctx.minimumExecutableNotional <= TrimWorth(p, m) <= ctx.AllowedNotional()
    ensures Evaluate(p, ctx).action != Trim ==> Evaluate(p, ctx).plan == p
  {
    var allowed, minimum := ctx.AllowedNotional(), ctx.minimumExecutableNotional;
    if MayOpen(ctx) && p.notional > allowed {
      var t := TrimmedSize(p, allowed);
      if Evaluate(p, ctx).action == Trim {
        TrimFits(p, allowed, minimum);
        assert minimum <= TrimWorth(p, t.lots) <= allowed;
      }
      if m: int :| m > 0 && minimum <= TrimWorth(p, m) <= allowed {
        if m > t.lots { MoreLotsExceed(p, allowed, m); }
        WorthMonotone(p, m, t.lots);
      }
    }
  }

  // ----- what evaluation can do to a plan -----

  /** Approval keeps every leg's direction and never enlarges it; a second leg survives only if there was one. */
  lemma ApprovalShrinks(p: SizingResult, ctx: RiskContext)
    requires Evaluate(p, ctx).Approved()
    ensures var r := Evaluate(p, ctx).plan;
            && p.Actionable()
            && r.isBuy == p.isBuy && r.intent == p.intent && r.reduceOnly == p.reduceOnly
            && r.orderSize.lots > 0 && r.orderSize.Value() <= p.orderSize.Value()
            && (Reducing(p) || (p.intent == Reverse && p.secondary.Some?) ==> r.orderSize == p.orderSize && r.notional == p.notional)
            && (r.secondary.Some? ==> p.secondary.Some?)
  {
    if Evaluate(p, ctx).action == Trim {
      TrimFits(p, ctx.AllowedNotional(), ctx.minimumExecutableNotional);
    }
  }

  /** The second leg of an approved reversal is an approved leg of the post-close book. */
  lemma ApprovedSecondLeg(p: SizingResult, ctx: RiskContext)
    requires p.intent == Reverse && Evaluate(p, ctx).Approved() && Evaluate(p, ctx).plan.secondary.Some?
    ensures p.secondary.Some?
    ensures Evaluate(p.secondary.value, ctx.AfterClose()).Approved()
    ensures Evaluate(p, ctx).plan.secondary.value == Evaluate(p.secondary.value, ctx.AfterClose()).plan
  {
    if p.secondary.None? { ApprovalShrinks(p, ctx); }
  }

  /** With a credential and fresh data a reversal closes in full, and opens exactly what the post-close book approves. */
  lemma SecondLegSurvivesIff(p: SizingResult, ctx: RiskContext)
    requires p.Actionable() && p.intent == Reverse && p.reduceOnly && ctx.credentialActive && !ctx.dataStale
    ensures Evaluate(p, ctx).action == Allow
    ensures Evaluate(p, ctx).plan.secondary.Some? <==>
            p.secondary.Some? && Evaluate(p.secondary.value, ctx.AfterClose()).Approved()
    ensures Evaluate(p, ctx).plan.(secondary := None) == p.(secondary := None)
  {
  }

  /** Some halt is in force. */
  predicate UnderHalt(ctx: RiskContext) {
    || ctx.emergencyStop || ctx.globalPause || ctx.userPaused || !ctx.userActive || !ctx.entitlementActive
    || ctx.closeOnly || !ctx.assetAllowed || ctx.drawdownHalt || ctx.dailyLossHalt || ctx.nearLiquidation
  }

  /** The context with every halt lifted. */
  function Lifted(ctx: RiskContext): RiskContext {
    ctx.(emergencyStop := false, globalPause := false, userPaused := false, userActive := true, entitlementActive := true,
         closeOnly := false, assetAllowed := true, drawdownHalt := false, dailyLossHalt := false, nearLiquidation := false)
  }

  /** Each of the ten halts by itself denies an opening leg, unchanged; without any of them they play no part. */
  lemma EachHaltDenies(p: SizingResult, ctx: RiskContext)
    requires p.orderSize.lots > 0 && p.intent != NoOrder
    requires p.intent != Reduce && p.intent != Close && !p.reduceOnly
    ensures Evaluate(p, ctx) == if UnderHalt(ctx) then RiskDecision(Deny, p) else Evaluate(p, Lifted(ctx))
  {
    assert !UnderHalt(ctx) ==> ctx == Lifted(ctx);
  }

  /** Without a credential or on stale data nothing passes, reductions included; idle plans are skipped. */
  lemma InoperableDenies(p: SizingResult, ctx: RiskContext)
    ensures p.orderSize.lots <= 0 || p.intent == NoOrder ==> Evaluate(p, ctx) == RiskDecision(Skip, p)
    ensures p.Actionable() && (!ctx.credentialActive || ctx.dataStale) ==> Evaluate(p, ctx) == RiskDecision(Deny, p)
  {
  }

  /** Under any halt, whatever is approved is reducing, and a reversal loses its opening leg. */
  lemma HaltApprovesOnlyReductions(p: SizingResult, ctx: RiskContext)
    requires UnderHalt(ctx)
    requires Evaluate(p, ctx).Approved()
    requires p.secondary.Some? ==> p.intent == Reverse && !Reducing(p.secondary.value)
    ensures p.intent == Reduce || p.intent == Close || p.reduceOnly
    ensures Evaluate(p, ctx).plan.secondary.None?
  {
  }

  /** With a credential and fresh data a reducing leg is allowed in full, whatever the halts and caps. */
  lemma ReductionsAlwaysPass(p: SizingResult, ctx: RiskContext)
    requires p.Actionable() && (p.intent == Reduce || p.intent == Close || p.reduceOnly)
    requires ctx.credentialActive && !ctx.dataStale
    ensures Evaluate(p, ctx).action == Allow
    ensures Evaluate(p, ctx).plan == p.(secondary := Evaluate(p, ctx).plan.secondary)
    ensures p.intent != Reverse || p.secondary.None? ==> Evaluate(p, ctx).plan == p
  {
  }

  // ----- stability -----

  /** Flattening legs of a reversal are reduce-only, at every level; every plan of `Sizing.Plan` is such. */
  predicate ReversalsFlatten(p: SizingResult)
    decreases p
  {
    && (p.intent == Reverse ==> p.reduceOnly)
    && (p.secondary.Some? ==> ReversalsFlatten(p.secondary.value))
  }

  lemma PlansFlatten(goal: Goal, current: real)
    ensures ReversalsFlatten(Plan(goal, current))
  {
    PlanGeometry(goal, current);
  }

  /** Re-evaluating a decision's plan in the same context returns that same plan. */
  lemma {:induction false} EvaluateStable(p: SizingResult, ctx: RiskContext)
    requires ReversalsFlatten(p)
    ensures Evaluate(Evaluate(p, ctx).plan, ctx).plan == Evaluate(p, ctx).plan
    ensures Evaluate(p, ctx).Approved() ==> Evaluate(Evaluate(p, ctx).plan, ctx).action == Allow
    decreases p
  {
    var d := Evaluate(p, ctx);
    if d.action == Trim {
      TrimFits(p, ctx.AllowedNotional(), ctx.minimumExecutableNotional);
      assert Evaluate(d.plan, ctx) == EvaluateOpening(d.plan, ctx);
    } else if d.action == Allow && p.intent == Reverse && p.secondary.Some? {
      EvaluateStable(p.secondary.value, ctx.AfterClose());
    }
  }

  // ----- monotonicity in the caps -----

  /**
   `b` differs from `a` only in looser limits. (More equity under a negative leverage limit on a book of
   negative exposure is excluded: there it means less headroom.)
   */
  predicate Looser(a: RiskContext, b: RiskContext) {
    && b == a.(freeMargin := b.freeMargin, accountEquity := b.accountEquity,
               maxNotionalPerTrade := b.maxNotionalPerTrade, maxTotalExposure := b.maxTotalExposure,
               maxAssetExposure := b.maxAssetExposure, maxLeverage := b.maxLeverage, maxPositions := b.maxPositions,
               currentLeverage := b.currentLeverage)
    && a.freeMargin <= b.freeMargin && a.accountEquity <= b.accountEquity
    && a.maxNotionalPerTrade <= b.maxNotionalPerTrade && a.maxTotalExposure <= b.maxTotalExposure
    && a.maxAssetExposure <= b.maxAssetExposure && a.maxPositions <= b.maxPositions
    && a.maxLeverage <= b.maxLeverage
    && (a.maxLeverage >= 0.0 || a.currentTotalExposure >= 0.0 || Max(a.accountEquity, 0.0) == Max(b.accountEquity, 0.0))
  }

  lemma ProductMonotone(x: real, y: real, x': real, y': real)
    requires 0.0 <= x <= x' && 0.0 <= y <= y'
    ensures x * y <= x' * y'
  {
    assert (x' - x) * y >= 0.0;
    assert x' * (y' - y) >= 0.0;
  }

  lemma NegativeProduct(x: real, y: real)
    requires x < 0.0 && y >= 0.0
    ensures x * y <= 0.0
  {
  }

  lemma SharedFactor(x: real, x': real, y: real)
    requires x <= x' && y >= 0.0
    ensures x * y <= x' * y
  {
    assert (x' - x) * y >= 0.0;
  }

  lemma LooserMargin(a: RiskContext, b: RiskContext)
    requires Looser(a, b)
    ensures a.MarginSupported() <= b.MarginSupported()
  {
    ProductMonotone(Max(a.freeMargin, 0.0), Max(a.maxLeverage, 1.0), Max(b.freeMargin, 0.0), Max(b.maxLeverage, 1.0));
  }

  lemma LooserLeverage(a: RiskContext, b: RiskContext)
    requires Looser(a, b)
    ensures Max(a.LeverageCeiling() - a.currentTotalExposure, 0.0) <= Max(b.LeverageCeiling() - b.currentTotalExposure, 0.0)
  {
    if a.maxLeverage >= 0.0 {
      ProductMonotone(a.maxLeverage, Max(a.accountEquity, 0.0), b.maxLeverage, Max(b.accountEquity, 0.0));
    } else if a.currentTotalExposure >= 0.0 {
      NegativeProduct(a.maxLeverage, Max(a.accountEquity, 0.0));
    } else {
      SharedFactor(a.maxLeverage, b.maxLeverage, Max(a.accountEquity, 0.0));
    }
  }

  lemma LooserAllowsMore(a: RiskContext, b: RiskContext)
    requires Looser(a, b)
    ensures a.AllowedNotional() <= b.AllowedNotional()
  {
    LooserMargin(a, b);
    LooserLeverage(a, b);
    hide RiskContext.MarginSupported, RiskContext.LeverageCeiling;
  }

  /** The exposure-increasing size that a decision lets through. */
  function ApprovedOpening(d: RiskDecision): real
  {
    if !d.Approved() then 0.0
    else if d.plan.intent == Reverse then
      if d.plan.secondary.Some? then d.plan.secondary.value.orderSize.Value() else 0.0
    else if Reducing(d.plan) then 0.0
    else d.plan.orderSize.Value()
  }

  lemma TrimMonotone(p: SizingResult, small: real, large: real)
    requires p.Actionable() && p.notional > 0.0 && 0.0 < small <= large
    ensures TrimmedSize(p, small).lots <= TrimmedSize(p, large).lots
    ensures TrimmedSize(p, small).Value() <= TrimmedSize(p, large).Value()
    ensures TrimWorth(p, TrimmedSize(p, small).lots) <= TrimWorth(p, TrimmedSize(p, large).lots)
  {
    ScaleMonotone(p, small, large);
    RoundSizeMonotone(ScaledOrder(p, small), ScaledOrder(p, large), TrimPlaces(p.orderSize));
    WorthMonotone(p, TrimmedSize(p, small).lots, TrimmedSize(p, large).lots);
  }

  lemma ScaleMonotone(p: SizingResult, small: real, large: real)
    requires p.Actionable() && p.notional > 0.0 && 0.0 < small <= large
    ensures 0.0 < ScaledOrder(p, small) <= ScaledOrder(p, large)
  {
    var order, n := p.orderSize.Value(), p.notional;
    LotsPositive(p.orderSize);
    RatioMonotone(small, large, n);
    PositiveQuotient(small, n);
    PositiveProduct(order, small / n);
    ProductMonotone(order, small / n, order, large / n);
  }

  lemma RoundSizeMonotone(x: real, y: real, places: int)
    requires 0.0 <= x <= y
    ensures RoundSize(x, places).lots <= RoundSize(y, places).lots
    ensures RoundSize(x, places).Value() <= RoundSize(y, places).Value()
  {
    FloorMonotone(x, y, Lot(places));
    GridOrder(RoundSize(x, places).lots, RoundSize(y, places).lots, Lot(places));
  }

  lemma WorthMonotone(p: SizingResult, m: int, n: int)
    requires p.Actionable() && p.notional > 0.0 && 0 <= m <= n
    ensures TrimWorth(p, m) <= TrimWorth(p, n)
  {
    var q := Lot(TrimPlaces(p.orderSize));
    LotsPositive(p.orderSize);
    GridOrder(0, m, q);
    GridOrder(m, n, q);
    PositiveQuotient(p.notional, p.orderSize.Value());
    ProductMonotone(Grid(m, q), UnitPrice(p), Grid(n, q), UnitPrice(p));
  }

  lemma RatioMonotone(x: real, y: real, n: real)
    requires n > 0.0 && x <= y
    ensures x / n <= y / n
  {
    MulCancel(x / n, y / n, n);
  }

  lemma FitMonotone(p: SizingResult, small: real, large: real, minimum: real)
    requires p.Actionable() && small <= large && FitTo(p, small, minimum).Approved()
    ensures FitTo(p, large, minimum).Approved()
    ensures FitTo(p, small, minimum).plan.orderSize.Value() <= FitTo(p, large, minimum).plan.orderSize.Value()
  {
    if FitTo(p, small, minimum).action == Trim {
      TrimFits(p, small, minimum);
      if p.notional > large { TrimMonotone(p, small, large); }
    }
  }

  lemma OpeningMonotone(p: SizingResult, a: RiskContext, b: RiskContext)
    requires p.Actionable() && Looser(a, b) && EvaluateOpening(p, a).Approved()
    ensures EvaluateOpening(p, b).Approved()
    ensures EvaluateOpening(p, a).plan.orderSize.Value() <= EvaluateOpening(p, b).plan.orderSize.Value()
  {
    LooserAllowsMore(a, b);
    FitMonotone(p, a.AllowedNotional(), b.AllowedNotional(), a.minimumExecutableNotional);
  }

  lemma AfterCloseLooser(a: RiskContext, b: RiskContext)
    requires Looser(a, b)
    ensures Looser(a.AfterClose(), b.AfterClose())
  {
  }

  lemma LooserSecondLeg(p: SizingResult, a: RiskContext, b: RiskContext)
    requires Looser(a, b) && p.intent == Reverse && p.reduceOnly && p.secondary.Some?
    requires p.secondary.value.intent == Open && !p.secondary.value.reduceOnly
    requires Evaluate(p, a).Approved() && Evaluate(p, a).plan.secondary.Some?
    ensures Evaluate(p, b).Approved() && Evaluate(p, b).plan.secondary.Some?
    ensures Evaluate(p, a).plan.secondary.value.orderSize.Value() <= Evaluate(p, b).plan.secondary.value.orderSize.Value()
  {
    AfterCloseLooser(a, b);
    OpeningMonotone(p.secondary.value, a.AfterClose(), b.AfterClose());
  }

  lemma ApprovedOpeningNonNegative(goal: Goal, current: real, ctx: RiskContext)
    ensures ApprovedOpening(Evaluate(Plan(goal, current), ctx)) >= 0.0
  {
    var p := Plan(goal, current);
    PlanGeometry(goal, current);
    if Evaluate(p, ctx).Approved() {
      ApprovalShrinks(p, ctx);
      LotsPositive(Evaluate(p, ctx).plan.orderSize);
      if p.intent == Reverse && Evaluate(p, ctx).plan.secondary.Some? {
        ApprovalShrinks(p.secondary.value, ctx.AfterClose());
        LotsPositive(Evaluate(p, ctx).plan.secondary.value.orderSize);
      }
    }
  }

  /** Loosening any limit never lowers the opening size approved for a plan. */
  lemma LooserNeverLowers(goal: Goal, current: real, a: RiskContext, b: RiskContext)
    requires Looser(a, b)
    ensures ApprovedOpening(Evaluate(Plan(goal, current), a)) <= ApprovedOpening(Evaluate(Plan(goal, current), b))
  {
    var p := Plan(goal, current);
    PlanGeometry(goal, current);
    ApprovedOpeningNonNegative(goal, current, b);
    if ApprovedOpening(Evaluate(p, a)) > 0.0 {
      if p.intent == Reverse { LooserSecondLeg(p, a, b); } else { OpeningMonotone(p, a, b); }
    }
  }
}
