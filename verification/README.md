# HyperCopy: verified model

HyperCopy is a copy-trading engine: it steers every follower's perpetual position to a target derived from a
master account, under a risk engine, a shared request budget and several distributed protocols. This project
models the parts whose correctness is hard to see from the code and proves what they are for.

| module | models |
|---|---|
| `Runs` | runs of a step function, shared by the protocols |
| `Decimals` | exact decimal arithmetic: grids of multiples of a quantum, truncation, half-up rounding |
| `PriceRounding` | `round_price` and the limit price of an immediate-or-cancel order |
| `Sizing` | target, intent, plan, two-leg reversals, and the drift classifier of reconciliation |
| `Risk` | `evaluate`: halts, caps, trimming, and the second leg judged on the post-close book |
| `ClosedLoop` | plan, evaluate, fill any part of what was approved, replan; and the risk envelope |
| `RateLimiter` | the weighted sliding-window limiter over its Redis keyspace |
| `ReadAccounting` | retried reads and what they leave charged in that limiter |
| `Lease` | the fenced single-writer lease, as an object and as a protocol of unboundedly many processes |
| `AddressCadence` | the per-address submission slot, interleaved at single Redis commands |
| `RefreshTokens` | refresh-token rotation, grace replays, absolute expiry and logout |
| `SignedCall` | signed exchange actions under the signer lock, with cancellations and worker threads |

How the model reads the code:

- Decimals are exact reals; an order size is a whole number of lots together with the precision that its decimal
  exponent carries, because trimming recovers the precision from that exponent.
- A Lua script, an SQL statement, a single Redis command and an authentication request are each one atomic step.
  Protocols are state machines, and their theorems quantify over every sequence of steps from the start state.
- Fields called history (`log`, `granted`, `writes`, `reports`, `heads`, `logins`, `undelivered`, `disturbed`, `tenures`) exist
  only to state what happened; no decision of the code reads them.
- The rate limiter assumes that the `now` arguments are non-decreasing in execution order and that key expiry
  follows the same clock; the window bound needs this. Lease fencing assumes nothing about clocks; the two timed
  lease results assume one shared non-decreasing clock.
- Where the code is imperative, a class mirrors it. Its methods are proved equal to the steps of the state machine
  the theorems are about, and its loops to runs of that machine.

Where the code does not do what is said of it:

- The documentation of `round_price` promises the nearest valid price. Rounding twice can miss it:
  0.000004499999 becomes 0.000005 at size precision 0. `NearestIff` gives exactly the inputs on which the promise holds.
- "Applying it ten times is applying it once" needs a whole number of lots: a reversal drops a part of the old size
  and a part of the target, which together can make up another lot. `FullFillFixpoint` is the exact condition.
- A logout whose access claims and refresh cookie come from different sessions lets an already rotated token become
  usable again (`ForeignCookieRevives`). `BreaksIff` names exactly the requests that cost a session its single head;
  revocation and absolute expiry are not affected.
- A second cancellation of one signed call releases the signer lock while its exchange call is still running
  (`TwoCancellationsOverlap`). `LockHeldIff`: a running call holds the lock exactly if it was cancelled at most once.
- Callers of the cadence slot cannot be counted by when they looked at the throttled mode (`ChecksDoNotBound`: any
  number can pass one check instant). What bounds them is when they are released (`ReleasesBounded`); counted by
  their checks, the bound grows by one every ten seconds (`CheckedReleasesBounded`) and is attained
  (`CheckedReleasesAttained`).

## Model

| member | source | states |
|---|---|---|
| `PriceRounding.Adjusted` | backend/app/engine/sizing.py:144 | The exponent of the leading digit brackets the price between two consecutive powers of ten, for every positive price. |
| `PriceRounding.ReturnsIff` | backend/app/engine/sizing.py:138-159 | A positive price is rounded rather than rejected exactly when its five-figure rounding reaches half a decimal-place quantum. |
| `PriceRounding.Refusals` | backend/app/engine/sizing.py:138-158 | Each of the two errors occurs exactly in its own case: a price that is not positive, and one that rounds to nothing. |
| `PriceRounding.PlaceQuantumIs` | backend/app/engine/sizing.py:141-142 | The decimal-place quantum is one unit in the last of the 6 - szDecimals places, and one whole unit from 6 on. |
| `PriceRounding.ResultValid` | backend/app/engine/sizing.py:125-159 | Every returned price is positive, a multiple of the decimal-place quantum, and an integer or of at most five significant figures. |
| `PriceRounding.FixedIffValid` | backend/app/engine/sizing.py:125-159 | The prices that rounding leaves alone are exactly the valid ones. |
| `PriceRounding.Idempotent` | backend/app/engine/sizing.py:125-159 | Rounding a rounded price returns it. |
| `PriceRounding.Monotone` | backend/app/engine/sizing.py:125-159 | Rounding preserves order for all pairs of accepted prices, across decades, both rounding stages and the integer exemption. |
| `PriceRounding.ReturnsMonotone` | backend/app/engine/sizing.py:138-159 | A larger price is never rejected when a smaller one is accepted. |
| `PriceRounding.DecadeFence` | backend/app/engine/sizing.py:144-149 | Rounding never carries a price across a power of ten that the decimal-place grid contains. |
| `PriceRounding.NearestIff` | backend/app/engine/sizing.py:125-159 | The result is a nearest valid price if and only if the first stage did not lift the price onto the exact midpoint between two place multiples, the lower one positive and not whole. |
| `PriceRounding.NearestWhenCoarse` | backend/app/engine/sizing.py:141-159 | When the significant-figure quantum is at least the place quantum, a price is always returned and it is a nearest valid one. |
| `PriceRounding.ErrorBound` | backend/app/engine/sizing.py:141-159 | The result is never further from the price than half the sum of the two quanta. |
| `PriceRounding.DoubleRoundingExample` | backend/app/engine/sizing.py:126-149 | 0.000004499999 becomes 0.000005, which is not nearest: the documented claim fails. |
| `PriceRounding.IocLimitSide` | backend/app/adapters/hyperliquid.py:926-928 | With non-negative slippage a buy limit exists and is never below the rounded mark, and a sell limit that exists is never above it. |
| `PriceRounding.SlippageIs` | backend/app/adapters/hyperliquid.py:926-927 | The price sent to rounding differs from the mark by exactly the basis points, up for a buy and down for a sell. |
| `Decimals.FloorIsQuotient` | backend/app/engine/sizing.py:121-122 | Truncation to a grid is the whole part of the quotient by the quantum. |
| `Sizing.RoundSize` | backend/app/engine/sizing.py:119-122 | The result is the largest whole number of lots not above the magnitude, and zero exactly below one lot. |
| `Sizing.LotIsDecimal` | backend/app/engine/sizing.py:121 | A lot is one unit in the last of szDecimals places. |
| `Sizing.TargetReproducesRatio` | backend/app/engine/sizing.py:71-204 | In the input fields: target times price times master equity is the master's signed size times its mark times the follower's free equity times the multiplier; without prices or equity on either side the target is flat. Price fallback and the larger minimum are stated too. |
| `Sizing.PlanRecords` | backend/app/engine/sizing.py:181-307 | A plan records its inputs, is reduce-only exactly when the target is not beyond the position seen from zero, reverses exactly on opposite signs, prices its legs, and gives the reason it is idle. |
| `Sizing.PlanGeometry` | backend/app/engine/sizing.py:193-307 | Every leg points at the target, a reduce-only leg cannot pass zero, and both legs of a reversal together cannot pass the target. |
| `Sizing.PlanActsIff` | backend/app/engine/sizing.py:211-300 | Exactly when a plan sends an order, and exactly when a reversal keeps its second leg, in terms of lots and the minimum notional. |
| `Sizing.FullFillFixpoint` | backend/app/engine/sizing.py:193-307 | After a plan fills completely, replanning acts if and only if it was a reversal with two legs whose dropped parts add up to a lot that is worth the minimum. |
| `Sizing.AlignedFullFillIsFixpoint` | backend/app/engine/sizing.py:13-18 | From a whole number of lots, replanning after a complete fill sends nothing, for every intent including a reversal whose second leg was too small. |
| `Sizing.MisalignedReversalReopens` | backend/app/engine/sizing.py:276-307 | 1.5 lots reversed to -3.7 lots needs a second pass. |
| `Sizing.FilledNearTarget` | backend/app/engine/sizing.py:193-307 | From a whole number of lots, a complete fill ends less than a lot from the target, on its side, and exactly flat for a zero target; a reversal whose opening leg is too small to send ends exactly flat. |
| `Sizing.ReconcileAgreesWithClassify` | backend/app/engine/reconcile.py:22-34 | Drift kinds and planning intents name the same situations; on the target's side the verdict is quiet exactly within the tolerance, and the reported percentage is the drift. |
| `Sizing.QuietNearTarget` | backend/app/engine/reconcile.py:22-34 | Within a lot of the target reconciliation asks for nothing, once a lot is within the tolerance: it never fights truncation. |
| `Risk.AllowedIffFits` | backend/app/engine/risk.py:132-142 | A positive notional is within the computed headroom exactly when the trade, the book, the asset, the margin and the leverage all stay within their limits. |
| `Risk.TrimIsLargestFit` | backend/app/engine/risk.py:156-174 | A trim changes only size and notional, keeps the unit price, fits every cap, and one lot more, or any larger number, fits not all of them. |
| `Risk.OpeningDecision` | backend/app/engine/risk.py:123-174 | An opening leg passes in full exactly when it fits, and is trimmed exactly when some whole number of lots both fits and is executable. |
| `Risk.ApprovalShrinks` | backend/app/engine/risk.py:53-174 | Approval keeps side and intent, never enlarges a leg and never invents a second one; reducing legs keep their size. |
| `Risk.ApprovedSecondLeg` | backend/app/engine/risk.py:85-115 | A reversal's surviving second leg is the one approved for the book after the close. |
| `Risk.SecondLegSurvivesIff` | backend/app/engine/risk.py:85-115 | A reversal closes in full and keeps its opening leg if and only if the post-close book approves it. |
| `Risk.HaltApprovesOnlyReductions` | backend/app/engine/risk.py:56-73 | Under any halt whatever is approved is reducing, and a reversal loses its opening leg. |
| `Risk.EachHaltDenies` | backend/app/engine/risk.py:56-73 | Each of the ten named conditions by itself denies an opening leg unchanged; without any of them they play no part. |
| `Risk.InoperableDenies` | backend/app/engine/risk.py:53-78 | Without a credential or on stale data nothing passes, reductions included; idle plans are skipped. |
| `Risk.ReductionsAlwaysPass` | backend/app/engine/risk.py:56-118 | With a credential and fresh data a reducing leg is allowed in full, whatever the halts and caps. |
| `Risk.EvaluateStable` | backend/app/engine/risk.py:53-174 | Evaluating a decision's plan again in the same context returns that plan, and allows it if it was approved. |
| `Risk.PlansFlatten` | backend/app/engine/sizing.py:285-307 | Every plan satisfies the condition of the stability result: first legs of reversals are reduce-only. |
| `Risk.LooserNeverLowers` | backend/app/engine/risk.py:132-174 | Loosening any limits, and any gain of margin or equity beside them, never lowers the opening size approved for a plan, second legs included. |
| `ClosedLoop.TickMovesTowardTarget` | backend/app/engine/sizing.py:193-307 | One tick with any partial fills moves the position toward the target by exactly what filled and never past it. |
| `ClosedLoop.NeverOvershoots` | backend/app/engine/sizing.py:193-307 | Under every run of partial fills and risk contexts, second reversal legs after partial first legs included, the position stays between start and target and the distance drops by a lot per filling tick. |
| `ClosedLoop.FillsBounded` | backend/app/engine/sizing.py:119-122 | The ticks that fill a lot number at most the whole lots of the initial distance. |
| `ClosedLoop.HaltedRunShrinks` | backend/app/engine/risk.py:56-73 | While a halt is in force no sequence of fills enlarges or flips the position. |
| `ClosedLoop.RiskEnvelope` | backend/app/engine/risk.py:85-174 | With a consistent book, executing all that was approved leaves exposures, leverage, per-trade notional, margin and position count within limits whenever a leg increases exposure. |
| `ClosedLoop.AfterCloseIsFlatBook` | backend/app/engine/risk.py:86-105 | The book a second leg is judged on is exactly the follower's consistent book with this asset flat, under the same limits. |
| `RateLimiter.RunInv` | backend/app/adapters/ratelimit.py:158-292 | Reserve, settle, read and key-expiry steps in any order keep the invariant: the live rows of every key are exactly the live charges of its scope, and the caps hold. |
| `RateLimiter.ExpireInv` | backend/app/adapters/ratelimit.py:202-205 | A key that expires holds nothing live: losing it loses no charge. |
| `RateLimiter.SettleInv` | backend/app/adapters/ratelimit.py:246-292 | Settlement, repeated or late included, keeps the invariant of both keys. |
| `RateLimiter.WindowBound` | backend/app/adapters/ratelimit.py:158-219 | In every run the live weight, and the settled weight of all admissions in any half-open 60-second window, stay within total minus reserve, and within each lane's named share. |
| `RateLimiter.AdmissionRecorded` | backend/app/adapters/ratelimit.py:201-219 | An admission is charged in full from its own time, in the whole budget and its lane, both kept for 120 seconds; a refusal is charged nothing. |
| `RateLimiter.DefaultShares` | backend/app/adapters/ratelimit.py:77-101 | The default shares validate, use up the 1200 exactly and protect a quarter for the master's state. |
| `RateLimiter.LiveUnion` | backend/app/adapters/ratelimit.py:188-205 | The live rows of the whole budget are the disjoint union of the live rows of the lanes. |
| `RateLimiter.WholeIsSumOfLanes` | backend/app/adapters/ratelimit.py:199-205 | What is charged in all is the sum of what the five lanes are charged. |
| `RateLimiter.FitsIsRoom` | backend/app/adapters/ratelimit.py:188-201 | The sums the script computes after pruning are the true charges, although expired rows linger in the other keys. |
| `RateLimiter.LaneIsolation` | backend/app/adapters/ratelimit.py:146-207 | With a validated budget a positive reservation succeeds exactly when its own lane has room, and exactly when its weight is within the reported headroom. |
| `RateLimiter.OtherLanesCannotStarve` | backend/app/adapters/ratelimit.py:94-116 | No traffic on other lanes changes the outcome of a reservation. |
| `RateLimiter.WeightedRateLimiter.constructor` | backend/app/adapters/ratelimit.py:126-136 | A new limiter with a validated budget has an empty keyspace and satisfies the invariant. |
| `RateLimiter.WeightedRateLimiter.SumRows` | backend/app/adapters/ratelimit.py:190-198 | The summing loop returns the total weight. |
| `RateLimiter.WeightedRateLimiter.UsedWeight` | backend/app/adapters/ratelimit.py:138-144 | The reported use is the true charge of the trailing window and within the cap. |
| `RateLimiter.WeightedRateLimiter.TryReserveWeight` | backend/app/adapters/ratelimit.py:158-219 | The script is the reservation step, keeps the invariant, and succeeds exactly when the lane has room. |
| `RateLimiter.WeightedRateLimiter.SettleTo` | backend/app/adapters/ratelimit.py:246-292 | The script is the settlement step and keeps the invariant; a weight outside zero to the reservation is refused without effect. |
| `ReadAccounting.ResponseWeight` | backend/app/adapters/hyperliquid.py:162-187 | The response weight never exceeds what was reserved, and below the cap charges one unit per started twenty items. |
| `ReadAccounting.OthersKeepMine` | backend/app/adapters/ratelimit.py:158-292 | No steps of other processes change what this reader's reservations are charged. |
| `ReadAccounting.VariableReadsSettleExactly` | backend/app/adapters/hyperliquid.py:162-187 | The worst cases reserved by both variable-weight callers cover every response, so settlement is to the true weight. |
| `ReadAccounting.GivesUpIff` | backend/app/adapters/ratelimit.py:225-244 | Whatever others do between polls, polling gives up exactly when the lane itself was full at every poll. |
| `ReadAccounting.Reader.ReserveOrGiveUp` | backend/app/adapters/ratelimit.py:225-244 | Polling returns a reservation of its own for the full weight, or nothing exactly when every poll found the lane full; earlier reservations stay charged as they were. |
| `ReadAccounting.Reader.ReserveAttempt` | backend/app/adapters/hyperliquid.py:440-467 | Each attempt is covered by a reservation distinct from all earlier ones, which stay charged in full; it is refused exactly when the lane was full at every poll. |
| `ReadAccounting.Reader.SettleLast` | backend/app/adapters/hyperliquid.py:473-507 | Only the successful call is settled; an implausible weight or a failed settlement keeps the pessimistic charge. |
| `ReadAccounting.Reader.AttemptRead` | backend/app/adapters/hyperliquid.py:440-507 | One attempt calls unless the lane was full throughout, and leaves its own call charged in full unless it succeeded. |
| `ReadAccounting.Reader.Judge` | backend/app/adapters/hyperliquid.py:507-533 | A read goes on exactly after a timeout or transient failure that was not the last attempt; a rate-limited failure of a low-priority read opens the cooldown. |
| `ReadAccounting.Reader.Read` | backend/app/adapters/hyperliquid.py:429-539 | At most `attempts` calls, each under its own reservation, outside any cooldown and after failures to be retried only; each result occurs only in its own situation; the charge left is failed calls times the reservation plus the settled weight; the last statement is unreachable. |
| `Lease.WatcherLease.constructor` | backend/app/db/lease.py:80-98 | A new lease holds nothing. |
| `Lease.WatcherLease.TryAcquire` | backend/app/db/lease.py:115-158 | Succeeds exactly when the row is absent, past its expiry or already ours; then the row is ours with the next token and a full TTL. |
| `Lease.WatcherLease.Renew` | backend/app/db/lease.py:160-198 | Extends the row exactly when holder and token still match and never changes the token; otherwise the row is untouched and the lease is given up as lost. |
| `Lease.WatcherLease.Release` | backend/app/db/lease.py:200-218 | Expires the row only if it is still ours, and forgets the token. |
| `Lease.WatcherLease.GuardedWriteWith` | backend/app/db/lease.py:263-287 | A write is accepted exactly when a token is held, the stored token does not exceed it and the write's own condition matches. |
| `Lease.WatcherLease.RenewalLoop` | backend/app/db/lease.py:250-260 | Database failures are retried; the loop ends exactly at the first definitive rejection, and until then every round that reached the row extended it. |
| `Lease.RunInv` | backend/app/db/lease.py:126-218 | In every run the stored token equals the number of acquisitions, never decreases, and accepted writes carry granted tokens in order. |
| `Lease.OneWriter` | backend/app/db/lease.py:263-287 | In every reachable state exactly the process granted the stored token can pass the fence, so at most one can, whatever the clocks. |
| `Lease.AcquireIff` | backend/app/db/lease.py:126-151 | In every reachable state an acquisition is granted exactly when the lease is unclaimed, expired or held under the same identity; the grantee is then the writer, with the next token. |
| `Lease.Takeover` | backend/app/db/lease.py:126-151 | A dead holder is replaced: whoever asks after the expiry becomes the one writer. |
| `Lease.ReleaseFrees` | backend/app/db/lease.py:200-218 | After the holder's release every process acquires at every later time. |
| `Lease.WriteAcceptedIff` | backend/app/db/lease.py:263-287 | A matching write is accepted exactly from the latest grantee under its latest token. |
| `Lease.WriteLog` | backend/app/db/lease.py:263-287 | Accepted writes carry non-decreasing tokens with one writer per token, and never one below the token stored earlier. |
| `Lease.DeposedIsHarmless` | backend/app/db/lease.py:160-218 | A deposed process changes nothing in the successor's row with any token it ever held, and none of its writes is accepted. |
| `Lease.TenuresDisjoint` | backend/app/db/lease.py:115-158 | With one shared clock the lease intervals of two holders never overlap. |
| `Lease.NeverDeposed` | backend/app/db/lease.py:160-260 | With one shared clock a holder whose own renewals have gaps of at most the TTL stays the holder, whatever others attempt and whenever. |
| `Lease.RivalTakesIff` | backend/app/db/lease.py:115-218 | After the holder's latest success a rival takes the lease exactly when it comes later than that success plus the TTL, or later than the release. |
| `Lease.TimedAgrees` | backend/app/db/lease.py:115-218 | Every run of the protocol has, on the row, the timed history that the two results above are about. |
| `AddressCadence.RunInv` | backend/app/adapters/address_ratelimit.py:154-282 | Under every interleaving of Redis commands the slot outlives the last reservation by its full ten seconds, unless a report of fewer requests used than the cap came after it. |
| `AddressCadence.ReservationsSpaced` | backend/app/adapters/address_ratelimit.py:154-181 | Two slot reservations are at least ten seconds apart unless between them the exchange reported used < cap. |
| `AddressCadence.ModeIff` | backend/app/adapters/address_ratelimit.py:275-282 | In every reachable state the throttled mode is on exactly when the latest report had used >= cap and is less than 60 seconds old. |
| `AddressCadence.ReportsRecorded` | backend/app/adapters/address_ratelimit.py:273-282 | A numeric report counts at its own time and deletes the slot only below the cap; a partial one changes nothing. |
| `AddressCadence.AtCapHoldsAMinute` | backend/app/adapters/address_ratelimit.py:275-280 | After a report at the cap the mode stays on for 60 seconds, unless one below the cap follows. |
| `AddressCadence.AtCapForcesReservations` | backend/app/adapters/address_ratelimit.py:171-177 | Within that time every caller released went through the slot. |
| `AddressCadence.ReleasedUnreservedIff` | backend/app/adapters/address_ratelimit.py:171-173 | A caller at its mode check is released without the slot exactly when the latest report was below the cap or is a minute old. |
| `AddressCadence.SlotHoldsBack` | backend/app/adapters/address_ratelimit.py:162-169 | A slot holds back every caller that has yet to look at it until it ends, unless a below-cap report deletes it. |
| `AddressCadence.ThrottleDelays` | backend/app/adapters/address_ratelimit.py:219-238 | Throttle evidence keeps callers that start after it waiting for ten seconds. |
| `AddressCadence.ReestablishDelays` | backend/app/adapters/address_ratelimit.py:198-217 | Re-establishing the slot under the mode restores the full ten seconds; without the mode nothing changes. |
| `AddressCadence.ReleasesAreLogged` | backend/app/adapters/address_ratelimit.py:171-177 | A caller leaves its reservation exactly when its release is on record. |
| `AddressCadence.OnlyReservations` | backend/app/adapters/address_ratelimit.py:171-177 | While the throttled mode holds, every caller released went through a reservation, and nothing clears the slot. |
| `AddressCadence.ReleasesBounded` | backend/app/adapters/address_ratelimit.py:154-282 | While the throttled mode holds over an interval of length L at most floor(L / 10 s) + 1 callers are released in it. |
| `AddressCadence.CheckedReleasesBounded` | backend/app/adapters/address_ratelimit.py:162-181 | Of the callers whose mode check fell in an interval starting at `since`, at most floor((horizon - since) / 10 s) + 1 are released with the slot by the horizon, if no snapshot cleared it. |
| `AddressCadence.CheckedReleasesAttained` | backend/app/adapters/address_ratelimit.py:162-181 | That bound is reached: for every start and horizon by some run without a clearing snapshot. |
| `AddressCadence.ChecksDoNotBound` | backend/app/adapters/address_ratelimit.py:171-177 | For every n, some run releases n callers that all checked the mode in the same instant, ten seconds apart: counting by checks alone has no bound by the interval's length. |
| `AddressCadence.AddressActionTracker.MarkThrottledNow` | backend/app/adapters/address_ratelimit.py:231-238 | Throttle evidence takes the slot for ten seconds, whoever holds it. |
| `AddressCadence.AddressActionTracker.RecordExchangeSnapshot` | backend/app/adapters/address_ratelimit.py:273-282 | A report at the cap sets the mode for 60 seconds, one below deletes mode and slot, a partial one changes nothing. |
| `AddressCadence.AddressActionTracker.SlotPttl` | backend/app/adapters/address_ratelimit.py:162-169 | The first command of a round is a step of the protocol and sends the caller on exactly when the slot is free. |
| `AddressCadence.AddressActionTracker.ModeExists` | backend/app/adapters/address_ratelimit.py:171-173 | The mode check is a step of the protocol and releases the caller exactly when the mode is off. |
| `AddressCadence.AddressActionTracker.SetSlotNx` | backend/app/adapters/address_ratelimit.py:175-181 | The reservation is a step of the protocol; the caller is released holding the slot in full, or the slot was taken. |
| `AddressCadence.AddressActionTracker.ReserveSubmissionSlot` | backend/app/adapters/address_ratelimit.py:154-181 | Under every schedule of other callers' steps between its commands the loop is a run of the protocol, and lets the caller through exactly when that run releases it. |
| `RefreshTokens.RunInv` | backend/app/api/auth.py:127-202 | Every run of logins, refreshes, crashed refreshes and logouts keeps the chain of each open session: one un-rotated head, ahead of it only tokens never answered, behind it only handles outlived by their successors. |
| `RefreshTokens.OneUnrotated` | backend/app/api/auth.py:149-202 | A session in force and not broken has exactly one live un-rotated token among those ever answered; live tokens behind it name their live successors; without crashes every stored token was answered. |
| `RefreshTokens.ReplayIsIdempotent` | backend/app/api/auth.py:176-188 | A replay inside grace returns the same successor and changes no record: grace is not extended. |
| `RefreshTokens.BreaksIff` | backend/app/api/auth.py:280-355 | One request costs an open session its single head if and only if it deletes the head or the successor of a replayable handle, by a logout with another session's claims or a refresh of an invalid user, or refreshes a token never answered. |
| `RefreshTokens.CrashLeavesBoth` | backend/app/api/auth.py:190-193 | A crash leaves the head as it was and its successor stored beside it, un-rotated and unanswered. |
| `RefreshTokens.CrashThenRetry` | backend/app/api/auth.py:190-202 | After a crash between storing the successor and writing the handle, a retry gets the answer it would have got without the crash and, if that is a success, restores the same state. |
| `RefreshTokens.RevivalNeedsDisturbance` | backend/app/api/auth.py:186-188 | A successful replay changes the store exactly when the successor's record is gone, and then only in a session that such a request broke. |
| `RefreshTokens.RefreshSucceedsIff` | backend/app/api/auth.py:280-325 | The answer in every reachable state: expired exactly without a live record, revoked after a logout, refused to an invalid user, otherwise the successor; bad rotation states and ended graces are never found. |
| `RefreshTokens.RefusalDeletes` | backend/app/api/auth.py:302-317 | A refusal deletes the presented record and nothing else; a logout deletes its cookie's record. |
| `RefreshTokens.DeniedOnlyByLogout` | backend/app/api/auth.py:346-350 | Only a logout with its own claims denies a session. |
| `RefreshTokens.SessionLifetime` | backend/app/api/auth.py:260-273 | Left alone, a session's one head refreshes at every time before its login plus the TTL. |
| `RefreshTokens.ReplayLifetime` | backend/app/api/auth.py:176-202 | A replaced token is answered with the same successor at every time before rotation plus grace and before the session's end, if the session is left alone and the record not deleted. |
| `RefreshTokens.NeverPastAbsoluteExpiry` | backend/app/api/auth.py:163-170 | Whatever requests follow, no token of a session refreshes at or after the time of its login plus the TTL. |
| `RefreshTokens.LogoutDenies` | backend/app/api/auth.py:346-350 | The deny entry of the session, and of no other, lasts until its absolute expiry: exactly with the expiry claim, at least without. |
| `RefreshTokens.LogoutIsFinal` | backend/app/api/auth.py:306-350 | After a logout no token of that session family ever refreshes, whatever requests follow. |
| `RefreshTokens.ForeignCookieRevives` | backend/app/api/auth.py:352-354 | A logout with another session's refresh cookie leads to two live un-rotated tokens in that other session. |
| `RefreshTokens.SessionStore.constructor` | backend/app/api/auth.py:127-140 | The empty store satisfies the invariant. |
| `RefreshTokens.SessionStore.StoreFresh` | backend/app/api/auth.py:127-140 | A credential is stored until its absolute expiry exactly when the session is neither over nor denied. |
| `RefreshTokens.SessionStore.HandleLogin` | backend/app/api/auth.py:260-273 | A login starts a session whose root token lives until login plus TTL, and keeps the invariant. |
| `RefreshTokens.SessionStore.RotateToken` | backend/app/api/auth.py:149-202 | Equals the rotation step in every branch: bad state, grace over, replay, re-store, first rotation. |
| `RefreshTokens.SessionStore.ProcessRefresh` | backend/app/api/auth.py:290-325 | Equals the refresh step with its checks in order, each failure after the lookup deleting the credential. |
| `RefreshTokens.SessionStore.HandleRefresh` | backend/app/api/auth.py:280-325 | The same, keeping the invariant. |
| `RefreshTokens.SessionStore.CrashInRefresh` | backend/app/api/auth.py:190-193 | Equals the crash step and keeps the invariant. |
| `RefreshTokens.SessionStore.ProcessLogout` | backend/app/api/auth.py:341-354 | Equals the logout step: the family is denied, the presented credential deleted. |
| `RefreshTokens.SessionStore.HandleLogout` | backend/app/api/auth.py:339-355 | The same, keeping the invariant and leaving the family denied for good. |
| `SignedCall.RunInv` | backend/app/adapters/hyperliquid.py:316-406 | In every run a signer's lock is held by exactly the call in its critical section, and workers run only there while their call was cancelled at most once. |
| `SignedCall.LockHeldIff` | backend/app/adapters/hyperliquid.py:378-406 | In every reachable state a call between the start of its preparation and the end of its SDK invocation holds its signer's lock if and only if the run cancelled it at most once. |
| `SignedCall.InvocationsNeverOverlap` | backend/app/adapters/hyperliquid.py:378-406 | Invocations of one signer by calls cancelled at most once never overlap. |
| `SignedCall.AtMostOnceAfterAuthorization` | backend/app/adapters/hyperliquid.py:349-367 | In the steps of any run a call enters the SDK at most once, after its callback finished without error and after that the writer fence passed. |
| `SignedCall.LockIsReleased` | backend/app/adapters/hyperliquid.py:378-406 | From every reachable state some continuation releases a held lock: no signer is locked for good. |
| `SignedCall.TwoCancellationsOverlap` | backend/app/adapters/hyperliquid.py:390-397 | With two cancellations of one call, two SDK invocations of one signer can run at the same time. |

## Left out

- Decimal context precision, the `float` conversions at submission, and the texts of reasons and notes.
- ClosedLoop.RiskEnvelope: is stated, for reversals, for `sz_decimals` of zero or more, as every market has; trimming would use a finer lot than planning otherwise. The book is consistent as in `services/execution.py` lines 868-897.
- Risk.LooserNeverLowers: excludes more equity under a negative leverage limit on a book of negative exposure, where it means less headroom.
- Risk.EvaluateStable: is stated for plans whose reversals flatten first, which `PlansFlatten` shows of every plan.
- ReadAccounting.Reader.Read: covers reads with a limiter and a positive weight, as every caller passes; metrics, logging and the length of backoff sleeps are not modelled.
- RateLimiter.WeightedRateLimiter.SettleTo: takes tokens that the limiter handed out; forged tokens are not modelled. Budget shares are natural numbers, and a member's uuid is its number in the log.
- RateLimiter.WeightedRateLimiter.constructor: an over-allocated budget, which the code rejects with an error, is its precondition; likewise the renewal interval in `Lease.WatcherLease.constructor`.
- RefreshTokens: concurrent requests on one token, malformed stored payloads, the deny entry of the access token, cookies and rate limits. HMAC derivations are free constructors.
- AddressCadence: the accounting counters, and Redis failures inside `mark_throttled`.
- SignedCall: executor shutdown, the explicit rate-limit classification of responses, and failures of the lock's database connection.
- The admin views of limiter, lease and address state (`snapshot`, `read`, `lane_limits`): lookups.
- `engine/states.py` transition tables and `db/position_ledger_lock.py`: only easy members.
- The RISEx adapter, HTTP and WebSocket transport, billing, activation and admin handlers, schemas, migrations, frontend and scripts.
