/**
 Bounded idempotent reads (`adapters/hyperliquid.py: _read`) and their accounting in the shared limiter.

 Everything outside the reader is an arbitrary environment: clocks, SDK outcomes, whether a settlement
 reaches Redis, and the limiter steps of any number of other processes between any two of ours.
 */
module ReadAccounting {
  import opened Decimals
  import opened RateLimiter

  const WEIGHT_STANDARD_INFO := 20
  const WEIGHT_USER_FILLS_MAX := 120
  const WEIGHT_USER_FUNDING_MAX := 45

  /** An SDK response, as far as its weight is concerned: a list of items, or something else. */
  datatype Response = Items(count: nat) | Opaque

  /** Standard weight plus one per twenty items, capped; a non-list is charged the cap. */
  function ResponseWeight(r: Response, maxWeight: nat): (w: nat)
    ensures w <= maxWeight
    ensures r.Opaque? || r.count > 20 * (maxWeight - WEIGHT_STANDARD_INFO) ==> w == maxWeight
    ensures r.Items? && r.count <= 20 * (maxWeight - WEIGHT_STANDARD_INFO) && maxWeight >= WEIGHT_STANDARD_INFO ==>
              20 * (w - WEIGHT_STANDARD_INFO) >= r.count > 20 * (w - WEIGHT_STANDARD_INFO) - 20
  {
    match r
    case Opaque => maxWeight
    case Items(n) =>
      var w := WEIGHT_STANDARD_INFO + (n + 19) / 20;
      if w < maxWeight then w else maxWeight
  }

  function UserFillsWeight(r: Response): int { ResponseWeight(r, WEIGHT_USER_FILLS_MAX) }

  function UserFundingWeight(r: Response): int { ResponseWeight(r, WEIGHT_USER_FUNDING_MAX) }

  // ----- the environment -----

  datatype CallOutcome = Returned(response: Response) | TimedOut | Failed(rateLimited: bool, transient: bool)

  /** One poll of the limiter: what others did before it, and the wall clock it reads. */
  datatype Poll = Poll(others: seq<Op>, now: real)

  /** One attempt: the first poll and those made until the deadline passed, the SDK outcome, and the settlement. */
  datatype Attempt = Attempt(mono: real, first: Poll, more: seq<Poll>, outcome: CallOutcome, others: seq<Op>, settles: bool, monoAfter: real) {
    function Polls(): seq<Poll> {
      [first] + more
    }
  }

  datatype ReadResult =
    | Value(response: Response)
    | CooldownActive
    | LimiterExhausted
    | ReadTimeout
    | ReadFailed
    | UnreachableState

  /** Another process may take any enabled limiter step except settling our reservations. */
  predicate Foreign(s: State, mine: seq<nat>, op: Op) {
    Enabled(s, op) && (op.Settle? && op.reservation.reserved > 0 ==> op.reservation.member.id !in mine)
  }

  function Others(s: State, b: Budget, mine: seq<nat>, ops: seq<Op>): State
    decreases |ops|
  {
    if ops == [] then s
    else Others(if Foreign(s, mine, ops[0]) then Apply(s, b, ops[0]) else s, b, mine, ops[1..])
  }

  /** Others never touch the charges of our reservations, and the history only grows. */
  lemma {:induction false} OthersKeepMine(s: State, b: Budget, mine: seq<nat>, ops: seq<Op>)
    requires Inv(s, b)
    ensures var s' := Others(s, b, mine, ops);
            && Inv(s', b) && |s.log| <= |s'.log| && s.clock <= s'.clock
            && forall i :: i in mine && i < |s.log| ==> s'.log[i] == s.log[i]
    decreases |ops|
  {
    if ops == [] {
    } else {
      var s1 := if Foreign(s, mine, ops[0]) then Apply(s, b, ops[0]) else s;
      if Foreign(s, mine, ops[0]) { StepInv(s, b, ops[0]); }
      OthersKeepMine(s1, b, mine, ops[1..]);
    }
  }

  /** The weight our reservations are charged. */
  function ChargeOf(log: seq<Charge>, mine: seq<nat>): nat {
    if mine == [] then 0
    else
      var last := mine[|mine| - 1];
      ChargeOf(log, mine[..|mine| - 1]) + (if last < |log| then log[last].weight else 0)
  }

  lemma {:induction false} UniformCharge(log: seq<Charge>, mine: seq<nat>, weight: nat)
    requires forall k :: 0 <= k < |mine| ==> mine[k] < |log|
    requires forall k :: 0 <= k < |mine| ==> log[mine[k]].weight == weight
    ensures ChargeOf(log, mine) == |mine| * weight
  {
    if mine == [] {
    } else {
      var n := |mine| - 1;
      UniformCharge(log, mine[..n], weight);
      assert n * weight + weight == (n + 1) * weight;
    }
  }

  /** Our reservations so far: distinct, on our lane, each still charged in full. */
  predicate Holding(log: seq<Charge>, mine: seq<nat>, first: nat, weight: nat, lane: Priority) {
    && (forall k :: 0 <= k < |mine| ==>
          first <= mine[k] < |log| && log[mine[k]].reserved == weight && log[mine[k]].weight == weight && log[mine[k]].lane == lane)
    && (forall j, k :: 0 <= j < k < |mine| ==> mine[j] < mine[k])
  }

  /** Reservations made since the log had `first` entries, in order. */
  predicate MadeSince(log: seq<Charge>, mine: seq<nat>, first: nat) {
    && (forall k :: 0 <= k < |mine| ==> first <= mine[k] < |log|)
    && (forall j, k :: 0 <= j < k < |mine| ==> mine[j] < mine[k])
  }

  /** What a successful read leaves charged for its last call. */
  function FinalWeight(weightOf: Option<Response -> int>, response: Response, settles: bool, weight: nat): nat {
    if weightOf.Some? && settles && 0 <= weightOf.value(response) <= weight then weightOf.value(response) else weight
  }

  /** The worst case that both variable-weight callers reserve covers every response: settlement is to the true weight. */
  lemma VariableReadsSettleExactly(r: Response)
    ensures FinalWeight(Some(UserFillsWeight), r, true, WEIGHT_USER_FILLS_MAX) == UserFillsWeight(r)
    ensures FinalWeight(Some(UserFundingWeight), r, true, WEIGHT_USER_FUNDING_MAX) == UserFundingWeight(r)
    ensures 20 <= UserFundingWeight(r) <= 45 && 20 <= UserFillsWeight(r) <= 120
    ensures UserFundingWeight(Items(0)) == UserFillsWeight(Items(0)) == 20
    ensures UserFundingWeight(Items(500)) == 45 && UserFillsWeight(Items(2000)) == 120
  {
    var fills: Option<Response -> int> := Some(UserFillsWeight);
    var funding: Option<Response -> int> := Some(UserFundingWeight);
    assert fills.value(r) == UserFillsWeight(r) && funding.value(r) == UserFundingWeight(r);
  }

  // ----- polling -----

  /** The limiter as the next poll finds it, and the time it is asked for. */
  function Polled(s: State, b: Budget, mine: seq<nat>, p: Poll): State {
    Others(s, b, mine, p.others)
  }

  function PollTime(s: State, b: Budget, mine: seq<nat>, p: Poll): real {
    Max(p.now, Polled(s, b, mine, p).clock)
  }

  /** Where polling leads, and what it gets. */
  function PollRun(s: State, b: Budget, weight: nat, lane: Priority, polls: seq<Poll>, mine: seq<nat>): (State, Option<Reservation>)
    decreases |polls|
  {
    if polls == [] then (s, None)
    else
      var (s1, r) := Reserve(Polled(s, b, mine, polls[0]), b, weight, lane, PollTime(s, b, mine, polls[0]));
      if r.Some? then (s1, r) else PollRun(s1, b, weight, lane, polls[1..], mine)
  }

  /** The lane had no room at any poll. */
  predicate FullThroughout(s: State, b: Budget, weight: nat, lane: Priority, polls: seq<Poll>, mine: seq<nat>)
    decreases |polls|
  {
    polls == [] ||
    (var s1, now := Polled(s, b, mine, polls[0]), PollTime(s, b, mine, polls[0]);
     && Charged(s1.log, Lane(lane), now) + weight > b.Allowance(lane)
     && FullThroughout(Reserve(s1, b, weight, lane, now).0, b, weight, lane, polls[1..], mine))
  }

  /** Polling gives up exactly when the lane was full at every poll, whatever the other lanes carried. */
  lemma {:induction false} GivesUpIff(s: State, b: Budget, weight: nat, lane: Priority, polls: seq<Poll>, mine: seq<nat>)
    requires Inv(s, b) && b.Validated() && weight > 0
    ensures PollRun(s, b, weight, lane, polls, mine).1.None? <==> FullThroughout(s, b, weight, lane, polls, mine)
    decreases |polls|
  {
    if polls == [] {
    } else {
      var s1, now := Polled(s, b, mine, polls[0]), PollTime(s, b, mine, polls[0]);
      OthersKeepMine(s, b, mine, polls[0].others);
      LaneIsolation(s1, b, weight, lane, now);
      ReserveInv(s1, b, weight, lane, now);
      hide Inv, Reserve;
      GivesUpIff(Reserve(s1, b, weight, lane, now).0, b, weight, lane, polls[1..], mine);
    }
  }

  // ----- the retry policy -----

  /** The outcomes after which a read is tried again. */
  predicate Retried(outcome: CallOutcome) {
    outcome.TimedOut? || (outcome.Failed? && outcome.transient)
  }

  function Verdict(outcome: CallOutcome): ReadResult {
    match outcome
    case Returned(response) => Value(response)
    case TimedOut => ReadTimeout
    case Failed(_, _) => ReadFailed
  }

  /** The local circuit breaker before attempt `k`: opened by every rate-limited failure of a low-priority read. */
  function CooldownAt(initial: real, seconds: real, lane: Priority, env: nat -> Attempt, k: nat): (c: real)
    ensures initial <= c
    ensures !LowPriority(lane) ==> c == initial
  {
    if k == 0 then initial
    else CooldownAfter(CooldownAt(initial, seconds, lane, env, k - 1), seconds, lane, env(k - 1))
  }

  function CooldownAfter(cooldown: real, seconds: real, lane: Priority, e: Attempt): (c: real)
    ensures cooldown <= c
    ensures !LowPriority(lane) ==> c == cooldown
  {
    if e.outcome.Failed? && e.outcome.rateLimited && (lane == Reconcile || lane == Diagnostic) then Max(cooldown, e.monoAfter + seconds) else cooldown
  }

  predicate CoolingDown(lane: Priority, cooldown: real, e: Attempt) {
    (lane == Reconcile || lane == Diagnostic) && cooldown - e.mono > 0.0
  }

  /** The first `n` attempts each called: none in a cooldown, and all but the last to be tried again. */
  predicate CalledThrough(initial: real, seconds: real, lane: Priority, env: nat -> Attempt, n: nat) {
    n == 0 ||
    (&& CalledThrough(initial, seconds, lane, env, n - 1)
     && !CoolingDown(lane, CooldownAt(initial, seconds, lane, env, n - 1), env(n - 1))
     && (n >= 2 ==> Retried(env(n - 2).outcome)))
  }

  /** An attempt that is not in a cooldown and follows a retried one adds a call. */
  lemma OneMoreCall(initial: real, seconds: real, lane: Priority, env: nat -> Attempt, n: nat)
    requires CalledThrough(initial, seconds, lane, env, n) && (n > 0 ==> Retried(env(n - 1).outcome))
    requires !CoolingDown(lane, CooldownAt(initial, seconds, lane, env, n), env(n))
    ensures CalledThrough(initial, seconds, lane, env, n + 1)
    ensures CooldownAt(initial, seconds, lane, env, n + 1)
            == CooldownAfter(CooldownAt(initial, seconds, lane, env, n), seconds, lane, env(n))
  {
  }

  lemma NoCallYet(initial: real, seconds: real, lane: Priority, env: nat -> Attempt)
    ensures CalledThrough(initial, seconds, lane, env, 0) && CooldownAt(initial, seconds, lane, env, 0) == initial
  {
  }

  /** What each result says about the last attempt, numbered `calls - 1`, or the next one, numbered `calls`. */
  predicate Explains(result: ReadResult, env: nat -> Attempt, attempts: nat, calls: nat) {
    match result
    case Value(response) => 1 <= calls <= attempts && env(calls - 1).outcome == Returned(response)
    case CooldownActive => calls < attempts && (calls > 0 ==> Retried(env(calls - 1).outcome))
    case LimiterExhausted => calls < attempts && (calls > 0 ==> Retried(env(calls - 1).outcome))
    case ReadTimeout => 1 <= calls == attempts && env(calls - 1).outcome.TimedOut?
    case ReadFailed =>
      1 <= calls <= attempts && env(calls - 1).outcome.Failed? && (calls == attempts || !env(calls - 1).outcome.transient)
    case UnreachableState => false
  }

  /** `calls` calls charged in full. */
  function FullCharge(calls: nat, weight: nat): nat {
    calls * weight
  }

  /** What a read leaves charged: every failed call in full, and the last one as settled if it succeeded. */
  function LeftCharged(result: ReadResult, calls: nat, weight: nat, weightOf: Option<Response -> int>, env: nat -> Attempt): nat {
    if result.Value? && calls > 0 then
      FullCharge(calls - 1, weight) + FinalWeight(weightOf, result.response, env(calls - 1).settles, weight)
    else FullCharge(calls, weight)
  }

  lemma NothingYet(log: seq<Charge>, weight: nat, lane: Priority)
    ensures MadeSince(log, [], |log|) && Holding(log, [], |log|, weight, lane) && ChargeOf(log, []) == FullCharge(0, weight)
  {
  }

  predicate LowPriority(lane: Priority) {
    lane == Reconcile || lane == Diagnostic
  }

  class Reader {
    const limiter: WeightedRateLimiter
    var cooldownUntil: real
    const cooldownSeconds: real

    constructor (limiter: WeightedRateLimiter)
      ensures this.limiter == limiter && cooldownUntil == 0.0 && cooldownSeconds == 30.0
    {
      this.limiter := limiter;
      cooldownUntil := 0.0;
      cooldownSeconds := 30.0;
    }

    /** Any number of steps of other processes on the shared limiter. */
    method Interference(ops: seq<Op>, mine: seq<nat>)
      requires limiter.Valid()
      modifies limiter
      ensures limiter.Valid() && limiter.View() == Others(old(limiter.View()), limiter.budget, mine, ops)
      ensures |old(limiter.log)| <= |limiter.log| && old(limiter.clock) <= limiter.clock
      ensures forall i :: i in mine && i < |old(limiter.log)| ==> limiter.log[i] == old(limiter.log)[i]
    {
      OthersKeepMine(limiter.View(), limiter.budget, mine, ops);
      var after := Others(limiter.View(), limiter.budget, mine, ops);
      limiter.keys, limiter.log, limiter.clock := after.keys, after.log, after.clock;
    }

    /** Poll until a reservation is granted or the deadline has passed. */
    method ReserveOrGiveUp(weight: nat, lane: Priority, polls: seq<Poll>, mine: seq<nat>)
      returns (r: Option<Reservation>)
      requires limiter.Valid() && weight > 0 && forall i :: i in mine ==> i < |limiter.log|
      modifies limiter
      ensures limiter.Valid() && |old(limiter.log)| <= |limiter.log|
      ensures (limiter.View(), r) == PollRun(old(limiter.View()), limiter.budget, weight, lane, polls, mine)
      ensures r.None? <==> FullThroughout(old(limiter.View()), limiter.budget, weight, lane, polls, mine)
      ensures forall i :: i in mine ==> limiter.log[i] == old(limiter.log)[i]
      ensures r.Some? ==>
                && |old(limiter.log)| < |limiter.log|
                && r.value == Reservation(Member(weight, |limiter.log| - 1), lane, weight)
                && limiter.log[|limiter.log| - 1].(time := 0.0) == Charge(lane, 0.0, weight, weight)
    {
      r := None;
      GivesUpIff(limiter.View(), limiter.budget, weight, lane, polls, mine);
      for k := 0 to |polls|
        invariant limiter.Valid() && |old(limiter.log)| <= |limiter.log| && r.None?
        invariant forall i :: i in mine ==> limiter.log[i] == old(limiter.log)[i]
        invariant PollRun(old(limiter.View()), limiter.budget, weight, lane, polls, mine)
                  == PollRun(limiter.View(), limiter.budget, weight, lane, polls[k..], mine)
      {
        assert polls[k..][0] == polls[k] && polls[k..][1..] == polls[k + 1..];
        Interference(polls[k].others, mine);
        var now := Max(polls[k].now, limiter.clock);
        r := limiter.TryReserveWeight(weight, lane, now);
        if r.Some? { return; }
      }
    }

    /** One attempt up to the SDK call: a reservation of its own, then whatever others do meanwhile. */
    method ReserveAttempt(weight: nat, lane: Priority, e: Attempt, mine: seq<nat>, ghost first: nat)
      returns (r: Option<Reservation>, mine': seq<nat>)
      requires limiter.Valid() && weight > 0 && first <= |limiter.log| && Holding(limiter.log, mine, first, weight, lane)
      modifies limiter
      ensures limiter.Valid() && first <= |limiter.log| && Holding(limiter.log, mine', first, weight, lane)
      ensures r.None? ==>
                mine' == mine && limiter.View() == PollRun(old(limiter.View()), limiter.budget, weight, lane, e.Polls(), mine).0
      ensures r.None? <==> FullThroughout(old(limiter.View()), limiter.budget, weight, lane, e.Polls(), mine)
      ensures r.Some? ==> |mine'| == |mine| + 1 && r.value == Reservation(Member(weight, mine'[|mine|]), lane, weight)
    {
      hide Inv, PollRun, FullThroughout, Others;
      mine' := mine;
      r := ReserveOrGiveUp(weight, lane, e.Polls(), mine);
      if r.Some? {
        mine' := mine + [|limiter.log| - 1];
        assert Holding(limiter.log, mine', first, weight, lane);
        Interference(e.others, mine');
      }
    }

    /** One whole attempt: reserve, call, and settle if the call succeeded; `called` unless the lane was full. */
    method AttemptRead(weight: nat, lane: Priority, weightOf: Option<Response -> int>, e: Attempt, mine: seq<nat>, ghost first: nat)
      returns (called: bool, mine': seq<nat>)
      requires limiter.Valid() && weight > 0 && first <= |limiter.log| && Holding(limiter.log, mine, first, weight, lane)
      modifies limiter
      ensures limiter.Valid() && first <= |limiter.log| && MadeSince(limiter.log, mine', first)
      ensures !called <==> FullThroughout(old(limiter.View()), limiter.budget, weight, lane, e.Polls(), mine)
      ensures if called then |mine'| == |mine| + 1 else mine' == mine
      ensures !called ==> limiter.View() == PollRun(old(limiter.View()), limiter.budget, weight, lane, e.Polls(), mine).0
      ensures !called || !e.outcome.Returned? ==>
                Holding(limiter.log, mine', first, weight, lane) && ChargeOf(limiter.log, mine') == FullCharge(|mine'|, weight)
      ensures called && e.outcome.Returned? ==>
                ChargeOf(limiter.log, mine') == FullCharge(|mine|, weight) + FinalWeight(weightOf, e.outcome.response, e.settles, weight)
    {
      hide Inv, FullThroughout, PollRun, ChargeOf;
      var r;
      r, mine' := ReserveAttempt(weight, lane, e, mine, first);
      called := r.Some?;
      UniformCharge(limiter.log, mine', weight);
      if called && e.outcome.Returned? {
        SettleLast(r.value, e.outcome.response, weightOf, e.settles, mine', first, weight, lane);
      }
    }

    /** What the outcome of a call means: the result of the read, or another attempt. */
    method Judge(e: Attempt, lane: Priority, last: bool) returns (verdict: Option<ReadResult>)
      modifies this`cooldownUntil
      ensures cooldownUntil == CooldownAfter(old(cooldownUntil), cooldownSeconds, lane, e)
      ensures verdict.None? <==> Retried(e.outcome) && !last
      ensures verdict.Some? ==> verdict.value == Verdict(e.outcome)
    {
      match e.outcome {
        case Returned(response) =>
          verdict := Some(Value(response));
        case TimedOut =>
          verdict := if last then Some(ReadTimeout) else None;
        case Failed(rateLimited, transient) =>
          if rateLimited && LowPriority(lane) {
            cooldownUntil := Max(cooldownUntil, e.monoAfter + cooldownSeconds);
          }
          verdict := if last || !transient then Some(ReadFailed) else None;
      }
    }

    /**
     At most `retries` SDK calls, but at least one attempt; each under a reservation of its own; only the
     successful one is settled. `mine` are the reservations made, in order; there is one SDK call for each.
     `before` is the limiter at the start of the last attempt.
     */
    method Read(weight: nat, lane: Priority, weightOf: Option<Response -> int>, retries: int, env: nat -> Attempt)
      returns (result: ReadResult, mine: seq<nat>, ghost before: State)
      requires limiter.Valid() && weight > 0
      modifies this, limiter
      ensures limiter.Valid() && MadeSince(limiter.log, mine, |old(limiter.log)|)
      ensures ChargeOf(limiter.log, mine) == LeftCharged(result, |mine|, weight, weightOf, env)
      // the retry policy
      ensures Explains(result, env, if retries > 1 then retries else 1, |mine|)
      ensures CalledThrough(old(cooldownUntil), cooldownSeconds, lane, env, |mine|)
      ensures cooldownUntil == CooldownAt(old(cooldownUntil), cooldownSeconds, lane, env, |mine|)
      ensures result == CooldownActive ==> CoolingDown(lane, cooldownUntil, env(|mine|))
      ensures result == LimiterExhausted ==>
                && !CoolingDown(lane, cooldownUntil, env(|mine|))
                && FullThroughout(before, limiter.budget, weight, lane, env(|mine|).Polls(), mine)
                && limiter.View() == PollRun(before, limiter.budget, weight, lane, env(|mine|).Polls(), mine).0
      ensures mine == [] ==> before == old(limiter.View())
    {
      hide Inv, FullThroughout, PollRun, ChargeOf, FinalWeight, Holding, MadeSince, FullCharge, CooldownAt, CooldownAfter, CalledThrough;
      mine := [];
      var attempts := if retries > 1 then retries else 1;
      ghost var first := |limiter.log|;
      before := limiter.View();
      NothingYet(limiter.log, weight, lane);
      NoCallYet(cooldownUntil, cooldownSeconds, lane, env);
      for attempt := 0 to attempts
        invariant limiter.Valid() && first <= |limiter.log|
        invariant |mine| == attempt < attempts && (attempt == 0 ==> limiter.View() == old(limiter.View()))
        invariant mine == [] ==> before == old(limiter.View())
        invariant MadeSince(limiter.log, mine, first) && Holding(limiter.log, mine, first, weight, lane)
        invariant ChargeOf(limiter.log, mine) == FullCharge(|mine|, weight)
        invariant attempt > 0 ==> Retried(env(attempt - 1).outcome)
        invariant CalledThrough(old(cooldownUntil), cooldownSeconds, lane, env, attempt)
        invariant cooldownUntil == CooldownAt(old(cooldownUntil), cooldownSeconds, lane, env, |mine|)
      {
        var e := env(attempt);
        if LowPriority(lane) && cooldownUntil - e.mono > 0.0 {
          result := CooldownActive;
          return;
        }
        OneMoreCall(old(cooldownUntil), cooldownSeconds, lane, env, attempt);
        before := limiter.View();
        var called;
        called, mine := AttemptRead(weight, lane, weightOf, e, mine, first);
        if !called {
          result := LimiterExhausted;
          return;
        }
        var verdict := Judge(e, lane, attempt + 1 >= attempts);
        if verdict.Some? {
          result := verdict.value;
          return;
        }
      }
      result := UnreachableState;
    }

    /** The settlement of a successful call; an implausible weight or a failed settlement keeps the reservation. */
    method SettleLast(r: Reservation, response: Response, weightOf: Option<Response -> int>, settles: bool,
                      mine: seq<nat>, ghost first: nat, weight: nat, lane: Priority)
      requires limiter.Valid() && |mine| > 0 && Holding(limiter.log, mine, first, weight, lane)
      requires r == Reservation(Member(weight, mine[|mine| - 1]), lane, weight)
      modifies limiter
      ensures limiter.Valid() && |limiter.log| == |old(limiter.log)| && MadeSince(limiter.log, mine, first)
      ensures ChargeOf(limiter.log, mine) == (|mine| - 1) * weight + FinalWeight(weightOf, response, settles, weight)
    {
      var n := |mine| - 1;
      if weightOf.Some? && settles && 0 <= weightOf.value(response) <= weight {
        var ok := limiter.SettleTo(r, weightOf.value(response));
      }
      assert forall k :: 0 <= k < n ==> limiter.log[mine[k]].weight == weight;
      UniformCharge(limiter.log, mine[..n], weight);
    }
  }
}
