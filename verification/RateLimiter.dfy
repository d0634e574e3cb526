/**
 The weighted sliding-window limiter of the shared REST budget (`adapters/ratelimit.py`).

 The shared state is a Redis keyspace: one sorted set for the whole budget and one per lane. Each Lua
 script is one atomic step. `Log` is history, not stored anywhere: reservation number `i` was admitted
 on its lane at its time and is currently charged at its weight. The uuid of a member is its number.
 Rows are kept in no particular order, which no sum can observe.

 Assumption: the `now` arguments are non-decreasing in execution order and key expiry follows the same
 clock. Without it the window bound does not hold.
 */
module RateLimiter {
  import opened Decimals

  const WINDOW := 60.0
  const KEY_TTL := 120.0

  datatype Priority = Order | MasterState | Reconcile | Metadata | Diagnostic

  /** A key of the keyspace: the whole budget, or one lane of it. */
  datatype Scope = Whole | Lane(lane: Priority)

  datatype Budget = Budget(total: nat, orders: nat, reconcile: nat, diagnostic: nat, masterState: nat, metadata: nat, reserve: nat) {
    function Allowance(p: Priority): nat {
      match p
      case Order => orders
      case Reconcile => reconcile
      case Diagnostic => diagnostic
      case MasterState => masterState
      case Metadata => metadata
    }

    predicate Validated() {
      orders + reconcile + diagnostic + masterState + metadata + reserve <= total
    }

    /** The cap that applies to a key. */
    function Cap(scope: Scope): int {
      if scope.Whole? then total - reserve else Allowance(scope.lane)
    }
  }

  datatype Member = Member(weight: nat, id: nat)

  datatype Row = Row(member: Member, score: real)

  /** A sorted set and its key's expiry; an absent key is an empty set without one. */
  datatype ZSet = ZSet(rows: seq<Row>, expireAt: Option<real>)

  datatype Reservation = Reservation(member: Member, lane: Priority, reserved: nat)

  datatype Charge = Charge(lane: Priority, time: real, reserved: nat, weight: nat)

  type Keyspace = map<Scope, ZSet>

  datatype State = State(keys: Keyspace, log: seq<Charge>, clock: real) {
    function Key(scope: Scope): ZSet {
      if scope in keys then keys[scope] else ZSet([], None)
    }
  }

  /** The shares of the shared per-minute budget. */
  const DEFAULT_BUDGET := Budget(1200, 560, 210, 20, 300, 70, 40)

  /** The default shares use the budget up exactly, with a quarter of it protected for the master's state. */
  lemma DefaultShares()
    ensures var b := DEFAULT_BUDGET;
            && b.Validated() && b.total == 1200 && b.reserve == 40
            && b.Allowance(Order) == 560 && b.Allowance(Reconcile) == 210 && b.Allowance(Diagnostic) == 20
            && b.Allowance(MasterState) == 300 && b.Allowance(Metadata) == 70
            && 4 * b.Allowance(MasterState) == b.total
            && b.Allowance(Order) + b.Allowance(Reconcile) + b.Allowance(Diagnostic) + b.Allowance(MasterState)
               + b.Allowance(Metadata) + b.reserve == b.total
  {
  }

  // ----- Redis commands -----

  function Total(rows: seq<Row>): nat {
    if rows == [] then 0 else rows[0].member.weight + Total(rows[1..])
  }

  predicate Kept(r: Row, cutoff: real) {
    !(0.0 <= r.score <= cutoff)
  }

  /** ZREMRANGEBYSCORE key 0 cutoff. */
  function Prune(rows: seq<Row>, cutoff: real): seq<Row> {
    if rows == [] then []
    else if Kept(rows[0], cutoff) then [rows[0]] + Prune(rows[1..], cutoff)
    else Prune(rows[1..], cutoff)
  }

  /** ZREM key member. */
  function Without(rows: seq<Row>, m: Member): seq<Row> {
    if rows == [] then []
    else if rows[0].member == m then Without(rows[1..], m)
    else [rows[0]] + Without(rows[1..], m)
  }

  /** ZSCORE key member. */
  function Score(rows: seq<Row>, m: Member): Option<real> {
    if rows == [] then None
    else if rows[0].member == m then Some(rows[0].score)
    else Score(rows[1..], m)
  }

  /** A key loses its expiry when its set becomes empty and the key is deleted. */
  function Stored(rows: seq<Row>, expireAt: Option<real>): ZSet {
    ZSet(rows, if rows == [] then None else expireAt)
  }

  function PruneKey(z: ZSet, cutoff: real): ZSet {
    Stored(Prune(z.rows, cutoff), z.expireAt)
  }

  /** ZADD key now member; EXPIRE key 120. */
  function AddKey(z: ZSet, m: Member, now: real): ZSet {
    ZSet(z.rows + [Row(m, now)], Some(now + KEY_TTL))
  }

  /** ZREM of the old member, then ZADD of its replacement at the old score if it was present. */
  function ReplaceKey(z: ZSet, m: Member, actual: nat): ZSet {
    var rest := Stored(Without(z.rows, m), z.expireAt);
    var score := Score(z.rows, m);
    if actual > 0 && score.Some? then ZSet(rest.rows + [Row(Member(actual, m.id), score.value)], rest.expireAt) else rest
  }

  function ExpireKey(z: ZSet, now: real): ZSet {
    if z.expireAt.Some? && z.expireAt.value <= now then ZSet([], None) else z
  }

  // ----- the limiter's steps -----

  datatype Op =
    | TryReserve(weight: int, lane: Priority, now: real)
    | Settle(reservation: Reservation, actual: int)
    | Used(scope: Scope, now: real)
    | Expire(scope: Scope, now: real)

  /** Room for a positive weight, as the script computes it after pruning. */
  predicate Fits(s: State, b: Budget, weight: nat, lane: Priority, now: real) {
    && Total(PruneKey(s.Key(Whole), now - WINDOW).rows) + weight <= b.Cap(Whole)
    && Total(PruneKey(s.Key(Lane(lane)), now - WINDOW).rows) + weight <= b.Cap(Lane(lane))
  }

  function Pruned(s: State, scope: Scope, now: real): State {
    s.(keys := s.keys[scope := PruneKey(s.Key(scope), now - WINDOW)], clock := now)
  }

  function Admitted(s: State, weight: nat, lane: Priority, now: real): State {
    var m := Member(weight, |s.log|);
    s.(keys := s.keys[Whole := AddKey(s.Key(Whole), m, now)][Lane(lane) := AddKey(s.Key(Lane(lane)), m, now)],
       log := s.log + [Charge(lane, now, weight, weight)])
  }

  function Reserve(s: State, b: Budget, weight: int, lane: Priority, now: real): (State, Option<Reservation>) {
    if weight <= 0 then (s, Some(Reservation(Member(0, 0), lane, 0)))
    else
      var pruned := Pruned(Pruned(s, Whole, now), Lane(lane), now);
      if Fits(s, b, weight, lane, now) then
        (Admitted(pruned, weight, lane, now), Some(Reservation(Member(weight, |s.log|), lane, weight)))
      else (pruned, None)
  }

  predicate SettleError(r: Reservation, actual: int) {
    actual < 0 || actual > r.reserved
  }

  function SettleStep(s: State, r: Reservation, actual: int): State {
    if SettleError(r, actual) || r.reserved == 0 || actual == r.reserved then s
    else
      var id := r.member.id;
      s.(keys := s.keys[Whole := ReplaceKey(s.Key(Whole), r.member, actual)]
                       [Lane(r.lane) := ReplaceKey(s.Key(Lane(r.lane)), r.member, actual)],
         log := if id < |s.log| && s.log[id].weight == r.reserved then s.log[id := s.log[id].(weight := actual)] else s.log)
  }

  function Apply(s: State, b: Budget, op: Op): State {
    match op
    case TryReserve(weight, lane, now) => Reserve(s, b, weight, lane, now).0
    case Settle(r, actual) => SettleStep(s, r, actual)
    case Used(scope, now) => Pruned(s, scope, now)
    case Expire(scope, now) => s.(keys := s.keys[scope := ExpireKey(s.Key(scope), now)], clock := now)
  }

  /** A reservation token handed out by this limiter (or the no-op token). */
  predicate Genuine(s: State, r: Reservation) {
    r.reserved > 0 ==>
      r.member.id < |s.log| && s.log[r.member.id].lane == r.lane && s.log[r.member.id].reserved == r.reserved
      && r.member.weight == r.reserved
  }

  predicate Enabled(s: State, op: Op) {
    if op.Settle? then Genuine(s, op.reservation) else s.clock <= op.now
  }

  // ----- what is charged -----

  predicate LiveAt(time: real, now: real) {
    time > now - 60.0
  }

  predicate InScope(c: Charge, scope: Scope) {
    scope.Whole? || scope.lane == c.lane
  }

  function LiveTotal(rows: seq<Row>, now: real): nat {
    if rows == [] then 0
    else (if LiveAt(rows[0].score, now) then rows[0].member.weight else 0) + LiveTotal(rows[1..], now)
  }

  /** The weight charged in the trailing window. */
  function Charged(log: seq<Charge>, scope: Scope, now: real): nat {
    if log == [] then 0
    else
      var c := log[|log| - 1];
      Charged(log[..|log| - 1], scope, now) + (if InScope(c, scope) && LiveAt(c.time, now) then c.weight else 0)
  }

  /** The settled weight of all admissions in the half-open window of 60 seconds from `start`. */
  function WindowCharge(log: seq<Charge>, scope: Scope, start: real): nat {
    if log == [] then 0
    else
      var c := log[|log| - 1];
      WindowCharge(log[..|log| - 1], scope, start)
      + (if InScope(c, scope) && start <= c.time < start + 60.0 then c.weight else 0)
  }

  // ----- the invariant -----

  function RowOf(log: seq<Charge>, i: nat): Row
    requires i < |log|
  {
    Row(Member(log[i].weight, i), log[i].time)
  }

  predicate RowsOk(z: ZSet, log: seq<Charge>, clock: real) {
    && (forall r :: r in z.rows ==>
          && 0.0 <= r.score <= clock && r.member.id < |log|
          && (z.expireAt.Some? ==> r.score + KEY_TTL <= z.expireAt.value))
    && (forall i, j :: 0 <= i < j < |z.rows| ==> z.rows[i].member.id != z.rows[j].member.id)
  }

  /** The live rows of a key are exactly the live charges in its scope. */
  predicate Mirrors(z: ZSet, log: seq<Charge>, scope: Scope, clock: real) {
    && (forall r :: r in z.rows && LiveAt(r.score, clock) && r.member.id < |log| ==>
          r == RowOf(log, r.member.id) && InScope(log[r.member.id], scope))
    && (forall i :: 0 <= i < |log| && LiveAt(log[i].time, clock) && log[i].weight > 0 && InScope(log[i], scope) ==>
          RowOf(log, i) in z.rows)
  }

  ghost predicate Sums(z: ZSet, log: seq<Charge>, scope: Scope, clock: real) {
    forall now: real :: clock <= now ==> LiveTotal(z.rows, now) == Charged(log, scope, now)
  }

  predicate LogOk(log: seq<Charge>, clock: real) {
    forall i :: 0 <= i < |log| ==> 0.0 <= log[i].time <= clock && log[i].weight <= log[i].reserved && log[i].reserved > 0
  }

  ghost predicate KeyOk(s: State, b: Budget, scope: Scope) {
    && RowsOk(s.Key(scope), s.log, s.clock)
    && Mirrors(s.Key(scope), s.log, scope, s.clock)
    && Sums(s.Key(scope), s.log, scope, s.clock)
    && Charged(s.log, scope, s.clock) <= b.Cap(scope)
    && forall start: real :: WindowCharge(s.log, scope, start) <= b.Cap(scope)
  }

  ghost predicate Inv(s: State, b: Budget) {
    && b.reserve <= b.total && s.clock >= 0.0 && LogOk(s.log, s.clock)
    && forall scope: Scope :: KeyOk(s, b, scope)
  }

  function Initial(clock: real): State {
    State(map[], [], clock)
  }

  lemma InitialInv(b: Budget, clock: real)
    requires b.reserve <= b.total && clock >= 0.0
    ensures Inv(Initial(clock), b)
  {
  }

  // ----- facts about rows -----

  lemma {:induction false} PruneRows(rows: seq<Row>, cutoff: real)
    ensures forall r :: r in Prune(rows, cutoff) <==> r in rows && Kept(r, cutoff)
    ensures |Prune(rows, cutoff)| <= |rows|
  {
    if rows == [] {
    } else {
      PruneRows(rows[1..], cutoff);
    }
  }

  predicate DistinctIds(rows: seq<Row>) {
    forall i, j :: 0 <= i < j < |rows| ==> rows[i].member.id != rows[j].member.id
  }

  lemma {:induction false} PruneDistinct(rows: seq<Row>, cutoff: real)
    requires DistinctIds(rows)
    ensures DistinctIds(Prune(rows, cutoff))
  {
    if rows == [] {
    } else {
      PruneDistinct(rows[1..], cutoff);
      PruneRows(rows[1..], cutoff);
      ConsDistinct(rows[0], Prune(rows[1..], cutoff));
    }
  }

  lemma ConsDistinct(r: Row, rest: seq<Row>)
    requires DistinctIds(rest)
    ensures (forall x :: x in rest ==> x.member.id != r.member.id) ==> DistinctIds([r] + rest)
  {
    if forall x :: x in rest ==> x.member.id != r.member.id {
      assert forall j :: 0 <= j < |rest| ==> rest[j] in rest;
    }
  }

  lemma {:induction false} PruneLive(rows: seq<Row>, cutoff: real, now: real)
    requires cutoff <= now - WINDOW
    ensures LiveTotal(Prune(rows, cutoff), now) == LiveTotal(rows, now)
  {
    if rows == [] {
    } else {
      PruneLive(rows[1..], cutoff, now);
      if Kept(rows[0], cutoff) {
        assert Prune(rows, cutoff)[1..] == Prune(rows[1..], cutoff);
      }
    }
  }

  /** After pruning at the window's edge everything left is live: the script's sum is the live weight. */
  lemma {:induction false} PrunedTotal(rows: seq<Row>, now: real)
    requires forall r :: r in rows ==> r.score >= 0.0
    ensures Total(Prune(rows, now - WINDOW)) == LiveTotal(rows, now)
  {
    if rows == [] {
    } else {
      assert rows[0] in rows;
      assert forall r :: r in rows[1..] ==> r in rows;
      PrunedTotal(rows[1..], now);
      if Kept(rows[0], now - WINDOW) {
        assert Prune(rows, now - WINDOW)[1..] == Prune(rows[1..], now - WINDOW);
      }
    }
  }

  lemma {:induction false} LiveAppend(rows: seq<Row>, r: Row, now: real)
    ensures LiveTotal(rows + [r], now) == LiveTotal(rows, now) + (if LiveAt(r.score, now) then r.member.weight else 0)
  {
    if rows == [] {
      assert [] + [r] == [r];
      assert [r][1..] == [];
    } else {
      LiveAppend(rows[1..], r, now);
      assert (rows + [r])[1..] == rows[1..] + [r];
    }
  }

  lemma {:induction false} WithoutRows(rows: seq<Row>, m: Member)
    ensures forall r :: r in Without(rows, m) <==> r in rows && r.member != m
  {
    if rows == [] {
    } else {
      WithoutRows(rows[1..], m);
    }
  }

  lemma {:induction false} WithoutDistinct(rows: seq<Row>, m: Member)
    requires DistinctIds(rows)
    ensures DistinctIds(Without(rows, m))
  {
    if rows == [] {
    } else {
      WithoutDistinct(rows[1..], m);
      WithoutRows(rows[1..], m);
      ConsDistinct(rows[0], Without(rows[1..], m));
    }
  }

  lemma {:induction false} ScoreRows(rows: seq<Row>, m: Member)
    ensures Score(rows, m).Some? ==> Row(m, Score(rows, m).value) in rows
    ensures Score(rows, m).None? ==> forall r :: r in rows ==> r.member != m
  {
    if rows == [] {
    } else {
      ScoreRows(rows[1..], m);
    }
  }

  lemma {:induction false} NoScore(rows: seq<Row>, m: Member)
    requires forall i :: 0 <= i < |rows| ==> rows[i].member != m
    ensures Score(rows, m).None?
  {
    if rows == [] {
    } else {
      NoScore(rows[1..], m);
    }
  }

  lemma HeadOccursOnce(rows: seq<Row>)
    requires DistinctIds(rows) && rows != []
    ensures Score(rows[1..], rows[0].member).None?
  {
    NoScore(rows[1..], rows[0].member);
  }

  /** Removing the one row of a member takes exactly its live weight away. */
  lemma {:induction false} WithoutLive(rows: seq<Row>, m: Member, now: real)
    requires DistinctIds(rows)
    ensures Score(rows, m).None? ==> LiveTotal(Without(rows, m), now) == LiveTotal(rows, now)
    ensures Score(rows, m).Some? ==>
              LiveTotal(Without(rows, m), now) + (if LiveAt(Score(rows, m).value, now) then m.weight else 0)
              == LiveTotal(rows, now)
  {
    if rows == [] {
    } else {
      WithoutLive(rows[1..], m, now);
      if rows[0].member == m {
        HeadOccursOnce(rows);
      } else {
        assert Without(rows, m)[1..] == Without(rows[1..], m);
      }
    }
  }

  // ----- facts about the log -----

  lemma {:induction false} ChargedAntitone(log: seq<Charge>, scope: Scope, t0: real, t1: real)
    requires t0 <= t1
    ensures Charged(log, scope, t1) <= Charged(log, scope, t0)
  {
    if log == [] {
    } else {
      ChargedAntitone(log[..|log| - 1], scope, t0, t1);
    }
  }

  lemma ChargedAppend(log: seq<Charge>, c: Charge, scope: Scope, now: real)
    ensures Charged(log + [c], scope, now)
            == Charged(log, scope, now) + (if InScope(c, scope) && LiveAt(c.time, now) then c.weight else 0)
  {
    assert (log + [c])[..|log|] == log;
  }

  lemma WindowAppend(log: seq<Charge>, c: Charge, scope: Scope, start: real)
    ensures WindowCharge(log + [c], scope, start)
            == WindowCharge(log, scope, start)
               + (if InScope(c, scope) && start <= c.time < start + WINDOW then c.weight else 0)
  {
    assert (log + [c])[..|log|] == log;
  }

  /** A window that contains `now` has admitted, so far, only what is still live at `now`. */
  lemma {:induction false} WindowIsLive(log: seq<Charge>, scope: Scope, start: real, now: real)
    requires start > now - WINDOW
    ensures WindowCharge(log, scope, start) <= Charged(log, scope, now)
  {
    if log == [] {
    } else {
      WindowIsLive(log[..|log| - 1], scope, start, now);
    }
  }

  lemma {:induction false} SettleCharged(log: seq<Charge>, i: nat, w: nat, scope: Scope, now: real)
    requires i < |log|
    ensures Charged(log[i := log[i].(weight := w)], scope, now)
            + (if InScope(log[i], scope) && LiveAt(log[i].time, now) then log[i].weight else 0)
            == Charged(log, scope, now) + (if InScope(log[i], scope) && LiveAt(log[i].time, now) then w else 0)
  {
    var n, log' := |log| - 1, log[i := log[i].(weight := w)];
    if i == n {
      assert log'[..n] == log[..n];
    } else {
      SettleCharged(log[..n], i, w, scope, now);
      assert log'[..n] == log[..n][i := log[i].(weight := w)];
    }
  }

  lemma {:induction false} SettleWindow(log: seq<Charge>, i: nat, w: nat, scope: Scope, start: real)
    requires i < |log| && w <= log[i].weight
    ensures WindowCharge(log[i := log[i].(weight := w)], scope, start) <= WindowCharge(log, scope, start)
  {
    var n, log' := |log| - 1, log[i := log[i].(weight := w)];
    if i == n {
      assert log'[..n] == log[..n];
    } else {
      SettleWindow(log[..n], i, w, scope, start);
      assert log'[..n] == log[..n][i := log[i].(weight := w)];
    }
  }

  /** What is charged in all is what the lanes are charged. */
  lemma {:induction false} WholeIsSumOfLanes(log: seq<Charge>, now: real)
    ensures Charged(log, Whole, now)
            == Charged(log, Lane(Order), now) + Charged(log, Lane(MasterState), now) + Charged(log, Lane(Reconcile), now)
               + Charged(log, Lane(Metadata), now) + Charged(log, Lane(Diagnostic), now)
  {
    if log == [] {
    } else {
      WholeIsSumOfLanes(log[..|log| - 1], now);
    }
  }

  // ----- every step keeps the invariant -----

  /** Time passing keeps a key in order: fewer rows are live, and fewer charges. */
  lemma AdvanceKey(s: State, b: Budget, scope: Scope, now: real)
    requires KeyOk(s, b, scope) && s.clock <= now
    ensures KeyOk(s.(clock := now), b, scope)
  {
    ChargedAntitone(s.log, scope, s.clock, now);
  }

  lemma PruneKeyOk(s: State, b: Budget, scope: Scope, now: real)
    requires KeyOk(s, b, scope) && s.clock <= now
    ensures KeyOk(Pruned(s, scope, now), b, scope)
  {
    var z := s.Key(scope);
    AdvanceKey(s, b, scope, now);
    PruneRows(z.rows, now - WINDOW);
    PruneDistinct(z.rows, now - WINDOW);
    forall t | now <= t
      ensures LiveTotal(Prune(z.rows, now - WINDOW), t) == Charged(s.log, scope, t)
    {
      PruneLive(z.rows, now - WINDOW, t);
    }
  }

  lemma PruneInv(s: State, b: Budget, scope: Scope, now: real)
    requires Inv(s, b) && s.clock <= now
    ensures Inv(Pruned(s, scope, now), b)
  {
    var s' := Pruned(s, scope, now);
    forall other: Scope
      ensures KeyOk(s', b, other)
    {
      if other == scope { PruneKeyOk(s, b, scope, now); } else { AdvanceKey(s, b, other, now); }
    }
  }

  /** The script's two sums are the charges of the whole budget and of the lane. */
  lemma FitsIsRoom(s: State, b: Budget, weight: nat, lane: Priority, now: real)
    requires Inv(s, b) && s.clock <= now
    ensures Fits(s, b, weight, lane, now) <==>
            && Charged(s.log, Whole, now) + weight <= b.Cap(Whole)
            && Charged(s.log, Lane(lane), now) + weight <= b.Cap(Lane(lane))
  {
    assert KeyOk(s, b, Whole) && KeyOk(s, b, Lane(lane));
    PrunedTotal(s.Key(Whole).rows, now);
    PrunedTotal(s.Key(Lane(lane)).rows, now);
  }

  lemma AdmitKeyOk(s: State, b: Budget, scope: Scope, weight: nat, lane: Priority)
    requires KeyOk(s, b, scope) && weight > 0 && LogOk(s.log, s.clock) && s.clock >= 0.0
    requires InScope(Charge(lane, s.clock, weight, weight), scope) ==> Charged(s.log, scope, s.clock) + weight <= b.Cap(scope)
    ensures KeyOk(Admitted(s, weight, lane, s.clock), b, scope)
  {
    var c, m := Charge(lane, s.clock, weight, weight), Member(weight, |s.log|);
    var s' := Admitted(s, weight, lane, s.clock);
    var z, z' := s.Key(scope), s'.Key(scope);
    ChargedAppend(s.log, c, scope, s.clock);
    forall start: real
      ensures WindowCharge(s'.log, scope, start) <= b.Cap(scope)
    {
      WindowAppend(s.log, c, scope, start);
      if start > s.clock - WINDOW { WindowIsLive(s.log, scope, start, s.clock); }
    }
    forall t | s.clock <= t
      ensures LiveTotal(z'.rows, t) == Charged(s'.log, scope, t)
    {
      ChargedAppend(s.log, c, scope, t);
      LiveAppend(z.rows, Row(m, s.clock), t);
    }
    AdmitMirrors(s, scope, weight, lane);
  }

  lemma AdmitMirrors(s: State, scope: Scope, weight: nat, lane: Priority)
    requires RowsOk(s.Key(scope), s.log, s.clock) && Mirrors(s.Key(scope), s.log, scope, s.clock) && s.clock >= 0.0
    ensures var s' := Admitted(s, weight, lane, s.clock);
            RowsOk(s'.Key(scope), s'.log, s'.clock) && Mirrors(s'.Key(scope), s'.log, scope, s'.clock)
  {
    var s' := Admitted(s, weight, lane, s.clock);
    var z, z' := s.Key(scope), s'.Key(scope);
    assert forall i :: 0 <= i < |z.rows| ==> z.rows[i] in z.rows;
    assert forall i :: 0 <= i < |s.log| ==> RowOf(s'.log, i) == RowOf(s.log, i);
    assert forall r :: r in z.rows ==> r in z'.rows;
    var n := |s.log|;
    if InScope(s'.log[n], scope) {
      assert RowOf(s'.log, n) == z'.rows[|z.rows|];
    }
  }

  lemma ReserveInv(s: State, b: Budget, weight: int, lane: Priority, now: real)
    requires Inv(s, b) && s.clock <= now
    ensures Inv(Reserve(s, b, weight, lane, now).0, b)
  {
    if weight > 0 {
      var s1 := Pruned(s, Whole, now);
      var s2 := Pruned(s1, Lane(lane), now);
      PruneInv(s, b, Whole, now);
      PruneInv(s1, b, Lane(lane), now);
      if Fits(s, b, weight, lane, now) {
        FitsIsRoom(s, b, weight, lane, now);
        forall scope: Scope
          ensures KeyOk(Admitted(s2, weight, lane, now), b, scope)
        {
          assert KeyOk(s2, b, scope);
          AdmitKeyOk(s2, b, scope, weight, lane);
        }
      }
    }
  }

  /** Replacing a member changes the live weight by exactly the difference, if its row is live. */
  lemma ReplacedLive(z: ZSet, m: Member, actual: nat, now: real)
    requires DistinctIds(z.rows)
    ensures var live := Score(z.rows, m).Some? && LiveAt(Score(z.rows, m).value, now);
            LiveTotal(ReplaceKey(z, m, actual).rows, now) + (if live then m.weight else 0)
            == LiveTotal(z.rows, now) + (if live then actual else 0)
  {
    WithoutLive(z.rows, m, now);
    if Score(z.rows, m).Some? {
      LiveAppend(Without(z.rows, m), Row(Member(actual, m.id), Score(z.rows, m).value), now);
    }
  }

  /** A reservation's row is live in a key of its scope exactly when its charge is. */
  lemma ScoreMirrorsCharge(z: ZSet, log: seq<Charge>, scope: Scope, clock: real, m: Member, now: real)
    requires RowsOk(z, log, clock) && Mirrors(z, log, scope, clock) && clock <= now
    requires m.id < |log| && m.weight > 0
    ensures Score(z.rows, m).Some? && LiveAt(Score(z.rows, m).value, now)
            <==> InScope(log[m.id], scope) && LiveAt(log[m.id].time, now) && log[m.id].weight == m.weight
  {
    ScoreRows(z.rows, m);
    hide Score;
    if InScope(log[m.id], scope) && LiveAt(log[m.id].time, now) && log[m.id].weight == m.weight {
      assert RowOf(log, m.id) in z.rows;
    }
  }

  lemma SettleKeySums(s: State, scope: Scope, r: Reservation, actual: nat, now: real)
    requires RowsOk(s.Key(scope), s.log, s.clock) && Mirrors(s.Key(scope), s.log, scope, s.clock)
    requires LiveTotal(s.Key(scope).rows, now) == Charged(s.log, scope, now)
    requires s.clock <= now && Genuine(s, r) && actual < r.reserved
    ensures var s' := SettleStep(s, r, actual);
            LiveTotal(s'.Key(scope).rows, now) == Charged(s'.log, scope, now)
  {
    var i, m, z := r.member.id, r.member, s.Key(scope);
    SettledKey(s, scope, r, actual);
    assert DistinctIds(z.rows);
    hide RowsOk, Mirrors, Score, ReplaceKey, LiveTotal, Charged, SettleStep, State.Key;
    ReplacedLive(z, m, actual, now);
    ScoreMirrorsCharge(z, s.log, scope, s.clock, m, now);
    if s.log[i].weight == r.reserved { SettleCharged(s.log, i, actual, scope, now); }
  }

  /** What a settlement does to a key and to the history. */
  lemma SettledKey(s: State, scope: Scope, r: Reservation, actual: nat)
    requires Genuine(s, r) && actual < r.reserved
    ensures var s', i := SettleStep(s, r, actual), r.member.id;
            && s'.Key(scope) == (if InScope(s.log[i], scope) then ReplaceKey(s.Key(scope), r.member, actual) else s.Key(scope))
            && s'.log == (if s.log[i].weight == r.reserved then s.log[i := s.log[i].(weight := actual)] else s.log)
  {
  }

  /** The replaced rows of a key: those of other members, and the settled one at its old score. */
  lemma ReplacedRows(z: ZSet, m: Member, actual: nat)
    requires DistinctIds(z.rows)
    ensures DistinctIds(ReplaceKey(z, m, actual).rows)
    ensures forall r :: r in ReplaceKey(z, m, actual).rows <==>
              (r in z.rows && r.member != m)
              || (Score(z.rows, m).Some? && actual > 0 && r == Row(Member(actual, m.id), Score(z.rows, m).value))
  {
    WithoutRows(z.rows, m);
    WithoutDistinct(z.rows, m);
    var rest := Without(z.rows, m);
    assert forall k :: 0 <= k < |rest| ==> rest[k] in rest;
    if Score(z.rows, m).Some? { OthersDiffer(z.rows, m); }
  }

  lemma SettleRowsOk(s: State, scope: Scope, r: Reservation, actual: nat)
    requires RowsOk(s.Key(scope), s.log, s.clock) && Genuine(s, r) && actual < r.reserved
    ensures var s' := SettleStep(s, r, actual);
            RowsOk(s'.Key(scope), s'.log, s'.clock)
  {
    hide Without, Score;
    ScoreRows(s.Key(scope).rows, r.member);
    ReplacedRows(s.Key(scope), r.member, actual);
  }

  lemma OthersDiffer(rows: seq<Row>, m: Member)
    requires DistinctIds(rows) && Score(rows, m).Some?
    ensures forall x :: x in rows && x.member != m ==> x.member.id != m.id
  {
    ScoreRows(rows, m);
    var k :| 0 <= k < |rows| && rows[k] == Row(m, Score(rows, m).value);
    forall x | x in rows && x.member != m
      ensures x.member.id != m.id
    {
      var j :| 0 <= j < |rows| && rows[j] == x;
    }
  }

  lemma SettleMirrors(s: State, scope: Scope, r: Reservation, actual: nat)
    requires RowsOk(s.Key(scope), s.log, s.clock) && Mirrors(s.Key(scope), s.log, scope, s.clock)
    requires Genuine(s, r) && actual < r.reserved
    ensures var s' := SettleStep(s, r, actual);
            Mirrors(s'.Key(scope), s'.log, scope, s'.clock)
  {
    hide Without, Score, ReplaceKey;
    var i, m := r.member.id, r.member;
    var s' := SettleStep(s, r, actual);
    var z := s.Key(scope);
    ScoreRows(z.rows, m);
    ReplacedRows(z, m, actual);
    if Score(z.rows, m).Some? { OthersDiffer(z.rows, m); }
    assert forall k :: 0 <= k < |s.log| && k != i ==> RowOf(s'.log, k) == RowOf(s.log, k);
  }

  lemma SettleKeyOk(s: State, b: Budget, scope: Scope, r: Reservation, actual: nat)
    requires KeyOk(s, b, scope) && LogOk(s.log, s.clock) && Genuine(s, r) && actual < r.reserved
    ensures KeyOk(SettleStep(s, r, actual), b, scope)
  {
    var s', i := SettleStep(s, r, actual), r.member.id;
    SettleRowsOk(s, scope, r, actual);
    SettleMirrors(s, scope, r, actual);
    forall now | s.clock <= now
      ensures LiveTotal(s'.Key(scope).rows, now) == Charged(s'.log, scope, now)
    {
      SettleKeySums(s, scope, r, actual, now);
    }
    if s.log[i].weight == r.reserved {
      SettleCharged(s.log, i, actual, scope, s.clock);
      forall start: real
        ensures WindowCharge(s'.log, scope, start) <= b.Cap(scope)
      {
        SettleWindow(s.log, i, actual, scope, start);
      }
    }
  }

  lemma SettleInv(s: State, b: Budget, r: Reservation, actual: int)
    requires Inv(s, b) && Genuine(s, r)
    ensures Inv(SettleStep(s, r, actual), b)
  {
    if !(SettleError(r, actual) || r.reserved == 0 || actual == r.reserved) {
      forall scope: Scope
        ensures KeyOk(SettleStep(s, r, actual), b, scope)
      {
        assert KeyOk(s, b, scope);
        SettleKeyOk(s, b, scope, r, actual);
      }
    }
  }

  /** By the time a key expires every row in it has left the window. */
  lemma ExpireInv(s: State, b: Budget, scope: Scope, now: real)
    requires Inv(s, b) && s.clock <= now
    ensures Inv(Apply(s, b, Expire(scope, now)), b)
  {
    var s' := Apply(s, b, Expire(scope, now));
    forall other: Scope
      ensures KeyOk(s', b, other)
    {
      assert KeyOk(s, b, other);
      AdvanceKey(s, b, other, now);
      if other == scope && ExpireKey(s.Key(scope), now) != s.Key(scope) {
        ExpiredKeyOk(s.(clock := now), b, scope, s');
      }
    }
  }

  lemma ExpiredKeyOk(s: State, b: Budget, scope: Scope, s': State)
    requires KeyOk(s, b, scope) && s.Key(scope).expireAt.Some? && s.Key(scope).expireAt.value <= s.clock
    requires s'.log == s.log && s'.clock == s.clock && s'.Key(scope) == ZSet([], None)
    ensures KeyOk(s', b, scope)
  {
    var z := s.Key(scope);
    assert forall r :: r in z.rows ==> !LiveAt(r.score, s.clock);
    forall now | s.clock <= now
      ensures Charged(s.log, scope, now) == 0
    {
      NothingLive(z.rows, now);
    }
  }

  lemma {:induction false} NothingLive(rows: seq<Row>, now: real)
    requires forall r :: r in rows ==> !LiveAt(r.score, now)
    ensures LiveTotal(rows, now) == 0
  {
    if rows == [] {
    } else {
      assert rows[0] in rows;
      assert forall r :: r in rows[1..] ==> r in rows;
      NothingLive(rows[1..], now);
    }
  }

  lemma StepInv(s: State, b: Budget, op: Op)
    requires Inv(s, b) && Enabled(s, op)
    ensures Inv(Apply(s, b, op), b)
  {
    match op
    case TryReserve(weight, lane, now) => ReserveInv(s, b, weight, lane, now);
    case Settle(r, actual) => SettleInv(s, b, r, actual);
    case Used(scope, now) => PruneInv(s, b, scope, now);
    case Expire(scope, now) => ExpireInv(s, b, scope, now);
  }

  // ----- runs -----

  predicate EnabledRun(s: State, b: Budget, ops: seq<Op>)
    decreases |ops|
  {
    ops == [] || (Enabled(s, ops[0]) && EnabledRun(Apply(s, b, ops[0]), b, ops[1..]))
  }

  function Run(s: State, b: Budget, ops: seq<Op>): State
    decreases |ops|
  {
    if ops == [] then s else Run(Apply(s, b, ops[0]), b, ops[1..])
  }

  lemma {:induction false} RunInv(s: State, b: Budget, ops: seq<Op>)
    requires Inv(s, b) && EnabledRun(s, b, ops)
    ensures Inv(Run(s, b, ops), b)
    decreases |ops|
  {
    hide Inv, Apply, Enabled;
    if ops == [] {
    } else {
      StepInv(s, b, ops[0]);
      RunInv(Apply(s, b, ops[0]), b, ops[1..]);
    }
  }

  /**
   In every run, what is live stays within the cap of the budget and of every lane, and so do the
   settled weights of all reservations admitted in any half-open window of sixty seconds.
   */
  lemma WindowBound(b: Budget, clock: real, ops: seq<Op>, scope: Scope, start: real)
    requires b.Validated() && clock >= 0.0 && EnabledRun(Initial(clock), b, ops)
    ensures var s := Run(Initial(clock), b, ops);
            var limit := match scope
                         case Whole => b.total - b.reserve
                         case Lane(Order) => b.orders
                         case Lane(MasterState) => b.masterState
                         case Lane(Reconcile) => b.reconcile
                         case Lane(Metadata) => b.metadata
                         case Lane(Diagnostic) => b.diagnostic;
            LiveTotal(s.Key(scope).rows, s.clock) <= limit && WindowCharge(s.log, scope, start) <= limit
  {
    var s := Run(Initial(clock), b, ops);
    InitialInv(b, clock);
    RunInv(Initial(clock), b, ops);
    assert KeyOk(s, b, scope);
  }

  /** An admission is charged in full from the moment it is asked for; a refusal is charged nothing. */
  lemma AdmissionRecorded(s: State, b: Budget, weight: int, lane: Priority, now: real)
    ensures var (s', r) := Reserve(s, b, weight, lane, now);
            && (weight > 0 && r.Some? ==>
                && s'.log == s.log + [Charge(lane, now, weight, weight)]
                && Row(Member(weight, |s.log|), now) in s'.Key(Whole).rows && Row(Member(weight, |s.log|), now) in s'.Key(Lane(lane)).rows
                && s'.Key(Whole).expireAt == Some(now + 120.0) && s'.Key(Lane(lane)).expireAt == Some(now + 120.0))
            && (weight <= 0 || r.None? ==> s'.log == s.log)
            && (weight <= 0 ==> s' == s && r == Some(Reservation(Member(0, 0), lane, 0)))
  {
  }

  /** In every reachable state the live rows of the whole budget are the disjoint union of the lanes' live rows. */
  lemma LiveUnion(s: State, b: Budget, r: Row)
    requires Inv(s, b) && LiveAt(r.score, s.clock) && r.member.weight > 0
    ensures r in s.Key(Whole).rows <==> exists p: Priority :: r in s.Key(Lane(p)).rows
    ensures forall p, q: Priority :: r in s.Key(Lane(p)).rows && r in s.Key(Lane(q)).rows ==> p == q
  {
    assert KeyOk(s, b, Whole);
    forall p: Priority
      ensures r in s.Key(Lane(p)).rows ==> r.member.id < |s.log| && s.log[r.member.id].lane == p && r in s.Key(Whole).rows
    {
      assert KeyOk(s, b, Lane(p));
    }
    if r in s.Key(Whole).rows {
      assert KeyOk(s, b, Lane(s.log[r.member.id].lane));
    }
  }

  // ----- lane isolation -----

  /** The headroom reported for a lane. */
  function Headroom(s: State, b: Budget, lane: Priority, now: real): int {
    var laneLeft := b.Allowance(lane) - Total(PruneKey(s.Key(Lane(lane)), now - WINDOW).rows);
    var wholeLeft := b.total - b.reserve - Total(PruneKey(s.Key(Whole), now - WINDOW).rows);
    var least := if laneLeft < wholeLeft then laneLeft else wholeLeft;
    if least > 0 then least else 0
  }

  /**
   With a validated budget a positive reservation succeeds exactly when its own lane has room; equally,
   exactly when its weight is within the reported headroom.
   */
  lemma LaneIsolation(s: State, b: Budget, weight: nat, lane: Priority, now: real)
    requires Inv(s, b) && b.Validated() && s.clock <= now && weight > 0
    ensures Reserve(s, b, weight, lane, now).1.Some? <==> Charged(s.log, Lane(lane), now) + weight <= b.Allowance(lane)
    ensures Reserve(s, b, weight, lane, now).1.Some? <==> weight <= Headroom(s, b, lane, now)
  {
    hide Inv, Total, PruneKey, Charged, Pruned, Admitted;
    FitsIsRoom(s, b, weight, lane, now);
    WholeIsSumOfLanes(s.log, now);
    LaneWithinCap(s, b, Order, now);
    LaneWithinCap(s, b, MasterState, now);
    LaneWithinCap(s, b, Reconcile, now);
    LaneWithinCap(s, b, Metadata, now);
    LaneWithinCap(s, b, Diagnostic, now);
  }

  lemma LaneWithinCap(s: State, b: Budget, lane: Priority, now: real)
    requires Inv(s, b) && s.clock <= now
    ensures Charged(s.log, Lane(lane), now) <= b.Allowance(lane)
  {
    assert KeyOk(s, b, Lane(lane));
    ChargedAntitone(s.log, Lane(lane), s.clock, now);
  }

  /** Traffic on other lanes cannot change the outcome of a reservation. */
  lemma {:induction false} OtherLanesCannotStarve(s: State, b: Budget, ops: seq<Op>, weight: nat, lane: Priority, now: real)
    requires Inv(s, b) && b.Validated() && weight > 0 && EnabledRun(s, b, ops)
    requires Run(s, b, ops).clock <= now && s.clock <= now
    requires forall i :: 0 <= i < |ops| ==>
               (ops[i].TryReserve? ==> ops[i].lane != lane) && (ops[i].Settle? ==> ops[i].reservation.lane != lane)
    ensures Reserve(Run(s, b, ops), b, weight, lane, now).1.Some? <==> Reserve(s, b, weight, lane, now).1.Some?
  {
    RunInv(s, b, ops);
    LaneIsolation(s, b, weight, lane, now);
    LaneIsolation(Run(s, b, ops), b, weight, lane, now);
    OthersKeepLane(s, b, ops, lane, now);
  }

  lemma {:induction false} OthersKeepLane(s: State, b: Budget, ops: seq<Op>, lane: Priority, now: real)
    requires Inv(s, b) && EnabledRun(s, b, ops)
    requires forall i :: 0 <= i < |ops| ==>
               (ops[i].TryReserve? ==> ops[i].lane != lane) && (ops[i].Settle? ==> ops[i].reservation.lane != lane)
    ensures Charged(Run(s, b, ops).log, Lane(lane), now) == Charged(s.log, Lane(lane), now)
    decreases |ops|
  {
    if ops == [] {
    } else {
      var s' := Apply(s, b, ops[0]);
      OtherStepKeepsLane(s, b, ops[0], lane, now);
      StepInv(s, b, ops[0]);
      OthersKeepLane(s', b, ops[1..], lane, now);
    }
  }

  lemma OtherStepKeepsLane(s: State, b: Budget, op: Op, lane: Priority, now: real)
    requires Enabled(s, op)
    requires (op.TryReserve? ==> op.lane != lane) && (op.Settle? ==> op.reservation.lane != lane)
    ensures Charged(Apply(s, b, op).log, Lane(lane), now) == Charged(s.log, Lane(lane), now)
  {
    match op
    case TryReserve(weight, other, t) =>
      if weight > 0 { ChargedAppend(s.log, Charge(other, t, weight, weight), Lane(lane), now); }
    case Settle(r, actual) =>
      var i := r.member.id;
      if r.reserved > 0 && 0 <= actual < r.reserved && s.log[i].weight == r.reserved {
        SettleCharged(s.log, i, actual, Lane(lane), now);
      }
    case Used(_, _) =>
    case Expire(_, _) =>
  }

  // ----- the object -----

  /** The limiter over its Redis keyspace; `log` and `clock` are history that no decision reads. */
  class WeightedRateLimiter {
    const budget: Budget
    var keys: Keyspace
    var log: seq<Charge>
    var clock: real

    function View(): State
      reads this
    {
      State(keys, log, clock)
    }

    ghost predicate Valid()
      reads this
    {
      budget.Validated() && Inv(View(), budget)
    }

    constructor (b: Budget, start: real)
      requires b.Validated() && start >= 0.0
      ensures Valid() && budget == b && View() == Initial(start)
    {
      budget := b;
      keys := map[];
      log := [];
      clock := start;
      new;
      InitialInv(b, start);
    }

    function Key(scope: Scope): (z: ZSet)
      reads this
      ensures z == View().Key(scope)
    {
      if scope in keys then keys[scope] else ZSet([], None)
    }

    /** The Lua loop that sums the weights of a key's rows. */
    method SumRows(rows: seq<Row>) returns (sum: nat)
      ensures sum == Total(rows)
    {
      sum := 0;
      for i := 0 to |rows|
        invariant sum + Total(rows[i..]) == Total(rows)
      {
        sum := sum + rows[i].member.weight;
        assert rows[i..][1..] == rows[i + 1..];
      }
    }

    method PruneAt(scope: Scope, now: real)
      requires Valid() && clock <= now
      modifies this
      ensures Valid() && View() == Pruned(old(View()), scope, now) && log == old(log)
    {
      PruneInv(View(), budget, scope, now);
      keys := keys[scope := PruneKey(Key(scope), now - WINDOW)];
      clock := now;
    }

    method UsedWeight(scope: Scope, now: real) returns (used: nat)
      requires Valid() && clock <= now
      modifies this
      ensures Valid() && View() == Apply(old(View()), budget, Used(scope, now))
      ensures used == Charged(log, scope, now) && used <= budget.Cap(scope)
    {
      ghost var before := View();
      PruneAt(scope, now);
      used := SumRows(Key(scope).rows);
      assert KeyOk(before, budget, scope);
      PrunedTotal(before.Key(scope).rows, now);
      ChargedAntitone(log, scope, before.clock, now);
    }

    method TryReserveWeight(weight: int, lane: Priority, now: real) returns (r: Option<Reservation>)
      requires Valid() && clock <= now
      modifies this
      ensures Valid()
      ensures (View(), r) == Reserve(old(View()), budget, weight, lane, now)
      ensures weight > 0 ==> (r.Some? <==> Charged(old(log), Lane(lane), now) + weight <= budget.Allowance(lane))
      ensures weight > 0 && r.Some? ==>
                log == old(log) + [Charge(lane, now, weight, weight)] && r.value == Reservation(Member(weight, |old(log)|), lane, weight)
      ensures weight <= 0 || r.None? ==> log == old(log)
      ensures weight <= 0 ==> r.Some? && r.value.reserved == 0 && keys == old(keys)
    {
      if weight <= 0 {
        return Some(Reservation(Member(0, 0), lane, 0));
      }
      ghost var before := View();
      ReserveInv(before, budget, weight, lane, now);
      LaneIsolation(before, budget, weight, lane, now);
      PruneAt(Whole, now);
      PruneAt(Lane(lane), now);
      var globalUsed := SumRows(Key(Whole).rows);
      var laneUsed := SumRows(Key(Lane(lane)).rows);
      if globalUsed + weight > budget.total - budget.reserve || laneUsed + weight > budget.Allowance(lane) {
        return None;
      }
      var m := Member(weight, |log|);
      keys := keys[Whole := AddKey(Key(Whole), m, now)][Lane(lane) := AddKey(Key(Lane(lane)), m, now)];
      log := log + [Charge(lane, now, weight, weight)];
      r := Some(Reservation(m, lane, weight));
    }

    /** Settlement, downward only; `ok` is false where the source raises. */
    method SettleTo(r: Reservation, actual: int) returns (ok: bool)
      requires Valid() && Genuine(View(), r)
      modifies this
      ensures Valid() && View() == SettleStep(old(View()), r, actual)
      ensures ok <==> 0 <= actual <= r.reserved
      ensures !ok ==> View() == old(View())
      ensures ok && r.reserved > 0 && old(log)[r.member.id].weight == r.reserved ==>
                log == old(log)[r.member.id := old(log)[r.member.id].(weight := actual)]
    {
      SettleInv(View(), budget, r, actual);
      if actual < 0 || actual > r.reserved { return false; }
      ok := true;
      if r.reserved == 0 || actual == r.reserved { return; }
      var whole, lane := ReplaceKey(Key(Whole), r.member, actual), ReplaceKey(Key(Lane(r.lane)), r.member, actual);
      keys := keys[Whole := whole][Lane(r.lane) := lane];
      if log[r.member.id].weight == r.reserved {
        log := log[r.member.id := log[r.member.id].(weight := actual)];
      }
    }
  }
}
