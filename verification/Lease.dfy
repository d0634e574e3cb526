/**
 The single-writer watcher lease with fencing (`db/lease.py`).

 The shared state is one row of `watcher_lease`; each SQL statement is one atomic step. Any number of
 processes run concurrently, and the reply to a statement may reach its process arbitrarily late, after
 any number of other statements.
 */
module Lease {
  import opened Decimals

  datatype Row = Row(holder: string, token: nat, expiresAt: real)

  // ----- the statements -----

  /** INSERT ... ON CONFLICT DO UPDATE ... WHERE expired or already ours. */
  predicate MayAcquire(row: Option<Row>, holder: string, now: real) {
    row.None? || row.value.expiresAt < now || row.value.holder == holder
  }

  function NextToken(row: Option<Row>): nat {
    if row.None? then 1 else row.value.token + 1
  }

  function Acquired(row: Option<Row>, holder: string, now: real, ttl: real): Option<Row> {
    if MayAcquire(row, holder, now) then Some(Row(holder, NextToken(row), now + ttl)) else row
  }

  predicate Holds(row: Option<Row>, holder: string, token: nat) {
    row.Some? && row.value.holder == holder && row.value.token == token
  }

  function Renewed(row: Option<Row>, holder: string, token: nat, now: real, ttl: real): Option<Row> {
    if Holds(row, holder, token) then Some(row.value.(expiresAt := now + ttl)) else row
  }

  function Released(row: Option<Row>, holder: string, token: nat, now: real): Option<Row> {
    if Holds(row, holder, token) then Some(row.value.(expiresAt := now)) else row
  }

  /** The fence of `guarded_write`: the stored token is at most the writer's. */
  predicate PassesFence(row: Option<Row>, token: nat) {
    row.Some? && row.value.token <= token
  }

  // ----- the object of one process -----

  class LeaseTable {
    var row: Option<Row>

    constructor ()
      ensures row == None
    {
      row := None;
    }
  }

  datatype WriteOutcome = Accepted | FencedOut | LeaseNotHeld

  class WatcherLease {
    const table: LeaseTable
    const holder: string
    const ttl: real
    const renewEvery: real
    var token: Option<nat>
    var lost: bool

    constructor (table: LeaseTable, holder: string, ttl: real, renewEvery: real)
      requires renewEvery < ttl
      ensures this.table == table && this.holder == holder && this.ttl == ttl && token == None && !lost
    {
      this.table := table;
      this.holder := holder;
      this.ttl := ttl;
      this.renewEvery := renewEvery;
      token := None;
      lost := false;
    }

    method TryAcquire(now: real) returns (ok: bool)
      modifies this, table
      ensures ok <==> old(table.row).None? || old(table.row).value.expiresAt < now || old(table.row).value.holder == holder
      ensures table.row == Acquired(old(table.row), holder, now, ttl)
      ensures ok ==> table.row == Some(Row(holder, if old(table.row).None? then 1 else old(table.row).value.token + 1, now + ttl))
      ensures ok ==> token == Some(NextToken(old(table.row))) && !lost && Holds(table.row, holder, token.value)
      ensures !ok ==> token == old(token) && lost == old(lost)
    {
      ok := MayAcquire(table.row, holder, now);
      if ok {
        var next := NextToken(table.row);
        table.row := Some(Row(holder, next, now + ttl));
        token, lost := Some(next), false;
      }
    }

    method Renew(now: real) returns (ok: bool)
      modifies this, table
      ensures ok <==> old(token).Some? && Holds(old(table.row), holder, old(token).value)
      ensures table.row == if old(token).Some? then Renewed(old(table.row), holder, old(token).value, now, ttl) else old(table.row)
      ensures ok ==> token == old(token) && lost == old(lost) && table.row.value.token == old(table.row).value.token
      ensures !ok ==> token == None && table.row == old(table.row) && lost == (old(lost) || old(token).Some?)
    {
      if token.None? { return false; }
      ok := Holds(table.row, holder, token.value);
      if ok {
        table.row := Some(table.row.value.(expiresAt := now + ttl));
      } else {
        token, lost := None, true;
      }
    }

    method Release(now: real)
      modifies this, table
      ensures table.row == if old(token).Some? then Released(old(table.row), holder, old(token).value, now) else old(table.row)
      ensures token == None && lost == old(lost)
    {
      if token.None? { return; }
      if Holds(table.row, holder, token.value) {
        table.row := Some(table.row.value.(expiresAt := now));
      }
      token := None;
    }

    /** The write goes through exactly when its token is current and its own condition matches a row. */
    method GuardedWriteWith(matches: bool) returns (outcome: WriteOutcome)
      ensures outcome == Accepted <==> token.Some? && PassesFence(table.row, token.value) && matches
      ensures outcome == LeaseNotHeld <==> token.None?
    {
      if token.None? { return LeaseNotHeld; }
      outcome := if PassesFence(table.row, token.value) && matches then Accepted else FencedOut;
    }

    /**
     The renewal loop over the rounds that occur while it runs: each round either fails at the database,
     which is retried, or finds the row as other processes left it and extends it. Only a definitive
     rejection ends the loop and reports the lease lost.
     */
    method RenewalLoop(rounds: seq<Round>) returns (stopped: Option<nat>)
      modifies this, table
      ensures stopped.Some? ==>
                && stopped.value < |rounds| && token == None
                && rounds[stopped.value].Reached?
                && !(old(token).Some? && Holds(rounds[stopped.value].row, holder, old(token).value))
                && (old(token).Some? ==> lost)
                && forall k :: 0 <= k < stopped.value && rounds[k].Reached? ==>
                     old(token).Some? && Holds(rounds[k].row, holder, old(token).value)
      ensures stopped.Some? ==> table.row == rounds[stopped.value].row
      ensures stopped.None? ==>
                && token == old(token) && lost == old(lost)
                && forall k :: 0 <= k < |rounds| && rounds[k].Reached? ==>
                     old(token).Some? && Holds(rounds[k].row, holder, old(token).value)
      ensures stopped.None? && |rounds| > 0 && rounds[|rounds| - 1].Reached? && old(token).Some? ==>
                table.row == Renewed(rounds[|rounds| - 1].row, holder, old(token).value, rounds[|rounds| - 1].now, ttl)
    {
      for k := 0 to |rounds|
        invariant token == old(token) && lost == old(lost)
        invariant forall j :: 0 <= j < k && rounds[j].Reached? ==>
                    old(token).Some? && Holds(rounds[j].row, holder, old(token).value)
        invariant k > 0 && rounds[k - 1].Reached? && old(token).Some? ==>
                    table.row == Renewed(rounds[k - 1].row, holder, old(token).value, rounds[k - 1].now, ttl)
      {
        if rounds[k].Reached? {
          table.row := rounds[k].row;
          var ok := Renew(rounds[k].now);
          if !ok { return Some(k); }
        }
      }
      stopped := None;
    }
  }

  datatype Round = Reached(row: Option<Row>, now: real) | Unreachable

  // ----- the protocol -----

  type Process = nat

  datatype Write = Write(writer: Process, token: nat)

  datatype State = State(
    row: Option<Row>,
    identity: map<Process, string>,
    granted: seq<Process>,     // history: token t was granted to granted[t - 1]
    writes: seq<Write>)        // history: the accepted guarded writes

  /** A statement may carry any token its process was ever granted, however stale. */
  datatype Step =
    | Spawn(p: Process, holder: string)
    | Acquire(p: Process, now: real, ttl: real)
    | RenewStep(p: Process, token: nat, now: real, ttl: real)
    | ReleaseStep(p: Process, token: nat, now: real)
    | GuardedWrite(p: Process, token: nat, matches: bool)

  predicate WasGranted(s: State, p: Process, t: nat) {
    0 < t <= |s.granted| && s.granted[t - 1] == p
  }

  function Apply(s: State, step: Step): State {
    match step
    case Spawn(p, holder) =>
      if p in s.identity then s else s.(identity := s.identity[p := holder])
    case Acquire(p, now, ttl) =>
      if p in s.identity && MayAcquire(s.row, s.identity[p], now) then
        s.(row := Acquired(s.row, s.identity[p], now, ttl), granted := s.granted + [p])
      else s
    case RenewStep(p, token, now, ttl) =>
      if p in s.identity && WasGranted(s, p, token) then s.(row := Renewed(s.row, s.identity[p], token, now, ttl)) else s
    case ReleaseStep(p, token, now) =>
      if p in s.identity && WasGranted(s, p, token) then s.(row := Released(s.row, s.identity[p], token, now)) else s
    case GuardedWrite(p, token, matches) =>
      if WasGranted(s, p, token) && PassesFence(s.row, token) && matches then
        s.(writes := s.writes + [Write(p, token)])
      else s
  }

  function Run(s: State, steps: seq<Step>): State
    decreases |steps|
  {
    if steps == [] then s else Run(Apply(s, steps[0]), steps[1..])
  }

  const START := State(None, map[], [], [])

  /** The stored token is the number of grants, the holder is the latest grantee, and the accepted writes are fenced. */
  predicate Inv(s: State) {
    && (s.row.None? <==> s.granted == [])
    && (s.row.Some? ==>
          && s.row.value.token == |s.granted| && s.granted[|s.granted| - 1] in s.identity
          && s.row.value.holder == s.identity[s.granted[|s.granted| - 1]])
    && (forall i :: 0 <= i < |s.writes| ==> WasGranted(s, s.writes[i].writer, s.writes[i].token))
    && (forall i, j :: 0 <= i < j < |s.writes| ==> s.writes[i].token <= s.writes[j].token)
  }

  /** `s'` is a later state than `s`: grants and writes are only added, and the stored token never decreases. */
  predicate Later(s: State, s': State) {
    && s.granted <= s'.granted && s.writes <= s'.writes
    && (s.row.Some? ==> s'.row.Some? && s.row.value.token <= s'.row.value.token)
  }

  lemma StepInv(s: State, step: Step)
    requires Inv(s)
    ensures Inv(Apply(s, step)) && Later(s, Apply(s, step))
  {
  }

  lemma {:induction false} RunInv(s: State, steps: seq<Step>)
    requires Inv(s)
    ensures Inv(Run(s, steps)) && Later(s, Run(s, steps))
    decreases |steps|
  {
    if steps == [] {
    } else {
      StepInv(s, steps[0]);
      RunInv(Apply(s, steps[0]), steps[1..]);
    }
  }

  ghost predicate CanWrite(s: State, p: Process) {
    exists t: nat :: WasGranted(s, p, t) && PassesFence(s.row, t)
  }

  /**
   Fencing, with no assumption about clocks: in every reachable state exactly the process that was granted
   the stored token can pass the fence, so at most one process can.
   */
  lemma OneWriter(steps: seq<Step>, p: Process, q: Process)
    ensures var s := Run(START, steps);
            && (CanWrite(s, p) <==> s.granted != [] && s.granted[|s.granted| - 1] == p)
            && (CanWrite(s, p) && CanWrite(s, q) ==> p == q)
  {
    var s := Run(START, steps);
    RunInv(START, steps);
    if s.granted != [] && s.granted[|s.granted| - 1] == p {
      assert WasGranted(s, p, |s.granted|);
    }
  }

  /** A write whose own condition matches is accepted exactly from the latest grantee, under its latest token. */
  lemma WriteAcceptedIff(steps: seq<Step>, p: Process, token: nat, matches: bool)
    ensures var s := Run(START, steps);
            Apply(s, GuardedWrite(p, token, matches)).writes ==
              if matches && token == |s.granted| > 0 && s.granted[token - 1] == p then s.writes + [Write(p, token)] else s.writes
  {
    RunInv(START, steps);
  }

  /** The accepted writes carry non-decreasing tokens, one writer per token, never below the stored token. */
  lemma WriteLog(steps: seq<Step>, more: seq<Step>, i: nat, j: nat)
    requires i <= j < |Run(Run(START, steps), more).writes|
    ensures var s, s' := Run(START, steps), Run(Run(START, steps), more);
            && Later(s, s')
            && s'.writes[i].token <= s'.writes[j].token
            && (s'.writes[i].token == s'.writes[j].token ==> s'.writes[i].writer == s'.writes[j].writer)
            && (|s.writes| <= j && s.row.Some? ==> s.row.value.token <= s'.writes[j].token)
  {
    var s := Run(START, steps);
    RunInv(START, steps);
    RunInv(s, more);
    if |s.writes| <= j && s.row.Some? { LaterWrites(s, more, j); }
  }

  /** A write accepted from now on carries at least the token stored now. */
  lemma {:induction false} LaterWrites(s: State, steps: seq<Step>, j: nat)
    requires Inv(s) && s.row.Some? && |s.writes| <= j < |Run(s, steps).writes|
    ensures s.row.value.token <= Run(s, steps).writes[j].token
    decreases |steps|
  {
    if steps == [] {
    } else {
      var s1 := Apply(s, steps[0]);
      StepInv(s, steps[0]);
      RunInv(s1, steps[1..]);
      if j < |s1.writes| {
        assert Run(s, steps).writes[j] == s1.writes[j];
      } else {
        LaterWrites(s1, steps[1..], j);
      }
    }
  }

  /** A process whose latest grant is not the stored token cannot disturb the row, with any token it ever held. */
  lemma DeposedIsHarmless(steps: seq<Step>, p: Process, token: nat, now: real, ttl: real)
    ensures var s := Run(START, steps);
            s.granted != [] && s.granted[|s.granted| - 1] != p ==>
              && Apply(s, RenewStep(p, token, now, ttl)).row == s.row
              && Apply(s, ReleaseStep(p, token, now)).row == s.row
              && Apply(s, GuardedWrite(p, token, true)).writes == s.writes
  {
    RunInv(START, steps);
  }

  /**
   In every reachable state an acquisition is granted exactly when the lease is unclaimed, past its expiry or held
   under the same identity; the grantee is then the one writer, with the next token.
   */
  lemma AcquireIff(steps: seq<Step>, p: Process, now: real, ttl: real)
    ensures var s := Run(START, steps); var s' := Apply(s, Acquire(p, now, ttl));
            if p in s.identity && (s.row.None? || s.row.value.expiresAt < now || s.row.value.holder == s.identity[p]) then
              && s'.granted == s.granted + [p]
              && s'.row == Some(Row(s.identity[p], |s.granted| + 1, now + ttl))
              && CanWrite(s', p)
            else s' == s
  {
    var s := Run(START, steps);
    var s' := Apply(s, Acquire(p, now, ttl));
    RunInv(START, steps);
    if s' != s { assert WasGranted(s', p, |s'.granted|); }
  }

  /** Whatever the holder does not do, its lease is taken over by whoever asks after the expiry. */
  lemma Takeover(steps: seq<Step>, p: Process, now: real, ttl: real)
    ensures var s := Run(START, steps);
            p in s.identity && (s.row.Some? ==> s.row.value.expiresAt < now) ==>
              && CanWrite(Apply(s, Acquire(p, now, ttl)), p)
              && forall q: Process :: CanWrite(Apply(s, Acquire(p, now, ttl)), q) ==> q == p
  {
    AcquireIff(steps, p, now, ttl);
    var s' := Apply(Run(START, steps), Acquire(p, now, ttl));
    RunInv(START, steps);
    StepInv(Run(START, steps), Acquire(p, now, ttl));
    assert forall q: Process, t: nat :: WasGranted(s', q, t) && PassesFence(s'.row, t) ==> t == |s'.granted|;
  }

  /** After the holder's release any process acquires at every later time. */
  lemma ReleaseFrees(steps: seq<Step>, holder: Process, at: real, p: Process, now: real, ttl: real)
    ensures var s := Run(START, steps);
            (s.granted != [] && s.granted[|s.granted| - 1] == holder && p in s.identity && at < now) ==>
              var freed := Apply(s, ReleaseStep(holder, |s.granted|, at));
              && freed.row.Some? && freed.row.value.expiresAt == at
              && CanWrite(Apply(freed, Acquire(p, now, ttl)), p)
  {
    var s := Run(START, steps);
    RunInv(START, steps);
    var freed := Apply(s, ReleaseStep(holder, |s.granted|, at));
    StepInv(s, ReleaseStep(holder, |s.granted|, at));
    var s' := Apply(freed, Acquire(p, now, ttl));
    if s' != freed { assert WasGranted(s', p, |s'.granted|); }
  }

  // ----- time -----

  /** One tenure: a grant and the interval over which its lease was, or is, in force. */
  datatype Tenure = Tenure(holder: string, token: nat, start: real, end: real)

  datatype Timed = Timed(row: Option<Row>, tenures: seq<Tenure>)

  datatype LeaseEvent =
    | Take(holder: string, now: real)
    | Extend(holder: string, token: nat, now: real)
    | GiveUp(holder: string, token: nat, now: real)

  /** The row, and the history of tenures, under one statement. A re-acquisition supersedes the holder's own tenure. */
  function Tick(t: Timed, e: LeaseEvent, ttl: real): Timed {
    match e
    case Take(holder, now) =>
      if MayAcquire(t.row, holder, now) then
        Timed(Acquired(t.row, holder, now, ttl),
              Ended(t.tenures, now) + [Tenure(holder, NextToken(t.row), now, now + ttl)])
      else t
    case Extend(holder, token, now) =>
      if Holds(t.row, holder, token) then Timed(Renewed(t.row, holder, token, now, ttl), EndingAt(t.tenures, now + ttl)) else t
    case GiveUp(holder, token, now) =>
      if Holds(t.row, holder, token) then Timed(Released(t.row, holder, token, now), EndingAt(t.tenures, now)) else t
  }

  function EndingAt(ts: seq<Tenure>, end: real): seq<Tenure> {
    if ts == [] then [] else ts[|ts| - 1 := ts[|ts| - 1].(end := end)]
  }

  function Ended(ts: seq<Tenure>, now: real): seq<Tenure> {
    if ts == [] then [] else EndingAt(ts, Min(ts[|ts| - 1].end, now))
  }

  function TimedRun(t: Timed, events: seq<LeaseEvent>, ttl: real): Timed
    decreases |events|
  {
    if events == [] then t else TimedRun(Tick(t, events[0], ttl), events[1..], ttl)
  }

  /** One shared clock: the time arguments are non-decreasing in execution order. */
  predicate InOrder(clock: real, events: seq<LeaseEvent>)
    decreases |events|
  {
    events == [] || (clock <= events[0].now && InOrder(events[0].now, events[1..]))
  }

  predicate TimedInv(t: Timed, clock: real) {
    && (t.row.None? <==> t.tenures == [])
    && (t.row.Some? ==>
          var last := t.tenures[|t.tenures| - 1];
          t.row.value == Row(last.holder, last.token, last.end))
    && (forall i :: 0 <= i < |t.tenures| ==> t.tenures[i].start <= t.tenures[i].end && t.tenures[i].start <= clock)
    && (forall i, j :: 0 <= i < j < |t.tenures| ==>
          && t.tenures[i].end <= t.tenures[j].start
          && (t.tenures[i].holder != t.tenures[j].holder ==> t.tenures[i].end < t.tenures[j].start))
  }

  lemma {:induction false} TimedRunInv(t: Timed, clock: real, events: seq<LeaseEvent>, ttl: real) returns (end: real)
    requires TimedInv(t, clock) && InOrder(clock, events) && ttl >= 0.0
    ensures TimedInv(TimedRun(t, events, ttl), end)
    decreases |events|
  {
    end := clock;
    if events == [] {
    } else {
      TickInv(t, clock, events[0], ttl);
      end := TimedRunInv(Tick(t, events[0], ttl), events[0].now, events[1..], ttl);
    }
  }

  lemma TickInv(t: Timed, clock: real, e: LeaseEvent, ttl: real)
    requires TimedInv(t, clock) && clock <= e.now && ttl >= 0.0
    ensures TimedInv(Tick(t, e, ttl), e.now)
  {
    if t.tenures != [] {
      var n := |t.tenures| - 1;
      assert forall i :: 0 <= i < n ==> t.tenures[i].end <= t.tenures[n].start;
    }
  }

  /** A different holder takes over only after the lease expired or was released: no two holders' tenures overlap. */
  lemma TenuresDisjoint(events: seq<LeaseEvent>, clock: real, ttl: real, i: nat, j: nat)
    requires InOrder(clock, events) && ttl >= 0.0
    requires i < j < |TimedRun(Timed(None, []), events, ttl).tenures|
    ensures var ts := TimedRun(Timed(None, []), events, ttl).tenures;
            ts[i].end <= ts[j].start && (ts[i].holder != ts[j].holder ==> ts[i].end < ts[j].start)
  {
    var end := TimedRunInv(Timed(None, []), clock, events, ttl);
  }

  /**
   A property of the holder's own events alone: `holder` with `token` last succeeded at `last`, never gives the
   lease up, and each of its renewals and re-acquisitions, and the end of the interval, comes at most one TTL
   after the one before. Nothing is asked of anyone else.
   */
  predicate RenewsInTime(events: seq<LeaseEvent>, holder: string, token: nat, last: real, end: real, ttl: real)
    decreases |events|
  {
    if events == [] then end - last <= ttl
    else
      var e := events[0];
      if e.holder == holder && e.Take? then
        e.now - last <= ttl && RenewsInTime(events[1..], holder, token + 1, e.now, end, ttl)
      else if e.holder == holder && e.token == token then
        e.Extend? && e.now - last <= ttl && RenewsInTime(events[1..], holder, token, e.now, end, ttl)
      else RenewsInTime(events[1..], holder, token, last, end, ttl)
  }

  /** One shared clock that ends at `end`. */
  predicate InOrderUntil(clock: real, events: seq<LeaseEvent>, end: real)
    decreases |events|
  {
    if events == [] then clock <= end else clock <= events[0].now && InOrderUntil(events[0].now, events[1..], end)
  }

  /** Whoever acts next, acts within one TTL of the holder's last success: the holder's next one is still ahead. */
  lemma {:induction false} WithinTtl(events: seq<LeaseEvent>, holder: string, token: nat, last: real, clock: real, end: real, ttl: real)
    requires InOrderUntil(clock, events, end) && RenewsInTime(events, holder, token, last, end, ttl)
    ensures clock - last <= ttl
    decreases |events|
  {
    if events == [] {
    } else {
      var e := events[0];
      if e.holder != holder || (!e.Take? && e.token != token) {
        WithinTtl(events[1..], holder, token, last, e.now, end, ttl);
      }
    }
  }

  /** A holder whose renewals come with gaps of at most the TTL is never deposed, whatever others attempt and when. */
  lemma {:induction false} NeverDeposed(t: Timed, events: seq<LeaseEvent>, ttl: real, last: real, clock: real, end: real)
    requires t.row.Some? && t.row.value.expiresAt == last + ttl
    requires InOrderUntil(clock, events, end)
    requires RenewsInTime(events, t.row.value.holder, t.row.value.token, last, end, ttl)
    ensures var t' := TimedRun(t, events, ttl);
            t'.row.Some? && t'.row.value.holder == t.row.value.holder && t.row.value.token <= t'.row.value.token
    decreases |events|
  {
    if events == [] {
    } else {
      var e, row := events[0], t.row.value;
      var mine := e.holder == row.holder && (e.Take? || e.token == row.token);
      if !mine { WithinTtl(events[1..], row.holder, row.token, last, e.now, end, ttl); }
      NeverDeposed(Tick(t, e, ttl), events[1..], ttl, if mine then e.now else last, e.now, end);
    }
  }

  /** The time until which a successful event of the holder keeps rivals out. */
  function Deadline(own: LeaseEvent, ttl: real): real {
    if own.GiveUp? then own.now else own.now + ttl
  }

  /** The token under which the holder stands after its event. */
  function TokenAfter(row: Option<Row>, own: LeaseEvent): nat {
    if !own.Take? then own.token else if row.None? then 1 else row.value.token + 1
  }

  predicate Succeeds(row: Option<Row>, own: LeaseEvent) {
    if own.Take? then row.None? || row.value.expiresAt < own.now || row.value.holder == own.holder
    else row.Some? && row.value.holder == own.holder && row.value.token == own.token
  }

  /** Not an event of the standing holder, and no attempt to take its lease after the deadline. */
  predicate Outside(e: LeaseEvent, holder: string, token: nat, deadline: real) {
    if e.Take? then e.holder != holder && e.now <= deadline else e.holder != holder || e.token != token
  }

  lemma {:induction false} OutsidersChangeNothing(t: Timed, events: seq<LeaseEvent>, ttl: real)
    requires t.row.Some?
    requires forall i :: 0 <= i < |events| ==> Outside(events[i], t.row.value.holder, t.row.value.token, t.row.value.expiresAt)
    ensures TimedRun(t, events, ttl) == t
    decreases |events|
  {
    if events == [] {
    } else {
      OutsidersChangeNothing(t, events[1..], ttl);
    }
  }

  /**
   After the holder's latest success a rival takes the lease exactly when it comes later than that success plus the
   TTL, or later than the release if that was the success; whatever else was attempted before.
   */
  lemma RivalTakesIff(t: Timed, own: LeaseEvent, others: seq<LeaseEvent>, rival: string, now: real, ttl: real)
    requires Succeeds(t.row, own) && rival != own.holder
    requires forall i :: 0 <= i < |others| ==> Outside(others[i], own.holder, TokenAfter(t.row, own), Deadline(own, ttl))
    ensures var t1 := TimedRun(Tick(t, own, ttl), others, ttl);
            var t2 := Tick(t1, Take(rival, now), ttl);
            && t1.row == Some(Row(own.holder, TokenAfter(t.row, own), Deadline(own, ttl)))
            && (now > Deadline(own, ttl) ==> t2.row == Some(Row(rival, TokenAfter(t.row, own) + 1, now + ttl)))
            && (now <= Deadline(own, ttl) ==> t2 == t1)
  {
    OwnSuccess(t, own, ttl);
    var t1 := Tick(t, own, ttl);
    OutsidersChangeNothing(t1, others, ttl);
    RivalOutcome(t1, rival, now, ttl);
    hide Tick, TimedRun;
  }

  lemma OwnSuccess(t: Timed, own: LeaseEvent, ttl: real)
    requires Succeeds(t.row, own)
    ensures Tick(t, own, ttl).row == Some(Row(own.holder, TokenAfter(t.row, own), Deadline(own, ttl)))
  {
  }

  lemma RivalOutcome(t: Timed, rival: string, now: real, ttl: real)
    requires t.row.Some? && rival != t.row.value.holder
    ensures var t' := Tick(t, Take(rival, now), ttl);
            if now > t.row.value.expiresAt then t'.row == Some(Row(rival, t.row.value.token + 1, now + ttl)) else t' == t
  {
  }

  // ----- the timed history is the protocol's -----

  /** What a step of the protocol does to the row, as an event; none if its process was not entitled to it. */
  function EventOf(s: State, step: Step): seq<LeaseEvent> {
    match step
    case Acquire(p, now, _) => if p in s.identity then [Take(s.identity[p], now)] else []
    case RenewStep(p, token, now, _) =>
      if p in s.identity && WasGranted(s, p, token) then [Extend(s.identity[p], token, now)] else []
    case ReleaseStep(p, token, now) =>
      if p in s.identity && WasGranted(s, p, token) then [GiveUp(s.identity[p], token, now)] else []
    case _ => []
  }

  function EventsOf(s: State, steps: seq<Step>): seq<LeaseEvent>
    decreases |steps|
  {
    if steps == [] then [] else EventOf(s, steps[0]) + EventsOf(Apply(s, steps[0]), steps[1..])
  }

  predicate UsesTtl(step: Step, ttl: real) {
    (step.Acquire? || step.RenewStep?) ==> step.ttl == ttl
  }

  lemma {:induction false} TimedConcat(t: Timed, a: seq<LeaseEvent>, b: seq<LeaseEvent>, ttl: real)
    ensures TimedRun(t, a + b, ttl) == TimedRun(TimedRun(t, a, ttl), b, ttl)
    decreases |a|
  {
    if a == [] {
      assert a + b == b;
    } else {
      assert (a + b)[0] == a[0] && (a + b)[1..] == a[1..] + b;
      TimedConcat(Tick(t, a[0], ttl), a[1..], b, ttl);
    }
  }

  lemma EventAgrees(s: State, t: Timed, step: Step, ttl: real)
    requires s.row == t.row && UsesTtl(step, ttl)
    ensures Apply(s, step).row == TimedRun(t, EventOf(s, step), ttl).row
  {
    var es := EventOf(s, step);
    if es != [] {
      assert TimedRun(Tick(t, es[0], ttl), es[1..], ttl) == Tick(t, es[0], ttl);
    }
  }

  /** Every run of the protocol with one TTL is, on the row, the timed run of its events. */
  lemma {:induction false} TimedAgrees(s: State, t: Timed, steps: seq<Step>, ttl: real)
    requires s.row == t.row
    requires forall i :: 0 <= i < |steps| ==> UsesTtl(steps[i], ttl)
    ensures Run(s, steps).row == TimedRun(t, EventsOf(s, steps), ttl).row
    decreases |steps|
  {
    if steps == [] {
    } else {
      var es, rest := EventOf(s, steps[0]), EventsOf(Apply(s, steps[0]), steps[1..]);
      EventAgrees(s, t, steps[0], ttl);
      TimedConcat(t, es, rest, ttl);
      TimedAgrees(Apply(s, steps[0]), TimedRun(t, es, ttl), steps[1..], ttl);
    }
  }
}
