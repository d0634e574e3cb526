/**
 The per-address submission cadence (`adapters/address_ratelimit.py`), for one address.

 The shared state is two Redis keys with expiries: the slot and the throttled mode. Any number of
 callers interleave at the level of single Redis commands; time is in milliseconds.
 */
module AddressCadence {
  import opened Decimals
  import Runs

  const SLOT_MS := 10_000
  const MODE_MS := 60_000

  /** The keys of one address; a key is live until the clock reaches its expiry. */
  datatype Store = Store(clock: nat, slot: Option<nat>, mode: Option<nat>) {
    predicate SlotLive() {
      slot.Some? && clock < slot.value
    }

    predicate ModeLive() {
      mode.Some? && clock < mode.value
    }

    /** PTTL of the slot: the remaining milliseconds, or a non-positive answer. */
    function SlotRemaining(): int {
      if SlotLive() then slot.value - clock else -2
    }

    /** SET slot 1 PX 10000. */
    function WithSlot(): Store {
      this.(slot := Some(clock + SLOT_MS))
    }
  }

  // ----- the commands of the protocol -----

  /** Where a caller is: between the commands of a reservation, or of re-establishing its slot. */
  datatype Pc = AtPttl | AtMode | AtSetNx(checkedAt: nat) | AtResetCheck | AtReset | Finished

  datatype Event =
    | Released(time: nat, reserved: bool, checkedAt: nat)
    | Cleared(time: nat, used: int, cap: int)

  /** A report of the exchange: requests used, and the cap. */
  datatype Report = Report(time: nat, used: int, cap: int)

  /** `log` and `reports` are history. */
  datatype System = System(store: Store, callers: map<nat, Pc>, log: seq<Event>, reports: seq<Report>)

  datatype Step =
    | Advance(ms: nat)
    | StartReserve(c: nat)
    | StartReestablish(c: nat)
    | Command(c: nat)
    | MarkThrottled
    | Snapshot(used: Option<int>, cap: Option<int>)

  function Apply(s: System, step: Step): System {
    match step
    case Advance(ms) => s.(store := s.store.(clock := s.store.clock + ms))
    case StartReserve(c) => s.(callers := s.callers[c := AtPttl])
    case StartReestablish(c) => s.(callers := s.callers[c := AtResetCheck])
    case Command(c) => if c in s.callers then Execute(s, c) else s
    case MarkThrottled => s.(store := s.store.WithSlot())
    case Snapshot(used, cap) =>
      if used.None? || cap.None? then s
      else
        var s1 := s.(reports := s.reports + [Report(s.store.clock, used.value, cap.value)]);
        if used.value >= cap.value then s1.(store := s.store.(mode := Some(s.store.clock + MODE_MS)))
        else
          s1.(store := s.store.(mode := None, slot := None),
              log := s.log + [Cleared(s.store.clock, used.value, cap.value)])
  }

  /** The next Redis command of a caller. */
  function Execute(s: System, c: nat): System
    requires c in s.callers
  {
    var st := s.store;
    match s.callers[c]
    case AtPttl => s.(callers := s.callers[c := if st.SlotRemaining() > 0 then AtPttl else AtMode])
    case AtMode =>
      if st.ModeLive() then s.(callers := s.callers[c := AtSetNx(st.clock)])
      else s.(callers := s.callers[c := Finished], log := s.log + [Released(st.clock, false, st.clock)])
    case AtSetNx(checkedAt) =>
      if st.SlotLive() then s.(callers := s.callers[c := AtPttl])
      else
        s.(store := st.WithSlot(), callers := s.callers[c := Finished],
           log := s.log + [Released(st.clock, true, checkedAt)])
    case AtResetCheck => s.(callers := s.callers[c := if st.ModeLive() then AtReset else Finished])
    case AtReset => s.(store := st.WithSlot(), callers := s.callers[c := Finished])
    case Finished => s
  }

  function Run(s: System, steps: seq<Step>): System {
    Runs.Run(Apply, s, steps)
  }

  /** Any keys may exist at the start; nothing has happened yet. */
  predicate Start(s: System) {
    s.log == [] && s.callers == map[] && s.reports == []
  }

  // ----- the invariant -----

  predicate Reserved(e: Event) {
    e.Released? && e.reserved
  }

  /** No below-cap snapshot among the events strictly between two positions. */
  predicate NoClear(log: seq<Event>, i: int, j: int)
    requires 0 <= i && j <= |log|
  {
    forall k :: i < k < j ==> !log[k].Cleared?
  }

  predicate Inv(s: System) {
    && (forall i :: 0 <= i < |s.log| ==> s.log[i].time <= s.store.clock)
    && (forall i, j :: 0 <= i < j < |s.log| ==> s.log[i].time <= s.log[j].time)
    && (forall c :: c in s.callers && s.callers[c].AtSetNx? ==> s.callers[c].checkedAt <= s.store.clock)
    && (forall i :: 0 <= i < |s.log| && s.log[i].Released? ==> s.log[i].checkedAt <= s.log[i].time)
    && (forall i :: 0 <= i < |s.log| && s.log[i].Cleared? ==> s.log[i].used < s.log[i].cap)
    && (forall i :: 0 <= i < |s.log| && Reserved(s.log[i]) && NoClear(s.log, i, |s.log|) ==>
          s.store.slot.Some? && s.log[i].time + SLOT_MS <= s.store.slot.value)
    && (forall i, j :: 0 <= i < j < |s.log| && Reserved(s.log[i]) && Reserved(s.log[j]) && NoClear(s.log, i, j) ==>
          s.log[i].time + SLOT_MS <= s.log[j].time)
  }

  lemma LogInv(s: System, s': System, e: Event)
    requires Inv(s) && s'.log == s.log + [e] && e.time == s.store.clock == s'.store.clock
    requires Reserved(e) ==> !s.store.SlotLive() && s'.store.slot == Some(s.store.clock + SLOT_MS)
    requires !Reserved(e) ==> s'.store.slot == s.store.slot || e.Cleared?
    requires e.Released? ==> e.checkedAt <= e.time
    requires e.Cleared? ==> e.used < e.cap
    requires forall c :: c in s'.callers && s'.callers[c].AtSetNx? ==> s'.callers[c].checkedAt <= s'.store.clock
    ensures Inv(s')
  {
    var n := |s.log|;
    forall i, j | 0 <= i < j < |s'.log| && Reserved(s'.log[i]) && Reserved(s'.log[j]) && NoClear(s'.log, i, j)
      ensures s'.log[i].time + SLOT_MS <= s'.log[j].time
    {
      assert forall k :: i < k < j ==> s.log[k] == s'.log[k];
      assert NoClear(s.log, i, j);
    }
    forall i | 0 <= i < |s'.log| && Reserved(s'.log[i]) && NoClear(s'.log, i, |s'.log|)
      ensures s'.store.slot.Some? && s'.log[i].time + SLOT_MS <= s'.store.slot.value
    {
      if i < n {
        assert s'.log[n] == e && !e.Cleared?;
        assert forall k :: i < k < n ==> s.log[k] == s'.log[k];
        assert NoClear(s.log, i, n);
      }
    }
  }

  /** A step that records nothing keeps the invariant if it never shortens the slot. */
  lemma QuietInv(s: System, s': System)
    requires Inv(s) && s'.log == s.log && s.store.clock <= s'.store.clock
    requires s'.store.slot == s.store.slot || s'.store.slot == Some(s.store.clock + SLOT_MS)
    requires forall c :: c in s'.callers && s'.callers[c].AtSetNx? ==> s'.callers[c].checkedAt <= s'.store.clock
    ensures Inv(s')
  {
  }

  lemma StepInv(s: System, step: Step)
    requires Inv(s)
    ensures Inv(Apply(s, step)) && s.log <= Apply(s, step).log && s.store.clock <= Apply(s, step).store.clock
  {
    var s' := Apply(s, step);
    assert forall c :: c in s'.callers && s'.callers[c].AtSetNx? ==> s'.callers[c].checkedAt <= s'.store.clock;
    hide Inv;
    if s'.log != s.log {
      LogInv(s, s', s'.log[|s.log|]);
    } else {
      QuietInv(s, s');
    }
  }

  lemma {:induction false} RunInv(s: System, steps: seq<Step>)
    requires Inv(s)
    ensures Inv(Run(s, steps)) && s.log <= Run(s, steps).log && s.store.clock <= Run(s, steps).store.clock
    decreases |steps|
  {
    if steps == [] {
    } else {
      StepInv(s, steps[0]);
      RunInv(Apply(s, steps[0]), steps[1..]);
    }
  }

  /**
   Under every interleaving two reservations of the slot are at least ten seconds apart, unless between them the
   exchange reported fewer requests used than the cap.
   */
  lemma ReservationsSpaced(s: System, steps: seq<Step>, i: nat, j: nat)
    requires Start(s) && i < j < |Run(s, steps).log|
    requires Reserved(Run(s, steps).log[i]) && Reserved(Run(s, steps).log[j])
    ensures var log := Run(s, steps).log;
            log[i].time + 10_000 <= log[j].time || exists k :: i < k < j && log[k].Cleared? && log[k].used < log[k].cap
  {
    RunInv(s, steps);
    assert !NoClear(Run(s, steps).log, i, j) || NoClear(Run(s, steps).log, i, j);
  }

  // ----- when the mode is on -----

  /** The latest report found the address at or over its cap, less than a minute ago. */
  predicate AtCapLately(s: System) {
    && s.reports != []
    && var r := s.reports[|s.reports| - 1];
       r.used >= r.cap && s.store.clock < r.time + 60_000
  }

  predicate ModeOk(s: System) {
    s.reports != [] ==>
      var r := s.reports[|s.reports| - 1];
      s.store.mode == if r.used >= r.cap then Some(r.time + 60_000) else None
  }

  lemma {:induction false} RunModeOk(s: System, steps: seq<Step>)
    requires ModeOk(s)
    ensures ModeOk(Run(s, steps)) && s.reports <= Run(s, steps).reports
    ensures Run(s, steps).reports == [] ==> Run(s, steps).store.mode == s.store.mode
    decreases |steps|
  {
    if steps == [] {
    } else {
      RunModeOk(Apply(s, steps[0]), steps[1..]);
    }
  }

  /**
   In every reachable state the throttled mode is on exactly when the latest report of the exchange found the address
   at its cap, less than a minute ago; before the first report it is what it was at the start.
   */
  lemma ModeIff(s: System, steps: seq<Step>)
    requires Start(s)
    ensures var s' := Run(s, steps);
            if s'.reports != [] then s'.store.ModeLive() <==> AtCapLately(s')
            else s'.store.mode == s.store.mode
  {
    RunModeOk(s, steps);
  }

  /** A numeric report is recorded as it came, at its time; anything else changes nothing. */
  lemma ReportsRecorded(s: System, used: Option<int>, cap: Option<int>)
    ensures Apply(s, Snapshot(used, cap)).reports ==
              if used.Some? && cap.Some? then s.reports + [Report(s.store.clock, used.value, cap.value)] else s.reports
    ensures used.None? || cap.None? ==> Apply(s, Snapshot(used, cap)) == s
    ensures used.Some? && cap.Some? && used.value < cap.value ==> Apply(s, Snapshot(used, cap)).store.slot.None?
    ensures used.Some? && cap.Some? && used.value >= cap.value ==> Apply(s, Snapshot(used, cap)).store.slot == s.store.slot
  {
  }

  /** No report below the cap among some steps. */
  predicate NoneBelowCap(steps: seq<Step>) {
    forall i :: 0 <= i < |steps| && steps[i].Snapshot? && steps[i].used.Some? && steps[i].cap.Some? ==>
      steps[i].used.value >= steps[i].cap.value
  }

  /** After a report at the cap the mode stays on for a minute, unless one below the cap follows. */
  lemma {:induction false} AtCapHoldsAMinute(s: System, at: nat, steps: seq<Step>)
    requires s.store.mode.Some? && at + 60_000 <= s.store.mode.value && at <= s.store.clock && NoneBelowCap(steps)
    requires Run(s, steps).store.clock < at + 60_000
    ensures ModeThroughout(s, steps)
    decreases |steps|
  {
    RunClock(s, steps);
    if steps == [] {
    } else {
      AtCapHoldsAMinute(Apply(s, steps[0]), at, steps[1..]);
    }
  }

  lemma {:induction false} RunClock(s: System, steps: seq<Step>)
    ensures s.store.clock <= Run(s, steps).store.clock
    decreases |steps|
  {
    if steps == [] {
    } else {
      RunClock(Apply(s, steps[0]), steps[1..]);
    }
  }

  /** Hence within that minute every caller released went through the slot. */
  lemma AtCapForcesReservations(s: System, before: seq<Step>, used: int, cap: int, after: seq<Step>, k: nat)
    requires Start(s) && used >= cap && NoneBelowCap(after)
    requires var s1 := Apply(Run(s, before), Snapshot(Some(used), Some(cap)));
             |s1.log| <= k < |Run(s1, after).log| && Run(s1, after).store.clock < s1.store.clock + 60_000
    ensures var s1 := Apply(Run(s, before), Snapshot(Some(used), Some(cap)));
            Reserved(Run(s1, after).log[k])
  {
    var s1 := Apply(Run(s, before), Snapshot(Some(used), Some(cap)));
    RunInv(s, before);
    StepInv(Run(s, before), Snapshot(Some(used), Some(cap)));
    AtCapHoldsAMinute(s1, s1.store.clock, after);
    OnlyReservations(s1, after);
  }

  /**
   In every reachable state after a first report, a caller at its mode check is released without the slot exactly when
   the latest report was below the cap or is a minute old; otherwise it goes on to ask for the slot.
   */
  lemma ReleasedUnreservedIff(s: System, steps: seq<Step>, c: nat)
    requires Start(s)
    ensures var s1 := Run(s, steps); var s2 := Apply(s1, Command(c));
            c in s1.callers && s1.callers[c].AtMode? && s1.reports != [] ==>
              if AtCapLately(s1) then s2.log == s1.log && s2.callers == s1.callers[c := AtSetNx(s1.store.clock)]
              else s2.log == s1.log + [Released(s1.store.clock, false, s1.store.clock)] && s2.callers == s1.callers[c := Finished]
  {
    ModeIff(s, steps);
  }

  // ----- what a slot delays -----

  /** The caller still waits for the slot, or time has passed `until`. */
  predicate HeldUntil(s: System, c: nat, until: nat) {
    && c in s.callers && (s.callers[c].AtPttl? || until <= s.store.clock)
    && (s.store.clock < until ==> s.store.slot.Some? && until <= s.store.slot.value)
  }

  predicate KeepsWaiting(step: Step, c: nat) {
    !(step.StartReestablish? && step.c == c)
    && !(step.Snapshot? && step.used.Some? && step.cap.Some? && step.used.value < step.cap.value)
  }

  /** A slot holds back every caller that has yet to look at it until the slot ends, unless a below-cap report deletes it. */
  lemma {:induction false} SlotHoldsBack(s: System, c: nat, until: nat, steps: seq<Step>)
    requires HeldUntil(s, c, until) && until <= s.store.clock + 10_000
    requires forall i :: 0 <= i < |steps| ==> KeepsWaiting(steps[i], c)
    ensures HeldUntil(Run(s, steps), c, until)
    decreases |steps|
  {
    if steps == [] {
    } else {
      SlotHoldsBack(Apply(s, steps[0]), c, until, steps[1..]);
    }
  }

  /** Throttle evidence keeps callers that start after it waiting for ten seconds. */
  lemma ThrottleDelays(s: System, c: nat, steps: seq<Step>)
    requires forall i :: 0 <= i < |steps| ==> KeepsWaiting(steps[i], c)
    ensures var s1 := Apply(Apply(s, MarkThrottled), StartReserve(c)); var s2 := Run(s1, steps);
            c in s2.callers && (s2.callers[c].AtPttl? || s.store.clock + 10_000 <= s2.store.clock)
  {
    SlotHoldsBack(Apply(Apply(s, MarkThrottled), StartReserve(c)), c, s.store.clock + 10_000, steps);
  }

  /** Re-establishing the slot under the mode restores the full ten seconds before the next caller; without it nothing changes. */
  lemma ReestablishDelays(s: System, b: nat, c: nat, steps: seq<Step>)
    requires b != c && forall i :: 0 <= i < |steps| ==> KeepsWaiting(steps[i], c)
    ensures var s0 := Apply(Apply(s, StartReestablish(b)), Command(b));
            if s.store.ModeLive() then
              var s1 := Apply(Apply(s0, Command(b)), StartReserve(c)); var s2 := Run(s1, steps);
              c in s2.callers && (s2.callers[c].AtPttl? || s.store.clock + 10_000 <= s2.store.clock)
            else s0.store == s.store && s0.callers == s.callers[b := Finished]
  {
    if s.store.ModeLive() {
      var s0 := Apply(Apply(s, StartReestablish(b)), Command(b));
      SlotHoldsBack(Apply(Apply(s0, Command(b)), StartReserve(c)), c, s.store.clock + 10_000, steps);
    }
  }

  /** A caller leaves its reservation exactly when the log gains its release. */
  lemma ReleasesAreLogged(s: System, c: nat)
    requires c in s.callers && (s.callers[c].AtPttl? || s.callers[c].AtMode? || s.callers[c].AtSetNx?)
    ensures var s' := Apply(s, Command(c));
            c in s'.callers && (s'.callers[c].Finished? <==> s'.log != s.log)
            && (s'.log != s.log ==> exists e: Event :: e.Released? && e.time == s.store.clock && s'.log == s.log + [e])
  {
    var s' := Apply(s, Command(c));
    if s'.log != s.log { assert s'.log == s.log + [s'.log[|s.log|]]; }
  }

  // ----- releases while the mode holds -----

  /** The mode key is live in every state of a run, first and last included. */
  predicate ModeThroughout(s: System, steps: seq<Step>)
    decreases |steps|
  {
    s.store.ModeLive() && (steps == [] || ModeThroughout(Apply(s, steps[0]), steps[1..]))
  }

  /** While the mode holds, every release goes through a reservation and nothing clears the slot. */
  lemma {:induction false} OnlyReservations(s: System, steps: seq<Step>)
    requires Inv(s) && ModeThroughout(s, steps)
    ensures var log := Run(s, steps).log;
            |s.log| <= |log| && forall k :: |s.log| <= k < |log| ==> Reserved(log[k]) && s.store.clock <= log[k].time
    decreases |steps|
  {
    if steps == [] {
    } else {
      var s1 := Apply(s, steps[0]);
      StepInv(s, steps[0]);
      RunInv(s1, steps[1..]);
      OnlyReservations(s1, steps[1..]);
      if s1.log != s.log {
        assert s1.store.ModeLive();
        assert Run(s, steps).log[|s.log|] == s1.log[|s.log|];
      }
    }
  }

  lemma {:induction false} SpacedTimes(log: seq<Event>, first: nat, n: nat)
    requires first + n < |log|
    requires forall k :: first <= k <= first + n ==> Reserved(log[k])
    requires forall i, j :: 0 <= i < j < |log| && Reserved(log[i]) && Reserved(log[j]) && NoClear(log, i, j) ==>
               log[i].time + SLOT_MS <= log[j].time
    ensures log[first].time + n * SLOT_MS <= log[first + n].time
  {
    if n == 0 {
    } else {
      SpacedTimes(log, first, n - 1);
      assert NoClear(log, first + n - 1, first + n);
    }
  }

  /**
   While the throttled mode holds over an interval of length L, at most floor(L / 10 s) + 1 callers are
   released in it, under every interleaving.
   */
  lemma ReleasesBounded(s: System, before: seq<Step>, during: seq<Step>)
    requires Start(s) && ModeThroughout(Run(s, before), during)
    ensures var s0, s1 := Run(s, before), Run(Run(s, before), during);
            |s1.log| - |s0.log| <= (s1.store.clock - s0.store.clock) / 10_000 + 1
  {
    var s0 := Run(s, before);
    var s1 := Run(s0, during);
    RunInv(s, before);
    RunInv(s0, during);
    OnlyReservations(s0, during);
    var n := |s1.log| - |s0.log|;
    if n == 0 {
    } else {
      SpacedTimes(s1.log, |s0.log|, n - 1);
      assert (n - 1) * SLOT_MS <= s1.store.clock - s0.store.clock;
    }
  }

  /** A caller released with the slot by the time `horizon`, whose mode check fell between `since` and `until`. */
  predicate CheckedRelease(e: Event, since: nat, until: nat, horizon: nat) {
    Reserved(e) && since <= e.checkedAt <= until && e.time <= horizon
  }

  function CheckedReleases(log: seq<Event>, since: nat, until: nat, horizon: nat): nat {
    if log == [] then 0
    else
      CheckedReleases(log[..|log| - 1], since, until, horizon)
      + (if CheckedRelease(log[|log| - 1], since, until, horizon) then 1 else 0)
  }

  /** The latest of the counted releases, and how far its predecessors have pushed it. */
  lemma {:induction false} LatestChecked(log: seq<Event>, since: nat, until: nat, horizon: nat, n: nat) returns (last: nat)
    requires n <= |log| && CheckedReleases(log[..n], since, until, horizon) > 0
    requires forall i, j :: 0 <= i < j < |log| ==> log[i].time <= log[j].time
    requires forall i :: 0 <= i < |log| && log[i].Released? ==> log[i].checkedAt <= log[i].time
    requires forall i :: 0 <= i < |log| && log[i].Cleared? ==> log[i].time < since || horizon < log[i].time
    requires forall i, j :: 0 <= i < j < |log| && Reserved(log[i]) && Reserved(log[j]) && NoClear(log, i, j) ==>
               log[i].time + SLOT_MS <= log[j].time
    ensures last < n && CheckedRelease(log[last], since, until, horizon)
    ensures since + (CheckedReleases(log[..n], since, until, horizon) - 1) * SLOT_MS <= log[last].time
  {
    assert log[..n][..n - 1] == log[..n - 1];
    if !CheckedRelease(log[n - 1], since, until, horizon) {
      last := LatestChecked(log, since, until, horizon, n - 1);
    } else {
      last := n - 1;
      if CheckedReleases(log[..n - 1], since, until, horizon) > 0 {
        var previous := LatestChecked(log, since, until, horizon, n - 1);
        assert NoClear(log, previous, n - 1);
      }
    }
  }

  /**
   Counted by their mode checks, the callers released with the slot by a time `horizon` number at most
   floor((horizon - since) / 10 s) + 1, if no below-cap snapshot fell in between: with `horizon` the end of the interval
   this is the bound for the interval itself, and each further ten seconds let one more late caller through.
   */
  lemma CheckedReleasesBounded(s: System, steps: seq<Step>, since: nat, until: nat, horizon: nat)
    requires Start(s) && since <= horizon
    requires forall i :: 0 <= i < |Run(s, steps).log| && Run(s, steps).log[i].Cleared? ==>
               Run(s, steps).log[i].time < since || horizon < Run(s, steps).log[i].time
    ensures CheckedReleases(Run(s, steps).log, since, until, horizon) <= (horizon - since) / 10_000 + 1
  {
    var log := Run(s, steps).log;
    RunInv(s, steps);
    assert log[..|log|] == log;
    if CheckedReleases(log, since, until, horizon) > 0 {
      var last := LatestChecked(log, since, until, horizon, |log|);
      assert (CheckedReleases(log, since, until, horizon) - 1) * SLOT_MS <= horizon - since;
    }
  }

  // ----- the bounds are attained -----

  ghost predicate Reaches(s: System, s': System) {
    Runs.Reaches(Apply, s, s')
  }

  /** The start: throttled mode on since just now, no slot, nobody waiting. */
  function Throttled(since: nat): System {
    System(Store(since, None, Some(since + MODE_MS)), map[], [], [])
  }

  /** Of `n` callers the first `k` are done; the others have seen the mode on and are about to ask for the slot. */
  function Parked(since: nat, n: nat, k: nat): (callers: map<nat, Pc>)
    ensures forall c: nat :: c in callers <==> c < n
    ensures forall c: nat :: c in callers ==> callers[c] == if c < k then Finished else AtSetNx(since)
  {
    if n == 0 then map[] else Parked(since, n - 1, k)[n - 1 := if n - 1 < k then Finished else AtSetNx(since)]
  }

  /** `k` releases, one per ten seconds, all decided by a mode check at `since`. */
  function Wave(since: nat, k: nat): (log: seq<Event>)
    ensures |log| == k
  {
    if k == 0 then [] else Wave(since, k - 1) + [Released(since + (k - 1) * SLOT_MS, true, since)]
  }

  /** Ten seconds after the latest of `k` releases. */
  function Waiting(since: nat, n: nat, k: nat): System {
    var t := since + k * SLOT_MS;
    System(Store(t, if k == 0 then None else Some(t), Some(since + MODE_MS)), Parked(since, n, k), Wave(since, k), [])
  }

  lemma {:induction false} AllPark(since: nat, n: nat)
    ensures Reaches(Throttled(since), Waiting(since, n, 0))
  {
    var s0 := Throttled(since);
    if n == 0 {
      Runs.ReachesItself(Apply, s0);
      assert Parked(since, 0, 0) == map[];
    } else {
      var s1, c := Waiting(since, n - 1, 0), n - 1;
      AllPark(since, n - 1);
      var s2 := Apply(s1, StartReserve(c));
      Runs.ReachesStep(Apply, s0, s1, StartReserve(c));
      var s3 := Apply(s2, Command(c));
      Runs.ReachesStep(Apply, s0, s2, Command(c));
      var s4 := Apply(s3, Command(c));
      Runs.ReachesStep(Apply, s0, s3, Command(c));
      assert s4.callers == Parked(since, n, 0);
    }
  }

  lemma ReleaseOne(since: nat, n: nat, k: nat)
    requires k < n
    ensures Apply(Apply(Waiting(since, n, k), Command(k)), Advance(SLOT_MS)) == Waiting(since, n, k + 1)
  {
    assert Parked(since, n, k)[k := Finished] == Parked(since, n, k + 1);
  }

  lemma {:induction false} AllRelease(since: nat, n: nat, k: nat)
    requires k <= n
    ensures Reaches(Throttled(since), Waiting(since, n, k))
  {
    var s0 := Throttled(since);
    if k == 0 {
      AllPark(since, n);
    } else {
      var s1, c := Waiting(since, n, k - 1), k - 1;
      AllRelease(since, n, k - 1);
      ReleaseOne(since, n, k - 1);
      hide Apply;
      Runs.ReachesStep(Apply, s0, s1, Command(c));
      Runs.ReachesStep(Apply, s0, Apply(s1, Command(c)), Advance(SLOT_MS));
    }
  }

  lemma {:induction false} WaveEvents(since: nat, n: nat, k: nat)
    requires k < n
    ensures Wave(since, n)[k] == Released(since + k * SLOT_MS, true, since)
  {
    if k == n - 1 {
    } else {
      WaveEvents(since, n - 1, k);
    }
  }

  /**
   Counting releases by when the mode was checked, rather than by when they happen, gives no bound at all: for
   every `n` some run releases `n` callers that all checked in the same instant, an interval of length zero.
   */
  lemma ChecksDoNotBound(since: nat, n: nat)
    ensures Start(Throttled(since)) && Throttled(since).store.ModeLive()
    ensures exists s: System ::
              && Reaches(Throttled(since), s) && |s.log| == n
              && forall k :: 0 <= k < n ==> s.log[k] == Released(since + k * 10_000, true, since)
  {
    AllRelease(since, n, n);
    forall k: nat | k < n
      ensures Wave(since, n)[k] == Released(since + k * SLOT_MS, true, since)
    {
      WaveEvents(since, n, k);
    }
    assert Reaches(Throttled(since), Waiting(since, n, n));
    assert Waiting(since, n, n).log == Wave(since, n);
  }

  lemma {:induction false} WaveCounted(since: nat, n: nat, until: nat, horizon: nat)
    requires since <= until && (n == 0 || since + (n - 1) * SLOT_MS <= horizon)
    ensures CheckedReleases(Wave(since, n), since, until, horizon) == n
  {
    if n == 0 {
    } else {
      WaveCounted(since, n - 1, until, horizon);
      assert Wave(since, n)[..n - 1] == Wave(since, n - 1);
    }
  }

  /** The bound of `CheckedReleasesBounded` is attained at every start, by every horizon. */
  lemma CheckedReleasesAttained(since: nat, until: nat, horizon: nat)
    requires since <= until && since <= horizon
    ensures exists s: System ::
              && Reaches(Throttled(since), s) && (forall i :: 0 <= i < |s.log| ==> !s.log[i].Cleared?)
              && CheckedReleases(s.log, since, until, horizon) == (horizon - since) / 10_000 + 1
  {
    var n := (horizon - since) / SLOT_MS + 1;
    var s := Waiting(since, n, n);
    AllRelease(since, n, n);
    WaveCounted(since, n, until, horizon);
    forall k: nat | k < n
      ensures !s.log[k].Cleared?
    {
      WaveEvents(since, n, k);
    }
  }

  // ----- one caller, as code -----

  /** A step of somebody else than caller `c`. */
  predicate Foreign(step: Step, c: nat) {
    !((step.StartReserve? || step.StartReestablish? || step.Command?) && step.c == c)
  }

  function ForeignSteps(steps: seq<Step>, c: nat): seq<Step> {
    if steps == [] then []
    else (if Foreign(steps[0], c) then [steps[0]] else []) + ForeignSteps(steps[1..], c)
  }

  /**
   The steps of a caller and everyone else under a schedule: before each of the caller's commands whatever
   others do, until the caller is released or the schedule ends.
   */
  function Interleaving(s: System, c: nat, schedule: seq<seq<Step>>): seq<Step>
    decreases |schedule|
  {
    if schedule == [] || (c in s.callers && s.callers[c].Finished?) then []
    else
      var now := ForeignSteps(schedule[0], c) + [Command(c)];
      now + Interleaving(Run(s, now), c, schedule[1..])
  }

  /** Where a schedule leads. */
  function Drive(s: System, c: nat, schedule: seq<seq<Step>>): System {
    Run(s, Interleaving(s, c, schedule))
  }

  lemma DriveDone(s: System, c: nat, schedule: seq<seq<Step>>)
    requires schedule == [] || (c in s.callers && s.callers[c].Finished?)
    ensures Drive(s, c, schedule) == s
  {
  }

  /** Others leave the caller where it is. */
  lemma {:induction false} ForeignKeepsCaller(s: System, c: nat, steps: seq<Step>)
    requires c in s.callers
    ensures var s' := Run(s, ForeignSteps(steps, c)); c in s'.callers && s'.callers[c] == s.callers[c]
    decreases |steps|
  {
    if steps == [] {
    } else if Foreign(steps[0], c) {
      assert ForeignSteps(steps, c)[1..] == ForeignSteps(steps[1..], c);
      ForeignKeepsCaller(Apply(s, steps[0]), c, steps[1..]);
    } else {
      assert ForeignSteps(steps, c) == ForeignSteps(steps[1..], c);
      ForeignKeepsCaller(s, c, steps[1..]);
    }
  }

  /** A caller not yet released takes one more turn of its schedule. */
  lemma OneTurn(s: System, c: nat, schedule: seq<seq<Step>>)
    requires c in s.callers && !s.callers[c].Finished? && schedule != []
    ensures var s1 := Apply(Run(s, ForeignSteps(schedule[0], c)), Command(c));
            Drive(s, c, schedule) == Drive(s1, c, schedule[1..])
  {
    var others := ForeignSteps(schedule[0], c);
    var s1 := Run(s, others + [Command(c)]);
    Runs.RunConcat(Apply, s, others, [Command(c)]);
    assert Run(Run(s, others), [Command(c)]) == Apply(Run(s, others), Command(c));
    Runs.RunConcat(Apply, s, others + [Command(c)], Interleaving(s1, c, schedule[1..]));
  }

  /** The latest event is the release of the caller: with the slot, now held in full, or with the mode off. */
  predicate JustReleased(s: System, c: nat, reserved: bool) {
    && c in s.callers && s.callers[c].Finished? && |s.log| > 0
    && s.log[|s.log| - 1].Released? && s.log[|s.log| - 1].time == s.store.clock
    && s.log[|s.log| - 1].reserved == reserved
    && if reserved then s.store.slot == Some(s.store.clock + 10_000) else !s.store.ModeLive()
  }

  datatype Outcome = LetThrough(reserved: bool) | StillWaiting

  /** The tracker over the shared state; `callers` and `log` inside it are history that no decision reads. */
  class AddressActionTracker {
    var system: System

    ghost predicate Valid()
      reads this
    {
      Inv(system)
    }

    constructor (store: Store)
      ensures Valid() && Start(system) && system.store == store
    {
      system := System(store, map[], [], []);
    }

    /** Throttle evidence takes the slot for ten seconds, whoever holds it. */
    method MarkThrottledNow()
      requires Valid()
      modifies this
      ensures Valid() && system == Apply(old(system), MarkThrottled)
      ensures system.store == old(system).store.(slot := Some(old(system).store.clock + 10_000))
    {
      StepInv(system, MarkThrottled);
      system := system.(store := system.store.(slot := Some(system.store.clock + SLOT_MS)));
    }

    /** A report at the cap turns the mode on for a minute; one below deletes mode and slot; a partial one is ignored. */
    method RecordExchangeSnapshot(used: Option<int>, cap: Option<int>)
      requires Valid()
      modifies this
      ensures Valid() && system == Apply(old(system), Snapshot(used, cap))
      ensures system.store ==
                if used.None? || cap.None? then old(system).store
                else if used.value < cap.value then old(system).store.(mode := None, slot := None)
                else old(system).store.(mode := Some(old(system).store.clock + 60_000))
    {
      StepInv(system, Snapshot(used, cap));
      if used.None? || cap.None? { return; }
      var clock := system.store.clock;
      system := system.(reports := system.reports + [Report(clock, used.value, cap.value)]);
      if used.value >= cap.value {
        system := system.(store := system.store.(mode := Some(clock + MODE_MS)));
      } else {
        system := system.(store := system.store.(mode := None, slot := None),
                          log := system.log + [Cleared(clock, used.value, cap.value)]);
      }
    }

    method Interference(steps: seq<Step>, c: nat)
      requires Valid() && c in system.callers
      modifies this
      ensures Valid() && system == Run(old(system), ForeignSteps(steps, c))
      ensures c in system.callers && system.callers[c] == old(system).callers[c]
    {
      ForeignKeepsCaller(system, c, steps);
      RunInv(system, ForeignSteps(steps, c));
      system := Run(system, ForeignSteps(steps, c));
    }

    /** One turn of the schedule up to the caller's own command. */
    method Turn(c: nat, schedule: seq<seq<Step>>)
      requires Valid() && c in system.callers && !system.callers[c].Finished? && schedule != []
      modifies this
      ensures Valid() && c in system.callers && system.callers[c] == old(system).callers[c]
      ensures Drive(old(system), c, schedule) == Drive(Apply(system, Command(c)), c, schedule[1..])
    {
      OneTurn(system, c, schedule);
      Interference(schedule[0], c);
    }

    /** PTTL of the slot; a caller that finds it taken sleeps and asks again. */
    method SlotPttl(c: nat, schedule: seq<seq<Step>>) returns (remaining: int)
      requires Valid() && c in system.callers && system.callers[c].AtPttl? && schedule != []
      modifies this
      ensures Valid() && Drive(old(system), c, schedule) == Drive(system, c, schedule[1..])
      ensures c in system.callers && system.callers[c] == if remaining > 0 then AtPttl else AtMode
      ensures remaining == system.store.SlotRemaining()
    {
      Turn(c, schedule);
      StepInv(system, Command(c));
      remaining := system.store.SlotRemaining();
      system := system.(callers := system.callers[c := if remaining > 0 then AtPttl else AtMode]);
    }

    /** EXISTS of the mode; without it the caller is released. */
    method ModeExists(c: nat, schedule: seq<seq<Step>>) returns (sustained: bool)
      requires Valid() && c in system.callers && system.callers[c].AtMode? && schedule != []
      modifies this
      ensures Valid() && Drive(old(system), c, schedule) == Drive(system, c, schedule[1..])
      ensures c in system.callers && sustained == system.store.ModeLive()
      ensures if sustained then system.callers[c] == AtSetNx(system.store.clock) else JustReleased(system, c, false)
    {
      Turn(c, schedule);
      StepInv(system, Command(c));
      sustained := system.store.ModeLive();
      var clock := system.store.clock;
      if sustained {
        system := system.(callers := system.callers[c := AtSetNx(clock)]);
      } else {
        system := system.(callers := system.callers[c := Finished], log := system.log + [Released(clock, false, clock)]);
      }
    }

    /** SET NX of the slot; who gets it is released. */
    method SetSlotNx(c: nat, schedule: seq<seq<Step>>) returns (reserved: bool)
      requires Valid() && c in system.callers && system.callers[c].AtSetNx? && schedule != []
      modifies this
      ensures Valid() && Drive(old(system), c, schedule) == Drive(system, c, schedule[1..])
      ensures c in system.callers
      ensures if reserved then JustReleased(system, c, true) else system.callers[c] == AtPttl && system.store.SlotLive()
    {
      Turn(c, schedule);
      StepInv(system, Command(c));
      reserved := !system.store.SlotLive();
      if reserved {
        var store, checkedAt := system.store, system.callers[c].checkedAt;
        system := System(store.WithSlot(), system.callers[c := Finished],
                         system.log + [Released(store.clock, true, checkedAt)], system.reports);
      } else {
        system := system.(callers := system.callers[c := AtPttl]);
      }
    }

    /**
     The reservation loop of caller `c`, under a schedule of what others do before each of its commands. It is a
     run of the protocol, and lets the caller through exactly when that run releases it.
     */
    method ReserveSubmissionSlot(c: nat, schedule: seq<seq<Step>>) returns (outcome: Outcome)
      requires Valid()
      modifies this
      ensures Valid()
      ensures system == Drive(Apply(old(system), StartReserve(c)), c, schedule)
      ensures c in system.callers && (outcome.LetThrough? <==> system.callers[c].Finished?)
      ensures outcome.LetThrough? ==> JustReleased(system, c, outcome.reserved)
    {
      StepInv(system, StartReserve(c));
      system := system.(callers := system.callers[c := AtPttl]);
      ghost var goal := Drive(system, c, schedule);
      var left := schedule;
      while left != []
        invariant Valid() && c in system.callers && system.callers[c] == AtPttl
        invariant goal == Drive(system, c, left)
        decreases |left|
      {
        hide Drive, Inv, Apply;
        var remaining := SlotPttl(c, left);
        left := left[1..];
        if remaining > 0 { continue; }
        if left == [] { break; }
        var sustained := ModeExists(c, left);
        left := left[1..];
        if !sustained {
          DriveDone(system, c, left);
          return LetThrough(false);
        }
        if left == [] { break; }
        var reserved := SetSlotNx(c, left);
        left := left[1..];
        if reserved {
          DriveDone(system, c, left);
          return LetThrough(true);
        }
      }
      DriveDone(system, c, left);
      outcome := StillWaiting;
    }
  }
}
