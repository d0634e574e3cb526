/**
 Signed exchange actions (`adapters/hyperliquid.py: _signed_call` over `db/signer_action_lock.py`).

 Any number of calls run concurrently. A call is a coroutine and, once started, a worker thread; the
 steps below are its awaits and the worker's synchronous sections. The signer lock is an advisory lock
 per signer. A cancellation may arrive at any await of the coroutine.
 */
module SignedCall {
  import Runs

  /** The coroutine: before the lock, under it, or gone. */
  datatype Main =
    | PreWait
    | WaitingForLock
    | AcquiringBudget
    | Awaiting
    | AwaitingAfterCancel
    | Marking(raised: bool)
    | MarkingAfterCancel
    | Gone
  {
    /** The body of the lock's context manager. */
    predicate UnderLock() {
      AcquiringBudget? || Awaiting? || AwaitingAfterCancel? || Marking? || MarkingAfterCancel?
    }
  }

  /** The worker thread: cadence wait and callback, then the writer fence, then the SDK call. */
  datatype Worker = NotStarted | Preparing | Prepared | Authorized | InSdk | Ended
  {
    predicate Running() {
      Preparing? || Prepared? || Authorized? || InSdk?
    }
  }

  datatype Call = Call(signer: nat, main: Main, worker: Worker, cancels: nat, sdkCalls: nat, callbackOk: bool, fenceOk: bool)

  datatype System = System(calls: map<nat, Call>, lock: map<nat, nat>)

  datatype Action =
    | PreWaitOver
    | LockGranted
    | BudgetGranted
    | BudgetRefused
    | CallbackDone(ok: bool)
    | FenceChecked(ok: bool)
    | SdkBegins
    | SdkEnds
    | ResultSeen(raised: bool)
    | Marked
    | Cancel

  datatype Step = Spawn(id: nat, signer: nat) | Act(id: nat, action: Action)

  function Leave(s: System, id: nat, c: Call): System {
    System(s.calls[id := c.(main := Gone)], if c.main.UnderLock() then s.lock - {c.signer} else s.lock)
  }

  function Set(s: System, id: nat, c: Call): System {
    s.(calls := s.calls[id := c])
  }

  /** One step; an action that is not enabled changes nothing. */
  function Apply(s: System, step: Step): System {
    match step
    case Spawn(id, signer) =>
      if id in s.calls then s else Set(s, id, Call(signer, PreWait, NotStarted, 0, 0, false, false))
    case Act(id, action) =>
      if id in s.calls then ApplyAction(s, id, s.calls[id], action) else s
  }

  function ApplyAction(s: System, id: nat, c: Call, action: Action): System {
    match action
    case PreWaitOver => if c.main.PreWait? then Set(s, id, c.(main := WaitingForLock)) else s
    case LockGranted =>
      if c.main.WaitingForLock? && c.signer !in s.lock then
        System(s.calls[id := c.(main := AcquiringBudget)], s.lock[c.signer := id])
      else s
    case BudgetGranted =>
      if c.main.AcquiringBudget? then Set(s, id, c.(main := Awaiting, worker := Preparing)) else s
    case BudgetRefused => if c.main.AcquiringBudget? then Leave(s, id, c) else s
    case CallbackDone(ok) =>
      if c.worker.Preparing? then Set(s, id, c.(worker := if ok then Prepared else Ended, callbackOk := ok)) else s
    case FenceChecked(ok) =>
      if c.worker.Prepared? then Set(s, id, c.(worker := if ok then Authorized else Ended, fenceOk := ok)) else s
    case SdkBegins =>
      if c.worker.Authorized? then Set(s, id, c.(worker := InSdk, sdkCalls := c.sdkCalls + 1)) else s
    case SdkEnds => if c.worker.InSdk? then Set(s, id, c.(worker := Ended)) else s
    case ResultSeen(raised) =>
      if !c.worker.Ended? || (c.sdkCalls == 0 && !raised) then s
      else if c.main.Awaiting? then Set(s, id, c.(main := Marking(raised)))
      else if c.main.AwaitingAfterCancel? then Set(s, id, c.(main := MarkingAfterCancel))
      else s
    case Marked => if c.main.Marking? || c.main.MarkingAfterCancel? then Leave(s, id, c) else s
    case Cancel =>
      var k := c.(cancels := c.cancels + 1);
      match c.main
      case Awaiting => Set(s, id, k.(main := AwaitingAfterCancel))
      case Marking(raised) => if raised then Leave(s, id, k) else Set(s, id, k.(main := AwaitingAfterCancel))
      case Gone => s
      case _ => Leave(s, id, k)
  }

  /** The awaits whose cancellation is caught: the coroutine goes on to wait for its worker. */
  predicate StaysOnCancel(main: Main) {
    main.Awaiting? || (main.Marking? && !main.raised)
  }

  function Run(s: System, steps: seq<Step>): System {
    Runs.Run(Apply, s, steps)
  }

  const START := System(map[], map[])

  // ----- the invariant -----

  /** What holds of a call by itself. */
  predicate CallOk(c: Call) {
    && c.sdkCalls <= 1
    && (c.sdkCalls > 0 ==> c.callbackOk && c.fenceOk && (c.worker.InSdk? || c.worker.Ended?))
    && (c.worker.InSdk? ==> c.sdkCalls == 1)
    && (c.worker.Prepared? || c.worker.Authorized? ==> c.callbackOk)
    && (c.worker.Authorized? ==> c.fenceOk)
    && (c.main.AwaitingAfterCancel? || c.main.MarkingAfterCancel? ==> c.cancels >= 1)
    && (c.main.PreWait? || c.main.WaitingForLock? || c.main.AcquiringBudget? ==> c.worker.NotStarted?)
    && (c.main.Marking? || c.main.MarkingAfterCancel? ==> c.worker.Ended?)
    && (c.cancels <= 1 && c.worker.Running() ==> c.main.Awaiting? || c.main.AwaitingAfterCancel?)
    && (c.cancels >= 2 && c.worker.Running() ==> c.main.Gone?)
    && (c.main.Awaiting? || c.main.AwaitingAfterCancel? ==> !c.worker.NotStarted?)
    && (c.main.PreWait? || c.main.WaitingForLock? || c.main.AcquiringBudget? || c.main.Awaiting? ==> c.cancels == 0)
    && (c.main.AwaitingAfterCancel? && c.worker.Running() ==> c.cancels == 1)
  }

  /** The lock of a signer is held by exactly the call that is in its critical section. */
  predicate LockOk(s: System) {
    && (forall id :: id in s.calls && s.calls[id].main.UnderLock() ==>
          s.calls[id].signer in s.lock && s.lock[s.calls[id].signer] == id)
    && (forall g :: g in s.lock ==>
          s.lock[g] in s.calls && s.calls[s.lock[g]].signer == g && s.calls[s.lock[g]].main.UnderLock())
  }

  predicate Inv(s: System) {
    LockOk(s) && forall id :: id in s.calls ==> CallOk(s.calls[id])
  }

  lemma StepInv(s: System, step: Step)
    requires Inv(s)
    ensures Inv(Apply(s, step))
  {
    if step.Act? && step.id in s.calls {
      ActionKeepsCall(s, step.id, step.action);
      ActionKeepsLock(s, step.id, step.action);
      ActionIsLocal(s, step.id, step.action);
      hide ApplyAction, CallOk, LockOk;
    }
  }

  lemma ActionIsLocal(s: System, id: nat, action: Action)
    requires id in s.calls
    ensures var s' := ApplyAction(s, id, s.calls[id], action);
            s'.calls.Keys == s.calls.Keys && forall k :: k in s.calls && k != id ==> s'.calls[k] == s.calls[k]
  {
  }

  lemma ActionKeepsCall(s: System, id: nat, action: Action)
    requires id in s.calls && CallOk(s.calls[id])
    ensures var s' := ApplyAction(s, id, s.calls[id], action);
            id in s'.calls && CallOk(s'.calls[id])
  {
  }

  lemma SetKeepsLock(s: System, id: nat, c: Call)
    requires LockOk(s) && id in s.calls
    requires c.signer == s.calls[id].signer && c.main.UnderLock() == s.calls[id].main.UnderLock()
    ensures LockOk(Set(s, id, c))
  {
  }

  lemma LeaveKeepsLock(s: System, id: nat, c: Call)
    requires LockOk(s) && id in s.calls && c.signer == s.calls[id].signer && c.main == s.calls[id].main
    ensures LockOk(Leave(s, id, c))
  {
  }

  lemma GrantKeepsLock(s: System, id: nat, c: Call)
    requires LockOk(s) && id in s.calls && c.signer == s.calls[id].signer && c.main.UnderLock()
    requires !s.calls[id].main.UnderLock() && c.signer !in s.lock
    ensures LockOk(System(s.calls[id := c], s.lock[c.signer := id]))
  {
  }

  lemma ActionKeepsLock(s: System, id: nat, action: Action)
    requires id in s.calls && LockOk(s)
    ensures LockOk(ApplyAction(s, id, s.calls[id], action))
  {
    hide LockOk, Set, Leave;
    var c := s.calls[id];
    var s' := ApplyAction(s, id, c, action);
    if action.LockGranted? {
      if c.main.WaitingForLock? && c.signer !in s.lock { GrantKeepsLock(s, id, c.(main := AcquiringBudget)); }
    } else if action.Cancel? && !StaysOnCancel(c.main) {
      LeaveKeepsLock(s, id, c.(cancels := c.cancels + 1));
    } else if action.BudgetRefused? || action.Marked? {
      LeaveKeepsLock(s, id, c);
    } else {
      ActionSets(s, id, action);
      if c': Call :| s' == Set(s, id, c') && c'.signer == c.signer && c'.main.UnderLock() == c.main.UnderLock() {
        SetKeepsLock(s, id, c');
      }
    }
  }

  lemma ActionSets(s: System, id: nat, action: Action)
    requires id in s.calls && !action.LockGranted? && !action.BudgetRefused? && !action.Marked?
    requires action.Cancel? ==> StaysOnCancel(s.calls[id].main)
    ensures var c, s' := s.calls[id], ApplyAction(s, id, s.calls[id], action);
            s' == s || exists c': Call :: s' == Set(s, id, c') && c'.signer == c.signer && c'.main.UnderLock() == c.main.UnderLock()
  {
    hide Set;
  }

  lemma {:induction false} RunInv(s: System, steps: seq<Step>)
    requires Inv(s)
    ensures Inv(Run(s, steps))
    decreases |steps|
  {
    if steps == [] {
    } else {
      StepInv(s, steps[0]);
      RunInv(Apply(s, steps[0]), steps[1..]);
    }
  }

  // ----- results -----

  /** The cancellations a call received, counted in the steps of a run. */
  function Cancellations(steps: seq<Step>, id: nat): nat
    decreases |steps|
  {
    if steps == [] then 0
    else
      var before := steps[..|steps| - 1];
      Cancellations(before, id) + (if steps[|steps| - 1] == Act(id, Cancel) && id in Run(START, before).calls then 1 else 0)
  }

  /** How often the worker of a call entered the SDK in a run. */
  function Invocations(steps: seq<Step>, id: nat): nat
    decreases |steps|
  {
    if steps == [] then 0
    else
      var before := steps[..|steps| - 1];
      Invocations(before, id) + (if Invoking(Run(START, steps), id) && !Invoking(Run(START, before), id) then 1 else 0)
  }

  predicate Invoking(s: System, id: nat) {
    id in s.calls && s.calls[id].worker.InSdk?
  }

  lemma ActionCounts(s: System, id: nat, action: Action)
    requires id in s.calls && CallOk(s.calls[id])
    ensures var s', c := ApplyAction(s, id, s.calls[id], action), s.calls[id];
            && id in s'.calls
            && s'.calls[id].sdkCalls == c.sdkCalls + (if Invoking(s', id) && !Invoking(s, id) then 1 else 0)
            && s'.calls[id].cancels == c.cancels + (if action == Cancel && !c.main.Gone? then 1 else 0)
            && (c.main.Gone? ==> s'.calls[id].main.Gone?)
  {
  }

  /** The counters of a call follow one step. */
  lemma StepCounts(s: System, step: Step, id: nat)
    requires Inv(s)
    ensures var s' := Apply(s, step);
            && (id in s.calls ==>
                && id in s'.calls
                && s'.calls[id].sdkCalls == s.calls[id].sdkCalls + (if Invoking(s', id) && !Invoking(s, id) then 1 else 0)
                && s'.calls[id].cancels ==
                   s.calls[id].cancels + (if step == Act(id, Cancel) && !s.calls[id].main.Gone? then 1 else 0)
                && (s.calls[id].main.Gone? ==> s'.calls[id].main.Gone?))
            && (id !in s.calls && id in s'.calls ==>
                s'.calls[id].sdkCalls == 0 && s'.calls[id].cancels == 0 && !Invoking(s', id))
  {
    hide ApplyAction, CallOk, LockOk;
    if step.Act? && step.id in s.calls {
      ActionIsLocal(s, step.id, step.action);
      ActionCounts(s, step.id, step.action);
    }
  }

  /** The counters are what the steps say. */
  lemma {:induction false} CountersAreSteps(steps: seq<Step>, id: nat)
    ensures var s := Run(START, steps);
            && (id !in s.calls ==> Cancellations(steps, id) == 0 && Invocations(steps, id) == 0)
            && (id in s.calls ==>
                && Invocations(steps, id) == s.calls[id].sdkCalls
                && s.calls[id].cancels <= Cancellations(steps, id)
                && (!s.calls[id].main.Gone? ==> s.calls[id].cancels == Cancellations(steps, id)))
    decreases |steps|
  {
    if steps == [] {
    } else {
      var before, step := steps[..|steps| - 1], steps[|steps| - 1];
      CountersAreSteps(before, id);
      Runs.RunLast(Apply, START, steps);
      RunInv(START, before);
      StepCounts(Run(START, before), step, id);
      hide Apply, Inv;
    }
  }

  /**
   In every reachable state a call between the start of its preparation and the end of its SDK call holds its
   signer's lock exactly if it received at most one cancellation.
   */
  lemma LockHeldIff(steps: seq<Step>, id: nat)
    ensures var s := Run(START, steps);
            id in s.calls && s.calls[id].worker.Running() ==>
              (Cancellations(steps, id) <= 1 <==> s.calls[id].signer in s.lock && s.lock[s.calls[id].signer] == id)
  {
    RunInv(START, steps);
    CountersAreSteps(steps, id);
  }

  /** Hence of the calls of one signer that run together at most one received at most one cancellation. */
  lemma InvocationsNeverOverlap(steps: seq<Step>, a: nat, b: nat)
    ensures var s := Run(START, steps);
            (a in s.calls && s.calls[a].worker.Running() && b in s.calls && s.calls[b].worker.Running()
             && s.calls[a].signer == s.calls[b].signer && Cancellations(steps, a) <= 1 && Cancellations(steps, b) <= 1) ==> a == b
  {
    LockHeldIff(steps, a);
    LockHeldIff(steps, b);
  }

  // ----- authorization -----

  predicate CalledBack(steps: seq<Step>, id: nat) {
    exists i :: 0 <= i < |steps| && steps[i] == Act(id, CallbackDone(true))
  }

  predicate Fenced(steps: seq<Step>, id: nat) {
    exists j :: 0 <= j < |steps| && steps[j] == Act(id, FenceChecked(true)) && CalledBack(steps[..j], id)
  }

  /** The SDK call began after the fence passed, which was after the callback finished without error. */
  predicate Began(steps: seq<Step>, id: nat) {
    exists k :: 0 <= k < |steps| && steps[k] == Act(id, SdkBegins) && Fenced(steps[..k], id)
  }

  lemma Prefixes(steps: seq<Step>, n: nat, id: nat)
    requires n <= |steps|
    ensures CalledBack(steps[..n], id) ==> CalledBack(steps, id)
    ensures Fenced(steps[..n], id) ==> Fenced(steps, id)
    ensures Began(steps[..n], id) ==> Began(steps, id)
  {
    var p := steps[..n];
    if i :| 0 <= i < |p| && p[i] == Act(id, CallbackDone(true)) { assert steps[i] == p[i]; }
    if j :| 0 <= j < |p| && p[j] == Act(id, FenceChecked(true)) && CalledBack(p[..j], id) {
      assert steps[j] == p[j] && steps[..j] == p[..j];
    }
    if k :| 0 <= k < |p| && p[k] == Act(id, SdkBegins) && Fenced(p[..k], id) {
      assert steps[k] == p[k] && steps[..k] == p[..k];
    }
  }

  /** One step moves a worker on only by the action it waits for. */
  lemma StepAdvances(s: System, step: Step, id: nat)
    requires id in Apply(s, step).calls
    ensures var w' := Apply(s, step).calls[id];
            if id in s.calls then
              var w := s.calls[id];
              && (w'.worker.Prepared? ==> w.worker.Prepared? || step == Act(id, CallbackDone(true)))
              && (w'.worker.Authorized? ==> w.worker.Authorized? || (w.worker.Prepared? && step == Act(id, FenceChecked(true))))
              && (w'.sdkCalls > w.sdkCalls ==> w.worker.Authorized? && step == Act(id, SdkBegins))
            else w'.worker.NotStarted? && w'.sdkCalls == 0
  {
    if step.Act? && step.id in s.calls && step.id != id {
      ActionIsLocal(s, step.id, step.action);
      hide ApplyAction;
    }
  }

  lemma {:induction false} Provenance(steps: seq<Step>, id: nat)
    ensures var s := Run(START, steps);
            id in s.calls ==>
              && (s.calls[id].worker.Prepared? ==> CalledBack(steps, id))
              && (s.calls[id].worker.Authorized? ==> Fenced(steps, id))
              && (s.calls[id].sdkCalls > 0 ==> Began(steps, id))
    decreases |steps|
  {
    if steps == [] {
    } else {
      var n := |steps| - 1;
      var before := Run(START, steps[..n]);
      Provenance(steps[..n], id);
      Prefixes(steps, n, id);
      Runs.RunLast(Apply, START, steps);
      if id in Run(START, steps).calls {
        StepAdvances(before, steps[n], id);
        hide Apply;
      }
    }
  }

  /**
   However it is cancelled, a call enters the SDK at most once, and only after its callback finished without error
   and then the writer fence passed.
   */
  lemma AtMostOnceAfterAuthorization(steps: seq<Step>, id: nat)
    ensures Invocations(steps, id) <= 1
    ensures Invocations(steps, id) == 1 ==> Began(steps, id)
  {
    RunInv(START, steps);
    CountersAreSteps(steps, id);
    Provenance(steps, id);
  }

  ghost predicate Reaches(s: System, s': System) {
    Runs.Reaches(Apply, s, s')
  }

  // ----- no signer stays locked -----

  /** What is left for a worker to do, if its call fails as early as it can. */
  function Remaining(w: Worker): seq<Action> {
    match w
    case Preparing => [CallbackDone(false)]
    case Prepared => [FenceChecked(false)]
    case Authorized => [SdkBegins, SdkEnds]
    case InSdk => [SdkEnds]
    case _ => []
  }

  lemma WorkerFinishes(s: System, id: nat)
    requires id in s.calls && s.calls[id].worker.Running()
    ensures exists c: Call :: c.worker.Ended? && c.main == s.calls[id].main && c.signer == s.calls[id].signer && Reaches(s, Set(s, id, c))
  {
    var c, rest := s.calls[id], Remaining(s.calls[id].worker);
    Runs.ReachesItself(Apply, s);
    Runs.ReachesStep(Apply, s, s, Act(id, rest[0]));
    var s1 := Apply(s, Act(id, rest[0]));
    if c.worker.Authorized? {
      Runs.ReachesStep(Apply, s, s1, Act(id, SdkEnds));
      var s2 := Apply(s1, Act(id, SdkEnds));
      assert s2 == Set(s, id, s2.calls[id]);
    } else {
      assert s1 == Set(s, id, s1.calls[id]);
    }
  }

  /** With its worker at an end, a call under the lock leaves it. */
  lemma EndedLeaves(s0: System, s: System, id: nat)
    requires Reaches(s0, s) && id in s.calls && s.calls[id].main.UnderLock()
    requires s.calls[id].main.AcquiringBudget? || s.calls[id].worker.Ended?
    ensures exists s': System :: Reaches(s0, s') && s.calls[id].signer !in s'.lock
  {
    var c := s.calls[id];
    if c.main.AcquiringBudget? {
      Runs.ReachesStep(Apply, s0, s, Act(id, BudgetRefused));
    } else if c.main.Awaiting? || c.main.AwaitingAfterCancel? {
      Runs.ReachesStep(Apply, s0, s, Act(id, ResultSeen(true)));
      var s1 := Apply(s, Act(id, ResultSeen(true)));
      Runs.ReachesStep(Apply, s0, s1, Act(id, Marked));
      assert c.signer !in Apply(s1, Act(id, Marked)).lock;
    } else {
      Runs.ReachesStep(Apply, s0, s, Act(id, Marked));
      assert c.signer !in Apply(s, Act(id, Marked)).lock;
    }
  }

  /** From every reachable state some continuation releases a held lock: no signer is locked for good. */
  lemma LockIsReleased(steps: seq<Step>, signer: nat)
    requires signer in Run(START, steps).lock
    ensures exists s': System :: Reaches(Run(START, steps), s') && signer !in s'.lock
  {
    var s := Run(START, steps);
    RunInv(START, steps);
    var id := s.lock[signer];
    Runs.ReachesItself(Apply, s);
    if s.calls[id].worker.Running() {
      WorkerFinishes(s, id);
      var c: Call :| c.worker.Ended? && c.main == s.calls[id].main && c.signer == s.calls[id].signer && Reaches(s, Set(s, id, c));
      EndedLeaves(s, Set(s, id, c), id);
    } else {
      EndedLeaves(s, s, id);
    }
  }

  /** From any reachable state with the lock free, a new call gets into its critical section. */
  lemma SoloLocks(s0: System, s: System, id: nat, signer: nat)
    requires Reaches(s0, s) && id !in s.calls && signer !in s.lock
    ensures Reaches(s0, System(s.calls[id := Call(signer, Awaiting, Preparing, 0, 0, false, false)], s.lock[signer := id]))
  {
    var s1 := Apply(s, Spawn(id, signer));
    Runs.ReachesStep(Apply, s0, s, Spawn(id, signer));
    var s2 := Apply(s1, Act(id, PreWaitOver));
    Runs.ReachesStep(Apply, s0, s1, Act(id, PreWaitOver));
    var s3 := Apply(s2, Act(id, LockGranted));
    Runs.ReachesStep(Apply, s0, s2, Act(id, LockGranted));
    var s4 := Apply(s3, Act(id, BudgetGranted));
    Runs.ReachesStep(Apply, s0, s3, Act(id, BudgetGranted));
    assert s4.calls == s.calls[id := Call(signer, Awaiting, Preparing, 0, 0, false, false)];
  }

  /** ... and from there into the SDK. */
  lemma SoloReaches(s0: System, s: System, id: nat, signer: nat)
    requires Reaches(s0, s) && id !in s.calls && signer !in s.lock
    ensures Reaches(s0, System(s.calls[id := Call(signer, Awaiting, InSdk, 0, 1, true, true)], s.lock[signer := id]))
  {
    SoloLocks(s0, s, id, signer);
    var s4 := System(s.calls[id := Call(signer, Awaiting, Preparing, 0, 0, false, false)], s.lock[signer := id]);
    var s5 := Apply(s4, Act(id, CallbackDone(true)));
    Runs.ReachesStep(Apply, s0, s4, Act(id, CallbackDone(true)));
    var s6 := Apply(s5, Act(id, FenceChecked(true)));
    Runs.ReachesStep(Apply, s0, s5, Act(id, FenceChecked(true)));
    var s7 := Apply(s6, Act(id, SdkBegins));
    Runs.ReachesStep(Apply, s0, s6, Act(id, SdkBegins));
    assert s7.calls == s.calls[id := Call(signer, Awaiting, InSdk, 0, 1, true, true)];
  }

  /** A second cancellation of one call breaks serialization: the lock is released while its SDK call still runs. */
  lemma TwoCancellationsOverlap()
    ensures exists s: System, a: nat, b: nat ::
              && Reaches(START, s) && a in s.calls && b in s.calls && a != b && s.calls[a].signer == s.calls[b].signer
              && s.calls[a].worker.InSdk? && s.calls[b].worker.InSdk?
  {
    Runs.ReachesItself(Apply, START);
    SoloReaches(START, START, 1, 7);
    var s1 := System(map[1 := Call(7, Awaiting, InSdk, 0, 1, true, true)], map[7 := 1]);
    assert s1.calls == START.calls[1 := Call(7, Awaiting, InSdk, 0, 1, true, true)] && s1.lock == START.lock[7 := 1];
    var s2 := Apply(s1, Act(1, Cancel));
    Runs.ReachesStep(Apply, START, s1, Act(1, Cancel));
    var s3 := Apply(s2, Act(1, Cancel));
    Runs.ReachesStep(Apply, START, s2, Act(1, Cancel));
    SoloReaches(START, s3, 2, 7);
    var s4 := System(s3.calls[2 := Call(7, Awaiting, InSdk, 0, 1, true, true)], s3.lock[7 := 2]);
    assert Reaches(START, s4) && 1 in s4.calls && 2 in s4.calls;
    assert s4.calls[1].worker.InSdk? && s4.calls[1].signer == 7;
  }
}
