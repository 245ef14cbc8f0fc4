/**
  What the lifecycle's operations achieve, over every run of Lifecycle: `shutdown` and
  eviction stop what was active, `switch` leaves what it names, the lock is never held for
  good, and a provider can be brought back from wherever a run has got to.
*/
module LifecycleProgress {
  import opened Options
  import opened VoiceIndexing
  import opened Wire
  import opened Lifecycle

  // ---- shutdown and eviction ------------------------------------------------------

  // Under the lock, this task stops whatever is active. `ok`: an eviction's time has run out.
  predicate Stops(op: Op, ok: bool) {
    op.Close? || (op.Evict? && ok)
  }

  predicate Over(pc: Pc) {
    pc.Finished? || pc.Raised? || pc.Cancelled?
  }

  lemma StopStarts(s: State, t: nat, op: Op, ok: bool)
    requires Core(s) && Enabled(s, Lock(t, ok)) && s.tasks[t] == Queued(op) && Stops(op, ok)
    ensures var q := Apply(s, Lock(t, ok));
      && t in q.tasks
      && (match s.active
          case None => q.tasks[t] == Finished && q.active.None?
          case Some(c) =>
            && c < |q.children| && q.tasks[t] == Reaping(op, c, None) && q.children[c].teardown == ByShutdown)
  {
    hide Keeps, Frame, SameCuts, Named;
  }

  // ---- a step moves one task ---------------------------------------------------------

  predicate SameTask(s: State, q: State, x: nat) {
    x in s.tasks ==> x in q.tasks && q.tasks[x] == s.tasks[x]
  }

  lemma ReturnMoves(s: State, t: nat, op: Op, c: nat, x: nat)
    requires c < |s.children| && x != t
    ensures SameTask(s, Return(s, t, op, c), x)
  {
    hide Keeps, Named, LocalIdIn, DispatchOf, TargetName;
  }

  lemma EnsureMoves(s: State, t: nat, op: Op, ok: bool, x: nat)
    requires Ensures(op) && ActiveExists(s) && x != t
    ensures SameTask(s, EnsureSegment(s, t, op, ok), x)
  {
    hide Keeps, Named, Return;
    if ActiveIs(s, op.target) { ReturnMoves(s, t, op, s.active.value, x); }
  }

  lemma LockMoves(s: State, t: nat, op: Op, ok: bool, x: nat)
    requires ActiveExists(s) && x != t
    ensures SameTask(s, DoLock(s, t, op, ok), x)
  {
    hide Keeps, Named, EnsureSegment;
    if Ensures(op) { EnsureMoves(s.(lock := Some(t)), t, op, ok, x); }
  }

  lemma ReapedMoves(s: State, t: nat, op: Op, c: nat, next: Option<Name>, ok: bool, x: nat)
    requires c < |s.children| && x != t
    ensures SameTask(s, DoReaped(s, t, op, c, next, ok), x)
  {
    hide Keeps, Named;
  }

  lemma WarmedMoves(s: State, t: nat, op: Op, c: nat, voices: set<Id>, x: nat)
    requires c < |s.children| && x != t
    ensures SameTask(s, DoWarmed(s, t, op, c, voices), x)
  {
    hide Keeps, Named, Return;
    ReturnMoves(SetChild(s, c, s.children[c].(state := READY, voices := voices)), t, op, c, x);
  }

  lemma KilledMoves(s: State, t: nat, op: Op, c: nat, cancelled: bool, x: nat)
    requires c < |s.children| && x != t
    ensures SameTask(s, DoKilled(s, t, op, c, cancelled), x)
  {
    hide Keeps, Named;
  }

  lemma EnumGoMoves(s: State, t: nat, rest: seq<Name>, installed: bool, x: nat)
    requires ActiveExists(s) && x != t
    ensures SameTask(s, DoEnumGo(s, t, rest, installed), x)
  {
    hide Keeps, Named;
  }

  lemma ReadsMoves(s: State, c: nat, x: nat)
    requires c < |s.children| && (s.lock == Some(x) && x in s.tasks ==> !s.tasks[x].Reaping?)
    ensures SameTask(s, DoTeardownReads(s, c), x)
  {
    hide Keeps, Frame, Named, Awaited;
  }

  lemma CancelMoves(s: State, t: nat, x: nat)
    requires Enabled(s, Cancel(t)) && x != t
    ensures SameTask(s, DoCancel(s, t), x)
  {
    hide Keeps, Frame, Named;
  }

  // The step is one of task x's own, or cuts the teardown that x waits for.
  predicate Concerns(s: State, step: Step, x: nat) {
    match step
    case TornDown(_) => false
    case Die(_) => false
    case MarkFailed(_) => false
    case TeardownReads(_) => s.lock == Some(x) && x in s.tasks && s.tasks[x].Reaping?
    case _ => step.t == x
  }

  lemma OthersStep(s: State, step: Step, x: nat)
    requires Core(s) && Enabled(s, step) && !Concerns(s, step, x)
    ensures SameTask(s, Apply(s, step), x)
  {
    hide Core, Keeps, Frame, SameCuts, Named, DoLock, DoReaped, DoWarmed, DoKilled, DoEnumGo, DoCancel, DoTeardownReads,
      SpawnRaises;
    LockIsShared(s);
    match step
    case Lock(u, ok) => LockMoves(s, u, s.tasks[u].op, ok, x);
    case Reaped(u, ok) => ReapedMoves(s, u, s.tasks[u].op, s.tasks[u].child, s.tasks[u].next, ok, x);
    case CreateFails(u) => RaisesMoves(s, u, s.tasks[u].op, x);
    case ConnectFails(u) => RaisesMoves(Drop(s, s.tasks[u].child), u, s.tasks[u].op, x);
    case Warmed(u, voices) => WarmedMoves(s, u, s.tasks[u].op, s.tasks[u].child, voices, x);
    case Killed(u) => KilledMoves(s, u, s.tasks[u].op, s.tasks[u].child, s.tasks[u].cancelled, x);
    case EnumGo(u, installed) => EnumGoMoves(s, u, s.tasks[u].rest, installed, x);
    case Cancel(u) => CancelMoves(s, u, x);
    case TeardownReads(c) => ReadsMoves(s, c, x);
    case _ =>
  }

  // A task that is over stays so.
  lemma OverStep(s: State, step: Step, t: nat)
    requires Core(s) && Enabled(s, step) && t in s.tasks && Over(s.tasks[t])
    ensures t in Apply(s, step).tasks && Apply(s, step).tasks[t] == s.tasks[t]
  {
    assert !Concerns(s, step, t);
    hide Core, Enabled, Apply, Concerns;
    OthersStep(s, step, t);
  }

  lemma RaisesMoves(s: State, t: nat, op: Op, x: nat)
    requires x != t
    ensures SameTask(s, SpawnRaises(s, t, op), x)
  {
    hide Keeps, Named;
  }

  lemma LockIsShared(s: State)
    requires Core(s)
    ensures ActiveExists(s)
  {
  }

  // ---- what stopping achieves --------------------------------------------------------

  lemma CutOfStop(s: State, r: nat, t: nat, op: Op, c: nat)
    requires Core(s) && r < |s.children|
    requires t in s.tasks && s.tasks[t] == Reaping(op, c, None) && (op.Close? || op.Evict?)
    ensures var q := DoCut(s, r);
      && t in q.tasks && |q.children| == |s.children|
      && (q.tasks[t] == s.tasks[t] || (q.tasks[t] == Raised && q.active.None?))
  {
    hide Keeps, Frame, SameCuts, Named;
  }

  // While it waits for the teardown nothing else moves the task; it finishes only when the
  // child is dead.
  lemma StopStep(s: State, step: Step, t: nat, op: Op, c: nat)
    requires Core(s) && Enabled(s, step)
    requires t in s.tasks && s.tasks[t] == Reaping(op, c, None) && (op.Close? || op.Evict?)
    ensures var q := Apply(s, step);
      && t in q.tasks && c < |s.children|
      && (q.tasks[t] == s.tasks[t] || Over(q.tasks[t]))
      && (Over(q.tasks[t]) ==> q.active.None?)
      && (q.tasks[t].Finished? ==> c < |q.children| && !q.children[c].alive)
  {
    if !Concerns(s, step, t) {
      assert c < |s.children|;
      hide Core, Enabled, Apply, Concerns;
      OthersStep(s, step, t);
    } else if step.TeardownReads? {
      hide Keeps, Frame, SameCuts, Named, DoCut;
      CutOfStop(s, step.c, t, op, c);
    } else {
      hide Keeps, Frame, SameCuts, Named, StartSpawn;
    }
  }

  /** Over every run: a task that has taken the lock to shut down, or to evict a provider whose
      time has run out, is done at once if nothing was active. Otherwise the child that was
      active is torn down from then on: under a teardown, dead, or cut by a caller's pending
      read; the task waits for it, and is over only with nothing active. */
  lemma {:induction false} StopTearsDown(run: seq<State>, steps: seq<Step>, k: nat, i: nat, t: nat, op: Op, ok: bool)
    requires IsRun(run, steps) && k < i < |run| && k < |steps| && steps[k] == Lock(t, ok) && Stops(op, ok)
    requires t in run[k].tasks && run[k].tasks[t] == Queued(op)
    ensures t in run[i].tasks
    ensures match run[k].active
            case None => run[i].tasks[t] == Finished
            case Some(c) =>
              && c < |run[i].children| && Doomed(run[i].children[c])
              && (run[i].tasks[t] == Reaping(op, c, None) || Over(run[i].tasks[t]))
    decreases i
  {
    hide IsRun, Apply, Enabled, Core, Routes, EnumInv, Doomed;
    RunLength(run, steps);
    RunStep(run, steps, i - 1);
    InvAlways(run, steps, i - 1);
    if i == k + 1 {
      StopStarts(run[k], t, op, ok);
      if run[k].active.Some? { Teardowns(run[i].children[run[k].active.value]); }
    } else {
      StopTearsDown(run, steps, k, i - 1, t, op, ok);
      if Over(run[i - 1].tasks[t]) {
        OverStep(run[i - 1], steps[i - 1], t);
      } else {
        StopStep(run[i - 1], steps[i - 1], t, op, run[k].active.value);
      }
      if run[k].active.Some? { DoomedStays(run, steps, i - 1, i, run[k].active.value); }
    }
  }

  lemma Teardowns(child: Child)
    requires child.teardown == ByShutdown
    ensures Doomed(child)
  {
  }

  /** The step in which such a task finishes leaves nothing active and the child dead. An
      eviction that finishes without stopping anything found it was not time, or nothing
      active, and changes nothing. */
  lemma StopFinishes(run: seq<State>, steps: seq<Step>, i: nat, t: nat)
    requires IsRun(run, steps) && i < |steps| && i + 1 < |run|
    requires t in run[i].tasks && HasOp(run[i].tasks[t]) && (run[i].tasks[t].op.Close? || run[i].tasks[t].op.Evict?)
    requires t in run[i + 1].tasks && run[i + 1].tasks[t] == Finished
    ensures run[i].tasks[t].op.Close? ==> run[i + 1].active.None?
    ensures match run[i].tasks[t]
            case Reaping(_, c, _) =>
              && run[i + 1].active.None? && c < |run[i + 1].children|
              && !run[i + 1].children[c].alive
            case _ =>
              && run[i].tasks[t].Queued? && run[i + 1].active == run[i].active
              && run[i + 1].children == run[i].children
              && (run[i].active.Some? ==> run[i].tasks[t].op.Evict? && steps[i] == Lock(t, false))
  {
    InvAlways(run, steps, i);
    RunStep(run, steps, i);
    hide IsRun, Routes, EnumInv;
    FinishStep(run[i], steps[i], t);
  }

  lemma FinishStep(s: State, step: Step, t: nat)
    requires Core(s) && Enabled(s, step) && t in s.tasks && HasOp(s.tasks[t])
    requires s.tasks[t].op.Close? || s.tasks[t].op.Evict?
    requires t in Apply(s, step).tasks && Apply(s, step).tasks[t] == Finished
    ensures match s.tasks[t]
            case Reaping(_, c, _) =>
              Apply(s, step).active.None? && c < |Apply(s, step).children| && !Apply(s, step).children[c].alive
            case _ =>
              && s.tasks[t].Queued? && Apply(s, step).active == s.active && Apply(s, step).children == s.children
              && (s.active.Some? ==> s.tasks[t].op.Evict? && step == Lock(t, false))
  {
    if s.tasks[t].Reaping? {
      StopWaits(s, t);
      StopStep(s, step, t, s.tasks[t].op, s.tasks[t].child);
    } else {
      if !Concerns(s, step, t) { OthersStep(s, step, t); }
      OnlyQueued(s, t);
      hide Keeps, Frame, SameCuts, Named, Core, EnsureSegment, DoWarmupFails, DoTeardownReads;
    }
  }

  lemma StopWaits(s: State, t: nat)
    requires Core(s) && t in s.tasks && s.tasks[t].Reaping? && (s.tasks[t].op.Close? || s.tasks[t].op.Evict?)
    ensures s.tasks[t].next.None?
  {
  }

  // Neither operation starts anything.
  lemma OnlyQueued(s: State, t: nat)
    requires Core(s) && t in s.tasks && HasOp(s.tasks[t]) && !s.tasks[t].Reaping?
    requires s.tasks[t].op.Close? || s.tasks[t].op.Evict?
    ensures s.tasks[t].Queued? && ActiveExists(s)
  {
  }

  // ---- what switching achieves -------------------------------------------------------

  lemma ReturnFinishes(s: State, t: nat, op: Op, c: nat)
    requires c < |s.children|
    ensures var q := Return(s, t, op, c);
      q.active == s.active && q.children == s.children && q.fallback == s.fallback
  {
    hide Keeps, Named, LocalIdIn, DispatchOf, TargetName;
  }

  lemma SwitchLocks(s: State, t: nat, ok: bool)
    requires Core(s) && Enabled(s, Lock(t, ok)) && s.tasks[t].op.Switch?
    requires DoLock(s, t, s.tasks[t].op, ok).tasks[t] == Finished
    ensures var q := DoLock(s, t, s.tasks[t].op, ok); ActiveIs(q, s.tasks[t].op.target) && q.fallback == s.fallback
  {
    var op, s' := s.tasks[t].op, s.(lock := Some(t));
    if ActiveIs(s', op.target) { ReturnFinishes(s', t, op, s.active.value); }
    hide Keeps, Frame, SameCuts, Named, Core, Return;
  }

  lemma SwitchWarms(s: State, t: nat, voices: set<Id>)
    requires Core(s) && Enabled(s, Warmed(t, voices)) && s.tasks[t].op.Switch?
    ensures var q := DoWarmed(s, t, s.tasks[t].op, s.tasks[t].child, voices);
      ActiveIs(q, s.tasks[t].op.target) && q.fallback == s.tasks[t].op.target
  {
    var c := s.tasks[t].child;
    ReturnFinishes(SetChild(s, c, s.children[c].(state := READY, voices := voices)), t, s.tasks[t].op, c);
    hide Keeps, Frame, SameCuts, Named, Return;
  }

  // No other step finishes it.
  lemma SwitchGoesOn(s: State, step: Step, t: nat)
    requires Core(s) && Enabled(s, step) && t in s.tasks && HasOp(s.tasks[t]) && s.tasks[t].op.Switch?
    requires !step.Lock? && !step.Warmed? && t in Apply(s, step).tasks
    ensures Apply(s, step).tasks[t] != Finished
  {
    if !Concerns(s, step, t) {
      OthersStep(s, step, t);
    } else if step.TeardownReads? {
      SwitchCut(s, step.c, t);
    } else if step.Reaped? {
      SwitchReaps(s, t, step.ok);
    } else {
      hide Core, Keeps, Frame, SameCuts, Named, DoLock, DoWarmed, DoEnumGo, DoTeardownReads, DoBegin, DoPublish,
        DoTornDown, DoReaped;
    }
  }

  lemma SwitchReaps(s: State, t: nat, ok: bool)
    requires Core(s) && Enabled(s, Reaped(t, ok)) && s.tasks[t].op.Switch?
    ensures Apply(s, Reaped(t, ok)).tasks[t] != Finished
  {
    assert s.tasks[t].next.Some?;
    hide Core, Keeps, Frame, SameCuts, Named;
  }

  lemma SwitchCut(s: State, c: nat, t: nat)
    requires c < |s.children| && s.lock == Some(t) && t in s.tasks && s.tasks[t].Reaping? && s.tasks[t].op.Switch?
    ensures var q := DoTeardownReads(s, c); t in q.tasks && q.tasks[t] != Finished
  {
    hide Keeps, Frame, SameCuts, Named, Awaited;
  }

  lemma SwitchStep(s: State, step: Step, t: nat)
    requires Core(s) && Enabled(s, step) && t in s.tasks && HasOp(s.tasks[t]) && s.tasks[t].op.Switch?
    requires t in Apply(s, step).tasks && Apply(s, step).tasks[t] == Finished
    ensures ActiveIs(Apply(s, step), s.tasks[t].op.target)
    ensures Apply(s, step).fallback == if s.tasks[t].Warming? then s.tasks[t].op.target else s.fallback
  {
    if !Concerns(s, step, t) { OthersStep(s, step, t); }
    hide Core, DoLock, DoWarmed, ActiveIs;
    match step
    case Lock(_, ok) => SwitchLocks(s, t, ok);
    case Warmed(_, voices) => SwitchWarms(s, t, voices);
    case _ => SwitchGoesOn(s, step, t);
  }

  /** A switch that finishes leaves a READY process of the provider it names active; the default
      moves to it exactly when a process was started for it. */
  lemma SwitchFinishes(run: seq<State>, steps: seq<Step>, i: nat, t: nat)
    requires IsRun(run, steps) && i < |steps| && i + 1 < |run|
    requires t in run[i].tasks && HasOp(run[i].tasks[t]) && run[i].tasks[t].op.Switch?
    requires t in run[i + 1].tasks && run[i + 1].tasks[t] == Finished
    ensures ActiveIs(run[i + 1], run[i].tasks[t].op.target)
    ensures run[i + 1].fallback ==
              if run[i].tasks[t].Warming? then run[i].tasks[t].op.target else run[i].fallback
  {
    InvAlways(run, steps, i);
    RunStep(run, steps, i);
    hide IsRun, Routes, EnumInv, Core, Apply, Enabled;
    SwitchStep(run[i], steps[i], t);
  }

  // ---- the lock is never held for good ---------------------------------------------------

  lemma Onwards(run: seq<State>, steps: seq<Step>, run1: seq<State>, steps1: seq<Step>,
                run2: seq<State>, steps2: seq<Step>)
    requires GoesOn(run, steps, run1, steps1) && GoesOn(run1, steps1, run2, steps2)
    ensures GoesOn(run, steps, run2, steps2)
  {
    hide IsRun;
    forall i | |steps| <= i < |steps2| ensures !steps2[i].Cancel? {
      if i < |steps1| { assert steps2[i] == steps1[i]; }
    }
  }

  lemma OneStep(run: seq<State>, steps: seq<Step>, step: Step) returns (run': seq<State>, steps': seq<Step>)
    requires |run| == |steps| + 1 && IsRun(run, steps) && ActiveExists(run[|steps|]) && Enabled(run[|steps|], step)
    requires !step.Cancel?
    ensures GoesOn(run, steps, run', steps') && run'[|steps'|] == Apply(run[|steps|], step)
  {
    hide Apply, Enabled, IsRun;
    run', steps' := ExtendRun(run, steps, step);
  }

  // The holder is past its child: the lock is free or an enumeration goes on.
  predicate Past(s: State) {
    s.lock.Some? ==> s.lock.value in s.tasks && s.tasks[s.lock.value].EnumAt?
  }

  lemma RaisesPast(s: State, t: nat, op: Op)
    requires s.lock == Some(t)
    ensures Past(SpawnRaises(s, t, op)) && SpawnRaises(s, t, op).active == s.active
  {
    hide Keeps, Named;
  }

  predicate AtKill(s: State) {
    s.lock.Some? && s.lock.value in s.tasks && s.tasks[s.lock.value].Killing?
  }

  lemma ReapedPast(s: State, t: nat, op: Op, c: nat, next: Option<Name>)
    requires c < |s.children| && s.lock == Some(t)
    ensures Past(DoReaped(s, t, op, c, next, false))
  {
    hide Keeps, Named, SpawnRaises;
    var dead := s.children[c].(state := STOPPED, alive := false, teardown := NoTeardown);
    RaisesPast(SetChild(s, c, dead).(active := None), t, op);
  }

  lemma KilledPast(s: State, t: nat, op: Op, c: nat, cancelled: bool)
    requires c < |s.children| && s.lock == Some(t)
    ensures Past(DoKilled(s, t, op, c, cancelled))
  {
    hide Keeps, Named, SpawnRaises;
    RaisesPast(SetChild(s, c, s.children[c].(alive := false, teardown := NoTeardown)).(active := None), t, op);
  }

  lemma HolderIs(s: State)
    requires Core(s) && !Past(s)
    ensures s.lock.Some? && s.lock.value in s.tasks
    ensures var pc := s.tasks[s.lock.value];
      pc.Creating? || (HasChild(pc) && pc.child < |s.children|)
  {
  }

  lemma ReapingPast(s: State, t: nat)
    requires t in s.tasks && s.lock == Some(t) && s.tasks[t].Reaping?
    requires s.tasks[t].child < |s.children| && ActiveExists(s)
    ensures Enabled(s, Reaped(t, false)) && Past(Apply(s, Reaped(t, false)))
  {
    hide Keeps, Named, DoReaped, Past;
    ReapedPast(s, t, s.tasks[t].op, s.tasks[t].child, s.tasks[t].next);
  }

  lemma CreatingPast(s: State, t: nat)
    requires t in s.tasks && s.lock == Some(t) && s.tasks[t].Creating? && ActiveExists(s)
    ensures Enabled(s, CreateFails(t)) && Past(Apply(s, CreateFails(t)))
  {
    hide Keeps, Named, SpawnRaises, Past;
    RaisesPast(s, t, s.tasks[t].op);
  }

  lemma ConnectingPast(s: State, t: nat)
    requires t in s.tasks && s.lock == Some(t) && s.tasks[t].Connecting? && s.tasks[t].child < |s.children|
    requires ActiveExists(s)
    ensures Enabled(s, ConnectFails(t)) && Past(Apply(s, ConnectFails(t)))
  {
    hide Keeps, Frame, SameCuts, Named, SpawnRaises, Past, Drop;
    DropKeepsLock(s, s.tasks[t].child);
    RaisesPast(Drop(s, s.tasks[t].child), t, s.tasks[t].op);
  }

  lemma KillingPast(s: State, t: nat)
    requires t in s.tasks && s.lock == Some(t) && s.tasks[t].Killing?
    requires s.tasks[t].child < |s.children| && ActiveExists(s)
    ensures Enabled(s, Killed(t)) && Past(Apply(s, Killed(t)))
  {
    hide Keeps, Named, DoKilled, Past;
    KilledPast(s, t, s.tasks[t].op, s.tasks[t].child, s.tasks[t].cancelled);
  }

  lemma WarmingToKill(s: State, t: nat)
    requires t in s.tasks && s.lock == Some(t) && s.tasks[t].Warming?
    requires s.tasks[t].child < |s.children| && ActiveExists(s)
    ensures Enabled(s, WarmupFails(t)) && AtKill(Apply(s, WarmupFails(t)))
  {
    hide Keeps, Named;
  }

  // One step takes the holder past its child, or to the kill that follows a failed warmup.
  lemma HolderStep(s: State) returns (step: Step)
    requires Core(s) && !Past(s)
    ensures Enabled(s, step) && !step.Cancel? && ActiveExists(s)
    ensures Past(Apply(s, step)) || (s.tasks[s.lock.value].Warming? && AtKill(Apply(s, step)))
  {
    HolderIs(s);
    LockIsShared(s);
    hide Core, Enabled, Apply, AtKill, Past;
    var t := s.lock.value;
    match s.tasks[t]
    case Reaping(_, _, _) => ReapingPast(s, t); step := Reaped(t, false);
    case Creating(_, _) => CreatingPast(s, t); step := CreateFails(t);
    case Connecting(_, _) => ConnectingPast(s, t); step := ConnectFails(t);
    case Warming(_, _) => WarmingToKill(s, t); step := WarmupFails(t);
    case Killing(_, _, _) => KillingPast(s, t); step := Killed(t);
  }

  lemma DropKeepsLock(s: State, c: nat)
    requires c < |s.children|
    ensures Drop(s, c).lock == s.lock
  {
  }

  /** No deadlock: from every state of every run, without any cancellation, whoever holds the
      lifecycle lock can come to release it. */
  lemma LockCanBeFreed(run: seq<State>, steps: seq<Step>) returns (run': seq<State>, steps': seq<Step>)
    requires |run| == |steps| + 1 && IsRun(run, steps)
    ensures GoesOn(run, steps, run', steps') && run'[|steps'|].lock.None?
  {
    hide IsRun, Core, Routes, EnumInv, Apply, Enabled;
    InvAlways(run, steps, |steps|);
    run', steps' := run, steps;
    if !Past(run'[|steps'|]) {
      var step := HolderStep(run'[|steps'|]);
      LockIsShared(run'[|steps'|]);
      run', steps' := OneStep(run', steps', step);
    }
    if !Past(run'[|steps'|]) {
      InvAlways(run', steps', |steps'|);
      var step := HolderStep(run'[|steps'|]);
      LockIsShared(run'[|steps'|]);
      var run2, steps2 := OneStep(run', steps', step);
      Onwards(run, steps, run', steps', run2, steps2);
      run', steps' := run2, steps2;
    }
    if run'[|steps'|].lock.Some? {
      InvAlways(run', steps', |steps'|);
      LockIsShared(run'[|steps'|]);
      var run2, steps2 := EnumerationEnds(run', steps', run'[|steps'|].lock.value);
      Onwards(run, steps, run', steps', run2, steps2);
      run', steps' := run2, steps2;
    }
  }

  // ---- a provider can always be brought back ------------------------------------------

  // A switch that holds the lock with nothing active starts the provider.
  lemma StartFromScratch(run: seq<State>, steps: seq<Step>, u: nat, name: Name)
    returns (run': seq<State>, steps': seq<Step>)
    requires |run| == |steps| + 1 && IsRun(run, steps) && run[|steps|].lock == Some(u)
    requires u in run[|steps|].tasks && run[|steps|].tasks[u] == Creating(Switch(name), name)
    requires run[|steps|].active.None?
    ensures GoesOn(run, steps, run', steps')
    ensures ActiveIs(run'[|steps'|], name) && run'[|steps'|].lock.None? && run'[|steps'|].fallback == name
  {
    hide IsRun, Frame, SameCuts, Named, Return;
    var s := run[|steps|];
    run', steps' := OneStep(run, steps, Created(u));
    assert run'[|steps'|].children[|s.children|].name == name;
    var run2, steps2 := OneStep(run', steps', Connected(u));
    Onwards(run, steps, run', steps', run2, steps2);
    assert run2[|steps2|].tasks[u] == Warming(Switch(name), |s.children|);
    assert run2[|steps2|].children[|s.children|].name == name;
    run', steps' := OneStep(run2, steps2, Warmed(u, {}));
    Onwards(run, steps, run2, steps2, run', steps');
    var q := run2[|steps2|];
    var c := |s.children|;
    var r := SetChild(q, c, q.children[c].(state := READY, voices := {}));
    ReturnFinishes(r, u, Switch(name), c);
    ReturnReleases(r, u, Switch(name), c);
  }

  lemma ReturnReleases(s: State, t: nat, op: Op, c: nat)
    requires c < |s.children| && s.lock == Some(t)
    ensures Return(s, t, op, c).lock.None?
  {
    hide Keeps, Named, LocalIdIn, DispatchOf, TargetName;
  }

  // With the lock free, a new switch takes it.
  lemma SwitchTakesLock(run: seq<State>, steps: seq<Step>, u: nat, name: Name)
    returns (run': seq<State>, steps': seq<Step>)
    requires |run| == |steps| + 1 && IsRun(run, steps) && run[|steps|].lock.None? && ActiveExists(run[|steps|])
    requires u !in run[|steps|].tasks && name in run[|steps|].registry
    ensures GoesOn(run, steps, run', steps')
    ensures var s := run[|steps|];
      var taken := s.(lock := Some(u), tasks := s.tasks[u := Queued(Switch(name))]);
      run'[|steps'|] == EnsureSegment(taken, u, Switch(name), true)
  {
    hide IsRun, Keeps, Named, EnsureSegment;
    run', steps' := OneStep(run, steps, Begin(u, Switch(name)));
    var s := run[|steps|];
    assert run'[|steps'|] == s.(tasks := s.tasks[u := Queued(Switch(name))]);
    var run2, steps2 := OneStep(run', steps', Lock(u, true));
    Onwards(run, steps, run', steps', run2, steps2);
    run', steps' := run2, steps2;
  }

  /** Wherever the lock is free, `ensure_ready` without a name can be called and take it. It then
      means the provider of the active process, whatever state that is in, and the default only
      when nothing is active: a READY process is returned as it is, one that is not is stopped
      for a new one of the same provider. */
  lemma StartAsks(run: seq<State>, steps: seq<Step>, t: nat, installed: bool)
    returns (run': seq<State>, steps': seq<Step>, name: Name)
    requires |run| == |steps| + 1 && IsRun(run, steps) && run[|steps|].lock.None? && t !in run[|steps|].tasks
    ensures GoesOn(run, steps, run', steps') && steps' == steps + [Begin(t, Start(name)), Lock(t, installed)]
    ensures var s, q := run[|steps|], run'[|steps'|];
      && t in q.tasks
      && match s.active
         case None =>
           && name == s.fallback && q.active.None? && q.children == s.children
           && q.tasks[t] == if installed && name in s.registry then Creating(Start(name), name) else Raised
         case Some(c) =>
           && c < |s.children| == |q.children| && name == s.children[c].name && q.active == s.active
           && if s.children[c].state == READY then q.tasks[t] == Finished && q.lock.None? && q.children == s.children
              else q.tasks[t] == Reaping(Start(name), c, Some(name)) && q.children[c].teardown.ByShutdown?
  {
    hide IsRun, Core, Routes, EnumInv, Keeps, Named, LocalIdIn, DispatchOf, FromIndex, Doomed;
    InvAlways(run, steps, |steps|);
    var s := run[|steps|];
    CoreHasActive(s);
    name := if s.active.Some? then s.children[s.active.value].name else s.fallback;
    run', steps' := ExtendRun(run, steps, Begin(t, Start(name)));
    var mid := run'[|steps'|];
    assert mid == s.(tasks := s.tasks[t := Queued(Start(name))]);
    run', steps' := ExtendRun(run', steps', Lock(t, installed));
  }

  lemma CoreHasActive(s: State)
    requires Core(s)
    ensures ActiveExists(s)
  {
  }

  /** From every state of every run, whatever has failed, died, been cut or cancelled in it, and
      with no further cancellation, a switch to any enabled provider can come to leave a READY
      process of it active, with the lock free. */
  lemma CanAlwaysSwitch(run: seq<State>, steps: seq<Step>, name: Name)
    returns (run': seq<State>, steps': seq<Step>)
    requires |run| == |steps| + 1 && IsRun(run, steps) && name in run[|steps|].registry
    ensures GoesOn(run, steps, run', steps')
    ensures ActiveIs(run'[|steps'|], name) && run'[|steps'|].lock.None?
  {
    hide IsRun, Core, Routes, EnumInv, Apply, Enabled, EnsureSegment;
    var run1, steps1 := LockCanBeFreed(run, steps);
    RegistryKept(run, steps, run1, steps1);
    InvAlways(run1, steps1, |steps1|);
    var s := run1[|steps1|];
    LockIsShared(s);
    var u := UnusedId(s.tasks.Keys);
    assert u !in s.tasks;
    var run2, steps2 := SwitchTakesLock(run1, steps1, u, name);
    Onwards(run, steps, run1, steps1, run2, steps2);
    var s' := s.(lock := Some(u), tasks := s.tasks[u := Queued(Switch(name))]);
    Segments(s', u, name);
    if ActiveIs(s', name) {
      run', steps' := run2, steps2;
    } else if s.active.Some? {
      var run3, steps3 := ReapedThenCreating(run2, steps2, u, name);
      Onwards(run, steps, run2, steps2, run3, steps3);
      run', steps' := StartFromScratch(run3, steps3, u, name);
      Onwards(run, steps, run3, steps3, run', steps');
    } else {
      run', steps' := StartFromScratch(run2, steps2, u, name);
      Onwards(run, steps, run2, steps2, run', steps');
    }
  }

  lemma Segments(s: State, u: nat, name: Name)
    requires ActiveExists(s) && s.lock == Some(u) && name in s.registry
    ensures var q := EnsureSegment(s, u, Switch(name), true);
      && q.registry == s.registry
      && (if ActiveIs(s, name) then ActiveIs(q, name) && q.lock.None?
          else if s.active.Some? then
            && q.lock == Some(u) && u in q.tasks && q.active == s.active && |q.children| == |s.children|
            && q.tasks[u] == Reaping(Switch(name), s.active.value, Some(name))
          else q.lock == Some(u) && u in q.tasks && q.tasks[u] == Creating(Switch(name), name) && q.active.None?)
  {
    hide Keeps, Named, Return;
    if ActiveIs(s, name) {
      ReturnFinishes(s, u, Switch(name), s.active.value);
      ReturnReleases(s, u, Switch(name), s.active.value);
      ReturnKeepsRegistry(s, u, Switch(name), s.active.value);
    }
  }

  lemma ReturnKeepsRegistry(s: State, t: nat, op: Op, c: nat)
    requires c < |s.children|
    ensures Return(s, t, op, c).registry == s.registry
  {
    hide Named, LocalIdIn, DispatchOf, TargetName, SameCuts;
  }

  lemma ReapedThenCreating(run: seq<State>, steps: seq<Step>, u: nat, name: Name)
    returns (run': seq<State>, steps': seq<Step>)
    requires |run| == |steps| + 1 && IsRun(run, steps) && ActiveExists(run[|steps|]) && name in run[|steps|].registry
    requires run[|steps|].lock == Some(u) && u in run[|steps|].tasks && run[|steps|].active.Some?
    requires run[|steps|].tasks[u] == Reaping(Switch(name), run[|steps|].active.value, Some(name))
    ensures GoesOn(run, steps, run', steps')
    ensures run'[|steps'|].lock == Some(u) && run'[|steps'|].active.None?
    ensures u in run'[|steps'|].tasks && run'[|steps'|].tasks[u] == Creating(Switch(name), name)
  {
    hide IsRun, Keeps, Named;
    run', steps' := OneStep(run, steps, Reaped(u, true));
  }

  lemma {:induction false} RegistryFrom(run: seq<State>, steps: seq<Step>, i: nat, j: nat)
    requires IsRun(run, steps) && i <= j < |run|
    ensures run[j].registry == run[i].registry
    decreases j
  {
    hide IsRun, Apply, Enabled;
    RunLength(run, steps);
    if i < j {
      RegistryFrom(run, steps, i, j - 1);
      RunStep(run, steps, j - 1);
      RegistryStep(run[j - 1], steps[j - 1]);
    }
  }

  lemma RegistryStep(s: State, step: Step)
    requires ActiveExists(s) && Enabled(s, step)
    ensures Apply(s, step).registry == s.registry
  {
    hide DoLock, DoReaped, SpawnRaises, DoCreated, DoConnected, DoWarmed, DoWarmupFails, DoKilled, DoEnumGo,
      DoCancel, DoTornDown, DoTeardownReads, DoRead, DoReceive, DoLeave, DoDie, DoMarkFailed, Drop, SameCuts, Named;
  }

  lemma RegistryKept(run: seq<State>, steps: seq<Step>, run': seq<State>, steps': seq<Step>)
    requires |run| == |steps| + 1 && GoesOn(run, steps, run', steps')
    ensures run'[|steps'|].registry == run[|steps|].registry
  {
    hide IsRun;
    RegistryFrom(run', steps', |steps|, |steps'|);
  }

  // ---- teardowns and cancellations come to an end ---------------------------------------

  /** Every teardown in progress can come to its end, with the child dead, without a
      cancellation. */
  lemma TeardownCanEnd(run: seq<State>, steps: seq<Step>, c: nat)
    returns (run': seq<State>, steps': seq<Step>)
    requires |run| == |steps| + 1 && IsRun(run, steps) && c < |run[|steps|].children|
    requires run[|steps|].children[c].teardown != NoTeardown
    ensures GoesOn(run, steps, run', steps')
    ensures c < |run'[|steps'|].children| && !run'[|steps'|].children[c].alive
  {
    hide IsRun, Core, Routes, EnumInv, Apply, Enabled;
    InvAlways(run, steps, |steps|);
    var s := run[|steps|];
    var step := EndOfTeardown(s, c);
    LockIsShared(s);
    run', steps' := OneStep(run, steps, step);
  }

  lemma EndOfTeardown(s: State, c: nat) returns (step: Step)
    requires Core(s) && c < |s.children| && s.children[c].teardown != NoTeardown
    ensures Enabled(s, step) && !step.Cancel?
    ensures c < |Apply(s, step).children| && !Apply(s, step).children[c].alive
  {
    hide Keeps, Named, SameCuts;
    if s.lock.Some? && Awaits(s.tasks[s.lock.value], c) {
      var t := s.lock.value;
      step := if s.tasks[t].Reaping? then Reaped(t, false) else Killed(t);
    } else {
      step := TornDown(c);
    }
  }

  /** A task can be cancelled at every await. It is then over and without the lock, at once or,
      when it was warming its child up, as soon as that child is killed: until then the child
      is FAILED and lives on, and behind it nothing is active. */
  lemma CancelLetsGo(run: seq<State>, steps: seq<Step>, t: nat)
    returns (run': seq<State>, steps': seq<Step>)
    requires |run| == |steps| + 1 && IsRun(run, steps) && t in run[|steps|].tasks && AtAwait(run[|steps|].tasks[t])
    ensures |run'| == |steps'| + 1 && IsRun(run', steps') && run <= run'
    ensures |steps| < |steps'| && steps'[|steps|] == Cancel(t)
    ensures t in run'[|steps'|].tasks && run'[|steps'|].tasks[t] == Cancelled && run'[|steps'|].lock != Some(t)
    ensures |steps'| == |steps| + (if run[|steps|].tasks[t].Warming? then 2 else 1)
    ensures run[|steps|].tasks[t].Warming? ==>
      var c := run[|steps|].tasks[t].child;
      && c < |run[|steps|].children|
      && run[|steps|].children[c].(state := FAILED, teardown := ByKill) in run'[|steps| + 1].children
      && c < |run'[|steps'|].children| && !run'[|steps'|].children[c].alive && run'[|steps'|].active.None?
  {
    hide IsRun, Core, Routes, EnumInv;
    InvAlways(run, steps, |steps|);
    var s := run[|steps|];
    CanCancel(s, t);
    run', steps' := ExtendRun(run, steps, Cancel(t));
    if s.tasks[t].Warming? {
      hide Apply, Enabled;
      InvAlways(run', steps', |steps'|);
      KillEnds(run'[|steps'|], t);
      run', steps' := ExtendRun(run', steps', Killed(t));
    }
  }

  lemma CanCancel(s: State, t: nat)
    requires Core(s) && t in s.tasks && AtAwait(s.tasks[t])
    ensures ActiveExists(s) && Enabled(s, Cancel(t))
    ensures var q := DoCancel(s, t);
      && t in q.tasks
      && (if s.tasks[t].Warming? then
            var c := s.tasks[t].child;
            && q.tasks[t] == Killing(s.tasks[t].op, c, true) && c < |s.children| == |q.children|
            && q.children[c] == s.children[c].(state := FAILED, teardown := ByKill)
          else q.tasks[t] == Cancelled && q.lock != Some(t))
  {
    hide Keeps, Frame, SameCuts, Named;
  }

  lemma KillEnds(s: State, t: nat)
    requires Core(s) && t in s.tasks && s.tasks[t].Killing? && s.tasks[t].cancelled
    ensures ActiveExists(s) && Enabled(s, Killed(t))
    ensures var q := Apply(s, Killed(t)); t in q.tasks && q.tasks[t] == Cancelled && q.lock != Some(t)
    ensures var q, c := Apply(s, Killed(t)), s.tasks[t].child;
      q.active.None? && c < |q.children| && !q.children[c].alive
  {
    hide Keeps, Frame, SameCuts, Named;
  }

  // ---- an enumeration asks every provider of its list ------------------------------------

  // The names an enumeration has still to come to.
  function RestOf(pc: Pc): Option<seq<Name>> {
    match pc
    case EnumAt(rest) => Some(rest)
    case Publishing => Some([])
    case Published => Some([])
    case Reaping(op, _, _) => RestIn(op)
    case Creating(op, _) => RestIn(op)
    case Connecting(op, _) => RestIn(op)
    case Warming(op, _) => RestIn(op)
    case Killing(op, _, _) => RestIn(op)
    case _ => None
  }

  function RestIn(op: Op): Option<seq<Name>> {
    if op.Enumerate? then Some(op.rest) else None
  }

  // Task t's next state: the same names left, or it is cancelled.
  predicate RestStays(q: State, t: nat, rest: seq<Name>) {
    t in q.tasks && (RestOf(q.tasks[t]) == Some(rest) || q.tasks[t] == Cancelled)
  }

  lemma RestReaped(s: State, t: nat, op: Op, c: nat, next: Option<Name>, ok: bool)
    requires c < |s.children| && op.Enumerate?
    ensures RestStays(DoReaped(s, t, op, c, next, ok), t, op.rest)
  {
    hide Keeps, Named;
  }

  lemma RestRaises(s: State, t: nat, op: Op)
    requires op.Enumerate?
    ensures RestStays(SpawnRaises(s, t, op), t, op.rest)
  {
    hide Keeps, Named;
  }

  lemma RestKilled(s: State, t: nat, op: Op, c: nat, cancelled: bool)
    requires c < |s.children| && op.Enumerate?
    ensures RestStays(DoKilled(s, t, op, c, cancelled), t, op.rest)
  {
    hide Keeps, Named;
  }

  lemma RestWarmed(s: State, t: nat, op: Op, c: nat, voices: set<Id>)
    requires c < |s.children| && op.Enumerate?
    ensures RestStays(DoWarmed(s, t, op, c, voices), t, op.rest)
  {
    hide Keeps, Named, Return;
  }

  lemma RestEnumGo(s: State, t: nat, rest: seq<Name>, installed: bool)
    requires ActiveExists(s)
    ensures RestStays(DoEnumGo(s, t, rest, installed), t, if rest == [] then [] else rest[1..])
  {
    hide Keeps, Named;
  }

  lemma RestCancel(s: State, t: nat)
    requires Enabled(s, Cancel(t)) && RestOf(s.tasks[t]).Some?
    ensures RestStays(DoCancel(s, t), t, RestOf(s.tasks[t]).value)
  {
    hide Keeps, Frame, Named;
  }

  lemma RestCut(s: State, c: nat, t: nat)
    requires c < |s.children| && s.lock == Some(t) && t in s.tasks && s.tasks[t].Reaping? && s.tasks[t].op.Enumerate?
    ensures RestStays(DoTeardownReads(s, c), t, s.tasks[t].op.rest)
  {
    hide Keeps, Frame, Named, Awaited, SpawnRaises;
    if IsReaping(s, c) {
      CutOf(s, c);
      RestRaises(CutState(s, c), t, s.tasks[t].op);
    }
  }

  lemma RestPlain(s: State, step: Step, t: nat)
    requires Enabled(s, step) && ActiveExists(s) && t in s.tasks && RestOf(s.tasks[t]).Some?
    requires step == Created(t) || step == Connected(t) || step == WarmupFails(t) || (step.Publish? && step.t == t)
    ensures RestStays(Apply(s, step), t, RestOf(s.tasks[t]).value)
  {
    hide Keeps, Named;
  }

  // Steps that are not an enumeration's.
  lemma RestForeign(s: State, step: Step, t: nat)
    requires Enabled(s, step) && Concerns(s, step, t) && t in s.tasks && RestOf(s.tasks[t]).Some?
    ensures !step.Begin? && !step.Lock? && !step.Read? && !step.Receive? && !step.Leave?
    ensures !step.TornDown? && !step.Die? && !step.MarkFailed?
    ensures step.TeardownReads? ==> s.lock == Some(t) && s.tasks[t].Reaping?
    ensures !step.TeardownReads? ==> step.t == t
    ensures step.EnumGo? ==> s.tasks[t].EnumAt?
  {
  }

  function CutState(s: State, c: nat): State
    requires c < |s.children|
  {
    var child := s.children[c].(teardown := NoTeardown, cut := true);
    SetChild(s, c, child).(strayed := s.strayed || child.alive).(active := None)
  }

  lemma CutOf(s: State, c: nat)
    requires c < |s.children| && IsReaping(s, c)
    ensures DoCut(s, c) == SpawnRaises(CutState(s, c), s.lock.value, s.tasks[s.lock.value].op)
  {
    hide Keeps, Frame, Named, SpawnRaises;
  }

  // A name is left only by the turn that comes to it.
  lemma RestStep(s: State, step: Step, t: nat)
    requires Core(s) && Enabled(s, step) && t in s.tasks && RestOf(s.tasks[t]).Some?
    ensures var rest, q := RestOf(s.tasks[t]).value, Apply(s, step);
      if step.EnumGo? && step.t == t then RestStays(q, t, if rest == [] then [] else rest[1..])
      else RestStays(q, t, rest)
    ensures step.EnumGo? && step.t == t ==> s.tasks[t].EnumAt?
  {
    if !Concerns(s, step, t) {
      OthersStep(s, step, t);
      hide Apply, Core;
    } else {
      LockIsShared(s);
      RestForeign(s, step, t);
      hide Core, Keeps, Frame, SameCuts, Named, DoReaped, SpawnRaises, DoKilled, DoWarmed, DoEnumGo, DoCancel,
        DoTeardownReads, DoCreated, DoConnected, DoWarmupFails, DoPublish, Drop, RestStays, Concerns;
      match step
      case Reaped(_, ok) => RestReaped(s, t, s.tasks[t].op, s.tasks[t].child, s.tasks[t].next, ok);
      case CreateFails(_) => RestRaises(s, t, s.tasks[t].op);
      case ConnectFails(_) => RestRaises(Drop(s, s.tasks[t].child), t, s.tasks[t].op);
      case Killed(_) => RestKilled(s, t, s.tasks[t].op, s.tasks[t].child, s.tasks[t].cancelled);
      case Warmed(_, voices) => RestWarmed(s, t, s.tasks[t].op, s.tasks[t].child, voices);
      case EnumGo(_, installed) => RestEnumGo(s, t, s.tasks[t].rest, installed);
      case Cancel(_) => RestCancel(s, t);
      case TeardownReads(c) => RestCut(s, c, t);
      case Created(_) => RestPlain(s, step, t);
      case Connected(_) => RestPlain(s, step, t);
      case WarmupFails(_) => RestPlain(s, step, t);
      case Publish(_, _) => RestPlain(s, step, t);
    }
  }

  // Some turn of t came to the name.
  ghost predicate CameTo(run: seq<State>, steps: seq<Step>, k: nat, j: nat, t: nat, name: Name) {
    && k < j < |steps| && j < |run| && steps[j].EnumGo? && steps[j].t == t
    && t in run[j].tasks && run[j].tasks[t].EnumAt? && run[j].tasks[t].rest != [] && run[j].tasks[t].rest[0] == name
  }

  lemma EnumerationStarts(s: State, t: nat, names: seq<Name>, ok: bool)
    requires Core(s) && Enabled(s, Lock(t, ok)) && s.tasks[t] == Queued(Enumerate(names))
    ensures var q := Apply(s, Lock(t, ok)); t in q.tasks && RestOf(q.tasks[t]) == Some(names)
  {
    hide Keeps, Frame, SameCuts, Named, EnsureSegment;
  }

  /** An enumeration survives its providers: over every run, once it has taken the lock, it is
      under way, about to publish or done, unless it is cancelled; whatever is missing, fails to
      start, dies or cannot be stopped ends neither it nor its list. */
  lemma {:induction false} EnumerationSurvives(run: seq<State>, steps: seq<Step>, k: nat, i: nat, t: nat,
                                               names: seq<Name>, ok: bool)
    requires IsRun(run, steps) && k < i < |run| && k < |steps| && steps[k] == Lock(t, ok)
    requires t in run[k].tasks && run[k].tasks[t] == Queued(Enumerate(names))
    ensures t in run[i].tasks && (RestOf(run[i].tasks[t]).Some? || run[i].tasks[t] == Cancelled)
    decreases i
  {
    hide IsRun, Apply, Enabled, Core, Routes, EnumInv;
    RunLength(run, steps);
    RunStep(run, steps, i - 1);
    InvAlways(run, steps, i - 1);
    if i == k + 1 {
      EnumerationStarts(run[k], t, names, ok);
    } else {
      EnumerationSurvives(run, steps, k, i - 1, t, names, ok);
      if run[i - 1].tasks[t] == Cancelled {
        OverStep(run[i - 1], steps[i - 1], t);
      } else {
        RestStep(run[i - 1], steps[i - 1], t);
      }
    }
  }

  lemma {:induction false} NamesLeftOrVisited(run: seq<State>, steps: seq<Step>, k: nat, i: nat, t: nat, name: Name,
                                              names: seq<Name>, ok: bool)
    requires IsRun(run, steps) && k < i < |run| && k < |steps| && steps[k] == Lock(t, ok)
    requires t in run[k].tasks && run[k].tasks[t] == Queued(Enumerate(names)) && name in names
    ensures t in run[i].tasks && (RestOf(run[i].tasks[t]).Some? || run[i].tasks[t] == Cancelled)
    ensures RestOf(run[i].tasks[t]).Some? ==>
              name in RestOf(run[i].tasks[t]).value || exists j: nat :: j < i && CameTo(run, steps, k, j, t, name)
    decreases i
  {
    hide IsRun, Apply, Enabled, Core, Routes, EnumInv;
    RunLength(run, steps);
    RunStep(run, steps, i - 1);
    InvAlways(run, steps, i - 1);
    if i == k + 1 {
      EnumerationStarts(run[k], t, names, ok);
    } else {
      NamesLeftOrVisited(run, steps, k, i - 1, t, name, names, ok);
      if run[i - 1].tasks[t] == Cancelled {
        OverStep(run[i - 1], steps[i - 1], t);
      } else {
        RestStep(run[i - 1], steps[i - 1], t);
        var before := run[i - 1].tasks[t];
        if steps[i - 1].EnumGo? && steps[i - 1].t == t && before.rest != [] && name == before.rest[0] {
          assert CameTo(run, steps, k, i - 1, t, name);
        }
      }
    }
  }

  /** An enumeration that has come to publish what it found has come to every provider of its
      list: it went past one that is not installed, took the active READY one as it is, and for
      any other stopped what was active and went on to start it. */
  lemma EnumerationAsksAll(run: seq<State>, steps: seq<Step>, k: nat, i: nat, t: nat, name: Name, names: seq<Name>,
                           ok: bool)
    returns (j: nat)
    requires IsRun(run, steps) && k < i < |run| && k < |steps| && steps[k] == Lock(t, ok)
    requires t in run[k].tasks && run[k].tasks[t] == Queued(Enumerate(names)) && name in names
    requires t in run[i].tasks && (run[i].tasks[t].Publishing? || run[i].tasks[t].Published?)
    ensures j < i && CameTo(run, steps, k, j, t, name) && j + 1 < |run| && t in run[j + 1].tasks
    ensures steps[j].installed && name in run[j].registry && !ActiveIs(run[j], name) ==>
              match run[j].active
              case None => run[j + 1].tasks[t] == Creating(Enumerate(run[j].tasks[t].rest[1..]), name)
              case Some(c) => run[j + 1].tasks[t] == Reaping(Enumerate(run[j].tasks[t].rest[1..]), c, Some(name))
    ensures !steps[j].installed || ActiveIs(run[j], name) ==>
              && run[j + 1].tasks[t] == EnumAt(run[j].tasks[t].rest[1..])
              && run[j + 1].active == run[j].active && run[j + 1].children == run[j].children
  {
    NamesLeftOrVisited(run, steps, k, i, t, name, names, ok);
    j :| j < i && CameTo(run, steps, k, j, t, name);
    RunLength(run, steps);
    RunStep(run, steps, j);
    InvAlways(run, steps, j);
    hide IsRun, Core, Routes, EnumInv;
    AsksNext(run[j], t, steps[j].installed);
  }

  lemma AsksNext(s: State, t: nat, installed: bool)
    requires ActiveExists(s) && Enabled(s, EnumGo(t, installed)) && s.tasks[t].rest != []
    ensures var q, name, rest := Apply(s, EnumGo(t, installed)), s.tasks[t].rest[0], s.tasks[t].rest[1..];
      && t in q.tasks
      && (installed && name in s.registry && !ActiveIs(s, name) ==>
         match s.active
         case None => q.tasks[t] == Creating(Enumerate(rest), name)
         case Some(c) => q.tasks[t] == Reaping(Enumerate(rest), c, Some(name)))
      && (!installed || ActiveIs(s, name) ==>
            q.tasks[t] == EnumAt(rest) && q.active == s.active && q.children == s.children)
  {
    hide Keeps, Named;
  }

  // ---- callers and processes ----------------------------------------------------------------

  /** A teardown reads whether or not its task still waits for it, and whatever else runs; the
      read is cut exactly when a caller awaits a frame of the child, and leaves it alive. */
  lemma TeardownReadsOn(run: seq<State>, steps: seq<Step>, c: nat)
    returns (run': seq<State>, steps': seq<Step>)
    requires |run| == |steps| + 1 && IsRun(run, steps) && c < |run[|steps|].children|
    requires run[|steps|].children[c].teardown.ByShutdown? && !run[|steps|].children[c].heard
    ensures GoesOn(run, steps, run', steps') && steps' == steps + [TeardownReads(c)]
    ensures var s, q := run[|steps|], run'[|steps'|];
      && c < |q.children| == |s.children| && q.children[c].alive == s.children[c].alive
      && if Awaited(s, c) then q.children[c].cut && q.children[c].teardown.NoTeardown?
         else q.children[c].heard && q.children[c].teardown.ByShutdown? && q.tasks == s.tasks && q.lock == s.lock
  {
    hide IsRun, Core, Routes, EnumInv, Keeps, Frame, SameCuts, Named, Awaited;
    InvAlways(run, steps, |steps|);
    CoreHasActive(run[|steps|]);
    run', steps' := ExtendRun(run, steps, TeardownReads(c));
  }

  /** A request for a listed voice can begin at any moment, whoever holds the lifecycle lock, and
      is routed to what the index holds then. */
  lemma RequestBegins(run: seq<State>, steps: seq<Step>, t: nat, v: Id)
    returns (run': seq<State>, steps': seq<Step>)
    requires |run| == |steps| + 1 && IsRun(run, steps)
    requires t !in run[|steps|].tasks && v in run[|steps|].index
    ensures var s := run[|steps|];
      var entry := s.index[v];
      && GoesOn(run, steps, run', steps') && steps' == steps + [Begin(t, Route(v, entry.provider))]
      && run'[|steps'|] == s.(tasks := s.tasks[t := Queued(Route(v, entry.provider))],
                              routed := s.routed[t := Routing(v, entry.provider, entry.local)])
  {
    hide IsRun, Core, Routes, EnumInv;
    InvAlways(run, steps, |steps|);
    CoreHasActive(run[|steps|]);
    run', steps' := ExtendRun(run, steps, Begin(t, Route(v, run[|steps|].index[v].provider)));
  }

  /** With the lock free and a READY process of its provider active that reported the voice, two
      turns of the lock later it is sent there, and the process is not touched. */
  lemma RequestIsSent(run: seq<State>, steps: seq<Step>, t: nat, v: Id)
    returns (run': seq<State>, steps': seq<Step>)
    requires |run| == |steps| + 1 && IsRun(run, steps) && run[|steps|].lock.None?
    requires t !in run[|steps|].tasks && v in run[|steps|].index
    requires var s := run[|steps|];
      && ActiveIs(s, s.index[v].provider) && s.index[v].local in s.children[s.active.value].voices
    ensures GoesOn(run, steps, run', steps') && |steps'| == |steps| + 3
    ensures var s, q := run[|steps|], run'[|steps'|];
      && q.sent == s.sent + [Dispatch(t, v, s.active.value, s.index[v].local, Some(s.index[v]))]
      && t in q.tasks && q.tasks[t] == Holding(s.active.value, |s.sent|)
      && q.lock.None? && q.active == s.active && q.children == s.children
  {
    hide IsRun, Apply, Enabled;
    var s := run[|steps|];
    var entry := s.index[v];
    run', steps' := RequestBegins(run, steps, t, v);
    TurnOfRoute(run'[|steps'|], t, v, entry.provider);
    run', steps' := ExtendRun(run', steps', Lock(t, true));
    TurnOfAgain(run'[|steps'|], t, v, entry.provider);
    run', steps' := ExtendRun(run', steps', Lock(t, true));
  }

  lemma TurnOfRoute(s: State, t: nat, v: Id, name: Name)
    requires t in s.tasks && s.tasks[t] == Queued(Route(v, name)) && s.lock.None? && ActiveIs(s, name)
    requires v in s.index && s.index[v].local in s.children[s.active.value].voices
    ensures ActiveExists(s) && Enabled(s, Lock(t, true))
    ensures var q := Apply(s, Lock(t, true));
      && t in q.tasks && q.tasks[t] == Queued(Again(v, name)) && q.lock.None?
      && q.active == s.active && q.children == s.children && q.index == s.index && q.sent == s.sent
  {
    hide Keeps, Named;
  }

  lemma TurnOfAgain(s: State, t: nat, v: Id, name: Name)
    requires t in s.tasks && s.tasks[t] == Queued(Again(v, name)) && s.lock.None? && ActiveIs(s, name)
    requires v in s.index && s.index[v].local in s.children[s.active.value].voices
    ensures ActiveExists(s) && Enabled(s, Lock(t, true))
    ensures var q := Apply(s, Lock(t, true));
      && q.sent == s.sent + [Dispatch(t, v, s.active.value, s.index[v].local, Some(s.index[v]))]
      && t in q.tasks && q.tasks[t] == Holding(s.active.value, |s.sent|)
      && q.lock.None? && q.active == s.active && q.children == s.children
  {
    hide Keeps, Named;
  }

  /** A caller that was given its process is held up by nobody but the process: whatever holds
      the lifecycle lock, it can await a frame unless another caller of the process does, be
      given it, and return or raise. */
  lemma CallerGoesOn(run: seq<State>, steps: seq<Step>, t: nat, ok: bool)
    returns (run': seq<State>, steps': seq<Step>)
    requires |run| == |steps| + 1 && IsRun(run, steps) && t in run[|steps|].tasks && run[|steps|].tasks[t].Holding?
    requires !Awaited(run[|steps|], run[|steps|].tasks[t].child)
    ensures GoesOn(run, steps, run', steps') && steps' == steps + [Read(t), Receive(t), Leave(t, ok)]
    ensures var pc := run[|steps|].tasks[t];
      && t in run'[|steps| + 1].tasks && run'[|steps| + 1].tasks[t] == Reading(pc.child, pc.request)
      && t in run'[|steps| + 2].tasks && run'[|steps| + 2].tasks[t] == pc
    ensures var s := run[|steps|];
      run'[|steps'|] == s.(tasks := s.tasks[t := if ok then Finished else Raised])
  {
    hide IsRun, Core, Routes, EnumInv, Apply, Enabled, Awaited;
    InvAlways(run, steps, |steps|);
    var s := run[|steps|];
    CoreHasActive(s);
    CallerSteps(s, t, ok);
    run', steps' := ExtendRun(run, steps, Read(t));
    CallerSteps(run'[|steps'|], t, ok);
    run', steps' := ExtendRun(run', steps', Receive(t));
    CallerSteps(run'[|steps'|], t, ok);
    run', steps' := ExtendRun(run', steps', Leave(t, ok));
    assert s.tasks[t := Reading(s.tasks[t].child, s.tasks[t].request)][t := s.tasks[t]] == s.tasks;
  }

  lemma CallerSteps(s: State, t: nat, ok: bool)
    requires ActiveExists(s) && t in s.tasks && IsCaller(s.tasks[t])
    ensures var pc := s.tasks[t];
      && (pc.Holding? && !Awaited(s, pc.child) ==>
            && Enabled(s, Read(t))
            && Apply(s, Read(t)) == s.(tasks := s.tasks[t := Reading(pc.child, pc.request)]))
      && (pc.Reading? ==>
            && Enabled(s, Receive(t))
            && Apply(s, Receive(t)) == s.(tasks := s.tasks[t := Holding(pc.child, pc.request)]))
      && Enabled(s, Leave(t, ok))
      && Apply(s, Leave(t, ok)) == s.(tasks := s.tasks[t := if ok then Finished else Raised])
  {
    hide Keeps, Named, Awaited;
  }

  /** A process can be marked FAILED as soon as its start is over, and can die at any time. */
  lemma ProcessCanFail(run: seq<State>, steps: seq<Step>, c: nat)
    returns (failed: seq<State>, failedSteps: seq<Step>, died: seq<State>, diedSteps: seq<Step>)
    requires |run| == |steps| + 1 && IsRun(run, steps) && c < |run[|steps|].children|
    requires run[|steps|].children[c].state != STARTING
    ensures GoesOn(run, steps, failed, failedSteps) && GoesOn(run, steps, died, diedSteps)
    ensures var s := run[|steps|];
      && failed[|failedSteps|] == s.(children := s.children[c := s.children[c].(state := FAILED)])
      && died[|diedSteps|] == s.(children := s.children[c := s.children[c].(alive := false)])
  {
    hide IsRun, Core, Routes, EnumInv, Keeps, Named;
    InvAlways(run, steps, |steps|);
    CoreHasActive(run[|steps|]);
    failed, failedSteps := ExtendRun(run, steps, MarkFailed(c));
    died, diedSteps := ExtendRun(run, steps, Die(c));
  }
}
