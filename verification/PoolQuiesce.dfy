/** While tasks are left one can go on, and a link keeps its chance of coming up
    (src/pool.rs). */
module PoolQuiesce {
  import opened Wrappers
  import opened PoolLink
  import opened Pool
  import opened PoolInvariant
  import opened PoolRuns
  import opened PoolRevival

  /** `close` was not heard, discovery does not run, and the link can come back. */
  ghost predicate Ready(s: State, l: nat) {
    Inv(s) && s.phase.Stopping? && !s.stop && Revivable(s, l) && !Running(s.tasks[DISCOVERY_TASK].at)
  }

  /** Discovery has been polled and has not ended. */
  predicate Running(p: Point) {
    !p.Ended? && !p.Unpolled?
  }

  ghost predicate AllEnded(s: State) {
    forall a: nat :: DISCOVERY_TASK < a < |s.tasks| ==> s.tasks[a].at.Ended?
  }

  // --- steps left -------------------------------------------------------------------------------

  function Left(p: Point): nat {
    match p
    case Failed => 15 case Relocked => 14 case Cleared => 13 case Marked => 12 case Unlocked => 11 case Claimed => 10
    case Pushed => 11 case PushClaimed => 10
    case Failing => 10 case Judging => 9 case Sleeping => 8 case Spawned => 8 case Start => 7 case Dialing => 6
    case WantLock => 5 case Installed => 4 case Dropped => 3 case Stored => 2 case Releasing => 1
    case Holding => 2 case Picking => 1 case Inspecting => 1 case Peeked => 1 case Answered => 1
    case _ => 0
  }

  function TotalLeft(tasks: seq<Task>): nat {
    if tasks == [] then 0 else TotalLeft(tasks[..|tasks| - 1]) + Left(tasks[|tasks| - 1].at)
  }

  lemma {:induction false} TotalLeftPut(tasks: seq<Task>, a: nat, t: Task)
    requires a < |tasks|
    ensures TotalLeft(tasks[a := t]) == TotalLeft(tasks) - Left(tasks[a].at) + Left(t.at)
  {
    hide Left;
    var n := |tasks| - 1;
    if a == n {
      assert tasks[a := t][..n] == tasks[..n];
    } else {
      assert tasks[a := t][..n] == tasks[..n][a := t];
      TotalLeftPut(tasks[..n], a, t);
    }
  }

  lemma {:induction false} TotalLeftMore(tasks: seq<Task>, t: Task)
    ensures TotalLeft(tasks + [t]) == TotalLeft(tasks) + Left(t.at)
  {
    assert (tasks + [t])[..|tasks|] == tasks;
  }

  // --- one step of one task ------------------------------------------------------------------------

  /** The action can be taken, leaves less to do, and the link keeps its chance. */
  ghost predicate Goes(s: State, action: Action, l: nat) {
    && Next(s, action).Some?
    && var after := Next(s, action).value;
      && TotalLeft(after.tasks) < TotalLeft(s.tasks)
      && after.phase == s.phase && after.stop == s.stop
      && Revivable(after, l)
  }

  /** The task need not wait for a lock. */
  predicate Unblocked(s: State, a: nat) {
    a < |s.tasks| && (s.tasks[a].at.WantLock? || s.tasks[a].at.Failed? ==>
      s.tasks[a].link < |s.all| && s.all[s.tasks[a].link].lock.Free?)
  }

  /** Points whose next step, with a favourable outcome, leaves less to do. */
  predicate Going(p: Point) {
    LifecyclePoint(p) || Pursuing(p) || p.Holding? || p.Pushed? || p.Inspecting? || p.Peeked?
  }

  /** A task that need not wait, and does not give in, goes. */
  lemma {:induction false} StepGoes(s: State, a: nat, l: nat)
    requires Inv(s) && Revivable(s, l) && !s.stop && a < |s.tasks| && Going(s.tasks[a].at) && Unblocked(s, a)
    requires !Loses(s, Step(a, true), l)
    ensures Goes(s, Step(a, true), l)
  {
    hide BudgetOk, SeedsOk, CloseOk, Revivable, Counts, GaveUpRightly, TotalLeft, LinkStep, Loses, LinkOk;
    assert TaskOk(s, a);
    var t, k := s.tasks[a], s.tasks[a].link;
    StepLess(a, t, s.all[k], s.stop);
    var m := LinkStep(a, t, s.all[k], s.stop, true).value;
    assert TaskStep(s, a, true) == Some(Put(s, a, m, k));
    TotalLeftPut(s.tasks, a, m.task);
    HasChance(s, l);
    NextRevives(s, Step(a, true), l);
  }

  lemma {:induction false} StepLess(a: nat, t: Task, link: Link, stop: bool)
    requires Going(t.at) && !stop && (t.at.WantLock? || t.at.Failed? ==> link.lock.Free?)
    ensures Targets(t) && Target(t) == t.link && LinkStep(a, t, link, stop, true).Some?
    ensures Left(LinkStep(a, t, link, stop, true).value.task.at) < Left(t.at)
  {
  }

  lemma {:induction false} DropGoes(s: State, a: nat, l: nat)
    requires Inv(s) && Revivable(s, l) && a < |s.tasks| && s.tasks[a].role.Caller?
    requires s.tasks[a].at.Picking? || s.tasks[a].at.Holding?
    ensures Goes(s, Drop(a), l)
  {
    hide Inv, Revivable, TotalLeft;
    TotalLeftPut(s.tasks, a, s.tasks[a].(at := Ended));
    HasChance(s, l);
    NextRevives(s, Drop(a), l);
  }

  lemma {:induction false} SpawnGoes(s: State, a: nat, l: nat)
    requires Inv(s) && Revivable(s, l) && !s.phase.Shutting? && a < |s.tasks|
    requires s.tasks[a].at.Claimed? || s.tasks[a].at.PushClaimed?
    ensures Goes(s, Spawn(a), l)
  {
    hide BudgetOk, SeedsOk, CloseOk, TotalLeft, Revivable;
    assert TaskOk(s, a);
    var t := s.tasks[a];
    var onward, life := t.(at := if t.at.Claimed? then Picking else Counting), Task(Lifecycle, Spawned, t.link, [], 0);
    assert SpawnLifecycle(s, a).value.tasks == s.tasks[a := onward] + [life];
    TotalLeftPut(s.tasks, a, onward);
    TotalLeftMore(s.tasks[a := onward], life);
    HasChance(s, l);
    NextRevives(s, Spawn(a), l);
  }

  // --- all tasks --------------------------------------------------------------------------------------

  /** Locks are free when no caller holds one and no lifecycle can go on. */
  lemma {:induction false} LocksFree(s: State, l: nat, k: nat)
    requires Ready(s, l) && k < |s.all|
    requires forall a: nat :: DISCOVERY_TASK < a < |s.tasks| ==> !Locks(s.tasks[a].at)
    ensures s.all[k].lock.Free?
  {
    hide BudgetOk, SeedsOk, CloseOk, Counts, GaveUpRightly, Revivable;
    assert LinkOk(s, k);
  }

  lemma {:induction false} ReadyRevivable(s: State, l: nat)
    requires Ready(s, l)
    ensures Inv(s) && Revivable(s, l) && !s.stop && s.phase.Stopping?
  {
  }

  /** With a favourable outcome only a task that finds the claim taken gives in. */
  lemma {:induction false} NotUnlucky(s: State, a: nat, l: nat)
    requires a < |s.tasks| && !s.stop && !s.tasks[a].at.Unlocked? && !s.tasks[a].at.Pushed?
    ensures !Loses(s, Step(a, true), l)
  {
    hide Brings;
  }

  /** A claim that is not abandoned is somebody's. */
  lemma {:induction false} ClaimUsed(s: State, l: nat) returns (b: nat)
    requires Inv(s) && l < |s.all| && s.all[l].redialing && !s.all[l].leaked
    ensures Redials(s, b, l) && s.all[l].claimant == Some(b)
  {
    hide BudgetOk, SeedsOk, CloseOk, Counts, GaveUpRightly;
    assert LinkOk(s, l);
    b := s.all[l].claimant.value;
    assert TaskOk(s, b);
  }

  ghost predicate OthersTask(action: Action) {
    (action.Step? || action.Drop? || action.Spawn?) && action.a != DISCOVERY_TASK
  }

  /** While a task is left, one can go on: lifecycles first, then whoever holds a lock. */
  lemma {:induction false} SomethingGoes(s: State, l: nat) returns (action: Action)
    requires Ready(s, l) && !AllEnded(s)
    ensures OthersTask(action) && Goes(s, action, l)
  {
    hide LinksOk, BudgetOk, SeedsOk, CloseOk, Goes, Revivable, Loses;
    if a: nat :| DISCOVERY_TASK < a < |s.tasks| && LifecyclePoint(s.tasks[a].at) && Unblocked(s, a) {
      NotUnlucky(s, a, l);
      StepGoes(s, a, l);
      action := Step(a, true);
    } else if a: nat :| DISCOVERY_TASK < a < |s.tasks| && Locks(s.tasks[a].at) {
      assert TaskOk(s, a);
      if s.tasks[a].at.Holding? {
        DropGoes(s, a, l);
        action := Drop(a);
      } else {
        NotUnlucky(s, a, l);
        StepGoes(s, a, l);
        action := Step(a, true);
      }
    } else {
      action := CallerLeft(s, l);
    }
  }

  lemma {:induction false} CallerLeft(s: State, l: nat) returns (action: Action)
    requires Ready(s, l) && !AllEnded(s)
    requires forall a: nat :: DISCOVERY_TASK < a < |s.tasks| ==> !Locks(s.tasks[a].at)
    requires forall a: nat :: DISCOVERY_TASK < a < |s.tasks| ==> !(LifecyclePoint(s.tasks[a].at) && Unblocked(s, a))
    ensures OthersTask(action) && Goes(s, action, l)
  {
    hide LinksOk, BudgetOk, SeedsOk, CloseOk, Goes, Revivable, Loses;
    var a: nat :| DISCOVERY_TASK < a < |s.tasks| && !s.tasks[a].at.Ended?;
    assert TaskOk(s, a);
    forall b: nat | b < |s.tasks| ensures !LifecyclePoint(s.tasks[b].at) {
      assert TaskOk(s, b);
      if LifecyclePoint(s.tasks[b].at) { LocksFree(s, l, s.tasks[b].link); }
    }
    if s.tasks[a].at.Picking? {
      DropGoes(s, a, l);
      action := Drop(a);
    } else if s.tasks[a].at.Claimed? {
      SpawnGoes(s, a, l);
      action := Spawn(a);
    } else {
      LocksFree(s, l, s.tasks[a].link);
      if s.tasks[a].at.Unlocked? { LosesNothing(s, a, l); } else { NotUnlucky(s, a, l); }
      StepGoes(s, a, l);
      action := Step(a, true);
    }
  }

  /** With no lifecycle running, a caller that finds the claim taken leaves the link to the
      caller that has it. */
  lemma {:induction false} LosesNothing(s: State, a: nat, l: nat)
    requires Ready(s, l) && a < |s.tasks| && s.tasks[a].at.Unlocked?
    requires forall b: nat :: b < |s.tasks| ==> !LifecyclePoint(s.tasks[b].at)
    ensures !Loses(s, Step(a, true), l)
  {
    hide Inv;
    if s.all[l].redialing {
      var b := ClaimUsed(s, l);
      assert Bringing(s, b, l) && b != a;
    }
  }

  lemma {:induction false} StillReady(s: State, action: Action, l: nat)
    requires Ready(s, l) && Goes(s, action, l) && OthersTask(action)
    ensures Ready(Next(s, action).value, l)
  {
    hide Inv, Revivable, Grows, TotalLeft, TaskStep, DropTask, SpawnLifecycle;
    InvTasks(s);
    NextKeeps(s, action);
    DiscoveryRests(s, action);
  }

  lemma {:induction false} DiscoveryRests(s: State, action: Action)
    requires Next(s, action).Some? && OthersTask(action) && |s.tasks| > 0
    ensures var after := Next(s, action).value;
      |after.tasks| > 0 && after.tasks[DISCOVERY_TASK] == s.tasks[DISCOVERY_TASK]
  {
    hide LinkStep;
  }

  /** When all tasks have ended, a link that can come up is up, and no lock is held. */
  lemma {:induction false} EndedUp(s: State, l: nat)
    requires Ready(s, l) && AllEnded(s)
    ensures s.all[l].session && !s.all[l].redialing
    ensures forall k: nat :: k < |s.all| ==> s.all[k].lock.Free?
  {
    hide BudgetOk, SeedsOk, CloseOk, Counts, GaveUpRightly;
    assert LinkOk(s, l);
    forall k: nat | k < |s.all| ensures s.all[k].lock.Free? { LocksFree(s, l, k); }
  }

  // --- one link, in an open pool --------------------------------------------------------------------------

  /** The link has a session that calls see and whose failure would be redialed, and
      nobody holds its lock. */
  predicate Up(link: Link) {
    link.session && link.connected && !link.redialing && link.lock.Free?
  }

  lemma {:induction false} OpenPool(s: State)
    requires Inv(s) && s.phase.Open?
    ensures !s.stop && s.drained == 0
  {
    hide LinksOk, TasksOk, BudgetOk, SeedsOk, Quiet;
  }

  lemma {:induction false} Holder(s: State, l: nat) returns (b: nat)
    requires Inv(s) && s.phase.Open? && l < |s.all| && !s.all[l].lock.Free?
    ensures b < |s.tasks| && Going(s.tasks[b].at) && Unblocked(s, b)
    ensures !s.tasks[b].at.Unlocked? && !s.tasks[b].at.Pushed?
  {
    hide BudgetOk, SeedsOk, CloseOk, Counts, GaveUpRightly;
    assert LinkOk(s, l);
    b := s.all[l].lock.task;
  }

  /** The holder of the claim of a link that is not locked goes on, or spawns its
      lifecycle. */
  lemma {:induction false} ClaimGoes(s: State, l: nat, c: nat) returns (action: Action)
    requires Inv(s) && s.phase.Open? && Revivable(s, l) && s.all[l].lock.Free? && Redials(s, c, l)
    ensures !action.Drop? && Goes(s, action, l)
  {
    hide Inv, Goes, Revivable, Loses;
    OpenPool(s);
    HasChance(s, l);
    if LifecyclePoint(s.tasks[c].at) {
      NotUnlucky(s, c, l);
      StepGoes(s, c, l);
      action := Step(c, true);
    } else {
      SpawnGoes(s, c, l);
      action := Spawn(c);
    }
  }

  /** A link without a session whose claim is free has a task that is after it. */
  lemma {:induction false} Pursuer(s: State, l: nat) returns (a: nat)
    requires Inv(s) && Revivable(s, l) && !Up(s.all[l]) && s.all[l].lock.Free? && !s.all[l].redialing
    ensures a < |s.tasks| && Going(s.tasks[a].at) && Unblocked(s, a) && !Loses(s, Step(a, true), l)
  {
    hide BudgetOk, SeedsOk, CloseOk, Counts, GaveUpRightly;
    assert LinkOk(s, l);
    a :| Bringing(s, a, l);
    assert TaskOk(s, a);
  }

  /** In an open pool a link with a chance that is not up has a task that can go on: the
      holder of its lock, then the holder of its claim, then a task that is after it. */
  lemma {:induction false} LinkGoes(s: State, l: nat) returns (action: Action)
    requires Inv(s) && s.phase.Open? && Revivable(s, l) && !Up(s.all[l])
    ensures !action.Drop? && Goes(s, action, l)
  {
    hide Inv, Goes, Revivable, Loses, Going, Brings, Redials;
    HasChance(s, l);
    var link := s.all[l];
    OpenPool(s);
    if !link.lock.Free? {
      var b := Holder(s, l);
      NotUnlucky(s, b, l);
      StepGoes(s, b, l);
      action := Step(b, true);
    } else if link.redialing {
      var c := ClaimUsed(s, l);
      action := ClaimGoes(s, l, c);
    } else {
      var a := Pursuer(s, l);
      StepGoes(s, a, l);
      action := Step(a, true);
    }
  }
}
