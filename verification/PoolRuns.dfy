/** What holds in every run of the pool, whatever the interleaving (src/pool.rs). */
module PoolRuns {
  import opened Wrappers
  import opened PoolLink
  import opened Pool
  import opened PoolInvariant

  // --- every run keeps the invariant ----------------------------------------------------------

  lemma {:induction false} BootstrapsOccupyNothing(all: seq<Link>)
    requires forall l: nat :: l < |all| ==> all[l].origin.Bootstrap?
    ensures Occupied(all) == 0
  {
    if all != [] { BootstrapsOccupyNothing(all[..|all| - 1]); }
  }

  lemma {:induction false} InitInv(conf: Conf)
    ensures Inv(Init(conf))
  {
    hide Occupied;
    var s := Init(conf);
    BootstrapsOccupyNothing(s.all);
    assert Trailing([]) == 0;
    forall l: nat | l < |s.all| ensures LinkOk(s, l) { assert s.tasks[l + 1].at.Spawned? && s.tasks[l + 1].link == l; }
    forall a: nat | a < |s.tasks| ensures TaskOk(s, a) {}
  }

  /** Discovery's own moves go from one point at which it holds nothing to another. */
  lemma {:induction false} MoveHoldsNothing(s: State, t: Task, action: Action)
    requires List(s) == s.all && DiscoveryMove(s, t, action).Some?
    requires t.role.Discovery? && forall i :: 0 <= i < |t.todo| ==> t.todo[i] < |s.all|
    requires HasRoom(t.at) ==> Occupied(s.all) < s.conf.maxLinks
    ensures Active(t) && !Claims(t.at) && !Locks(t.at)
    ensures var m := DiscoveryMove(s, t, action).value;
      && m.role.Discovery?
      && !LifecyclePoint(m.at) && !Claims(m.at) && !Locks(m.at) && !m.at.Pushed?
      && (Targets(m) ==> Target(m) < |s.all|)
      && (forall i :: 0 <= i < |m.todo| ==> m.todo[i] < |s.all|)
      && (HasRoom(m.at) ==> Occupied(s.all) < s.conf.maxLinks)
  {
    hide Occupied, List;
  }

  lemma {:induction false} DiscoveryStepKeeps(s: State, action: Action)
    requires Inv(s) && DiscoveryStep(s, action).Some?
    ensures Inv(DiscoveryStep(s, action).value) && Grows(s, DiscoveryStep(s, action).value)
  {
    hide LinksOk, SeedsOk, Grows, Occupied, Quiet, DiscoveryMove, LifecyclePoint, Claims, Locks, Targets;
    var t := s.tasks[DISCOVERY_TASK];
    assert TaskOk(s, DISCOVERY_TASK);
    MovesWhileActive(s, t, action);
    assert List(s) == s.all;
    MoveHoldsNothing(s, t, action);
    DiscoveryKeeps(s, DiscoveryMove(s, t, action).value);
  }

  lemma {:induction false} MovesWhileActive(s: State, t: Task, action: Action)
    requires DiscoveryMove(s, t, action).Some?
    ensures !t.at.Ended?
  {
    hide Occupied, Candidates;
  }

  lemma {:induction false} NextKeeps(s: State, action: Action)
    requires Inv(s) && Next(s, action).Some?
    ensures Inv(Next(s, action).value) && Grows(s, Next(s, action).value)
  {
    hide Inv, Grows, TaskStep, DropTask, SpawnLifecycle, ReturnCall, PushLink, CloseStep, DiscoveryStep, Candidates,
      Occupied;
    match action {
      case Step(a, choice) => TaskStepKeeps(s, a, choice);
      case Drop(a) => DropTaskKeeps(s, a);
      case Spawn(a) => SpawnKeeps(s, a);
      case StartCall(todo, fanout) => CallKeeps(s, todo, fanout);
      case Return(a, found) => ReturnKeeps(s, a, found);
      case Push(seed) => PushKeeps(s, seed);
      case _ => if DiscoveryAction(action) { DiscoveryStepKeeps(s, action); } else { CloseKeeps(s, action); }
    }
  }

  lemma {:induction false} RunKeeps(s: State, actions: seq<Action>)
    requires Inv(s) && Run(s, actions).Some?
    ensures Inv(Run(s, actions).value) && Grows(s, Run(s, actions).value)
    decreases |actions|
  {
    hide Inv, Next, Grows;
    if actions == [] {
      GrowsItself(s);
    } else {
      NextKeeps(s, actions[0]);
      var mid := Next(s, actions[0]).value;
      RunKeeps(mid, actions[1..]);
      GrowsOn(s, mid, Run(s, actions).value);
    }
  }

  lemma {:induction false} GrowsItself(s: State)
    ensures Grows(s, s)
  {
  }

  lemma {:induction false} GrowsOn(s: State, mid: State, after: State)
    requires Grows(s, mid) && Grows(mid, after)
    ensures Grows(s, after)
  {
    forall l: nat | l < |s.all| ensures Heir(s.all[l], after.all[l]) {
      assert Heir(s.all[l], mid.all[l]) && Heir(mid.all[l], after.all[l]);
    }
  }

  ghost predicate Reachable(conf: Conf, actions: seq<Action>, s: State) {
    Run(Init(conf), actions) == Some(s)
  }

  lemma {:induction false} ReachableInv(conf: Conf, actions: seq<Action>, s: State)
    requires Reachable(conf, actions, s)
    ensures Inv(s) && Grows(Init(conf), s)
  {
    hide Inv, Grows, Run;
    InitInv(conf);
    RunKeeps(Init(conf), actions);
  }

  // --- one redial per link -----------------------------------------------------------------------

  /** Task `a` has claimed link `l`'s redial, or is running it. */
  predicate Redials(s: State, a: nat, l: nat) {
    a < |s.tasks| && Claims(s.tasks[a].at) && s.tasks[a].link == l
  }

  /** In every reachable state a link has at most one claimed or running lifecycle, and
      exactly one if its flag is set and no task was dropped with the claim. */
  lemma {:induction false} OneRedial(conf: Conf, actions: seq<Action>, s: State, l: nat)
    requires Reachable(conf, actions, s) && l < |s.all|
    ensures forall a, b :: Redials(s, a, l) && Redials(s, b, l) ==> a == b
    ensures s.all[l].redialing <==> s.all[l].leaked || exists a :: Redials(s, a, l)
    ensures s.all[l].leaked ==> forall a :: !Redials(s, a, l)
  {
    hide Run, BudgetOk, SeedsOk, CloseOk, Counts, GaveUpRightly, Grows, Init;
    ReachableInv(conf, actions, s);
    assert LinkOk(s, l);
    forall a: nat | Redials(s, a, l) ensures s.all[l].claimant == Some(a) { assert TaskOk(s, a); }
    if s.all[l].claimant.Some? { assert Redials(s, s.all[l].claimant.value, l); }
  }

  lemma {:induction false} StepLeaksNothing(a: nat, t: Task, link: Link, stop: bool, choice: bool)
    requires Targets(t) && LinkStep(a, t, link, stop, choice).Some?
    ensures LinkStep(a, t, link, stop, choice).value.link.leaked == link.leaked
  {
    hide CallerStep, LifecycleStep;
    if LifecyclePoint(t.at) {
      LifecycleLeaksNothing(a, t, link, stop, choice);
    } else {
      CallerLeaksNothing(a, t, link, choice);
    }
  }

  lemma {:induction false} CallerLeaksNothing(a: nat, t: Task, link: Link, choice: bool)
    requires Targets(t) && CallerStep(a, t, link, choice).Some?
    ensures CallerStep(a, t, link, choice).value.link.leaked == link.leaked
  {
  }

  lemma {:induction false} LifecycleLeaksNothing(a: nat, t: Task, link: Link, stop: bool, choice: bool)
    requires LifecycleStep(a, t, link, stop, choice).Some?
    ensures LifecycleStep(a, t, link, stop, choice).value.link.leaked == link.leaked
  {
  }

  /** A claim outlives its task exactly when the task is dropped with it: a caller's future
      by its owner, or a background task by `close`. */
  lemma {:induction false} LeaksWhenDropped(s: State, action: Action, l: nat)
    requires Inv(s) && Next(s, action).Some? && l < |Next(s, action).value.all|
    ensures Next(s, action).value.all[l].leaked <==>
      (l < |s.all| && s.all[l].leaked) || (action.Drop? && Redials(s, action.a, l))
    ensures action.Drop? ==> s.tasks[action.a].role.Caller? || s.phase.Shutting?
  {
    hide LinkStep, Candidates, Occupied, LinksOk, BudgetOk, SeedsOk, CloseOk, InRole;
    if action.Step? && Targets(s.tasks[action.a]) {
      StepLeaksNothing(action.a, s.tasks[action.a], s.all[Target(s.tasks[action.a])], s.stop, action.choice);
    }
    if action.Drop? {
      assert TaskOk(s, action.a);
      ClaimsTarget(s.tasks[action.a]);
    }
  }

  /** The run drops a task that has claimed link `l`'s redial or is running it. */
  ghost predicate DropsRedialer(s: State, actions: seq<Action>, l: nat)
    decreases |actions|
  {
    && actions != [] && Next(s, actions[0]).Some?
    && ((actions[0].Drop? && Redials(s, actions[0].a, l)) || DropsRedialer(Next(s, actions[0]).value, actions[1..], l))
  }

  lemma {:induction false} RunLeaks(s: State, actions: seq<Action>, l: nat)
    requires Inv(s) && Run(s, actions).Some? && l < |Run(s, actions).value.all|
    ensures Run(s, actions).value.all[l].leaked <==> (l < |s.all| && s.all[l].leaked) || DropsRedialer(s, actions, l)
    decreases |actions|
  {
    hide Inv, Next, Grows, Redials;
    if actions != [] {
      var mid := Next(s, actions[0]).value;
      NextKeeps(s, actions[0]);
      RunKeeps(mid, actions[1..]);
      RunLeaks(mid, actions[1..], l);
      if l < |mid.all| { LeaksWhenDropped(s, actions[0], l); } else { NoRedialYet(s, actions[0], l); }
    }
  }

  lemma {:induction false} NoRedialYet(s: State, action: Action, l: nat)
    requires Inv(s) && Next(s, action).Some? && l >= |Next(s, action).value.all| && Grows(s, Next(s, action).value)
    ensures l >= |s.all| && !(action.Drop? && Redials(s, action.a, l))
  {
    hide LinksOk, BudgetOk, SeedsOk, CloseOk, Next;
    if action.Drop? && Redials(s, action.a, l) {
      assert TaskOk(s, action.a);
      ClaimsTarget(s.tasks[action.a]);
    }
  }

  /** In every reachable state a link's claim is held by no task exactly if one was dropped
      with it. */
  lemma {:induction false} AbandonedWhenDropped(conf: Conf, actions: seq<Action>, s: State, l: nat)
    requires Reachable(conf, actions, s) && l < |s.all|
    ensures (s.all[l].redialing && forall a :: !Redials(s, a, l)) <==> DropsRedialer(Init(conf), actions, l)
  {
    hide Inv, Run, Redials, DropsRedialer;
    InitInv(conf);
    assert forall k: nat :: k < |Init(conf).all| ==> !Init(conf).all[k].leaked;
    RunLeaks(Init(conf), actions, l);
    OneRedial(conf, actions, s, l);
  }

  lemma {:induction false} NoDropNoLeak(s: State, actions: seq<Action>, l: nat)
    requires forall i :: 0 <= i < |actions| ==> !actions[i].Drop?
    ensures !DropsRedialer(s, actions, l)
    decreases |actions|
  {
    hide Next, Redials;
    if actions != [] && Next(s, actions[0]).Some? { NoDropNoLeak(Next(s, actions[0]).value, actions[1..], l); }
  }

  /** Where no task is dropped, the flag is set exactly while one task redials. */
  lemma {:induction false} FlagMeansRedial(conf: Conf, actions: seq<Action>, s: State, l: nat)
    requires Reachable(conf, actions, s) && l < |s.all| && forall i :: 0 <= i < |actions| ==> !actions[i].Drop?
    ensures s.all[l].redialing <==> exists a :: Redials(s, a, l)
  {
    hide Run, Redials, DropsRedialer;
    NoDropNoLeak(Init(conf), actions, l);
    AbandonedWhenDropped(conf, actions, s, l);
    OneRedial(conf, actions, s, l);
  }

  /** A link's state lock is held by at most one task, and by none while `close` has it. */
  lemma {:induction false} OneLockHolder(conf: Conf, actions: seq<Action>, s: State, a: nat, b: nat)
    requires Reachable(conf, actions, s) && a < |s.tasks| && b < |s.tasks|
    requires Locks(s.tasks[a].at) && Locks(s.tasks[b].at) && s.tasks[a].link == s.tasks[b].link
    ensures a == b && s.tasks[a].link < |s.all|
    ensures !((Locking(s.phase)) && s.tasks[a].link == s.drained)
  {
    hide Run, BudgetOk, SeedsOk, LinksOk, Grows, Init, InRole;
    ReachableInv(conf, actions, s);
    assert TaskOk(s, a) && TaskOk(s, b);
    ClaimsTarget(s.tasks[a]);
  }

  // --- giving up -----------------------------------------------------------------------------------

  /** A link that has given up was discovered, never a bootstrap link, and when it gave up
      its last five dials had all failed. */
  lemma {:induction false} GivesUpRightly(conf: Conf, actions: seq<Action>, s: State, l: nat)
    requires Reachable(conf, actions, s) && l < |s.all| && s.all[l].log.gaveUp
    ensures s.all[l].origin.Discovered? && l >= |conf.seeds|
    ensures var log := s.all[l].log;
      && MAX_RESPAWN_ATTEMPTS <= log.gaveUpAt <= |log.dials|
      && forall i :: log.gaveUpAt - MAX_RESPAWN_ATTEMPTS <= i < log.gaveUpAt ==> !log.dials[i]
  {
    hide Run, BudgetOk, TasksOk, CloseOk, Trailing, Init, Counts;
    InitConf(conf);
    ReachableInv(conf, actions, s);
    assert LinkOk(s, l);
    var log := s.all[l].log;
    var before := log.dials[..log.gaveUpAt];
    TrailingFailed(before, MAX_RESPAWN_ATTEMPTS - 1);
    forall i | log.gaveUpAt - MAX_RESPAWN_ATTEMPTS <= i < log.gaveUpAt ensures !before[i] {
      TrailingFailed(before, |before| - 1 - i);
    }
  }

  lemma {:induction false} InitConf(conf: Conf)
    ensures Init(conf).conf == conf && Init(conf).drained == 0
  {
  }

  lemma {:induction false} TrailingFailed(dials: seq<bool>, k: nat)
    requires k < Trailing(dials)
    ensures k < |dials| && !dials[|dials| - 1 - k]
  {
    if k > 0 { TrailingFailed(dials[..|dials| - 1], k - 1); }
  }

  // --- closing ----------------------------------------------------------------------------------------

  /** Once `close` has returned, having been heard or not overlapped by a call, every link
      ever added has no session and is not connected, and no lifecycle will dial again; and
      if no call overlapped it, no task is live and no link is locked or claimed. */
  lemma {:induction false} CloseLeavesNothingAlive(conf: Conf, actions: seq<Action>, s: State)
    requires Reachable(conf, actions, s) && s.phase.Done? && Sealed(s)
    ensures forall l: nat :: l < |s.all| ==> Dead(s.all[l])
    ensures forall a: nat :: a < |s.tasks| && !s.tasks[a].role.Caller? ==> Idling(s.tasks[a].at)
    ensures !s.overlapped ==>
      && (forall a: nat :: a < |s.tasks| ==> Finished(s.tasks[a]))
      && (forall l: nat :: l < |s.all| ==> s.all[l].lock.Free? && s.all[l].claimant == None)
  {
    hide Run, BudgetOk, SeedsOk, Grows, Init, Counts, GaveUpRightly;
    ReachableInv(conf, actions, s);
    forall a: nat | a < |s.tasks| && !s.tasks[a].role.Caller? ensures Idling(s.tasks[a].at) { assert TaskOk(s, a); }
    if !s.overlapped {
      forall l: nat | l < |s.all| ensures s.all[l].lock.Free? && s.all[l].claimant == None { assert LinkOk(s, l); }
    }
  }

  /** And nothing comes back to life after it. */
  lemma {:induction false} ClosedStaysClosed(conf: Conf, actions: seq<Action>, s: State, more: seq<Action>,
                                             after: State)
    requires Reachable(conf, actions, s) && s.phase.Done? && Sealed(s) && Run(s, more) == Some(after)
    ensures after.phase.Done? && Sealed(after) && forall l: nat :: l < |after.all| ==> Dead(after.all[l])
  {
    hide Run, LinksOk, TasksOk, BudgetOk, SeedsOk, Quiet, Init;
    ReachableInv(conf, actions, s);
    RunKeeps(s, more);
  }

  // --- the discovery budget -----------------------------------------------------------------------------

  /** Discovered links that have not given up never exceed the budget; no discovered link
      shares a seed with an earlier one; the bootstrap seeds come first, in order. */
  lemma {:induction false} DiscoveryBudget(conf: Conf, actions: seq<Action>, s: State)
    requires Reachable(conf, actions, s)
    ensures Occupied(s.all) <= conf.maxLinks
    ensures |conf.seeds| <= |s.all|
    ensures forall l: nat :: l < |conf.seeds| ==> s.all[l].seed == conf.seeds[l] && s.all[l].origin.Bootstrap?
    ensures forall k: nat, l: nat :: k < l < |s.all| && l >= |conf.seeds| ==>
      s.all[l].origin.Discovered? && s.all[k].seed != s.all[l].seed
  {
    hide Run, LinksOk, TasksOk, CloseOk, Init, Occupied;
    InitConf(conf);
    ReachableInv(conf, actions, s);
  }

  /** Until the drain, the pool's list is every link ever added, and only grows. */
  lemma {:induction false} ListOnlyGrows(conf: Conf, actions: seq<Action>, s: State, more: seq<Action>, after: State)
    requires Reachable(conf, actions, s) && Run(s, more) == Some(after) && !Joined(after.phase)
    ensures List(s) == s.all && List(after) == after.all && |s.all| <= |after.all|
    ensures forall l: nat :: l < |s.all| ==> Heir(s.all[l], after.all[l])
  {
    hide Run, LinksOk, TasksOk, BudgetOk, SeedsOk, Quiet, Init, Heir;
    ReachableInv(conf, actions, s);
    RunKeeps(s, more);
  }
}
