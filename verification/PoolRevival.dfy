/** What can bring a link of the pool up again, and exactly which actions take the last
    chance away (src/pool.rs). */
module PoolRevival {
  import opened Wrappers
  import opened PoolLink
  import opened Pool
  import opened PoolInvariant
  import opened PoolRuns

  // --- what brings a link up -------------------------------------------------------------------

  /** A task between its call's failure and its try for the claim. */
  predicate Pursuing(p: Point) {
    p.Failed? || p.Relocked? || p.Cleared? || p.Marked? || p.Unlocked?
  }

  /** The task can still lead to a session on its link: it has yet to try for the claim, or
      holds it, has not installed, and is not about to give up. */
  predicate Brings(t: Task, link: Link) {
    || Pursuing(t.at) || t.at.Claimed? || t.at.Pushed? || t.at.PushClaimed?
    || t.at.Spawned? || t.at.Start? || t.at.Dialing? || t.at.WantLock? || t.at.Sleeping?
    || (t.at.Failing? && !ShouldGiveUp(link.origin, link.log.failures + 1))
    || (t.at.Judging? && !ShouldGiveUp(link.origin, t.counted))
  }

  ghost predicate Bringing(s: State, a: nat, l: nat) {
    a < |s.tasks| && l < |s.all| && s.tasks[a].link == l && Brings(s.tasks[a], s.all[l])
  }

  /** The link's claim is not abandoned, and it has a session or a task that can lead to
      one. */
  ghost predicate Revivable(s: State, l: nat) {
    l < |s.all| && !s.all[l].leaked && (s.all[l].session || exists a: nat :: Bringing(s, a, l))
  }

  lemma {:induction false} HasChance(s: State, l: nat)
    requires Revivable(s, l)
    ensures l < |s.all| && !s.all[l].leaked
  {
  }

  // --- what takes the last chance ------------------------------------------------------------------

  ghost predicate OnlyHope(s: State, a: nat, l: nat) {
    && Bringing(s, a, l)
    && !s.all[l].session
    && forall b: nat :: Bringing(s, b, l) ==> b == a
  }

  /** The task's next step ends what it could do for its link: it finds the claim taken,
      its dial fails once too often, or it sees the stop signal. */
  predicate GivesIn(t: Task, link: Link, stop: bool, choice: bool) {
    || ((t.at.Unlocked? || t.at.Pushed?) && link.redialing)
    || (t.at.Dialing? && !choice && ShouldGiveUp(link.origin, link.log.failures + 1))
    || (t.at.Start? && stop)
    || (t.at.Sleeping? && choice && stop)
  }

  /** The action leaves link `l` without a chance: its last task gives in or is dropped, its
      claim is abandoned, or `close` takes its session. */
  ghost predicate Loses(s: State, action: Action, l: nat) {
    && l < |s.all|
    && match action
       case Step(a, choice) => OnlyHope(s, a, l) && GivesIn(s.tasks[a], s.all[l], s.stop, choice)
       case Drop(a) => Redials(s, a, l) || OnlyHope(s, a, l)
       case CloseTake => l == s.drained && forall a: nat :: !Bringing(s, a, l)
       case _ => false
  }

  // --- one step on one link ----------------------------------------------------------------------------

  /** What a step does for its link. */
  ghost predicate Leads(t: Task, link: Link, stop: bool, choice: bool, m: Moved)
    requires Targets(t)
  {
    && m.link.leaked == link.leaked
    && (Brings(t, link) ==> t.link == Target(t))
    && (Brings(m.task, m.link) ==> m.task.link == Target(t) && (Brings(t, link) || link.session))
    && (m.link.session ==> link.session || (Brings(t, link) && !link.leaked))
    && (!Brings(t, link) && link.session ==> m.link.session)
    && (Brings(t, link) && GivesIn(t, link, stop, choice) ==>
      !Brings(m.task, m.link) && m.link.session == link.session)
    && (Brings(t, link) && !GivesIn(t, link, stop, choice) ==> m.link.session || Brings(m.task, m.link))
    && (!Brings(t, link) || link.leaked ==> m.link.log.dials == link.log.dials)
  }

  lemma {:induction false} CallerLeads(a: nat, t: Task, link: Link, stop: bool, choice: bool)
    requires Targets(t) && !LifecyclePoint(t.at) && CallerStep(a, t, link, choice).Some?
    ensures Leads(t, link, stop, choice, CallerStep(a, t, link, choice).value)
  {
  }

  lemma {:induction false} LifecycleLeads(a: nat, t: Task, link: Link, stop: bool, choice: bool)
    requires Targets(t) && LifecyclePoint(t.at) && !link.leaked && LifecycleStep(a, t, link, stop, choice).Some?
    ensures Leads(t, link, stop, choice, LifecycleStep(a, t, link, stop, choice).value)
  {
  }

  // --- one step of the pool ------------------------------------------------------------------------------

  /** A move of task `a` leaves what another task can do for any link. */
  lemma {:induction false} OtherBrings(s: State, a: nat, m: Moved, k: nat, b: nat, l: nat)
    requires TasksOk(s) && Move(s, a, m, k) && b != a
    ensures Bringing(Put(s, a, m, k), b, l) <==> Bringing(s, b, l)
  {
    hide Sound, Follows, Winds, Counts, Pursuing;
    if b < |s.tasks| {
      assert TaskOk(s, b);
      ClaimsTarget(s.tasks[b]);
    }
  }

  lemma {:induction false} StepMoves(s: State, a: nat, choice: bool) returns (k: nat, m: Moved)
    requires Inv(s) && TaskStep(s, a, choice).Some?
    ensures a < |s.tasks| && Targets(s.tasks[a]) && k == Target(s.tasks[a]) < |s.all| && Move(s, a, m, k)
    ensures Leads(s.tasks[a], s.all[k], s.stop, choice, m)
    ensures LinkStep(a, s.tasks[a], s.all[k], s.stop, choice) == Some(m)
    ensures TaskStep(s, a, choice) == Some(Put(s, a, m, k))
  {
    hide LinkStep, LifecycleStep, CallerStep, Sound, Leaves, Follows, Winds, Leads, BudgetOk, SeedsOk, CloseOk;
    SoundFor(s, a);
    var t := s.tasks[a];
    k := Target(t);
    m := LinkStep(a, t, s.all[k], s.stop, choice).value;
    StepKeeps(a, t, s.all[k], s.stop, choice);
    StepWinds(a, t, s.all[k], s.stop, choice);
    StepLeads(a, t, s.all[k], s.stop, choice);
  }

  lemma {:induction false} BringsTarget(t: Task, link: Link)
    ensures Brings(t, link) ==> Targets(t) && Target(t) == t.link && !t.at.Ended?
  {
  }

  lemma {:induction false} StepLeads(a: nat, t: Task, link: Link, stop: bool, choice: bool)
    requires Targets(t) && Sound(a, t, link) && LinkStep(a, t, link, stop, choice).Some?
    ensures Leads(t, link, stop, choice, LinkStep(a, t, link, stop, choice).value)
  {
    hide LifecycleStep, CallerStep, Leads, Counts, GaveUpRightly;
    if LifecyclePoint(t.at) {
      LifecycleLeads(a, t, link, stop, choice);
    } else {
      CallerLeads(a, t, link, stop, choice);
    }
  }

  lemma {:induction false} StepRevives(s: State, a: nat, choice: bool, l: nat)
    requires Inv(s) && TaskStep(s, a, choice).Some? && l < |s.all|
    ensures Revivable(TaskStep(s, a, choice).value, l) <==> Revivable(s, l) && !Loses(s, Step(a, choice), l)
    ensures !Revivable(s, l) ==> SamePast(s.all[l], TaskStep(s, a, choice).value.all[l])
  {
    hide Inv, TaskStep, Brings, GivesIn, Targets, Sound, Leaves, Winds;
    var k, m := StepMoves(s, a, choice);
    var after := Put(s, a, m, k);
    InvTasks(s);
    forall b: nat | b != a ensures Bringing(after, b, l) <==> Bringing(s, b, l) { OtherBrings(s, a, m, k, b, l); }
    BringsTarget(s.tasks[a], s.all[l]);
    BringsTarget(m.task, after.all[l]);
    if k == l {
      assert Bringing(s, a, l) <==> Brings(s.tasks[a], s.all[l]);
      assert Bringing(after, a, l) <==> Brings(m.task, m.link);
    } else {
      assert !Bringing(s, a, l) && !Bringing(after, a, l);
    }
  }

  lemma {:induction false} InvTasks(s: State)
    requires Inv(s)
    ensures TasksOk(s) && |s.tasks| > 0
  {
  }

  /** No dial and no session more than before. */
  ghost predicate SamePast(link: Link, after: Link) {
    after.log.dials == link.log.dials && (after.session ==> link.session)
  }

  lemma {:induction false} NeverBrings(t: Task, link: Link)
    requires
      || t.at.Ended? || t.at.Picking? || t.at.Unpolled? || t.at.Idle? || t.at.Looking? || t.at.Answered?
      || t.at.Counting? || t.at.Counted? || t.at.Peeking?
    ensures !Brings(t, link)
  {
  }

  lemma {:induction false} BringsAlike(t: Task, link: Link, after: Link)
    requires after.origin == link.origin && after.log == link.log
    ensures Brings(t, after) <==> Brings(t, link)
  {
  }

  /** Two states in which the same tasks can do the same for link `l`. */
  ghost predicate SameHope(s: State, after: State, l: nat) {
    && l < |s.all| && l < |after.all|
    && after.all[l].leaked == s.all[l].leaked
    && SamePast(s.all[l], after.all[l])
    && forall b: nat :: Bringing(after, b, l) <==> Bringing(s, b, l)
  }

  lemma {:induction false} DropRevives(s: State, a: nat, l: nat)
    requires Inv(s) && DropTask(s, a).Some? && l < |s.all|
    ensures Revivable(DropTask(s, a).value, l) <==> Revivable(s, l) && !Loses(s, Drop(a), l)
    ensures SamePast(s.all[l], DropTask(s, a).value.all[l])
  {
    hide BudgetOk, SeedsOk, CloseOk, Counts, GaveUpRightly, InRole, Brings;
    assert TaskOk(s, a);
    ClaimsTarget(s.tasks[a]);
    var after := DropTask(s, a).value;
    forall b: nat | b != a && b < |s.tasks| ensures Bringing(after, b, l) <==> Bringing(s, b, l) {
      BringsAlike(s.tasks[b], s.all[l], after.all[l]);
    }
    NeverBrings(after.tasks[a], after.all[l]);
  }

  lemma {:induction false} SpawnRevives(s: State, a: nat, l: nat)
    requires Inv(s) && SpawnLifecycle(s, a).Some? && l < |s.all|
    ensures Revivable(SpawnLifecycle(s, a).value, l) <==> Revivable(s, l)
    ensures SamePast(s.all[l], SpawnLifecycle(s, a).value.all[l])
  {
    hide Inv;
    var after, c := SpawnLifecycle(s, a).value, |s.tasks|;
    forall b: nat | b != a && b != c ensures Bringing(after, b, l) <==> Bringing(s, b, l) {}
    assert Bringing(after, c, l) <==> Bringing(s, a, l);
    assert !Bringing(after, a, l) && !Bringing(s, c, l);
  }

  /** A task that can lead to nothing goes where it still cannot. */
  lemma {:induction false} IdleMoves(s: State, a: nat, t: Task, l: nat)
    requires a < |s.tasks| && l < |s.all| && (forall link :: !Brings(s.tasks[a], link) && !Brings(t, link))
    ensures SameHope(s, s.(tasks := s.tasks[a := t]), l)
  {
    hide Brings;
  }

  lemma {:induction false} CallsHope(s: State, action: Action, l: nat)
    requires Next(s, action).Some? && l < |s.all| && (action.StartCall? || action.Return?)
    ensures SameHope(s, Next(s, action).value, l)
  {
    hide Brings, Candidates;
    var after := Next(s, action).value;
    if action.StartCall? {
      NeverBrings(after.tasks[|s.tasks|], s.all[l]);
    } else {
      var t, m := s.tasks[action.a], after.tasks[action.a];
      forall link ensures !Brings(t, link) && !Brings(m, link) {
        NeverBrings(t, link);
        NeverBrings(m, link);
      }
      IdleMoves(s, action.a, m, l);
    }
  }

  lemma {:induction false} DiscoveryHopes(s: State, action: Action, l: nat)
    requires DiscoveryStep(s, action).Some? && l < |s.all|
    ensures SameHope(s, DiscoveryStep(s, action).value, l)
  {
    hide Brings, Candidates, Occupied, SameHope;
    var t, m := s.tasks[DISCOVERY_TASK], DiscoveryMove(s, s.tasks[DISCOVERY_TASK], action).value;
    forall link ensures !Brings(t, link) && !Brings(m, link) {
      NeverBrings(t, link);
      NeverBrings(m, link);
    }
    IdleMoves(s, DISCOVERY_TASK, m, l);
  }

  lemma {:induction false} PushHopes(s: State, seed: Seed, l: nat)
    requires PushLink(s, seed).Some? && l < |s.all|
    ensures SameHope(s, PushLink(s, seed).value, l)
  {
    hide Brings;
    var after := PushLink(s, seed).value;
    NeverBrings(s.tasks[DISCOVERY_TASK], s.all[l]);
    if after.all == s.all { NeverBrings(after.tasks[DISCOVERY_TASK], s.all[l]); }
  }

  lemma {:induction false} CloseHopes(s: State, action: Action, l: nat)
    requires Inv(s) && CloseStep(s, action).Some? && l < |s.all|
    ensures SameHope(s, CloseStep(s, action).value, l)
    ensures CloseStep(s, action).value.all[l].session <==> s.all[l].session && !(action.CloseTake? && l == s.drained)
  {
    hide Inv, Brings, HasReceiver, CallUnderWay;
    var after := CloseStep(s, action).value;
    forall b: nat | b < |s.tasks| ensures Bringing(after, b, l) <==> Bringing(s, b, l) {
      BringsAlike(s.tasks[b], s.all[l], after.all[l]);
    }
  }

  /** What is left to the other actions: they move tasks that can lead to nothing. */
  lemma {:induction false} RestRevives(s: State, action: Action, l: nat)
    requires Inv(s) && Next(s, action).Some? && l < |s.all|
    requires !action.Step? && !action.Drop? && !action.Spawn?
    ensures l < |Next(s, action).value.all|
    ensures Revivable(Next(s, action).value, l) <==> Revivable(s, l) && !Loses(s, action, l)
    ensures SamePast(s.all[l], Next(s, action).value.all[l])
  {
    hide Inv, Bringing, Candidates, ReturnCall, PushLink, CloseStep, DiscoveryStep;
    if action.StartCall? || action.Return? {
      CallsHope(s, action, l);
      SessionKept(s, action, l);
    } else if action.Push? {
      PushHopes(s, action.seed, l);
      SessionKept(s, action, l);
    } else if DiscoveryAction(action) {
      DiscoveryHopes(s, action, l);
      SessionKept(s, action, l);
    } else {
      CloseHopes(s, action, l);
    }
  }

  lemma {:induction false} SessionKept(s: State, action: Action, l: nat)
    requires Next(s, action).Some? && l < |s.all|
    requires action.StartCall? || action.Return? || action.Push? || DiscoveryAction(action)
    ensures l < |Next(s, action).value.all| && Next(s, action).value.all[l] == s.all[l]
  {
    hide Candidates, Occupied, DiscoveryMove, TaskStep, DropTask, SpawnLifecycle;
  }

  /** An action leaves a link its chance of coming up exactly if it does not take the last
      one, and a link without a chance is not dialed. */
  lemma {:induction false} NextRevives(s: State, action: Action, l: nat)
    requires Inv(s) && Next(s, action).Some? && l < |s.all|
    ensures l < |Next(s, action).value.all|
    ensures Revivable(Next(s, action).value, l) <==> Revivable(s, l) && !Loses(s, action, l)
    ensures !Revivable(s, l) ==> SamePast(s.all[l], Next(s, action).value.all[l])
  {
    hide Inv, Grows, Revivable, Loses, SamePast, TaskStep, DropTask, SpawnLifecycle, ReturnCall, PushLink, CloseStep,
      DiscoveryStep, Candidates;
    NextKeeps(s, action);
    NoMoreThanGrows(s, action);
    match action {
      case Step(a, choice) => StepRevives(s, a, choice, l);
      case Drop(a) => DropRevives(s, a, l);
      case Spawn(a) =>
        SpawnRevives(s, a, l);
        NoneLost(s, action, l);
      case _ => RestRevives(s, action, l);
    }
  }

  lemma {:induction false} NoMoreThanGrows(s: State, action: Action)
    requires Next(s, action).Some? && Grows(s, Next(s, action).value)
    ensures |s.all| <= |Next(s, action).value.all|
  {
    hide Next;
  }

  lemma {:induction false} NoneLost(s: State, action: Action, l: nat)
    requires !action.Step? && !action.Drop? && !action.CloseTake?
    ensures !Loses(s, action, l)
  {
  }

  /** A link is created with a chance. */
  lemma {:induction false} NewRevives(s: State, action: Action, l: nat)
    requires Inv(s) && Next(s, action).Some? && |s.all| <= l < |Next(s, action).value.all|
    ensures Revivable(Next(s, action).value, l)
  {
    hide Inv, Candidates, TaskStep, DropTask, SpawnLifecycle, ReturnCall, CloseStep, DiscoveryStep;
    OnlyPushAdds(s, action);
    assert Bringing(Next(s, action).value, DISCOVERY_TASK, l);
  }

  lemma {:induction false} OnlyPushAdds(s: State, action: Action)
    requires Next(s, action).Some?
    ensures action.Push? || |Next(s, action).value.all| == |s.all|
  {
    hide Candidates, Occupied, DiscoveryMove, LinkStep, HasReceiver, CallUnderWay;
  }

  // --- runs --------------------------------------------------------------------------------------------

  /** The run takes the link's last chance. */
  ghost predicate LosesOnTheWay(s: State, actions: seq<Action>, l: nat)
    decreases |actions|
  {
    && actions != [] && Next(s, actions[0]).Some?
    && (Loses(s, actions[0], l) || LosesOnTheWay(Next(s, actions[0]).value, actions[1..], l))
  }

  lemma {:induction false} RunRevives(s: State, actions: seq<Action>, l: nat)
    requires Inv(s) && Run(s, actions).Some? && l < |Run(s, actions).value.all|
    ensures Revivable(Run(s, actions).value, l) <==>
      (l < |s.all| ==> Revivable(s, l)) && !LosesOnTheWay(s, actions, l)
    ensures l < |s.all| && !Revivable(s, l) ==> SamePast(s.all[l], Run(s, actions).value.all[l])
    decreases |actions|
  {
    hide Inv, Next, Grows, Revivable, Loses;
    if actions != [] {
      var mid := Next(s, actions[0]).value;
      NextKeeps(s, actions[0]);
      RunRevives(mid, actions[1..], l);
      if l < |s.all| {
        NextRevives(s, actions[0], l);
      } else {
        OutOfReach(s, actions[0], l);
        if l < |mid.all| { NewRevives(s, actions[0], l); }
      }
    }
  }

  lemma {:induction false} OutOfReach(s: State, action: Action, l: nat)
    requires l >= |s.all|
    ensures !Loses(s, action, l)
  {
  }

  lemma {:induction false} InitRevives(conf: Conf, l: nat)
    ensures l < |Init(conf).all| ==> Revivable(Init(conf), l)
  {
    if l < |Init(conf).all| { assert Bringing(Init(conf), l + 1, l); }
  }

  /** In every reachable state a link can come up exactly if the run has not taken its last
      chance. */
  lemma {:induction false} LostOnTheWay(conf: Conf, actions: seq<Action>, s: State, l: nat)
    requires Reachable(conf, actions, s) && l < |s.all|
    ensures Revivable(s, l) <==> !LosesOnTheWay(Init(conf), actions, l)
  {
    hide Inv, Run, Init, Revivable, LosesOnTheWay;
    InitInv(conf);
    InitRevives(conf, l);
    RunRevives(Init(conf), actions, l);
  }
}
