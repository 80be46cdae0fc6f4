/** Runs that take the pool into states one would not expect, and exactly which runs do
    (src/pool.rs): a claim that no task holds, a link that nobody will dial again, a session
    that a redial is about to replace. */
module PoolLimits {
  import opened Wrappers
  import opened PoolLink
  import opened Pool
  import opened PoolInvariant
  import opened PoolRuns
  import opened PoolRevival
  import opened PoolQuiesce
  import opened PoolReach

  // --- what can come up again ------------------------------------------------------------------

  /** A link without a chance never gets one, is never dialed and gets no session. */
  lemma {:induction false} LostStays(d: Drops, s: State, after: State, l: nat)
    requires Inv(s) && Reaches(d, s, after) && l < |s.all| && !Revivable(s, l)
    ensures l < |after.all| && !Revivable(after, l) && SamePast(s.all[l], after.all[l])
  {
    hide Inv, Run, Grows, Revivable, SamePast, LosesOnTheWay;
    var actions: seq<Action> :| Run(s, actions) == Some(after) && Allowed(d, actions);
    RunKeeps(s, actions);
    GrowsMore(s, after);
    RunRevives(s, actions, l);
  }

  lemma {:induction false} GrowsMore(s: State, after: State)
    requires Grows(s, after)
    ensures |s.all| <= |after.all|
  {
  }

  lemma {:induction false} Climbs(d: Drops, from: State, s: State, l: nat) returns (up: State)
    requires Inv(s) && Reaches(d, from, s) && s.phase.Open? && Revivable(s, l)
    ensures Reaches(d, from, up) && up.phase.Open? && l < |up.all| && Up(up.all[l])
    decreases TotalLeft(s.tasks)
  {
    hide Inv, Reaches, Next, Revivable, TotalLeft, Grows, Up;
    HasChance(s, l);
    if Up(s.all[l]) {
      up := s;
    } else {
      var action := LinkGoes(s, l);
      NextKeeps(s, action);
      ReachesBy(d, from, s, action);
      up := Climbs(d, from, Next(s, action).value, l);
    }
  }

  lemma {:induction false} UpRevives(s: State, l: nat)
    requires Inv(s) && l < |s.all| && Up(s.all[l])
    ensures Revivable(s, l)
  {
    hide BudgetOk, SeedsOk, CloseOk, Counts, GaveUpRightly;
    assert LinkOk(s, l);
  }

  /** In every reachable state of an open pool a link can be up again, with no task dropped
      or whatever is dropped, if and only if its claim is not abandoned and it has a session
      or a task that can lead to one. */
  lemma {:induction false} ComesUpAgain(conf: Conf, actions: seq<Action>, s: State, l: nat, d: Drops)
    requires Reachable(conf, actions, s) && s.phase.Open? && l < |s.all|
    ensures Revivable(s, l) <==>
      exists after :: Reaches(d, s, after) && after.phase.Open? && l < |after.all| && Up(after.all[l])
  {
    hide Inv, Run, Init, Grows, Reaches, Revivable, Up;
    ReachableInv(conf, actions, s);
    if Revivable(s, l) {
      ReachesItself(d, s);
      var up := Climbs(d, s, s, l);
    } else {
      forall after | Reaches(d, s, after) && l < |after.all| ensures !Up(after.all[l]) {
        LostStays(d, s, after, l);
        ReachedInv(d, s, after);
        if Up(after.all[l]) { UpRevives(after, l); }
      }
    }
  }

  // --- a link that is lost ---------------------------------------------------------------------------

  /** A link that is down, that no flag says is being redialed, that has not given up, and
      that has no chance: nobody will ever dial it again. */
  ghost predicate Forgotten(s: State, l: nat) {
    && l < |s.all|
    && !s.all[l].session && !s.all[l].redialing && !s.all[l].leaked && !s.all[l].log.gaveUp
    && !Revivable(s, l)
  }

  /** The claim's holder has installed its session. */
  predicate HasInstalled(p: Point) {
    p.Installed? || p.Dropped? || p.Stored? || p.Releasing?
  }

  /** The last failed call on a link without a session is about to find the claim held by a
      lifecycle that has done its dialing. */
  ghost predicate Overlooked(s: State, a: nat, l: nat) {
    && a < |s.tasks| && l < |s.all|
    && s.tasks[a].at.Unlocked? && s.tasks[a].link == l
    && !s.all[l].session
    && (exists c: nat :: Redials(s, c, l) && HasInstalled(s.tasks[c].at))
    && (forall b: nat :: b < |s.tasks| && Pursuing(s.tasks[b].at) && s.tasks[b].link == l ==> b == a)
  }

  /** In an open pool that drops no task, this is the only way a bootstrap link loses its
      chance. */
  lemma {:induction false} BootstrapLoses(s: State, action: Action, l: nat)
    requires Inv(s) && s.phase.Open? && Next(s, action).Some? && !action.Drop?
    requires l < |s.all| && s.all[l].origin.Bootstrap? && Revivable(s, l)
    ensures l < |Next(s, action).value.all|
    ensures !Revivable(Next(s, action).value, l) <==> action.Step? && Overlooked(s, action.a, l)
  {
    hide Inv, Next, Revivable, SamePast, Overlooked, Brings, GivesIn;
    NextRevives(s, action, l);
    OpenPool(s);
    if action.Step? { LosesOverlooked(s, action.a, action.choice, l); }
    if action.CloseTake? { NotWhileOpen(s); }
  }

  lemma {:induction false} NotWhileOpen(s: State)
    requires s.phase.Open?
    ensures Next(s, CloseTake).None?
  {
  }

  lemma {:induction false} LosesOverlooked(s: State, a: nat, choice: bool, l: nat)
    requires Inv(s) && !s.stop && l < |s.all| && s.all[l].origin.Bootstrap? && Revivable(s, l)
    ensures Loses(s, Step(a, choice), l) <==> Overlooked(s, a, l)
  {
    hide BudgetOk, SeedsOk, CloseOk, LinksOk, Revivable;
    HasChance(s, l);
    if Loses(s, Step(a, choice), l) {
      assert TaskOk(s, a);
      var c := ClaimUsed(s, l);
      assert TaskOk(s, c) && !Bringing(s, c, l);
      forall b: nat | b < |s.tasks| && Pursuing(s.tasks[b].at) && s.tasks[b].link == l ensures b == a {
        assert Bringing(s, b, l);
      }
    }
    if Overlooked(s, a, l) {
      var c: nat :| Redials(s, c, l) && HasInstalled(s.tasks[c].at);
      assert TaskOk(s, c);
      FlagOfClaim(s, l);
      forall b: nat | Bringing(s, b, l) ensures b == a { assert TaskOk(s, b); }
      assert Bringing(s, a, l);
    }
  }

  lemma {:induction false} FlagOfClaim(s: State, l: nat)
    requires Inv(s) && l < |s.all|
    ensures s.all[l].claimant.Some? ==> s.all[l].redialing
  {
    hide BudgetOk, SeedsOk, CloseOk, TasksOk, Counts, GaveUpRightly;
    assert LinkOk(s, l);
  }

  /** A call that fails after its link's flag was stored and before the claim is released
      finds the claim taken; the lifecycle that has it ends. */
  lemma {:induction false} CallLosesTheLink(d: Drops, from: State, s: State, b: nat, l: nat) returns (lost: State)
    requires Reaches(d, from, s) && b < |s.tasks| && Listed(s, l)
    requires s.tasks[b].at.Stored? && s.tasks[b].link == l
    requires s.all[l].session && s.all[l].redialing && s.all[l].lock.Free?
    ensures Reaches(d, from, lost)
    ensures lost == s.(tasks := s.tasks[b := s.tasks[b].(at := Ended)] + [NewCall(l, Picking)],
                       all := s.all[l := Released(Down(s.all[l]))], overlapped := lost.overlapped)
  {
    hide Reaches;
    var c := |s.tasks|;
    CallFails(d, from, s, l);
    var failed := CallFailed(s, l);
    CallerClears(d, from, failed, c, l);
    var cleared := Put(failed, c, Moved(NewCall(l, Unlocked), Down(s.all[l])), l);
    CallerYields(d, from, cleared, c, l);
    var yielded := Put(cleared, c, Moved(NewCall(l, Picking), Down(s.all[l])), l);
    LifecycleReleases(d, from, yielded, b, l);
    lost := Put(yielded, b, Moved(s.tasks[b].(at := Ended), Released(Down(s.all[l]))), l);
  }

  /** With no task dropped and the pool open, a bootstrap link can be forgotten. */
  lemma {:induction false} LinkCanBeForgotten(conf: Conf)
    requires conf.seeds != []
    ensures exists s :: Reaches(NoDrops, Init(conf), s) && s.phase.Open? && Forgotten(s, 0) && !s.all[0].connected
  {
    hide Reaches;
    var s := Init(conf);
    ReachesItself(NoDrops, s);
    LifecycleInstalls(NoDrops, s, s, 1, 0);
    var installed := Put(s, 1, Moved(s.tasks[1].(at := Dropped), Dialed(s.all[0])), 0);
    LifecycleStores(NoDrops, s, installed, 1, 0);
    var stored := Put(installed, 1, Moved(s.tasks[1].(at := Stored), Dialed(s.all[0]).(connected := true)), 0);
    var lost := CallLosesTheLink(NoDrops, s, stored, 1, 0);
    forall a: nat ensures !Bringing(lost, a, 0) {}
  }

  /** The pool after an earlier call, which had chosen link `l`, has failed on the session
      that lifecycle `e` installed and has not shown yet. */
  lemma {:induction false} EarlierCallFails(d: Drops, from: State, s: State, a: nat, l: nat) returns (yielded: State)
    requires Reaches(d, from, s) && a < |s.tasks| && l < |s.all|
    requires s.tasks[a] == Task(Caller(false), Picking, 0, [l], 0)
    requires s.all[l].session && s.all[l].redialing && s.all[l].lock.Free?
    ensures Reaches(d, from, yielded)
    ensures yielded == Put(s, a, Moved(NewCall(l, Picking), Down(s.all[l])), l)
  {
    hide Reaches, Put;
    var t, link := s.tasks[a], s.all[l];
    PutSame(s, a, l);
    Walks(d, from, s, a, l, Moved(t, link), true);
    assert t.(at := Holding, link := l, todo := [l][1..]) == NewCall(l, Holding) && [l][1..] == [];
    Walks(d, from, s, a, l, Moved(NewCall(l, Holding), link.(lock := Of(a))), false);
    assert link.(lock := Of(a)).(lock := Free) == link;
    var failed := Put(s, a, Moved(NewCall(l, Failed), link), l);
    PutThere(s, a, Moved(NewCall(l, Failed), link), l);
    CallerClears(d, from, failed, a, l);
    PutTwice(s, a, Moved(NewCall(l, Failed), link), Moved(NewCall(l, Unlocked), Down(link)), l);
    var cleared := Put(s, a, Moved(NewCall(l, Unlocked), Down(link)), l);
    PutThere(s, a, Moved(NewCall(l, Unlocked), Down(link)), l);
    CallerYields(d, from, cleared, a, l);
    PutTwice(s, a, Moved(NewCall(l, Unlocked), Down(link)), Moved(NewCall(l, Picking), Down(link)), l);
    yielded := Put(s, a, Moved(NewCall(l, Picking), Down(link)), l);
  }

  lemma {:induction false} PutThere(s: State, a: nat, m: Moved, l: nat)
    requires a < |s.tasks| && l < |s.all|
    ensures var after := Put(s, a, m, l);
      && |after.tasks| == |s.tasks| && |after.all| == |s.all| && after.tasks[a] == m.task && after.all[l] == m.link
  {
  }

  /** From a connected link: one call has chosen it and not locked it yet, another fails,
      claims and spawns, and the lifecycle installs a session it has not shown. */
  lemma {:induction false} RedialInstalls(d: Drops, from: State, s: State, l: nat) returns (installed: State)
    requires Reaches(d, from, s) && s.phase.Open? && !s.stop && Listed(s, l)
    requires s.all[l].session && s.all[l].lock.Free? && !s.all[l].redialing
    ensures Reaches(d, from, installed)
    ensures var n := |s.tasks|;
      var life := Task(Lifecycle, Dropped, l, [], 0);
      installed == s.(
        tasks := s.tasks + [Task(Caller(false), Picking, 0, [l], 0), NewCall(l, Picking), life],
        all := s.all[l := Dialed(Won(Down(s.all[l]), n + 2))])
  {
    hide Reaches;
    var a, b, e := |s.tasks|, |s.tasks| + 1, |s.tasks| + 2;
    CallStarts(s, l);
    ReachesBy(d, from, s, StartCall([l], false));
    var chosen := s.(tasks := s.tasks + [Task(Caller(false), Picking, 0, [l], 0)]);
    CallFails(d, from, chosen, l);
    var failed := CallFailed(chosen, l);
    CallerClears(d, from, failed, b, l);
    var cleared := Put(failed, b, Moved(NewCall(l, Unlocked), Down(s.all[l])), l);
    CallerSpawns(d, from, cleared, b, l);
    var spawned := Spawning(cleared, b, l);
    LifecycleInstalls(d, from, spawned, e, l);
    installed := Put(spawned, e, Moved(Task(Lifecycle, Dropped, l, [], 0), Dialed(spawned.all[l])), l);
  }

  /** And a forgotten link can be shown as connected: its last session failed before the
      lifecycle stored the flag. */
  lemma {:induction false} ForgottenLinkCanLookUp(conf: Conf)
    requires conf.seeds != []
    ensures exists s :: Reaches(NoDrops, Init(conf), s) && s.phase.Open? && Forgotten(s, 0) && s.all[0].connected
  {
    hide Reaches;
    var from, first := Init(conf), FirstConnected(conf);
    SeedConnects(NoDrops, conf);
    var installed := RedialInstalls(NoDrops, from, first, 0);
    var a, e, life := |first.tasks|, |first.tasks| + 2, Task(Lifecycle, Dropped, 0, [], 0);
    var yielded := EarlierCallFails(NoDrops, from, installed, a, 0);
    LifecycleStores(NoDrops, from, yielded, e, 0);
    var shown := yielded.all[0].(connected := true);
    var stored := Put(yielded, e, Moved(life.(at := Stored), shown), 0);
    LifecycleReleases(NoDrops, from, stored, e, 0);
    var lost := Put(stored, e, Moved(life.(at := Ended), Released(shown)), 0);
    forall k: nat ensures !Bringing(lost, k, 0) {}
  }

  // --- a claim without a task --------------------------------------------------------------------------

  /** Flagged as redialing, down, and nobody redials it. */
  ghost predicate Abandoned(s: State, l: nat) {
    l < |s.all| && s.all[l].leaked && s.all[l].redialing && Dead(s.all[l])
  }

  /** A call that fails, wins the claim and is dropped by its owner before it spawns. */
  lemma {:induction false} ClaimCanLeak(conf: Conf)
    requires conf.seeds != []
    ensures exists s :: Reaches(AnyDrops, Init(conf), s) && s.phase.Open? && Abandoned(s, 0)
  {
    hide Reaches;
    SeedConnects(AnyDrops, conf);
    var from, s, c := Init(conf), FirstConnected(conf), |FirstConnected(conf).tasks|;
    CallFails(AnyDrops, from, s, 0);
    var failed := CallFailed(s, 0);
    CallerClears(AnyDrops, from, failed, c, 0);
    var cleared := Put(failed, c, Moved(NewCall(0, Unlocked), Down(s.all[0])), 0);
    CallerWins(AnyDrops, from, cleared, c, 0);
    var claimed := Put(cleared, c, Moved(NewCall(0, Claimed), Won(cleared.all[0], c)), 0);
    NextIsDrop(claimed, c);
    ReachesBy(AnyDrops, from, claimed, Drop(c));
    assert Abandoned(DropTask(claimed, c).value, 0);
  }

  /** Nobody ever redials an abandoned claim: the flag stays and no dial is added. */
  lemma {:induction false} AbandonedStays(d: Drops, s: State, after: State, l: nat)
    requires Inv(s) && Reaches(d, s, after) && l < |s.all| && s.all[l].leaked
    ensures l < |after.all| && after.all[l].leaked && after.all[l].redialing
    ensures after.all[l].log.dials == s.all[l].log.dials
    ensures forall a :: !Redials(after, a, l)
  {
    hide Inv, Run, Grows, DropsRedialer, Brings;
    var actions: seq<Action> :| Run(s, actions) == Some(after) && Allowed(d, actions);
    RunKeeps(s, actions);
    GrowsMore(s, after);
    RunLeaks(s, actions, l);
    LostStays(d, s, after, l);
    LeakedUnclaimed(after, l);
  }

  lemma {:induction false} LeakedUnclaimed(s: State, l: nat)
    requires Inv(s) && l < |s.all| && s.all[l].leaked
    ensures s.all[l].redialing && forall a :: !Redials(s, a, l)
  {
    hide BudgetOk, SeedsOk, CloseOk, Counts, GaveUpRightly;
    assert LinkOk(s, l);
    forall a: nat ensures Redials(s, a, l) ==> s.all[l].claimant == Some(a) {
      if a < |s.tasks| { assert TaskOk(s, a); }
    }
  }

  // --- a redial over a live session ------------------------------------------------------------------------

  /** The claim's holder has yet to install a session. */
  predicate BeforeInstall(p: Point) {
    Claims(p) && !p.Installed? && !p.Dropped? && !p.Stored? && !p.Releasing?
  }

  /** The link has a session, and a redial that would replace it. */
  ghost predicate Overtaken(s: State, l: nat) {
    l < |s.all| && s.all[l].session && exists a: nat :: Redials(s, a, l) && BeforeInstall(s.tasks[a].at)
  }

  /** A task wins the claim of a link whose session is set. */
  ghost predicate WinsOver(s: State, action: Action, l: nat) {
    && action.Step? && action.a < |s.tasks| && l < |s.all|
    && (s.tasks[action.a].at.Unlocked? || s.tasks[action.a].at.Pushed?)
    && s.tasks[action.a].link == l
    && s.all[l].session && !s.all[l].redialing
  }

  /** What a step does towards overtaking its link's session. */
  ghost predicate Hastens(t: Task, link: Link, m: Moved) {
    var wins := (t.at.Unlocked? || t.at.Pushed?) && !link.redialing;
    && (m.link.session && !link.session ==> Claims(t.at) && !BeforeInstall(m.task.at))
    && (BeforeInstall(m.task.at) ==> BeforeInstall(t.at) || wins)
    && (wins ==> BeforeInstall(m.task.at) && m.task.link == t.link && m.link.session == link.session)
  }

  lemma {:induction false} CallerHastens(a: nat, t: Task, link: Link, choice: bool)
    requires Targets(t) && !LifecyclePoint(t.at) && CallerStep(a, t, link, choice).Some?
    ensures Hastens(t, link, CallerStep(a, t, link, choice).value)
  {
  }

  lemma {:induction false} LifecycleHastens(a: nat, t: Task, link: Link, stop: bool, choice: bool)
    requires LifecyclePoint(t.at) && LifecycleStep(a, t, link, stop, choice).Some?
    ensures Hastens(t, link, LifecycleStep(a, t, link, stop, choice).value)
  {
  }

  lemma {:induction false} StepHastens(a: nat, t: Task, link: Link, stop: bool, choice: bool)
    requires Targets(t) && LinkStep(a, t, link, stop, choice).Some?
    ensures Hastens(t, link, LinkStep(a, t, link, stop, choice).value)
  {
    hide Hastens, CallerStep, LifecycleStep;
    if LifecyclePoint(t.at) {
      LifecycleHastens(a, t, link, stop, choice);
    } else {
      CallerHastens(a, t, link, choice);
    }
  }

  lemma {:induction false} StepOvertakes(s: State, a: nat, choice: bool, l: nat)
    requires Inv(s) && TaskStep(s, a, choice).Some?
    ensures Overtaken(TaskStep(s, a, choice).value, l) ==> Overtaken(s, l) || WinsOver(s, Step(a, choice), l)
    ensures WinsOver(s, Step(a, choice), l) ==> Overtaken(TaskStep(s, a, choice).value, l)
  {
    hide LinksOk, BudgetOk, SeedsOk, CloseOk, LinkStep, Leads, Winds, Sound, BeforeInstall, TaskStep, Brings;
    var k, m := StepMoves(s, a, choice);
    var t, after := s.tasks[a], Put(s, a, m, k);
    StepHastens(a, t, s.all[k], s.stop, choice);
    assert TaskOk(s, a);
    ClaimsTarget(t);
    ClaimsTarget(m.task);
    if b: nat :| l < |after.all| && after.all[l].session && Redials(after, b, l) && BeforeInstall(after.tasks[b].at) {
      ClaimFirst(after.tasks[b].at);
      ClaimFirst(t.at);
      if b != a { assert Redials(s, b, l) && TaskOk(s, b); }
    }
    if WinsOver(s, Step(a, choice), l) {
      ClaimFirst(m.task.at);
      assert Redials(after, a, l);
    }
  }

  lemma {:induction false} ClaimFirst(p: Point)
    ensures BeforeInstall(p) ==> Claims(p)
  {
  }

  lemma {:induction false} DropOvertakes(s: State, a: nat, l: nat)
    requires DropTask(s, a).Some?
    ensures Overtaken(DropTask(s, a).value, l) ==> Overtaken(s, l)
  {
    hide Targets;
    var after := DropTask(s, a).value;
    if b: nat :| Redials(after, b, l) && BeforeInstall(after.tasks[b].at) { assert b != a && Redials(s, b, l); }
  }

  lemma {:induction false} SpawnOvertakes(s: State, a: nat, l: nat)
    requires SpawnLifecycle(s, a).Some?
    ensures Overtaken(SpawnLifecycle(s, a).value, l) ==> Overtaken(s, l)
  {
    var after := SpawnLifecycle(s, a).value;
    if b: nat :| Redials(after, b, l) && BeforeInstall(after.tasks[b].at) {
      assert Redials(s, if b == |s.tasks| then a else b, l);
    }
  }

  lemma {:induction false} RetaskOvertakes(s: State, a: nat, t: Task, l: nat)
    requires a < |s.tasks| && !Claims(t.at)
    ensures Overtaken(s.(tasks := s.tasks[a := t]), l) ==> Overtaken(s, l)
  {
    hide Claims, BeforeInstall;
    var after := s.(tasks := s.tasks[a := t]);
    if b: nat :| Redials(after, b, l) && BeforeInstall(after.tasks[b].at) { assert b != a && Redials(s, b, l); }
  }

  lemma {:induction false} CallsOvertake(s: State, action: Action, l: nat)
    requires Next(s, action).Some? && (action.StartCall? || action.Return? || action.Push?)
    ensures Overtaken(Next(s, action).value, l) ==> Overtaken(s, l)
  {
    hide Candidates, BeforeInstall;
    var after := Next(s, action).value;
    if action.Return? {
      RetaskOvertakes(s, action.a, after.tasks[action.a], l);
    } else if b: nat :| Redials(after, b, l) && BeforeInstall(after.tasks[b].at) && l < |after.all| {
      if l < |s.all| { assert Redials(s, b, l); }
    }
  }

  lemma {:induction false} DiscoveryOvertakes(s: State, action: Action, l: nat)
    requires DiscoveryStep(s, action).Some?
    ensures Overtaken(DiscoveryStep(s, action).value, l) ==> Overtaken(s, l)
  {
    hide Candidates, Occupied, Overtaken;
    RetaskOvertakes(s, DISCOVERY_TASK, DiscoveryMove(s, s.tasks[DISCOVERY_TASK], action).value, l);
  }

  lemma {:induction false} CloseOvertakes(s: State, action: Action, l: nat)
    requires CloseStep(s, action).Some?
    ensures Overtaken(CloseStep(s, action).value, l) ==> Overtaken(s, l)
  {
    hide HasReceiver, CallUnderWay;
    var after := CloseStep(s, action).value;
    if b: nat :| Redials(after, b, l) && BeforeInstall(after.tasks[b].at) { assert Redials(s, b, l); }
  }

  lemma {:induction false} RestOvertakes(s: State, action: Action, l: nat)
    requires Next(s, action).Some? && !action.Step?
    ensures Overtaken(Next(s, action).value, l) ==> Overtaken(s, l)
  {
    hide Overtaken, DropTask, SpawnLifecycle, ReturnCall, PushLink, DiscoveryStep, CloseStep, Candidates;
    if action.Drop? {
      DropOvertakes(s, action.a, l);
    } else if action.Spawn? {
      SpawnOvertakes(s, action.a, l);
    } else if action.StartCall? || action.Return? || action.Push? {
      CallsOvertake(s, action, l);
    } else if DiscoveryAction(action) {
      DiscoveryOvertakes(s, action, l);
    } else {
      CloseOvertakes(s, action, l);
    }
  }

  // --- runs in which one is ---------------------------------------------------------------------------------

  ghost predicate SometimeOvertaken(s: State, actions: seq<Action>, l: nat)
    decreases |actions|
  {
    Overtaken(s, l) ||
    (actions != [] && Next(s, actions[0]).Some? && SometimeOvertaken(Next(s, actions[0]).value, actions[1..], l))
  }

  ghost predicate SometimeWonOver(s: State, actions: seq<Action>, l: nat)
    decreases |actions|
  {
    && actions != [] && Next(s, actions[0]).Some?
    && (WinsOver(s, actions[0], l) || SometimeWonOver(Next(s, actions[0]).value, actions[1..], l))
  }

  lemma {:induction false} RunOvertakes(s: State, actions: seq<Action>, l: nat)
    requires Inv(s) && Run(s, actions).Some?
    ensures SometimeOvertaken(s, actions, l) <==> Overtaken(s, l) || SometimeWonOver(s, actions, l)
    decreases |actions|
  {
    hide Inv, Next, Grows, Overtaken, WinsOver;
    if actions != [] {
      NextKeeps(s, actions[0]);
      NextOvertakes(s, actions[0], l);
      RunOvertakes(Next(s, actions[0]).value, actions[1..], l);
    }
  }

  lemma {:induction false} NextOvertakes(s: State, action: Action, l: nat)
    requires Inv(s) && Next(s, action).Some?
    ensures Overtaken(Next(s, action).value, l) ==> Overtaken(s, l) || WinsOver(s, action, l)
    ensures WinsOver(s, action, l) ==> Overtaken(Next(s, action).value, l)
  {
    hide Inv, Overtaken, TaskStep, DropTask, SpawnLifecycle, ReturnCall, PushLink, DiscoveryStep, CloseStep, Candidates;
    if action.Step? {
      StepOvertakes(s, action.a, action.choice, l);
    } else {
      RestOvertakes(s, action, l);
    }
  }

  /** A redial is at some time about to replace a session that is set if and only if the
      claim is at some time won while one is set. */
  lemma {:induction false} OvertakenWhenWonOver(conf: Conf, actions: seq<Action>, l: nat)
    requires Run(Init(conf), actions).Some?
    ensures SometimeOvertaken(Init(conf), actions, l) <==> SometimeWonOver(Init(conf), actions, l)
  {
    hide Inv, Run;
    InitInv(conf);
    RunOvertakes(Init(conf), actions, l);
    assert !Overtaken(Init(conf), l);
  }

  /** With no task dropped and the pool open: two calls fail on one session, the second
      tries for the claim after the first one's redial, and a lifecycle dials while the link
      has a session that calls see. */
  lemma {:induction false} SessionCanBeOvertaken(conf: Conf)
    requires conf.seeds != []
    ensures exists s, b: nat ::
      && Reaches(NoDrops, Init(conf), s)
      && s.phase.Open?
      && Overtaken(s, 0) && s.all[0].connected && s.all[0].lock.Free?
      && Redials(s, b, 0) && s.tasks[b].at.Dialing?
  {
    hide Reaches;
    var from, first := Init(conf), FirstConnected(conf);
    SeedConnects(NoDrops, conf);
    var a, b, e, g := |first.tasks|, |first.tasks| + 1, |first.tasks| + 2, |first.tasks| + 3;
    CallFails(NoDrops, from, first, 0);
    CallFails(NoDrops, from, CallFailed(first, 0), 0);
    var both := CallFailed(CallFailed(first, 0), 0);
    CallerClears(NoDrops, from, both, a, 0);
    var one := Put(both, a, Moved(NewCall(0, Unlocked), Down(both.all[0])), 0);
    CallerClears(NoDrops, from, one, b, 0);
    var two := Put(one, b, Moved(NewCall(0, Unlocked), Down(one.all[0])), 0);
    CallerSpawns(NoDrops, from, two, a, 0);
    var spawned := Spawning(two, a, 0);
    LifecycleConnects(NoDrops, from, spawned, e, 0);
    var again := Released(Dialed(spawned.all[0]).(connected := true));
    var redialed := Put(spawned, e, Moved(Task(Lifecycle, Ended, 0, [], 0), again), 0);
    CallerSpawns(NoDrops, from, redialed, b, 0);
    var over := Spawning(redialed, b, 0);
    LifecycleDials(NoDrops, from, over, g, 0);
    var dialing := Put(over, g, Moved(Task(Lifecycle, Dialing, 0, [], 0), over.all[0]), 0);
    assert Redials(dialing, g, 0);
  }
}
