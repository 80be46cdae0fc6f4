/** When `close` is final: a link that can come up does so after a `close` nobody hears, and
    no other does (src/pool.rs). */
module PoolClose {
  import opened Wrappers
  import opened PoolLink
  import opened Pool
  import opened PoolInvariant
  import opened PoolRuns
  import opened PoolRevival
  import opened PoolQuiesce
  import opened PoolReach

  // --- draining --------------------------------------------------------------------------------

  function DrainedFrom(all: seq<Link>, k: nat): (r: seq<Link>)
    ensures |r| == |all|
    ensures forall i :: 0 <= i < |r| ==> r[i] == if i < k then all[i] else all[i].(session := false, connected := false)
  {
    seq(|all|, i requires 0 <= i < |all| => if i < k then all[i] else all[i].(session := false, connected := false))
  }

  function AfterDrain(s: State): State {
    s.(phase := Done, drained := |s.all|, all := DrainedFrom(s.all, s.drained))
  }

  lemma {:induction false} CloseDrains(from: State, s: State)
    requires Reaches(AnyDrops, from, s) && s.phase.Draining? && s.drained <= |s.all|
    requires forall l: nat :: s.drained <= l < |s.all| ==> s.all[l].lock.Free?
    ensures Reaches(AnyDrops, from, AfterDrain(s))
    decreases |s.all| - s.drained
  {
    hide Reaches;
    if s.drained == |s.all| {
      NextIsClose(s, CloseFinish);
      ReachesBy(AnyDrops, from, s, CloseFinish);
      assert DrainedFrom(s.all, s.drained) == s.all;
    } else {
      var next := s.(drained := s.drained + 1,
                     all := s.all[s.drained := s.all[s.drained].(session := false, connected := false)]);
      DrainsOne(from, s, next);
      CloseDrains(from, next);
      assert DrainedFrom(next.all, next.drained) == DrainedFrom(s.all, s.drained);
    }
  }

  lemma {:induction false} DrainsOne(from: State, s: State, next: State)
    requires Reaches(AnyDrops, from, s) && s.phase.Draining? && s.drained < |s.all| && s.all[s.drained].lock.Free?
    requires next == s.(drained := s.drained + 1,
                        all := s.all[s.drained := s.all[s.drained].(session := false, connected := false)])
    ensures Reaches(AnyDrops, from, next)
  {
    hide Reaches, Next;
    var k, link := s.drained, s.all[s.drained];
    var taken := link.(lock := ByClose, session := false);
    var s2 := s.(phase := DrainTaken, all := s.all[k := taken]);
    DrainTakes(from, s, s2);
    var stored := taken.(connected := false);
    var s3 := s.(phase := DrainStored, all := s.all[k := stored]);
    NextIsClose(s2, CloseStore);
    assert s2.all[k := stored] == s3.all;
    ReachesBy(AnyDrops, from, s2, CloseStore);
    NextIsClose(s3, CloseUnlock);
    assert stored.(lock := Free) == next.all[k];
    assert s3.all[k := next.all[k]] == next.all;
    ReachesBy(AnyDrops, from, s3, CloseUnlock);
  }

  /** `close` locks the link and takes its session. */
  lemma {:induction false} DrainTakes(from: State, s: State, taken: State)
    requires Reaches(AnyDrops, from, s) && s.phase.Draining? && s.drained < |s.all| && s.all[s.drained].lock.Free?
    requires taken == s.(phase := DrainTaken,
                         all := s.all[s.drained := s.all[s.drained].(lock := ByClose, session := false)])
    ensures Reaches(AnyDrops, from, taken)
  {
    hide Reaches, Next;
    var k, link := s.drained, s.all[s.drained];
    var locked := s.(phase := DrainLocked, all := s.all[k := link.(lock := ByClose)]);
    NextIsClose(s, CloseLock);
    ReachesBy(AnyDrops, from, s, CloseLock);
    NextIsClose(locked, CloseTake);
    assert locked.all[k := taken.all[k]] == taken.all;
    ReachesBy(AnyDrops, from, locked, CloseTake);
  }

  lemma {:induction false} NextIsClose(s: State, action: Action)
    requires !action.Step? && !action.Drop? && !action.Spawn? && !action.StartCall? && !action.Return? && !action.Push?
    requires !DiscoveryAction(action)
    ensures Next(s, action) == CloseStep(s, action)
  {
    hide CloseStep;
  }

  // --- when closing is final -------------------------------------------------------------------

  /** However the run goes on once `close` is called now, every link is dead when it has
      returned, and from then on. */
  ghost predicate Final(s: State) {
    forall after :: Reaches(AnyDrops, Signalled(s), after) && after.phase.Done? ==>
      forall l: nat :: l < |after.all| ==> Dead(after.all[l])
  }

  /** All tasks can run to their end, and the link can still come back. */
  lemma {:induction false} Quiesces(from: State, s: State, l: nat) returns (rest: State)
    requires Reaches(AnyDrops, from, s) && Ready(s, l)
    ensures Reaches(AnyDrops, from, rest) && Ready(rest, l) && AllEnded(rest)
    decreases TotalLeft(s.tasks)
  {
    hide Reaches, Next, Inv, Revivable, AllEnded, TotalLeft;
    if AllEnded(s) {
      rest := s;
    } else {
      var action := SomethingGoes(s, l);
      StillReady(s, action, l);
      ReachesBy(AnyDrops, from, s, action);
      rest := Quiesces(from, Next(s, action).value, l);
    }
  }

  /** A link that can come up when nobody hears the signal does come up, in a run in which a
      call is under way during `close` and fails once it has returned. */
  lemma {:induction false} UnheardCloseLeavesALink(s: State, l: nat)
    requires Inv(s) && s.phase.Open? && !HasReceiver(s) && Revivable(s, l)
    ensures exists after ::
      && Reaches(AnyDrops, Signalled(s), after)
      && after.phase.Done?
      && l < |after.all| && after.all[l].session && after.all[l].connected
  {
    hide Reaches, Inv, Quiet, HasReceiver, Revivable, AllEnded;
    SignalReady(s, l);
    var from := Signalled(s);
    ReachesItself(AnyDrops, from);
    var rest := Quiesces(from, from, l);
    EndedUp(rest, l);
    RestTasks(rest, l);
    CallFailsWhileClosing(from, rest, l);
    var failed := CallFailed(WithoutDiscovery(rest).(phase := Draining), l).(overlapped := true);
    CloseDrains(from, failed);
    var done, c := AfterDrain(failed), |rest.tasks|;
    CallerClears(AnyDrops, from, done, c, l);
    var cleared := Put(done, c, Moved(done.tasks[c].(at := Unlocked), Down(done.all[l])), l);
    CallerSpawns(AnyDrops, from, cleared, c, l);
    var spawned, b := Spawning(cleared, c, l), |cleared.tasks|;
    LifecycleConnects(AnyDrops, from, spawned, b, l);
  }

  lemma {:induction false} SignalReady(s: State, l: nat)
    requires Inv(s) && s.phase.Open? && !HasReceiver(s) && Revivable(s, l)
    ensures Ready(Signalled(s), l)
  {
    hide LinksOk, BudgetOk, SeedsOk, Quiet, Brings, Targets, Claims, Locks;
    CloseKeeps(s, CloseStop);
    assert TaskOk(s, DISCOVERY_TASK);
    assert !Subscribed(s.tasks[DISCOVERY_TASK]);
    var after := Signalled(s);
    if !s.all[l].session {
      var a: nat :| Bringing(s, a, l);
      assert Bringing(after, a, l);
    }
  }

  lemma {:induction false} RestTasks(s: State, l: nat)
    requires Ready(s, l) && AllEnded(s)
    ensures |s.tasks| > 0 && s.drained == 0 && l < |s.all|
    ensures forall a: nat :: a < |s.tasks| ==> s.tasks[a].at.Ended? || (a == DISCOVERY_TASK && s.tasks[a].at.Unpolled?)
  {
    hide LinksOk, TasksOk, BudgetOk, SeedsOk, Quiet, Brings;
    InvHasTask(s);
  }

  lemma {:induction false} InvHasTask(s: State)
    requires Inv(s)
    ensures |s.tasks| > 0
  {
  }

  function WithoutDiscovery(s: State): State
    requires |s.tasks| > 0
  {
    s.(tasks := s.tasks[DISCOVERY_TASK := s.tasks[DISCOVERY_TASK].(at := Ended)])
  }

  /** `close` joins the background tasks, and discovery's before it is ever polled, while
      callers go on. */
  lemma {:induction false} CloseJoins(from: State, s: State)
    requires Reaches(AnyDrops, from, s) && s.phase.Stopping? && |s.tasks| > 0
    requires s.tasks[DISCOVERY_TASK].at.Ended? || s.tasks[DISCOVERY_TASK].at.Unpolled?
    requires forall a :: DISCOVERY_TASK < a < |s.tasks| && !s.tasks[a].role.Caller? ==> s.tasks[a].at.Ended?
    ensures Reaches(AnyDrops, from, WithoutDiscovery(s).(phase := Draining))
  {
    hide Reaches;
    NextIsClose(s, CloseTakeTasks);
    ReachesBy(AnyDrops, from, s, CloseTakeTasks);
    var shutting := s.(phase := Shutting);
    if s.tasks[DISCOVERY_TASK].at.Unpolled? {
      NextIsDrop(shutting, DISCOVERY_TASK);
      ReachesBy(AnyDrops, from, shutting, Drop(DISCOVERY_TASK));
    } else {
      assert WithoutDiscovery(shutting).tasks == s.tasks;
    }
    NextIsClose(WithoutDiscovery(shutting), CloseJoined);
    ReachesBy(AnyDrops, from, WithoutDiscovery(shutting), CloseJoined);
  }

  /** The run up to the drain: the call holds the session while `close` joins the tasks,
      and then fails. */
  lemma {:induction false} CallFailsWhileClosing(from: State, s: State, l: nat)
    requires Reaches(AnyDrops, from, s) && s.phase.Stopping? && s.drained == 0 && |s.tasks| > 0
    requires l < |s.all| && s.all[l].session && s.all[l].lock.Free?
    requires forall a: nat :: a < |s.tasks| ==> s.tasks[a].at.Ended? || (a == DISCOVERY_TASK && s.tasks[a].at.Unpolled?)
    ensures Reaches(AnyDrops, from, CallFailed(WithoutDiscovery(s).(phase := Draining), l).(overlapped := true))
  {
    hide Reaches;
    var c := |s.tasks|;
    CallHolds(AnyDrops, from, s, l);
    var holding := WithCall(s, l);
    CloseJoins(from, holding);
    var joined := WithoutDiscovery(holding).(phase := Draining);
    var m := Moved(joined.tasks[c], joined.all[l]);
    assert Put(joined, c, m, l) == joined;
    Walks(AnyDrops, from, joined, c, l, m, false);
    assert m.link.(lock := Free) == s.all[l];
    assert Put(joined, c, Moved(NewCall(l, Failed), s.all[l]), l)
      == CallFailed(WithoutDiscovery(s).(phase := Draining), l).(overlapped := true);
  }

  // --- nothing to bring back -----------------------------------------------------------------------

  /** Discovery has no rows and cannot get any without a session. */
  predicate Searching(p: Point) {
    p.Unpolled? || p.Idle? || p.Picking? || p.Holding? || p.Looking? || p.Inspecting?
  }

  /** Callers, lifecycles about to end, and discovery without rows. */
  predicate Resting(t: Task) {
    t.at.Ended? || t.role.Caller? || (t.role.Lifecycle? && t.at.Releasing?) || (t.role.Discovery? && Searching(t.at))
  }

  /** Discovery runs, or is yet to be polled and not going to end at once. */
  predicate Seeks(s: State) {
    |s.tasks| > 0 && !s.tasks[DISCOVERY_TASK].at.Ended? && !(s.tasks[DISCOVERY_TASK].at.Unpolled? && s.conf.pinned)
  }

  /** No link can come up, and discovery can find none. */
  ghost predicate Barren(s: State) {
    && !s.phase.Open?
    && (forall l: nat :: !Revivable(s, l))
    && (forall a: nat :: a < |s.tasks| ==> Resting(s.tasks[a]))
    && (Seeks(s) ==> forall l: nat :: l < |s.all| ==> !s.all[l].session)
    && (forall l: nat :: l < s.drained <= |s.all| ==> Dead(s.all[l]))
    && (s.phase.DrainStored? && s.drained < |s.all| ==> Dead(s.all[s.drained]))
  }

  /** What an action does where only resting tasks are. */
  ghost predicate Rests(s: State, after: State) {
    && |after.all| == |s.all|
    && (forall a: nat :: a < |after.tasks| ==> Resting(after.tasks[a]))
    && (Seeks(after) ==> Seeks(s))
    && (forall l: nat :: l < |s.all| && after.all[l].connected ==> s.all[l].connected)
  }

  lemma {:induction false} RestingStep(a: nat, t: Task, link: Link, stop: bool, choice: bool)
    requires Targets(t) && InRole(t) && Resting(t) && (t.role.Discovery? ==> !link.session)
    requires LinkStep(a, t, link, stop, choice).Some?
    ensures var m := LinkStep(a, t, link, stop, choice).value;
      Resting(m.task) && m.task.role == t.role && (m.link.connected ==> link.connected)
  {
  }

  lemma {:induction false} StepRests(s: State, a: nat, choice: bool)
    requires Inv(s) && Barren(s) && TaskStep(s, a, choice).Some?
    ensures Rests(s, TaskStep(s, a, choice).value)
  {
    hide LinksOk, BudgetOk, SeedsOk, CloseOk, LinkStep, Dead, Revivable, Claims, Locks;
    assert TaskOk(s, a);
    RestingStep(a, s.tasks[a], s.all[Target(s.tasks[a])], s.stop, choice);
  }

  lemma {:induction false} DropRests(s: State, a: nat)
    requires Inv(s) && Barren(s) && DropTask(s, a).Some?
    ensures Rests(s, DropTask(s, a).value)
  {
    hide Inv, Dead, Revivable, Targets, Claims, Locks;
  }

  /** A claim whose lifecycle has yet to start gives its link a chance. */
  lemma {:induction false} ClaimRevives(s: State, a: nat)
    requires Inv(s) && a < |s.tasks|
    requires s.tasks[a].at.Claimed? || s.tasks[a].at.PushClaimed? || s.tasks[a].at.Spawned?
    ensures Revivable(s, s.tasks[a].link)
  {
    hide BudgetOk, SeedsOk, CloseOk, Counts, GaveUpRightly;
    assert TaskOk(s, a) && LinkOk(s, s.tasks[a].link);
    assert Bringing(s, a, s.tasks[a].link);
  }

  lemma {:induction false} NothingToSpawn(s: State, a: nat)
    requires Inv(s) && Barren(s)
    ensures SpawnLifecycle(s, a) == None
  {
    hide Inv, Revivable, Dead, Resting, Seeks;
    if SpawnLifecycle(s, a).Some? { ClaimRevives(s, a); }
  }

  lemma {:induction false} CloseRests(s: State, action: Action)
    requires Inv(s) && Barren(s) && CloseStep(s, action).Some?
    ensures var after := CloseStep(s, action).value;
      && Rests(s, after)
      && !after.phase.Open?
      && (forall l: nat :: l < after.drained <= |after.all| ==> Dead(after.all[l]))
      && (after.phase.DrainStored? && after.drained < |after.all| ==> Dead(after.all[after.drained]))
  {
    hide LinksOk, BudgetOk, SeedsOk, TasksOk, Quiet, Shut, HasReceiver, Revivable, Resting;
  }

  lemma {:induction false} OthersRest(s: State, action: Action)
    requires Inv(s) && Barren(s) && Next(s, action).Some?
    requires action.StartCall? || action.Return? || action.Push? || DiscoveryAction(action)
    ensures Rests(s, Next(s, action).value)
  {
    hide LinksOk, BudgetOk, SeedsOk, CloseOk, TaskStep, DropTask, CloseStep, Occupied, Candidates, Revivable, Dead;
    assert TaskOk(s, DISCOVERY_TASK);
  }

  /** Only `close` moves its own phase. */
  lemma {:induction false} PhaseKept(s: State, action: Action)
    requires Next(s, action).Some?
    requires
      action.Step? || action.Drop? || action.StartCall? || action.Return? || action.Push? || DiscoveryAction(action)
    ensures Next(s, action).value.phase == s.phase && Next(s, action).value.drained == s.drained
  {
    hide LinkStep, Candidates, Occupied, DiscoveryMove;
  }

  lemma {:induction false} BarrenNext(s: State, action: Action)
    requires Inv(s) && Barren(s) && Next(s, action).Some?
    ensures Barren(Next(s, action).value)
  {
    hide Inv, Next, Revivable, Resting, Seeks, Loses;
    var after := Next(s, action).value;
    NextRests(s, action);
    forall l: nat ensures !Revivable(after, l) && (l < |s.all| ==> SamePast(s.all[l], after.all[l])) {
      if l < |s.all| { NextRevives(s, action, l); } else { NoSuchLink(after, l); }
    }
  }

  lemma {:induction false} NoSuchLink(s: State, l: nat)
    requires l >= |s.all|
    ensures !Revivable(s, l)
  {
  }

  lemma {:induction false} NextRests(s: State, action: Action)
    requires Inv(s) && Barren(s) && Next(s, action).Some?
    ensures var after := Next(s, action).value;
      && Rests(s, after)
      && !after.phase.Open?
      && ((after.phase == s.phase && after.drained == s.drained) ||
        (&& (forall l: nat :: l < after.drained <= |after.all| ==> Dead(after.all[l]))
         && (after.phase.DrainStored? && after.drained < |after.all| ==> Dead(after.all[after.drained]))))
  {
    hide Inv, Rests, TaskStep, DropTask, SpawnLifecycle, ReturnCall, PushLink, CloseStep, DiscoveryStep, Candidates;
    if action.Step? {
      StepRests(s, action.a, action.choice);
      PhaseKept(s, action);
    } else if action.Drop? {
      DropRests(s, action.a);
      PhaseKept(s, action);
    } else if action.Spawn? {
      NothingToSpawn(s, action.a);
      assert false;
    } else if action.StartCall? || action.Return? || action.Push? || DiscoveryAction(action) {
      OthersRest(s, action);
      PhaseKept(s, action);
    } else {
      CloseRests(s, action);
    }
  }

  lemma {:induction false} BarrenRun(s: State, actions: seq<Action>)
    requires Inv(s) && Barren(s) && Run(s, actions).Some?
    ensures Barren(Run(s, actions).value)
    decreases |actions|
  {
    hide Inv, Barren, Next, Grows;
    if actions != [] {
      NextKeeps(s, actions[0]);
      BarrenNext(s, actions[0]);
      BarrenRun(Next(s, actions[0]).value, actions[1..]);
    }
  }

  /** Discovery is yet to be polled, and what it would find after that is open: nobody
      hears the signal, no link can come up, but some link whose claim is abandoned has a
      session to ask. */
  ghost predicate Undecided(s: State) {
    && |s.tasks| > 0 && s.tasks[DISCOVERY_TASK].at.Unpolled? && !s.conf.pinned
    && !HasReceiver(s)
    && (forall l: nat :: !Revivable(s, l))
    && exists l: nat :: l < |s.all| && s.all[l].leaked && s.all[l].session
  }

  lemma {:induction false} NothingRevivable(s: State)
    requires Inv(s) && s.phase.Open? && !HasReceiver(s) && !Undecided(s) && forall l: nat :: !Revivable(s, l)
    ensures Barren(Signalled(s))
  {
    hide SeedsOk, BudgetOk, Counts, GaveUpRightly, Revivable;
    var after := Signalled(s);
    forall l: nat ensures !Revivable(after, l) { SignalBrings(s, l); }
    forall a: nat | a < |after.tasks| ensures Resting(after.tasks[a]) {
      assert !Subscribed(s.tasks[a]) && TaskOk(s, a);
      if s.tasks[a].at.Spawned? { ClaimRevives(s, a); }
    }
    forall l: nat | l < |s.all| && s.all[l].session ensures s.all[l].leaked { SessionRevives(s, l); }
    assert TaskOk(s, DISCOVERY_TASK) && !Subscribed(s.tasks[DISCOVERY_TASK]);
    assert Seeks(after) ==> s.tasks[DISCOVERY_TASK].at.Unpolled? && !s.conf.pinned;
  }

  lemma {:induction false} SignalBrings(s: State, l: nat)
    ensures Revivable(Signalled(s), l) ==> Revivable(s, l)
  {
    hide Brings;
    var after := Signalled(s);
    forall a: nat ensures Bringing(after, a, l) <==> Bringing(s, a, l) {}
  }

  lemma {:induction false} SessionRevives(s: State, l: nat)
    requires l < |s.all| && s.all[l].session && !Revivable(s, l)
    ensures s.all[l].leaked
  {
  }

  // --- the exact condition ----------------------------------------------------------------------------

  lemma {:induction false} HeardIsFinal(s: State, after: State)
    requires Inv(s) && s.phase.Open? && HasReceiver(s)
    requires Reaches(AnyDrops, Signalled(s), after) && after.phase.Done?
    ensures forall l: nat :: l < |after.all| ==> Dead(after.all[l])
  {
    hide LinksOk, TasksOk, BudgetOk, SeedsOk, HasReceiver, Reaches, Quiet;
    CloseKeeps(s, CloseStop);
    ReachedInv(AnyDrops, Signalled(s), after);
  }

  lemma {:induction false} BarrenIsFinal(s: State, after: State)
    requires Inv(s) && s.phase.Open? && !HasReceiver(s) && !Undecided(s) && forall l: nat :: !Revivable(s, l)
    requires Reaches(AnyDrops, Signalled(s), after) && after.phase.Done?
    ensures forall l: nat :: l < |after.all| ==> Dead(after.all[l])
  {
    hide LinksOk, TasksOk, BudgetOk, SeedsOk, HasReceiver, Run, Quiet, Revivable, Undecided;
    var from := Signalled(s);
    CloseKeeps(s, CloseStop);
    NothingRevivable(s);
    ReachedInv(AnyDrops, from, after);
    var actions: seq<Action> :| Run(from, actions) == Some(after);
    BarrenRun(from, actions);
  }

  /** `close` is final in every run if and only if somebody hears it -- discovery runs, or a
      link is mid-redial -- or no link can come up: none whose claim is not abandoned has a
      session, a lifecycle yet to start, or a failed call still after the claim. */
  lemma {:induction false} CloseIsFinal(conf: Conf, actions: seq<Action>, s: State)
    requires Reachable(conf, actions, s) && s.phase.Open?
    ensures Undecided(s) || (Final(s) <==> HasReceiver(s) || forall l: nat :: !Revivable(s, l))
  {
    hide Inv, Run, Init, Grows, HasReceiver, Reaches, Revivable, Undecided;
    ReachableInv(conf, actions, s);
    var from := Signalled(s);
    if HasReceiver(s) {
      forall after | Reaches(AnyDrops, from, after) && after.phase.Done?
        ensures forall l: nat :: l < |after.all| ==> Dead(after.all[l]) {
        HeardIsFinal(s, after);
      }
    } else if l: nat :| Revivable(s, l) {
      UnheardCloseLeavesALink(s, l);
    } else if !Undecided(s) {
      forall after | Reaches(AnyDrops, from, after) && after.phase.Done?
        ensures forall l: nat :: l < |after.all| ==> Dead(after.all[l]) {
        BarrenIsFinal(s, after);
      }
    }
  }

  // --- the run, from the start ------------------------------------------------------------------

  /** One seed, no discovery: the pool connects, is closed while a call is under way, and
      after `close` has returned its link is connected again. */
  lemma {:induction false} ClosedPoolComesAlive(seed: Seed, pinned: bool, maxLinks: nat)
    ensures exists after ::
      && Reaches(AnyDrops, Init(Conf([seed], false, pinned, maxLinks)), after)
      && after.phase.Done?
      && |after.all| > 0 && after.all[0].session && after.all[0].connected
  {
    var conf := Conf([seed], false, pinned, maxLinks);
    var from, s := Init(conf), FirstConnected(conf);
    assert forall a: nat :: a < |s.tasks| ==> s.tasks[a].at.Ended?;
    assert !HasReceiver(s) && Revivable(s, 0);
    hide Reaches, Inv, HasReceiver, Revivable;
    SeedConnects(AnyDrops, conf);
    InitInv(conf);
    ReachedInv(AnyDrops, from, s);
    NextIsClose(s, CloseStop);
    ReachesBy(AnyDrops, from, s, CloseStop);
    UnheardCloseLeavesALink(s, 0);
    var after :| Reaches(AnyDrops, Signalled(s), after) && after.phase.Done? && 0 < |after.all| && after.all[0].session
      && after.all[0].connected;
    ReachesOn(AnyDrops, from, Signalled(s), after);
  }
}
