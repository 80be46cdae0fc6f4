/** When a link is given up, which links take a slot, what discovery may add, and who runs
    when (src/pool.rs). */
module PoolGiveUp {
  import opened Wrappers
  import opened PoolLink
  import opened Pool
  import opened PoolInvariant
  import opened PoolRuns
  import opened PoolRevival

  // --- giving up in time -------------------------------------------------------------------

  /** A discovered link whose last five dials have failed and that has not been given up. */
  ghost predicate Overdue(link: Link) {
    link.origin.Discovered? && Trailing(link.log.dials) >= 5 && !link.log.gaveUp
  }

  /** The task is about to count that failure or to judge it. */
  predicate Judges(p: Point) {
    p.Failing? || p.Judging?
  }

  /** An overdue link is being judged. */
  ghost predicate InTime(s: State, l: nat) {
    l < |s.all| && Overdue(s.all[l]) ==> exists a: nat :: Redials(s, a, l) && Judges(s.tasks[a].at)
  }

  ghost predicate AllInTime(s: State) {
    forall l: nat :: InTime(s, l)
  }

  /** A claimant that does not leave its link overdue unjudged does not come to. */
  lemma {:induction false} LifecycleInTime(a: nat, t: Task, link: Link, stop: bool, choice: bool)
    requires LifecyclePoint(t.at) && Sound(a, t, link) && LifecycleStep(a, t, link, stop, choice).Some?
    requires Overdue(link) ==> Judges(t.at)
    ensures var m := LifecycleStep(a, t, link, stop, choice).value;
      Overdue(m.link) ==> Judges(m.task.at) && Claims(m.task.at) && m.task.link == t.link
  {
    hide Trailing, GaveUpRightly, ClaimMarked;
    TrailingGrows(link.log.dials, choice);
  }

  lemma {:induction false} StepInTime(s: State, a: nat, choice: bool)
    requires Inv(s) && AllInTime(s) && TaskStep(s, a, choice).Some?
    ensures AllInTime(TaskStep(s, a, choice).value)
  {
    hide LinksOk, BudgetOk, SeedsOk, CloseOk, LinkStep, Leads, Winds, Sound, Overdue, TaskStep, Brings, Claims, Judges,
      LifecyclePoint, Locks;
    var k, m := StepMoves(s, a, choice);
    var t, after := s.tasks[a], Put(s, a, m, k);
    assert TaskOk(s, a);
    forall l: nat ensures InTime(after, l) {
      assert InTime(s, l);
      if l < |s.all| && Overdue(after.all[l]) { JudgedAfter(s, a, choice, k, m, l); }
    }
  }

  lemma {:induction false} JudgedAfter(s: State, a: nat, choice: bool, k: nat, m: Moved, l: nat)
    requires Inv(s) && InTime(s, l) && TaskStep(s, a, choice).Some? && Move(s, a, m, k)
    requires k == Target(s.tasks[a]) && LinkStep(a, s.tasks[a], s.all[k], s.stop, choice) == Some(m)
    requires l < |s.all| && Overdue(Put(s, a, m, k).all[l])
    ensures exists b: nat :: Redials(Put(s, a, m, k), b, l) && Judges(Put(s, a, m, k).tasks[b].at)
  {
    hide BudgetOk, SeedsOk, CloseOk, LinksOk, LifecycleStep, CallerStep, Winds, Counts, GaveUpRightly, Trailing;
    var t, after := s.tasks[a], Put(s, a, m, k);
    assert TaskOk(s, a);
    ClaimsTarget(t);
    if k == l && s.all[l].claimant == Some(a) && LifecyclePoint(t.at) {
      SoundFor(s, a);
      if Overdue(s.all[l]) {
        var b: nat :| Redials(s, b, l) && Judges(s.tasks[b].at);
        assert TaskOk(s, b) && b == a;
      }
      LifecycleInTime(a, t, s.all[l], s.stop, choice);
      assert Redials(after, a, l);
    } else {
      if !LifecyclePoint(t.at) { CallerKeepsLog(a, t, s.all[k], choice); }
      var b: nat :| Redials(s, b, l) && Judges(s.tasks[b].at);
      assert TaskOk(s, b) && b != a;
      assert Redials(after, b, l);
    }
  }

  /** Only a lifecycle writes a link's log. */
  lemma {:induction false} CallerKeepsLog(a: nat, t: Task, link: Link, choice: bool)
    requires Targets(t) && !LifecyclePoint(t.at) && CallerStep(a, t, link, choice).Some?
    ensures CallerStep(a, t, link, choice).value.link.log == link.log
    ensures CallerStep(a, t, link, choice).value.link.origin == link.origin
  {
  }

  lemma {:induction false} RestInTime(s: State, action: Action)
    requires Inv(s) && AllInTime(s) && Next(s, action).Some? && !action.Step?
    ensures AllInTime(Next(s, action).value)
  {
    hide Inv, InTime, TaskStep, DropTask, SpawnLifecycle, ReturnCall, PushLink, CloseStep, DiscoveryStep, Candidates;
    forall l: nat ensures InTime(Next(s, action).value, l) {
      assert InTime(s, l);
      if action.Drop? {
        DropInTime(s, action.a, l);
      } else if action.Spawn? {
        SpawnInTime(s, action.a, l);
      } else if action.StartCall? || action.Return? || action.Push? || DiscoveryAction(action) {
        OthersInTime(s, action, l);
      } else {
        CloseInTime(s, action, l);
      }
    }
  }

  lemma {:induction false} DropInTime(s: State, a: nat, l: nat)
    requires InTime(s, l) && DropTask(s, a).Some?
    ensures InTime(DropTask(s, a).value, l)
  {
    hide Targets, Trailing;
    var after := DropTask(s, a).value;
    if l < |after.all| && Overdue(after.all[l]) {
      var b: nat :| Redials(s, b, l) && Judges(s.tasks[b].at);
      assert b != a && Redials(after, b, l);
    }
  }

  lemma {:induction false} SpawnInTime(s: State, a: nat, l: nat)
    requires InTime(s, l) && SpawnLifecycle(s, a).Some?
    ensures InTime(SpawnLifecycle(s, a).value, l)
  {
    hide Trailing;
    var after := SpawnLifecycle(s, a).value;
    if l < |after.all| && Overdue(after.all[l]) {
      var b: nat :| Redials(s, b, l) && Judges(s.tasks[b].at);
      assert b != a && Redials(after, b, l);
    }
  }

  lemma {:induction false} OthersInTime(s: State, action: Action, l: nat)
    requires Inv(s) && InTime(s, l) && Next(s, action).Some?
    requires action.StartCall? || action.Return? || action.Push? || DiscoveryAction(action)
    ensures InTime(Next(s, action).value, l)
  {
    hide BudgetOk, SeedsOk, CloseOk, LinksOk, Trailing, Candidates, Occupied, TaskStep, DropTask, SpawnLifecycle,
      CloseStep, Locks;
    assert TaskOk(s, DISCOVERY_TASK);
    assert Trailing([]) == 0 by { NoneTrails(); }
    var after := Next(s, action).value;
    if l < |after.all| && Overdue(after.all[l]) {
      var b: nat :| Redials(s, b, l) && Judges(s.tasks[b].at);
      assert Redials(after, b, l);
    }
  }

  lemma {:induction false} NoneTrails()
    ensures Trailing([]) == 0
  {
  }

  lemma {:induction false} CloseInTime(s: State, action: Action, l: nat)
    requires InTime(s, l) && CloseStep(s, action).Some?
    ensures InTime(CloseStep(s, action).value, l)
  {
    hide Trailing, HasReceiver, CallUnderWay;
    var after := CloseStep(s, action).value;
    if l < |after.all| && Overdue(after.all[l]) {
      var b: nat :| Redials(s, b, l) && Judges(s.tasks[b].at);
      assert Redials(after, b, l);
    }
  }

  lemma {:induction false} RunInTime(s: State, actions: seq<Action>)
    requires Inv(s) && AllInTime(s) && Run(s, actions).Some?
    ensures AllInTime(Run(s, actions).value)
    decreases |actions|
  {
    hide Inv, AllInTime, TaskStep, Grows;
    if actions != [] {
      NextKeeps(s, actions[0]);
      if actions[0].Step? {
        StepInTime(s, actions[0].a, actions[0].choice);
      } else {
        RestInTime(s, actions[0]);
      }
      RunInTime(Next(s, actions[0]).value, actions[1..]);
    }
  }

  /** In every reachable state a discovered link whose last five dials have all failed has
      been given up, or its lifecycle is about to count the failure or to judge it. */
  lemma {:induction false} GivesUpInTime(conf: Conf, actions: seq<Action>, s: State, l: nat)
    requires Reachable(conf, actions, s) && l < |s.all| && s.all[l].origin.Discovered?
    requires var dials := s.all[l].log.dials;
      |dials| >= 5 && forall i :: |dials| - 5 <= i < |dials| ==> !dials[i]
    ensures s.all[l].log.gaveUp || exists a: nat :: Redials(s, a, l) && Judges(s.tasks[a].at)
  {
    hide Run, Inv, Redials, Trailing;
    InitInv(conf);
    NoneTrails();
    assert AllInTime(Init(conf));
    RunInTime(Init(conf), actions);
    FailedTrail(s.all[l].log.dials, 5);
    assert InTime(s, l);
  }

  lemma {:induction false} FailedTrail(dials: seq<bool>, n: nat)
    requires n <= |dials| && forall i :: |dials| - n <= i < |dials| ==> !dials[i]
    ensures Trailing(dials) >= n
  {
    if n > 0 { FailedTrail(dials[..|dials| - 1], n - 1); }
  }

  /** At the judgement of the fifth failure a discovered link is given up and its lifecycle
      ends; a bootstrap link's goes on for ever. */
  lemma {:induction false} Judgement(a: nat, t: Task, link: Link, stop: bool, choice: bool)
    requires t.at.Judging?
    ensures LifecycleStep(a, t, link, stop, choice).Some?
    ensures var m := LifecycleStep(a, t, link, stop, choice).value;
      if link.origin.Discovered? && t.counted >= 5 then m.link.log.gaveUp && m.task.at.Releasing?
      else m.link == link && m.task.at.Sleeping?
  {
  }

  // --- slots and rows ---------------------------------------------------------------------------

  /** The links that take a slot: discovered, and not given up. */
  ghost function Slots(all: seq<Link>): set<nat> {
    set l: nat | l < |all| && all[l].origin.Discovered? && !all[l].log.gaveUp
  }

  lemma {:induction false} OccupiedCounts(all: seq<Link>)
    ensures Occupied(all) == |Slots(all)|
  {
    if all == [] {
      assert Slots(all) == {};
    } else {
      var n := |all| - 1;
      OccupiedCounts(all[..n]);
      if all[n].origin.Discovered? && !all[n].log.gaveUp {
        assert Slots(all) == Slots(all[..n]) + {n};
      } else {
        assert Slots(all) == Slots(all[..n]);
      }
    }
  }

  /** Discovery goes on with a row exactly while the slots taken among the pool's links are
      fewer than `max_links`; a bootstrap link takes none, a given-up link frees its own. */
  lemma {:induction false} CountAnswers(s: State)
    requires |s.tasks| > 0 && s.tasks[DISCOVERY_TASK].at.Counting?
    ensures Next(s, Count).Some?
    ensures Next(s, Count).value.tasks[DISCOVERY_TASK].at ==
      if |Slots(List(s))| < s.conf.maxLinks then Counted else Idle
  {
    hide List;
    OccupiedCounts(List(s));
  }

  /** A row's station is added, as a discovered link at the end, exactly if no link of the
      pool has its seed. */
  lemma {:induction false} PushAnswers(s: State, seed: Seed)
    requires |s.tasks| > 0 && s.tasks[DISCOVERY_TASK].at.Counted? && s.drained <= |s.all|
    ensures Next(s, Push(seed)).Some?
    ensures var after := Next(s, Push(seed)).value;
      if exists l :: s.drained <= l < |s.all| && s.all[l].seed == seed then after.all == s.all
      else
        && |after.all| == |s.all| + 1 && after.all[..|s.all|] == s.all
        && after.all[|s.all|].seed == seed && after.all[|s.all|].origin.Discovered?
        && !after.all[|s.all|].session && !after.all[|s.all|].redialing
  {
  }

  // --- a call's way -------------------------------------------------------------------------------

  /** A caller with a session in hand: an answered call is done, an accepted publish goes on
      to the links left, and a failure goes on to mark the link. Without a session it goes on
      to the next link. */
  lemma {:induction false} CallGoesOn(a: nat, t: Task, link: Link, answered: bool)
    requires t.at.Holding? && t.role.Caller?
    ensures CallerStep(a, t, link, answered).Some?
    ensures var m := CallerStep(a, t, link, answered).value;
      && m.link == link.(lock := Free)
      && (link.session && answered ==> m.task.at.Picking? && m.task.todo == if t.role.fanout then t.todo else [])
      && (link.session && !answered ==> m.task.at.Failed? && m.task.todo == t.todo && m.task.link == t.link)
      && (!link.session ==> m.task.at.Picking? && m.task.todo == t.todo)
  {
  }

  /** A call or publish takes its links in turn. */
  lemma {:induction false} CallTakesNext(a: nat, t: Task, link: Link, choice: bool)
    requires t.at.Picking? && t.todo != [] && link.lock.Free?
    ensures Target(t) == t.todo[0]
    ensures CallerStep(a, t, link, choice) ==
      Some(Moved(Task(t.role, Holding, t.todo[0], t.todo[1..], t.counted), link.(lock := Of(a))))
  {
  }

  // --- who runs when ----------------------------------------------------------------------------------

  /** A new pool: a claimed link and a lifecycle per seed, discovery spawned if it is enabled,
      nobody polled yet, so that nobody would hear a `close`. */
  lemma {:induction false} StartsSo(conf: Conf, i: nat)
    ensures var s := Init(conf);
      && |s.all| == |conf.seeds| && |s.tasks| == |conf.seeds| + 1 && s.phase.Open? && !s.stop
      && s.tasks[DISCOVERY_TASK].role.Discovery?
      && s.tasks[DISCOVERY_TASK].at == (if conf.discovery then Unpolled else Ended)
      && (i < |conf.seeds| ==>
        && s.all[i].seed == conf.seeds[i] && s.all[i].origin.Bootstrap?
        && s.all[i].redialing && s.all[i].claimant == Some(i + 1) && !s.all[i].session && !s.all[i].connected
        && s.tasks[i + 1] == Task(Lifecycle, Spawned, i, [], 0))
      && !HasReceiver(s)
  {
  }

  /** A receiver of the stop signal is held by discovery from its first poll to its end, and by
      a lifecycle from its first poll until all it has left is to release its claim. */
  lemma {:induction false} ReceiverAnswers(t: Task)
    requires InRole(t)
    ensures Subscribed(t) <==>
      || (t.role.Discovery? && t.at != Unpolled && t.at != Ended)
      || (t.role.Lifecycle?
          && t.at in {Start, Dialing, WantLock, Installed, Dropped, Stored, Failing, Judging, Sleeping})
  {
  }

  /** A claim's winner can spawn its lifecycle whenever `close` has not the task lock. */
  lemma {:induction false} SpawnAnswers(s: State, a: nat)
    requires a < |s.tasks| && s.tasks[a].link < |s.all|
    ensures Next(s, Spawn(a)).Some? <==> s.tasks[a].at in {Claimed, PushClaimed} && s.phase != Shutting
  {
  }

  /** A task can be dropped exactly while it awaits a lock, an answer, a dial, a sleep or its
      first poll: a caller at any time, a background task while `close` aborts them. */
  lemma {:induction false} DropAnswers(s: State, a: nat)
    requires a < |s.tasks|
    ensures Next(s, Drop(a)).Some? <==>
      && (s.tasks[a].role.Caller? || s.phase == Shutting)
      && s.tasks[a].at in {Picking, Holding, Failed, Claimed, Unpolled, Idle, Looking, Inspecting, Counting, Counted,
                           Peeking, PushClaimed, Spawned, Dialing, WantLock, Sleeping}
  {
  }

  /** Discovery ends at its first poll under pinned trust, and else only once it sees the stop
      signal between two rounds. */
  lemma {:induction false} DiscoveryEndsSo(s: State)
    requires |s.tasks| > 0 && s.tasks[DISCOVERY_TASK].role.Discovery?
    ensures Next(s, DiscoveryEnds).Some? <==> s.tasks[DISCOVERY_TASK].at == Idle && s.stop
    ensures Next(s, DiscoveryEnds).Some? ==> Next(s, DiscoveryEnds).value.tasks[DISCOVERY_TASK].at == Ended
    ensures Next(s, PollDiscovery).Some? <==> s.tasks[DISCOVERY_TASK].at == Unpolled
    ensures Next(s, PollDiscovery).Some? ==>
      Next(s, PollDiscovery).value.tasks[DISCOVERY_TASK].at == if s.conf.pinned then Ended else Idle
  {
  }

  /** A lifecycle told to stop ends before it dials and out of its sleep. */
  lemma {:induction false} StopsSo(a: nat, t: Task, link: Link, choice: bool)
    requires t.at in {Start, Sleeping}
    ensures LifecycleStep(a, t, link, true, choice).Some?
    ensures t.at == Start || choice ==> LifecycleStep(a, t, link, true, choice).value.task.at == Releasing
    ensures LifecycleStep(a, t, link, false, choice).Some?
    ensures LifecycleStep(a, t, link, false, choice).value.task.at == if t.at == Start then Dialing else Start
  {
  }
}
