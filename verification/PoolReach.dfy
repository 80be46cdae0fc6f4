/** Walking the pool through runs (src/pool.rs): what states it can get to, and the stretches
    of calls, lifecycles and `close` that take it there. */
module PoolReach {
  import opened Wrappers
  import opened PoolLink
  import opened Pool
  import opened PoolInvariant
  import opened PoolRuns

  // --- putting runs together ----------------------------------------------------------------

  /** Whether a run may drop tasks. */
  datatype Drops = NoDrops | AnyDrops

  ghost predicate Allowed(d: Drops, actions: seq<Action>) {
    d.NoDrops? ==> forall i :: 0 <= i < |actions| ==> !actions[i].Drop?
  }

  ghost predicate Reaches(d: Drops, s: State, after: State) {
    exists actions: seq<Action> :: Run(s, actions) == Some(after) && Allowed(d, actions)
  }

  lemma {:induction false} ReachesBy(d: Drops, s: State, mid: State, action: Action)
    requires Reaches(d, s, mid) && Next(mid, action).Some? && (d.NoDrops? ==> !action.Drop?)
    ensures Reaches(d, s, Next(mid, action).value)
  {
    hide Next;
    var actions: seq<Action> :| Run(s, actions) == Some(mid) && Allowed(d, actions);
    RunAppend(s, actions, [action]);
    assert [action][1..] == [] && Run(mid, [action]) == Run(Next(mid, action).value, []);
    assert Allowed(d, actions + [action]);
  }

  lemma {:induction false} RunAppend(s: State, actions: seq<Action>, more: seq<Action>)
    ensures Run(s, actions + more) == match Run(s, actions) case Some(mid) => Run(mid, more) case None => None
    decreases |actions|
  {
    hide Next;
    if actions == [] {
      assert actions + more == more;
    } else {
      assert (actions + more)[1..] == actions[1..] + more;
      if Next(s, actions[0]).Some? { RunAppend(Next(s, actions[0]).value, actions[1..], more); }
    }
  }

  lemma {:induction false} ReachesItself(d: Drops, s: State)
    ensures Reaches(d, s, s)
  {
    assert Run(s, []) == Some(s) && Allowed(d, []);
  }

  lemma {:induction false} ReachesOn(d: Drops, s: State, mid: State, after: State)
    requires Reaches(d, s, mid) && Reaches(d, mid, after)
    ensures Reaches(d, s, after)
  {
    var actions: seq<Action> :| Run(s, actions) == Some(mid) && Allowed(d, actions);
    var more: seq<Action> :| Run(mid, more) == Some(after) && Allowed(d, more);
    hide Run;
    RunAppend(s, actions, more);
    assert Allowed(d, actions + more);
  }

  lemma {:induction false} ReachesAnyhow(s: State, after: State)
    requires Reaches(NoDrops, s, after)
    ensures Reaches(AnyDrops, s, after)
  {
    hide Run;
    var actions: seq<Action> :| Run(s, actions) == Some(after) && Allowed(NoDrops, actions);
    assert Allowed(AnyDrops, actions);
  }

  lemma {:induction false} ReachedInv(d: Drops, s: State, after: State)
    requires Inv(s) && Reaches(d, s, after)
    ensures Inv(after) && Grows(s, after)
  {
    hide Inv, Grows, Run;
    var actions: seq<Action> :| Run(s, actions) == Some(after) && Allowed(d, actions);
    RunKeeps(s, actions);
  }

  /** A task that has got to `m` on its link takes one step more. */
  lemma {:induction false} Walks(d: Drops, from: State, s: State, a: nat, l: nat, m: Moved, choice: bool)
    requires a < |s.tasks| && l < |s.all| && Targets(m.task) && Target(m.task) == l
    requires Reaches(d, from, Put(s, a, m, l)) && LinkStep(a, m.task, m.link, s.stop, choice).Some?
    ensures Reaches(d, from, Put(s, a, LinkStep(a, m.task, m.link, s.stop, choice).value, l))
  {
    hide LinkStep, Targets, Reaches;
    var mid, after := Put(s, a, m, l), LinkStep(a, m.task, m.link, s.stop, choice).value;
    assert TaskStep(mid, a, choice) == Some(Put(mid, a, after, l));
    assert Put(mid, a, after, l) == Put(s, a, after, l) by {
      assert s.tasks[a := m.task][a := after.task] == s.tasks[a := after.task];
    }
    NextIsStep(mid, a, choice);
    ReachesBy(d, from, mid, Step(a, choice));
  }

  lemma {:induction false} NextIsStep(s: State, a: nat, choice: bool)
    ensures Next(s, Step(a, choice)) == TaskStep(s, a, choice)
  {
    hide TaskStep;
  }

  lemma {:induction false} NextIsSpawn(s: State, a: nat)
    ensures Next(s, Spawn(a)) == SpawnLifecycle(s, a)
  {
    hide SpawnLifecycle;
  }

  lemma {:induction false} NextIsDrop(s: State, a: nat)
    ensures Next(s, Drop(a)) == DropTask(s, a)
  {
    hide DropTask;
  }

  lemma {:induction false} PutSame(s: State, a: nat, l: nat)
    requires a < |s.tasks| && l < |s.all|
    ensures Put(s, a, Moved(s.tasks[a], s.all[l]), l) == s
  {
  }

  // --- stretches of a caller's way --------------------------------------------------------------------

  function NewCall(l: nat, at: Point): Task {
    Task(Caller(false), at, l, [], 0)
  }

  function WithCall(s: State, l: nat): State
    requires l < |s.all|
  {
    s.(tasks := s.tasks + [NewCall(l, Holding)], all := s.all[l := s.all[l].(lock := Of(|s.tasks|))],
        overlapped := s.overlapped || InClose(s.phase))
  }

  /** A call starts and takes the link's lock. */
  lemma {:induction false} CallHolds(d: Drops, from: State, s: State, l: nat)
    requires Reaches(d, from, s) && Listed(s, l) && s.all[l].lock.Free?
    ensures Reaches(d, from, WithCall(s, l))
  {
    hide Reaches;
    CallStarts(s, l);
    ReachesBy(d, from, s, StartCall([l], false));
    var c := |s.tasks|;
    var called := s.(tasks := s.tasks + [Task(Caller(false), Picking, 0, [l], 0)],
                     overlapped := s.overlapped || InClose(s.phase));
    assert Put(called, c, Moved(called.tasks[c], called.all[l]), l) == called;
    Walks(d, from, called, c, l, Moved(called.tasks[c], called.all[l]), true);
    assert called.tasks[c := NewCall(l, Holding)] == s.tasks + [NewCall(l, Holding)];
    assert called.tasks[c].(at := Holding, link := l, todo := [l][1..]) == NewCall(l, Holding) && [l][1..] == [];
    assert Put(called, c, Moved(NewCall(l, Holding), s.all[l].(lock := Of(c))), l) == WithCall(s, l);
  }

  lemma {:induction false} CallStarts(s: State, l: nat)
    requires Listed(s, l)
    ensures Next(s, StartCall([l], false)) ==
      Some(s.(tasks := s.tasks + [Task(Caller(false), Picking, 0, [l], 0)],
              overlapped := s.overlapped || InClose(s.phase)))
  {
    hide TaskStep, DropTask, SpawnLifecycle, ReturnCall, PushLink, CloseStep, DiscoveryStep;
    assert Candidates(s, [l]);
  }

  function CallFailed(s: State, l: nat): State {
    s.(tasks := s.tasks + [NewCall(l, Failed)], overlapped := s.overlapped || InClose(s.phase))
  }

  /** A call starts on a link with a session, and fails. */
  lemma {:induction false} CallFails(d: Drops, from: State, s: State, l: nat)
    requires Reaches(d, from, s) && Listed(s, l) && s.all[l].lock.Free? && s.all[l].session
    ensures Reaches(d, from, CallFailed(s, l))
  {
    hide Reaches;
    CallHolds(d, from, s, l);
    var held, c := WithCall(s, l), |s.tasks|;
    var m := Moved(held.tasks[c], held.all[l]);
    assert Put(held, c, m, l) == held;
    Walks(d, from, held, c, l, m, false);
    assert m.link.(lock := Free) == s.all[l];
    assert Put(held, c, Moved(NewCall(l, Failed), s.all[l]), l) == CallFailed(s, l);
  }

  /** The link without its session, and shown so. */
  function Down(link: Link): Link {
    link.(session := false, connected := false)
  }

  /** A caller whose call failed clears the session and the flag. */
  lemma {:induction false} CallerClears(d: Drops, from: State, s: State, a: nat, l: nat)
    requires Reaches(d, from, s) && a < |s.tasks| && l < |s.all|
    requires s.tasks[a].at.Failed? && s.tasks[a].link == l && s.all[l].lock.Free?
    ensures Reaches(d, from, Put(s, a, Moved(s.tasks[a].(at := Unlocked), Down(s.all[l])), l))
  {
    hide Reaches, Put;
    var t, link := s.tasks[a], s.all[l];
    PutSame(s, a, l);
    Walks(d, from, s, a, l, Moved(t, link), true);
    var held := link.(lock := Of(a));
    Walks(d, from, s, a, l, Moved(t.(at := Relocked), held), true);
    Walks(d, from, s, a, l, Moved(t.(at := Cleared), held.(session := false)), true);
    var off := held.(session := false, connected := false);
    Walks(d, from, s, a, l, Moved(t.(at := Marked), off), true);
    assert off.(lock := Free) == Down(link);
  }

  /** The caller finds the claim taken. */
  lemma {:induction false} CallerYields(d: Drops, from: State, s: State, a: nat, l: nat)
    requires Reaches(d, from, s) && a < |s.tasks| && l < |s.all|
    requires s.tasks[a].at.Unlocked? && s.tasks[a].link == l && s.all[l].redialing
    ensures Reaches(d, from, Put(s, a, Moved(s.tasks[a].(at := Picking), s.all[l]), l))
  {
    hide Reaches, Put;
    PutSame(s, a, l);
    Walks(d, from, s, a, l, Moved(s.tasks[a], s.all[l]), true);
  }

  /** The caller wins the claim. */
  lemma {:induction false} CallerWins(d: Drops, from: State, s: State, a: nat, l: nat)
    requires Reaches(d, from, s) && a < |s.tasks| && l < |s.all|
    requires s.tasks[a].at.Unlocked? && s.tasks[a].link == l && !s.all[l].redialing
    ensures Reaches(d, from, Put(s, a, Moved(s.tasks[a].(at := Claimed), Won(s.all[l], a)), l))
  {
    hide Reaches, Put;
    PutSame(s, a, l);
    Walks(d, from, s, a, l, Moved(s.tasks[a], s.all[l]), true);
  }

  /** The pool after task `a`, unlocked, has claimed link `l` and spawned its lifecycle. */
  function Spawning(s: State, a: nat, l: nat): State
    requires a < |s.tasks| && l < |s.all|
  {
    s.(tasks := s.tasks[a := s.tasks[a].(at := Picking)] + [Task(Lifecycle, Spawned, l, [], 0)],
       all := s.all[l := Won(s.all[l], |s.tasks|)])
  }

  lemma {:induction false} CallerSpawns(d: Drops, from: State, s: State, a: nat, l: nat)
    requires Reaches(d, from, s) && a < |s.tasks| && l < |s.all| && !s.phase.Shutting?
    requires s.tasks[a].at.Unlocked? && s.tasks[a].link == l && !s.all[l].redialing
    ensures Reaches(d, from, Spawning(s, a, l))
  {
    hide Reaches, Next;
    CallerWins(d, from, s, a, l);
    var claimed := Put(s, a, Moved(s.tasks[a].(at := Claimed), Won(s.all[l], a)), l);
    NextIsSpawn(claimed, a);
    assert SpawnLifecycle(claimed, a) == Some(Spawning(s, a, l)) by {
      assert claimed.tasks[a := s.tasks[a].(at := Picking)] == s.tasks[a := s.tasks[a].(at := Picking)];
      assert claimed.all[l := Won(s.all[l], |s.tasks|)] == s.all[l := Won(s.all[l], |s.tasks|)];
      assert claimed.all[l].(claimant := Some(|s.tasks|)) == Won(s.all[l], |s.tasks|);
    }
    ReachesBy(d, from, claimed, Spawn(a));
  }

  // --- stretches of a lifecycle's way -------------------------------------------------------------------

  /** A lifecycle that is not told to stop dials. */
  lemma {:induction false} LifecycleDials(d: Drops, from: State, s: State, b: nat, l: nat)
    requires Reaches(d, from, s) && b < |s.tasks| && l < |s.all| && !s.stop
    requires s.tasks[b].at.Spawned? && s.tasks[b].link == l
    ensures Reaches(d, from, Put(s, b, Moved(s.tasks[b].(at := Dialing), s.all[l]), l))
  {
    hide Reaches, Put;
    var t, link := s.tasks[b], s.all[l];
    PutSame(s, b, l);
    Walks(d, from, s, b, l, Moved(t, link), true);
    Walks(d, from, s, b, l, Moved(t.(at := Start), link), true);
  }

  /** The link with the session of a successful dial, not yet shown. */
  function Dialed(link: Link): Link {
    link.(session := true, log := link.log.(dials := link.log.dials + [true]))
  }

  /** A lifecycle that is not told to stop dials and installs its session. */
  lemma {:induction false} LifecycleInstalls(d: Drops, from: State, s: State, b: nat, l: nat)
    requires Reaches(d, from, s) && b < |s.tasks| && l < |s.all| && !s.stop
    requires s.tasks[b].at.Spawned? && s.tasks[b].link == l && s.all[l].lock.Free?
    ensures Reaches(d, from, Put(s, b, Moved(s.tasks[b].(at := Dropped), Dialed(s.all[l])), l))
  {
    hide Reaches, Put;
    var t, link := s.tasks[b], s.all[l];
    LifecycleDials(d, from, s, b, l);
    Walks(d, from, s, b, l, Moved(t.(at := Dialing), link), true);
    var dialed := link.(log := link.log.(dials := link.log.dials + [true]));
    Walks(d, from, s, b, l, Moved(t.(at := WantLock), dialed), true);
    Walks(d, from, s, b, l, Moved(t.(at := Installed), dialed.(lock := Of(b), session := true)), true);
    assert dialed.(lock := Of(b), session := true).(lock := Free) == Dialed(link);
  }

  lemma {:induction false} LifecycleStores(d: Drops, from: State, s: State, b: nat, l: nat)
    requires Reaches(d, from, s) && b < |s.tasks| && l < |s.all| && s.tasks[b].at.Dropped? && s.tasks[b].link == l
    ensures Reaches(d, from, Put(s, b, Moved(s.tasks[b].(at := Stored), s.all[l].(connected := true)), l))
  {
    hide Reaches, Put;
    PutSame(s, b, l);
    Walks(d, from, s, b, l, Moved(s.tasks[b], s.all[l]), true);
  }

  /** The link after its lifecycle has reset the counter and released its claim. */
  function Released(link: Link): Link {
    link.(log := link.log.(failures := 0), redialing := false, claimant := None)
  }

  lemma {:induction false} LifecycleReleases(d: Drops, from: State, s: State, b: nat, l: nat)
    requires Reaches(d, from, s) && b < |s.tasks| && l < |s.all| && s.tasks[b].at.Stored? && s.tasks[b].link == l
    ensures Reaches(d, from, Put(s, b, Moved(s.tasks[b].(at := Ended), Released(s.all[l])), l))
  {
    hide Reaches, Put;
    var t, link := s.tasks[b], s.all[l];
    PutSame(s, b, l);
    Walks(d, from, s, b, l, Moved(t, link), true);
    Walks(d, from, s, b, l, Moved(t.(at := Releasing), link.(log := link.log.(failures := 0))), true);
    assert link.(log := link.log.(failures := 0)).(redialing := false, claimant := None) == Released(link);
  }

  /** From its spawn to its end, all going well. */
  lemma {:induction false} LifecycleConnects(d: Drops, from: State, s: State, b: nat, l: nat)
    requires Reaches(d, from, s) && b < |s.tasks| && l < |s.all| && !s.stop
    requires s.tasks[b].at.Spawned? && s.tasks[b].link == l && s.all[l].lock.Free?
    ensures Reaches(d, from,
                    Put(s, b, Moved(s.tasks[b].(at := Ended), Released(Dialed(s.all[l]).(connected := true))), l))
  {
    hide Reaches;
    var t, link := s.tasks[b], s.all[l];
    LifecycleInstalls(d, from, s, b, l);
    var s1 := Put(s, b, Moved(t.(at := Dropped), Dialed(link)), l);
    LifecycleStores(d, from, s1, b, l);
    var shown := Dialed(link).(connected := true);
    var s2 := Put(s, b, Moved(t.(at := Stored), shown), l);
    assert s2 == Put(s1, b, Moved(t.(at := Stored), shown), l) by {
      PutTwice(s, b, Moved(t.(at := Dropped), Dialed(link)), Moved(t.(at := Stored), shown), l);
    }
    LifecycleReleases(d, from, s2, b, l);
    PutTwice(s, b, Moved(t.(at := Stored), shown), Moved(t.(at := Ended), Released(shown)), l);
  }

  lemma {:induction false} PutTwice(s: State, a: nat, m: Moved, after: Moved, l: nat)
    requires a < |s.tasks| && l < |s.all|
    ensures Put(Put(s, a, m, l), a, after, l) == Put(s, a, after, l)
  {
    assert s.tasks[a := m.task][a := after.task] == s.tasks[a := after.task];
    assert s.all[l := m.link][l := after.link] == s.all[l := after.link];
  }

  // --- from the start ---------------------------------------------------------------------------------------

  /** The first seed's link, connected by its first dial. */
  function FirstUp(conf: Conf): Link
    requires conf.seeds != []
  {
    NewLink(conf.seeds[0], Bootstrap).(session := true, connected := true, log := Log(0, false, [true], 0))
  }

  function FirstConnected(conf: Conf): State
    requires conf.seeds != []
  {
    Put(Init(conf), 1, Moved(Task(Lifecycle, Ended, 0, [], 0), FirstUp(conf)), 0)
  }

  lemma {:induction false} SeedConnects(d: Drops, conf: Conf)
    requires conf.seeds != []
    ensures Reaches(d, Init(conf), FirstConnected(conf))
  {
    hide Reaches, Put;
    var s := Init(conf);
    ReachesItself(d, s);
    assert s.tasks[1] == Task(Lifecycle, Spawned, 0, [], 0);
    LifecycleConnects(d, s, s, 1, 0);
    assert Released(Dialed(s.all[0]).(connected := true)) == FirstUp(conf);
  }
}
