/** Discovery at work: what each of its moves needs and where it leads, and that it can add a
    station whenever it has a session to ask and a slot to fill (src/pool.rs). */
module PoolDiscovery {
  import opened Wrappers
  import opened PoolLink
  import opened Pool
  import opened PoolInvariant
  import opened PoolRuns
  import opened PoolQuiesce
  import opened PoolReach

  /** The state after an action of discovery's own that leaves the links alone. */
  function WithDiscovery(s: State, t: Task): State
    requires |s.tasks| > 0
  {
    s.(tasks := s.tasks[DISCOVERY_TASK := t])
  }

  // --- its moves --------------------------------------------------------------------------------

  /** Between rounds discovery may call out over any of the pool's links, each once. */
  lemma {:induction false} CallsOut(s: State, todo: seq<nat>)
    requires |s.tasks| > 0
    ensures Next(s, DiscoverCall(todo)) ==
      if && s.tasks[DISCOVERY_TASK].at.Idle?
         && (forall i :: 0 <= i < |todo| ==> s.drained <= todo[i] < |s.all|)
         && (forall i, j :: 0 <= i < j < |todo| ==> todo[i] != todo[j])
      then Some(WithDiscovery(s, s.tasks[DISCOVERY_TASK].(at := Picking, todo := todo)))
      else None
  {
  }

  /** A call or publish chooses from the same. */
  lemma {:induction false} CallChooses(s: State, todo: seq<nat>, fanout: bool)
    ensures Next(s, StartCall(todo, fanout)).Some? <==>
      && (forall i :: 0 <= i < |todo| ==> s.drained <= todo[i] < |s.all|)
      && (forall i, j :: 0 <= i < j < |todo| ==> todo[i] != todo[j])
  {
  }

  /** It asks a link for records, or for its node id, only if it saw the link connected; then
      it waits for the link's lock, and lets go of it. */
  lemma {:induction false} AsksConnected(s: State, l: nat)
    requires |s.tasks| > 0
    ensures var t := s.tasks[DISCOVERY_TASK];
      && Next(s, Inspect(l)) ==
        (if t.at.Idle? && s.drained <= l < |s.all| && s.all[l].connected
         then Some(WithDiscovery(s, t.(at := Looking, link := l)))
         else None)
      && Next(s, Peek(l)) ==
        (if t.at.Counted? && s.drained <= l < |s.all| && s.all[l].connected
         then Some(WithDiscovery(s, t.(at := Peeking, link := l)))
         else None)
  {
  }

  lemma {:induction false} AsksUnderLock(a: nat, t: Task, link: Link, choice: bool)
    requires t.at in {Looking, Peeking}
    ensures var held := t.(at := if t.at == Looking then Inspecting else Peeked);
      && CallerStep(a, t, link, choice) ==
        (if link.lock.Free? then Some(Moved(held, link.(lock := Of(a)))) else None)
      && CallerStep(a, held, link, choice) ==
        Some(Moved(t.(at := if t.at == Looking then Idle else Counted), link.(lock := Free)))
  {
  }

  /** A row passed over leads to the next one, and the last row to the next round. */
  lemma {:induction false} PassesOver(s: State)
    requires |s.tasks| > 0
    ensures var t := s.tasks[DISCOVERY_TASK];
      && Next(s, SkipRow) ==
        (if t.at.Counted? then Some(WithDiscovery(s, t.(at := Counting))) else None)
      && Next(s, RowsDone) ==
        (if t.at.Counting? then Some(WithDiscovery(s, t.(at := Idle))) else None)
  {
  }

  // --- adding a station -----------------------------------------------------------------------------

  /** Discovery calls out over a link that is up, and is answered. */
  lemma {:induction false} IsAnswered(s: State, k: nat)
    requires Inv(s) && s.phase.Open? && k < |s.all| && Up(s.all[k]) && s.tasks[DISCOVERY_TASK].at.Idle?
    ensures Reaches(NoDrops, s,
                    WithDiscovery(s, s.tasks[DISCOVERY_TASK].(at := Answered, link := k, todo := [])))
  {
    hide Reaches, LinksOk, BudgetOk, SeedsOk, Quiet, Shut;
    assert TaskOk(s, DISCOVERY_TASK);
    var t, link := s.tasks[DISCOVERY_TASK], s.all[k];
    ReachesItself(NoDrops, s);
    CallsOut(s, [k]);
    ReachesBy(NoDrops, s, s, DiscoverCall([k]));
    var calling := WithDiscovery(s, t.(at := Picking, todo := [k]));
    PutSame(calling, DISCOVERY_TASK, k);
    Walks(NoDrops, s, calling, DISCOVERY_TASK, k, Moved(t.(at := Picking, todo := [k]), link), true);
    assert [k][1..] == [];
    var held := link.(lock := Of(DISCOVERY_TASK));
    Walks(NoDrops, s, calling, DISCOVERY_TASK, k, Moved(t.(at := Holding, link := k, todo := []), held), true);
    assert held.(lock := Free) == link;
    assert Put(calling, DISCOVERY_TASK, Moved(t.(at := Answered, link := k, todo := []), link), k) ==
      WithDiscovery(s, t.(at := Answered, link := k, todo := []));
  }

  /** The pool with one more link, claimed and with its lifecycle spawned. */
  function Added(s: State, t: Task, seed: Seed): State
    requires |s.tasks| > 0
  {
    s.(tasks := s.tasks[DISCOVERY_TASK := t.(at := Counting, link := |s.all|)]
         + [Task(Lifecycle, Spawned, |s.all|, [], 0)],
       all := s.all + [Won(NewLink(seed, Discovered), |s.tasks|)])
  }

  /** Answered, and with a slot free, it goes on with a row. */
  lemma {:induction false} GetsRow(from: State, s: State)
    requires Reaches(NoDrops, from, s) && |s.tasks| > 0
    requires s.tasks[DISCOVERY_TASK].at.Answered? && s.tasks[DISCOVERY_TASK].role.Discovery?
    requires Occupied(List(s)) < s.conf.maxLinks
    ensures Reaches(NoDrops, from, WithDiscovery(s, s.tasks[DISCOVERY_TASK].(at := Counted)))
  {
    hide Reaches, Occupied;
    var t := s.tasks[DISCOVERY_TASK];
    var counting := WithDiscovery(s, t.(at := Counting));
    assert Next(s, Return(DISCOVERY_TASK, true)) == Some(counting);
    ReachesBy(NoDrops, from, s, Return(DISCOVERY_TASK, true));
    assert List(counting) == List(s);
    assert counting.tasks[DISCOVERY_TASK := t.(at := Counted)] == s.tasks[DISCOVERY_TASK := t.(at := Counted)];
    assert Next(counting, Count) == Some(WithDiscovery(s, t.(at := Counted)));
    ReachesBy(NoDrops, from, counting, Count);
  }

  function Pushing(s: State, t: Task, seed: Seed): State
    requires |s.tasks| > 0
  {
    WithDiscovery(s, t.(at := Pushed, link := |s.all|)).(all := s.all + [NewLink(seed, Discovered)])
  }

  lemma {:induction false} Pushes(s: State, seed: Seed)
    requires |s.tasks| > 0 && s.tasks[DISCOVERY_TASK].at.Counted? && s.drained == 0
    requires forall l :: 0 <= l < |s.all| ==> s.all[l].seed != seed
    ensures Next(s, Push(seed)) == Some(Pushing(s, s.tasks[DISCOVERY_TASK], seed))
  {
  }

  /** It claims the link it has pushed, and spawns its lifecycle. */
  lemma {:induction false} ClaimsPushed(from: State, s: State, t: Task, seed: Seed)
    requires |s.tasks| > 0 && Reaches(NoDrops, from, Pushing(s, t, seed)) && s.phase.Open?
    ensures Reaches(NoDrops, from, Added(s, t, seed))
  {
    hide Reaches, Next;
    var n, pushed := |s.all|, Pushing(s, t, seed);
    PutSame(pushed, DISCOVERY_TASK, n);
    Walks(NoDrops, from, pushed, DISCOVERY_TASK, n, Moved(pushed.tasks[DISCOVERY_TASK], pushed.all[n]), true);
    var won := Won(NewLink(seed, Discovered), DISCOVERY_TASK);
    var at := t.(at := PushClaimed, link := n);
    var claimed := s.(tasks := s.tasks[DISCOVERY_TASK := at], all := s.all + [won]);
    assert pushed.tasks[DISCOVERY_TASK := at] == claimed.tasks && pushed.all[n := won] == claimed.all;
    assert Put(pushed, DISCOVERY_TASK, Moved(at, won), n) == claimed;
    NextIsSpawn(claimed, DISCOVERY_TASK);
    var counting := t.(at := Counting, link := n);
    assert claimed.tasks[DISCOVERY_TASK := counting] == s.tasks[DISCOVERY_TASK := counting];
    assert claimed.all[n := Won(NewLink(seed, Discovered), |s.tasks|)] == Added(s, t, seed).all;
    ReachesBy(NoDrops, from, claimed, Spawn(DISCOVERY_TASK));
  }

  /** Answered, and with a slot free, it adds a station it has not got. */
  lemma {:induction false} Adds(from: State, s: State, seed: Seed)
    requires Reaches(NoDrops, from, s) && s.phase.Open? && s.drained == 0 && |s.tasks| > 0
    requires s.tasks[DISCOVERY_TASK].at.Answered? && s.tasks[DISCOVERY_TASK].role.Discovery?
    requires Occupied(List(s)) < s.conf.maxLinks && forall l :: 0 <= l < |s.all| ==> s.all[l].seed != seed
    ensures Reaches(NoDrops, from, Added(s, s.tasks[DISCOVERY_TASK], seed))
  {
    hide Reaches, Occupied, Next;
    var t := s.tasks[DISCOVERY_TASK];
    GetsRow(from, s);
    var counted := WithDiscovery(s, t.(at := Counted));
    Pushes(counted, seed);
    ReachesBy(NoDrops, from, counted, Push(seed));
    ClaimsPushed(from, counted, t.(at := Counted), seed);
    assert Added(counted, t.(at := Counted), seed) == Added(s, t, seed) by {
      var last := t.(at := Counting, link := |s.all|);
      assert counted.tasks[DISCOVERY_TASK := last] == s.tasks[DISCOVERY_TASK := last];
    }
  }

  /** Whenever an open pool's discovery is between rounds, a link is up, a slot is free and a
      station is not among the pool's, some run in which no task is dropped adds the station
      as the next link, connects it, and brings discovery to its next round. */
  lemma {:induction false} DiscoveryCanAdd(conf: Conf, actions: seq<Action>, s: State, k: nat, seed: Seed)
    requires Reachable(conf, actions, s) && s.phase.Open? && |s.tasks| > 0
    requires s.tasks[DISCOVERY_TASK].at.Idle? && k < |s.all| && Up(s.all[k])
    requires Occupied(s.all) < conf.maxLinks && forall l :: 0 <= l < |s.all| ==> s.all[l].seed != seed
    ensures exists after ::
      && Reaches(NoDrops, s, after)
      && after.phase.Open?
      && |after.all| == |s.all| + 1 && after.all[..|s.all|] == s.all
      && after.all[|s.all|].seed == seed && after.all[|s.all|].origin.Discovered? && Up(after.all[|s.all|])
      && |after.tasks| > 0 && after.tasks[DISCOVERY_TASK].at.Idle?
  {
    hide Reaches, Run, Init, Occupied, LinksOk, BudgetOk, SeedsOk, Quiet, Shut;
    ReachableInv(conf, actions, s);
    InitConf(conf);
    assert TaskOk(s, DISCOVERY_TASK);
    IsAnswered(s, k);
    var n, b := |s.all|, |s.tasks|;
    var answered := WithDiscovery(s, s.tasks[DISCOVERY_TASK].(at := Answered, link := k, todo := []));
    assert List(answered) == s.all;
    Adds(s, answered, seed);
    var added := Added(answered, answered.tasks[DISCOVERY_TASK], seed);
    LifecycleConnects(NoDrops, s, added, b, n);
    var up := Released(Dialed(added.all[n]).(connected := true));
    var connected := Put(added, b, Moved(added.tasks[b].(at := Ended), up), n);
    ReachesBy(NoDrops, s, connected, RowsDone);
    var after := Next(connected, RowsDone).value;
    assert after.all == s.all + [up];
  }
}
