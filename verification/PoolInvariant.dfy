/** What every reachable state of the pool keeps (src/pool.rs). */
module PoolInvariant {
  import opened Wrappers
  import opened PoolLink
  import opened Pool

  // --- claims, locks and counters -----------------------------------------------------------

  /** The claim is held by the task it says, whose point the counter fits; a session is
      shown by the flag unless its claimant has just set it. */
  ghost predicate ClaimOk(s: State, link: Link, l: nat) {
    match link.claimant
    case None => (link.leaked || Counts(link.log, Ended, 0)) && (link.session ==> link.connected)
    case Some(a) =>
      && a < |s.tasks|
      && Claims(s.tasks[a].at)
      && s.tasks[a].link == l
      && Counts(link.log, s.tasks[a].at, s.tasks[a].counted)
      && (link.session && !link.connected ==> Installing(s.tasks[a].at))
  }

  /** The lock is held by the task it says, or by `close` for the link it is draining. */
  ghost predicate LockOk(s: State, link: Link, l: nat) {
    match link.lock
    case Free => true
    case Of(a) =>
      a < |s.tasks| && Locks(s.tasks[a].at) && s.tasks[a].link == l && (s.tasks[a].at.Cleared? ==> !link.session)
    case ByClose => l == s.drained && Locking(s.phase)
  }

  ghost predicate LinkOk(s: State, l: nat)
    requires l < |s.all|
  {
    && ClaimMarked(s.all[l])
    && GaveUpRightly(s.all[l].origin, s.all[l].log)
    && ClaimOk(s, s.all[l], l)
    && LockOk(s, s.all[l], l)
  }

  /** A task keeps to its role, knows only links there are, and holds the claim and the
      lock its point says. */
  ghost predicate TaskOk(s: State, a: nat)
    requires a < |s.tasks|
  {
    var t := s.tasks[a];
    && InRole(t)
    && (t.role.Discovery? <==> a == DISCOVERY_TASK)
    && (forall i :: 0 <= i < |t.todo| ==> t.todo[i] < |s.all|)
    && (Targets(t) ==> Target(t) < |s.all|)
    && (t.at.Pushed? ==> s.all[t.link].origin.Discovered?)
    && (Claims(t.at) ==> s.all[t.link].claimant == Some(a))
    && (Locks(t.at) ==> s.all[t.link].lock == Of(a))
  }

  ghost predicate LinksOk(s: State) {
    forall l: nat :: l < |s.all| ==> LinkOk(s, l)
  }

  ghost predicate TasksOk(s: State) {
    |s.tasks| > 0 && forall a: nat :: a < |s.tasks| ==> TaskOk(s, a)
  }

  lemma {:induction false} SoundFor(s: State, a: nat)
    requires LinksOk(s) && TasksOk(s) && a < |s.tasks| && Targets(s.tasks[a])
    ensures Target(s.tasks[a]) < |s.all| && Sound(a, s.tasks[a], s.all[Target(s.tasks[a])]) && InRole(s.tasks[a])
  {
    hide Counts, GaveUpRightly, InRole;
    assert TaskOk(s, a);
    assert LinkOk(s, Target(s.tasks[a]));
    ClaimsTarget(s.tasks[a]);
  }

  lemma {:induction false} ClaimsTarget(t: Task)
    ensures Claims(t.at) || Locks(t.at) ==> Targets(t) && Target(t) == t.link
  {
  }

  /** The new value of a task and its link fit together. */
  ghost predicate Move(s: State, a: nat, m: Moved, l: nat) {
    && a < |s.tasks|
    && Targets(s.tasks[a])
    && l == Target(s.tasks[a]) < |s.all|
    && Sound(a, m.task, m.link)
    && Leaves(a, s.all[l], m.link)
    && Follows(s.tasks[a], m.task)
    && Winds(s.stop, s.tasks[a], s.all[l], m)
  }

  lemma {:induction false} MovePuts(s: State, a: nat, m: Moved, l: nat)
    requires LinksOk(s) && TasksOk(s) && Move(s, a, m, l)
    ensures LinksOk(Put(s, a, m, l)) && TasksOk(Put(s, a, m, l))
  {
    hide LinkOk, TaskOk, Sound, Leaves, Follows, Winds, Targets;
    var after := Put(s, a, m, l);
    forall k: nat | k < |after.all| ensures LinkOk(after, k) {
      if k == l { MovedLinkOk(s, a, m, l); } else { OtherLinkOk(s, a, m, l, k); }
    }
    forall b: nat | b < |after.tasks| ensures TaskOk(after, b) {
      if b == a { MovedTaskOk(s, a, m, l); } else { OtherTaskOk(s, a, m, l, b); }
    }
  }

  lemma {:induction false} MovedLinkOk(s: State, a: nat, m: Moved, l: nat)
    requires LinksOk(s) && TasksOk(s) && Move(s, a, m, l)
    ensures LinkOk(Put(s, a, m, l), l)
  {
    hide Counts, GaveUpRightly, InRole;
    assert LinkOk(s, l);
    ClaimsTarget(m.task);
  }

  lemma {:induction false} OtherLinkOk(s: State, a: nat, m: Moved, l: nat, k: nat)
    requires LinksOk(s) && TasksOk(s) && Move(s, a, m, l) && k < |s.all| && k != l
    ensures LinkOk(Put(s, a, m, l), k)
  {
    hide Counts, GaveUpRightly, InRole, Sound, Leaves, Follows;
    assert LinkOk(s, k);
    ClaimsTarget(s.tasks[a]);
  }

  lemma {:induction false} MovedTaskOk(s: State, a: nat, m: Moved, l: nat)
    requires LinksOk(s) && TasksOk(s) && Move(s, a, m, l)
    ensures TaskOk(Put(s, a, m, l), a)
  {
    hide Counts, GaveUpRightly, InRole, Leaves;
    assert TaskOk(s, a);
    ClaimsTarget(m.task);
  }

  lemma {:induction false} OtherTaskOk(s: State, a: nat, m: Moved, l: nat, b: nat)
    requires LinksOk(s) && TasksOk(s) && Move(s, a, m, l) && b < |s.tasks| && b != a
    ensures TaskOk(Put(s, a, m, l), b)
  {
    hide Counts, GaveUpRightly, InRole, Sound, Follows;
    assert TaskOk(s, b);
    ClaimsTarget(s.tasks[b]);
  }

  // --- slots, seeds, and close ----------------------------------------------------------------

  /** Discovered links that have not given up fit the budget, with room for one while
      discovery is between its count and its push. */
  ghost predicate BudgetOk(s: State) {
    && Occupied(s.all) <= s.conf.maxLinks
    && (|s.tasks| > 0 && HasRoom(s.tasks[DISCOVERY_TASK].at) ==> Occupied(s.all) < s.conf.maxLinks)
  }

  /** The bootstrap seeds come first; a discovered link's seed is nobody's before it. */
  ghost predicate SeedsOk(s: State) {
    && |s.conf.seeds| <= |s.all|
    && (forall l: nat :: l < |s.all| ==> (s.all[l].origin.Bootstrap? <==> l < |s.conf.seeds|))
    && (forall l: nat :: l < |s.conf.seeds| ==> s.all[l].seed == s.conf.seeds[l])
    && (forall k: nat, l: nat :: k < l < |s.all| && s.all[l].origin.Discovered? ==> s.all[k].seed != s.all[l].seed)
  }

  predicate Dead(link: Link) {
    !link.session && !link.connected
  }

  /** A caller with nothing left to try. */
  predicate Finished(t: Task) {
    t.at.Ended? || (t.role.Caller? && t.at.Picking? && t.todo == [])
  }

  /** How far `close` has got. */
  ghost predicate CloseOk(s: State) {
    && s.drained <= |s.all|
    && (s.phase.Open? ==> !s.stop && !s.overlapped)
    && (!Joined(s.phase) ==> s.drained == 0)
    && (Joined(s.phase) && |s.tasks| > 0 ==> s.tasks[DISCOVERY_TASK].at.Ended?)
    && (s.phase.Done? ==> s.drained == |s.all|)
    && (Locking(s.phase) ==> s.drained < |s.all| && s.all[s.drained].lock == ByClose)
    && (s.phase.DrainTaken? || s.phase.DrainStored? ==> !s.all[s.drained].session)
    && (Sealed(s) ==> Shut(s))
    && (!s.overlapped ==> Quiet(s))
  }

  /** `close` was heard, or no call overlapped it. */
  predicate Sealed(s: State) {
    s.stop || !s.overlapped
  }

  /** Drained links are dead, and joined lifecycles dial no more. */
  ghost predicate Shut(s: State) {
    && (forall l: nat :: l < s.drained <= |s.all| ==> Dead(s.all[l]))
    && (s.phase.DrainStored? && s.drained < |s.all| ==> Dead(s.all[s.drained]))
    && (Joined(s.phase) ==> forall a: nat :: a < |s.tasks| && s.tasks[a].role.Lifecycle? ==> Idling(s.tasks[a].at))
  }

  /** No call overlaps `close`: none is under way while it runs, and once the tasks are
      joined nothing is. */
  ghost predicate Quiet(s: State) {
    && (InClose(s.phase) ==> forall a: nat :: a < |s.tasks| && s.tasks[a].role.Caller? ==> s.tasks[a].at.Ended?)
    && (Joined(s.phase) ==> forall a: nat :: a < |s.tasks| ==> Finished(s.tasks[a]))
  }

  ghost predicate Inv(s: State) {
    LinksOk(s) && TasksOk(s) && BudgetOk(s) && SeedsOk(s) && CloseOk(s)
  }

  /** From one state to a later one: no link goes or changes its seed; what is drained,
      given up or overlapped stays so. */
  ghost predicate Grows(s: State, after: State) {
    && after.conf == s.conf
    && |s.all| <= |after.all|
    && s.drained <= after.drained
    && (s.overlapped ==> after.overlapped)
    && (!s.phase.Open? ==> !after.phase.Open? && after.stop == s.stop)
    && (s.phase.Done? ==> after.phase.Done? && after.overlapped == s.overlapped)
    && (Joined(s.phase) ==> Joined(after.phase))
    && forall l: nat :: l < |s.all| ==> Heir(s.all[l], after.all[l])
  }

  ghost predicate Heir(link: Link, after: Link) {
    && after.seed == link.seed
    && after.origin == link.origin
    && (link.log.gaveUp ==> after.log.gaveUp)
  }

  lemma {:induction false} OccupiedAppend(all: seq<Link>, link: Link)
    ensures Occupied(all + [link]) == Occupied(all) + if link.origin == Discovered && !link.log.gaveUp then 1 else 0
  {
    assert (all + [link])[..|all|] == all;
  }

  lemma {:induction false} OccupiedHeirs(all: seq<Link>, after: seq<Link>)
    requires |all| == |after| && forall l: nat :: l < |all| ==> Heir(all[l], after[l])
    ensures Occupied(after) <= Occupied(all)
  {
    if all != [] {
      var n := |all| - 1;
      OccupiedHeirs(all[..n], after[..n]);
      assert Heir(all[n], after[n]);
    }
  }

  /** A step that adds no link keeps the seeds, and frees slots if anything. */
  lemma {:induction false} SameLinksKeep(s: State, after: State)
    requires SeedsOk(s) && Occupied(s.all) <= s.conf.maxLinks && Grows(s, after) && |after.all| == |s.all|
    ensures SeedsOk(after) && Occupied(after.all) <= Occupied(s.all)
  {
    hide Occupied;
    OccupiedHeirs(s.all, after.all);
    assert forall l: nat :: l < |s.all| ==> Heir(s.all[l], after.all[l]);
  }

  // --- a task's step ---------------------------------------------------------------------------

  lemma {:induction false} MoveKeeps(s: State, a: nat, m: Moved, l: nat)
    requires Inv(s) && Move(s, a, m, l)
    ensures Inv(Put(s, a, m, l)) && Grows(s, Put(s, a, m, l))
  {
    hide LinksOk, TasksOk, SeedsOk, Occupied, Sound, Winds;
    MovePuts(s, a, m, l);
    MoveGrows(s, a, m, l);
    SameLinksKeep(s, Put(s, a, m, l));
    MoveCloses(s, a, m, l);
  }

  lemma {:induction false} MoveGrows(s: State, a: nat, m: Moved, l: nat)
    requires Move(s, a, m, l)
    ensures Grows(s, Put(s, a, m, l))
  {
    hide Sound, Follows;
  }

  lemma {:induction false} MoveCloses(s: State, a: nat, m: Moved, l: nat)
    requires CloseOk(s) && TasksOk(s) && Move(s, a, m, l)
    ensures CloseOk(Put(s, a, m, l))
  {
    hide Sound;
    ActiveTargets(s.tasks[a]);
    assert TaskOk(s, a);
  }

  lemma {:induction false} ActiveTargets(t: Task)
    requires Targets(t)
    ensures !t.at.Ended? && !Finished(t)
  {
  }

  lemma {:induction false} TaskStepKeeps(s: State, a: nat, choice: bool)
    requires Inv(s) && TaskStep(s, a, choice).Some?
    ensures Inv(TaskStep(s, a, choice).value) && Grows(s, TaskStep(s, a, choice).value)
  {
    hide BudgetOk, SeedsOk, CloseOk, LinkStep, Sound, Leaves, Follows, Winds, Inv, Grows;
    assert LinksOk(s) && TasksOk(s) by { InvParts(s); }
    hide LinksOk, TasksOk;
    SoundFor(s, a);
    var l := Target(s.tasks[a]);
    StepKeeps(a, s.tasks[a], s.all[l], s.stop, choice);
    StepWinds(a, s.tasks[a], s.all[l], s.stop, choice);
    MoveKeeps(s, a, LinkStep(a, s.tasks[a], s.all[l], s.stop, choice).value, l);
  }

  lemma {:induction false} InvParts(s: State)
    ensures Inv(s) <==> LinksOk(s) && TasksOk(s) && BudgetOk(s) && SeedsOk(s) && CloseOk(s)
  {
  }

  // --- a task moves and no link changes -----------------------------------------------------------

  /** A task that holds nothing goes where it holds nothing. */
  ghost predicate Retasked(s: State, a: nat, t: Task, after: State) {
    && a < |s.tasks|
    && after == s.(tasks := s.tasks[a := t])
    && t.role == s.tasks[a].role
    && InRole(t)
    && !Claims(s.tasks[a].at) && !Locks(s.tasks[a].at) && !Claims(t.at) && !Locks(t.at)
    && (t.at.Ended? || !s.tasks[a].at.Ended?)
    && (Targets(t) ==> Target(t) < |s.all|)
    && (forall i :: 0 <= i < |t.todo| ==> t.todo[i] < |s.all|)
    && (HasRoom(t.at) ==> Occupied(s.all) < s.conf.maxLinks)
    && (t.role.Caller? ==> t.at.Ended?)
    && !t.at.Pushed?
  }

  lemma {:induction false} RetaskKeeps(s: State, a: nat, t: Task, after: State)
    requires Inv(s) && Retasked(s, a, t, after)
    ensures Inv(after) && Grows(s, after)
  {
    hide Occupied, GaveUpRightly, Counts, ClaimMarked, InRole;
    forall l: nat | l < |after.all| ensures LinkOk(after, l) { assert LinkOk(s, l); }
    forall b: nat | b < |after.tasks| ensures TaskOk(after, b) { assert TaskOk(s, b); }
    assert TaskOk(s, a);
  }

  lemma {:induction false} DropTaskKeeps(s: State, a: nat)
    requires Inv(s) && DropTask(s, a).Some?
    ensures Inv(DropTask(s, a).value) && Grows(s, DropTask(s, a).value)
  {
    hide BudgetOk, SeedsOk, CloseOk, Sound, Leaves, Follows, Winds, Inv, Grows, LinkOk, InRole;
    assert LinksOk(s) && TasksOk(s) by { InvParts(s); }
    var t := s.tasks[a];
    assert TaskOk(s, a);
    if Targets(t) {
      SoundFor(s, a);
      DroppingKeeps(a, t, s.all[Target(t)]);
      DroppingWinds(s.stop, t, s.all[Target(t)]);
      MoveKeeps(s, a, Dropping(t, s.all[Target(t)]), Target(t));
    } else {
      ClaimsTarget(t);
      EndedInRole(t);
      RetaskKeeps(s, a, t.(at := Ended), DropTask(s, a).value);
    }
  }

  lemma {:induction false} EndedInRole(t: Task)
    ensures InRole(t.(at := Ended))
  {
  }

  lemma {:induction false} ReturnKeeps(s: State, a: nat, found: bool)
    requires Inv(s) && ReturnCall(s, a, found).Some?
    ensures Inv(ReturnCall(s, a, found).value) && Grows(s, ReturnCall(s, a, found).value)
  {
    hide BudgetOk, SeedsOk, CloseOk, LinksOk, Grows;
    assert TaskOk(s, a);
    RetaskKeeps(s, a, ReturnCall(s, a, found).value.tasks[a], ReturnCall(s, a, found).value);
  }

  /** Discovery moves between points at which it holds nothing. */
  lemma {:induction false} DiscoveryKeeps(s: State, t: Task)
    requires Inv(s) && Active(s.tasks[DISCOVERY_TASK]) && !Claims(s.tasks[DISCOVERY_TASK].at)
    requires !Locks(s.tasks[DISCOVERY_TASK].at)
    requires t.role.Discovery? && !LifecyclePoint(t.at) && !Claims(t.at) && !Locks(t.at) && !t.at.Pushed?
    requires Targets(t) ==> Target(t) < |s.all|
    requires forall i :: 0 <= i < |t.todo| ==> t.todo[i] < |s.all|
    requires HasRoom(t.at) ==> Occupied(s.all) < s.conf.maxLinks
    ensures var after := s.(tasks := s.tasks[DISCOVERY_TASK := t]); Inv(after) && Grows(s, after)
  {
    hide BudgetOk, SeedsOk, CloseOk, LinksOk, Grows;
    assert TaskOk(s, DISCOVERY_TASK);
    RetaskKeeps(s, DISCOVERY_TASK, t, s.(tasks := s.tasks[DISCOVERY_TASK := t]));
  }

  // --- new tasks and links --------------------------------------------------------------------------

  lemma {:induction false} CallKeeps(s: State, todo: seq<nat>, fanout: bool)
    requires Inv(s) && Next(s, StartCall(todo, fanout)).Some?
    ensures var after := Next(s, StartCall(todo, fanout)).value; Inv(after) && Grows(s, after)
  {
    hide LinksOk, TasksOk, BudgetOk, SeedsOk, CloseOk, Grows, Next;
    CallHolders(s, todo, fanout);
    CallRest(s, todo, fanout);
  }

  lemma {:induction false} CallHolders(s: State, todo: seq<nat>, fanout: bool)
    requires LinksOk(s) && TasksOk(s) && Next(s, StartCall(todo, fanout)).Some?
    ensures var after := Next(s, StartCall(todo, fanout)).value; LinksOk(after) && TasksOk(after)
  {
    hide GaveUpRightly, Counts, ClaimMarked, TaskStep, DropTask, SpawnLifecycle, ReturnCall, PushLink, CloseStep,
      DiscoveryStep;
    var after := Next(s, StartCall(todo, fanout)).value;
    forall l: nat | l < |after.all| ensures LinkOk(after, l) { assert LinkOk(s, l); }
    forall b: nat | b < |after.tasks| ensures TaskOk(after, b) { if b < |s.tasks| { assert TaskOk(s, b); } }
  }

  lemma {:induction false} CallRest(s: State, todo: seq<nat>, fanout: bool)
    requires Inv(s) && Next(s, StartCall(todo, fanout)).Some?
    ensures var after := Next(s, StartCall(todo, fanout)).value;
      BudgetOk(after) && SeedsOk(after) && CloseOk(after) && Grows(s, after)
  {
    hide Occupied, LinksOk, TaskOk, TaskStep, DropTask, SpawnLifecycle, ReturnCall, PushLink, CloseStep, DiscoveryStep;
    if todo != [] { assert Listed(s, todo[0]); }
  }

  lemma {:induction false} SpawnKeeps(s: State, a: nat)
    requires Inv(s) && SpawnLifecycle(s, a).Some?
    ensures var after := SpawnLifecycle(s, a).value; Inv(after) && Grows(s, after)
  {
    hide LinksOk, TasksOk, BudgetOk, SeedsOk, CloseOk, Grows, SpawnLifecycle;
    SpawnLinks(s, a);
    SpawnTasks(s, a);
    SpawnRest(s, a);
  }

  lemma {:induction false} SpawnLinks(s: State, a: nat)
    requires LinksOk(s) && TasksOk(s) && SpawnLifecycle(s, a).Some?
    ensures LinksOk(SpawnLifecycle(s, a).value)
  {
    hide GaveUpRightly, Trailing;
    var after := SpawnLifecycle(s, a).value;
    assert TaskOk(s, a);
    forall l: nat | l < |after.all| ensures LinkOk(after, l) { assert LinkOk(s, l); }
  }

  lemma {:induction false} SpawnTasks(s: State, a: nat)
    requires TasksOk(s) && SpawnLifecycle(s, a).Some?
    ensures TasksOk(SpawnLifecycle(s, a).value)
  {
    var after := SpawnLifecycle(s, a).value;
    assert TaskOk(s, a);
    forall b: nat | b < |after.tasks| ensures TaskOk(after, b) { if b < |s.tasks| { assert TaskOk(s, b); } }
  }

  lemma {:induction false} SpawnRest(s: State, a: nat)
    requires Inv(s) && SpawnLifecycle(s, a).Some?
    ensures var after := SpawnLifecycle(s, a).value;
      BudgetOk(after) && SeedsOk(after) && CloseOk(after) && Grows(s, after)
  {
    hide LinksOk, Occupied, SeedsOk;
    assert TaskOk(s, a);
    SameLinksKeep(s, SpawnLifecycle(s, a).value);
  }

  lemma {:induction false} PushKeeps(s: State, seed: Seed)
    requires Inv(s) && PushLink(s, seed).Some?
    ensures var after := PushLink(s, seed).value; Inv(after) && Grows(s, after)
  {
    hide Occupied, LinksOk, SeedsOk, CloseOk, Grows, LinkOk;
    var after := PushLink(s, seed).value;
    if |after.all| == |s.all| {
      assert TaskOk(s, DISCOVERY_TASK);
      DiscoveryKeeps(s, after.tasks[DISCOVERY_TASK]);
    } else {
      OccupiedAppend(s.all, NewLink(seed, Discovered));
      PushHolders(s, seed);
      PushRest(s, seed);
    }
  }

  lemma {:induction false} PushHolders(s: State, seed: Seed)
    requires LinksOk(s) && TasksOk(s) && PushLink(s, seed).Some? && |PushLink(s, seed).value.all| > |s.all|
    ensures LinksOk(PushLink(s, seed).value) && TasksOk(PushLink(s, seed).value)
  {
    hide GaveUpRightly, Counts;
    var after := PushLink(s, seed).value;
    assert TaskOk(s, DISCOVERY_TASK);
    NewLinkOk(seed);
    forall l: nat | l < |after.all| ensures LinkOk(after, l) { if l < |s.all| { assert LinkOk(s, l); } }
    forall b: nat | b < |after.tasks| ensures TaskOk(after, b) { assert TaskOk(s, b); }
  }

  lemma {:induction false} PushRest(s: State, seed: Seed)
    requires SeedsOk(s) && CloseOk(s) && PushLink(s, seed).Some? && |PushLink(s, seed).value.all| > |s.all|
    ensures var after := PushLink(s, seed).value; SeedsOk(after) && CloseOk(after) && Grows(s, after)
  {
  }

  lemma {:induction false} NewLinkOk(seed: Seed)
    ensures var link := NewLink(seed, Discovered);
      ClaimMarked(link) && GaveUpRightly(Discovered, link.log) && Counts(link.log, Ended, 0)
  {
  }

  // --- close ---------------------------------------------------------------------------------------------

  lemma {:induction false} CloseKeeps(s: State, action: Action)
    requires Inv(s) && CloseStep(s, action).Some?
    ensures var after := CloseStep(s, action).value; Inv(after) && Grows(s, after)
  {
    hide LinksOk, TasksOk, SeedsOk, CloseOk, Grows, CloseStep, Occupied;
    CloseHolders(s, action);
    CloseRest(s, action);
    SameLinksKeep(s, CloseStep(s, action).value);
    CloseBudget(s, action);
  }

  lemma {:induction false} CloseHolders(s: State, action: Action)
    requires LinksOk(s) && TasksOk(s) && CloseOk(s) && CloseStep(s, action).Some?
    ensures LinksOk(CloseStep(s, action).value) && TasksOk(CloseStep(s, action).value)
  {
    hide LinkOk, TaskOk, CloseStep, CloseOk;
    CloseSteps(s, action);
    var after := CloseStep(s, action).value;
    forall l: nat | l < |after.all| ensures LinkOk(after, l) { CloseLinkOk(s, action, l); }
    forall b: nat | b < |after.tasks| ensures TaskOk(after, b) { CloseTaskOk(s, action, b); }
  }

  lemma {:induction false} CloseSteps(s: State, action: Action)
    requires CloseStep(s, action).Some?
    ensures CloseStep(s, action).value.tasks == s.tasks && |CloseStep(s, action).value.all| == |s.all|
  {
    hide HasReceiver, CallUnderWay;
  }

  lemma {:induction false} CloseLinkOk(s: State, action: Action, l: nat)
    requires CloseOk(s) && CloseStep(s, action).Some? && l < |s.all| && |CloseStep(s, action).value.all| == |s.all|
    requires LinkOk(s, l)
    ensures LinkOk(CloseStep(s, action).value, l)
  {
    hide GaveUpRightly, Counts, InRole, Quiet, Shut, HasReceiver, CallUnderWay;
  }

  lemma {:induction false} CloseTaskOk(s: State, action: Action, b: nat)
    requires CloseOk(s) && CloseStep(s, action).Some? && b < |s.tasks| && TaskOk(s, b)
    requires CloseStep(s, action).value.tasks == s.tasks && |CloseStep(s, action).value.all| == |s.all|
    ensures TaskOk(CloseStep(s, action).value, b)
  {
    hide InRole, Quiet, Shut, HasReceiver, CallUnderWay;
    ClaimsTarget(s.tasks[b]);
  }

  lemma {:induction false} CloseRest(s: State, action: Action)
    requires CloseOk(s) && TasksOk(s) && CloseStep(s, action).Some?
    ensures var after := CloseStep(s, action).value; CloseOk(after) && Grows(s, after) && |after.all| == |s.all|
  {
    hide Quiet, Shut;
    assert TaskOk(s, DISCOVERY_TASK);
    CloseQuiet(s, action);
    CloseShut(s, action);
  }

  lemma {:induction false} CloseBudget(s: State, action: Action)
    requires BudgetOk(s) && CloseStep(s, action).Some? && Occupied(CloseStep(s, action).value.all) <= Occupied(s.all)
    ensures BudgetOk(CloseStep(s, action).value)
  {
    hide Occupied;
  }

  lemma {:induction false} CloseQuiet(s: State, action: Action)
    requires CloseOk(s) && CloseStep(s, action).Some?
    ensures !CloseStep(s, action).value.overlapped ==> Quiet(CloseStep(s, action).value)
  {
    hide Shut, HasReceiver;
  }

  lemma {:induction false} CloseShut(s: State, action: Action)
    requires CloseOk(s) && TasksOk(s) && CloseStep(s, action).Some?
    ensures Sealed(CloseStep(s, action).value) ==> Shut(CloseStep(s, action).value)
  {
    hide HasReceiver;
    assert TaskOk(s, DISCOVERY_TASK);
  }
}
