/** One pooled link, and every step a task can take on it: each atomic access, lock
    acquisition and await of src/pool.rs is a step of its own. */
module PoolLink {
  import opened Wrappers

  datatype Seed = Seed(host: string, port: int)

  datatype Origin = Bootstrap | Discovered

  /** Who holds a link's state lock: nobody, a task, or `close`. */
  datatype Lock = Free | Of(task: nat) | ByClose

  /** `consecutive_failures` and `gave_up`; and, remembered by the model, the outcome of
      every dial and how many there had been when it gave up. */
  datatype Log = Log(failures: nat, gaveUp: bool, dials: seq<bool>, gaveUpAt: nat)

  /** A link's fields; and, remembered by the model, which task holds its claim and whether
      a task was dropped while holding it. */
  datatype Link = Link(
    seed: Seed, origin: Origin, session: bool, connected: bool, redialing: bool, lock: Lock, log: Log,
    claimant: Option<nat>, leaked: bool)

  function NewLink(seed: Seed, origin: Origin): Link {
    Link(seed, origin, false, false, false, Free, Log(0, false, [], 0), None, false)
  }

  const MAX_RESPAWN_ATTEMPTS: nat := 5

  predicate ShouldGiveUp(origin: Origin, failures: nat) {
    origin == Discovered && failures >= MAX_RESPAWN_ATTEMPTS
  }

  // --- where a task is --------------------------------------------------------------------

  /** The program points of the tasks. A caller picks its next link, holds its lock for a
      call, fails, locks again, clears the session, then the flag, unlocks, claims, spawns.
      Discovery, once polled, looks at a link, asks it for records, calls, is answered,
      counts slots, peeks at the links for the row's node id, pushes, claims, spawns. A lifecycle, once
      polled, dials, installs the session under the lock, then stores the flag, then
      resets the counter; or counts a failure and gives up or sleeps; then releases its
      claim. */
  datatype Point =
    | Picking | Holding | Failed | Relocked | Cleared | Marked | Unlocked | Claimed
    | Unpolled | Idle | Looking | Inspecting | Answered | Counting | Counted | Peeking | Peeked | Pushed | PushClaimed
    | Spawned | Start | Dialing | WantLock | Installed | Dropped | Stored | Failing | Judging | Sleeping | Releasing
    | Ended

  datatype Role = Caller(fanout: bool) | Lifecycle | Discovery

  /** A task: what it is for, where it is, the link it is about, the links it has yet to
      try, and the failures a lifecycle has just counted. */
  datatype Task = Task(role: Role, at: Point, link: nat, todo: seq<nat>, counted: nat)

  predicate LifecyclePoint(p: Point) {
    || p.Spawned? || p.Start? || p.Dialing? || p.WantLock? || p.Installed? || p.Dropped? || p.Stored?
    || p.Failing? || p.Judging? || p.Sleeping? || p.Releasing?
  }

  predicate DiscoveryPoint(p: Point) {
    || p.Unpolled? || p.Idle? || p.Looking? || p.Inspecting? || p.Answered? || p.Counting? || p.Counted? || p.Peeking?
    || p.Peeked? || p.Pushed? || p.PushClaimed?
  }

  /** Discovery has counted a free slot and not yet used it. */
  predicate HasRoom(p: Point) {
    p.Counted? || p.Peeking? || p.Peeked?
  }

  /** The task holds a receiver of the stop signal: a lifecycle from its first poll until
      it is about to release its claim, discovery from its first poll to its end. */
  predicate Subscribed(t: Task) {
    if t.role.Discovery? then !t.at.Unpolled? && !t.at.Ended?
    else LifecyclePoint(t.at) && !t.at.Spawned? && !t.at.Releasing?
  }

  /** A task at this point holds its link's claim. */
  predicate Claims(p: Point) {
    p.Claimed? || p.PushClaimed? || LifecyclePoint(p)
  }

  /** A task at this point holds its link's state lock. */
  predicate Locks(p: Point) {
    p.Holding? || p.Relocked? || p.Cleared? || p.Marked? || p.Inspecting? || p.Peeked? || p.Installed?
  }

  /** Points at which the task is suspended in an await, so that dropping it ends it. */
  predicate Awaiting(p: Point) {
    || p.Picking? || p.Holding? || p.Failed? || p.Claimed? || p.Unpolled? || p.Idle? || p.Looking? || p.Inspecting?
    || p.Counting? || p.Counted? || p.Peeking? || p.PushClaimed? || p.Spawned? || p.Dialing? || p.WantLock?
    || p.Sleeping?
  }

  /** The task's next step is about one link. */
  predicate Targets(t: Task) {
    match t.at
    case Picking => t.todo != []
    case Unpolled => false
    case Idle => false
    case Answered => false
    case Counting => false
    case Counted => false
    case Ended => false
    case _ => true
  }

  function Target(t: Task): nat
    requires Targets(t)
  {
    if t.at.Picking? then t.todo[0] else t.link
  }

  /** Each kind of task keeps to its own points. */
  predicate InRole(t: Task) {
    match t.role
    case Lifecycle => LifecyclePoint(t.at) || t.at.Ended?
    case Caller(_) => !LifecyclePoint(t.at) && !DiscoveryPoint(t.at)
    case Discovery => !LifecyclePoint(t.at)
  }

  // --- one step on one link -------------------------------------------------------------------

  datatype Moved = Moved(task: Task, link: Link)

  function Won(link: Link, a: nat): Link {
    link.(redialing := true, claimant := Some(a))
  }

  /** The next step of a call or publish, or of discovery, on its target link. `choice` is
      whether the session answered. None when the step has to wait for a lock. */
  function CallerStep(a: nat, t: Task, link: Link, choice: bool): Option<Moved>
    requires Targets(t)
  {
    match t.at
    case Picking =>
      if link.lock.Free? then
        Some(Moved(t.(at := Holding, link := t.todo[0], todo := t.todo[1..]), link.(lock := Of(a))))
      else None
    case Holding =>
      if !link.session then Some(Moved(t.(at := Picking), link.(lock := Free)))
      else if choice then
        Some(Moved(t.(at := if t.role.Discovery? then Answered else Picking,
                      todo := if t.role == Caller(true) then t.todo else []), link.(lock := Free)))
      else Some(Moved(t.(at := Failed), link.(lock := Free)))
    case Failed => if link.lock.Free? then Some(Moved(t.(at := Relocked), link.(lock := Of(a)))) else None
    case Relocked => Some(Moved(t.(at := Cleared), link.(session := false)))
    case Cleared => Some(Moved(t.(at := Marked), link.(connected := false)))
    case Marked => Some(Moved(t.(at := Unlocked), link.(lock := Free)))
    case Unlocked =>
      if link.redialing then Some(Moved(t.(at := Picking), link)) else Some(Moved(t.(at := Claimed), Won(link, a)))
    case Looking => if link.lock.Free? then Some(Moved(t.(at := Inspecting), link.(lock := Of(a)))) else None
    case Inspecting => Some(Moved(t.(at := Idle), link.(lock := Free)))
    case Peeking => if link.lock.Free? then Some(Moved(t.(at := Peeked), link.(lock := Of(a)))) else None
    case Peeked => Some(Moved(t.(at := Counted), link.(lock := Free)))
    case Pushed =>
      if link.redialing then Some(Moved(t.(at := Counting), link)) else Some(Moved(t.(at := PushClaimed), Won(link, a)))
    case _ => None
  }

  /** The next step of a link's lifecycle. `choice` is whether the dial succeeded, or
      whether the stop signal ended the sleep. */
  function LifecycleStep(a: nat, t: Task, link: Link, stop: bool, choice: bool): Option<Moved> {
    match t.at
    case Spawned => Some(Moved(t.(at := Start), link))
    case Start => Some(Moved(t.(at := if stop then Releasing else Dialing), link))
    case Dialing => Some(Moved(t.(at := if choice then WantLock else Failing),
      link.(log := link.log.(dials := link.log.dials + [choice]))))
    case WantLock =>
      if link.lock.Free? then Some(Moved(t.(at := Installed), link.(lock := Of(a), session := true))) else None
    case Installed => Some(Moved(t.(at := Dropped), link.(lock := Free)))
    case Dropped => Some(Moved(t.(at := Stored), link.(connected := true)))
    case Stored => Some(Moved(t.(at := Releasing), link.(log := link.log.(failures := 0))))
    case Failing => Some(Moved(t.(at := Judging, counted := link.log.failures + 1),
                               link.(log := link.log.(failures := link.log.failures + 1))))
    case Judging =>
      if ShouldGiveUp(link.origin, t.counted) then
        Some(Moved(t.(at := Releasing), link.(log := link.log.(gaveUp := true, gaveUpAt := |link.log.dials|))))
      else Some(Moved(t.(at := Sleeping), link))
    case Sleeping => Some(Moved(t.(at := if choice && stop then Releasing else Start), link))
    case Releasing => Some(Moved(t.(at := Ended), link.(redialing := false, claimant := None)))
    case _ => None
  }

  function LinkStep(a: nat, t: Task, link: Link, stop: bool, choice: bool): Option<Moved>
    requires Targets(t)
  {
    if LifecyclePoint(t.at) then LifecycleStep(a, t, link, stop, choice) else CallerStep(a, t, link, choice)
  }

  /** A task dropped while it waits: its lock is released, its claim is not. */
  function Dropping(t: Task, link: Link): Moved {
    Moved(t.(at := Ended), link.(
      lock := if Locks(t.at) then Free else link.lock,
      claimant := if Claims(t.at) then None else link.claimant,
      leaked := link.leaked || Claims(t.at)))
  }

  // --- what a link's fields say about it ----------------------------------------------------

  /** How many of the last dials failed in a row. */
  function Trailing(dials: seq<bool>): nat {
    if dials == [] || dials[|dials| - 1] then 0 else 1 + Trailing(dials[..|dials| - 1])
  }

  lemma {:induction false} TrailingGrows(dials: seq<bool>, ok: bool)
    ensures Trailing(dials + [ok]) == if ok then 0 else 1 + Trailing(dials)
  {
    assert (dials + [ok])[..|dials|] == dials;
  }

  /** The failure counter against the dials, given where the claimant is. */
  ghost predicate Counts(log: Log, at: Point, counted: nat) {
    if at.WantLock? || at.Installed? || at.Dropped? || at.Stored? then Trailing(log.dials) == 0
    else if at.Failing? then log.failures + 1 == Trailing(log.dials)
    else log.failures == Trailing(log.dials) && (at.Judging? ==> counted == log.failures)
  }

  /** A link that has given up was discovered, and gave up when its last five dials or
      more had all failed. */
  ghost predicate GaveUpRightly(origin: Origin, log: Log) {
    log.gaveUp ==>
      origin == Discovered && log.gaveUpAt <= |log.dials| && Trailing(log.dials[..log.gaveUpAt]) >= MAX_RESPAWN_ATTEMPTS
  }

  /** The claim is marked exactly while a task holds it or was dropped with it. */
  ghost predicate ClaimMarked(link: Link) {
    && (link.redialing <==> link.claimant.Some? || link.leaked)
    && !(link.claimant.Some? && link.leaked)
  }

  /** A link and its log, as far as one task knows them: who holds the lock and the claim,
      and what the counter says. */
  ghost predicate Sound(a: nat, t: Task, link: Link) {
    && ClaimMarked(link)
    && GaveUpRightly(link.origin, link.log)
    && (link.claimant == Some(a) <==> Claims(t.at))
    && (link.lock == Of(a) <==> Locks(t.at))
    && (link.claimant == Some(a) ==> Counts(link.log, t.at, t.counted))
    && (link.claimant == None && !link.leaked ==> Counts(link.log, Ended, 0))
    && (link.session && !link.connected ==> link.claimant.Some?)
    && (link.claimant == Some(a) && link.session && !link.connected ==> Installing(t.at))
    && (t.at.Cleared? ==> !link.session)
  }

  /** Between setting a session and the flag that shows it. */
  predicate Installing(p: Point) {
    p.Installed? || p.Dropped?
  }

  /** What another task may rely on while task `a` moves: its claim, its lock, and the
      log its claim protects. */
  ghost predicate Leaves(a: nat, link: Link, after: Link) {
    && after.seed == link.seed
    && after.origin == link.origin
    && (link.log.gaveUp ==> after.log.gaveUp)
    && (after.claimant == link.claimant || {link.claimant, after.claimant} == {None, Some(a)})
    && (after.lock == link.lock || {link.lock, after.lock} == {Free, Of(a)})
    && (link.claimant != Some(a) ==>
      after.log == link.log && (after.session && !after.connected ==> link.session && !link.connected))
    && (link.lock != Free && link.lock != Of(a) ==> after.session == link.session)
  }

  /** Where a step may take a task. */
  ghost predicate Follows(t: Task, after: Task)
    requires Targets(t)
  {
    && after.role == t.role
    && InRole(after)
    && (HasRoom(after.at) ==> HasRoom(t.at))
    && !after.at.Pushed?
    && (after.todo == t.todo || after.todo == [] || (t.todo != [] && after.todo == t.todo[1..]))
    && (after.at.Ended? || after.link == Target(t))
  }

  /** Only an install sets a session and only a store after it the flag; once the stop
      signal is up, a lifecycle that has not dialed does not. */
  ghost predicate Winds(stop: bool, t: Task, link: Link, m: Moved) {
    && (m.link.session && !link.session ==> t.at.WantLock?)
    && (m.link.connected && !link.connected ==> t.at.Dropped?)
    && (stop && Idling(t.at) ==> Idling(m.task.at))
    && (!LifecyclePoint(t.at) ==> !LifecyclePoint(m.task.at))
  }

  /** A lifecycle that has not dialed yet, or will not again. */
  predicate Idling(p: Point) {
    p.Spawned? || p.Start? || p.Releasing? || p.Ended?
  }

  lemma {:induction false} StepWinds(a: nat, t: Task, link: Link, stop: bool, choice: bool)
    requires Targets(t) && LinkStep(a, t, link, stop, choice).Some?
    ensures Winds(stop, t, link, LinkStep(a, t, link, stop, choice).value)
  {
    hide CallerStep, LifecycleStep, Winds;
    if LifecyclePoint(t.at) {
      LifecycleWinds(a, t, link, stop, choice);
    } else {
      CallerWinds(a, t, link, stop, choice);
    }
  }

  lemma {:induction false} CallerWinds(a: nat, t: Task, link: Link, stop: bool, choice: bool)
    requires Targets(t) && !LifecyclePoint(t.at) && CallerStep(a, t, link, choice).Some?
    ensures Winds(stop, t, link, CallerStep(a, t, link, choice).value)
  {
  }

  lemma {:induction false} LifecycleWinds(a: nat, t: Task, link: Link, stop: bool, choice: bool)
    requires LifecyclePoint(t.at) && LifecycleStep(a, t, link, stop, choice).Some?
    ensures Winds(stop, t, link, LifecycleStep(a, t, link, stop, choice).value)
  {
  }

  lemma {:induction false} DroppingWinds(stop: bool, t: Task, link: Link)
    ensures Winds(stop, t, link, Dropping(t, link))
  {
  }

  /** Every step keeps the link sound, and leaves other tasks what they rely on. */
  lemma {:induction false} StepKeeps(a: nat, t: Task, link: Link, stop: bool, choice: bool)
    requires Targets(t) && InRole(t) && Sound(a, t, link) && LinkStep(a, t, link, stop, choice).Some?
    ensures var m := LinkStep(a, t, link, stop, choice).value;
      Sound(a, m.task, m.link) && Leaves(a, link, m.link) && Follows(t, m.task)
  {
    hide Sound, Leaves, Follows, LifecycleStep, CallerStep;
    if LifecyclePoint(t.at) {
      LifecycleKeepsSound(a, t, link, stop, choice);
      LifecycleLeaves(a, t, link, stop, choice);
    } else {
      CallerKeepsSound(a, t, link, choice);
      CallerLeaves(a, t, link, choice);
    }
  }

  lemma {:induction false} CallerKeepsSound(a: nat, t: Task, link: Link, choice: bool)
    requires Targets(t) && !LifecyclePoint(t.at) && Sound(a, t, link) && CallerStep(a, t, link, choice).Some?
    ensures var m := CallerStep(a, t, link, choice).value; Sound(a, m.task, m.link)
  {
    hide Trailing, GaveUpRightly;
  }

  lemma {:induction false} CallerLeaves(a: nat, t: Task, link: Link, choice: bool)
    requires Targets(t) && InRole(t) && !LifecyclePoint(t.at) && Sound(a, t, link)
    requires CallerStep(a, t, link, choice).Some?
    ensures var m := CallerStep(a, t, link, choice).value; Leaves(a, link, m.link) && Follows(t, m.task)
  {
    hide Counts, GaveUpRightly;
  }

  lemma {:induction false} LifecycleKeepsSound(a: nat, t: Task, link: Link, stop: bool, choice: bool)
    requires LifecyclePoint(t.at) && Sound(a, t, link) && LifecycleStep(a, t, link, stop, choice).Some?
    ensures var m := LifecycleStep(a, t, link, stop, choice).value; Sound(a, m.task, m.link)
  {
    hide Trailing;
    var dials := link.log.dials;
    match t.at {
      case Dialing =>
        TrailingGrows(dials, choice);
        if link.log.gaveUp { assert (dials + [choice])[..link.log.gaveUpAt] == dials[..link.log.gaveUpAt]; }
      case Judging => assert dials[..|dials|] == dials;
      case _ =>
    }
  }

  lemma {:induction false} LifecycleLeaves(a: nat, t: Task, link: Link, stop: bool, choice: bool)
    requires InRole(t) && LifecyclePoint(t.at) && Sound(a, t, link) && LifecycleStep(a, t, link, stop, choice).Some?
    ensures var m := LifecycleStep(a, t, link, stop, choice).value; Leaves(a, link, m.link) && Follows(t, m.task)
  {
    hide Counts, GaveUpRightly;
  }

  lemma {:induction false} DroppingKeeps(a: nat, t: Task, link: Link)
    requires Targets(t) && InRole(t) && Awaiting(t.at) && Sound(a, t, link)
    ensures var m := Dropping(t, link); Sound(a, m.task, m.link) && Leaves(a, link, m.link) && Follows(t, m.task)
  {
    hide Trailing, GaveUpRightly;
  }
}
