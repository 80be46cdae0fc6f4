/** The connection pool as a step system (src/pool.rs): callers, redial lifecycles, the
    discovery task and `close`, interleaved at every atomic access and await. */
module Pool {
  import opened Wrappers
  import opened PoolLink

  /** `discovery` is whether discovery is enabled, `pinned` whether the pool trusts one
      station only, under which discovery ends at once. */
  datatype Conf = Conf(seeds: seq<Seed>, discovery: bool, pinned: bool, maxLinks: nat)

  /** How far `close` has got: the stop signal sent, the task lock taken and the tasks
      being aborted, the links being drained; a link is locked, its session taken, its flag
      stored. */
  datatype Phase = Open | Stopping | Shutting | Draining | DrainLocked | DrainTaken | DrainStored | Done

  /** Every link ever added, in order; the pool's own list is those from `drained` on.
      Task 0 is discovery's. `stop` is the value in the stop channel. `overlapped`
      remembers whether a call was under way while `close` ran. */
  datatype State = State(
    conf: Conf, all: seq<Link>, tasks: seq<Task>, stop: bool, phase: Phase, drained: nat, overlapped: bool)

  const DISCOVERY_TASK := 0

  datatype Action =
    | Step(a: nat, choice: bool)
    | Drop(a: nat)
    | Spawn(a: nat)
    | StartCall(todo: seq<nat>, fanout: bool)
    | Return(a: nat, found: bool)
    | PollDiscovery
    | DiscoverCall(todo: seq<nat>)
    | Inspect(l: nat)
    | Count
    | Peek(l: nat)
    | SkipRow
    | Push(seed: Seed)
    | RowsDone
    | DiscoveryEnds
    | CloseStop
    | CloseTakeTasks
    | CloseJoined
    | CloseLock
    | CloseTake
    | CloseStore
    | CloseUnlock
    | CloseFinish

  // --- starting ----------------------------------------------------------------------------

  function BootstrapLink(seeds: seq<Seed>, i: nat): Link
    requires i < |seeds|
  {
    Won(NewLink(seeds[i], Bootstrap), i + 1)
  }

  /** `Pool::connect`: one claimed link and one lifecycle per seed, and discovery. */
  function Init(conf: Conf): State {
    State(conf,
          seq(|conf.seeds|, i requires 0 <= i < |conf.seeds| => BootstrapLink(conf.seeds, i)),
          [Task(Discovery, if conf.discovery then Unpolled else Ended, 0, [], 0)]
          + seq(|conf.seeds|, i requires 0 <= i < |conf.seeds| => Task(Lifecycle, Spawned, i, [], 0)),
          false, Open, 0, false)
  }

  // --- steps ---------------------------------------------------------------------------------

  predicate Listed(s: State, l: nat) {
    s.drained <= l < |s.all|
  }

  /** What `select_connected_links` may give: listed links in any order. Each was seen
      connected when its own flag was read, which may be at different times. */
  predicate Candidates(s: State, todo: seq<nat>) {
    && (forall i :: 0 <= i < |todo| ==> Listed(s, todo[i]))
    && (forall i, j :: 0 <= i < j < |todo| ==> todo[i] != todo[j])
  }

  predicate Active(t: Task) {
    !t.at.Ended?
  }

  predicate CallUnderWay(s: State) {
    exists a :: 0 <= a < |s.tasks| && s.tasks[a].role.Caller? && Active(s.tasks[a])
  }

  /** Some task holds a receiver of the stop channel; without one, sending stores nothing. */
  predicate HasReceiver(s: State) {
    exists a :: 0 <= a < |s.tasks| && Subscribed(s.tasks[a])
  }

  /** `close` has been called and has not returned. */
  predicate InClose(p: Phase) {
    !p.Open? && !p.Done?
  }

  /** The links are being drained, or have been: the background tasks are all gone. */
  predicate Joined(p: Phase) {
    p.Draining? || Locking(p) || p.Done?
  }

  /** `close` holds the lock of the link it is draining. */
  predicate Locking(p: Phase) {
    p.DrainLocked? || p.DrainTaken? || p.DrainStored?
  }

  function Occupied(all: seq<Link>): nat {
    if all == [] then 0
    else Occupied(all[..|all| - 1]) + if all[|all| - 1].origin == Discovered && !all[|all| - 1].log.gaveUp then 1 else 0
  }

  /** The pool's own list. */
  function List(s: State): seq<Link> {
    if s.drained <= |s.all| then s.all[s.drained..] else []
  }

  function Put(s: State, a: nat, m: Moved, l: nat): State
    requires a < |s.tasks| && l < |s.all|
  {
    s.(tasks := s.tasks[a := m.task], all := s.all[l := m.link])
  }

  /** A task's own next step. */
  function TaskStep(s: State, a: nat, choice: bool): Option<State> {
    if a < |s.tasks| && Targets(s.tasks[a]) && Target(s.tasks[a]) < |s.all| then
      var l := Target(s.tasks[a]);
      match LinkStep(a, s.tasks[a], s.all[l], s.stop, choice)
      case Some(m) => Some(Put(s, a, m, l))
      case None => None
    else None
  }

  /** A task dropped at an await: a caller's by its owner at any time, a background task's
      by `close` once it has the task lock. */
  function DropTask(s: State, a: nat): Option<State> {
    if a < |s.tasks| && Awaiting(s.tasks[a].at) && (s.tasks[a].role.Caller? || s.phase.Shutting?) then
      var t := s.tasks[a];
      if Targets(t) && Target(t) < |s.all| then Some(Put(s, a, Dropping(t, s.all[Target(t)]), Target(t)))
      else Some(s.(tasks := s.tasks[a := t.(at := Ended)]))
    else None
  }

  /** The claim's winner spawns the lifecycle, unless `close` has the task lock. */
  function SpawnLifecycle(s: State, a: nat): Option<State> {
    if a < |s.tasks| && (s.tasks[a].at.Claimed? || s.tasks[a].at.PushClaimed?) && s.tasks[a].link < |s.all|
      && !s.phase.Shutting? then
      var t := s.tasks[a];
      Some(s.(tasks := s.tasks[a := t.(at := if t.at.Claimed? then Picking else Counting)]
        + [Task(Lifecycle, Spawned, t.link, [], 0)],
              all := s.all[t.link := s.all[t.link].(claimant := Some(|s.tasks|))]))
    else None
  }

  /** A call out of candidates returns; discovery, if it was answered, goes on to the rows
      the answer may give. */
  function ReturnCall(s: State, a: nat, found: bool): Option<State> {
    if a < |s.tasks| && (s.tasks[a].at.Answered? || (s.tasks[a].at.Picking? && s.tasks[a].todo == [])) then
      var t := s.tasks[a];
      Some(s.(tasks := s.tasks[a := t.(at := if t.role.Caller? then Ended
                                             else if t.at.Answered? && found then Counting
                                             else Idle)]))
    else None
  }

  predicate DiscoveryAction(action: Action) {
    || action.PollDiscovery? || action.DiscoverCall? || action.Inspect? || action.Count? || action.Peek?
    || action.SkipRow? || action.RowsDone? || action.DiscoveryEnds?
  }

  /** Discovery's own moves: the first poll, calling through the pool, asking a link for
      records, counting the slots for a row, peeking at a link's node id, skipping a row,
      running out of rows, stopping. */
  function DiscoveryMove(s: State, t: Task, action: Action): Option<Task> {
    match action
    case PollDiscovery => if t.at.Unpolled? then Some(t.(at := if s.conf.pinned then Ended else Idle)) else None
    case DiscoverCall(todo) => if t.at.Idle? && Candidates(s, todo) then Some(t.(at := Picking, todo := todo)) else None
    case Inspect(l) => if t.at.Idle? && Listed(s, l) && s.all[l].connected then Some(t.(at := Looking, link := l))
      else None
    case Count =>
      if t.at.Counting? then Some(t.(at := if Occupied(List(s)) < s.conf.maxLinks then Counted else Idle)) else None
    case Peek(l) => if t.at.Counted? && Listed(s, l) && s.all[l].connected then Some(t.(at := Peeking, link := l))
      else None
    case SkipRow => if t.at.Counted? then Some(t.(at := Counting)) else None
    case RowsDone => if t.at.Counting? then Some(t.(at := Idle)) else None
    case DiscoveryEnds => if t.at.Idle? && s.stop then Some(t.(at := Ended)) else None
    case _ => None
  }

  function DiscoveryStep(s: State, action: Action): Option<State> {
    if DISCOVERY_TASK < |s.tasks| then
      match DiscoveryMove(s, s.tasks[DISCOVERY_TASK], action)
      case Some(t) => Some(s.(tasks := s.tasks[DISCOVERY_TASK := t]))
      case None => None
    else None
  }

  /** Pushes a new link unless its seed is listed. */
  function PushLink(s: State, seed: Seed): Option<State> {
    if DISCOVERY_TASK < |s.tasks| && s.tasks[DISCOVERY_TASK].at == Counted then
      if exists l :: s.drained <= l < |s.all| && s.all[l].seed == seed then
        Some(s.(tasks := s.tasks[DISCOVERY_TASK := s.tasks[DISCOVERY_TASK].(at := Counting)]))
      else
        Some(s.(all := s.all + [NewLink(seed, Discovered)],
                tasks := s.tasks[DISCOVERY_TASK := s.tasks[DISCOVERY_TASK].(at := Pushed, link := |s.all|)]))
    else None
  }

  /** `close` sends the stop signal, which is stored only if a task holds a receiver. */
  function Signalled(s: State): State {
    s.(phase := Stopping, stop := HasReceiver(s), overlapped := s.overlapped || CallUnderWay(s))
  }

  /** One step of `close`. */
  function CloseStep(s: State, action: Action): Option<State> {
    match action
    case CloseStop => if s.phase.Open? then Some(Signalled(s)) else None
    case CloseTakeTasks => if s.phase.Stopping? then Some(s.(phase := Shutting)) else None
    case CloseJoined =>
      if s.phase.Shutting? && forall a :: 0 <= a < |s.tasks| && !s.tasks[a].role.Caller? ==> !Active(s.tasks[a]) then
        Some(s.(phase := Draining))
      else None
    case CloseLock =>
      if s.phase.Draining? && s.drained < |s.all| && s.all[s.drained].lock.Free? then
        Some(s.(phase := DrainLocked, all := s.all[s.drained := s.all[s.drained].(lock := ByClose)]))
      else None
    case CloseTake =>
      if s.phase.DrainLocked? && s.drained < |s.all| then
        Some(s.(phase := DrainTaken, all := s.all[s.drained := s.all[s.drained].(session := false)]))
      else None
    case CloseStore =>
      if s.phase.DrainTaken? && s.drained < |s.all| then
        Some(s.(phase := DrainStored, all := s.all[s.drained := s.all[s.drained].(connected := false)]))
      else None
    case CloseUnlock =>
      if s.phase.DrainStored? && s.drained < |s.all| then
        Some(s.(phase := Draining, drained := s.drained + 1,
                all := s.all[s.drained := s.all[s.drained].(lock := Free)]))
      else None
    case CloseFinish => if s.phase.Draining? && s.drained == |s.all| then Some(s.(phase := Done)) else None
    case _ => None
  }

  /** The state after an action, or None where the code cannot take it. */
  function Next(s: State, action: Action): Option<State> {
    match action
    case Step(a, choice) => TaskStep(s, a, choice)
    case Drop(a) => DropTask(s, a)
    case Spawn(a) => SpawnLifecycle(s, a)
    case StartCall(todo, fanout) =>
      if Candidates(s, todo) then
        Some(s.(tasks := s.tasks + [Task(Caller(fanout), Picking, 0, todo, 0)],
                overlapped := s.overlapped || InClose(s.phase)))
      else None
    case Return(a, found) => ReturnCall(s, a, found)
    case Push(seed) => PushLink(s, seed)
    case _ => if DiscoveryAction(action) then DiscoveryStep(s, action) else CloseStep(s, action)
  }

  /** The state after a run, or None if the code cannot run so. */
  function Run(s: State, actions: seq<Action>): Option<State>
    decreases |actions|
  {
    if actions == [] then Some(s)
    else match Next(s, actions[0])
      case Some(after) => Run(after, actions[1..])
      case None => None
  }

}
