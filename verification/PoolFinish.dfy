/** `close` is never stuck: from wherever it has got to, some run takes it to its end
    (src/pool.rs). */
module PoolFinish {
  import opened PoolLink
  import opened Pool
  import opened PoolInvariant
  import opened PoolRuns
  import opened PoolQuiesce
  import opened PoolReach

  // --- what is left to do ---------------------------------------------------------------------

  /** Steps a task can have left, the one that ends it included. */
  function Toll(p: Point): nat {
    if p.Ended? then 0 else 1 + Left(p)
  }

  function TotalToll(tasks: seq<Task>): nat {
    if tasks == [] then 0 else TotalToll(tasks[..|tasks| - 1]) + Toll(tasks[|tasks| - 1].at)
  }

  lemma {:induction false} TotalTollPut(tasks: seq<Task>, a: nat, t: Task)
    requires a < |tasks|
    ensures TotalToll(tasks[a := t]) == TotalToll(tasks) - Toll(tasks[a].at) + Toll(t.at)
  {
    hide Toll;
    var n := |tasks| - 1;
    if a == n {
      assert tasks[a := t][..n] == tasks[..n];
    } else {
      assert tasks[a := t][..n] == tasks[..n][a := t];
      TotalTollPut(tasks[..n], a, t);
    }
  }

  function PhaseRank(p: Phase): nat {
    match p
    case Open => 3 case Stopping => 2 case Shutting => 1 case _ => 0
  }

  /** Steps left of the drain. */
  function DrainLeft(s: State): nat {
    if s.phase.Done? || s.drained > |s.all| then 0
    else
      4 + 4 * (|s.all| - s.drained)
        - (match s.phase case DrainLocked => 1 case DrainTaken => 2 case DrainStored => 3 case _ => 0)
  }

  /** `after` is nearer the end: a phase further, else a link further, else a step. */
  ghost predicate Nearer(after: State, s: State) {
    || PhaseRank(after.phase) < PhaseRank(s.phase)
    || (PhaseRank(after.phase) == PhaseRank(s.phase) && DrainLeft(after) < DrainLeft(s))
    || (PhaseRank(after.phase) == PhaseRank(s.phase) && DrainLeft(after) == DrainLeft(s)
        && TotalToll(after.tasks) < TotalToll(s.tasks))
  }

  ghost predicate Advances(s: State, action: Action) {
    Next(s, action).Some? && Nearer(Next(s, action).value, s) && !Next(s, action).value.phase.Open?
  }

  // --- a step nearer ------------------------------------------------------------------------------

  /** A task between awaits steps without waiting for anybody. */
  lemma {:induction false} BetweenAwaits(a: nat, t: Task, link: Link, stop: bool)
    requires !Awaiting(t.at) && !t.at.Ended? && !t.at.Answered?
    ensures Targets(t) && LinkStep(a, t, link, stop, true).Some?
    ensures Toll(LinkStep(a, t, link, stop, true).value.task.at) < Toll(t.at)
  {
  }

  lemma {:induction false} StepAdvances(s: State, a: nat)
    requires Inv(s) && !s.phase.Open? && a < |s.tasks|
    requires !Awaiting(s.tasks[a].at) && !s.tasks[a].at.Ended? && !s.tasks[a].at.Answered?
    ensures Advances(s, Step(a, true))
  {
    hide BudgetOk, SeedsOk, CloseOk, LinksOk, LinkStep, Toll, TotalToll, Claims, Locks;
    assert TaskOk(s, a);
    var t := s.tasks[a];
    BetweenAwaits(a, t, s.all[0], s.stop);
    var l := Target(t);
    BetweenAwaits(a, t, s.all[l], s.stop);
    TotalTollPut(s.tasks, a, LinkStep(a, t, s.all[l], s.stop, true).value.task);
  }

  lemma {:induction false} DropAdvances(s: State, a: nat)
    requires Inv(s) && !s.phase.Open? && a < |s.tasks| && Awaiting(s.tasks[a].at)
    requires s.tasks[a].role.Caller? || s.phase.Shutting?
    ensures Advances(s, Drop(a))
  {
    hide Inv, TotalToll;
    TotalTollPut(s.tasks, a, s.tasks[a].(at := Ended));
  }

  lemma {:induction false} ReturnAdvances(s: State, a: nat)
    requires Inv(s) && !s.phase.Open? && a < |s.tasks| && s.tasks[a].at.Answered?
    ensures Advances(s, Return(a, false))
  {
    hide Inv, TotalToll;
    TotalTollPut(s.tasks, a, Next(s, Return(a, false)).value.tasks[a]);
  }

  /** While a background task is left, one comes to an await or is aborted at it. */
  lemma {:induction false} Aborts(s: State, a: nat) returns (action: Action)
    requires Inv(s) && s.phase.Shutting? && a < |s.tasks| && !s.tasks[a].at.Ended?
    ensures Advances(s, action)
  {
    hide Inv, Advances, Awaiting;
    if Awaiting(s.tasks[a].at) {
      DropAdvances(s, a);
      action := Drop(a);
    } else if s.tasks[a].at.Answered? {
      ReturnAdvances(s, a);
      action := Return(a, false);
    } else {
      StepAdvances(s, a);
      action := Step(a, true);
    }
  }

  /** Whoever holds the lock of the link that is to be drained lets go of it. */
  lemma {:induction false} LetsGo(s: State) returns (action: Action)
    requires Inv(s) && s.phase.Draining? && s.drained < |s.all| && !s.all[s.drained].lock.Free?
    ensures Advances(s, action)
  {
    hide BudgetOk, SeedsOk, Counts, GaveUpRightly, Advances, Quiet, Shut;
    assert LinkOk(s, s.drained);
    var b := s.all[s.drained].lock.task;
    assert TaskOk(s, b);
    if s.tasks[b].at.Holding? {
      DropAdvances(s, b);
      action := Drop(b);
    } else {
      StepAdvances(s, b);
      action := Step(b, true);
    }
  }

  lemma {:induction false} CloseAdvances(s: State, action: Action)
    requires Inv(s) && CloseStep(s, action).Some? && !action.CloseStop?
    ensures Advances(s, action)
  {
    hide LinksOk, TasksOk, BudgetOk, SeedsOk, Quiet, Shut, TotalToll;
  }

  lemma {:induction false} SomethingAdvances(s: State) returns (action: Action)
    requires Inv(s) && InClose(s.phase)
    ensures Advances(s, action)
  {
    hide Inv, Advances;
    if s.phase.Stopping? {
      action := CloseTakeTasks;
    } else if s.phase.Shutting? {
      if a: nat :| a < |s.tasks| && !s.tasks[a].role.Caller? && Active(s.tasks[a]) {
        action := Aborts(s, a);
        return;
      }
      action := CloseJoined;
    } else if s.phase.Draining? {
      Drains(s);
      if s.drained == |s.all| {
        action := CloseFinish;
      } else if s.all[s.drained].lock.Free? {
        action := CloseLock;
      } else {
        action := LetsGo(s);
        return;
      }
    } else {
      Drains(s);
      action := if s.phase.DrainLocked? then CloseTake else if s.phase.DrainTaken? then CloseStore else CloseUnlock;
    }
    CloseAdvances(s, action);
  }

  lemma {:induction false} Drains(s: State)
    requires Inv(s)
    ensures s.drained <= |s.all| && (Locking(s.phase) ==> s.drained < |s.all|)
  {
    hide LinksOk, TasksOk, BudgetOk, SeedsOk, Quiet, Shut;
  }

  lemma {:induction false} Finishes(from: State, s: State) returns (done: State)
    requires Inv(s) && Reaches(AnyDrops, from, s) && !s.phase.Open?
    ensures Reaches(AnyDrops, from, done) && done.phase.Done?
    decreases PhaseRank(s.phase), DrainLeft(s), TotalToll(s.tasks)
  {
    hide Inv, Reaches, Next, Grows, PhaseRank, DrainLeft, TotalToll;
    if s.phase.Done? {
      done := s;
    } else {
      var action := SomethingAdvances(s);
      NextKeeps(s, action);
      ReachesBy(AnyDrops, from, s, action);
      done := Finishes(from, Next(s, action).value);
    }
  }

  /** From every reachable state in which `close` has been called, it can return: no task and
      no lock can keep it for ever. */
  lemma {:induction false} CloseCanFinish(conf: Conf, actions: seq<Action>, s: State)
    requires Reachable(conf, actions, s) && !s.phase.Open?
    ensures exists after :: Reaches(AnyDrops, s, after) && after.phase.Done?
  {
    hide Inv, Run, Init, Grows, Reaches;
    ReachableInv(conf, actions, s);
    ReachesItself(AnyDrops, s);
    var done := Finishes(s, s);
  }
}
