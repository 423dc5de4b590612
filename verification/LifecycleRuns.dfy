// Whole runs of the task service over the three tables.
module LifecycleRuns {
  import opened Common
  import opened Statuses
  import opened TaskStoreModel
  import opened LifecycleInvariants
  import opened LifecycleStructure

  datatype Event =
    | Create(task: string, commands: seq<string>, hosts: seq<string>, timeout: int, now: int)
    | AddHosts(task: string, template: string, commands: seq<string>, hosts: seq<string>)
    | RemoveHost(task: string, host: string)
    | Delete(task: string)
    | CleanUp(cutoff: int)
    | Start(task: string, now: int)
    | Stop(task: string, now: int)
    | Cancel(task: string, now: int)
    | Read(task: string, order: seq<HostStatus>, now: int)
    | Undelivered(command: string)
    | SetStatus(command: string, status: CommandStatus, now: int)
    | Report(result: Result, order: seq<HostStatus>, now: int)
    | ReportError(command: string, host: string, order: seq<HostStatus>, now: int)
    | Retry(command: string, order: seq<HostStatus>, now: int)
    | ConnectionLoss(host: string)
    | AgentLoss(host: string, orders: string -> seq<HostStatus>, now: int)
    | Sweep(late: seq<string>, orders: string -> seq<HostStatus>, now: int)
    | TimeOut(command: string, order: seq<HostStatus>, now: int)

  ghost function Apply(db: Db, e: Event): Db
    requires e.Create? || e.AddHosts? ==> |e.commands| == |e.hosts|
  {
    match e
    case Create(t, cs, hs, timeout, now) => CreateTask(db, t, cs, hs, timeout, now)
    case AddHosts(t, template, cs, hs) => AddTaskHosts(db, t, template, cs, hs)
    case RemoveHost(t, h) => RemoveTaskHost(db, t, h)
    case Delete(t) => DeleteTask(db, t)
    case CleanUp(cutoff) => Cleanup(db, cutoff)
    case Start(t, now) => StartTask(db, t, now)
    case Stop(t, now) => StopTask(db, t, now)
    case Cancel(t, now) => CancelTask(db, t, now)
    case Read(t, order, now) => ReadStatus(db, t, order, now)
    case Undelivered(c) => DispatchFailed(db, c)
    case SetStatus(c, status, now) => SetCommandStatus(db, c, status, now)
    case Report(res, order, now) => HandleResult(db, res, order, now)
    case ReportError(c, h, order, now) => HandleExecutionError(db, c, h, order, now)
    case Retry(c, order, now) => RetryCommand(db, c, order, now)
    case ConnectionLoss(h) => ConnectionLost(db, h)
    case AgentLoss(h, orders, now) => AgentDisconnected(db, h, orders, now)
    case Sweep(late, orders, now) => TimeOutAll(db, late, orders, now)
    case TimeOut(c, order, now) => TimeOutOne(db, c, order, now)
  }

  // The tables with a log: the task IDs ever created, and how often starting a
  // task has succeeded.
  datatype World = World(db: Db, known: set<string>, started: multiset<string>)

  const EMPTY := World(EMPTY_DB, {}, multiset{})

  // New IDs are new; agents report about their own commands; a sweep visits
  // the commands that are late. In a sweep other transactions can come between
  // the listing and the handling of a command, whatever has become of it by then:
  // each handling is a transaction of its own, too.
  ghost predicate Possible(w: World, e: Event) {
    match e
    case Create(t, cs, hs, _, _) => t !in w.known && |cs| == |hs| && Fresh(w.db, cs)
    case AddHosts(_, _, cs, hs) => |cs| == |hs| && Fresh(w.db, cs)
    case Report(res, _, _) => Honest(w.db, res.command, res.host)
    case ReportError(c, h, _, _) => Honest(w.db, c, h)
    case Sweep(late, _, now) => IsListing(late, LateCommands(w.db, now))
    case _ => true
  }

  // Besides, a host is only removed from a task in which it occurs once, or that
  // has no commands.
  ghost predicate Careful(w: World, e: Event) {
    e.RemoveHost? && CanRemove(w.db, e.task) ==>
      |CommandsOn(w.db, e.task, e.host)| == 1 || CommandsOf(w.db, e.task) == {}
  }

  ghost function Next(w: World, e: Event): World
    requires Possible(w, e)
  {
    World(Apply(w.db, e),
          if e.Create? then w.known + {e.task} else w.known,
          if e.Start? && CanStart(w.db, e.task) then w.started + multiset{e.task} else w.started)
  }

  ghost predicate IsRun(w: World, es: seq<Event>, careful: bool)
    decreases |es|
  {
    es == [] || (Possible(w, es[0]) && (careful ==> Careful(w, es[0])) && IsRun(Next(w, es[0]), es[1..], careful))
  }

  ghost function After(w: World, es: seq<Event>, careful: bool): World
    requires IsRun(w, es, careful)
    decreases |es|
  {
    if es == [] then w else After(Next(w, es[0]), es[1..], careful)
  }

  // ----- Coupling, links and totals -----

  lemma StepKeepsIntact(w: World, e: Event)
    requires Intact(w.db) && Possible(w, e) && w.db.tasks.Keys <= w.known
    ensures Intact(Apply(w.db, e))
    ensures Totals(w.db) && Careful(w, e) ==> Totals(Apply(w.db, e))
  {
    var db, d := w.db, Apply(w.db, e);
    match e
    case Create(t, cs, hs, timeout, now) => CreateKeeps(db, t, cs, hs, timeout, now);
    case AddHosts(t, template, cs, hs) => AddHostsKeeps(db, t, template, cs, hs);
    case RemoveHost(t, h) =>
      RemoveKeepsLinks(db, t, h);
      if Totals(db) { RemoveKeepsTotalsExactly(db, t, h); }
    case Delete(t) => DeleteKeeps(db, t);
    case CleanUp(cutoff) => CleanupKeeps(db, cutoff);
    case Start(t, now) => StartKeeps(db, t, now); ShapeKeeps(db, d);
    case Stop(t, now) => StopKeeps(db, t, now); ShapeKeeps(db, d);
    case Cancel(t, now) => CancelKeeps(db, t, now); ShapeKeeps(db, d);
    case Read(t, order, now) => ReadKeeps(db, t, order, now); ShapeKeeps(db, d);
    case Undelivered(c) => DispatchFailedKeeps(db, c); ShapeKeeps(db, d);
    case SetStatus(c, status, now) => SetStatusKeeps(db, c, status, now); ShapeKeeps(db, d);
    case Report(res, order, now) => ResultKeeps(db, res, order, now); ShapeKeeps(db, d);
    case ReportError(c, h, order, now) => ExecutionErrorKeeps(db, c, h, order, now); ShapeKeeps(db, d);
    case Retry(c, order, now) => RetryKeeps(db, c, order, now); ShapeKeeps(db, d);
    case ConnectionLoss(h) => ConnectionLostKeeps(db, h); ShapeKeeps(db, d);
    case AgentLoss(h, orders, now) => AgentDisconnectedKeeps(db, h, orders, now); ShapeKeeps(db, d);
    case Sweep(late, orders, now) => TimeOutAllKeeps(db, late, orders, now); ShapeKeeps(db, d);
    case TimeOut(c, order, now) => TimeOutOneKeeps(db, c, order, now); ShapeKeeps(db, d);
  }

  // ----- Tasks never become pending again -----

  // Tasks only disappear, except the one created; and one that has left the
  // pending status does not return to it.
  ghost predicate Onward(db: Db, d: Db) {
    forall t :: t in d.tasks ==>
      t in db.tasks && (d.tasks[t].status.TaskPending? ==> db.tasks[t].status.TaskPending?)
  }

  lemma OnwardTrans(a: Db, b: Db, c: Db)
    requires Onward(a, b) && Onward(b, c)
    ensures Onward(a, c)
  {}

  lemma ProgressOnward(db: Db, task: string, order: seq<HostStatus>, now: int, keep: bool)
    requires task in db.tasks
    ensures Onward(db, WithProgress(db, task, order, now, keep))
  {}

  lemma CommandProgressOnward(db: Db, m: Db, command: string, order: seq<HostStatus>, now: int)
    requires command in m.commands && TaskExists(m, command) && m.tasks == db.tasks
    ensures Onward(db, WithCommandProgress(m, command, order, now))
  {
    match m.commands[command].taskId
    case None =>
    case Some(t) => ProgressOnward(m, t, order, now, false);
  }

  lemma SetBothReports(db: Db, cs: set<string>, pc: Patch<CommandStatus>, rs: set<nat>, pr: Patch<HostStatus>,
                       command: string)
    requires CanReport(db, command)
    ensures var m := SetBoth(db, cs, pc, rs, pr);
            command in m.commands && TaskExists(m, command) && m.tasks == db.tasks
  {}

  lemma ResultOnward(db: Db, res: Result, order: seq<HostStatus>, now: int)
    ensures Onward(db, HandleResult(db, res, order, now))
  {
    if CanReport(db, res.command) {
      var pc := Patch(ResultCommandStatus(res), Some(res.startedAt), Some(res.finishedAt));
      var pr := Patch(ResultHostStatus(res), Some(res.startedAt), Some(res.finishedAt));
      var rs := RowsOfCommandOn(db, res.command, res.host);
      SetBothReports(db, {res.command}, pc, rs, pr, res.command);
      CommandProgressOnward(db, SetBoth(db, {res.command}, pc, rs, pr), res.command, order, now);
    }
  }

  lemma ErrorOnward(db: Db, c: string, h: string, order: seq<HostStatus>, now: int)
    ensures Onward(db, HandleExecutionError(db, c, h, order, now))
  {
    if CanReport(db, c) {
      var rs := RowsOfCommandOn(db, c, h);
      SetBothReports(db, {c}, ToAt(CommandFailed, now), rs, ToAt(HostExecFailed, now), c);
      CommandProgressOnward(db, SetBoth(db, {c}, ToAt(CommandFailed, now), rs, ToAt(HostExecFailed, now)),
                            c, order, now);
    }
  }

  lemma RetryOnward(db: Db, c: string, order: seq<HostStatus>, now: int)
    ensures Onward(db, RetryCommand(db, c, order, now))
  {
    if CanRetry(db, c) {
      var pc := Patch(Some(CommandPending), Some(None), Some(None));
      var pr := Patch(Some(HostPending), Some(None), Some(None));
      SetBothReports(db, {c}, pc, RowsOfCommand(db, c), pr, c);
      CommandProgressOnward(db, SetBoth(db, {c}, pc, RowsOfCommand(db, c), pr), c, order, now);
    }
  }

  lemma TimeOutOneOnward(db: Db, c: string, order: seq<HostStatus>, now: int)
    ensures Onward(db, TimeOutOne(db, c, order, now))
  {
    if CanReport(db, c) {
      var rs := RowsOfCommand(db, c);
      SetBothReports(db, {c}, ToAt(CommandTimeout, now), rs, ToAt(HostTimeout, now), c);
      CommandProgressOnward(db, SetBoth(db, {c}, ToAt(CommandTimeout, now), rs, ToAt(HostTimeout, now)), c, order, now);
    }
  }

  lemma {:induction false} SweepOnward(db: Db, late: seq<string>, orders: string -> seq<HostStatus>, now: int)
    ensures Onward(db, TimeOutAll(db, late, orders, now))
  {
    if late != [] {
      var n := |late| - 1;
      SweepOnward(db, late[..n], orders, now);
      TimeOutOneOnward(TimeOutAll(db, late[..n], orders, now), late[n], orders(late[n]), now);
      OnwardTrans(db, TimeOutAll(db, late[..n], orders, now), TimeOutAll(db, late, orders, now));
    }
  }

  lemma AgentOnward(db: Db, h: string, orders: string -> seq<HostStatus>, now: int)
    ensures Onward(db, AgentDisconnected(db, h, orders, now))
  {}

  lemma StructureOnward(db: Db, e: Event)
    requires e.AddHosts? || e.RemoveHost? || e.Delete? || e.CleanUp?
             || e.Start? || e.Stop? || e.Cancel? || e.Undelivered?
             || e.SetStatus? || e.ConnectionLoss?
    requires e.AddHosts? ==> |e.commands| == |e.hosts|
    ensures Onward(db, Apply(db, e))
  {}

  lemma StepOnward(w: World, e: Event)
    requires Possible(w, e) && !e.Create?
    ensures Onward(w.db, Apply(w.db, e))
  {
    match e
    case Read(t, order, now) => if t in w.db.tasks { ProgressOnward(w.db, t, order, now, true); }
    case Report(res, order, now) => ResultOnward(w.db, res, order, now);
    case ReportError(c, h, order, now) => ErrorOnward(w.db, c, h, order, now);
    case Retry(c, order, now) => RetryOnward(w.db, c, order, now);
    case AgentLoss(h, orders, now) => AgentOnward(w.db, h, orders, now);
    case Sweep(late, orders, now) => SweepOnward(w.db, late, orders, now);
    case TimeOut(c, order, now) => TimeOutOneOnward(w.db, c, order, now);
    case _ => StructureOnward(w.db, e);
  }

  // The log is right: tasks are known, no task was started twice, and one that
  // was started is not pending.
  ghost predicate Logged(w: World) {
    && w.db.tasks.Keys <= w.known
    && (forall t :: w.started[t] <= 1)
    && (forall t :: t in w.started ==> t in w.known && (t in w.db.tasks ==> !w.db.tasks[t].status.TaskPending?))
  }

  lemma StartLeavesPending(db: Db, t: string, now: int)
    requires CanStart(db, t)
    ensures t in StartTask(db, t, now).tasks && StartTask(db, t, now).tasks[t].status.TaskRunning?
  {}

  lemma StepKeepsLog(w: World, e: Event)
    requires Logged(w) && Intact(w.db) && Possible(w, e)
    ensures Logged(Next(w, e))
  {
    if e.Create? {
      CreateKeeps(w.db, e.task, e.commands, e.hosts, e.timeout, e.now);
    } else {
      StepOnward(w, e);
      if e.Start? && CanStart(w.db, e.task) {
        StartLeavesPending(w.db, e.task, e.now);
        assert w.started[e.task] == 0;
      }
    }
  }

  // ----- The theorems over every run -----

  ghost predicate Good(w: World) {
    Intact(w.db) && Logged(w)
  }

  lemma {:induction false} RunKeepsGood(w: World, es: seq<Event>, careful: bool)
    requires Good(w) && IsRun(w, es, careful)
    ensures Good(After(w, es, careful))
    ensures careful && Totals(w.db) ==> Totals(After(w, es, careful).db)
    decreases |es|
  {
    if es != [] {
      StepKeepsIntact(w, es[0]);
      StepKeepsLog(w, es[0]);
      RunKeepsGood(Next(w, es[0]), es[1..], careful);
    }
  }

  lemma EmptyIsGood()
    ensures Good(EMPTY) && Totals(EMPTY.db)
  {}

  // In every run, each command's status is the image of its row's, each command
  // has exactly one row and it names the same host, and no record is orphaned.
  lemma TablesStayCoupledInEveryRun(es: seq<Event>)
    requires IsRun(EMPTY, es, false)
    ensures Linked(After(EMPTY, es, false).db) && Coupled(After(EMPTY, es, false).db)
  {
    EmptyIsGood();
    RunKeepsGood(EMPTY, es, false);
  }

  // In every run no task is ever started twice, and one that has been started
  // is not pending as long as it exists.
  lemma TasksStartAtMostOnceInEveryRun(es: seq<Event>)
    requires IsRun(EMPTY, es, false)
    ensures var w := After(EMPTY, es, false);
            && (forall t :: w.started[t] <= 1)
            && (forall t :: t in w.started && t in w.db.tasks ==> !w.db.tasks[t].status.TaskPending?)
  {
    EmptyIsGood();
    RunKeepsGood(EMPTY, es, false);
  }

  // If hosts are only removed from tasks in which they occur once, or that have
  // no commands, every task's host total is the number of its commands in every
  // run.
  lemma TotalsStayRightInEveryRun(es: seq<Event>)
    requires IsRun(EMPTY, es, true)
    ensures Totals(After(EMPTY, es, true).db)
  {
    EmptyIsGood();
    RunKeepsGood(EMPTY, es, true);
  }

  // ----- Canceling a task -----

  // Canceling leaves none of the task's commands or rows pending or running,
  // changes none that were finished, and touches nothing of other tasks.
  lemma CancelExactly(db: Db, task: string, now: int)
    requires CanCancel(db, task)
    ensures var d := CancelTask(db, task, now);
            && d.tasks == db.tasks[task := db.tasks[task].(status := TaskCanceled, finishedAt := Some(now))]
            && OpenCommands(d, task) == {} && OpenRows(d, task) == {}
            && d.commands.Keys == db.commands.Keys && d.rows.Keys == db.rows.Keys
            && (forall c :: c in db.commands && c !in OpenCommands(db, task) ==> d.commands[c] == db.commands[c])
            && (forall r :: r in db.rows && r !in OpenRows(db, task) ==> d.rows[r] == db.rows[r])
            && (forall c :: c in OpenCommands(db, task) ==>
                  d.commands[c] == db.commands[c].(status := CommandCanceled, finishedAt := Some(now)))
            && (forall r :: r in OpenRows(db, task) ==>
                  d.rows[r] == db.rows[r].(status := HostCanceled, finishedAt := Some(now)))
  {}

}
